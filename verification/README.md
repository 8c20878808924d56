# Verified models of the platform's hash chains, migrations, event stream and pipelines

This project models the parts of the repository whose correctness is hardest to see from the
code, and proves what they promise for every input, every table and every run. It is written in
Dafny 4.11 and stands alone; `dafny verify dfyconfig.toml` checks all of it.

What is modelled, in the order of the modules' dependencies:

- **Canonical JSON** (`Sorting`, `JsonText`, `Decimals`, `CanonicalJson`). Payload values are printed
  with sorted keys, compact separators, `\u` escapes and Decimals and UUIDs as text. The reference is
  `Meaning`, in which a JSON object is a finite map. The text follows sections 4 and 7 of RFC 8259.
- **Revision hash chains** (`HashChain`, `RolePayload`, `MethodologyPayload`, `PayloadColumns`). A digest
  covers the content and, as one more key, the predecessor's digest.
- **The allowlist migrations** 0010 (control plane and tenant) and 0012 (`Allowlists`, `ChainWalk`,
  `TrackedWalk`, `RetrievalClosure`, `ShapeWalk`, `AllowlistPin`, `AllowlistUnpin`, `RevisionTable`,
  `MigrationLimits`). `ChainWalk` is the walk they share, on values; `TrackedWalk` and `ShapeWalk` say
  which chains survive the two kinds of it, in either direction; `RevisionTable` holds the loops over a
  mutable table and proves them equal to it.
- **The methodology migrations** 0006, 0007 and tenant 0009 (`MethodologyRoles`, `MethodologyUpgrade`,
  `MethodologyDigests`, `MethodologyRename`, `MintedRoles`, `MethodologyTables`, `RoleLineage`), with the
  lookup that reads their result.
- **The event stream** (`PythonText`, `SseLines`, `SseWire`, `SsePayload`, `SseBatch`, `SseClient`): the server's printer, both
  parsers, the renderer's exit code. The wire format is a subset of sections 9.2.5 and 9.2.6 of the
  WHATWG HTML standard; the model follows the code where the two differ.
- **The ingestion worker** (`IngestPipeline`, `IngestOutcome`, `IngestWorker`, `IngestSteps`, `IngestRefinement`): a lone
  worker's loop on a mutable store, any number of workers as interleaved steps, and the loop as a run of
  those steps.
- **The migration runners** (`CypherFile`, `Neo4jRunner`, `MigratePlatform`), which may die before any
  operation and start over.
- **Smaller cores**: paging (`RunPaging`), envelope encryption (`Envelope`), token cost (`TokenCost`).

Hypotheses are predicates on parameters, never axioms, and each is shown to be satisfiable.
`HashChain.Ideal`: the digest function is injective and never yields the genesis sentinel.
`Envelope.Ideal`: sealed data opens under exactly the key, nonce and associated data it was sealed
with (AES-GCM, NIST SP 800-38D). `SseWire.Inverts`: the JSON parser inverts the printer on trees
without repeated keys; the batch/incremental equivalence assumes nothing of the parser at all.
`MethodologyUpgrade.DrawsNew`: the ids drawn are new and differ from one another.

Tables are sequences in the order the migration's query returns them. An exception inside a
migration is a refusal that leaves the table as it was. Identifiers drawn by `uuid4` and bytes drawn
by `os.urandom` are parameters, as are stage outcomes and the moments at which a process dies.

## Where the code differs from its notes

- 0010 says a re-run is idempotent (line 153). `RerunChangesNothing` gives the exact condition, and
  `RerunChangesATable` a table that fails it: a row with tool names between two empty ones.
- 0010 says empty allowlists are a no-op. They are rewritten and re-anchored like any other row. In a
  valid chain such a row keeps its bytes exactly when its column is a list, no row before it has tool
  names, and only empty rows stand between it and the first empty one, or when the run raises
  (`EmptyRowKept`). `EmptyRowChanges` is a chain without any name that has an empty row rewritten.
- 0010 and 0012 describe a chain that stays intact. It does exactly when the skipped rows stand where
  `UpgradePinsChains` and `UpgradeKeepsChainsValid` say, and on the way back where `DowngradeNamesChains`
  and `DowngradeKeepsChainsValid` say. `PinningBreaksAChain`, `ClosureBreaksAChain`,
  `UnpinningBreaksAChain` and `ReopeningBreaksAChain` are valid chains that do not survive.
- 0012's downgrade takes the retrieval tool also from roles that had it before the upgrade
  (`ClosureDowngradeTakesTooMuch`), and hashes what is left, not the empty allowlist
  (`DowngradeKeepsChainsValid`, `OnlyRetrievalGoes`).
- 0006 says its downgrade loses information for multi-role methodologies only. It also loses the bundles
  of later revisions that differ from the first (`DowngradeLosesABundle`), and the digests: they come back
  exactly when they already were the re-anchored ones (`DowngradeRestoresDigests`, `DigestMayComeBack`).
  Under an ideal digest function one over a bundle never does, so no methodology that has revisions is left
  with a valid chain over its bundles (`NoDigestComesBack`, `DowngradeValidatesNoChain`,
  `DowngradeLosesADigest`).
- Tenant 0009 says a methodology without a role cannot occur. It occurs exactly for agents whose
  methodology revision no longer exists (`DanglingExactly`, `AgentLeftDangling`), as the comment inside the
  loop says.

## Model

| member | source | states |
|---|---|---|
| Sorting.SortCanonical | alembic/control_plane/versions/2026_05_12_0010_role_tool_allowlist_pin.py:103-120 | two lists sort alike exactly when they are rearrangements of each other, ties being equal |
| JsonText.DecodeOfDumps | padhanam/security/hash_chain.py:74-81 | every JSON tree is read back from its printed text, whatever characters its strings hold |
| JsonText.DumpsInjective | padhanam/security/hash_chain.py:74-81 | two trees with the same text are the same tree |
| JsonText.DumpsPrintable | apps/api/adapters/sse_event_translator.py:44-45 | printed JSON is printable ASCII, so encoding leaves it alone and no line break gets onto the wire |
| Decimals.DecimalTextExact | padhanam/security/hash_chain.py:66-68 | two Decimals get the same text exactly when they are the same number |
| Decimals.DecimalTextReads | padhanam/security/hash_chain.py:66-68 | a fixed-point reader makes of a Decimal's text the same number |
| Decimals.UuidTextInjective | padhanam/security/hash_chain.py:69-70 | two UUIDs get the same text exactly when they are equal |
| Decimals.UuidTextReads | padhanam/security/hash_chain.py:69-70 | a reader of the hyphenated form makes of a UUID's text the UUID |
| CanonicalJson.CanonicalDecodes | padhanam/security/hash_chain.py:55-81 | a decoder recovers from the canonical text a tree that means what the payload means |
| CanonicalJson.CanonicalAscends | padhanam/security/hash_chain.py:74-81 | in the canonical text every object lists its keys in strictly ascending code-point order, at every depth |
| CanonicalJson.CanonicalIs | padhanam/security/hash_chain.py:74-81 | that order and the meaning of the payload leave exactly one text |
| CanonicalJson.CanonicalReads | padhanam/security/hash_chain.py:55-81 | a reader finds every key and value in its place, and reads Decimals and UUIDs back from their texts |
| CanonicalJson.SampleCanonical | padhanam/security/hash_chain.py:74-81 | one payload's text in full: sorted keys, compact separators, escapes |
| CanonicalJson.CanonicalExact | padhanam/security/hash_chain.py:55-81 | two payloads give the same text exactly when they mean the same, key order at any depth aside |
| CanonicalJson.BytesExact | padhanam/security/hash_chain.py:74-81 | the same of the encoded bytes, for the text is ASCII |
| CanonicalJson.SortKeysKeepsMeaning | padhanam/security/hash_chain.py:74-81 | sorting the keys at every depth changes no meaning |
| HashChain.HashExact | padhanam/security/hash_chain.py:84-100 | two revision hashes agree exactly when contents, apart from an overwritten key, and predecessors agree |
| HashChain.TamperEvident | padhanam/security/hash_chain.py:84-100 | two valid chains end in one digest exactly when they have the same length and the same content at every position |
| HashChain.HeadsDiffer | padhanam/security/hash_chain.py:84-100 | no digest occurs twice in a valid chain |
| HashChain.IdealHashExists | padhanam/security/hash_chain.py:52-52 | the hypothesis on the digest can be met |
| RolePayload.ContentExact | alembic/control_plane/versions/2026_05_12_0010_role_tool_allowlist_pin.py:87-120 | two payloads mean the same exactly when all their columns do, source ids as multisets and scores as numbers |
| RolePayload.PinnedHashExact | alembic/control_plane/versions/2026_05_12_0010_role_tool_allowlist_pin.py:103-120 | a role hash ignores the order of source ids, pins and dict keys, and nothing else |
| RolePayload.NamesAreNotPins | alembic/control_plane/versions/2026_05_12_0010_role_tool_allowlist_pin.py:280-297 | the name encoding and the pin encoding of an allowlist mean the same only when both are empty |
| RolePayload.RoleHashExact | alembic/tenant/versions/2026_05_12_0010_agent_tool_allowlist_pin.py:73-103 | a revision hash as a statement about the columns, the tool list and the predecessor |
| MethodologyPayload.MethodologyHashExact | alembic/control_plane/versions/2026_05_11_0006_methodology_role_refs.py:113-133 | a methodology hash ignores the order of references to distinct roles, and nothing else in them |
| PayloadColumns.ColumnsRead | alembic/control_plane/versions/2026_05_12_0010_role_tool_allowlist_pin.py:103-120 | a reader of a role's payload finds each column under its own name, source ids in order, and nothing else |
| PayloadColumns.NamedToolsRead | alembic/control_plane/versions/2026_05_12_0010_role_tool_allowlist_pin.py:280-297 | the allowlist by name is the names in ascending order |
| PayloadColumns.PinnedToolsRead | alembic/control_plane/versions/2026_05_12_0010_role_tool_allowlist_pin.py:87-101 | the pinned allowlist is the pins ascending by tool, then by revision |
| PayloadColumns.PlaybookRead | alembic/control_plane/versions/2026_05_11_0006_methodology_role_refs.py:113-133 | a reader of a methodology's payload finds its name, description and references, ascending by role |
| ChainWalk.WalkByTemplate | alembic/control_plane/versions/2026_05_15_0012_role_allowlist_retrieval_closure.py:149-216 | however templates interleave, the walk does to each chain what it does to that chain alone |
| ChainWalk.ChainsDetermineTable | alembic/control_plane/versions/2026_05_15_0012_role_allowlist_retrieval_closure.py:130-147 | tables with equal chains in equal places are equal |
| ChainWalk.WalkAt | alembic/control_plane/versions/2026_05_12_0010_role_tool_allowlist_pin.py:146-214 | each row is stepped once, from where the walk stands after the rows before it |
| ChainWalk.ValidStep | padhanam/security/hash_chain.py:84-100 | a chain is valid exactly when its front is and its last row names the front's head and carries the right digest |
| TrackedWalk.ValidWhenKeptLead | alembic/control_plane/versions/2026_05_15_0012_role_allowlist_retrieval_closure.py:149-216 | where kept rows are chained from and rewritten ones get a new sound digest, a valid chain stays valid exactly when the kept rows lead |
| ShapeWalk.ValidWhenSurvives | alembic/control_plane/versions/2026_05_12_0010_role_tool_allowlist_pin.py:123-214 | where rows of the wanted shape are skipped, a valid chain is valid in the new encoding exactly when they lead, or no other row has tools and the empty ones stand together |
| RetrievalClosure.UpgradeKeepsChainsValid | alembic/control_plane/versions/2026_05_15_0012_role_allowlist_retrieval_closure.py:130-216 | a run of 0012 leaves a valid chain valid exactly when its skipped rows form a prefix of it, or when some row makes the run raise |
| RetrievalClosure.UpgradeIsIdempotent | alembic/control_plane/versions/2026_05_15_0012_role_allowlist_retrieval_closure.py:151-173 | a second run of 0012 changes nothing, whatever the table held, raising rows included |
| RetrievalClosure.DowngradeUndoesUpgrade | alembic/control_plane/versions/2026_05_15_0012_role_allowlist_retrieval_closure.py:219-301 | a run down after a run up restores every allowlist and digest exactly when no named row carried the retrieval entry before |
| RetrievalClosure.DowngradeKeepsChainsValid | alembic/control_plane/versions/2026_05_15_0012_role_allowlist_retrieval_closure.py:219-301 | a run of 0012 backwards leaves a valid chain valid exactly when the rows that lose nothing form a prefix of it, or when some row makes the run raise |
| RetrievalClosure.NoNamedRoleWithoutTools | alembic/control_plane/versions/2026_05_15_0012_role_allowlist_retrieval_closure.py:130-216 | after a run no named role is without tools; a row that had tools, or is of another role, is as it was |
| RetrievalClosure.OnlyRetrievalGoes | alembic/control_plane/versions/2026_05_15_0012_role_allowlist_retrieval_closure.py:244-259 | the downgrade takes the retrieval entry out of named roles' columns, keeps every other entry in order, and touches no other role |
| AllowlistPin.UpgradePinsChains | alembic/control_plane/versions/2026_05_12_0010_role_tool_allowlist_pin.py:123-214 | a run of 0010 makes a valid chain valid under the pinned encoding exactly when its object-shaped rows lead, or it has no names and its empty rows stand together; when a row raises, exactly when the chain has no names as it is |
| AllowlistPin.UntouchedChain | alembic/control_plane/versions/2026_05_12_0010_role_tool_allowlist_pin.py:280-297 | a valid chain as it stands is valid under the pinned encoding exactly when it holds no names |
| AllowlistPin.EmptyRowKept | alembic/control_plane/versions/2026_05_12_0010_role_tool_allowlist_pin.py:18-21 | a run of 0010 leaves a row without tools as it was exactly when its column is a list, no names stand before it and only empty rows between it and the first empty one, or when a row raises |
| AllowlistPin.RerunChangesNothing | alembic/control_plane/versions/2026_05_12_0010_role_tool_allowlist_pin.py:148-156 | a second run of 0010 changes nothing exactly when the first raises, or in no chain a named row stands between two empty ones |
| AllowlistPin.DowngradeUndoesUpgrade | alembic/control_plane/versions/2026_05_12_0010_role_tool_allowlist_pin.py:217-317 | a run down after a run up restores every allowlist and every digest of valid name-shaped chains |
| AllowlistUnpin.DowngradeNamesChains | alembic/control_plane/versions/2026_05_12_0010_role_tool_allowlist_pin.py:217-317 | a run of 0010 backwards makes a valid chain valid by name exactly when its name-shaped rows lead, or it has no pins and its empty rows stand together; when a row raises, exactly when no row is object-shaped |
| AllowlistUnpin.DowngradeNames | alembic/control_plane/versions/2026_05_12_0010_role_tool_allowlist_pin.py:237-269 | entry by entry a downgraded row lists the names of its tools, retrieval's or those of the tools table; a row of names is as it was |
| AllowlistUnpin.UpgradePins | alembic/control_plane/versions/2026_05_12_0010_role_tool_allowlist_pin.py:158-169 | entry by entry an upgraded row lists the pin of retrieval or the object that was there; an object-shaped row is as it was |
| ShapeWalk.PhaseDecides | alembic/tenant/versions/2026_05_12_0010_agent_tool_allowlist_pin.py:106-187 | reading a chain row by row decides whether it survives, in either direction |
| AllowlistPin.PinnedRowDigest | alembic/tenant/versions/2026_05_12_0010_agent_tool_allowlist_pin.py:148-187 | rewriting a row changes its digest unless it is empty and keeps its predecessor |
| RevisionTable.Table.CloseRetrieval | alembic/control_plane/versions/2026_05_15_0012_role_allowlist_retrieval_closure.py:130-216 | the loop of 0012's upgrade leaves the walked table, or the old one if a row raises |
| RevisionTable.Table.ReopenRetrieval | alembic/control_plane/versions/2026_05_15_0012_role_allowlist_retrieval_closure.py:219-301 | the loop of 0012's downgrade, likewise |
| RevisionTable.Table.PinAllowlists | alembic/control_plane/versions/2026_05_12_0010_role_tool_allowlist_pin.py:123-214 | the loop of 0010's upgrade, likewise |
| RevisionTable.Table.UnpinAllowlists | alembic/tenant/versions/2026_05_12_0010_agent_tool_allowlist_pin.py:190-302 | the loop of 0010's downgrade, likewise |
| RevisionTable.PinNames | alembic/control_plane/versions/2026_05_12_0010_role_tool_allowlist_pin.py:158-169 | names become pins, objects pass, anything else raises |
| RevisionTable.ToolNames | alembic/control_plane/versions/2026_05_12_0010_role_tool_allowlist_pin.py:245-269 | pins become names through the tools table, an unknown tool raises |
| MigrationLimits.ClosureBreaksAChain | alembic/control_plane/versions/2026_05_15_0012_role_allowlist_retrieval_closure.py:156-173 | a valid chain that 0012 leaves invalid |
| MigrationLimits.ReopeningBreaksAChain | alembic/control_plane/versions/2026_05_15_0012_role_allowlist_retrieval_closure.py:244-281 | a valid chain that 0012's downgrade leaves invalid |
| MigrationLimits.PinningBreaksAChain | alembic/control_plane/versions/2026_05_12_0010_role_tool_allowlist_pin.py:153-156 | a valid chain that 0010 leaves invalid |
| MigrationLimits.UnpinningBreaksAChain | alembic/control_plane/versions/2026_05_12_0010_role_tool_allowlist_pin.py:240-242 | a valid chain that 0010's downgrade leaves invalid |
| MigrationLimits.RerunChangesATable | alembic/control_plane/versions/2026_05_12_0010_role_tool_allowlist_pin.py:153-156 | a table, one valid chain, that a second run of 0010 changes |
| MigrationLimits.EmptyRowChanges | alembic/tenant/versions/2026_05_12_0010_agent_tool_allowlist_pin.py:14-14 | a valid chain without names in which 0010 gives an empty row a new predecessor and digest |
| MigrationLimits.ClosureDowngradeTakesTooMuch | alembic/control_plane/versions/2026_05_15_0012_role_allowlist_retrieval_closure.py:252-259 | a valid chain that 0012 upgraded and downgraded does not restore |
| MigrationLimits.DowngradeLosesABundle | alembic/control_plane/versions/2026_05_11_0006_methodology_role_refs.py:415-471 | a methodology whose second bundle 0006 upgraded and downgraded loses |
| MigrationLimits.DowngradeLosesADigest | alembic/control_plane/versions/2026_05_11_0006_methodology_role_refs.py:415-471 | a methodology whose valid chain over its bundle is invalid after 0006 up and down |
| MigrationLimits.DigestMayComeBack | alembic/control_plane/versions/2026_05_11_0006_methodology_role_refs.py:415-471 | a methodology whose digests 0006 up and down restores |
| MigrationLimits.AgentLeftDangling | alembic/tenant/versions/2026_05_12_0009_agent_role_lineage.py:115-120 | an agent that is left with a methodology and no role |
| MethodologyRoles.ExtractExact | alembic/control_plane/versions/2026_05_11_0006_methodology_role_refs.py:186-287 | extraction adds one role and one revision per template, from its first row, or is refused over a taken name |
| MethodologyRoles.FirstIsLowest | alembic/control_plane/versions/2026_05_11_0006_methodology_role_refs.py:153-177 | the first row of a template is the one of its lowest version |
| MethodologyUpgrade.UpgradeExact | alembic/control_plane/versions/2026_05_11_0006_methodology_role_refs.py:136-357 | 0006 goes through exactly when the names it gives are free, and what it leaves then |
| MethodologyUpgrade.OneRoleEach | alembic/control_plane/versions/2026_05_11_0006_methodology_role_refs.py:191-287 | every template with revisions gets a role holding its first bundle, with a digest from genesis over its name, its bundle and its tools |
| MethodologyUpgrade.NewRolesApart | alembic/control_plane/versions/2026_05_11_0006_methodology_role_refs.py:191-221 | old roles stay, new ones belong to templates with revisions, no two for one |
| MintedRoles.MintedIsValid | alembic/control_plane/versions/2026_05_11_0006_methodology_role_refs.py:191-287 | a minted revision, read as a row, is a valid chain of one, with the first bundle and the derived name and description |
| MintedRoles.MintedDigestsTell | alembic/control_plane/versions/2026_05_11_0006_methodology_role_refs.py:78-110 | two minted digests agree exactly when names, descriptions and bundles do, tools and source ids as multisets |
| MethodologyUpgrade.UpgradeValidatesChains | alembic/control_plane/versions/2026_05_11_0006_methodology_role_refs.py:289-342 | every methodology chain is valid from genesis afterwards, whatever it was before |
| MethodologyUpgrade.LookupResolvesFirstBundle | apps/cli/_cross_context.py:243-273 | a lookup succeeds exactly for existing revisions and resolves to the bundle of the template's first row |
| MethodologyUpgrade.AskedIs | apps/cli/_cross_context.py:243-254 | the revision a lookup starts from is the template's of the given version, or of the highest one |
| MethodologyUpgrade.DowngradeRemovesTheAdded | alembic/control_plane/versions/2026_05_11_0006_methodology_role_refs.py:473-489 | downgrading removes exactly the added roles unless the author mark was in use before |
| MethodologyUpgrade.DowngradeGoesThrough | alembic/control_plane/versions/2026_05_11_0006_methodology_role_refs.py:473-499 | it goes through unless someone else's revision hangs on a marked role |
| MethodologyUpgrade.DowngradeRestoresBundles | alembic/control_plane/versions/2026_05_11_0006_methodology_role_refs.py:415-471 | it restores every bundle exactly when each template had one bundle throughout |
| MethodologyUpgrade.NewDrawsExist | alembic/control_plane/versions/2026_05_11_0006_methodology_role_refs.py:191-221 | the hypothesis on drawn ids can be met, whatever ids are in use |
| MethodologyDigests.DowngradeRestoresDigests | alembic/control_plane/versions/2026_05_11_0006_methodology_role_refs.py:360-501 | up and down restores every predecessor and digest exactly when they already were the re-anchored ones |
| MethodologyDigests.NoDigestComesBack | alembic/control_plane/versions/2026_05_11_0006_methodology_role_refs.py:360-501 | a digest that covered a bundle is not restored |
| MethodologyDigests.DowngradeValidatesNoChain | alembic/control_plane/versions/2026_05_11_0006_methodology_role_refs.py:30-36 | afterwards a methodology has a valid chain over its bundles exactly when it has no revisions |
| MethodologyRename.UnsplitUndoesSplit | alembic/control_plane/versions/2026_05_11_0007_lvt_split.py:90-190 | undoing the rename restores a state exactly when the found role's name, description, neighbours and digest allow it |
| MethodologyRename.SplitIsUndoneAfterUpgrade | alembic/control_plane/versions/2026_05_11_0007_lvt_split.py:177-190 | after 0006 it always restores, the digest of revision 1 included |
| MintedRoles.RenamedIsValid | alembic/control_plane/versions/2026_05_11_0007_lvt_split.py:90-174 | the renamed role's first revision, read as a row under the new name, is a valid chain of one exactly if it starts from genesis |
| MethodologyTables.Tables.MoveBundlesToRoles | alembic/control_plane/versions/2026_05_11_0006_methodology_role_refs.py:136-357 | the upgrade's loops compute the specified state, or leave the tables as they were |
| MethodologyTables.Tables.ExtractRoles | alembic/control_plane/versions/2026_05_11_0006_methodology_role_refs.py:186-287 | the extraction loop, row by row, stops at a taken name |
| MethodologyTables.Group | alembic/control_plane/versions/2026_05_11_0006_methodology_role_refs.py:297-299 | grouping lists every template once, with the positions of its rows in order |
| MethodologyTables.Tables.ReanchorAll | alembic/control_plane/versions/2026_05_11_0006_methodology_role_refs.py:301-342 | walking group by group from genesis re-anchors the whole table |
| MethodologyTables.Tables.MoveBundlesBack | alembic/control_plane/versions/2026_05_11_0006_methodology_role_refs.py:360-501 | the downgrade's loop, deletions and null checks compute the specified state, or leave the tables as they were |
| MethodologyTables.Tables.RenameRole | alembic/control_plane/versions/2026_05_11_0007_lvt_split.py:90-174 | renaming updates one role and the digest of its first revision |
| RoleLineage.AgentTemplates.BackfillRoleLineage | alembic/tenant/versions/2026_05_12_0009_agent_role_lineage.py:69-147 | the backfill fills each row or leaves it, never half, and raises only on malformed references, whatever JSON parser reads those held as text |
| RoleLineage.BackfillAgreesWithLookup | alembic/tenant/versions/2026_05_12_0009_agent_role_lineage.py:98-145 | after 0006 an agent gets the role pair its methodology revision's lookup resolves to, and none if that revision is gone |
| RoleLineage.DanglingExactly | alembic/tenant/versions/2026_05_12_0009_agent_role_lineage.py:115-120 | a methodology without a role is left exactly for revisions that no longer exist |
| SseLines.PrefixYieldsWholeBlocks | apps/cli/_agent_run.py:114-138 | of any prefix of a stream of blocks the parser yields the events of the blocks that lie whole in it |
| SseWire.PrefixYieldsWholeEvents | apps/api/adapters/sse_event_translator.py:35-68 | of any prefix of a run's wire text the client yields exactly the events whose whole block lies in it, with the payload sent |
| SseWire.ArrivedMeans | apps/api/adapters/sse_event_translator.py:35-45 | the events counted as arrived are those whose blocks end by the cut |
| SseWire.RoundTrip | apps/cli/_agent_run.py:114-138 | the whole stream yields the whole run |
| SsePayload.WhatArrives | apps/api/adapters/sse_event_translator.py:35-68 | of any prefix the client has the whole events, kind by name and field by field: ids and Decimals read back from their texts, the rest in place |
| SsePayload.SentTells | apps/api/adapters/sse_event_translator.py:48-68 | two events with fields of the same types go out alike exactly when they are equal |
| SsePayload.DecimalStrReads | apps/api/adapters/sse_event_translator.py:58-59 | reading a Decimal's text gives the Decimal, its exponent included |
| SseWire.DecodeInverts | apps/cli/_agent_run.py:89-92 | the hypothesis on the JSON parser can be met |
| SseBatch.BatchIsIncremental | apps/cli/_agent_run.py:72-111 | batch parsing of a text with line feeds only equals incremental parsing of its lines and two line feeds more, malformed data included |
| SseBatch.BlocksSplit | apps/cli/_agent_run.py:105-105 | splitting at double line feeds takes every separator at its leftmost place and loses nothing |
| SseBatch.BlankYieldsNothing | apps/cli/_agent_run.py:106-107 | skipping a blank block skips no event |
| SseClient.IterEvents | apps/cli/_agent_run.py:114-138 | the incremental loop yields the events of its specification |
| SseClient.ParseBlock | apps/cli/_agent_run.py:72-95 | the block parser's loop and its refusals |
| SseClient.ParseBody | apps/cli/_agent_run.py:98-111 | the batch parser yields what the incremental one would |
| SseClient.StreamRenderer.Consume | apps/cli/_agent_run.py:201-205 | the renderer's counters follow the events it has seen |
| SseClient.StreamRenderer.ExitCode | apps/cli/_agent_run.py:188-199 | the exit code is that of the last terminal event seen |
| SseClient.RunInvocation | apps/cli/_agent_run.py:326-389 | a response leads to the exit code of its last terminal event, an error status to failure |
| SseClient.CutStreamExitCode | apps/cli/_agent_run.py:188-199 | wherever a stream is cut, the exit code is that of the events that arrived whole |
| SseClient.CutBeforeTerminalFails | apps/cli/_agent_run.py:191-193 | a cut before the first terminal event is whole gives exit code 1 |
| SseClient.WholeStreamExitCode | apps/cli/_agent_run.py:188-199 | a whole stream leads to the class of its last terminal event |
| SseClient.LastTerminalDecides | apps/cli/_agent_run.py:34-37 | 0 when the last terminal event is a completion, 2 when it is a blocked invariant, 1 when it is a failure |
| IngestPipeline.OldestIsFirst | contexts/ingestion/adapters/outbound/postgres/source_repository.py:92-101 | a claim takes an oldest pending source and comes back empty only when none is pending |
| IngestPipeline.DrainsInOrder | apps/cli/_ingest.py:227-315 | a lone worker does all parse steps before its embed steps before its extract steps |
| IngestPipeline.DrainFinishes | apps/cli/_ingest.py:221-326 | it does at most three runs a source, and as many passes as that leave nothing claimable |
| IngestPipeline.DrainTraces | apps/cli/_ingest.py:19-22 | every source goes down the pipeline through enabled stages only, from the state it was in |
| IngestPipeline.DisabledUntouched | apps/cli/_ingest.py:103-109 | a source that waits for no enabled stage is left as it is |
| IngestOutcome.DrainRestsRight | apps/cli/_ingest.py:227-326 | once drained every source rests past each enabled stage that succeeds on it, at the first that fails or is not enabled, and no stage ran that was not earned |
| IngestOutcome.ReceivedEnds | contexts/ingestion/application/parse_source.py:106-116 | with all stages enabled a received source is indexed exactly when all succeed, else it is in the failed state of the first that fails |
| IngestWorker.Store.Work | apps/cli/_ingest.py:166-355 | the loop's result, its bound on processed sources, its order, and where a long enough bounded run leaves every source |
| IngestWorker.Store.OnePass | apps/cli/_ingest.py:227-315 | one pass claims for the earliest enabled stage that has something pending |
| IngestSteps.NoSourceHeldTwice | contexts/ingestion/adapters/outbound/postgres/source_repository.py:81-132 | in every reachable state of any number of workers no source is held by two |
| IngestSteps.HistoriesArePaths | alembic/tenant/versions/2026_05_07_0007_extend_state_for_extraction.py:46-57 | each source's history is a path of the pipeline through the ten states, each stage run at most once |
| IngestSteps.StrandedExactly | apps/cli/_ingest.py:41-46 | a source is stranded exactly when a worker crashed while holding it |
| IngestSteps.CrashStrandsOne | apps/cli/_ingest.py:41-46 | a crashed worker strands one source at most, and no source is stranded by two |
| IngestSteps.ClaimsAfterSignal | apps/cli/_ingest.py:202-224 | once signalled, a worker makes at most the one claim of the pass it is in |
| IngestSteps.GoneForGood | apps/cli/_ingest.py:221-224 | a worker that stopped or crashed stays so, with what it held |
| IngestRefinement.PassIsSteps | apps/cli/_ingest.py:221-315 | one pass of the loop is a sequence of the interleaved system's steps, back to the loop head |
| IngestRefinement.DrainIsARun | apps/cli/_ingest.py:221-326 | whatever the lone worker does, the interleaved system can do |
| IngestRefinement.LoopIsABehaviour | apps/cli/_ingest.py:221-326 | from sources that have just arrived the loop is a behaviour of the interleaved system, so what holds of every behaviour holds of it |
| CypherFile.SplitStatements | ops/migrate_neo4j.py:59-72 | the splitting loop yields the statements of the pieces with content |
| CypherFile.SplitRoundTrip | ops/migrate_neo4j.py:62-72 | a file put together from pieces gives back their statements |
| CypherFile.ContentDecides | ops/migrate_neo4j.py:53-71 | a piece is a statement exactly when some character is neither white space nor after two slashes on its line |
| CypherFile.StatementIs | ops/migrate_neo4j.py:66-71 | the statement is the piece without the white space around it, comments kept, ending in a semicolon |
| CypherFile.StatementsComeBack | ops/migrate_neo4j.py:62-72 | a file of statements, each ended by a semicolon and a line feed, gives back those statements |
| Neo4jRunner.Driver.ApplyMigration | ops/migrate_neo4j.py:101-113 | a file is skipped if recorded, else executed statement by statement and recorded last, as far as the run lives |
| Neo4jRunner.Driver.Migrate | ops/migrate_neo4j.py:130-136 | the loop over the sorted files |
| Neo4jRunner.RecordedMeansExecuted | ops/migrate_neo4j.py:101-113 | after any runs dying anywhere, the first so many files are recorded, and all their statements ran |
| Neo4jRunner.RecordedIsNotExecutedAgain | ops/migrate_neo4j.py:103-105 | no later run executes a recorded file again or loses a record |
| Neo4jRunner.CompletedRunConverges | ops/migrate_neo4j.py:26-34 | one completed run leaves the schema a crash-free run would have left |
| Neo4jRunner.LongLifeCompletes | ops/migrate_neo4j.py:116-140 | a run that lives long enough completes |
| MigratePlatform.PhasesInOrder | ops/migrate.py:144-158 | however often runs die, no phase is ahead of an earlier one, nor a tenant ahead of one listed before it |
| MigratePlatform.RunInPhase | ops/migrate.py:103-158 | a completed run has every tenant at head, one event for each, and the graph migrated |
| MigratePlatform.Runner.MigrateAll | ops/migrate.py:144-158 | the three phases as they run |
| RunPaging.SessionVisitsAll | apps/api/routers/_run_history_query.py:24-32 | following cursors visits every matching row below the first cursor once, in order, in the ceiling of rows over size pages, despite insertions above the cursor |
| RunPaging.RequestsStop | contexts/run_history/adapters/outbound/postgres/reader.py:201-219 | no client gets further than that many pages |
| RunPaging.PageCountIsCeiling | apps/api/routers/_run_history_query.py:24-32 | the page count is the ceiling of rows over size, and one at least |
| RunPaging.PageAndRest | contexts/run_history/adapters/outbound/postgres/reader.py:152-221 | one page, its next cursor, and what is left below it |
| RunPaging.VisitedOnce | contexts/run_history/adapters/outbound/postgres/reader.py:181-199 | the listing holds each matching row below the cursor once, strictly descending |
| RunPaging.ClientSession | apps/api/routers/_run_history_query.py:124-152 | the page size asked for first, or 50, holds for every page whatever later requests ask for, and a client that comes to the end has had every matching row |
| RunPaging.SentinelHidesNothing | apps/api/routers/_run_history_query.py:61-66 | the synthetic first cursor hides nothing exactly when every matching row is below it |
| Envelope.AadExact | padhanam/security/crypto.py:47-49 | two contexts serialise alike exactly when they are the same mapping |
| Envelope.DecryptExact | padhanam/security/crypto.py:52-87 | a field decrypts to its plaintext under the same mapping and to nothing under any other |
| Envelope.EachPartOpens | padhanam/security/crypto.py:52-75 | the data key opens under the master key and its own nonce only, the field under the data key and the other nonce only, both under the one context |
| Envelope.SwappedCiphertextFails | padhanam/security/crypto.py:1-10 | a ciphertext moved into another envelope opens to nothing |
| Envelope.IdealAeadExists | padhanam/security/crypto.py:64-69 | the hypothesis on the cipher can be met |
| Envelope.Refusals | padhanam/security/crypto.py:58-84 | an empty context and a foreign key version are refused, and nothing else is refused so |
| TokenCost.CostIsExact | padhanam/config/inference.py:119-143 | while counts, products and sum fit 28 digits a cost is exact, for any table |
| TokenCost.CostIsAdditive | padhanam/config/inference.py:119-143 | within that bound the cost of a whole is the sum of the costs of its parts |
| TokenCost.TableFits | padhanam/config/inference.py:97-116 | at the table's prices every count below 10^18 is within the bound |
| TokenCost.TableTariff | padhanam/config/inference.py:97-116 | what any counts below 10^18 cost at the table's prices, in numbers, and for which models |
| TokenCost.SideIsExactWhen | padhanam/config/inference.py:135-138 | while the count fits 28 digits, one side's cost is exact exactly when its product has only zeros to lose |
| TokenCost.RoundsToNearestEven | padhanam/config/inference.py:135-138 | rounding takes a nearest coefficient, and the even one of two |
| TokenCost.TotalIsExactWhen | padhanam/config/inference.py:135-143 | while both sides fit, the total is exact exactly when their sum has only zeros to lose |
| TokenCost.TwoRoundingsMayCancel | padhanam/config/inference.py:135-138 | beyond 28 digits a count loses a digit and the cost is exact all the same |
| TokenCost.BeyondTheBound | padhanam/config/inference.py:135-138 | a count beyond 28 digits whose cost loses a token |

## Left out

- JSON floats, lone surrogates and non-string keys: payload trees do not contain them.
- Negative zero, and Decimals of more than 28 digits, in payloads: normalising them depends on the decimal context.
- SHA-256 and AES-GCM themselves: abstract functions with the hypotheses named above.
- SQL, drivers and transaction isolation: a table is a sequence of rows, a migration one transaction; `LIMIT 1` without an order takes the first row.
- Row columns that no hash, shape or lookup depends on (timestamps, revision ids, authors of methodologies).
- AllowlistPin.UpgradePinsChains: an allowlist entry that is no text is hashed as its JSON text where Python's `str` would print it; the conditions hold for any such text.
- RetrievalClosure.UpgradeKeepsChainsValid: the rows of a chain carry one role's name, or names the migration does not select.
- RetrievalClosure.DowngradeKeepsChainsValid: likewise.
- RoleLineage.AgentTemplates.BackfillRoleLineage: a role id that is not text, or a version that is not an integer, counts as an exception; Python would convert some of these.
- SseBatch.BatchIsIncremental: assumes the line feed is the only line break in the body, since `splitlines` knows others that the incremental parser is not given.
- SseClient.RunInvocation: the text the renderer writes is not modelled, only what decides the exit code; nor are HTTP and the token.
- IngestWorker.Store.Work: stage bodies are oracles that end in success or failure; polling time is counted in passes.
- IngestSteps: an unbounded worker's sleep is a return to the loop head.
- Neo4jRunner: statements are create-if-absent; the file list is fixed from run to run.
- RunPaging: the base64 text of a cursor is taken as decoded; the filter is any predicate.
- TokenCost.CostIsExact: token counts are natural numbers and prices are not negative.
- TokenCost.SideIsExactWhen: counts of more than 28 digits are not covered; there two roundings may cancel (`TwoRoundingsMayCancel`), so no condition on the digits dropped decides. A coefficient rounded up to 10^28 is left at that; the number is the same.
- TokenCost.TotalIsExactWhen: nor, for the same reason, are sides that are rounded before they are added.
- Audit readers and writers, gold sets, recommendations, override projection, the agent loop and the event bus: schema and wiring.
- Policy checks, token claims, log scrubbing, CLI rendering, settings, seeding and schema-only migrations: only easy members would come of them.
