/**
 What a walk makes of a valid chain when every row it keeps is one it chains the
 next row from, and every row it rewrites gets a digest over the tools it then
 lists: the chain stays valid exactly when the kept rows come first.
 */
module TrackedWalk {
  import opened HashChain
  import opened JsonText
  import opened CanonicalJson
  import opened ChainWalk

  predicate KeptBy(policy: Policy, row: Row) { policy(row).Keep? }

  /** The kept rows come before the rewritten ones. */
  ghost predicate KeptRowsLead(policy: Policy, chain: seq<Row>) {
    forall i, j | 0 <= i < j < |chain| :: KeptBy(policy, chain[j]) ==> KeptBy(policy, chain[i])
  }

  ghost predicate AllKept(policy: Policy, chain: seq<Row>) {
    forall i | 0 <= i < |chain| :: KeptBy(policy, chain[i])
  }

  /** The row's digest is the one its own columns call for. */
  ghost predicate SoundRow(h: Hash, row: Row) { row.own == RevisionHash(h, PinnedContent(row), row.previous) }

  /** Rewritten after whatever row, the row is sound and has lost a digest that was sound. */
  ghost predicate Resealed(h: Hash, row: Row, allowlist: Json, tools: Value, previous: string) {
    var r := Reanchored(h, row, allowlist, tools, previous);
    SoundRow(h, r) && (SoundRow(h, row) ==> r.own != row.own)
  }

  ghost predicate Tracked(h: Hash, policy: Policy, row: Row) {
    || policy(row) == Keep(true)
    || (policy(row).Rewrite? && forall previous :: Resealed(h, row, policy(row).allowlist, policy(row).tools, previous))
  }

  ghost predicate TrackedChain(h: Hash, policy: Policy, chain: seq<Row>, t: string) {
    OneTemplate(chain, t) && forall i | 0 <= i < |chain| :: Tracked(h, policy, chain[i])
  }

  /** Where the walk stands after a chain: where it will anchor, and whether it still agrees with the original. */
  ghost predicate WalkState(h: Hash, policy: Policy, chain: seq<Row>, t: string, w: Walked) {
    && (chain == [] ==> t !in w.latest)
    && (chain != [] ==> t in w.latest && w.latest[t] == HeadOf(w.rows))
    && |w.rows| == |chain|
    && (AllKept(policy, chain) ==> w.rows == chain)
    && (KeptRowsLead(policy, chain) && !AllKept(policy, chain) ==> HeadOf(w.rows) != HeadOf(chain))
    && (ValidChain(h, PinnedContent, w.rows) <==> KeptRowsLead(policy, chain))
  }

  lemma LeadStep(policy: Policy, front: seq<Row>, row: Row)
    ensures AllKept(policy, front + [row]) <==> AllKept(policy, front) && KeptBy(policy, row)
    ensures KeptRowsLead(policy, front + [row]) <==>
            KeptRowsLead(policy, front) && (KeptBy(policy, row) ==> AllKept(policy, front))
  {
    var all := front + [row];
    if KeptRowsLead(policy, all) {
      forall i, j | 0 <= i < j < |front| ensures KeptBy(policy, front[j]) ==> KeptBy(policy, front[i]) {
        assert all[i] == front[i] && all[j] == front[j];
      }
      forall i | 0 <= i < |front| && KeptBy(policy, row) ensures KeptBy(policy, front[i]) {
        assert all[i] == front[i] && all[|front|] == row;
      }
    }
    if AllKept(policy, all) {
      assert all[|front|] == row;
      forall i | 0 <= i < |front| ensures KeptBy(policy, front[i]) {
        assert all[i] == front[i];
      }
    }
  }

  lemma {:induction false} KeepStep(h: Hash, policy: Policy, front: seq<Row>, row: Row, t: string, w: Walked)
    requires policy(row) == Keep(true) && row.template == t && WalkState(h, policy, front, t, w)
    requires row.previous == HeadOf(front) && SoundRow(h, row)
    ensures WalkState(h, policy, front + [row], t, Step(h, policy, w, row))
  {
    LeadStep(policy, front, row);
    ValidStep(h, PinnedContent, w.rows, row);
  }

  lemma {:induction false} RewriteStep(h: Hash, policy: Policy, front: seq<Row>, row: Row, t: string, w: Walked)
    requires policy(row).Rewrite? && Tracked(h, policy, row) && row.template == t && WalkState(h, policy, front, t, w)
    requires row.previous == HeadOf(front) && SoundRow(h, row)
    ensures WalkState(h, policy, front + [row], t, Step(h, policy, w, row))
  {
    var previous := Anchor(row, w.latest);
    var r := Reanchored(h, row, policy(row).allowlist, policy(row).tools, previous);
    assert Resealed(h, row, policy(row).allowlist, policy(row).tools, previous);
    assert previous == HeadOf(w.rows);
    LeadStep(policy, front, row);
    ValidStep(h, PinnedContent, w.rows, r);
  }

  lemma {:induction false} WalkOfChain(h: Hash, policy: Policy, chain: seq<Row>, t: string)
    requires TrackedChain(h, policy, chain, t) && ValidChain(h, PinnedContent, chain)
    ensures WalkState(h, policy, chain, t, Walk(h, policy, chain))
  {
    if chain != [] {
      var front, row := chain[..|chain| - 1], chain[|chain| - 1];
      assert chain == front + [row];
      ValidStep(h, PinnedContent, front, row);
      WalkOfChain(h, policy, front, t);
      assert Tracked(h, policy, chain[|chain| - 1]);
      if policy(row).Keep? {
        KeepStep(h, policy, front, row, t, Walk(h, policy, front));
      } else {
        RewriteStep(h, policy, front, row, t, Walk(h, policy, front));
      }
    } else {
      assert ValidChain(h, PinnedContent, []);
    }
  }

  /** A valid chain stays valid exactly when its kept rows lead. */
  lemma {:induction false} ValidWhenKeptLead(h: Hash, policy: Policy, chain: seq<Row>, t: string)
    requires TrackedChain(h, policy, chain, t) && ValidChain(h, PinnedContent, chain)
    ensures ValidChain(h, PinnedContent, Walk(h, policy, chain).rows) <==> KeptRowsLead(policy, chain)
  {
    WalkOfChain(h, policy, chain, t);
  }
}
