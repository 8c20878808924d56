/**
 Tenant migration 0009: every agent cloned from a methodology gets the role pair
 of that methodology revision's first role reference, read from the control
 plane.
 */
module RoleLineage {
  import opened JsonText
  import opened CanonicalJson
  import opened HashChain
  import opened MethodologyPayload
  import opened MethodologyRoles
  import opened MethodologyUpgrade
  import opened Allowlists

  datatype Lineage = Lineage(template: string, version: int)

  datatype Agent = Agent(id: string, methodology: Option<Lineage>, role: Option<string>, roleVersion: Option<int>)

  /** The control plane's answer to a query for one methodology revision's `role_refs`. */
  type Ask = Lineage -> Option<Json>

  datatype Backfill = Leave | Write(role: string, version: int) | Raise

  /** `role_refs` if it is a list, else what its text parses to; none when that raises. */
  function Refs(loads: Loads, raw: Json): Option<Json> {
    match raw
    case JArr(_) => Some(raw)
    case JStr(text) => loads(text)
    case _ => None
  }

  /** `not refs`. */
  predicate Falsy(refs: Json) {
    refs == JNull || refs == JBool(false) || refs == JInt(0) || refs == JStr("") || refs == JArr([]) || refs == JObj([])
  }

  /** `refs[0]` is a dict or the subscript, or the `get` after it, raises. */
  function FromRefs(refs: Json): Backfill {
    if Falsy(refs) then Leave
    else if !refs.JArr? || !refs.items[0].JObj? then Raise
    else match (Get(refs.items[0].fields, "role_id"), Get(refs.items[0].fields, "role_version"))
      case (None, _) => Leave
      case (Some(JNull), _) => Leave
      case (_, None) => Leave
      case (_, Some(JNull)) => Leave
      case (Some(JStr(id)), Some(JInt(v))) => Write(id, v)
      case _ => Raise
  }

  function BackfillOf(loads: Loads, ask: Ask, agent: Agent): Backfill {
    match agent.methodology
    case None => Leave
    case Some(lineage) =>
      match ask(lineage)
      case None => Leave
      case Some(raw) =>
        match Refs(loads, raw)
        case None => Raise
        case Some(refs) => FromRefs(refs)
  }

  function Filled(loads: Loads, ask: Ask, agent: Agent): Agent {
    match BackfillOf(loads, ask, agent)
    case Write(role, version) => agent.(role := Some(role), roleVersion := Some(version))
    case _ => agent
  }

  /** The columns have just been added: no agent has a role pair yet. */
  ghost predicate Unfilled(agents: seq<Agent>) {
    forall i | 0 <= i < |agents| :: agents[i].role == None && agents[i].roleVersion == None
  }

  /** The check the migration adds. */
  ghost predicate Paired(agents: seq<Agent>) {
    forall i | 0 <= i < |agents| :: agents[i].role == None <==> agents[i].roleVersion == None
  }

  class AgentTemplates {
    var agents: seq<Agent>

    constructor (agents: seq<Agent>)
      ensures this.agents == agents
    {
      this.agents := agents;
    }

    /** The upgrade's backfill; an exception rolls it back. The check that follows cannot fail. */
    method BackfillRoleLineage(loads: Loads, ask: Ask) returns (ok: bool)
      requires Unfilled(agents)
      modifies this
      ensures ok <==> forall i | 0 <= i < |old(agents)| :: BackfillOf(loads, ask, old(agents)[i]) != Raise
      ensures ok ==> |agents| == |old(agents)| &&
                     forall i | 0 <= i < |agents| :: agents[i] == Filled(loads, ask, old(agents)[i])
      ensures !ok ==> agents == old(agents)
      ensures Paired(agents)
    {
      var before, i := agents, 0;
      while i < |before|
        invariant 0 <= i <= |before| == |agents|
        invariant forall j | 0 <= j < i ::
                    agents[j] == Filled(loads, ask, before[j]) && BackfillOf(loads, ask, before[j]) != Raise
        invariant forall j | i <= j < |before| :: agents[j] == before[j]
        decreases |before| - i
      {
        var row := before[i];
        i := i + 1;
        if row.methodology == None { continue; }
        var raw := ask(row.methodology.value);
        if raw == None { continue; }
        var refs := Refs(loads, raw.value);
        if refs == None {
          agents := before;
          return false;
        }
        match FromRefs(refs.value) {
          case Leave => continue;
          case Raise =>
            agents := before;
            return false;
          case Write(role, version) =>
            agents := agents[i - 1 := agents[i - 1].(role := Some(role), roleVersion := Some(version))];
        }
      }
      return true;
    }
  }

  // ---------------------------------------------------------------- after 0006

  function RefColumn(r: Ref): Json {
    JObj([Field("role_id", JStr(r.role)), Field("role_version", JInt(r.version)),
          Field("overrides", Erase(r.overrides))])
  }

  function RefsColumn(refs: seq<Ref>): Json {
    JArr(seq(|refs|, i requires 0 <= i < |refs| => RefColumn(refs[i])))
  }

  /** The answers of a control plane in state `p`. */
  function Answers(p: Plane): Ask {
    (lineage: Lineage) =>
      match FindMethodology(p.methodologies, lineage.template, lineage.version)
      case None => None
      case Some(row) => Some(if row.refs == None then JNull else RefsColumn(row.refs.value))
  }

  lemma RefColumnRead(r: Ref)
    ensures FromRefs(JArr([RefColumn(r)])) == Write(r.role, r.version)
  {
    var fields := RefColumn(r).fields;
    assert fields[0].key == "role_id" && |fields[0].key| == 7 && |fields[1].key| == 12;
    assert Get(fields, "role_id") == Some(JStr(r.role));
    assert Get(fields, "role_version") == Get(fields[1..], "role_version") == Some(JInt(r.version));
  }

  /**
   Against a control plane as 0006 leaves it, an agent gets a role pair exactly when
   the revision it was cloned from exists, and the pair is that of the role a
   lookup of that revision resolves to.
   */
  lemma BackfillAgreesWithLookup(loads: Loads, h: Hash, draw: Draw, p: Plane, q: Plane, agent: Agent)
    requires Flat(p.methodologies) && DrawsNew(draw, p) && Upgrade(h, draw, p) == Some(q)
    ensures match agent.methodology
            case None => BackfillOf(loads, Answers(q), agent) == Leave
            case Some(m) =>
              match Lookup(q, m.template, Some(m.version))
              case None =>
                BackfillOf(loads, Answers(q), agent) == Leave &&
                FindMethodology(p.methodologies, m.template, m.version) == None
              case Some(view) => BackfillOf(loads, Answers(q), agent) == Write(view.role, view.roleVersion)
  {
    if agent.methodology.Some? {
      var m := agent.methodology.value;
      LookupResolvesFirstBundle(h, draw, p, q, m.template, Some(m.version));
      AskedAfterUpgrade(h, draw, p, q, m.template, Some(m.version));
      if FindMethodology(p.methodologies, m.template, m.version).Some? {
        RefColumnRead(RoleRef(draw(m.template)));
        assert RefsColumn([RoleRef(draw(m.template))]) == JArr([RefColumn(RoleRef(draw(m.template)))]);
      }
    }
  }

  /** A methodology without a role: what the backfill leaves of an agent whose revision is gone. */
  predicate Dangling(agent: Agent) { agent.methodology.Some? && agent.role == None }

  /** The schema notes rule this state out; the code leaves it exactly for revisions that no longer exist. */
  lemma DanglingExactly(loads: Loads, h: Hash, draw: Draw, p: Plane, q: Plane, agent: Agent)
    requires Flat(p.methodologies) && DrawsNew(draw, p) && Upgrade(h, draw, p) == Some(q) && agent.role == None
    ensures Dangling(Filled(loads, Answers(q), agent)) <==>
            agent.methodology.Some? &&
            FindMethodology(p.methodologies, agent.methodology.value.template, agent.methodology.value.version) == None
  {
    BackfillAgreesWithLookup(loads, h, draw, p, q, agent);
    if agent.methodology.Some? {
      var m := agent.methodology.value;
      LookupResolvesFirstBundle(h, draw, p, q, m.template, Some(m.version));
    }
  }
}
