/**
 What a walk makes of a valid chain when it rewrites every row but those already in
 the shape it is after, and those it skips without recording their digests: so do
 both directions of migration 0010. A row without tools is in either shape, and is
 rewritten.
 */
module ShapeWalk {
  import opened CanonicalJson
  import opened HashChain
  import opened ChainWalk

  /** A direction: what it does, which rows it skips, and the payloads digests cover before and after it. */
  datatype Turn = Turn(policy: Policy, skips: Row -> bool, before: Encoding, after: Encoding)

  /** Rewritten after `previous` the row is sound, and keeps its digest only if it is empty and was there before. */
  ghost predicate Turned(h: Hash, m: Turn, row: Row, previous: string)
    requires m.policy(row).Rewrite?
  {
    var r := Reanchored(h, row, m.policy(row).allowlist, m.policy(row).tools, previous);
    && r.own == RevisionHash(h, m.after(r), previous)
    && (row.own == RevisionHash(h, m.before(row), row.previous) ==>
          (r.own == row.own <==> Empty(row) && previous == row.previous))
  }

  ghost predicate Turns(h: Hash, m: Turn, row: Row) {
    WellFormed(VDict(m.before(row))) &&
    if m.skips(row) then m.policy(row) == Keep(false) && m.after(row) == m.before(row)
    else m.policy(row).Rewrite? && forall previous :: Turned(h, m, row, previous)
  }

  ghost predicate TurnsChain(h: Hash, m: Turn, chain: seq<Row>, t: string) {
    OneTemplate(chain, t) && forall i | 0 <= i < |chain| :: Turns(h, m, chain[i])
  }

  /** No row without tools is skipped. */
  ghost predicate SkipsFilled(skips: Row -> bool) { forall row :: skips(row) ==> !Empty(row) }

  // ---------------------------------------------------------------- the chains that survive

  ghost predicate AllSkipped(skips: Row -> bool, chain: seq<Row>) { forall i | 0 <= i < |chain| :: skips(chain[i]) }

  /** The skipped rows come first. */
  ghost predicate SkippedLead(skips: Row -> bool, chain: seq<Row>) {
    forall i, j | 0 <= i < j < |chain| :: skips(chain[j]) ==> skips(chain[i])
  }

  /** Every row with tools is skipped. */
  ghost predicate FilledSkipped(skips: Row -> bool, chain: seq<Row>) {
    forall i | 0 <= i < |chain| :: Empty(chain[i]) || skips(chain[i])
  }

  /** The empty rows stand side by side. */
  ghost predicate EmptiesTogether(chain: seq<Row>) {
    forall i, j, k | 0 <= i < j < k < |chain| :: Empty(chain[i]) && Empty(chain[k]) ==> Empty(chain[j])
  }

  /** An empty row, once met, is followed by empty rows only. */
  ghost predicate EmptiesLast(chain: seq<Row>) {
    forall i, j | 0 <= i < j < |chain| :: Empty(chain[i]) ==> Empty(chain[j])
  }

  ghost predicate Survives(skips: Row -> bool, chain: seq<Row>) {
    SkippedLead(skips, chain) || (FilledSkipped(skips, chain) && EmptiesTogether(chain))
  }

  lemma ShapeStep(skips: Row -> bool, front: seq<Row>, row: Row)
    ensures AllSkipped(skips, front + [row]) <==> AllSkipped(skips, front) && skips(row)
    ensures SkippedLead(skips, front + [row]) <==>
            SkippedLead(skips, front) && (skips(row) ==> AllSkipped(skips, front))
    ensures FilledSkipped(skips, front + [row]) <==> FilledSkipped(skips, front) && (Empty(row) || skips(row))
    ensures EmptiesTogether(front + [row]) <==> EmptiesTogether(front) && (Empty(row) ==> EmptiesLast(front))
  {
    var all := front + [row];
    assert all[|front|] == row && forall i | 0 <= i < |front| :: all[i] == front[i];
    if EmptiesTogether(all) && Empty(row) {
      forall i, j | 0 <= i < j < |front| && Empty(front[i]) ensures Empty(front[j]) {
        assert Empty(all[i]) && Empty(all[|front|]);
      }
    }
  }

  lemma EmptiesLastStep(front: seq<Row>, row: Row)
    ensures EmptiesLast(front + [row]) <==>
            EmptiesLast(front) && (!Empty(row) ==> forall i | 0 <= i < |front| :: !Empty(front[i]))
  {
    var all := front + [row];
    assert all[|front|] == row && forall i | 0 <= i < |front| :: all[i] == front[i];
  }

  /**
   Where a chain stands: skipped rows only; then rewritten rows, with or without
   tools among them; then skipped rows again; or past saving.
   */
  datatype Phase = Skipping | Rewriting(tools: bool) | Closed | Broken

  function NextPhase(skips: Row -> bool, p: Phase, row: Row): Phase {
    match p
    case Skipping => if skips(row) then Skipping else Rewriting(!Empty(row))
    case Rewriting(tools) =>
      if !skips(row) then Rewriting(tools || !Empty(row)) else if tools then Broken else Closed
    case Closed => if skips(row) then Closed else Broken
    case Broken => Broken
  }

  function PhaseOf(skips: Row -> bool, chain: seq<Row>): Phase {
    if chain == [] then Skipping
    else NextPhase(skips, PhaseOf(skips, chain[..|chain| - 1]), chain[|chain| - 1])
  }

  ghost predicate PhaseShape(skips: Row -> bool, chain: seq<Row>, p: Phase) {
    match p
    case Skipping => AllSkipped(skips, chain)
    case Rewriting(tools) =>
      SkippedLead(skips, chain) && !AllSkipped(skips, chain) && (tools <==> !FilledSkipped(skips, chain)) &&
      (!tools ==> EmptiesTogether(chain) && EmptiesLast(chain))
    case Closed =>
      FilledSkipped(skips, chain) && EmptiesTogether(chain) && !SkippedLead(skips, chain) && !EmptiesLast(chain)
    case Broken => !Survives(skips, chain)
  }

  lemma PhaseStep(skips: Row -> bool, front: seq<Row>, row: Row, p: Phase)
    requires SkipsFilled(skips) && PhaseShape(skips, front, p)
    ensures PhaseShape(skips, front + [row], NextPhase(skips, p, row))
  {
    ShapeStep(skips, front, row);
    EmptiesLastStep(front, row);
    assert skips(row) ==> !Empty(row);
  }

  lemma LeadWhenSkipped(skips: Row -> bool, chain: seq<Row>)
    ensures AllSkipped(skips, chain) ==> SkippedLead(skips, chain)
  {
  }

  /** The phases decide which chains survive. */
  lemma {:induction false} PhaseDecides(skips: Row -> bool, chain: seq<Row>)
    requires SkipsFilled(skips)
    ensures PhaseShape(skips, chain, PhaseOf(skips, chain))
    ensures PhaseOf(skips, chain) != Broken <==> Survives(skips, chain)
  {
    if chain != [] {
      var front, row := chain[..|chain| - 1], chain[|chain| - 1];
      assert chain == front + [row];
      PhaseDecides(skips, front);
      PhaseStep(skips, front, row, PhaseOf(skips, front));
    }
    LeadWhenSkipped(skips, chain);
  }

  // ---------------------------------------------------------------- the walk

  /** What the walk has reached after a chain in phase `p`. */
  ghost predicate TurnState(h: Hash, m: Turn, chain: seq<Row>, t: string, w: Walked, p: Phase) {
    && |w.rows| == |chain|
    && (ValidChain(h, m.after, w.rows) <==> p != Broken)
    && match p
       case Skipping => t !in w.latest && HeadOf(w.rows) == HeadOf(chain)
       case Rewriting(tools) =>
         && chain != [] && t in w.latest && w.latest[t] == HeadOf(w.rows)
         && (tools <==> HeadOf(w.rows) != HeadOf(chain))
       case Closed => t in w.latest && HeadOf(w.rows) == HeadOf(chain) && OlderHead(chain, w.latest[t])
       case Broken => true
  }

  /** The digest is that of a proper, non-empty prefix. */
  ghost predicate OlderHead(chain: seq<Row>, digest: string) {
    exists k :: 0 < k < |chain| && digest == HeadOf(chain[..k])
  }

  lemma OlderHeadStep(chain: seq<Row>, row: Row, digest: string)
    requires OlderHead(chain, digest) || (chain != [] && digest == HeadOf(chain))
    ensures OlderHead(chain + [row], digest)
  {
    if OlderHead(chain, digest) {
      var k :| 0 < k < |chain| && digest == HeadOf(chain[..k]);
      assert (chain + [row])[..k] == chain[..k];
    } else {
      assert (chain + [row])[..|chain|] == chain;
    }
  }

  lemma TurnsWellFormed(h: Hash, m: Turn, chain: seq<Row>, t: string)
    requires TurnsChain(h, m, chain, t)
    ensures WellFormedChain(Revisions(m.before, chain))
  {
    forall i | 0 <= i < |chain| ensures WellFormed(VDict(m.before(chain[i]))) {
      assert Turns(h, m, chain[i]);
    }
  }

  lemma OlderHeadDiffers(h: Hash, m: Turn, t: string, chain: seq<Row>, digest: string)
    requires Ideal(h) && TurnsChain(h, m, chain, t) && ValidChain(h, m.before, chain) && OlderHead(chain, digest)
    ensures digest != HeadOf(chain)
  {
    var k :| 0 < k < |chain| && digest == HeadOf(chain[..k]);
    TurnsWellFormed(h, m, chain, t);
    RevisionsPrefix(m.before, chain, k);
    RevisionsPrefix(m.before, chain, |chain|);
    assert chain[..|chain|] == chain;
    HeadsDiffer(h, Revisions(m.before, chain), k, |chain|);
  }

  lemma {:induction false} SkipStep(h: Hash, m: Turn, front: seq<Row>, row: Row, t: string, w: Walked, p: Phase)
    requires Turns(h, m, row) && row.template == t && m.skips(row)
    requires row.previous == HeadOf(front) && row.own == RevisionHash(h, m.before(row), row.previous)
    requires TurnState(h, m, front, t, w, p)
    ensures TurnState(h, m, front + [row], t, Step(h, m.policy, w, row), NextPhase(m.skips, p, row))
  {
    ValidStep(h, m.after, w.rows, row);
    if p.Closed? || (p.Rewriting? && !p.tools) {
      OlderHeadStep(front, row, w.latest[t]);
    }
  }

  /** The rewritten row is anchored at the walk's own head, except past a closed run of empty rows. */
  lemma {:induction false} RewriteAnchor(h: Hash, m: Turn, front: seq<Row>, row: Row, t: string, w: Walked, p: Phase)
    requires Ideal(h) && TurnsChain(h, m, front, t) && row.template == t && ValidChain(h, m.before, front)
    requires row.previous == HeadOf(front) && TurnState(h, m, front, t, w, p) && p != Broken
    ensures Anchor(row, w.latest) == HeadOf(w.rows) <==> p != Closed
  {
    if p.Closed? {
      OlderHeadDiffers(h, m, t, front, w.latest[t]);
    }
  }

  lemma {:induction false} RewriteStep(h: Hash, m: Turn, front: seq<Row>, row: Row, t: string, w: Walked, p: Phase)
    requires Ideal(h) && TurnsChain(h, m, front, t) && Turns(h, m, row) && row.template == t && !m.skips(row)
    requires ValidChain(h, m.before, front)
    requires row.previous == HeadOf(front) && row.own == RevisionHash(h, m.before(row), row.previous)
    requires TurnState(h, m, front, t, w, p)
    ensures TurnState(h, m, front + [row], t, Step(h, m.policy, w, row), NextPhase(m.skips, p, row))
  {
    var previous := Anchor(row, w.latest);
    var r := Reanchored(h, row, m.policy(row).allowlist, m.policy(row).tools, previous);
    assert Turned(h, m, row, previous);
    assert ValidChain(h, m.after, w.rows + [r]) <==>
           ValidChain(h, m.after, w.rows) && previous == HeadOf(w.rows) by {
      ValidStep(h, m.after, w.rows, r);
    }
    if p != Broken {
      RewriteAnchor(h, m, front, row, t, w, p);
    }
  }

  lemma {:induction false} WalkOfChain(h: Hash, m: Turn, chain: seq<Row>, t: string)
    requires Ideal(h) && TurnsChain(h, m, chain, t) && ValidChain(h, m.before, chain)
    ensures TurnState(h, m, chain, t, Walk(h, m.policy, chain), PhaseOf(m.skips, chain))
  {
    if chain != [] {
      var front, row := chain[..|chain| - 1], chain[|chain| - 1];
      assert chain == front + [row];
      ValidStep(h, m.before, front, row);
      WalkOfChain(h, m, front, t);
      assert Turns(h, m, chain[|chain| - 1]);
      if m.skips(row) {
        SkipStep(h, m, front, row, t, Walk(h, m.policy, front), PhaseOf(m.skips, front));
      } else {
        RewriteStep(h, m, front, row, t, Walk(h, m.policy, front), PhaseOf(m.skips, front));
      }
    } else {
      assert ValidChain(h, m.after, []);
    }
  }

  /**
   A valid chain is valid in the new encoding exactly when its skipped rows lead, or
   it has no rows with tools but skipped ones and its empty rows stand together.
   */
  lemma {:induction false} ValidWhenSurvives(h: Hash, m: Turn, chain: seq<Row>, t: string)
    requires Ideal(h) && SkipsFilled(m.skips) && TurnsChain(h, m, chain, t) && ValidChain(h, m.before, chain)
    ensures ValidChain(h, m.after, Walk(h, m.policy, chain).rows) <==> Survives(m.skips, chain)
  {
    WalkOfChain(h, m, chain, t);
    PhaseDecides(m.skips, chain);
  }
}
