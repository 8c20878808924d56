/**
 The walk the allowlist migrations share. Rows come ordered by version within
 each template; a dictionary carries, per template, the digest the next row is
 to chain from. A migration decides row by row whether to keep the row (and
 whether that updates the dictionary) or to rewrite its allowlist and re-anchor
 it; a row it cannot read aborts the run, and with it the transaction.
 */
module ChainWalk {
  import opened JsonText
  import opened CanonicalJson
  import opened HashChain
  import opened RolePayload
  import opened Allowlists

  /** A row of `role_revisions` or `agent_revisions`, joined with its template. */
  datatype Row = Row(id: string, template: string, body: Body, allowlist: Json, previous: string, own: string)

  datatype Action = Keep(track: bool) | Rewrite(allowlist: Json, tools: Value) | Abort

  type Policy = Row -> Action

  /** A row without tools. */
  predicate Empty(row: Row) { Items(row.allowlist) == [] }

  /** The content payload a row's digest is meant to cover. */
  type Encoding = Row -> seq<Entry>

  /** The payload of a row in the pinned encoding. */
  function PinnedContent(row: Row): seq<Entry> {
    match PinsOf(Items(row.allowlist))
    case Some(pins) => Content(row.body, PinnedTools(pins))
    case None => Content(row.body, VNull)
  }

  datatype Walked = Walked(rows: seq<Row>, latest: map<string, string>)

  function Anchor(row: Row, latest: map<string, string>): string {
    if row.template in latest then latest[row.template] else row.previous
  }

  function Reanchored(h: Hash, row: Row, allowlist: Json, tools: Value, previous: string): Row {
    row.(allowlist := allowlist, previous := previous, own := RoleHash(h, row.body, tools, previous))
  }

  function Step(h: Hash, policy: Policy, before: Walked, row: Row): Walked {
    match policy(row)
    case Abort => Walked(before.rows + [row], before.latest)
    case Keep(track) =>
      Walked(before.rows + [row], if track then before.latest[row.template := row.own] else before.latest)
    case Rewrite(allowlist, tools) =>
      var r := Reanchored(h, row, allowlist, tools, Anchor(row, before.latest));
      Walked(before.rows + [r], before.latest[row.template := r.own])
  }

  function Walk(h: Hash, policy: Policy, rows: seq<Row>): Walked {
    if rows == [] then Walked([], map[])
    else Step(h, policy, Walk(h, policy, rows[..|rows| - 1]), rows[|rows| - 1])
  }

  predicate Aborts(policy: Policy, rows: seq<Row>) {
    exists i :: 0 <= i < |rows| && policy(rows[i]).Abort?
  }

  /** What a run leaves of a table: the walked rows, or, when a row raises, the table as it was. */
  function Migrated(h: Hash, policy: Policy, rows: seq<Row>): seq<Row> {
    if Aborts(policy, rows) then rows else Walk(h, policy, rows).rows
  }

  /** The rows of one template, in order. */
  function Chain(rows: seq<Row>, template: string): seq<Row> {
    if rows == [] then []
    else
      var front, last := Chain(rows[..|rows| - 1], template), rows[|rows| - 1];
      if last.template == template then front + [last] else front
  }

  function Revisions(encode: Encoding, chain: seq<Row>): (r: seq<Revision>)
    ensures |r| == |chain|
  {
    seq(|chain|, i requires 0 <= i < |chain| => Revision(encode(chain[i]), chain[i].previous, chain[i].own))
  }

  /** The chain's digests are those its contents call for, from genesis on. */
  ghost predicate ValidChain(h: Hash, encode: Encoding, chain: seq<Row>) {
    Linked(h, Revisions(encode, chain))
  }

  function HeadOf(chain: seq<Row>): string {
    if chain == [] then GENESIS else chain[|chain| - 1].own
  }

  ghost predicate OneTemplate(chain: seq<Row>, template: string) {
    forall i | 0 <= i < |chain| :: chain[i].template == template
  }

  // ---------------------------------------------------------------- shape

  lemma {:induction false} WalkShape(h: Hash, policy: Policy, rows: seq<Row>)
    ensures |Walk(h, policy, rows).rows| == |rows|
    ensures forall i | 0 <= i < |rows| ::
              Walk(h, policy, rows).rows[i].template == rows[i].template &&
              Walk(h, policy, rows).rows[i].body == rows[i].body
  {
    if rows != [] {
      WalkShape(h, policy, rows[..|rows| - 1]);
    }
  }

  lemma {:induction false} WalkPrefix(h: Hash, policy: Policy, rows: seq<Row>, n: nat)
    requires n <= |rows|
    ensures |Walk(h, policy, rows).rows| == |rows|
    ensures Walk(h, policy, rows[..n]).rows == Walk(h, policy, rows).rows[..n]
  {
    WalkShape(h, policy, rows);
    if n < |rows| {
      var front := rows[..|rows| - 1];
      WalkPrefix(h, policy, front, n);
      assert rows[..n] == front[..n];
    } else {
      assert rows[..n] == rows;
    }
  }

  /** Each row is stepped once, from where the walk stands after the rows before it. */
  lemma WalkAt(h: Hash, policy: Policy, rows: seq<Row>, i: nat)
    requires i < |rows|
    ensures |Walk(h, policy, rows).rows| == |rows| && |Walk(h, policy, rows[..i]).rows| == i
    ensures Walk(h, policy, rows).rows[i] == Step(h, policy, Walk(h, policy, rows[..i]), rows[i]).rows[i]
  {
    WalkPrefix(h, policy, rows, i + 1);
    assert rows[..i + 1][..i] == rows[..i];
    WalkShape(h, policy, rows[..i]);
    assert Walk(h, policy, rows).rows[i] == Walk(h, policy, rows[..i + 1]).rows[i];
  }

  // ---------------------------------------------------------------- one template at a time

  lemma ChainOfAppend(rows: seq<Row>, row: Row, t: string)
    ensures Chain(rows + [row], t) == Chain(rows, t) + (if row.template == t then [row] else [])
  {
    assert (rows + [row])[..|rows|] == rows;
  }

  lemma WalkOfAppend(h: Hash, policy: Policy, rows: seq<Row>, row: Row)
    ensures Walk(h, policy, rows + [row]) == Step(h, policy, Walk(h, policy, rows), row)
  {
    assert (rows + [row])[..|rows|] == rows;
  }

  lemma WalkNext(h: Hash, policy: Policy, rows: seq<Row>, n: nat)
    requires n < |rows|
    ensures Walk(h, policy, rows[..n + 1]) == Step(h, policy, Walk(h, policy, rows[..n]), rows[n])
  {
    assert rows[..n + 1] == rows[..n] + [rows[n]];
    WalkOfAppend(h, policy, rows[..n], rows[n]);
  }

  /** The walk of a table and the walk of one chain, seen from that chain's template. */
  ghost predicate AgreeOn(all: Walked, one: Walked, t: string) {
    && Chain(all.rows, t) == one.rows
    && (t in all.latest <==> t in one.latest)
    && (t in all.latest ==> all.latest[t] == one.latest[t])
  }

  lemma {:induction false} StepByTemplate(h: Hash, policy: Policy, all: Walked, one: Walked, row: Row, t: string)
    requires AgreeOn(all, one, t)
    ensures AgreeOn(Step(h, policy, all, row), if row.template == t then Step(h, policy, one, row) else one, t)
  {
    match policy(row)
    case Abort =>
      ChainOfAppend(all.rows, row, t);
    case Keep(track) =>
      ChainOfAppend(all.rows, row, t);
    case Rewrite(allowlist, tools) =>
      var r := Reanchored(h, row, allowlist, tools, Anchor(row, all.latest));
      ChainOfAppend(all.rows, r, t);
  }

  /**
   Interleaving does not matter: what the walk does to the rows of one template
   is what it does to that template's chain alone.
   */
  lemma {:induction false} WalkByTemplate(h: Hash, policy: Policy, rows: seq<Row>, t: string)
    ensures AgreeOn(Walk(h, policy, rows), Walk(h, policy, Chain(rows, t)), t)
  {
    if rows != [] {
      var front, last := rows[..|rows| - 1], rows[|rows| - 1];
      assert rows == front + [last];
      WalkByTemplate(h, policy, front, t);
      ChainOfAppend(front, last, t);
      StepByTemplate(h, policy, Walk(h, policy, front), Walk(h, policy, Chain(front, t)), last, t);
      if last.template == t {
        WalkOfAppend(h, policy, Chain(front, t), last);
      }
    }
  }

  lemma {:induction false} ChainIsOfTemplate(rows: seq<Row>, t: string)
    ensures OneTemplate(Chain(rows, t), t)
    ensures forall r | r in Chain(rows, t) :: r in rows
    ensures forall r | r in rows && r.template == t :: r in Chain(rows, t)
  {
    if rows != [] {
      ChainIsOfTemplate(rows[..|rows| - 1], t);
      assert rows == rows[..|rows| - 1] + [rows[|rows| - 1]];
    }
  }

  lemma {:induction false} ChainLength(a: seq<Row>, b: seq<Row>, t: string)
    requires |a| == |b| && forall i | 0 <= i < |a| :: a[i].template == b[i].template
    ensures |Chain(a, t)| == |Chain(b, t)|
  {
    if a != [] {
      ChainLength(a[..|a| - 1], b[..|b| - 1], t);
    }
  }

  /** Tables with the same templates in the same places are equal once all their chains are. */
  lemma {:induction false} ChainsDetermineTable(a: seq<Row>, b: seq<Row>)
    requires |a| == |b| && forall i | 0 <= i < |a| :: a[i].template == b[i].template
    requires forall t :: Chain(a, t) == Chain(b, t)
    ensures a == b
  {
    if a != [] {
      var n := |a| - 1;
      var t := a[n].template;
      assert a == a[..n] + [a[n]] && b == b[..n] + [b[n]];
      ChainOfAppend(a[..n], a[n], t);
      ChainOfAppend(b[..n], b[n], t);
      ChainLength(a[..n], b[..n], t);
      assert Chain(a, t)[|Chain(a, t)| - 1] == a[n] && Chain(b, t)[|Chain(b, t)| - 1] == b[n];
      forall s ensures Chain(a[..n], s) == Chain(b[..n], s) {
        ChainOfAppend(a[..n], a[n], s);
        ChainOfAppend(b[..n], b[n], s);
        ChainLength(a[..n], b[..n], s);
        assert Chain(a[..n], s) == Chain(a, s)[..|Chain(a[..n], s)|];
        assert Chain(b[..n], s) == Chain(b, s)[..|Chain(b[..n], s)|];
      }
      ChainsDetermineTable(a[..n], b[..n]);
    }
  }

  // ---------------------------------------------------------------- validity

  lemma RevisionsPrefix(encode: Encoding, chain: seq<Row>, n: nat)
    requires n <= |chain|
    ensures Revisions(encode, chain[..n]) == Revisions(encode, chain)[..n]
    ensures Head(Revisions(encode, chain)[..n]) == HeadOf(chain[..n])
  {
  }

  lemma ValidPrefix(h: Hash, encode: Encoding, chain: seq<Row>, n: nat)
    requires ValidChain(h, encode, chain) && n <= |chain|
    ensures ValidChain(h, encode, chain[..n])
  {
    RevisionsPrefix(encode, chain, n);
    LinkedPrefix(h, Revisions(encode, chain), n);
  }

  lemma ValidExtends(h: Hash, encode: Encoding, front: seq<Row>, row: Row)
    requires ValidChain(h, encode, front) && row.previous == HeadOf(front) &&
             row.own == RevisionHash(h, encode(row), row.previous)
    ensures ValidChain(h, encode, front + [row])
  {
    var r := Revision(encode(row), row.previous, row.own);
    assert Revisions(encode, front + [row]) == Revisions(encode, front) + [r];
    LinkedAppend(h, Revisions(encode, front), r);
  }

  /** A chain is valid when its front is, its last row names the front's head, and its last digest is right. */
  lemma ValidStep(h: Hash, encode: Encoding, front: seq<Row>, row: Row)
    ensures ValidChain(h, encode, front + [row]) <==>
            ValidChain(h, encode, front) && row.previous == HeadOf(front) &&
            row.own == RevisionHash(h, encode(row), row.previous)
  {
    var all := front + [row];
    if ValidChain(h, encode, all) {
      ValidPrefix(h, encode, all, |front|);
      ValidAt(h, encode, all, |front|);
      assert all[..|front|] == front;
    } else if ValidChain(h, encode, front) && row.previous == HeadOf(front) &&
        row.own == RevisionHash(h, encode(row), row.previous) {
      ValidExtends(h, encode, front, row);
    }
  }

  lemma ValidAt(h: Hash, encode: Encoding, chain: seq<Row>, i: nat)
    requires ValidChain(h, encode, chain) && i < |chain|
    ensures chain[i].previous == HeadOf(chain[..i])
    ensures chain[i].own == RevisionHash(h, encode(chain[i]), chain[i].previous)
  {
    RevisionsPrefix(encode, chain, i);
    assert Sound(h, Revisions(encode, chain)[i]);
  }

  /** A walk has left a chain as it was, and anchors the next row where the chain ends. */
  ghost predicate Restored(chain: seq<Row>, t: string, w: Walked) {
    && w.rows == chain
    && (chain == [] ==> t !in w.latest)
    && (chain != [] ==> t in w.latest && w.latest[t] == HeadOf(chain))
  }

  /** If undoing `up` by `down` restores every chain of a table, it restores the table. */
  lemma RestoredTable(h: Hash, up: Policy, down: Policy, rows: seq<Row>)
    requires forall t :: Walk(h, down, Walk(h, up, Chain(rows, t)).rows).rows == Chain(rows, t)
    ensures Walk(h, down, Walk(h, up, rows).rows).rows == rows
  {
    var middle := Walk(h, up, rows).rows;
    var back := Walk(h, down, middle).rows;
    WalkShape(h, up, rows);
    WalkShape(h, down, middle);
    forall t ensures Chain(back, t) == Chain(rows, t) {
      WalkByTemplate(h, up, rows, t);
      WalkByTemplate(h, down, middle, t);
    }
    ChainsDetermineTable(back, rows);
  }
}
