/**
 The migrations as they run: a loop over the rows in (template, version) order
 that updates the table row by row inside one transaction, which an exception
 rolls back. Each is proved against the walk of its policy.
 */
module RevisionTable {
  import opened JsonText
  import opened CanonicalJson
  import opened HashChain
  import opened RolePayload
  import opened Allowlists
  import opened ChainWalk
  import RetrievalClosure
  import AllowlistPin

  /** The table in place and the dictionary once row `i` is dealt with; none when it raises. */
  function InPlace(h: Hash, action: Action, row: Row, i: nat, w: Walked): Option<Walked>
    requires i < |w.rows|
  {
    match action
    case Abort => None
    case Keep(track) => Some(Walked(w.rows, if track then w.latest[row.template := row.own] else w.latest))
    case Rewrite(allowlist, tools) =>
      var r := Reanchored(h, row, allowlist, tools, Anchor(row, w.latest));
      Some(Walked(w.rows[i := r], w.latest[row.template := r.own]))
  }

  /** The table and the dictionary when the loop has done `i` rows; none when one of them raises. */
  function After(h: Hash, policy: Policy, before: seq<Row>, i: nat): (r: Option<Walked>)
    requires i <= |before|
    ensures r.Some? ==> |r.value.rows| == |before|
    ensures r.Some? ==> forall j | i <= j < |before| :: r.value.rows[j] == before[j]
  {
    if i == 0 then Some(Walked(before, map[]))
    else match After(h, policy, before, i - 1)
      case None => None
      case Some(w) => InPlace(h, policy(before[i - 1]), before[i - 1], i - 1, w)
  }

  lemma AbortsNext(policy: Policy, before: seq<Row>, i: nat)
    requires i < |before|
    ensures Aborts(policy, before[..i + 1]) <==> Aborts(policy, before[..i]) || policy(before[i]).Abort?
  {
    var front, all := before[..i], before[..i + 1];
    assert all == front + [before[i]];
    if Aborts(policy, front) {
      var j :| 0 <= j < i && policy(front[j]).Abort?;
      assert policy(all[j]).Abort?;
    } else if policy(before[i]).Abort? {
      assert policy(all[i]).Abort?;
    }
  }

  /** In place the loop leaves the walk of the rows it has done, and the others as they were. */
  lemma {:induction false} AfterIsWalk(h: Hash, policy: Policy, before: seq<Row>, i: nat)
    requires i <= |before|
    ensures var w := Walk(h, policy, before[..i]);
            After(h, policy, before, i) ==
            if Aborts(policy, before[..i]) then None else Some(Walked(w.rows + before[i..], w.latest))
  {
    if i == 0 {
      assert before[..0] == [] && [] + before[0..] == before;
    } else {
      AfterIsWalk(h, policy, before, i - 1);
      AbortsNext(policy, before, i - 1);
      WalkNext(h, policy, before, i - 1);
      WalkShape(h, policy, before[..i - 1]);
      if policy(before[i - 1]) != Abort {
        PlaceOfRow(h, policy, before, i - 1);
      }
    }
  }

  lemma {:induction false} PutInPlace(front: seq<Row>, before: seq<Row>, i: nat, r: Row)
    requires |front| == i < |before|
    ensures (front + before[i..])[i := r] == front + [r] + before[i + 1..]
    ensures front + before[i..] == front + [before[i]] + before[i + 1..]
  {
  }

  lemma {:induction false} PlaceOfRow(h: Hash, policy: Policy, before: seq<Row>, i: nat)
    requires i < |before| && policy(before[i]) != Abort && |Walk(h, policy, before[..i]).rows| == i
    ensures var w := Walk(h, policy, before[..i]);
            var next := Step(h, policy, w, before[i]);
            InPlace(h, policy(before[i]), before[i], i, Walked(w.rows + before[i..], w.latest)) ==
            Some(Walked(next.rows + before[i + 1..], next.latest))
  {
    var w := Walk(h, policy, before[..i]);
    match policy(before[i])
    case Keep(_) =>
      PutInPlace(w.rows, before, i, before[i]);
    case Rewrite(allowlist, tools) =>
      PutInPlace(w.rows, before, i, Reanchored(h, before[i], allowlist, tools, Anchor(before[i], w.latest)));
  }

  lemma LoopDone(h: Hash, policy: Policy, before: seq<Row>)
    ensures After(h, policy, before, |before|) ==
            if Aborts(policy, before) then None else Some(Walk(h, policy, before))
  {
    AfterIsWalk(h, policy, before, |before|);
    assert before[..|before|] == before;
    assert Walk(h, policy, before).rows + before[|before|..] == Walk(h, policy, before).rows;
  }

  lemma RowRaises(policy: Policy, before: seq<Row>, i: nat)
    requires i < |before| && policy(before[i]) == Abort
    ensures Aborts(policy, before)
  {
  }

  // ---------------------------------------------------------------- the inner loops

  /** The list the upgrade builds; none when it raises. */
  method PinNames(items: seq<Json>) returns (pinned: Option<seq<Json>>)
    ensures pinned == AllowlistPin.PinEntries(items)
  {
    var built: seq<Json> := [];
    var i := 0;
    while i < |items|
      invariant 0 <= i <= |items|
      invariant AllowlistPin.PinEntries(items[..i]) == Some(built)
    {
      assert items[..i + 1][..i] == items[..i];
      match items[i] {
        case JStr(name) =>
          if name != "retrieval" {
            PinningFails(items, i);
            return None;
          }
          built := built + [RETRIEVAL_ENTRY];
        case JObj(_) =>
          built := built + [items[i]];
        case _ =>
          PinningFails(items, i);
          return None;
      }
      i := i + 1;
    }
    assert items[..i] == items;
    return Some(built);
  }

  lemma {:induction false} PinningFails(items: seq<Json>, i: nat)
    requires i < |items| && AllowlistPin.PinEntry(items[i]) == None
    ensures AllowlistPin.PinEntries(items) == None
  {
    if i < |items| - 1 {
      PinningFails(items[..|items| - 1], i);
    }
  }

  /** The names the downgrade builds; none when it raises. */
  method ToolNames(tools: AllowlistPin.Tools, items: seq<Json>) returns (names: Option<seq<string>>)
    ensures names == AllowlistPin.NameEntries(tools, items)
  {
    var built: seq<string> := [];
    var i := 0;
    while i < |items|
      invariant 0 <= i <= |items|
      invariant AllowlistPin.NameEntries(tools, items[..i]) == Some(built)
    {
      assert items[..i + 1][..i] == items[..i];
      var name := AllowlistPin.NameEntry(tools, items[i]);
      if name == None {
        NamingFails(tools, items, i);
        return None;
      }
      built := built + [name.value];
      i := i + 1;
    }
    assert items[..i] == items;
    return Some(built);
  }

  lemma {:induction false} NamingFails(tools: AllowlistPin.Tools, items: seq<Json>, i: nat)
    requires i < |items| && AllowlistPin.NameEntry(tools, items[i]) == None
    ensures AllowlistPin.NameEntries(tools, items) == None
  {
    if i < |items| - 1 {
      NamingFails(tools, items[..|items| - 1], i);
    }
  }

  // ---------------------------------------------------------------- the migrations

  lemma UnpinKeeps(tools: AllowlistPin.Tools, row: Row)
    requires AllowlistPin.NameShaped(row)
    ensures AllowlistPin.DowngradeWith(tools)(row) == Keep(false)
  {
  }

  lemma UnpinRaises(tools: AllowlistPin.Tools, row: Row)
    requires !AllowlistPin.NameShaped(row) && AllowlistPin.NameEntries(tools, Items(row.allowlist)) == None
    ensures AllowlistPin.DowngradeWith(tools)(row) == Abort
  {
  }

  lemma UnpinRewrites(tools: AllowlistPin.Tools, row: Row, names: seq<string>)
    requires !AllowlistPin.NameShaped(row) && AllowlistPin.NameEntries(tools, Items(row.allowlist)) == Some(names)
    ensures AllowlistPin.DowngradeWith(tools)(row) == Rewrite(AllowlistPin.NamesColumn(names), NamedTools(names))
  {
  }

  class Table {
    const h: Hash
    var rows: seq<Row>

    constructor (h: Hash, rows: seq<Row>)
      ensures this.h == h && this.rows == rows
    {
      this.h := h;
      this.rows := rows;
    }

    /** Rewrite one row under its new allowlist, chained from `previous`. */
    method Update(i: nat, allowlist: Json, tools: Value, previous: string)
      requires i < |rows|
      modifies this
      ensures rows == old(rows)[i := Reanchored(h, old(rows)[i], allowlist, tools, previous)]
    {
      var own := RevisionHash(h, Content(rows[i].body, tools), previous);
      rows := rows[i := rows[i].(allowlist := allowlist, previous := previous, own := own)];
    }

    /** Migration 0012, forwards. */
    method CloseRetrieval() returns (ok: bool)
      modifies this
      ensures ok == !Aborts(RetrievalClosure.Upgrade, old(rows))
      ensures rows == Migrated(h, RetrievalClosure.Upgrade, old(rows))
    {
      var before, latest, i := rows, map[], 0;
      while i < |before|
        invariant i <= |before| && After(h, RetrievalClosure.Upgrade, before, i) == Some(Walked(rows, latest))
        decreases |before| - i
      {
        var row := before[i];
        if row.body.name in RetrievalClosure.NAMED_ROLES {
          var items := Items(row.allowlist);
          var has := RetrievalClosure.HasRetrieval(items);
          if has == None {
            RowRaises(RetrievalClosure.Upgrade, before, i);
            rows := before;
            return false;
          }
          if has.value || items != [] {
            latest := latest[row.template := row.own];
          } else {
            Update(i, JArr([RETRIEVAL_ENTRY]), PinnedTools([RETRIEVAL_PIN]), Anchor(row, latest));
            latest := latest[row.template := rows[i].own];
          }
        }
        i := i + 1;
      }
      LoopDone(h, RetrievalClosure.Upgrade, before);
      return true;
    }

    /** Migration 0012, backwards. */
    method ReopenRetrieval() returns (ok: bool)
      modifies this
      ensures ok == !Aborts(RetrievalClosure.Downgrade, old(rows))
      ensures rows == Migrated(h, RetrievalClosure.Downgrade, old(rows))
    {
      var before, latest, i := rows, map[], 0;
      while i < |before|
        invariant i <= |before| && After(h, RetrievalClosure.Downgrade, before, i) == Some(Walked(rows, latest))
        decreases |before| - i
      {
        var row := before[i];
        if row.body.name in RetrievalClosure.NAMED_ROLES {
          var items := Items(row.allowlist);
          var has := RetrievalClosure.HasRetrieval(items);
          if has == None {
            RowRaises(RetrievalClosure.Downgrade, before, i);
            rows := before;
            return false;
          }
          if !has.value {
            latest := latest[row.template := row.own];
          } else {
            var rest := RetrievalClosure.Without(items);
            if rest == None {
              RowRaises(RetrievalClosure.Downgrade, before, i);
              rows := before;
              return false;
            }
            var pins := PinsOf(rest.value);
            if pins == None {
              RowRaises(RetrievalClosure.Downgrade, before, i);
              rows := before;
              return false;
            }
            Update(i, JArr(rest.value), PinnedTools(pins.value), Anchor(row, latest));
            latest := latest[row.template := rows[i].own];
          }
        }
        i := i + 1;
      }
      LoopDone(h, RetrievalClosure.Downgrade, before);
      return true;
    }

    /** Migration 0010, forwards. */
    method PinAllowlists() returns (ok: bool)
      modifies this
      ensures ok == !Aborts(AllowlistPin.Upgrade, old(rows))
      ensures rows == Migrated(h, AllowlistPin.Upgrade, old(rows))
    {
      var before, latest, i := rows, map[], 0;
      while i < |before|
        invariant i <= |before| && After(h, AllowlistPin.Upgrade, before, i) == Some(Walked(rows, latest))
        decreases |before| - i
      {
        var row := before[i];
        var items := Items(row.allowlist);
        if items != [] && items[0].JObj? {
        } else {
          var entries := PinNames(items);
          if entries == None {
            RowRaises(AllowlistPin.Upgrade, before, i);
            rows := before;
            return false;
          }
          var pins := PinsOf(entries.value);
          if pins == None {
            RowRaises(AllowlistPin.Upgrade, before, i);
            rows := before;
            return false;
          }
          Update(i, JArr(entries.value), PinnedTools(pins.value), Anchor(row, latest));
          latest := latest[row.template := rows[i].own];
        }
        i := i + 1;
      }
      LoopDone(h, AllowlistPin.Upgrade, before);
      return true;
    }

    /** Migration 0010, backwards. */
    method UnpinAllowlists(tools: AllowlistPin.Tools) returns (ok: bool)
      modifies this
      ensures ok == !Aborts(AllowlistPin.DowngradeWith(tools), old(rows))
      ensures rows == Migrated(h, AllowlistPin.DowngradeWith(tools), old(rows))
    {
      var policy := AllowlistPin.DowngradeWith(tools);
      var before, latest, i := rows, map[], 0;
      while i < |before|
        invariant i <= |before| && After(h, policy, before, i) == Some(Walked(rows, latest))
        decreases |before| - i
      {
        var row := before[i];
        var items := Items(row.allowlist);
        if items != [] && items[0].JStr? {
          UnpinKeeps(tools, row);
        } else {
          var names := ToolNames(tools, items);
          if names == None {
            UnpinRaises(tools, row);
            RowRaises(policy, before, i);
            rows := before;
            return false;
          }
          UnpinRewrites(tools, row, names.value);
          Update(i, AllowlistPin.NamesColumn(names.value), NamedTools(names.value), Anchor(row, latest));
          latest := latest[row.template := rows[i].own];
        }
        i := i + 1;
      }
      LoopDone(h, policy, before);
      return true;
    }
  }
}
