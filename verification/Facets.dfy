/**
 Reordering the facets of a workspace, after ReorderFacets in
 internal/repo/postgres/facets_repository.go.  Rows are known by their identity, which is
 unique; a unique index forbids two active facets one position and is checked row by row.
 */
module Facets {
  import opened Wrappers

  datatype Facet = Facet(position: int, revision: int, deleted: bool)

  type Rows = map<string, Facet>

  datatype Item = Item(identity: string, expected: int)

  datatype Error = SetMismatch | RevisionConflict | DuplicatePosition | OutOfRange

  const SHIFT := 1_000_000
  const MAX_POSITION := 0x7FFF_FFFF

  function Active(rows: Rows): set<string> { set k | k in rows && !rows[k].deleted }

  /** What the unique index and the column's check guarantee. */
  ghost predicate Indexed(rows: Rows) {
    && (forall k | k in Active(rows) :: 0 <= rows[k].position <= MAX_POSITION)
    && (forall a, b | a in Active(rows) && b in Active(rows) && a != b :: rows[a].position != rows[b].position)
  }

  // ---------------------------------------------------------------- validation

  function Identities(order: seq<Item>): set<string> { set item | item in order :: item.identity }

  /** The first item that names no active facet, repeats one or carries another revision. */
  function FirstBad(rows: Rows, order: seq<Item>): Option<Error> {
    if order == [] then None
    else
      var rest, last := order[..|order| - 1], order[|order| - 1];
      if FirstBad(rows, rest).Some? then FirstBad(rows, rest)
      else if last.identity !in Active(rows) || last.identity in Identities(rest) then Some(SetMismatch)
      else if rows[last.identity].revision != last.expected then Some(RevisionConflict)
      else None
  }

  function Refusal(rows: Rows, order: seq<Item>): Option<Error> {
    if |Active(rows)| != |order| then Some(SetMismatch) else FirstBad(rows, order)
  }

  /** The order lists every active facet exactly once, with its revision. */
  ghost predicate Permutation(rows: Rows, order: seq<Item>) {
    && Identities(order) == Active(rows)
    && (forall i, j | 0 <= i < j < |order| :: order[i].identity != order[j].identity)
    && (forall i | 0 <= i < |order| ::
        order[i].identity in rows && rows[order[i].identity].revision == order[i].expected)
  }

  lemma {:induction false} FirstBadNone(rows: Rows, order: seq<Item>)
    ensures FirstBad(rows, order).None? <==>
      && (forall i | 0 <= i < |order| ::
          order[i].identity in Active(rows) && rows[order[i].identity].revision == order[i].expected)
      && (forall i, j | 0 <= i < j < |order| :: order[i].identity != order[j].identity)
  {
    if order != [] {
      var rest, last := order[..|order| - 1], order[|order| - 1];
      FirstBadNone(rows, rest);
      assert forall i | 0 <= i < |rest| :: rest[i] == order[i];
      if last.identity in Identities(rest) {
        var i :| 0 <= i < |rest| && rest[i].identity == last.identity;
      }
    }
  }

  lemma {:induction false} IdentitiesCount(order: seq<Item>)
    requires forall i, j | 0 <= i < j < |order| :: order[i].identity != order[j].identity
    ensures |Identities(order)| == |order|
  {
    if order != [] {
      var rest, last := order[..|order| - 1], order[|order| - 1];
      IdentitiesCount(rest);
      assert Identities(order) == Identities(rest) + {last.identity} by {
        assert order == rest + [last];
      }
    }
  }

  lemma SubsetOfSameSize(a: set<string>, b: set<string>)
    requires a <= b && |a| == |b|
    ensures a == b
  {
    assert b == a + (b - a);
  }

  /** Distinct active identities of the right number are all of them: exactly the permutations
      with matching revisions are accepted. */
  lemma AcceptedIsPermutation(rows: Rows, order: seq<Item>)
    ensures Refusal(rows, order).None? <==> Permutation(rows, order)
  {
    FirstBadNone(rows, order);
    if Refusal(rows, order).None? {
      IdentitiesCount(order);
      SubsetOfSameSize(Identities(order), Active(rows));
    }
    if Permutation(rows, order) {
      IdentitiesCount(order);
      forall i | 0 <= i < |order| ensures order[i].identity in Active(rows) {
        assert order[i].identity in Identities(order);
      }
    }
  }

  // ---------------------------------------------------------------- the new order

  /** The place of a facet in the order. */
  function PlaceOf(order: seq<Item>, identity: string): nat {
    if order == [] || order[0].identity == identity then 0 else 1 + PlaceOf(order[1..], identity)
  }

  lemma {:induction false} PlaceIs(order: seq<Item>, i: nat)
    requires i < |order| && forall j, k | 0 <= j < k < |order| :: order[j].identity != order[k].identity
    ensures PlaceOf(order, order[i].identity) == i
  {
    if i > 0 { PlaceIs(order[1..], i - 1); }
  }

  function Put(f: Facet, place: nat): Facet {
    f.(position := place, revision := if f.position == place then f.revision else f.revision + 1)
  }

  /** The table after a reorder. */
  function Reordered(rows: Rows, order: seq<Item>): Rows {
    map k | k in rows :: if rows[k].deleted then rows[k] else Put(rows[k], PlaceOf(order, k))
  }

  /** The first `n` facets of the order that got another position, in the requested order. */
  function Changed(rows: Rows, order: seq<Item>, n: nat): seq<string>
    requires n <= |order|
  {
    if n == 0 then []
    else
      var k := order[n - 1].identity;
      if k in rows && rows[k].position == n - 1 then Changed(rows, order, n - 1) else Changed(rows, order, n - 1) + [k]
  }

  /** The facets reported are exactly those that stood elsewhere before. */
  lemma {:induction false} ChangedExactly(rows: Rows, order: seq<Item>, n: nat, k: string)
    requires Permutation(rows, order) && n <= |order|
    ensures k in Changed(rows, order, n) <==>
      exists i :: 0 <= i < n && order[i].identity == k && rows[order[i].identity].position != i
  {
    if n > 0 {
      ChangedExactly(rows, order, n - 1, k);
      if k in Changed(rows, order, n - 1) {
        var i :| 0 <= i < n - 1 && order[i].identity == k && rows[order[i].identity].position != i;
      }
      assert order[n - 1].identity in rows;
    }
  }

  /** Afterwards the facets stand at 0, 1, 2, ... in the requested order; the ones that moved have
      their revision raised by one and nothing else changes. */
  lemma ReorderedIs(rows: Rows, order: seq<Item>)
    requires Indexed(rows) && Permutation(rows, order)
    ensures Active(Reordered(rows, order)) == Active(rows) && Indexed(Reordered(rows, order))
    ensures forall i | 0 <= i < |order| ::
      && order[i].identity in Reordered(rows, order) && Reordered(rows, order)[order[i].identity].position == i
      && Reordered(rows, order)[order[i].identity].revision
           == order[i].expected + if rows[order[i].identity].position == i then 0 else 1
    ensures forall k | k in rows && rows[k].deleted :: Reordered(rows, order)[k] == rows[k]
  {
    var next := Reordered(rows, order);
    forall i | 0 <= i < |order|
      ensures order[i].identity in Active(rows) && next[order[i].identity] == Put(rows[order[i].identity], i)
    {
      PlaceIs(order, i);
      assert order[i].identity in Identities(order);
    }
    assert Active(next) == Active(rows);
    forall k | k in Active(next) ensures exists i ::
        0 <= i < |order| && order[i].identity == k && next[k].position == i
    {
      assert k in Identities(order);
      var i :| 0 <= i < |order| && order[i].identity == k;
      assert next[k].position == i;
    }
    OrderFits(rows, order);
  }

  /** Distinct positions leave room for at most as many facets as there are positions. */
  lemma OrderFits(rows: Rows, order: seq<Item>)
    requires Indexed(rows) && Permutation(rows, order)
    ensures |order| <= MAX_POSITION + 1
  {
    IdentitiesCount(order);
    FewPositions(rows, Active(rows), MAX_POSITION + 1);
  }

  lemma {:induction false} FewPositions(rows: Rows, some: set<string>, n: nat)
    requires forall k | k in some :: k in rows && 0 <= rows[k].position < n
    requires forall a, b | a in some && b in some && a != b :: rows[a].position != rows[b].position
    ensures |some| <= n
    decreases n
  {
    if n > 0 {
      if top :| top in some && rows[top].position == n - 1 {
        FewPositions(rows, some - {top}, n - 1);
      } else {
        FewPositions(rows, some, n - 1);
      }
    } else {
      forall k | k in some ensures false {}
      assert some == {};
    }
  }

  /** Asking for the order the facets already have changes nothing. */
  lemma ReorderAgain(rows: Rows, order: seq<Item>, again: seq<Item>)
    requires Indexed(rows) && Permutation(rows, order) && Permutation(Reordered(rows, order), again)
    requires |again| == |order| && forall i | 0 <= i < |order| :: again[i].identity == order[i].identity
    ensures Reordered(Reordered(rows, order), again) == Reordered(rows, order)
  {
    var next := Reordered(rows, order);
    forall k | k in next && !next[k].deleted ensures Put(next[k], PlaceOf(again, k)) == next[k] {
      StaysPut(rows, order, again, k);
    }
    assert Reordered(next, again).Keys == next.Keys;
  }

  lemma StaysPut(rows: Rows, order: seq<Item>, again: seq<Item>, k: string)
    requires Indexed(rows) && Permutation(rows, order) && Permutation(Reordered(rows, order), again)
    requires |again| == |order| && forall i | 0 <= i < |order| :: again[i].identity == order[i].identity
    requires k in Active(Reordered(rows, order))
    ensures Reordered(rows, order)[k].position == PlaceOf(again, k)
  {
    ReorderedIs(rows, order);
    var i := FindPlace(Reordered(rows, order), again, k);
    assert order[i].identity == k;
  }

  // ---------------------------------------------------------------- writes under the index

  /** An update of one row's position, as the index and the column's type allow it. */
  function Write(rows: Rows, k: string, f: Facet): Result<Rows, Error>
    requires k in rows
  {
    if f.position > MAX_POSITION then Failure(OutOfRange)
    else if !f.deleted && exists other | other in rows && other != k ::
        !rows[other].deleted && rows[other].position == f.position
    then Failure(DuplicatePosition)
    else Success(rows[k := f])
  }

  /** No two active facets stand exactly one shift apart, and none so high that it cannot shift. */
  ghost predicate Shiftable(rows: Rows) {
    && (forall a, b | a in Active(rows) && b in Active(rows) :: rows[a].position + SHIFT != rows[b].position)
    && (forall a | a in Active(rows) :: rows[a].position + SHIFT <= MAX_POSITION)
  }

  function Shifted(f: Facet): Facet { f.(position := f.position + SHIFT) }

  /** The rows while those outside `remaining` have been shifted. */
  ghost predicate PartlyShifted(rows: Rows, remaining: set<string>, now: Rows) {
    && now.Keys == rows.Keys
    && forall k | k in rows && k in now ::
        now[k] == if k in Active(rows) && k !in remaining then Shifted(rows[k]) else rows[k]
  }

  lemma ShiftOne(rows: Rows, remaining: set<string>, now: Rows, k: string)
    requires Indexed(rows) && Shiftable(rows) && remaining <= Active(rows) && k in remaining &&
        PartlyShifted(rows, remaining, now)
    ensures Write(now, k, Shifted(now[k])) == Success(now[k := Shifted(now[k])])
    ensures PartlyShifted(rows, remaining - {k}, now[k := Shifted(now[k])])
  {
    forall other | other in now && other != k && !now[other].deleted
        ensures now[other].position != now[k].position + SHIFT
    {
      assert other in Active(rows);
    }
  }

  /** Whatever rows have been shifted already, shifting another one is allowed. */
  ghost predicate NeverCollides(rows: Rows) {
    forall remaining, now, k | remaining <= Active(rows) && k in remaining && PartlyShifted(rows, remaining, now) ::
      Write(now, k, Shifted(now[k])).Success?
  }

  /** The shift works in every order of the rows exactly when no two active facets stand one
      shift apart and none is too high. */
  lemma ShiftableExactly(rows: Rows)
    requires Indexed(rows)
    ensures NeverCollides(rows) <==> Shiftable(rows)
  {
    if Shiftable(rows) {
      forall remaining, now, k | remaining <= Active(rows) && k in remaining && PartlyShifted(rows, remaining, now)
        ensures Write(now, k, Shifted(now[k])).Success?
      {
        ShiftOne(rows, remaining, now, k);
      }
    }
    if NeverCollides(rows) {
      assert PartlyShifted(rows, Active(rows), rows);
      forall a | a in Active(rows) ensures Write(rows, a, Shifted(rows[a])).Success? {}
    }
  }

  /** The first statement of the reorder; the database updates the rows in an order of its own. */
  method ShiftAll(rows: Rows) returns (result: Result<Rows, Error>)
    ensures result.Success? ==> PartlyShifted(rows, {}, result.value)
    ensures Indexed(rows) && Shiftable(rows) ==> result.Success?
  {
    var now := rows;
    var remaining := Active(rows);
    while remaining != {}
      invariant remaining <= Active(rows) && PartlyShifted(rows, remaining, now)
    {
      var k :| k in remaining;
      if Indexed(rows) && Shiftable(rows) { ShiftOne(rows, remaining, now, k); }
      var written := Write(now, k, Shifted(now[k]));
      if written.Failure? { return written; }
      now := written.value;
      remaining := remaining - {k};
    }
    return Success(now);
  }

  /** The shifted rows while the first `n` facets of the order have got their place. */
  ghost predicate PartlyPlaced(rows: Rows, order: seq<Item>, n: nat, now: Rows) {
    && now.Keys == rows.Keys
    && forall k | k in rows && k in now ::
         now[k] == if k !in Active(rows) then rows[k]
                   else if PlaceOf(order, k) < n then Put(rows[k], PlaceOf(order, k))
                   else Shifted(rows[k])
  }

  /** The facet at place `m` of the order still stands, shifted, at the earlier place `n`. */
  ghost predicate Blocks(rows: Rows, order: seq<Item>, n: nat, m: nat) {
    n < m < |order| && order[m].identity in rows && rows[order[m].identity].position + SHIFT == n
  }

  ghost predicate Blocked(rows: Rows, order: seq<Item>, n: nat) { exists m: nat :: Blocks(rows, order, n, m) }

  ghost predicate Placeable(rows: Rows, order: seq<Item>) { forall n: nat | n < |order| :: !Blocked(rows, order, n) }

  /** Up to a million facets always can be placed. */
  lemma FewArePlaceable(rows: Rows, order: seq<Item>)
    requires Indexed(rows) && Permutation(rows, order) && |order| <= 1_000_000
    ensures Placeable(rows, order)
  {
    forall m | 0 <= m < |order| ensures rows[order[m].identity].position >= 0 {
      assert order[m].identity in Identities(order);
    }
  }

  /** The next facet of the order stands shifted, and placing it goes on. */
  lemma PlaceOne(rows: Rows, order: seq<Item>, n: nat, now: Rows)
    requires Permutation(rows, order) && n < |order| && PartlyPlaced(rows, order, n, now)
    ensures var k := order[n].identity;
      && k in now && k in Active(rows) && now[k] == Shifted(rows[k])
      && PartlyPlaced(rows, order, n + 1, now[k := Put(rows[k], n)])
  {
    var k := order[n].identity;
    PlaceIs(order, n);
    assert k in Identities(order);
    forall other | other in Active(rows) && other != k ensures PlaceOf(order, other) != n {
      var i := FindPlace(rows, order, other);
    }
  }

  /** The update is refused exactly when a facet that waits for its place stands there. */
  lemma PlaceWrites(rows: Rows, order: seq<Item>, n: nat, now: Rows)
    requires Indexed(rows) && Permutation(rows, order) && n < |order| && PartlyPlaced(rows, order, n, now)
    requires order[n].identity in now && order[n].identity in Active(rows)
    ensures var k := order[n].identity;
      Write(now, k, Put(rows[k], n)) == if Blocked(rows, order, n) then Failure(DuplicatePosition)
          else Success(now[k := Put(rows[k], n)])
  {
    var k := order[n].identity;
    OrderFits(rows, order);
    if m: nat :| Blocks(rows, order, n, m) {
      PlaceIs(order, m);
      assert order[m].identity in Identities(order) && order[m].identity in Active(rows);
      assert now[order[m].identity] == Shifted(rows[order[m].identity]);
      assert order[m].identity != k;
    } else {
      forall other | other in now && other != k && !now[other].deleted ensures now[other].position != n {
        assert other in Active(rows);
        var i := FindPlace(rows, order, other);
        assert !Blocks(rows, order, n, i);
      }
    }
  }

  lemma FindPlace(rows: Rows, order: seq<Item>, other: string) returns (i: nat)
    requires Permutation(rows, order) && other in Active(rows)
    ensures i < |order| && order[i].identity == other && PlaceOf(order, other) == i
  {
    assert other in Identities(order);
    i :| i < |order| && order[i].identity == other;
    PlaceIs(order, i);
  }

  lemma AllPlaced(rows: Rows, order: seq<Item>, now: Rows)
    requires Permutation(rows, order) && PartlyPlaced(rows, order, |order|, now)
    ensures now == Reordered(rows, order)
  {
    forall k | k in Active(rows) ensures PlaceOf(order, k) < |order| {
      assert k in Identities(order);
      var i :| 0 <= i < |order| && order[i].identity == k;
      PlaceIs(order, i);
    }
  }

  /** The update of one listed facet; `moved` tells whether it stood elsewhere before. */
  method PlaceRow(rows: Rows, now: Rows, item: Item, n: nat) returns (result: Result<Rows, Error>, moved: bool)
    requires item.identity in rows && item.identity in now && now[item.identity] == Shifted(rows[item.identity])
    requires rows[item.identity].revision == item.expected
    ensures result == Write(now, item.identity, Put(rows[item.identity], n)) &&
        (moved <==> rows[item.identity].position != n)
  {
    var f := now[item.identity];
    moved := rows[item.identity].position != n;
    f := if moved then f.(position := n, revision := item.expected + 1) else f.(position := n);
    result := Write(now, item.identity, f);
  }

  lemma StartPlacing(rows: Rows, order: seq<Item>, shifted: Rows)
    requires PartlyShifted(rows, {}, shifted)
    ensures PartlyPlaced(rows, order, 0, shifted)
  {
  }

  /** One turn of the second phase. */
  method PlaceNext(rows: Rows, now: Rows, order: seq<Item>, n: nat, changed: seq<string>)
    returns (result: Result<Rows, Error>, more: seq<string>)
    requires Indexed(rows) && Permutation(rows, order) && n < |order| && PartlyPlaced(rows, order, n, now)
    requires changed == Changed(rows, order, n)
    ensures result.Failure? <==> Blocked(rows, order, n)
    ensures result.Success? ==> PartlyPlaced(rows, order, n + 1, result.value) && more == Changed(rows, order, n + 1)
  {
    PlaceOne(rows, order, n, now);
    PlaceWrites(rows, order, n, now);
    var moved;
    result, moved := PlaceRow(rows, now, order[n], n);
    more := if moved then changed + [order[n].identity] else changed;
  }

  /** The second phase: one update for each listed facet. */
  method PlaceAll(rows: Rows, shifted: Rows, order: seq<Item>)
      returns (result: Result<Rows, Error>, changed: seq<string>)
    requires Indexed(rows) && Permutation(rows, order) && PartlyShifted(rows, {}, shifted)
    ensures result.Success? <==> Placeable(rows, order)
    ensures result.Success? ==> result.value == Reordered(rows, order) && changed == Changed(rows, order, |order|)
  {
    StartPlacing(rows, order, shifted);
    var now := shifted;
    changed := [];
    for n := 0 to |order|
      invariant PartlyPlaced(rows, order, n, now)
      invariant changed == Changed(rows, order, n)
      invariant forall k: nat | k < n :: !Blocked(rows, order, k)
    {
      var written, more := PlaceNext(rows, now, order, n, changed);
      if written.Failure? { return written, changed; }
      now, changed := written.value, more;
    }
    AllPlaced(rows, order, now);
    return Success(now), changed;
  }

  method Validate(rows: Rows, order: seq<Item>) returns (error: Option<Error>)
    ensures error == Refusal(rows, order)
  {
    if |Active(rows)| != |order| { return Some(SetMismatch); }
    var seen: set<string> := {};
    for i := 0 to |order|
      invariant FirstBad(rows, order[..i]).None? && seen == Identities(order[..i])
    {
      var item := order[i];
      assert order[..i + 1] == order[..i] + [item];
      if item.identity !in Active(rows) || item.identity in seen {
        FirstBadDecides(rows, order, i + 1);
        return Some(SetMismatch);
      }
      if rows[item.identity].revision != item.expected {
        FirstBadDecides(rows, order, i + 1);
        return Some(RevisionConflict);
      }
      seen := seen + {item.identity};
    }
    assert order[..|order|] == order;
    return None;
  }

  lemma {:induction false} FirstBadDecides(rows: Rows, order: seq<Item>, n: nat)
    requires n <= |order| && FirstBad(rows, order[..n]).Some?
    ensures FirstBad(rows, order) == FirstBad(rows, order[..n])
    decreases |order|
  {
    if n == |order| {
      assert order[..n] == order;
    } else {
      assert order[..|order| - 1][..n] == order[..n];
      FirstBadDecides(rows, order[..|order| - 1], n);
    }
  }

  class Table {
    var rows: Rows

    /** ReorderFacets in its transaction; an error rolls it back. */
    method Reorder(order: seq<Item>) returns (result: Result<seq<string>, Error>)
      requires Indexed(rows)
      modifies this
      ensures Refusal(old(rows), order).Some? ==> result == Failure(Refusal(old(rows), order).value)
      ensures Refusal(old(rows), order).None? && Shiftable(old(rows)) ==>
          (result.Success? <==> Placeable(old(rows), order))
      ensures result.Success? ==>
        rows == Reordered(old(rows), order) && result.value == Changed(old(rows), order, |order|)
      ensures result.Failure? ==> rows == old(rows)
      ensures Indexed(rows)
    {
      var error := Validate(rows, order);
      if error.Some? { return Failure(error.value); }
      AcceptedIsPermutation(rows, order);
      var shifted := ShiftAll(rows);
      if shifted.Failure? { return Failure(shifted.error); }
      ReorderedIs(rows, order);
      var placed, changed := PlaceAll(rows, shifted.value, order);
      if placed.Failure? { return Failure(placed.error); }
      rows := placed.value;
      return Success(changed);
    }
  }
}
