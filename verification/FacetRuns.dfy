/**
 When a reorder can meet the unique index, over the commands that write facets
 (internal/usecase/facets/usecase.go with InsertFacet and UpdateFacet of
 internal/repo/postgres/facets_repository.go): a new or restored facet goes behind the last
 active one, a restored revision back to where it stood, a reorder numbers the active ones.
 */
module FacetRuns {
  import opened Wrappers
  import opened Facets

  datatype Event =
    | Created(identity: string, position: int)
    | Patched(identity: string, renamed: string)
    | Removed(identity: string)
    | Restored(identity: string, position: int)
    | RevisionRestored(identity: string, renamed: string, position: int, deleted: bool)
    | Ordered(order: seq<Item>)

  const MAX_IDENTITY := 160

  /** validateIdentity */
  predicate ValidIdentity(identity: string) { 1 <= |identity| <= MAX_IDENTITY }

  /** COALESCE(MAX(position), -1) + 1 over the active facets. */
  ghost predicate IsNext(rows: Rows, position: int) {
    && 0 <= position <= MAX_POSITION
    && (forall k | k in Active(rows) :: rows[k].position < position)
    && (position > 0 ==> exists k | k in Active(rows) :: rows[k].position == position - 1)
  }

  /** A facet may keep its identity or take an unused one. */
  predicate MayBe(rows: Rows, k: string, renamed: string) {
    k in rows && ValidIdentity(renamed) && (renamed == k || renamed !in rows)
  }

  /** No active facet other than `k` stands at the position. */
  ghost predicate IsFree(rows: Rows, k: string, position: int) {
    0 <= position <= MAX_POSITION && forall other | other in Active(rows) && other != k ::
        rows[other].position != position
  }

  ghost predicate Enabled(rows: Rows, e: Event) {
    match e
    case Created(k, position) => ValidIdentity(k) && k !in rows && IsNext(rows, position)
    case Patched(k, renamed) => MayBe(rows, k, renamed)
    case Removed(k) => k in Active(rows)
    case Restored(k, position) => k in rows && rows[k].deleted && IsNext(rows, position)
    case RevisionRestored(k, renamed, position, deleted) =>
      MayBe(rows, k, renamed) && (if deleted then 0 <= position <= MAX_POSITION else IsFree(rows, k, position))
    case Ordered(order) => Refusal(rows, order).None?
  }

  function Replace(rows: Rows, k: string, renamed: string, f: Facet): Rows { (rows - {k})[renamed := f] }

  ghost function Apply(rows: Rows, e: Event): Rows
    requires Enabled(rows, e)
  {
    match e
    case Created(k, position) => rows[k := Facet(position, 1, false)]
    case Patched(k, renamed) => Replace(rows, k, renamed, rows[k].(revision := rows[k].revision + 1))
    case Removed(k) => rows[k := rows[k].(deleted := true, revision := rows[k].revision + 1)]
    case Restored(k, position) => rows[k := Facet(position, rows[k].revision + 1, false)]
    case RevisionRestored(k, renamed, position, deleted) =>
      Replace(rows, k, renamed, Facet(position, rows[k].revision + 1, deleted))
    case Ordered(order) => Reordered(rows, order)
  }

  /** Some facet stood at the position before event `n`. */
  ghost predicate WasHeld(states: seq<Rows>, n: nat, position: int) {
    exists j: nat, k :: j <= n && j < |states| && k in states[j] && states[j][k].position == position
  }

  /** A revision that is restored was recorded earlier. */
  ghost predicate Follows(states: seq<Rows>, events: seq<Event>, n: nat)
    requires |states| == |events| + 1
  {
    n < |events| ==>
      && Enabled(states[n], events[n]) && states[n + 1] == Apply(states[n], events[n])
      && (events[n].RevisionRestored? ==> WasHeld(states, n, events[n].position))
  }

  /** A run from a workspace without facets. */
  ghost predicate IsRun(states: seq<Rows>, events: seq<Event>) {
    && |states| == |events| + 1 && states[0] == map[]
    && forall n {:trigger Follows(states, events, n)} :: Follows(states, events, n)
  }

  predicate Appends(e: Event) { e.Created? || e.Restored? }

  /** How many facets were created or restored. */
  function Appended(events: seq<Event>): nat {
    if events == [] then 0
    else Appended(events[..|events| - 1]) + if Appends(events[|events| - 1]) then 1 else 0
  }

  lemma AppendedNext(events: seq<Event>, n: nat)
    requires n < |events|
    ensures Appended(events[..n + 1]) == Appended(events[..n]) + if Appends(events[n]) then 1 else 0
  {
    assert events[..n + 1][..n] == events[..n];
  }

  lemma {:induction false} AppendedGrows(events: seq<Event>, j: nat, n: nat)
    requires j <= n <= |events|
    ensures Appended(events[..j]) <= Appended(events[..n])
  {
    if j < n {
      AppendedGrows(events, j, n - 1);
      AppendedNext(events, n - 1);
    }
  }

  // ---------------------------------------------------------------- positions

  /** The facets, deleted ones included, are fewer and stand lower than `n`. */
  ghost predicate Below(rows: Rows, n: nat) {
    |rows| <= n && forall k | k in rows :: 0 <= rows[k].position < n
  }

  lemma ActivePlus(rows: Rows, k: string, f: Facet)
    requires !f.deleted
    ensures Active(rows[k := f]) == Active(rows) + {k}
  {
  }

  lemma ActiveMinus(rows: Rows, k: string)
    requires k in rows
    ensures Active(rows[k := rows[k].(deleted := true, revision := rows[k].revision + 1)]) == Active(rows) - {k}
  {
  }

  lemma SizeOfPut(rows: Rows, k: string, f: Facet)
    ensures |rows[k := f]| <= |rows| + 1
  {
    assert rows[k := f].Keys == rows.Keys + {k};
    assert |rows[k := f]| == |rows[k := f].Keys| && |rows| == |rows.Keys|;
  }

  lemma SizeOfReplace(rows: Rows, k: string, renamed: string, f: Facet)
    requires MayBe(rows, k, renamed)
    ensures |Replace(rows, k, renamed, f)| == |rows|
  {
    var next := Replace(rows, k, renamed, f);
    assert next.Keys == rows.Keys - {k} + {renamed};
    assert |next| == |next.Keys| && |rows| == |rows.Keys|;
  }

  lemma SameSize(a: Rows, b: Rows)
    requires a.Keys == b.Keys
    ensures |a| == |b|
  {
    assert |a| == |a.Keys| && |b| == |b.Keys|;
  }

  lemma ReplaceActive(rows: Rows, k: string, renamed: string, f: Facet)
    requires MayBe(rows, k, renamed)
    ensures Active(Replace(rows, k, renamed, f)) == Active(rows) - {k} + if f.deleted then {} else {renamed}
  {
  }

  lemma AppendIndexed(rows: Rows, k: string, f: Facet)
    requires Indexed(rows) && IsNext(rows, f.position) && !f.deleted && k !in Active(rows)
    ensures Indexed(rows[k := f])
  {
    ActivePlus(rows, k, f);
  }

  /** The first free position is at most the bound of the ones below. */
  lemma NextIsLow(rows: Rows, position: int, n: nat)
    requires Below(rows, n) && IsNext(rows, position)
    ensures position <= n
  {
  }

  lemma AppendKeeps(rows: Rows, k: string, f: Facet, n: nat)
    requires Indexed(rows) && Below(rows, n) && IsNext(rows, f.position) && !f.deleted && k !in Active(rows)
    ensures Indexed(rows[k := f]) && Below(rows[k := f], n + 1)
  {
    AppendIndexed(rows, k, f);
    NextIsLow(rows, f.position, n);
    SizeOfPut(rows, k, f);
  }

  lemma RemoveKeeps(rows: Rows, k: string, n: nat)
    requires Indexed(rows) && Below(rows, n) && k in Active(rows)
    ensures var next := rows[k := rows[k].(deleted := true, revision := rows[k].revision + 1)];
      Indexed(next) && Below(next, n)
  {
    ActiveMinus(rows, k);
    SameSize(rows, rows[k := rows[k].(deleted := true, revision := rows[k].revision + 1)]);
  }

  lemma ReplaceIndexed(rows: Rows, k: string, renamed: string, f: Facet)
    requires Indexed(rows) && MayBe(rows, k, renamed) && (f.deleted || IsFree(rows, k, f.position))
    ensures Indexed(Replace(rows, k, renamed, f))
  {
    ReplaceActive(rows, k, renamed, f);
  }

  lemma ReplaceKeeps(rows: Rows, k: string, renamed: string, f: Facet, n: nat)
    requires Indexed(rows) && Below(rows, n) && MayBe(rows, k, renamed)
    requires 0 <= f.position < n && (f.deleted || IsFree(rows, k, f.position))
    ensures Indexed(Replace(rows, k, renamed, f)) && Below(Replace(rows, k, renamed, f), n)
  {
    ReplaceIndexed(rows, k, renamed, f);
    SizeOfReplace(rows, k, renamed, f);
  }

  lemma PatchKeeps(rows: Rows, k: string, renamed: string, n: nat)
    requires Indexed(rows) && Below(rows, n) && MayBe(rows, k, renamed)
    ensures var next := Replace(rows, k, renamed, rows[k].(revision := rows[k].revision + 1));
      Indexed(next) && Below(next, n)
  {
    assert rows[k].deleted || IsFree(rows, k, rows[k].position);
    ReplaceKeeps(rows, k, renamed, rows[k].(revision := rows[k].revision + 1), n);
  }

  lemma OrderKeeps(rows: Rows, order: seq<Item>, n: nat)
    requires Indexed(rows) && Below(rows, n) && Refusal(rows, order).None?
    ensures Indexed(Reordered(rows, order)) && Below(Reordered(rows, order), n)
  {
    var next := Reordered(rows, order);
    AcceptedIsPermutation(rows, order);
    ReorderedIs(rows, order);
    IdentitiesCount(order);
    ActiveAreFew(rows);
    SameSize(rows, next);
    forall k | k in next ensures 0 <= next[k].position < n {
      if k in Active(rows) { var i := FindPlace(rows, order, k); }
    }
  }

  lemma ActiveAreFew(rows: Rows)
    ensures |Active(rows)| <= |rows|
  {
    assert rows.Keys == Active(rows) + (rows.Keys - Active(rows));
    assert |rows| == |rows.Keys|;
  }

  lemma AppendingKeeps(rows: Rows, e: Event, n: nat)
    requires Indexed(rows) && Below(rows, n) && Enabled(rows, e) && Appends(e)
    ensures Indexed(Apply(rows, e)) && Below(Apply(rows, e), n + 1)
  {
    if e.Created? {
      AppendKeeps(rows, e.identity, Facet(e.position, 1, false), n);
    } else {
      AppendKeeps(rows, e.identity, Facet(e.position, rows[e.identity].revision + 1, false), n);
    }
  }

  lemma RevisionKeeps(rows: Rows, e: Event, n: nat)
    requires Indexed(rows) && Below(rows, n) && Enabled(rows, e) && e.RevisionRestored? && e.position < n
    ensures Indexed(Apply(rows, e)) && Below(Apply(rows, e), n)
  {
    var f := Facet(e.position, rows[e.identity].revision + 1, e.deleted);
    assert Apply(rows, e) == Replace(rows, e.identity, e.renamed, f);
    ReplaceKeeps(rows, e.identity, e.renamed, f, n);
  }

  lemma PatchedKeeps(rows: Rows, e: Event, n: nat)
    requires Indexed(rows) && Below(rows, n) && Enabled(rows, e) && e.Patched?
    ensures Indexed(Apply(rows, e)) && Below(Apply(rows, e), n)
  {
    var f := rows[e.identity].(revision := rows[e.identity].revision + 1);
    assert Apply(rows, e) == Replace(rows, e.identity, e.renamed, f);
    PatchKeeps(rows, e.identity, e.renamed, n);
  }

  lemma RemovedKeeps(rows: Rows, e: Event, n: nat)
    requires Indexed(rows) && Below(rows, n) && Enabled(rows, e) && e.Removed?
    ensures Indexed(Apply(rows, e)) && Below(Apply(rows, e), n)
  {
    RemoveKeeps(rows, e.identity, n);
  }

  /** A revision that is restored stood no higher than the facets created or restored before. */
  lemma {:induction false} RevisionIsLow(states: seq<Rows>, events: seq<Event>, n: nat, j: nat, k: string)
    requires IsRun(states, events) && j <= n <= |events|
    requires k in states[j] && Below(states[j], Appended(events[..j]))
    ensures states[j][k].position < Appended(events[..n])
  {
    AppendedGrows(events, j, n);
  }

  /** In every run the active positions stay distinct, and every facet stands lower than the number
      of facets created or restored so far. */
  lemma {:induction false} RunKeeps(states: seq<Rows>, events: seq<Event>, n: nat)
    requires IsRun(states, events) && n < |states|
    ensures Indexed(states[n]) && Below(states[n], Appended(events[..n]))
  {
    if n > 0 {
      RunKeeps(states, events, n - 1);
      assert Follows(states, events, n - 1);
      var rows, e, appended := states[n - 1], events[n - 1], Appended(events[..n - 1]);
      if Appends(e) {
        AppendingKeeps(rows, e, appended);
      } else if e.RevisionRestored? {
        var j: nat, k :| j <= n - 1 && k in states[j] && states[j][k].position == e.position;
        RunKeeps(states, events, j);
        RevisionIsLow(states, events, n - 1, j, k);
        RevisionKeeps(rows, e, appended);
      } else {
        match e
        case Patched(_, _) => PatchedKeeps(rows, e, appended);
        case Removed(_) => RemovedKeeps(rows, e, appended);
        case Ordered(order) => OrderKeeps(rows, order, appended);
      }
      AppendedNext(events, n - 1);
    }
  }

  /** While a workspace has had at most a million facets created or restored, no accepted reorder
      ever meets the unique index, in whatever order the rows are updated. */
  lemma ReorderIsSafe(states: seq<Rows>, events: seq<Event>, n: nat, order: seq<Item>)
    requires IsRun(states, events) && n < |states| && Appended(events[..n]) <= 1_000_000 &&
        Refusal(states[n], order).None?
    ensures NeverCollides(states[n]) && Placeable(states[n], order)
  {
    var rows := states[n];
    RunKeeps(states, events, n);
    assert Shiftable(rows);
    ShiftableExactly(rows);
    AcceptedIsPermutation(rows, order);
    IdentitiesCount(order);
    ActiveAreFew(rows);
    FewArePlaceable(rows, order);
  }

  // ---------------------------------------------------------------- one more is too many

  const FIRST := "a"

  /** Two facets take turns at climbing. */
  function Upper(n: nat): string { if n % 2 == 0 then "c" else "b" }

  /** After `n` of the turns: the first facet at the bottom, one of the two at `n`, the other one
      deleted. */
  ghost predicate Climbed(rows: Rows, n: nat) {
    && Active(rows) == {FIRST, Upper(n)} && rows[FIRST].position == 0 && rows[Upper(n)].position == n
    && Upper(n + 1) in rows && rows[Upper(n + 1)].deleted
  }

  /** Every facet a run names could have been named. */
  predicate AllValid(rows: Rows) { forall k | k in rows :: ValidIdentity(k) }

  lemma {:induction false} NamesAreValid(states: seq<Rows>, events: seq<Event>, n: nat)
    requires IsRun(states, events) && n < |states|
    ensures AllValid(states[n])
  {
    if n > 0 {
      NamesAreValid(states, events, n - 1);
      assert Follows(states, events, n - 1);
    }
  }

  lemma HeldLonger(states: seq<Rows>, last: Rows, n: nat, position: int)
    requires WasHeld(states, n, position)
    ensures WasHeld(states + [last], n, position)
  {
    var j: nat, k :| j <= n && j < |states| && k in states[j] && states[j][k].position == position;
    assert (states + [last])[j] == states[j];
  }

  lemma FollowsLonger(states: seq<Rows>, events: seq<Event>, e: Event, n: nat)
    requires |states| == |events| + 1 && Follows(states, events, n)
    requires Enabled(states[|events|], e) && !e.RevisionRestored?
    ensures Follows(states + [Apply(states[|events|], e)], events + [e], n)
  {
    if n < |events| && events[n].RevisionRestored? {
      HeldLonger(states, Apply(states[|events|], e), n, events[n].position);
    }
  }

  lemma Extend(states: seq<Rows>, events: seq<Event>, e: Event)
    requires IsRun(states, events) && Enabled(states[|events|], e) && !e.RevisionRestored?
    ensures IsRun(states + [Apply(states[|events|], e)], events + [e])
    ensures Appended(events + [e]) == Appended(events) + if Appends(e) then 1 else 0
  {
    var more, longer := states + [Apply(states[|events|], e)], events + [e];
    forall n: nat ensures Follows(more, longer, n) { FollowsLonger(states, events, e, n); }
    assert longer[..|events|] == events;
  }

  lemma ClimbStep(rows: Rows, n: nat)
    requires n < MAX_POSITION && Climbed(rows, n)
    ensures Enabled(rows, Restored(Upper(n + 1), n + 1))
    ensures var restored := Apply(rows, Restored(Upper(n + 1), n + 1));
      Enabled(restored, Removed(Upper(n))) && Climbed(Apply(restored, Removed(Upper(n))), n + 1)
  {
    var up, down := Upper(n), Upper(n + 1);
    assert up[0] != down[0] && FIRST[0] == 'a' && up != down && FIRST != up && FIRST != down && Upper(n + 2) == up;
    assert FIRST in Active(rows) && up in Active(rows);
    var restored := Apply(rows, Restored(down, n + 1));
    ActivePlus(rows, down, restored[down]);
    ActiveMinus(restored, up);
    assert {FIRST, up} + {down} - {up} == {FIRST, down};
  }

  const TWO: Rows := map["a" := Facet(0, 1, false), "b" := Facet(1, 1, false)]

  lemma TwoCreated()
    ensures IsRun([map[], map["a" := Facet(0, 1, false)], TWO], [Created("a", 0), Created("b", 1)])
    ensures Appended([Created("a", 0), Created("b", 1)]) == 2
  {
    var one: Rows := map["a" := Facet(0, 1, false)];
    assert "a"[0] == 'a' && "b"[0] == 'b';
    Extend([map[]], [], Created("a", 0));
    assert "a" in Active(one);
    Extend([map[], one], [Created("a", 0)], Created("b", 1));
    assert [Created("a", 0)] + [Created("b", 1)] == [Created("a", 0), Created("b", 1)];
    assert [map[], one] + [TWO] == [map[], one, TWO];
  }

  const THREE: Rows := TWO["c" := Facet(2, 1, false)]

  lemma ThreeCreated() returns (states: seq<Rows>, events: seq<Event>)
    ensures IsRun(states, events) && states[|events|] == THREE && Appended(events) == 3
  {
    assert "a"[0] == 'a' && "b"[0] == 'b' && "c"[0] == 'c';
    TwoCreated();
    states, events := [map[], map["a" := Facet(0, 1, false)], TWO], [Created("a", 0), Created("b", 1)];
    assert Active(TWO) == {"a", "b"};
    Extend(states, events, Created("c", 2));
    states, events := states + [THREE], events + [Created("c", 2)];
  }

  /** The three facets are created and the second one deleted. */
  lemma ClimbStart() returns (states: seq<Rows>, events: seq<Event>)
    ensures IsRun(states, events) && Climbed(states[|events|], 2) && Appended(events) == 3
  {
    assert "a"[0] == 'a' && "b"[0] == 'b' && "c"[0] == 'c';
    states, events := ThreeCreated();
    ActiveMinus(THREE, "b");
    assert Active(THREE) == {"a", "b", "c"};
    Extend(states, events, Removed("b"));
    states, events := states + [THREE["b" := Facet(1, 2, true)]], events + [Removed("b")];
  }

  lemma {:induction false} Climb(n: nat) returns (states: seq<Rows>, events: seq<Event>)
    requires 2 <= n <= SHIFT
    ensures IsRun(states, events) && Climbed(states[|events|], n) && Appended(events) == n + 1
  {
    if n == 2 {
      states, events := ClimbStart();
    } else {
      states, events := Climb(n - 1);
      var rows := states[|events|];
      ClimbStep(rows, n - 1);
      var restored := Apply(rows, Restored(Upper(n), n));
      Extend(states, events, Restored(Upper(n), n));
      states, events := states + [restored], events + [Restored(Upper(n), n)];
      Extend(states, events, Removed(Upper(n - 1)));
      states, events := states + [Apply(restored, Removed(Upper(n - 1)))], events + [Removed(Upper(n - 1))];
    }
  }

  /** The bound is sharp: a run with one more, of three facets with short identities, ends with two
      active ones whose reorder meets the index when the database updates the lower one first. */
  lemma OneMoreCollides() returns (states: seq<Rows>, events: seq<Event>, order: seq<Item>)
    ensures IsRun(states, events) && Appended(events) == 1_000_001
    ensures forall n | 0 <= n < |states| :: AllValid(states[n])
    ensures var rows := states[|events|];
      && |Active(rows)| == 2 && Refusal(rows, order).None? && FIRST in rows
      && Write(rows, FIRST, Shifted(rows[FIRST])) == Failure(DuplicatePosition)
  {
    states, events := Climb(SHIFT);
    forall n | 0 <= n < |states| ensures AllValid(states[n]) { NamesAreValid(states, events, n); }
    var rows := states[|events|];
    var last := Upper(SHIFT);
    assert last[0] != 'a' && FIRST[0] == 'a';
    assert FIRST in Active(rows) && last in Active(rows);
    order := [Item(FIRST, rows[FIRST].revision), Item(last, rows[last].revision)];
    assert Identities(order) == Active(rows) by { assert order[0].identity == FIRST && order[1].identity == last; }
    AcceptedIsPermutation(rows, order);
  }
}
