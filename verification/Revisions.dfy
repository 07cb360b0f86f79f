/** The operations on one workspace's revision log, proved against RevisionLog. */
module Revisions {
  import opened Wrappers
  import opened RevisionLog
  import opened RevisionHistory

  type Groups = map<Key, seq<nat>>

  datatype Row = Row(key: Key, change: Change)

  // ---------------------------------------------------------------- grouping

  /** `groups` holds the listed sequences of each document, in the listed order. */
  ghost predicate Grouped(log: Log, items: seq<nat>, groups: Groups) {
    && (forall s | s in items :: s in log && log[s].key in groups && s in groups[log[s].key])
    && (forall key | key in groups :: groups[key] != [] && forall s | s in groups[key] ::
        s in items && Records(log, s, key))
  }

  /** Every list in `groups` ends with its highest sequence. */
  ghost predicate EndsHighest(groups: Groups) {
    forall key, s | key in groups && s in groups[key] :: groups[key] != [] && s <= groups[key][|groups[key]| - 1]
  }

  function ChangeOf(log: Log, items: seq<nat>): Change
    requires items != [] && forall s | s in items :: s in log
  {
    Change(log[items[0]].parent, log[items[|items| - 1]].id, log[items[|items| - 1]].operation)
  }

  ghost predicate Spanned(log: Log, groups: Groups, spans: map<Key, Change>) {
    && spans.Keys == groups.Keys
    && forall key | key in groups && key in spans ::
         groups[key] != [] && (forall s | s in groups[key] :: s in log) && spans[key] == ChangeOf(log, groups[key])
  }

  function Added(groups: Groups, key: Key, s: nat): Groups {
    groups[key := (if key in groups then groups[key] else []) + [s]]
  }

  lemma AddSpanned(log: Log, groups: Groups, spans: map<Key, Change>, s: nat)
    requires s in log && Spanned(log, groups, spans)
    ensures Spanned(log, Added(groups, log[s].key, s), Extend(spans, log[s]))
  {
    var key := log[s].key;
    if key in groups { assert Added(groups, key, s)[key][0] == groups[key][0]; }
  }

  lemma AddGrouped(log: Log, items: seq<nat>, groups: Groups, s: nat)
    requires s in log && Grouped(log, items, groups)
    ensures Grouped(log, items + [s], Added(groups, log[s].key, s))
  {
    var next := Added(groups, log[s].key, s);
    forall t | t in items + [s] ensures t in log && log[t].key in next && t in next[log[t].key] {
      assert t == s || t in items;
    }
  }

  lemma AddEndsHighest(groups: Groups, key: Key, s: nat)
    requires EndsHighest(groups) && forall k, t | k in groups && t in groups[k] :: t <= s
    ensures EndsHighest(Added(groups, key, s))
  {
    var next := Added(groups, key, s);
    forall k, t | k in next && t in next[k] ensures next[k] != [] && t <= next[k][|next[k]| - 1] {
      if k == key { assert t == s || (key in groups && t in groups[key]); }
    }
  }

  /** The documents in the order of their first listed revision. */
  function FirstSeen(log: Log, items: seq<nat>): seq<Key>
    requires forall s | s in items :: s in log
  {
    if items == [] then []
    else
      var rest, key := FirstSeen(log, items[..|items| - 1]), log[items[|items| - 1]].key;
      if key in rest then rest else rest + [key]
  }

  /** The documents' groups after the listed sequences, one after the other. */
  function GroupsOf(log: Log, items: seq<nat>): Groups
    requires forall s | s in items :: s in log
  {
    if items == [] then map[]
    else
      var s := items[|items| - 1];
      Added(GroupsOf(log, items[..|items| - 1]), log[s].key, s)
  }

  lemma {:induction false} GroupsAreGrouped(log: Log, items: seq<nat>)
    requires forall s | s in items :: s in log
    ensures Grouped(log, items, GroupsOf(log, items)) && Spanned(log, GroupsOf(log, items), Spans(log, items))
    ensures forall key :: key in FirstSeen(log, items) <==> key in GroupsOf(log, items)
  {
    if items != [] {
      var rest, s := items[..|items| - 1], items[|items| - 1];
      GroupsAreGrouped(log, rest);
      AddGrouped(log, rest, GroupsOf(log, rest), s);
      AddSpanned(log, GroupsOf(log, rest), Spans(log, rest), s);
      assert rest + [s] == items;
    }
  }

  ghost predicate Rising(items: seq<nat>) { forall i, j | 0 <= i < j < |items| :: items[i] < items[j] }

  /** Each group of a rising list ends with its highest sequence. */
  lemma {:induction false} GroupsEndHighest(log: Log, items: seq<nat>)
    requires (forall s | s in items :: s in log) && Rising(items)
    ensures EndsHighest(GroupsOf(log, items))
  {
    if items != [] {
      var rest, s := items[..|items| - 1], items[|items| - 1];
      var groups := GroupsOf(log, rest);
      GroupsEndHighest(log, rest);
      GroupsAreGrouped(log, rest);
      forall k, t | k in groups && t in groups[k] ensures t <= s { assert t in rest; }
      AddEndsHighest(groups, log[s].key, s);
    }
  }

  lemma GroupsOneMore(log: Log, items: seq<nat>, i: nat)
    requires i < |items| && forall s | s in items :: s in log
    ensures var groups, order, key := GroupsOf(log, items[..i]), FirstSeen(log, items[..i]), log[items[i]].key;
      && (key in order <==> key in groups)
      && GroupsOf(log, items[..i + 1]) == Added(groups, key, items[i])
      && FirstSeen(log, items[..i + 1]) == if key in order then order else order + [key]
  {
    assert items[..i + 1][..i] == items[..i];
    GroupsAreGrouped(log, items[..i]);
  }

  method GroupRevisions(log: Log, items: seq<nat>) returns (groups: Groups, order: seq<Key>)
    requires forall s | s in items :: s in log
    ensures groups == GroupsOf(log, items) && order == FirstSeen(log, items)
  {
    groups, order := map[], [];
    for i := 0 to |items|
      invariant groups == GroupsOf(log, items[..i]) && order == FirstSeen(log, items[..i])
    {
      var s := items[i];
      var key := log[s].key;
      GroupsOneMore(log, items, i);
      if key !in groups { order := order + [key]; }
      groups := groups[key := (if key in groups then groups[key] else []) + [s]];
    }
    assert items[..|items|] == items;
  }

  // ---------------------------------------------------------------- changes

  ghost predicate Lists(rows: seq<Row>, order: seq<Key>, spans: map<Key, Change>) {
    && |rows| == |order|
    && forall i | 0 <= i < |rows| :: rows[i].key == order[i] && order[i] in spans && rows[i].change == spans[order[i]]
  }

  method Changes(log: Log, items: seq<nat>) returns (rows: seq<Row>)
    requires forall s | s in items :: s in log
    ensures Lists(rows, FirstSeen(log, items), Spans(log, items))
    ensures forall key :: key in FirstSeen(log, items) <==> key in Spans(log, items)
  {
    var groups, order := GroupRevisions(log, items);
    GroupsAreGrouped(log, items);
    rows := List(log, groups, order, Spans(log, items));
  }

  method List(log: Log, groups: Groups, order: seq<Key>, ghost spans: map<Key, Change>) returns (rows: seq<Row>)
    requires Spanned(log, groups, spans) && forall key | key in order :: key in groups
    ensures Lists(rows, order, spans)
  {
    rows := [];
    for i := 0 to |order|
      invariant |rows| == i
      invariant forall j | 0 <= j < i ::
          rows[j].key == order[j] && order[j] in spans && rows[j].change == spans[order[j]]
    {
      assert order[i] in order;
      rows := rows + [Row(order[i], ChangeOf(log, groups[order[i]]))];
    }
  }

  // ---------------------------------------------------------------- squash

  function Members(items: seq<nat>): set<nat> { set s | s in items }

  method Contributed(log: Log, items: seq<nat>) returns (users: set<string>)
    requires forall s | s in items :: s in log
    ensures users == Contributors(log, Members(items))
  {
    users := {};
    for i := 0 to |items|
      invariant forall u :: u in users <==> exists j | 0 <= j < i ::
          u in log[items[j]].contributors + {log[items[j]].author}
    {
      users := users + {log[items[i]].author} + log[items[i]].contributors;
    }
  }

  /** `next` is `log` with the groups of every document but those in `remaining` squashed. */
  ghost predicate Folded(log: Log, base: nat, nextId: nat, actor: string, remaining: set<Key>, next: Log) {
    && (forall s | s in next :: s in log)
    && (forall s {:trigger FoldedAt(log, base, nextId, actor, remaining, next, s)} | s in log ::
          FoldedAt(log, base, nextId, actor, remaining, next, s))
  }

  ghost predicate FoldedAt(log: Log, base: nat, nextId: nat, actor: string, remaining: set<Key>, next: Log, s: nat)
    requires s in log
  {
    if IsPending(log, base, s) && log[s].key !in remaining
    then (s in next <==> IsLast(log, base, s)) && (s in next ==> next[s] == Squashed(log, base, s, nextId, actor))
    else s in next && next[s] == log[s]
  }

  lemma FoldedIsSquash(log: Log, base: nat, nextId: nat, actor: string, remaining: set<Key>, next: Log)
    requires Folded(log, base, nextId, actor, remaining, next)
    requires forall s | s in log && IsPending(log, base, s) :: log[s].key !in remaining
    ensures next == Squash(log, base, nextId, actor)
  {
    var squashed := Squash(log, base, nextId, actor);
    forall s ensures (s in next <==> s in squashed) && (s in next && s in squashed ==> next[s] == squashed[s]) {
      if s in log { assert FoldedAt(log, base, nextId, actor, remaining, next, s); }
    }
  }

  lemma LastOfGroup(log: Log, base: nat, key: Key, items: seq<nat>, last: nat)
    requires Members(items) == Group(log, base, key) && last in log && last in items && forall s | s in items ::
        s <= last
    ensures forall s | s in log && IsPending(log, base, s) && log[s].key == key :: IsLast(log, base, s) <==> s == last
    ensures IsPending(log, base, last) && log[last].key == key
  {
    assert last in Group(log, base, key);
    forall s | s in log && IsPending(log, base, s) && log[s].key == key ensures s in items {
      assert s in Members(items);
    }
  }

  lemma FoldGroup(log: Log, base: nat, nextId: nat, actor: string, remaining: set<Key>, next: Log, key: Key,
      items: seq<nat>, last: nat)
    requires Folded(log, base, nextId, actor, remaining, next) && key in remaining
    requires Members(items) == Group(log, base, key) && last in log && last in items && forall s | s in items ::
        s <= last
    ensures Folded(log, base, nextId, actor, remaining - {key},
        (next - Members(items))[last := Squashed(log, base, last, nextId, actor)])
  {
    var folded := (next - Members(items))[last := Squashed(log, base, last, nextId, actor)];
    LastOfGroup(log, base, key, items, last);
    forall s | s in log ensures FoldedAt(log, base, nextId, actor, remaining - {key}, folded, s) {
      assert FoldedAt(log, base, nextId, actor, remaining, next, s);
      assert s in Members(items) <==> IsPending(log, base, s) && log[s].key == key;
    }
  }

  /** The committed part of the log does not change while groups are folded. */
  lemma {:induction false} FoldedCommitted(log: Log, base: nat, nextId: nat, actor: string, remaining: set<Key>,
      next: Log, h: nat, key: Key)
    requires Folded(log, base, nextId, actor, remaining, next) && h <= base
    ensures LatestCommitted(next, h, key) == LatestCommitted(log, h, key)
    ensures IdAt(next, LatestCommitted(next, h, key)) == IdAt(log, LatestCommitted(log, h, key))
  {
    if h > 0 {
      FoldedCommitted(log, base, nextId, actor, remaining, next, h - 1, key);
      if h in log { assert FoldedAt(log, base, nextId, actor, remaining, next, h); }
    }
  }

  /** One turn of the loop of SquashPending: the group's revisions are deleted and the one that
      stands for them is inserted under the last sequence. */
  method SquashGroup(next: Log, base: nat, nextId: nat, actor: string, items: seq<nat>, ghost log: Log,
      ghost remaining: set<Key>, key: Key)
    returns (folded: Log, last: nat)
    requires Folded(log, base, nextId, actor, remaining, next) && key in remaining
    requires items != [] && Members(items) == Group(log, base, key) && forall s | s in items :: s <= items[|items| - 1]
    ensures Folded(log, base, nextId, actor, remaining - {key}, folded)
    ensures last == items[|items| - 1] && IsLast(log, base, last) && log[last].key == key
  {
    last := items[|items| - 1];
    assert last in Members(items);
    forall s | s in items ensures s in next && next[s] == log[s] {
      assert s in Members(items);
      assert FoldedAt(log, base, nextId, actor, remaining, next, s);
    }
    LastOfGroup(log, base, key, items, last);
    var users := Contributed(next, items);
    SameContributors(next, log, items);
    FoldedCommitted(log, base, nextId, actor, remaining, next, base, key);
    var parent := IdAt(next, LatestCommitted(next, base, key));
    FoldGroup(log, base, nextId, actor, remaining, next, key, items, last);
    folded := (next - Members(items))[last :=
        next[last].(id := nextId + last, operation := "squash", parent := parent, author := actor,
        contributors := users)];
  }

  lemma SameContributors(a: Log, b: Log, items: seq<nat>)
    requires forall s | s in items :: s in a && s in b && a[s] == b[s]
    ensures Contributors(a, Members(items)) == Contributors(b, Members(items))
  {
  }

  lemma MembersOfGroup(log: Log, base: nat, head: nat, groups: Groups, key: Key)
    requires Grouped(log, Pending(log, base, head), groups) && key in groups
    requires forall s | s in log :: s <= head
    ensures Members(groups[key]) == Group(log, base, key)
  {
    PendingRises(log, base, head);
    forall s | s in Group(log, base, key) ensures s in groups[key] {
      assert s in Pending(log, base, head);
    }
  }

  /** `selected` lists, once each, the replacements of the documents outside `remaining`. */
  ghost predicate Collected(log: Log, base: nat, remaining: set<Key>, selected: seq<nat>) {
    && (forall s :: s in selected <==> s in log && IsLast(log, base, s) && log[s].key !in remaining)
    && (forall i, j | 0 <= i < j < |selected| :: selected[i] != selected[j])
  }

  lemma CollectOne(log: Log, base: nat, remaining: set<Key>, selected: seq<nat>, last: nat)
    requires Collected(log, base, remaining, selected)
    requires last in log && IsLast(log, base, last) && log[last].key in remaining
    ensures Collected(log, base, remaining - {log[last].key}, selected + [last])
  {
    forall s ensures s in selected + [last]
        <==> s in log && IsLast(log, base, s) && log[s].key !in remaining - {log[last].key}
    {
      assert s in selected + [last] <==> s in selected || s == last;
    }
  }

  lemma CollectedArePending(log: Log, base: nat, nextId: nat, actor: string, remaining: set<Key>, selected: seq<nat>)
    requires Collected(log, base, remaining, selected)
    requires forall s | s in log && IsPending(log, base, s) :: log[s].key !in remaining
    ensures forall s :: s in selected <==> IsPending(Squash(log, base, nextId, actor), base, s)
  {
  }

  method SquashPending(log: Log, base: nat, head: nat, nextId: nat, actor: string)
      returns (next: Log, selected: seq<nat>)
    requires Splits(log, base, head)
    ensures next == Squash(log, base, nextId, actor)
    ensures forall s :: s in selected <==> IsPending(next, base, s)
    ensures forall i, j | 0 <= i < j < |selected| :: selected[i] != selected[j]
  {
    var pending := Pending(log, base, head);
    var groups, order := GroupPending(log, base, head, pending);
    var remaining := groups.Keys;
    next, selected := log, [];
    assert forall s | s in log && IsLast(log, base, s) :: log[s].key in remaining;
    while remaining != {}
      invariant remaining <= groups.Keys
      invariant Folded(log, base, nextId, actor, remaining, next)
      invariant Collected(log, base, remaining, selected)
    {
      var key :| key in remaining;
      var last;
      next, last := SquashGroup(next, base, nextId, actor, groups[key], log, remaining, key);
      CollectOne(log, base, remaining, selected, last);
      remaining := remaining - {key};
      selected := selected + [last];
    }
    FoldedIsSquash(log, base, nextId, actor, remaining, next);
    CollectedArePending(log, base, nextId, actor, remaining, selected);
  }

  method GroupPending(log: Log, base: nat, head: nat, pending: seq<nat>) returns (groups: Groups, order: seq<Key>)
    requires Splits(log, base, head) && pending == Pending(log, base, head)
    ensures forall key | key in groups ::
      && groups[key] != [] && Members(groups[key]) == Group(log, base, key)
      && forall s | s in groups[key] :: s <= groups[key][|groups[key]| - 1]
    ensures forall s | s in log && IsPending(log, base, s) :: log[s].key in groups
  {
    PendingRises(log, base, head);
    groups, order := GroupRevisions(log, pending);
    GroupsAreGrouped(log, pending);
    GroupsEndHighest(log, pending);
    forall key | key in groups ensures Members(groups[key]) == Group(log, base, key) {
      MembersOfGroup(log, base, head, groups, key);
    }
  }

  // ---------------------------------------------------------------- commit

  ghost predicate OnePerKey(log: Log, items: seq<nat>) {
    && (forall s | s in items :: s in log)
    && (forall i, j | 0 <= i < j < |items| && items[i] in log && items[j] in log ::
        log[items[i]].key != log[items[j]].key)
  }

  lemma {:induction false} SpansOfOnePerKey(log: Log, items: seq<nat>)
    requires OnePerKey(log, items)
    ensures forall s | s in items ::
      && log[s].key in Spans(log, items)
      && Spans(log, items)[log[s].key] == Change(log[s].parent, log[s].id, log[s].operation)
    ensures forall key | key in Spans(log, items) :: exists s :: s in items && log[s].key == key
  {
    if items != [] {
      var rest, last := items[..|items| - 1], items[|items| - 1];
      assert items == rest + [last];
      SpansOfOnePerKey(log, rest);
      forall s | s in rest ensures log[s].key != log[last].key {
        var i :| 0 <= i < |rest| && rest[i] == s;
        assert items[i] == s;
      }
      forall s | s in items ensures s in rest || s == last {}
    }
  }

  /** The order of a list with one revision per document does not show in the changes. */
  lemma SpansForgetOrder(log: Log, a: seq<nat>, b: seq<nat>)
    requires OnePerKey(log, a) && OnePerKey(log, b) && forall s :: s in a <==> s in b
    ensures Spans(log, a) == Spans(log, b)
  {
    SpansOfOnePerKey(log, a);
    SpansOfOnePerKey(log, b);
  }

  lemma SquashedOnePerKey(log: Log, base: nat, nextId: nat, actor: string, items: seq<nat>)
    requires forall s | s in items :: IsPending(Squash(log, base, nextId, actor), base, s)
    requires forall i, j | 0 <= i < j < |items| :: items[i] != items[j]
    ensures OnePerKey(Squash(log, base, nextId, actor), items)
  {
    var squashed := Squash(log, base, nextId, actor);
    forall i, j | 0 <= i < j < |items| && items[i] in squashed && items[j] in squashed
        ensures squashed[items[i]].key != squashed[items[j]].key
    {
      assert items[i] in items && items[j] in items;
      assert IsPending(log, base, items[i]) && IsPending(log, base, items[j]);
    }
  }

  /** The change rows a new commit is stored with. */
  method InsertChanges(rows: seq<Row>, ghost order: seq<Key>, ghost spans: map<Key, Change>)
      returns (changes: map<Key, Change>)
    requires Lists(rows, order, spans) && forall key :: key in order <==> key in spans
    ensures changes == spans
  {
    changes := map[];
    for i := 0 to |rows|
      invariant forall key :: key in changes <==> exists j | 0 <= j < i :: order[j] == key
      invariant forall key | key in changes :: key in spans && changes[key] == spans[key]
    {
      changes := changes[rows[i].key := rows[i].change];
    }
    assert forall key | key in spans :: key in order;
  }

  method AttachRevisionsToCommit(log: Log, base: nat, commit: nat, ids: seq<nat>) returns (attached: Log)
    requires forall s :: s in ids <==> IsPending(log, base, s)
    ensures attached == Attach(log, base, commit)
  {
    attached := map s | s in log :: if s in ids then log[s].(commit := Some(commit)) else log[s];
  }

  /** What Create writes once it has decided to commit. */
  method Write(log: Log, base: nat, head: nat, nextId: nat, policy: string, actor: string, id: nat)
    returns (attached: Log, changes: map<Key, Change>)
    requires Splits(log, base, head)
    ensures var selected := if policy == "squash" then Squash(log, base, nextId, actor) else log;
      attached == Attach(selected, base, id) && changes == Spans(selected, Pending(selected, base, head))
  {
    var next, selected := log, Pending(log, base, head);
    PendingRises(log, base, head);
    if policy == "squash" {
      next, selected := SquashPending(log, base, head, nextId, actor);
      PendingRises(next, base, head);
      SquashedOnePerKey(log, base, nextId, actor, selected);
      SquashedOnePerKey(log, base, nextId, actor, Pending(next, base, head));
      SquashSplits(log, base, head, nextId, actor);
      SpansForgetOrder(next, selected, Pending(next, base, head));
    }
    var rows := Changes(next, selected);
    changes := InsertChanges(rows, FirstSeen(next, selected), Spans(next, selected));
    attached := AttachRevisionsToCommit(next, base, id, selected);
  }

  class Workspace {
    var head: nat
    var log: Log
    var commits: seq<Commit>
    var numbers: map<Key, nat>
    var nextId: nat

    function State(): Store reads this { Store(head, log, commits, numbers, nextId) }

    ghost predicate Valid() reads this { Inv(State()) }

    constructor ()
      ensures Valid() && State() == EMPTY
    {
      head, log, commits, numbers, nextId := 0, map[], [], map[], 0;
    }

    /** A write of a document row, then RecordDocument of the row it left. */
    method RecordDocument(key: Key, operation: string, snapshot: string, author: string)
      requires Valid()
      modifies this
      ensures Valid() && State() == Record(old(State()), key, operation, snapshot, author)
    {
      RecordKeepsInv(State(), key, operation, snapshot, author);
      ghost var next := Record(State(), key, operation, snapshot, author);
      var number := (if key in numbers then numbers[key] else 0) + 1;
      numbers := numbers[key := number];
      var parent := IdAt(log, HighestNumber(log, head, key));
      head := head + 1;
      log := log[head := Revision(nextId, key, number, operation, parent, None, snapshot, author, {})];
      nextId := nextId + 1;
      SameInv(next, State());
    }

    method Create(policy: string, expected: nat, actor: string, admin: bool)
        returns (result: Result<Commit, CommitError>)
      requires Valid()
      modifies this
      ensures Valid() && State() == RevisionLog.Create(old(State()), policy, expected, actor, admin)
      ensures var refusal := Refusal(old(State()), policy, expected, actor, admin);
        if refusal.Some? then result == Failure(refusal.value)
        else commits != [] && result == Success(commits[|commits| - 1])
    {
      CreateKeepsInv(State(), policy, expected, actor, admin);
      ghost var before := State();
      var refusal := Refuse(State(), policy, expected, actor, admin);
      if refusal.Some? {
        SameInv(RevisionLog.Create(before, policy, expected, actor, admin), State());
        return Failure(refusal.value);
      }
      var attached, commit := CommitPending(State(), policy, expected, actor, admin);
      log, commits, nextId := attached, commits + [commit], commit.id + 1;
      SameInv(RevisionLog.Create(before, policy, expected, actor, admin), State());
      return Success(commit);
    }
  }

  /** The transaction of Create, once nothing refuses it. */
  method CommitPending(st: Store, policy: string, ghost expected: nat, actor: string, ghost admin: bool)
      returns (attached: Log, commit: Commit)
    requires Ordered(st.commits, st.head) && Splits(st.log, Base(st.commits), st.head)
    requires Refusal(st, policy, expected, actor, admin).None?
    ensures RevisionLog.Create(st, policy, expected, actor, admin)
         == st.(log := attached, commits := st.commits + [commit], nextId := commit.id + 1)
  {
    CreateIs(st, policy, expected, actor, admin);
    LatestIsLast(st.commits, st.head);
    var latest := LatestCommit(st.commits);
    var id := st.nextId + st.head + 1;
    var changes;
    attached, changes := Write(st.log, latest.head, st.head, st.nextId, policy, actor, id);
    commit := Commit(id, Some(latest.id), latest.head, st.head, if policy == "" then "preserve" else policy, changes);
  }

  lemma SameInv(a: Store, b: Store)
    requires Inv(a) && a == b
    ensures Inv(b)
  {
  }

  /** The checks Create makes before it writes. */
  method Refuse(st: Store, policy: string, expected: nat, actor: string, admin: bool)
      returns (refusal: Option<CommitError>)
    ensures refusal == Refusal(st, policy, expected, actor, admin)
  {
    if policy != "" && policy != "preserve" && policy != "squash" { return Some(PolicyInvalid); }
    if st.commits == [] { return Some(NotFound); }
    var latest := LatestCommit(st.commits);
    if expected != st.head { return Some(HeadConflict); }
    var pending := Pending(st.log, latest.head, st.head);
    if pending == [] { return Some(NothingToCommit); }
    if policy == "squash" && !admin {
      var foreign := HasForeign(st.log, pending, actor);
      if foreign { return Some(SquashForbidden); }
    }
    return None;
  }

  method HasForeign(log: Log, pending: seq<nat>, actor: string) returns (foreign: bool)
    requires forall s | s in pending :: s in log
    ensures foreign <==> exists s | s in pending :: log[s].author != actor
  {
    for i := 0 to |pending|
      invariant forall j | 0 <= j < i :: log[pending[j]].author == actor
    {
      if log[pending[i]].author != actor { return true; }
    }
    return false;
  }
}
