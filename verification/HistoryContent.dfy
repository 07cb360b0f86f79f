/**
 What the history says about the documents: exports are what was last recorded, everyone who
 recorded is credited, and when a commit is created.
 */
module HistoryContent {
  import opened Wrappers
  import opened RevisionLog
  import opened RevisionHistory

  /** A recorded change of one document. */
  datatype Entry = Entry(key: Key, operation: string, snapshot: string, author: string)

  /** What a run records, in order; the workspace sequence counts from one. */
  function Entries(events: seq<Event>): seq<Entry> {
    if events == [] then []
    else
      var e := events[0];
      (if e.Recorded? then [Entry(e.key, e.operation, e.snapshot, e.author)] else []) + Entries(events[1..])
  }

  /** The last entry for `key` among the first `h`. */
  function LastEntry(entries: seq<Entry>, h: nat, key: Key): (s: Option<nat>)
    requires h <= |entries|
    ensures s.Some? ==> 0 < s.value <= h && entries[s.value - 1].key == key
    ensures forall i | 0 <= i < h && entries[i].key == key :: s.Some? && i < s.value
  {
    if h == 0 then None
    else if entries[h - 1].key == key then Some(h)
    else LastEntry(entries, h - 1, key)
  }

  /** What was last recorded of a document at or below `h`. */
  function LastSnapshot(entries: seq<Entry>, h: nat, key: Key): Option<string>
    requires h <= |entries|
  {
    var s := LastEntry(entries, h, key);
    if s.Some? then Some(entries[s.value - 1].snapshot) else None
  }

  // ---------------------------------------------------------------- one recording

  /** A recording appends one revision with what it was given; the export of its document at the
      new head is its snapshot and all others stay. */
  lemma RecordIs(st: Store, key: Key, operation: string, snapshot: string, author: string)
    requires Inv(st)
    ensures var next := Record(st, key, operation, snapshot, author);
      && next.head == st.head + 1 && next.head in next.log && next.log.Keys == st.log.Keys + {next.head}
      && (forall s | s in st.log :: next.log[s] == st.log[s])
      && next.log[next.head].key == key && next.log[next.head].operation == operation
      && next.log[next.head].snapshot == snapshot && next.log[next.head].author == author
      && next.log[next.head].commit == None && next.log[next.head].contributors == {}
      && next.commits == st.commits
    ensures ExportAt(Record(st, key, operation, snapshot, author).log, st.head + 1, key) == Some(snapshot)
    ensures forall other, h: nat | h <= st.head || (h == st.head + 1 && other != key) ::
      ExportAt(Record(st, key, operation, snapshot, author).log, h, other)
          == ExportAt(st.log, if h <= st.head then h else st.head, other)
  {
    var next := Record(st, key, operation, snapshot, author);
    forall other, h: nat | h <= st.head ensures ExportAt(next.log, h, other) == ExportAt(st.log, h, other) {
      AgreeingExports(st.log, next.log, st.head, h, other);
    }
  }

  /** It points to the revision its document had before, and counts one further. */
  lemma RecordChains(st: Store, key: Key, operation: string, snapshot: string, author: string)
    requires Inv(st)
    ensures var r, before := Record(st, key, operation, snapshot, author).log[st.head + 1],
        Latest(st.log, st.head, key);
      && r.parent == (if before.Some? then Some(st.log[before.value].id) else None)
      && (before.Some? ==> r.number > st.log[before.value].number)
      && r.number == 1 + if key in st.numbers then st.numbers[key] else 0
    ensures var next := Record(st, key, operation, snapshot, author);
      next.numbers == st.numbers[key := next.log[next.head].number]
  {
    HighestIsLatest(st.log, st.numbers, st.head, key);
  }

  // ---------------------------------------------------------------- invariant

  /** A revision is what was recorded under its sequence, to the letter unless it was squashed. */
  ghost predicate MatchesAt(log: Log, entries: seq<Entry>, s: nat) {
    s in log ==>
      && 0 < s <= |entries|
      && log[s].key == entries[s - 1].key && log[s].snapshot == entries[s - 1].snapshot
      && (log[s].commit.None? || log[s].operation != "squash" ==>
            && log[s].author == entries[s - 1].author && log[s].operation == entries[s - 1].operation
            && log[s].contributors == {})
  }

  /** What was last recorded of each document at or below `h` is in the log. */
  ghost predicate Survives(log: Log, entries: seq<Entry>, h: nat)
    requires h <= |entries|
  {
    forall key :: LastIsThere(log, entries, h, key)
  }

  ghost predicate LastIsThere(log: Log, entries: seq<Entry>, h: nat, key: Key)
    requires h <= |entries|
  {
    LastEntry(entries, h, key).Some? ==> LastEntry(entries, h, key).value in log
  }

  /** The author of entry `t` is named by a surviving revision of the same document at or behind it. */
  ghost predicate Credits(log: Log, e: Entry, t: nat, s: nat) {
    t <= s && s in log && log[s].key == e.key && (log[s].author == e.author || e.author in log[s].contributors)
  }

  ghost predicate Credited(log: Log, e: Entry, t: nat) { exists s: nat :: Credits(log, e, t, s) }

  ghost predicate AllMatch(log: Log, entries: seq<Entry>) {
    forall s {:trigger MatchesAt(log, entries, s)} :: MatchesAt(log, entries, s)
  }

  ghost predicate AllCredited(log: Log, entries: seq<Entry>) {
    forall i | 0 <= i < |entries| :: Credited(log, entries[i], i + 1)
  }

  ghost predicate Matches(st: Store, entries: seq<Entry>) {
    && |entries| == st.head && AllMatch(st.log, entries) && AllCredited(st.log, entries)
    && Survives(st.log, entries, st.head)
    && (forall i | 0 <= i < |st.commits| ::
        st.commits[i].head <= st.head && Survives(st.log, entries, st.commits[i].head))
  }

  // ---------------------------------------------------------------- recordings

  lemma {:induction false} LastOfMore(entries: seq<Entry>, e: Entry, h: nat, key: Key)
    requires h <= |entries|
    ensures LastEntry(entries + [e], h, key) == LastEntry(entries, h, key)
  {
    if h > 0 { LastOfMore(entries, e, h - 1, key); }
  }

  lemma SurvivesMore(a: Log, b: Log, entries: seq<Entry>, e: Entry, h: nat)
    requires h <= |entries| && Survives(a, entries, h) && a.Keys <= b.Keys
    ensures Survives(b, entries + [e], h)
  {
    forall key ensures LastIsThere(b, entries + [e], h, key) {
      assert LastIsThere(a, entries, h, key);
      LastOfMore(entries, e, h, key);
    }
  }

  lemma SurvivesNew(a: Log, b: Log, entries: seq<Entry>, e: Entry, h: nat)
    requires Survives(a, entries, |entries|) && a.Keys <= b.Keys && h == |entries| + 1 && h in b
    ensures Survives(b, entries + [e], h)
  {
    forall key ensures LastIsThere(b, entries + [e], h, key) {
      assert LastIsThere(a, entries, |entries|, key);
      LastOfMore(entries, e, |entries|, key);
    }
  }

  lemma CreditedMore(a: Log, b: Log, entries: seq<Entry>, e: Entry)
    requires AllCredited(a, entries) && (forall s | s in a :: s in b && b[s] == a[s])
    requires Credits(b, e, |entries| + 1, |entries| + 1)
    ensures AllCredited(b, entries + [e])
  {
    forall i | 0 <= i < |entries + [e]| ensures Credited(b, (entries + [e])[i], i + 1) {
      if i < |entries| {
        assert Credited(a, entries[i], i + 1);
        var s: nat :| Credits(a, entries[i], i + 1, s);
        assert Credits(b, entries[i], i + 1, s);
      }
    }
  }

  lemma RecordMatches(st: Store, entries: seq<Entry>, e: Entry)
    requires Inv(st) && Matches(st, entries)
    ensures Matches(Record(st, e.key, e.operation, e.snapshot, e.author), entries + [e])
  {
    var next := Record(st, e.key, e.operation, e.snapshot, e.author);
    RecordIs(st, e.key, e.operation, e.snapshot, e.author);
    forall s ensures MatchesAt(next.log, entries + [e], s) { assert MatchesAt(st.log, entries, s); }
    CreditedMore(st.log, next.log, entries, e);
    SurvivesNew(st.log, next.log, entries, e, next.head);
    forall i | 0 <= i < |next.commits| ensures Survives(next.log, entries + [e], next.commits[i].head) {
      SurvivesMore(st.log, next.log, entries, e, next.commits[i].head);
    }
  }

  // ---------------------------------------------------------------- commits

  lemma AttachMatches(log: Log, entries: seq<Entry>, base: nat, id: nat)
    requires AllMatch(log, entries)
    ensures AllMatch(Attach(log, base, id), entries)
  {
    forall s ensures MatchesAt(Attach(log, base, id), entries, s) { assert MatchesAt(log, entries, s); }
  }

  lemma AttachCredits(log: Log, entries: seq<Entry>, base: nat, id: nat)
    requires AllCredited(log, entries)
    ensures AllCredited(Attach(log, base, id), entries)
  {
    forall i | 0 <= i < |entries| ensures Credited(Attach(log, base, id), entries[i], i + 1) {
      assert Credited(log, entries[i], i + 1);
      var s: nat :| Credits(log, entries[i], i + 1, s);
      assert Credits(Attach(log, base, id), entries[i], i + 1, s);
    }
  }

  lemma SquashedAttached(log: Log, entries: seq<Entry>, base: nat, head: nat, nextId: nat, actor: string, id: nat)
    requires Splits(log, base, head) && AllMatch(log, entries)
    ensures AllMatch(Attach(Squash(log, base, nextId, actor), base, id), entries)
  {
    var squashed := Squash(log, base, nextId, actor);
    SquashSplits(log, base, head, nextId, actor);
    forall s ensures MatchesAt(Attach(squashed, base, id), entries, s) {
      assert MatchesAt(log, entries, s);
      if s in squashed && IsPending(log, base, s) {
        assert squashed[s].operation == "squash" && IsPending(squashed, base, s);
      }
    }
  }

  lemma SquashCredits(log: Log, entries: seq<Entry>, base: nat, head: nat, nextId: nat, actor: string)
    requires Splits(log, base, head) && AllCredited(log, entries)
    ensures AllCredited(Squash(log, base, nextId, actor), entries)
  {
    var squashed := Squash(log, base, nextId, actor);
    forall i | 0 <= i < |entries| ensures Credited(squashed, entries[i], i + 1) {
      assert Credited(log, entries[i], i + 1);
      var s: nat :| Credits(log, entries[i], i + 1, s);
      if IsPending(log, base, s) {
        var last := GroupHasLast(log, base, s, head);
        SquashKeepsContributors(log, base, nextId, actor, last, entries[i].author);
        assert Credits(squashed, entries[i], i + 1, last);
      } else {
        assert Credits(squashed, entries[i], i + 1, s);
      }
    }
  }

  lemma SquashSurvives(log: Log, entries: seq<Entry>, base: nat, head: nat, nextId: nat, actor: string, h: nat)
    requires Splits(log, base, head) && AllMatch(log, entries) && |entries| == head
    requires h <= base || h == head
    requires Survives(log, entries, h)
    ensures Survives(Squash(log, base, nextId, actor), entries, h)
  {
    forall key ensures LastIsThere(Squash(log, base, nextId, actor), entries, h, key) {
      assert LastIsThere(log, entries, h, key);
      var s := LastEntry(entries, h, key);
      if s.Some? && IsPending(log, base, s.value) {
        forall t | t in log && IsPending(log, base, t) && log[t].key == log[s.value].key ensures t <= s.value {
          assert MatchesAt(log, entries, t) && MatchesAt(log, entries, s.value);
          assert entries[t - 1].key == key;
        }
      }
    }
  }

  lemma SelectedMatches(st: Store, entries: seq<Entry>, policy: string, actor: string, id: nat)
    requires Inv(st) && Matches(st, entries)
    ensures var log := Attach(Selected(st, policy, actor), Base(st.commits), id);
      AllMatch(log, entries) && AllCredited(log, entries)
  {
    var base := Base(st.commits);
    if policy == "squash" {
      SquashedAttached(st.log, entries, base, st.head, st.nextId, actor, id);
      SquashCredits(st.log, entries, base, st.head, st.nextId, actor);
    } else {
      AttachMatches(st.log, entries, base, id);
    }
    AttachCredits(Selected(st, policy, actor), entries, base, id);
  }

  lemma SelectedSurvives(st: Store, entries: seq<Entry>, policy: string, actor: string, id: nat, h: nat)
    requires Inv(st) && Matches(st, entries) && (h <= Base(st.commits) || h == st.head)
    requires h <= |entries| && Survives(st.log, entries, h)
    ensures Survives(Attach(Selected(st, policy, actor), Base(st.commits), id), entries, h)
  {
    var base := Base(st.commits);
    if policy == "squash" { SquashSurvives(st.log, entries, base, st.head, st.nextId, actor, h); }
    forall key ensures LastIsThere(Attach(Selected(st, policy, actor), base, id), entries, h, key) {
      assert LastIsThere(Selected(st, policy, actor), entries, h, key);
    }
  }

  lemma HeadsAreBelow(st: Store, i: nat)
    requires Ordered(st.commits, st.head) && i < |st.commits|
    ensures st.commits[i].head <= Base(st.commits)
  {
    assert Before(st.commits, i, |st.commits| - 1);
  }

  lemma CreateMatches(st: Store, entries: seq<Entry>, policy: string, expected: nat, actor: string, admin: bool)
    requires Inv(st) && Matches(st, entries)
    ensures Matches(Create(st, policy, expected, actor, admin), entries)
  {
    if Refusal(st, policy, expected, actor, admin).None? {
      CreateIs(st, policy, expected, actor, admin);
      var next, commit := Create(st, policy, expected, actor, admin), CommitOf(st, policy, actor);
      SelectedMatches(st, entries, policy, actor, commit.id);
      SelectedSurvives(st, entries, policy, actor, commit.id, st.head);
      forall i | 0 <= i < |next.commits| ensures Survives(next.log, entries, next.commits[i].head) {
        if i < |st.commits| {
          HeadsAreBelow(st, i);
          SelectedSurvives(st, entries, policy, actor, commit.id, st.commits[i].head);
        }
      }
    }
  }

  lemma BootstrapMatches(st: Store, entries: seq<Entry>)
    requires Inv(st) && Matches(st, entries) && st.commits == []
    ensures Matches(Bootstrap(st), entries)
  {
    var commit := BootstrapIs(st);
    AttachMatches(st.log, entries, 0, commit.id);
    AttachCredits(st.log, entries, 0, commit.id);
    forall key ensures LastIsThere(Attach(st.log, 0, commit.id), entries, st.head, key) {
      assert LastIsThere(st.log, entries, st.head, key);
    }
  }

  // ---------------------------------------------------------------- runs

  lemma {:induction false} RunMatches(st: Store, entries: seq<Entry>, events: seq<Event>)
    requires Inv(st) && Matches(st, entries)
    ensures Matches(Run(st, events), entries + Entries(events))
    decreases |events|
  {
    if events == [] {
      assert entries + Entries(events) == entries;
    } else {
      var e := events[0];
      StepMatches(st, entries, e);
      RunMatches(Step(st, e), entries + Entries([e]), events[1..]);
      EntriesFollow(entries, events);
    }
  }

  lemma EntriesFollow(entries: seq<Entry>, events: seq<Event>)
    requires events != []
    ensures entries + Entries([events[0]]) + Entries(events[1..]) == entries + Entries(events)
  {
    var first, rest := Entries([events[0]]), Entries(events[1..]);
    assert [events[0]][1..] == [];
    assert first + rest == Entries(events);
    Associates(entries, first, rest);
  }

  lemma Associates<T>(a: seq<T>, b: seq<T>, c: seq<T>)
    ensures a + b + c == a + (b + c)
  {
  }

  lemma StepMatches(st: Store, entries: seq<Entry>, e: Event)
    requires Inv(st) && Matches(st, entries)
    ensures Inv(Step(st, e)) && Matches(Step(st, e), entries + Entries([e]))
  {
    StepKeepsInv(st, e);
    match e
    case Recorded(key, operation, snapshot, author) =>
      RecordMatches(st, entries, Entry(key, operation, snapshot, author));
      assert Entries([e]) == [Entry(key, operation, snapshot, author)];
    case Bootstrapped =>
      if st.commits == [] { BootstrapMatches(st, entries); }
      assert entries + Entries([e]) == entries;
    case Committed(policy, expected, actor, admin) =>
      CreateMatches(st, entries, policy, expected, actor, admin);
      assert entries + Entries([e]) == entries;
  }

  /** Every run of a new workspace. */
  lemma HistoryMatches(events: seq<Event>)
    ensures Inv(Run(EMPTY, events)) && Matches(Run(EMPTY, events), Entries(events))
  {
    HistoryHolds(events);
    RunMatches(EMPTY, [], events);
    assert [] + Entries(events) == Entries(events);
  }

  lemma ExportIsLast(log: Log, entries: seq<Entry>, h: nat, key: Key)
    requires AllMatch(log, entries) && h <= |entries| && LastIsThere(log, entries, h, key)
    ensures ExportAt(log, h, key) == LastSnapshot(entries, h, key)
  {
    var s := LastEntry(entries, h, key);
    forall t | 0 < t <= h && Records(log, t, key) ensures s.Some? && t <= s.value {
      assert MatchesAt(log, entries, t);
      assert entries[t - 1].key == key;
    }
    if s.Some? {
      assert MatchesAt(log, entries, s.value);
      LatestIs(log, h, key, s.value);
    } else {
      LatestIsNone(log, h, key);
    }
  }

  /** At the head of the workspace and at the head of every commit, a document is exported as it
      was last recorded up to there. */
  lemma ExportsAreRecorded(events: seq<Event>, key: Key)
    ensures var st, entries := Run(EMPTY, events), Entries(events);
      && st.head == |entries|
      && ExportAt(st.log, st.head, key) == LastSnapshot(entries, st.head, key)
      && forall i | 0 <= i < |st.commits| :: st.commits[i].head <= |entries| &&
           ExportAt(st.log, st.commits[i].head, key) == LastSnapshot(entries, st.commits[i].head, key)
  {
    var st, entries := Run(EMPTY, events), Entries(events);
    HistoryMatches(events);
    assert LastIsThere(st.log, entries, st.head, key);
    ExportIsLast(st.log, entries, st.head, key);
    forall i | 0 <= i < |st.commits|
      ensures ExportAt(st.log, st.commits[i].head, key) == LastSnapshot(entries, st.commits[i].head, key)
    {
      assert LastIsThere(st.log, entries, st.commits[i].head, key);
      ExportIsLast(st.log, entries, st.commits[i].head, key);
    }
  }

  /** At any other head the revision exported is the last one recorded exactly when a squash has
      not folded that one into a later one. */
  lemma ExportAnywhere(events: seq<Event>, h: nat, key: Key)
    requires h <= |Entries(events)|
    ensures var log, entries := Run(EMPTY, events).log, Entries(events);
      && (Latest(log, h, key) == LastEntry(entries, h, key) <==> LastIsThere(log, entries, h, key))
      && (LastIsThere(log, entries, h, key) ==> ExportAt(log, h, key) == LastSnapshot(entries, h, key))
  {
    var log, entries := Run(EMPTY, events).log, Entries(events);
    HistoryMatches(events);
    if LastIsThere(log, entries, h, key) {
      ExportIsLast(log, entries, h, key);
      LatestIsLastEntry(log, entries, h, key);
    }
  }

  lemma LatestIsLastEntry(log: Log, entries: seq<Entry>, h: nat, key: Key)
    requires AllMatch(log, entries) && h <= |entries| && LastIsThere(log, entries, h, key)
    ensures Latest(log, h, key) == LastEntry(entries, h, key)
  {
    var s := LastEntry(entries, h, key);
    forall t | 0 < t <= h && Records(log, t, key) ensures s.Some? && t <= s.value {
      assert MatchesAt(log, entries, t);
      assert entries[t - 1].key == key;
    }
    if s.Some? {
      assert MatchesAt(log, entries, s.value);
      LatestIs(log, h, key, s.value);
    } else {
      LatestIsNone(log, h, key);
    }
  }

  ghost predicate Whole(st: Store) { forall s | 0 < s <= st.head :: s in st.log }

  lemma {:induction false} NothingIsFolded(st: Store, events: seq<Event>)
    requires Inv(st) && Whole(st) && forall e | e in events :: e.Committed? ==> e.policy != "squash"
    ensures Whole(Run(st, events))
    decreases |events|
  {
    if events != [] {
      var e := events[0];
      StepFoldsNothing(st, e);
      assert forall x | x in events[1..] :: x in events;
      NothingIsFolded(Step(st, e), events[1..]);
    }
  }

  lemma StepFoldsNothing(st: Store, e: Event)
    requires Inv(st) && Whole(st) && (e.Committed? ==> e.policy != "squash")
    ensures Inv(Step(st, e)) && Whole(Step(st, e))
  {
    StepKeepsInv(st, e);
    if e.Committed? && Refusal(st, e.policy, e.expected, e.actor, e.admin).None? {
      CreateIs(st, e.policy, e.expected, e.actor, e.admin);
    }
    if e.Bootstrapped? && st.commits == [] { var commit := BootstrapIs(st); }
  }

  /** Without squashes every export is what was last recorded, at every head. */
  lemma PreservedExports(events: seq<Event>, h: nat, key: Key)
    requires forall e | e in events :: e.Committed? ==> e.policy != "squash"
    requires h <= |Entries(events)|
    ensures ExportAt(Run(EMPTY, events).log, h, key) == LastSnapshot(Entries(events), h, key)
  {
    HistoryMatches(events);
    EmptyInv();
    NothingIsFolded(EMPTY, events);
    ExportAnywhere(events, h, key);
  }

  /** Everyone who recorded a change is named by a revision of that document at or behind it, and a
      revision that was not squashed is told as it was recorded. */
  lemma EveryoneIsCredited(events: seq<Event>, i: nat) returns (s: nat)
    requires i < |Entries(events)|
    ensures var log, e := Run(EMPTY, events).log, Entries(events)[i];
      && i < s && s in log && log[s].key == e.key
      && (log[s].author == e.author || e.author in log[s].contributors)
      && (i + 1 in log && log[i + 1].operation != "squash" ==>
            && log[i + 1].key == e.key && log[i + 1].operation == e.operation && log[i + 1].snapshot == e.snapshot
            && log[i + 1].author == e.author && log[i + 1].contributors == {})
  {
    var log, entries := Run(EMPTY, events).log, Entries(events);
    HistoryMatches(events);
    assert Credited(log, entries[i], i + 1);
    s :| Credits(log, entries[i], i + 1, s);
    assert MatchesAt(log, entries, i + 1);
  }

  // ---------------------------------------------------------------- revision numbers

  /** How many of the first `h` entries are for `key`. */
  function EntriesOf(entries: seq<Entry>, h: nat, key: Key): nat
    requires h <= |entries|
  {
    if h == 0 then 0 else EntriesOf(entries, h - 1, key) + if entries[h - 1].key == key then 1 else 0
  }

  lemma {:induction false} EntriesOfMore(entries: seq<Entry>, e: Entry, h: nat, key: Key)
    requires h <= |entries|
    ensures EntriesOf(entries + [e], h, key) == EntriesOf(entries, h, key)
  {
    if h > 0 { EntriesOfMore(entries, e, h - 1, key); }
  }

  /** Revision `s` has the number of entries its document had by then. */
  ghost predicate NumberedAt(log: Log, entries: seq<Entry>, s: nat) {
    s in log ==> s <= |entries| && log[s].number == EntriesOf(entries, s, log[s].key)
  }

  ghost predicate AllNumbered(log: Log, entries: seq<Entry>) {
    forall s {:trigger NumberedAt(log, entries, s)} :: NumberedAt(log, entries, s)
  }

  ghost predicate CountedAt(st: Store, entries: seq<Entry>, key: Key) {
    (if key in st.numbers then st.numbers[key] else 0) == EntriesOf(entries, |entries|, key)
  }

  ghost predicate Counts(st: Store, entries: seq<Entry>) {
    && |entries| == st.head && AllNumbered(st.log, entries)
    && forall key {:trigger CountedAt(st, entries, key)} :: CountedAt(st, entries, key)
  }

  lemma RecordCounts(st: Store, entries: seq<Entry>, e: Entry)
    requires Inv(st) && Counts(st, entries)
    ensures Counts(Record(st, e.key, e.operation, e.snapshot, e.author), entries + [e])
  {
    var next := Record(st, e.key, e.operation, e.snapshot, e.author);
    RecordIs(st, e.key, e.operation, e.snapshot, e.author);
    RecordChains(st, e.key, e.operation, e.snapshot, e.author);
    forall key ensures CountedAt(next, entries + [e], key) {
      assert CountedAt(st, entries, key);
      EntriesOfMore(entries, e, |entries|, key);
    }
    forall s ensures NumberedAt(next.log, entries + [e], s) {
      assert NumberedAt(st.log, entries, s);
      if s in st.log { EntriesOfMore(entries, e, s, st.log[s].key); }
      if s == next.head {
        assert CountedAt(st, entries, e.key);
        EntriesOfMore(entries, e, |entries|, e.key);
      }
    }
  }

  /** A commit leaves the numbers of the revisions it keeps. */
  lemma CreateCounts(st: Store, entries: seq<Entry>, policy: string, expected: nat, actor: string, admin: bool)
    requires Inv(st) && Counts(st, entries)
    ensures Counts(Create(st, policy, expected, actor, admin), entries)
  {
    if Refusal(st, policy, expected, actor, admin).None? {
      CreateIs(st, policy, expected, actor, admin);
      var next := Create(st, policy, expected, actor, admin);
      forall s ensures NumberedAt(next.log, entries, s) { assert NumberedAt(st.log, entries, s); }
      forall key ensures CountedAt(next, entries, key) { assert CountedAt(st, entries, key); }
    }
  }

  lemma StepCounts(st: Store, entries: seq<Entry>, e: Event)
    requires Inv(st) && Counts(st, entries)
    ensures Inv(Step(st, e)) && Counts(Step(st, e), entries + Entries([e]))
  {
    StepKeepsInv(st, e);
    match e
    case Recorded(key, operation, snapshot, author) =>
      RecordCounts(st, entries, Entry(key, operation, snapshot, author));
      assert Entries([e]) == [Entry(key, operation, snapshot, author)];
    case Bootstrapped =>
      assert entries + Entries([e]) == entries;
      if st.commits == [] { BootstrapCounts(st, entries); }
    case Committed(policy, expected, actor, admin) =>
      CreateCounts(st, entries, policy, expected, actor, admin);
      assert entries + Entries([e]) == entries;
  }

  lemma BootstrapCounts(st: Store, entries: seq<Entry>)
    requires Inv(st) && Counts(st, entries) && st.commits == []
    ensures Counts(Bootstrap(st), entries)
  {
    var commit := BootstrapIs(st);
    var next := Bootstrap(st);
    forall s ensures NumberedAt(next.log, entries, s) { assert NumberedAt(st.log, entries, s); }
    forall key ensures CountedAt(next, entries, key) { assert CountedAt(st, entries, key); }
  }

  lemma {:induction false} RunCounts(st: Store, entries: seq<Entry>, events: seq<Event>)
    requires Inv(st) && Counts(st, entries)
    ensures Counts(Run(st, events), entries + Entries(events))
    decreases |events|
  {
    if events == [] {
      assert entries + Entries(events) == entries;
    } else {
      StepCounts(st, entries, events[0]);
      RunCounts(Step(st, events[0]), entries + Entries([events[0]]), events[1..]);
      EntriesFollow(entries, events);
    }
  }

  /** In every run the revisions of a document are numbered by how often it had been recorded,
      squashed or not, without gaps but for the ones a squash folded away. */
  lemma NumbersCount(events: seq<Event>, s: nat)
    requires s in Run(EMPTY, events).log
    ensures s <= |Entries(events)|
    ensures Run(EMPTY, events).log[s].number == EntriesOf(Entries(events), s, Run(EMPTY, events).log[s].key)
  {
    EmptyInv();
    RunCounts(EMPTY, [], events);
    assert [] + Entries(events) == Entries(events);
    assert NumberedAt(Run(EMPTY, events).log, Entries(events), s);
  }

  // ---------------------------------------------------------------- creating a commit

  /** A commit is created exactly when the policy is known, there is a first commit, the caller has
      seen the head, something is pending, and a squash of the work of others is an admin's. */
  lemma CreateExactly(st: Store, policy: string, expected: nat, actor: string, admin: bool)
    requires Inv(st)
    ensures Create(st, policy, expected, actor, admin) != st <==>
      && (policy == "" || policy == "preserve" || policy == "squash") && st.commits != [] && expected == st.head
      && (exists s :: s in st.log && st.log[s].commit.None?)
      && (policy == "squash" && !admin ==> forall s | s in st.log && st.log[s].commit.None? ::
          st.log[s].author == actor)
  {
    if Refusal(st, policy, expected, actor, admin).None? { CreateIs(st, policy, expected, actor, admin); }
    if st.commits != [] {
      LatestIsLast(st.commits, st.head);
      PendingIs(st);
    }
  }

  lemma PendingIs(st: Store)
    requires Inv(st)
    ensures forall s :: s in Pending(st.log, Base(st.commits), st.head) <==> s in st.log && st.log[s].commit.None?
  {
    PendingRises(st.log, Base(st.commits), st.head);
  }

  /** The first commit reaches from the start to the head and holds everything recorded so far. */
  lemma BootstrappedIs(st: Store)
    requires Inv(st) && st.commits == []
    ensures var next := Bootstrap(st);
      && |next.commits| == 1 && next.head == st.head && next.log.Keys == st.log.Keys
      && var commit := next.commits[0];
      && commit.parent == None && commit.base == 0 && commit.head == st.head && commit.policy == "preserve"
      && forall s | s in st.log :: next.log[s] == st.log[s].(commit := Some(commit.id))
  {
    var commit := BootstrapIs(st);
  }

  /** The new commit follows the latest one up to the head, and everything pending belongs to it. */
  lemma CreatedIs(st: Store, policy: string, expected: nat, actor: string, admin: bool)
    requires Inv(st) && Create(st, policy, expected, actor, admin) != st
    ensures var next := Create(st, policy, expected, actor, admin);
      && st.commits != [] && |next.commits| == |st.commits| + 1 && next.commits[..|st.commits|] == st.commits
      && var before, commit := st.commits[|st.commits| - 1], next.commits[|st.commits|];
      && commit.parent == Some(before.id) && commit.base == before.head && commit.head == st.head == next.head
      && commit.policy == (if policy == "squash" then "squash" else "preserve")
      && (forall s | s in next.log :: s in st.log && next.log[s].commit.Some?
           && (st.log[s].commit.None? <==> next.log[s].commit == Some(commit.id))
           && (st.log[s].commit.Some? ==> next.log[s] == st.log[s])
           && (policy != "squash" ==> next.log[s] == st.log[s].(commit := next.log[s].commit)))
      && (policy != "squash" ==> next.log.Keys == st.log.Keys)
      && next.numbers == st.numbers
  {
    CreateIs(st, policy, expected, actor, admin);
  }

  /** A squash folds the pending revisions of each document into the last one, told as the work of
      the actor with everyone else named, and leaves none of the others. */
  lemma SquashedIs(st: Store, expected: nat, actor: string, admin: bool, s: nat)
    requires Inv(st) && Create(st, "squash", expected, actor, admin) != st && s in st.log && st.log[s].commit.None?
    ensures var next := Create(st, "squash", expected, actor, admin);
      && (s in next.log <==> forall t | t in st.log && st.log[t].commit.None? && st.log[t].key == st.log[s].key ::
          t <= s)
      && (s in next.log ==>
            && next.log[s].key == st.log[s].key && next.log[s].snapshot == st.log[s].snapshot
            && next.log[s].number == st.log[s].number
            && next.log[s].operation == "squash" && next.log[s].author == actor
            && forall user :: user in next.log[s].contributors <==>
                 exists t | t in st.log && st.log[t].commit.None? && st.log[t].key == st.log[s].key ::
                   user == st.log[t].author || user in st.log[t].contributors)
  {
    CreateIs(st, "squash", expected, actor, admin);
    var base := Base(st.commits);
    if IsLast(st.log, base, s) {
      forall user ensures user in Squash(st.log, base, st.nextId, actor)[s].contributors <==>
        exists t | t in st.log && IsPending(st.log, base, t) && st.log[t].key == st.log[s].key ::
          user == st.log[t].author || user in st.log[t].contributors
      {
        SquashKeepsContributors(st.log, base, st.nextId, actor, s, user);
      }
    }
  }

  /** Who is no admin squashes only work of his own: afterwards he is the only one named. */
  lemma OwnWorkOnly(events: seq<Event>, expected: nat, actor: string, s: nat)
    requires var st := Run(EMPTY, events);
      Create(st, "squash", expected, actor, false) != st && s in st.log && st.log[s].commit.None?
    ensures var st := Run(EMPTY, events);
      && 0 < s <= |Entries(events)| && Entries(events)[s - 1].author == actor
      && (s in Create(st, "squash", expected, actor, false).log ==>
           Create(st, "squash", expected, actor, false).log[s].contributors == {actor})
  {
    var st, entries := Run(EMPTY, events), Entries(events);
    HistoryMatches(events);
    assert MatchesAt(st.log, entries, s);
    CreateExactly(st, "squash", expected, actor, false);
    SquashedIs(st, expected, actor, false, s);
    forall t | t in st.log && st.log[t].commit.None? ensures st.log[t].author == actor && st.log[t].contributors == {} {
      assert MatchesAt(st.log, entries, t);
    }
  }
}
