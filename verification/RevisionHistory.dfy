/** What squash preserves, and what every run of recordings and commits keeps. */
module RevisionHistory {
  import opened Wrappers
  import opened RevisionLog

  // ---------------------------------------------------------------- latest

  lemma LatestIs(log: Log, h: nat, key: Key, s: nat)
    requires 0 < s <= h && Records(log, s, key)
    requires forall t | s < t <= h :: !Records(log, t, key)
    ensures Latest(log, h, key) == Some(s)
  {
  }

  lemma LatestIsNone(log: Log, h: nat, key: Key)
    requires forall t | 0 < t <= h :: !Records(log, t, key)
    ensures Latest(log, h, key) == None
  {
  }

  /** Two logs that record a document at the same sequences up to `h` have one latest. */
  lemma {:induction false} SameLatest(a: Log, b: Log, h: nat, key: Key)
    requires forall t | 0 < t <= h :: Records(a, t, key) <==> Records(b, t, key)
    ensures Latest(a, h, key) == Latest(b, h, key)
  {
    if h > 0 { SameLatest(a, b, h - 1, key); }
  }

  /** When nothing recorded `key` between two heads, they show the same revision of it. */
  lemma SameUpTo(log: Log, base: nat, h: nat, key: Key)
    requires base <= h && (Latest(log, h, key).Some? ==> Latest(log, h, key).value <= base)
    ensures Latest(log, base, key) == Latest(log, h, key)
  {
    var s := Latest(log, h, key);
    if s.Some? { LatestIs(log, base, key, s.value); } else { LatestIsNone(log, base, key); }
  }

  /** The logs hold the same revisions up to `h`. */
  ghost predicate Agree(a: Log, b: Log, h: nat) {
    forall s | s <= h :: (s in a <==> s in b) && (s in a && s in b ==> a[s] == b[s])
  }

  lemma AgreeingExports(a: Log, b: Log, h: nat, g: nat, key: Key)
    requires Agree(a, b, h) && g <= h
    ensures Latest(a, g, key) == Latest(b, g, key) && IdAt(a, Latest(a, g, key)) == IdAt(b, Latest(b, g, key))
    ensures ExportAt(a, g, key) == ExportAt(b, g, key)
  {
    SameLatest(a, b, g, key);
  }

  // ---------------------------------------------------------------- squash

  /** Up to `base` everything is committed and nothing after it. */
  ghost predicate Splits(log: Log, base: nat, head: nat) {
    && base <= head
    && (forall s | s in log :: 0 < s <= head)
    && (forall s | s in log :: log[s].commit.Some? <==> s <= base)
  }

  lemma {:induction false} GroupHasLast(log: Log, base: nat, s: nat, head: nat) returns (last: nat)
    requires Splits(log, base, head) && IsPending(log, base, s)
    ensures s <= last && last in log && IsLast(log, base, last) && log[last].key == log[s].key
    decreases head - s
  {
    if t :| t in log && IsPending(log, base, t) && log[t].key == log[s].key && t > s {
      last := GroupHasLast(log, base, t, head);
    } else {
      last := s;
    }
  }

  lemma SquashAgrees(log: Log, base: nat, head: nat, nextId: nat, actor: string)
    requires Splits(log, base, head)
    ensures Agree(Squash(log, base, nextId, actor), log, base)
  {
  }

  /** At or below the base a squash changes no export. */
  lemma SquashKeepsBelow(log: Log, base: nat, head: nat, nextId: nat, actor: string, h: nat, key: Key)
    requires Splits(log, base, head) && h <= base
    ensures Latest(Squash(log, base, nextId, actor), h, key) == Latest(log, h, key)
    ensures ExportAt(Squash(log, base, nextId, actor), h, key) == ExportAt(log, h, key)
  {
    SquashAgrees(log, base, head, nextId, actor);
    AgreeingExports(Squash(log, base, nextId, actor), log, base, h, key);
  }

  /** Above the base the squashed log shows a document's last pending revision from its own
      sequence on, and the state of the base before it. */
  lemma SquashedExport(log: Log, base: nat, head: nat, nextId: nat, actor: string, h: nat, key: Key)
    requires Splits(log, base, head) && base <= h
    ensures var squashed := Squash(log, base, nextId, actor);
      ExportAt(squashed, h, key) ==
        if exists s | s in log && s <= h && IsLast(log, base, s) ::
            log[s].key == key then ExportAt(log, h, key) else ExportAt(log, base, key)
  {
    var squashed := Squash(log, base, nextId, actor);
    if s :| s in log && s <= h && IsLast(log, base, s) && log[s].key == key {
      LatestIs(log, h, key, s);
      LatestIs(squashed, h, key, s);
    } else {
      SquashKeepsBelow(log, base, head, nextId, actor, base, key);
      var s := Latest(log, base, key);
      if s.Some? { LatestIs(squashed, h, key, s.value); } else { LatestIsNone(squashed, h, key); }
    }
  }

  /** At the head, and beyond, a squash changes no export. */
  lemma SquashKeepsHead(log: Log, base: nat, head: nat, nextId: nat, actor: string, h: nat, key: Key)
    requires Splits(log, base, head) && head <= h
    ensures ExportAt(Squash(log, base, nextId, actor), h, key) == ExportAt(log, h, key)
  {
    SquashedExport(log, base, head, nextId, actor, h, key);
    var s := Latest(log, h, key);
    if s.Some? && s.value > base {
      var last := GroupHasLast(log, base, s.value, head);
    } else {
      SameUpTo(log, base, h, key);
    }
  }

  // ---------------------------------------------------------------- changes

  /** Every revision points to the previous surviving one of its document. */
  ghost predicate Chained(log: Log) { forall s {:trigger Linked(log, s)} :: Linked(log, s) }

  ghost predicate Linked(log: Log, s: nat) {
    s in log && s > 0 ==> log[s].parent == IdAt(log, Latest(log, s - 1, log[s].key))
  }

  /** `changes` says of `key` exactly how the log moves it from `base` to `head`. */
  ghost predicate Explains(log: Log, base: nat, head: nat, changes: map<Key, Change>, key: Key) {
    var last := Latest(log, head, key);
    && (key in changes <==> last.Some? && last.value > base)
    && (key in changes && last.Some? && last.value in log ==>
          && changes[key].before == IdAt(log, Latest(log, base, key))
          && changes[key].after == log[last.value].id
          && changes[key].operation == log[last.value].operation)
  }

  lemma {:induction false} SpansExplain(log: Log, base: nat, head: nat, h: nat, key: Key)
    requires Splits(log, base, head) && Chained(log) && base <= h
    ensures Explains(log, base, h, Spans(log, Pending(log, base, h)), key)
    decreases h
  {
    if h > base {
      SpansExplain(log, base, head, h - 1, key);
      var rest := Pending(log, base, h - 1);
      StepExplains(log, base, h, Spans(log, rest), key);
      if IsPending(log, base, h) { SpansLast(log, rest, h); }
    }
  }

  function Extend(changes: map<Key, Change>, r: Revision): map<Key, Change> {
    changes[r.key := Change(if r.key in changes then changes[r.key].before else r.parent, r.id, r.operation)]
  }

  lemma SpansLast(log: Log, rest: seq<nat>, h: nat)
    requires h in log && forall s | s in rest :: s in log
    ensures Spans(log, rest + [h]) == Extend(Spans(log, rest), log[h])
  {
    assert (rest + [h])[..|rest|] == rest;
  }

  lemma StepExplains(log: Log, base: nat, h: nat, rest: map<Key, Change>, key: Key)
    requires base < h && Chained(log) && Explains(log, base, h - 1, rest, key)
    ensures Explains(log, base, h, if h in log then Extend(rest, log[h]) else rest, key)
  {
    assert Linked(log, h);
    if Records(log, h, key) && !(key in rest) { SameUpTo(log, base, h - 1, key); }
  }

  lemma {:induction false} CommittedIsLatest(log: Log, base: nat, head: nat, h: nat, key: Key)
    requires Splits(log, base, head) && h <= base
    ensures LatestCommitted(log, h, key) == Latest(log, h, key)
  {
    if h > 0 { CommittedIsLatest(log, base, head, h - 1, key); }
  }

  lemma SquashSplits(log: Log, base: nat, head: nat, nextId: nat, actor: string)
    requires Splits(log, base, head)
    ensures Splits(Squash(log, base, nextId, actor), base, head)
  {
  }

  /** The squashed log is chained again: each squashed revision points to the base. */
  lemma SquashChains(log: Log, base: nat, head: nat, nextId: nat, actor: string)
    requires Splits(log, base, head) && Chained(log)
    ensures Chained(Squash(log, base, nextId, actor))
  {
    var squashed := Squash(log, base, nextId, actor);
    forall s | s in squashed && s > 0 ensures Linked(squashed, s) {
      assert Linked(log, s);
      var key := squashed[s].key;
      if s <= base {
        SquashKeepsBelow(log, base, head, nextId, actor, s - 1, key);
      } else {
        CommittedIsLatest(log, base, head, base, key);
        SquashKeepsBelow(log, base, head, nextId, actor, base, key);
        SameUpTo(squashed, base, s - 1, key);
      }
    }
  }

  /** A squash changes neither which documents the commit touches, nor the revision each starts
      from, nor the snapshot each ends in. */
  lemma SquashKeepsChanges(log: Log, base: nat, head: nat, nextId: nat, actor: string, key: Key)
    requires Splits(log, base, head) && Chained(log)
    ensures var squashed := Squash(log, base, nextId, actor);
      var preserved, folded := Spans(log, Pending(log, base, head)), Spans(squashed, Pending(squashed, base, head));
      && (key in folded <==> key in preserved)
      && (key in preserved ==>
            var s, t := Latest(log, head, key), Latest(squashed, head, key);
            && folded[key].before == preserved[key].before
            && s.Some? && t.Some? && s.value in log && t.value in squashed
            && preserved[key].after == log[s.value].id && folded[key].after == squashed[t.value].id
            && squashed[t.value].snapshot == log[s.value].snapshot)
      && ExportAt(squashed, head, key) == ExportAt(log, head, key)
  {
    var squashed := Squash(log, base, nextId, actor);
    SquashSplits(log, base, head, nextId, actor);
    SquashChains(log, base, head, nextId, actor);
    SpansExplain(log, base, head, head, key);
    SpansExplain(squashed, base, head, head, key);
    SquashKeepsBelow(log, base, head, nextId, actor, base, key);
    SquashKeepsHead(log, base, head, nextId, actor, head, key);
    SquashKeepsTouched(log, base, head, nextId, actor, key);
  }

  lemma SquashKeepsTouched(log: Log, base: nat, head: nat, nextId: nat, actor: string, key: Key)
    requires Splits(log, base, head)
    ensures var before, after := Latest(log, head, key), Latest(Squash(log, base, nextId, actor), head, key);
      (before.Some? && before.value > base) <==> (after.Some? && after.value > base)
  {
    var squashed := Squash(log, base, nextId, actor);
    var s, t := Latest(log, head, key), Latest(squashed, head, key);
    if s.Some? && s.value > base {
      var last := GroupHasLast(log, base, s.value, head);
      assert Records(squashed, last, key);
    }
    if t.Some? && t.value > base { assert Records(log, t.value, key); }
  }

  /** A squashed revision names everyone who wrote a revision of its group, and no one else. */
  lemma SquashKeepsContributors(log: Log, base: nat, nextId: nat, actor: string, s: nat, user: string)
    requires s in log && IsLast(log, base, s)
    ensures var squashed := Squash(log, base, nextId, actor);
      user in squashed[s].contributors <==>
        exists t | t in log && IsPending(log, base, t) && log[t].key == log[s].key ::
            user == log[t].author || user in log[t].contributors
  {
    var squashed := Squash(log, base, nextId, actor);
    var group := Group(log, base, log[s].key);
    assert squashed[s].contributors == Contributors(log, group);
    if t :|
        && t in log && IsPending(log, base, t) && log[t].key == log[s].key
        && (user == log[t].author || user in log[t].contributors)
    {
      assert t in group && user in log[t].contributors + {log[t].author};
    }
  }

  // ---------------------------------------------------------------- invariant

  function Base(commits: seq<Commit>): nat { if commits == [] then 0 else commits[|commits| - 1].head }

  /** Each commit starts where its parent ends. */
  ghost predicate Ordered(commits: seq<Commit>, head: nat) {
    && (forall i | 0 <= i < |commits| :: commits[i].base <= commits[i].head <= head)
    && (forall i, j {:trigger Before(commits, i, j)} :: Before(commits, i, j))
    && (commits != [] ==> commits[0].base == 0 && commits[0].parent.None?)
    && (forall i {:trigger Follows(commits, i)} :: Follows(commits, i))
  }

  ghost predicate Before(commits: seq<Commit>, i: nat, j: nat) {
    i < j < |commits| ==> commits[i].head <= commits[j].base < commits[j].head && commits[i].id != commits[j].id
  }

  ghost predicate Follows(commits: seq<Commit>, i: nat) {
    0 < i < |commits| ==> commits[i].base == commits[i - 1].head && commits[i].parent == Some(commits[i - 1].id)
  }

  /** A revision belongs to the commit whose range holds its sequence, and to no other. */
  ghost predicate Placed(log: Log, commits: seq<Commit>) {
    forall i, s {:trigger PlacedAt(log, commits, i, s)} :: PlacedAt(log, commits, i, s)
  }

  ghost predicate PlacedAt(log: Log, commits: seq<Commit>, i: nat, s: nat) {
    i < |commits| && s in log ==> (log[s].commit == Some(commits[i].id) <==> commits[i].base < s <= commits[i].head)
  }

  ghost predicate Numbered(log: Log, numbers: map<Key, nat>) {
    && (forall s, t {:trigger Rising(log, s, t)} :: Rising(log, s, t))
    && (forall s | s in log :: log[s].key in numbers && log[s].number <= numbers[log[s].key])
  }

  ghost predicate Rising(log: Log, s: nat, t: nat) {
    s in log && t in log && s < t && log[s].key == log[t].key ==> log[s].number < log[t].number
  }

  /** Identifiers are distinct and have been handed out. */
  ghost predicate Distinct(log: Log, commits: seq<Commit>, nextId: nat) {
    && (forall s, t {:trigger Apart(log, s, t)} :: Apart(log, s, t))
    && (forall s | s in log :: log[s].id < nextId && (log[s].commit.Some? ==> log[s].commit.value < nextId))
    && (forall i | 0 <= i < |commits| :: commits[i].id < nextId)
  }

  ghost predicate Apart(log: Log, s: nat, t: nat) { s in log && t in log && s != t ==> log[s].id != log[t].id }

  ghost predicate Explained(log: Log, commits: seq<Commit>) {
    forall i, key {:trigger ExplainsAt(log, commits, i, key)} | 0 <= i < |commits| :: ExplainsAt(log, commits, i, key)
  }

  ghost predicate ExplainsAt(log: Log, commits: seq<Commit>, i: nat, key: Key)
    requires i < |commits|
  {
    Explains(log, commits[i].base, commits[i].head, commits[i].changes, key)
  }

  ghost predicate Inv(st: Store) {
    && Ordered(st.commits, st.head)
    && Splits(st.log, Base(st.commits), st.head)
    && (st.head > 0 ==> st.head in st.log)
    && Placed(st.log, st.commits)
    && Chained(st.log)
    && Numbered(st.log, st.numbers)
    && Distinct(st.log, st.commits, st.nextId)
    && Explained(st.log, st.commits)
  }

  lemma ExplainedAgrees(a: Log, b: Log, commits: seq<Commit>, h: nat)
    requires Explained(a, commits) && Agree(a, b, h)
    requires forall i | 0 <= i < |commits| :: commits[i].base <= commits[i].head <= h
    ensures Explained(b, commits)
  {
    forall i, key | 0 <= i < |commits| ensures ExplainsAt(b, commits, i, key) {
      AgreeingExports(a, b, h, commits[i].base, key);
      AgreeingExports(a, b, h, commits[i].head, key);
      assert ExplainsAt(a, commits, i, key);
    }
  }

  // ---------------------------------------------------------------- recording

  /** The revision with the highest number is the latest one, so RecordDocument finds the
      previous revision of the document. */
  lemma HighestIsLatest(log: Log, numbers: map<Key, nat>, h: nat, key: Key)
    requires Numbered(log, numbers)
    ensures HighestNumber(log, h, key) == Latest(log, h, key)
  {
    var s, t := HighestNumber(log, h, key), Latest(log, h, key);
    if s.Some? && t.Some? { assert Rising(log, s.value, t.value); }
  }

  lemma AddChains(log: Log, head: nat, r: Revision)
    requires Chained(log) && forall s | s in log :: s <= head
    requires r.parent == IdAt(log, Latest(log, head, r.key))
    ensures Chained(log[head + 1 := r])
  {
    var next := log[head + 1 := r];
    forall s | s in next && s > 0 ensures Linked(next, s) {
      assert Linked(log, s);
      AgreeingExports(log, next, head, s - 1, next[s].key);
    }
  }

  lemma AddNumbered(log: Log, numbers: map<Key, nat>, head: nat, r: Revision)
    requires Numbered(log, numbers) && forall s | s in log :: s <= head
    requires r.number == (if r.key in numbers then numbers[r.key] else 0) + 1
    ensures Numbered(log[head + 1 := r], numbers[r.key := r.number])
  {
    var next := log[head + 1 := r];
    forall s, t ensures Rising(next, s, t) { assert Rising(log, s, t); }
  }

  lemma AddDistinct(log: Log, commits: seq<Commit>, nextId: nat, head: nat, r: Revision)
    requires Distinct(log, commits, nextId) && r.id == nextId && r.commit.None?
    ensures Distinct(log[head + 1 := r], commits, nextId + 1)
  {
    var next := log[head + 1 := r];
    forall s, t ensures Apart(next, s, t) { assert Apart(log, s, t); }
  }

  lemma AddPlaced(log: Log, commits: seq<Commit>, head: nat, r: Revision)
    requires Placed(log, commits) && Ordered(commits, head) && r.commit.None?
    ensures Placed(log[head + 1 := r], commits)
  {
    var next := log[head + 1 := r];
    forall i, s ensures PlacedAt(next, commits, i, s) { assert PlacedAt(log, commits, i, s); }
  }

  lemma AddSplits(log: Log, base: nat, head: nat, r: Revision)
    requires Splits(log, base, head) && r.commit.None?
    ensures Splits(log[head + 1 := r], base, head + 1)
  {
  }

  lemma AddAgrees(log: Log, head: nat, r: Revision)
    requires forall s | s in log :: s <= head
    ensures Agree(log, log[head + 1 := r], head)
  {
  }

  lemma AddKeepsInv(st: Store, r: Revision)
    requires Inv(st)
    requires r.id == st.nextId && r.commit.None? && r.number == NumberOf(st, r.key) + 1
    requires r.parent == IdAt(st.log, Latest(st.log, st.head, r.key))
    ensures Inv(Store(st.head + 1, st.log[st.head + 1 := r], st.commits, st.numbers[r.key := r.number], st.nextId + 1))
  {
    AddSplits(st.log, Base(st.commits), st.head, r);
    AddAgrees(st.log, st.head, r);
    AddChains(st.log, st.head, r);
    AddNumbered(st.log, st.numbers, st.head, r);
    AddDistinct(st.log, st.commits, st.nextId, st.head, r);
    AddPlaced(st.log, st.commits, st.head, r);
    ExplainedAgrees(st.log, st.log[st.head + 1 := r], st.commits, st.head);
  }

  lemma RecordKeepsInv(st: Store, key: Key, operation: string, snapshot: string, author: string)
    requires Inv(st)
    ensures Inv(Record(st, key, operation, snapshot, author))
    ensures Agree(st.log, Record(st, key, operation, snapshot, author).log, st.head)
  {
    HighestIsLatest(st.log, st.numbers, st.head, key);
    AddKeepsInv(st, Record(st, key, operation, snapshot, author).log[st.head + 1]);
  }

  // ---------------------------------------------------------------- committing

  lemma {:induction false} LatestIsLast(commits: seq<Commit>, head: nat)
    requires Ordered(commits, head) && commits != []
    ensures LatestCommit(commits) == commits[|commits| - 1]
  {
    if |commits| > 1 {
      var c := LatestCommit(commits[..|commits| - 1]);
      var i :| 0 <= i < |commits| - 1 && commits[i] == c;
      assert Before(commits, i, |commits| - 1);
    }
  }

  lemma LastSequenceIsLast(log: Log, base: nat, head: nat)
    requires Splits(log, base, head) && head in log && head > base
    ensures IsLast(log, base, head)
  {
  }

  lemma SquashKeepsNumbered(log: Log, base: nat, nextId: nat, actor: string, numbers: map<Key, nat>)
    requires Numbered(log, numbers)
    ensures Numbered(Squash(log, base, nextId, actor), numbers)
  {
    forall s, t ensures Rising(Squash(log, base, nextId, actor), s, t) { assert Rising(log, s, t); }
  }

  lemma SquashKeepsDistinct(st: Store, actor: string)
    requires Inv(st)
    ensures Distinct(Squash(st.log, Base(st.commits), st.nextId, actor), st.commits, st.nextId + st.head + 1)
  {
    forall s, t ensures Apart(Squash(st.log, Base(st.commits), st.nextId, actor), s, t) { assert Apart(st.log, s, t); }
  }

  lemma HeadsBelow(commits: seq<Commit>, head: nat)
    requires Ordered(commits, head)
    ensures forall i | 0 <= i < |commits| :: commits[i].base <= commits[i].head <= Base(commits)
  {
    forall i | 0 <= i < |commits| ensures commits[i].head <= Base(commits) {
      assert Before(commits, i, |commits| - 1);
    }
  }

  lemma SquashKeepsPlaced(st: Store, actor: string)
    requires Inv(st)
    ensures Placed(Squash(st.log, Base(st.commits), st.nextId, actor), st.commits)
  {
    var squashed := Squash(st.log, Base(st.commits), st.nextId, actor);
    forall i: nat, s: nat ensures PlacedAt(squashed, st.commits, i, s) { assert PlacedAt(st.log, st.commits, i, s); }
  }

  lemma SquashKeepsInv(st: Store, actor: string)
    requires Inv(st)
    ensures Inv(st.(log := Squash(st.log, Base(st.commits), st.nextId, actor), nextId := st.nextId + st.head + 1))
  {
    var base := Base(st.commits);
    SquashSplits(st.log, base, st.head, st.nextId, actor);
    SquashChains(st.log, base, st.head, st.nextId, actor);
    SquashAgrees(st.log, base, st.head, st.nextId, actor);
    SquashKeepsNumbered(st.log, base, st.nextId, actor, st.numbers);
    SquashKeepsDistinct(st, actor);
    SquashKeepsPlaced(st, actor);
    HeadsBelow(st.commits, st.head);
    ExplainedAgrees(st.log, Squash(st.log, base, st.nextId, actor), st.commits, base);
    if st.head > base { LastSequenceIsLast(st.log, base, st.head); }
  }

  /** The logs differ at most in the commit marks. */
  ghost predicate Alike(a: Log, b: Log) {
    && a.Keys == b.Keys
    && forall s | s in a && s in b :: b[s] == a[s].(commit := b[s].commit)
  }

  lemma AlikeExports(a: Log, b: Log, h: nat, key: Key)
    requires Alike(a, b)
    ensures Latest(a, h, key) == Latest(b, h, key) && IdAt(a, Latest(a, h, key)) == IdAt(b, Latest(b, h, key))
    ensures ExportAt(a, h, key) == ExportAt(b, h, key)
  {
    SameLatest(a, b, h, key);
  }

  lemma AlikeChains(a: Log, b: Log)
    requires Alike(a, b) && Chained(a)
    ensures Chained(b)
  {
    forall s | s in b && s > 0 ensures Linked(b, s) {
      assert Linked(a, s);
      AlikeExports(a, b, s - 1, b[s].key);
    }
  }

  lemma AlikeExplains(a: Log, b: Log, base: nat, head: nat, changes: map<Key, Change>, key: Key)
    requires Alike(a, b) && Explains(a, base, head, changes, key)
    ensures Explains(b, base, head, changes, key)
  {
    AlikeExports(a, b, base, key);
    AlikeExports(a, b, head, key);
  }

  lemma AttachIsAlike(log: Log, base: nat, id: nat)
    ensures Alike(log, Attach(log, base, id))
  {
  }

  lemma AttachSplits(log: Log, base: nat, head: nat, id: nat)
    requires Splits(log, base, head)
    ensures Splits(Attach(log, base, id), head, head)
  {
  }

  lemma AlikeNumbered(a: Log, b: Log, numbers: map<Key, nat>)
    requires Alike(a, b) && Numbered(a, numbers)
    ensures Numbered(b, numbers)
  {
    forall s: nat, t: nat ensures Rising(b, s, t) { assert Rising(a, s, t); }
  }

  lemma SealDistinct(log: Log, commits: seq<Commit>, nextId: nat, base: nat, commit: Commit)
    requires Distinct(log, commits, nextId) && nextId <= commit.id
    ensures Distinct(Attach(log, base, commit.id), commits + [commit], commit.id + 1)
  {
    var sealed := Attach(log, base, commit.id);
    forall s: nat, t: nat ensures Apart(sealed, s, t) { assert Apart(log, s, t); }
  }

  lemma SealPlaces(log: Log, commits: seq<Commit>, head: nat, nextId: nat, commit: Commit)
    requires Placed(log, commits) && Ordered(commits, head) && Distinct(log, commits, nextId) && nextId <= commit.id
    requires commit.base == Base(commits) && commit.head == head && Splits(log, commit.base, head)
    ensures Placed(Attach(log, commit.base, commit.id), commits + [commit])
  {
    var sealed, next := Attach(log, commit.base, commit.id), commits + [commit];
    HeadsBelow(commits, head);
    forall i: nat, s: nat ensures PlacedAt(sealed, next, i, s) {
      assert PlacedAt(log, commits, i, s);
      if i < |commits| { assert next[i] == commits[i] && commits[i].id < nextId; }
    }
  }

  lemma SealOrders(commits: seq<Commit>, head: nat, nextId: nat, commit: Commit)
    requires Ordered(commits, head) && commit.base == Base(commits) && commit.head == head
    requires commit.parent == if commits == [] then None else Some(commits[|commits| - 1].id)
    requires commits != [] ==> commit.base < commit.head
    requires nextId <= commit.id && forall i | 0 <= i < |commits| :: commits[i].id < nextId
    ensures Ordered(commits + [commit], head)
  {
    var next := commits + [commit];
    HeadsBelow(commits, head);
    forall i: nat, j: nat ensures Before(next, i, j) { assert Before(commits, i, j); }
    forall i: nat ensures Follows(next, i) { assert Follows(commits, i); }
  }

  lemma SealExplains(log: Log, commits: seq<Commit>, head: nat, commit: Commit)
    requires Explained(log, commits) && Chained(log) && Splits(log, commit.base, head)
    requires commit.head == head && commit.changes == Spans(log, Pending(log, commit.base, head))
    ensures Explained(Attach(log, commit.base, commit.id), commits + [commit])
  {
    var sealed, next := Attach(log, commit.base, commit.id), commits + [commit];
    AttachIsAlike(log, commit.base, commit.id);
    forall i: nat, key | i < |next| ensures ExplainsAt(sealed, next, i, key) {
      var c := next[i];
      if i == |commits| {
        SpansExplain(log, c.base, head, head, key);
      } else {
        assert ExplainsAt(log, commits, i, key);
      }
      AlikeExplains(log, sealed, c.base, c.head, c.changes, key);
    }
  }

  /** The commit appended by Seal, in a state whose log is already the selected one. */
  lemma SealKeepsInv(st: Store, commit: Commit)
    requires Inv(st) && st.nextId <= commit.id
    requires commit.base == Base(st.commits) && commit.head == st.head
    requires commit.parent == if st.commits == [] then None else Some(st.commits[|st.commits| - 1].id)
    requires st.commits != [] ==> commit.base < commit.head
    requires commit.changes == Spans(st.log, Pending(st.log, commit.base, st.head))
    ensures Inv(st.(log := Attach(st.log, commit.base, commit.id), commits := st.commits + [commit],
        nextId := commit.id + 1))
  {
    AttachIsAlike(st.log, commit.base, commit.id);
    AttachSplits(st.log, commit.base, st.head, commit.id);
    AlikeChains(st.log, Attach(st.log, commit.base, commit.id));
    AlikeNumbered(st.log, Attach(st.log, commit.base, commit.id), st.numbers);
    SealOrders(st.commits, st.head, st.nextId, commit);
    SealPlaces(st.log, st.commits, st.head, st.nextId, commit);
    SealDistinct(st.log, st.commits, st.nextId, commit.base, commit);
    SealExplains(st.log, st.commits, st.head, commit);
  }

  /** The log Create commits. */
  function Selected(st: Store, policy: string, actor: string): Log {
    if policy == "squash" then Squash(st.log, Base(st.commits), st.nextId, actor) else st.log
  }

  function CommitOf(st: Store, policy: string, actor: string): Commit
    requires st.commits != []
  {
    var base, selected := Base(st.commits), Selected(st, policy, actor);
    Commit(st.nextId + st.head + 1, Some(st.commits[|st.commits| - 1].id), base, st.head,
           if policy == "" then "preserve" else policy, Spans(selected, Pending(selected, base, st.head)))
  }

  lemma CreateIs(st: Store, policy: string, expected: nat, actor: string, admin: bool)
    requires Ordered(st.commits, st.head) && Refusal(st, policy, expected, actor, admin).None?
    ensures st.commits != [] && Base(st.commits) < st.head
    ensures var commit := CommitOf(st, policy, actor);
      Create(st, policy, expected, actor, admin) ==
        st.(log := Attach(Selected(st, policy, actor), commit.base, commit.id), commits := st.commits + [commit],
            nextId := commit.id + 1)
  {
    LatestIsLast(st.commits, st.head);
    CreateSeals(st, policy, expected, actor, admin);
  }

  lemma CreateSeals(st: Store, policy: string, expected: nat, actor: string, admin: bool)
    requires Refusal(st, policy, expected, actor, admin).None?
    requires st.commits != [] && LatestCommit(st.commits) == st.commits[|st.commits| - 1]
    ensures Base(st.commits) < st.head
    ensures var commit := CommitOf(st, policy, actor);
      Create(st, policy, expected, actor, admin) ==
        st.(log := Attach(Selected(st, policy, actor), commit.base, commit.id), commits := st.commits + [commit],
            nextId := commit.id + 1)
  {
    SomethingPends(st.log, Base(st.commits), st.head);
  }

  lemma SomethingPends(log: Log, base: nat, head: nat)
    ensures Pending(log, base, head) != [] ==> base < head
  {
  }

  lemma SelectedKeepsInv(st: Store, policy: string, actor: string)
    requires Inv(st)
    ensures Inv(st.(log := Selected(st, policy, actor), nextId := st.nextId + st.head + 1))
  {
    if policy == "squash" { SquashKeepsInv(st, actor); } else { LaterIdKeepsInv(st, st.nextId + st.head + 1); }
  }

  lemma LaterIdKeepsInv(st: Store, nextId: nat)
    requires Inv(st) && nextId >= st.nextId
    ensures Inv(st.(nextId := nextId))
  {
  }

  lemma CreateKeepsInv(st: Store, policy: string, expected: nat, actor: string, admin: bool)
    requires Inv(st)
    ensures Inv(Create(st, policy, expected, actor, admin))
  {
    if Refusal(st, policy, expected, actor, admin).None? {
      CreateIs(st, policy, expected, actor, admin);
      SelectedKeepsInv(st, policy, actor);
      SealKeepsInv(st.(log := Selected(st, policy, actor), nextId := st.nextId + st.head + 1),
          CommitOf(st, policy, actor));
    }
  }

  /** A new workspace's first commit reaches its head. */
  lemma BootstrapIs(st: Store) returns (commit: Commit)
    requires st.commits == [] && Splits(st.log, 0, st.head) && (st.head > 0 ==> st.head in st.log)
    ensures commit == Commit(st.nextId + st.head + 1, None, 0, st.head, "preserve",
        Spans(st.log, Pending(st.log, 0, st.head)))
    ensures Bootstrap(st) == st.(log := Attach(st.log, 0, commit.id), commits := st.commits + [commit],
        nextId := commit.id + 1)
  {
    var pending := Pending(st.log, 0, st.head);
    if st.head > 0 { assert pending == Pending(st.log, 0, st.head - 1) + [st.head]; }
    commit := Bootstrap(st).commits[0];
  }

  lemma BootstrapKeepsInv(st: Store)
    requires Inv(st) && st.commits == []
    ensures Inv(Bootstrap(st))
  {
    var commit := BootstrapIs(st);
    LaterIdKeepsInv(st, st.nextId + st.head + 1);
    SealKeepsInv(st.(nextId := st.nextId + st.head + 1), commit);
  }

  // ---------------------------------------------------------------- runs

  datatype Event =
    | Recorded(key: Key, operation: string, snapshot: string, author: string)
    | Bootstrapped
    | Committed(policy: string, expected: nat, actor: string, admin: bool)

  function Step(st: Store, e: Event): Store {
    match e
    case Recorded(key, operation, snapshot, author) => Record(st, key, operation, snapshot, author)
    case Bootstrapped => if st.commits == [] then Bootstrap(st) else st
    case Committed(policy, expected, actor, admin) => Create(st, policy, expected, actor, admin)
  }

  function Run(st: Store, events: seq<Event>): Store
    decreases |events|
  {
    if events == [] then st else Run(Step(st, events[0]), events[1..])
  }

  lemma EmptyInv()
    ensures Inv(EMPTY)
  {
  }

  lemma StepKeepsInv(st: Store, e: Event)
    requires Inv(st)
    ensures Inv(Step(st, e))
  {
    match e
    case Recorded(key, operation, snapshot, author) => RecordKeepsInv(st, key, operation, snapshot, author);
    case Bootstrapped => if st.commits == [] { BootstrapKeepsInv(st); }
    case Committed(policy, expected, actor, admin) => CreateKeepsInv(st, policy, expected, actor, admin);
  }

  /** Every run of recordings and commits keeps the commits a partition of the log. */
  lemma {:induction false} RunKeepsInv(st: Store, events: seq<Event>)
    requires Inv(st)
    ensures Inv(Run(st, events))
    decreases |events|
  {
    if events != [] {
      StepKeepsInv(st, events[0]);
      RunKeepsInv(Step(st, events[0]), events[1..]);
    }
  }

  /** In particular every run of a new workspace. */
  lemma HistoryHolds(events: seq<Event>)
    ensures Inv(Run(EMPTY, events))
  {
    EmptyInv();
    RunKeepsInv(EMPTY, events);
  }

  lemma StepKeepsCommits(st: Store, e: Event)
    requires Inv(st)
    ensures st.commits <= Step(st, e).commits
    ensures Agree(st.log, Step(st, e).log, Base(st.commits))
    ensures Base(st.commits) <= Base(Step(st, e).commits)
  {
    StepKeepsInv(st, e);
    match e
    case Recorded(key, operation, snapshot, author) => RecordKeepsInv(st, key, operation, snapshot, author);
    case Bootstrapped =>
    case Committed(policy, expected, actor, admin) =>
      if Refusal(st, policy, expected, actor, admin).None? {
        LatestIsLast(st.commits, st.head);
        SquashAgrees(st.log, Base(st.commits), st.head, st.nextId, actor);
      }
  }

  /** What a commit exports never changes, whatever is recorded, squashed or committed later;
      neither does the commit. */
  lemma {:induction false} CommitsAreImmutable(st: Store, events: seq<Event>, i: nat, key: Key)
    requires Inv(st) && i < |st.commits|
    ensures st.commits <= Run(st, events).commits
    ensures ExportAt(Run(st, events).log, st.commits[i].head, key) == ExportAt(st.log, st.commits[i].head, key)
    decreases |events|
  {
    if events != [] {
      var next := Step(st, events[0]);
      StepKeepsInv(st, events[0]);
      StepKeepsCommits(st, events[0]);
      assert Before(st.commits, i, |st.commits| - 1);
      AgreeingExports(st.log, next.log, Base(st.commits), st.commits[i].head, key);
      assert next.commits[i] == st.commits[i];
      CommitsAreImmutable(next, events[1..], i, key);
    }
  }

  /** A new commit, squashed or not, exports what the workspace showed when it was created and
      leaves nothing pending. */
  lemma CommitExportsHead(st: Store, policy: string, expected: nat, actor: string, admin: bool, key: Key)
    requires Inv(st) && Refusal(st, policy, expected, actor, admin).None?
    ensures var next := Create(st, policy, expected, actor, admin);
      && next.head == st.head && Base(next.commits) == st.head
      && ExportAt(next.log, st.head, key) == ExportAt(st.log, st.head, key)
      && Pending(next.log, st.head, next.head) == []
  {
    CreateIs(st, policy, expected, actor, admin);
    SelectedExportsHead(st, policy, actor, st.nextId + st.head + 1, key);
  }

  lemma SelectedExportsHead(st: Store, policy: string, actor: string, id: nat, key: Key)
    requires Splits(st.log, Base(st.commits), st.head)
    ensures ExportAt(Attach(Selected(st, policy, actor), Base(st.commits), id), st.head, key)
        == ExportAt(st.log, st.head, key)
  {
    var base, selected := Base(st.commits), Selected(st, policy, actor);
    if policy == "squash" { SquashKeepsHead(st.log, base, st.head, st.nextId, actor, st.head, key); }
    AttachIsAlike(selected, base, id);
    AlikeExports(selected, Attach(selected, base, id), st.head, key);
  }

  /** Each committed revision lies in the range of exactly one commit. */
  lemma {:induction false} CommitsPartition(st: Store, s: nat, n: nat) returns (i: nat)
    requires Inv(st) && s in st.log && 0 < n <= |st.commits| && s <= st.commits[n - 1].head
    ensures i < n && st.commits[i].base < s <= st.commits[i].head && st.log[s].commit == Some(st.commits[i].id)
    ensures forall j | 0 <= j < |st.commits| && st.commits[j].base < s <= st.commits[j].head :: j == i
  {
    assert Follows(st.commits, n - 1) && PlacedAt(st.log, st.commits, n - 1, s);
    if s > st.commits[n - 1].base {
      i := n - 1;
      forall j | 0 <= j < |st.commits| && st.commits[j].base < s <= st.commits[j].head ensures j == i {
        assert Before(st.commits, i, j) && Before(st.commits, j, i);
      }
    } else {
      i := CommitsPartition(st, s, n - 1);
    }
  }
}
