/**
 The revision log of one workspace with its commits, after internal/usecase/history,
 internal/usecase/commits and internal/repo/postgres/commits_repository.go.  The log maps a
 workspace sequence to the revision recorded under it; creating a commit is one step.
 */
module RevisionLog {
  import opened Wrappers

  datatype Key = Key(kind: string, id: string)

  /** `number` counts the revisions of one document; `contributors` are the users a squashed
      revision also stands for. */
  datatype Revision = Revision(
    id: nat, key: Key, number: nat, operation: string, parent: Option<nat>, commit: Option<nat>,
    snapshot: string, author: string, contributors: set<string>)

  type Log = map<nat, Revision>

  datatype Change = Change(before: Option<nat>, after: nat, operation: string)

  datatype Commit = Commit(id: nat, parent: Option<nat>, base: nat, head: nat, policy: string,
      changes: map<Key, Change>)

  /** `numbers` holds the revision counter of each document row; identifiers below `nextId`
      have been handed out. */
  datatype Store = Store(head: nat, log: Log, commits: seq<Commit>, numbers: map<Key, nat>, nextId: nat)

  const EMPTY := Store(0, map[], [], map[], 0)

  // ---------------------------------------------------------------- reading the log

  predicate Records(log: Log, s: nat, key: Key) { s in log && log[s].key == key }

  /** The last sequence up to `h` that recorded `key`. */
  function Latest(log: Log, h: nat, key: Key): (s: Option<nat>)
    ensures s.Some? ==> 0 < s.value <= h && Records(log, s.value, key)
    ensures forall t | 0 < t <= h && Records(log, t, key) :: s.Some? && t <= s.value
  {
    if h == 0 then None
    else if Records(log, h, key) then Some(h)
    else Latest(log, h - 1, key)
  }

  /** The sequence that holds the highest revision number of `key`. */
  function HighestNumber(log: Log, h: nat, key: Key): (s: Option<nat>)
    ensures s.Some? ==> 0 < s.value <= h && Records(log, s.value, key)
    ensures forall t | 0 < t <= h && Records(log, t, key) :: s.Some? && log[t].number <= log[s.value].number
  {
    if h == 0 then None
    else
      var rest := HighestNumber(log, h - 1, key);
      if Records(log, h, key) && (rest.None? || log[h].number >= log[rest.value].number) then Some(h) else rest
  }

  /** The last committed sequence up to `h` that recorded `key`. */
  function LatestCommitted(log: Log, h: nat, key: Key): (s: Option<nat>)
    ensures s.Some? ==> 0 < s.value <= h && Records(log, s.value, key) && log[s.value].commit.Some?
  {
    if h == 0 then None
    else if Records(log, h, key) && log[h].commit.Some? then Some(h)
    else LatestCommitted(log, h - 1, key)
  }

  function IdAt(log: Log, s: Option<nat>): Option<nat> {
    if s.Some? && s.value in log then Some(log[s.value].id) else None
  }

  /** What an export at `h` takes for `key`: the snapshot of its latest revision. */
  function ExportAt(log: Log, h: nat, key: Key): Option<string> {
    var s := Latest(log, h, key);
    if s.Some? then Some(log[s.value].snapshot) else None
  }

  predicate IsPending(log: Log, base: nat, s: nat) { s in log && s > base && log[s].commit.None? }

  /** The pending sequences up to `h`, in order. */
  function Pending(log: Log, base: nat, h: nat): (items: seq<nat>)
    ensures forall s | s in items :: s <= h && IsPending(log, base, s)
    decreases h
  {
    if h <= base then []
    else
      var rest := Pending(log, base, h - 1);
      if IsPending(log, base, h) then rest + [h] else rest
  }

  /** Pending lists every pending sequence, in strictly rising order. */
  lemma {:induction false} PendingRises(log: Log, base: nat, h: nat)
    ensures forall s: nat | s <= h && IsPending(log, base, s) :: s in Pending(log, base, h)
    ensures forall i, j | 0 <= i < j < |Pending(log, base, h)| :: Pending(log, base, h)[i] < Pending(log, base, h)[j]
    decreases h
  {
    if h > base {
      PendingRises(log, base, h - 1);
      var rest := Pending(log, base, h - 1);
      forall i | 0 <= i < |rest| ensures rest[i] < h { assert rest[i] in rest; }
    }
  }

  /** The pending sequences of one document. */
  function Group(log: Log, base: nat, key: Key): set<nat>
  {
    set s | s in log && IsPending(log, base, s) && log[s].key == key
  }

  predicate IsLast(log: Log, base: nat, s: nat) {
    IsPending(log, base, s) && forall t | t in log && IsPending(log, base, t) && log[t].key == log[s].key :: t <= s
  }

  // ---------------------------------------------------------------- recording

  function NumberOf(st: Store, key: Key): nat { if key in st.numbers then st.numbers[key] else 0 }

  /** A document write followed by RecordDocument: the row's revision counter grows by one. */
  function Record(st: Store, key: Key, operation: string, snapshot: string, author: string): Store {
    var sequence, number := st.head + 1, NumberOf(st, key) + 1;
    var parent := IdAt(st.log, HighestNumber(st.log, st.head, key));
    Store(sequence, st.log[sequence := Revision(st.nextId, key, number, operation, parent, None, snapshot, author, {})],
          st.commits, st.numbers[key := number], st.nextId + 1)
  }

  // ---------------------------------------------------------------- squash

  function Contributors(log: Log, group: set<nat>): set<string> {
    set s, u | s in group && s in log && u in log[s].contributors + {log[s].author} :: u
  }

  /** The revision that replaces the group whose last revision has sequence `s`; its fresh
      identifier is the first free one above every identifier and sequence in use. */
  function Squashed(log: Log, base: nat, s: nat, nextId: nat, actor: string): Revision
    requires s in log
  {
    var r := log[s];
    r.(id := nextId + s, operation := "squash", parent := IdAt(log, LatestCommitted(log, base, r.key)),
       author := actor, contributors := Contributors(log, Group(log, base, r.key)))
  }

  function Squash(log: Log, base: nat, nextId: nat, actor: string): Log {
    map s | s in log && (IsPending(log, base, s) ==> IsLast(log, base, s)) ::
      if IsPending(log, base, s) then Squashed(log, base, s, nextId, actor) else log[s]
  }

  // ---------------------------------------------------------------- commit

  /** Per document the parent of its first listed revision and its last listed revision. */
  function Spans(log: Log, items: seq<nat>): map<Key, Change>
    requires forall s | s in items :: s in log
  {
    if items == [] then map[]
    else
      var rest, r := Spans(log, items[..|items| - 1]), log[items[|items| - 1]];
      rest[r.key := Change(if r.key in rest then rest[r.key].before else r.parent, r.id, r.operation)]
  }

  function Attach(log: Log, base: nat, commit: nat): Log {
    map s | s in log :: if IsPending(log, base, s) then log[s].(commit := Some(commit)) else log[s]
  }

  datatype CommitError = PolicyInvalid | NotFound | HeadConflict | NothingToCommit | SquashForbidden

  /** The commit of the workspace with the highest head. */
  function LatestCommit(commits: seq<Commit>): (c: Commit)
    requires commits != []
    ensures c in commits && forall d | d in commits :: d.head <= c.head
  {
    var last := commits[|commits| - 1];
    if |commits| == 1 then last
    else
      var c := LatestCommit(commits[..|commits| - 1]);
      if last.head >= c.head then last else c
  }

  /** The refusals of Create, in its order; `expected` is the head the caller previewed. */
  function Refusal(st: Store, policy: string, expected: nat, actor: string, admin: bool): Option<CommitError> {
    if policy != "" && policy != "preserve" && policy != "squash" then Some(PolicyInvalid)
    else if st.commits == [] then Some(NotFound)
    else
      var pending := Pending(st.log, LatestCommit(st.commits).head, st.head);
      if expected != st.head then Some(HeadConflict)
      else if pending == [] then Some(NothingToCommit)
      else if policy == "squash" && !admin && exists s | s in pending ::
          st.log[s].author != actor then Some(SquashForbidden)
      else None
  }

  /** Appends the commit of everything pending above `base` in the log `selected`. */
  function Seal(st: Store, selected: Log, parent: Option<nat>, base: nat, head: nat, policy: string): Store {
    var id := st.nextId + st.head + 1;
    var commit := Commit(id, parent, base, head, policy, Spans(selected, Pending(selected, base, head)));
    st.(log := Attach(selected, base, id), commits := st.commits + [commit], nextId := id + 1)
  }

  function Create(st: Store, policy: string, expected: nat, actor: string, admin: bool): Store {
    if Refusal(st, policy, expected, actor, admin).Some? then st
    else
      var latest := LatestCommit(st.commits);
      var selected := if policy == "squash" then Squash(st.log, latest.head, st.nextId, actor) else st.log;
      Seal(st, selected, Some(latest.id), latest.head, st.head, if policy == "" then "preserve" else policy)
  }

  /** The commit a new workspace starts with: everything recorded so far. */
  function Bootstrap(st: Store): Store {
    var pending := Pending(st.log, 0, st.head);
    Seal(st, st.log, None, 0, if pending == [] then 0 else pending[|pending| - 1], "preserve")
  }
}
