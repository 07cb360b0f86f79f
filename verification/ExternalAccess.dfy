/**
 The grants one user holds and the watermark of the last token they were derived from, after
 internal/usecase/access_control/external.go and the access repositories of
 internal/repo/postgres.  A resolution holds the user's row lock, so it is one step.
 */
module ExternalAccess {
  import opened Wrappers
  import opened Json
  import opened Policy

  datatype Target = Platform | Workspace(id: nat)

  datatype Entry = Entry(id: nat, active: bool)

  /** The workspaces that are not deleted, by identity. */
  type Directory = map<string, Entry>

  /** A local change empties `config` and keeps the rest.  `hashed` are the mapped grants whose
      hash is stored; the hash tells lists of grants apart. */
  datatype Watermark = Watermark(config: string, token: string, issued: int, hashed: seq<Grant>)

  /** `roles` are the stored grants, `members` the workspace memberships kept beside them.
      `applied` and `basis` record, for the statements only, the mapped grants of the last write
      and the directory they were resolved in. */
  datatype State = State(
    roles: map<Target, string>, members: map<nat, string>, mark: Option<Watermark>, directory: Directory,
    applied: seq<Grant>, basis: Directory)

  datatype Snapshot = Snapshot(config: string, issued: Option<int>, token: string, expires: int, grants: seq<Grant>)

  /** What the call reads besides the tables: the policy's version and provider check, the clock
      on entry and inside the transaction, and the flags of the user's row. */
  datatype Call = Call(version: string, providerMatches: bool, entered: int, locked: int, userActive: bool,
      userSystem: bool)

  datatype Error =
    | Invalid | Expired | WorkspaceNotFound | WorkspaceInactive | Stale | Ambiguous | UserNotGrantable

  // ---------------------------------------------------------------- mapped grants

  predicate IsPlatform(g: Grant) { g.scope == "platform" }

  /** The first mapped grant whose workspace is missing or inactive. */
  function Unresolved(directory: Directory, grants: seq<Grant>): Option<Error> {
    if grants == [] then None
    else
      var earlier, last := Unresolved(directory, grants[..|grants| - 1]), grants[|grants| - 1];
      if earlier.Some? then earlier
      else if IsPlatform(last) then None
      else if last.workspace !in directory then Some(WorkspaceNotFound)
      else if !directory[last.workspace].active then Some(WorkspaceInactive)
      else None
  }

  /** The grants the mapped ones stand for: platform grants are always admin. */
  function Assigned(directory: Directory, grants: seq<Grant>): map<Target, string> {
    if grants == [] then map[]
    else
      var rest, last := Assigned(directory, grants[..|grants| - 1]), grants[|grants| - 1];
      if IsPlatform(last) then rest[Platform := "admin"]
      else if last.workspace in directory then rest[Workspace(directory[last.workspace].id) := last.role]
      else rest
  }

  function MembersOf(roles: map<Target, string>): map<nat, string> {
    map t | t in roles && t.Workspace? :: t.id := roles[t]
  }

  predicate HasPlatform(grants: seq<Grant>) { exists i :: 0 <= i < |grants| && IsPlatform(grants[i]) }

  // ---------------------------------------------------------------- steps

  /** Whether the stored grants may stay as they are. */
  predicate UpToDate(mark: Watermark, next: Watermark) {
    next.config == mark.config && next.issued == mark.issued && next.hashed == mark.hashed
  }

  /** The refusals of the watermark. */
  function Refused(mark: Option<Watermark>, next: Watermark): Option<Error> {
    if mark.None? then None
    else if next.issued < mark.value.issued then Some(Stale)
    else if next.config == mark.value.config && next.issued == mark.value.issued
            && next.token != mark.value.token && next.hashed != mark.value.hashed then Some(Ambiguous)
    else None
  }

  /** The outcome of resolveExternalActor: the new state and whether the user is a platform
      administrator. */
  function Resolve(st: State, snapshot: Snapshot, call: Call): Result<(State, bool), Error> {
    if snapshot.config != call.version || !call.providerMatches || snapshot.issued.None? || snapshot.token == ""
       || snapshot.expires <= call.entered then Failure(Invalid)
    else if !call.userActive then Success((st, false))
    else if snapshot.expires <= call.locked then Failure(Expired)
    else if Unresolved(st.directory, snapshot.grants).Some?
        then Failure(Unresolved(st.directory, snapshot.grants).value)
    else
      var next := Watermark(snapshot.config, snapshot.token, snapshot.issued.value, snapshot.grants);
      if Refused(st.mark, next).Some? then Failure(Refused(st.mark, next).value)
      else if st.mark.Some? && UpToDate(st.mark.value, next) then Success((st, HasPlatform(snapshot.grants)))
      else if call.userSystem && snapshot.grants != [] then Failure(UserNotGrantable)
      else
        var roles := Assigned(st.directory, snapshot.grants);
        Success((State(roles, MembersOf(roles), Some(next), st.directory, snapshot.grants, st.directory),
            HasPlatform(snapshot.grants)))
  }

  /** Local changes invalidate the watermark but keep its time. */
  function Invalidate(mark: Option<Watermark>): Option<Watermark> {
    if mark.Some? then Some(mark.value.(config := "")) else None
  }

  /** UpsertAccessGrant and PutMembership. */
  function Allow(st: State, target: Target, role: string): State {
    match target
    case Platform => st.(roles := st.roles[Platform := "admin"], mark := Invalidate(st.mark))
    case Workspace(id) =>
      st.(roles := st.roles[target := role], members := st.members[id := role], mark := Invalidate(st.mark))
  }

  /** DeleteAccessGrant and DeleteMembership. */
  function Revoke(st: State, target: Target): State {
    match target
    case Platform => st.(roles := st.roles - {Platform}, mark := Invalidate(st.mark))
    case Workspace(id) => st.(roles := st.roles - {target}, members := st.members - {id}, mark := Invalidate(st.mark))
  }

  datatype Event =
    | Resolved(snapshot: Snapshot, call: Call)
    | Allowed(target: Target, role: string)
    | Revoked(target: Target)
    | Renamed(directory: Directory) // workspaces were created, deleted, restored, renamed or switched

  /** A failed resolution is rolled back. */
  function Step(st: State, e: Event): State {
    match e
    case Resolved(snapshot, call) =>
      var result := Resolve(st, snapshot, call);
      if result.Success? then result.value.0 else st
    case Allowed(target, role) => Allow(st, target, role)
    case Revoked(target) => Revoke(st, target)
    case Renamed(directory) => st.(directory := directory)
  }

  const INITIAL := State(map[], map[], None, map[], [], map[])

  /** A workspace has one identity. */
  ghost predicate OneName(directory: Directory) {
    forall a, b | a in directory && b in directory && a != b :: directory[a].id != directory[b].id
  }

  /** What can happen: policies have a version, workspaces one identity. */
  ghost predicate Possible(e: Event) {
    (e.Resolved? ==> e.call.version != "") && (e.Renamed? ==> OneName(e.directory))
  }

  ghost predicate IsRun(states: seq<State>, events: seq<Event>) {
    && |states| == |events| + 1
    && forall k | 0 <= k < |events| :: Possible(events[k]) && states[k + 1] == Step(states[k], events[k])
  }

  // ---------------------------------------------------------------- invariant

  /** While the watermark names a configuration, the stored grants are those its hash was taken
      of, and memberships always mirror the workspace grants. */
  ghost predicate Inv(st: State) {
    && (st.mark.Some? && st.mark.value.config != "" ==>
          st.mark.value.hashed == st.applied && st.roles == Assigned(st.basis, st.applied))
    && st.members == MembersOf(st.roles)
    && OneName(st.directory) && OneName(st.basis)
  }

  lemma MembersAfterAllow(roles: map<Target, string>, id: nat, role: string)
    ensures MembersOf(roles[Workspace(id) := role]) == MembersOf(roles)[id := role]
    ensures MembersOf(roles[Platform := role]) == MembersOf(roles)
  {
  }

  lemma MembersAfterRevoke(roles: map<Target, string>, id: nat)
    ensures MembersOf(roles - {Workspace(id)}) == MembersOf(roles) - {id}
    ensures MembersOf(roles - {Platform}) == MembersOf(roles)
  {
  }

  lemma EditKeepsInv(st: State, target: Target, role: string)
    requires Inv(st)
    ensures Inv(Allow(st, target, role)) && Inv(Revoke(st, target))
  {
    MembersAfterAllow(st.roles, if target.Workspace? then target.id else 0, if target.Workspace? then role
        else "admin");
    MembersAfterRevoke(st.roles, if target.Workspace? then target.id else 0);
  }

  lemma StepKeepsInv(st: State, e: Event)
    requires Inv(st) && Possible(e)
    ensures Inv(Step(st, e))
    ensures st.mark.Some? ==> Step(st, e).mark.Some? && st.mark.value.issued <= Step(st, e).mark.value.issued
  {
    match e
    case Allowed(target, role) => EditKeepsInv(st, target, role);
    case Revoked(target) => EditKeepsInv(st, target, "");
    case _ =>
  }

  /** Over any run of resolutions, local edits and changes to the directory the watermark's time
      never goes back and a named configuration vouches for the stored grants. */
  lemma {:induction false} RunKeepsInv(states: seq<State>, events: seq<Event>, j: nat, k: nat)
    requires IsRun(states, events) && Inv(states[0]) && j <= k < |states|
    ensures Inv(states[k])
    ensures states[j].mark.Some? ==> states[k].mark.Some? && states[j].mark.value.issued <= states[k].mark.value.issued
  {
    if k > 0 {
      RunKeepsInv(states, events, if j < k then j else k - 1, k - 1);
      StepKeepsInv(states[k - 1], events[k - 1]);
    }
  }

  /** A token is never accepted after a newer one, in whatever order they arrive. */
  lemma StaleForEver(states: seq<State>, events: seq<Event>, j: nat, k: nat, snapshot: Snapshot, call: Call)
    requires IsRun(states, events) && Inv(states[0]) && j <= k < |states|
    requires states[j].mark.Some? && snapshot.issued.Some? && snapshot.issued.value < states[j].mark.value.issued &&
        call.userActive
    ensures Resolve(states[k], snapshot, call).Failure?
  {
    RunKeepsInv(states, events, j, k);
  }

  // ---------------------------------------------------------------- accepted resolutions

  /** The listed workspaces have the identifiers they had. */
  predicate SameWorkspaces(before: Directory, now: Directory, grants: seq<Grant>) {
    forall i | 0 <= i < |grants| && !IsPlatform(grants[i]) ::
      grants[i].workspace in before && grants[i].workspace in now &&
          before[grants[i].workspace].id == now[grants[i].workspace].id
  }

  lemma {:induction false} AssignedTheSame(before: Directory, now: Directory, grants: seq<Grant>)
    requires SameWorkspaces(before, now, grants)
    ensures Assigned(before, grants) == Assigned(now, grants)
  {
    if grants != [] {
      assert forall i | 0 <= i < |grants| - 1 :: grants[..|grants| - 1][i] == grants[i];
      AssignedTheSame(before, now, grants[..|grants| - 1]);
    }
  }

  lemma {:induction false} AssignedPlatform(directory: Directory, grants: seq<Grant>)
    ensures Platform in Assigned(directory, grants) <==> HasPlatform(grants)
  {
    if grants != [] {
      var rest := grants[..|grants| - 1];
      AssignedPlatform(directory, rest);
      if HasPlatform(rest) {
        var i :| 0 <= i < |rest| && IsPlatform(rest[i]);
        assert IsPlatform(grants[i]);
      }
      if HasPlatform(grants) && !IsPlatform(grants[|grants| - 1]) {
        var i :| 0 <= i < |grants| && IsPlatform(grants[i]);
        assert IsPlatform(rest[i]);
      }
    }
  }

  /** An accepted resolution of an active user, with or without a write, leaves exactly the
      snapshot's grants, and the platform flag it returns is the stored one; on the path without
      a write this needs the listed workspaces not to have been renamed since the last write. */
  lemma AcceptedIsExact(st: State, snapshot: Snapshot, call: Call)
    requires Inv(st) && call.version != "" && call.userActive
    requires Resolve(st, snapshot, call).Success?
    ensures var (next, platform) := Resolve(st, snapshot, call).value;
      && next.mark.Some? && next.mark.value.config == snapshot.config && next.applied == snapshot.grants
      && (next.basis == st.directory || SameWorkspaces(st.basis, st.directory, snapshot.grants) ==>
            next.roles == Assigned(st.directory, snapshot.grants) &&
                next.members == MembersOf(Assigned(st.directory, snapshot.grants)))
      && (platform <==> Platform in next.roles)
  {
    var (next, platform) := Resolve(st, snapshot, call).value;
    AssignedPlatform(st.directory, snapshot.grants);
    AssignedPlatform(st.basis, snapshot.grants);
    if next.roles == st.roles && SameWorkspaces(st.basis, st.directory, snapshot.grants) {
      AssignedTheSame(st.basis, st.directory, snapshot.grants);
    }
  }

  /** No two grants are for the same thing. */
  ghost predicate DistinctTargets(grants: seq<Grant>) {
    forall i, j | 0 <= i < j < |grants| :: !SameTarget(grants[i], grants[j])
  }

  predicate SameTarget(a: Grant, b: Grant) {
    if IsPlatform(a) then IsPlatform(b) else !IsPlatform(b) && a.workspace == b.workspace
  }

  /** Grants mapped by a validated policy are distinct. */
  lemma MappedAreDistinct(claims: Json, rules: seq<Rule>, mapped: seq<Grant>)
    requires Listed(Best(Granted(claims, rules)), mapped)
    requires forall rule | rule in rules :: ValidGrant(rule.grant)
    ensures DistinctTargets(mapped)
  {
    MapIsMaximal(claims, rules, mapped);
    forall i, j | 0 <= i < j < |mapped| ensures !SameTarget(mapped[i], mapped[j]) {
      assert Gives(claims, rules, mapped[i]) && Gives(claims, rules, mapped[j]);
      assert KeyOf(mapped[i]) != KeyOf(mapped[j]);
    }
  }

  predicate Resolvable(directory: Directory, g: Grant) { IsPlatform(g) || g.workspace in directory }

  /** The stored row one mapped grant stands for. */
  function RowOf(directory: Directory, g: Grant): (Target, string)
    requires Resolvable(directory, g)
  {
    if IsPlatform(g) then (Platform, "admin") else (Workspace(directory[g.workspace].id), g.role)
  }

  /** The workspaces and roles the mapped grants name in a directory. */
  ghost function Pairs(directory: Directory, grants: seq<Grant>): set<(Target, string)> {
    set i | 0 <= i < |grants| && Resolvable(directory, grants[i]) :: RowOf(directory, grants[i])
  }

  lemma PairsLast(directory: Directory, grants: seq<Grant>)
    requires grants != []
    ensures var rest, last := grants[..|grants| - 1], grants[|grants| - 1];
      Pairs(directory, grants) == Pairs(directory, rest) + if Resolvable(directory, last)
          then {RowOf(directory, last)} else {}
  {
    var rest := grants[..|grants| - 1];
    forall pair | pair in Pairs(directory, rest) ensures pair in Pairs(directory, grants) {
      var i :| 0 <= i < |rest| && Resolvable(directory, rest[i]) && RowOf(directory, rest[i]) == pair;
      assert grants[i] == rest[i];
    }
    forall pair | pair in Pairs(directory, grants)
      ensures pair in Pairs(directory, rest) ||
          (Resolvable(directory, grants[|rest|]) && pair == RowOf(directory, grants[|rest|]))
    {
      var i :| 0 <= i < |grants| && Resolvable(directory, grants[i]) && RowOf(directory, grants[i]) == pair;
      if i < |rest| { assert rest[i] == grants[i]; }
    }
  }

  /** Distinct grants are stored row by row. */
  lemma {:induction false} AssignedIs(directory: Directory, grants: seq<Grant>)
    requires OneName(directory) && DistinctTargets(grants)
    ensures forall target, role ::
      (target, role) in Pairs(directory, grants) <==>
      target in Assigned(directory, grants) && Assigned(directory, grants)[target] == role
  {
    if grants != [] {
      var rest, last := grants[..|grants| - 1], grants[|grants| - 1];
      AssignedIs(directory, rest);
      PairsLast(directory, grants);
      if Resolvable(directory, last) { NewTarget(directory, grants); }
    }
  }

  lemma NewTarget(directory: Directory, grants: seq<Grant>)
    requires OneName(directory) && DistinctTargets(grants) && grants != [] &&
        Resolvable(directory, grants[|grants| - 1])
    ensures forall pair | pair in Pairs(directory, grants[..|grants| - 1]) ::
        pair.0 != RowOf(directory, grants[|grants| - 1]).0
  {
    var rest, last := grants[..|grants| - 1], grants[|grants| - 1];
    forall i | 0 <= i < |rest| && Resolvable(directory, rest[i])
        ensures RowOf(directory, rest[i]).0 != RowOf(directory, last).0
    {
      assert !SameTarget(grants[i], last);
    }
  }

  lemma AssignedExactly(a: Directory, b: Directory, grants: seq<Grant>)
    requires OneName(a) && OneName(b) && DistinctTargets(grants)
    ensures Assigned(a, grants) == Assigned(b, grants) <==> Pairs(a, grants) == Pairs(b, grants)
  {
    AssignedIs(a, grants);
    AssignedIs(b, grants);
    if Assigned(a, grants) == Assigned(b, grants) {
      forall pair ensures pair in Pairs(a, grants) <==> pair in Pairs(b, grants) { assert pair == (pair.0, pair.1); }
    }
    if Pairs(a, grants) == Pairs(b, grants) {
      var x, y := Assigned(a, grants), Assigned(b, grants);
      forall target ensures (target in x <==> target in y) && (target in x && target in y ==> x[target] == y[target]) {
        if target in x { assert (target, x[target]) in Pairs(b, grants); }
        if target in y { assert (target, y[target]) in Pairs(a, grants); }
      }
    }
  }

  /** The resolution takes the path that writes. */
  predicate Writes(st: State, snapshot: Snapshot)
    requires snapshot.issued.Some?
  {
    st.mark.None? || !UpToDate(st.mark.value,
        Watermark(snapshot.config, snapshot.token, snapshot.issued.value, snapshot.grants))
  }

  /** An accepted resolution leaves exactly the mapped grants if and only if it writes, or the
      workspaces and roles the snapshot names are those it named at the last write. */
  lemma ExactExactly(st: State, snapshot: Snapshot, call: Call)
    requires Inv(st) && call.version != "" && call.userActive && DistinctTargets(snapshot.grants)
    requires Resolve(st, snapshot, call).Success?
    ensures Resolve(st, snapshot, call).value.0.roles == Assigned(st.directory, snapshot.grants)
       <==> Writes(st, snapshot) || Pairs(st.basis, snapshot.grants) == Pairs(st.directory, snapshot.grants)
  {
    AssignedExactly(st.basis, st.directory, snapshot.grants);
    AcceptedRoles(st, snapshot, call);
  }

  lemma AcceptedRoles(st: State, snapshot: Snapshot, call: Call)
    requires Inv(st) && call.version != "" && call.userActive && Resolve(st, snapshot, call).Success?
    ensures Resolve(st, snapshot, call).value.0.roles
        == Assigned(if Writes(st, snapshot) then st.directory else st.basis, snapshot.grants)
  {
  }

  /** After a local edit the next accepted resolution writes, whatever its token. */
  lemma EditForcesWrite(st: State, target: Target, role: string, snapshot: Snapshot, call: Call)
    requires call.version != "" && call.userActive
    ensures var edited := Allow(st, target, role);
      Resolve(edited, snapshot, call).Success? ==>
        Resolve(edited, snapshot, call).value.0.roles == Assigned(st.directory, snapshot.grants)
    ensures Resolve(Revoke(st, target), snapshot, call).Success? ==>
        Resolve(Revoke(st, target), snapshot, call).value.0.roles == Assigned(st.directory, snapshot.grants)
  {
  }

  function RunOf(st: State, events: seq<Event>): seq<State>
    decreases |events|
  {
    if events == [] then [st] else [st] + RunOf(Step(st, events[0]), events[1..])
  }

  lemma {:induction false} RunOfIsRun(st: State, events: seq<Event>)
    requires forall k | 0 <= k < |events| :: Possible(events[k])
    ensures IsRun(RunOf(st, events), events) && RunOf(st, events)[0] == st
    decreases |events|
  {
    if events != [] {
      var rest := RunOf(Step(st, events[0]), events[1..]);
      RunOfIsRun(Step(st, events[0]), events[1..]);
      forall k | 0 <= k < |events| ensures Possible(events[k]) &&
          RunOf(st, events)[k + 1] == Step(RunOf(st, events)[k], events[k])
      {
        if k > 0 { assert events[1..][k - 1] == events[k] && rest[k] == Step(rest[k - 1], events[k]); }
      }
    }
  }

  const VIEWER := Policy.Grant("workspace", "a", "viewer")
  const TOKEN := Snapshot("v", Some(5), "t", 9, [VIEWER])
  const NOW := Call("v", true, 6, 7, true, false)

  /** A run in which it fails: a token grants a role in the workspace named "a", the workspace is
      renamed and another one takes its name, and the same token is resolved again.  It is
      accepted, and the user keeps the role in the first workspace and has none in the second. */
  lemma RenameIsMissed()
    ensures var first, second := map["a" := Entry(1, true)], map["a" := Entry(2, true), "b" := Entry(1, true)];
      var events := [Renamed(first), Resolved(TOKEN, NOW), Renamed(second), Resolved(TOKEN, NOW)];
      var states := RunOf(INITIAL, events);
      && IsRun(states, events) && states[0] == INITIAL && |states| == 5
      && Resolve(states[3], TOKEN, NOW) == Success((states[4], false))
      && states[4].roles == map[Workspace(1) := "viewer"]
      && Assigned(states[4].directory, TOKEN.grants) == map[Workspace(2) := "viewer"]
  {
    var first: Directory, second: Directory := map["a" := Entry(1, true)],
        map["a" := Entry(2, true), "b" := Entry(1, true)];
    var events := [Renamed(first), Resolved(TOKEN, NOW), Renamed(second), Resolved(TOKEN, NOW)];
    RunOfIsRun(INITIAL, events);
    ViewerIn(first, 1);
    ViewerIn(second, 2);
    FirstTokenWrites(first);
    SameTokenKeeps(second, first);
    var states := RunOf(INITIAL, events);
    assert states[1] == Step(states[0], events[0]) == INITIAL.(directory := first);
    assert states[2] == Step(states[1], events[1]) == Synchronized(first, first);
    assert states[3] == Step(states[2], events[2]) == Synchronized(second, first);
    assert states[4] == Step(states[3], events[3]) == Synchronized(second, first);
  }

  /** What the token leaves when the workspace named "a" is the first. */
  function Synchronized(directory: Directory, basis: Directory): State {
    State(map[Workspace(1) := "viewer"], MembersOf(map[Workspace(1) := "viewer"]),
        Some(Watermark("v", "t", 5, [VIEWER])), directory, [VIEWER], basis)
  }

  lemma FirstTokenWrites(first: Directory)
    requires "a" in first && first["a"] == Entry(1, true)
    ensures Resolve(INITIAL.(directory := first), TOKEN, NOW) == Success((Synchronized(first, first), false))
  {
    ViewerIn(first, 1);
  }

  lemma SameTokenKeeps(second: Directory, first: Directory)
    requires "a" in second && second["a"] == Entry(2, true)
    ensures Resolve(Synchronized(second, first), TOKEN, NOW) == Success((Synchronized(second, first), false))
  {
    ViewerIn(second, 2);
  }

  lemma ViewerIn(directory: Directory, id: nat)
    requires "a" in directory && directory["a"] == Entry(id, true)
    ensures Unresolved(directory, [VIEWER]).None? && !HasPlatform([VIEWER])
    ensures Assigned(directory, [VIEWER]) == map[Workspace(id) := "viewer"]
  {
    assert [VIEWER][..0] == [];
    assert VIEWER.scope[0] != 'p' && "platform"[0] == 'p';
  }
}
