/** The resolution of an external actor on the stored tables, proved against ExternalAccess. */
module AccessControl {
  import opened Wrappers
  import opened Policy
  import opened ExternalAccess

  datatype Input = Input(target: Target, role: string)

  /** The writes of the listed inputs, one after the other. */
  function Written(inputs: seq<Input>): map<Target, string> {
    if inputs == [] then map[]
    else
      var last := inputs[|inputs| - 1];
      Written(inputs[..|inputs| - 1])[last.target := Stored(last.target, last.role)]
  }

  /** Platform grants are always stored as admin. */
  function Stored(target: Target, role: string): string { if target.Platform? then "admin" else role }

  lemma {:induction false} FirstUnresolvedDecides(directory: Directory, grants: seq<Grant>, n: nat)
    requires n <= |grants| && Unresolved(directory, grants[..n]).Some?
    ensures Unresolved(directory, grants) == Unresolved(directory, grants[..n])
    decreases |grants|
  {
    if n == |grants| {
      assert grants[..n] == grants;
    } else {
      assert grants[..|grants| - 1][..n] == grants[..n];
      FirstUnresolvedDecides(directory, grants[..|grants| - 1], n);
    }
  }

  /** The loop over the mapped grants. */
  method Prepare(directory: Directory, grants: seq<Grant>)
      returns (inputs: seq<Input>, platform: bool, error: Option<Error>)
    ensures error == Unresolved(directory, grants)
    ensures error.None? ==>
        && Written(inputs) == Assigned(directory, grants) && (platform <==> HasPlatform(grants))
        && (inputs == [] <==> grants == [])
  {
    inputs, platform := [], false;
    for i := 0 to |grants|
      invariant Unresolved(directory, grants[..i]).None? && |inputs| == i
      invariant Written(inputs) == Assigned(directory, grants[..i])
      invariant platform <==> HasPlatform(grants[..i])
    {
      var mapped := grants[i];
      assert grants[..i + 1][..i] == grants[..i];
      PlatformSoFar(grants, i);
      var target := Platform;
      if mapped.scope == "platform" {
        platform := true;
      } else {
        if mapped.workspace !in directory {
          FirstUnresolvedDecides(directory, grants, i + 1);
          return inputs, platform, Some(WorkspaceNotFound);
        }
        var workspace := directory[mapped.workspace];
        if !workspace.active {
          FirstUnresolvedDecides(directory, grants, i + 1);
          return inputs, platform, Some(WorkspaceInactive);
        }
        target := Workspace(workspace.id);
      }
      assert (inputs + [Input(target, mapped.role)])[..i] == inputs;
      inputs := inputs + [Input(target, mapped.role)];
    }
    assert grants[..|grants|] == grants;
    error := None;
  }

  lemma PlatformSoFar(grants: seq<Grant>, i: nat)
    requires i < |grants|
    ensures HasPlatform(grants[..i + 1]) <==> HasPlatform(grants[..i]) || IsPlatform(grants[i])
  {
    if HasPlatform(grants[..i]) {
      var k :| 0 <= k < i && IsPlatform(grants[..i][k]);
      assert IsPlatform(grants[..i + 1][k]);
    }
    if IsPlatform(grants[i]) { assert IsPlatform(grants[..i + 1][i]); }
    if HasPlatform(grants[..i + 1]) && !IsPlatform(grants[i]) {
      var k :| 0 <= k < i + 1 && IsPlatform(grants[..i + 1][k]);
      assert IsPlatform(grants[..i][k]);
    }
  }

  lemma WrittenOneMore(inputs: seq<Input>, i: nat)
    requires i < |inputs|
    ensures var last, roles := inputs[i], Written(inputs[..i]);
      && Written(inputs[..i + 1]) == roles[last.target := Stored(last.target, last.role)]
      && MembersOf(Written(inputs[..i + 1])) == if last.target.Platform? then MembersOf(roles)
          else MembersOf(roles)[last.target.id := last.role]
  {
    var last, roles := inputs[i], Written(inputs[..i]);
    assert inputs[..i + 1][..i] == inputs[..i];
    MembersAfterAllow(roles, if last.target.Workspace? then last.target.id
        else 0, if last.target.Workspace? then last.role else "admin");
  }

  class Store {
    var roles: map<Target, string>
    var members: map<nat, string>
    var mark: Option<Watermark>
    var directory: Directory
    ghost var applied: seq<Grant>
    ghost var basis: Directory

    ghost function Contents(): State reads this { State(roles, members, mark, directory, applied, basis) }

    method InvalidateExternalAccess()
      modifies this`mark
      ensures mark == Invalidate(old(mark))
    {
      if mark.Some? && mark.value.config != "" { mark := Some(mark.value.(config := "")); }
    }

    method UpsertAccessGrant(target: Target, role: string)
      modifies this`roles, this`members, this`mark
      ensures Contents() == Allow(old(Contents()), target, role)
      ensures roles == old(roles)[target := Stored(target, role)]
      ensures members == if target.Platform? then old(members) else old(members)[target.id := role]
    {
      InvalidateExternalAccess();
      if target.Platform? {
        roles := roles[Platform := "admin"];
      } else {
        roles := roles[target := role];
        members := members[target.id := role];
      }
    }

    method DeleteAccessGrant(target: Target)
      modifies this`roles, this`members, this`mark
      ensures Contents() == Revoke(old(Contents()), target)
    {
      InvalidateExternalAccess();
      if target.Workspace? { members := members - {target.id}; }
      roles := roles - {target};
    }

    method ReplaceExternalAccess(inputs: seq<Input>, state: Watermark)
      modifies this`roles, this`members, this`mark
      ensures roles == Written(inputs) && members == MembersOf(Written(inputs)) && mark == Some(state)
    {
      DeleteGrants();
      InsertGrants(inputs);
      mark := Some(state);
    }

    method DeleteGrants()
      modifies this`roles, this`members
      ensures roles == map[] && members == map[]
    {
      members := map[];
      roles := map[];
    }

    method InsertGrants(inputs: seq<Input>)
      requires roles == map[] && members == map[]
      modifies this`roles, this`members, this`mark
      ensures roles == Written(inputs) && members == MembersOf(Written(inputs))
    {
      ghost var written := map[];
      for i := 0 to |inputs|
        invariant written == Written(inputs[..i]) && roles == written && members == MembersOf(written)
      {
        WrittenOneMore(inputs, i);
        UpsertAccessGrant(inputs[i].target, inputs[i].role);
        written := Written(inputs[..i + 1]);
      }
      assert inputs[..|inputs|] == inputs;
    }

    method ResolveExternalActor(snapshot: Snapshot, call: Call) returns (result: Result<bool, Error>)
      modifies this
      ensures Contents() == Step(old(Contents()), Resolved(snapshot, call))
      ensures var expected := Resolve(old(Contents()), snapshot, call);
        result == if expected.Success? then Success(expected.value.1) else Failure(expected.error)
    {
      if snapshot.config != call.version || !call.providerMatches || snapshot.issued.None? || snapshot.token == ""
         || snapshot.expires <= call.entered { return Failure(Invalid); }
      if !call.userActive { return Success(false); }
      if snapshot.expires <= call.locked { return Failure(Expired); }
      var inputs, platform, error := Prepare(directory, snapshot.grants);
      if error.Some? { return Failure(error.value); }
      var state := Watermark(snapshot.config, snapshot.token, snapshot.issued.value, snapshot.grants);
      if mark.Some? {
        var previous := mark.value;
        if state.issued < previous.issued { return Failure(Stale); }
        if state.config == previous.config && state.issued == previous.issued && state.token != previous.token &&
            state.hashed != previous.hashed
        {
          return Failure(Ambiguous);
        }
        if state.config == previous.config && state.issued == previous.issued && state.hashed == previous.hashed {
          return Success(platform);
        }
      }
      if call.userSystem && inputs != [] { return Failure(UserNotGrantable); }
      ReplaceExternalAccess(inputs, state);
      applied, basis := snapshot.grants, directory;
      return Success(platform);
    }
  }
}
