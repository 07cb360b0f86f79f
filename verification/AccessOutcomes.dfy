/**
 Which tokens are accepted, which grants a user holds afterwards, and which role wins, in terms of
 the token, the policy and the tables alone.
 */
module AccessOutcomes {
  import opened Wrappers
  import opened Json
  import opened Policy
  import opened ExternalAccess

  // ---------------------------------------------------------------- accepted tokens

  /** The grant is for the platform or for an active workspace that is there. */
  predicate IsGrantable(directory: Directory, g: Grant) {
    g.scope == "platform" || (g.workspace in directory && directory[g.workspace].active)
  }

  lemma {:induction false} UnresolvedExactly(directory: Directory, grants: seq<Grant>)
    ensures Unresolved(directory, grants).None? <==> forall i | 0 <= i < |grants| :: IsGrantable(directory, grants[i])
  {
    if grants != [] {
      UnresolvedExactly(directory, grants[..|grants| - 1]);
      assert forall i | 0 <= i < |grants| - 1 :: grants[..|grants| - 1][i] == grants[i];
    }
  }

  /** The token is of this policy, this provider and still good. */
  predicate Verified(snapshot: Snapshot, call: Call) {
    && snapshot.config == call.version && call.providerMatches && snapshot.issued.Some? && snapshot.token != ""
    && snapshot.expires > call.entered
  }

  /** The stored grants come from the same configuration, time and grants. */
  predicate Repeats(st: State, snapshot: Snapshot) {
    && st.mark.Some? && snapshot.issued.Some? && st.mark.value.config == snapshot.config
    && st.mark.value.issued == snapshot.issued.value && st.mark.value.hashed == snapshot.grants
  }

  /** The token is not older than the last one, nor another one of the same time with other grants. */
  predicate InOrder(st: State, snapshot: Snapshot) {
    st.mark.Some? && snapshot.issued.Some? ==>
      && snapshot.issued.value >= st.mark.value.issued
      && (snapshot.config != st.mark.value.config || snapshot.issued.value != st.mark.value.issued
          || snapshot.token == st.mark.value.token || snapshot.grants == st.mark.value.hashed)
  }

  /** A resolution is accepted exactly under these conditions. */
  lemma AcceptedExactly(st: State, snapshot: Snapshot, call: Call)
    ensures Resolve(st, snapshot, call).Success? <==>
      && Verified(snapshot, call)
      && (call.userActive ==>
            && snapshot.expires > call.locked && InOrder(st, snapshot)
            && (forall i | 0 <= i < |snapshot.grants| :: IsGrantable(st.directory, snapshot.grants[i]))
            && (call.userSystem && snapshot.grants != [] ==> Repeats(st, snapshot)))
  {
    UnresolvedExactly(st.directory, snapshot.grants);
  }

  // ---------------------------------------------------------------- stored grants

  /** The row is what one of the grants asks for. */
  ghost predicate AskedFor(directory: Directory, grants: seq<Grant>, target: Target, role: string) {
    exists i :: 0 <= i < |grants| && Asks(directory, grants[i], target, role)
  }

  predicate Asks(directory: Directory, g: Grant, target: Target, role: string) {
    if g.scope == "platform" then target == Platform && role == "admin"
    else g.workspace in directory && target == Workspace(directory[g.workspace].id) && role == g.role
  }

  lemma AssignedExactly(directory: Directory, grants: seq<Grant>, target: Target, role: string)
    requires OneName(directory) && DistinctTargets(grants)
    ensures target in Assigned(directory, grants) && Assigned(directory, grants)[target] == role <==>
      AskedFor(directory, grants, target, role)
  {
    AssignedIs(directory, grants);
    if (target, role) in Pairs(directory, grants) {
      var i :| 0 <= i < |grants| && Resolvable(directory, grants[i]) && RowOf(directory, grants[i]) == (target, role);
      assert Asks(directory, grants[i], target, role);
    }
    if i :| 0 <= i < |grants| && Asks(directory, grants[i], target, role) {
      assert Resolvable(directory, grants[i]) && RowOf(directory, grants[i]) == (target, role);
    }
  }

  /** An inactive user keeps what is stored and is no platform administrator.  For an active one a
      repeated token changes nothing, and any other leaves exactly the rows its grants ask for, with
      the memberships of the workspaces among them, and is remembered. */
  lemma AcceptedOutcome(st: State, snapshot: Snapshot, call: Call)
    requires OneName(st.directory) && DistinctTargets(snapshot.grants) && Resolve(st, snapshot, call).Success?
    ensures var (next, platform) := Resolve(st, snapshot, call).value;
      if !call.userActive then next == st && !platform
      else
        && (platform <==> exists i :: 0 <= i < |snapshot.grants| && snapshot.grants[i].scope == "platform")
        && next.directory == st.directory
        && if Repeats(st, snapshot) then next == st
           else
             && next.mark == Some(Watermark(snapshot.config, snapshot.token, snapshot.issued.value, snapshot.grants))
             && (forall target, role :: target in next.roles && next.roles[target] == role <==>
                  AskedFor(st.directory, snapshot.grants, target, role))
             && (forall id, role :: id in next.members && next.members[id] == role <==>
                  AskedFor(st.directory, snapshot.grants, Workspace(id), role))
  {
    var (next, platform) := Resolve(st, snapshot, call).value;
    if call.userActive && !Repeats(st, snapshot) {
      forall target, role ensures target in next.roles && next.roles[target] == role <==>
        AskedFor(st.directory, snapshot.grants, target, role)
      {
        AssignedExactly(st.directory, snapshot.grants, target, role);
      }
    }
  }

  /** A local grant or revocation changes one row, and the membership beside it, and makes the next
      accepted token write again. */
  lemma EditOutcome(st: State, target: Target, role: string)
    ensures var next, granted := Allow(st, target, role), if target.Platform? then "admin" else role;
      && next.roles == st.roles[target := granted]
      && next.members == (if target.Workspace? then st.members[target.id := granted] else st.members)
    ensures var next := Revoke(st, target);
      && next.roles == st.roles - {target}
      && next.members == (if target.Workspace? then st.members - {target.id} else st.members)
    ensures forall snapshot: Snapshot | snapshot.config != "" ::
      !Repeats(Allow(st, target, role), snapshot) && !Repeats(Revoke(st, target), snapshot)
    ensures forall next | next == Allow(st, target, role) || next == Revoke(st, target) ::
      && next.directory == st.directory && (next.mark.Some? <==> st.mark.Some?)
      && (st.mark.Some? ==>
            && next.mark.value.issued == st.mark.value.issued && next.mark.value.token == st.mark.value.token)
  {
  }

  // ---------------------------------------------------------------- roles

  /** Admin ranks above editor, editor above viewer, and no other role counts. */
  lemma RolesRank(role: string)
    ensures Rank("admin") > Rank("editor") > Rank("viewer") > 0
    ensures role != "admin" && role != "editor" && role != "viewer" ==> Rank(role) == 0
  {
    assert "admin"[0] == 'a' && "editor"[0] == 'e' && "viewer"[0] == 'v';
  }

  /** A matching rule grants the role for the scope and workspace. */
  ghost predicate Offers(claims: Json, rules: seq<Rule>, scope: string, workspace: string, role: string) {
    exists rule :: rule in rules && Applies(claims, rule) && rule.grant == Grant(scope, workspace, role)
  }

  /** What is mapped under the key of another valid grant is for the same scope and workspace. */
  lemma SamePlace(claims: Json, rules: seq<Rule>, h: Grant, g: Grant)
    requires forall rule | rule in rules :: ValidGrant(rule.grant)
    requires Gives(claims, rules, h) && ValidGrant(g) && KeyOf(h) == KeyOf(g)
    ensures h == Grant(g.scope, g.workspace, h.role) && ValidGrant(h) &&
        Offers(claims, rules, g.scope, g.workspace, h.role)
  {
    assert ValidGrant(h);
    ValidGrantIs(h.(role := g.role), g);
  }

  /** A role that is offered is mapped, or a higher one is. */
  lemma OfferedIsMapped(claims: Json, rules: seq<Rule>, result: seq<Grant>, g: Grant) returns (j: nat)
    requires Listed(Best(Granted(claims, rules)), result)
    requires forall rule | rule in rules :: ValidGrant(rule.grant)
    requires Offers(claims, rules, g.scope, g.workspace, g.role)
    ensures j < |result| && result[j] == Grant(g.scope, g.workspace, result[j].role) &&
        Rank(g.role) <= Rank(result[j].role)
    ensures Offers(claims, rules, g.scope, g.workspace, result[j].role)
  {
    MapIsMaximal(claims, rules, result);
    var rule :| rule in rules && Applies(claims, rule) && rule.grant == g;
    j :| j < |result| && KeyOf(result[j]) == KeyOf(g) && Rank(g.role) <= Rank(result[j].role);
    SamePlace(claims, rules, result[j], g);
  }

  lemma MappedOnce(claims: Json, rules: seq<Rule>, result: seq<Grant>, i: nat, j: nat)
    requires Listed(Best(Granted(claims, rules)), result) && i < |result| && j < |result|
    requires KeyOf(result[i]) == KeyOf(result[j])
    ensures i == j
  {
    MapIsMaximal(claims, rules, result);
  }

  lemma MappedIsOffered(claims: Json, rules: seq<Rule>, result: seq<Grant>, i: nat)
    requires Listed(Best(Granted(claims, rules)), result) && i < |result|
    requires forall rule | rule in rules :: ValidGrant(rule.grant)
    ensures ValidGrant(result[i]) && Offers(claims, rules, result[i].scope, result[i].workspace, result[i].role)
  {
    MapIsMaximal(claims, rules, result);
    assert Gives(claims, rules, result[i]);
  }

  /** A mapped role is the highest of those offered. */
  lemma MappedIsHighest(claims: Json, rules: seq<Rule>, result: seq<Grant>, g: Grant, role: string)
    requires Listed(Best(Granted(claims, rules)), result) && g in result
    requires forall rule | rule in rules :: ValidGrant(rule.grant)
    requires Offers(claims, rules, g.scope, g.workspace, role)
    ensures Rank(role) <= Rank(g.role)
  {
    var i: nat :| i < |result| && result[i] == g;
    var j := OfferedIsMapped(claims, rules, result, Grant(g.scope, g.workspace, role));
    MappedOnce(claims, rules, result, i, j);
  }

  /** Of the matching rules for one scope and workspace the highest role is mapped, and nothing
      is mapped that no matching rule grants. */
  lemma HighestRoleWins(claims: Json, rules: seq<Rule>, result: seq<Grant>, g: Grant)
    requires Listed(Best(Granted(claims, rules)), result)
    requires forall rule | rule in rules :: ValidGrant(rule.grant)
    ensures g in result <==>
      && Offers(claims, rules, g.scope, g.workspace, g.role)
      && (g.role == "editor" ==> !Offers(claims, rules, g.scope, g.workspace, "admin"))
      && (g.role == "viewer" ==>
            && !Offers(claims, rules, g.scope, g.workspace, "admin")
            && !Offers(claims, rules, g.scope, g.workspace, "editor"))
  {
    RolesRank(g.role);
    if g in result {
      var i: nat :| i < |result| && result[i] == g;
      MappedIsOffered(claims, rules, result, i);
      if Offers(claims, rules, g.scope, g.workspace, "admin") { MappedIsHighest(claims, rules, result, g, "admin"); }
      if Offers(claims, rules, g.scope, g.workspace, "editor") { MappedIsHighest(claims, rules, result, g, "editor"); }
    } else if Offers(claims, rules, g.scope, g.workspace, g.role) {
      var j := OfferedIsMapped(claims, rules, result, g);
      MappedIsOffered(claims, rules, result, j);
      RolesRank(result[j].role);
      OfferedIsValid(claims, rules, g);
    }
  }

  lemma OfferedIsValid(claims: Json, rules: seq<Rule>, g: Grant)
    requires forall rule | rule in rules :: ValidGrant(rule.grant)
    requires Offers(claims, rules, g.scope, g.workspace, g.role)
    ensures ValidGrant(g)
  {
    var rule :| rule in rules && Applies(claims, rule) && rule.grant == g;
  }

  // ---------------------------------------------------------------- conditions

  /** A rule applies to a list that holds nothing but texts, the wanted one among them, or to a
      value that equals the wanted text, number or truth value. */
  lemma AppliesExactly(claims: Json, rule: Rule)
    ensures Applies(claims, rule) <==>
      var value := At(claims, rule.path);
      && value.Some? && value.value != Null
      && match rule.when
         case Contains(text) =>
           && value.value.Arr? && Str(text) in value.value.items
           && forall item | item in value.value.items :: item.Str?
         case Equals(wanted) => (wanted.Bool? || wanted.Str? || wanted.Num?) && value.value == wanted
  {
    var value := At(claims, rule.path);
    if value.Some? && value.value.Arr? {
      assert AllTexts(value.value.items) <==> forall item | item in value.value.items :: item.Str?;
    }
  }

  /** One more segment of a path goes one level deeper: to a field of an object, or to the entry of
      a list whose position it writes. */
  lemma {:induction false} PathGoesDeeper(value: Json, path: seq<string>, segment: string)
    ensures At(value, path + [segment]) ==
      match At(value, path)
      case None => None
      case Some(Obj(fields)) => if segment in fields then Some(fields[segment]) else None
      case Some(Arr(items)) => EntryOf(items, segment)
      case Some(_) => None
  {
    forall a: nat, b: nat | Itoa(a) == Itoa(b) ensures a == b { ItoaInjective(a, b); }
    if path == [] {
      assert (path + [segment])[1..] == [];
    } else {
      assert (path + [segment])[1..] == path[1..] + [segment] && (path + [segment])[0] == path[0];
      match value
      case Obj(fields) => if path[0] in fields { PathGoesDeeper(fields[path[0]], path[1..], segment); }
      case Arr(items) => if i: nat :| i < |items| && path[0] == Itoa(i) {
        PathGoesDeeper(items[i], path[1..], segment);
      }
      case _ =>
    }
  }

  ghost function EntryOf(items: seq<Json>, segment: string): Option<Json> {
    if i: nat :| i < |items| && segment == Itoa(i) then Some(items[i]) else None
  }
}
