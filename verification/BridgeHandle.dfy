/**
 One call of Handle inside a run of the bridge.  The call enters several critical sections and
 the events of other goroutines come in between; authorization is asked outside of them all.
 */
module BridgeHandle {
  import opened Wrappers
  import opened BridgeRegistry
  import opened BridgeSafety

  /** The registry after the first `n` events. */
  function At(debugEnabled: bool, events: seq<Event>, n: nat): Registry
    requires n <= |events|
  {
    Run(debugEnabled, events[..n])
  }

  // ---------------------------------------------------------------- a call

  /** A participant is looked up before event `found`, authorization answers, and event
      `refreshed` writes the projection. */
  datatype Check = Check(found: nat, authorized: Option<map<string, string>>, refreshed: nat)

  /** Check answered true before event `end`. */
  predicate Passes(debugEnabled: bool, events: seq<Event>, id: string, c: Check, end: nat)
    requires end <= |events|
  {
    && c.found <= end && id in At(debugEnabled, events, c.found).peers
    && var p := At(debugEnabled, events, c.found).peers[id];
    && (p.role != "client" ==>
          && c.authorized.Some? && c.found <= c.refreshed < end
          && events[c.refreshed] == Refreshes(id, p.serial, c.authorized.value)
          && id in At(debugEnabled, events, c.refreshed).peers
          && At(debugEnabled, events, c.refreshed).peers[id].serial == p.serial)
  }

  /** What became of the controller of the message's session: its Check passed, or it was made
      to leave by the event `at`. */
  datatype Verdict = Passed(check: Check) | Dropped(at: nat)

  predicate ChecksController(kind: string) { kind == "acceptSession" || kind == "commandResult" || IsEvent(kind) }

  /** The session is looked up before event `lookup`; event `act` is the last section. */
  datatype Call = Call(id: string, message: Message, sender: Check, lookup: nat, verdict: Verdict, act: nat)

  predicate Rechecks(debugEnabled: bool, events: seq<Event>, controller: string, verdict: Verdict, start: nat, end: nat)
    requires start <= end <= |events|
  {
    match verdict
    case Passed(check) => start <= check.found && Passes(debugEnabled, events, controller, check, end)
    case Dropped(at) => start <= at < end && events[at] == Leaves(controller)
  }

  /** The sections of Handle in their order; only a call whose sender passes reaches the last. */
  predicate IsCall(debugEnabled: bool, events: seq<Event>, h: Call) {
    && h.lookup <= h.act < |events| && events[h.act].Sends?
    && events[h.act].id == h.id && events[h.act].message == h.message
    && Passes(debugEnabled, events, h.id, h.sender, h.lookup)
    && var r := At(debugEnabled, events, h.lookup);
    && (ChecksController(h.message.kind) && h.message.sessionId in r.sessions ==>
          Rechecks(debugEnabled, events, r.sessions[h.message.sessionId].configurator, h.verdict, h.lookup, h.act))
  }

  /** The authorization lets its owner debug the workspace. */
  predicate Allows(authorized: Option<map<string, string>>, workspace: string) {
    authorized.Some? && workspace in authorized.value && CanWrite(authorized.value[workspace])
  }

  // ---------------------------------------------------------------- what one step keeps

  predicate SameEndpoints(x: Session, y: Session) {
    x.client == y.client && x.configurator == y.configurator && x.workspace == y.workspace
  }

  /** A session requested before is in the new table only if it was in the old one. */
  ghost predicate SessionsKept(r: Registry, r1: Registry) {
    forall s | s in r1.sessions && OfSession(s) in r.asked ::
      s in r.sessions && SameEndpoints(r.sessions[s], r1.sessions[s])
  }

  ghost predicate PeersKept(r: Registry, r1: Registry) {
    forall o | o in r.peers && o in r1.peers ::
      r1.peers[o].serial == r.peers[o].serial && r1.peers[o].role == r.peers[o].role
  }

  /** Requests stay recorded. */
  ghost predicate Kept(r: Registry, r1: Registry) {
    r.asked.Keys <= r1.asked.Keys && SessionsKept(r, r1) && PeersKept(r, r1)
  }

  lemma ExpireKept(r: Registry, now: int)
    ensures Kept(r, Expire(r, now)) && Expire(r, now).peers == r.peers && Expire(r, now).asked == r.asked
  {
  }

  lemma RequestKept(r: Registry, id: string, m: Message, now: int, uuid: string)
    requires id in r.peers && Unused(r, uuid)
    ensures Kept(r, RequestSession(r, id, m, now, uuid))
  {
  }

  lemma AcceptKept(r: Registry, id: string, m: Message, now: int)
    requires id in r.peers
    ensures Kept(r, AcceptSession(r, id, m, now))
  {
  }

  lemma CommandKept(r: Registry, id: string, m: Message, now: int, uuid: string, delivered: bool)
    requires id in r.peers
    ensures Kept(r, RequestCommand(r, id, m, now, uuid, delivered))
  {
  }

  lemma CloseKept(r: Registry, ids: set<string>, error: string)
    ensures Kept(r, Close(r, ids, error))
  {
  }

  lemma ResultKept(r: Registry, id: string, m: Message)
    ensures Kept(r, CommandResult(r, id, m))
  {
  }

  /** The sweep comes first. */
  lemma AfterExpire(r: Registry, now: int, r2: Registry)
    requires Kept(Expire(r, now), r2)
    ensures Kept(r, r2)
  {
    ExpireKept(r, now);
  }

  lemma DispatchKept(r: Registry, id: string, m: Message, now: int, uuid: string, delivered: bool)
    requires Unused(r, uuid)
    ensures Kept(r, Dispatch(r, id, m, now, uuid, delivered))
  {
    if id in r.peers {
      var r1 := Expire(r, now);
      AfterExpire(r, now, Dispatch(r, id, m, now, uuid, delivered)) by {
        if m.kind == "requestSession" { RequestKept(r1, id, m, now, uuid); }
        else if m.kind == "acceptSession" { AcceptKept(r1, id, m, now); }
        else if m.kind == "endSession" { CloseKept(r1, {m.sessionId}, "Session ended"); }
        else if IsCommand(m.kind) { CommandKept(r1, id, m, now, uuid, delivered); }
        else if IsEvent(m.kind) { CloseKept(r1, {m.sessionId}, "Configurator is unavailable"); }
        else if m.kind == "commandResult" { ResultKept(r1, id, m); }
      }
    }
  }

  lemma RefreshKept(r: Registry, id: string, serial: nat, access: map<string, string>)
    ensures Kept(r, Refresh(r, id, serial, access))
  {
    if id in r.peers {
      var r1 := r.(peers := r.peers[id := r.peers[id].(access := access)]);
      CloseKept(r1, Revoked(r1, id), "Debug access revoked");
    }
  }

  lemma StepKept(r: Registry, debugEnabled: bool, e: Event)
    requires e.Sends? ==> Unused(r, e.uuid)
    ensures Kept(r, Step(r, debugEnabled, e))
  {
    match e
    case Joins(_, _, _, _, _) =>
    case Refreshes(id, serial, access) => RefreshKept(r, id, serial, access);
    case Leaves(_) =>
    case Sweeps(now) => ExpireKept(r, now);
    case Sends(id, m, now, uuid, delivered) => DispatchKept(r, id, m, now, uuid, delivered);
  }

  // ---------------------------------------------------------------- what a run keeps

  lemma AtNext(debugEnabled: bool, events: seq<Event>, n: nat)
    requires n < |events|
    ensures At(debugEnabled, events, n + 1) == Step(At(debugEnabled, events, n), debugEnabled, events[n])
  {
    assert events[..n + 1][..n] == events[..n];
  }

  lemma AtInv(debugEnabled: bool, events: seq<Event>, n: nat)
    requires Supplied(debugEnabled, events) && n <= |events|
    ensures Inv(At(debugEnabled, events, n))
  {
    forall i | 0 <= i < n ensures events[..n][i].Sends? ==>
        Unused(Run(debugEnabled, events[..n][..i]), events[..n][i].uuid)
    {
      assert events[..n][..i] == events[..i];
    }
    RunKeepsInv(debugEnabled, events[..n]);
  }

  lemma AskedGrow(debugEnabled: bool, events: seq<Event>, n: nat)
    requires Supplied(debugEnabled, events) && n < |events|
    ensures At(debugEnabled, events, n).asked.Keys <= At(debugEnabled, events, n + 1).asked.Keys
  {
    AtNext(debugEnabled, events, n);
    StepKept(At(debugEnabled, events, n), debugEnabled, events[n]);
  }

  /** One event back: the session was there, and its controller, if registered, was the same. */
  lemma StepBack(r: Registry, debugEnabled: bool, e: Event, s: string)
    requires (e.Sends? ==> Unused(r, e.uuid)) && OfSession(s) in r.asked && s in Step(r, debugEnabled, e).sessions
    ensures var r1 := Step(r, debugEnabled, e);
      && s in r.sessions && SameEndpoints(r.sessions[s], r1.sessions[s])
      && var id := r.sessions[s].configurator;
      && (id in r.peers && id in r1.peers ==> r1.peers[id].serial == r.peers[id].serial)
  {
    StepKept(r, debugEnabled, e);
  }

  /** The controller of a session is a registered configurator. */
  lemma Controlled(debugEnabled: bool, events: seq<Event>, n: nat, s: string)
    requires Supplied(debugEnabled, events) && n <= |events| && s in At(debugEnabled, events, n).sessions
    ensures var r := At(debugEnabled, events, n);
      r.sessions[s].configurator in r.peers && r.peers[r.sessions[s].configurator].role == "configurator"
  {
    AtInv(debugEnabled, events, n);
    var r := At(debugEnabled, events, n);
    assert EndpointsOk(r.peers, r.sessions[s]);
  }

  /** The session is in both tables between the same endpoints, under the same participant. */
  ghost predicate Lasts(r: Registry, r1: Registry, s: string) {
    && s in r.sessions && s in r1.sessions && SameEndpoints(r.sessions[s], r1.sessions[s])
    && var id := r.sessions[s].configurator;
    && id in r.peers && id in r1.peers && r.peers[id].serial == r1.peers[id].serial
    && r.peers[id].role == "configurator"
  }

  lemma LastsOn(r0: Registry, r: Registry, r1: Registry, s: string)
    requires Lasts(r0, r, s) && Lasts(r, r1, s)
    ensures Lasts(r0, r1, s)
  {
  }

  /** A session requested before an event that lives after it lasts over the event. */
  lemma LastsOver(debugEnabled: bool, events: seq<Event>, n: nat, s: string)
    requires Supplied(debugEnabled, events) && n < |events|
    requires OfSession(s) in At(debugEnabled, events, n).asked && s in At(debugEnabled, events, n + 1).sessions
    ensures Lasts(At(debugEnabled, events, n), At(debugEnabled, events, n + 1), s)
  {
    Controlled(debugEnabled, events, n + 1, s);
    AtNext(debugEnabled, events, n);
    StepBack(At(debugEnabled, events, n), debugEnabled, events[n], s);
    Controlled(debugEnabled, events, n, s);
  }

  lemma {:induction false} AskedStay(debugEnabled: bool, events: seq<Event>, i: nat, n: nat)
    requires Supplied(debugEnabled, events) && i <= n <= |events|
    ensures At(debugEnabled, events, i).asked.Keys <= At(debugEnabled, events, n).asked.Keys
  {
    if i < n {
      AskedStay(debugEnabled, events, i, n - 1);
      AskedGrow(debugEnabled, events, n - 1);
    }
  }

  /** A session that was requested before one moment and lives at a later one lived all the time
      in between, and its controller never left. */
  lemma {:induction false} LivedThrough(debugEnabled: bool, events: seq<Event>, s: string, i: nat, n: nat)
    requires Supplied(debugEnabled, events) && i <= n <= |events|
    requires OfSession(s) in At(debugEnabled, events, i).asked && s in At(debugEnabled, events, n).sessions
    ensures Lasts(At(debugEnabled, events, i), At(debugEnabled, events, n), s)
  {
    if i == n {
      Controlled(debugEnabled, events, n, s);
    } else {
      AskedStay(debugEnabled, events, i, n - 1);
      LastsOver(debugEnabled, events, n - 1, s);
      LivedThrough(debugEnabled, events, s, i, n - 1);
      LastsOn(At(debugEnabled, events, i), At(debugEnabled, events, n - 1), At(debugEnabled, events, n), s);
    }
  }

  lemma LivedAt(debugEnabled: bool, events: seq<Event>, s: string, i: nat, k: nat, n: nat)
    requires Supplied(debugEnabled, events) && i <= k <= n <= |events|
    requires OfSession(s) in At(debugEnabled, events, i).asked && s in At(debugEnabled, events, n).sessions
    ensures Lasts(At(debugEnabled, events, k), At(debugEnabled, events, n), s)
  {
    AskedStay(debugEnabled, events, i, k);
    LivedThrough(debugEnabled, events, s, k, n);
  }

  // ---------------------------------------------------------------- the recheck

  lemma RefreshAllows(r: Registry, id: string, access: map<string, string>, s: string)
    requires s in r.sessions && r.sessions[s].configurator == id && id in r.peers && r.peers[id].role == "configurator"
    requires s in Refresh(r, id, r.peers[id].serial, access).sessions
    ensures Allows(Some(access), r.sessions[s].workspace)
  {
  }

  /** The same inside a run. */
  lemma RefreshedIsAllowed(debugEnabled: bool, events: seq<Event>, s: string, k: nat, access: map<string, string>)
    requires Supplied(debugEnabled, events) && k < |events|
    requires s in At(debugEnabled, events, k).sessions && s in At(debugEnabled, events, k + 1).sessions
    requires var r := At(debugEnabled, events, k); var id := r.sessions[s].configurator;
      id in r.peers && events[k] == Refreshes(id, r.peers[id].serial, access)
    ensures Allows(Some(access), At(debugEnabled, events, k).sessions[s].workspace)
  {
    var r := At(debugEnabled, events, k);
    Controlled(debugEnabled, events, k, s);
    AtNext(debugEnabled, events, k);
    RefreshAllows(r, r.sessions[s].configurator, access, s);
  }

  /** If the Check of its controller passes and the session still lives afterwards, authorization
      answered in that Check that the controller may debug its workspace. */
  lemma SurvivorIsAllowed(debugEnabled: bool, events: seq<Event>, s: string, c: Check, n: nat)
    requires Supplied(debugEnabled, events) && n <= |events| && s in At(debugEnabled, events, n).sessions
    requires Passes(debugEnabled, events, At(debugEnabled, events, n).sessions[s].configurator, c, n)
    requires OfSession(s) in At(debugEnabled, events, c.found).asked
    ensures Allows(c.authorized, At(debugEnabled, events, n).sessions[s].workspace)
  {
    LivedThrough(debugEnabled, events, s, c.found, n);
    LivedAt(debugEnabled, events, s, c.found, c.refreshed, n);
    LivedAt(debugEnabled, events, s, c.found, c.refreshed + 1, n);
    RefreshedIsAllowed(debugEnabled, events, s, c.refreshed, c.authorized.value);
  }

  /** A session whose controller was made to leave does not live afterwards. */
  lemma DroppedIsGone(debugEnabled: bool, events: seq<Event>, s: string, at: nat, n: nat)
    requires Supplied(debugEnabled, events) && at < n <= |events| && s in At(debugEnabled, events, n).sessions
    requires OfSession(s) in At(debugEnabled, events, at).asked
    ensures events[at] != Leaves(At(debugEnabled, events, n).sessions[s].configurator)
  {
    LivedThrough(debugEnabled, events, s, at, n);
    LivedAt(debugEnabled, events, s, at, at + 1, n);
    AtNext(debugEnabled, events, at);
  }

  /** An acceptance, a result or an event of a client takes effect only if authorization answered
      during the same call that the controller may debug the session's workspace; the one
      exception is a session requested after the call looked it up. */
  lemma ClientIsRechecked(debugEnabled: bool, events: seq<Event>, h: Call)
    requires Supplied(debugEnabled, events) && IsCall(debugEnabled, events, h) && ChecksController(h.message.kind)
    requires Accepts(At(debugEnabled, events, h.act), h.id, h.message, events[h.act].now)
    ensures h.message.sessionId in At(debugEnabled, events, h.act).sessions
    ensures
      || OfSession(h.message.sessionId) !in At(debugEnabled, events, h.lookup).asked
      || (&& h.verdict.Passed?
          && Allows(h.verdict.check.authorized,
              At(debugEnabled, events, h.act).sessions[h.message.sessionId].workspace))
  {
    var s := h.message.sessionId;
    if OfSession(s) in At(debugEnabled, events, h.lookup).asked {
      LivedThrough(debugEnabled, events, s, h.lookup, h.act);
      match h.verdict
      case Passed(check) =>
        AskedStay(debugEnabled, events, h.lookup, check.found);
        SurvivorIsAllowed(debugEnabled, events, s, check, h.act);
      case Dropped(at) =>
        AskedStay(debugEnabled, events, h.lookup, at);
        DroppedIsGone(debugEnabled, events, s, at, h.act);
    }
  }

  /** A command is forwarded only if authorization answered so for its sender, with the same
      exception. */
  lemma CommandIsRechecked(debugEnabled: bool, events: seq<Event>, h: Call)
    requires Supplied(debugEnabled, events) && IsCall(debugEnabled, events, h) && IsCommand(h.message.kind)
    requires Accepts(At(debugEnabled, events, h.act), h.id, h.message, events[h.act].now)
    ensures h.message.sessionId in At(debugEnabled, events, h.act).sessions
    ensures
      || OfSession(h.message.sessionId) !in At(debugEnabled, events, h.sender.found).asked
      || Allows(h.sender.authorized, At(debugEnabled, events, h.act).sessions[h.message.sessionId].workspace)
  {
    var s := h.message.sessionId;
    if OfSession(s) in At(debugEnabled, events, h.sender.found).asked {
      SurvivorIsAllowed(debugEnabled, events, s, h.sender, h.act);
    }
  }

  // ---------------------------------------------------------------- the exception

  const HELLO := Hello(1, "w", "", true, false)
  const REQUEST := Message("requestSession", "1", "", "a", "", "", false, "", true, "")
  const ACCEPTANCE := Message("acceptSession", "", "s", "", "", "", true, "", true, "")
  const ACCESS := map["w" := "editor"]
  const EVENTS := [
    Joins("a", "client", "u", HELLO, None),
    Joins("b", "configurator", "u", HELLO, Some(ACCESS)),
    Refreshes("b", 1, ACCESS),
    Sends("b", REQUEST, 0, "s", true),
    Sends("a", ACCEPTANCE, 1, "t", true)]

  const CLIENT := Participant(0, "client", "w", "u", true, false, map[], None)
  const CONTROLLER := Participant(1, "configurator", "w", "u", true, false, ACCESS, None)

  lemma TwoJoin()
    ensures At(true, EVENTS, 1) == EMPTY.(peers := map["a" := CLIENT], joins := 1)
    ensures At(true, EVENTS, 2) == EMPTY.(peers := map["a" := CLIENT, "b" := CONTROLLER], joins := 2)
    ensures At(true, EVENTS, 3) == At(true, EVENTS, 2)
  {
    AtNext(true, EVENTS, 0);
    assert Bucket(EMPTY.peers, Newcomer(0, true, "client", "u", HELLO, map[])) == {};
    AtNext(true, EVENTS, 1);
    var r := EMPTY.(peers := map["a" := CLIENT], joins := 1);
    assert Bucket(r.peers, Newcomer(1, true, "configurator", "u", HELLO, map[])) == {};
    AtNext(true, EVENTS, 2);
  }

  lemma OneRequests()
    ensures var r := At(true, EVENTS, 4);
      && r.sessions == map["s" := Session("a", "b", "w", "1", false, REQUEST_TTL)]
      && "a" in r.peers && r.peers["a"] == CLIENT && r.asked.Keys == {OfSession("s")}
  {
    TwoJoin();
    AtNext(true, EVENTS, 3);
    var r := At(true, EVENTS, 3);
    assert Expire(r, 0) == r;
    assert CanRequest(r, "b", REQUEST, 0);
  }

  lemma EventsSupplied()
    ensures Supplied(true, EVENTS)
  {
    TwoJoin();
    OneRequests();
    assert Unused(At(true, EVENTS, 3), "s");
    assert "t"[0] != "s"[0];
    assert Unused(At(true, EVENTS, 4), "t");
    forall i | 0 <= i < |EVENTS| ensures EVENTS[i].Sends? ==> Unused(Run(true, EVENTS[..i]), EVENTS[i].uuid) {}
  }

  /** The exception occurs: a call that names a session before it is requested looks nothing up and
      accepts it with no Check of the controller. */
  lemma EarlyCallIsNotRechecked() returns (h: Call)
    ensures Supplied(true, EVENTS)
    ensures IsCall(true, EVENTS, h) && ChecksController(h.message.kind)
    ensures Accepts(At(true, EVENTS, h.act), h.id, h.message, EVENTS[h.act].now)
    ensures forall i | h.lookup <= i < |EVENTS| :: !EVENTS[i].Refreshes?
  {
    TwoJoin();
    OneRequests();
    EventsSupplied();
    h := Call("a", ACCEPTANCE, Check(2, None, 2), 3, Dropped(3), 4);
    var r := At(true, EVENTS, 4);
    assert Expire(r, 1).sessions == r.sessions;
  }
}
