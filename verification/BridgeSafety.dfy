/**
 What every run of the debug bridge keeps.  A run is any sequence of critical sections,
 so it covers every interleaving of the goroutines that enter them.
 */
module BridgeSafety {
  import opened Wrappers
  import opened BridgeRegistry

  // ---------------------------------------------------------------- invariant

  /** Both endpoints are registered debug peers of the right role, and the configurator's
      last refreshed projection lets it debug the session's workspace. */
  ghost predicate EndpointsOk(peers: map<string, Participant>, x: Session) {
    && x.client in peers && peers[x.client].role == "client"
    && peers[x.client].debug && peers[x.client].workspace == x.workspace
    && x.configurator in peers && peers[x.configurator].CanDebug(x.workspace)
  }

  ghost predicate SessionsOk(r: Registry) {
    forall s | s in r.sessions :: EndpointsOk(r.peers, r.sessions[s])
  }

  /** No client takes part in two sessions, pending or active. */
  ghost predicate Exclusive(r: Registry) {
    forall s, t | s in r.sessions && t in r.sessions && r.sessions[s].client == r.sessions[t].client :: s == t
  }

  ghost predicate CommandsOk(r: Registry) {
    forall c | c in r.commands :: r.commands[c].session in r.sessions && r.sessions[r.commands[c].session].active
  }

  ghost predicate Bounded(r: Registry) {
    forall s | s in r.sessions :: |PendingOf(r, s)| <= COMMAND_LIMIT
  }

  /** `o` still waits for its result, and the result is owed to `a`. */
  ghost predicate Waiting(r: Registry, o: Origin, a: Ask) {
    match o
    case OfSession(s) => s in r.sessions && !r.sessions[s].active &&
        a == Ask(r.sessions[s].configurator, r.sessions[s].requestId)
    case OfCommand(c) =>
      c in r.commands && r.commands[c].session in r.sessions &&
          a == Ask(r.sessions[r.commands[c].session].configurator, r.commands[c].requestId)
  }

  ghost predicate Pending(r: Registry, o: Origin) {
    match o
    case OfSession(s) => s in r.sessions && !r.sessions[s].active
    case OfCommand(c) => c in r.commands
  }

  /** A request waits with no reply sent, or it was answered once, to the peer and under
      the request id of the peer that asked. */
  ghost predicate Settled(r: Registry, o: Origin)
    requires o in r.asked && o in r.replies
  {
    if Pending(r, o) then Waiting(r, o, r.asked[o]) && r.replies[o] == []
    else |r.replies[o]| == 1 && Ask(r.replies[o][0].to, r.replies[o][0].requestId) == r.asked[o]
  }

  ghost predicate Accounted(r: Registry) {
    && r.asked.Keys == r.replies.Keys
    && (forall o | o in r.asked :: Settled(r, o))
    && (forall o | Pending(r, o) :: o in r.asked)
  }

  /** The non-discovery peers of one role and workspace. */
  ghost function Plain(peers: map<string, Participant>, role: string, workspace: string): set<string> {
    set o | o in peers && !peers[o].allWorkspaces && peers[o].role == role && peers[o].workspace == workspace
  }

  ghost function Discovery(peers: map<string, Participant>, user: string): set<string> {
    set o | o in peers && peers[o].allWorkspaces && peers[o].user == user
  }

  ghost predicate PeersOk(peers: map<string, Participant>) {
    && (forall o | o in peers ::
          && peers[o].role in {"client", "configurator"}
          && (peers[o].allWorkspaces ==> peers[o].role == "configurator"))
    && (forall role, w :: |Plain(peers, role, w)| <= PEER_LIMIT)
    && (forall user :: |Discovery(peers, user)| <= PEER_LIMIT)
  }

  /** What ending sessions keeps whatever happened to the peers before. */
  ghost predicate Tables(r: Registry) {
    Exclusive(r) && CommandsOk(r) && Bounded(r) && Accounted(r)
  }

  ghost predicate Inv(r: Registry) { Tables(r) && SessionsOk(r) && PeersOk(r.peers) }

  // ---------------------------------------------------------------- ending sessions

  lemma CloseSettles(r: Registry, ids: set<string>, error: string, o: Origin)
    requires CommandsOk(r) && r.asked.Keys == r.replies.Keys && o in r.asked && Settled(r, o)
    ensures Settled(Close(r, ids, error), o)
  {
  }

  lemma CloseKeepsTables(r: Registry, ids: set<string>, error: string)
    requires Tables(r)
    ensures Tables(Close(r, ids, error))
  {
    var r1 := Close(r, ids, error);
    FewerCommands(r, r1);
    forall o | o in r1.asked ensures Settled(r1, o) { CloseSettles(r, ids, error, o); }
    forall o | Pending(r1, o) ensures o in r1.asked { assert Pending(r, o); }
  }

  lemma TimeoutSettles(r: Registry, now: int, o: Origin)
    requires CommandsOk(r) && r.asked.Keys == r.replies.Keys && o in r.asked && Settled(r, o)
    ensures Settled(DropLateCommands(r, now), o)
  {
  }

  /** A table whose sessions kept their commands or lost some stays within the limit. */
  lemma FewerCommands(r: Registry, r1: Registry)
    requires Bounded(r) && r1.sessions.Keys <= r.sessions.Keys
    requires forall c | c in r1.commands :: c in r.commands && r.commands[c].session == r1.commands[c].session
    ensures Bounded(r1)
  {
    forall s | s in r1.sessions ensures |PendingOf(r1, s)| <= COMMAND_LIMIT {
      SubsetSize(PendingOf(r1, s), PendingOf(r, s));
    }
  }

  lemma TimeoutKeepsTables(r: Registry, now: int)
    requires Tables(r)
    ensures Tables(DropLateCommands(r, now))
  {
    var r1 := DropLateCommands(r, now);
    FewerCommands(r, r1);
    forall o | o in r1.asked ensures Settled(r1, o) { TimeoutSettles(r, now, o); }
    forall o | Pending(r1, o) ensures o in r1.asked { assert Pending(r, o); }
  }

  lemma {:induction false} SubsetSize<T>(a: set<T>, b: set<T>)
    requires a <= b
    ensures |a| <= |b|
  {
    assert b == a + (b - a);
  }

  lemma ExpireKeepsInv(r: Registry, now: int)
    requires Inv(r)
    ensures Inv(Expire(r, now))
  {
    var r1 := Close(r, Late(r, now), "Session expired");
    CloseKeepsTables(r, Late(r, now), "Session expired");
    TimeoutKeepsTables(r1, now);
  }

  /** After an expiry sweep exactly the sessions with a later deadline are left, and no
      command is due. */
  lemma ExpireIsExact(r: Registry, now: int)
    requires Inv(r)
    ensures var r1 := Expire(r, now);
      && (forall s :: s in r1.sessions <==> s in r.sessions && r.sessions[s].deadline > now)
      && (forall c :: c in r1.commands <==>
           c in r.commands && r.commands[c].deadline > now && r.sessions[r.commands[c].session].deadline > now)
  {
  }

  // ---------------------------------------------------------------- peers

  lemma AddedPeer(peers: map<string, Participant>, id: string, p: Participant)
    requires PeersOk(peers) && id !in peers && p.role in {"client", "configurator"} &&
        (p.allWorkspaces ==> p.role == "configurator")
    requires |Bucket(peers, p)| < PEER_LIMIT
    ensures PeersOk(peers[id := p])
  {
    var peers1 := peers[id := p];
    forall role, w ensures |Plain(peers1, role, w)| <= PEER_LIMIT { AddedPlain(peers, id, p, role, w); }
    forall user ensures |Discovery(peers1, user)| <= PEER_LIMIT { AddedDiscovery(peers, id, p, user); }
  }

  lemma AddedPlain(peers: map<string, Participant>, id: string, p: Participant, role: string, w: string)
    requires id !in peers && |Bucket(peers, p)| < PEER_LIMIT && |Plain(peers, role, w)| <= PEER_LIMIT
    ensures |Plain(peers[id := p], role, w)| <= PEER_LIMIT
  {
    var was := Plain(peers, role, w);
    if !p.allWorkspaces && p.role == role && p.workspace == w {
      assert was <= Bucket(peers, p);
      SubsetSize(was, Bucket(peers, p));
      assert Plain(peers[id := p], role, w) == was + {id};
    } else {
      assert Plain(peers[id := p], role, w) == was;
    }
  }

  lemma AddedDiscovery(peers: map<string, Participant>, id: string, p: Participant, user: string)
    requires id !in peers && |Bucket(peers, p)| < PEER_LIMIT && |Discovery(peers, user)| <= PEER_LIMIT
    requires p.allWorkspaces ==> forall o | o in peers && peers[o].allWorkspaces :: peers[o].role == p.role
    ensures |Discovery(peers[id := p], user)| <= PEER_LIMIT
  {
    var was := Discovery(peers, user);
    if p.allWorkspaces && p.user == user {
      assert was <= Bucket(peers, p);
      SubsetSize(was, Bucket(peers, p));
      assert Discovery(peers[id := p], user) == was + {id};
    } else {
      assert Discovery(peers[id := p], user) == was;
    }
  }

  lemma JoinKeepsInv(r: Registry, debugEnabled: bool, id: string, role: string, user: string, h: Hello,
      access: Option<map<string, string>>)
    requires Inv(r)
    ensures Inv(Join(r, debugEnabled, id, role, user, h, access))
  {
    if Admits(r, debugEnabled, id, role, user, h, access) {
      var r1 := Join(r, debugEnabled, id, role, user, h, access);
      assert Bucket(r.peers, r1.peers[id]) == Bucket(r.peers, Newcomer(r.joins, debugEnabled, role, user, h, map[]));
      AddedPeer(r.peers, id, r1.peers[id]);
      SameTablesKeep(r, r1);
      forall s | s in r1.sessions ensures EndpointsOk(r1.peers, r1.sessions[s]) {
        assert EndpointsOk(r.peers, r.sessions[s]);
      }
    }
  }

  ghost predicate SameTables(r: Registry, r1: Registry) {
    r1.sessions == r.sessions && r1.commands == r.commands && r1.asked == r.asked && r1.replies == r.replies
  }

  lemma SameTablesKeep(r: Registry, r1: Registry)
    requires Tables(r) && SameTables(r, r1)
    ensures Tables(r1)
  {
    FewerCommands(r, r1);
    forall o | o in r1.asked ensures Settled(r1, o) { assert Settled(r, o); }
    forall o | Pending(r1, o) ensures o in r1.asked { assert Pending(r, o); }
  }

  /** Changing fields that no bucket reads leaves the limits as they are. */
  lemma SameBucketsKeep(peers: map<string, Participant>, id: string, p: Participant)
    requires PeersOk(peers) && id in peers
    requires p.role == peers[id].role && p.workspace == peers[id].workspace && p.user == peers[id].user &&
        p.allWorkspaces == peers[id].allWorkspaces
    ensures PeersOk(peers[id := p])
  {
    var peers1 := peers[id := p];
    forall role, w ensures |Plain(peers1, role, w)| <= PEER_LIMIT {
      assert Plain(peers1, role, w) == Plain(peers, role, w);
    }
    forall user ensures |Discovery(peers1, user)| <= PEER_LIMIT {
      assert Discovery(peers1, user) == Discovery(peers, user);
    }
  }

  lemma RefreshKeepsSessions(r: Registry, id: string, access: map<string, string>, r1: Registry)
    requires SessionsOk(r) && id in r.peers && r.peers[id].role != "client"
    requires r1 == r.(peers := r.peers[id := r.peers[id].(access := access)])
    ensures SessionsOk(Close(r1, Revoked(r1, id), "Debug access revoked"))
  {
    var r2 := Close(r1, Revoked(r1, id), "Debug access revoked");
    forall s | s in r2.sessions ensures EndpointsOk(r2.peers, r2.sessions[s]) {
      assert EndpointsOk(r.peers, r.sessions[s]);
    }
  }

  lemma RefreshKeepsInv(r: Registry, id: string, serial: nat, access: map<string, string>)
    requires Inv(r)
    ensures Inv(Refresh(r, id, serial, access))
  {
    if id in r.peers && r.peers[id].serial == serial && r.peers[id].role != "client" {
      var r1 := r.(peers := r.peers[id := r.peers[id].(access := access)]);
      assert Tables(r1) by { SameTablesKeep(r, r1); }
      SameBucketsKeep(r.peers, id, r1.peers[id]);
      RefreshKeepsSessions(r, id, access, r1);
      assert Tables(Close(r1, Revoked(r1, id), "Debug access revoked")) by {
        CloseKeepsTables(r1, Revoked(r1, id), "Debug access revoked");
      }
    }
  }

  lemma RemovedPeer(peers: map<string, Participant>, id: string)
    requires PeersOk(peers)
    ensures PeersOk(peers - {id})
  {
    forall role, w ensures |Plain(peers - {id}, role, w)| <= PEER_LIMIT {
      SubsetSize(Plain(peers - {id}, role, w), Plain(peers, role, w));
    }
    forall user ensures |Discovery(peers - {id}, user)| <= PEER_LIMIT {
      SubsetSize(Discovery(peers - {id}, user), Discovery(peers, user));
    }
  }

  /** A peer that left takes part in nothing any more. */
  lemma LeaveReleases(r: Registry, id: string)
    requires SessionsOk(r)
    ensures id !in Leave(r, id).peers && Joined(Leave(r, id), id) == {}
  {
    if id !in r.peers {
      forall s | s in r.sessions ensures s !in Joined(r, id) { assert EndpointsOk(r.peers, r.sessions[s]); }
    }
  }

  lemma LeaveKeepsInv(r: Registry, id: string)
    requires Inv(r)
    ensures Inv(Leave(r, id))
  {
    if id in r.peers {
      var r1 := r.(peers := r.peers - {id});
      assert Tables(r1) by { SameTablesKeep(r, r1); }
      RemovedPeer(r.peers, id);
      CloseKeepsTables(r1, Joined(r, id), "Connection closed");
      LeaveKeepsSessions(r, id);
    }
  }

  lemma LeaveKeepsSessions(r: Registry, id: string)
    requires SessionsOk(r)
    ensures SessionsOk(Leave(r, id))
  {
    var r2 := Leave(r, id);
    forall s | s in r2.sessions ensures EndpointsOk(r2.peers, r2.sessions[s]) {
      assert EndpointsOk(r.peers, r.sessions[s]);
    }
  }

  // ---------------------------------------------------------------- operations

  /** The identifier supply never repeats a session or command identifier. */
  ghost predicate Unused(r: Registry, uuid: string) {
    OfSession(uuid) !in r.asked && OfCommand(uuid) !in r.asked && uuid !in r.sessions
  }

  lemma RequestSettles(r: Registry, id: string, m: Message, now: int, uuid: string, o: Origin)
    requires CommandsOk(r) && id in r.peers && Unused(r, uuid) && CanRequest(r, id, m, now)
    requires o in r.asked && o in r.replies && Settled(r, o)
    ensures Settled(RequestSession(r, id, m, now, uuid), o)
  {
  }

  lemma RequestKeepsTables(r: Registry, id: string, m: Message, now: int, uuid: string)
    requires Tables(r) && id in r.peers && Unused(r, uuid) && CanRequest(r, id, m, now)
    ensures Tables(RequestSession(r, id, m, now, uuid))
  {
    var r1 := RequestSession(r, id, m, now, uuid);
    forall s | s in r1.sessions ensures |PendingOf(r1, s)| <= COMMAND_LIMIT {
      assert PendingOf(r1, s) == PendingOf(r, s);
      if s == uuid { assert PendingOf(r, s) == {}; }
    }
    forall o | o in r1.asked ensures Settled(r1, o) {
      if o != OfSession(uuid) { RequestSettles(r, id, m, now, uuid, o); }
    }
    forall o | Pending(r1, o) ensures o in r1.asked { if o != OfSession(uuid) { assert Pending(r, o); } }
  }

  lemma RequestKeepsInv(r: Registry, id: string, m: Message, now: int, uuid: string)
    requires Inv(r) && id in r.peers && Unused(r, uuid)
    ensures Inv(RequestSession(r, id, m, now, uuid))
  {
    if CanRequest(r, id, m, now) {
      var r1 := RequestSession(r, id, m, now, uuid);
      RequestKeepsTables(r, id, m, now, uuid);
      SameBucketsKeep(r.peers, id, r1.peers[id]);
      forall s | s in r1.sessions ensures EndpointsOk(r1.peers, r1.sessions[s]) {
        if s != uuid { assert EndpointsOk(r.peers, r.sessions[s]); }
      }
    }
  }

  lemma AcceptSettles(r: Registry, id: string, m: Message, now: int, o: Origin)
    requires CommandsOk(r) && r.asked.Keys == r.replies.Keys && id in r.peers && CanAccept(r, id, m) && m.accepted
    requires o in r.asked && Settled(r, o)
    ensures o in AcceptSession(r, id, m, now).replies && Settled(AcceptSession(r, id, m, now), o)
  {
  }

  lemma AcceptKeepsTables(r: Registry, id: string, m: Message, now: int)
    requires Tables(r) && id in r.peers && CanAccept(r, id, m) && m.accepted
    ensures Tables(AcceptSession(r, id, m, now))
  {
    FewerCommands(r, AcceptSession(r, id, m, now));
    AcceptAccounts(r, id, m, now);
  }

  lemma AcceptAccounts(r: Registry, id: string, m: Message, now: int)
    requires CommandsOk(r) && Accounted(r) && id in r.peers && CanAccept(r, id, m) && m.accepted
    ensures Accounted(AcceptSession(r, id, m, now))
  {
    var r1 := AcceptSession(r, id, m, now);
    assert Pending(r, OfSession(m.sessionId));
    forall o | o in r1.asked ensures Settled(r1, o) { AcceptSettles(r, id, m, now, o); }
    forall o | Pending(r1, o) ensures o in r1.asked { assert Pending(r, o); }
  }

  lemma AcceptKeepsInv(r: Registry, id: string, m: Message, now: int)
    requires Inv(r) && id in r.peers
    ensures Inv(AcceptSession(r, id, m, now))
  {
    if CanAccept(r, id, m) {
      if !m.accepted {
        CloseKeepsTables(r, {m.sessionId}, "Client declined the connection");
      } else {
        var r1 := AcceptSession(r, id, m, now);
        AcceptKeepsTables(r, id, m, now);
        forall s | s in r1.sessions ensures EndpointsOk(r1.peers, r1.sessions[s]) {
          assert EndpointsOk(r.peers, r.sessions[s]);
        }
      }
    }
  }

  lemma CommandSettles(r: Registry, id: string, m: Message, now: int, uuid: string, o: Origin)
    requires CommandsOk(r) && id in r.peers && Unused(r, uuid) && CanCommand(r, id, m)
    requires o in r.asked && o in r.replies && Settled(r, o)
    ensures Settled(RequestCommand(r, id, m, now, uuid, true), o)
  {
  }

  lemma CommandBounds(r: Registry, id: string, m: Message, now: int, uuid: string)
    requires Bounded(r) && id in r.peers && uuid !in r.commands && CanCommand(r, id, m)
    ensures Bounded(RequestCommand(r, id, m, now, uuid, true))
  {
    var r1 := RequestCommand(r, id, m, now, uuid, true);
    forall s | s in r1.sessions ensures |PendingOf(r1, s)| <= COMMAND_LIMIT {
      if s == m.sessionId {
        assert PendingOf(r1, s) == PendingOf(r, s) + {uuid};
      } else {
        assert PendingOf(r1, s) == PendingOf(r, s);
      }
    }
  }

  lemma CommandKeepsTables(r: Registry, id: string, m: Message, now: int, uuid: string)
    requires Tables(r) && id in r.peers && Unused(r, uuid) && CanCommand(r, id, m)
    ensures Tables(RequestCommand(r, id, m, now, uuid, true))
  {
    var r1 := RequestCommand(r, id, m, now, uuid, true);
    assert !Pending(r, OfCommand(uuid));
    CommandBounds(r, id, m, now, uuid);
    forall o | o in r1.asked ensures Settled(r1, o) {
      if o != OfCommand(uuid) { CommandSettles(r, id, m, now, uuid, o); }
    }
    forall o | Pending(r1, o) ensures o in r1.asked { if o != OfCommand(uuid) { assert Pending(r, o); } }
  }

  lemma CommandKeepsInv(r: Registry, id: string, m: Message, now: int, uuid: string, delivered: bool)
    requires Inv(r) && id in r.peers && Unused(r, uuid)
    ensures Inv(RequestCommand(r, id, m, now, uuid, delivered))
  {
    if CanCommand(r, id, m) {
      CommandKeepsTables(r, id, m, now, uuid);
      if !delivered {
        CloseKeepsTables(RequestCommand(r, id, m, now, uuid, true), {m.sessionId}, "Client is unavailable");
      }
    }
  }

  lemma ResultSettles(r: Registry, id: string, m: Message, o: Origin)
    requires CommandsOk(r) && r.asked.Keys == r.replies.Keys && CanAnswer(r, id, m)
    requires o in r.asked && Settled(r, o)
    ensures o in CommandResult(r, id, m).replies && Settled(CommandResult(r, id, m), o)
  {
  }

  lemma ResultKeepsInv(r: Registry, id: string, m: Message)
    requires Inv(r)
    ensures Inv(CommandResult(r, id, m))
  {
    if CanAnswer(r, id, m) {
      var r1 := CommandResult(r, id, m);
      assert Pending(r, OfCommand(m.id));
      FewerCommands(r, r1);
      forall o | o in r1.asked ensures Settled(r1, o) { ResultSettles(r, id, m, o); }
      forall o | Pending(r1, o) ensures o in r1.asked { assert Pending(r, o); }
    }
  }

  lemma DispatchKeepsInv(r: Registry, id: string, m: Message, now: int, uuid: string, delivered: bool)
    requires Inv(r) && Unused(r, uuid)
    ensures Inv(Dispatch(r, id, m, now, uuid, delivered))
  {
    if id in r.peers {
      ExpireKeepsInv(r, now);
      var r1 := Expire(r, now);
      if m.kind == "requestSession" { RequestKeepsInv(r1, id, m, now, uuid); }
      else if m.kind == "acceptSession" { AcceptKeepsInv(r1, id, m, now); }
      else if m.kind == "endSession" { CloseKeepsTables(r1, {m.sessionId}, "Session ended"); }
      else if IsCommand(m.kind) { CommandKeepsInv(r1, id, m, now, uuid, delivered); }
      else if IsEvent(m.kind) { CloseKeepsTables(r1, {m.sessionId}, "Configurator is unavailable"); }
      else if m.kind == "commandResult" { ResultKeepsInv(r1, id, m); }
    }
  }

  // ---------------------------------------------------------------- runs

  datatype Event =
    | Joins(id: string, role: string, user: string, hello: Hello, authorized: Option<map<string, string>>)
    | Refreshes(id: string, serial: nat, access: map<string, string>)
    | Leaves(id: string)
    | Sweeps(now: int)
    | Sends(id: string, message: Message, now: int, uuid: string, delivered: bool)

  function Step(r: Registry, debugEnabled: bool, e: Event): Registry {
    match e
    case Joins(id, role, user, hello, authorized) => Join(r, debugEnabled, id, role, user, hello, authorized)
    case Refreshes(id, serial, access) => Refresh(r, id, serial, access)
    case Leaves(id) => Leave(r, id)
    case Sweeps(now) => Expire(r, now)
    case Sends(id, message, now, uuid, delivered) => Dispatch(r, id, message, now, uuid, delivered)
  }

  function Run(debugEnabled: bool, events: seq<Event>): Registry {
    if events == [] then EMPTY else Step(Run(debugEnabled, events[..|events| - 1]), debugEnabled, events[|events| - 1])
  }

  /** Generated identifiers are new when they are used. */
  ghost predicate Supplied(debugEnabled: bool, events: seq<Event>) {
    forall i | 0 <= i < |events| :: events[i].Sends? ==> Unused(Run(debugEnabled, events[..i]), events[i].uuid)
  }

  lemma {:induction false} RunKeepsInv(debugEnabled: bool, events: seq<Event>)
    requires Supplied(debugEnabled, events)
    ensures Inv(Run(debugEnabled, events))
  {
    if events == [] {
      assert forall role, w :: Plain(EMPTY.peers, role, w) == {};
      assert forall user :: Discovery(EMPTY.peers, user) == {};
    } else {
      var before := events[..|events| - 1];
      forall i | 0 <= i < |before| ensures before[i].Sends? ==> Unused(Run(debugEnabled, before[..i]), before[i].uuid) {
        assert before[..i] == events[..i];
      }
      RunKeepsInv(debugEnabled, before);
      var r := Run(debugEnabled, before);
      match events[|events| - 1]
      case Joins(id, role, user, hello, authorized) => JoinKeepsInv(r, debugEnabled, id, role, user, hello, authorized);
      case Refreshes(id, serial, access) => RefreshKeepsInv(r, id, serial, access);
      case Leaves(id) => LeaveKeepsInv(r, id);
      case Sweeps(now) => ExpireKeepsInv(r, now);
      case Sends(id, message, now, uuid, delivered) => DispatchKeepsInv(r, id, message, now, uuid, delivered);
    }
  }

  /** A refresh that no longer allows the workspace ends the session with its commands. */
  lemma RevocationEndsSession(r: Registry, s: string, access: map<string, string>)
    requires SessionsOk(r) && s in r.sessions
    requires !r.peers[r.sessions[s].configurator].(access := access).CanDebug(r.sessions[s].workspace)
    ensures var id := r.sessions[s].configurator; var r1 := Refresh(r, id, r.peers[id].serial, access);
      s !in r1.sessions && (forall c | c in r.commands && r.commands[c].session == s :: c !in r1.commands)
  {
    assert EndpointsOk(r.peers, r.sessions[s]);
  }

  /** Once a session is gone no late message of its client has an effect beyond the expiry
      sweep: nothing is forwarded and nothing is answered. */
  lemma LateClientIsSilent(r: Registry, client: string, m: Message, now: int, uuid: string, delivered: bool)
    requires m.sessionId !in r.sessions && client in r.peers
    requires m.kind == "acceptSession" || m.kind == "commandResult" || IsEvent(m.kind)
    ensures Dispatch(r, client, m, now, uuid, delivered) == Expire(r, now)
  {
    assert m.sessionId !in Expire(r, now).sessions;
  }

  /** `o` keeps its answer and is not pending in `r1`. */
  ghost predicate Final(r: Registry, r1: Registry, o: Origin)
    requires o in r.replies
  {
    o in r1.replies && r1.replies[o] == r.replies[o] && !Pending(r1, o)
  }

  lemma CloseIsFinal(r: Registry, ids: set<string>, error: string, o: Origin)
    requires o in r.replies && !Pending(r, o)
    ensures Final(r, Close(r, ids, error), o)
  {
  }

  lemma ExpireIsFinal(r: Registry, now: int, o: Origin)
    requires o in r.replies && !Pending(r, o)
    ensures Final(r, Expire(r, now), o)
  {
    CloseIsFinal(r, Late(r, now), "Session expired", o);
  }

  lemma RefreshIsFinal(r: Registry, id: string, serial: nat, access: map<string, string>, o: Origin)
    requires o in r.replies && !Pending(r, o)
    ensures Final(r, Refresh(r, id, serial, access), o)
  {
    if id in r.peers {
      var r1 := r.(peers := r.peers[id := r.peers[id].(access := access)]);
      CloseIsFinal(r1, Revoked(r1, id), "Debug access revoked", o);
    }
  }

  lemma LeaveIsFinal(r: Registry, id: string, o: Origin)
    requires o in r.replies && !Pending(r, o)
    ensures Final(r, Leave(r, id), o)
  {
    CloseIsFinal(r.(peers := r.peers - {id}), Joined(r, id), "Connection closed", o);
  }

  lemma RequestIsFinal(r: Registry, id: string, m: Message, now: int, uuid: string, o: Origin)
    requires id in r.peers && Unused(r, uuid) && o in r.asked && o in r.replies && !Pending(r, o)
    ensures Final(r, RequestSession(r, id, m, now, uuid), o)
  {
  }

  lemma AcceptIsFinal(r: Registry, id: string, m: Message, now: int, o: Origin)
    requires id in r.peers && o in r.replies && !Pending(r, o)
    ensures Final(r, AcceptSession(r, id, m, now), o)
  {
  }

  lemma CommandIsFinal(r: Registry, id: string, m: Message, now: int, uuid: string, delivered: bool, o: Origin)
    requires id in r.peers && Unused(r, uuid) && o in r.asked && o in r.replies && !Pending(r, o)
    ensures Final(r, RequestCommand(r, id, m, now, uuid, delivered), o)
  {
  }

  lemma DispatchIsFinal(r: Registry, id: string, m: Message, now: int, uuid: string, delivered: bool, o: Origin)
    requires id in r.peers && Unused(r, uuid) && o in r.asked && o in r.replies && !Pending(r, o)
    ensures Final(r, Dispatch(r, id, m, now, uuid, delivered), o)
  {
    ExpireIsFinal(r, now, o);
    var r1 := Expire(r, now);
    if m.kind == "requestSession" { RequestIsFinal(r1, id, m, now, uuid, o); }
    else if m.kind == "acceptSession" { AcceptIsFinal(r1, id, m, now, o); }
    else if m.kind == "endSession" { CloseIsFinal(r1, {m.sessionId}, "Session ended", o); }
    else if IsCommand(m.kind) { CommandIsFinal(r1, id, m, now, uuid, delivered, o); }
    else if IsEvent(m.kind) { CloseIsFinal(r1, {m.sessionId}, "Configurator is unavailable", o); }
  }

  /** A result that was sent is final: no later step changes it or sends another. */
  lemma AnswersAreFinal(r: Registry, debugEnabled: bool, e: Event, o: Origin)
    requires Accounted(r) && (e.Sends? ==> Unused(r, e.uuid)) && o in r.asked && !Pending(r, o)
    ensures Final(r, Step(r, debugEnabled, e), o)
  {
    match e
    case Joins(_, _, _, _, _) =>
    case Refreshes(id, serial, access) => RefreshIsFinal(r, id, serial, access, o);
    case Leaves(id) => LeaveIsFinal(r, id, o);
    case Sweeps(now) => ExpireIsFinal(r, now, o);
    case Sends(id, m, now, uuid, delivered) => if id in r.peers { DispatchIsFinal(r, id, m, now, uuid, delivered, o); }
  }

  // ---------------------------------------------------------------- counting

  ghost function Inactive(r: Registry): set<string> { set s | s in r.sessions && !r.sessions[s].active }

  ghost function Answered(r: Registry): set<Origin> { set o | o in r.asked && o in r.replies && |r.replies[o]| == 1 }

  lemma {:induction false} SessionOriginCount(ids: set<string>)
    ensures |set s | s in ids :: OfSession(s)| == |ids|
  {
    if ids != {} {
      var s :| s in ids;
      SessionOriginCount(ids - {s});
      assert (set x | x in ids :: OfSession(x)) == (set x | x in ids - {s} :: OfSession(x)) + {OfSession(s)};
    }
  }

  lemma {:induction false} CommandOriginCount(ids: set<string>)
    ensures |set c | c in ids :: OfCommand(c)| == |ids|
  {
    if ids != {} {
      var c :| c in ids;
      CommandOriginCount(ids - {c});
      assert (set x | x in ids :: OfCommand(x)) == (set x | x in ids - {c} :: OfCommand(x)) + {OfCommand(c)};
    }
  }

  ghost function Waiters(r: Registry): set<Origin> {
    (set s | s in Inactive(r) :: OfSession(s)) + (set c | c in r.commands.Keys :: OfCommand(c))
  }

  lemma WaiterCount(r: Registry)
    ensures |Waiters(r)| == |Inactive(r)| + |r.commands|
  {
    SessionOriginCount(Inactive(r));
    CommandOriginCount(r.commands.Keys);
    assert (set s | s in Inactive(r) :: OfSession(s)) !! (set c | c in r.commands.Keys :: OfCommand(c));
  }

  lemma WaitersArePending(r: Registry, o: Origin)
    ensures o in Waiters(r) <==> Pending(r, o)
  {
  }

  /** accepted = answered + inactive sessions + pending commands */
  lemma Conservation(r: Registry)
    requires Accounted(r)
    ensures |r.asked| == |Answered(r)| + |Inactive(r)| + |r.commands|
  {
    WaiterCount(r);
    forall o ensures (o in r.asked <==> o in Answered(r) || o in Waiters(r)) && !(o in Answered(r) && o in Waiters(r)) {
      AnsweredOrWaiting(r, o);
    }
    Parts(r.asked.Keys, Answered(r), Waiters(r));
    assert |r.asked| == |r.asked.Keys|;
  }

  lemma AnsweredOrWaiting(r: Registry, o: Origin)
    requires Accounted(r)
    ensures o in r.asked <==> o in Answered(r) || o in Waiters(r)
    ensures !(o in Answered(r) && o in Waiters(r))
  {
    WaitersArePending(r, o);
    if o in r.asked { assert Settled(r, o); }
  }

  lemma Parts<T>(all: set<T>, a: set<T>, b: set<T>)
    requires forall x :: (x in all <==> x in a || x in b) && !(x in a && x in b)
    ensures |all| == |a| + |b|
  {
    assert all == a + b && a !! b;
  }

  ghost function Clients(r: Registry): set<string> { set o | o in r.peers && r.peers[o].role == "client" }

  lemma {:induction false} CommandCount(r: Registry, ids: set<string>)
    requires Bounded(r) && ids <= r.sessions.Keys
    ensures |set c | c in r.commands && r.commands[c].session in ids| <= COMMAND_LIMIT * |ids|
  {
    var pending := set c | c in r.commands && r.commands[c].session in ids;
    if ids == {} {
      assert pending == {};
    } else {
      var s :| s in ids;
      CommandCount(r, ids - {s});
      assert pending == (set c | c in r.commands && r.commands[c].session in ids - {s}) + PendingOf(r, s);
    }
  }

  lemma {:induction false} SessionCount(r: Registry, ids: set<string>)
    requires Exclusive(r) && ids <= r.sessions.Keys
    ensures |set s | s in ids :: r.sessions[s].client| == |ids|
  {
    if ids != {} {
      var s :| s in ids;
      SessionCount(r, ids - {s});
      assert (set x | x in ids :: r.sessions[x].client)
          == (set x | x in ids - {s} :: r.sessions[x].client) + {r.sessions[s].client};
    }
  }

  /** There are at most eight pending commands for every registered client. */
  lemma CommandsPerClient(r: Registry)
    requires Inv(r)
    ensures |r.commands| <= COMMAND_LIMIT * |Clients(r)|
  {
    CommandCount(r, r.sessions.Keys);
    assert r.commands.Keys == set c | c in r.commands && r.commands[c].session in r.sessions.Keys;
    SessionCount(r, r.sessions.Keys);
    var used := set s | s in r.sessions.Keys :: r.sessions[s].client;
    forall c | c in used ensures c in Clients(r) {
      var s :| s in r.sessions && r.sessions[s].client == c;
      assert EndpointsOk(r.peers, r.sessions[s]);
    }
    SubsetSize(used, Clients(r));
  }

  // ---------------------------------------------------------------- answers in time

  /** Every request still pending falls due at most the request time after `now`. */
  ghost predicate DueSoon(r: Registry, now: int) {
    && (forall s | s in r.sessions && !r.sessions[s].active :: r.sessions[s].deadline <= now + REQUEST_TTL)
    && (forall c | c in r.commands :: r.commands[c].deadline <= now + REQUEST_TTL)
  }

  /** The event happens at `now` or before. */
  predicate By(e: Event, now: int) { (e.Sweeps? || e.Sends?) ==> e.now <= now }

  lemma CloseKeepsDue(r: Registry, ids: set<string>, error: string, now: int)
    requires DueSoon(r, now)
    ensures DueSoon(Close(r, ids, error), now)
  {
  }

  lemma ExpireKeepsDue(r: Registry, at: int, now: int)
    requires DueSoon(r, now)
    ensures DueSoon(Expire(r, at), now)
  {
  }

  lemma ResultKeepsDue(r: Registry, id: string, m: Message, now: int)
    requires DueSoon(r, now)
    ensures DueSoon(CommandResult(r, id, m), now)
  {
  }

  lemma RequestKeepsDue(r: Registry, id: string, m: Message, at: int, uuid: string, now: int)
    requires DueSoon(r, now) && at <= now && id in r.peers
    ensures DueSoon(RequestSession(r, id, m, at, uuid), now)
  {
  }

  lemma AcceptKeepsDue(r: Registry, id: string, m: Message, at: int, now: int)
    requires DueSoon(r, now) && at <= now && id in r.peers
    ensures DueSoon(AcceptSession(r, id, m, at), now)
  {
  }

  lemma CommandKeepsDue(r: Registry, id: string, m: Message, at: int, uuid: string, delivered: bool, now: int)
    requires DueSoon(r, now) && at <= now && id in r.peers
    ensures DueSoon(RequestCommand(r, id, m, at, uuid, delivered), now)
  {
  }

  lemma DispatchKeepsDue(r: Registry, id: string, m: Message, at: int, uuid: string, delivered: bool, now: int)
    requires DueSoon(r, now) && at <= now
    ensures DueSoon(Dispatch(r, id, m, at, uuid, delivered), now)
  {
    if id in r.peers {
      var r1 := Expire(r, at);
      ExpireKeepsDue(r, at, now);
      if m.kind == "requestSession" { RequestKeepsDue(r1, id, m, at, uuid, now); }
      else if m.kind == "acceptSession" { AcceptKeepsDue(r1, id, m, at, now); }
      else if m.kind == "endSession" { CloseKeepsDue(r1, {m.sessionId}, "Session ended", now); }
      else if IsCommand(m.kind) { CommandKeepsDue(r1, id, m, at, uuid, delivered, now); }
      else if IsEvent(m.kind) { CloseKeepsDue(r1, {m.sessionId}, "Configurator is unavailable", now); }
      else if m.kind == "commandResult" { ResultKeepsDue(r1, id, m, now); }
    }
  }

  lemma StepKeepsDue(r: Registry, debugEnabled: bool, e: Event, now: int)
    requires DueSoon(r, now) && By(e, now)
    ensures DueSoon(Step(r, debugEnabled, e), now)
  {
    if e.Sends? { DispatchKeepsDue(r, e.id, e.message, e.now, e.uuid, e.delivered, now); }
  }

  lemma {:induction false} RunKeepsDue(debugEnabled: bool, events: seq<Event>, now: int)
    requires forall i | 0 <= i < |events| :: By(events[i], now)
    ensures DueSoon(Run(debugEnabled, events), now)
  {
    if events != [] {
      var rest := events[..|events| - 1];
      assert forall i | 0 <= i < |rest| :: rest[i] == events[i];
      RunKeepsDue(debugEnabled, rest, now);
      StepKeepsDue(Run(debugEnabled, rest), debugEnabled, events[|events| - 1], now);
    }
  }

  /** After any run, a sweep the request time later leaves no request unanswered: each has been
      answered exactly once, to the peer that asked. */
  lemma AllAnsweredInTime(debugEnabled: bool, events: seq<Event>, now: int, o: Origin)
    requires Supplied(debugEnabled, events) && forall i | 0 <= i < |events| :: By(events[i], now)
    ensures var r := Expire(Run(debugEnabled, events), now + REQUEST_TTL);
      o in r.asked ==>
        && o in r.replies && |r.replies[o]| == 1
        && Ask(r.replies[o][0].to, r.replies[o][0].requestId) == r.asked[o]
  {
    var r := Run(debugEnabled, events);
    RunKeepsInv(debugEnabled, events);
    RunKeepsDue(debugEnabled, events, now);
    ExpireKeepsInv(r, now + REQUEST_TTL);
    ExpireIsExact(r, now + REQUEST_TTL);
    NothingPending(Expire(r, now + REQUEST_TTL), o);
  }

  lemma NothingPending(r: Registry, o: Origin)
    requires Accounted(r) && r.commands == map[] && forall s | s in r.sessions :: r.sessions[s].active
    ensures o in r.asked ==>
      && o in r.replies && |r.replies[o]| == 1
      && Ask(r.replies[o][0].to, r.replies[o][0].requestId) == r.asked[o]
  {
    if o in r.asked { assert Settled(r, o); }
  }
}
