/**
 The registry of the debug bridge as a value, and what each critical section of
 internal/usecase/bridge/usecase.go does to it.  The class in Bridge.dfy is proved
 against these functions and BridgeSafety.dfy proves what every run of them keeps.
 Times are milliseconds; one critical section reads the clock once.
 */
module BridgeRegistry {
  import opened Wrappers
  import opened Text

  const REQUEST_TTL := 45_000
  const SESSION_TTL := 1_800_000
  const REQUEST_PAUSE := 5_000
  const PEER_LIMIT := 64
  const COMMAND_LIMIT := 8
  const MAX_EVENT_BYTES := 1024 * 1024
  const MAX_INSPECTION_BYTES := 15 * 1024 * 1024
  const MAX_COMMAND_BYTES := 64 * 1024

  predicate CanWrite(role: string) {
    role == "editor" || role == "admin" || role == "platform_admin"
  }

  /** `serial` stands for the identity of the participant object: a peer that leaves and
      joins again under its old connection id gets a new one.  `access` is the last
      refreshed permission projection, from workspace to access role. */
  datatype Participant = Participant(
    serial: nat, role: string, workspace: string, user: string, debug: bool,
    allWorkspaces: bool, access: map<string, string>, lastRequest: Option<int>)
  {
    predicate CanDebug(target: string) {
      debug && role == "configurator" && target in access && CanWrite(access[target])
    }
  }

  datatype Session = Session(
    client: string, configurator: string, workspace: string, requestId: string,
    active: bool, deadline: int)

  datatype Command = Command(session: string, requestId: string, deadline: int)

  /** What a `result` message can answer: a session request or a forwarded command. */
  datatype Origin = OfSession(session: string) | OfCommand(command: string)

  /** An accepted request and the peer that waits for its result. */
  datatype Ask = Ask(to: string, requestId: string)

  /** A `result` message handed to delivery; an empty error is a success. */
  datatype Reply = Reply(to: string, requestId: string, error: string)

  datatype Registry = Registry(
    peers: map<string, Participant>,
    sessions: map<string, Session>,
    commands: map<string, Command>,
    asked: map<Origin, Ask>,
    replies: map<Origin, seq<Reply>>,
    joins: nat)

  const EMPTY := Registry(map[], map[], map[], map[], map[], 0)

  datatype Hello = Hello(protocol: int, workspace: string, caption: string, debug: bool, allWorkspaces: bool)

  /** `dataValid` stands for json.Valid(Data). */
  datatype Message = Message(
    kind: string, id: string, sessionId: string, targetId: string, identity: string,
    expectedHash: string, accepted: bool, data: string, dataValid: bool, error: string)

  // ---------------------------------------------------------------- replies

  function Log(replies: map<Origin, seq<Reply>>, o: Origin): seq<Reply> {
    if o in replies then replies[o] else []
  }

  function Append(log: seq<Reply>, due: Option<Reply>): seq<Reply> {
    if due.Some? then log + [due.value] else log
  }

  /** The result that ending the sessions `ids` owes to `o`, if any. */
  function Due(r: Registry, ids: set<string>, error: string, o: Origin): Option<Reply> {
    match o
    case OfSession(s) =>
      if s in ids && s in r.sessions && !r.sessions[s].active
      then Some(Reply(r.sessions[s].configurator, r.sessions[s].requestId, error)) else None
    case OfCommand(c) =>
      if c in r.commands && r.commands[c].session in ids && r.commands[c].session in r.sessions
      then Some(Reply(r.sessions[r.commands[c].session].configurator, r.commands[c].requestId, error)) else None
  }

  /** All sessions `ids` ended at once for one reason. */
  function Close(r: Registry, ids: set<string>, error: string): Registry {
    r.(sessions := map s | s in r.sessions && s !in ids :: r.sessions[s],
       commands := map c | c in r.commands && !(r.commands[c].session in ids && r.commands[c].session in r.sessions) ::
           r.commands[c],
       replies := map o | o in r.replies :: Append(r.replies[o], Due(r, ids, error, o)))
  }

  function Late(r: Registry, now: int): set<string> {
    set s | s in r.sessions && r.sessions[s].deadline <= now
  }

  function TimedOut(r: Registry, now: int, o: Origin): Option<Reply> {
    match o
    case OfSession(_) => None
    case OfCommand(c) =>
      if c in r.commands && r.commands[c].deadline <= now && r.commands[c].session in r.sessions
      then Some(Reply(r.sessions[r.commands[c].session].configurator, r.commands[c].requestId,
          "Client command timed out")) else None
  }

  function DropLateCommands(r: Registry, now: int): Registry {
    r.(commands := map c | c in r.commands && r.commands[c].deadline > now :: r.commands[c],
       replies := map o | o in r.replies :: Append(r.replies[o], TimedOut(r, now, o)))
  }

  function Expire(r: Registry, now: int): Registry {
    DropLateCommands(Close(r, Late(r, now), "Session expired"), now)
  }

  // ---------------------------------------------------------------- peers

  predicate SameBucket(p: Participant, other: Participant) {
    other.role == p.role &&
    (if p.allWorkspaces then other.user == p.user else other.workspace == p.workspace)
  }

  function Bucket(peers: map<string, Participant>, p: Participant): set<string> {
    set o | o in peers && SameBucket(p, peers[o])
  }

  predicate HelloValid(debugEnabled: bool, role: string, h: Hello) {
    && h.protocol == 1
    && (h.workspace != "" || (role == "configurator" && h.debug && h.allWorkspaces))
    && |h.workspace| <= 160 && |h.caption| <= 160
    && (role == "client" || role == "configurator")
    && (h.allWorkspaces ==> role == "configurator" && h.debug)
    && (role == "client" ==> debugEnabled && h.debug)
  }

  /** `access` is what authorization returned for a configurator, None when it failed. */
  function Newcomer(serial: nat, debugEnabled: bool, role: string, user: string, h: Hello,
      access: map<string, string>): Participant
  {
    Participant(serial, role, h.workspace, user, h.debug && debugEnabled, h.allWorkspaces,
                if role == "configurator" then access else map[], None)
  }

  predicate Admits(r: Registry, debugEnabled: bool, id: string, role: string, user: string, h: Hello,
      access: Option<map<string, string>>)
  {
    && HelloValid(debugEnabled, role, h)
    && (role == "configurator" ==> access.Some?)
    && id !in r.peers
    && |Bucket(r.peers, Newcomer(r.joins, debugEnabled, role, user, h, map[]))| < PEER_LIMIT
  }

  function Join(r: Registry, debugEnabled: bool, id: string, role: string, user: string, h: Hello,
      access: Option<map<string, string>>): Registry
  {
    if !Admits(r, debugEnabled, id, role, user, h, access) then r
    else
      r.(peers := r.peers[id := Newcomer(r.joins, debugEnabled, role, user, h, if access.Some? then access.value
          else map[])],
         joins := r.joins + 1)
  }

  /** The sessions of configurator `id` that its projection no longer allows. */
  function Revoked(r: Registry, id: string): set<string> {
    set s | s in r.sessions && r.sessions[s].configurator == id && id in r.peers &&
        !r.peers[id].CanDebug(r.sessions[s].workspace)
  }

  /** The second critical section of Check: it only acts on the peer object it looked up. */
  function Refresh(r: Registry, id: string, serial: nat, access: map<string, string>): Registry {
    if id !in r.peers || r.peers[id].serial != serial || r.peers[id].role == "client" then r
    else
      var r1 := r.(peers := r.peers[id := r.peers[id].(access := access)]);
      Close(r1, Revoked(r1, id), "Debug access revoked")
  }

  function Joined(r: Registry, id: string): set<string> {
    set s | s in r.sessions && (r.sessions[s].client == id || r.sessions[s].configurator == id)
  }

  function Leave(r: Registry, id: string): Registry {
    if id !in r.peers then r
    else Close(r.(peers := r.peers - {id}), Joined(r, id), "Connection closed")
  }

  // ---------------------------------------------------------------- operations

  predicate CanRequest(r: Registry, id: string, m: Message, now: int)
    requires id in r.peers
  {
    var p := r.peers[id];
    && p.debug && p.role == "configurator" && m.id != ""
    && m.targetId in r.peers
    && r.peers[m.targetId].role == "client" && r.peers[m.targetId].debug
    && p.CanDebug(r.peers[m.targetId].workspace)
    && (p.lastRequest.Some? ==> now - p.lastRequest.value >= REQUEST_PAUSE)
    && (forall s | s in r.sessions :: r.sessions[s].client != m.targetId)
  }

  function RequestSession(r: Registry, id: string, m: Message, now: int, uuid: string): Registry
    requires id in r.peers
  {
    if !CanRequest(r, id, m, now) then r
    else
      r.(peers := r.peers[id := r.peers[id].(lastRequest := Some(now))],
         sessions := r.sessions[uuid := Session(m.targetId, id, r.peers[m.targetId].workspace, m.id, false,
             now + REQUEST_TTL)],
         asked := r.asked[OfSession(uuid) := Ask(id, m.id)],
         replies := r.replies[OfSession(uuid) := []])
  }

  predicate CanAccept(r: Registry, id: string, m: Message)
    requires id in r.peers
  {
    && m.sessionId in r.sessions && !r.sessions[m.sessionId].active
    && r.sessions[m.sessionId].client == id && r.peers[id].role == "client"
  }

  function AcceptSession(r: Registry, id: string, m: Message, now: int): Registry
    requires id in r.peers
  {
    if !CanAccept(r, id, m) then r
    else if !m.accepted then Close(r, {m.sessionId}, "Client declined the connection")
    else
      var s := r.sessions[m.sessionId];
      r.(sessions := r.sessions[m.sessionId := s.(active := true, deadline := now + SESSION_TTL)],
         replies := r.replies[OfSession(m.sessionId) := Log(r.replies, OfSession(m.sessionId)) +
             [Reply(s.configurator, s.requestId, "")]])
  }

  predicate IsHash(s: string) {
    |s| == 64 && forall i | 0 <= i < |s| :: 'a' <= s[i] <= 'f' || '0' <= s[i] <= '9'
  }

  predicate PayloadValid(m: Message, limit: nat) { m.data != "" && |m.data| <= limit && m.dataValid }

  predicate CommandValid(m: Message) {
    && (m.kind == "runSimulation" ==> !Blank(m.identity) && IsHash(m.expectedHash))
    && (m.kind == "executeCommand" || m.kind == "setInspectionOptions" ==> PayloadValid(m, MAX_COMMAND_BYTES))
  }

  function PendingOf(r: Registry, session: string): set<string> {
    set c | c in r.commands && r.commands[c].session == session
  }

  predicate CanCommand(r: Registry, id: string, m: Message)
    requires id in r.peers
  {
    var p := r.peers[id];
    && p.debug && m.sessionId in r.sessions && p.CanDebug(r.sessions[m.sessionId].workspace)
    && r.sessions[m.sessionId].active && r.sessions[m.sessionId].configurator == id && m.id != ""
    && CommandValid(m)
    && |PendingOf(r, m.sessionId)| < COMMAND_LIMIT
  }

  /** `delivered` is whether delivery took the message for the other endpoint. */
  function RequestCommand(r: Registry, id: string, m: Message, now: int, uuid: string, delivered: bool): Registry
    requires id in r.peers
  {
    if !CanCommand(r, id, m) then r
    else
      var r1 := r.(commands := r.commands[uuid := Command(m.sessionId, m.id, now + REQUEST_TTL)],
                   asked := r.asked[OfCommand(uuid) := Ask(id, m.id)],
                   replies := r.replies[OfCommand(uuid) := []]);
      if delivered then r1 else Close(r1, {m.sessionId}, "Client is unavailable")
  }

  predicate CanForward(r: Registry, id: string, m: Message)
    requires id in r.peers
  {
    && r.peers[id].role == "client" && r.peers[id].debug
    && m.sessionId in r.sessions && r.sessions[m.sessionId].active && r.sessions[m.sessionId].client == id
    && PayloadValid(m, if m.kind == "clientEvent" then MAX_EVENT_BYTES else MAX_INSPECTION_BYTES)
  }

  function ForwardEvent(r: Registry, id: string, m: Message, delivered: bool): Registry
    requires id in r.peers
  {
    if !CanForward(r, id, m) || delivered then r else Close(r, {m.sessionId}, "Configurator is unavailable")
  }

  predicate CanEnd(r: Registry, id: string, m: Message) {
    m.sessionId in r.sessions && (r.sessions[m.sessionId].client == id || r.sessions[m.sessionId].configurator == id)
  }

  function EndSession(r: Registry, id: string, m: Message): Registry {
    if CanEnd(r, id, m) then Close(r, {m.sessionId}, "Session ended") else r
  }

  predicate CanAnswer(r: Registry, id: string, m: Message) {
    && m.sessionId in r.sessions && r.sessions[m.sessionId].active && r.sessions[m.sessionId].client == id
    && m.id in r.commands && r.commands[m.id].session == m.sessionId
  }

  function CommandResult(r: Registry, id: string, m: Message): Registry {
    if !CanAnswer(r, id, m) then r
    else
      r.(commands := r.commands - {m.id},
         replies := r.replies[OfCommand(m.id) :=
                        Log(r.replies, OfCommand(m.id)) +
                            [Reply(r.sessions[m.sessionId].configurator, r.commands[m.id].requestId, m.error)]])
  }

  predicate IsCommand(kind: string) {
    kind in {"getSnapshot", "startContextSync", "executeCommand", "runSimulation", "refreshInspection",
        "setInspectionOptions"}
  }

  predicate IsEvent(kind: string) { kind in {"clientEvent", "inspectionSnapshot", "inspectionChunk"} }

  /** The last critical section of Handle takes the message. */
  predicate Accepts(r: Registry, id: string, m: Message, now: int) {
    id in r.peers &&
    var r1 := Expire(r, now);
    if m.kind == "requestSession" then CanRequest(r1, id, m, now)
    else if m.kind == "acceptSession" then CanAccept(r1, id, m)
    else if m.kind == "endSession" then CanEnd(r1, id, m)
    else if IsCommand(m.kind) then CanCommand(r1, id, m)
    else if IsEvent(m.kind) then CanForward(r1, id, m)
    else m.kind == "commandResult" && CanAnswer(r1, id, m)
  }

  /** The last critical section of Handle. */
  function Dispatch(r: Registry, id: string, m: Message, now: int, uuid: string, delivered: bool): Registry {
    if id !in r.peers then r
    else
      var r1 := Expire(r, now);
      if m.kind == "requestSession" then RequestSession(r1, id, m, now, uuid)
      else if m.kind == "acceptSession" then AcceptSession(r1, id, m, now)
      else if m.kind == "endSession" then EndSession(r1, id, m)
      else if IsCommand(m.kind) then RequestCommand(r1, id, m, now, uuid, delivered)
      else if IsEvent(m.kind) then ForwardEvent(r1, id, m, delivered)
      else if m.kind == "commandResult" then CommandResult(r1, id, m)
      else r1
  }
}
