/**
 What a peer of the bridge observes: when each kind of message is granted, what it changes and
 which answer goes out, in terms of the tables before the call alone.
 */
module BridgeOutcomes {
  import opened Wrappers
  import opened BridgeRegistry
  import opened BridgeSafety
  import opened BridgeHandle
  import opened Text

  /** The session has not run out. */
  predicate Live(r: Registry, s: string, now: int) { s in r.sessions && r.sessions[s].deadline > now }

  /** The last refreshed projection lets the peer debug the workspace. */
  predicate MayDebug(p: Participant, workspace: string) {
    && p.debug && p.role == "configurator" && workspace in p.access
    && (p.access[workspace] == "editor" || p.access[workspace] == "admin" || p.access[workspace] == "platform_admin")
  }

  // ---------------------------------------------------------------- joining

  /** A hello is admitted exactly under these conditions, and the newcomer is as it says. */
  lemma HelloIsAdmitted(r: Registry, debugEnabled: bool, id: string, role: string, user: string, h: Hello,
      access: Option<map<string, string>>)
    ensures var r1 := Join(r, debugEnabled, id, role, user, h, access);
      var sameBucket := set o | o in r.peers && r.peers[o].role == role &&
          (if h.allWorkspaces then r.peers[o].user == user else r.peers[o].workspace == h.workspace);
      var admitted :=
        && h.protocol == 1 && |h.workspace| <= 160 && |h.caption| <= 160 && id !in r.peers && |sameBucket| < 64
        && ((role == "client" && debugEnabled && h.debug && !h.allWorkspaces && h.workspace != "") ||
            (role == "configurator" && access.Some? &&
              (if h.allWorkspaces then h.debug else h.workspace != "")));
      && (!admitted ==> r1 == r)
      && (admitted ==>
            && r1.peers.Keys == r.peers.Keys + {id} && (forall o | o in r.peers :: r1.peers[o] == r.peers[o])
            && r1.peers[id].role == role && r1.peers[id].workspace == h.workspace && r1.peers[id].user == user
            && r1.peers[id].debug == (h.debug && debugEnabled) && r1.peers[id].allWorkspaces == h.allWorkspaces
            && r1.peers[id].lastRequest == None
            && (role == "configurator" ==> r1.peers[id].access == access.value)
            && r1.sessions == r.sessions && r1.commands == r.commands && r1.replies == r.replies)
  {
    var p := Newcomer(r.joins, debugEnabled, role, user, h, map[]);
    assert Bucket(r.peers, p) == set o | o in r.peers && r.peers[o].role == role &&
        (if h.allWorkspaces then r.peers[o].user == user else r.peers[o].workspace == h.workspace);
  }

  // ---------------------------------------------------------------- asking for a session

  ghost predicate Granted(r: Registry, id: string, m: Message, now: int)
    requires id in r.peers
  {
    && m.id != "" && m.targetId in r.peers
    && r.peers[m.targetId].role == "client" && r.peers[m.targetId].debug
    && MayDebug(r.peers[id], r.peers[m.targetId].workspace)
    && (r.peers[id].lastRequest.Some? ==> now >= r.peers[id].lastRequest.value + 5_000)
    && (forall s | Live(r, s, now) :: r.sessions[s].client != m.targetId)
  }

  /** A session request is granted exactly under those conditions.  It then waits for its client
      for 45 seconds; otherwise nothing happens beyond the sweep. */
  lemma RequestOutcome(r: Registry, id: string, m: Message, now: int, uuid: string, delivered: bool)
    requires id in r.peers && m.kind == "requestSession"
    ensures var r1 := Dispatch(r, id, m, now, uuid, delivered);
      if Granted(r, id, m, now) then
        && uuid in r1.sessions
        && r1.sessions[uuid] == Session(m.targetId, id, r.peers[m.targetId].workspace, m.id, false, now + 45_000)
        && (forall s | s != uuid :: s in r1.sessions <==> Live(r, s, now))
        && (forall s | s != uuid && s in r1.sessions :: r1.sessions[s] == r.sessions[s])
        && OfSession(uuid) in r1.asked && r1.asked[OfSession(uuid)] == Ask(id, m.id)
        && OfSession(uuid) in r1.replies && r1.replies[OfSession(uuid)] == []
        && r1.peers == r.peers[id := r.peers[id].(lastRequest := Some(now))]
      else r1 == Expire(r, now)
  {
    var swept := Expire(r, now);
    assert forall s :: s in swept.sessions <==> Live(r, s, now);
    assert forall s | s in swept.sessions :: swept.sessions[s] == r.sessions[s];
    assert CanRequest(swept, id, m, now) <==> Granted(r, id, m, now);
  }

  // ---------------------------------------------------------------- answering a session request

  /** The client answers its pending session. */
  predicate Answers(r: Registry, e: Event, s: string) {
    && e.Sends? && e.message.kind == "acceptSession" && e.message.sessionId == s
    && e.id in r.peers && r.peers[e.id].role == "client"
    && Live(r, s, e.now) && !r.sessions[s].active && r.sessions[s].client == e.id
  }

  predicate Approves(r: Registry, e: Event, s: string) { Answers(r, e, s) && e.message.accepted }

  /** The answer of the client decides: accepting opens the session for 30 minutes and tells the
      asker so, declining ends it with an error. */
  lemma AnswerDecides(r: Registry, debugEnabled: bool, e: Event, s: string)
    requires Inv(r) && Answers(r, e, s)
    ensures var r1, before, o := Step(r, debugEnabled, e), r.sessions[s], OfSession(s);
      && o in r1.replies && |r1.replies[o]| == 1
      && r1.replies[o][0].to == before.configurator && r1.replies[o][0].requestId == before.requestId
      && (if e.message.accepted then
            && s in r1.sessions && r1.sessions[s] == before.(active := true, deadline := e.now + 1_800_000)
            && r1.replies[o][0].error == ""
          else s !in r1.sessions && r1.replies[o][0].error != "")
      && (forall t | t != s :: t in r1.sessions <==> Live(r, t, e.now))
      && (forall t | t != s && t in r1.sessions :: r1.sessions[t] == r.sessions[t])
  {
    SweepLeaves(r, e.now);
    SweepSparesLive(r, s, e.now);
    AnswerAfterSweep(Expire(r, e.now), e.id, e.message, e.now);
  }

  lemma SweepSparesLive(r: Registry, s: string, now: int)
    requires Accounted(r) && Live(r, s, now) && !r.sessions[s].active
    ensures OfSession(s) in Expire(r, now).replies && Expire(r, now).replies[OfSession(s)] == []
  {
    assert Pending(r, OfSession(s));
    assert Settled(r, OfSession(s));
  }

  lemma AnswerAfterSweep(r: Registry, id: string, m: Message, now: int)
    requires id in r.peers && CanAccept(r, id, m)
    requires OfSession(m.sessionId) in r.replies && r.replies[OfSession(m.sessionId)] == []
    ensures var r1, before, o := AcceptSession(r, id, m, now), r.sessions[m.sessionId], OfSession(m.sessionId);
      && o in r1.replies && |r1.replies[o]| == 1
      && r1.replies[o][0].to == before.configurator && r1.replies[o][0].requestId == before.requestId
      && (if m.accepted then
            && m.sessionId in r1.sessions
            && r1.sessions[m.sessionId] == before.(active := true, deadline := now + 1_800_000)
            && r1.replies[o][0].error == ""
          else m.sessionId !in r1.sessions && r1.replies[o][0].error != "")
      && (forall t | t != m.sessionId :: t in r1.sessions <==> t in r.sessions)
      && (forall t | t != m.sessionId && t in r1.sessions :: r1.sessions[t] == r.sessions[t])
  {
  }

  // ---------------------------------------------------------------- commands

  /** The commands of the session that have not run out. */
  function Running(r: Registry, s: string, now: int): set<string> {
    set c | c in r.commands && r.commands[c].session == s && r.commands[c].deadline > now
  }

  predicate IsHex(c: char) { '0' <= c <= '9' || 'a' <= c <= 'f' }

  predicate WellFormed(m: Message) {
    && (m.kind == "runSimulation" ==>
          !Blank(m.identity) && |m.expectedHash| == 64 && forall i | 0 <= i < 64 :: IsHex(m.expectedHash[i]))
    && (m.kind == "executeCommand" || m.kind == "setInspectionOptions" ==>
          1 <= |m.data| <= 65_536 && m.dataValid)
  }

  predicate Commands(r: Registry, id: string, m: Message, now: int)
    requires id in r.peers
  {
    && m.id != "" && Live(r, m.sessionId, now) && r.sessions[m.sessionId].active
    && r.sessions[m.sessionId].configurator == id && MayDebug(r.peers[id], r.sessions[m.sessionId].workspace)
    && WellFormed(m) && |Running(r, m.sessionId, now)| < 8
  }

  /** A command goes through exactly under those conditions.  Delivered, it waits for its result
      for 45 seconds; otherwise its session ends and its sender gets an error. */
  lemma CommandOutcome(r: Registry, id: string, m: Message, now: int, uuid: string, delivered: bool)
    requires id in r.peers
    requires m.kind in {"getSnapshot", "startContextSync", "executeCommand", "runSimulation", "refreshInspection",
        "setInspectionOptions"}
    ensures var r1 := Dispatch(r, id, m, now, uuid, delivered);
      if !Commands(r, id, m, now) then r1 == Expire(r, now)
      else
        && OfCommand(uuid) in r1.asked && r1.asked[OfCommand(uuid)] == Ask(id, m.id) && OfCommand(uuid) in r1.replies
        && (if delivered then
              && uuid in r1.commands && r1.commands[uuid] == Command(m.sessionId, m.id, now + 45_000)
              && r1.sessions == Expire(r, now).sessions && r1.replies[OfCommand(uuid)] == []
              && (forall c | c != uuid :: c in r1.commands <==> c in Expire(r, now).commands)
            else
              && uuid !in r1.commands && m.sessionId !in r1.sessions
              && |r1.replies[OfCommand(uuid)]| == 1 && r1.replies[OfCommand(uuid)][0].to == id
              && r1.replies[OfCommand(uuid)][0].requestId == m.id && r1.replies[OfCommand(uuid)][0].error != "")
  {
    var swept := Expire(r, now);
    CommandIsTaken(r, id, m, now);
    if CanCommand(swept, id, m) { CommandAfterSweep(swept, id, m, now, uuid, delivered); }
  }

  lemma CommandAfterSweep(r: Registry, id: string, m: Message, now: int, uuid: string, delivered: bool)
    requires id in r.peers && CanCommand(r, id, m)
    ensures var r1 := RequestCommand(r, id, m, now, uuid, delivered);
      && OfCommand(uuid) in r1.asked && r1.asked[OfCommand(uuid)] == Ask(id, m.id) && OfCommand(uuid) in r1.replies
      && (if delivered then
            && uuid in r1.commands && r1.commands[uuid] == Command(m.sessionId, m.id, now + 45_000)
            && r1.sessions == r.sessions && r1.replies[OfCommand(uuid)] == []
            && (forall c | c != uuid :: c in r1.commands <==> c in r.commands)
          else
            && uuid !in r1.commands && m.sessionId !in r1.sessions
            && |r1.replies[OfCommand(uuid)]| == 1 && r1.replies[OfCommand(uuid)][0].to == id
            && r1.replies[OfCommand(uuid)][0].requestId == m.id && r1.replies[OfCommand(uuid)][0].error != "")
  {
  }

  lemma CommandIsTaken(r: Registry, id: string, m: Message, now: int)
    requires id in r.peers
    ensures CanCommand(Expire(r, now), id, m) <==> Commands(r, id, m, now)
  {
    SweepLeaves(r, now);
    if Live(r, m.sessionId, now) { PendingAfterSweep(r, m.sessionId, now); }
  }

  lemma SweepLeaves(r: Registry, now: int)
    ensures var swept := Expire(r, now);
      && (forall s :: s in swept.sessions <==> Live(r, s, now))
      && (forall s | s in swept.sessions :: swept.sessions[s] == r.sessions[s])
  {
  }

  lemma PendingAfterSweep(r: Registry, s: string, now: int)
    requires Live(r, s, now)
    ensures PendingOf(Expire(r, now), s) == Running(r, s, now)
  {
  }

  // ---------------------------------------------------------------- results and events

  /** The client of the active session answers one of its commands. */
  predicate Results(r: Registry, id: string, m: Message, now: int) {
    && id in r.peers && m.kind == "commandResult" && Live(r, m.sessionId, now) && r.sessions[m.sessionId].active
    && r.sessions[m.sessionId].client == id && m.id in Running(r, m.sessionId, now)
  }

  /** A result reaches the peer that sent the command, under its request id and with the client's
      error; otherwise nothing happens beyond the sweep. */
  lemma ResultOutcome(r: Registry, id: string, m: Message, now: int, uuid: string, delivered: bool)
    requires CommandsOk(r) && Accounted(r) && m.kind == "commandResult" && id in r.peers
    ensures var r1, o := Dispatch(r, id, m, now, uuid, delivered), OfCommand(m.id);
      if Results(r, id, m, now) then
        && o in r.asked && m.id !in r1.commands && r1.commands == Expire(r, now).commands - {m.id}
        && o in r1.replies && r1.replies[o] == [Reply(r.asked[o].to, r.asked[o].requestId, m.error)]
        && r1.sessions == Expire(r, now).sessions
      else r1 == Expire(r, now)
  {
    ResultIsTaken(r, id, m, now);
    ResultIsRouted(r, id, m, now, uuid, delivered);
    if Results(r, id, m, now) { ResultGoesOut(r, id, m, now); }
  }

  lemma ResultIsRouted(r: Registry, id: string, m: Message, now: int, uuid: string, delivered: bool)
    requires m.kind == "commandResult" && id in r.peers
    ensures Dispatch(r, id, m, now, uuid, delivered) == CommandResult(Expire(r, now), id, m)
  {
  }

  lemma ResultGoesOut(r: Registry, id: string, m: Message, now: int)
    requires Accounted(r) && Results(r, id, m, now) && CanAnswer(Expire(r, now), id, m)
    ensures var r1, o := CommandResult(Expire(r, now), id, m), OfCommand(m.id);
      && o in r.asked && m.id !in r1.commands && r1.commands == Expire(r, now).commands - {m.id}
      && o in r1.replies && r1.replies[o] == [Reply(r.asked[o].to, r.asked[o].requestId, m.error)]
      && r1.sessions == Expire(r, now).sessions
  {
    SweepSparesCommand(r, m.id, m.sessionId, now);
    ResultAfterSweep(Expire(r, now), id, m, r.asked[OfCommand(m.id)]);
  }

  lemma SweepSparesCommand(r: Registry, c: string, s: string, now: int)
    requires Accounted(r) && Live(r, s, now) && c in Running(r, s, now)
    ensures var swept, o := Expire(r, now), OfCommand(c);
      && s in swept.sessions && c in swept.commands && swept.commands[c] == r.commands[c]
      && o in r.asked && r.asked[o] == Ask(swept.sessions[s].configurator, r.commands[c].requestId)
      && o in swept.replies && swept.replies[o] == []
  {
    assert Pending(r, OfCommand(c));
    assert Settled(r, OfCommand(c));
  }

  lemma ResultAfterSweep(r: Registry, id: string, m: Message, ask: Ask)
    requires CanAnswer(r, id, m) && OfCommand(m.id) in r.replies && r.replies[OfCommand(m.id)] == []
    requires ask == Ask(r.sessions[m.sessionId].configurator, r.commands[m.id].requestId)
    ensures var r1 := CommandResult(r, id, m);
      && r1.commands == r.commands - {m.id} && r1.sessions == r.sessions
      && r1.replies[OfCommand(m.id)] == [Reply(ask.to, ask.requestId, m.error)]
  {
  }

  lemma ResultIsTaken(r: Registry, id: string, m: Message, now: int)
    requires CommandsOk(r) && id in r.peers && m.kind == "commandResult"
    ensures CanAnswer(Expire(r, now), id, m) <==> Results(r, id, m, now)
  {
    SweepLeaves(r, now);
  }

  /** The client of the active session sends an event of the allowed size. */
  predicate Forwards(r: Registry, id: string, m: Message, now: int) {
    && id in r.peers && r.peers[id].role == "client" && r.peers[id].debug && Live(r, m.sessionId, now)
    && r.sessions[m.sessionId].active && r.sessions[m.sessionId].client == id && m.dataValid
    && 1 <= |m.data| <= if m.kind == "clientEvent" then 1_048_576 else 15_728_640
  }

  lemma EventIsTaken(r: Registry, id: string, m: Message, now: int)
    requires id in r.peers && m.kind in {"clientEvent", "inspectionSnapshot", "inspectionChunk"}
    ensures CanForward(Expire(r, now), id, m) <==> Forwards(r, id, m, now)
  {
    SweepLeaves(r, now);
  }

  /** An event is taken exactly then.  It changes nothing when it was delivered; otherwise its
      session ends. */
  lemma EventOutcome(r: Registry, id: string, m: Message, now: int, uuid: string, delivered: bool)
    requires id in r.peers && m.kind in {"clientEvent", "inspectionSnapshot", "inspectionChunk"}
    ensures Accepts(r, id, m, now) <==> Forwards(r, id, m, now)
    ensures var r1 := Dispatch(r, id, m, now, uuid, delivered);
      if !Forwards(r, id, m, now) || delivered then r1 == Expire(r, now)
      else m.sessionId !in r1.sessions && forall s | s != m.sessionId :: s in r1.sessions <==> Live(r, s, now)
  {
    EventIsTaken(r, id, m, now);
    var swept := Expire(r, now);
    assert Dispatch(r, id, m, now, uuid, delivered) == ForwardEvent(swept, id, m, delivered);
    SweepLeaves(r, now);
  }

  /** Either member ends a session, and nobody else. */
  lemma EndOutcome(r: Registry, id: string, m: Message, now: int, uuid: string, delivered: bool)
    requires id in r.peers && m.kind == "endSession"
    ensures var r1 := Dispatch(r, id, m, now, uuid, delivered);
      if Live(r, m.sessionId, now) && (r.sessions[m.sessionId].client == id ||
          r.sessions[m.sessionId].configurator == id)
      then m.sessionId !in r1.sessions && forall s | s != m.sessionId :: s in r1.sessions <==> Live(r, s, now)
      else r1 == Expire(r, now)
  {
    SweepLeaves(r, now);
  }

  /** A refresh ends exactly the sessions of the peer that its new projection does not allow; one
      for a participant that has left since does nothing. */
  lemma RefreshOutcome(r: Registry, id: string, access: map<string, string>)
    requires SessionsOk(r) && id in r.peers && r.peers[id].role == "configurator"
    ensures forall serial: nat | serial != r.peers[id].serial :: Refresh(r, id, serial, access) == r
    ensures var r1, p := Refresh(r, id, r.peers[id].serial, access), r.peers[id].(access := access);
      && r1.peers == r.peers[id := p]
      && (forall s :: s in r1.sessions <==>
           s in r.sessions && (r.sessions[s].configurator == id ==> MayDebug(p, r.sessions[s].workspace)))
      && (forall s | s in r1.sessions :: r1.sessions[s] == r.sessions[s])
  {
  }

  /** A leave ends exactly the sessions the peer takes part in. */
  lemma LeaveOutcome(r: Registry, id: string)
    requires id in r.peers
    ensures var r1 := Leave(r, id);
      && r1.peers == r.peers - {id}
      && (forall s :: s in r1.sessions <==>
           s in r.sessions && r.sessions[s].configurator != id && r.sessions[s].client != id)
      && (forall s | s in r1.sessions :: r1.sessions[s] == r.sessions[s])
  {
  }

  // ---------------------------------------------------------------- over runs

  /** The answer to `o` is the client's own: it accepts the session, or sends the command's result. */
  predicate Decides(r: Registry, e: Event, o: Origin) {
    match o
    case OfSession(s) => Approves(r, e, s)
    case OfCommand(c) => e.Sends? && Results(r, e.id, e.message, e.now) && e.message.id == c
  }

  /** The request still waits for the client, or its sender was told an error. */
  ghost predicate Told(r: Registry, o: Origin) {
    o in r.replies &&
    if o.OfSession? && o.session in r.sessions then !r.sessions[o.session].active && r.replies[o] == []
    else if o.OfCommand? && o.command in r.commands then r.replies[o] == []
    else |r.replies[o]| == 1 && r.replies[o][0].error != ""
  }

  lemma CloseTells(r: Registry, ids: set<string>, error: string, o: Origin)
    requires Told(r, o) && error != ""
    ensures Told(Close(r, ids, error), o)
  {
  }

  lemma SweepTells(r: Registry, now: int, o: Origin)
    requires CommandsOk(r) && Told(r, o)
    ensures Told(Expire(r, now), o)
  {
    CloseTells(r, Late(r, now), "Session expired", o);
    DropTells(Close(r, Late(r, now), "Session expired"), now, o);
  }

  lemma DropTells(r: Registry, now: int, o: Origin)
    requires Told(r, o) && (forall c | c in r.commands :: r.commands[c].session in r.sessions)
    ensures Told(DropLateCommands(r, now), o)
  {
  }

  lemma RequestTells(r: Registry, id: string, m: Message, now: int, uuid: string, o: Origin)
    requires id in r.peers && Told(r, o) && o in r.asked && Unused(r, uuid)
    ensures Told(RequestSession(r, id, m, now, uuid), o)
  {
  }

  lemma AcceptTells(r: Registry, id: string, m: Message, now: int, o: Origin)
    requires id in r.peers && Told(r, o) && !(CanAccept(r, id, m) && m.accepted && o == OfSession(m.sessionId))
    ensures Told(AcceptSession(r, id, m, now), o)
  {
    CloseTells(r, {m.sessionId}, "Client declined the connection", o);
  }

  lemma CommandTells(r: Registry, id: string, m: Message, now: int, uuid: string, delivered: bool, o: Origin)
    requires id in r.peers && Told(r, o) && o in r.asked && Unused(r, uuid)
    ensures Told(RequestCommand(r, id, m, now, uuid, delivered), o)
  {
    if CanCommand(r, id, m) {
      CloseTells(RequestCommand(r, id, m, now, uuid, true), {m.sessionId}, "Client is unavailable", o);
    }
  }

  lemma ResultTells(r: Registry, id: string, m: Message, o: Origin)
    requires Told(r, o) && !(CanAnswer(r, id, m) && o == OfCommand(m.id))
    ensures Told(CommandResult(r, id, m), o)
  {
  }

  lemma SweptDecision(r: Registry, id: string, m: Message, now: int, uuid: string, delivered: bool, o: Origin)
    requires CommandsOk(r) && id in r.peers && !Decides(r, Sends(id, m, now, uuid, delivered), o)
    ensures m.kind == "acceptSession" ==>
        !(CanAccept(Expire(r, now), id, m) && m.accepted && o == OfSession(m.sessionId))
    ensures m.kind == "commandResult" ==> !(CanAnswer(Expire(r, now), id, m) && o == OfCommand(m.id))
  {
    SweepLeaves(r, now);
    if m.kind == "commandResult" { ResultIsTaken(r, id, m, now); }
  }

  lemma DispatchTells(r: Registry, id: string, m: Message, now: int, uuid: string, delivered: bool, o: Origin)
    requires CommandsOk(r) && Told(r, o) && o in r.asked && Unused(r, uuid)
    requires !Decides(r, Sends(id, m, now, uuid, delivered), o)
    ensures Told(Dispatch(r, id, m, now, uuid, delivered), o)
  {
    if id in r.peers {
      var r1 := Expire(r, now);
      SweepTells(r, now, o);
      SweptDecision(r, id, m, now, uuid, delivered, o);
      if m.kind == "requestSession" { RequestTells(r1, id, m, now, uuid, o); }
      else if m.kind == "acceptSession" { AcceptTells(r1, id, m, now, o); }
      else if m.kind == "endSession" { CloseTells(r1, {m.sessionId}, "Session ended", o); }
      else if IsCommand(m.kind) { CommandTells(r1, id, m, now, uuid, delivered, o); }
      else if IsEvent(m.kind) { CloseTells(r1, {m.sessionId}, "Configurator is unavailable", o); }
      else if m.kind == "commandResult" { ResultTells(r1, id, m, o); }
    }
  }

  lemma RefreshTells(r: Registry, id: string, serial: nat, access: map<string, string>, o: Origin)
    requires Told(r, o)
    ensures Told(Refresh(r, id, serial, access), o)
  {
    if id in r.peers {
      var r1 := r.(peers := r.peers[id := r.peers[id].(access := access)]);
      CloseTells(r1, Revoked(r1, id), "Debug access revoked", o);
    }
  }

  lemma StepTells(r: Registry, debugEnabled: bool, e: Event, o: Origin)
    requires CommandsOk(r) && (e.Sends? ==> Unused(r, e.uuid)) && Told(r, o) && o in r.asked && !Decides(r, e, o)
    ensures Told(Step(r, debugEnabled, e), o)
  {
    match e
    case Joins(_, _, _, _, _) =>
    case Refreshes(id, serial, access) => RefreshTells(r, id, serial, access, o);
    case Leaves(id) => CloseTells(r.(peers := r.peers - {id}), Joined(r, id), "Connection closed", o);
    case Sweeps(now) => SweepTells(r, now, o);
    case Sends(id, m, now, uuid, delivered) => DispatchTells(r, id, m, now, uuid, delivered, o);
  }

  /** A request that was just taken waits for the client, or its command could not be delivered. */
  lemma NewIsTold(r: Registry, debugEnabled: bool, e: Event, o: Origin)
    requires (e.Sends? ==> Unused(r, e.uuid)) && o !in r.asked && o in Step(r, debugEnabled, e).asked
    ensures Told(Step(r, debugEnabled, e), o)
  {
    if e.Sends? { DispatchedIsTold(r, e.id, e.message, e.now, e.uuid, e.delivered, o); }
  }

  lemma DispatchedIsTold(r: Registry, id: string, m: Message, now: int, uuid: string, delivered: bool, o: Origin)
    requires o !in r.asked && o in Dispatch(r, id, m, now, uuid, delivered).asked
    ensures Told(Dispatch(r, id, m, now, uuid, delivered), o)
  {
    DispatchAsks(r, id, m, now, uuid, delivered, o);
    if o.OfSession? {
      AskedIsTold(Expire(r, now), id, m, now, uuid);
    } else {
      CommandAfterSweep(Expire(r, now), id, m, now, uuid, delivered);
    }
  }

  lemma DispatchAsks(r: Registry, id: string, m: Message, now: int, uuid: string, delivered: bool, o: Origin)
    requires o !in r.asked && o in Dispatch(r, id, m, now, uuid, delivered).asked
    ensures id in r.peers
    ensures if o.OfSession? then m.kind == "requestSession" && o.session == uuid &&
        CanRequest(Expire(r, now), id, m, now)
      else IsCommand(m.kind) && o.command == uuid && CanCommand(Expire(r, now), id, m)
  {
    if id in r.peers {
      var r1 := Expire(r, now);
      if m.kind == "requestSession" {}
      else if m.kind == "acceptSession" { AcceptAsks(r1, id, m, now); }
      else if IsCommand(m.kind) { CommandAsks(r1, id, m, now, uuid, delivered, o); }
    }
  }

  lemma AcceptAsks(r: Registry, id: string, m: Message, now: int)
    requires id in r.peers
    ensures AcceptSession(r, id, m, now).asked == r.asked
  {
  }

  lemma CommandAsks(r: Registry, id: string, m: Message, now: int, uuid: string, delivered: bool, o: Origin)
    requires id in r.peers
    ensures o in RequestCommand(r, id, m, now, uuid, delivered).asked ==>
      o in r.asked || (o == OfCommand(uuid) && CanCommand(r, id, m))
  {
  }

  lemma AskedIsTold(r: Registry, id: string, m: Message, now: int, uuid: string)
    requires id in r.peers && CanRequest(r, id, m, now)
    ensures Told(RequestSession(r, id, m, now, uuid), OfSession(uuid))
  {
  }

  /** The sender got the client's answer of event `e` once, and a session it opened is active while
      it lives, for 30 minutes at most. */
  ghost predicate Decided(r: Registry, o: Origin, e: Event)
    requires e.Sends?
  {
    && o in r.replies && |r.replies[o]| == 1 && !Pending(r, o)
    && match o
       case OfSession(s) =>
         && r.replies[o][0].error == ""
         && (s in r.sessions ==> r.sessions[s].active && r.sessions[s].deadline == e.now + 1_800_000)
       case OfCommand(_) => r.replies[o][0].error == e.message.error
  }

  lemma DecisionIsTold(r: Registry, debugEnabled: bool, e: Event, o: Origin)
    requires Inv(r) && Decides(r, e, o)
    ensures Decided(Step(r, debugEnabled, e), o, e)
  {
    match o
    case OfSession(s) => AnswerDecides(r, debugEnabled, e, s);
    case OfCommand(c) => ResultOutcome(r, e.id, e.message, e.now, e.uuid, e.delivered);
  }

  /** What an active session is after a step, if it still lives. */
  ghost predicate Same(r: Registry, r1: Registry, s: string) {
    s in r1.sessions ==> s in r.sessions && r1.sessions[s] == r.sessions[s]
  }

  lemma AcceptSpares(r: Registry, id: string, m: Message, now: int, s: string)
    requires id in r.peers && (s in r.sessions ==> r.sessions[s].active)
    ensures Same(r, AcceptSession(r, id, m, now), s)
  {
  }

  lemma RequestSpares(r: Registry, id: string, m: Message, now: int, uuid: string, s: string)
    requires id in r.peers && s != uuid
    ensures Same(r, RequestSession(r, id, m, now, uuid), s)
  {
  }

  lemma DispatchSpares(r: Registry, id: string, m: Message, now: int, uuid: string, delivered: bool, s: string)
    requires s != uuid && (s in r.sessions ==> r.sessions[s].active)
    ensures Same(r, Dispatch(r, id, m, now, uuid, delivered), s)
  {
    if id in r.peers {
      var r1 := Expire(r, now);
      if m.kind == "requestSession" { RequestSpares(r1, id, m, now, uuid, s); }
      else if m.kind == "acceptSession" { AcceptSpares(r1, id, m, now, s); }
      else if IsCommand(m.kind) { CommandSpares(r1, id, m, now, uuid, delivered, s); }
    }
  }

  lemma CommandSpares(r: Registry, id: string, m: Message, now: int, uuid: string, delivered: bool, s: string)
    requires id in r.peers
    ensures Same(r, RequestCommand(r, id, m, now, uuid, delivered), s)
  {
  }

  lemma ActiveStays(r: Registry, debugEnabled: bool, e: Event, s: string)
    requires (e.Sends? ==> Unused(r, e.uuid)) && OfSession(s) in r.asked
    requires s in r.sessions ==> r.sessions[s].active
    ensures Same(r, Step(r, debugEnabled, e), s)
  {
    if e.Sends? { DispatchSpares(r, e.id, e.message, e.now, e.uuid, e.delivered, s); }
  }

  lemma DecidedStays(r: Registry, debugEnabled: bool, e: Event, o: Origin, at: Event)
    requires Accounted(r) && (e.Sends? ==> Unused(r, e.uuid)) && o in r.asked && at.Sends? && Decided(r, o, at)
    ensures Decided(Step(r, debugEnabled, e), o, at)
  {
    AnswersAreFinal(r, debugEnabled, e, o);
    if o.OfSession? { ActiveStays(r, debugEnabled, e, o.session); }
  }

  /** Event `i` was the client's own answer to `o`. */
  ghost predicate DecidedAt(debugEnabled: bool, events: seq<Event>, o: Origin, i: nat) {
    i < |events| && Decides(At(debugEnabled, events, i), events[i], o)
  }

  lemma AtNew(debugEnabled: bool, events: seq<Event>, o: Origin, n: nat)
    requires Supplied(debugEnabled, events) && n < |events|
    requires o !in At(debugEnabled, events, n).asked && o in At(debugEnabled, events, n + 1).asked
    ensures Told(At(debugEnabled, events, n + 1), o)
  {
    AtNext(debugEnabled, events, n);
    NewIsTold(At(debugEnabled, events, n), debugEnabled, events[n], o);
  }

  lemma AtStays(debugEnabled: bool, events: seq<Event>, o: Origin, n: nat, at: Event)
    requires Supplied(debugEnabled, events) && n < |events| && o in At(debugEnabled, events, n).asked
    requires at.Sends? && Decided(At(debugEnabled, events, n), o, at)
    ensures Decided(At(debugEnabled, events, n + 1), o, at)
  {
    AtNext(debugEnabled, events, n);
    AtInv(debugEnabled, events, n);
    DecidedStays(At(debugEnabled, events, n), debugEnabled, events[n], o, at);
  }

  lemma AtTells(debugEnabled: bool, events: seq<Event>, o: Origin, n: nat)
    requires Supplied(debugEnabled, events) && n < |events| && o in At(debugEnabled, events, n).asked
    requires Told(At(debugEnabled, events, n), o)
    ensures if DecidedAt(debugEnabled, events, o, n) then Decided(At(debugEnabled, events, n + 1), o, events[n])
      else Told(At(debugEnabled, events, n + 1), o)
  {
    var r := At(debugEnabled, events, n);
    AtNext(debugEnabled, events, n);
    AtInv(debugEnabled, events, n);
    if Decides(r, events[n], o) {
      DecisionIsTold(r, debugEnabled, events[n], o);
    } else {
      StepTells(r, debugEnabled, events[n], o);
    }
  }

  /** In every run the client decides.  As long as it has not answered itself, a session is not
      active, a command waits, and nothing but one error was told; once it has, the sender was told
      exactly that, and an accepted session is active for 30 minutes at most. */
  lemma {:induction false} ClientDecides(debugEnabled: bool, events: seq<Event>, o: Origin, n: nat)
    requires Supplied(debugEnabled, events) && n <= |events| && o in At(debugEnabled, events, n).asked
    ensures var r := At(debugEnabled, events, n);
      || (Told(r, o) && forall i: nat | i < n :: !DecidedAt(debugEnabled, events, o, i))
      || exists i: nat :: i < n && DecidedAt(debugEnabled, events, o, i) && Decided(r, o, events[i])
  {
    if n > 0 {
      var r := At(debugEnabled, events, n - 1);
      if o !in r.asked {
        AtNew(debugEnabled, events, o, n - 1);
        forall i: nat | i < n ensures !DecidedAt(debugEnabled, events, o, i) {
          NotYetDecided(debugEnabled, events, o, i, n - 1);
        }
      } else {
        ClientDecides(debugEnabled, events, o, n - 1);
        if i: nat :| i < n - 1 && DecidedAt(debugEnabled, events, o, i) && Decided(r, o, events[i]) {
          AtStays(debugEnabled, events, o, n - 1, events[i]);
        } else {
          AtTells(debugEnabled, events, o, n - 1);
        }
      }
    }
  }

  lemma NotYetDecided(debugEnabled: bool, events: seq<Event>, o: Origin, i: nat, n: nat)
    requires Supplied(debugEnabled, events) && i <= n < |events| && o !in At(debugEnabled, events, n).asked
    ensures !DecidedAt(debugEnabled, events, o, i)
  {
    AskedStay(debugEnabled, events, i, n);
    AtInv(debugEnabled, events, i);
    if Decides(At(debugEnabled, events, i), events[i], o) {
      DecidesPending(At(debugEnabled, events, i), events[i], o);
    }
  }

  lemma DecidesPending(r: Registry, e: Event, o: Origin)
    requires Accounted(r) && Decides(r, e, o)
    ensures o in r.asked
  {
    assert Pending(r, o);
  }

  /** A session is there only if it was or has just been requested. */
  ghost predicate NoneAppears(r: Registry, r1: Registry, s: string) {
    s in r1.sessions ==> s in r.sessions || OfSession(s) in r1.asked
  }

  lemma DispatchedAppears(r: Registry, id: string, m: Message, now: int, uuid: string, delivered: bool, s: string)
    ensures NoneAppears(r, Dispatch(r, id, m, now, uuid, delivered), s)
  {
    if id in r.peers {
      var r1 := Expire(r, now);
      if m.kind == "requestSession" {}
      else if m.kind == "acceptSession" { AcceptedAppears(r1, id, m, now, s); }
      else if IsCommand(m.kind) { CommandSpares(r1, id, m, now, uuid, delivered, s); }
    }
  }

  lemma AcceptedAppears(r: Registry, id: string, m: Message, now: int, s: string)
    requires id in r.peers
    ensures s in AcceptSession(r, id, m, now).sessions ==> s in r.sessions
  {
  }

  lemma StepAppears(r: Registry, debugEnabled: bool, e: Event, s: string)
    ensures NoneAppears(r, Step(r, debugEnabled, e), s)
  {
    if e.Sends? { DispatchedAppears(r, e.id, e.message, e.now, e.uuid, e.delivered, s); }
  }

  lemma {:induction false} SessionWasAsked(debugEnabled: bool, events: seq<Event>, s: string, n: nat)
    requires Supplied(debugEnabled, events) && n <= |events| && s in At(debugEnabled, events, n).sessions
    ensures OfSession(s) in At(debugEnabled, events, n).asked
  {
    if n > 0 {
      AppearsAt(debugEnabled, events, s, n - 1);
      if s in At(debugEnabled, events, n - 1).sessions {
        SessionWasAsked(debugEnabled, events, s, n - 1);
        AskedGrow(debugEnabled, events, n - 1);
      }
    }
  }

  lemma AppearsAt(debugEnabled: bool, events: seq<Event>, s: string, n: nat)
    requires n < |events|
    ensures NoneAppears(At(debugEnabled, events, n), At(debugEnabled, events, n + 1), s)
  {
    AtNext(debugEnabled, events, n);
    StepAppears(At(debugEnabled, events, n), debugEnabled, events[n], s);
  }

  /** Every active session was accepted by its own client, at most 30 minutes before it runs out. */
  lemma ActiveWasAccepted(debugEnabled: bool, events: seq<Event>, s: string, n: nat) returns (i: nat)
    requires Supplied(debugEnabled, events) && n <= |events|
    requires s in At(debugEnabled, events, n).sessions && At(debugEnabled, events, n).sessions[s].active
    ensures i < n && events[i].Sends?
    ensures var m, now := events[i].message, At(debugEnabled, events, n).sessions[s];
      && m.kind == "acceptSession" && m.sessionId == s && m.accepted && events[i].id == now.client
      && now.deadline == events[i].now + 1_800_000
  {
    var o := OfSession(s);
    SessionWasAsked(debugEnabled, events, s, n);
    ClientDecides(debugEnabled, events, o, n);
    i :| i < n && DecidedAt(debugEnabled, events, o, i) && Decided(At(debugEnabled, events, n), o, events[i]);
    AcceptedWasAsked(debugEnabled, events, s, i);
    LivedThrough(debugEnabled, events, s, i, n);
  }

  lemma AcceptedWasAsked(debugEnabled: bool, events: seq<Event>, s: string, i: nat)
    requires Supplied(debugEnabled, events) && DecidedAt(debugEnabled, events, OfSession(s), i)
    ensures OfSession(s) in At(debugEnabled, events, i).asked
  {
    AtInv(debugEnabled, events, i);
    DecidesPending(At(debugEnabled, events, i), events[i], OfSession(s));
  }

  // ---------------------------------------------------------------- the pause between requests

  /** Event `i` is a session request that is granted. */
  ghost predicate GrantedAt(debugEnabled: bool, events: seq<Event>, i: nat) {
    && i < |events| && events[i].Sends? && events[i].message.kind == "requestSession"
    && events[i].id in At(debugEnabled, events, i).peers
    && Granted(At(debugEnabled, events, i), events[i].id, events[i].message, events[i].now)
  }

  /** Every participant that ever joined has a serial number of its own. */
  ghost predicate Numbered(r: Registry) { forall o | o in r.peers :: r.peers[o].serial < r.joins }

  /** The participant is the same one, and its last request is as it was or the one just granted. */
  ghost predicate Remembers(r: Registry, r1: Registry, id: string, at: int) {
    id in r.peers && id in r1.peers ==>
      && r1.peers[id].serial == r.peers[id].serial
      && (r1.peers[id].lastRequest == r.peers[id].lastRequest
          || (r1.peers[id].lastRequest == Some(at)
              && (r.peers[id].lastRequest.Some? ==> at >= r.peers[id].lastRequest.value + 5_000)))
  }

  lemma RequestRemembers(r: Registry, id: string, m: Message, now: int, uuid: string, o: string)
    requires id in r.peers
    ensures Remembers(r, RequestSession(r, id, m, now, uuid), o, now)
  {
  }

  lemma DispatchRemembers(r: Registry, id: string, m: Message, now: int, uuid: string, delivered: bool, o: string)
    ensures Remembers(r, Dispatch(r, id, m, now, uuid, delivered), o, now)
  {
    if id in r.peers {
      var r1 := Expire(r, now);
      assert r1.peers == r.peers;
      if m.kind == "requestSession" { RequestRemembers(r1, id, m, now, uuid, o); }
      else if m.kind == "acceptSession" { AcceptSparesPeers(r1, id, m, now); }
      else if IsCommand(m.kind) { CommandSparesPeers(r1, id, m, now, uuid, delivered); }
    }
  }

  lemma DispatchKeepsKeys(r: Registry, id: string, m: Message, now: int, uuid: string, delivered: bool)
    ensures var r1 := Dispatch(r, id, m, now, uuid, delivered); r1.peers.Keys == r.peers.Keys && r1.joins == r.joins
  {
    if id in r.peers {
      var r1 := Expire(r, now);
      assert r1.peers == r.peers && r1.joins == r.joins;
      if m.kind == "requestSession" {}
      else if m.kind == "acceptSession" { AcceptSparesPeers(r1, id, m, now); }
      else if IsCommand(m.kind) { CommandSparesPeers(r1, id, m, now, uuid, delivered); }
    }
  }

  lemma AcceptSparesPeers(r: Registry, id: string, m: Message, now: int)
    requires id in r.peers
    ensures AcceptSession(r, id, m, now).peers == r.peers && AcceptSession(r, id, m, now).joins == r.joins
  {
  }

  lemma CommandSparesPeers(r: Registry, id: string, m: Message, now: int, uuid: string, delivered: bool)
    requires id in r.peers
    ensures var r1 := RequestCommand(r, id, m, now, uuid, delivered); r1.peers == r.peers && r1.joins == r.joins
  {
  }

  /** The clock of an event, if it reads one. */
  function TimeOf(e: Event): int { if e.Sends? then e.now else 0 }

  lemma StepRemembers(r: Registry, debugEnabled: bool, e: Event, o: string)
    ensures Remembers(r, Step(r, debugEnabled, e), o, TimeOf(e))
    ensures var r1 := Step(r, debugEnabled, e);
      && r1.joins >= r.joins
      && (o in r1.peers && o !in r.peers ==> r1.peers[o].serial == r.joins && r1.joins == r.joins + 1)
  {
    if e.Sends? {
      DispatchRemembers(r, e.id, e.message, e.now, e.uuid, e.delivered, o);
      DispatchKeepsKeys(r, e.id, e.message, e.now, e.uuid, e.delivered);
    }
  }

  lemma AtRemembers(debugEnabled: bool, events: seq<Event>, n: nat, o: string)
    requires n < |events|
    ensures var r, r1 := At(debugEnabled, events, n), At(debugEnabled, events, n + 1);
      && Remembers(r, r1, o, TimeOf(events[n])) && r1.joins >= r.joins
      && (o in r1.peers && o !in r.peers ==> r1.peers[o].serial == r.joins && r1.joins == r.joins + 1)
  {
    AtNext(debugEnabled, events, n);
    StepRemembers(At(debugEnabled, events, n), debugEnabled, events[n], o);
  }

  lemma {:induction false} AllNumbered(debugEnabled: bool, events: seq<Event>, n: nat)
    requires n <= |events|
    ensures Numbered(At(debugEnabled, events, n))
  {
    if n > 0 {
      AllNumbered(debugEnabled, events, n - 1);
      var r1 := At(debugEnabled, events, n);
      forall o | o in r1.peers ensures r1.peers[o].serial < r1.joins { AtRemembers(debugEnabled, events, n - 1, o); }
    }
  }

  lemma {:induction false} JoinsGrow(debugEnabled: bool, events: seq<Event>, i: nat, n: nat)
    requires i <= n <= |events|
    ensures At(debugEnabled, events, i).joins <= At(debugEnabled, events, n).joins
  {
    if i < n {
      JoinsGrow(debugEnabled, events, i, n - 1);
      AtRemembers(debugEnabled, events, n - 1, "");
    }
  }

  lemma GrantIsRemembered(debugEnabled: bool, events: seq<Event>, i: nat)
    requires GrantedAt(debugEnabled, events, i)
    ensures var r1, id := At(debugEnabled, events, i + 1), events[i].id;
      id in r1.peers && r1.peers[id].lastRequest == Some(events[i].now)
  {
    var r, e := At(debugEnabled, events, i), events[i];
    AtNext(debugEnabled, events, i);
    RequestOutcome(r, e.id, e.message, e.now, e.uuid, e.delivered);
  }

  /** The participant remembers a request that was granted, or a later one. */
  lemma {:induction false} LastRequestHolds(debugEnabled: bool, events: seq<Event>, i: nat, n: nat)
    requires i < n <= |events| && GrantedAt(debugEnabled, events, i)
    requires events[i].id in At(debugEnabled, events, n).peers
    requires At(debugEnabled, events, n).peers[events[i].id].serial
        == At(debugEnabled, events, i).peers[events[i].id].serial
    ensures var last := At(debugEnabled, events, n).peers[events[i].id].lastRequest;
      last.Some? && last.value >= events[i].now
  {
    if i == n - 1 {
      GrantIsRemembered(debugEnabled, events, i);
    } else {
      AtRemembers(debugEnabled, events, n - 1, events[i].id);
      AllNumbered(debugEnabled, events, i);
      JoinsGrow(debugEnabled, events, i, n - 1);
      LastRequestHolds(debugEnabled, events, i, n - 1);
    }
  }

  /** Two requests of one participant that are both granted lie at least five seconds apart. */
  lemma RequestsPause(debugEnabled: bool, events: seq<Event>, i: nat, j: nat)
    requires i < j && GrantedAt(debugEnabled, events, i) && GrantedAt(debugEnabled, events, j)
    requires events[j].id == events[i].id
    requires At(debugEnabled, events, j).peers[events[i].id].serial
        == At(debugEnabled, events, i).peers[events[i].id].serial
    ensures events[j].now >= events[i].now + 5_000
  {
    LastRequestHolds(debugEnabled, events, i, j);
  }
}
