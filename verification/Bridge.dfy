/**
 The bridge use case with its three tables updated in place, one method for each critical
 section.  Every loop over a table visits it in an arbitrary order.
 */
module Bridge {
  import opened Wrappers
  import opened Text
  import opened BridgeRegistry

  class UseCase {
    const debugEnabled: bool
    var peers: map<string, Participant>
    var sessions: map<string, Session>
    var commands: map<string, Command>
    /** The requests accepted so far and the results handed to delivery. */
    var asked: map<Origin, Ask>
    var replies: map<Origin, seq<Reply>>
    var joins: nat

    ghost function View(): Registry
      reads this
    {
      Registry(peers, sessions, commands, asked, replies, joins)
    }

    /** Every request that can be answered was accepted before. */
    ghost predicate Valid()
      reads this
    {
      && (forall s | s in sessions :: OfSession(s) in replies)
      && (forall c | c in commands :: OfCommand(c) in replies)
    }

    constructor (debugEnabled: bool)
      ensures Valid() && View() == EMPTY && this.debugEnabled == debugEnabled
    {
      this.debugEnabled := debugEnabled;
      peers, sessions, commands, asked, replies, joins := map[], map[], map[], map[], map[], 0;
    }

    method Send(o: Origin, reply: Reply)
      requires o in replies
      modifies this`replies
      ensures replies == old(replies)[o := old(replies)[o] + [reply]]
    {
      replies := replies[o := replies[o] + [reply]];
    }

    // -------------------------------------------------------------- ending sessions

    method End(id: string, error: string)
      requires Valid()
      modifies this`sessions, this`commands, this`replies
      ensures Valid() && View() == Close(old(View()), {id}, error)
    {
      ghost var r := View();
      if id !in sessions {
        CloseAbsent(r, id, error);
        return;
      }
      var s := sessions[id];
      sessions := sessions - {id};
      if !s.active {
        Send(OfSession(id), Reply(s.configurator, s.requestId, error));
      }
      ghost var told := replies;
      commands, replies := EndCommands(commands, replies, id, s.configurator, error);
      CloseOne(r, told, id, error);
    }

    /** Ends the sessions `ids` one by one. */
    method EndAll(ids: set<string>, error: string)
      requires Valid()
      modifies this`sessions, this`commands, this`replies
      ensures Valid() && View() == Close(old(View()), ids, error)
    {
      ghost var r := View();
      var todo := ids;
      CloseNothing(r, error);
      assert ids - todo == {};
      while todo != {}
        invariant todo <= ids && Valid()
        invariant View() == Close(r, ids - todo, error)
      {
        var s :| s in todo;
        ghost var ended := ids - todo;
        End(s, error);
        CloseOneMore(r, ended, s, error);
        todo := todo - {s};
        assert ids - todo == ended + {s};
      }
      assert ids - todo == ids;
    }

    method Expire(now: int)
      requires Valid()
      modifies this`sessions, this`commands, this`replies
      ensures Valid() && View() == BridgeRegistry.Expire(old(View()), now)
    {
      EndAll(set s | s in sessions && sessions[s].deadline <= now, "Session expired");
      commands, replies := ExpireCommands(sessions, commands, replies, now, View());
    }

    // -------------------------------------------------------------- peers

    method Join(id: string, role: string, user: string, h: Hello, access: Option<map<string, string>>)
        returns (outcome: Outcome<string>)
      requires Valid()
      modifies this`peers, this`joins
      ensures Valid() && View() == BridgeRegistry.Join(old(View()), debugEnabled, id, role, user, h, access)
      ensures outcome.Ok? <==> Admits(old(View()), debugEnabled, id, role, user, h, access)
    {
      outcome := CheckHello(debugEnabled, role, h);
      if outcome.Failed? {
        return;
      }
      var p := Participant(joins, role, h.workspace, user, h.debug && debugEnabled, h.allWorkspaces, map[], None);
      if role == "configurator" {
        if access.None? {
          return Failed("Authentication is not valid");
        }
        p := p.(access := access.value);
      }
      if id in peers {
        return Failed("Already registered");
      }
      var count := CountBucket(peers, p);
      SameBucketOf(peers, p, Newcomer(joins, debugEnabled, role, user, h, map[]));
      if count >= 64 {
        return Failed("Workspace connection limit reached");
      }
      peers := peers[id := p];
      joins := joins + 1;
      outcome := Ok;
    }

    /** The second critical section of Check, for the participant looked up as `serial`. */
    method Refresh(id: string, serial: nat, access: map<string, string>)
      requires Valid()
      modifies this`peers, this`sessions, this`commands, this`replies
      ensures Valid() && View() == BridgeRegistry.Refresh(old(View()), id, serial, access)
    {
      if id !in peers || peers[id].serial != serial || peers[id].role == "client" {
        return;
      }
      peers := peers[id := peers[id].(access := access)];
      var revoked := set s | s in sessions && sessions[s].configurator == id &&
          !peers[id].CanDebug(sessions[s].workspace);
      assert revoked == Revoked(View(), id);
      EndAll(revoked, "Debug access revoked");
    }

    method Leave(id: string)
      requires Valid()
      modifies this`peers, this`sessions, this`commands, this`replies
      ensures Valid() && View() == BridgeRegistry.Leave(old(View()), id)
    {
      if id !in peers {
        return;
      }
      peers := peers - {id};
      EndAll(set s | s in sessions && (sessions[s].client == id || sessions[s].configurator == id),
          "Connection closed");
    }

    // -------------------------------------------------------------- operations

    method RequestSession(id: string, m: Message, now: int, uuid: string) returns (outcome: Outcome<string>)
      requires Valid() && id in peers
      modifies this`peers, this`sessions, this`asked, this`replies
      ensures Valid() && View() == BridgeRegistry.RequestSession(old(View()), id, m, now, uuid)
      ensures outcome.Ok? <==> CanRequest(old(View()), id, m, now)
    {
      var p := peers[id];
      if !p.debug || p.role != "configurator" || m.id == "" {
        return Failed("Debug access denied");
      }
      if m.targetId !in peers || peers[m.targetId].role != "client" || !peers[m.targetId].debug ||
          !p.CanDebug(peers[m.targetId].workspace)
      {
        return Failed("Client is not available");
      }
      if p.lastRequest.Some? && now - p.lastRequest.value < 5_000 {
        return Failed("Please wait before requesting another session");
      }
      var todo := sessions.Keys;
      while todo != {}
        invariant todo <= sessions.Keys
        invariant forall s | s in sessions && s !in todo :: sessions[s].client != m.targetId
      {
        var s :| s in todo;
        todo := todo - {s};
        if sessions[s].client == m.targetId {
          return Failed("Client is busy");
        }
      }
      sessions := sessions[uuid := Session(m.targetId, id, peers[m.targetId].workspace, m.id, false,
          now + REQUEST_TTL)];
      peers := peers[id := p.(lastRequest := Some(now))];
      asked := asked[OfSession(uuid) := Ask(id, m.id)];
      replies := replies[OfSession(uuid) := []];
      outcome := Ok;
    }

    method AcceptSession(id: string, m: Message, now: int) returns (outcome: Outcome<string>)
      requires Valid() && id in peers
      modifies this`sessions, this`commands, this`replies
      ensures Valid() && View() == BridgeRegistry.AcceptSession(old(View()), id, m, now)
      ensures outcome.Ok? <==> CanAccept(old(View()), id, m)
    {
      if m.sessionId !in sessions || sessions[m.sessionId].active || sessions[m.sessionId].client != id ||
          peers[id].role != "client"
      {
        return Failed("Session request is not pending");
      }
      if !m.accepted {
        End(m.sessionId, "Client declined the connection");
        return Ok;
      }
      var s := sessions[m.sessionId];
      sessions := sessions[m.sessionId := s.(active := true, deadline := now + SESSION_TTL)];
      Send(OfSession(m.sessionId), Reply(s.configurator, s.requestId, ""));
      outcome := Ok;
    }

    method RequestCommand(id: string, m: Message, now: int, uuid: string, delivered: bool)
        returns (outcome: Outcome<string>)
      requires Valid() && id in peers
      modifies this`sessions, this`commands, this`asked, this`replies
      ensures Valid() && View() == BridgeRegistry.RequestCommand(old(View()), id, m, now, uuid, delivered)
      ensures outcome.Ok? <==> CanCommand(old(View()), id, m)
    {
      var p := peers[id];
      if !p.debug || m.sessionId !in sessions || !p.CanDebug(sessions[m.sessionId].workspace) ||
          !sessions[m.sessionId].active || sessions[m.sessionId].configurator != id || m.id == ""
      {
        return Failed("Debug session is not available");
      }
      if m.kind == "runSimulation" && (Blank(m.identity) || !IsHash(m.expectedHash)) {
        return Failed("Simulation identity and SHA-256 are required");
      }
      if (m.kind == "executeCommand" || m.kind == "setInspectionOptions") &&
          (|m.data| == 0 || |m.data| > MAX_COMMAND_BYTES || !m.dataValid)
      {
        return Failed("Invalid command payload");
      }
      var count := CountPending(commands, m.sessionId);
      assert PendingOf(View(), m.sessionId) == set c | c in commands && commands[c].session == m.sessionId;
      if count >= 8 {
        return Failed("Pending command limit reached");
      }
      commands := commands[uuid := Command(m.sessionId, m.id, now + REQUEST_TTL)];
      asked := asked[OfCommand(uuid) := Ask(id, m.id)];
      replies := replies[OfCommand(uuid) := []];
      if !delivered {
        End(m.sessionId, "Client is unavailable");
      }
      outcome := Ok;
    }

    method ForwardEvent(id: string, m: Message, delivered: bool) returns (outcome: Outcome<string>)
      requires Valid() && id in peers && IsEvent(m.kind)
      modifies this`sessions, this`commands, this`replies
      ensures Valid() && View() == BridgeRegistry.ForwardEvent(old(View()), id, m, delivered)
      ensures outcome.Ok? <==> CanForward(old(View()), id, m)
    {
      if peers[id].role != "client" || !peers[id].debug || m.sessionId !in sessions || !sessions[m.sessionId].active ||
          sessions[m.sessionId].client != id
      {
        return Failed("Event session is not available");
      }
      var limit := MAX_EVENT_BYTES;
      if m.kind == "inspectionSnapshot" || m.kind == "inspectionChunk" {
        limit := MAX_INSPECTION_BYTES;
      }
      if |m.data| == 0 || |m.data| > limit || !m.dataValid {
        return Failed("Invalid event payload");
      }
      if !delivered {
        End(m.sessionId, "Configurator is unavailable");
      }
      outcome := Ok;
    }

    method CommandResult(id: string, m: Message) returns (outcome: Outcome<string>)
      requires Valid()
      modifies this`commands, this`replies
      ensures Valid() && View() == BridgeRegistry.CommandResult(old(View()), id, m)
      ensures outcome.Ok? <==> CanAnswer(old(View()), id, m)
    {
      if m.sessionId !in sessions || !sessions[m.sessionId].active || sessions[m.sessionId].client != id ||
          m.id !in commands || commands[m.id].session != m.sessionId
      {
        return Failed("Command is not pending");
      }
      Send(OfCommand(m.id), Reply(sessions[m.sessionId].configurator, commands[m.id].requestId, m.error));
      commands := commands - {m.id};
      outcome := Ok;
    }

    /** The last critical section of Handle. */
    method Dispatch(id: string, m: Message, now: int, uuid: string, delivered: bool) returns (outcome: Outcome<string>)
      requires Valid()
      modifies this`peers, this`sessions, this`commands, this`asked, this`replies
      ensures Valid() && View() == BridgeRegistry.Dispatch(old(View()), id, m, now, uuid, delivered)
      ensures outcome.Ok? <==> Accepts(old(View()), id, m, now)
    {
      if id !in peers {
        return Failed("Connection is not registered");
      }
      Expire(now);
      if m.kind == "requestSession" {
        outcome := RequestSession(id, m, now, uuid);
      } else if m.kind == "acceptSession" {
        outcome := AcceptSession(id, m, now);
      } else if m.kind == "endSession" {
        if m.sessionId !in sessions || (sessions[m.sessionId].client != id &&
            sessions[m.sessionId].configurator != id)
        {
          return Failed("Session is not available");
        }
        End(m.sessionId, "Session ended");
        outcome := Ok;
      } else if IsCommand(m.kind) {
        outcome := RequestCommand(id, m, now, uuid, delivered);
      } else if IsEvent(m.kind) {
        outcome := ForwardEvent(id, m, delivered);
      } else if m.kind == "commandResult" {
        outcome := CommandResult(id, m);
      } else {
        outcome := Failed("Unsupported bridge operation");
      }
    }
  }

  method CheckHello(debugEnabled: bool, role: string, h: Hello) returns (outcome: Outcome<string>)
    ensures outcome.Ok? <==> HelloValid(debugEnabled, role, h)
  {
    if
      || h.protocol != 1
      || (|h.workspace| == 0 && !(role == "configurator" && h.debug && h.allWorkspaces))
      || |h.workspace| > 160 || |h.caption| > 160 || (role != "client" && role != "configurator")
    {
      return Failed("Invalid bridge registration");
    }
    if h.allWorkspaces && (role != "configurator" || !h.debug) {
      return Failed("Invalid discovery scope");
    }
    if role == "client" && (!debugEnabled || !h.debug) {
      return Failed("Client debug is disabled");
    }
    outcome := Ok;
  }

  // ---------------------------------------------------------------- counting

  /** A bucket does not depend on what authorization returned. */
  lemma SameBucketOf(peers: map<string, Participant>, p: Participant, q: Participant)
    requires p.role == q.role && p.workspace == q.workspace && p.user == q.user && p.allWorkspaces == q.allWorkspaces
    ensures Bucket(peers, p) == Bucket(peers, q)
  {
  }

  method CountBucket(peers: map<string, Participant>, p: Participant) returns (count: nat)
    ensures count == |Bucket(peers, p)|
  {
    count := 0;
    ghost var seen: set<string> := {};
    var todo := peers.Keys;
    while todo != {}
      invariant todo <= peers.Keys
      invariant forall o :: o in seen <==> o in peers && o !in todo && SameBucket(p, peers[o])
      invariant count == |seen|
    {
      var o :| o in todo;
      todo := todo - {o};
      if peers[o].role == p.role && ((!p.allWorkspaces && peers[o].workspace == p.workspace) ||
          (p.allWorkspaces && peers[o].user == p.user))
      {
        seen := seen + {o};
        count := count + 1;
      }
    }
    assert seen == Bucket(peers, p);
  }

  method CountPending(commands: map<string, Command>, session: string) returns (count: nat)
    ensures count == |set c | c in commands && commands[c].session == session|
  {
    count := 0;
    ghost var seen: set<string> := {};
    var todo := commands.Keys;
    while todo != {}
      invariant todo <= commands.Keys
      invariant forall c :: c in seen <==> c in commands && c !in todo && commands[c].session == session
      invariant count == |seen|
    {
      var c :| c in todo;
      todo := todo - {c};
      if commands[c].session == session {
        seen := seen + {c};
        count := count + 1;
      }
    }
    assert seen == set c | c in commands && commands[c].session == session;
  }

  // ---------------------------------------------------------------- loops over commands

  /** The commands without the doomed ones. */
  ghost function Dropped(commands: map<string, Command>, doomed: map<string, Option<Reply>>): map<string, Command> {
    map c | c in commands && c !in doomed :: commands[c]
  }

  ghost function Told(replies: map<Origin, seq<Reply>>, doomed: map<string, Option<Reply>>): map<Origin, seq<Reply>> {
    map o | o in replies :: if o.OfCommand? && o.command in doomed then Append(replies[o], doomed[o.command])
        else replies[o]
  }

  ghost function Ended(commands: map<string, Command>, id: string, configurator: string, error: string)
      : map<string, Option<Reply>>
  {
    map c | c in commands && commands[c].session == id :: Some(Reply(configurator, commands[c].requestId, error))
  }

  /** Answers and drops the commands of session `id`, controlled by `configurator`. */
  method EndCommands(all: map<string, Command>, told: map<Origin, seq<Reply>>, id: string, configurator: string,
      error: string)
    returns (commands: map<string, Command>, replies: map<Origin, seq<Reply>>)
    requires forall c | c in all :: OfCommand(c) in told
    ensures commands == Dropped(all, Ended(all, id, configurator, error))
    ensures replies == Told(told, Ended(all, id, configurator, error))
  {
    commands, replies := all, told;
    ghost var doomed: map<string, Option<Reply>> := map[];
    var todo := commands.Keys;
    while todo != {}
      invariant todo <= commands.Keys
      invariant forall c :: c in doomed <==> c in all && c !in todo && all[c].session == id
      invariant forall c | c in doomed :: doomed[c] == Some(Reply(configurator, all[c].requestId, error))
      invariant commands == Dropped(all, doomed) && replies == Told(told, doomed)
    {
      var c :| c in todo;
      todo := todo - {c};
      if commands[c].session == id {
        var reply := Reply(configurator, commands[c].requestId, error);
        DropOneMore(all, told, doomed, c, Some(reply));
        doomed := doomed[c := Some(reply)];
        replies := replies[OfCommand(c) := replies[OfCommand(c)] + [reply]];
        commands := commands - {c};
      }
    }
    assert doomed == Ended(all, id, configurator, error);
  }

  /** Drops the commands whose deadline has come, answering those whose session is still there. */
  method ExpireCommands(sessions: map<string, Session>, all: map<string, Command>, told: map<Origin, seq<Reply>>,
      now: int, ghost r: Registry)
    returns (commands: map<string, Command>, replies: map<Origin, seq<Reply>>)
    requires r.sessions == sessions && r.commands == all && r.replies == told
    requires forall c | c in all :: OfCommand(c) in told
    ensures DropLateCommands(r, now) == r.(commands := commands, replies := replies)
  {
    commands, replies := all, told;
    ghost var doomed: map<string, Option<Reply>> := map[];
    var todo := commands.Keys;
    while todo != {}
      invariant todo <= commands.Keys
      invariant forall c :: c in doomed <==> c in all && c !in todo && all[c].deadline <= now
      invariant forall c | c in doomed :: doomed[c] == TimedOut(r, now, OfCommand(c))
      invariant commands == Dropped(all, doomed) && replies == Told(told, doomed)
    {
      var c :| c in todo;
      todo := todo - {c};
      if commands[c].deadline <= now {
        DropOneMore(all, told, doomed, c, TimedOut(r, now, OfCommand(c)));
        doomed := doomed[c := TimedOut(r, now, OfCommand(c))];
        if commands[c].session in sessions {
          var reply := Reply(sessions[commands[c].session].configurator, commands[c].requestId,
              "Client command timed out");
          replies := replies[OfCommand(c) := replies[OfCommand(c)] + [reply]];
        }
        commands := commands - {c};
      }
    }
    DropLateIs(r, now, doomed);
  }

  lemma DropOneMore(commands: map<string, Command>, replies: map<Origin, seq<Reply>>,
      doomed: map<string, Option<Reply>>, c: string, due: Option<Reply>)
    requires c in commands && c !in doomed && OfCommand(c) in replies
    ensures Dropped(commands, doomed[c := due]) == Dropped(commands, doomed) - {c}
    ensures Told(replies, doomed[c := due])
        == Told(replies, doomed)[OfCommand(c) := Append(Told(replies, doomed)[OfCommand(c)], due)]
  {
  }

  lemma DropLateIs(r: Registry, now: int, doomed: map<string, Option<Reply>>)
    requires forall c :: c in doomed <==> c in r.commands && r.commands[c].deadline <= now
    requires forall c | c in doomed :: doomed[c] == TimedOut(r, now, OfCommand(c))
    ensures DropLateCommands(r, now) == r.(commands := Dropped(r.commands, doomed), replies := Told(r.replies, doomed))
  {
    var r1 := DropLateCommands(r, now);
    assert r1.commands == Dropped(r.commands, doomed);
    assert r1.replies == Told(r.replies, doomed);
  }

  // ---------------------------------------------------------------- ending sessions

  lemma CloseAbsent(r: Registry, id: string, error: string)
    requires id !in r.sessions
    ensures Close(r, {id}, error) == r
  {
    var r1 := Close(r, {id}, error);
    assert r1.sessions == r.sessions && r1.commands == r.commands && r1.replies == r.replies;
  }

  /** `told` is the reply log after an inactive session was answered. */
  lemma CloseOne(r: Registry, told: map<Origin, seq<Reply>>, id: string, error: string)
    requires id in r.sessions
    requires var s := r.sessions[id];
      told == if s.active then r.replies
          else if OfSession(id) in r.replies
          then r.replies[OfSession(id) := r.replies[OfSession(id)] + [Reply(s.configurator, s.requestId, error)]]
          else r.replies
    ensures var doomed := Ended(r.commands, id, r.sessions[id].configurator, error);
      Close(r, {id}, error) == r.(sessions := r.sessions - {id}, commands := Dropped(r.commands, doomed),
          replies := Told(told, doomed))
  {
    var doomed := Ended(r.commands, id, r.sessions[id].configurator, error);
    var closed := Close(r, {id}, error);
    assert closed.sessions == r.sessions - {id};
    assert closed.commands == Dropped(r.commands, doomed);
    assert closed.replies == Told(told, doomed);
  }

  lemma CloseNothing(r: Registry, error: string)
    ensures Close(r, {}, error) == r
  {
    var r1 := Close(r, {}, error);
    assert r1.sessions == r.sessions && r1.commands == r.commands && r1.replies == r.replies;
  }

  /** Ending one more session after others is ending them together. */
  lemma CloseOneMore(r: Registry, ids: set<string>, s: string, error: string)
    requires s !in ids
    ensures Close(Close(r, ids, error), {s}, error) == Close(r, ids + {s}, error)
  {
    var r1, r2 := Close(Close(r, ids, error), {s}, error), Close(r, ids + {s}, error);
    forall o | o in r.replies ensures r1.replies[o] == r2.replies[o] {
      assert Due(r, ids, error, o).None? || Due(Close(r, ids, error), {s}, error, o).None?;
    }
  }
}
