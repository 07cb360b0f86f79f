/**
 The registration of bridge sockets and their shutdown, after Serve and Shutdown in
 internal/platform/bridge/connections.go.  Each section under the registry's mutex is one step;
 peer identifiers are never reused while a socket with them is served.
 */
module Registry {
  import opened Sequences

  const LIMIT := 256

  /** A call of Serve that was not refused.  The wait group counts it until it is Finished. */
  datatype Phase = Serving | Removed | Finished

  datatype Socket = Socket(id: string, phase: Phase, closed: bool)

  datatype State = State(sockets: seq<Socket>, peers: map<string, nat>, stopped: bool, waiting: int)

  const INITIAL := State([], map[], false, 0)

  datatype Step =
    | Serve(id: string)
    | Drop(i: nat)     // the reader, the writer or Close closes the socket
    | Remove(i: nat)   // the deferred delete, once reader and writer are done
    | Finish(i: nat)   // wg.Done
    | Shutdown         // the section that stops the registry and closes every socket

  predicate Enabled(s: State, step: Step) {
    match step
    case Serve(id) => forall i | 0 <= i < |s.sockets| :: s.sockets[i].id == id ==> s.sockets[i].phase != Serving
    case Drop(i) => i < |s.sockets|
    case Remove(i) => i < |s.sockets| && s.sockets[i].phase == Serving && s.sockets[i].closed
    case Finish(i) => i < |s.sockets| && s.sockets[i].phase == Removed
    case Shutdown => true
  }

  function CloseAll(sockets: seq<Socket>, peers: map<string, nat>): (r: seq<Socket>)
    ensures |r| == |sockets|
  {
    seq(|sockets|, i requires 0 <= i < |sockets| =>
      if sockets[i].id in peers && peers[sockets[i].id] == i then sockets[i].(closed := true) else sockets[i])
  }

  function Apply(s: State, step: Step): State
    requires Enabled(s, step)
  {
    match step
    case Serve(id) =>
      if s.stopped || |s.peers| >= LIMIT then s
      else s.(sockets := s.sockets + [Socket(id, Serving, false)], peers := s.peers[id := |s.sockets|],
          waiting := s.waiting + 1)
    case Drop(i) => s.(sockets := s.sockets[i := s.sockets[i].(closed := true)])
    case Remove(i) => s.(sockets := s.sockets[i := s.sockets[i].(phase := Removed)],
        peers := s.peers - {s.sockets[i].id})
    case Finish(i) => s.(sockets := s.sockets[i := s.sockets[i].(phase := Finished)], waiting := s.waiting - 1)
    case Shutdown => s.(stopped := true, sockets := CloseAll(s.sockets, s.peers))
  }

  function Open(x: Socket): nat { if x.phase == Finished then 0 else 1 }

  function Unfinished(sockets: seq<Socket>): nat { Total(Open, sockets) }

  lemma NoneUnfinished(sockets: seq<Socket>, i: nat)
    requires Unfinished(sockets) == 0 && i < |sockets|
    ensures sockets[i].phase == Finished
  {
    TotalAtLeast(Open, sockets, i);
  }

  /** The registry lists exactly the sockets being served, at most 256. */
  ghost predicate Listed(s: State) {
    && (forall i | 0 <= i < |s.sockets| && s.sockets[i].phase == Serving ::
        s.sockets[i].id in s.peers && s.peers[s.sockets[i].id] == i)
    && (forall id | id in s.peers ::
          && s.peers[id] < |s.sockets| && s.sockets[s.peers[id]].id == id
          && s.sockets[s.peers[id]].phase == Serving)
    && |s.peers| <= LIMIT
  }

  /** Once the registry is stopped every socket is closed, as is every one no longer served. */
  ghost predicate Closed(s: State) {
    forall i | 0 <= i < |s.sockets| && (s.stopped || s.sockets[i].phase != Serving) :: s.sockets[i].closed
  }

  ghost predicate Inv(s: State) { Listed(s) && Closed(s) && s.waiting == Unfinished(s.sockets) }

  lemma StepKeepsListed(s: State, step: Step)
    requires Listed(s) && Enabled(s, step)
    ensures Listed(Apply(s, step))
  {
    if step.Remove? {
      forall i | 0 <= i < |s.sockets| && i != step.i && s.sockets[i].phase == Serving
          ensures s.sockets[i].id != s.sockets[step.i].id
      {
        assert s.peers[s.sockets[i].id] == i;
      }
    }
  }

  lemma StepKeepsClosed(s: State, step: Step)
    requires Listed(s) && Closed(s) && Enabled(s, step)
    ensures Closed(Apply(s, step))
  {
  }

  lemma StepKeepsCount(s: State, step: Step)
    requires s.waiting == Unfinished(s.sockets) && Enabled(s, step)
    ensures Apply(s, step).waiting == Unfinished(Apply(s, step).sockets)
  {
    match step
    case Serve(id) => TotalAdd(Open, s.sockets, Socket(id, Serving, false));
    case Drop(i) => TotalSet(Open, s.sockets, i, s.sockets[i].(closed := true));
    case Remove(i) => TotalSet(Open, s.sockets, i, s.sockets[i].(phase := Removed));
    case Finish(i) => TotalSet(Open, s.sockets, i, s.sockets[i].(phase := Finished));
    case Shutdown => TotalSame(Open, s.sockets, CloseAll(s.sockets, s.peers));
  }

  lemma StepKeepsInv(s: State, step: Step)
    requires Inv(s) && Enabled(s, step)
    ensures Inv(Apply(s, step))
  {
    StepKeepsListed(s, step);
    StepKeepsClosed(s, step);
    StepKeepsCount(s, step);
  }

  predicate AllFinished(sockets: seq<Socket>) { forall i | 0 <= i < |sockets| :: sockets[i].phase == Finished }

  /** A stopped registry admits no one, and nothing is left to do when every call is over. */
  lemma StoppedStep(s: State, step: Step)
    requires Enabled(s, step) && s.stopped
    ensures Apply(s, step).stopped && |Apply(s, step).sockets| == |s.sockets|
    ensures AllFinished(s.sockets) ==> AllFinished(Apply(s, step).sockets)
  {
  }

  ghost predicate IsRun(states: seq<State>, steps: seq<Step>) {
    && |states| == |steps| + 1 && states[0] == INITIAL
    && forall k | 0 <= k < |steps| :: Enabled(states[k], steps[k]) && states[k + 1] == Apply(states[k], steps[k])
  }

  /** A socket is served exactly while the registry is open and lists fewer than 256. */
  lemma ServeOutcome(s: State, id: string)
    requires Inv(s) && Enabled(s, Serve(id))
    ensures var next := Apply(s, Serve(id));
      if !s.stopped && |s.peers| < 256 then
        && next.sockets == s.sockets + [Socket(id, Serving, false)] && next.waiting == s.waiting + 1
        && id in next.peers && next.peers[id] == |s.sockets| && |next.peers| == |s.peers| + 1
        && forall other | other in s.peers :: other in next.peers && next.peers[other] == s.peers[other]
      else next == s
  {
  }

  lemma {:induction false} RunKeepsInv(states: seq<State>, steps: seq<Step>, k: nat)
    requires IsRun(states, steps) && k < |states|
    ensures Inv(states[k]) && |states[k].peers| <= 256 && states[k].waiting >= 0
  {
    if k > 0 {
      RunKeepsInv(states, steps, k - 1);
      StepKeepsInv(states[k - 1], steps[k - 1]);
    }
  }

  /** After Shutdown no new socket is served and each one served is closed; once the wait group is
      empty no call of Serve is running, in that state and in every later one. */
  lemma {:induction false} ShutdownIsFinal(states: seq<State>, steps: seq<Step>, j: nat, k: nat)
    requires IsRun(states, steps) && j <= k < |states| && states[j].stopped
    ensures states[k].stopped && |states[k].sockets| == |states[j].sockets|
    ensures forall i | 0 <= i < |states[k].sockets| :: states[k].sockets[i].closed
    ensures states[j].waiting == 0 ==> AllFinished(states[k].sockets) && states[k].peers == map[]
  {
    RunKeepsInv(states, steps, k);
    if j < k {
      ShutdownIsFinal(states, steps, j, k - 1);
      StoppedStep(states[k - 1], steps[k - 1]);
    } else if states[j].waiting == 0 {
      forall i | 0 <= i < |states[k].sockets| ensures states[k].sockets[i].phase == Finished {
        NoneUnfinished(states[k].sockets, i);
      }
    }
    if AllFinished(states[k].sockets) { NothingListed(states[k]); }
  }

  lemma NothingListed(s: State)
    requires Listed(s) && AllFinished(s.sockets)
    ensures s.peers == map[]
  {
    assert forall id | id in s.peers :: s.sockets[s.peers[id]].phase == Serving;
  }
}
