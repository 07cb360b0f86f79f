/**
 The admission, registration and cleanup protocol of the mock session gateway, after
 internal/usecase/mock_data/usecase.go.  Every call of Create has a cell; each section under
 the mutex, each gateway call and the cancellation of the use case is one step of some
 thread, and steps of different threads interleave freely.
 */
module MockGateway {
  import opened Wrappers

  datatype Owner = Owner(actor: string, workspace: string)

  datatype Config = Config(sessions: nat, perOwner: nat)

  /** Which reservations to count. */
  datatype Scope = Everyone | OfActor(actor: string) | OfOwner(owner: Owner)

  predicate Covers(scope: Scope, o: Owner) {
    match scope
    case Everyone => true
    case OfActor(actor) => o.actor == actor
    case OfOwner(owner) => o == owner
  }

  // ---------------------------------------------------------------- shared tables

  type Pending = map<Owner, int>
  type Sessions = map<nat, Owner>

  function Value(pending: Pending, o: Owner): int { if o in pending then pending[o] else 0 }

  /** pending[o]++ */
  function Hold(pending: Pending, o: Owner): Pending { pending[o := Value(pending, o) + 1] }

  /** pending[o]--, dropping the key at zero. */
  function Drop(pending: Pending, o: Owner): Pending {
    if Value(pending, o) == 1 then pending - {o} else pending[o := Value(pending, o) - 1]
  }

  ghost function Sum(pending: Pending, scope: Scope): int
    decreases |pending|
  {
    if pending == map[] then 0
    else
      var o :| o in pending;
      (if Covers(scope, o) then pending[o] else 0) + Sum(pending - {o}, scope)
  }

  function Of(sessions: Sessions, scope: Scope): set<nat> { set i | i in sessions && Covers(scope, sessions[i]) }

  /** What Create sees in use: registered sessions and reservations. */
  ghost function Raw(sessions: Sessions, pending: Pending, scope: Scope): int
  {
    |Of(sessions, scope)| + Sum(pending, scope)
  }

  datatype AdmissionError = ShuttingDown | LimitExceeded

  ghost function Refusal(config: Config, sessions: Sessions, pending: Pending, closed: bool,
      o: Owner): Option<AdmissionError>
  {
    if closed then Some(ShuttingDown)
    else if Raw(sessions, pending, Everyone) >= config.sessions ||
        Raw(sessions, pending, OfActor(o.actor)) >= config.perOwner then Some(LimitExceeded)
    else None
  }

  // ---------------------------------------------------------------- threads

  /** Where a call of Create is.  It holds a reservation until it is Over. */
  datatype Call =
    | Calling    // in gateway.Create
    | Created    // the upstream stream exists, the session is not registered
    | Checked    // inside the registration section, past its checks
    | Refused    // the checks failed: the call finishes its own session
    | Returning  // about to run its deferred release
    | Over

  /** The once guard of finish. */
  datatype Once = Fresh | Running | Done

  /** The cleanup goroutine of finish.  It holds a reservation until it is Released. */
  datatype Cleanup = Absent | Stopping | Stopped | Released

  /** `stops` counts the gateway.Stop calls made for the stream. */
  datatype Cell = Cell(owner: Owner, call: Call, upstream: bool, listed: bool, once: Once, cleanup: Cleanup, stops: nat)

  datatype Closing = Open | Cancelled | Finishing(items: set<nat>) | Returned

  /** `lock` names the call that is inside the registration section. */
  datatype State = State(
    cells: seq<Cell>, sessions: Sessions, pending: Pending, closed: bool, lock: Option<nat>, closing: Closing)

  const INITIAL := State([], map[], map[], false, None, Open)

  function HoldsOf(c: Cell): nat {
    (if c.call != Over then 1 else 0) + if c.cleanup == Stopping || c.cleanup == Stopped then 1 else 0
  }

  function ListedOf(c: Cell): nat { if c.listed then 1 else 0 }

  /** The stream is being created, registered or still being stopped. */
  predicate InUse(c: Cell) { c.call != Over || c.listed || c.cleanup == Stopping || c.cleanup == Stopped }

  // ---------------------------------------------------------------- steps

  datatype Step =
    | Admit(owner: Owner)                        // the first section of Create
    | GatewayFails(i: nat) | GatewayCreates(i: nat)
    | EnterRegistration(i: nat, cancelled: bool) // `cancelled`: the caller's context is done
    | Register(i: nat)
    | BeginFinish(i: nat)                        // the winner of once.Do, whoever calls finish
    | FinishSection(i: nat)
    | RefusedReturns(i: nat)
    | Release(i: nat)                            // the deferred release of Create
    | CallStop(i: nat)
    | ReleaseCleanup(i: nat)
    | Cancel | Snapshot | CloseReturns

  ghost predicate Enabled(config: Config, s: State, step: Step) {
    match step
    case Admit(_) => s.lock.None?
    case GatewayFails(i) => i < |s.cells| && s.cells[i].call == Calling
    case GatewayCreates(i) => i < |s.cells| && s.cells[i].call == Calling
    case EnterRegistration(i, _) => i < |s.cells| && s.lock.None? && s.cells[i].call == Created
    case Register(i) => i < |s.cells| && s.lock == Some(i) && s.cells[i].call == Checked
    case BeginFinish(i) => i < |s.cells| && s.cells[i].once == Fresh && (i in s.sessions || s.cells[i].call == Refused)
    case FinishSection(i) => i < |s.cells| && s.lock.None? && s.cells[i].once == Running
    case RefusedReturns(i) => i < |s.cells| && s.cells[i].call == Refused && s.cells[i].once == Done
    case Release(i) => i < |s.cells| && s.lock.None? && s.cells[i].call == Returning
    case CallStop(i) => i < |s.cells| && s.cells[i].cleanup == Stopping
    case ReleaseCleanup(i) => i < |s.cells| && s.lock.None? && s.cells[i].cleanup == Stopped
    case Cancel => s.closing == Open
    case Snapshot => s.closing == Cancelled && s.lock.None?
    case CloseReturns => s.closing.Finishing? && forall i | i in s.closing.items ::
        i < |s.cells| && s.cells[i].once == Done
  }

  function SetCell(s: State, i: nat, c: Cell): State
    requires i < |s.cells|
  {
    s.(cells := s.cells[i := c])
  }

  ghost function Apply(config: Config, s: State, step: Step): State
    requires Enabled(config, s, step)
  {
    match step
    case Admit(o) =>
      if Refusal(config, s.sessions, s.pending, s.closed, o).Some? then s
      else s.(cells := s.cells + [Cell(o, Calling, false, false, Fresh, Absent, 0)], pending := Hold(s.pending, o))
    case GatewayFails(i) => SetCell(s, i, s.cells[i].(call := Returning))
    case GatewayCreates(i) => SetCell(s, i, s.cells[i].(call := Created, upstream := true))
    case EnterRegistration(i, cancelled) =>
      if cancelled || s.closed then SetCell(s, i, s.cells[i].(call := Refused))
      else SetCell(s, i, s.cells[i].(call := Checked)).(lock := Some(i))
    case Register(i) =>
      SetCell(s, i, s.cells[i].(call := Returning, listed := true)).(sessions := s.sessions[i := s.cells[i].owner],
          lock := None)
    case BeginFinish(i) => SetCell(s, i, s.cells[i].(once := Running))
    case FinishSection(i) =>
      SetCell(s, i, s.cells[i].(once := Done, listed := false, cleanup := Stopping)).(
        sessions := s.sessions - {i}, pending := Hold(s.pending, s.cells[i].owner))
    case RefusedReturns(i) => SetCell(s, i, s.cells[i].(call := Returning))
    case Release(i) => SetCell(s, i, s.cells[i].(call := Over)).(pending := Drop(s.pending, s.cells[i].owner))
    case CallStop(i) => SetCell(s, i, s.cells[i].(cleanup := Stopped, stops := s.cells[i].stops + 1))
    case ReleaseCleanup(i) => SetCell(s, i,
        s.cells[i].(cleanup := Released)).(pending := Drop(s.pending, s.cells[i].owner))
    case Cancel => s.(closed := true, closing := Cancelled)
    case Snapshot => s.(closing := Finishing(s.sessions.Keys))
    case CloseReturns => s.(closing := Returned)
  }

  /** `states` is a run: each state follows from the one before by its step. */
  ghost predicate IsRun(config: Config, states: seq<State>, steps: seq<Step>) {
    && |states| == |steps| + 1
    && forall k {:trigger Follows(config, states, steps, k)} :: Follows(config, states, steps, k)
  }

  ghost predicate Follows(config: Config, states: seq<State>, steps: seq<Step>, k: nat)
    requires |states| == |steps| + 1
  {
    k < |steps| ==> Enabled(config, states[k], steps[k]) && states[k + 1] == Apply(config, states[k], steps[k])
  }
}
