/**
 The byte budget of the mock gateway, after internal/usecase/mock_data/usecase.go: an atomic
 counter that a reserver raises first and lowers again when it went over.
 */
module MockBudget {
  import opened Sequences

  datatype Phase = Over | Granted | Gone

  /** One reservation of `size` bytes: Over between the failed Add and its compensation. */
  datatype Reservation = Reservation(size: nat, phase: Phase)

  datatype State = State(counter: int, reservations: seq<Reservation>)

  const INITIAL := State(0, [])

  datatype Step = Reserve(size: nat) | Compensate(i: nat) | Release(i: nat)

  predicate Enabled(s: State, step: Step) {
    match step
    case Reserve(_) => true
    case Compensate(i) => i < |s.reservations| && s.reservations[i].phase == Over
    case Release(i) => i < |s.reservations| && s.reservations[i].phase == Granted
  }

  function Apply(limit: nat, s: State, step: Step): State
    requires Enabled(s, step)
  {
    match step
    case Reserve(size) =>
      State(s.counter + size, s.reservations + [Reservation(size, if s.counter + size > limit then Over else Granted)])
    case Compensate(i) => Leave(s, i)
    case Release(i) => Leave(s, i)
  }

  function Leave(s: State, i: nat): State
    requires i < |s.reservations|
  {
    State(s.counter - s.reservations[i].size, s.reservations[i := s.reservations[i].(phase := Gone)])
  }

  function SizeIn(phases: set<Phase>): Reservation -> nat
  {
    (r: Reservation) => if r.phase in phases then r.size else 0
  }

  function Bytes(reservations: seq<Reservation>, phases: set<Phase>): nat { Total(SizeIn(phases), reservations) }

  lemma {:induction false} BytesMore(reservations: seq<Reservation>, phases: set<Phase>, more: set<Phase>)
    requires phases <= more
    ensures Bytes(reservations, phases) <= Bytes(reservations, more)
  {
    if reservations != [] { BytesMore(reservations[..|reservations| - 1], phases, more); }
  }

  ghost predicate Inv(limit: nat, s: State) {
    s.counter == Bytes(s.reservations, {Over, Granted}) && Bytes(s.reservations, {Granted}) <= limit
  }

  lemma StepKeepsInv(limit: nat, s: State, step: Step)
    requires Inv(limit, s) && Enabled(s, step)
    ensures Inv(limit, Apply(limit, s, step))
  {
    match step
    case Reserve(size) => ReserveKeepsInv(limit, s, size);
    case Compensate(i) => LeaveKeepsInv(limit, s, i);
    case Release(i) => LeaveKeepsInv(limit, s, i);
  }

  lemma ReserveKeepsInv(limit: nat, s: State, size: nat)
    requires Inv(limit, s)
    ensures Inv(limit, Apply(limit, s, Reserve(size)))
  {
    var r := Reservation(size, if s.counter + size > limit then Over else Granted);
    TotalAdd(SizeIn({Over, Granted}), s.reservations, r);
    TotalAdd(SizeIn({Granted}), s.reservations, r);
    BytesMore(s.reservations, {Granted}, {Over, Granted});
  }

  lemma LeaveKeepsInv(limit: nat, s: State, i: nat)
    requires Inv(limit, s) && i < |s.reservations| && s.reservations[i].phase != Gone
    ensures Inv(limit, Leave(s, i))
  {
    TotalSet(SizeIn({Over, Granted}), s.reservations, i, s.reservations[i].(phase := Gone));
    TotalSet(SizeIn({Granted}), s.reservations, i, s.reservations[i].(phase := Gone));
  }

  ghost predicate IsRun(limit: nat, states: seq<State>, steps: seq<Step>) {
    && |states| == |steps| + 1 && states[0] == INITIAL
    && forall k | 0 <= k < |steps| :: Enabled(states[k], steps[k]) && states[k + 1] == Apply(limit, states[k], steps[k])
  }

  /** However the reservers interleave, what has been granted and not released fits the budget,
      and the counter is what has been granted plus what is about to be compensated. */
  lemma {:induction false} GrantedFits(limit: nat, states: seq<State>, steps: seq<Step>, k: nat)
    requires IsRun(limit, states, steps) && k < |states|
    ensures Bytes(states[k].reservations, {Granted}) <= limit
    ensures states[k].counter == Bytes(states[k].reservations, {Over, Granted})
  {
    if k > 0 {
      GrantedFits(limit, states, steps, k - 1);
      StepKeepsInv(limit, states[k - 1], steps[k - 1]);
    }
  }

  /** With no compensation outstanding a reservation is granted exactly when it fits. */
  lemma GrantedExactly(limit: nat, s: State, size: nat)
    requires Inv(limit, s) && Bytes(s.reservations, {Over}) == 0
    ensures var r := Apply(limit, s, Reserve(size)).reservations[|s.reservations|];
      r.phase == Granted <==> Bytes(s.reservations, {Granted}) + size <= limit
  {
    BytesSplit(s.reservations);
  }

  lemma {:induction false} BytesSplit(reservations: seq<Reservation>)
    ensures Bytes(reservations, {Over, Granted}) == Bytes(reservations, {Over}) + Bytes(reservations, {Granted})
  {
    if reservations != [] { BytesSplit(reservations[..|reservations| - 1]); }
  }

  /** The counter itself may pass the budget for a while. */
  lemma CounterMayExceed(limit: nat)
    ensures var s := Apply(limit, INITIAL, Reserve(limit + 1));
      Inv(limit, s) && s.counter > limit && Bytes(s.reservations, {Granted}) == 0
  {
    StepKeepsInv(limit, INITIAL, Reserve(limit + 1));
    TotalAdd(SizeIn({Granted}), [], Reservation(limit + 1, Over));
  }

  /** What other reservers can make of a state while reservation `i` waits: anything that keeps the
      invariant and leaves the reservation alone. */
  ghost predicate Interferes(limit: nat, s: State, next: State, i: nat) {
    Inv(limit, next) && i < |s.reservations| && i < |next.reservations| && next.reservations[i] == s.reservations[i]
  }

  /** Every step of another reserver is such an interference. */
  lemma OthersInterfere(limit: nat, s: State, step: Step, i: nat)
    requires Inv(limit, s) && Enabled(s, step) && i < |s.reservations| && (step.Reserve? || step.i != i)
    ensures Interferes(limit, s, Apply(limit, s, step), i)
  {
    StepKeepsInv(limit, s, step);
  }

  class Budget {
    const limit: nat
    var buffered: int

    constructor (limit: nat)
      ensures this.limit == limit && Shows(INITIAL)
    {
      this.limit, buffered := limit, 0;
    }

    ghost predicate Shows(s: State) reads this { buffered == s.counter }

    /** A point at which other reservers may run; callers know only what the contract says. */
    method Others(ghost s: State, ghost i: nat) returns (ghost next: State)
      requires Shows(s) && Inv(limit, s) && i < |s.reservations|
      modifies this`buffered
      ensures Shows(next) && Interferes(limit, s, next, i)
    {
      next := s;
    }

    /** ReserveBytes among any other reservers: the reservation is granted exactly when the counter
        with it is within the limit, and whatever happens before the compensation, a refused
        reservation is gone in the end. */
    method ReserveBytes(n: nat, ghost s: State) returns (granted: bool, ghost next: State)
      requires Shows(s) && Inv(limit, s)
      modifies this`buffered
      ensures granted <==> s.counter + n <= limit
      ensures Shows(next) && Inv(limit, next) && |s.reservations| < |next.reservations|
      ensures next.reservations[|s.reservations|] == Reservation(n, if granted then Granted else Gone)
    {
      buffered := buffered + n;
      var sum := buffered;
      StepKeepsInv(limit, s, Reserve(n));
      next := Apply(limit, s, Reserve(n));
      if sum > limit {
        next := Others(next, |s.reservations|);
        StepKeepsInv(limit, next, Compensate(|s.reservations|));
        buffered := buffered - n;
        next := Apply(limit, next, Compensate(|s.reservations|));
        return false, next;
      }
      return true, next;
    }

    method ReleaseBytes(n: nat, ghost s: State, ghost i: nat)
      requires Shows(s) && Enabled(s, Step.Release(i)) && s.reservations[i].size == n
      modifies this`buffered
      ensures Shows(Apply(limit, s, Step.Release(i)))
    {
      buffered := buffered - n;
    }
  }
}
