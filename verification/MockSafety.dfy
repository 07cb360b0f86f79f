/** What every interleaving of the mock gateway's threads keeps. */
module MockSafety {
  import opened Wrappers
  import opened MockGateway

  // ---------------------------------------------------------------- sums

  lemma SumOf(pending: Pending, scope: Scope, o: Owner)
    requires o in pending
    ensures Sum(pending, scope) == (if Covers(scope, o) then pending[o] else 0) + Sum(pending - {o}, scope)
    decreases |pending|
  {
    var p :| p in pending && Sum(pending, scope)
        == (if Covers(scope, p) then pending[p] else 0) + Sum(pending - {p}, scope);
    if p != o {
      SumOf(pending - {p}, scope, o);
      SumOf(pending - {o}, scope, p);
      assert pending - {p} - {o} == pending - {o} - {p};
    }
  }

  lemma SumSet(pending: Pending, scope: Scope, o: Owner, n: int)
    ensures Sum(pending[o := n], scope) == Sum(pending - {o}, scope) + if Covers(scope, o) then n else 0
    ensures Sum(pending, scope) == Sum(pending - {o}, scope) + if Covers(scope, o) then Value(pending, o) else 0
  {
    SumOf(pending[o := n], scope, o);
    assert pending[o := n] - {o} == pending - {o};
    if o in pending { SumOf(pending, scope, o); } else { assert pending - {o} == pending; }
  }

  lemma SumHold(pending: Pending, scope: Scope, o: Owner)
    ensures Sum(Hold(pending, o), scope) == Sum(pending, scope) + if Covers(scope, o) then 1 else 0
  {
    SumSet(pending, scope, o, Value(pending, o) + 1);
  }

  lemma SumDrop(pending: Pending, scope: Scope, o: Owner)
    ensures Sum(Drop(pending, o), scope) == Sum(pending, scope) - if Covers(scope, o) then 1 else 0
  {
    SumSet(pending, scope, o, Value(pending, o) - 1);
  }

  lemma {:induction false} SumNone(pending: Pending, scope: Scope)
    requires forall o | o in pending :: !Covers(scope, o)
    ensures Sum(pending, scope) == 0
    decreases |pending|
  {
    if pending != map[] {
      var o :| o in pending && Sum(pending, scope)
          == (if Covers(scope, o) then pending[o] else 0) + Sum(pending - {o}, scope);
      SumNone(pending - {o}, scope);
    }
  }

  lemma SumOwner(pending: Pending, o: Owner)
    ensures Sum(pending, OfOwner(o)) == Value(pending, o)
  {
    SumNone(pending - {o}, OfOwner(o));
    SumSet(pending, OfOwner(o), o, 0);
  }

  lemma OfInsert(sessions: Sessions, scope: Scope, i: nat, o: Owner)
    requires i !in sessions
    ensures |Of(sessions[i := o], scope)| == |Of(sessions, scope)| + if Covers(scope, o) then 1 else 0
  {
    assert Of(sessions[i := o], scope) == Of(sessions, scope) + if Covers(scope, o) then {i} else {};
  }

  lemma OfRemove(sessions: Sessions, scope: Scope, i: nat)
    ensures |Of(sessions - {i}, scope)| == |Of(sessions, scope)| - if i in sessions && Covers(scope, sessions[i])
        then 1 else 0
  {
    assert Of(sessions, scope) == Of(sessions - {i}, scope) + if i in sessions && Covers(scope, sessions[i])
        then {i} else {};
  }

  /** The total weight of the cells in scope. */
  function Weigh(w: Cell -> nat, cells: seq<Cell>, scope: Scope): nat {
    if cells == [] then 0
    else Weigh(w, cells[..|cells| - 1], scope) + if Covers(scope, cells[|cells| - 1].owner) then w(cells[|cells| - 1])
        else 0
  }

  lemma WeighAdd(w: Cell -> nat, cells: seq<Cell>, c: Cell, scope: Scope)
    ensures Weigh(w, cells + [c], scope) == Weigh(w, cells, scope) + if Covers(scope, c.owner) then w(c) else 0
  {
    assert (cells + [c])[..|cells|] == cells;
  }

  lemma {:induction false} WeighSet(w: Cell -> nat, cells: seq<Cell>, i: nat, c: Cell, scope: Scope)
    requires i < |cells| && c.owner == cells[i].owner
    ensures Weigh(w, cells[i := c], scope) == Weigh(w, cells, scope) + if Covers(scope, c.owner)
        then w(c) - w(cells[i]) else 0
  {
    var n := |cells| - 1;
    if i == n {
      assert cells[i := c][..n] == cells[..n];
    } else {
      WeighSet(w, cells[..n], i, c, scope);
      assert cells[i := c][..n] == cells[..n][i := c];
    }
  }

  lemma {:induction false} WeighAtLeast(w: Cell -> nat, cells: seq<Cell>, scope: Scope, i: nat)
    requires i < |cells| && Covers(scope, cells[i].owner)
    ensures Weigh(w, cells, scope) >= w(cells[i])
  {
    if i < |cells| - 1 { WeighAtLeast(w, cells[..|cells| - 1], scope, i); }
  }

  // ---------------------------------------------------------------- invariant

  /** Where one call, its session and its cleanup can be. */
  predicate CellOk(c: Cell) {
    && (c.call == Calling ==> !c.upstream)
    && (c.call.Created? || c.call.Checked? ==> c.upstream && c.once == Fresh)
    && (c.call == Refused ==> c.upstream && !c.listed)
    && (!c.upstream ==> c.once == Fresh && !c.listed)
    && (c.listed ==> c.upstream && c.once != Done && (c.call == Returning || c.call == Over))
    && (c.once == Done <==> c.cleanup != Absent)
    && (c.once == Running ==> c.listed || c.call == Refused)
    && (c.upstream && (c.call == Returning || c.call == Over) && c.once == Fresh ==> c.listed)
    && c.stops == if c.cleanup == Stopped || c.cleanup == Released then 1 else 0
  }

  ghost predicate CellsOk(cells: seq<Cell>) { forall i | 0 <= i < |cells| :: CellOk(cells[i]) }

  ghost predicate Tables(s: State) {
    && (forall i | i in s.sessions :: i < |s.cells| && s.cells[i].listed && s.sessions[i] == s.cells[i].owner)
    && (forall i | 0 <= i < |s.cells| && s.cells[i].listed :: i in s.sessions)
  }

  ghost predicate Locked(s: State) {
    && (forall i | 0 <= i < |s.cells| :: s.cells[i].call == Checked <==> s.lock == Some(i))
    && (s.lock.Some? ==> s.lock.value < |s.cells|)
  }

  /** The reservations and registrations add up, whichever of them are counted. */
  ghost predicate Conserved(s: State) { forall scope {:trigger Adds(s, scope)} :: Adds(s, scope) }

  ghost predicate Adds(s: State, scope: Scope) {
    && Sum(s.pending, scope) == Weigh(HoldsOf, s.cells, scope)
    && |Of(s.sessions, scope)| == Weigh(ListedOf, s.cells, scope)
  }

  ghost predicate Positive(pending: Pending) { forall o | o in pending :: pending[o] > 0 }

  function UseOf(c: Cell): nat { if InUse(c) then 1 else 0 }

  /** The streams in use, per actor and in all, stay within the limits. */
  ghost predicate Within(config: Config, cells: seq<Cell>) {
    && Weigh(UseOf, cells, Everyone) <= config.sessions
    && forall actor {:trigger Weigh(UseOf, cells, OfActor(actor))} ::
        Weigh(UseOf, cells, OfActor(actor)) <= config.perOwner
  }

  /** From its snapshot on, Close has every registered session on its list, and no call is past
      the registration checks. */
  ghost predicate ClosingOk(s: State) {
    match s.closing
    case Open => true
    case Cancelled => s.closed
    case Finishing(items) =>
      && s.closed && s.lock.None? && s.sessions.Keys <= items
      && forall i | i in items :: i < |s.cells| && (s.cells[i].listed || s.cells[i].once == Done)
    case Returned => s.closed && s.lock.None? && s.sessions.Keys == {}
  }

  ghost predicate Inv(config: Config, s: State) {
    && CellsOk(s.cells) && Tables(s) && Locked(s) && Conserved(s) && Positive(s.pending)
    && Within(config, s.cells) && ClosingOk(s)
  }

  lemma InitialInv(config: Config)
    ensures Inv(config, INITIAL)
  {
    forall scope ensures Adds(INITIAL, scope) {}
  }

  /** A stream in use weighs one or two. */
  lemma {:induction false} UseIsCounted(cells: seq<Cell>, scope: Scope)
    requires CellsOk(cells)
    ensures Weigh(UseOf, cells, scope) <= Weigh(HoldsOf, cells, scope) +
        Weigh(ListedOf, cells, scope) <= 2 * Weigh(UseOf, cells, scope)
  {
    if cells != [] {
      UseIsCounted(cells[..|cells| - 1], scope);
      assert CellOk(cells[|cells| - 1]);
    }
  }

  // ---------------------------------------------------------------- steps

  /** A step of one call that neither admits nor moves reservations between calls. */
  lemma SetKeepsWithin(config: Config, cells: seq<Cell>, i: nat, c: Cell)
    requires Within(config, cells) && i < |cells| && c.owner == cells[i].owner && (InUse(c) ==> InUse(cells[i]))
    ensures Within(config, cells[i := c])
  {
    WeighSet(UseOf, cells, i, c, Everyone);
    forall actor ensures Weigh(UseOf, cells[i := c], OfActor(actor)) <= config.perOwner {
      WeighSet(UseOf, cells, i, c, OfActor(actor));
      assert Weigh(UseOf, cells, OfActor(actor)) <= config.perOwner;
    }
  }

  lemma AdmitKeepsWithin(config: Config, s: State, c: Cell)
    requires CellsOk(s.cells) && Conserved(s) && Within(config, s.cells) && InUse(c)
    requires Refusal(config, s.sessions, s.pending, s.closed, c.owner).None?
    ensures Within(config, s.cells + [c])
  {
    forall scope ensures Weigh(UseOf, s.cells, scope) <= Raw(s.sessions, s.pending, scope) {
      UseIsCounted(s.cells, scope);
      assert Adds(s, scope);
    }
    WeighAdd(UseOf, s.cells, c, Everyone);
    forall actor ensures Weigh(UseOf, s.cells + [c], OfActor(actor)) <= config.perOwner {
      WeighAdd(UseOf, s.cells, c, OfActor(actor));
      assert Weigh(UseOf, s.cells, OfActor(actor)) <= config.perOwner;
    }
  }

  /** The reservations a step adds to or takes from `pending` are those its call gains or loses. */
  lemma SetKeepsConserved(s: State, next: State, i: nat, c: Cell)
    requires Conserved(s) && Tables(s) && i < |s.cells| && c.owner == s.cells[i].owner && next.cells == s.cells[i := c]
    requires var d := HoldsOf(c) - HoldsOf(s.cells[i]);
      next.pending == if d == 1 then Hold(s.pending, c.owner) else if d == 0 then s.pending
          else Drop(s.pending, c.owner)
    requires -1 <= HoldsOf(c) - HoldsOf(s.cells[i]) <= 1
    requires next.sessions == if c.listed then s.sessions[i := c.owner] else s.sessions - {i}
    ensures Conserved(next)
  {
    forall scope ensures Adds(next, scope) {
      assert Adds(s, scope);
      WeighSet(HoldsOf, s.cells, i, c, scope);
      WeighSet(ListedOf, s.cells, i, c, scope);
      SumHold(s.pending, scope, c.owner);
      SumDrop(s.pending, scope, c.owner);
      OfRemove(s.sessions, scope, i);
      if !s.cells[i].listed {
        OfInsert(s.sessions, scope, i, c.owner);
      } else {
        assert s.sessions[i := c.owner] == s.sessions;
      }
    }
  }

  /** The release of a reservation finds it in `pending`. */
  lemma HoldIsPending(s: State, i: nat)
    requires Conserved(s) && i < |s.cells| && HoldsOf(s.cells[i]) > 0
    ensures s.cells[i].owner in s.pending && s.pending[s.cells[i].owner] > 0
  {
    var o := s.cells[i].owner;
    SumOwner(s.pending, o);
    assert Adds(s, OfOwner(o));
    WeighAtLeast(HoldsOf, s.cells, OfOwner(o), i);
  }

  predicate Touches(step: Step) { !step.Admit? && !step.Cancel? && !step.Snapshot? && !step.CloseReturns? }

  function At(step: Step): nat
    requires Touches(step)
  {
    step.i
  }

  lemma StepKeepsCells(config: Config, s: State, step: Step)
    requires CellsOk(s.cells) && Tables(s) && Enabled(config, s, step) && Touches(step)
    ensures var i, next := At(step), Apply(config, s, step);
      && i < |s.cells| == |next.cells| && next.cells == s.cells[i := next.cells[i]] &&
          next.cells[i].owner == s.cells[i].owner
      && CellOk(next.cells[i]) && (InUse(next.cells[i]) ==> InUse(s.cells[i]))
  {
    assert CellOk(s.cells[At(step)]);
  }

  lemma StepKeepsTables(config: Config, s: State, step: Step)
    requires CellsOk(s.cells) && Tables(s) && Enabled(config, s, step) && Touches(step)
    ensures Tables(Apply(config, s, step))
  {
    assert CellOk(s.cells[At(step)]);
  }

  lemma StepKeepsLocked(config: Config, s: State, step: Step)
    requires Locked(s) && Enabled(config, s, step) && Touches(step)
    ensures Locked(Apply(config, s, step))
  {
  }

  lemma StepKeepsClosing(config: Config, s: State, step: Step)
    requires CellsOk(s.cells) && Tables(s) && Locked(s) && ClosingOk(s) && Enabled(config, s, step) && !step.Admit?
    ensures ClosingOk(Apply(config, s, step))
  {
    if Touches(step) { assert CellOk(s.cells[At(step)]); }
  }

  lemma StepKeepsSums(config: Config, s: State, step: Step)
    requires CellsOk(s.cells) && Tables(s) && Conserved(s) && Positive(s.pending) && Enabled(config, s, step) &&
        Touches(step)
    ensures Conserved(Apply(config, s, step)) && Positive(Apply(config, s, step).pending)
  {
    var i, next := At(step), Apply(config, s, step);
    assert CellOk(s.cells[i]);
    StepKeepsCells(config, s, step);
    if HoldsOf(s.cells[i]) > 0 { HoldIsPending(s, i); }
    assert next.sessions == if next.cells[i].listed then s.sessions[i := next.cells[i].owner] else s.sessions - {i};
    SetKeepsConserved(s, next, i, next.cells[i]);
  }

  lemma AdmitKeepsSums(s: State, next: State, c: Cell)
    requires Conserved(s) && HoldsOf(c) == 1 && ListedOf(c) == 0
    requires next.cells == s.cells + [c] && next.pending == Hold(s.pending, c.owner) && next.sessions == s.sessions
    ensures Conserved(next)
  {
    forall scope ensures Adds(next, scope) {
      assert Adds(s, scope);
      WeighAdd(HoldsOf, s.cells, c, scope);
      WeighAdd(ListedOf, s.cells, c, scope);
      SumHold(s.pending, scope, c.owner);
    }
  }

  lemma AdmitKeepsCells(s: State, next: State, c: Cell)
    requires CellsOk(s.cells) && Tables(s) && Locked(s) && ClosingOk(s) && CellOk(c) && c.call == Calling &&
        s.lock.None?
    requires next == s.(cells := s.cells + [c], pending := Hold(s.pending, c.owner))
    ensures CellsOk(next.cells) && Tables(next) && Locked(next) && ClosingOk(next)
  {
  }

  lemma AdmitKeepsInv(config: Config, s: State, o: Owner)
    requires Inv(config, s) && s.lock.None?
    ensures Inv(config, Apply(config, s, Admit(o)))
  {
    var c := Cell(o, Calling, false, false, Fresh, Absent, 0);
    var next := s.(cells := s.cells + [c], pending := Hold(s.pending, o));
    if Refusal(config, s.sessions, s.pending, s.closed, o).None? {
      AdmitKeepsWithin(config, s, c);
      AdmitKeepsSums(s, next, c);
      AdmitKeepsCells(s, next, c);
    }
  }

  lemma CallKeepsInv(config: Config, s: State, step: Step)
    requires Inv(config, s) && Enabled(config, s, step) && Touches(step)
    ensures Inv(config, Apply(config, s, step))
  {
    StepKeepsCells(config, s, step);
    StepKeepsTables(config, s, step);
    StepKeepsLocked(config, s, step);
    StepKeepsClosing(config, s, step);
    StepKeepsSums(config, s, step);
    SetKeepsWithin(config, s.cells, At(step), Apply(config, s, step).cells[At(step)]);
    SetKeepsCells(s.cells, At(step), Apply(config, s, step).cells[At(step)]);
  }

  lemma SetKeepsCells(cells: seq<Cell>, i: nat, c: Cell)
    requires CellsOk(cells) && CellOk(c) && i < |cells|
    ensures CellsOk(cells[i := c])
  {
  }

  lemma StepKeepsInv(config: Config, s: State, step: Step)
    requires Inv(config, s) && Enabled(config, s, step)
    ensures Inv(config, Apply(config, s, step))
  {
    if step.Admit? {
      AdmitKeepsInv(config, s, step.owner);
    } else if Touches(step) {
      CallKeepsInv(config, s, step);
    } else {
      StepKeepsClosing(config, s, step);
      forall scope ensures Adds(Apply(config, s, step), scope) { assert Adds(s, scope); }
    }
  }

  /** Every state of every interleaving satisfies the invariant. */
  lemma {:induction false} RunKeepsInv(config: Config, states: seq<State>, steps: seq<Step>, k: nat)
    requires IsRun(config, states, steps) && Inv(config, states[0]) && k < |states|
    ensures Inv(config, states[k])
  {
    if k > 0 {
      RunKeepsInv(config, states, steps, k - 1);
      assert Follows(config, states, steps, k - 1);
      StepKeepsInv(config, states[k - 1], steps[k - 1]);
    }
  }

  // ---------------------------------------------------------------- consequences

  /** The streams being created, registered or still stopping stay within `sessions`, and each
      actor's within `perOwner`; the counter Create compares may count a stream twice but never
      more; and no released reservation leaves a key behind. */
  lemma Capacity(config: Config, states: seq<State>, steps: seq<Step>, k: nat, actor: string)
    requires IsRun(config, states, steps) && states[0] == INITIAL && k < |states|
    ensures var s := states[k];
      && Weigh(UseOf, s.cells, Everyone) <= config.sessions
      && Weigh(UseOf, s.cells, OfActor(actor)) <= config.perOwner
      && Weigh(UseOf, s.cells, Everyone) <= Raw(s.sessions, s.pending, Everyone) <= 2 * config.sessions
      && Raw(s.sessions, s.pending, OfActor(actor)) <= 2 * config.perOwner
      && forall o | o in s.pending :: s.pending[o] > 0 && s.pending[o] == Weigh(HoldsOf, s.cells, OfOwner(o))
  {
    InitialInv(config);
    RunKeepsInv(config, states, steps, k);
    var s := states[k];
    UseIsCounted(s.cells, Everyone);
    UseIsCounted(s.cells, OfActor(actor));
    assert Adds(s, Everyone) && Adds(s, OfActor(actor));
    assert Weigh(UseOf, s.cells, OfActor(actor)) <= config.perOwner;
    forall o | o in s.pending ensures s.pending[o] == Weigh(HoldsOf, s.cells, OfOwner(o)) {
      SumOwner(s.pending, o);
      assert Adds(s, OfOwner(o));
    }
  }

  /** An admission leaves room: the call is refused exactly when the limits are reached by what
      is counted, never because of a stream whose cleanup is over. */
  lemma RefusedOnlyWhenUsed(config: Config, s: State, o: Owner)
    requires Inv(config, s) && !s.closed && Refusal(config, s.sessions, s.pending, s.closed, o) == Some(LimitExceeded)
    ensures 2 * Weigh(UseOf, s.cells, Everyone) >= config.sessions ||
        2 * Weigh(UseOf, s.cells, OfActor(o.actor)) >= config.perOwner
  {
    UseIsCounted(s.cells, Everyone);
    UseIsCounted(s.cells, OfActor(o.actor));
    assert Adds(s, Everyone) && Adds(s, OfActor(o.actor));
  }

  /** Once finish has run for a session it is out of the table for good. */
  lemma {:induction false} FinishedStaysOut(config: Config, states: seq<State>, steps: seq<Step>, j: nat, k: nat,
      i: nat)
    requires IsRun(config, states, steps) && states[0] == INITIAL && j <= k < |states|
    requires i < |states[j].cells| && states[j].cells[i].once == Done
    ensures i < |states[k].cells| && states[k].cells[i].once == Done && i !in states[k].sessions
  {
    InitialInv(config);
    RunKeepsInv(config, states, steps, k);
    if k > j {
      FinishedStaysOut(config, states, steps, j, k - 1, i);
      RunKeepsInv(config, states, steps, k - 1);
      assert Follows(config, states, steps, k - 1);
      FinishedStep(config, states[k - 1], steps[k - 1], i);
    }
    assert CellOk(states[k].cells[i]);
  }

  lemma FinishedStep(config: Config, s: State, step: Step, i: nat)
    requires Inv(config, s) && Enabled(config, s, step) && i < |s.cells| && s.cells[i].once == Done
    ensures i < |Apply(config, s, step).cells| && Apply(config, s, step).cells[i].once == Done
  {
    assert CellOk(s.cells[i]);
  }

  /** After Close has returned nothing is registered in any later state, whatever calls were
      in flight. */
  lemma {:induction false} ClosedStaysEmpty(config: Config, states: seq<State>, steps: seq<Step>, j: nat, k: nat)
    requires IsRun(config, states, steps) && states[0] == INITIAL && j <= k < |states|
    requires states[j].closing == Returned
    ensures states[k].closing == Returned && states[k].sessions == map[]
  {
    InitialInv(config);
    RunKeepsInv(config, states, steps, k);
    if k > j {
      ClosedStaysEmpty(config, states, steps, j, k - 1);
      assert Follows(config, states, steps, k - 1);
    }
  }

  /** Nothing of this call is still moving. */
  predicate Settled(c: Cell) { c.call == Over && c.once != Running && c.cleanup != Stopping && c.cleanup != Stopped }

  /** In every state an upstream stream has been stopped at most once, and a settled one that is
      not registered exactly once; a stream that was never created is never stopped. */
  lemma StoppedOnce(config: Config, states: seq<State>, steps: seq<Step>, k: nat, i: nat)
    requires IsRun(config, states, steps) && states[0] == INITIAL && k < |states| && i < |states[k].cells|
    ensures var c := states[k].cells[i];
      && c.stops <= (if c.upstream then 1 else 0)
      && (Settled(c) && c.upstream ==> (c.stops == 0 <==> i in states[k].sessions))
  {
    InitialInv(config);
    RunKeepsInv(config, states, steps, k);
    assert CellOk(states[k].cells[i]);
  }

  /** When everything has settled after Close, every created stream was stopped exactly once and
      all capacity is free again. */
  lemma CloseReleasesAll(config: Config, states: seq<State>, steps: seq<Step>, k: nat)
    requires IsRun(config, states, steps) && states[0] == INITIAL && k < |states| && states[k].closing == Returned
    requires forall i | 0 <= i < |states[k].cells| :: Settled(states[k].cells[i])
    ensures states[k].pending == map[] && Raw(states[k].sessions, states[k].pending, Everyone) == 0
    ensures forall i | 0 <= i < |states[k].cells| :: states[k].cells[i].upstream ==> states[k].cells[i].stops == 1
  {
    var s := states[k];
    InitialInv(config);
    RunKeepsInv(config, states, steps, k);
    forall i | 0 <= i < |s.cells| ensures s.cells[i].upstream ==> s.cells[i].stops == 1 {
      StoppedOnce(config, states, steps, k, i);
    }
    forall o | o in s.pending ensures false {
      SumOwner(s.pending, o);
      assert Adds(s, OfOwner(o));
      NothingHeld(s.cells, OfOwner(o));
    }
    assert s.pending == map[];
  }

  lemma {:induction false} NothingHeld(cells: seq<Cell>, scope: Scope)
    requires forall i | 0 <= i < |cells| :: Settled(cells[i])
    ensures Weigh(HoldsOf, cells, scope) == 0
  {
    if cells != [] { NothingHeld(cells[..|cells| - 1], scope); }
  }

  // ---------------------------------------------------------------- progress

  function CallRank(call: Call): nat {
    match call
    case Calling => 4
    case Created => 3
    case Checked => 2
    case Refused => 2
    case Returning => 1
    case Over => 0
  }

  function CleanupRank(cleanup: Cleanup): nat {
    match cleanup
    case Absent => 3
    case Stopping => 2
    case Stopped => 1
    case Released => 0
  }

  /** How many steps a call, its session and its cleanup can still take. */
  function RankOf(c: Cell): nat {
    CallRank(c.call) + CleanupRank(c.cleanup) + match c.once case Fresh => 2 case Running => 1 case Done => 0
  }

  function ClosingRank(closing: Closing): nat {
    match closing
    case Open => 3
    case Cancelled => 2
    case Finishing(_) => 1
    case Returned => 0
  }

  function Rank(s: State): nat { Weigh(RankOf, s.cells, Everyone) + ClosingRank(s.closing) }

  lemma StepLowersRank(config: Config, s: State, step: Step)
    requires CellsOk(s.cells) && Tables(s) && Enabled(config, s, step) && Touches(step)
    ensures At(step) < |s.cells| == |Apply(config, s, step).cells|
    ensures RankOf(Apply(config, s, step).cells[At(step)]) < RankOf(s.cells[At(step)])
    ensures Apply(config, s, step).closing == s.closing
  {
    assert CellOk(s.cells[At(step)]);
  }

  /** Every step but an admission brings the end nearer, and after Close has begun admissions
      change nothing; so only finitely many steps are left. */
  lemma StepsRunOut(config: Config, s: State, step: Step)
    requires Inv(config, s) && Enabled(config, s, step)
    ensures !step.Admit? ==> Rank(Apply(config, s, step)) < Rank(s)
    ensures step.Admit? && s.closed ==> Apply(config, s, step) == s
  {
    if Touches(step) {
      StepKeepsCells(config, s, step);
      StepLowersRank(config, s, step);
      WeighSet(RankOf, s.cells, At(step), Apply(config, s, step).cells[At(step)], Everyone);
    }
  }

  /** No thread waits for ever: while a call is unsettled or Close is under way, some step other
      than an admission is possible. */
  lemma NotStuck(config: Config, s: State) returns (step: Step)
    requires Inv(config, s) && (s.closing.Cancelled? || s.closing.Finishing? || exists i | 0 <= i < |s.cells| ::
        !Settled(s.cells[i]))
    ensures Enabled(config, s, step) && !step.Admit?
  {
    if s.lock.Some? {
      step := Register(s.lock.value);
    } else if i :| 0 <= i < |s.cells| && !Settled(s.cells[i]) {
      var c := s.cells[i];
      assert CellOk(c);
      step := if c.once == Running then FinishSection(i)
              else if c.cleanup == Stopping then CallStop(i)
              else if c.cleanup == Stopped then ReleaseCleanup(i)
              else match c.call
                case Calling => GatewayFails(i)
                case Created => EnterRegistration(i, true)
                case Refused => if c.once == Done then RefusedReturns(i) else BeginFinish(i)
                case _ => Release(i);
    } else if s.closing.Cancelled? {
      step := Snapshot;
    } else {
      step := CloseReturns;
      if i :| i in s.closing.items && s.cells[i].once != Done { step := BeginFinish(i); }
    }
  }

  function Moves(steps: seq<Step>): nat {
    if steps == [] then 0 else Moves(steps[..|steps| - 1]) + if steps[|steps| - 1].Admit? then 0 else 1
  }

  /** Once Close has begun, the rank bounds the number of steps other than refused admissions that
      any run can still take. */
  lemma {:induction false} StepsLeft(config: Config, states: seq<State>, steps: seq<Step>, j: nat, k: nat)
    requires IsRun(config, states, steps) && states[0] == INITIAL && j <= k < |states| && states[j].closed
    ensures states[k].closed && Rank(states[k]) + Moves(steps[j..k]) <= Rank(states[j])
  {
    if j < k {
      StepsLeft(config, states, steps, j, k - 1);
      LastStep(config, states, steps, k);
      MovesLast(steps, j, k);
    }
  }

  lemma MovesLast(steps: seq<Step>, j: nat, k: nat)
    requires j < k <= |steps|
    ensures Moves(steps[j..k]) == Moves(steps[j..k - 1]) + if steps[k - 1].Admit? then 0 else 1
  {
    assert steps[j..k][..k - 1 - j] == steps[j..k - 1] && steps[j..k][k - 1 - j] == steps[k - 1];
  }

  lemma LastStep(config: Config, states: seq<State>, steps: seq<Step>, k: nat)
    requires IsRun(config, states, steps) && states[0] == INITIAL && 0 < k < |states| && states[k - 1].closed
    ensures states[k].closed && Rank(states[k]) + (if steps[k - 1].Admit? then 0 else 1) <= Rank(states[k - 1])
  {
    InitialInv(config);
    RunKeepsInv(config, states, steps, k - 1);
    assert Follows(config, states, steps, k - 1);
    StepsRunOut(config, states[k - 1], steps[k - 1]);
    StaysClosed(config, states[k - 1], steps[k - 1]);
  }

  lemma StaysClosed(config: Config, s: State, step: Step)
    requires Enabled(config, s, step) && s.closed
    ensures Apply(config, s, step).closed
  {
  }

  /** Where a run after Close can go no further, Close has returned, every created stream was
      stopped exactly once and all capacity is free. */
  lemma CloseCompletes(config: Config, states: seq<State>, steps: seq<Step>, k: nat)
    requires IsRun(config, states, steps) && states[0] == INITIAL && k < |states| && states[k].closing != Open
    requires forall step :: Enabled(config, states[k], step) ==> step.Admit?
    ensures states[k].closing == Returned && states[k].sessions == map[] && states[k].pending == map[]
    ensures forall i | 0 <= i < |states[k].cells| ::
        states[k].cells[i].stops == if states[k].cells[i].upstream then 1 else 0
  {
    var s := states[k];
    InitialInv(config);
    RunKeepsInv(config, states, steps, k);
    if s.closing != Returned || exists i | 0 <= i < |s.cells| :: !Settled(s.cells[i]) {
      var step := NotStuck(config, s);
      assert false;
    }
    CloseReleasesAll(config, states, steps, k);
    forall i | 0 <= i < |s.cells| ensures s.cells[i].stops == if s.cells[i].upstream then 1 else 0 {
      StoppedOnce(config, states, steps, k, i);
    }
  }
}
