/**
 What the callers of the mock sessions observe: when a session is admitted, whose it is, and how
 long its lease is after each answer.
 */
module MockOutcomes {
  import opened Wrappers
  import opened MockGateway
  import opened MockSafety
  import opened Sequences
  import MockLease

  // ---------------------------------------------------------------- admission

  /** The calls that have not ended, of everyone or of one actor. */
  function Calls(cells: seq<Cell>, actor: Option<string>): set<int> {
    set i | 0 <= i < |cells| && Mine(cells[i], actor) && cells[i].call != Over
  }

  /** The streams that are still being stopped. */
  function Cleanups(cells: seq<Cell>, actor: Option<string>): set<int> {
    set i | 0 <= i < |cells| && Mine(cells[i], actor) && (cells[i].cleanup == Stopping || cells[i].cleanup == Stopped)
  }

  function Registered(sessions: Sessions, actor: Option<string>): set<nat> {
    set i | i in sessions && (actor.Some? ==> sessions[i].actor == actor.value)
  }

  predicate Mine(c: Cell, actor: Option<string>) { actor.Some? ==> c.owner.actor == actor.value }

  /** What is counted against a limit. */
  function Counted(s: State, actor: Option<string>): nat {
    |Calls(s.cells, actor)| + |Cleanups(s.cells, actor)| + |Registered(s.sessions, actor)|
  }

  function ScopeOf(actor: Option<string>): Scope { if actor.Some? then OfActor(actor.value) else Everyone }

  function CallsOf(actor: Option<string>): Cell -> bool { (c: Cell) => Mine(c, actor) && c.call != Over }

  function CleanupsOf(actor: Option<string>): Cell -> bool {
    (c: Cell) => Mine(c, actor) && (c.cleanup == Stopping || c.cleanup == Stopped)
  }

  lemma {:induction false} HoldsAreBoth(cells: seq<Cell>, actor: Option<string>)
    ensures Weigh(HoldsOf, cells, ScopeOf(actor)) == Count(CallsOf(actor), cells) + Count(CleanupsOf(actor), cells)
  {
    if cells != [] { HoldsAreBoth(cells[..|cells| - 1], actor); }
  }

  lemma HoldsAreCounted(cells: seq<Cell>, actor: Option<string>)
    ensures Weigh(HoldsOf, cells, ScopeOf(actor)) == |Calls(cells, actor)| + |Cleanups(cells, actor)|
  {
    HoldsAreBoth(cells, actor);
    CountIs(CallsOf(actor), cells, Calls(cells, actor));
    CountIs(CleanupsOf(actor), cells, Cleanups(cells, actor));
  }

  lemma RawIsCounted(s: State, actor: Option<string>)
    requires Conserved(s)
    ensures Raw(s.sessions, s.pending, ScopeOf(actor)) == Counted(s, actor)
  {
    assert Adds(s, ScopeOf(actor));
    HoldsAreCounted(s.cells, actor);
    assert Of(s.sessions, ScopeOf(actor)) == Registered(s.sessions, actor);
  }

  /** A call is admitted exactly while the use case is open and both counts are below their limits;
      then it is under way for its owner, and otherwise nothing happens. */
  lemma AdmitOutcome(config: Config, s: State, o: Owner)
    requires Inv(config, s) && Enabled(config, s, Admit(o))
    ensures var next := Apply(config, s, Admit(o));
      if !s.closed && Counted(s, None) < config.sessions && Counted(s, Some(o.actor)) < config.perOwner then
        && next.cells == s.cells + [Cell(o, Calling, false, false, Fresh, Absent, 0)]
        && next.pending == s.pending[o := 1 + if o in s.pending then s.pending[o] else 0]
        && next.sessions == s.sessions && next.closed == s.closed
      else next == s
  {
    RawIsCounted(s, None);
    RawIsCounted(s, Some(o.actor));
  }

  /** A created stream is registered for its owner exactly when neither its caller has gone away nor
      the use case is closed; otherwise its call finishes it. */
  lemma RegistrationOutcome(config: Config, s: State, i: nat, cancelled: bool)
    requires Inv(config, s) && Enabled(config, s, EnterRegistration(i, cancelled))
    ensures var entered := Apply(config, s, EnterRegistration(i, cancelled));
      if cancelled || s.closed then
        && entered.sessions == s.sessions && i !in entered.sessions && Enabled(config, entered, BeginFinish(i))
        && forall step | Enabled(config, entered, step) :: !step.Register? || step.i != i
      else
        && Enabled(config, entered, Register(i))
        && Apply(config, entered, Register(i)).sessions == s.sessions[i := s.cells[i].owner]
        && Apply(config, entered, Register(i)).pending == s.pending
  {
    assert CellOk(s.cells[i]);
  }

  // ---------------------------------------------------------------- owners

  lemma OwnersStay(config: Config, s: State, step: Step, i: nat)
    requires Enabled(config, s, step) && i < |s.cells|
    ensures i < |Apply(config, s, step).cells| && Apply(config, s, step).cells[i].owner == s.cells[i].owner
  {
  }

  lemma NewCell(config: Config, s: State, step: Step)
    requires Enabled(config, s, step)
    ensures |s.cells| <= |Apply(config, s, step).cells|
    ensures |Apply(config, s, step).cells| > |s.cells| ==>
      step.Admit? && |Apply(config, s, step).cells| == |s.cells| + 1
      && Apply(config, s, step).cells[|s.cells|].owner == step.owner
  {
  }

  /** Each cell stands for one admission, of its owner. */
  lemma {:induction false} AdmittedBy(config: Config, states: seq<State>, steps: seq<Step>, k: nat, i: nat)
      returns (j: nat)
    requires IsRun(config, states, steps) && states[0] == INITIAL && k < |states| && i < |states[k].cells|
    ensures j < k && steps[j] == Admit(states[k].cells[i].owner) && |states[j].cells| == i &&
        |states[j + 1].cells| == i + 1
  {
    assert k > 0;
    assert Follows(config, states, steps, k - 1);
    var s, step := states[k - 1], steps[k - 1];
    if i < |s.cells| {
      OwnersStay(config, s, step, i);
      j := AdmittedBy(config, states, steps, k - 1, i);
    } else {
      NewCell(config, s, step);
      j := k - 1;
    }
  }

  /** A session is found only by the owner whose call was admitted and registered it, in every
      state of every run. */
  lemma FoundByItsOwner(config: Config, states: seq<State>, steps: seq<Step>, k: nat, i: nat, o: Owner) returns (j: nat)
    requires IsRun(config, states, steps) && states[0] == INITIAL && k < |states|
    requires i in states[k].sessions && states[k].sessions[i] == o
    ensures j < k && steps[j] == Admit(o) && |states[j].cells| == i && |states[j + 1].cells| == i + 1
  {
    InitialInv(config);
    RunKeepsInv(config, states, steps, k);
    j := AdmittedBy(config, states, steps, k, i);
  }

  // ---------------------------------------------------------------- leases

  function Least(a: int, b: int): int { if a <= b then a else b }

  /** The lease a gateway's answer in step `j` grants, from when its call was sent: None when it is
      no answer, or one for a session that has ended or is not subscribed to. */
  function GrantedBy(config: MockLease.Config, l: MockLease.Lease, step: MockLease.Step): Option<int>
    requires MockLease.Enabled(l, step)
  {
    match step
    case KeepAliveReturns(i, upstreamIdle) =>
      if !l.cancelled && l.now < l.expires && l.subscribed
      then Some(l.flights[i].started + Least(config.idle, upstreamIdle)) else None
    case SubscribeReturns(i) => Some(l.flights[i].started + l.idle)
    case _ => None
  }

  ghost predicate Grants(config: MockLease.Config, leases: seq<MockLease.Lease>, steps: seq<MockLease.Step>, j: nat)
    requires MockLease.IsRun(config, leases, steps)
  {
    j < |steps| && GrantedBy(config, leases[j], steps[j]).Some?
  }

  /** In every run a session runs out when the last granting answer says, counted from when that
      call was sent, and before the first one when it was created to run out. */
  lemma {:induction false} ExpiryIsGranted(config: MockLease.Config, upstreamExpires: int, upstreamIdle: int,
      leases: seq<MockLease.Lease>, steps: seq<MockLease.Step>, k: nat)
    requires MockLease.IsRun(config, leases, steps) && k < |leases|
    requires leases[0] == MockLease.Created(config, leases[0].now, upstreamExpires, upstreamIdle)
    ensures leases[k].idle == Least(config.idle, upstreamIdle)
    ensures
      || ((forall j | 0 <= j < k :: !Grants(config, leases, steps, j))
          && leases[k].expires == Least(upstreamExpires, leases[0].now + config.ready))
      || exists j: nat :: j < k && IsLastGrant(config, leases, steps, j, k)
  {
    if k > 0 {
      var before := k - 1;
      ExpiryIsGranted(config, upstreamExpires, upstreamIdle, leases, steps, before);
      GrantStep(config, leases[before], steps[before]);
      if Grants(config, leases, steps, before) {
        assert IsLastGrant(config, leases, steps, before, k);
      } else if j: nat :| j < before && IsLastGrant(config, leases, steps, j, before) {
        assert IsLastGrant(config, leases, steps, j, k);
      }
    }
  }

  ghost predicate IsLastGrant(config: MockLease.Config, leases: seq<MockLease.Lease>, steps: seq<MockLease.Step>,
      j: nat, k: nat)
    requires MockLease.IsRun(config, leases, steps) && k < |leases|
  {
    && j < k && Grants(config, leases, steps, j) && (forall m | j < m < k :: !Grants(config, leases, steps, m))
    && leases[k].expires == GrantedBy(config, leases[j], steps[j]).value
  }

  lemma GrantStep(config: MockLease.Config, l: MockLease.Lease, step: MockLease.Step)
    requires MockLease.Enabled(l, step)
    ensures var next, granted := MockLease.Apply(config, l, step), GrantedBy(config, l, step);
      next.idle == l.idle && next.expires == if granted.Some? then granted.value else l.expires
  {
  }

  /** What a call in flight counts from is the time at which it was sent. */
  lemma {:induction false} SentThen(config: MockLease.Config, leases: seq<MockLease.Lease>, steps: seq<MockLease.Step>,
      k: nat, i: nat) returns (j: nat)
    requires MockLease.IsRun(config, leases, steps) && k < |leases| && leases[0].flights == []
    requires i < |leases[k].flights| && (leases[k].flights[i].KeepingAlive? || leases[k].flights[i].Subscribing?)
    ensures j < k && leases[k].flights[i].started == leases[j].now
    ensures steps[j] == if leases[k].flights[i].KeepingAlive? then MockLease.SendKeepAlive(i)
        else MockLease.SendSubscribe(i)
  {
    assert k > 0;
    var l, step := leases[k - 1], steps[k - 1];
    if i < |l.flights| && leases[k].flights[i] == l.flights[i] {
      j := SentThen(config, leases, steps, k - 1, i);
    } else {
      SendStep(config, l, step, i);
      j := k - 1;
    }
  }

  lemma SendStep(config: MockLease.Config, l: MockLease.Lease, step: MockLease.Step, i: nat)
    requires MockLease.Enabled(l, step)
    ensures var next := MockLease.Apply(config, l, step);
      i < |next.flights| && (i >= |l.flights| || next.flights[i] != l.flights[i]) ==>
        && (next.flights[i].KeepingAlive? ==> step == MockLease.SendKeepAlive(i) && next.flights[i].started == l.now)
        && (next.flights[i].Subscribing? ==> step == MockLease.SendSubscribe(i) && next.flights[i].started == l.now)
  {
  }

  /** A session ends exactly when it is cancelled, found or reaped after it has run out, kept alive
      after that or with no subscriber, or when its subscription fails or is closed. */
  lemma EndsExactly(config: MockLease.Config, l: MockLease.Lease, step: MockLease.Step)
    requires MockLease.Enabled(l, step) && !l.cancelled
    ensures MockLease.Apply(config, l, step).cancelled <==>
      || step.Cancel? || step.SubscribeFails? || step.CloseSubscription?
      || ((step.Reap? || step.Find?) && l.now >= l.expires)
      || (step.KeepAliveReturns? && (l.now >= l.expires || !l.subscribed))
  {
  }

  /** A second subscriber is never let in, and the first one only while the session is live. */
  lemma ClaimsExactly(config: MockLease.Config, l: MockLease.Lease, step: MockLease.Step)
    requires MockLease.Enabled(l, step) && !l.subscribed
    ensures MockLease.Apply(config, l, step).subscribed <==> step.Claim? && !l.cancelled && l.now < l.expires
  {
  }
}
