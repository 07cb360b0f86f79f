/**
 The lease of one mock session, after find, KeepAlive, Subscribe and reap in
 internal/usecase/mock_data/usecase.go.  Calls are in flight while their gateway request
 runs; each section under the session's mutex is one step.
 */
module MockLease {
  /** The configured timeouts, in one unit of time. */
  datatype Config = Config(ready: nat, idle: nat)

  datatype Flight =
    | Found                      // KeepAlive, past find
    | KeepingAlive(started: int) // KeepAlive, in the gateway
    | Claimed                    // Subscribe, past its claim
    | Subscribing(started: int)  // Subscribe, in the gateway
    | Subscribed                 // an open subscription
    | Landed

  datatype Lease = Lease(now: int, expires: int, subscribed: bool, cancelled: bool, idle: int, flights: seq<Flight>)

  function Min(a: int, b: int): int { if a < b then a else b }

  /** The session Create registers, from the times the gateway reported. */
  function Created(config: Config, now: int, upstreamExpires: int, upstreamIdle: int): Lease {
    Lease(now, Min(upstreamExpires, now + config.ready), false, false, Min(config.idle, upstreamIdle), [])
  }

  datatype Step =
    | Tick(d: nat)
    | Cancel
    | Reap
    | Find
    | SendKeepAlive(i: nat) | KeepAliveFails(i: nat) | KeepAliveReturns(i: nat, upstreamIdle: int)
    | Claim
    | SendSubscribe(i: nat) | SubscribeFails(i: nat) | SubscribeReturns(i: nat)
    | CloseSubscription(i: nat)

  predicate Alive(l: Lease) { !l.cancelled && l.now < l.expires }

  predicate Is(l: Lease, i: nat, p: Flight -> bool) { i < |l.flights| && p(l.flights[i]) }

  predicate Enabled(l: Lease, step: Step) {
    match step
    case SendKeepAlive(i) => Is(l, i, (f: Flight) => f.Found?)
    case KeepAliveFails(i) => Is(l, i, (f: Flight) => f.KeepingAlive?)
    case KeepAliveReturns(i, _) => Is(l, i, (f: Flight) => f.KeepingAlive?)
    case SendSubscribe(i) => Is(l, i, (f: Flight) => f.Claimed?)
    case SubscribeFails(i) => Is(l, i, (f: Flight) => f.Subscribing?)
    case SubscribeReturns(i) => Is(l, i, (f: Flight) => f.Subscribing?)
    case CloseSubscription(i) => Is(l, i, (f: Flight) => f.Subscribed?)
    case _ => true
  }

  function Fly(l: Lease, i: nat, f: Flight): Lease
    requires i < |l.flights|
  {
    l.(flights := l.flights[i := f])
  }

  function Apply(config: Config, l: Lease, step: Step): Lease
    requires Enabled(l, step)
  {
    match step
    case Tick(d) => l.(now := l.now + d)
    case Cancel => l.(cancelled := true)
    case Reap => if l.now >= l.expires then l.(cancelled := true) else l
    case Find => if Alive(l) then l.(flights := l.flights + [Found]) else l.(cancelled := true)
    case SendKeepAlive(i) => Fly(l, i, KeepingAlive(l.now))
    case KeepAliveFails(i) => Fly(l, i, Landed)
    case KeepAliveReturns(i, upstreamIdle) =>
      if !Alive(l) || !l.subscribed then Fly(l, i, Landed).(cancelled := true)
      else Fly(l, i, Landed).(expires := l.flights[i].started + Min(config.idle, upstreamIdle))
    case Claim => if l.subscribed || !Alive(l) then l else l.(subscribed := true, flights := l.flights + [Claimed])
    case SendSubscribe(i) => Fly(l, i, Subscribing(l.now))
    case SubscribeFails(i) => Fly(l, i, Landed).(cancelled := true)
    case SubscribeReturns(i) => Fly(l, i, Subscribed).(expires := l.flights[i].started + l.idle)
    case CloseSubscription(i) => Fly(l, i, Landed).(cancelled := true)
  }

  ghost predicate IsRun(config: Config, leases: seq<Lease>, steps: seq<Step>) {
    && |leases| == |steps| + 1
    && forall k | 0 <= k < |steps| :: Enabled(leases[k], steps[k]) &&
        leases[k + 1] == Apply(config, leases[k], steps[k])
  }

  // ---------------------------------------------------------------- invariant

  predicate Subscribes(f: Flight) { f.Claimed? || f.Subscribing? || f.Subscribed? }

  function Longer(config: Config): nat { if config.ready > config.idle then config.ready else config.idle }

  /** `first` is the expiry the session was created with. */
  ghost predicate Inv(config: Config, first: int, l: Lease) { Timed(config, first, l) && OneSubscriber(l) }

  ghost predicate Timed(config: Config, first: int, l: Lease) {
    && l.idle <= config.idle
    && l.expires <= l.now + Longer(config)
    && (!l.subscribed ==> l.expires == first)
    && (forall i | 0 <= i < |l.flights| ::
          l.flights[i].KeepingAlive? || l.flights[i].Subscribing? ==> l.flights[i].started <= l.now)
  }

  ghost predicate OneSubscriber(l: Lease) {
    && (forall i | 0 <= i < |l.flights| :: Subscribes(l.flights[i]) ==> l.subscribed)
    && (forall i, j | 0 <= i < j < |l.flights| :: !(Subscribes(l.flights[i]) && Subscribes(l.flights[j])))
  }

  lemma StepKeepsTimes(config: Config, first: int, l: Lease, step: Step)
    requires Inv(config, first, l) && Enabled(l, step)
    ensures Timed(config, first, Apply(config, l, step))
  {
  }

  lemma StepKeepsSubscriber(config: Config, l: Lease, step: Step)
    requires OneSubscriber(l) && Enabled(l, step)
    ensures OneSubscriber(Apply(config, l, step))
  {
  }

  lemma StepKeepsInv(config: Config, first: int, l: Lease, step: Step)
    requires Inv(config, first, l) && Enabled(l, step)
    ensures Inv(config, first, Apply(config, l, step))
    ensures l.now <= Apply(config, l, step).now
    ensures l.cancelled ==> Apply(config, l, step).cancelled
  {
    StepKeepsTimes(config, first, l, step);
    StepKeepsSubscriber(config, l, step);
  }

  /** Whatever calls overlap, a session has at most one subscriber, its lease never reaches
      further than the larger timeout, and keep-alives alone never prolong it: without a
      subscriber it ends when it was created to end, at most the ready timeout later. */
  lemma {:induction false} LeaseHolds(config: Config, upstreamExpires: int, upstreamIdle: int, leases: seq<Lease>,
      steps: seq<Step>, k: nat)
    requires IsRun(config, leases, steps) &&
        leases[0] == Created(config, leases[0].now, upstreamExpires, upstreamIdle) && k < |leases|
    ensures Inv(config, leases[0].expires, leases[k]) && leases[0].now <= leases[k].now
    ensures leases[k].expires <= leases[k].now + Longer(config)
    ensures forall i, j | 0 <= i < j < |leases[k].flights| ::
        !(Subscribes(leases[k].flights[i]) && Subscribes(leases[k].flights[j]))
    ensures !leases[k].subscribed ==> leases[k].expires == leases[0].expires <= leases[0].now + config.ready
    ensures !leases[k].subscribed && leases[k].now >= leases[0].now + config.ready ==>
        Apply(config, leases[k], Reap).cancelled
  {
    if k > 0 {
      LeaseHolds(config, upstreamExpires, upstreamIdle, leases, steps, k - 1);
      StepKeepsInv(config, leases[0].expires, leases[k - 1], steps[k - 1]);
    }
  }

  /** An answered keep-alive moves the expiry back exactly when the session is live and subscribed
      and the idle time from when the call was sent, cut to what the gateway grants, ends before
      the expiry it finds. */
  lemma ShortensExactly(config: Config, l: Lease, i: nat, upstreamIdle: int)
    requires Enabled(l, KeepAliveReturns(i, upstreamIdle))
    ensures Apply(config, l, KeepAliveReturns(i, upstreamIdle)).expires < l.expires
       <==> Alive(l) && l.subscribed && l.flights[i].started + Min(config.idle, upstreamIdle) < l.expires
  {
  }

  /** When the gateway grants the whole idle time, only overtaking does it: two calls answered one
      after the other move the expiry back exactly when the later answer was sent first. */
  lemma OvertakingShortens(config: Config, l: Lease, i: nat, j: nat, upstreamIdle: int)
    requires i != j && Enabled(l, KeepAliveReturns(i, upstreamIdle)) && Enabled(l, KeepAliveReturns(j, upstreamIdle))
    requires Alive(l) && l.subscribed && upstreamIdle >= config.idle
    requires var once := Apply(config, l, KeepAliveReturns(i, upstreamIdle)); Alive(once)
    ensures var once := Apply(config, l, KeepAliveReturns(i, upstreamIdle));
      && Enabled(once, KeepAliveReturns(j, upstreamIdle))
      && (Apply(config, once, KeepAliveReturns(j, upstreamIdle)).expires < once.expires
          <==> l.flights[j].started < l.flights[i].started)
  {
    ShortensExactly(config, Apply(config, l, KeepAliveReturns(i, upstreamIdle)), j, upstreamIdle);
  }

  /** One more step of a run. */
  lemma Extend(config: Config, leases: seq<Lease>, steps: seq<Step>, step: Step)
    requires IsRun(config, leases, steps) && Enabled(leases[|steps|], step)
    ensures IsRun(config, leases + [Apply(config, leases[|steps|], step)], steps + [step])
  {
  }

  /** Two keep-alives in flight when a session has been subscribed to, reached from its creation. */
  lemma TwoInFlight(config: Config) returns (leases: seq<Lease>, steps: seq<Step>)
    requires config == Config(10, 10)
    ensures IsRun(config, leases, steps) && leases[0] == Created(config, 0, 10, 10)
    ensures leases[|steps|] == Lease(1, 10, true, false, 10, [Subscribed, KeepingAlive(0), KeepingAlive(1)])
  {
    leases, steps := [Created(config, 0, 10, 10)], [];
    var todo := [Claim, SendSubscribe(0), SubscribeReturns(0), Find, SendKeepAlive(1), Tick(1), Find, SendKeepAlive(2)];
    var expected := [
      Lease(0, 10, true, false, 10, [Claimed]),
      Lease(0, 10, true, false, 10, [Subscribing(0)]),
      Lease(0, 10, true, false, 10, [Subscribed]),
      Lease(0, 10, true, false, 10, [Subscribed, Found]),
      Lease(0, 10, true, false, 10, [Subscribed, KeepingAlive(0)]),
      Lease(1, 10, true, false, 10, [Subscribed, KeepingAlive(0)]),
      Lease(1, 10, true, false, 10, [Subscribed, KeepingAlive(0), Found]),
      Lease(1, 10, true, false, 10, [Subscribed, KeepingAlive(0), KeepingAlive(1)])];
    for k := 0 to 8
      invariant IsRun(config, leases, steps) && |steps| == k && leases[0] == Created(config, 0, 10, 10)
      invariant leases[k] == if k == 0 then Created(config, 0, 10, 10) else expected[k - 1]
    {
      assert Enabled(leases[k], todo[k]) && Apply(config, leases[k], todo[k]) == expected[k];
      Extend(config, leases, steps, todo[k]);
      leases, steps := leases + [Apply(config, leases[k], todo[k])], steps + [todo[k]];
    }
  }

  /** A run from the creation of a session in which it happens: the answer of the second call
      comes first. */
  lemma SomeRunShortens() returns (config: Config, leases: seq<Lease>, steps: seq<Step>, n: nat)
    ensures IsRun(config, leases, steps) && leases[0] == Created(config, 0, 10, 10) && |steps| == n + 1
    ensures Alive(leases[n]) && Alive(leases[n + 1]) && steps[n].KeepAliveReturns? &&
        leases[n + 1].expires < leases[n].expires
  {
    config := Config(10, 10);
    leases, steps := TwoInFlight(config);
    n := |steps| + 1;
    var once := Apply(config, leases[|steps|], KeepAliveReturns(2, 10));
    Extend(config, leases, steps, KeepAliveReturns(2, 10));
    leases, steps := leases + [once], steps + [KeepAliveReturns(2, 10)];
    Extend(config, leases, steps, KeepAliveReturns(1, 10));
    leases, steps := leases + [Apply(config, once, KeepAliveReturns(1, 10))], steps + [KeepAliveReturns(1, 10)];
  }

  // ---------------------------------------------------------------- the sections

  /** The fields of a session; `flights` and `i` name the call whose section runs. */
  class Session {
    var expires: int
    var idle: int
    var subscribed: bool
    var cancelled: bool

    constructor (config: Config, now: int, upstreamExpires: int, upstreamIdle: int)
      ensures View(now, []) == Created(config, now, upstreamExpires, upstreamIdle)
    {
      expires, idle := Min(upstreamExpires, now + config.ready), Min(config.idle, upstreamIdle);
      subscribed, cancelled := false, false;
    }

    function View(now: int, flights: seq<Flight>): Lease reads this
    {
      Lease(now, expires, subscribed, cancelled, idle, flights)
    }

    /** find, for a session that is in the table. */
    method Find(config: Config, now: int, ghost flights: seq<Flight>) returns (found: bool)
      modifies this`cancelled
      ensures found <==> old(Alive(View(now, flights)))
      ensures View(now, if found then flights + [Found] else flights)
          == Apply(config, old(View(now, flights)), Step.Find)
    {
      if now >= expires || cancelled {
        cancelled := true;
        return false;
      }
      return true;
    }

    /** The section of KeepAlive after the gateway has answered. */
    method Prolong(config: Config, now: int, started: int, upstreamIdle: int, ghost flights: seq<Flight>, ghost i: nat)
        returns (ok: bool)
      requires i < |flights| && flights[i] == KeepingAlive(started)
      modifies this`expires, this`cancelled
      ensures ok <==> old(Alive(View(now, flights)) && subscribed)
      ensures View(now, flights[i := Landed])
          == Apply(config, old(View(now, flights)), KeepAliveReturns(i, upstreamIdle))
    {
      if cancelled || now >= expires || !subscribed {
        cancelled := true;
        return false;
      }
      expires := started + Min(config.idle, upstreamIdle);
      return true;
    }

    /** The claim of Subscribe. */
    method Claim(config: Config, now: int, ghost flights: seq<Flight>) returns (claimed: bool)
      modifies this`subscribed
      ensures claimed <==> old(!subscribed && Alive(View(now, flights)))
      ensures View(now, if claimed then flights + [Claimed] else flights)
          == Apply(config, old(View(now, flights)), Step.Claim)
    {
      if subscribed { return false; }
      if cancelled || now >= expires { return false; }
      subscribed := true;
      return true;
    }

    /** What Subscribe does with the gateway's answer. */
    method Subscribe(config: Config, now: int, started: int, ok: bool, ghost flights: seq<Flight>, ghost i: nat)
      requires i < |flights| && flights[i] == Subscribing(started)
      modifies this`expires, this`cancelled
      ensures View(now, flights[i := if ok then Subscribed else Landed])
           == Apply(config, old(View(now, flights)), if ok then SubscribeReturns(i) else SubscribeFails(i))
    {
      if ok { expires := started + idle; } else { cancelled := true; }
    }

    method Reap(config: Config, now: int, ghost flights: seq<Flight>)
      modifies this`cancelled
      ensures View(now, flights) == Apply(config, old(View(now, flights)), Step.Reap)
    {
      if now >= expires { cancelled := true; }
    }
  }
}
