/** The mutex sections of the mock session use case, proved against MockGateway. */
module MockUseCase {
  import opened Wrappers
  import opened MockGateway
  import opened MockSafety

  lemma SumVisited(pending: Pending, remaining: set<Owner>, scope: Scope, o: Owner)
    requires o in remaining && o in pending
    ensures Sum(pending - (remaining - {o}), scope) == Sum(pending - remaining, scope) + if Covers(scope, o)
        then pending[o] else 0
  {
    SumOf(pending - (remaining - {o}), scope, o);
    assert pending - (remaining - {o}) - {o} == pending - remaining;
  }

  /** The two counts Create takes under the mutex. */
  method InUseNow(sessions: Sessions, pending: Pending, actor: string) returns (total: int, owned: int)
    ensures total == Raw(sessions, pending, Everyone) && owned == Raw(sessions, pending, OfActor(actor))
  {
    total, owned := CountPending(pending, actor);
    var mine := CountSessions(sessions, actor);
    assert Of(sessions, Everyone) == sessions.Keys;
    total, owned := total + |sessions|, owned + mine;
  }

  method CountPending(pending: Pending, actor: string) returns (total: int, owned: int)
    ensures total == Sum(pending, Everyone) && owned == Sum(pending, OfActor(actor))
  {
    total, owned := 0, 0;
    var remaining := pending.Keys;
    assert pending - remaining == map[];
    while remaining != {}
      invariant remaining <= pending.Keys
      invariant total == Sum(pending - remaining, Everyone) && owned == Sum(pending - remaining, OfActor(actor))
    {
      var o :| o in remaining;
      SumVisited(pending, remaining, Everyone, o);
      SumVisited(pending, remaining, OfActor(actor), o);
      total := total + pending[o];
      if o.actor == actor { owned := owned + pending[o]; }
      remaining := remaining - {o};
    }
    assert pending - remaining == pending;
  }

  method CountSessions(sessions: Sessions, actor: string) returns (owned: nat)
    ensures owned == |Of(sessions, OfActor(actor))|
  {
    owned := 0;
    var remaining := sessions.Keys;
    assert sessions - remaining == map[];
    while remaining != {}
      invariant remaining <= sessions.Keys && owned == |Of(sessions - remaining, OfActor(actor))|
    {
      var i :| i in remaining;
      OfInsert(sessions - remaining, OfActor(actor), i, sessions[i]);
      assert (sessions - remaining)[i := sessions[i]] == sessions - (remaining - {i});
      if sessions[i].actor == actor { owned := owned + 1; }
      remaining := remaining - {i};
    }
    assert sessions - remaining == sessions;
  }

  /** The fields of the use case.  Each section is proved to be the step of MockGateway it stands
      for: called in a field state that some protocol state `s` shows, it leaves the one that the
      state after the step shows, so what MockSafety proves of runs holds of the fields. */
  class UseCase {
    const config: Config
    var sessions: Sessions
    var pending: Pending
    var closed: bool

    constructor (config: Config)
      ensures this.config == config && Shows(INITIAL)
    {
      this.config := config;
      sessions, pending, closed := map[], map[], false;
    }

    ghost predicate Shows(s: State) reads this { sessions == s.sessions && pending == s.pending && closed == s.closed }

    /** The first section of Create. */
    method Admit(o: Owner, ghost s: State) returns (error: Option<AdmissionError>)
      requires Shows(s) && Enabled(config, s, Step.Admit(o))
      modifies this`pending
      ensures Shows(Apply(config, s, Step.Admit(o)))
      ensures error == Refusal(config, s.sessions, s.pending, s.closed, o)
    {
      var total, owned := InUseNow(sessions, pending, o.actor);
      if closed { return Some(ShuttingDown); }
      if total >= config.sessions || owned >= config.perOwner { return Some(LimitExceeded); }
      pending := pending[o := (if o in pending then pending[o] else 0) + 1];
      return None;
    }

    /** The registration section of Create, entered and left under the mutex. */
    method Register(i: nat, o: Owner, cancelled: bool, ghost s: State) returns (registered: bool)
      requires Shows(s) && Enabled(config, s, EnterRegistration(i, cancelled)) && s.cells[i].owner == o
      modifies this`sessions
      ensures var entered := Apply(config, s, EnterRegistration(i, cancelled));
        && registered == (entered.cells[i].call == Checked)
        && (registered ==> Enabled(config, entered, Step.Register(i)))
        && Shows(if registered then Apply(config, entered, Step.Register(i)) else entered)
    {
      if cancelled || closed { return false; }
      sessions := sessions[i := o];
      return true;
    }

    /** The lookup of find: another owner's session is not there. */
    method Lookup(i: nat, o: Owner, ghost s: State) returns (found: bool)
      requires Shows(s)
      ensures found <==> i in s.sessions && s.sessions[i] == o
    {
      return i in sessions && sessions[i] == o;
    }

    /** The section of finish, for the winner of its once guard. */
    method Finish(i: nat, o: Owner, ghost s: State)
      requires Shows(s) && Enabled(config, s, FinishSection(i)) && s.cells[i].owner == o
      modifies this`sessions, this`pending
      ensures Shows(Apply(config, s, FinishSection(i)))
    {
      sessions := sessions - {i};
      pending := pending[o := (if o in pending then pending[o] else 0) + 1];
    }

    /** The release of a reservation, deferred by Create and by the cleanup. */
    method Release(o: Owner, ghost s: State, ghost step: Step)
      requires Shows(s) && (step.Release? || step.ReleaseCleanup?) && Enabled(config, s, step) &&
          s.cells[step.i].owner == o
      modifies this`pending
      ensures Shows(Apply(config, s, step))
    {
      pending := pending[o := (if o in pending then pending[o] else 0) - 1];
      if pending[o] == 0 { pending := pending - {o}; }
      assert pending == Drop(s.pending, o);
    }

    /** The start of Close; its second section only cancels contexts derived from this one. */
    method Cancel(ghost s: State)
      requires Shows(s) && Enabled(config, s, Step.Cancel)
      modifies this`closed
      ensures Shows(Apply(config, s, Step.Cancel))
    {
      closed := true;
    }

    /** The sessions reap looks at when Close calls it. */
    method Listed(ghost s: State) returns (items: set<nat>)
      requires Shows(s) && Enabled(config, s, Snapshot)
      ensures Shows(Apply(config, s, Snapshot)) && Apply(config, s, Snapshot).closing == Finishing(items)
    {
      items := {};
      var remaining := sessions.Keys;
      while remaining != {}
        invariant remaining <= sessions.Keys && items == sessions.Keys - remaining
      {
        var i :| i in remaining;
        items, remaining := items + {i}, remaining - {i};
      }
    }
  }
}
