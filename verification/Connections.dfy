/**
 One bridge connection with its bounded queue, many senders and a single writer, after
 internal/platform/bridge/connections.go.  Every access to the queue, the byte counter and the
 socket is a step of its own; `lock` is the connection's mutex.
 */
module Connections {
  import opened Wrappers

  const MAX_MESSAGE := 16 * 1024 * 1024
  const QUEUE := 32

  /** The message of sender `id`. */
  datatype Payload = Payload(id: nat, size: nat)

  /** A call of Send, from its encoded message on. */
  datatype Sender =
    | Ready(size: nat)
    | Locked(size: nat)   // has the mutex, before its checks
    | Checked(size: nat)  // the connection is open and the bytes fit
    | Enqueued(size: nat) // in the channel, not yet counted
    | Accepted(size: nat)
    | Refused(size: nat)

  datatype Writer =
    | Waiting
    | Taken(payload: Payload)    // out of the channel, still counted
    | Writing(payload: Payload)
    | Stopped

  /** `accepted` and `written` record the messages put into the channel and onto the socket. */
  datatype Connection = Connection(
    queue: seq<Payload>, queued: int, done: bool, lock: Option<nat>, senders: seq<Sender>, writer: Writer,
    accepted: seq<Payload>, written: seq<Payload>)

  const NEW := Connection([], 0, false, None, [], Waiting, [], [])

  datatype Step =
    | Call(size: nat)
    | TooLarge(i: nat)
    | Lock(i: nat)
    | CheckOpen(i: nat)
    | Enqueue(i: nat)
    | CountBytes(i: nat)
    | Take | Subtract | WriteDone | WriteFails | WriterStops
    | Close

  predicate At(c: Connection, i: nat, p: Sender -> bool) { i < |c.senders| && p(c.senders[i]) }

  predicate Enabled(c: Connection, step: Step) {
    match step
    case Call(_) => true
    case TooLarge(i) => At(c, i, (s: Sender) => s.Ready? && s.size > MAX_MESSAGE)
    case Lock(i) => c.lock.None? && At(c, i, (s: Sender) => s.Ready? && s.size <= MAX_MESSAGE)
    case CheckOpen(i) => c.lock == Some(i) && At(c, i, (s: Sender) => s.Locked?)
    case Enqueue(i) => c.lock == Some(i) && At(c, i, (s: Sender) => s.Checked?)
    case CountBytes(i) => c.lock == Some(i) && At(c, i, (s: Sender) => s.Enqueued?)
    case Take => c.writer.Waiting? && c.queue != []
    case Subtract => c.writer.Taken? && c.lock.None?
    case WriteDone => c.writer.Writing?
    case WriteFails => c.writer.Writing?
    case WriterStops => c.writer.Waiting? && c.done
    case Close => true
  }

  function Set(c: Connection, i: nat, s: Sender): Connection
    requires i < |c.senders|
  {
    c.(senders := c.senders[i := s])
  }

  function Apply(c: Connection, step: Step): Connection
    requires Enabled(c, step)
  {
    match step
    case Call(size) => c.(senders := c.senders + [Ready(size)])
    case TooLarge(i) => Set(c, i, Refused(c.senders[i].size)).(done := true)
    case Lock(i) => Set(c, i, Locked(c.senders[i].size)).(lock := Some(i))
    case CheckOpen(i) =>
      var size := c.senders[i].size;
      if c.done then Set(c, i, Refused(size)).(lock := None)
      else if c.queued + size > 2 * MAX_MESSAGE then Set(c, i, Refused(size)).(lock := None, done := true)
      else Set(c, i, Checked(size))
    case Enqueue(i) =>
      var size := c.senders[i].size;
      if |c.queue| >= QUEUE then Set(c, i, Refused(size)).(lock := None, done := true)
      else Set(c, i, Enqueued(size)).(queue := c.queue + [Payload(i, size)],
          accepted := c.accepted + [Payload(i, size)])
    case CountBytes(i) =>
      var size := c.senders[i].size;
      Set(c, i, Accepted(size)).(queued := c.queued + size, lock := None)
    case Take => c.(queue := c.queue[1..], writer := Taken(c.queue[0]))
    case Subtract => c.(queued := c.queued - c.writer.payload.size, writer := Writing(c.writer.payload))
    case WriteDone => c.(written := c.written + [c.writer.payload], writer := Waiting)
    case WriteFails => c.(writer := Stopped, done := true)
    case WriterStops => c.(writer := Stopped)
    case Close => c.(done := true)
  }

  ghost predicate IsRun(states: seq<Connection>, steps: seq<Step>) {
    && |states| == |steps| + 1 && states[0] == NEW
    && forall k | 0 <= k < |steps| :: Enabled(states[k], steps[k]) && states[k + 1] == Apply(states[k], steps[k])
  }

  // ---------------------------------------------------------------- invariant

  function Bytes(queue: seq<Payload>): nat {
    if queue == [] then 0 else queue[0].size + Bytes(queue[1..])
  }

  lemma {:induction false} BytesAdd(queue: seq<Payload>, p: Payload)
    ensures Bytes(queue + [p]) == Bytes(queue) + p.size
  {
    if queue == [] {
      assert [p][1..] == [];
    } else {
      BytesAdd(queue[1..], p);
      assert (queue + [p])[1..] == queue[1..] + [p];
    }
  }

  function TakenBytes(w: Writer): nat { if w.Taken? then w.payload.size else 0 }

  /** What a sender inside the critical section has put into the channel and not counted yet. */
  function Uncounted(c: Connection): nat {
    if c.lock.Some? && c.lock.value < |c.senders| && c.senders[c.lock.value].Enqueued?
        then c.senders[c.lock.value].size else 0
  }

  /** The messages taken from the channel and not yet on the socket; a failed write loses one. */
  function InFlight(w: Writer): seq<Payload> { if w.Taken? || w.Writing? then [w.payload] else [] }

  predicate Entered(s: Sender) { s.Locked? || s.Checked? || s.Enqueued? }

  predicate WasAccepted(s: Sender) { s.Enqueued? || s.Accepted? }

  ghost predicate LockOk(c: Connection) {
    && (c.lock.Some? ==> c.lock.value < |c.senders|)
    && (forall i | 0 <= i < |c.senders| :: Entered(c.senders[i]) <==> c.lock == Some(i))
  }

  ghost predicate CountOk(c: Connection) {
    && c.queued == Bytes(c.queue) + TakenBytes(c.writer) - Uncounted(c)
    && c.queued + Uncounted(c) <= 2 * MAX_MESSAGE
    && (c.lock.Some? && c.lock.value < |c.senders| && c.senders[c.lock.value].Checked? ==>
          c.queued + c.senders[c.lock.value].size <= 2 * MAX_MESSAGE)
    && |c.queue| <= QUEUE
  }

  /** The writer cannot get past the uncounted message: it waits for the mutex. */
  ghost predicate LastOk(c: Connection) {
    c.lock.Some? && c.lock.value < |c.senders| && c.senders[c.lock.value].Enqueued? ==>
      var p := Payload(c.lock.value, c.senders[c.lock.value].size);
      if c.queue == [] then c.writer == Taken(p) else c.queue[|c.queue| - 1] == p
  }

  ghost predicate OrderOk(c: Connection) {
    if c.writer.Stopped? then c.done && c.written <= c.accepted
    else c.written + InFlight(c.writer) + c.queue == c.accepted
  }

  /** Every accepted message has a sender that is told so. */
  ghost predicate AcceptedOk(c: Connection) {
    forall k | 0 <= k < |c.accepted| ::
        c.accepted[k].id < |c.senders| && Told(c.senders[c.accepted[k].id], c.accepted[k].size)
  }

  predicate Told(s: Sender, size: nat) { WasAccepted(s) && s.size == size }

  /** No message is accepted twice. */
  ghost predicate Once(c: Connection)
  {
    forall j, k | 0 <= j < k < |c.accepted| :: c.accepted[j].id != c.accepted[k].id
  }

  /** A sender is told so only when its message was accepted, and a refusal closes. */
  ghost predicate SendersOk(c: Connection) {
    && (forall i | 0 <= i < |c.senders| && WasAccepted(c.senders[i]) :: Payload(i, c.senders[i].size) in c.accepted)
    && (forall i | 0 <= i < |c.senders| && c.senders[i].Refused? :: c.done)
  }

  ghost predicate Inv(c: Connection)
  {
    LockOk(c) && CountOk(c) && LastOk(c) && OrderOk(c) && AcceptedOk(c) && Once(c) && SendersOk(c)
  }

  lemma {:induction false} BytesOfLast(queue: seq<Payload>)
    requires queue != []
    ensures Bytes(queue) >= queue[|queue| - 1].size
  {
    if |queue| > 1 { BytesOfLast(queue[1..]); }
  }

  lemma StepKeepsLock(c: Connection, step: Step)
    requires LockOk(c) && Enabled(c, step)
    ensures LockOk(Apply(c, step))
  {
  }

  lemma StepKeepsCount(c: Connection, step: Step)
    requires LockOk(c) && CountOk(c) && Enabled(c, step)
    ensures CountOk(Apply(c, step))
  {
    if step.Enqueue? && |c.queue| < QUEUE { BytesAdd(c.queue, Payload(step.i, c.senders[step.i].size)); }
  }

  lemma StepKeepsLast(c: Connection, step: Step)
    requires LockOk(c) && LastOk(c) && Enabled(c, step)
    ensures LastOk(Apply(c, step))
  {
  }

  lemma StepKeepsOrder(c: Connection, step: Step)
    requires OrderOk(c) && Enabled(c, step)
    ensures OrderOk(Apply(c, step))
  {
  }

  lemma StepKeepsAccepted(c: Connection, step: Step)
    requires AcceptedOk(c) && Enabled(c, step)
    ensures AcceptedOk(Apply(c, step))
  {
  }

  lemma StepKeepsOnce(c: Connection, step: Step)
    requires AcceptedOk(c) && Once(c) && Enabled(c, step)
    ensures Once(Apply(c, step))
  {
  }

  lemma StepKeepsSenders(c: Connection, step: Step)
    requires SendersOk(c) && Enabled(c, step)
    ensures SendersOk(Apply(c, step))
  {
    var next := Apply(c, step);
    forall i | 0 <= i < |next.senders| && WasAccepted(next.senders[i])
        ensures Payload(i, next.senders[i].size) in next.accepted
    {
      if i < |c.senders| && WasAccepted(c.senders[i]) { assert Payload(i, c.senders[i].size) in c.accepted; }
    }
  }

  lemma StepKeepsInv(c: Connection, step: Step)
    requires Inv(c) && Enabled(c, step)
    ensures Inv(Apply(c, step))
  {
    StepKeepsLock(c, step);
    StepKeepsCount(c, step);
    StepKeepsLast(c, step);
    StepKeepsOrder(c, step);
    StepKeepsAccepted(c, step);
    StepKeepsOnce(c, step);
    StepKeepsSenders(c, step);
  }

  lemma {:induction false} RunKeepsInv(states: seq<Connection>, steps: seq<Step>, k: nat)
    requires IsRun(states, steps) && k < |states|
    ensures Inv(states[k])
  {
    if k > 0 {
      RunKeepsInv(states, steps, k - 1);
      StepKeepsInv(states[k - 1], steps[k - 1]);
    }
  }

  /** Under every interleaving: outside the critical section of Send the counter is the bytes in
      the channel plus those taken and not yet subtracted; it stays between zero and twice the
      message limit; the channel holds at most 32 messages; and the messages on the socket are
      the first of the accepted ones, in their order. */
  lemma QueueIsBounded(states: seq<Connection>, steps: seq<Step>, k: nat)
    requires IsRun(states, steps) && k < |states|
    ensures var c := states[k];
      && (c.lock.None? ==> c.queued == Bytes(c.queue) + TakenBytes(c.writer))
      && 0 <= c.queued <= 33_554_432 && |c.queue| <= 32
      && c.written <= c.accepted
      && (c.queue == [] && c.writer.Waiting? ==> c.written == c.accepted)
  {
    RunKeepsInv(states, steps, k);
    var c := states[k];
    if c.queue != [] { BytesOfLast(c.queue); }
    if !c.writer.Stopped? { assert c.written <= c.written + InFlight(c.writer) + c.queue; }
  }

  /** While the connection is open no message has been refused, and every accepted message is
      written, in flight or queued, exactly once. */
  lemma OpenLosesNothing(states: seq<Connection>, steps: seq<Step>, k: nat, i: nat)
    requires IsRun(states, steps) && k < |states| && !states[k].done && i < |states[k].senders|
    ensures var c := states[k];
      && !c.senders[i].Refused?
      && (WasAccepted(c.senders[i]) <==> Payload(i, c.senders[i].size) in c.written + InFlight(c.writer) + c.queue)
  {
    RunKeepsInv(states, steps, k);
  }

  /** A call that has not passed its checks when the connection closes is never accepted. */
  lemma {:induction false} ClosedRefuses(states: seq<Connection>, steps: seq<Step>, j: nat, k: nat, i: nat)
    requires IsRun(states, steps) && j <= k < |states| && states[j].done
    requires i < |states[j].senders| && (states[j].senders[i].Ready? || states[j].senders[i].Locked?)
    ensures states[k].done && i < |states[k].senders|
    ensures states[k].senders[i].Ready? || states[k].senders[i].Locked? || states[k].senders[i].Refused?
  {
    if j < k { ClosedRefuses(states, steps, j, k - 1, i); }
  }

  /** The four steps of a Send that nothing interrupts. */
  function Alone(c: Connection, i: nat): Connection
    requires i < |c.senders| && c.senders[i].Ready? && c.lock.None?
  {
    if c.senders[i].size > MAX_MESSAGE then Apply(c, TooLarge(i))
    else
      var checked := Apply(Apply(c, Lock(i)), CheckOpen(i));
      if !checked.senders[i].Checked? then checked
      else
        var enqueued := Apply(checked, Enqueue(i));
        if !enqueued.senders[i].Enqueued? then enqueued else Apply(enqueued, CountBytes(i))
  }

  /** Such a Send accepts its message exactly when the connection is open and the message fits,
      and closes the connection otherwise. */
  lemma SendAlone(c: Connection, i: nat)
    requires i < |c.senders| && c.senders[i].Ready? && c.lock.None?
    ensures var size, next := c.senders[i].size, Alone(c, i);
      && next.lock.None?
      && if !c.done && size <= 16_777_216 && c.queued + size <= 33_554_432 && |c.queue| < 32
         then next == c.(senders := c.senders[i := Accepted(size)], queue := c.queue + [Payload(i, size)],
                         queued := c.queued + size, accepted := c.accepted + [Payload(i, size)])
         else next == c.(senders := c.senders[i := Refused(size)], done := true)
  {
  }

  // ---------------------------------------------------------------- the methods

  /** What other senders, the writer and closers can make of a state while sender `i` waits: they
      keep the invariant, the sender, its hold of the mutex, and a connection once closed. */
  ghost predicate Interferes(c: Connection, next: Connection, i: nat) {
    && Inv(next) && i < |c.senders| && i < |next.senders| && next.senders[i] == c.senders[i]
    && (c.lock == Some(i) ==> next.lock == Some(i)) && (c.done ==> next.done)
  }

  predicate Of(step: Step, i: nat) {
    match step
    case TooLarge(j) => j == i
    case Lock(j) => j == i
    case CheckOpen(j) => j == i
    case Enqueue(j) => j == i
    case CountBytes(j) => j == i
    case _ => false
  }

  /** Every step of another thread is such an interference. */
  lemma OthersInterfere(c: Connection, step: Step, i: nat)
    requires Inv(c) && Enabled(c, step) && i < |c.senders| && !Of(step, i)
    ensures Interferes(c, Apply(c, step), i)
  {
    StepKeepsInv(c, step);
  }

  class Peer {
    var queue: seq<Payload>
    var queuedBytes: int
    var done: bool

    constructor ()
      ensures Shows(NEW)
    {
      queue, queuedBytes, done := [], 0, false;
    }

    ghost predicate Shows(c: Connection) reads this { queue == c.queue && queuedBytes == c.queued && done == c.done }

    /** A point at which other threads may run; callers know only what the contract says. */
    method Others(ghost c: Connection, ghost i: nat) returns (ghost next: Connection)
      requires Shows(c) && Inv(c) && i < |c.senders|
      modifies this
      ensures Shows(next) && Interferes(c, next, i)
    {
      next := c;
    }

    method TestOpen(i: nat, size: nat, ghost c: Connection) returns (fits: bool, ghost next: Connection)
      requires Shows(c) && Inv(c) && Enabled(c, CheckOpen(i)) && c.senders[i].size == size
      modifies this`done
      ensures next == Apply(c, CheckOpen(i)) && Shows(next) && Inv(next)
      ensures next.senders[i] == if fits then Checked(size) else Refused(size)
    {
      StepKeepsInv(c, CheckOpen(i));
      next := Apply(c, CheckOpen(i));
      if done { return false, next; }
      if queuedBytes + size > 2 * MAX_MESSAGE {
        done := true;
        return false, next;
      }
      return true, next;
    }

    method PutInQueue(i: nat, size: nat, ghost c: Connection) returns (ok: bool, ghost next: Connection)
      requires Shows(c) && Inv(c) && Enabled(c, Enqueue(i)) && c.senders[i].size == size
      modifies this`queue, this`done
      ensures next == Apply(c, Enqueue(i)) && Shows(next) && Inv(next)
      ensures next.senders[i] == if ok then Enqueued(size) else Refused(size)
    {
      StepKeepsInv(c, Enqueue(i));
      next := Apply(c, Enqueue(i));
      if |queue| >= QUEUE {
        done := true;
        return false, next;
      }
      queue := queue + [Payload(i, size)];
      return true, next;
    }

    method AddBytes(i: nat, size: nat, ghost c: Connection) returns (ghost next: Connection)
      requires Shows(c) && Inv(c) && Enabled(c, CountBytes(i)) && c.senders[i].size == size
      modifies this`queuedBytes
      ensures next == Apply(c, CountBytes(i)) && Shows(next) && Inv(next)
    {
      StepKeepsInv(c, CountBytes(i));
      next := Apply(c, CountBytes(i));
      queuedBytes := queuedBytes + size;
    }

    /** Send of sender `i`, from the moment it gets the mutex, among any other threads: it answers
        what became of its message, and a refusal leaves the connection closed. */
    method Send(i: nat, size: nat, ghost c: Connection) returns (ok: bool, ghost next: Connection)
      requires Shows(c) && Inv(c) && i < |c.senders| && c.senders[i] == Sender.Ready(size) && c.lock.None?
      modifies this
      ensures Shows(next) && Inv(next) && i < |next.senders| && next.lock.None?
      ensures next.senders[i] == if ok then Accepted(size) else Refused(size)
      ensures if ok then Payload(i, size) in next.accepted else done
    {
      if size > MAX_MESSAGE {
        done := true;
        StepKeepsInv(c, TooLarge(i));
        return false, Apply(c, TooLarge(i));
      }
      StepKeepsInv(c, Lock(i));
      next := Others(Apply(c, Lock(i)), i);
      ok, next := TestOpen(i, size, next);
      if !ok { return false, next; }
      next := Others(next, i);
      ok, next := Deliver(i, size, next);
    }

    /** The part of Send behind its checks. */
    method Deliver(i: nat, size: nat, ghost c: Connection) returns (ok: bool, ghost next: Connection)
      requires Shows(c) && Inv(c) && Enabled(c, Enqueue(i)) && c.senders[i].size == size
      modifies this
      ensures Shows(next) && Inv(next) && i < |next.senders| && next.lock.None?
      ensures next.senders[i] == if ok then Accepted(size) else Refused(size)
    {
      ok, next := PutInQueue(i, size, c);
      if ok {
        next := Others(next, i);
        next := AddBytes(i, size, next);
      }
    }
  }
}
