/** Every interleaving of a message queue, as its callers see it, is a run of a deque. */
module MessageQueueTrace {
  import opened RtDef
  import opened WaitList
  import opened MessageQueueSpec
  import opened MessageQueueLaws
  import opened MessageDeque

  /** What the call or the step returns. */
  function Answer(s: State, op: Op): Outcome
    requires s.Inv() && Allowed(s, op)
  {
    match op
    case DoSend(t, p, data, time) => Send(s, t, p, data, time).1
    case DoUrgent(t, data) => Urgent(s, t, data).1
    case DoRecv(t, p, size, time) => Recv(s, t, p, size, time).1
    case DoGiveBack(t) => GiveBack(s, t).1
    case _ => Ok
  }

  /** The event of a step, from its arguments and its answer alone. */
  function Seen(op: Op, answer: Outcome, msgSize: int): seq<Event> {
    match op
    case DoSend(t, _, data, _) => if answer.Taken? then [Offer(t, false, data)] else []
    case DoUrgent(t, data) => if answer.Taken? then [Offer(t, true, data)] else []
    case DoLink(t) => [Enter(t)]
    case DoRecv(t, _, size, _) => if answer.Taken? then [Take(t, Min(size, msgSize))] else []
    case DoGiveBack(t) => if answer.Received? then [Deliver(t, answer.bytes)] else []
    case DoReset => [Clear]
    case _ => []
  }

  function Trace(s: State, ops: seq<Op>): seq<Event>
    requires s.Inv() && AllowedRun(s, ops)
    decreases |ops|
  {
    if ops == [] then [] else
      StepKeeps(s, ops[0]);
      Seen(ops[0], Answer(s, ops[0]), s.msgSize) + Trace(Step(s, ops[0]), ops[1..])
  }

  /** The deque that a queue stands for: its messages, the messages of the senders that copy, and
      those taken by the receivers that copy. */
  ghost predicate Shows(d: Deque, s: State) {
    && d.msgs == s.msgs
    && (forall t :: t in d.offers <==> t in s.hands && s.hands[t].Sending?)
    && (forall t :: t in d.claims <==> t in s.hands && s.hands[t].Receiving?)
    && (forall t :: t in d.offers ==> d.offers[t] == Offered(s.hands[t].urgent, s.hands[t].data))
    && (forall t :: t in d.claims ==> d.claims[t] == Claim(s.hands[t].msg, s.hands[t].want))
  }

  /** The trace is one the deque accepts, and leads it to the state of the queue. */
  ghost predicate Follows(d: Deque, es: seq<Event>, s: State) {
    AcceptsAll(d, es) && Shows(Replay(d, es), s)
  }

  lemma One(d: Deque, e: Event, s: State)
    requires Accepts(d, e) && Shows(Apply(d, e), s)
    ensures Follows(d, [e], s)
  {
    assert [e][1..] == [];
  }

  /** Each step is one event of the deque, or none: a byte copied, a thread suspended, a timeout or a
      change of priority is not seen. */
  lemma StepRefines(d: Deque, s: State, op: Op)
    requires s.Inv() && Allowed(s, op) && Shows(d, s)
    ensures Follows(d, Seen(op, Answer(s, op), s.msgSize), Step(s, op))
  {
    match op
    case DoSend(t, p, data, time) => SendRefines(d, s, t, p, data, time);
    case DoUrgent(t, data) => UrgentRefines(d, s, t, data);
    case DoLink(t) => LinkRefines(d, s, t);
    case DoRecv(t, p, size, time) => RecvRefines(d, s, t, p, size, time);
    case DoGiveBack(t) => GiveBackRefines(d, s, t);
    case DoReset => ResetRefines(d, s);
    case _ => QuietRefines(d, s, op);
  }

  lemma QuietRefines(d: Deque, s: State, op: Op)
    requires s.Inv() && Allowed(s, op) && Shows(d, s) && (op.DoCopyIn? || op.DoCopyOut? || op.DoExpire? || op.DoPriority?)
    ensures Seen(op, Answer(s, op), s.msgSize) == [] && Shows(d, Step(s, op))
  {
  }

  lemma LinkRefines(d: Deque, s: State, t: int)
    requires s.Inv() && Allowed(s, DoLink(t)) && Shows(d, s)
    ensures Follows(d, Seen(DoLink(t), Answer(s, DoLink(t)), s.msgSize), Link(s, t))
  {
    One(d, Enter(t), Link(s, t));
  }

  lemma ResetRefines(d: Deque, s: State)
    requires s.Inv() && Shows(d, s)
    ensures Follows(d, Seen(DoReset, Answer(s, DoReset), s.msgSize), Reset(s))
  {
    One(d, Clear, Reset(s));
  }

  lemma SendRefines(d: Deque, s: State, t: int, p: int, data: seq<int>, time: int)
    requires s.Inv() && Allowed(s, DoSend(t, p, data, time)) && Shows(d, s)
    ensures Follows(d, Seen(DoSend(t, p, data, time), Send(s, t, p, data, time).1, s.msgSize), Send(s, t, p, data, time).0)
  {
    if Send(s, t, p, data, time).1.Taken? {
      One(d, Offer(t, false, data), Send(s, t, p, data, time).0);
    }
  }

  lemma UrgentRefines(d: Deque, s: State, t: int, data: seq<int>)
    requires s.Inv() && Allowed(s, DoUrgent(t, data)) && Shows(d, s)
    ensures Follows(d, Seen(DoUrgent(t, data), Urgent(s, t, data).1, s.msgSize), Urgent(s, t, data).0)
  {
    if Urgent(s, t, data).1.Taken? {
      One(d, Offer(t, true, data), Urgent(s, t, data).0);
    }
  }

  lemma RecvRefines(d: Deque, s: State, t: int, p: int, size: nat, time: int)
    requires s.Inv() && Allowed(s, DoRecv(t, p, size, time)) && Shows(d, s)
    ensures Follows(d, Seen(DoRecv(t, p, size, time), Recv(s, t, p, size, time).1, s.msgSize), Recv(s, t, p, size, time).0)
  {
    if s.queue != [] {
      One(d, Take(t, Min(size, s.msgSize)), Recv(s, t, p, size, time).0);
    }
  }

  lemma GiveBackRefines(d: Deque, s: State, t: int)
    requires s.Inv() && Allowed(s, DoGiveBack(t)) && Shows(d, s)
    ensures Follows(d, Seen(DoGiveBack(t), GiveBack(s, t).1, s.msgSize), GiveBack(s, t).0)
  {
    ReceivedBytes(s, t);
    One(d, Deliver(t, s.hands[t].got), GiveBack(s, t).0);
  }

  /** Over every interleaving of senders, urgent senders, receivers, timeouts and resets, with the
      copies outside the lock: the deque accepts what the callers see, in the order in which calls take
      effect, and holds the messages that the queue holds. Each receiver gets the message it took, as
      far as its buffer and the message go. */
  lemma {:induction false} RunRefinesDeque(d: Deque, s: State, ops: seq<Op>)
    requires s.Inv() && AllowedRun(s, ops) && Shows(d, s)
    ensures Follows(d, Trace(s, ops), Run(s, ops))
    decreases |ops|
  {
    if ops != [] {
      StepKeeps(s, ops[0]);
      StepRefines(d, s, ops[0]);
      var es := Seen(ops[0], Answer(s, ops[0]), s.msgSize);
      RunRefinesDeque(Replay(d, es), Step(s, ops[0]), ops[1..]);
      ReplayAppend(d, es, Trace(Step(s, ops[0]), ops[1..]));
    }
  }

  /** A fresh queue shows the empty deque. */
  lemma FreshIsEmpty(maxMsgs: nat, msgSize: nat, mem: map<int, seq<int>>, flag: Flag)
    ensures Shows(EMPTY, Initial(maxMsgs, msgSize, mem, flag))
  {
  }

  /** Plain messages are first in, first out over every run, urgent messages and resets included; the
      urgent ones stand in front of them, the last one first. */
  lemma RunIsFifo(s: State, ops: seq<Op>)
    requires s.Inv() && AllowedRun(s, ops) && Shows(EMPTY, s)
    ensures AcceptsAll(EMPTY, Trace(s, ops))
    ensures var l := Account(Ledger([], [], [], []), EMPTY, Trace(s, ops));
      Run(s, ops).msgs == l.urgent + l.plain && l.left + l.plain == l.entered
  {
    RunRefinesDeque(EMPTY, s, ops);
    PlainIsFifo(Ledger([], [], [], []), EMPTY, Trace(s, ops));
  }

  // ----- where messages come from -----

  /** The call number i of the run sends message m. */
  predicate Sends(ops: seq<Op>, i: int, m: seq<int>) {
    0 <= i < |ops| && (ops[i].DoSend? || ops[i].DoUrgent?) && ops[i].data == m
  }

  lemma OffersAppend(es: seq<Event>, fs: seq<Event>)
    ensures Offers(es + fs) == Offers(es) + Offers(fs)
  {
  }

  /** Every offer in the trace is the message of a call of the run. */
  lemma {:induction false} OffersAreCalls(s: State, ops: seq<Op>, m: seq<int>) returns (i: int)
    requires s.Inv() && AllowedRun(s, ops) && m in Offers(Trace(s, ops))
    ensures Sends(ops, i, m)
    decreases |ops|
  {
    StepKeeps(s, ops[0]);
    var now, later := Seen(ops[0], Answer(s, ops[0]), s.msgSize), Trace(Step(s, ops[0]), ops[1..]);
    if m in Offers(now) {
      i := 0;
    } else {
      OffersAppend(now, later);
      var j := OffersAreCalls(Step(s, ops[0]), ops[1..], m);
      i := j + 1;
    }
  }

  /** Every message in the queue was sent by an earlier call of the run, whole and unchanged. */
  lemma QueuedWasSent(s: State, ops: seq<Op>, m: seq<int>) returns (i: int)
    requires s.Inv() && AllowedRun(s, ops) && Shows(EMPTY, s) && m in Run(s, ops).msgs
    ensures Sends(ops, i, m)
  {
    RunRefinesDeque(EMPTY, s, ops);
    ReplayOnlyFrom(EMPTY, Trace(s, ops), {});
    i := OffersAreCalls(s, ops, m);
  }

  /** The bytes that a receive returns are those of a message sent by an earlier call of the run, as
      far as that message reaches: all of the buffer if the message fills it. */
  lemma ReceivedWasSent(s: State, ops: seq<Op>, t: int) returns (i: int, m: seq<int>)
    requires s.Inv() && AllowedRun(s, ops) && Shows(EMPTY, s) && Allowed(Run(s, ops), DoGiveBack(t))
    ensures Sends(ops, i, m) && GiveBack(Run(s, ops), t).1.Received?
    ensures var bytes := GiveBack(Run(s, ops), t).1.bytes; Agree(bytes, m) && (|bytes| <= |m| ==> bytes <= m)
  {
    var r := Run(s, ops);
    RunRefinesDeque(EMPTY, s, ops);
    ReplayOnlyFrom(EMPTY, Trace(s, ops), {});
    ReceivedBytes(r, t);
    m := r.hands[t].msg;
    assert t in Replay(EMPTY, Trace(s, ops)).claims;
    i := OffersAreCalls(s, ops, m);
  }
}
