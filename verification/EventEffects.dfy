/** What each call on an event object does and answers, and which bits are received over runs. */
module EventEffects {
  import opened WaitList
  import opened EventSpec

  /** What the call returns: rt_event_send always succeeds, a timeout returns with an error. */
  function Answer(s: State, op: Op): Outcome {
    match op
    case DoRecv(t, p, q, time) => Recv(s, t, p, q, time).1
    case DoExpire(_) => Timeout
    case _ => Ok({})
  }

  /** Who is resumed by the step, and with which bits. */
  function Woken(s: State, op: Op): seq<Delivery> {
    if op.DoSend? then Send(s, op.bits).1 else []
  }

  ghost predicate AllOf<T(!new)>(wanted: set<T>, e: set<T>) {
    forall b :: b in wanted ==> b in e
  }

  ghost predicate AnyOf<T(!new)>(wanted: set<T>, e: set<T>) {
    exists b :: b in wanted && b in e
  }

  /** The AND or OR condition of a request on a set of bits, bit by bit. */
  ghost predicate Met(q: Request, e: Bits) {
    if q.all then AllOf(q.wanted, e) else AnyOf(q.wanted, e)
  }

  lemma AllOfMeans<T(!new)>(wanted: set<T>, e: set<T>)
    ensures AllOf(wanted, e) <==> wanted * e == wanted
  {
    if AllOf(wanted, e) {
      assert wanted * e == wanted;
    } else {
      var b :| b in wanted && b !in e;
      assert b !in wanted * e;
    }
  }

  lemma AnyOfMeans<T(!new)>(wanted: set<T>, e: set<T>)
    ensures AnyOf(wanted, e) <==> wanted * e != {}
  {
    if AnyOf(wanted, e) {
      var b :| b in wanted && b in e;
      assert b in wanted * e;
    }
  }

  lemma MetIsSatisfied(q: Request, e: Bits)
    ensures Met(q, e) <==> Satisfied(q, e)
  {
    AllOfMeans(q.wanted, e);
    AnyOfMeans(q.wanted, e);
  }

  // ----- receiving -----

  /** A receive that asks for nothing is an error. One whose condition holds answers the wanted bits
      that are set; under CLEAR these leave the set and all other bits stay, and without CLEAR the
      set is as before. */
  lemma ReceiveNow(s: State, t: int, prio: int, q: Request, time: int)
    requires s.Inv()
    ensures var op := DoRecv(t, prio, q, time);
      && (Answer(s, op) == Error <==> q.wanted == {})
      && (q.wanted == {} ==> Step(s, op) == s)
      && (Answer(s, op).Ok? <==> q.wanted != {} && Met(q, s.set_))
      && (Answer(s, op).Ok? ==> Answer(s, op).bits != {} && (q.all ==> Answer(s, op).bits == q.wanted))
      && (Answer(s, op).Ok? ==> forall b :: b in Answer(s, op).bits <==> b in q.wanted && b in s.set_)
      && (Answer(s, op).Ok? ==> forall b :: b in Step(s, op).set_ <==> b in s.set_ && !(q.clear && b in q.wanted))
      && (Answer(s, op).Ok? ==> Step(s, op).(set_ := s.set_) == s)
  {
    MetIsSatisfied(q, s.set_);
  }

  /** A receive whose condition does not hold: without waiting time it changes nothing. Otherwise the
      caller waits with its request at a place that suits the flag; the set and the other requests
      stay. */
  lemma ReceiveLater(s: State, t: int, prio: int, q: Request, time: int) returns (k: nat)
    requires s.Inv() && q.wanted != {} && !Met(q, s.set_)
    ensures var op := DoRecv(t, prio, q, time);
      && (time == 0 ==> Answer(s, op) == Timeout && Step(s, op) == s)
      && (time != 0 ==> Answer(s, op) == Blocked && Entered(s, Step(s, op), t, prio, q, k))
  {
    MetIsSatisfied(q, s.set_);
    k := if s.flag.Fifo? then |s.waiters| else Position(s.waiters, prio);
  }

  /** Thread t waits with request q at place k; nothing else has changed. */
  predicate Entered(s: State, s': State, t: int, prio: int, q: Request, k: nat) {
    && k <= |s.waiters| && Place(s.waiters, prio, s.flag, k)
    && s' == State(s.set_, s.waiters[..k] + [Waiter(t, prio, s.tickets)] + s.waiters[k..], s.requests[t := q], s.flag, s.tickets + 1)
  }

  // ----- every bit of the set -----

  /** The bits that the step takes out of the set because they were received under CLEAR. */
  ghost function Cleared(s: State, op: Op): Bits {
    match op
    case DoSend(_) => Removed(Woken(s, op))
    case DoRecv(_, _, q, _) => if Answer(s, op).Ok? && q.clear then Answer(s, op).bits else {}
    case _ => {}
  }

  function Removed(woken: seq<Delivery>): Bits {
    if woken == [] then {} else (if woken[0].clear then woken[0].bits else {}) + Removed(woken[1..])
  }

  lemma {:induction false} RemainingIs(e: Bits, woken: seq<Delivery>)
    ensures Remaining(e, woken) == e - Removed(woken)
  {
    if woken != [] {
      RemainingIs(if woken[0].clear then e - woken[0].bits else e, woken[1..]);
    }
  }

  /** A bit is set after a step exactly if it was set or is sent, is not taken under CLEAR, and the
      step is no reset. */
  lemma StepBit(s: State, op: Op, b: int)
    requires s.Inv()
    ensures b in Step(s, op).set_ <==> !op.DoReset? && (b in s.set_ || (op.DoSend? && b in op.bits)) && b !in Cleared(s, op)
  {
    match op
    case DoSend(bits) =>
      WalkRemaining(s.waiters, s.requests, s.set_ + bits);
      RemainingIs(s.set_ + bits, Woken(s, op));
    case DoRecv(t, p, q, time) =>
      ReceiveNow(s, t, p, q, time);
      if q.wanted != {} && !Met(q, s.set_) {
        var k := ReceiveLater(s, t, p, q, time);
      }
    case _ =>
  }

  /** The step gives bit b to somebody. */
  ghost predicate Gives(s: State, op: Op, b: int) {
    || (op.DoRecv? && Answer(s, op).Ok? && b in Answer(s, op).bits)
    || exists d :: d in Woken(s, op) && b in d.bits
  }

  /** What is given is set at that moment, or being sent. */
  lemma GivenWasSet(s: State, op: Op, b: int)
    requires s.Inv() && Gives(s, op, b)
    ensures b in s.set_ || (op.DoSend? && b in op.bits)
  {
    match op
    case DoRecv(t, p, q, time) => ReceiveNow(s, t, p, q, time);
    case DoSend(bits) =>
      var d :| d in Woken(s, op) && b in d.bits;
      WalkDelivers(s.waiters, s.requests, s.set_ + bits);
      assert Delivered(d, s.requests, s.set_ + bits);
    case _ =>
  }

  ghost predicate Sends(ops: seq<Op>, b: int) {
    exists i :: 0 <= i < |ops| && ops[i].DoSend? && b in ops[i].bits
  }

  /** No step of the run gives bit b to anybody. */
  ghost predicate NeverGiven(s: State, ops: seq<Op>, b: int)
    decreases |ops|
  {
    ops != [] ==> !Gives(s, ops[0], b) && NeverGiven(Step(s, ops[0]), ops[1..], b)
  }

  lemma {:induction false} UnsetStays(s: State, ops: seq<Op>, b: int)
    requires s.Inv() && AllowedRun(s, ops) && b !in s.set_ && !Sends(ops, b)
    ensures NeverGiven(s, ops, b) && b !in Run(s, ops).set_
    decreases |ops|
  {
    if ops != [] {
      StepBit(s, ops[0], b);
      if Gives(s, ops[0], b) {
        GivenWasSet(s, ops[0], b);
      }
      StepKeeps(s, ops[0]);
      forall i | 0 <= i < |ops[1..]| && ops[1..][i].DoSend? ensures b !in ops[1..][i].bits {
        assert ops[1..][i] == ops[i + 1];
      }
      UnsetStays(Step(s, ops[0]), ops[1..], b);
    }
  }

  /** One event is delivered once: a bit taken under CLEAR, by a receive or in the walk of a send, is
      given to nobody in the rest of the run until it is sent again. */
  lemma TakenOnce(s: State, op: Op, ops: seq<Op>, b: int)
    requires s.Inv() && Allowed(s, op) && AllowedRun(Step(s, op), ops) && b in Cleared(s, op) && !Sends(ops, b)
    ensures NeverGiven(Step(s, op), ops, b) && b !in Run(Step(s, op), ops).set_
  {
    StepBit(s, op, b);
    StepKeeps(s, op);
    UnsetStays(Step(s, op), ops, b);
  }

  // ----- sending, timeouts and reset -----

  /** A send of no bits resumes nobody and changes nothing; any send leaves the requests. */
  lemma SendNothing(s: State)
    ensures Step(s, DoSend({})) == s && Woken(s, DoSend({})) == []
  {
  }

  /** A send resumes some of the waiters, in list order, and leaves the others where they are. Each is
      resumed exactly if its request is met by the set at its turn: what was set and is sent, less
      what those resumed before it took under CLEAR. It gets the bits it wants of that set. */
  lemma SendResumes(s: State, bits: Bits, j: nat)
    requires s.Inv() && bits != {} && j < |s.waiters|
    ensures Merged(s.waiters, Step(s, DoSend(bits)).waiters, Woken(s, DoSend(bits)))
    ensures |Step(s, DoSend(bits)).waiters| + |Woken(s, DoSend(bits))| == |s.waiters|
    ensures s.waiters[j].thread in s.requests
    ensures var before := Walk(s.waiters[..j], s.requests, s.set_ + bits);
      && before.woken <= Woken(s, DoSend(bits)) && before.left <= Step(s, DoSend(bits)).waiters
      && Turn(s, s.requests[s.waiters[j].thread], s.set_ + bits - Removed(before.woken), bits, j, |before.woken|, |before.left|)
  {
    WalkPartition(s.waiters, s.requests, s.set_ + bits);
    assert Unsatisfied(s.waiters[j], s.requests, s.set_);
    var before, q := Walk(s.waiters[..j], s.requests, s.set_ + bits), s.requests[s.waiters[j].thread];
    WalkTurn(s.waiters, s.requests, s.set_ + bits, j);
    RemainingIs(s.set_ + bits, before.woken);
    MetIsSatisfied(q, s.set_ + bits - Removed(before.woken));
    ReceivedBits(q, s.set_ + bits - Removed(before.woken));
  }

  /** What becomes of waiter j, whose request is q and finds set e, with i threads resumed and l left
      before it. */
  ghost predicate Turn(s: State, q: Request, e: Bits, bits: Bits, j: nat, i: nat, l: nat)
    requires j < |s.waiters|
  {
    var woken, left := Woken(s, DoSend(bits)), Step(s, DoSend(bits)).waiters;
    if Met(q, e) then
      && i < |woken| && woken[i].thread == s.waiters[j].thread && woken[i].clear == q.clear
      && forall b :: b in woken[i].bits <==> b in q.wanted && b in e
    else l < |left| && left[l] == s.waiters[j]
  }

  lemma ReceivedBits(q: Request, e: Bits)
    ensures Met(q, e) ==> forall b :: b in Received(q, e) <==> b in q.wanted && b in e
  {
  }

  /** A send, a timeout and a reset leave everything they are not about; a timeout takes out the thread's
      entry alone. */
  lemma OthersStay(s: State, op: Op) returns (k: nat)
    requires op.DoSend? || op.DoExpire? || op.DoReset?
    ensures Step(s, op).requests == s.requests && Step(s, op).flag == s.flag && Step(s, op).tickets == s.tickets
    ensures op.DoExpire? ==> Step(s, op).set_ == s.set_
    ensures op.DoExpire? ==> if Waits(s.waiters, op.thread) then TakenOut(s.waiters, Step(s, op).waiters, op.thread, k) else Step(s, op).waiters == s.waiters
    ensures op.DoReset? ==> Step(s, op).set_ == {} && Step(s, op).waiters == []
  {
    k := 0;
    if op.DoExpire? {
      k := WithoutOne(s.waiters, op.thread);
    }
  }
}
