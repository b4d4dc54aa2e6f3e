/** Event flags (ipc.c): rt_event_send walks the waiters in list order, rt_event_recv waits for all
    or for some of a set of bits, optionally clearing what it receives. */
module EventSpec {
  import opened WaitList

  /** A word of event flags, as the set of the numbers of its set bits: `|`, `&` and `& ~` are union,
      intersection and difference. */
  type Bits = set<int>

  /** What a waiter asked for: event_set, and AND / CLEAR of event_info. */
  datatype Request = Request(wanted: Bits, all: bool, clear: bool)

  predicate Satisfied(q: Request, e: Bits) {
    if q.all then q.wanted * e == q.wanted else q.wanted * e != {}
  }

  /** The bits a satisfied waiter receives. */
  function Received(q: Request, e: Bits): Bits {
    if q.all then q.wanted else q.wanted * e
  }

  datatype Delivery = Delivery(thread: int, bits: Bits, clear: bool)

  /** The outcome of the walk of rt_event_send: the bits left, the waiters left, who was resumed. */
  datatype Walked = Walked(set_: Bits, left: seq<Waiter>, woken: seq<Delivery>)

  function Walk(ws: seq<Waiter>, requests: map<int, Request>, e: Bits): Walked {
    if ws == [] then Walked(e, [], [])
    else if ws[0].thread in requests && Satisfied(requests[ws[0].thread], e) then
      var q := requests[ws[0].thread];
      var got := Received(q, e);
      var r := Walk(ws[1..], requests, if q.clear then e - got else e);
      r.(woken := [Delivery(ws[0].thread, got, q.clear)] + r.woken)
    else
      var r := Walk(ws[1..], requests, e);
      r.(left := [ws[0]] + r.left)
  }

  datatype State = State(set_: Bits, waiters: seq<Waiter>, requests: map<int, Request>, flag: Flag, tickets: int) {
    /** No suspended waiter is satisfied by the current set. */
    ghost predicate Inv() {
      && OneEntryEach(waiters)
      && forall w :: w in waiters ==> w.ticket < tickets && Unsatisfied(w, requests, set_)
    }
  }

  predicate Unsatisfied(w: Waiter, requests: map<int, Request>, e: Bits) {
    w.thread in requests && requests[w.thread].wanted != {} && !Satisfied(requests[w.thread], e)
  }

  datatype Outcome = Ok(bits: Bits) | Error | Timeout | Blocked

  function Send(s: State, bits: Bits): (State, seq<Delivery>) {
    if bits == {} then (s, [])
    else
      var r := Walk(s.waiters, s.requests, s.set_ + bits);
      (s.(set_ := r.set_, waiters := r.left), r.woken)
  }

  /** rt_event_recv up to the schedule point, for an option with AND or OR. */
  function Recv(s: State, t: int, prio: int, q: Request, time: int): (State, Outcome) {
    if q.wanted == {} then (s, Error)
    else if Satisfied(q, s.set_) then
      (s.(set_ := if q.clear then s.set_ - q.wanted else s.set_), Ok(s.set_ * q.wanted))
    else if time == 0 then (s, Timeout)
    else (s.(waiters := Enqueue(s.waiters, Waiter(t, prio, s.tickets), s.flag), tickets := s.tickets + 1,
             requests := s.requests[t := q]), Blocked)
  }

  datatype Op =
    | DoSend(bits: Bits)
    | DoRecv(thread: int, prio: int, request: Request, time: int)
    | DoExpire(thread: int)
    | DoPriority(thread: int, prio: int)
    | DoReset

  predicate Allowed(s: State, op: Op) {
    op.DoRecv? ==> !Waits(s.waiters, op.thread)
  }

  function Step(s: State, op: Op): State {
    match op
    case DoSend(bits) => Send(s, bits).0
    case DoRecv(t, p, q, time) => Recv(s, t, p, q, time).0
    case DoExpire(t) => s.(waiters := Without(s.waiters, t))
    case DoPriority(t, p) => s.(waiters := Reprio(s.waiters, t, p))
    case DoReset => s.(waiters := [], set_ := {})
  }

  predicate AllowedRun(s: State, ops: seq<Op>)
    decreases |ops|
  {
    ops != [] ==> Allowed(s, ops[0]) && AllowedRun(Step(s, ops[0]), ops[1..])
  }

  function Run(s: State, ops: seq<Op>): State
    decreases |ops|
  {
    if ops == [] then s else Run(Step(s, ops[0]), ops[1..])
  }

  /** A set that has lost bits satisfies nobody it did not satisfy before. */
  lemma Shrinking(q: Request, e: Bits, e': Bits)
    requires e' <= e && Satisfied(q, e')
    ensures Satisfied(q, e)
  {
    if !q.all {
      assert q.wanted * e' <= q.wanted * e;
    }
  }

  // ----- the walk -----

  /** The waiters are those left and those resumed, merged in list order. */
  predicate Merged(ws: seq<Waiter>, left: seq<Waiter>, woken: seq<Delivery>) {
    if ws == [] then left == [] && woken == []
    else if woken != [] && woken[0].thread == ws[0].thread then Merged(ws[1..], left, woken[1..])
    else left != [] && left[0] == ws[0] && Merged(ws[1..], left[1..], woken)
  }

  /** What is left of the set once the deliveries have been made: each CLEAR one takes its bits. */
  function Remaining(e: Bits, woken: seq<Delivery>): Bits {
    if woken == [] then e else Remaining(if woken[0].clear then e - woken[0].bits else e, woken[1..])
  }

  /** The resumed threads are among the waiters. */
  lemma {:induction false} WokenWaited(ws: seq<Waiter>, requests: map<int, Request>, e: Bits, d: Delivery)
    requires d in Walk(ws, requests, e).woken
    ensures exists i :: 0 <= i < |ws| && ws[i].thread == d.thread
  {
    var e1 := if ws[0].thread in requests && Satisfied(requests[ws[0].thread], e) && requests[ws[0].thread].clear
      then e - Received(requests[ws[0].thread], e) else e;
    if d.thread != ws[0].thread {
      WokenWaited(ws[1..], requests, e1, d);
      var i :| 0 <= i < |ws[1..]| && ws[1..][i].thread == d.thread;
      assert ws[i + 1].thread == d.thread;
    }
  }

  /** A walk loses nobody and resumes nobody else: each waiter is either left or resumed, both in
      the order of the list. */
  lemma {:induction false} WalkPartition(ws: seq<Waiter>, requests: map<int, Request>, e: Bits)
    requires OneEntryEach(ws)
    ensures var r := Walk(ws, requests, e); Merged(ws, r.left, r.woken) && |r.left| + |r.woken| == |ws|
  {
    if ws != [] {
      var e1 := if ws[0].thread in requests && Satisfied(requests[ws[0].thread], e) && requests[ws[0].thread].clear
        then e - Received(requests[ws[0].thread], e) else e;
      WalkPartition(ws[1..], requests, e1);
      var later := Walk(ws[1..], requests, e1).woken;
      if later != [] {
        WokenWaited(ws[1..], requests, e1, later[0]);
        var i :| 0 <= i < |ws[1..]| && ws[1..][i].thread == later[0].thread;
        assert ws[i + 1].thread == later[0].thread;
      }
    }
  }

  /** A walk over a list in two parts. */
  lemma {:induction false} WalkAppend(a: seq<Waiter>, b: seq<Waiter>, requests: map<int, Request>, e: Bits)
    ensures var r1 := Walk(a, requests, e); var r2 := Walk(b, requests, r1.set_);
      Walk(a + b, requests, e) == Walked(r2.set_, r1.left + r2.left, r1.woken + r2.woken)
  {
    if a == [] {
      assert a + b == b;
    } else {
      var e1 := if a[0].thread in requests && Satisfied(requests[a[0].thread], e) && requests[a[0].thread].clear
        then e - Received(requests[a[0].thread], e) else e;
      var r1, r2 := Walk(a[1..], requests, e1), Walk(b, requests, Walk(a[1..], requests, e1).set_);
      assert Walk(a[1..] + b, requests, e1) == Walked(r2.set_, r1.left + r2.left, r1.woken + r2.woken) by {
        WalkAppend(a[1..], b, requests, e1);
      }
      assert (a + b)[1..] == a[1..] + b && (a + b)[0] == a[0];
      assert [a[0]] + (r1.left + r2.left) == [a[0]] + r1.left + r2.left;
    }
  }

  lemma {:induction false} WalkRemaining(ws: seq<Waiter>, requests: map<int, Request>, e: Bits)
    ensures Walk(ws, requests, e).set_ == Remaining(e, Walk(ws, requests, e).woken)
  {
    if ws != [] {
      if ws[0].thread in requests && Satisfied(requests[ws[0].thread], e) {
        var q := requests[ws[0].thread];
        var e1 := if q.clear then e - Received(q, e) else e;
        WalkRemaining(ws[1..], requests, e1);
        var r, r1 := Walk(ws, requests, e), Walk(ws[1..], requests, e1);
        assert r.woken == [Delivery(ws[0].thread, Received(q, e), q.clear)] + r1.woken && r.woken[1..] == r1.woken;
      } else {
        WalkRemaining(ws[1..], requests, e);
      }
    }
  }

  /** Waiter j at its turn: those before it have been dealt with, and the set is the one at the start
      without what their CLEAR deliveries took. It is resumed, with what it is owed, if and only if
      that set satisfies it; otherwise it stays. */
  lemma WalkTurn(ws: seq<Waiter>, requests: map<int, Request>, e: Bits, j: nat)
    requires j < |ws| && ws[j].thread in requests
    ensures var r, b, q := Walk(ws, requests, e), Walk(ws[..j], requests, e), requests[ws[j].thread];
      && b.set_ == Remaining(e, b.woken) && b.woken <= r.woken && b.left <= r.left
      && if Satisfied(q, b.set_) then |b.woken| < |r.woken| && r.woken[|b.woken|] == Delivery(ws[j].thread, Received(q, b.set_), q.clear)
         else |b.left| < |r.left| && r.left[|b.left|] == ws[j]
  {
    var b := Walk(ws[..j], requests, e);
    WalkRemaining(ws[..j], requests, e);
    WalkAppend(ws[..j], ws[j..], requests, e);
    assert ws == ws[..j] + ws[j..] && ws[j..][0] == ws[j];
  }

  /** Each resumed waiter was satisfied by the set at the start without what the CLEAR deliveries
      before it took, and received what it is owed of that. */
  lemma {:induction false} WokenWasSatisfied(ws: seq<Waiter>, requests: map<int, Request>, e: Bits, i: nat)
    requires i < |Walk(ws, requests, e).woken|
    ensures var woken := Walk(ws, requests, e).woken;
      && woken[i].thread in requests && woken[i].clear == requests[woken[i].thread].clear
      && Satisfied(requests[woken[i].thread], Remaining(e, woken[..i]))
      && woken[i].bits == Received(requests[woken[i].thread], Remaining(e, woken[..i]))
  {
    var woken := Walk(ws, requests, e).woken;
    if ws[0].thread in requests && Satisfied(requests[ws[0].thread], e) {
      var q := requests[ws[0].thread];
      var e1 := if q.clear then e - Received(q, e) else e;
      var later := Walk(ws[1..], requests, e1).woken;
      assert woken == [Delivery(ws[0].thread, Received(q, e), q.clear)] + later;
      if i > 0 {
        WokenWasSatisfied(ws[1..], requests, e1, i - 1);
        assert woken[..i][1..] == later[..i - 1] && woken[..i][0] == woken[0];
      }
    } else {
      WokenWasSatisfied(ws[1..], requests, e, i);
    }
  }

  /** The set only shrinks during a walk, nobody who is left is satisfied by what remains, and the
      waiters left are some of those before. */
  lemma {:induction false} WalkLeaves(ws: seq<Waiter>, requests: map<int, Request>, e: Bits)
    requires forall w :: w in ws ==> w.thread in requests
    ensures var r := Walk(ws, requests, e);
      && r.set_ <= e
      && (forall w :: w in r.left ==> w in ws && w.thread in requests && !Satisfied(requests[w.thread], r.set_))
  {
    if ws != [] {
      var q := requests[ws[0].thread];
      if Satisfied(q, e) {
        var e1 := if q.clear then e - Received(q, e) else e;
        WalkLeaves(ws[1..], requests, e1);
      } else {
        WalkLeaves(ws[1..], requests, e);
        if Satisfied(q, Walk(ws[1..], requests, e).set_) {
          Shrinking(q, e, Walk(ws[1..], requests, e).set_);
        }
      }
    }
  }

  lemma {:induction false} WalkKeepsEntries(ws: seq<Waiter>, requests: map<int, Request>, e: Bits)
    requires OneEntryEach(ws)
    ensures OneEntryEach(Walk(ws, requests, e).left)
    ensures forall w :: w in Walk(ws, requests, e).left ==> w in ws
  {
    if ws != [] {
      var e1 := if ws[0].thread in requests && Satisfied(requests[ws[0].thread], e) && requests[ws[0].thread].clear
        then e - Received(requests[ws[0].thread], e) else e;
      WalkKeepsEntries(ws[1..], requests, e1);
      var left := Walk(ws[1..], requests, e1).left;
      forall w | w in left ensures ws[0].thread != w.thread {
        var i :| 0 <= i < |ws[1..]| && ws[1..][i] == w;
        assert w == ws[i + 1];
      }
    }
  }

  lemma {:induction false} WalkKeepsOrder(ws: seq<Waiter>, requests: map<int, Request>, e: Bits, flag: Flag)
    requires Ordered(ws, flag)
    ensures Ordered(Walk(ws, requests, e).left, flag)
    ensures forall w :: w in Walk(ws, requests, e).left ==> w in ws
  {
    if ws != [] {
      var e1 := if ws[0].thread in requests && Satisfied(requests[ws[0].thread], e) && requests[ws[0].thread].clear
        then e - Received(requests[ws[0].thread], e) else e;
      WalkKeepsOrder(ws[1..], requests, e1, flag);
      var left := Walk(ws[1..], requests, e1).left;
      forall w | w in left ensures Before(ws[0], w, flag) {
        var i :| 0 <= i < |ws[1..]| && ws[1..][i] == w;
        assert w == ws[i + 1];
      }
    }
  }

  /** Every delivery is a non-empty part of the set at the start of the walk and of what the waiter
      wanted (all of it, for AND). */
  lemma {:induction false} WalkDelivers(ws: seq<Waiter>, requests: map<int, Request>, e: Bits)
    requires forall w :: w in ws ==> w.thread in requests && requests[w.thread].wanted != {}
    ensures forall d :: d in Walk(ws, requests, e).woken ==> Delivered(d, requests, e)
  {
    if ws != [] {
      var q := requests[ws[0].thread];
      var e1 := if Satisfied(q, e) && q.clear then e - Received(q, e) else e;
      WalkDelivers(ws[1..], requests, e1);
    }
  }

  predicate Delivered(d: Delivery, requests: map<int, Request>, e: Bits) {
    && d.thread in requests && d.bits != {} && d.bits <= e && d.bits <= requests[d.thread].wanted
    && (requests[d.thread].all ==> d.bits == requests[d.thread].wanted) && d.clear == requests[d.thread].clear
  }

  /** A bit consumed by a CLEAR waiter is delivered to no later waiter and does not remain. */
  lemma {:induction false} ConsumedOnce(ws: seq<Waiter>, requests: map<int, Request>, e: Bits)
    requires forall w :: w in ws ==> w.thread in requests && requests[w.thread].wanted != {}
    ensures var r := Walk(ws, requests, e);
      && (forall i, j :: 0 <= i < j < |r.woken| && r.woken[i].clear ==> r.woken[i].bits !! r.woken[j].bits)
      && (forall d :: d in r.woken && d.clear ==> d.bits !! r.set_)
  {
    if ws != [] {
      var q := requests[ws[0].thread];
      var got := Received(q, e);
      var e1 := if Satisfied(q, e) && q.clear then e - got else e;
      ConsumedOnce(ws[1..], requests, e1);
      WalkDelivers(ws[1..], requests, e1);
      WalkLeaves(ws[1..], requests, e1);
      if Satisfied(q, e) && q.clear {
        var later := Walk(ws[1..], requests, e1).woken;
        forall d | d in later ensures got !! d.bits {
          assert Delivered(d, requests, e1);
        }
        assert Walk(ws, requests, e).woken == [Delivery(ws[0].thread, got, true)] + later;
      }
    }
  }

  // ----- runs -----

  lemma RecvKeeps(s: State, t: int, prio: int, q: Request, time: int)
    requires s.Inv() && !Waits(s.waiters, t)
    ensures Recv(s, t, prio, q, time).0.Inv()
  {
    if q.wanted != {} {
      if Satisfied(q, s.set_) {
        forall w | w in s.waiters ensures Unsatisfied(w, s.requests, s.set_ - q.wanted) {
          assert Unsatisfied(w, s.requests, s.set_);
          if Satisfied(s.requests[w.thread], s.set_ - q.wanted) {
            Shrinking(s.requests[w.thread], s.set_, s.set_ - q.wanted);
          }
        }
      } else {
        EnqueueMembers(s.waiters, Waiter(t, prio, s.tickets), s.flag);
        forall w | w in s.waiters ensures w.thread != t {
          var i :| 0 <= i < |s.waiters| && s.waiters[i] == w;
        }
      }
    }
  }

  lemma StepKeeps(s: State, op: Op)
    requires s.Inv() && Allowed(s, op)
    ensures Step(s, op).Inv()
  {
    match op
    case DoSend(bits) =>
      WalkLeaves(s.waiters, s.requests, s.set_ + bits);
      WalkKeepsEntries(s.waiters, s.requests, s.set_ + bits);
    case DoRecv(t, p, q, time) => RecvKeeps(s, t, p, q, time);
    case DoExpire(t) => WithoutMembers(s.waiters, t);
    case DoPriority(t, p) => PriorityKeeps(s, t, p);
    case DoReset =>
  }

  lemma PriorityKeeps(s: State, t: int, p: int)
    requires s.Inv()
    ensures s.(waiters := Reprio(s.waiters, t, p)).Inv()
  {
    var r := Reprio(s.waiters, t, p);
    forall w | w in r ensures w.ticket < s.tickets && Unsatisfied(w, s.requests, s.set_) {
      var i :| 0 <= i < |r| && r[i] == w;
      assert s.waiters[i] in s.waiters;
    }
  }

  /** A change of priority suits the place where the thread stands. */
  ghost predicate KeepsPlace(s: State, op: Op) {
    op.DoPriority? ==> InPlace(s.waiters, op.thread, op.prio, s.flag)
  }

  /** The waiters stay in serving order through every step but a change of priority, and through
      that exactly when it suits the neighbours. */
  lemma StepOrder(s: State, op: Op)
    requires s.Inv() && Allowed(s, op) && Ordered(s.waiters, s.flag)
    ensures Ordered(Step(s, op).waiters, s.flag) <==> KeepsPlace(s, op)
  {
    match op
    case DoSend(bits) => WalkKeepsOrder(s.waiters, s.requests, s.set_ + bits, s.flag);
    case DoRecv(t, p, q, time) => EnqueueKeepsOrder(s.waiters, Waiter(t, p, s.tickets), s.flag);
    case DoExpire(t) => WithoutKeepsOrder(s.waiters, t, s.flag);
    case DoPriority(t, p) => ReprioOrder(s.waiters, t, p, s.flag);
    case DoReset =>
  }

  ghost predicate OrderedThroughout(s: State, ops: seq<Op>)
    decreases |ops|
  {
    Ordered(s.waiters, s.flag) && (ops != [] ==> OrderedThroughout(Step(s, ops[0]), ops[1..]))
  }

  ghost predicate PlacesKept(s: State, ops: seq<Op>)
    decreases |ops|
  {
    ops != [] ==> KeepsPlace(s, ops[0]) && PlacesKept(Step(s, ops[0]), ops[1..])
  }

  /** Over every run the waiters are in serving order in all states exactly when every change of
      priority suits the place of its thread at that moment. */
  lemma {:induction false} RunOrder(s: State, ops: seq<Op>)
    requires s.Inv() && AllowedRun(s, ops) && Ordered(s.waiters, s.flag)
    ensures OrderedThroughout(s, ops) <==> PlacesKept(s, ops)
    decreases |ops|
  {
    if ops != [] {
      StepOrder(s, ops[0]);
      StepKeeps(s, ops[0]);
      if Ordered(Step(s, ops[0]).waiters, s.flag) {
        RunOrder(Step(s, ops[0]), ops[1..]);
      }
    }
  }

  /** In every reachable state no suspended thread is waiting for something that is already there. */
  lemma {:induction false} RunKeeps(s: State, ops: seq<Op>)
    requires s.Inv() && AllowedRun(s, ops)
    ensures Run(s, ops).Inv()
    decreases |ops|
  {
    if ops != [] {
      StepKeeps(s, ops[0]);
      RunKeeps(Step(s, ops[0]), ops[1..]);
    }
  }
}

/** The event object. */
module Event {
  import opened WaitList
  import opened Spec = EventSpec

  class Flags {
    var set_: Bits
    var waiters: seq<Waiter>
    /** event_set and event_info of the suspended threads. */
    var requests: map<int, Request>
    const flag: Flag
    /** Model only. */
    var tickets: int

    ghost function Contents(): State
      reads this
    {
      State(set_, waiters, requests, flag, tickets)
    }

    /** rt_event_init */
    constructor (flag: Flag)
      ensures Contents() == State({}, [], map[], flag, 0) && Contents().Inv()
    {
      set_, waiters, requests, tickets := {}, [], map[], 0;
      this.flag := flag;
    }

    /** rt_event_send: the walk removes the satisfied waiters from the list as it goes. */
    method Send(bits: Bits) returns (ok: bool, woken: seq<Delivery>)
      requires Contents().Inv()
      modifies this
      ensures (Contents(), woken) == Spec.Send(old(Contents()), bits) && Contents().Inv()
      ensures ok <==> bits != {}
    {
      StepKeeps(Contents(), DoSend(bits));
      if bits == {} {
        return false, [];
      }
      set_ := set_ + bits;
      woken := WalkWaiters();
      return true, woken;
    }

    /** The loop of rt_event_send over the list of suspended threads. */
    method WalkWaiters() returns (woken: seq<Delivery>)
      requires forall w :: w in waiters ==> w.thread in requests
      modifies this`waiters, this`set_
      ensures Walked(set_, waiters, woken) == Walk(old(waiters), requests, old(set_))
    {
      woken := [];
      var n := 0;
      ghost var r := Walk(waiters, requests, set_);
      assert waiters[n..] == waiters;
      while n < |waiters|
        invariant 0 <= n <= |waiters| && forall w :: w in waiters ==> w.thread in requests
        invariant var rest := Walk(waiters[n..], requests, set_);
          rest.set_ == r.set_ && waiters[..n] + rest.left == r.left && woken + rest.woken == r.woken
        decreases |waiters| - n
      {
        var w := waiters[n];
        var q := requests[w.thread];
        assert waiters[n..][1..] == waiters[n + 1..];
        if Satisfied(q, set_) {
          var got := Received(q, set_);
          if q.clear {
            set_ := set_ - got;
          }
          woken := woken + [Delivery(w.thread, got, q.clear)];
          waiters := waiters[..n] + waiters[n + 1..];
        } else {
          n := n + 1;
        }
      }
      assert waiters[..n] == waiters && waiters[n..] == [];
    }

    /** rt_event_recv up to the schedule point, for an option with AND or OR. */
    method Recv(thread: int, prio: int, q: Request, time: int) returns (r: Outcome)
      requires Contents().Inv() && !Waits(waiters, thread)
      modifies this
      ensures (Contents(), r) == Spec.Recv(old(Contents()), thread, prio, q, time) && Contents().Inv()
    {
      RecvKeeps(Contents(), thread, prio, q, time);
      if q.wanted == {} {
        return Error;
      }
      if Satisfied(q, set_) {
        r := Ok(set_ * q.wanted);
        if q.clear {
          set_ := set_ - q.wanted;
        }
        return;
      }
      if time == 0 {
        return Timeout;
      }
      requests := requests[thread := q];
      waiters := Suspend(waiters, Waiter(thread, prio, tickets), flag);
      tickets := tickets + 1;
      return Blocked;
    }

    /** rt_event_control(RT_IPC_CMD_RESET) */
    method Reset() returns (resumed: seq<Waiter>)
      requires Contents().Inv()
      modifies this`waiters, this`set_
      ensures Contents() == Step(old(Contents()), DoReset) && Contents().Inv()
      ensures resumed == old(waiters)
    {
      waiters, resumed := ResumeAll(waiters);
      set_ := {};
    }
  }
}
