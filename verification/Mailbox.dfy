/** Mailboxes (ipc.c): rt_mb_send_wait, rt_mb_urgent, rt_mb_recv and rt_mb_control as steps on a
    bounded deque with two lists of waiters. Code between two interrupt-off regions is one step:
    a blocking call runs up to the schedule point, and runs again once the thread is resumed. */
module MailboxSpec {
  import opened RtDef
  import opened WaitList

  /** `wokenReceivers` and `wokenSenders` are the threads that have been resumed by a send or a
      receive and have not run since. */
  datatype State = State(size: int, msgs: seq<int>, receivers: seq<Waiter>, senders: seq<Waiter>, flag: Flag,
                         wokenReceivers: set<int>, wokenSenders: set<int>, tickets: int)
  {
    ghost predicate Inv() {
      && |msgs| <= size <= RT_UINT16_MAX
      && Queued(receivers, tickets, wokenReceivers) && Queued(senders, tickets, wokenSenders)
      && NoLostWakeup()
    }

    /** Messages are waiting for receivers only as long as enough receivers are already on their
        way; the same holds for free slots and senders. */
    ghost predicate NoLostWakeup() {
      && (receivers != [] ==> |msgs| <= |wokenReceivers|)
      && (senders != [] ==> size - |msgs| <= |wokenSenders|)
    }
  }

  datatype Outcome = Ok | Received(value: int) | Full | Timeout | Blocked

  /** The head waiter is resumed. */
  function WakeReceiver(s: State): State {
    if s.receivers == [] then s
    else s.(receivers := s.receivers[1..], wokenReceivers := s.wokenReceivers + {s.receivers[0].thread})
  }

  function WakeSender(s: State): State {
    if s.senders == [] then s
    else s.(senders := s.senders[1..], wokenSenders := s.wokenSenders + {s.senders[0].thread})
  }

  /** rt_mb_send_wait by thread t, from entry or from the point where it was resumed. */
  function Send(s: State, t: int, prio: int, v: int, time: int): (State, Outcome) {
    var s := s.(wokenSenders := s.wokenSenders - {t});
    if |s.msgs| == s.size then
      if time == 0 then (s, Full)
      else (s.(senders := Enqueue(s.senders, Waiter(t, prio, s.tickets), s.flag), tickets := s.tickets + 1), Blocked)
    else (WakeReceiver(s.(msgs := s.msgs + [v])), Ok)
  }

  function Urgent(s: State, v: int): (State, Outcome) {
    if |s.msgs| == s.size then (s, Full)
    else (WakeReceiver(s.(msgs := [v] + s.msgs)), Ok)
  }

  /** rt_mb_recv by thread t, from entry or from the point where it was resumed. */
  function Recv(s: State, t: int, prio: int, time: int): (State, Outcome) {
    var s := s.(wokenReceivers := s.wokenReceivers - {t});
    if s.msgs == [] then
      if time == 0 then (s, Timeout)
      else (s.(receivers := Enqueue(s.receivers, Waiter(t, prio, s.tickets), s.flag), tickets := s.tickets + 1), Blocked)
    else (WakeSender(s.(msgs := s.msgs[1..])), Received(s.msgs[0]))
  }

  /** The timer of a waiter fires: it leaves its list and returns with an error. */
  function Expire(s: State, t: int): State {
    s.(receivers := Without(s.receivers, t), senders := Without(s.senders, t))
  }

  /** RT_IPC_CMD_RESET: all waiters return with an error; messages are dropped. */
  function Reset(s: State): State {
    s.(msgs := [], receivers := [], senders := [])
  }

  datatype Op =
    | DoSend(thread: int, prio: int, value: int, time: int)
    | DoUrgent(value: int)
    | DoRecv(thread: int, prio: int, time: int)
    | DoExpire(thread: int)
    | DoPriority(thread: int, prio: int)
    | DoReset

  /** A suspended thread does not run; a resumed one first goes on with the call it was in. */
  predicate Allowed(s: State, op: Op) {
    match op
    case DoSend(t, _, _, _) => !Waits(s.receivers, t) && !Waits(s.senders, t) && t !in s.wokenReceivers
    case DoRecv(t, _, _) => !Waits(s.receivers, t) && !Waits(s.senders, t) && t !in s.wokenSenders
    case _ => true
  }

  function Step(s: State, op: Op): State {
    match op
    case DoSend(t, p, v, time) => Send(s, t, p, v, time).0
    case DoUrgent(v) => Urgent(s, v).0
    case DoRecv(t, p, time) => Recv(s, t, p, time).0
    case DoExpire(t) => Expire(s, t)
    case DoPriority(t, p) => s.(receivers := Reprio(s.receivers, t, p), senders := Reprio(s.senders, t, p))
    case DoReset => Reset(s)
  }

  predicate AllowedRun(s: State, ops: seq<Op>)
    decreases |ops|
  {
    ops != [] ==> Allowed(s, ops[0]) && AllowedRun(Step(s, ops[0]), ops[1..])
  }

  function Run(s: State, ops: seq<Op>): State
    decreases |ops|
  {
    if ops == [] then s else Run(Step(s, ops[0]), ops[1..])
  }

  // ----- what every step keeps -----

  /** A message put into the deque by a thread that may itself have been a resumed sender. */
  lemma PutKeeps(s: State, msgs: seq<int>, t: int)
    requires s.Inv() && |s.msgs| < s.size && |msgs| == |s.msgs| + 1
    ensures WakeReceiver(s.(wokenSenders := s.wokenSenders - {t}, msgs := msgs)).Inv()
  {
    RemoveOne(s.wokenSenders, t);
    QueuedLater(s.senders, s.tickets, s.wokenSenders, t);
    if s.receivers != [] {
      DequeueQueued(s.receivers, s.tickets, s.wokenReceivers);
    }
  }

  lemma GetKeeps(s: State, t: int)
    requires s.Inv() && s.msgs != []
    ensures WakeSender(s.(wokenReceivers := s.wokenReceivers - {t}, msgs := s.msgs[1..])).Inv()
  {
    RemoveOne(s.wokenReceivers, t);
    QueuedLater(s.receivers, s.tickets, s.wokenReceivers, t);
    if s.senders != [] {
      DequeueQueued(s.senders, s.tickets, s.wokenSenders);
    }
  }

  lemma SendKeeps(s: State, t: int, prio: int, v: int, time: int)
    requires s.Inv() && Allowed(s, DoSend(t, prio, v, time))
    ensures Send(s, t, prio, v, time).0.Inv()
  {
    if |s.msgs| == s.size {
      QueuedLater(s.receivers, s.tickets, s.wokenReceivers, t);
      QueuedLater(s.senders, s.tickets, s.wokenSenders, t);
      EnqueueQueued(s.senders, s.flag, s.tickets, s.wokenSenders, t, prio);
    } else {
      PutKeeps(s, s.msgs + [v], t);
    }
  }

  lemma RecvKeeps(s: State, t: int, prio: int, time: int)
    requires s.Inv() && Allowed(s, DoRecv(t, prio, time))
    ensures Recv(s, t, prio, time).0.Inv()
  {
    if s.msgs == [] {
      QueuedLater(s.senders, s.tickets, s.wokenSenders, t);
      QueuedLater(s.receivers, s.tickets, s.wokenReceivers, t);
      EnqueueQueued(s.receivers, s.flag, s.tickets, s.wokenReceivers, t, prio);
    } else {
      GetKeeps(s, t);
    }
  }

  lemma StepKeeps(s: State, op: Op)
    requires s.Inv() && Allowed(s, op)
    ensures Step(s, op).Inv()
  {
    match op
    case DoSend(t, p, v, time) => SendKeeps(s, t, p, v, time);
    case DoUrgent(v) =>
      if |s.msgs| < s.size {
        UrgentKeeps(s, v);
      }
    case DoRecv(t, p, time) => RecvKeeps(s, t, p, time);
    case DoExpire(t) =>
      WithoutQueued(s.receivers, s.tickets, s.wokenReceivers, t);
      WithoutQueued(s.senders, s.tickets, s.wokenSenders, t);
    case DoPriority(t, p) =>
      ReprioQueued(s.receivers, s.tickets, s.wokenReceivers, t, p);
      ReprioQueued(s.senders, s.tickets, s.wokenSenders, t, p);
    case DoReset =>
  }

  lemma UrgentKeeps(s: State, v: int)
    requires s.Inv() && |s.msgs| < s.size
    ensures Urgent(s, v).0.Inv()
  {
    if s.receivers != [] {
      DequeueQueued(s.receivers, s.tickets, s.wokenReceivers);
    }
  }

  ghost predicate InOrder(s: State) {
    Ordered(s.receivers, s.flag) && Ordered(s.senders, s.flag)
  }

  /** A change of priority suits the place where the thread stands. */
  ghost predicate KeepsPlace(s: State, op: Op) {
    op.DoPriority? ==> InPlace(s.receivers, op.thread, op.prio, s.flag) && InPlace(s.senders, op.thread, op.prio, s.flag)
  }

  /** Both lists stay in serving order through every step but a change of priority, and through that
      exactly when it suits the neighbours. */
  lemma StepOrder(s: State, op: Op)
    requires s.Inv() && Allowed(s, op) && InOrder(s)
    ensures InOrder(Step(s, op)) <==> KeepsPlace(s, op)
  {
    match op
    case DoSend(t, p, v, time) => EnqueueKeepsOrder(s.senders, Waiter(t, p, s.tickets), s.flag);
    case DoRecv(t, p, time) => EnqueueKeepsOrder(s.receivers, Waiter(t, p, s.tickets), s.flag);
    case DoExpire(t) =>
      WithoutKeepsOrder(s.receivers, t, s.flag);
      WithoutKeepsOrder(s.senders, t, s.flag);
    case DoPriority(t, p) =>
      ReprioOrder(s.receivers, t, p, s.flag);
      ReprioOrder(s.senders, t, p, s.flag);
    case _ =>
  }

  ghost predicate OrderedThroughout(s: State, ops: seq<Op>)
    decreases |ops|
  {
    InOrder(s) && (ops != [] ==> OrderedThroughout(Step(s, ops[0]), ops[1..]))
  }

  ghost predicate PlacesKept(s: State, ops: seq<Op>)
    decreases |ops|
  {
    ops != [] ==> KeepsPlace(s, ops[0]) && PlacesKept(Step(s, ops[0]), ops[1..])
  }

  /** Over every run both lists are in serving order in all states exactly when every change of
      priority suits the place of its thread at that moment. */
  lemma {:induction false} RunOrder(s: State, ops: seq<Op>)
    requires s.Inv() && AllowedRun(s, ops) && InOrder(s)
    ensures OrderedThroughout(s, ops) <==> PlacesKept(s, ops)
    decreases |ops|
  {
    if ops != [] {
      StepOrder(s, ops[0]);
      StepKeeps(s, ops[0]);
      if InOrder(Step(s, ops[0])) {
        RunOrder(Step(s, ops[0]), ops[1..]);
      }
    }
  }

  /** No run of sends, urgent sends, receives, timeouts, changes of priority and resets, interleaved
      in any way, loses a wakeup or exceeds the size. */
  lemma {:induction false} RunKeeps(s: State, ops: seq<Op>)
    requires s.Inv() && AllowedRun(s, ops)
    ensures Run(s, ops).Inv()
    decreases |ops|
  {
    if ops != [] {
      StepKeeps(s, ops[0]);
      RunKeeps(Step(s, ops[0]), ops[1..]);
    }
  }

  // ----- the order of the mails -----

  /** What the callers of a run have seen: the urgent mails in the box, newest first, and the plain
      ones, oldest first; the plain mails that have been sent and not been dropped by a reset, and the
      values that receivers were given of those. */
  datatype Ledger = Ledger(urgent: seq<int>, plain: seq<int>, sent: seq<int>, received: seq<int>)

  function Answer(s: State, op: Op): Outcome {
    match op
    case DoSend(t, p, v, time) => Send(s, t, p, v, time).1
    case DoUrgent(v) => Urgent(s, v).1
    case DoRecv(t, p, time) => Recv(s, t, p, time).1
    case _ => Ok
  }

  /** One call entered into the ledger, from its arguments and its answer alone. */
  function Record(l: Ledger, op: Op, answer: Outcome): Ledger {
    match op
    case DoSend(_, _, v, _) => if answer == Ok then l.(plain := l.plain + [v], sent := l.sent + [v]) else l
    case DoUrgent(v) => if answer == Ok then l.(urgent := [v] + l.urgent) else l
    case DoRecv(_, _, _) =>
      if !answer.Received? then l
      else if l.urgent != [] then l.(urgent := l.urgent[1..])
      else if l.plain != [] then l.(plain := l.plain[1..], received := l.received + [answer.value])
      else l
    case DoReset => Ledger([], [], l.received, l.received)
    case _ => l
  }

  function Account(l: Ledger, s: State, ops: seq<Op>): Ledger
    decreases |ops|
  {
    if ops == [] then l else Account(Record(l, ops[0], Answer(s, ops[0])), Step(s, ops[0]), ops[1..])
  }

  predicate Balanced(l: Ledger, s: State) {
    s.msgs == l.urgent + l.plain && l.received + l.plain == l.sent
  }

  lemma StepBalanced(l: Ledger, s: State, op: Op)
    requires Balanced(l, s)
    ensures Balanced(Record(l, op, Answer(s, op)), Step(s, op))
  {
    match op
    case DoSend(t, p, v, time) => SendBalanced(l, s, t, p, v, time);
    case DoUrgent(v) => assert [v] + (l.urgent + l.plain) == ([v] + l.urgent) + l.plain;
    case DoRecv(t, p, time) => RecvBalanced(l, s, t, p, time);
    case DoReset => assert l.received + [] == l.received;
    case _ =>
  }

  lemma SendBalanced(l: Ledger, s: State, t: int, p: int, v: int, time: int)
    requires Balanced(l, s)
    ensures Balanced(Record(l, DoSend(t, p, v, time), Send(s, t, p, v, time).1), Send(s, t, p, v, time).0)
  {
    assert (l.urgent + l.plain) + [v] == l.urgent + (l.plain + [v]);
    assert (l.received + l.plain) + [v] == l.received + (l.plain + [v]);
  }

  /** A receiver is given the last urgent mail, and without one the oldest plain mail. */
  lemma RecvBalanced(l: Ledger, s: State, t: int, p: int, time: int)
    requires Balanced(l, s)
    ensures Balanced(Record(l, DoRecv(t, p, time), Recv(s, t, p, time).1), Recv(s, t, p, time).0)
    ensures Recv(s, t, p, time).1.Received? <==> l.urgent != [] || l.plain != []
    ensures Recv(s, t, p, time).1.Received? ==>
      Recv(s, t, p, time).1.value == if l.urgent != [] then l.urgent[0] else l.plain[0]
  {
    if l.urgent != [] {
      assert (l.urgent + l.plain)[1..] == l.urgent[1..] + l.plain;
    } else if l.plain != [] {
      PlainTaken(l);
    }
  }

  lemma PlainTaken(l: Ledger)
    requires l.urgent == [] && l.plain != []
    ensures l.urgent + l.plain == l.plain && (l.urgent + l.plain)[1..] == l.urgent + l.plain[1..]
    ensures (l.received + [l.plain[0]]) + l.plain[1..] == l.received + l.plain
  {
  }

  /** Over every run, urgent mails and resets included: the urgent mails stand in front of the plain
      ones, the last one first, and plain mails are first in, first out: the values received, followed
      by those in the box, are those sent, in order. */
  lemma {:induction false} RunIsFifo(l: Ledger, s: State, ops: seq<Op>)
    requires Balanced(l, s)
    ensures Balanced(Account(l, s, ops), Run(s, ops))
    decreases |ops|
  {
    if ops != [] {
      StepBalanced(l, s, ops[0]);
      RunIsFifo(Record(l, ops[0], Answer(s, ops[0])), Step(s, ops[0]), ops[1..]);
    }
  }
}

/** The mailbox object: a ring buffer that represents the deque. */
module Mailbox {
  import opened RtDef
  import opened WaitList
  import opened Spec = MailboxSpec

  /** (out + i) mod size, for out below size and i up to size. */
  function Slot(out: int, i: int, size: int): int {
    if out + i < size then out + i else out + i - size
  }

  lemma SlotIsModulo(out: int, i: int, size: int)
    requires 0 <= out < size && 0 <= i <= size
    ensures Slot(out, i, size) == (out + i) % size
  {
    if out + i >= size {
      var r := out + i - size;
      if r < size {
        ModOnce(out + i, size, 1, r);
      } else {
        ModOnce(out + i, size, 2, 0);
      }
    } else {
      ModOnce(out + i, size, 0, out + i);
    }
  }

  lemma ModOnce(x: int, m: int, k: int, r: int)
    requires 0 <= r < m && 0 <= k <= 2 && x == (if k == 0 then r else if k == 1 then m + r else m + m + r)
    ensures x % m == r
  {
  }

  /** The messages in the ring, oldest first. */
  function Stored(pool: seq<int>, out: int, entry: int, size: int): (msgs: seq<int>)
    requires 0 <= entry <= size == |pool| && (0 < size ==> 0 <= out < size)
    ensures |msgs| == entry && forall i :: 0 <= i < entry ==> msgs[i] == pool[Slot(out, i, size)]
  {
    seq(entry, i requires 0 <= i < entry => pool[Slot(out, i, size)])
  }

  /** `if(entry < MAX) entry++; else return -RT_EFULL` */
  method Increase(entry: int, max: int) returns (ok: bool, e: int)
    ensures ok <==> entry < max
    ensures e == if ok then entry + 1 else entry
  {
    ok := entry < max;
    e := if ok then entry + 1 else entry;
  }

  class Box {
    const msgPool: array<int>
    const size: int
    const flag: Flag
    var entry: int
    var inOffset: int
    var outOffset: int
    var receivers: seq<Waiter>
    var senders: seq<Waiter>
    /** Model only: who has been resumed, and the number of suspensions. */
    var wokenReceivers: set<int>
    var wokenSenders: set<int>
    var tickets: int

    /** The offsets delimit the stored messages: in == (out + entry) mod size. */
    ghost predicate Shape()
      reads this, msgPool
    {
      && 0 <= entry <= size == msgPool.Length && size <= RT_UINT16_MAX
      && (if size == 0 then inOffset == outOffset == 0 else 0 <= outOffset < size && inOffset == Slot(outOffset, entry, size))
    }

    ghost function Contents(): State
      requires Shape()
      reads this, msgPool
    {
      State(size, Stored(msgPool[..], outOffset, entry, size), receivers, senders, flag,
            wokenReceivers, wokenSenders, tickets)
    }

    ghost predicate Valid()
      reads this, msgPool
    {
      Shape() && Contents().Inv()
    }

    /** rt_mb_init; the 16-bit `size` field holds the number of slots modulo 65536. */
    constructor (slots: USize, flag: Flag)
      ensures Valid() && fresh(msgPool) && size == slots % 0x10000
      ensures Contents() == State(size, [], [], [], flag, {}, {}, 0)
    {
      size := slots % 0x10000;
      msgPool := new int[slots % 0x10000];
      this.flag := flag;
      entry, inOffset, outOffset := 0, 0, 0;
      receivers, senders, wokenReceivers, wokenSenders, tickets := [], [], {}, {}, 0;
    }

    /** Writing at `in` appends; the entry counter cannot overflow. */
    method PushBack(value: int)
      requires Shape() && entry < size
      modifies msgPool, this`inOffset, this`entry
      ensures Shape() && Stored(msgPool[..], outOffset, entry, size) == old(Stored(msgPool[..], outOffset, entry, size)) + [value]
    {
      msgPool[inOffset] := value;
      inOffset := inOffset + 1;
      if inOffset >= size {
        inOffset := 0;
      }
      var ok, e := Increase(entry, RT_UINT16_MAX);
      assert ok;
      entry := e;
    }

    /** Rewinding `out` and writing there prepends. */
    method PushFront(value: int)
      requires Shape() && entry < size
      modifies msgPool, this`outOffset, this`entry
      ensures Shape() && Stored(msgPool[..], outOffset, entry, size) == [value] + old(Stored(msgPool[..], outOffset, entry, size))
    {
      if outOffset > 0 {
        outOffset := outOffset - 1;
      } else {
        outOffset := size - 1;
      }
      msgPool[outOffset] := value;
      entry := entry + 1;
    }

    method PopFront() returns (value: int)
      requires Shape() && 0 < entry
      modifies this`outOffset, this`entry
      ensures Shape() && [value] + Stored(msgPool[..], outOffset, entry, size) == old(Stored(msgPool[..], outOffset, entry, size))
    {
      value := msgPool[outOffset];
      outOffset := outOffset + 1;
      if outOffset >= size {
        outOffset := 0;
      }
      entry := entry - 1;
    }

    /** _ipc_list_resume on the receivers, when there is one. */
    method ResumeReceiver()
      modifies this`receivers, this`wokenReceivers
      ensures receivers == (if old(receivers) == [] then [] else old(receivers)[1..])
      ensures wokenReceivers == (if old(receivers) == [] then old(wokenReceivers) else old(wokenReceivers) + {old(receivers)[0].thread})
    {
      if receivers != [] {
        wokenReceivers := wokenReceivers + {receivers[0].thread};
        receivers := receivers[1..];
      }
    }

    method ResumeSender()
      modifies this`senders, this`wokenSenders
      ensures senders == (if old(senders) == [] then [] else old(senders)[1..])
      ensures wokenSenders == (if old(senders) == [] then old(wokenSenders) else old(wokenSenders) + {old(senders)[0].thread})
    {
      if senders != [] {
        wokenSenders := wokenSenders + {senders[0].thread};
        senders := senders[1..];
      }
    }

    /** The caller joins the suspended senders. */
    method BlockSender(thread: int, prio: int)
      requires Shape()
      modifies this`senders, this`tickets
      ensures Shape() && Contents() == old(Contents()).(tickets := old(tickets) + 1,
        senders := Enqueue(old(senders), Waiter(thread, prio, old(tickets)), flag))
    {
      senders := Suspend(senders, Waiter(thread, prio, tickets), flag);
      tickets := tickets + 1;
    }

    method BlockReceiver(thread: int, prio: int)
      requires Shape()
      modifies this`receivers, this`tickets
      ensures Shape() && Contents() == old(Contents()).(tickets := old(tickets) + 1,
        receivers := Enqueue(old(receivers), Waiter(thread, prio, old(tickets)), flag))
    {
      receivers := Suspend(receivers, Waiter(thread, prio, tickets), flag);
      tickets := tickets + 1;
    }

    /** The message is stored and a receiver resumed. */
    method Put(value: int)
      requires Shape() && entry < size
      modifies this, msgPool
      ensures Shape()
      ensures Contents() == WakeReceiver(old(Contents()).(msgs := old(Contents()).msgs + [value]))
    {
      PushBack(value);
      ResumeReceiver();
    }

    /** The oldest message is fetched and a sender resumed. */
    method Get() returns (value: int)
      requires Shape() && 0 < entry
      modifies this
      ensures Shape() && value == old(Contents()).msgs[0]
      ensures Contents() == WakeSender(old(Contents()).(msgs := old(Contents()).msgs[1..]))
    {
      ghost var msgs := Contents().msgs;
      value := PopFront();
      assert value == msgs[0] && Contents().msgs == msgs[1..] by {
        assert [value] + Contents().msgs == msgs;
      }
      ResumeSender();
    }

    /** rt_mb_send_wait: one pass of its loop, from entry or after a resume. */
    method Send(thread: int, prio: int, value: int, time: int) returns (r: Outcome)
      requires Valid() && Allowed(Contents(), DoSend(thread, prio, value, time))
      modifies this, msgPool
      ensures Valid() && (Contents(), r) == Spec.Send(old(Contents()), thread, prio, value, time)
    {
      SendKeeps(Contents(), thread, prio, value, time);
      wokenSenders := wokenSenders - {thread};
      if entry == size {
        if time == 0 {
          return Full;
        }
        BlockSender(thread, prio);
        return Blocked;
      }
      Put(value);
      return Ok;
    }

    /** rt_mb_urgent */
    method Urgent(value: int) returns (r: Outcome)
      requires Valid()
      modifies this, msgPool
      ensures Valid() && (Contents(), r) == Spec.Urgent(old(Contents()), value)
    {
      if entry == size {
        return Full;
      }
      UrgentKeeps(Contents(), value);
      PushFront(value);
      ResumeReceiver();
      return Ok;
    }

    /** rt_mb_recv: one pass of its loop, from entry or after a resume. */
    method Recv(thread: int, prio: int, time: int) returns (r: Outcome)
      requires Valid() && Allowed(Contents(), DoRecv(thread, prio, time))
      modifies this
      ensures Valid() && (Contents(), r) == Spec.Recv(old(Contents()), thread, prio, time)
    {
      RecvKeeps(Contents(), thread, prio, time);
      r := RecvPass(thread, prio, time);
    }

    method RecvPass(thread: int, prio: int, time: int) returns (r: Outcome)
      requires Shape()
      modifies this
      ensures Shape() && (Contents(), r) == Spec.Recv(old(Contents()), thread, prio, time)
    {
      wokenReceivers := wokenReceivers - {thread};
      if entry == 0 {
        if time == 0 {
          return Timeout;
        }
        BlockReceiver(thread, prio);
        return Blocked;
      }
      var value := Get();
      return Received(value);
    }

    /** rt_mb_control(RT_IPC_CMD_RESET) */
    method Reset()
      requires Valid()
      modifies this
      ensures Valid() && Contents() == Spec.Reset(old(Contents()))
    {
      var resumed;
      receivers, resumed := ResumeAll(receivers);
      senders, resumed := ResumeAll(senders);
      entry, inOffset, outOffset := 0, 0, 0;
    }
  }
}
