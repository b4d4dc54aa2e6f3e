/** Message queues (ipc.c): rt_mq_send_wait, rt_mq_urgent, rt_mq_recv and rt_mq_control, as steps
    that may interleave in any way. The interrupt lock is released while a message is copied, so a
    call takes a node, copies byte by byte, and then links the node or gives it back. */
module MessageQueueSpec {
  import opened RtDef
  import opened Sequences
  import opened WaitList

  /** A node between two locked regions of a call. A sender has copied `done` bytes; -1 means that
      `msg->next = NULL` is still to come. `msg` is model only: the message the node holds. */
  datatype Hand =
    | Sending(node: int, data: seq<int>, urgent: bool, done: int)
    | Receiving(node: int, msg: seq<int>, want: int, got: seq<int>)

  /** `queue` lists the linked nodes from head to tail and `msgs` the messages they were linked
      with; `mem` is the payload memory of each node. */
  datatype State = State(maxMsgs: int, msgSize: int, free: seq<int>, queue: seq<int>, msgs: seq<seq<int>>,
                         mem: map<int, seq<int>>, hands: map<int, Hand>,
                         receivers: seq<Waiter>, senders: seq<Waiter>, flag: Flag,
                         wokenReceivers: set<int>, wokenSenders: set<int>, tickets: int)
  {
    ghost predicate Inv() {
      && 0 <= maxMsgs <= RT_UINT16_MAX && 0 <= msgSize
      && Partition(maxMsgs, free, queue, hands)
      && Stored(maxMsgs, msgSize, queue, msgs, mem) && Copies(maxMsgs, hands, mem)
      && Queued(receivers, tickets, wokenReceivers) && Queued(senders, tickets, wokenSenders)
      && NoLostWakeup(receivers, wokenReceivers, |queue|) && NoLostWakeup(senders, wokenSenders, |free|)
    }
  }

  /** As long as threads wait, no more items are available than threads are already on their way. */
  predicate NoLostWakeup(ws: seq<Waiter>, woken: set<int>, items: int) {
    ws != [] ==> items <= |woken|
  }

  /** Thread t has node n in its hands. */
  predicate InHands(hands: map<int, Hand>, t: int, n: int) {
    t in hands && hands[t].node == n
  }

  /** Every node is in exactly one place: the free list, the queue, or one thread's hands. */
  ghost predicate Partition(maxMsgs: int, free: seq<int>, queue: seq<int>, hands: map<int, Hand>) {
    && Distinct(free) && Distinct(queue) && Disjoint(free, queue)
    && (forall n :: n in free ==> 0 <= n < maxMsgs) && (forall n :: n in queue ==> 0 <= n < maxMsgs)
    && (forall t :: t in hands ==> 0 <= hands[t].node < maxMsgs && hands[t].node !in free && hands[t].node !in queue)
    && (forall t, u :: t in hands && u in hands && hands[t].node == hands[u].node ==> t == u)
    && (forall n :: 0 <= n < maxMsgs ==> n in free || n in queue || exists t :: InHands(hands, t, n))
  }

  /** Linked nodes hold their messages. */
  ghost predicate Stored(maxMsgs: int, msgSize: int, queue: seq<int>, msgs: seq<seq<int>>, mem: map<int, seq<int>>) {
    && (forall n :: 0 <= n < maxMsgs ==> n in mem && |mem[n]| == msgSize)
    && |msgs| == |queue| && (forall i :: 0 <= i < |queue| ==> queue[i] in mem && msgs[i] <= mem[queue[i]])
  }

  /** Copies are true as far as they have come. */
  ghost predicate Copies(maxMsgs: int, hands: map<int, Hand>, mem: map<int, seq<int>>) {
    forall t :: t in hands ==> hands[t].node in mem && HandOk(hands[t], mem[hands[t].node])
  }

  predicate Disjoint(xs: seq<int>, ys: seq<int>) {
    forall x :: x in xs ==> x !in ys
  }

  predicate HandOk(h: Hand, bytes: seq<int>) {
    match h
    case Sending(_, data, urgent, done) =>
      -1 <= done <= |data| <= |bytes| && (urgent ==> 0 <= done) && (0 <= done ==> data[..done] <= bytes)
    case Receiving(_, msg, want, got) =>
      msg <= bytes && |got| <= want <= |bytes| && got <= bytes
  }

  datatype Outcome = Ok | Error | Full | Timeout | Blocked | Taken(node: int) | Received(bytes: seq<int>)

  function WakeReceiver(s: State): State {
    if s.receivers == [] then s
    else s.(receivers := s.receivers[1..], wokenReceivers := s.wokenReceivers + {s.receivers[0].thread})
  }

  function WakeSender(s: State): State {
    if s.senders == [] then s
    else s.(senders := s.senders[1..], wokenSenders := s.wokenSenders + {s.senders[0].thread})
  }

  function TakeNode(s: State, t: int, data: seq<int>, urgent: bool): State
    requires s.free != []
  {
    s.(free := s.free[1..], hands := s.hands[t := Sending(s.free[0], data, urgent, if urgent then 0 else -1)])
  }

  /** rt_mq_send_wait up to the copy, from entry or from the point where the thread was resumed. */
  function Send(s: State, t: int, prio: int, data: seq<int>, time: int): (State, Outcome) {
    if |data| > s.msgSize then (s, Error)
    else
      var s := s.(wokenSenders := s.wokenSenders - {t});
      if s.free == [] then
        if time == 0 then (s, Full)
        else (s.(senders := Enqueue(s.senders, Waiter(t, prio, s.tickets), s.flag), tickets := s.tickets + 1), Blocked)
      else (TakeNode(s, t, data, false), Taken(s.free[0]))
  }

  function Urgent(s: State, t: int, data: seq<int>): (State, Outcome) {
    if |data| > s.msgSize then (s, Error)
    else if s.free == [] then (s, Full)
    else (TakeNode(s, t, data, true), Taken(s.free[0]))
  }

  /** One byte of the sender's copy, outside the lock; the first step is `msg->next = NULL`. */
  function CopyIn(s: State, t: int): State
    requires t in s.hands && s.hands[t].Sending? && s.hands[t].done < |s.hands[t].data|
    requires 0 <= s.hands[t].done ==> s.hands[t].node in s.mem && s.hands[t].done < |s.mem[s.hands[t].node]|
  {
    var h := s.hands[t];
    var s := s.(hands := s.hands[t := h.(done := h.done + 1)]);
    if h.done < 0 then s else s.(mem := s.mem[h.node := s.mem[h.node][h.done := h.data[h.done]]])
  }

  /** The second locked region of a send: the node enters the queue and a receiver is resumed. */
  function Link(s: State, t: int): State
    requires t in s.hands && s.hands[t].Sending?
  {
    var h := s.hands[t];
    var s := s.(hands := s.hands - {t});
    WakeReceiver(if h.urgent then s.(queue := [h.node] + s.queue, msgs := [h.data] + s.msgs)
                 else s.(queue := s.queue + [h.node], msgs := s.msgs + [h.data]))
  }

  /** rt_mq_recv up to the copy, for a buffer of `size` bytes. */
  function Recv(s: State, t: int, prio: int, size: nat, time: int): (State, Outcome) {
    var s := s.(wokenReceivers := s.wokenReceivers - {t});
    if s.queue == [] then
      if time == 0 then (s, Timeout)
      else (s.(receivers := Enqueue(s.receivers, Waiter(t, prio, s.tickets), s.flag), tickets := s.tickets + 1), Blocked)
    else if s.msgs == [] then (s, Error)
    else
      var want := Min(size, s.msgSize);
      (s.(queue := s.queue[1..], msgs := s.msgs[1..],
          hands := s.hands[t := Receiving(s.queue[0], s.msgs[0], want, [])]), Taken(s.queue[0]))
  }

  /** One byte of the receiver's copy, outside the lock. */
  function CopyOut(s: State, t: int): State
    requires t in s.hands && s.hands[t].Receiving?
    requires s.hands[t].node in s.mem && |s.hands[t].got| < |s.mem[s.hands[t].node]|
  {
    var h := s.hands[t];
    s.(hands := s.hands[t := h.(got := h.got + [s.mem[h.node][|h.got|]])])
  }

  /** The second locked region of a receive: the node becomes free and a sender is resumed. */
  function GiveBack(s: State, t: int): (State, Outcome)
    requires t in s.hands && s.hands[t].Receiving?
  {
    var h := s.hands[t];
    (WakeSender(s.(hands := s.hands - {t}, free := [h.node] + s.free)), Received(h.got))
  }

  function Expire(s: State, t: int): State {
    s.(receivers := Without(s.receivers, t), senders := Without(s.senders, t))
  }

  function Reverse(xs: seq<int>): seq<int> {
    if xs == [] then [] else Reverse(xs[1..]) + [xs[0]]
  }

  /** RT_IPC_CMD_RESET: all waiters return with an error; the queued nodes become free one by one. */
  function Reset(s: State): State {
    s.(receivers := [], senders := [], queue := [], msgs := [], free := Reverse(s.queue) + s.free)
  }

  datatype Op =
    | DoSend(t: int, prio: int, data: seq<int>, time: int)
    | DoUrgent(t: int, data: seq<int>)
    | DoCopyIn(t: int)
    | DoLink(t: int)
    | DoRecv(t: int, prio: int, size: nat, time: int)
    | DoCopyOut(t: int)
    | DoGiveBack(t: int)
    | DoExpire(t: int)
    | DoPriority(t: int, prio: int)
    | DoReset

  /** Each thread runs its calls one after the other, and only while it is not suspended. */
  predicate Allowed(s: State, op: Op) {
    match op
    case DoSend(t, _, _, _) => Free(s, t) && t !in s.wokenReceivers
    case DoUrgent(t, _) => Free(s, t) && t !in s.wokenReceivers && t !in s.wokenSenders
    case DoCopyIn(t) => t in s.hands && s.hands[t].Sending? && s.hands[t].done < |s.hands[t].data|
    case DoLink(t) => t in s.hands && s.hands[t].Sending? && s.hands[t].done == |s.hands[t].data|
    case DoRecv(t, _, _, _) => Free(s, t) && t !in s.wokenSenders
    case DoCopyOut(t) => t in s.hands && s.hands[t].Receiving? && |s.hands[t].got| < s.hands[t].want
    case DoGiveBack(t) => t in s.hands && s.hands[t].Receiving? && |s.hands[t].got| == s.hands[t].want
    case _ => true
  }

  predicate Free(s: State, t: int) {
    t !in s.hands && !Waits(s.receivers, t) && !Waits(s.senders, t)
  }

  function Step(s: State, op: Op): State
    requires s.Inv() && Allowed(s, op)
  {
    match op
    case DoSend(t, p, data, time) => Send(s, t, p, data, time).0
    case DoUrgent(t, data) => Urgent(s, t, data).0
    case DoCopyIn(t) => CopyIn(s, t)
    case DoLink(t) => Link(s, t)
    case DoRecv(t, p, size, time) => Recv(s, t, p, size, time).0
    case DoCopyOut(t) => CopyOut(s, t)
    case DoGiveBack(t) => GiveBack(s, t).0
    case DoExpire(t) => Expire(s, t)
    case DoPriority(t, p) => s.(receivers := Reprio(s.receivers, t, p), senders := Reprio(s.senders, t, p))
    case DoReset => Reset(s)
  }
}

/** What every interleaving keeps. */
module MessageQueueLaws {
  import opened RtDef
  import opened Sequences
  import opened WaitList
  import opened MessageQueueSpec

  lemma TakeNodeKeeps(s: State, t: int, data: seq<int>, urgent: bool)
    requires Partition(s.maxMsgs, s.free, s.queue, s.hands) && Stored(s.maxMsgs, s.msgSize, s.queue, s.msgs, s.mem)
    requires Copies(s.maxMsgs, s.hands, s.mem) && s.free != [] && t !in s.hands && |data| <= s.msgSize
    ensures var s' := TakeNode(s, t, data, urgent);
      Partition(s'.maxMsgs, s'.free, s'.queue, s'.hands) && Copies(s'.maxMsgs, s'.hands, s'.mem)
  {
    var s' := TakeNode(s, t, data, urgent);
    assert s.free[0] in s.free;
    assert Partition(s'.maxMsgs, s'.free, s'.queue, s'.hands) by { HandOut(s, s', t); }
  }

  /** The first free node goes into the hands of t. */
  lemma HandOut(s: State, s': State, t: int)
    requires Partition(s.maxMsgs, s.free, s.queue, s.hands) && s.free != [] && t !in s.hands
    requires t in s'.hands && s'.hands == s.hands[t := s'.hands[t]] && s'.hands[t].node == s.free[0]
    ensures Partition(s.maxMsgs, s.free[1..], s.queue, s'.hands)
  {
    var n := s.free[0];
    assert n in s.free && n !in s.free[1..];
    assert forall m :: m in s.free <==> m == n || m in s.free[1..];
    forall m | 0 <= m < s.maxMsgs ensures m in s.free[1..] || m in s.queue || exists u :: InHands(s'.hands, u, m) {
      if m == n {
        assert InHands(s'.hands, t, m);
      } else if m !in s.free && m !in s.queue {
        var u :| InHands(s.hands, u, m);
        assert InHands(s'.hands, u, m);
      }
    }
  }

  lemma SendKeeps(s: State, t: int, prio: int, data: seq<int>, time: int)
    requires s.Inv() && Allowed(s, DoSend(t, prio, data, time))
    ensures Send(s, t, prio, data, time).0.Inv()
  {
    QueuedLater(s.receivers, s.tickets, s.wokenReceivers, t);
    QueuedLater(s.senders, s.tickets, s.wokenSenders, t);
    if s.free == [] {
      EnqueueQueued(s.senders, s.flag, s.tickets, s.wokenSenders, t, prio);
    } else if |data| <= s.msgSize {
      RemoveOne(s.wokenSenders, t);
      TakeNodeInv(s.(wokenSenders := s.wokenSenders - {t}), t, data, false);
    }
  }

  lemma TakeNodeInv(s: State, t: int, data: seq<int>, urgent: bool)
    requires 0 <= s.maxMsgs <= RT_UINT16_MAX && Partition(s.maxMsgs, s.free, s.queue, s.hands)
    requires Stored(s.maxMsgs, s.msgSize, s.queue, s.msgs, s.mem) && Copies(s.maxMsgs, s.hands, s.mem)
    requires Queued(s.receivers, s.tickets, s.wokenReceivers) && Queued(s.senders, s.tickets, s.wokenSenders)
    requires NoLostWakeup(s.receivers, s.wokenReceivers, |s.queue|) && NoLostWakeup(s.senders, s.wokenSenders, |s.free| - 1)
    requires s.free != [] && t !in s.hands && |data| <= s.msgSize
    ensures TakeNode(s, t, data, urgent).Inv()
  {
    TakeNodeKeeps(s, t, data, urgent);
  }

  lemma UrgentKeeps(s: State, t: int, data: seq<int>)
    requires s.Inv() && Allowed(s, DoUrgent(t, data))
    ensures Urgent(s, t, data).0.Inv()
  {
    if |data| <= s.msgSize && s.free != [] {
      TakeNodeKeeps(s, t, data, true);
    }
  }

  /** A byte goes into a node nobody else can reach: no linked message and no other copy changes. */
  lemma CopyInKeeps(s: State, t: int)
    requires s.Inv() && Allowed(s, DoCopyIn(t))
    ensures CopyIn(s, t).Inv()
  {
    var s' := CopyIn(s, t);
    assert Partition(s'.maxMsgs, s'.free, s'.queue, s'.hands) by { PartitionSameNodes(s, s', t); }
    assert Copies(s'.maxMsgs, s'.hands, s'.mem) by { CopyInCopies(s, t); }
    assert Stored(s'.maxMsgs, s'.msgSize, s'.queue, s'.msgs, s'.mem) by { CopyInStored(s, t); }
  }

  lemma CopyInCopies(s: State, t: int)
    requires s.Inv() && Allowed(s, DoCopyIn(t))
    ensures Copies(s.maxMsgs, CopyIn(s, t).hands, CopyIn(s, t).mem)
  {
    var s' := CopyIn(s, t);
    var h := s.hands[t];
    forall u | u in s'.hands ensures s'.hands[u].node in s'.mem && HandOk(s'.hands[u], s'.mem[s'.hands[u].node]) {
      if u == t {
        assert HandOk(h, s.mem[h.node]);
        if 0 <= h.done {
          assert h.data[..h.done + 1] == h.data[..h.done] + [h.data[h.done]];
        }
      } else {
        assert s.hands[u].node != h.node;
      }
    }
  }

  lemma CopyInStored(s: State, t: int)
    requires s.Inv() && Allowed(s, DoCopyIn(t))
    ensures Stored(s.maxMsgs, s.msgSize, s.queue, s.msgs, CopyIn(s, t).mem)
  {
    forall i | 0 <= i < |s.queue| ensures s.queue[i] in CopyIn(s, t).mem && s.msgs[i] <= CopyIn(s, t).mem[s.queue[i]] {
      assert s.queue[i] in s.queue && s.queue[i] != s.hands[t].node;
    }
  }

  lemma PartitionSameNodes(s: State, s': State, t: int)
    requires Partition(s.maxMsgs, s.free, s.queue, s.hands) && t in s.hands
    requires s'.hands.Keys == s.hands.Keys && forall u :: u in s.hands ==> s'.hands[u].node == s.hands[u].node
    ensures Partition(s.maxMsgs, s.free, s.queue, s'.hands)
  {
    forall m | 0 <= m < s.maxMsgs && m !in s.free && m !in s.queue ensures exists u :: InHands(s'.hands, u, m) {
      var u :| InHands(s.hands, u, m);
      assert InHands(s'.hands, u, m);
    }
  }

  lemma CopyOutKeeps(s: State, t: int)
    requires s.Inv() && Allowed(s, DoCopyOut(t))
    ensures CopyOut(s, t).Inv()
  {
    var s' := CopyOut(s, t);
    assert Partition(s'.maxMsgs, s'.free, s'.queue, s'.hands) by { PartitionSameNodes(s, s', t); }
    assert Copies(s'.maxMsgs, s'.hands, s'.mem) by { CopyOutCopies(s, t); }
  }

  lemma CopyOutCopies(s: State, t: int)
    requires s.Inv() && Allowed(s, DoCopyOut(t))
    ensures Copies(s.maxMsgs, CopyOut(s, t).hands, s.mem)
  {
    var h := s.hands[t];
    assert HandOk(h, s.mem[h.node]);
    assert HandOk(CopyOut(s, t).hands[t], s.mem[h.node]);
  }

  /** The node that leaves the hands of t goes to one of the two lists. */
  lemma HandOver(s: State, t: int, free: seq<int>, queue: seq<int>)
    requires Partition(s.maxMsgs, s.free, s.queue, s.hands) && t in s.hands
    requires var n := s.hands[t].node;
      || (queue == s.queue && free == [n] + s.free)
      || (free == s.free && (queue == [n] + s.queue || queue == s.queue + [n]))
    ensures Partition(s.maxMsgs, free, queue, s.hands - {t})
  {
    var n := s.hands[t].node;
    assert forall m :: m in free || m in queue <==> m == n || m in s.free || m in s.queue;
    forall m | 0 <= m < s.maxMsgs && m !in free && m !in queue ensures exists u :: InHands(s.hands - {t}, u, m) {
      var u :| InHands(s.hands, u, m);
      assert InHands(s.hands - {t}, u, m);
    }
  }

  lemma WakeReceiverKeeps(s: State)
    requires Partition(s.maxMsgs, s.free, s.queue, s.hands) && 0 <= s.maxMsgs <= RT_UINT16_MAX && 0 <= s.msgSize
    requires Stored(s.maxMsgs, s.msgSize, s.queue, s.msgs, s.mem) && Copies(s.maxMsgs, s.hands, s.mem)
    requires Queued(s.receivers, s.tickets, s.wokenReceivers) && Queued(s.senders, s.tickets, s.wokenSenders)
    requires s.receivers != [] ==> |s.queue| <= |s.wokenReceivers| + 1
    requires NoLostWakeup(s.senders, s.wokenSenders, |s.free|)
    ensures WakeReceiver(s).Inv()
  {
    if s.receivers != [] {
      DequeueQueued(s.receivers, s.tickets, s.wokenReceivers);
    }
  }

  lemma WakeSenderKeeps(s: State)
    requires Partition(s.maxMsgs, s.free, s.queue, s.hands) && 0 <= s.maxMsgs <= RT_UINT16_MAX && 0 <= s.msgSize
    requires Stored(s.maxMsgs, s.msgSize, s.queue, s.msgs, s.mem) && Copies(s.maxMsgs, s.hands, s.mem)
    requires Queued(s.receivers, s.tickets, s.wokenReceivers) && Queued(s.senders, s.tickets, s.wokenSenders)
    requires s.senders != [] ==> |s.free| <= |s.wokenSenders| + 1
    requires NoLostWakeup(s.receivers, s.wokenReceivers, |s.queue|)
    ensures WakeSender(s).Inv()
  {
    if s.senders != [] {
      DequeueQueued(s.senders, s.tickets, s.wokenSenders);
    }
  }

  lemma LinkKeeps(s: State, t: int)
    requires s.Inv() && Allowed(s, DoLink(t))
    ensures Link(s, t).Inv()
  {
    var h := s.hands[t];
    assert HandOk(h, s.mem[h.node]) && h.data[..h.done] == h.data;
    HandOver(s, t, s.free, if h.urgent then [h.node] + s.queue else s.queue + [h.node]);
    var s1 := s.(hands := s.hands - {t});
    WakeReceiverKeeps(if h.urgent then s1.(queue := [h.node] + s.queue, msgs := [h.data] + s.msgs)
                      else s1.(queue := s.queue + [h.node], msgs := s.msgs + [h.data]));
  }

  lemma GiveBackKeeps(s: State, t: int)
    requires s.Inv() && Allowed(s, DoGiveBack(t))
    ensures GiveBack(s, t).0.Inv()
  {
    var h := s.hands[t];
    HandOver(s, t, [h.node] + s.free, s.queue);
    WakeSenderKeeps(s.(hands := s.hands - {t}, free := [h.node] + s.free));
  }

  lemma RecvKeeps(s: State, t: int, prio: int, size: nat, time: int)
    requires s.Inv() && Allowed(s, DoRecv(t, prio, size, time))
    ensures Recv(s, t, prio, size, time).0.Inv()
  {
    QueuedLater(s.receivers, s.tickets, s.wokenReceivers, t);
    QueuedLater(s.senders, s.tickets, s.wokenSenders, t);
    if s.queue == [] {
      EnqueueQueued(s.receivers, s.flag, s.tickets, s.wokenReceivers, t, prio);
    } else {
      RemoveOne(s.wokenReceivers, t);
      UnlinkKeeps(s, t, Min(size, s.msgSize));
    }
  }

  lemma UnlinkKeeps(s: State, t: int, want: int)
    requires s.Inv() && s.queue != [] && t !in s.hands && 0 <= want <= s.msgSize
    ensures var hands := s.hands[t := Receiving(s.queue[0], s.msgs[0], want, [])];
      && Partition(s.maxMsgs, s.free, s.queue[1..], hands) && Copies(s.maxMsgs, hands, s.mem)
      && Stored(s.maxMsgs, s.msgSize, s.queue[1..], s.msgs[1..], s.mem)
  {
    var hands := s.hands[t := Receiving(s.queue[0], s.msgs[0], want, [])];
    var n := s.queue[0];
    assert n in s.queue && forall m :: m in s.queue <==> m == n || m in s.queue[1..];
    assert n !in s.queue[1..];
    forall m | 0 <= m < s.maxMsgs && m !in s.free && m !in s.queue[1..] ensures exists u :: InHands(hands, u, m) {
      if m == n {
        assert InHands(hands, t, m);
      } else {
        var u :| InHands(s.hands, u, m);
        assert InHands(hands, u, m);
      }
    }
  }

  lemma {:induction false} ReverseMembers(xs: seq<int>)
    requires Distinct(xs)
    ensures |Reverse(xs)| == |xs| && Distinct(Reverse(xs)) && forall x :: x in Reverse(xs) <==> x in xs
  {
    if xs != [] {
      ReverseMembers(xs[1..]);
      assert forall x :: x in xs <==> x == xs[0] || x in xs[1..];
      assert xs[0] !in xs[1..];
    }
  }

  lemma ResetKeeps(s: State)
    requires s.Inv()
    ensures Reset(s).Inv()
  {
    var r := Reverse(s.queue);
    ReverseMembers(s.queue);
    DistinctAppend(r, s.free);
    assert forall m :: m in r + s.free <==> m in s.queue || m in s.free;
  }

  lemma DistinctAppend(xs: seq<int>, ys: seq<int>)
    requires Distinct(xs) && Distinct(ys) && forall y :: y in ys ==> y !in xs
    ensures Distinct(xs + ys)
  {
    forall i, j | 0 <= i < j < |xs + ys| ensures (xs + ys)[i] != (xs + ys)[j] {
      if i < |xs| <= j {
        assert xs[i] in xs && ys[j - |xs|] in ys;
      }
    }
  }

  lemma StepKeeps(s: State, op: Op)
    requires s.Inv() && Allowed(s, op)
    ensures Step(s, op).Inv()
  {
    match op
    case DoSend(t, p, data, time) => SendKeeps(s, t, p, data, time);
    case DoUrgent(t, data) => UrgentKeeps(s, t, data);
    case DoCopyIn(t) => CopyInKeeps(s, t);
    case DoLink(t) => LinkKeeps(s, t);
    case DoRecv(t, p, size, time) => RecvKeeps(s, t, p, size, time);
    case DoCopyOut(t) => CopyOutKeeps(s, t);
    case DoGiveBack(t) => GiveBackKeeps(s, t);
    case DoExpire(t) =>
      WithoutQueued(s.receivers, s.tickets, s.wokenReceivers, t);
      WithoutQueued(s.senders, s.tickets, s.wokenSenders, t);
    case DoPriority(t, p) =>
      ReprioQueued(s.receivers, s.tickets, s.wokenReceivers, t, p);
      ReprioQueued(s.senders, s.tickets, s.wokenSenders, t, p);
    case DoReset => ResetKeeps(s);
  }

  ghost predicate InOrder(s: State) {
    Ordered(s.receivers, s.flag) && Ordered(s.senders, s.flag)
  }

  /** A change of priority suits the place where the thread stands. */
  ghost predicate KeepsPlace(s: State, op: Op) {
    op.DoPriority? ==> InPlace(s.receivers, op.t, op.prio, s.flag) && InPlace(s.senders, op.t, op.prio, s.flag)
  }

  /** Both lists stay in serving order through every step but a change of priority, and through that
      exactly when it suits the neighbours. */
  lemma StepOrder(s: State, op: Op)
    requires s.Inv() && Allowed(s, op) && InOrder(s)
    ensures InOrder(Step(s, op)) <==> KeepsPlace(s, op)
  {
    if op.DoPriority? {
      ReprioOrder(s.receivers, op.t, op.prio, s.flag);
      ReprioOrder(s.senders, op.t, op.prio, s.flag);
    } else {
      CallOrder(s, op);
    }
  }

  lemma CallOrder(s: State, op: Op)
    requires s.Inv() && Allowed(s, op) && InOrder(s) && !op.DoPriority?
    ensures InOrder(Step(s, op))
  {
    match op
    case DoSend(t, p, data, time) => SendOrder(s, t, p, data, time);
    case DoRecv(t, p, size, time) => RecvOrder(s, t, p, size, time);
    case DoLink(t) =>
      WakeOrder(s);
      assert Link(s, t).receivers == WakeReceiver(s).receivers && Link(s, t).senders == s.senders;
    case DoGiveBack(t) =>
      WakeOrder(s);
      assert GiveBack(s, t).0.senders == WakeSender(s).senders && GiveBack(s, t).0.receivers == s.receivers;
    case DoExpire(t) =>
      WithoutKeepsOrder(s.receivers, t, s.flag);
      WithoutKeepsOrder(s.senders, t, s.flag);
    case _ =>
  }

  lemma SendOrder(s: State, t: int, prio: int, data: seq<int>, time: int)
    requires s.Inv() && InOrder(s)
    ensures InOrder(Send(s, t, prio, data, time).0)
  {
    EnqueueKeepsOrder(s.senders, Waiter(t, prio, s.tickets), s.flag);
  }

  lemma RecvOrder(s: State, t: int, prio: int, size: nat, time: int)
    requires s.Inv() && InOrder(s)
    ensures InOrder(Recv(s, t, prio, size, time).0)
  {
    EnqueueKeepsOrder(s.receivers, Waiter(t, prio, s.tickets), s.flag);
  }

  lemma WakeOrder(s: State)
    requires InOrder(s)
    ensures InOrder(WakeReceiver(s)) && InOrder(WakeSender(s))
  {
  }

  predicate AllowedRun(s: State, ops: seq<Op>)
    requires s.Inv()
    decreases |ops|
  {
    ops != [] ==>
      && Allowed(s, ops[0])
      && (StepKeeps(s, ops[0]); AllowedRun(Step(s, ops[0]), ops[1..]))
  }

  function Run(s: State, ops: seq<Op>): (r: State)
    requires s.Inv() && AllowedRun(s, ops)
    ensures r.Inv()
    decreases |ops|
  {
    if ops == [] then s else
      StepKeeps(s, ops[0]);
      Run(Step(s, ops[0]), ops[1..])
  }

  ghost predicate OrderedThroughout(s: State, ops: seq<Op>)
    requires s.Inv() && AllowedRun(s, ops)
    decreases |ops|
  {
    InOrder(s) && (ops != [] ==> (StepKeeps(s, ops[0]); OrderedThroughout(Step(s, ops[0]), ops[1..])))
  }

  ghost predicate PlacesKept(s: State, ops: seq<Op>)
    requires s.Inv() && AllowedRun(s, ops)
    decreases |ops|
  {
    ops != [] ==> KeepsPlace(s, ops[0]) && (StepKeeps(s, ops[0]); PlacesKept(Step(s, ops[0]), ops[1..]))
  }

  /** Over every run both lists are in serving order in all states exactly when every change of
      priority suits the place of its thread at that moment. */
  lemma {:induction false} RunOrder(s: State, ops: seq<Op>)
    requires s.Inv() && AllowedRun(s, ops) && InOrder(s)
    ensures OrderedThroughout(s, ops) <==> PlacesKept(s, ops)
    decreases |ops|
  {
    if ops != [] {
      StepOrder(s, ops[0]);
      StepKeeps(s, ops[0]);
      if InOrder(Step(s, ops[0])) {
        RunOrder(Step(s, ops[0]), ops[1..]);
      }
    }
  }

  /** What a receive returns: as many bytes as asked for, up to the message size of the queue, read
      from the node; they agree with the message taken as far as that one reaches. They are a prefix
      of the bytes sent exactly when the buffer is no longer than the message. */
  lemma ReceivedBytes(s: State, t: int)
    requires s.Inv() && Allowed(s, DoGiveBack(t))
    ensures var h := s.hands[t]; var got := h.got;
      && GiveBack(s, t).1 == Received(got) && |got| == h.want
      && (forall i :: 0 <= i < |got| && i < |h.msg| ==> got[i] == h.msg[i])
      && (got <= h.msg <==> h.want <= |h.msg|)
    ensures var h := s.hands[t]; h.node in s.mem && h.got <= s.mem[h.node]
  {
    assert HandOk(s.hands[t], s.mem[s.hands[t].node]);
  }

  // ----- the memory of a node -----

  /** The step copies a byte to position i of node n; its message is longer than i. */
  predicate Writes(s: State, op: Op, n: int, i: int) {
    op.DoCopyIn? && op.t in s.hands && s.hands[op.t].Sending? && s.hands[op.t].node == n && s.hands[op.t].done == i
  }

  lemma StepByte(s: State, op: Op, n: int, i: nat)
    requires s.Inv() && Allowed(s, op) && 0 <= n < s.maxMsgs && i < s.msgSize
    ensures Step(s, op).Inv() && Step(s, op).maxMsgs == s.maxMsgs && Step(s, op).msgSize == s.msgSize
    ensures Writes(s, op, n, i) ==> i < |s.hands[op.t].data|
    ensures Step(s, op).mem[n][i] == if Writes(s, op, n, i) then s.hands[op.t].data[i] else s.mem[n][i]
  {
    StepKeeps(s, op);
    if op.DoCopyIn? {
      CopyInByte(s, op.t, n, i);
    }
  }

  lemma CopyInByte(s: State, t: int, n: int, i: nat)
    requires s.Inv() && Allowed(s, DoCopyIn(t)) && 0 <= n < s.maxMsgs && i < s.msgSize
    ensures n in s.mem && |s.mem[n]| == s.msgSize && n in CopyIn(s, t).mem && |CopyIn(s, t).mem[n]| == s.msgSize
    ensures CopyIn(s, t).mem[n][i] == if s.hands[t].node == n && s.hands[t].done == i then s.hands[t].data[i] else s.mem[n][i]
  {
  }

  /** Byte i of node n after a run: that of the last message longer than i that a sender has copied
      that far into the node, and b if there is none. */
  function LastWritten(s: State, ops: seq<Op>, n: int, i: nat, b: int): int
    requires s.Inv() && AllowedRun(s, ops) && 0 <= n < s.maxMsgs && i < s.msgSize
    decreases |ops|
  {
    if ops == [] then b
    else
      StepByte(s, ops[0], n, i);
      LastWritten(Step(s, ops[0]), ops[1..], n, i, if Writes(s, ops[0], n, i) then s.hands[ops[0].t].data[i] else b)
  }

  lemma {:induction false} RunByte(s: State, ops: seq<Op>, n: int, i: nat)
    requires s.Inv() && AllowedRun(s, ops) && 0 <= n < s.maxMsgs && i < s.msgSize
    ensures var r := Run(s, ops);
      r.maxMsgs == s.maxMsgs && r.msgSize == s.msgSize && r.mem[n][i] == LastWritten(s, ops, n, i, s.mem[n][i])
    decreases |ops|
  {
    if ops != [] {
      StepByte(s, ops[0], n, i);
      RunByte(Step(s, ops[0]), ops[1..], n, i);
    }
  }

  /** The bytes behind a short message are the node's older memory: each is that of the last message
      long enough to reach it that was copied into the node, or what the memory held at the start. */
  lemma StaleBytes(s: State, ops: seq<Op>, t: int, i: nat)
    requires s.Inv() && AllowedRun(s, ops) && Allowed(Run(s, ops), DoGiveBack(t))
    requires |Run(s, ops).hands[t].msg| <= i < |Run(s, ops).hands[t].got|
    ensures var h := Run(s, ops).hands[t];
      && 0 <= h.node < s.maxMsgs && i < s.msgSize && GiveBack(Run(s, ops), t).1 == Received(h.got)
      && h.got[i] == LastWritten(s, ops, h.node, i, s.mem[h.node][i])
  {
    RunShape(s, ops);
    ReceivedBytes(Run(s, ops), t);
    RunByte(s, ops, Run(s, ops).hands[t].node, i);
  }

  lemma {:induction false} RunShape(s: State, ops: seq<Op>)
    requires s.Inv() && AllowedRun(s, ops)
    ensures Run(s, ops).maxMsgs == s.maxMsgs && Run(s, ops).msgSize == s.msgSize
    decreases |ops|
  {
    if ops != [] {
      StepKeeps(s, ops[0]);
      RunShape(Step(s, ops[0]), ops[1..]);
    }
  }

  /** rt_mq_init: all nodes are free, the last one first. */
  function Initial(maxMsgs: nat, msgSize: nat, mem: map<int, seq<int>>, flag: Flag): State {
    State(maxMsgs, msgSize, Countdown(maxMsgs), [], [], mem, map[], [], [], flag, {}, {}, 0)
  }

  function Countdown(n: nat): (ns: seq<int>)
    ensures |ns| == n && forall i :: 0 <= i < n ==> ns[i] == n - 1 - i
  {
    if n == 0 then [] else [n - 1] + Countdown(n - 1)
  }

  lemma InitialInv(maxMsgs: nat, msgSize: nat, mem: map<int, seq<int>>, flag: Flag)
    requires maxMsgs <= RT_UINT16_MAX && forall n :: 0 <= n < maxMsgs ==> n in mem && |mem[n]| == msgSize
    ensures Initial(maxMsgs, msgSize, mem, flag).Inv()
  {
    var free := Countdown(maxMsgs);
    forall n | 0 <= n < maxMsgs ensures n in free {
      assert free[maxMsgs - 1 - n] == n;
    }
  }

  // ----- a short message in a longer buffer -----

  /** A queue of one node of two bytes. */
  function Single(free: seq<int>, queue: seq<int>, msgs: seq<seq<int>>, bytes: seq<int>, hands: map<int, Hand>): State {
    State(1, 2, free, queue, msgs, map[0 := bytes], hands, [], [], Fifo, {}, {}, 0)
  }

  lemma RunFrom(s: State, op: Op, rest: seq<Op>)
    requires s.Inv() && Allowed(s, op) && Step(s, op).Inv() && AllowedRun(Step(s, op), rest)
    ensures AllowedRun(s, [op] + rest) && Run(s, [op] + rest) == Run(Step(s, op), rest)
  {
    assert ([op] + rest)[1..] == rest;
  }

  /** Thread 1 copies the byte 5 into the node. */
  function Copying(bytes: seq<int>, done: int): State {
    Single([], [], [], bytes, map[1 := Sending(0, [5], false, done)])
  }

  /** Thread 2 copies out of the node. */
  function Reading(got: seq<int>): State {
    Single([], [], [], [5, 7], map[2 := Receiving(0, [5], 2, got)])
  }

  ghost predicate Goes(s: State, op: Op, s': State) {
    s.Inv() && Allowed(s, op) && s'.Inv() && Step(s, op) == s'
  }

  lemma FreshSends()
    ensures Goes(Single([0], [], [], [0, 7], map[]), DoSend(1, 0, [5], 0), Copying([0, 7], -1))
  {
    var s := Single([0], [], [], [0, 7], map[]);
    InitialInv(1, 2, map[0 := [0, 7]], Fifo);
    assert Countdown(1) == [0];
    assert [0][1..] == [];
    StepKeeps(s, DoSend(1, 0, [5], 0));
  }

  lemma LinkCleared()
    requires Copying([0, 7], -1).Inv()
    ensures Goes(Copying([0, 7], -1), DoCopyIn(1), Copying([0, 7], 0))
  {
    assert map[1 := Sending(0, [5], false, -1)][1 := Sending(0, [5], false, 0)] == map[1 := Sending(0, [5], false, 0)];
    StepKeeps(Copying([0, 7], -1), DoCopyIn(1));
  }

  lemma ByteCopied()
    requires Copying([0, 7], 0).Inv()
    ensures Goes(Copying([0, 7], 0), DoCopyIn(1), Copying([5, 7], 1))
  {
    assert map[1 := Sending(0, [5], false, 0)][1 := Sending(0, [5], false, 1)] == map[1 := Sending(0, [5], false, 1)];
    assert [0, 7][0 := 5] == [5, 7];
    assert map[0 := [0, 7]][0 := [5, 7]] == map[0 := [5, 7]];
    StepKeeps(Copying([0, 7], 0), DoCopyIn(1));
  }

  lemma ShortLinked()
    requires Copying([5, 7], 1).Inv()
    ensures Goes(Copying([5, 7], 1), DoLink(1), Single([], [0], [[5]], [5, 7], map[]))
  {
    assert map[1 := Sending(0, [5], false, 1)] - {1} == map[];
    assert [] + [0] == [0] && [] + [[5]] == [[5]];
    assert Link(Copying([5, 7], 1), 1) == Single([], [0], [[5]], [5, 7], map[]);
    StepKeeps(Copying([5, 7], 1), DoLink(1));
  }

  lemma ShortTaken()
    requires Single([], [0], [[5]], [5, 7], map[]).Inv()
    ensures Goes(Single([], [0], [[5]], [5, 7], map[]), DoRecv(2, 0, 2, 0), Reading([]))
  {
    assert [0][1..] == [] && [[5]][1..] == [];
    StepKeeps(Single([], [0], [[5]], [5, 7], map[]), DoRecv(2, 0, 2, 0));
  }

  lemma ByteRead(got: seq<int>, more: seq<int>)
    requires Reading(got).Inv() && |got| < 2 && more == got + [[5, 7][|got|]]
    ensures Goes(Reading(got), DoCopyOut(2), Reading(more))
  {
    assert map[2 := Receiving(0, [5], 2, got)][2 := Receiving(0, [5], 2, more)] == map[2 := Receiving(0, [5], 2, more)];
    StepKeeps(Reading(got), DoCopyOut(2));
  }

  ghost predicate Leads(s: State, ops: seq<Op>, r: State) {
    s.Inv() && AllowedRun(s, ops) && Run(s, ops) == r
  }

  lemma Prepend(s: State, op: Op, s': State, rest: seq<Op>, r: State) returns (ops: seq<Op>)
    requires Goes(s, op, s') && Leads(s', rest, r)
    ensures Leads(s, ops, r)
  {
    ops := [op] + rest;
    RunFrom(s, op, rest);
  }

  lemma ReadBytes() returns (ops: seq<Op>)
    requires Reading([]).Inv()
    ensures Leads(Reading([]), ops, Reading([5, 7]))
  {
    var r := Reading([5, 7]);
    ByteRead([], [5]);
    ByteRead([5], [5, 7]);
    assert Leads(r, [], r);
    ops := Prepend(Reading([5]), DoCopyOut(2), r, [], r);
    ops := Prepend(Reading([]), DoCopyOut(2), Reading([5]), ops, r);
  }

  lemma ReadOut() returns (ops: seq<Op>)
    requires Single([], [0], [[5]], [5, 7], map[]).Inv()
    ensures Leads(Single([], [0], [[5]], [5, 7], map[]), ops, Reading([5, 7]))
  {
    ShortTaken();
    ops := ReadBytes();
    ops := Prepend(Single([], [0], [[5]], [5, 7], map[]), DoRecv(2, 0, 2, 0), Reading([]), ops, Reading([5, 7]));
  }

  lemma SendAndReadOut() returns (ops: seq<Op>)
    ensures Leads(Single([0], [], [], [0, 7], map[]), ops, Reading([5, 7]))
  {
    var r := Reading([5, 7]);
    FreshSends();
    LinkCleared();
    ByteCopied();
    ShortLinked();
    ops := ReadOut();
    ops := Prepend(Copying([5, 7], 1), DoLink(1), Single([], [0], [[5]], [5, 7], map[]), ops, r);
    ops := Prepend(Copying([0, 7], 0), DoCopyIn(1), Copying([5, 7], 1), ops, r);
    ops := Prepend(Copying([0, 7], -1), DoCopyIn(1), Copying([0, 7], 0), ops, r);
    ops := Prepend(Single([0], [], [], [0, 7], map[]), DoSend(1, 0, [5], 0), Copying([0, 7], -1), ops, r);
  }

  /** From a fresh queue whose one node holds the bytes 0 and 7: thread 1 sends one byte, 5, and thread 2
      receives into a buffer of two bytes and gets 5 and 7. */
  lemma ShortMessageIsPadded() returns (s: State, ops: seq<Op>)
    ensures s == Initial(1, 2, map[0 := [0, 7]], Fifo) && Leads(s, ops, Reading([5, 7]))
    ensures Allowed(Reading([5, 7]), DoGiveBack(2)) && Reading([5, 7]).hands[2].msg == [5]
    ensures GiveBack(Reading([5, 7]), 2).1 == Received([5, 7])
  {
    s := Single([0], [], [], [0, 7], map[]);
    assert Countdown(1) == [0];
    ops := SendAndReadOut();
  }
}
