/** The message queue object: free list and queue are chains of `next` links through the pool. */
module MessageQueue {
  import opened RtDef
  import opened Sequences
  import opened WaitList
  import opened Spec = MessageQueueSpec
  import Laws = MessageQueueLaws

  const NULL: int := -1

  /** Following `next` from p visits xs and ends at NULL. */
  ghost predicate Linked(next: seq<int>, p: int, xs: seq<int>)
    decreases |xs|
  {
    if xs == [] then p == NULL
    else p == xs[0] && 0 <= p < |next| && Linked(next, next[p], xs[1..])
  }

  /** Links of nodes outside a chain may change. */
  lemma {:induction false} LinkedFrame(next: seq<int>, next': seq<int>, p: int, xs: seq<int>)
    requires Linked(next, p, xs) && |next| == |next'| && forall x :: x in xs && 0 <= x < |next| ==> next'[x] == next[x]
    ensures Linked(next', p, xs)
    decreases |xs|
  {
    if xs != [] {
      assert xs[0] in xs;
      LinkedFrame(next, next', next[p], xs[1..]);
    }
  }

  /** Linking m behind the last node of a chain appends it. */
  lemma {:induction false} LinkedAppend(next: seq<int>, next': seq<int>, p: int, xs: seq<int>, m: int)
    requires Linked(next, p, xs) && xs != [] && Distinct(xs) && m !in xs && 0 <= m < |next| == |next'|
    requires next'[m] == NULL && 0 <= xs[|xs| - 1] < |next| && next'[xs[|xs| - 1]] == m
    requires forall x :: x in xs && 0 <= x < |next| && x != xs[|xs| - 1] ==> next'[x] == next[x]
    ensures Linked(next', p, xs + [m])
    decreases |xs|
  {
    assert (xs + [m])[1..] == xs[1..] + [m];
    if |xs| > 1 {
      assert xs[0] in xs && xs[0] != xs[|xs| - 1];
      LinkedAppend(next, next', next[p], xs[1..], m);
    } else {
      assert xs[1..] + [m] == [m] && [m][1..] == [];
    }
  }

  lemma {:induction false} LinkedInRange(next: seq<int>, p: int, xs: seq<int>)
    requires Linked(next, p, xs)
    ensures forall x :: x in xs ==> 0 <= x < |next|
    decreases |xs|
  {
    if xs != [] {
      LinkedInRange(next, next[p], xs[1..]);
      forall x | x in xs ensures x == xs[0] || x in xs[1..] {
      }
    }
  }

  /** `if(entry < MAX) entry++; else return -RT_EFULL` */
  method Increase(entry: int) returns (ok: bool, e: int)
    ensures ok <==> entry < RT_UINT16_MAX
    ensures e == if ok then entry + 1 else entry
  {
    ok := entry < RT_UINT16_MAX;
    e := if ok then entry + 1 else entry;
  }

  class Queue {
    const maxMsgs: int
    const msgSize: int
    const flag: Flag
    /** The `next` word and the payload of every node. */
    const next: array<int>
    var mem: map<int, seq<int>>
    var head: int
    var tail: int
    var freeHead: int
    var entry: int
    var receivers: seq<Waiter>
    var senders: seq<Waiter>
    /** The local variables of the calls in progress, by thread. */
    var hands: map<int, Hand>
    /** Model only. */
    var wokenReceivers: set<int>
    var wokenSenders: set<int>
    var tickets: int
    ghost var free: seq<int>
    ghost var queue: seq<int>
    var msgs: seq<seq<int>>

    ghost function Contents(): State
      reads this
    {
      State(maxMsgs, msgSize, free, queue, msgs, mem, hands, receivers, senders, flag,
            wokenReceivers, wokenSenders, tickets)
    }

    /** The pointers represent the free list and the queue; `tail` is the last node, and NULL when
        there is none. A sender past its first copy step has cleared the link of its node. */
    ghost predicate Links()
      reads this`head, this`tail, this`freeHead, this`hands, this`free, this`queue, next
    {
      && next.Length == maxMsgs
      && Linked(next[..], freeHead, free) && Linked(next[..], head, queue)
      && tail == (if queue == [] then NULL else queue[|queue| - 1])
      && forall t :: t in hands && hands[t].Sending? && !hands[t].urgent && 0 <= hands[t].done ==>
           0 <= hands[t].node < next.Length && next[hands[t].node] == NULL
    }

    /** `entry` counts the queue. */
    ghost predicate Rep()
      reads this`head, this`tail, this`freeHead, this`entry, this`hands, this`free, this`queue, next
    {
      Links() && entry == |queue|
    }

    ghost predicate Valid()
      reads this, next
    {
      Rep() && Contents().Inv()
    }

    /** rt_mq_init: the 16-bit fields hold the sizes modulo 65536, and every node is put on the free
        list in turn. */
    constructor (size: USize, poolSize: USize, flag: Flag, mem: map<int, seq<int>>)
      requires forall n :: 0 <= n < poolSize ==> n in mem && |mem[n]| == AlignUp(size) % 0x10000
      ensures Valid() && fresh(next) && msgSize == AlignUp(size) % 0x10000
      ensures maxMsgs == poolSize / (AlignUp(size) % 0x10000 + 4) % 0x10000
      ensures Contents() == Laws.Initial(maxMsgs, msgSize, mem, flag)
    {
      QuotientFits(poolSize, AlignUp(size) % 0x10000 + 4);
      var max := poolSize / (AlignUp(size) % 0x10000 + 4) % 0x10000;
      msgSize := AlignUp(size) % 0x10000;
      maxMsgs := max;
      this.flag, this.mem := flag, mem;
      next := new int[max];
      head, tail, freeHead, entry := NULL, NULL, NULL, 0;
      receivers, senders, hands, wokenReceivers, wokenSenders, tickets := [], [], map[], {}, {}, 0;
      free, queue, msgs := [], [], [];
      new;
      BuildFreeList();
      InitialValid(maxMsgs, msgSize, mem, flag, poolSize);
    }

    /** The loop of rt_mq_init: node by node onto the head of the free list. */
    method BuildFreeList()
      requires 0 <= maxMsgs == next.Length && free == [] && freeHead == NULL
      modifies next, this`freeHead, this`free
      ensures free == Laws.Countdown(maxMsgs) && Linked(next[..], freeHead, free)
    {
      var temp := 0;
      while temp < maxMsgs
        invariant 0 <= temp <= maxMsgs && free == Laws.Countdown(temp) && Linked(next[..], freeHead, free)
      {
        ghost var before := next[..];
        next[temp] := freeHead;
        LinkedFrame(before, next[..], freeHead, free);
        freeHead := temp;
        assert ([temp] + free)[1..] == free;
        free := [temp] + free;
        temp := temp + 1;
      }
    }

    /** `msg = free; free = msg->next`: the head of the free list goes into the hands of t. */
    method TakeFree(t: int, data: seq<int>, urgent: bool) returns (msg: int)
      requires Rep() && free != [] && t !in hands
      modifies this`freeHead, this`free, this`hands
      ensures Rep() && msg == old(free)[0] && free == old(free)[1..]
      ensures hands == old(hands)[t := Sending(msg, data, urgent, if urgent then 0 else -1)]
    {
      msg := freeHead;
      freeHead := next[msg];
      free := free[1..];
      hands := hands[t := Sending(msg, data, urgent, if urgent then 0 else -1)];
    }

    /** rt_mq_send_wait: one pass of its loop, and the first locked region when there is a node. */
    method Send(t: int, prio: int, data: seq<int>, time: int) returns (r: Outcome)
      requires Valid() && Allowed(Contents(), DoSend(t, prio, data, time))
      modifies this
      ensures Valid() && (Contents(), r) == Spec.Send(old(Contents()), t, prio, data, time)
    {
      Laws.SendKeeps(Contents(), t, prio, data, time);
      r := SendPass(t, prio, data, time);
    }

    method SendPass(t: int, prio: int, data: seq<int>, time: int) returns (r: Outcome)
      requires Rep() && t !in hands
      modifies this
      ensures Rep() && (Contents(), r) == Spec.Send(old(Contents()), t, prio, data, time)
    {
      if |data| > msgSize {
        return Error;
      }
      wokenSenders := wokenSenders - {t};
      if freeHead == NULL {
        if time == 0 {
          return Full;
        }
        senders := Suspend(senders, Waiter(t, prio, tickets), flag);
        tickets := tickets + 1;
        return Blocked;
      }
      var msg := TakeFree(t, data, false);
      return Taken(msg);
    }

    /** rt_mq_urgent up to the copy. */
    method Urgent(t: int, data: seq<int>) returns (r: Outcome)
      requires Valid() && Allowed(Contents(), DoUrgent(t, data))
      modifies this
      ensures Valid() && (Contents(), r) == Spec.Urgent(old(Contents()), t, data)
    {
      Laws.UrgentKeeps(Contents(), t, data);
      if |data| > msgSize {
        return Error;
      }
      if freeHead == NULL {
        assert free == [];
        return Full;
      }
      var msg := TakeFree(t, data, true);
      return Taken(msg);
    }

    /** One step of the copy into the node, outside the lock. */
    method CopyIn(t: int)
      requires Valid() && Allowed(Contents(), DoCopyIn(t))
      modifies this`mem, this`hands, next
      ensures Valid() && Contents() == Spec.CopyIn(old(Contents()), t)
    {
      ghost var target := Spec.CopyIn(Contents(), t);
      Laws.CopyInKeeps(Contents(), t);
      if hands[t].done < 0 {
        ClearNext(t);
      } else {
        StoreByte(t);
      }
      assert Contents() == target;
    }

    /** One byte of the message into the node in the hands of t. */
    method StoreByte(t: int)
      requires Rep() && t in hands && hands[t].Sending? && 0 <= hands[t].done < |hands[t].data|
      requires hands[t].node in mem && hands[t].done < |mem[hands[t].node]|
      modifies this`mem, this`hands
      ensures Rep() && Contents() == Spec.CopyIn(old(Contents()), t)
    {
      var h := hands[t];
      mem := mem[h.node := mem[h.node][h.done := h.data[h.done]]];
      hands := hands[t := h.(done := h.done + 1)];
    }

    /** `msg->next = NULL` on the node in the hands of t. */
    method ClearNext(t: int)
      requires Rep() && Partition(maxMsgs, free, queue, hands) && t in hands && hands[t].Sending? && hands[t].done < 0
      modifies this`hands, next
      ensures Rep() && hands == old(hands)[t := old(hands)[t].(done := old(hands)[t].done + 1)]
    {
      var h := hands[t];
      ghost var before := next[..];
      next[h.node] := NULL;
      LinkedFrame(before, next[..], freeHead, free);
      LinkedFrame(before, next[..], head, queue);
      hands := hands[t := h.(done := h.done + 1)];
    }

    /** The node in the hands of t, which is in neither chain, is linked at the tail. */
    method LinkTail(t: int)
      requires Rep() && t in hands && hands[t].Sending? && !hands[t].urgent && 0 <= hands[t].done
      requires Partition(maxMsgs, free, queue, hands) && 0 <= maxMsgs <= RT_UINT16_MAX
      modifies this`head, this`tail, this`entry, this`hands, this`queue, next
      ensures Rep() && queue == old(queue) + [old(hands)[t].node] && hands == old(hands) - {t}
    {
      var msg := hands[t].node;
      ghost var before := next[..];
      LinkedInRange(before, head, queue);
      assert queue != [] ==> tail in queue;
      if tail != NULL {
        next[tail] := msg;
      }
      LinkedFrame(before, next[..], freeHead, free);
      if queue != [] {
        LinkedAppend(before, next[..], head, queue, msg);
      } else {
        assert [msg][1..] == [] && [] + [msg] == [msg];
      }
      tail := msg;
      if head == NULL {
        head := msg;
      }
      EntryFits(maxMsgs, free, queue, hands, t);
      var ok, e := Increase(entry);
      assert ok;
      entry := e;
      queue := queue + [msg];
      hands := hands - {t};
    }

    /** The node in the hands of t is linked at the head. */
    method LinkHead(t: int)
      requires Rep() && t in hands && hands[t].Sending?
      requires Partition(maxMsgs, free, queue, hands) && 0 <= maxMsgs <= RT_UINT16_MAX
      modifies this`head, this`tail, this`entry, this`hands, this`queue, next
      ensures Rep() && queue == [old(hands)[t].node] + old(queue) && hands == old(hands) - {t}
    {
      var msg := hands[t].node;
      ghost var before := next[..];
      next[msg] := head;
      LinkedFrame(before, next[..], freeHead, free);
      LinkedFrame(before, next[..], head, queue);
      assert ([msg] + queue)[1..] == queue;
      LinkedInRange(before, head, queue);
      assert queue != [] ==> tail in queue;
      head := msg;
      if tail == NULL {
        tail := msg;
      }
      EntryFits(maxMsgs, free, queue, hands, t);
      var ok, e := Increase(entry);
      assert ok;
      entry := e;
      queue := [msg] + queue;
      hands := hands - {t};
    }

    /** _ipc_list_resume on the receivers, when there is one. */
    method ResumeReceiver()
      modifies this`receivers, this`wokenReceivers
      ensures Contents() == WakeReceiver(old(Contents()))
    {
      if receivers != [] {
        wokenReceivers := wokenReceivers + {receivers[0].thread};
        receivers := receivers[1..];
      }
    }

    method ResumeSender()
      modifies this`senders, this`wokenSenders
      ensures Contents() == WakeSender(old(Contents()))
    {
      if senders != [] {
        wokenSenders := wokenSenders + {senders[0].thread};
        senders := senders[1..];
      }
    }

    /** The second locked region of rt_mq_send_wait and rt_mq_urgent. */
    method Link(t: int)
      requires Valid() && Allowed(Contents(), DoLink(t))
      modifies this, next
      ensures Valid() && Contents() == Spec.Link(old(Contents()), t)
    {
      Laws.LinkKeeps(Contents(), t);
      LinkNode(t);
    }

    method LinkNode(t: int)
      requires Rep() && t in hands && hands[t].Sending? && 0 <= hands[t].done
      requires Partition(maxMsgs, free, queue, hands) && 0 <= maxMsgs <= RT_UINT16_MAX
      modifies this, next
      ensures Rep() && Contents() == Spec.Link(old(Contents()), t)
    {
      Attach(t);
      ResumeReceiver();
    }

    method Attach(t: int)
      requires Rep() && t in hands && hands[t].Sending? && 0 <= hands[t].done
      requires Partition(maxMsgs, free, queue, hands) && 0 <= maxMsgs <= RT_UINT16_MAX
      modifies this`head, this`tail, this`entry, this`hands, this`queue, this`msgs, next
      ensures Rep() && hands == old(hands) - {t}
      ensures var h := old(hands)[t];
        if h.urgent then queue == [h.node] + old(queue) && msgs == [h.data] + old(msgs)
        else queue == old(queue) + [h.node] && msgs == old(msgs) + [h.data]
    {
      var h := hands[t];
      if h.urgent {
        LinkHead(t);
        msgs := [h.data] + msgs;
      } else {
        LinkTail(t);
        msgs := msgs + [h.data];
      }
    }

    /** The head of the queue goes into the hands of t. */
    method Unlink(t: int, size: nat) returns (msg: int)
      requires Rep() && queue != [] && |msgs| == |queue| && Distinct(queue) && t !in hands
      modifies this`head, this`tail, this`entry, this`hands, this`queue, this`msgs
      ensures Rep() && msg == old(queue)[0] && queue == old(queue)[1..] && msgs == old(msgs)[1..]
      ensures hands == old(hands)[t := Receiving(msg, old(msgs)[0], Min(size, msgSize), [])]
    {
      msg := head;
      head := next[msg];
      if tail == msg {
        tail := NULL;
      }
      if entry > 0 {
        entry := entry - 1;
      }
      hands := hands[t := Receiving(msg, msgs[0], if size > msgSize then msgSize else size, [])];
      queue, msgs := queue[1..], msgs[1..];
    }

    /** rt_mq_recv: one pass of its loop, and the first locked region when there is a message. */
    method Recv(t: int, prio: int, size: nat, time: int) returns (r: Outcome)
      requires Valid() && Allowed(Contents(), DoRecv(t, prio, size, time))
      modifies this
      ensures Valid() && (Contents(), r) == Spec.Recv(old(Contents()), t, prio, size, time)
    {
      Laws.RecvKeeps(Contents(), t, prio, size, time);
      r := RecvPass(t, prio, size, time);
    }

    method RecvPass(t: int, prio: int, size: nat, time: int) returns (r: Outcome)
      requires Rep() && t !in hands && |msgs| == |queue| && Distinct(queue)
      modifies this`head, this`tail, this`entry, this`hands, this`queue, this`msgs
      modifies this`receivers, this`wokenReceivers, this`tickets
      ensures Rep() && (Contents(), r) == Spec.Recv(old(Contents()), t, prio, size, time)
    {
      assert entry == 0 <==> queue == [];
      wokenReceivers := wokenReceivers - {t};
      if entry == 0 {
        r := WaitToReceive(t, prio, time);
        return;
      }
      var msg := Unlink(t, size);
      r := Taken(msg);
    }

    /** The part of rt_mq_recv for an empty queue. */
    method WaitToReceive(t: int, prio: int, time: int) returns (r: Outcome)
      modifies this`receivers, this`tickets
      ensures r == if time == 0 then Timeout else Blocked
      ensures if time == 0 then receivers == old(receivers) && tickets == old(tickets)
        else receivers == Enqueue(old(receivers), Waiter(t, prio, old(tickets)), flag) && tickets == old(tickets) + 1
    {
      if time == 0 {
        return Timeout;
      }
      receivers := Suspend(receivers, Waiter(t, prio, tickets), flag);
      tickets := tickets + 1;
      return Blocked;
    }

    /** One byte of the copy into the caller's buffer, outside the lock. */
    method CopyOut(t: int)
      requires Valid() && Allowed(Contents(), DoCopyOut(t))
      modifies this`hands
      ensures Valid() && Contents() == Spec.CopyOut(old(Contents()), t)
    {
      ghost var target := Spec.CopyOut(Contents(), t);
      Laws.CopyOutKeeps(Contents(), t);
      var h := hands[t];
      hands := hands[t := h.(got := h.got + [mem[h.node][|h.got|]])];
      assert Contents() == target;
    }

    /** The node in the hands of t goes back to the free list. */
    method PutFree(t: int)
      requires Rep() && t in hands && hands[t].Receiving? && Partition(maxMsgs, free, queue, hands)
      modifies this`freeHead, this`free, this`hands, next
      ensures Rep() && free == [old(hands)[t].node] + old(free) && hands == old(hands) - {t}
    {
      var msg := hands[t].node;
      ghost var before := next[..];
      next[msg] := freeHead;
      LinkedFrame(before, next[..], freeHead, free);
      LinkedFrame(before, next[..], head, queue);
      assert ([msg] + free)[1..] == free;
      freeHead := msg;
      free := [msg] + free;
      hands := hands - {t};
    }

    /** The second locked region of rt_mq_recv. */
    method GiveBack(t: int) returns (r: Outcome)
      requires Valid() && Allowed(Contents(), DoGiveBack(t))
      modifies this, next
      ensures Valid() && (Contents(), r) == Spec.GiveBack(old(Contents()), t)
    {
      Laws.GiveBackKeeps(Contents(), t);
      r := PutBack(t);
    }

    method PutBack(t: int) returns (r: Outcome)
      requires Rep() && t in hands && hands[t].Receiving? && Partition(maxMsgs, free, queue, hands)
      modifies this, next
      ensures Rep() && (Contents(), r) == Spec.GiveBack(old(Contents()), t)
    {
      r := Received(hands[t].got);
      PutFree(t);
      ResumeSender();
    }

    /** The loop of rt_mq_control that moves the queued nodes to the free list. */
    method DrainQueue()
      requires Links() && Drainable(free, queue, hands)
      modifies this`head, this`tail, this`freeHead, this`free, this`queue, next
      ensures Links() && queue == [] && free == Reverse(old(queue)) + old(free)
    {
      ghost var all := queue;
      while head != NULL
        invariant Links() && Drainable(free, queue, hands)
        invariant Reverse(queue) + free == Reverse(all) + old(free)
        decreases |queue|
      {
        DrainOne();
        assert Reverse(queue) + free == Reverse(all) + old(free);
      }
    }

    method DrainOne()
      requires Links() && Drainable(free, queue, hands) && queue != []
      modifies this`head, this`tail, this`freeHead, this`free, this`queue, next
      ensures Links() && Drainable(free, queue, hands)
      ensures queue == old(queue)[1..] && free == [old(queue)[0]] + old(free)
    {
      var msg := head;
      assert msg in queue && msg !in queue[1..];
      head := next[msg];
      if tail == msg {
        tail := NULL;
      }
      ghost var before := next[..];
      next[msg] := freeHead;
      LinkedFrame(before, next[..], freeHead, free);
      LinkedFrame(before, next[..], head, queue[1..]);
      assert ([msg] + free)[1..] == free;
      freeHead := msg;
      free := [msg] + free;
      queue := queue[1..];
    }

    /** rt_mq_control(RT_IPC_CMD_RESET) */
    method Reset()
      requires Valid()
      modifies this, next
      ensures Valid() && Contents() == Spec.Reset(old(Contents()))
    {
      Laws.ResetKeeps(Contents());
      PartitionDrains(maxMsgs, free, queue, hands);
      ghost var target := Spec.Reset(Contents());
      ResetLists();
      assert Contents() == target;
    }

    method ResetLists()
      requires Rep() && Drainable(free, queue, hands)
      modifies this`head, this`tail, this`freeHead, this`free, this`queue, this`receivers, this`senders, this`entry, this`msgs, next
      ensures Rep() && receivers == [] && senders == [] && queue == [] && msgs == [] && free == Reverse(old(queue)) + old(free)
    {
      ResumeEverybody();
      DrainQueue();
      entry := 0;
      msgs := [];
    }

    method ResumeEverybody()
      modifies this`receivers, this`senders
      ensures receivers == [] && senders == []
    {
      var resumed;
      receivers, resumed := ResumeAll(receivers);
      senders, resumed := ResumeAll(senders);
    }
  }

  lemma InitialValid(maxMsgs: int, msgSize: int, mem: map<int, seq<int>>, flag: Flag, poolSize: int)
    requires 0 <= maxMsgs <= poolSize && maxMsgs <= RT_UINT16_MAX && 0 <= msgSize
    requires forall n :: 0 <= n < poolSize ==> n in mem && |mem[n]| == msgSize
    ensures Laws.Initial(maxMsgs, msgSize, mem, flag).Inv()
  {
    Laws.InitialInv(maxMsgs, msgSize, mem, flag);
  }

  lemma QuotientFits(poolSize: nat, stride: nat)
    requires 4 <= stride
    ensures 0 <= poolSize / stride % 0x10000 <= poolSize
  {
    QuotientBelow(poolSize, stride, poolSize / stride);
    RestBelow(poolSize / stride);
  }

  lemma QuotientBelow(n: nat, d: nat, q: nat)
    requires d > 0 && q == n / d
    ensures q <= n
  {
    ProductAbove(q, d);
    assert q * d <= n;
  }

  lemma {:induction false} ProductAbove(q: nat, d: nat)
    requires d > 0
    ensures q <= q * d
  {
    if q > 0 {
      ProductAbove(q - 1, d);
      assert q * d == (q - 1) * d + d;
    }
  }

  lemma RestBelow(q: nat)
    ensures 0 <= q % 0x10000 <= q
  {
  }

  /** What the draining loop needs of the partition. */
  ghost predicate Drainable(free: seq<int>, queue: seq<int>, hands: map<int, Hand>) {
    && Distinct(queue) && (forall n :: n in queue ==> n !in free)
    && forall t :: t in hands ==> hands[t].node !in queue && hands[t].node !in free
  }

  lemma PartitionDrains(maxMsgs: int, free: seq<int>, queue: seq<int>, hands: map<int, Hand>)
    requires Partition(maxMsgs, free, queue, hands)
    ensures Drainable(free, queue, hands)
  {
  }

  /** While a thread has a node in its hands, the queue is not the whole pool: `entry` stays below
      its 16-bit limit. */
  lemma EntryFits(maxMsgs: nat, free: seq<int>, queue: seq<int>, hands: map<int, Hand>, t: int)
    requires Partition(maxMsgs, free, queue, hands) && t in hands
    ensures |queue| < maxMsgs
  {
    Pigeonhole([hands[t].node] + queue, maxMsgs);
  }

  /** Distinct nodes of the pool are no more than the pool has. */
  lemma Pigeonhole(xs: seq<int>, max: nat)
    requires Distinct(xs) && forall x :: x in xs ==> 0 <= x < max
    ensures |xs| <= max
  {
    SeqSize(xs);
    SubsetSize((set x | x in xs), Range(max));
  }

  ghost function Range(n: nat): (r: set<int>)
    ensures |r| == n && forall i :: i in r <==> 0 <= i < n
  {
    if n == 0 then {} else Range(n - 1) + {n - 1}
  }

  lemma {:induction false} SeqSize(xs: seq<int>)
    requires Distinct(xs)
    ensures |set x | x in xs| == |xs|
  {
    if xs != [] {
      SeqSize(xs[1..]);
      assert (set x | x in xs) == (set x | x in xs[1..]) + {xs[0]};
      assert xs[0] !in xs[1..];
    }
  }

  lemma {:induction false} SubsetSize(a: set<int>, b: set<int>)
    requires a <= b
    ensures |a| <= |b|
  {
    assert b == a + (b - a);
  }
}
