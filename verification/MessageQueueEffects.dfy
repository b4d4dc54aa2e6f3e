/** What each locked region and each copy step of the message queue calls does and answers. */
module MessageQueueEffects {
  import opened RtDef
  import opened WaitList
  import opened MessageQueueSpec

  /** Thread t runs: it no longer counts as resumed. */
  function Sender(s: State, t: int): State {
    s.(wokenSenders := s.wokenSenders - {t})
  }

  function Receiver(s: State, t: int): State {
    s.(wokenReceivers := s.wokenReceivers - {t})
  }

  /** The first waiting receiver, if there is one, and nobody else has been resumed. */
  predicate ReceiverResumed(s: State, r: State) {
    if s.receivers == [] then r == s
    else r == s.(receivers := s.receivers[1..], wokenReceivers := s.wokenReceivers + {s.receivers[0].thread})
  }

  predicate SenderResumed(s: State, r: State) {
    if s.senders == [] then r == s
    else r == s.(senders := s.senders[1..], wokenSenders := s.wokenSenders + {s.senders[0].thread})
  }

  predicate SenderWaits(s: State, r: State, w: Waiter, k: nat) {
    && Place(s.senders, w.prio, s.flag, k)
    && r == s.(senders := s.senders[..k] + [w] + s.senders[k..], tickets := s.tickets + 1)
  }

  predicate ReceiverWaits(s: State, r: State, w: Waiter, k: nat) {
    && Place(s.receivers, w.prio, s.flag, k)
    && r == s.(receivers := s.receivers[..k] + [w] + s.receivers[k..], tickets := s.tickets + 1)
  }

  /** Thread t has taken the first free node for the message. */
  predicate NodeTaken(s: State, r: State, t: int, h: Hand) {
    && s.free == [h.node] + r.free
    && r == s.(free := r.free, hands := s.hands[t := h])
  }

  // ----- sending -----

  /** A message that is too long is an error and changes nothing. Otherwise a sender takes the first
      free node, exactly if there is one; without one it is an error at once if it may not wait, and
      else it joins the waiting senders. */
  lemma SendEffect(s: State, t: int, p: int, data: seq<int>, time: int) returns (k: nat)
    ensures var (r, answer) := Send(s, t, p, data, time); var fits := |data| <= s.msgSize;
      && (answer == Error <==> !fits)
      && (answer.Taken? <==> fits && s.free != [])
      && (answer == Full <==> fits && s.free == [] && time == 0)
      && (answer == Blocked <==> fits && s.free == [] && time != 0)
      && (answer == Error ==> r == s)
      && (answer.Taken? ==> NodeTaken(Sender(s, t), r, t, Sending(answer.node, data, false, -1)))
      && (answer == Full ==> r == Sender(s, t))
      && (answer == Blocked ==> SenderWaits(Sender(s, t), r, Waiter(t, p, s.tickets), k))
  {
    k := PlaceFound(s.senders, Waiter(t, p, s.tickets), s.flag);
  }

  /** An urgent sender never waits. */
  lemma UrgentEffect(s: State, t: int, data: seq<int>)
    ensures var (r, answer) := Urgent(s, t, data); var fits := |data| <= s.msgSize;
      && (answer == Error <==> !fits)
      && (answer.Taken? <==> fits && s.free != [])
      && (answer == Full <==> fits && s.free == [])
      && (answer.Taken? ==> NodeTaken(s, r, t, Sending(answer.node, data, true, 0)))
      && (!answer.Taken? ==> r == s)
  {
  }

  /** A copy step moves on by one byte and writes that byte of the message, and no other byte of any
      node; the first step of a plain send writes none. */
  lemma CopyInEffect(s: State, t: int)
    requires s.Inv() && Allowed(s, DoCopyIn(t))
    ensures var r, h := CopyIn(s, t), s.hands[t];
      && h.node in s.mem && r.mem.Keys == s.mem.Keys
      && r == s.(hands := s.hands[t := Sending(h.node, h.data, h.urgent, h.done + 1)], mem := r.mem)
      && (forall n :: n in s.mem && (n != h.node || h.done < 0) ==> r.mem[n] == s.mem[n])
      && |r.mem[h.node]| == |s.mem[h.node]|
      && (forall i :: 0 <= i < |s.mem[h.node]| ==>
        r.mem[h.node][i] == if i == h.done then h.data[i] else s.mem[h.node][i])
  {
    assert HandOk(s.hands[t], s.mem[s.hands[t].node]);
  }

  /** Linking puts the node and its message at the end of the queue, or in front if it is urgent, and
      one receiver is resumed. */
  lemma LinkEffect(s: State, t: int)
    requires t in s.hands && s.hands[t].Sending?
    ensures var h := s.hands[t]; var rest := s.(hands := s.hands - {t});
      && (!h.urgent ==> ReceiverResumed(rest.(queue := s.queue + [h.node], msgs := s.msgs + [h.data]), Link(s, t)))
      && (h.urgent ==> ReceiverResumed(rest.(queue := [h.node] + s.queue, msgs := [h.data] + s.msgs), Link(s, t)))
  {
  }

  // ----- receiving -----

  /** Thread t has unlinked the first node; m is its message. */
  predicate HeadTaken(s: State, r: State, t: int, node: int, m: seq<int>, want: int) {
    && s.queue == [node] + r.queue && s.msgs == [m] + r.msgs
    && r == s.(queue := r.queue, msgs := r.msgs, hands := s.hands[t := Receiving(node, m, want, [])])
  }

  /** A receiver takes the first node of the queue, exactly if there is one, and will copy as much as
      its buffer and a message can hold. An empty queue is a timeout at once if it may not wait, and
      else it joins the waiting receivers. */
  lemma ReceiveEffect(s: State, t: int, p: int, size: nat, time: int) returns (k: nat)
    requires |s.msgs| == |s.queue|
    ensures var (r, answer) := Recv(s, t, p, size, time);
      && (answer.Taken? <==> s.queue != [])
      && (answer == Timeout <==> s.queue == [] && time == 0)
      && (answer == Blocked <==> s.queue == [] && time != 0)
      && (answer.Taken? ==> HeadTaken(Receiver(s, t), r, t, answer.node, s.msgs[0], if size < s.msgSize then size else s.msgSize))
      && (answer == Timeout ==> r == Receiver(s, t))
      && (answer == Blocked ==> ReceiverWaits(Receiver(s, t), r, Waiter(t, p, s.tickets), k))
  {
    k := PlaceFound(s.receivers, Waiter(t, p, s.tickets), s.flag);
  }

  /** A copy step appends the next byte of the node. */
  lemma CopyOutEffect(s: State, t: int)
    requires s.Inv() && Allowed(s, DoCopyOut(t))
    ensures var h := s.hands[t];
      && h.node in s.mem && |h.got| < |s.mem[h.node]|
      && CopyOut(s, t) == s.(hands := s.hands[t := Receiving(h.node, h.msg, h.want, h.got + [s.mem[h.node][|h.got|]])])
  {
    assert HandOk(s.hands[t], s.mem[s.hands[t].node]);
  }

  /** Giving back answers the bytes that were copied, puts the node in front of the free ones, and one
      sender is resumed. */
  lemma GiveBackEffect(s: State, t: int)
    requires t in s.hands && s.hands[t].Receiving?
    ensures var (r, answer) := GiveBack(s, t); var h := s.hands[t];
      answer == Received(h.got) && SenderResumed(s.(hands := s.hands - {t}, free := [h.node] + s.free), r)
  {
  }

  // ----- timeouts and resets -----

  /** A timeout takes out the thread's entries alone. */
  lemma ExpireEffect(s: State, t: int) returns (j: nat, k: nat)
    ensures var r := Expire(s, t);
      && r == s.(receivers := r.receivers, senders := r.senders)
      && (if Waits(s.receivers, t) then TakenOut(s.receivers, r.receivers, t, j) else r.receivers == s.receivers)
      && (if Waits(s.senders, t) then TakenOut(s.senders, r.senders, t, k) else r.senders == s.senders)
  {
    j := WithoutOne(s.receivers, t);
    k := WithoutOne(s.senders, t);
  }

  lemma {:induction false} ReverseIs(xs: seq<int>)
    ensures |Reverse(xs)| == |xs| && forall i :: 0 <= i < |xs| ==> Reverse(xs)[i] == xs[|xs| - 1 - i]
  {
    if xs != [] {
      ReverseIs(xs[1..]);
    }
  }

  /** A reset frees the queued nodes one by one, so that the last one comes first; what threads have in
      their hands stays there, and nobody waits any more. */
  lemma ResetEffect(s: State)
    ensures var r := Reset(s); var n := |s.queue|;
      && r == s.(receivers := [], senders := [], queue := [], msgs := [], free := r.free)
      && |r.free| == n + |s.free| && r.free[n..] == s.free
      && (forall i :: 0 <= i < n ==> r.free[i] == s.queue[n - 1 - i])
  {
    ReverseIs(s.queue);
  }
}
