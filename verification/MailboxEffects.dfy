/** What each call on a mailbox does and answers. */
module MailboxEffects {
  import opened WaitList
  import opened MailboxSpec

  /** Thread t runs: it no longer counts as resumed. */
  function Sender(s: State, t: int): State {
    s.(wokenSenders := s.wokenSenders - {t})
  }

  function Receiver(s: State, t: int): State {
    s.(wokenReceivers := s.wokenReceivers - {t})
  }

  /** The box holds `msgs`, and the first waiting receiver, if there is one, and nobody else has been
      resumed. */
  predicate Delivered(s: State, r: State, msgs: seq<int>) {
    if s.receivers == [] then r == s.(msgs := msgs)
    else r == s.(msgs := msgs, receivers := s.receivers[1..], wokenReceivers := s.wokenReceivers + {s.receivers[0].thread})
  }

  /** The box holds `msgs`, and the first waiting sender, if there is one, and nobody else has been
      resumed. */
  predicate Drained(s: State, r: State, msgs: seq<int>) {
    if s.senders == [] then r == s.(msgs := msgs)
    else r == s.(msgs := msgs, senders := s.senders[1..], wokenSenders := s.wokenSenders + {s.senders[0].thread})
  }

  predicate SenderWaits(s: State, r: State, w: Waiter, k: nat) {
    && Place(s.senders, w.prio, s.flag, k)
    && r == s.(senders := s.senders[..k] + [w] + s.senders[k..], tickets := s.tickets + 1)
  }

  predicate ReceiverWaits(s: State, r: State, w: Waiter, k: nat) {
    && Place(s.receivers, w.prio, s.flag, k)
    && r == s.(receivers := s.receivers[..k] + [w] + s.receivers[k..], tickets := s.tickets + 1)
  }

  /** A send succeeds exactly if the box has room; the mail goes to the end and one receiver is
      resumed. A full box is an error at once for a sender that may not wait, and else it joins the
      waiting senders. */
  lemma SendEffect(s: State, t: int, p: int, v: int, time: int) returns (k: nat)
    requires |s.msgs| <= s.size
    ensures var (r, answer) := Send(s, t, p, v, time);
      && (answer == Ok <==> |s.msgs| < s.size)
      && (answer == Full <==> |s.msgs| == s.size && time == 0)
      && (answer == Blocked <==> |s.msgs| == s.size && time != 0)
      && (answer == Ok ==> Delivered(Sender(s, t), r, s.msgs + [v]))
      && (answer == Full ==> r == Sender(s, t))
      && (answer == Blocked ==> SenderWaits(Sender(s, t), r, Waiter(t, p, s.tickets), k))
  {
    k := PlaceFound(s.senders, Waiter(t, p, s.tickets), s.flag);
  }

  /** An urgent send puts the mail in front; it never waits. */
  lemma UrgentEffect(s: State, v: int)
    requires |s.msgs| <= s.size
    ensures var (r, answer) := Urgent(s, v);
      && (answer == Ok <==> |s.msgs| < s.size) && (answer == Full <==> |s.msgs| == s.size)
      && (answer == Ok ==> Delivered(s, r, [v] + s.msgs))
      && (answer == Full ==> r == s)
  {
  }

  /** A receive answers the first mail exactly if there is one, and one sender is resumed. An empty box
      is a timeout at once for a receiver that may not wait, and else it joins the waiting receivers. */
  lemma ReceiveEffect(s: State, t: int, p: int, time: int) returns (k: nat)
    ensures var (r, answer) := Recv(s, t, p, time);
      && (answer.Received? <==> s.msgs != [])
      && (answer == Timeout <==> s.msgs == [] && time == 0)
      && (answer == Blocked <==> s.msgs == [] && time != 0)
      && (answer.Received? ==> answer.value == s.msgs[0] && Drained(Receiver(s, t), r, s.msgs[1..]))
      && (answer == Timeout ==> r == Receiver(s, t))
      && (answer == Blocked ==> ReceiverWaits(Receiver(s, t), r, Waiter(t, p, s.tickets), k))
  {
    k := PlaceFound(s.receivers, Waiter(t, p, s.tickets), s.flag);
  }

  /** A timeout takes out the thread's entries alone. */
  lemma ExpireEffect(s: State, t: int) returns (j: nat, k: nat)
    ensures var r := Expire(s, t);
      && r == s.(receivers := r.receivers, senders := r.senders)
      && (if Waits(s.receivers, t) then TakenOut(s.receivers, r.receivers, t, j) else r.receivers == s.receivers)
      && (if Waits(s.senders, t) then TakenOut(s.senders, r.senders, t, k) else r.senders == s.senders)
  {
    j := WithoutOne(s.receivers, t);
    k := WithoutOne(s.senders, t);
  }

  /** A reset drops the mails, and nobody waits any more. */
  lemma ResetEffect(s: State)
    ensures var r := Reset(s);
      r.msgs == [] && r.receivers == [] && r.senders == [] && r == s.(msgs := [], receivers := [], senders := [])
  {
  }
}
