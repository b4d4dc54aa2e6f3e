/** What each call on a semaphore does and answers, and how long a waiter waits. */
module SemaphoreEffects {
  import opened RtDef
  import opened WaitList
  import opened Semaphore

  /** The newcomer has joined the waiters at place k. */
  predicate Entered(s: State, r: State, w: Waiter, k: nat) {
    && Place(s.waiters, w.prio, s.flag, k)
    && r == s.(waiters := s.waiters[..k] + [w] + s.waiters[k..], tickets := s.tickets + 1)
  }

  /** A take succeeds exactly if there is a unit, and then takes one. Otherwise it comes back at once
      with a timeout if it may not wait, and else joins the waiters at the place that suits it. */
  lemma TakeEffect(s: State, t: int, p: int, time: int) returns (k: nat)
    requires s.value >= 0
    ensures var (r, answer) := TakeStep(s, t, p, time);
      && (answer == Ok <==> s.value > 0)
      && (answer == Timeout <==> s.value == 0 && time == 0)
      && (answer == Blocked <==> s.value == 0 && time != 0)
      && (answer == Ok ==> r == s.(value := s.value - 1, taken := s.taken + 1))
      && (answer == Timeout ==> r == s)
      && (answer == Blocked ==> Entered(s, r, Waiter(t, p, s.tickets), k))
  {
    k := PlaceFound(s.waiters, Waiter(t, p, s.tickets), s.flag);
  }

  /** A release resumes the first waiter and leaves the value at zero; without waiters it raises the
      value by one, up to its top. */
  lemma ReleaseEffect(s: State)
    requires s.Inv()
    ensures var (r, answer) := ReleaseStep(s);
      && (answer == Full <==> s.value == 0xffff) && (answer == Ok <==> s.value < 0xffff)
      && r.value == (if s.waiters == [] && s.value < 0xffff then s.value + 1 else s.value)
      && r.waiters == (if s.waiters == [] then [] else s.waiters[1..])
      && r.released == s.released + (if answer == Ok then 1 else 0)
      && r.taken == s.taken + |s.waiters| - |r.waiters|
      && (r.flag, r.adjusted, r.tickets) == (s.flag, s.adjusted, s.tickets)
  {
  }

  /** A timeout takes the thread's entry out, if it waits, and changes nothing else. */
  lemma ExpireEffect(s: State, t: int) returns (k: nat)
    ensures !Waits(s.waiters, t) ==> Expire(s, t) == s
    ensures Expire(s, t) == s.(waiters := Expire(s, t).waiters)
    ensures Waits(s.waiters, t) ==> TakenOut(s.waiters, Expire(s, t).waiters, t, k)
  {
    k := WithoutOne(s.waiters, t);
  }

  /** A reset resumes everybody and replaces the value by the low 16 bits of the new one. */
  lemma ResetEffect(s: State, value: nat)
    ensures var r := ResetStep(s, value);
      && r.waiters == [] && r.value == value % 0x10000 && r.value - s.value == r.adjusted - s.adjusted
      && (r.flag, r.taken, r.released, r.tickets) == (s.flag, s.taken, s.released, s.tickets)
  {
  }

  // ----- how long a waiter waits -----

  /** The suspension with that number is over. */
  ghost predicate Over(s: State, ticket: int) {
    ticket < s.tickets && forall w :: w in s.waiters ==> w.ticket != ticket
  }

  function Releases(ops: seq<Op>): nat {
    if ops == [] then 0 else (if ops[0].DoRelease? then 1 else 0) + Releases(ops[1..])
  }

  predicate NobodyGivesUp(ops: seq<Op>) {
    forall op :: op in ops ==> !op.DoExpire? && !op.DoReset?
  }

  /** The k-th waiter has that number. */
  predicate WaitsAt(s: State, k: int, ticket: int) {
    0 <= k < |s.waiters| && s.waiters[k].ticket == ticket
  }

  ghost predicate FifoOk(s: State) {
    s.Inv() && s.flag == Fifo && Ordered(s.waiters, Fifo)
  }

  lemma StepStaysFifo(s: State, op: Op)
    requires FifoOk(s) && Allowed(s, op)
    ensures FifoOk(Step(s, op))
  {
    StepKeeps(s, op);
    StepOrder(s, op);
    if op.DoPriority? {
      ReprioOrder(s.waiters, op.thread, op.prio, Fifo);
    }
  }

  lemma StepStaysOver(s: State, op: Op, ticket: int)
    requires FifoOk(s) && Allowed(s, op) && Over(s, ticket)
    ensures Over(Step(s, op), ticket)
  {
    match op
    case DoTake(t, p, time) => EnqueueMembers(s.waiters, Waiter(t, p, s.tickets), Fifo);
    case DoRelease =>
    case DoExpire(t) => WithoutMembers(s.waiters, t);
    case DoPriority(t, p) => ReprioOver(s, t, p, ticket);
    case DoReset(_) =>
  }

  lemma ReprioOver(s: State, t: int, p: int, ticket: int)
    requires Over(s, ticket)
    ensures Over(s.(waiters := Reprio(s.waiters, t, p)), ticket)
  {
    var r := Reprio(s.waiters, t, p);
    forall w | w in r ensures w.ticket != ticket {
      var i :| 0 <= i < |r| && r[i] == w;
      assert s.waiters[i] in s.waiters;
    }
  }

  lemma TailOver(s: State, k: nat)
    requires FifoOk(s) && k < |s.waiters|
    ensures Over(s.(waiters := s.waiters[..k] + s.waiters[k + 1..]), s.waiters[k].ticket)
  {
    var ws := s.waiters[..k] + s.waiters[k + 1..];
    assert s.waiters[k] in s.waiters;
    forall w | w in ws ensures w.ticket != s.waiters[k].ticket {
      var i :| 0 <= i < |ws| && ws[i] == w;
      assert w == s.waiters[if i < k then i else i + 1];
    }
  }

  /** One step brings a waiter under FIFO no further back; a release brings it one place forward, or
      resumes it if it is the first. */
  lemma StepTurn(s: State, op: Op, k: nat, ticket: int)
    requires FifoOk(s) && Allowed(s, op) && WaitsAt(s, k, ticket)
    ensures op.DoTake? || op.DoPriority? ==> WaitsAt(Step(s, op), k, ticket)
    ensures op.DoRelease? ==> if k > 0 then WaitsAt(Step(s, op), k - 1, ticket) else Over(Step(s, op), ticket)
    ensures op.DoExpire? || op.DoReset? ==>
      WaitsAt(Step(s, op), k, ticket) || (k > 0 && WaitsAt(Step(s, op), k - 1, ticket)) || Over(Step(s, op), ticket)
  {
    match op
    case DoTake(_, _, _) =>
    case DoRelease => ReleaseTurn(s, k, ticket);
    case DoExpire(t) => ExpireTurn(s, t, k, ticket);
    case DoPriority(t, p) =>
    case DoReset(_) => assert s.waiters[k] in s.waiters;
  }

  lemma ReleaseTurn(s: State, k: nat, ticket: int)
    requires FifoOk(s) && WaitsAt(s, k, ticket)
    ensures var r := ReleaseStep(s).0; if k > 0 then WaitsAt(r, k - 1, ticket) else Over(r, ticket)
  {
    TailOver(s, 0);
    assert s.waiters[..0] + s.waiters[1..] == s.waiters[1..];
  }

  lemma ExpireTurn(s: State, t: int, k: nat, ticket: int)
    requires FifoOk(s) && WaitsAt(s, k, ticket)
    ensures WaitsAt(Expire(s, t), k, ticket) || (k > 0 && WaitsAt(Expire(s, t), k - 1, ticket)) || Over(Expire(s, t), ticket)
  {
    var j := ExpireEffect(s, t);
    if Waits(s.waiters, t) && j == k {
      TailOver(s, k);
    }
  }

  lemma {:induction false} StaysOver(s: State, ops: seq<Op>, ticket: int)
    requires FifoOk(s) && AllowedRun(s, ops) && Over(s, ticket)
    ensures Over(Run(s, ops), ticket)
    decreases |ops|
  {
    if ops != [] {
      StepStaysFifo(s, ops[0]);
      StepStaysOver(s, ops[0], ticket);
      StaysOver(Step(s, ops[0]), ops[1..], ticket);
    }
  }

  /** Bounded waiting under FIFO: with k threads in front, a waiter is served by the time of the
      (k+1)-st release, whatever else happens in the run. */
  lemma {:induction false} BoundedWaiting(s: State, ops: seq<Op>, k: nat, ticket: int)
    requires FifoOk(s) && AllowedRun(s, ops) && WaitsAt(s, k, ticket) && Releases(ops) > k
    ensures Over(Run(s, ops), ticket)
    decreases |ops|
  {
    var s' := Step(s, ops[0]);
    StepStaysFifo(s, ops[0]);
    StepTurn(s, ops[0], k, ticket);
    if Over(s', ticket) {
      StaysOver(s', ops[1..], ticket);
    } else if WaitsAt(s', k, ticket) && !ops[0].DoRelease? {
      BoundedWaiting(s', ops[1..], k, ticket);
    } else {
      BoundedWaiting(s', ops[1..], k - 1, ticket);
    }
  }

  /** Nobody overtakes under FIFO: as long as nobody gives up, a waiter with k threads in front waits
      through k releases, moving one place with each. */
  lemma {:induction false} NobodyOvertakes(s: State, ops: seq<Op>, k: nat, ticket: int)
    requires FifoOk(s) && AllowedRun(s, ops) && WaitsAt(s, k, ticket) && NobodyGivesUp(ops) && Releases(ops) <= k
    ensures WaitsAt(Run(s, ops), k - Releases(ops), ticket)
    decreases |ops|
  {
    if ops != [] {
      assert ops[0] in ops && forall op :: op in ops[1..] ==> op in ops;
      StepStaysFifo(s, ops[0]);
      StepTurn(s, ops[0], k, ticket);
      NobodyOvertakes(Step(s, ops[0]), ops[1..], if ops[0].DoRelease? then k - 1 else k, ticket);
    }
  }
}
