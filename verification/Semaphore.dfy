/** Counting semaphores: rt_sem_take, rt_sem_release, rt_sem_control, waiter timeouts, and waiters
    whose priority changes. */
module Semaphore {
  import opened RtDef
  import opened WaitList

  /** `taken` and `released` count the successful takes and releases; a release that finds a
      waiter hands its unit over, so it counts as a take as well. `adjusted` is what resets have added
      to the value or taken from it. */
  datatype State = State(value: int, waiters: seq<Waiter>, flag: Flag, taken: nat, released: nat, adjusted: int, tickets: int) {
    ghost predicate Inv() {
      && 0 <= value <= RT_UINT16_MAX
      && (value > 0 ==> waiters == [])
      && OneEntryEach(waiters)
      && forall w :: w in waiters ==> w.ticket < tickets
    }
  }

  datatype Outcome = Ok | Timeout | Blocked | Full

  /** rt_sem_take up to the schedule point. */
  function TakeStep(s: State, t: int, prio: int, time: int): (State, Outcome) {
    if s.value > 0 then (s.(value := s.value - 1, taken := s.taken + 1), Ok)
    else if time == 0 then (s, Timeout)
    else (s.(waiters := Enqueue(s.waiters, Waiter(t, prio, s.tickets), s.flag), tickets := s.tickets + 1), Blocked)
  }

  function ReleaseStep(s: State): (State, Outcome) {
    if s.waiters != [] then (s.(waiters := s.waiters[1..], taken := s.taken + 1, released := s.released + 1), Ok)
    else if s.value < RT_UINT16_MAX then (s.(value := s.value + 1, released := s.released + 1), Ok)
    else (s, Full)
  }

  /** The timer of a waiter fires. */
  function Expire(s: State, t: int): State {
    s.(waiters := Without(s.waiters, t))
  }

  /** RT_IPC_CMD_RESET: all waiters return with an error and the value is set, as 16 bits. */
  function ResetStep(s: State, value: nat): State {
    s.(waiters := [], value := value % 0x10000, adjusted := s.adjusted + value % 0x10000 - s.value)
  }

  datatype Op =
    | DoTake(thread: int, prio: int, time: int)
    | DoRelease
    | DoExpire(thread: int)
    | DoPriority(thread: int, prio: int)
    | DoReset(value: nat)

  /** A suspended thread runs no code, so it cannot take again. */
  predicate Allowed(s: State, op: Op) {
    op.DoTake? ==> !Waits(s.waiters, op.thread)
  }

  function Step(s: State, op: Op): State {
    match op
    case DoTake(t, p, time) => TakeStep(s, t, p, time).0
    case DoRelease => ReleaseStep(s).0
    case DoExpire(t) => Expire(s, t)
    case DoPriority(t, p) => s.(waiters := Reprio(s.waiters, t, p))
    case DoReset(v) => ResetStep(s, v)
  }

  predicate AllowedRun(s: State, ops: seq<Op>)
    decreases |ops|
  {
    ops != [] ==> Allowed(s, ops[0]) && AllowedRun(Step(s, ops[0]), ops[1..])
  }

  function Run(s: State, ops: seq<Op>): State
    decreases |ops|
  {
    if ops == [] then s else Run(Step(s, ops[0]), ops[1..])
  }

  /** The units that are there or out, less those that have come in. */
  function Balance(s: State): int {
    s.value + s.taken - s.released - s.adjusted
  }

  lemma StepKeeps(s: State, op: Op)
    requires s.Inv() && Allowed(s, op)
    ensures Step(s, op).Inv()
    ensures Balance(Step(s, op)) == Balance(s)
  {
    match op
    case DoTake(t, p, time) => TakeKeeps(s, t, p, time);
    case DoRelease =>
    case DoExpire(t) => WithoutMembers(s.waiters, t);
    case DoPriority(t, p) => ReprioQueued(s.waiters, s.tickets, {}, t, p);
    case DoReset(_) =>
  }

  lemma TakeKeeps(s: State, t: int, p: int, time: int)
    requires s.Inv() && !Waits(s.waiters, t)
    ensures TakeStep(s, t, p, time).0.Inv()
  {
    EnqueueQueued(s.waiters, s.flag, s.tickets, {}, t, p);
  }

  /** Over every run, whatever happens to the priorities of the waiters: nobody waits while a unit is
      available, the value stays in 16 bits, and no unit is lost or invented: initial value plus
      successful releases plus what resets added equals value plus successful takes. */
  lemma {:induction false} RunConserves(s: State, ops: seq<Op>)
    requires s.Inv() && AllowedRun(s, ops)
    ensures Run(s, ops).Inv()
    ensures var r := Run(s, ops);
      s.value + (r.released - s.released) + (r.adjusted - s.adjusted) == r.value + (r.taken - s.taken)
    decreases |ops|
  {
    if ops != [] {
      StepKeeps(s, ops[0]);
      RunConserves(Step(s, ops[0]), ops[1..]);
    }
  }

  // ----- serving order -----

  /** A change of priority suits the place where the thread stands. */
  ghost predicate KeepsPlace(s: State, op: Op) {
    op.DoPriority? ==> InPlace(s.waiters, op.thread, op.prio, s.flag)
  }

  /** The waiters stay in serving order through every step but a change of priority, and through
      that exactly when it suits the neighbours. */
  lemma StepOrder(s: State, op: Op)
    requires s.Inv() && Allowed(s, op) && Ordered(s.waiters, s.flag)
    ensures Ordered(Step(s, op).waiters, s.flag) <==> KeepsPlace(s, op)
  {
    match op
    case DoTake(t, p, time) => EnqueueKeepsOrder(s.waiters, Waiter(t, p, s.tickets), s.flag);
    case DoRelease =>
    case DoExpire(t) => WithoutKeepsOrder(s.waiters, t, s.flag);
    case DoPriority(t, p) => ReprioOrder(s.waiters, t, p, s.flag);
    case DoReset(_) =>
  }

  ghost predicate OrderedThroughout(s: State, ops: seq<Op>)
    decreases |ops|
  {
    Ordered(s.waiters, s.flag) && (ops != [] ==> OrderedThroughout(Step(s, ops[0]), ops[1..]))
  }

  ghost predicate PlacesKept(s: State, ops: seq<Op>)
    decreases |ops|
  {
    ops != [] ==> KeepsPlace(s, ops[0]) && PlacesKept(Step(s, ops[0]), ops[1..])
  }

  /** Over every run the waiters are in serving order in all states exactly when every change of
      priority suits the place of its thread at that moment. */
  lemma {:induction false} RunOrder(s: State, ops: seq<Op>)
    requires s.Inv() && AllowedRun(s, ops) && Ordered(s.waiters, s.flag)
    ensures OrderedThroughout(s, ops) <==> PlacesKept(s, ops)
    decreases |ops|
  {
    if ops != [] {
      StepOrder(s, ops[0]);
      StepKeeps(s, ops[0]);
      if Ordered(Step(s, ops[0]).waiters, s.flag) {
        RunOrder(Step(s, ops[0]), ops[1..]);
      }
    }
  }

  /** Nobody who keeps waiting comes before the waiter that a release serves, if the list is in
      serving order; the release fails exactly at the top value. */
  lemma ReleaseServesFirst(s: State, w: Waiter)
    requires s.Inv() && Ordered(s.waiters, s.flag) && w in ReleaseStep(s).0.waiters
    ensures Before(s.waiters[0], w, s.flag)
  {
    var rest := ReleaseStep(s).0.waiters;
    var i :| 0 <= i < |rest| && rest[i] == w;
    assert s.waiters[i + 1] == w;
  }

  lemma ReleaseFull(s: State)
    requires s.Inv()
    ensures ReleaseStep(s).1 == Full <==> s.value == RT_UINT16_MAX
  {
  }

  lemma RunThree(s0: State, s1: State, s2: State, s3: State, a: Op, b: Op, c: Op)
    requires Allowed(s0, a) && Step(s0, a) == s1 && Allowed(s1, b) && Step(s1, b) == s2 && Allowed(s2, c) && Step(s2, c) == s3
    ensures AllowedRun(s0, [a, b, c]) && Run(s0, [a, b, c]) == s3
  {
    assert [a, b, c][1..] == [b, c] && [b, c][1..] == [c] && [c][1..] == [];
    assert AllowedRun(s2, [c]) && Run(s2, [c]) == s3;
    assert AllowedRun(s1, [b, c]) && Run(s1, [b, c]) == s3;
  }

  lemma LiftSteps()
    ensures Step(State(0, [], Prio, 0, 0, 0, 0), DoTake(1, 20, -1)) == State(0, [Waiter(1, 20, 0)], Prio, 0, 0, 0, 1)
    ensures Step(State(0, [Waiter(1, 20, 0)], Prio, 0, 0, 0, 1), DoTake(2, 10, -1)) == State(0, [Waiter(2, 10, 1), Waiter(1, 20, 0)], Prio, 0, 0, 0, 2)
    ensures Step(State(0, [Waiter(2, 10, 1), Waiter(1, 20, 0)], Prio, 0, 0, 0, 2), DoPriority(1, 5)) == State(0, [Waiter(2, 10, 1), Waiter(1, 5, 0)], Prio, 0, 0, 0, 2)
  {
    assert Position([Waiter(1, 20, 0)], 10) == 0;
    assert Reprio([Waiter(2, 10, 1), Waiter(1, 20, 0)], 1, 5) == [Waiter(2, 10, 1), Waiter(1, 5, 0)];
  }

  /** A lifted waiter does not move, so a release can serve a worse one first: thread 1 waits with
      priority 20, thread 2 queues in front of it with priority 10, thread 1 is lifted to 5, and the
      release serves thread 2. */
  lemma LiftedWaiterIsPassedOver() returns (s: State, ops: seq<Op>)
    ensures s == State(0, [], Prio, 0, 0, 0, 0) && s.Inv() && AllowedRun(s, ops)
    ensures Run(s, ops).waiters == [Waiter(2, 10, 1), Waiter(1, 5, 0)]
    ensures ReleaseStep(Run(s, ops)).0.waiters == [Waiter(1, 5, 0)]
  {
    LiftSteps();
    s := State(0, [], Prio, 0, 0, 0, 0);
    ops := [DoTake(1, 20, -1), DoTake(2, 10, -1), DoPriority(1, 5)];
    RunThree(s, State(0, [Waiter(1, 20, 0)], Prio, 0, 0, 0, 1), State(0, [Waiter(2, 10, 1), Waiter(1, 20, 0)], Prio, 0, 0, 0, 2),
      State(0, [Waiter(2, 10, 1), Waiter(1, 5, 0)], Prio, 0, 0, 0, 2), ops[0], ops[1], ops[2]);
  }

  class Sem {
    var value: int
    var waiters: seq<Waiter>
    const flag: Flag
    ghost var taken: nat
    ghost var released: nat
    ghost var adjusted: int
    /** Model only: numbers the suspensions. */
    var tickets: int

    ghost function Contents(): State
      reads this
    {
      State(value, waiters, flag, taken, released, adjusted, tickets)
    }

    /** rt_sem_init */
    constructor (value: int, flag: Flag)
      requires 0 <= value < 0x10000
      ensures Contents() == State(value, [], flag, 0, 0, 0, 0) && Contents().Inv()
    {
      this.value, this.flag, waiters := value, flag, [];
      taken, released, adjusted, tickets := 0, 0, 0, 0;
    }

    /** rt_sem_take, from entry to the schedule point. */
    method Take(thread: int, prio: int, time: int) returns (r: Outcome)
      requires Contents().Inv() && !Waits(waiters, thread)
      modifies this
      ensures (Contents(), r) == TakeStep(old(Contents()), thread, prio, time) && Contents().Inv()
    {
      StepKeeps(Contents(), DoTake(thread, prio, time));
      if value > 0 {
        value := value - 1;
        taken := taken + 1;
        return Ok;
      }
      if time == 0 {
        return Timeout;
      }
      waiters := Suspend(waiters, Waiter(thread, prio, tickets), flag);
      tickets := tickets + 1;
      return Blocked;
    }

    /** rt_sem_release: the thread that is resumed, if any. */
    method Release() returns (r: Outcome)
      requires Contents().Inv()
      modifies this
      ensures (Contents(), r) == ReleaseStep(old(Contents())) && Contents().Inv()
    {
      StepKeeps(Contents(), DoRelease);
      if waiters != [] {
        waiters := waiters[1..];
        taken, released := taken + 1, released + 1;
        return Ok;
      }
      if value < RT_UINT16_MAX {
        value := value + 1;
        released := released + 1;
        return Ok;
      }
      return Full;
    }

    /** RT_IPC_CMD_RESET: every waiter is resumed with an error, then the value is set. */
    method Reset(newValue: int) returns (woken: seq<Waiter>)
      requires Contents().Inv() && 0 <= newValue
      modifies this
      ensures Contents() == ResetStep(old(Contents()), newValue) && Contents().Inv()
      ensures woken == old(waiters)
    {
      waiters, woken := ResumeAll(waiters);
      adjusted := adjusted + newValue % 0x10000 - value;
      value := newValue % 0x10000;
    }
  }
}
