/** What each call on a memory pool does and answers, and whose block it is over runs. */
module MemPoolEffects {
  import opened WaitList
  import opened MemPoolSpec

  /** Thread t runs: it no longer counts as resumed. */
  function Runner(s: State, t: int): State {
    s.(woken := s.woken - {t})
  }

  /** An allocation is granted exactly if a block is free, and takes the first of the chain. Otherwise
      it comes back at once with a timeout if it may not wait, and else the caller waits in front of
      all others. */
  lemma AllocEffect(s: State, t: int, time: int)
    ensures var (r, answer) := Alloc(s, t, time);
      && (answer.Granted? <==> s.free != [])
      && (answer == Timeout <==> s.free == [] && time == 0)
      && (answer == Blocked <==> s.free == [] && time != 0)
      && (answer.Granted? ==> s.free == [answer.block] + r.free)
      && (answer.Granted? ==> r == Runner(s, t).(free := r.free, live := s.live + {answer.block}))
      && (answer == Timeout ==> r == Runner(s, t))
      && (answer == Blocked ==>
        r == Runner(s, t).(waiters := [Waiter(t, 0, s.tickets)] + s.waiters, tickets := s.tickets + 1))
  {
  }

  /** A freed block comes to the front of the chain, and the first waiter, if there is one, and nobody
      else is resumed. */
  lemma FreeEffect(s: State, k: nat)
    ensures var r := Free(s, k);
      if s.waiters == [] then r == s.(free := [k] + s.free, live := s.live - {k})
      else r == s.(free := [k] + s.free, live := s.live - {k},
                   waiters := s.waiters[1..], woken := s.woken + {s.waiters[0].thread})
  {
  }

  /** A timeout takes out the thread's entry alone. */
  lemma ExpireEffect(s: State, t: int) returns (k: nat)
    ensures Expire(s, t) == s.(waiters := Expire(s, t).waiters)
    ensures if Waits(s.waiters, t) then TakenOut(s.waiters, Expire(s, t).waiters, t, k) else Expire(s, t) == s
  {
    k := WithoutOne(s.waiters, t);
  }

  // ----- whose block it is -----

  function Answer(s: State, op: Op): Outcome {
    if op.DoAlloc? then Alloc(s, op.thread, op.time).1 else Timeout
  }

  /** The blocks that the allocations of a run return. */
  function Grants(s: State, ops: seq<Op>): seq<nat>
    decreases |ops|
  {
    if ops == [] then []
    else (if Answer(s, ops[0]).Granted? then [Answer(s, ops[0]).block] else []) + Grants(Step(s, ops[0]), ops[1..])
  }

  /** A step grants no live block, and a live block stays so unless it is freed. */
  lemma StepHolds(s: State, op: Op, k: nat)
    requires Inv(s) && Allowed(s, op) && k in s.live && op != DoFree(k)
    ensures k in Step(s, op).live && Answer(s, op) != Granted(k)
  {
    match op
    case DoAlloc(t, time) =>
      if s.free != [] {
        assert s.free[0] in s.free;
      }
    case DoFree(j) => FreeEffect(s, j);
    case DoExpire(_) =>
  }

  /** Over every run, a block that has been granted belongs to its owner until it is freed: it is
      granted to nobody else before. */
  lemma {:induction false} HeldIsNotGranted(s: State, ops: seq<Op>, k: nat)
    requires Inv(s) && AllowedRun(s, ops) && k in s.live && DoFree(k) !in ops
    ensures k in Run(s, ops).live && k !in Grants(s, ops)
    decreases |ops|
  {
    if ops != [] {
      assert ops[0] in ops && forall op :: op in ops[1..] ==> op in ops;
      StepHolds(s, ops[0], k);
      StepKeeps(s, ops[0]);
      HeldIsNotGranted(Step(s, ops[0]), ops[1..], k);
    }
  }
}
