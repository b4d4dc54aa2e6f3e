/** Fixed-block pools (mempool.c) on values: which blocks are free, in chain order, which are
    live, and who waits. Blocks are numbered from zero. */
module MemPoolSpec {
  import opened Sequences
  import opened WaitList

  /** `woken` holds the threads a release has resumed and that have not run since. */
  datatype State = State(total: nat, free: seq<nat>, live: set<nat>, waiters: seq<Waiter>, woken: set<int>, tickets: int)

  /** Every block is on the free chain, once, or live, and not both. */
  ghost predicate Partition(s: State) {
    && Distinct(s.free)
    && (forall k :: k in s.free ==> k < s.total && k !in s.live)
    && (forall k :: k in s.live ==> k < s.total)
    && |s.free| + |s.live| == s.total
  }

  /** A newcomer is linked in front, so the newest waiter comes first. */
  ghost predicate NewestFirst(ws: seq<Waiter>) {
    forall i, j :: 0 <= i < j < |ws| ==> ws[i].ticket > ws[j].ticket
  }

  ghost predicate WaitersOk(s: State) {
    && NewestFirst(s.waiters) && OneEntryEach(s.waiters)
    && forall w :: w in s.waiters ==> w.ticket < s.tickets && w.thread !in s.woken
  }

  /** Threads wait only as long as every free block is spoken for by a thread that has been
      resumed and is on its way. */
  predicate NoLostWakeup(s: State) {
    s.waiters != [] ==> |s.free| <= |s.woken|
  }

  ghost predicate Inv(s: State) {
    Partition(s) && WaitersOk(s) && NoLostWakeup(s)
  }

  datatype Outcome = Granted(block: nat) | Timeout | Blocked

  /** rt_mp_alloc by thread t, from entry or from the point where it was resumed; `time` is what
      is left of its waiting time. */
  function Alloc(s: State, t: int, time: int): (State, Outcome) {
    var s := s.(woken := s.woken - {t});
    if s.free != [] then (s.(free := s.free[1..], live := s.live + {s.free[0]}), Granted(s.free[0]))
    else if time == 0 then (s, Timeout)
    else (s.(waiters := [Waiter(t, 0, s.tickets)] + s.waiters, tickets := s.tickets + 1), Blocked)
  }

  function Wake(s: State): State {
    if s.waiters == [] then s
    else s.(waiters := s.waiters[1..], woken := s.woken + {s.waiters[0].thread})
  }

  /** rt_mp_free of a live block. */
  function Free(s: State, k: nat): State {
    Wake(s.(free := [k] + s.free, live := s.live - {k}))
  }

  function Expire(s: State, t: int): State {
    s.(waiters := Without(s.waiters, t))
  }

  datatype Op = DoAlloc(thread: int, time: int) | DoFree(block: nat) | DoExpire(thread: int)

  /** A suspended thread does not run, and only live blocks are freed. */
  predicate Allowed(s: State, op: Op) {
    match op
    case DoAlloc(t, _) => !Waits(s.waiters, t)
    case DoFree(k) => k in s.live
    case DoExpire(_) => true
  }

  function Step(s: State, op: Op): State {
    match op
    case DoAlloc(t, time) => Alloc(s, t, time).0
    case DoFree(k) => Free(s, k)
    case DoExpire(t) => Expire(s, t)
  }

  function FirstBlocks(n: nat): (q: seq<nat>)
    ensures |q| == n && forall k :: 0 <= k < n ==> q[k] == k
  {
    seq(n, k => k)
  }

  /** rt_mp_init chains the blocks in address order. */
  function Initial(total: nat): State {
    State(total, FirstBlocks(total), {}, [], {}, 0)
  }

  lemma InitialInv(total: nat)
    ensures Inv(Initial(total))
  {
    var s := Initial(total);
    forall k | k in s.free ensures k < total {
      var i :| 0 <= i < |s.free| && s.free[i] == k;
    }
  }

  lemma AllocPartition(s: State)
    requires Partition(s) && s.free != []
    ensures Partition(s.(free := s.free[1..], live := s.live + {s.free[0]}))
  {
    assert s.free[0] in s.free;
    forall k | k in s.free[1..] ensures k in s.free && k != s.free[0] {
      var i :| 0 <= i < |s.free[1..]| && s.free[1..][i] == k;
      assert s.free[i + 1] == k;
    }
  }

  lemma FreePartition(s: State, k: nat)
    requires Partition(s) && k in s.live
    ensures Partition(s.(free := [k] + s.free, live := s.live - {k}))
  {
    forall j | j in [k] + s.free ensures j == k || j in s.free {
    }
  }

  lemma {:induction false} WithoutNewestFirst(ws: seq<Waiter>, t: int)
    requires NewestFirst(ws)
    ensures NewestFirst(Without(ws, t))
  {
    if ws != [] {
      WithoutNewestFirst(ws[1..], t);
      if ws[0].thread != t {
        var rest := Without(ws[1..], t);
        forall j | 0 <= j < |rest| ensures ws[0].ticket > rest[j].ticket {
          StillThere(ws[1..], t, rest[j]);
        }
      }
    }
  }

  lemma {:induction false} StillThere(ws: seq<Waiter>, t: int, w: Waiter)
    requires w in Without(ws, t)
    ensures w in ws
  {
    if ws != [] && ws[0].thread != t && w != ws[0] {
      StillThere(ws[1..], t, w);
    }
  }

  lemma BlockKeeps(s: State, t: int)
    requires Inv(s) && s.free == [] && !Waits(s.waiters, t)
    ensures Inv(s.(woken := s.woken - {t}, waiters := [Waiter(t, 0, s.tickets)] + s.waiters, tickets := s.tickets + 1))
  {
    var ws := [Waiter(t, 0, s.tickets)] + s.waiters;
    forall i, j | 0 <= i < j < |ws| ensures ws[i].ticket > ws[j].ticket && ws[i].thread != ws[j].thread {
      assert s.waiters[j - 1] in s.waiters;
    }
  }

  lemma GrantKeeps(s: State, t: int)
    requires Inv(s) && s.free != [] && !Waits(s.waiters, t)
    ensures Inv(s.(woken := s.woken - {t}, free := s.free[1..], live := s.live + {s.free[0]}))
  {
    AllocPartition(s);
    RemoveOne(s.woken, t);
  }

  lemma WakeKeeps(s: State)
    requires Partition(s) && WaitersOk(s)
    requires s.waiters != [] ==> |s.free| <= |s.woken| + 1
    ensures Inv(Wake(s))
  {
    if s.waiters != [] {
      assert s.waiters[0] in s.waiters;
      forall w | w in s.waiters[1..] ensures w.thread != s.waiters[0].thread && w in s.waiters {
        var i :| 0 <= i < |s.waiters[1..]| && s.waiters[1..][i] == w;
        assert w == s.waiters[i + 1];
      }
    }
  }

  /** Every step keeps the partition, the waiting order and the absence of lost wakeups. */
  lemma StepKeeps(s: State, op: Op)
    requires Inv(s) && Allowed(s, op)
    ensures Inv(Step(s, op)) && Step(s, op).total == s.total
  {
    match op
    case DoAlloc(t, time) =>
      if s.free != [] {
        GrantKeeps(s, t);
      } else {
        BlockKeeps(s, t);
      }
    case DoFree(k) =>
      FreePartition(s, k);
      WakeKeeps(s.(free := [k] + s.free, live := s.live - {k}));
    case DoExpire(t) =>
      WithoutNewestFirst(s.waiters, t);
      WithoutMembers(s.waiters, t);
  }

  predicate AllowedRun(s: State, ops: seq<Op>)
    decreases |ops|
  {
    ops != [] ==> Allowed(s, ops[0]) && AllowedRun(Step(s, ops[0]), ops[1..])
  }

  function Run(s: State, ops: seq<Op>): State
    decreases |ops|
  {
    if ops == [] then s else Run(Step(s, ops[0]), ops[1..])
  }

  /** Over any run from an initialised pool, no block is lost, duplicated or handed out twice, and
      no wakeup is lost. */
  lemma {:induction false} RunKeeps(s: State, ops: seq<Op>)
    requires Inv(s) && AllowedRun(s, ops)
    ensures Inv(Run(s, ops)) && Run(s, ops).total == s.total
    decreases |ops|
  {
    if ops != [] {
      StepKeeps(s, ops[0]);
      RunKeeps(Step(s, ops[0]), ops[1..]);
    }
  }

  /** A release resumes the thread that began to wait last, unlike the other waiting lists. */
  lemma FreeServesNewest(s: State, k: nat, w: Waiter)
    requires Inv(s) && w in s.waiters
    ensures Free(s, k).woken == s.woken + {s.waiters[0].thread}
    ensures w == s.waiters[0] || w.ticket < s.waiters[0].ticket
  {
    var i :| 0 <= i < |s.waiters| && s.waiters[i] == w;
  }

  /** An allocation by a running thread returns a block exactly when one is free, whoever has been
      resumed for it: a resumed thread can find its block taken and wait again. */
  lemma AllocGrants(s: State, t: int, time: int)
    requires Inv(s)
    ensures Alloc(s, t, time).1.Granted? <==> |s.live| < s.total
    ensures Alloc(s, t, time).1.Granted? ==> Alloc(s, t, time).1.block !in s.live && Alloc(s, t, time).1.block < s.total
  {
    if s.free != [] {
      assert s.free[0] in s.free;
    }
  }

  /** Freeing the block just allocated restores the chain and the live set. */
  lemma FreeUndoesAlloc(s: State, t: int, time: int)
    requires Inv(s) && s.free != []
    ensures var r := Alloc(s, t, time); Free(r.0, r.1.block).free == s.free && Free(r.0, r.1.block).live == s.live
  {
    assert s.free[0] in s.free;
  }
}
