/** Mutexes with priority inheritance (ipc.c): rt_mutex_take, rt_mutex_release and timeouts, on a
    system of mutexes and threads. A lower number is a better priority. */
module MutexSpec {
  import opened Sequences
  import WaitList

  const NONE: int := -1
  const HOLD_MAX: int := 0xff
  const NO_PRIORITY: int := 0xff

  /** `waiters` lists the suspended threads from the head of the list. */
  datatype Mutex = Mutex(value: int, owner: int, hold: int, original: int, waiters: seq<int>)

  type Prios = map<int, int>

  datatype Outcome = Ok | Full | Error | Timeout | Blocked

  /** The waiters with their current priorities; one without a priority counts as no worse than p. */
  function Waiters(ws: seq<int>, prio: Prios, p: int): (r: seq<WaitList.Waiter>)
    ensures |r| == |ws|
    ensures forall i :: 0 <= i < |ws| ==> r[i].thread == ws[i] && r[i].prio == if ws[i] in prio then prio[ws[i]] else p
  {
    seq(|ws|, i requires 0 <= i < |ws| => WaitList.Waiter(ws[i], if ws[i] in prio then prio[ws[i]] else p, 0))
  }

  /** _ipc_list_suspend under RT_IPC_FLAG_PRIO, the only flag a mutex has: the newcomer goes before
      the first thread whose current priority is worse. */
  function Position(ws: seq<int>, prio: Prios, p: int): (k: nat)
    ensures k <= |ws|
    ensures k < |ws| ==> ws[k] in prio && p < prio[ws[k]]
    ensures forall i :: 0 <= i < k && ws[i] in prio ==> prio[ws[i]] <= p
  {
    var k := WaitList.Position(Waiters(ws, prio, p), p);
    assert forall i :: 0 <= i < |ws| ==> Waiters(ws, prio, p)[i].thread == ws[i];
    k
  }

  function Insert(ws: seq<int>, prio: Prios, t: int, p: int): seq<int> {
    var k := Position(ws, prio, p);
    ws[..k] + [t] + ws[k..]
  }

  /** rt_mutex_take by thread t, up to the schedule point. */
  function Take(mu: Mutex, prio: Prios, t: int, time: int): (Mutex, Prios, Outcome)
    requires t in prio && (mu.value <= 0 && mu.owner != t ==> mu.owner in prio)
  {
    if mu.owner == t then
      if mu.hold < HOLD_MAX then (mu.(hold := mu.hold + 1), prio, Ok) else (mu, prio, Full)
    else if mu.value > 0 then
      var mu' := mu.(value := mu.value - 1, owner := t, original := prio[t]);
      if mu.hold < HOLD_MAX then (mu'.(hold := mu.hold + 1), prio, Ok) else (mu', prio, Full)
    else if time == 0 then (mu, prio, Timeout)
    else
      var prio' := if prio[t] < prio[mu.owner] then prio[mu.owner := prio[t]] else prio;
      (mu.(waiters := Insert(mu.waiters, prio', t, prio[t])), prio', Blocked)
  }

  /** rt_mutex_release by thread t. */
  function Release(mu: Mutex, prio: Prios, t: int): (Mutex, Prios, Outcome)
    requires mu.owner in prio || mu.owner != t
    requires forall w :: w in mu.waiters ==> w in prio
  {
    if mu.owner != t then (mu, prio, Error)
    else if mu.hold != 1 then (mu.(hold := mu.hold - 1), prio, Ok)
    else
      var prio' := prio[t := mu.original];
      if mu.waiters != [] then
        var h := mu.waiters[0];
        assert h in mu.waiters && h in prio;
        (Mutex(mu.value, h, 1, prio'[h], mu.waiters[1..]), prio', Ok)
      else (Mutex(mu.value + 1, NONE, 0, NO_PRIORITY, []), prio', Ok)
  }

  // ----- the system -----

  datatype State = State(mutexes: map<int, Mutex>, prio: Prios) {
    /** Each mutex is free (value 1, no owner, hold 0) or owned (value 0, hold at least 1). */
    ghost predicate Inv() {
      && NONE !in prio
      && (forall m :: m in mutexes ==> MutexOk(mutexes[m], prio))
      && (forall m, n, w :: m in mutexes && n in mutexes && w in mutexes[m].waiters && w in mutexes[n].waiters ==> m == n)
    }

    predicate Owns(t: int, m: int) { m in mutexes && mutexes[m].owner == t }

    predicate WaitsFor(t: int, m: int) { m in mutexes && t in mutexes[m].waiters }

    ghost predicate Suspended(t: int) { exists m :: WaitsFor(t, m) }

    /** Every owner is at least as urgent as each thread it keeps waiting. */
    ghost predicate Inherits() {
      forall m :: m in mutexes ==> MutexInherits(mutexes[m], prio)
    }

    ghost predicate AllSorted() {
      forall m :: m in mutexes ==> Sorted(mutexes[m].waiters, prio)
    }
  }

  ghost predicate MutexOk(mu: Mutex, prio: Prios) {
    && (|| (mu.value == 1 && mu.owner == NONE && mu.hold == 0 && mu.waiters == [])
        || (mu.value == 0 && mu.owner in prio && 1 <= mu.hold <= HOLD_MAX))
    && Distinct(mu.waiters) && mu.owner !in mu.waiters
    && forall w :: w in mu.waiters ==> w in prio
  }

  ghost predicate MutexInherits(mu: Mutex, prio: Prios) {
    forall w :: w in mu.waiters ==> Urgent(prio, mu.owner, w)
  }

  /** Thread a is at least as urgent as thread b. */
  predicate Urgent(prio: Prios, a: int, b: int) {
    a in prio && b in prio ==> prio[a] <= prio[b]
  }

  ghost predicate Sorted(ws: seq<int>, prio: Prios) {
    forall i, j :: 0 <= i < j < |ws| ==> Urgent(prio, ws[i], ws[j])
  }

  datatype Op = DoTake(m: int, t: int, time: int) | DoRelease(m: int, t: int) | DoExpire(m: int, t: int)

  /** A thread that is suspended does not run, and the timer of a thread unlinks it from the list in
      which it waits. */
  ghost predicate Runs(s: State, op: Op) {
    match op
    case DoTake(m, t, _) => m in s.mutexes && t in s.prio && !s.Suspended(t)
    case DoRelease(m, t) => m in s.mutexes && t in s.prio && !s.Suspended(t)
    case DoExpire(m, t) => s.WaitsFor(t, m)
  }

  /** Threads use one mutex at a time: nobody takes one while owning another. */
  ghost predicate OneAtATime(s: State, op: Op) {
    op.DoTake? ==> forall n :: n != op.m ==> !s.Owns(op.t, n)
  }

  function Step(s: State, op: Op): State
    requires s.Inv() && Runs(s, op)
  {
    match op
    case DoTake(m, t, time) =>
      var (mu, prio, _) := Take(s.mutexes[m], s.prio, t, time);
      State(s.mutexes[m := mu], prio)
    case DoRelease(m, t) =>
      var (mu, prio, _) := Release(s.mutexes[m], s.prio, t);
      State(s.mutexes[m := mu], prio)
    case DoExpire(m, t) =>
      s.(mutexes := s.mutexes[m := s.mutexes[m].(waiters := Unlinked(s.mutexes[m].waiters, t))])
  }

  // ----- lists -----

  lemma InsertMembers(ws: seq<int>, prio: Prios, t: int, p: int)
    ensures forall w :: w in Insert(ws, prio, t, p) <==> w in ws || w == t
    ensures Distinct(ws) && t !in ws ==> Distinct(Insert(ws, prio, t, p))
  {
    var k := Position(ws, prio, p);
    assert ws == ws[..k] + ws[k..];
    if Distinct(ws) && t !in ws {
      InsertNoRepeats(ws, k, t);
    }
  }

  lemma InsertNoRepeats(ws: seq<int>, k: nat, t: int)
    requires k <= |ws| && Distinct(ws) && t !in ws
    ensures Distinct(ws[..k] + [t] + ws[k..])
  {
    var r := ws[..k] + [t] + ws[k..];
    forall i, j | 0 <= i < j < |r| ensures r[i] != r[j] {
      assert i < k ==> r[i] == ws[i] && ws[i] in ws;
      assert i > k ==> r[i] == ws[i - 1];
      assert j < k ==> r[j] == ws[j];
      assert j > k ==> r[j] == ws[j - 1] && ws[j - 1] in ws;
    }
  }

  lemma InsertSorted(ws: seq<int>, prio: Prios, t: int)
    requires Sorted(ws, prio) && t in prio && forall w :: w in ws ==> w in prio
    ensures Sorted(Insert(ws, prio, t, prio[t]), prio)
  {
    var k := Position(ws, prio, prio[t]);
    var r := Insert(ws, prio, t, prio[t]);
    forall i, j | 0 <= i < j < |r| ensures Urgent(prio, r[i], r[j]) {
      if j < k {
        assert r[i] == ws[i] && r[j] == ws[j];
      } else if j == k {
        assert r[i] == ws[i];
      } else if i == k {
        assert r[j] == ws[j - 1] && ws[k] in ws && ws[j - 1] in ws;
        assert k < j - 1 ==> Urgent(prio, ws[k], ws[j - 1]);
      } else {
        assert r[j] == ws[j - 1] && r[i] == if i < k then ws[i] else ws[i - 1];
      }
    }
  }

  lemma {:induction false} UnlinkedSorted(ws: seq<int>, t: int, prio: Prios)
    requires Sorted(ws, prio)
    ensures Sorted(Unlinked(ws, t), prio) && forall w :: w in Unlinked(ws, t) ==> w in ws
  {
    if ws != [] {
      UnlinkedSorted(ws[1..], t, prio);
      if ws[0] != t {
        var rest := Unlinked(ws[1..], t);
        forall w | w in rest ensures Urgent(prio, ws[0], w) {
          var i :| 0 <= i < |ws[1..]| && ws[1..][i] == w;
          assert w == ws[i + 1];
        }
      }
    }
  }

  lemma SortedFrame(ws: seq<int>, prio: Prios, prio': Prios)
    requires Sorted(ws, prio) && forall w :: w in ws && w in prio' ==> w in prio && prio'[w] == prio[w]
    ensures Sorted(ws, prio')
  {
    forall i, j | 0 <= i < j < |ws| ensures Urgent(prio', ws[i], ws[j]) {
      assert ws[i] in ws && ws[j] in ws && Urgent(prio, ws[i], ws[j]);
    }
  }

  // ----- the ownership invariant, for any use -----

  lemma StepKeeps(s: State, op: Op)
    requires s.Inv() && Runs(s, op)
    ensures Step(s, op).Inv()
  {
    match op
    case DoTake(m, t, time) =>
      TakeKeeps(s, m, t, time);
    case DoRelease(m, t) =>
      ReleaseKeeps(s, m, t);
    case DoExpire(m, t) =>
      assert MutexOk(s.mutexes[m], s.prio);
      UnlinkedMeaning(s.mutexes[m].waiters, t);
  }

  lemma TakeKeeps(s: State, m: int, t: int, time: int)
    requires s.Inv() && Runs(s, DoTake(m, t, time))
    ensures Step(s, DoTake(m, t, time)).Inv()
  {
    var s' := Step(s, DoTake(m, t, time));
    assert forall n :: n in s.mutexes ==> !s.WaitsFor(t, n);
    TakeOk(s, m, t, time);
    forall n | n in s'.mutexes ensures MutexOk(s'.mutexes[n], s'.prio) {
      if n != m {
        OkFrame(s.mutexes[n], s.prio, s'.prio);
      }
    }
  }

  /** Well-formedness of a mutex depends on which threads there are, not on their priorities. */
  lemma OkFrame(mu: Mutex, prio: Prios, prio': Prios)
    requires MutexOk(mu, prio) && prio'.Keys == prio.Keys
    ensures MutexOk(mu, prio')
  {
  }

  lemma TakeOk(s: State, m: int, t: int, time: int)
    requires s.Inv() && Runs(s, DoTake(m, t, time)) && !s.WaitsFor(t, m)
    ensures var s' := Step(s, DoTake(m, t, time));
      && s'.mutexes.Keys == s.mutexes.Keys && (forall n :: n in s.mutexes && n != m ==> s'.mutexes[n] == s.mutexes[n])
      && s'.prio.Keys == s.prio.Keys && MutexOk(s'.mutexes[m], s'.prio)
      && forall w :: w in s'.mutexes[m].waiters ==> w in s.mutexes[m].waiters || w == t
  {
    assert MutexOk(s.mutexes[m], s.prio);
    InsertMembers(s.mutexes[m].waiters, Step(s, DoTake(m, t, time)).prio, t, s.prio[t]);
  }

  lemma ReleaseKeeps(s: State, m: int, t: int)
    requires s.Inv() && Runs(s, DoRelease(m, t))
    ensures Step(s, DoRelease(m, t)).Inv()
  {
    var mu := s.mutexes[m];
    var s' := Step(s, DoRelease(m, t));
    assert s'.prio.Keys == s.prio.Keys;
    assert forall w :: w in s'.mutexes[m].waiters ==> w in mu.waiters;
    forall n | n in s'.mutexes ensures MutexOk(s'.mutexes[n], s'.prio) {
      assert MutexOk(s.mutexes[n], s.prio);
      if mu.waiters != [] {
        assert mu.waiters[0] in mu.waiters && mu.waiters[0] !in mu.waiters[1..];
      }
    }
  }

  /** Only the owner lowers `hold`, by one; everybody else gets an error and changes nothing. */
  lemma OnlyOwnerLowersHold(s: State, op: Op, m: int)
    requires s.Inv() && Runs(s, op) && m in s.mutexes
    ensures Step(s, op).mutexes[m].hold < s.mutexes[m].hold ==>
      op.DoRelease? && op.m == m && s.mutexes[m].owner == op.t
    ensures op.DoRelease? && s.mutexes[op.m].owner != op.t ==> Step(s, op) == s
  {
    if op.DoRelease? {
      assert s.mutexes[op.m := s.mutexes[op.m]] == s.mutexes;
    }
  }

  // ----- one mutex at a time -----

  /** `base` gives each thread's own priority. A thread that owns nothing has it; an owner has at
      least that, and its mutex remembers it; owners run, and own one mutex each; the waiters are in
      order, and owners inherit. */
  ghost predicate Disciplined(s: State, base: Prios) {
    && base.Keys == s.prio.Keys
    && (forall t :: t in s.prio && (forall m :: !s.Owns(t, m)) ==> s.prio[t] == base[t])
    && (forall m :: m in s.mutexes ==> OwnerOk(s.mutexes[m], s.prio, base))
    && (forall t, m, n :: s.Owns(t, m) && s.Owns(t, n) && t in s.prio ==> m == n)
    && (forall t, m, n :: s.Owns(t, m) && s.WaitsFor(t, n) ==> t !in s.prio)
    && s.AllSorted() && s.Inherits()
  }

  ghost predicate OwnerOk(mu: Mutex, prio: Prios, base: Prios) {
    mu.owner in prio && mu.owner in base ==> mu.original == base[mu.owner] && prio[mu.owner] <= base[mu.owner]
  }

  /** A mutex whose threads have kept their priorities stays in order. */
  lemma MutexFrame(mu: Mutex, prio: Prios, prio': Prios, base: Prios)
    requires prio'.Keys == prio.Keys && Sorted(mu.waiters, prio) && MutexInherits(mu, prio) && OwnerOk(mu, prio, base)
    requires forall w :: (w in mu.waiters || w == mu.owner) && w in prio ==> prio'[w] == prio[w]
    ensures Sorted(mu.waiters, prio') && MutexInherits(mu, prio') && OwnerOk(mu, prio', base)
  {
    SortedFrame(mu.waiters, prio, prio');
  }

  lemma OthersKeep(s: State, s': State, base: Prios, m: int, t: int)
    requires s.Inv() && Disciplined(s, base) && m in s.mutexes && s.Owns(t, m) && t in s.prio
    requires m in s'.mutexes && s'.mutexes == s.mutexes[m := s'.mutexes[m]] && t in s'.prio && s'.prio == s.prio[t := s'.prio[t]]
    ensures forall n :: n in s.mutexes && n != m ==>
      Sorted(s'.mutexes[n].waiters, s'.prio) && MutexInherits(s'.mutexes[n], s'.prio) && OwnerOk(s'.mutexes[n], s'.prio, base)
  {
    forall n | n in s.mutexes && n != m
      ensures Sorted(s'.mutexes[n].waiters, s'.prio) && MutexInherits(s'.mutexes[n], s'.prio) && OwnerOk(s'.mutexes[n], s'.prio, base)
    {
      assert !s.Owns(t, n) && !s.WaitsFor(t, n);
      MutexFrame(s.mutexes[n], s.prio, s'.prio, base);
    }
  }

  lemma BlockDisciplined(s: State, base: Prios, m: int, t: int, time: int)
    requires s.Inv() && Runs(s, DoTake(m, t, time)) && OneAtATime(s, DoTake(m, t, time)) && Disciplined(s, base)
    requires s.mutexes[m].owner != t && s.mutexes[m].value == 0 && time != 0
    ensures Disciplined(Step(s, DoTake(m, t, time)), base)
  {
    var mu, o := s.mutexes[m], s.mutexes[m].owner;
    var s' := Step(s, DoTake(m, t, time));
    assert s.Owns(o, m) && !s.WaitsFor(t, m) && !s.WaitsFor(o, m);
    assert s'.prio == s.prio[o := s'.prio[o]];
    OthersKeep(s, s', base, m, o);
    InsertMembers(mu.waiters, s'.prio, t, s.prio[t]);
    SortedFrame(mu.waiters, s.prio, s'.prio);
    InsertSorted(mu.waiters, s'.prio, t);
    assert forall n, u :: s'.Owns(u, n) <==> s.Owns(u, n);
    assert forall n, u :: s'.WaitsFor(u, n) <==> s.WaitsFor(u, n) || (n == m && u == t);
    assert forall n :: !s.Owns(t, n);
  }

  lemma TakeDisciplined(s: State, base: Prios, m: int, t: int, time: int)
    requires s.Inv() && Runs(s, DoTake(m, t, time)) && OneAtATime(s, DoTake(m, t, time)) && Disciplined(s, base)
    ensures Disciplined(Step(s, DoTake(m, t, time)), base)
  {
    var mu := s.mutexes[m];
    var s' := Step(s, DoTake(m, t, time));
    if mu.owner != t && mu.value == 0 && time != 0 {
      BlockDisciplined(s, base, m, t, time);
    } else {
      assert s'.prio == s.prio && s'.mutexes == s.mutexes[m := s'.mutexes[m]];
      assert forall n, u :: s'.WaitsFor(u, n) <==> s.WaitsFor(u, n);
      if mu.owner != t && mu.value != 0 {
        assert forall n :: !s.Owns(t, n);
        assert forall n, u :: s'.Owns(u, n) <==> (n == m && u == t) || (n != m && s.Owns(u, n));
        assert forall n, u :: u in s.prio && s.Owns(u, n) ==> n != m;
        assert forall n :: !s.WaitsFor(t, n);
      } else {
        assert forall n, u :: s'.Owns(u, n) <==> s.Owns(u, n);
      }
    }
  }

  lemma HandOffDisciplined(s: State, base: Prios, m: int, t: int)
    requires s.Inv() && Runs(s, DoRelease(m, t)) && Disciplined(s, base) && s.mutexes[m].owner == t && s.mutexes[m].hold == 1
    ensures Disciplined(Step(s, DoRelease(m, t)), base)
    ensures Step(s, DoRelease(m, t)).prio[t] == base[t]
  {
    var mu := s.mutexes[m];
    var s' := Step(s, DoRelease(m, t));
    assert s.Owns(t, m) && forall n :: !s.WaitsFor(t, n);
    assert forall n :: n != m ==> !s.Owns(t, n);
    if mu.waiters != [] {
      HandOverDisciplined(s, base, m, t);
    } else {
      OthersKeep(s, s', base, m, t);
      assert forall n, u :: u in s.prio ==> (s'.Owns(u, n) <==> n != m && s.Owns(u, n));
      assert forall n, u :: s'.WaitsFor(u, n) ==> s.WaitsFor(u, n);
    }
  }

  /** The last release, with a waiter that takes over. */
  lemma HandOverDisciplined(s: State, base: Prios, m: int, t: int)
    requires s.Inv() && Runs(s, DoRelease(m, t)) && Disciplined(s, base) && s.mutexes[m].owner == t && s.mutexes[m].hold == 1
    requires s.mutexes[m].waiters != [] && forall n :: n != m ==> !s.Owns(t, n)
    ensures Disciplined(Step(s, DoRelease(m, t)), base)
    ensures Step(s, DoRelease(m, t)).prio[t] == base[t]
  {
    var ws := s.mutexes[m].waiters;
    var s' := Step(s, DoRelease(m, t));
    var h := ws[0];
    OthersKeep(s, s', base, m, t);
    assert s.Owns(t, m) && s.WaitsFor(h, m) && h != t;
    assert forall n :: !s.Owns(h, n);
    assert ws == [h] + ws[1..];
    SortedFrame(ws, s.prio, s'.prio);
    assert forall n, u :: s'.Owns(u, n) <==> (n == m && u == h) || (n != m && s.Owns(u, n));
    assert h !in ws[1..];
    assert forall n, u :: s'.WaitsFor(u, n) ==> s.WaitsFor(u, n) && !(u == h);
  }

  lemma ReleaseDisciplined(s: State, base: Prios, m: int, t: int)
    requires s.Inv() && Runs(s, DoRelease(m, t)) && Disciplined(s, base)
    ensures Disciplined(Step(s, DoRelease(m, t)), base)
  {
    var s' := Step(s, DoRelease(m, t));
    if s.mutexes[m].owner == t && s.mutexes[m].hold == 1 {
      HandOffDisciplined(s, base, m, t);
    } else {
      assert s'.prio == s.prio;
      assert forall n, u :: (s'.Owns(u, n) <==> s.Owns(u, n)) && (s'.WaitsFor(u, n) <==> s.WaitsFor(u, n));
    }
  }

  lemma ExpireDisciplined(s: State, base: Prios, m: int, t: int)
    requires s.Inv() && Runs(s, DoExpire(m, t)) && Disciplined(s, base)
    ensures Disciplined(Step(s, DoExpire(m, t)), base)
  {
    var s' := Step(s, DoExpire(m, t));
    UnlinkedSorted(s.mutexes[m].waiters, t, s.prio);
    assert forall n, u :: (s'.Owns(u, n) <==> s.Owns(u, n)) && (s'.WaitsFor(u, n) ==> s.WaitsFor(u, n));
  }

  lemma StepDisciplined(s: State, op: Op, base: Prios)
    requires s.Inv() && Runs(s, op) && OneAtATime(s, op) && Disciplined(s, base)
    ensures Disciplined(Step(s, op), base)
  {
    match op
    case DoTake(m, t, time) => TakeDisciplined(s, base, m, t, time);
    case DoRelease(m, t) => ReleaseDisciplined(s, base, m, t);
    case DoExpire(m, t) => ExpireDisciplined(s, base, m, t);
  }

  ghost predicate AllowedRun(s: State, ops: seq<Op>)
    requires s.Inv()
    decreases |ops|
  {
    ops != [] ==>
      && Runs(s, ops[0]) && OneAtATime(s, ops[0])
      && (StepKeeps(s, ops[0]); AllowedRun(Step(s, ops[0]), ops[1..]))
  }

  ghost function Run(s: State, ops: seq<Op>): (r: State)
    requires s.Inv() && AllowedRun(s, ops)
    ensures r.Inv()
    decreases |ops|
  {
    if ops == [] then s else
      StepKeeps(s, ops[0]);
      Run(Step(s, ops[0]), ops[1..])
  }

  /** Over every run in which threads use one mutex at a time: ownership is consistent, waiters stay
      in order, every owner is at least as urgent as each of its waiters, and whoever owns nothing
      has its own priority back. */
  lemma {:induction false} RunDisciplined(s: State, ops: seq<Op>, base: Prios)
    requires s.Inv() && AllowedRun(s, ops) && Disciplined(s, base)
    ensures Disciplined(Run(s, ops), base)
    decreases |ops|
  {
    if ops != [] {
      StepKeeps(s, ops[0]);
      StepDisciplined(s, ops[0], base);
      RunDisciplined(Step(s, ops[0]), ops[1..], base);
    }
  }

  /** The final release restores the priority the thread had when it took the mutex, and hands the
      mutex over to a waiter that is at least as urgent as all others. */
  lemma FinalRelease(s: State, base: Prios, m: int, t: int)
    requires s.Inv() && Runs(s, DoRelease(m, t)) && Disciplined(s, base) && s.mutexes[m].owner == t && s.mutexes[m].hold == 1
    ensures var s' := Step(s, DoRelease(m, t)); var h := s'.mutexes[m].owner;
      && s'.prio[t] == s.mutexes[m].original == base[t]
      && (s.mutexes[m].waiters == [] ==> h == NONE)
      && (s.mutexes[m].waiters != [] ==> h in s.mutexes[m].waiters && forall w :: w in s.mutexes[m].waiters ==> Urgent(s.prio, h, w))
  {
    HandOffDisciplined(s, base, m, t);
    var ws := s.mutexes[m].waiters;
    if ws != [] {
      assert ws[0] in ws;
      forall w | w in ws ensures Urgent(s.prio, ws[0], w) {
        var i :| 0 <= i < |ws| && ws[i] == w;
      }
    }
  }

  // ----- how much an owner inherits -----

  /** The owner has exactly the better one of its own priority and that of its first waiter. */
  ghost predicate Exact(s: State, base: Prios) {
    forall m :: m in s.mutexes ==> ExactMutex(s.mutexes[m], s.prio, base)
  }

  ghost predicate ExactMutex(mu: Mutex, prio: Prios, base: Prios) {
    mu.owner in prio && mu.owner in base && (mu.waiters != [] ==> mu.waiters[0] in prio) ==>
      prio[mu.owner] == if mu.waiters != [] && prio[mu.waiters[0]] < base[mu.owner] then prio[mu.waiters[0]] else base[mu.owner]
  }

  /** A timeout of t that takes nothing away from the owner: if t is the first waiter and lifts the
      owner, the second waiter lifts it just as far. */
  predicate LiftStays(mu: Mutex, t: int, prio: Prios, base: Prios) {
    mu.waiters != [] && mu.waiters[0] == t && t in prio && mu.owner in base && prio[t] < base[mu.owner] ==>
      |mu.waiters| > 1 && mu.waiters[1] in prio && prio[mu.waiters[1]] == prio[t]
  }

  /** Inheritance is exact after a timeout exactly when the timeout takes nothing away. */
  lemma TimeoutExact(s: State, base: Prios, m: int, t: int)
    requires s.Inv() && Runs(s, DoExpire(m, t)) && Disciplined(s, base) && Exact(s, base)
    ensures Exact(Step(s, DoExpire(m, t)), base) <==> LiftStays(s.mutexes[m], t, s.prio, base)
  {
    var s' := Step(s, DoExpire(m, t));
    TimeoutExactMutex(s.mutexes[m], s.prio, base, t);
    assert m in s'.mutexes;
  }

  lemma TimeoutExactMutex(mu: Mutex, prio: Prios, base: Prios, t: int)
    requires MutexOk(mu, prio) && base.Keys == prio.Keys && Sorted(mu.waiters, prio) && ExactMutex(mu, prio, base)
    ensures ExactMutex(mu.(waiters := Unlinked(mu.waiters, t)), prio, base) <==> LiftStays(mu, t, prio, base)
  {
    var ws := mu.waiters;
    if ws != [] {
      assert ws[0] in ws;
      if ws[0] == t {
        assert Unlinked(ws, t) == ws[1..];
        if |ws| > 1 {
          assert ws[1] in ws && Urgent(prio, ws[0], ws[1]);
        }
      }
    }
  }

  /** Inheritance stays exact through every step but a timeout, and through that exactly when it
      takes nothing away. */
  lemma StepExact(s: State, op: Op, base: Prios)
    requires s.Inv() && Runs(s, op) && OneAtATime(s, op) && Disciplined(s, base) && Exact(s, base)
    ensures Exact(Step(s, op), base) <==> (op.DoExpire? ==> LiftStays(s.mutexes[op.m], op.t, s.prio, base))
  {
    if op.DoExpire? {
      TimeoutExact(s, base, op.m, op.t);
    } else {
      CallExact(s, op, base);
    }
  }

  lemma CallExact(s: State, op: Op, base: Prios)
    requires s.Inv() && Runs(s, op) && OneAtATime(s, op) && Disciplined(s, base) && Exact(s, base) && !op.DoExpire?
    ensures Exact(Step(s, op), base)
  {
    StepDisciplined(s, op, base);
    StepKeeps(s, op);
    var s' := Step(s, op);
    forall n | n in s'.mutexes ensures ExactMutex(s'.mutexes[n], s'.prio, base) {
      if n == op.m {
        if op.DoTake? {
          TakeExact(s, base, op.m, op.t, op.time);
        } else {
          ReleaseExact(s, base, op.m, op.t);
        }
      } else {
        OtherExact(s, op, base, n);
      }
    }
  }

  ghost predicate ExactThroughout(s: State, ops: seq<Op>, base: Prios)
    requires s.Inv() && AllowedRun(s, ops)
    decreases |ops|
  {
    && Exact(s, base)
    && (ops != [] ==> (StepKeeps(s, ops[0]); ExactThroughout(Step(s, ops[0]), ops[1..], base)))
  }

  /** Every timeout of the run takes nothing away at its moment. */
  ghost predicate TimeoutsLeaveLift(s: State, ops: seq<Op>, base: Prios)
    requires s.Inv() && AllowedRun(s, ops)
    decreases |ops|
  {
    ops != [] ==>
      && (ops[0].DoExpire? ==> LiftStays(s.mutexes[ops[0].m], ops[0].t, s.prio, base))
      && (StepKeeps(s, ops[0]); TimeoutsLeaveLift(Step(s, ops[0]), ops[1..], base))
  }

  /** Over every run with one mutex at a time, timeouts included, inheritance is exact in all states
      exactly when no timeout takes a lift away. */
  lemma {:induction false} RunExact(s: State, ops: seq<Op>, base: Prios)
    requires s.Inv() && AllowedRun(s, ops) && Disciplined(s, base) && Exact(s, base)
    ensures ExactThroughout(s, ops, base) <==> TimeoutsLeaveLift(s, ops, base)
    decreases |ops|
  {
    if ops != [] {
      StepKeeps(s, ops[0]);
      StepDisciplined(s, ops[0], base);
      StepExact(s, ops[0], base);
      if Exact(Step(s, ops[0]), base) {
        RunExact(Step(s, ops[0]), ops[1..], base);
      }
    }
  }

  lemma OtherExact(s: State, op: Op, base: Prios, n: int)
    requires s.Inv() && Runs(s, op) && OneAtATime(s, op) && Disciplined(s, base) && !op.DoExpire? && n in s.mutexes && n != op.m
    requires ExactMutex(s.mutexes[n], s.prio, base)
    ensures ExactMutex(Step(s, op).mutexes[n], Step(s, op).prio, base)
  {
    var o, mu := s.mutexes[op.m].owner, s.mutexes[n];
    assert s.Owns(o, op.m);
    if mu.waiters != [] {
      assert s.WaitsFor(mu.waiters[0], n);
    }
    assert s.Owns(mu.owner, n);
  }

  lemma TakeExact(s: State, base: Prios, m: int, t: int, time: int)
    requires s.Inv() && Runs(s, DoTake(m, t, time)) && OneAtATime(s, DoTake(m, t, time)) && Disciplined(s, base)
    requires ExactMutex(s.mutexes[m], s.prio, base)
    ensures ExactMutex(Step(s, DoTake(m, t, time)).mutexes[m], Step(s, DoTake(m, t, time)).prio, base)
  {
    var mu := s.mutexes[m];
    assert s.Owns(mu.owner, m) && !s.WaitsFor(t, m);
    assert MutexOk(mu, s.prio);
    if mu.owner == t {
    } else if mu.value > 0 {
      assert forall n :: !s.Owns(t, n);
    } else if mu.waiters != [] {
      assert s.WaitsFor(mu.waiters[0], m);
    }
  }

  lemma ReleaseExact(s: State, base: Prios, m: int, t: int)
    requires s.Inv() && Runs(s, DoRelease(m, t)) && Disciplined(s, base)
    requires ExactMutex(s.mutexes[m], s.prio, base)
    ensures ExactMutex(Step(s, DoRelease(m, t)).mutexes[m], Step(s, DoRelease(m, t)).prio, base)
  {
    var mu := s.mutexes[m];
    if mu.owner == t && mu.hold == 1 && mu.waiters != [] {
      var h := mu.waiters[0];
      HandOffDisciplined(s, base, m, t);
      assert s.WaitsFor(h, m);
      assert forall n :: !s.Owns(h, n);
      if |mu.waiters| > 1 {
        assert Urgent(s.prio, mu.waiters[0], mu.waiters[1]);
        assert mu.waiters[1] in mu.waiters;
      }
    }
  }

  function Free(): Mutex {
    Mutex(1, NONE, 0, 255, [])
  }

  function Held(waiters: seq<int>): Mutex {
    Mutex(0, 1, 1, 20, waiters)
  }

  /** One mutex, thread 1 with the given priority, and thread 2 with priority 5. */
  function Solo(mu: Mutex, p: int): State {
    State(map[0 := mu], map[1 := p, 2 := 5])
  }

  lemma SoloInv(mu: Mutex, p: int)
    requires MutexOk(mu, map[1 := p, 2 := 5])
    ensures Solo(mu, p).Inv()
  {
  }

  lemma SoloFree()
    ensures Solo(Free(), 20).Inv() && Disciplined(Solo(Free(), 20), map[1 := 20, 2 := 5]) && Exact(Solo(Free(), 20), map[1 := 20, 2 := 5])
  {
    SoloInv(Free(), 20);
    var s := Solo(Free(), 20);
    assert s.mutexes[0].owner !in s.prio && Sorted(s.mutexes[0].waiters, s.prio) && MutexInherits(s.mutexes[0], s.prio);
  }

  lemma SoloTake()
    ensures Solo(Free(), 20).Inv() && Runs(Solo(Free(), 20), DoTake(0, 1, -1)) && OneAtATime(Solo(Free(), 20), DoTake(0, 1, -1))
    ensures Step(Solo(Free(), 20), DoTake(0, 1, -1)) == Solo(Held([]), 20)
  {
    SoloInv(Free(), 20);
    assert map[0 := Free()][0 := Held([])] == map[0 := Held([])];
  }

  lemma SoloBlock()
    ensures Solo(Held([]), 20).Inv() && Runs(Solo(Held([]), 20), DoTake(0, 2, 10)) && OneAtATime(Solo(Held([]), 20), DoTake(0, 2, 10))
    ensures Step(Solo(Held([]), 20), DoTake(0, 2, 10)) == Solo(Held([2]), 5)
  {
    SoloInv(Held([]), 20);
    assert Insert([], map[1 := 5, 2 := 5], 2, 5) == [2];
    assert map[1 := 20, 2 := 5][1 := 5] == map[1 := 5, 2 := 5];
    assert map[0 := Held([])][0 := Held([2])] == map[0 := Held([2])];
  }

  lemma SoloExpire()
    ensures Solo(Held([2]), 5).Inv() && Runs(Solo(Held([2]), 5), DoExpire(0, 2)) && Step(Solo(Held([2]), 5), DoExpire(0, 2)) == Solo(Held([]), 5)
    ensures Solo(Held([]), 5).Inv() && !Exact(Solo(Held([]), 5), map[1 := 20, 2 := 5])
  {
    SoloInv(Held([2]), 5);
    SoloInv(Held([]), 5);
    assert Unlinked([2], 2) == [];
    assert map[0 := Held([2])][0 := Held([])] == map[0 := Held([])];
    assert !ExactMutex(Solo(Held([]), 5).mutexes[0], map[1 := 5, 2 := 5], map[1 := 20, 2 := 5]);
  }

  lemma RunOne(s: State, op: Op, rest: seq<Op>)
    requires s.Inv() && Runs(s, op) && OneAtATime(s, op) && Step(s, op).Inv() && AllowedRun(Step(s, op), rest)
    ensures AllowedRun(s, [op] + rest) && Run(s, [op] + rest) == Run(Step(s, op), rest)
  {
    assert ([op] + rest)[1..] == rest;
  }

  /** A timeout does not lower the owner again: from a free mutex, thread 1 (priority 20) takes it,
      thread 2 (priority 5) blocks and lifts thread 1, and times out; thread 1 keeps priority 5
      although nobody waits, until its final release. */
  lemma TimeoutLeavesBoost() returns (s: State, ops: seq<Op>, base: Prios)
    ensures s == Solo(Free(), 20) && s.Inv() && AllowedRun(s, ops) && Disciplined(s, base) && Exact(s, base)
    ensures var r := Run(s, ops); r.prio == map[1 := 5, 2 := 5] && r.mutexes == map[0 := Held([])] && !Exact(r, base)
  {
    s, base := Solo(Free(), 20), map[1 := 20, 2 := 5];
    SoloFree();
    SoloTake();
    SoloBlock();
    SoloExpire();
    RunOne(Solo(Held([2]), 5), DoExpire(0, 2), []);
    RunOne(Solo(Held([]), 20), DoTake(0, 2, 10), [DoExpire(0, 2)]);
    RunOne(s, DoTake(0, 1, -1), [DoTake(0, 2, 10)] + ([DoExpire(0, 2)] + []));
    ops := [DoTake(0, 1, -1)] + ([DoTake(0, 2, 10)] + ([DoExpire(0, 2)] + []));
    assert [DoExpire(0, 2)] + [] == [DoExpire(0, 2)];
  }

  // ----- several mutexes at a time -----

  /** The first waiter, who gets the mutex next, is at least as urgent as the other ones. */
  ghost predicate HeadIsBest(ws: seq<int>, prio: Prios) {
    forall w :: w in ws ==> Urgent(prio, ws[0], w)
  }

  /** A thread that owns several mutexes and finally releases m goes back to the priority it had
      when it took m. Everybody still inherits after that release exactly when this priority is good
      enough for the waiters of every other mutex the thread owns, and the head of m's own list,
      whatever the order behind it, is the best of that list. */
  lemma NestedRelease(s: State, m: int, t: int)
    requires s.Inv() && Runs(s, DoRelease(m, t)) && s.Inherits()
    requires s.mutexes[m].owner == t && s.mutexes[m].hold == 1
    ensures Step(s, DoRelease(m, t)).Inherits() <==>
      && HeadIsBest(s.mutexes[m].waiters, s.prio)
      && forall n, w :: n != m && s.Owns(t, n) && w in s.mutexes[n].waiters ==> s.mutexes[m].original <= s.prio[w]
  {
    var mu := s.mutexes[m];
    var s' := Step(s, DoRelease(m, t));
    assert forall n :: !s.WaitsFor(t, n);
    forall n | n in s.mutexes && n != m ensures forall w :: w in s.mutexes[n].waiters ==> w in s.prio && s'.prio[w] == s.prio[w] {
      assert MutexOk(s.mutexes[n], s.prio) && !s.WaitsFor(t, n);
    }
    HandOffInherits(s, m, t);
    if s'.Inherits() {
      forall n, w | n != m && s.Owns(t, n) && w in s.mutexes[n].waiters ensures mu.original <= s.prio[w] {
        assert MutexInherits(s'.mutexes[n], s'.prio) && Urgent(s'.prio, t, w);
      }
    } else {
      var n :| n in s'.mutexes && !MutexInherits(s'.mutexes[n], s'.prio);
      if n != m {
        var w := ReleaseLoss(s, m, t, n);
      }
    }
  }

  lemma ReleaseLoss(s: State, m: int, t: int, n: int) returns (w: int)
    requires s.Inv() && Runs(s, DoRelease(m, t)) && s.Inherits() && s.mutexes[m].owner == t && s.mutexes[m].hold == 1
    requires n in s.mutexes && n != m && !MutexInherits(Step(s, DoRelease(m, t)).mutexes[n], Step(s, DoRelease(m, t)).prio)
    ensures s.Owns(t, n) && w in s.mutexes[n].waiters && w in s.prio && s.prio[w] < s.mutexes[m].original
  {
    var s' := Step(s, DoRelease(m, t));
    w :| w in s'.mutexes[n].waiters && !Urgent(s'.prio, s'.mutexes[n].owner, w);
    assert MutexInherits(s.mutexes[n], s.prio) && Urgent(s.prio, s.mutexes[n].owner, w);
    assert MutexOk(s.mutexes[n], s.prio) && !s.WaitsFor(t, n);
  }

  /** Handing m over to its first waiter. */
  lemma HandOffInherits(s: State, m: int, t: int)
    requires s.Inv() && Runs(s, DoRelease(m, t))
    requires s.mutexes[m].owner == t && s.mutexes[m].hold == 1
    ensures MutexInherits(Step(s, DoRelease(m, t)).mutexes[m], Step(s, DoRelease(m, t)).prio) <==> HeadIsBest(s.mutexes[m].waiters, s.prio)
  {
    var ws := s.mutexes[m].waiters;
    var s' := Step(s, DoRelease(m, t));
    assert MutexOk(s.mutexes[m], s.prio);
    if ws != [] {
      assert ws == [ws[0]] + ws[1..] && ws[0] in ws;
      assert forall w :: w in ws ==> w in s.prio && s'.prio[w] == s.prio[w];
      assert forall w :: w in ws <==> w == ws[0] || w in ws[1..];
    }
  }

  /** The call blocks and lifts the owner of m. */
  predicate Lifts(s: State, m: int, t: int, time: int)
    requires m in s.mutexes && t in s.prio
  {
    var mu := s.mutexes[m];
    mu.owner != t && mu.value <= 0 && time != 0 && mu.owner in s.prio && s.prio[t] < s.prio[mu.owner]
  }

  /** Blocking on m lifts its owner and nobody behind it: everybody still inherits exactly when the
      owner of each mutex that m's lifted owner itself waits for is urgent enough already. */
  lemma NestedTake(s: State, m: int, t: int, time: int)
    requires s.Inv() && Runs(s, DoTake(m, t, time)) && s.Inherits()
    ensures Step(s, DoTake(m, t, time)).Inherits() <==>
      (Lifts(s, m, t, time) ==> forall n :: s.WaitsFor(s.mutexes[m].owner, n) ==> s.prio[s.mutexes[n].owner] <= s.prio[t])
  {
    var mu := s.mutexes[m];
    var s' := Step(s, DoTake(m, t, time));
    assert MutexOk(mu, s.prio) && forall n :: !s.WaitsFor(t, n);
    forall n | n in s.mutexes
      ensures MutexInherits(s'.mutexes[n], s'.prio) <==>
        (Lifts(s, m, t, time) && s.WaitsFor(mu.owner, n) ==> s.prio[s.mutexes[n].owner] <= s.prio[t])
    {
      TakeInherits(s, m, t, time, n);
    }
  }

  lemma TakeInherits(s: State, m: int, t: int, time: int, n: int)
    requires s.Inv() && Runs(s, DoTake(m, t, time)) && s.Inherits() && n in s.mutexes && !s.WaitsFor(t, n) && !s.WaitsFor(t, m)
    ensures s.mutexes[n].waiters != [] ==> s.mutexes[n].owner in s.prio
    ensures MutexInherits(Step(s, DoTake(m, t, time)).mutexes[n], Step(s, DoTake(m, t, time)).prio) <==>
      (Lifts(s, m, t, time) && s.WaitsFor(s.mutexes[m].owner, n) ==> s.prio[s.mutexes[n].owner] <= s.prio[t])
  {
    assert MutexOk(s.mutexes[m], s.prio) && MutexOk(s.mutexes[n], s.prio) && MutexInherits(s.mutexes[n], s.prio);
    if s.mutexes[m].owner == t || s.mutexes[m].value > 0 || time == 0 {
      CalmInherits(s, m, t, time, n);
    } else if n == m {
      BlockInherits(s, m, t, time);
    } else {
      BehindInherits(s, m, t, time, n);
    }
  }

  /** A take that does not block. */
  lemma CalmInherits(s: State, m: int, t: int, time: int, n: int)
    requires s.Inv() && Runs(s, DoTake(m, t, time)) && n in s.mutexes && MutexInherits(s.mutexes[n], s.prio)
    requires s.mutexes[m].owner == t || s.mutexes[m].value > 0 || time == 0
    ensures MutexInherits(Step(s, DoTake(m, t, time)).mutexes[n], Step(s, DoTake(m, t, time)).prio)
  {
    assert MutexOk(s.mutexes[m], s.prio);
  }

  /** The waiters of m itself, the newcomer among them. */
  lemma BlockInherits(s: State, m: int, t: int, time: int)
    requires s.Inv() && Runs(s, DoTake(m, t, time)) && MutexInherits(s.mutexes[m], s.prio) && !s.WaitsFor(s.mutexes[m].owner, m)
    requires s.mutexes[m].owner != t && s.mutexes[m].value <= 0 && time != 0 && s.mutexes[m].owner in s.prio
    ensures MutexInherits(Step(s, DoTake(m, t, time)).mutexes[m], Step(s, DoTake(m, t, time)).prio)
  {
    var mu, o := s.mutexes[m], s.mutexes[m].owner;
    var s' := Step(s, DoTake(m, t, time));
    InsertMembers(mu.waiters, s'.prio, t, s.prio[t]);
    forall w | w in s'.mutexes[m].waiters ensures Urgent(s'.prio, o, w) {
      if w != t {
        assert w in mu.waiters && w != o && Urgent(s.prio, o, w);
      }
    }
  }

  /** The waiters of another mutex, the lifted owner perhaps among them. */
  lemma BehindInherits(s: State, m: int, t: int, time: int, n: int)
    requires s.Inv() && Runs(s, DoTake(m, t, time)) && n in s.mutexes && n != m && MutexInherits(s.mutexes[n], s.prio)
    requires s.mutexes[m].owner != t && s.mutexes[m].value <= 0 && time != 0 && s.mutexes[m].owner in s.prio
    requires MutexOk(s.mutexes[n], s.prio)
    ensures MutexInherits(Step(s, DoTake(m, t, time)).mutexes[n], Step(s, DoTake(m, t, time)).prio) <==>
      (Lifts(s, m, t, time) && s.WaitsFor(s.mutexes[m].owner, n) ==> s.prio[s.mutexes[n].owner] <= s.prio[t])
  {
    var o, p := s.mutexes[m].owner, s.mutexes[n].owner;
    var s' := Step(s, DoTake(m, t, time));
    assert s'.mutexes[n] == s.mutexes[n];
    forall w | w in s.mutexes[n].waiters && w != o ensures Urgent(s'.prio, p, w) {
      assert Urgent(s.prio, p, w);
    }
    if s.WaitsFor(o, n) {
      assert p != o && Urgent(s.prio, p, o);
      assert Lifts(s, m, t, time) ==> (Urgent(s'.prio, p, o) <==> s.prio[p] <= s.prio[t]);
    }
  }

  /** What a step with any number of mutexes per thread needs so that everybody still inherits: a
      take lifts nobody whose own owner stays behind, and a final release falls back to a priority
      that is good enough and hands over to the best waiter. A timeout needs nothing. */
  ghost predicate KeepsInheritance(s: State, op: Op)
    requires s.Inv() && Runs(s, op)
  {
    match op
    case DoTake(m, t, time) =>
      Lifts(s, m, t, time) ==> forall n :: s.WaitsFor(s.mutexes[m].owner, n) ==> s.prio[s.mutexes[n].owner] <= s.prio[t]
    case DoRelease(m, t) =>
      s.mutexes[m].owner == t && s.mutexes[m].hold == 1 ==>
        && HeadIsBest(s.mutexes[m].waiters, s.prio)
        && forall n, w :: n != m && s.Owns(t, n) && w in s.mutexes[n].waiters ==> s.mutexes[m].original <= s.prio[w]
    case DoExpire(_, _) => true
  }

  lemma StepInherits(s: State, op: Op)
    requires s.Inv() && Runs(s, op) && s.Inherits()
    ensures Step(s, op).Inherits() <==> KeepsInheritance(s, op)
  {
    match op
    case DoTake(m, t, time) => NestedTake(s, m, t, time);
    case DoRelease(m, t) =>
      if s.mutexes[m].owner == t && s.mutexes[m].hold == 1 {
        NestedRelease(s, m, t);
      } else {
        HeldInherits(s, m, t);
      }
    case DoExpire(m, t) => ExpireInherits(s, m, t);
  }

  lemma HeldInherits(s: State, m: int, t: int)
    requires s.Inv() && Runs(s, DoRelease(m, t)) && s.Inherits() && !(s.mutexes[m].owner == t && s.mutexes[m].hold == 1)
    ensures Step(s, DoRelease(m, t)).Inherits()
  {
    var s' := Step(s, DoRelease(m, t));
    assert s'.prio == s.prio;
    forall n | n in s'.mutexes ensures MutexInherits(s'.mutexes[n], s'.prio) {
      assert MutexInherits(s.mutexes[n], s.prio);
    }
  }

  lemma ExpireInherits(s: State, m: int, t: int)
    requires s.Inv() && Runs(s, DoExpire(m, t)) && s.Inherits()
    ensures Step(s, DoExpire(m, t)).Inherits()
  {
    var s' := Step(s, DoExpire(m, t));
    assert MutexOk(s.mutexes[m], s.prio);
    UnlinkedMeaning(s.mutexes[m].waiters, t);
    forall n | n in s'.mutexes ensures MutexInherits(s'.mutexes[n], s'.prio) {
      assert MutexInherits(s.mutexes[n], s.prio);
    }
  }

  /** A run in which threads may own any number of mutexes. */
  ghost predicate NestedRun(s: State, ops: seq<Op>)
    requires s.Inv()
    decreases |ops|
  {
    ops != [] ==> Runs(s, ops[0]) && (StepKeeps(s, ops[0]); NestedRun(Step(s, ops[0]), ops[1..]))
  }

  ghost function NestedEnd(s: State, ops: seq<Op>): (r: State)
    requires s.Inv() && NestedRun(s, ops)
    ensures r.Inv()
    decreases |ops|
  {
    if ops == [] then s else
      StepKeeps(s, ops[0]);
      NestedEnd(Step(s, ops[0]), ops[1..])
  }

  ghost predicate InheritsThroughout(s: State, ops: seq<Op>)
    requires s.Inv() && NestedRun(s, ops)
    decreases |ops|
  {
    s.Inherits() && (ops != [] ==> (StepKeeps(s, ops[0]); InheritsThroughout(Step(s, ops[0]), ops[1..])))
  }

  ghost predicate KeepsThroughout(s: State, ops: seq<Op>)
    requires s.Inv() && NestedRun(s, ops)
    decreases |ops|
  {
    ops != [] ==> KeepsInheritance(s, ops[0]) && (StepKeeps(s, ops[0]); KeepsThroughout(Step(s, ops[0]), ops[1..]))
  }

  /** Over every run of takes, releases and timeouts, with any nesting: every owner is at least as
      urgent as its waiters in all states exactly when each take and each final release meets its
      condition at its moment. */
  lemma {:induction false} RunInherits(s: State, ops: seq<Op>)
    requires s.Inv() && NestedRun(s, ops) && s.Inherits()
    ensures InheritsThroughout(s, ops) <==> KeepsThroughout(s, ops)
    decreases |ops|
  {
    if ops != [] {
      StepKeeps(s, ops[0]);
      StepInherits(s, ops[0]);
      if Step(s, ops[0]).Inherits() {
        RunInherits(Step(s, ops[0]), ops[1..]);
      }
    }
  }

  /** Lifting an owner does not move it in the list it waits in: the lists stay in order exactly
      when whoever stands right before it there is at least as urgent as the thread that blocks. */
  lemma NestedTakeOrder(s: State, m: int, t: int, time: int)
    requires s.Inv() && Runs(s, DoTake(m, t, time)) && s.AllSorted() && Lifts(s, m, t, time)
    ensures Step(s, DoTake(m, t, time)).AllSorted() <==>
      forall n, i :: n in s.mutexes && 0 < i < |s.mutexes[n].waiters| && s.mutexes[n].waiters[i] == s.mutexes[m].owner ==>
        s.prio[s.mutexes[n].waiters[i - 1]] <= s.prio[t]
  {
    var mu, o := s.mutexes[m], s.mutexes[m].owner;
    var s' := Step(s, DoTake(m, t, time));
    assert MutexOk(mu, s.prio) && !s.WaitsFor(t, m);
    forall n | n in s.mutexes
      ensures Sorted(s'.mutexes[n].waiters, s'.prio) <==> LiftedInOrder(s.mutexes[n].waiters, s.prio, o, s.prio[t])
    {
      assert MutexOk(s.mutexes[n], s.prio);
      if n == m {
        SortedFrame(mu.waiters, s.prio, s'.prio);
        InsertSorted(mu.waiters, s'.prio, t);
      } else {
        LiftOrder(s.mutexes[n].waiters, s.prio, o, s.prio[t]);
      }
    }
  }

  /** Whoever stands right before o is at least as urgent as p. */
  ghost predicate LiftedInOrder(ws: seq<int>, prio: Prios, o: int, p: int) {
    forall i :: 0 < i < |ws| && ws[i] == o && ws[i - 1] in prio ==> prio[ws[i - 1]] <= p
  }

  lemma LiftOrder(ws: seq<int>, prio: Prios, o: int, p: int)
    requires Distinct(ws) && Sorted(ws, prio) && o in prio && p < prio[o] && forall w :: w in ws ==> w in prio
    ensures Sorted(ws, prio[o := p]) <==> LiftedInOrder(ws, prio, o, p)
  {
    var lifted := prio[o := p];
    if LiftedInOrder(ws, prio, o, p) {
      forall i, j | 0 <= i < j < |ws| ensures Urgent(lifted, ws[i], ws[j]) {
        assert Urgent(prio, ws[i], ws[j]) && ws[i] != ws[j];
        if ws[j] == o && i < j - 1 {
          assert Urgent(prio, ws[i], ws[j - 1]) && ws[j - 1] in ws && ws[i] in ws;
        }
      }
    }
    if Sorted(ws, lifted) {
      forall i | 0 < i < |ws| && ws[i] == o ensures prio[ws[i - 1]] <= p {
        assert Urgent(lifted, ws[i - 1], ws[i]) && ws[i - 1] in ws;
      }
    }
  }

  /** Two mutexes, and threads 1 and 2 with the given priority of thread 1. */
  function Pair(a: Mutex, b: Mutex, p: int): State {
    State(map[0 := a, 1 := b], map[1 := p, 2 := 5])
  }

  lemma PairInv(a: Mutex, b: Mutex, p: int)
    requires MutexOk(a, map[1 := p, 2 := 5]) && MutexOk(b, map[1 := p, 2 := 5]) && b.waiters == []
    ensures Pair(a, b, p).Inv()
  {
  }

  lemma TakeFirst()
    ensures Pair(Free(), Free(), 20).Inv() && Runs(Pair(Free(), Free(), 20), DoTake(0, 1, -1))
    ensures Step(Pair(Free(), Free(), 20), DoTake(0, 1, -1)) == Pair(Held([]), Free(), 20)
  {
    PairInv(Free(), Free(), 20);
    assert map[0 := Free(), 1 := Free()][0 := Held([])] == map[0 := Held([]), 1 := Free()];
  }

  lemma TakeSecond()
    ensures Pair(Held([]), Free(), 20).Inv() && Runs(Pair(Held([]), Free(), 20), DoTake(1, 1, -1))
    ensures Step(Pair(Held([]), Free(), 20), DoTake(1, 1, -1)) == Pair(Held([]), Held([]), 20)
  {
    PairInv(Held([]), Free(), 20);
    assert map[0 := Held([]), 1 := Free()][1 := Held([])] == map[0 := Held([]), 1 := Held([])];
  }

  lemma Lift()
    ensures Pair(Held([]), Held([]), 20).Inv() && Runs(Pair(Held([]), Held([]), 20), DoTake(0, 2, -1))
    ensures Step(Pair(Held([]), Held([]), 20), DoTake(0, 2, -1)) == Pair(Held([2]), Held([]), 5)
  {
    PairInv(Held([]), Held([]), 20);
    assert Insert([], map[1 := 5, 2 := 5], 2, 5) == [2];
    assert map[1 := 20, 2 := 5][1 := 5] == map[1 := 5, 2 := 5];
    assert map[0 := Held([]), 1 := Held([])][0 := Held([2])] == map[0 := Held([2]), 1 := Held([])];
  }

  lemma LiftedInherits()
    ensures Pair(Held([2]), Held([]), 5).Inv() && Pair(Held([2]), Held([]), 5).Inherits()
    ensures Runs(Pair(Held([2]), Held([]), 5), DoRelease(1, 1))
  {
    PairInv(Held([2]), Held([]), 5);
  }

  lemma DropLoses()
    requires Pair(Held([2]), Held([]), 5).Inv() && Runs(Pair(Held([2]), Held([]), 5), DoRelease(1, 1))
    ensures !Step(Pair(Held([2]), Held([]), 5), DoRelease(1, 1)).Inherits()
  {
    var r := Step(Pair(Held([2]), Held([]), 5), DoRelease(1, 1));
    assert r.mutexes[0] == Held([2]) && r.prio[1] == 20 && r.prio[2] == 5;
    assert 2 in r.mutexes[0].waiters && !Urgent(r.prio, 1, 2);
    assert !MutexInherits(r.mutexes[0], r.prio);
  }

  /** With nested mutexes inheritance is lost in a reachable state: thread 1 (priority 20) takes two
      mutexes, thread 2 (priority 5) blocks on the first and lifts thread 1 to 5, and the release of
      the second mutex drops thread 1 to 20 again. */
  lemma NestingLosesInheritance() returns (s: State, lifted: State, dropped: State)
    ensures s.Inv() && s == Pair(Free(), Free(), 20)
    ensures Runs(s, DoTake(0, 1, -1)) && Step(s, DoTake(0, 1, -1)).Inv()
    ensures var s1 := Step(s, DoTake(0, 1, -1)); Runs(s1, DoTake(1, 1, -1)) && Step(s1, DoTake(1, 1, -1)).Inv()
    ensures var s2 := Step(Step(s, DoTake(0, 1, -1)), DoTake(1, 1, -1));
      Runs(s2, DoTake(0, 2, -1)) && lifted == Step(s2, DoTake(0, 2, -1))
    ensures lifted.Inv() && lifted.Inherits() && lifted.prio[1] == 5
    ensures Runs(lifted, DoRelease(1, 1)) && dropped == Step(lifted, DoRelease(1, 1)) && !dropped.Inherits()
  {
    TakeFirst();
    TakeSecond();
    Lift();
    LiftedInherits();
    DropLoses();
    s, lifted := Pair(Free(), Free(), 20), Pair(Held([2]), Held([]), 5);
    dropped := Step(lifted, DoRelease(1, 1));
  }

  function Mine(owner: int, original: int, waiters: seq<int>): Mutex {
    Mutex(0, owner, 1, original, waiters)
  }

  /** Two mutexes, threads 1 and 2 with the given priorities, and thread 3 with priority 5. */
  function Chain(a: Mutex, b: Mutex, p: int, q: int): State {
    State(map[0 := a, 1 := b], map[1 := p, 2 := q, 3 := 5])
  }

  lemma ChainInv(a: Mutex, b: Mutex, p: int, q: int)
    requires MutexOk(a, map[1 := p, 2 := q, 3 := 5]) && MutexOk(b, map[1 := p, 2 := q, 3 := 5])
    requires forall w :: w in a.waiters ==> w !in b.waiters
    ensures Chain(a, b, p, q).Inv()
  {
  }

  lemma ChainTakes()
    ensures var s := Chain(Free(), Free(), 20, 10); s.Inv() && Runs(s, DoTake(0, 1, -1)) && Step(s, DoTake(0, 1, -1)) == Chain(Mine(1, 20, []), Free(), 20, 10)
    ensures var s := Chain(Mine(1, 20, []), Free(), 20, 10); s.Inv() && Runs(s, DoTake(1, 2, -1)) && Step(s, DoTake(1, 2, -1)) == Chain(Mine(1, 20, []), Mine(2, 10, []), 20, 10)
  {
    ChainInv(Free(), Free(), 20, 10);
    ChainInv(Mine(1, 20, []), Free(), 20, 10);
    assert map[0 := Free(), 1 := Free()][0 := Mine(1, 20, [])] == map[0 := Mine(1, 20, []), 1 := Free()];
    assert map[0 := Mine(1, 20, []), 1 := Free()][1 := Mine(2, 10, [])] == map[0 := Mine(1, 20, []), 1 := Mine(2, 10, [])];
  }

  lemma ChainBlocks()
    ensures var s := Chain(Mine(1, 20, []), Mine(2, 10, []), 20, 10); s.Inv() && Runs(s, DoTake(0, 2, -1)) && Step(s, DoTake(0, 2, -1)) == Chain(Mine(1, 20, [2]), Mine(2, 10, []), 10, 10)
  {
    ChainInv(Mine(1, 20, []), Mine(2, 10, []), 20, 10);
    var lifted := map[1 := 10, 2 := 10, 3 := 5];
    assert map[1 := 20, 2 := 10, 3 := 5][1 := 10] == lifted;
    assert Insert([], lifted, 2, 10) == [2];
    assert map[0 := Mine(1, 20, []), 1 := Mine(2, 10, [])][0 := Mine(1, 20, [2])] == map[0 := Mine(1, 20, [2]), 1 := Mine(2, 10, [])];
  }

  lemma ChainLoses()
    ensures var s := Chain(Mine(1, 20, [2]), Mine(2, 10, []), 10, 10); s.Inv() && s.Inherits() && Runs(s, DoTake(1, 3, -1)) && !Step(s, DoTake(1, 3, -1)).Inherits()
  {
    var s := Chain(Mine(1, 20, [2]), Mine(2, 10, []), 10, 10);
    ChainInv(Mine(1, 20, [2]), Mine(2, 10, []), 10, 10);
    assert s.WaitsFor(2, 0) && Lifts(s, 1, 3, -1);
    NestedTake(s, 1, 3, -1);
  }

  /** Inheritance is not passed on along a chain of owners: from free mutexes, thread 1 (priority 20)
      takes mutex 0, thread 2 (priority 10) takes mutex 1 and waits for mutex 0, and thread 3 (priority
      5) waits for mutex 1; thread 2 is lifted to 5, and thread 1, who keeps it waiting, is not. */
  lemma ChainLosesInheritance() returns (s: State, chained: State)
    ensures s == Chain(Free(), Free(), 20, 10) && s.Inv()
    ensures Runs(s, DoTake(0, 1, -1)) && Step(s, DoTake(0, 1, -1)).Inv()
    ensures var s1 := Step(s, DoTake(0, 1, -1)); Runs(s1, DoTake(1, 2, -1)) && Step(s1, DoTake(1, 2, -1)).Inv()
    ensures var s2 := Step(Step(s, DoTake(0, 1, -1)), DoTake(1, 2, -1)); Runs(s2, DoTake(0, 2, -1)) && chained == Step(s2, DoTake(0, 2, -1))
    ensures chained.Inv() && chained.Inherits() && Runs(chained, DoTake(1, 3, -1)) && !Step(chained, DoTake(1, 3, -1)).Inherits()
  {
    ChainTakes();
    ChainBlocks();
    ChainLoses();
    s, chained := Chain(Free(), Free(), 20, 10), Chain(Mine(1, 20, [2]), Mine(2, 10, []), 10, 10);
  }

  /** Two mutexes, and threads 1 to 4 with the given priorities of threads 1 and 2. */
  function Crowd(a: Mutex, b: Mutex, p: int, q: int): State {
    State(map[0 := a, 1 := b], CrowdPrio(p, q))
  }

  ghost predicate Goes(s: State, op: Op, s': State) {
    s.Inv() && Runs(s, op) && s'.Inv() && Step(s, op) == s'
  }

  lemma CrowdInv(a: Mutex, b: Mutex, p: int, q: int)
    requires MutexOk(a, CrowdPrio(p, q)) && MutexOk(b, CrowdPrio(p, q))
    requires forall w :: w in a.waiters ==> w !in b.waiters
    ensures Crowd(a, b, p, q).Inv()
  {
  }

  function CrowdPrio(p: int, q: int): Prios {
    map[1 := p, 2 := q, 3 := 5, 4 := 10]
  }

  /** A take of one of the two mutexes, computed on that mutex alone. */
  lemma CrowdTake(a: Mutex, b: Mutex, p: int, q: int, m: int, t: int, c: Mutex, p': int)
    requires Crowd(a, b, p, q).Inv() && (m == 0 || m == 1) && t in CrowdPrio(p, q) && t !in a.waiters && t !in b.waiters
    requires var mu := if m == 0 then a else b; mu.value <= 0 && mu.owner != t ==> mu.owner in CrowdPrio(p, q)
    requires Take(if m == 0 then a else b, CrowdPrio(p, q), t, -1).0 == c
    requires Take(if m == 0 then a else b, CrowdPrio(p, q), t, -1).1 == CrowdPrio(p', q)
    ensures Goes(Crowd(a, b, p, q), DoTake(m, t, -1), if m == 0 then Crowd(c, b, p', q) else Crowd(a, c, p', q))
  {
    assert map[0 := a, 1 := b][0 := c] == map[0 := c, 1 := b];
    assert map[0 := a, 1 := b][1 := c] == map[0 := a, 1 := c];
    StepKeeps(Crowd(a, b, p, q), DoTake(m, t, -1));
  }

  lemma CrowdTakes()
    ensures Goes(Crowd(Free(), Free(), 30, 20), DoTake(0, 1, -1), Crowd(Mine(1, 30, []), Free(), 30, 20))
  {
    CrowdInv(Free(), Free(), 30, 20);
    CrowdTake(Free(), Free(), 30, 20, 0, 1, Mine(1, 30, []), 30);
  }

  lemma CrowdTakesOther()
    ensures Goes(Crowd(Mine(1, 30, []), Free(), 30, 20), DoTake(1, 2, -1), Crowd(Mine(1, 30, []), Mine(2, 20, []), 30, 20))
  {
    CrowdInv(Mine(1, 30, []), Free(), 30, 20);
    CrowdTake(Mine(1, 30, []), Free(), 30, 20, 1, 2, Mine(2, 20, []), 30);
  }

  lemma CrowdWaits()
    ensures Goes(Crowd(Mine(1, 30, []), Mine(2, 20, []), 30, 20), DoTake(0, 2, -1), Crowd(Mine(1, 30, [2]), Mine(2, 20, []), 20, 20))
  {
    CrowdInv(Mine(1, 30, []), Mine(2, 20, []), 30, 20);
    assert CrowdPrio(30, 20)[1 := 20] == CrowdPrio(20, 20);
    assert Insert([], CrowdPrio(20, 20), 2, 20) == [2];
    CrowdTake(Mine(1, 30, []), Mine(2, 20, []), 30, 20, 0, 2, Mine(1, 30, [2]), 20);
  }

  lemma CrowdQueues()
    ensures Goes(Crowd(Mine(1, 30, [2]), Mine(2, 20, []), 20, 20), DoTake(0, 4, -1), Crowd(Mine(1, 30, [4, 2]), Mine(2, 20, []), 10, 20))
  {
    CrowdInv(Mine(1, 30, [2]), Mine(2, 20, []), 20, 20);
    assert CrowdPrio(20, 20)[1 := 10] == CrowdPrio(10, 20);
    assert Position([2], CrowdPrio(10, 20), 10) == 0;
    assert Insert([2], CrowdPrio(10, 20), 4, 10) == [4, 2];
    CrowdTake(Mine(1, 30, [2]), Mine(2, 20, []), 20, 20, 0, 4, Mine(1, 30, [4, 2]), 10);
  }

  lemma CrowdUnsorts()
    ensures var s := Crowd(Mine(1, 30, [4, 2]), Mine(2, 20, []), 10, 20);
      s.Inv() && s.AllSorted() && Runs(s, DoTake(1, 3, -1)) && !Step(s, DoTake(1, 3, -1)).AllSorted()
  {
    var s := Crowd(Mine(1, 30, [4, 2]), Mine(2, 20, []), 10, 20);
    CrowdInv(Mine(1, 30, [4, 2]), Mine(2, 20, []), 10, 20);
    assert Lifts(s, 1, 3, -1);
    assert s.mutexes[0].waiters[1] == s.mutexes[1].owner && s.prio[s.mutexes[0].waiters[0]] == 10;
    NestedTakeOrder(s, 1, 3, -1);
  }

  ghost predicate Leads(s: State, ops: seq<Op>, r: State) {
    s.Inv() && NestedRun(s, ops) && NestedEnd(s, ops) == r
  }

  lemma Prepend(s: State, op: Op, s': State, rest: seq<Op>, r: State) returns (ops: seq<Op>)
    requires Goes(s, op, s') && Leads(s', rest, r)
    ensures Leads(s, ops, r)
  {
    ops := [op] + rest;
    assert ops[1..] == rest;
  }

  lemma CrowdGathers() returns (ops: seq<Op>)
    ensures Leads(Crowd(Mine(1, 30, []), Mine(2, 20, []), 30, 20), ops, Crowd(Mine(1, 30, [4, 2]), Mine(2, 20, []), 10, 20))
  {
    var r := Crowd(Mine(1, 30, [4, 2]), Mine(2, 20, []), 10, 20);
    CrowdWaits();
    CrowdQueues();
    assert Leads(r, [], r);
    ops := Prepend(Crowd(Mine(1, 30, [2]), Mine(2, 20, []), 20, 20), DoTake(0, 4, -1), r, [], r);
    ops := Prepend(Crowd(Mine(1, 30, []), Mine(2, 20, []), 30, 20), DoTake(0, 2, -1), Crowd(Mine(1, 30, [2]), Mine(2, 20, []), 20, 20), ops, r);
  }

  /** A list of waiters comes out of order: from free mutexes, thread 1 (priority 30) takes mutex 0,
      thread 2 (priority 20) takes mutex 1 and waits for mutex 0, thread 4 (priority 10) queues in front
      of it, and thread 3 (priority 5) waits for mutex 1 and lifts thread 2, which stays behind. */
  lemma LiftUnsortsList() returns (s: State, ops: seq<Op>, r: State)
    ensures s == Crowd(Free(), Free(), 30, 20) && Leads(s, ops, r) && r.AllSorted()
    ensures Runs(r, DoTake(1, 3, -1)) && !Step(r, DoTake(1, 3, -1)).AllSorted()
  {
    s, r := Crowd(Free(), Free(), 30, 20), Crowd(Mine(1, 30, [4, 2]), Mine(2, 20, []), 10, 20);
    CrowdTakes();
    CrowdTakesOther();
    CrowdUnsorts();
    ops := CrowdGathers();
    ops := Prepend(Crowd(Mine(1, 30, []), Free(), 30, 20), DoTake(1, 2, -1), Crowd(Mine(1, 30, []), Mine(2, 20, []), 30, 20), ops, r);
    ops := Prepend(s, DoTake(0, 1, -1), Crowd(Mine(1, 30, []), Free(), 30, 20), ops, r);
  }
}

/** The mutex object, and the current priorities of the threads. */
module Mutex {
  import opened Spec = MutexSpec

  class Threads {
    /** current_priority of every thread. */
    var prio: Prios

    constructor (prio: Prios)
      ensures this.prio == prio
    {
      this.prio := prio;
    }

    /** RT_THREAD_CTRL_CHANGE_PRIORITY: updates the priority. */
    method ChangePriority(t: int, p: int)
      modifies this
      ensures prio == old(prio)[t := p]
    {
      prio := prio[t := p];
    }
  }

  class Lock {
    var value: int
    var owner: int
    var hold: int
    var originalPriority: int
    var waiters: seq<int>

    ghost function Contents(): Spec.Mutex
      reads this
    {
      Spec.Mutex(value, owner, hold, originalPriority, waiters)
    }

    /** rt_mutex_init */
    constructor ()
      ensures Contents() == Spec.Mutex(1, NONE, 0, NO_PRIORITY, []) && forall prio :: MutexOk(Contents(), prio)
    {
      value, owner, hold, originalPriority, waiters := 1, NONE, 0, NO_PRIORITY, [];
    }

    /** The loop of _ipc_list_suspend. */
    method Suspend(t: int, p: int, threads: Threads)
      requires forall w :: w in waiters ==> w in threads.prio
      modifies this`waiters
      ensures waiters == Insert(old(waiters), threads.prio, t, p)
    {
      var n := 0;
      while n < |waiters|
        invariant n <= Position(waiters, threads.prio, p) <= |waiters| && waiters == old(waiters)
        invariant forall w :: w in waiters ==> w in threads.prio
        decreases |waiters| - n
      {
        assert waiters[n] in waiters;
        if p < threads.prio[waiters[n]] {
          waiters := waiters[..n] + [t] + waiters[n..];
          return;
        }
        n := n + 1;
      }
      assert waiters == waiters[..n] && waiters[n..] == [];
      waiters := waiters + [t];
    }

    /** rt_mutex_take up to the schedule point. */
    method Take(t: int, time: int, threads: Threads) returns (r: Outcome)
      requires t in threads.prio && MutexOk(Contents(), threads.prio)
      modifies this, threads
      ensures (Contents(), threads.prio, r) == Spec.Take(old(Contents()), old(threads.prio), t, time)
    {
      if owner == t {
        if hold < HOLD_MAX {
          hold := hold + 1;
          return Ok;
        }
        return Full;
      }
      if value > 0 {
        value := value - 1;
        owner := t;
        originalPriority := threads.prio[t];
        assert hold < HOLD_MAX;
        hold := hold + 1;
        return Ok;
      }
      if time == 0 {
        return Timeout;
      }
      var p := threads.prio[t];
      if p < threads.prio[owner] {
        threads.ChangePriority(owner, p);
      }
      Suspend(t, p, threads);
      return Blocked;
    }

    /** rt_mutex_release */
    method Release(t: int, threads: Threads) returns (r: Outcome)
      requires t in threads.prio && MutexOk(Contents(), threads.prio)
      modifies this, threads
      ensures (Contents(), threads.prio, r) == Spec.Release(old(Contents()), old(threads.prio), t)
    {
      if t != owner {
        return Error;
      }
      hold := hold - 1;
      if hold == 0 {
        assert originalPriority == threads.prio[t] ==> threads.prio[t := originalPriority] == threads.prio;
        if originalPriority != threads.prio[owner] {
          threads.ChangePriority(owner, originalPriority);
        }
        if waiters != [] {
          var next := waiters[0];
          assert next in waiters;
          owner := next;
          originalPriority := threads.prio[next];
          hold := hold + 1;
          waiters := waiters[1..];
        } else {
          value := value + 1;
          owner := NONE;
          originalPriority := NO_PRIORITY;
        }
      }
      return Ok;
    }
  }
}
