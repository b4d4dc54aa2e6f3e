/** The ready queue agrees with the thread states over every run, the choice is optimal, and
    ready threads are served in turn. */
module SchedulerLaws {
  import opened Sequences
  import opened SchedulerSpec

  /** A thread that is not READY is on no list. */
  lemma Unlisted(s: State, t: int, p: nat)
    requires Queues(s) && p < |s.ready| && (t in s.tcb ==> !s.tcb[t].stat.Ready? || s.tcb[t].prio != p)
    ensures t !in s.ready[p]
  {
    assert ListOk(s, p);
  }

  lemma InsertKeeps(s: State, t: int)
    requires Queues(s) && t in s.tcb && !s.tcb[t].stat.Ready?
    ensures Queues(Insert(s, t))
  {
    var r := Insert(s, t);
    forall p: nat | p < |r.ready| ensures ListOk(r, p) {
      assert ListOk(s, p);
      Unlisted(s, t, p);
    }
    forall u | u in r.tcb && r.tcb[u].stat.Ready? ensures Listed(r, u) {
      if u != t {
        assert Listed(s, u);
      }
    }
  }

  /** Unlinking a thread and giving it a status other than READY. */
  function Unready(s: State, t: int, stat: Stat): State
    requires t in s.tcb && s.tcb[t].prio < |s.ready|
  {
    var r := Remove(s, t);
    r.(tcb := r.tcb[t := r.tcb[t].(stat := stat)])
  }

  lemma UnreadyKeeps(s: State, t: int, stat: Stat)
    requires Queues(s) && t in s.tcb && stat != Ready
    ensures Queues(Unready(s, t, stat))
  {
    var r := Unready(s, t, stat);
    forall p: nat | p < |r.ready| ensures ListOk(r, p) {
      UnreadyList(s, t, stat, p);
    }
    forall u | u in r.tcb && r.tcb[u].stat.Ready? ensures Listed(r, u) {
      assert Listed(s, u) && ListOk(s, s.tcb[u].prio);
      UnlinkedMeaning(s.ready[s.tcb[u].prio], t);
    }
  }

  lemma UnreadyList(s: State, t: int, stat: Stat, p: nat)
    requires Queues(s) && t in s.tcb && stat != Ready && p < |s.ready|
    ensures ListOk(Unready(s, t, stat), p)
  {
    var r := Unready(s, t, stat);
    assert ListOk(s, p);
    if p == s.tcb[t].prio {
      UnlinkedMeaning(s.ready[p], t);
    } else {
      Unlisted(s, t, p);
    }
  }

  lemma BlockKeeps(s: State)
    requires Inv(s) && s.cur.Thread?
    ensures Inv(Block(s)) && Block(s).ready == s.ready
  {
    var t := s.cur.id;
    assert Block(s) == Unready(s, t, Suspend);
    UnreadyKeeps(s, t, Suspend);
    Unlisted(s, t, s.tcb[t].prio);
    UnlinkedAbsent(s.ready[s.tcb[t].prio], t);
  }

  lemma ResumeKeeps(s: State, t: int)
    requires Inv(s) && t in s.tcb && !s.tcb[t].stat.Ready?
    requires s.tcb[t].stat.Running? ==> s.cur == Thread(t)
    ensures Inv(Insert(s, t))
  {
    InsertKeeps(s, t);
  }

  /** A new priority for a thread that is on no list. */
  lemma ReprioKeeps(s: State, t: int, p: nat)
    requires Queues(s) && t in s.tcb && !s.tcb[t].stat.Ready? && p < |s.ready|
    ensures Queues(s.(tcb := s.tcb[t := s.tcb[t].(prio := p)]))
  {
    var r := s.(tcb := s.tcb[t := s.tcb[t].(prio := p)]);
    forall q: nat | q < |r.ready| ensures ListOk(r, q) {
      assert ListOk(s, q);
    }
    forall u | u in r.tcb && r.tcb[u].stat.Ready? ensures Listed(r, u) {
      assert Listed(s, u);
    }
  }

  lemma PriorityKeeps(s: State, t: int, p: nat)
    requires Inv(s) && t in s.tcb && p < |s.ready|
    ensures Inv(ChangePriority(s, t, p))
  {
    if s.tcb[t].stat.Ready? {
      var r := Unready(s, t, Suspend);
      UnreadyKeeps(s, t, Suspend);
      ReprioKeeps(r, t, p);
      var m := r.(tcb := r.tcb[t := r.tcb[t].(prio := p)]);
      InsertKeeps(m, t);
      assert Insert(m, t).tcb == ChangePriority(s, t, p).tcb;
    } else {
      ReprioKeeps(s, t, p);
    }
  }

  lemma ClearYieldKeeps(s: State)
    requires Inv(s) && s.cur.Thread?
    ensures Inv(s.(tcb := s.tcb[s.cur.id := s.tcb[s.cur.id].(yielded := false)]))
  {
    RelabelKeeps(s, s.cur.id, s.tcb[s.cur.id].(yielded := false));
  }

  /** The current thread takes the processor again: nothing moves. */
  lemma SettleCurrent(s: State)
    requires Inv(s) && s.cur.Thread?
    ensures Inv(Settle(s, s.cur.id)) && Settle(s, s.cur.id).ready == s.ready
  {
    var t := s.cur.id;
    assert Settle(s, t) == Unready(s, t, Running);
    UnreadyKeeps(s, t, Running);
    Unlisted(s, t, s.tcb[t].prio);
    UnlinkedAbsent(s.ready[s.tcb[t].prio], t);
  }

  lemma SwitchKeeps(s: State, to: int)
    requires Inv(s) && s.cur.Thread? && to in s.tcb && s.tcb[to].stat.Ready?
    ensures Inv(SwitchTo(s, to, s.tcb[s.cur.id].stat.Running?))
  {
    var requeue := s.tcb[s.cur.id].stat.Running?;
    var r := s.(cur := Thread(to));
    SameQueues(s, r);
    if requeue {
      InsertKeeps(r, s.cur.id);
    }
    var i := if requeue then Insert(r, s.cur.id) else r;
    assert Settle(i, to) == Unready(i, to, Running);
    UnreadyKeeps(i, to, Running);
  }

  lemma SameQueues(s: State, r: State)
    requires Queues(s) && r.ready == s.ready && r.tcb == s.tcb && Formed(r)
    ensures Queues(r)
  {
    forall p: nat | p < |r.ready| ensures ListOk(r, p) {
      assert ListOk(s, p);
    }
    forall u | u in r.tcb && r.tcb[u].stat.Ready? ensures Listed(r, u) {
      assert Listed(s, u);
    }
  }

  /** When rt_schedule gives the processor away: only when unlocked with some thread ready, and
      a RUNNING thread only to a better one or, once its slice is over, to an equal one. */
  predicate Preempts(s: State)
    requires s.cur.Thread? && s.cur.id in s.tcb
  {
    s.lock == 0 && AnyReady(s) && !KeepsCurrent(s.tcb[s.cur.id], Highest(s.ready))
  }


  /** The current thread runs, and no better thread is ready. */
  ghost predicate Optimal(s: State) {
    && s.cur.Thread? && s.cur.id in s.tcb && s.tcb[s.cur.id].stat.Running?
    && forall t :: t in s.tcb && s.tcb[t].stat.Ready? ==> s.tcb[s.cur.id].prio <= s.tcb[t].prio
  }

  /** The lists after a switch: the head of the best list leaves, and a thread that was RUNNING
      joins the tail of its own list. */
  function Rotated(s: State): seq<seq<int>>
    requires s.cur.Thread? && s.cur.id in s.tcb && s.tcb[s.cur.id].prio < |s.ready|
    requires AnyReady(s) && s.ready[Highest(s.ready)] != []
  {
    var best, c := Highest(s.ready), s.tcb[s.cur.id];
    var cut := s.ready[best := s.ready[best][1..]];
    if c.stat.Running? then cut[c.prio := cut[c.prio] + [s.cur.id]] else cut
  }

  lemma ScheduleWhenPreempting(s: State)
    requires Inv(s) && Schedulable(s) && Preempts(s)
    ensures var r := Schedule(s); var best := Highest(s.ready); Inv(r) && r.cur == Thread(s.ready[best][0]) && r.ready == Rotated(s)
    ensures Schedule(s).tcb[Schedule(s).cur.id] == s.tcb[s.ready[Highest(s.ready)][0]].(stat := Running)
    ensures Schedule(s).lock == 0
  {
    HeadExists(s);
    var best := Highest(s.ready);
    var to, c := s.ready[best][0], s.tcb[s.cur.id];
    var s1 := if c.stat.Running? then s.(tcb := s.tcb[s.cur.id := c.(yielded := false)]) else s;
    ClearYieldKeeps(s);
    SwitchKeeps(s1, to);
    SwitchLists(s1, to);
  }

  lemma SwitchLists(s: State, to: int)
    requires Inv(s) && s.cur.Thread? && to in s.tcb && s.tcb[to].stat.Ready? && s.tcb[to].prio == Highest(s.ready)
    requires AnyReady(s) && s.ready[Highest(s.ready)] != [] && to == s.ready[Highest(s.ready)][0]
    ensures SwitchTo(s, to, s.tcb[s.cur.id].stat.Running?).ready == Rotated(s)
  {
    var best, c := Highest(s.ready), s.tcb[s.cur.id];
    if c.stat.Running? && c.prio == best {
      var q := s.ready[best] + [s.cur.id];
      assert Unlinked(q, to) == q[1..] == s.ready[best][1..] + [s.cur.id];
    } else {
      assert Unlinked(s.ready[best], to) == s.ready[best][1..];
    }
  }

  lemma ScheduleWhenKeeping(s: State)
    requires Inv(s) && Schedulable(s) && !Preempts(s)
    ensures var r := Schedule(s); Inv(r) && r.cur == s.cur && r.ready == s.ready && r.lock == s.lock
    ensures var r := Schedule(s); r != s ==> s.tcb[s.cur.id].stat.Running? && r == s.(tcb := s.tcb[s.cur.id := s.tcb[s.cur.id].(yielded := false)])
    ensures s.lock != 0 || !AnyReady(s) ==> Schedule(s) == s
  {
    if s.lock == 0 && AnyReady(s) {
      ClearYieldKeeps(s);
      var s1 := s.(tcb := s.tcb[s.cur.id := s.tcb[s.cur.id].(yielded := false)]);
      SettleCurrent(s1);
      assert Settle(s1, s.cur.id).tcb == s1.tcb;
    }
  }

  /** rt_schedule is optimal: unlocked, and with some thread ready, it ends with the current
      thread RUNNING, on no list, and no ready thread better; otherwise it changes nothing. The
      processor changes hands exactly when Preempts says so. */
  lemma ScheduleIsOptimal(s: State)
    requires Inv(s) && Schedulable(s)
    ensures Inv(Schedule(s))
    ensures if s.lock == 0 && AnyReady(s) then Optimal(Schedule(s)) else Schedule(s) == s
    ensures Schedule(s).cur != s.cur <==> Preempts(s)
  {
    if Preempts(s) {
      ScheduleWhenPreempting(s);
      HeadExists(s);
      var r := Schedule(s);
      forall t | t in r.tcb && r.tcb[t].stat.Ready? ensures Highest(s.ready) <= r.tcb[t].prio {
        assert Listed(r, t);
        var p := r.tcb[t].prio;
        if p < Highest(s.ready) {
          HighestMeaning(s.ready, p);
        }
      }
    } else {
      ScheduleWhenKeeping(s);
      if s.lock == 0 && AnyReady(s) {
        NothingBetter(s);
      }
    }
  }

  lemma NothingBetter(s: State)
    requires Inv(s) && Schedulable(s) && AnyReady(s) && KeepsCurrent(s.tcb[s.cur.id], Highest(s.ready))
    ensures Optimal(s)
  {
    forall t | t in s.tcb && s.tcb[t].stat.Ready? ensures s.tcb[s.cur.id].prio <= s.tcb[t].prio {
      assert Listed(s, t);
      HighestMeaning(s.ready, s.tcb[t].prio);
    }
  }

  /** rt_system_scheduler_start hands the processor to the head of the best list. */
  lemma StartIsOptimal(s: State)
    requires Inv(s) && s.cur == Handle.Null && AnyReady(s)
    requires s.ready[Highest(s.ready)] != [] && s.ready[Highest(s.ready)][0] in s.tcb
    ensures Inv(Start(s)) && Optimal(Start(s))
    ensures Start(s).cur == Thread(s.ready[Highest(s.ready)][0])
  {
    HeadExists(s);
    var to := s.ready[Highest(s.ready)][0];
    var r := s.(cur := Thread(to));
    SameQueues(s, r);
    assert Settle(r, to) == Unready(r, to, Running);
    UnreadyKeeps(r, to, Running);
    var m := Settle(r, to);
    RelabelKeeps(m, to, m.tcb[to].(yielded := false));
    var e := Start(s);
    forall t | t in e.tcb && e.tcb[t].stat.Ready? ensures Highest(s.ready) <= e.tcb[t].prio {
      assert Listed(s, t);
      HighestMeaning(s.ready, e.tcb[t].prio);
    }
  }

  /** Every step keeps the invariant. */
  lemma StepKeeps(s: State, op: Op)
    requires Allowed(s, op)
    ensures Inv(Step(s, op)) && Step(s, op).cur.Thread? && |Step(s, op).ready| == |s.ready|
  {
    HeadExists(s);
    match op
    case DoSchedule => ScheduleKeeps(s);
    case DoTick =>
      CountTickKeeps(s);
      HeadExists(CountTick(s));
      ScheduleKeeps(CountTick(s));
    case DoBlock => BlockKeeps(s);
    case DoResume(t) => ResumeKeeps(s, t);
    case DoPriority(t, p) => PriorityKeeps(s, t, p);
    case DoEnter => LockKeeps(s, s.lock + 1);
    case DoExit =>
      LeaveKeeps(s);
      HeadExists(Leave(s));
      ScheduleKeeps(Leave(s));
  }

  lemma ScheduleKeeps(s: State)
    requires Inv(s) && Schedulable(s)
    ensures Inv(Schedule(s)) && Schedule(s).cur.Thread? && |Schedule(s).ready| == |s.ready|
  {
    if Preempts(s) {
      ScheduleWhenPreempting(s);
    } else {
      ScheduleWhenKeeping(s);
    }
  }

  /** With the scheduler locked before and after, no step takes the processor away. */
  lemma LockedKeepsCurrent(s: State, op: Op)
    requires Allowed(s, op) && s.lock > 0 && Step(s, op).lock > 0
    ensures Step(s, op).cur == s.cur
  {
    HeadExists(s);
    if op.DoTick? {
      CountTickKeeps(s);
    } else if op.DoExit? {
      LeaveKeeps(s);
      HeadExists(Leave(s));
      ScheduleKeeps(Leave(s));
    }
  }

  function EnterTimes(lock: int, k: nat): (n: int)
    requires -0x8000 <= lock <= 0x7fff
    ensures -0x8000 <= n <= 0x7fff
  {
    if k == 0 then lock else Int16(EnterTimes(lock, k - 1) + 1)
  }

  lemma {:induction false} EnterCounts(k: nat)
    requires k <= 0xffff
    ensures EnterTimes(0, k) == Int16(k)
  {
    if k > 0 {
      EnterCounts(k - 1);
    }
  }

  /** The comment above rt_enter_critical allows 65535 nested sections, but the counter is signed:
      leaving the innermost of k sections leaves k - 1 exactly when k is at most 32768; deeper, it
      resets the counter and unlocks the scheduler. */
  lemma CriticalDepth(s: State, k: nat)
    requires 0 < k <= 0xffff
    ensures Leave(s.(lock := EnterTimes(0, k))).lock == k - 1 <==> k <= 0x8000
    ensures k > 0x8000 ==> Leave(s.(lock := EnterTimes(0, k))).lock == 0
  {
    EnterCounts(k);
  }

  ghost predicate AllowedRun(s: State, ops: seq<Op>)
    decreases |ops|
  {
    ops != [] ==> Allowed(s, ops[0]) && AllowedRun(Step(s, ops[0]), ops[1..])
  }

  ghost function Run(s: State, ops: seq<Op>): State
    requires AllowedRun(s, ops)
    decreases |ops|
  {
    if ops == [] then s else Run(Step(s, ops[0]), ops[1..])
  }

  lemma {:induction false} RunKeeps(s: State, ops: seq<Op>)
    requires Inv(s) && AllowedRun(s, ops)
    ensures Inv(Run(s, ops)) && |Run(s, ops).ready| == |s.ready|
    decreases |ops|
  {
    if ops != [] {
      StepKeeps(s, ops[0]);
      RunKeeps(Step(s, ops[0]), ops[1..]);
    }
  }
}
