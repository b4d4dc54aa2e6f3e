/** What each call of the scheduler does to the lists, the thread blocks and the processor. */
module SchedulerEffects {
  import opened RtDef
  import opened Sequences
  import opened SchedulerSpec
  import opened SchedulerLaws

  /** List b is the best one with a thread. */
  predicate Best(ready: seq<seq<int>>, b: nat) {
    b < |ready| && ready[b] != [] && forall p: nat :: p < b ==> ready[p] == []
  }

  lemma BestIsHighest(s: State, b: nat)
    requires Best(s.ready, b)
    ensures Highest(s.ready) == b && AnyReady(s)
  {
    HighestMeaning(s.ready, b);
  }

  /** The thread with that block gives way to list b: it does not run, b is better, or b is as good and
      its slice is over. */
  predicate GivesWay(c: Tcb, b: nat) {
    !c.stat.Running? || b < c.prio || (b == c.prio && c.yielded)
  }

  /** The head of list b has the processor. The thread before it goes to the tail of its own list if it
      was RUNNING, without its yield bit; no other thread block and no other place in a list changes. */
  ghost predicate Switched(s: State, r: State, b: nat)
    requires s.cur.Thread? && s.cur.id in s.tcb && b < |s.ready| && s.ready[b] != [] && s.ready[b][0] in s.tcb
  {
    var from, to := s.cur.id, s.ready[b][0];
    var c := s.tcb[from];
    && r.cur == Thread(to) && r.lock == s.lock && |r.ready| == |s.ready|
    && r.tcb == s.tcb[from := if c.stat.Running? then c.(stat := Ready, yielded := false) else c][to := s.tcb[to].(stat := Running)]
    && forall p :: 0 <= p < |s.ready| ==>
      r.ready[p] == (if p == b then s.ready[p][1..] else s.ready[p]) + (if c.stat.Running? && p == c.prio then [from] else [])
  }

  /** rt_schedule with a thread on some list: locked it does nothing; a thread that does not give way
      only loses its yield bit; otherwise the processor goes to the head of the best list. */
  lemma ScheduleEffect(s: State, b: nat)
    requires Inv(s) && Schedulable(s) && Best(s.ready, b)
    ensures s.ready[b][0] in s.tcb
    ensures s.lock != 0 ==> Schedule(s) == s
    ensures var c := s.tcb[s.cur.id];
      s.lock == 0 && !GivesWay(c, b) ==> Schedule(s) == s.(tcb := s.tcb[s.cur.id := c.(yielded := false)])
    ensures s.lock == 0 && GivesWay(s.tcb[s.cur.id], b) ==> Switched(s, Schedule(s), b)
  {
    BestIsHighest(s, b);
    if s.lock == 0 && GivesWay(s.tcb[s.cur.id], b) {
      SwitchEffect(s, b);
    } else if s.lock == 0 {
      KeepEffect(s);
    }
  }

  lemma SwitchEffect(s: State, b: nat)
    requires Inv(s) && Schedulable(s) && Preempts(s) && b == Highest(s.ready)
    ensures b < |s.ready| && s.ready[b] != [] && s.ready[b][0] in s.tcb && Switched(s, Schedule(s), b)
  {
    HeadExists(s);
    ScheduleWhenPreempting(s);
    SwitchedBlocks(s, b);
    assert s.ready[b][0] != s.cur.id;
  }

  lemma SwitchedBlocks(s: State, b: nat)
    requires Inv(s) && Schedulable(s) && Preempts(s) && b == Highest(s.ready)
    ensures var from, to := s.cur.id, s.ready[b][0]; var c := s.tcb[from];
      Schedule(s).tcb == s.tcb[from := if c.stat.Running? then c.(stat := Ready, yielded := false) else c][to := s.tcb[to].(stat := Running)]
  {
    HeadExists(s);
  }

  lemma KeepEffect(s: State)
    requires Inv(s) && Schedulable(s) && s.lock == 0 && AnyReady(s) && KeepsCurrent(s.tcb[s.cur.id], Highest(s.ready))
    ensures Schedule(s) == s.(tcb := s.tcb[s.cur.id := s.tcb[s.cur.id].(yielded := false)])
  {
    var s1 := s.(tcb := s.tcb[s.cur.id := s.tcb[s.cur.id].(yielded := false)]);
    ClearYieldKeeps(s);
    SettleCurrent(s1);
    assert Settle(s1, s.cur.id).tcb == s1.tcb;
  }

  /** With nobody on a list rt_schedule does nothing. */
  lemma ScheduleIdle(s: State)
    requires Inv(s) && Schedulable(s) && forall p: nat :: p < |s.ready| ==> s.ready[p] == []
    ensures Schedule(s) == s
  {
    HighestMeaning(s.ready, 0);
  }

  /** The start gives the processor to the head of the best list, RUNNING alone. */
  lemma StartEffect(s: State, b: nat)
    requires Inv(s) && s.cur == Handle.Null && Best(s.ready, b)
    ensures s.ready[b][0] in s.tcb && AnyReady(s) && Highest(s.ready) == b
    ensures var to := s.ready[b][0];
      Start(s) == State(s.ready[b := s.ready[b][1..]], s.tcb[to := s.tcb[to].(stat := Running, yielded := false)], Thread(to), s.lock)
  {
    BestIsHighest(s, b);
    HeadExists(s);
    var to := s.ready[b][0];
    assert Start(s).tcb == s.tcb[to := s.tcb[to].(stat := Running, yielded := false)];
  }

  // ----- the other calls -----

  /** A tick counts the current thread's slice down. The last tick of a slice reloads the counter, sets
      the yield bit and calls rt_schedule; any other tick does nothing else. */
  lemma TickEffect(s: State)
    requires Allowed(s, DoTick)
    ensures var b := s.tcb[s.cur.id];
      && (b.remaining == 0 ==> Step(s, DoTick) == s.(tcb := s.tcb[s.cur.id := b.(remaining := 0xffff_ffff)]))
      && (b.remaining > 1 ==> Step(s, DoTick) == s.(tcb := s.tcb[s.cur.id := b.(remaining := b.remaining - 1)]))
    ensures var r := s.(tcb := s.tcb[s.cur.id := s.tcb[s.cur.id].(remaining := s.tcb[s.cur.id].initTick, yielded := true)]);
      s.tcb[s.cur.id].remaining == 1 ==> Schedulable(r) && Inv(r) && Step(s, DoTick) == Schedule(r)
  {
    CountTickKeeps(s);
    HeadExists(CountTick(s));
  }

  /** Blocking suspends the current thread, which is on no list. */
  lemma BlockEffect(s: State)
    requires Allowed(s, DoBlock)
    ensures Step(s, DoBlock) == s.(tcb := s.tcb[s.cur.id := s.tcb[s.cur.id].(stat := Suspend)])
  {
    BlockKeeps(s);
  }

  /** A resumed thread goes to the tail of its list and is READY; the current one, which still has the
      processor, is RUNNING again. */
  lemma ResumeEffect(s: State, t: int)
    requires Allowed(s, DoResume(t))
    ensures var p, r := s.tcb[t].prio, Step(s, DoResume(t));
      if s.cur == Thread(t) then r == s.(tcb := s.tcb[t := s.tcb[t].(stat := Running)])
      else r == s.(tcb := s.tcb[t := s.tcb[t].(stat := Ready)], ready := s.ready[p := s.ready[p] + [t]])
  {
  }

  /** A READY thread leaves its place and goes to the tail of the list of its new priority; any other
      thread only gets the new priority. */
  lemma PriorityEffect(s: State, t: int, p: nat) returns (k: nat)
    requires Allowed(s, DoPriority(t, p))
    ensures Step(s, DoPriority(t, p)).tcb == s.tcb[t := s.tcb[t].(prio := p)]
    ensures !s.tcb[t].stat.Ready? ==> Step(s, DoPriority(t, p)).ready == s.ready
    ensures s.tcb[t].stat.Ready? ==> Moved(s.ready, Step(s, DoPriority(t, p)).ready, t, s.tcb[t].prio, p, k)
    ensures Step(s, DoPriority(t, p)).cur == s.cur && Step(s, DoPriority(t, p)).lock == s.lock
  {
    k := 0;
    if s.tcb[t].stat.Ready? {
      assert Listed(s, t);
      k := UnlinkedOne(s.ready[s.tcb[t].prio], t);
    }
  }

  /** Thread t, at place k of list p, has left it and stands at the tail of list q. */
  predicate Moved(ready: seq<seq<int>>, r: seq<seq<int>>, t: int, p: nat, q: nat, k: nat) {
    && p < |ready| && q < |ready| && k < |ready[p]| && ready[p][k] == t
    && var cut := ready[p := ready[p][..k] + ready[p][k + 1..]]; r == cut[q := cut[q] + [t]]
  }

  /** Entering adds one level. */
  lemma EnterEffect(s: State)
    requires Allowed(s, DoEnter)
    ensures Step(s, DoEnter) == s.(lock := s.lock + 1)
  {
  }

  /** Leaving takes one level away; at the outermost, or at none, it calls rt_schedule unlocked. */
  lemma ExitEffect(s: State)
    requires Allowed(s, DoExit)
    ensures s.lock > 1 ==> Step(s, DoExit) == s.(lock := s.lock - 1)
    ensures var r := s.(lock := 0); s.lock <= 1 ==> Inv(r) && Schedulable(r) && Step(s, DoExit) == Schedule(r)
  {
    LeaveKeeps(s);
    HeadExists(Leave(s));
  }

  // ----- who sleeps -----

  predicate Sleeps(s: State, t: int) {
    t in s.tcb && s.tcb[t].stat.Suspend?
  }

  lemma ScheduleSleeps(s: State, t: int)
    requires Inv(s) && Schedulable(s) && Sleeps(s, t)
    ensures Sleeps(Schedule(s), t)
  {
    if AnyReady(s) {
      var b := Highest(s.ready);
      HeadExists(s);
      assert Best(s.ready, b) by { LevelsAbove(s.ready); }
      ScheduleEffect(s, b);
    }
  }

  lemma LevelsAbove(ready: seq<seq<int>>)
    ensures forall p: nat :: p < Highest(ready) ==> ready[p] == []
  {
    forall p: nat | p < Highest(ready) ensures ready[p] == [] {
      HighestMeaning(ready, p);
    }
  }

  lemma StepSleeps(s: State, op: Op, t: int)
    requires Allowed(s, op) && Sleeps(s, t) && op != DoResume(t)
    ensures Sleeps(Step(s, op), t)
  {
    HeadExists(s);
    match op
    case DoSchedule => ScheduleSleeps(s, t);
    case DoTick =>
      CountTickKeeps(s);
      HeadExists(CountTick(s));
      if SliceEnds(s) {
        ScheduleSleeps(CountTick(s), t);
      }
    case DoBlock => BlockEffect(s);
    case DoResume(u) => ResumeEffect(s, u);
    case DoPriority(u, p) => var k := PriorityEffect(s, u, p);
    case DoEnter =>
    case DoExit =>
      LeaveKeeps(s);
      HeadExists(Leave(s));
      if Leave(s).lock == 0 {
        ScheduleSleeps(Leave(s), t);
      }
  }

  /** Over every run, a suspended thread sleeps until it is resumed: no tick, no change of priority and
      no scheduling makes it ready or lets it run before. */
  lemma {:induction false} SleepsUntilResumed(s: State, ops: seq<Op>, t: int)
    requires AllowedRun(s, ops) && Sleeps(s, t) && DoResume(t) !in ops
    ensures Sleeps(Run(s, ops), t)
    decreases |ops|
  {
    if ops != [] {
      assert ops[0] in ops && forall op :: op in ops[1..] ==> op in ops;
      StepSleeps(s, ops[0], t);
      SleepsUntilResumed(Step(s, ops[0]), ops[1..], t);
    }
  }
}
