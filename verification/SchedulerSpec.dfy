/** The single-core ready queue of scheduler.c and the time slices of clock.c, on values. */
module SchedulerSpec {
  import opened RtDef
  import opened Sequences

  datatype Stat = Init | Ready | Suspend | Running

  /** `yielded` is the RT_THREAD_STAT_YIELD bit of `stat`. */
  datatype Tcb = Tcb(prio: nat, stat: Stat, yielded: bool, initTick: USize, remaining: USize)

  datatype Handle = Null | Thread(id: int)

  /** `ready[p]` is the FIFO list of priority p; a smaller number is a better priority. */
  datatype State = State(ready: seq<seq<int>>, tcb: map<int, Tcb>, cur: Handle, lock: int)

  function IndexOf(q: seq<int>, t: int): nat {
    if q == [] || q[0] == t then 0 else 1 + IndexOf(q[1..], t)
  }

  /** The best priority with a ready thread, or the number of levels when there is none. */
  function Highest(ready: seq<seq<int>>): (p: nat)
    ensures p <= |ready|
  {
    if ready == [] || ready[0] != [] then 0 else 1 + Highest(ready[1..])
  }

  predicate AnyReady(s: State) {
    Highest(s.ready) < |s.ready|
  }

  /** Every thread block names an existing level, and the current thread exists. */
  ghost predicate Formed(s: State) {
    && (forall t :: t in s.tcb ==> s.tcb[t].prio < |s.ready|)
    && (s.cur.Thread? ==> s.cur.id in s.tcb)
  }

  predicate Listed(s: State, t: int)
    requires t in s.tcb && s.tcb[t].prio < |s.ready|
  {
    t in s.ready[s.tcb[t].prio]
  }

  /** List p holds distinct READY threads of priority p. */
  ghost predicate ListOk(s: State, p: nat)
    requires p < |s.ready|
  {
    Distinct(s.ready[p]) && forall t :: t in s.ready[p] ==> t in s.tcb && s.tcb[t].prio == p && s.tcb[t].stat.Ready?
  }

  /** Exactly the READY threads are listed, each once and at its own priority. */
  ghost predicate Queues(s: State) {
    && Formed(s)
    && (forall p: nat :: p < |s.ready| ==> ListOk(s, p))
    && (forall t :: t in s.tcb && s.tcb[t].stat.Ready? ==> Listed(s, t))
  }

  /** Only the current thread is RUNNING, and it is on no list. */
  ghost predicate Inv(s: State) {
    && Queues(s)
    && (forall t :: t in s.tcb && s.tcb[t].stat.Running? ==> s.cur == Thread(t))
    && (s.cur.Thread? ==> !s.tcb[s.cur.id].stat.Ready?)
    && 0 <= s.lock <= 0x7fff
  }

  /** rt_schedule_insert_thread */
  function Insert(s: State, t: int): State
    requires t in s.tcb && s.tcb[t].prio < |s.ready|
  {
    if s.cur == Thread(t) then s.(tcb := s.tcb[t := s.tcb[t].(stat := Running)])
    else
      var p := s.tcb[t].prio;
      s.(tcb := s.tcb[t := s.tcb[t].(stat := Ready)], ready := s.ready[p := s.ready[p] + [t]])
  }

  /** rt_schedule_remove_thread; the caller sets the status. */
  function Remove(s: State, t: int): State
    requires t in s.tcb && s.tcb[t].prio < |s.ready|
  {
    var p := s.tcb[t].prio;
    s.(ready := s.ready[p := Unlinked(s.ready[p], t)])
  }

  /** Off its list and RUNNING. */
  function Settle(s: State, t: int): State
    requires t in s.tcb && s.tcb[t].prio < |s.ready|
  {
    var r := Remove(s, t);
    r.(tcb := r.tcb[t := r.tcb[t].(stat := Running)])
  }

  predicate KeepsCurrent(c: Tcb, best: nat) {
    c.stat.Running? && (c.prio < best || (c.prio == best && !c.yielded))
  }

  /** The current thread gives way to `to`; it goes back to its list if it was RUNNING. */
  function SwitchTo(s: State, to: int, requeue: bool): State
    requires Formed(s) && s.cur.Thread? && to in s.tcb
  {
    var r := s.(cur := Thread(to));
    var i := if requeue then Insert(r, s.cur.id) else r;
    Settle(i, to)
  }

  /** The best list, if there is one, has a known thread at its head. */
  ghost predicate Schedulable(s: State) {
    && Formed(s)
    && s.cur.Thread?
    && (AnyReady(s) ==> s.ready[Highest(s.ready)] != [] && s.ready[Highest(s.ready)][0] in s.tcb)
  }

  /** rt_schedule */
  function Schedule(s: State): State
    requires Schedulable(s)
  {
    if s.lock != 0 || !AnyReady(s) then s
    else
      var best := Highest(s.ready);
      var to := s.ready[best][0];
      var c := s.tcb[s.cur.id];
      var s1 := if c.stat.Running? then s.(tcb := s.tcb[s.cur.id := c.(yielded := false)]) else s;
      if KeepsCurrent(c, best) || to == s.cur.id then Settle(s1, s.cur.id)
      else SwitchTo(s1, to, c.stat.Running?)
  }

  /** rt_system_scheduler_start; it stores RT_THREAD_RUNNING alone, which drops the yield bit. */
  function Start(s: State): State
    requires AnyReady(s) && s.ready[Highest(s.ready)] != []
    requires var to := s.ready[Highest(s.ready)][0]; to in s.tcb && s.tcb[to].prio < |s.ready|
  {
    var to := s.ready[Highest(s.ready)][0];
    var r := Settle(s.(cur := Thread(to)), to);
    r.(tcb := r.tcb[to := r.tcb[to].(yielded := false)])
  }

  /** The state after the counting part of rt_tick_increase; the counter is unsigned. */
  function CountTick(s: State): State
    requires s.cur.Thread? && s.cur.id in s.tcb
  {
    var c := s.tcb[s.cur.id];
    var left := Wrap(c.remaining - 1);
    var c1 := if left == 0 then c.(remaining := c.initTick, yielded := true) else c.(remaining := left);
    s.(tcb := s.tcb[s.cur.id := c1])
  }

  predicate SliceEnds(s: State)
    requires s.cur.Thread? && s.cur.id in s.tcb
  {
    Wrap(s.tcb[s.cur.id].remaining - 1) == 0
  }

  /** rt_scheduler_lock_nest is a signed 16-bit counter. */
  function Int16(n: int): int
    requires -0x1_0000 <= n <= 0x1_0000
  {
    if n > 0x7fff then n - 0x1_0000 else if n < -0x8000 then n + 0x1_0000 else n
  }

  datatype Op = DoSchedule | DoTick | DoBlock | DoResume(thread: int) | DoPriority(thread: int, prio: nat)
    | DoEnter | DoExit

  /** Who may do what: blocking is what a RUNNING thread does to itself, only a suspended or a
      fresh thread is resumed, and critical sections nest less than 32767 deep. */
  ghost predicate Allowed(s: State, op: Op) {
    Inv(s) && s.cur.Thread? && match op
    case DoSchedule => true
    case DoTick => true
    case DoBlock => s.tcb[s.cur.id].stat.Running?
    case DoResume(t) => t in s.tcb && (s.tcb[t].stat.Suspend? || s.tcb[t].stat.Init?)
    case DoPriority(t, p) => t in s.tcb && p < |s.ready|
    case DoEnter => s.lock < 0x7fff
    case DoExit => true
  }

  /** RT_THREAD_CTRL_CHANGE_PRIORITY: a READY thread moves to the tail of its new list. */
  function ChangePriority(s: State, t: int, p: nat): State
    requires t in s.tcb && s.tcb[t].prio < |s.ready| && p < |s.ready|
  {
    if s.tcb[t].stat.Ready? then
      var r := Remove(s, t);
      Insert(r.(tcb := r.tcb[t := r.tcb[t].(prio := p)]), t)
    else s.(tcb := s.tcb[t := s.tcb[t].(prio := p)])
  }

  /** rt_thread_suspend on the current thread. */
  function Block(s: State): State
    requires Formed(s) && s.cur.Thread?
  {
    var r := Remove(s, s.cur.id);
    r.(tcb := r.tcb[s.cur.id := r.tcb[s.cur.id].(stat := Suspend)])
  }

  /** rt_exit_critical up to its call of rt_schedule. */
  function Leave(s: State): State
    requires -0x8000 <= s.lock <= 0x7fff
  {
    var n := Int16(s.lock - 1);
    s.(lock := if n <= 0 then 0 else n)
  }

  lemma Member(s: State, p: nat, t: int)
    requires Queues(s) && p < |s.ready| && t in s.ready[p]
    ensures t in s.tcb && s.tcb[t].prio == p && s.tcb[t].stat.Ready?
  {
    assert ListOk(s, p);
  }

  /** The scheduler reads the head of the best list only when one is there. */
  lemma HeadExists(s: State)
    requires Inv(s)
    ensures s.cur.Thread? ==> Schedulable(s)
    ensures AnyReady(s) ==> s.ready[Highest(s.ready)] != [] && s.ready[Highest(s.ready)][0] in s.tcb
    ensures AnyReady(s) ==> s.tcb[s.ready[Highest(s.ready)][0]].prio == Highest(s.ready)
    ensures AnyReady(s) ==> s.tcb[s.ready[Highest(s.ready)][0]].stat.Ready?
  {
    if AnyReady(s) {
      var best := Highest(s.ready);
      HighestMeaning(s.ready, 0);
      Member(s, best, s.ready[best][0]);
    }
  }

  /** Highest is the least non-empty level. */
  lemma {:induction false} HighestMeaning(ready: seq<seq<int>>, p: nat)
    ensures Highest(ready) < |ready| ==> ready[Highest(ready)] != []
    ensures p < Highest(ready) ==> ready[p] == []
    ensures p < |ready| && ready[p] != [] ==> Highest(ready) <= p
  {
    if ready != [] && ready[0] == [] && p > 0 {
      HighestMeaning(ready[1..], p - 1);
    } else if ready != [] && ready[0] == [] {
      HighestMeaning(ready[1..], 0);
    }
  }

  lemma CountTickKeeps(s: State)
    requires Inv(s) && s.cur.Thread?
    ensures Inv(CountTick(s)) && CountTick(s).cur == s.cur && CountTick(s).ready == s.ready
  {
    RelabelKeeps(s, s.cur.id, CountTick(s).tcb[s.cur.id]);
  }

  /** A change of a thread block that keeps its priority and status keeps the invariant. */
  lemma RelabelKeeps(s: State, t: int, b: Tcb)
    requires Inv(s) && t in s.tcb && b.prio == s.tcb[t].prio && b.stat == s.tcb[t].stat
    ensures Inv(s.(tcb := s.tcb[t := b]))
  {
    var r := s.(tcb := s.tcb[t := b]);
    forall p: nat | p < |r.ready| ensures ListOk(r, p) {
      assert ListOk(s, p);
    }
    forall u | u in r.tcb && r.tcb[u].stat.Ready? ensures Listed(r, u) {
      assert Listed(s, u);
    }
  }

  lemma LeaveKeeps(s: State)
    requires Inv(s)
    ensures Inv(Leave(s)) && Leave(s).lock == (if s.lock == 0 then 0 else s.lock - 1)
  {
    LockKeeps(s, Leave(s).lock);
  }

  lemma LockKeeps(s: State, n: int)
    requires Inv(s) && 0 <= n <= 0x7fff
    ensures Inv(s.(lock := n))
  {
    var r := s.(lock := n);
    forall p: nat | p < |r.ready| ensures ListOk(r, p) {
      assert ListOk(s, p);
    }
    forall u | u in r.tcb && r.tcb[u].stat.Ready? ensures Listed(r, u) {
      assert Listed(s, u);
    }
  }

  function Step(s: State, op: Op): State
    requires Allowed(s, op)
  {
    HeadExists(s);
    match op
    case DoSchedule => Schedule(s)
    case DoTick =>
      CountTickKeeps(s);
      HeadExists(CountTick(s));
      if SliceEnds(s) then Schedule(CountTick(s)) else CountTick(s)
    case DoBlock => Block(s)
    case DoResume(t) => Insert(s, t)
    case DoPriority(t, p) => ChangePriority(s, t, p)
    case DoEnter => s.(lock := Int16(s.lock + 1))
    case DoExit =>
      LeaveKeeps(s);
      HeadExists(Leave(s));
      if Leave(s).lock == 0 then Schedule(Leave(s)) else Leave(s)
  }
}
