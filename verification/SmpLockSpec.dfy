/** The SMP lock protocol of cpu.c and scheduler.c: the nested lock on all CPUs, the per-thread
    counters, and the hand-over of the lock at a context switch. Each step runs with local
    interrupts off; a step that would spin is enabled once the lock is free. */
module SmpLockSpec {
  datatype Option<T> = None | Some(value: T)

  datatype Stat = Running | Ready | Suspend

  /** `cpus`, `critical` and `sched` are cpus_lock_nest, critical_lock_nest and
      scheduler_lock_nest; `preempt` is the depth of _cpu_preempt_disable and `spins` the rt_spinlocks
      held, which the source does not store; `on` is oncpu, None for RT_CPU_DETACHED. A thread is
      in a ready queue exactly when its status is READY. */
  datatype Tcb = Tcb(cpus: nat, critical: nat, preempt: nat, sched: int, stat: Stat, on: Option<nat>, spins: set<int>)

  /** `next` is the thread that the context switch under way on this CPU is going to. */
  datatype Cpu = Cpu(current: Option<int>, next: Option<int>)

  /** `holder` is the CPU that holds _cpus_lock. */
  datatype State = State(cpus: seq<Cpu>, holder: Option<nat>, tcb: map<int, Tcb>)

  /** The scheduler lock count is one for holding the lock on all CPUs at any depth, plus the
      critical sections, plus the preempt-disable depth. */
  predicate CountersOk(b: Tcb) {
    && b.sched == (if b.cpus > 0 then 1 else 0) + b.critical + b.preempt
    && b.critical <= b.cpus
    && |b.spins| <= b.preempt
  }

  /** The thread a CPU belongs to, from the moment it has been chosen. */
  function Occupant(u: Cpu): Option<int> {
    if u.next.Some? then u.next else u.current
  }

  /** Nothing that forbids a switch. */
  predicate Switchable(b: Tcb) {
    b.critical == 0 && b.preempt == 0 && b.spins == {}
  }

  predicate ThreadOk(s: State, t: int)
    requires t in s.tcb
  {
    var b := s.tcb[t];
    && CountersOk(b)
    && (b.on.Some? ==> b.on.value < |s.cpus| && Occupant(s.cpus[b.on.value]) == Some(t) && !b.stat.Ready?)
    && (b.on.None? ==> Switchable(b) && !b.stat.Running?)
  }

  /** A CPU holds the lock exactly while it is switching or its thread has a positive count. */
  predicate Holds(s: State, c: nat)
    requires c < |s.cpus|
  {
    var u := s.cpus[c];
    u.next.Some? || (u.current.Some? && u.current.value in s.tcb && s.tcb[u.current.value].cpus > 0)
  }

  predicate CpuOk(s: State, c: nat)
    requires c < |s.cpus|
  {
    var u := s.cpus[c];
    && (Occupant(u).Some? ==> Occupant(u).value in s.tcb && s.tcb[Occupant(u).value].on == Some(c))
    && (u.next.Some? ==> Switchable(s.tcb[u.next.value]))
    && (s.holder == Some(c) <==> Holds(s, c))
  }

  /** No spinlock has two holders. */
  ghost predicate SpinsApart(s: State) {
    forall t, u :: t in s.tcb && u in s.tcb && t != u ==> s.tcb[t].spins !! s.tcb[u].spins
  }

  ghost predicate Inv(s: State) {
    && (forall t :: t in s.tcb ==> ThreadOk(s, t))
    && (forall c: nat :: c < |s.cpus| ==> CpuOk(s, c))
    && SpinsApart(s)
    && (s.holder.Some? ==> s.holder.value < |s.cpus|)
  }

  datatype Op =
    | Lock(cpu: nat)
    | Unlock(cpu: nat)
    | Enter(cpu: nat)
    | Leave(cpu: nat)
    | Disable(cpu: nat)
    | Enable(cpu: nat)
    | Spin(cpu: nat, lock: int)
    | Unspin(cpu: nat, lock: int)
    | Sleep(cpu: nat)
    | Wake(cpu: nat, thread: int)
    | Choose(cpu: nat, to: int)
    | ChooseIrq(cpu: nat, to: int)
    | Restore(cpu: nat)
    | Boot(cpu: nat, to: int)

  /** CPU c runs a thread and is not in the middle of a switch. */
  predicate Runs(s: State, c: nat) {
    c < |s.cpus| && s.cpus[c].next.None? && s.cpus[c].current.Some? && s.cpus[c].current.value in s.tcb
  }

  function Current(s: State, c: nat): Tcb
    requires Runs(s, c)
  {
    s.tcb[s.cpus[c].current.value]
  }

  predicate LockFreeFor(s: State, c: nat)
    requires Runs(s, c)
  {
    (Current(s, c).cpus == 0 ==> s.holder.None?) && Current(s, c).cpus < 0xffff && Current(s, c).sched < 0xfffe
  }

  ghost predicate SpinFree(s: State, lock: int) {
    forall t :: t in s.tcb ==> lock !in s.tcb[t].spins
  }

  predicate MayChoose(s: State, c: nat, to: int) {
    && Runs(s, c) && Current(s, c).cpus > 0 && Current(s, c).sched == 1
    && to in s.tcb && s.tcb[to].stat.Ready?
  }

  /** When a step can happen. Unlocking, leaving and enabling undo an earlier step of the same
      thread; the depth counters stay below their 16-bit limit, which the source says it does not
      check; rt_schedule and rt_scheduler_do_irq_switch switch only at a scheduler lock count of
      one; an interrupt comes in only while interrupts are on, that is, while the thread's nesting
      is due to critical sections alone (its own rt_hw_interrupt_disable adds one). */
  ghost predicate Enabled(s: State, op: Op) {
    match op
    case Lock(c) => Runs(s, c) && LockFreeFor(s, c)
    case Unlock(c) => Runs(s, c) && Current(s, c).cpus > Current(s, c).critical
    case Enter(c) => Runs(s, c) && LockFreeFor(s, c)
    case Leave(c) => Runs(s, c) && Current(s, c).critical > 0 && Current(s, c).cpus > 0
    case Disable(c) => Runs(s, c) && Current(s, c).sched < 0xffff
    case Enable(c) => Runs(s, c) && Current(s, c).preempt > |Current(s, c).spins|
    case Spin(c, l) => Runs(s, c) && Current(s, c).preempt > |Current(s, c).spins| && SpinFree(s, l)
    case Unspin(c, l) => Runs(s, c) && l in Current(s, c).spins
    case Sleep(c) => Runs(s, c) && Current(s, c).cpus > 0 && Current(s, c).stat.Running?
    case Wake(c, t) => Runs(s, c) && Current(s, c).cpus > 0 && t in s.tcb && s.tcb[t].stat.Suspend?
    case Choose(c, to) => MayChoose(s, c, to)
    case ChooseIrq(c, to) => MayChoose(s, c, to) && Current(s, c).cpus == Current(s, c).critical + 1
    case Restore(c) => c < |s.cpus| && s.cpus[c].next.Some? && s.cpus[c].next.value in s.tcb
    case Boot(c, to) =>
      c < |s.cpus| && s.cpus[c] == Cpu(None, None) && s.holder.None? && to in s.tcb && s.tcb[to].stat.Ready?
  }

  /** The current thread of c gets block b, and the lock goes to h. */
  function Touch(s: State, c: nat, b: Tcb, h: Option<nat>): State
    requires Runs(s, c)
  {
    s.(tcb := s.tcb[s.cpus[c].current.value := b], holder := h)
  }

  /** One more level of the lock on all CPUs; `extra` is what rt_enter_critical adds. */
  function Deeper(b: Tcb, extra: nat): Tcb {
    b.(cpus := b.cpus + 1, critical := b.critical + extra, sched := b.sched + (if b.cpus == 0 then 1 else 0) + extra)
  }

  function Shallower(b: Tcb, extra: nat): Tcb
    requires b.cpus > 0 && b.critical >= extra
  {
    b.(cpus := b.cpus - 1, critical := b.critical - extra, sched := b.sched - (if b.cpus == 1 then 1 else 0) - extra)
  }

  function HolderAfter(s: State, c: nat, b: Tcb): Option<nat> {
    if b.cpus > 0 then Some(c) else if s.holder == Some(c) then None else s.holder
  }

  /** The part of a switch before the context is saved: the old thread is detached, the new one
      is taken from the ready queue. */
  function Detach(s: State, c: nat, to: int, from: Tcb): State
    requires Runs(s, c) && to in s.tcb
  {
    var f := from.(on := None, stat := if from.stat.Running? then Ready else from.stat);
    var m := s.tcb[s.cpus[c].current.value := f];
    s.(tcb := m[to := m[to].(stat := Running, on := Some(c))], cpus := s.cpus[c := s.cpus[c].(next := Some(to))])
  }

  function Step(s: State, op: Op): State
    requires Enabled(s, op)
  {
    match op
    case Lock(c) => var b := Deeper(Current(s, c), 0); Touch(s, c, b, HolderAfter(s, c, b))
    case Unlock(c) => var b := Shallower(Current(s, c), 0); Touch(s, c, b, HolderAfter(s, c, b))
    case Enter(c) => var b := Deeper(Current(s, c), 1); Touch(s, c, b, HolderAfter(s, c, b))
    case Leave(c) => var b := Shallower(Current(s, c), 1); Touch(s, c, b, HolderAfter(s, c, b))
    case Disable(c) =>
      var b := Current(s, c);
      Touch(s, c, b.(preempt := b.preempt + 1, sched := b.sched + 1), s.holder)
    case Enable(c) =>
      var b := Current(s, c);
      Touch(s, c, b.(preempt := b.preempt - 1, sched := b.sched - 1), s.holder)
    case Spin(c, l) => var b := Current(s, c); Touch(s, c, b.(spins := b.spins + {l}), s.holder)
    case Unspin(c, l) => var b := Current(s, c); Touch(s, c, b.(spins := b.spins - {l}), s.holder)
    case Sleep(c) => Touch(s, c, Current(s, c).(stat := Suspend), s.holder)
    case Wake(c, t) => s.(tcb := s.tcb[t := s.tcb[t].(stat := if s.tcb[t].on.Some? then Running else Ready)])
    case Choose(c, to) => Detach(s, c, to, Current(s, c))
    case ChooseIrq(c, to) =>
      var b := Current(s, c);
      Detach(s, c, to, b.(cpus := b.cpus - 1, sched := b.sched - 1))
    case Restore(c) =>
      var t := s.cpus[c].next.value;
      s.(cpus := s.cpus[c := Cpu(Some(t), None)], holder := if s.tcb[t].cpus == 0 then None else s.holder)
    case Boot(c, to) =>
      s.(holder := Some(c), cpus := s.cpus[c := Cpu(None, Some(to))],
        tcb := s.tcb[to := s.tcb[to].(stat := Running, on := Some(c))])
  }
}

module SmpLockLaws {
  import opened SmpLockSpec

  /** A change of the current thread's own counters. */
  lemma TouchKeeps(s: State, c: nat, b: Tcb)
    requires Inv(s) && Runs(s, c) && b.on == Current(s, c).on && CountersOk(b) && !b.stat.Ready?
    requires b.cpus > 0 ==> s.holder.None? || s.holder == Some(c)
    requires forall u :: u in s.tcb && u != s.cpus[c].current.value ==> b.spins !! s.tcb[u].spins
    ensures Inv(Touch(s, c, b, HolderAfter(s, c, b)))
  {
    var t := s.cpus[c].current.value;
    var r := Touch(s, c, b, HolderAfter(s, c, b));
    assert CpuOk(s, c);
    forall u | u in r.tcb ensures ThreadOk(r, u) {
      assert ThreadOk(s, u);
    }
    forall d: nat | d < |r.cpus| ensures CpuOk(r, d) {
      assert CpuOk(s, d);
      if d != c {
        OtherCpu(s, c, d, b);
      }
    }
  }

  /** What the lock does for another CPU. */
  lemma OtherCpu(s: State, c: nat, d: nat, b: Tcb)
    requires Runs(s, c) && d < |s.cpus| && d != c && CpuOk(s, c) && CpuOk(s, d)
    requires s.cpus[d].current.Some? ==> s.cpus[d].next.Some? || s.cpus[d].current != s.cpus[c].current
    requires b.on == Current(s, c).on
    requires b.cpus > 0 ==> s.holder.None? || s.holder == Some(c)
    ensures CpuOk(Touch(s, c, b, HolderAfter(s, c, b)), d)
  {
  }

  /** A change of spins that takes no lock another thread has. */
  lemma SpinsApartKept(s: State, c: nat, spins: set<int>)
    requires Inv(s) && Runs(s, c) && spins <= Current(s, c).spins
    ensures forall u :: u in s.tcb && u != s.cpus[c].current.value ==> spins !! s.tcb[u].spins
  {
  }

  lemma CurrentOk(s: State, c: nat)
    requires Inv(s) && Runs(s, c)
    ensures CountersOk(Current(s, c)) && Current(s, c).on == Some(c) && !Current(s, c).stat.Ready?
    ensures s.holder == Some(c) <==> Current(s, c).cpus > 0
  {
    assert CpuOk(s, c);
    assert ThreadOk(s, s.cpus[c].current.value);
  }

  lemma LockKeeps(s: State, c: nat, extra: nat)
    requires Inv(s) && Runs(s, c) && LockFreeFor(s, c) && extra <= 1
    ensures var b := Deeper(Current(s, c), extra); Inv(Touch(s, c, b, HolderAfter(s, c, b)))
  {
    CurrentOk(s, c);
    SpinsApartKept(s, c, Current(s, c).spins);
    TouchKeeps(s, c, Deeper(Current(s, c), extra));
  }

  lemma UnlockKeeps(s: State, c: nat, extra: nat)
    requires Inv(s) && Runs(s, c) && Current(s, c).cpus > 0 && Current(s, c).critical >= extra
    requires extra == 0 ==> Current(s, c).critical < Current(s, c).cpus
    requires extra <= 1
    ensures var b := Shallower(Current(s, c), extra); Inv(Touch(s, c, b, HolderAfter(s, c, b)))
  {
    CurrentOk(s, c);
    SpinsApartKept(s, c, Current(s, c).spins);
    TouchKeeps(s, c, Shallower(Current(s, c), extra));
  }

  /** A change that leaves the lock count alone. */
  lemma CountKeeps(s: State, c: nat, b: Tcb)
    requires Inv(s) && Runs(s, c) && b.on == Current(s, c).on && CountersOk(b) && !b.stat.Ready?
    requires b.cpus == Current(s, c).cpus
    requires forall u :: u in s.tcb && u != s.cpus[c].current.value ==> b.spins !! s.tcb[u].spins
    ensures Inv(Touch(s, c, b, s.holder))
  {
    CurrentOk(s, c);
    TouchKeeps(s, c, b);
  }

  lemma WakeKeeps(s: State, t: int)
    requires Inv(s) && t in s.tcb && s.tcb[t].stat.Suspend?
    ensures Inv(s.(tcb := s.tcb[t := s.tcb[t].(stat := if s.tcb[t].on.Some? then Running else Ready)]))
  {
    var r := s.(tcb := s.tcb[t := s.tcb[t].(stat := if s.tcb[t].on.Some? then Running else Ready)]);
    forall u | u in r.tcb ensures ThreadOk(r, u) {
      assert ThreadOk(s, u);
    }
    forall d: nat | d < |r.cpus| ensures CpuOk(r, d) {
      assert CpuOk(s, d);
    }
  }

  /** Only a thread with nothing locked but the one level rt_schedule took itself gives up the
      processor. */
  lemma ChosenIsFree(s: State, c: nat, to: int)
    requires Inv(s) && MayChoose(s, c, to)
    ensures Switchable(Current(s, c)) && s.holder == Some(c) && to != s.cpus[c].current.value
    ensures s.tcb[to].on.None? && Switchable(s.tcb[to])
  {
    CurrentOk(s, c);
    assert ThreadOk(s, to);
  }

  lemma DetachKeeps(s: State, c: nat, to: int, from: Tcb)
    requires Inv(s) && MayChoose(s, c, to)
    requires from == Current(s, c) || (Current(s, c).cpus == 1 && from == Current(s, c).(cpus := 0, sched := 0))
    ensures Inv(Detach(s, c, to, from))
  {
    ChosenIsFree(s, c, to);
    CurrentOk(s, c);
    var r := Detach(s, c, to, from);
    forall u | u in r.tcb ensures ThreadOk(r, u) {
      assert ThreadOk(s, u);
    }
    forall d: nat | d < |r.cpus| ensures CpuOk(r, d) {
      assert CpuOk(s, d) && CpuOk(s, c);
    }
  }

  lemma RestoreKeeps(s: State, c: nat)
    requires Inv(s) && c < |s.cpus| && s.cpus[c].next.Some?
    ensures Enabled(s, Restore(c)) && Inv(Step(s, Restore(c)))
  {
    assert CpuOk(s, c);
    var r := Step(s, Restore(c));
    forall u | u in r.tcb ensures ThreadOk(r, u) {
      assert ThreadOk(s, u);
    }
    forall d: nat | d < |r.cpus| ensures CpuOk(r, d) {
      assert CpuOk(s, d);
    }
  }

  lemma BootKeeps(s: State, c: nat, to: int)
    requires Inv(s) && Enabled(s, Boot(c, to))
    ensures Inv(Step(s, Boot(c, to)))
  {
    var r := Step(s, Boot(c, to));
    forall u | u in r.tcb ensures ThreadOk(r, u) {
      assert ThreadOk(s, u);
    }
    forall d: nat | d < |r.cpus| ensures CpuOk(r, d) {
      assert CpuOk(s, d);
    }
  }

  lemma SpinKeeps(s: State, c: nat, l: int)
    requires Inv(s) && Enabled(s, Spin(c, l))
    ensures Inv(Step(s, Spin(c, l)))
  {
    CurrentOk(s, c);
    var b := Current(s, c);
    assert |b.spins + {l}| <= |b.spins| + 1 by {
      assert b.spins + {l} == if l in b.spins then b.spins else b.spins + {l};
    }
    CountKeeps(s, c, b.(spins := b.spins + {l}));
  }

  lemma UnspinKeeps(s: State, c: nat, l: int)
    requires Inv(s) && Enabled(s, Unspin(c, l))
    ensures Inv(Step(s, Unspin(c, l)))
  {
    CurrentOk(s, c);
    var b := Current(s, c);
    SpinsApartKept(s, c, b.spins - {l});
    CountKeeps(s, c, b.(spins := b.spins - {l}));
  }

  /** Every step of every CPU, in every interleaving, keeps the protocol's invariant. */
  lemma StepKeeps(s: State, op: Op)
    requires Inv(s) && Enabled(s, op)
    ensures Inv(Step(s, op))
  {
    match op
    case Lock(c) => LockKeeps(s, c, 0);
    case Enter(c) => LockKeeps(s, c, 1);
    case Unlock(c) => UnlockKeeps(s, c, 0);
    case Leave(c) => CurrentOk(s, c); UnlockKeeps(s, c, 1);
    case Disable(c) => CurrentOk(s, c); PreemptKeeps(s, c, 1);
    case Enable(c) => CurrentOk(s, c); PreemptKeeps(s, c, -1);
    case Spin(c, l) => SpinKeeps(s, c, l);
    case Unspin(c, l) => UnspinKeeps(s, c, l);
    case Sleep(c) => SleepKeeps(s, c);
    case Wake(c, t) => WakeKeeps(s, t);
    case _ => SwitchKeeps(s, op);
  }

  lemma SwitchKeeps(s: State, op: Op)
    requires Inv(s) && Enabled(s, op) && (op.Choose? || op.ChooseIrq? || op.Restore? || op.Boot?)
    ensures Inv(Step(s, op))
  {
    match op
    case Choose(c, to) => DetachKeeps(s, c, to, Current(s, c));
    case ChooseIrq(c, to) => CurrentOk(s, c); DetachKeeps(s, c, to, Current(s, c).(cpus := 0, sched := 0));
    case Restore(c) => RestoreKeeps(s, c);
    case Boot(c, to) => BootKeeps(s, c, to);
  }

  lemma PreemptKeeps(s: State, c: nat, delta: int)
    requires Inv(s) && Runs(s, c) && (delta == 1 || (delta == -1 && Current(s, c).preempt > |Current(s, c).spins|))
    ensures var b := Current(s, c); Inv(Touch(s, c, b.(preempt := b.preempt + delta, sched := b.sched + delta), s.holder))
  {
    CurrentOk(s, c);
    var b := Current(s, c);
    SpinsApartKept(s, c, b.spins);
    CountKeeps(s, c, b.(preempt := b.preempt + delta, sched := b.sched + delta));
  }

  lemma SleepKeeps(s: State, c: nat)
    requires Inv(s) && Enabled(s, Sleep(c))
    ensures Inv(Step(s, Sleep(c)))
  {
    CurrentOk(s, c);
    var b := Current(s, c);
    SpinsApartKept(s, c, b.spins);
    CountKeeps(s, c, b.(stat := Suspend));
  }

  ghost predicate EnabledRun(s: State, ops: seq<Op>)
    decreases |ops|
  {
    ops != [] ==> Enabled(s, ops[0]) && EnabledRun(Step(s, ops[0]), ops[1..])
  }

  ghost function Run(s: State, ops: seq<Op>): State
    requires EnabledRun(s, ops)
    decreases |ops|
  {
    if ops == [] then s else Run(Step(s, ops[0]), ops[1..])
  }

  /** Over whole runs of all CPUs. */
  lemma {:induction false} RunKeeps(s: State, ops: seq<Op>)
    requires Inv(s) && EnabledRun(s, ops)
    ensures Inv(Run(s, ops))
    decreases |ops|
  {
    if ops != [] {
      StepKeeps(s, ops[0]);
      RunKeeps(Step(s, ops[0]), ops[1..]);
    }
  }

  /** Before the scheduler starts: no CPU has a thread, and no thread holds anything. */
  predicate Fresh(s: State) {
    && (forall c :: 0 <= c < |s.cpus| ==> s.cpus[c] == Cpu(None, None))
    && s.holder.None?
    && forall t :: t in s.tcb ==> s.tcb[t].(stat := Ready) == Tcb(0, 0, 0, 0, Ready, None, {}) && !s.tcb[t].stat.Running?
  }

  lemma FreshIsOk(s: State)
    requires Fresh(s)
    ensures Inv(s)
  {
    forall c: nat | c < |s.cpus| ensures CpuOk(s, c) {
    }
  }

  /** A thread inside a critical section, or holding a spinlock, is running on a CPU that is not
      switching. */
  lemma PinnedIsRunning(s: State, t: int)
    requires Inv(s) && t in s.tcb && !Switchable(s.tcb[t])
    ensures s.tcb[t].on.Some? && s.tcb[t].on.value < |s.cpus|
    ensures s.cpus[s.tcb[t].on.value] == Cpu(Some(t), None)
    ensures s.tcb[t].critical > 0 ==> s.holder == s.tcb[t].on
  {
    assert ThreadOk(s, t);
    assert CpuOk(s, s.tcb[t].on.value);
  }

  /** No step takes such a thread off its CPU. */
  lemma PinnedStays(s: State, op: Op, t: int)
    requires Inv(s) && Enabled(s, op) && t in s.tcb && !Switchable(s.tcb[t])
    ensures t in Step(s, op).tcb && Step(s, op).tcb[t].on == s.tcb[t].on
    ensures s.tcb[t].on.value < |Step(s, op).cpus| && Step(s, op).cpus[s.tcb[t].on.value] == s.cpus[s.tcb[t].on.value]
  {
    PinnedIsRunning(s, t);
    if op.Choose? || op.ChooseIrq? {
      ChosenIsFree(s, op.cpu, op.to);
    } else if op.Boot? {
      assert ThreadOk(s, op.to);
    }
  }

  /** rt_enter_critical excludes across CPUs: at most one thread of the machine is inside. */
  lemma CriticalSectionsExclude(s: State, t: int, u: int)
    requires Inv(s) && t in s.tcb && u in s.tcb && s.tcb[t].critical > 0 && s.tcb[u].critical > 0
    ensures t == u
  {
    PinnedIsRunning(s, t);
    PinnedIsRunning(s, u);
  }

  /** At most one CPU has the lock on all CPUs: it is switching, or its thread has a positive
      count. */
  lemma OneHolder(s: State, c: nat, d: nat)
    requires Inv(s) && c < |s.cpus| && d < |s.cpus| && Holds(s, c) && Holds(s, d)
    ensures c == d && s.holder == Some(c)
  {
    assert CpuOk(s, c) && CpuOk(s, d);
  }

  /** One thread never runs on two CPUs. */
  lemma OneCpuPerThread(s: State, c: nat, d: nat)
    requires Inv(s) && c < |s.cpus| && d < |s.cpus|
    requires Occupant(s.cpus[c]).Some? && Occupant(s.cpus[c]) == Occupant(s.cpus[d])
    ensures c == d
  {
    assert CpuOk(s, c) && CpuOk(s, d);
  }

  /** The guard of rt_schedule, read from its counter alone, means exactly that the thread holds
      the lock on all CPUs and is neither in a critical section nor preempt-disabled. */
  lemma GuardMeaning(s: State, c: nat)
    requires Inv(s) && Runs(s, c) && Current(s, c).cpus > 0
    ensures Current(s, c).sched == 1 <==> Current(s, c).critical == 0 && Current(s, c).preempt == 0
  {
    CurrentOk(s, c);
  }

  /** After a switch the lock is released exactly when the new thread's count is zero; otherwise
      the CPU keeps it on the new thread's behalf. */
  lemma HandOver(s: State, c: nat, to: int)
    requires Inv(s) && MayChoose(s, c, to)
    ensures var r := Detach(s, c, to, Current(s, c)); Inv(r) && Enabled(r, Restore(c)) && r.holder == Some(c)
    ensures var e := Step(Detach(s, c, to, Current(s, c)), Restore(c));
      e.cpus[c].current == Some(to) && e.holder == if s.tcb[to].cpus > 0 then Some(c) else None
  {
    ChosenIsFree(s, c, to);
    DetachKeeps(s, c, to, Current(s, c));
    RestoreKeeps(Detach(s, c, to, Current(s, c)), c);
  }
}
