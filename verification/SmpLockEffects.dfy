/** What each step of the SMP lock protocol does to the counters, the lock and the CPUs, and how the
    nesting counts locks and unlocks. */
module SmpLockEffects {
  import opened SmpLockSpec
  import opened SmpLockLaws

  /** The running thread of CPU c has block b, the lock belongs to h, and nothing else has changed. */
  predicate Became(s: State, r: State, c: nat, b: Tcb, h: Option<nat>) {
    Runs(s, c) && r == State(s.cpus, h, s.tcb[s.cpus[c].current.value := b])
  }

  /** Locking all CPUs adds a level, the outermost one also one to the scheduler lock count; the CPU
      then has the lock. */
  lemma LockEffect(s: State, c: nat)
    requires Inv(s) && Enabled(s, Lock(c))
    ensures var b := Current(s, c); Became(s, Step(s, Lock(c)), c,
      Tcb(b.cpus + 1, b.critical, b.preempt, if b.cpus == 0 then b.sched + 1 else b.sched, b.stat, b.on, b.spins), Some(c))
  {
  }

  /** Unlocking takes a level away, and the outermost one gives the lock back. */
  lemma UnlockEffect(s: State, c: nat)
    requires Inv(s) && Enabled(s, Unlock(c))
    ensures var b := Current(s, c); Became(s, Step(s, Unlock(c)), c,
      Tcb(b.cpus - 1, b.critical, b.preempt, if b.cpus == 1 then b.sched - 1 else b.sched, b.stat, b.on, b.spins),
      if b.cpus == 1 then None else Some(c))
  {
    CurrentOk(s, c);
  }

  /** Entering a critical section locks all CPUs and counts the section, in the scheduler lock count too. */
  lemma EnterEffect(s: State, c: nat)
    requires Inv(s) && Enabled(s, Enter(c))
    ensures var b := Current(s, c); Became(s, Step(s, Enter(c)), c,
      Tcb(b.cpus + 1, b.critical + 1, b.preempt, if b.cpus == 0 then b.sched + 2 else b.sched + 1, b.stat, b.on, b.spins), Some(c))
  {
  }

  lemma LeaveEffect(s: State, c: nat)
    requires Inv(s) && Enabled(s, Leave(c))
    ensures var b := Current(s, c); Became(s, Step(s, Leave(c)), c,
      Tcb(b.cpus - 1, b.critical - 1, b.preempt, if b.cpus == 1 then b.sched - 2 else b.sched - 1, b.stat, b.on, b.spins),
      if b.cpus == 1 then None else Some(c))
  {
    CurrentOk(s, c);
  }

  /** Disabling and enabling preemption count in both counters and leave the lock alone; a spinlock is
      taken and given back by the running thread. */
  lemma PreemptEffect(s: State, c: nat, l: int)
    requires Inv(s) && Runs(s, c)
    ensures var b := Current(s, c);
      && (Enabled(s, Disable(c)) ==> Became(s, Step(s, Disable(c)), c, b.(preempt := b.preempt + 1, sched := b.sched + 1), s.holder))
      && (Enabled(s, Enable(c)) ==> Became(s, Step(s, Enable(c)), c, b.(preempt := b.preempt - 1, sched := b.sched - 1), s.holder))
      && (Enabled(s, Spin(c, l)) ==> Became(s, Step(s, Spin(c, l)), c, b.(spins := b.spins + {l}), s.holder))
      && (Enabled(s, Unspin(c, l)) ==> Became(s, Step(s, Unspin(c, l)), c, b.(spins := b.spins - {l}), s.holder))
  {
  }

  /** A thread that sleeps is suspended and stays on its CPU until the switch; a thread that is woken
      goes to a ready queue, or runs on if its CPU has not switched yet. */
  lemma SleepEffect(s: State, c: nat)
    requires Inv(s) && Enabled(s, Sleep(c))
    ensures Became(s, Step(s, Sleep(c)), c, Current(s, c).(stat := Suspend), s.holder)
  {
  }

  lemma WakeEffect(s: State, c: nat, t: int)
    requires Inv(s) && Enabled(s, Wake(c, t))
    ensures s.tcb[t].on.None? ==> Step(s, Wake(c, t)) == s.(tcb := s.tcb[t := s.tcb[t].(stat := Ready)])
    ensures s.tcb[t].on.Some? ==> Step(s, Wake(c, t)) == s.(tcb := s.tcb[t := s.tcb[t].(stat := Running)])
  {
  }

  /** The processor of CPU c is on its way from the running thread, now with block f, to thread `to`. */
  predicate Leaving(s: State, r: State, c: nat, f: Tcb, to: int) {
    && Runs(s, c) && to in s.tcb && to != s.cpus[c].current.value
    && r == State(s.cpus[c := Cpu(s.cpus[c].current, Some(to))], Some(c),
                  s.tcb[s.cpus[c].current.value := f][to := s.tcb[to].(stat := Running, on := Some(c))])
  }

  /** A switch detaches the old thread, which is ready again if it was RUNNING and keeps its counters;
      the new one is RUNNING on this CPU; the CPU keeps the lock. In an interrupt the old thread also
      gives up the level that the interrupt took. */
  lemma ChooseEffect(s: State, c: nat, to: int)
    requires Inv(s) && MayChoose(s, c, to)
    ensures var b := Current(s, c);
      var f := b.(on := None, stat := if b.stat.Running? then Ready else b.stat);
      && Leaving(s, Step(s, Choose(c, to)), c, f, to)
      && (Enabled(s, ChooseIrq(c, to)) ==>
        Leaving(s, Step(s, ChooseIrq(c, to)), c, f.(cpus := b.cpus - 1, sched := b.sched - 1), to))
  {
    ChosenIsFree(s, c, to);
  }

  /** The end of a switch makes the chosen thread the current one; the CPU keeps the lock exactly if
      that thread's count is positive. */
  lemma RestoreEffect(s: State, c: nat)
    requires Inv(s) && Enabled(s, Restore(c))
    ensures var t := s.cpus[c].next.value; var r := Step(s, Restore(c));
      && s.holder == Some(c) && r.tcb == s.tcb && r.cpus == s.cpus[c := Cpu(Some(t), None)]
      && (r.holder == Some(c) <==> s.tcb[t].cpus > 0) && (r.holder.None? <==> s.tcb[t].cpus == 0)
  {
    assert CpuOk(s, c);
  }

  lemma BootEffect(s: State, c: nat, to: int)
    requires Inv(s) && Enabled(s, Boot(c, to))
    ensures Step(s, Boot(c, to)) ==
      State(s.cpus[c := Cpu(None, Some(to))], Some(c), s.tcb[to := s.tcb[to].(stat := Running, on := Some(c))])
  {
  }

  // ----- nesting over runs -----

  /** Thread t runs on CPU c. */
  predicate By(s: State, c: nat, t: int) {
    Runs(s, c) && s.cpus[c].current.value == t
  }

  /** The levels of the lock on all CPUs that the step adds to thread t, negative if it takes some away. */
  function Levels(s: State, op: Op, t: int): int {
    match op
    case Lock(c) => if By(s, c, t) then 1 else 0
    case Enter(c) => if By(s, c, t) then 1 else 0
    case Unlock(c) => if By(s, c, t) then -1 else 0
    case Leave(c) => if By(s, c, t) then -1 else 0
    case ChooseIrq(c, _) => if By(s, c, t) then -1 else 0
    case _ => 0
  }

  ghost function AllLevels(s: State, ops: seq<Op>, t: int): int
    requires EnabledRun(s, ops)
    decreases |ops|
  {
    if ops == [] then 0 else Levels(s, ops[0], t) + AllLevels(Step(s, ops[0]), ops[1..], t)
  }

  lemma StepDepth(s: State, op: Op, t: int)
    requires Inv(s) && Enabled(s, op) && t in s.tcb
    ensures t in Step(s, op).tcb && Step(s, op).tcb[t].cpus == s.tcb[t].cpus + Levels(s, op, t)
  {
    match op
    case ChooseIrq(c, to) => ChooseEffect(s, c, to);
    case Choose(c, to) => ChooseEffect(s, c, to);
    case _ =>
  }

  /** Over every run, on whatever CPUs a thread runs, its count is the number of levels it has taken less
      those it has given back. */
  lemma {:induction false} RunDepth(s: State, ops: seq<Op>, t: int)
    requires Inv(s) && EnabledRun(s, ops) && t in s.tcb
    ensures Inv(Run(s, ops)) && t in Run(s, ops).tcb
    ensures Run(s, ops).tcb[t].cpus == s.tcb[t].cpus + AllLevels(s, ops, t)
    decreases |ops|
  {
    if ops != [] {
      StepDepth(s, ops[0], t);
      StepKeeps(s, ops[0]);
      RunDepth(Step(s, ops[0]), ops[1..], t);
    }
  }

  /** After any run, a running thread has the lock on all CPUs exactly if it has taken more levels than
      it has given back: k nested takes need k releases. */
  lemma HeldWhileNested(s: State, ops: seq<Op>, t: int, c: nat)
    requires Inv(s) && EnabledRun(s, ops) && t in s.tcb && By(Run(s, ops), c, t)
    ensures Run(s, ops).holder == Some(c) <==> s.tcb[t].cpus + AllLevels(s, ops, t) > 0
  {
    RunDepth(s, ops, t);
    CurrentOk(Run(s, ops), c);
  }
}
