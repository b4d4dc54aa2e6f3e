/** The lock operations of cpu.c and of the RT_USING_SMP half of scheduler.c, field by field. A
    method that would spin on _cpus_lock is called once that lock is free. */
module SmpLock {
  import opened SmpLockSpec
  import SmpLockLaws

  class Machine {
    var cpus: seq<Cpu>          // _cpus
    var holder: Option<nat>     // the CPU that has _cpus_lock
    var tcb: map<int, Tcb>      // the lock fields of the threads

    ghost function Contents(): State
      reads this
    {
      State(cpus, holder, tcb)
    }

    /** What a step on CPU c may rely on: the invariant at that CPU and its thread. */
    ghost predicate Ready(op: Op)
      reads this
    {
      var c := op.cpu;
      && c < |cpus| && Enabled(Contents(), op) && CpuOk(Contents(), c)
      && (Runs(Contents(), c) ==> CountersOk(Current(Contents(), c)))
    }

    /** A CPU that has not started a thread. */
    predicate Idle(c: nat)
      reads this
    {
      c < |cpus| && cpus[c].current.None?
    }

    /** rt_hw_spin_lock(&_cpus_lock) */
    method TakeCpusLock(c: nat)
      requires holder.None?
      modifies this`holder
      ensures holder == Some(c)
    {
      holder := Some(c);
    }

    /** rt_hw_spin_unlock(&_cpus_lock) by the CPU that has it. */
    method DropCpusLock(c: nat)
      requires holder == Some(c)
      modifies this`holder
      ensures holder.None?
    {
      holder := None;
    }

    /** rt_cpus_lock, which is rt_hw_interrupt_disable in this build. */
    method CpusLock(c: nat)
      requires Idle(c) || Ready(Lock(c))
      modifies this
      ensures Contents() == if old(Idle(c)) then old(Contents()) else Step(old(Contents()), Lock(c))
    {
      if cpus[c].current.None? {
        return;
      }
      var t := cpus[c].current.value;
      var nest := tcb[t].cpus;
      tcb := tcb[t := tcb[t].(cpus := nest + 1)];
      if nest == 0 {
        tcb := tcb[t := tcb[t].(sched := tcb[t].sched + 1)];
        TakeCpusLock(c);
      }
    }

    /** rt_cpus_unlock */
    method CpusUnlock(c: nat)
      requires Idle(c) || Ready(Unlock(c))
      modifies this
      ensures Contents() == if old(Idle(c)) then old(Contents()) else Step(old(Contents()), Unlock(c))
    {
      if cpus[c].current.None? {
        return;
      }
      var t := cpus[c].current.value;
      tcb := tcb[t := tcb[t].(cpus := tcb[t].cpus - 1)];
      if tcb[t].cpus == 0 {
        tcb := tcb[t := tcb[t].(sched := tcb[t].sched - 1)];
        DropCpusLock(c);
      }
    }

    /** rt_enter_critical */
    method EnterCritical(c: nat)
      requires Idle(c) || Ready(Enter(c))
      modifies this
      ensures Contents() == if old(Idle(c)) then old(Contents()) else Step(old(Contents()), Enter(c))
    {
      if cpus[c].current.None? {
        return;
      }
      var t := cpus[c].current.value;
      var nest := tcb[t].cpus;
      tcb := tcb[t := tcb[t].(cpus := nest + 1)];
      if nest == 0 {
        tcb := tcb[t := tcb[t].(sched := tcb[t].sched + 1)];
        TakeCpusLock(c);
      }
      tcb := tcb[t := tcb[t].(critical := tcb[t].critical + 1)];
      tcb := tcb[t := tcb[t].(sched := tcb[t].sched + 1)];
    }

    /** rt_exit_critical up to its call of rt_schedule, which it makes when `resched` is set: just
        when the thread is left with nothing locked. */
    method ExitCritical(c: nat) returns (resched: bool)
      requires Idle(c) || Ready(Leave(c))
      modifies this
      ensures Contents() == if old(Idle(c)) then old(Contents()) else Step(old(Contents()), Leave(c))
      ensures resched <==> Runs(Contents(), c) && Current(Contents(), c).cpus == 0 && Current(Contents(), c).preempt == 0
    {
      if cpus[c].current.None? {
        return false;
      }
      var t := cpus[c].current.value;
      tcb := tcb[t := tcb[t].(sched := tcb[t].sched - 1)];
      tcb := tcb[t := tcb[t].(critical := tcb[t].critical - 1)];
      tcb := tcb[t := tcb[t].(cpus := tcb[t].cpus - 1)];
      if tcb[t].cpus == 0 {
        tcb := tcb[t := tcb[t].(sched := tcb[t].sched - 1)];
        DropCpusLock(c);
      }
      resched := tcb[t].sched <= 0;
      if resched {
        tcb := tcb[t := tcb[t].(sched := 0)];
      }
    }

    /** _cpu_preempt_disable; `preempt` records the depth for the proofs. */
    method PreemptDisable(c: nat)
      requires Idle(c) || Ready(Disable(c))
      modifies this`tcb
      ensures Contents() == if old(Idle(c)) then old(Contents()) else Step(old(Contents()), Disable(c))
    {
      if cpus[c].current.None? {
        return;
      }
      var t := cpus[c].current.value;
      tcb := tcb[t := tcb[t].(sched := tcb[t].sched + 1, preempt := tcb[t].preempt + 1)];
    }

    /** _cpu_preempt_enable up to its call of rt_schedule. */
    method PreemptEnable(c: nat)
      requires Idle(c) || Ready(Enable(c))
      modifies this`tcb
      ensures Contents() == if old(Idle(c)) then old(Contents()) else Step(old(Contents()), Enable(c))
    {
      if cpus[c].current.None? {
        return;
      }
      var t := cpus[c].current.value;
      tcb := tcb[t := tcb[t].(sched := tcb[t].sched - 1, preempt := tcb[t].preempt - 1)];
    }

    /** The status part of rt_schedule_insert_thread: a thread that is on a CPU keeps running. On a
        suspended thread this is the step of CPU c that wakes it. */
    method InsertThread(t: int, ghost c: nat)
      requires t in tcb
      modifies this`tcb
      ensures tcb == old(tcb)[t := old(tcb[t]).(stat := if old(tcb[t].on.Some?) then Running else SmpLockSpec.Ready)]
      ensures Enabled(old(Contents()), Wake(c, t)) ==> Contents() == Step(old(Contents()), Wake(c, t))
      ensures Enabled(old(Contents()), Wake(c, t)) && Inv(old(Contents())) ==> Inv(Contents())
    {
      ghost var before := Contents();
      if Enabled(before, Wake(c, t)) && Inv(before) {
        SmpLockLaws.StepKeeps(before, Wake(c, t));
      }
      if tcb[t].on.Some? {
        tcb := tcb[t := tcb[t].(stat := Running)];
        return;
      }
      tcb := tcb[t := tcb[t].(stat := SmpLockSpec.Ready)];
    }

    /** Thread t leaves its CPU; one that was running is ready again. */
    method TakeOff(t: int, ghost c: nat)
      requires t in tcb
      modifies this`tcb
      ensures tcb == old(tcb)[t := old(tcb[t]).(on := None, stat := if old(tcb[t].stat.Running?) then SmpLockSpec.Ready else old(tcb[t].stat))]
    {
      tcb := tcb[t := tcb[t].(on := None)];
      if tcb[t].stat.Running? {
        InsertThread(t, c);
      }
    }

    /** The switch in rt_schedule, and with `irq` the one in rt_scheduler_do_irq_switch, once the
        priorities have picked `to`. A count other than one keeps the current thread. */
    method SwitchOut(c: nat, to: int, irq: bool)
      requires Runs(Contents(), c) && Current(Contents(), c).cpus > 0 && to in tcb && tcb[to].stat.Ready? && to != cpus[c].current.value
      requires irq ==> Current(Contents(), c).cpus == Current(Contents(), c).critical + 1
      modifies this
      ensures Contents() == if old(Current(Contents(), c)).sched != 1 then old(Contents()) else Step(old(Contents()), if irq then ChooseIrq(c, to) else Choose(c, to))
    {
      var t := cpus[c].current.value;
      if tcb[t].sched == 1 {
        TakeOff(t, c);
        tcb := tcb[to := tcb[to].(on := Some(c))];
        tcb := tcb[to := tcb[to].(stat := Running)];
        if irq {
          tcb := tcb[t := tcb[t].(cpus := tcb[t].cpus - 1)];
          tcb := tcb[t := tcb[t].(sched := tcb[t].sched - 1)];
        }
        cpus := cpus[c := cpus[c].(next := Some(to))];
      }
    }

    /** rt_cpus_lock_status_restore, run by the context switch on its way into the thread. */
    method LockStatusRestore(c: nat)
      requires Ready(Restore(c))
      modifies this
      ensures Contents() == Step(old(Contents()), Restore(c))
    {
      var t := cpus[c].next.value;
      cpus := cpus[c := Cpu(Some(t), None)];
      if tcb[t].cpus == 0 {
        DropCpusLock(c);
      }
    }
  }
}
