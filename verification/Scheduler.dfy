/** The bitmap index over the ready lists, with one word for up to 32 levels and a word of groups
    over a table of bytes for up to 256. */
module ReadyIndex {
  import opened Bitmap
  import opened SchedulerSpec

  predicate OneLevel(ready: seq<seq<int>>, group: nat) {
    |ready| <= 32 && group < Pow2(32) && forall p: nat :: p < 32 ==> (Bit(group, p) <==> p < |ready| && ready[p] != [])
  }

  predicate NonEmpty(ready: seq<seq<int>>, p: nat) {
    p < |ready| && ready[p] != []
  }

  /** Byte n of the table describes levels 8n..8n+7, and bit n of the group word says whether that
      byte is non-zero. */
  predicate ByteOk(ready: seq<seq<int>>, group: nat, byte: nat, n: nat) {
    && byte < Pow2(8)
    && (Bit(group, n) <==> byte != 0)
    && forall i: nat :: i < 8 ==> (Bit(byte, i) <==> NonEmpty(ready, 8 * n + i))
  }

  predicate TwoLevel(ready: seq<seq<int>>, group: nat, table: seq<nat>) {
    && 32 < |ready| <= 256 && group < Pow2(32) && |table| == 32
    && forall n: nat :: n < 32 ==> ByteOk(ready, group, table[n], n)
  }

  /** A bit is set exactly when its list, or its group of lists, is non-empty. */
  predicate IndexOk(ready: seq<seq<int>>, group: nat, table: seq<nat>) {
    |ready| > 0 && if |ready| > 32 then TwoLevel(ready, group, table) else OneLevel(ready, group)
  }

  /** A word below 2^n is zero exactly when none of its n bits is set. */
  lemma ZeroWord(word: nat, n: nat)
    requires word < Pow2(n)
    ensures word != 0 ==> LowestBit(word) < n && Bit(word, LowestBit(word))
  {
    if word != 0 {
      LowestBitMeaning(word, 0);
      if LowestBit(word) >= n {
        NoHighBits(word, LowestBit(word), n);
      }
    }
  }

  lemma SomeBit(word: nat, i: nat)
    requires Bit(word, i)
    ensures word != 0
  {
    if word == 0 {
      ZeroHasNoBits(i);
    }
  }

  lemma SetOneLevel(ready: seq<seq<int>>, group: nat, p: nat, q: seq<int>)
    requires OneLevel(ready, group) && p < |ready| && q != []
    ensures OneLevel(ready[p := q], SetBit(group, p))
  {
    BitsStayNarrow(group, p, 32);
    forall j: nat | j < 32 ensures Bit(SetBit(group, p), j) <==> j == p || Bit(group, j) {
      SetBitSets(group, p, j);
    }
  }

  lemma ClearOneLevel(ready: seq<seq<int>>, group: nat, p: nat)
    requires OneLevel(ready, group) && p < |ready|
    ensures OneLevel(ready[p := []], ClearBit(group, p))
  {
    BitsStayNarrow(group, p, 32);
    forall j: nat | j < 32 ensures Bit(ClearBit(group, p), j) <==> j != p && Bit(group, j) {
      ClearBitClears(group, p, j);
    }
  }

  lemma KeepOneLevel(ready: seq<seq<int>>, group: nat, p: nat, q: seq<int>)
    requires OneLevel(ready, group) && p < |ready| && (q == [] <==> ready[p] == [])
    ensures OneLevel(ready[p := q], group)
  {
  }

  /** A byte that does not describe level p. */
  lemma OtherByte(ready: seq<seq<int>>, group: nat, group1: nat, byte: nat, n: nat, p: nat, q: seq<int>)
    requires ByteOk(ready, group, byte, n) && p < |ready| && n != p / 8
    requires Bit(group1, n) <==> Bit(group, n)
    ensures ByteOk(ready[p := q], group1, byte, n)
  {
    forall i: nat | i < 8 ensures Bit(byte, i) <==> NonEmpty(ready[p := q], 8 * n + i) {
      assert 8 * n + i != p;
    }
  }

  lemma SetByte(ready: seq<seq<int>>, group: nat, byte: nat, p: nat, q: seq<int>)
    requires ByteOk(ready, group, byte, p / 8) && p < |ready| && q != []
    ensures ByteOk(ready[p := q], SetBit(group, p / 8), SetBit(byte, p % 8), p / 8)
  {
    BitsStayNarrow(byte, p % 8, 8);
    SetBitSets(group, p / 8, p / 8);
    SetBitSets(byte, p % 8, p % 8);
    SomeBit(SetBit(byte, p % 8), p % 8);
    forall i: nat | i < 8 ensures Bit(SetBit(byte, p % 8), i) <==> NonEmpty(ready[p := q], 8 * (p / 8) + i) {
      SetBitSets(byte, p % 8, i);
      assert 8 * (p / 8) + i == p <==> i == p % 8;
      assert NonEmpty(ready, 8 * (p / 8) + i) <==> Bit(byte, i);
    }
  }

  lemma SetTwoLevel(ready: seq<seq<int>>, group: nat, table: seq<nat>, p: nat, q: seq<int>)
    requires TwoLevel(ready, group, table) && p < |ready| && q != []
    ensures TwoLevel(ready[p := q], SetBit(group, p / 8), table[p / 8 := SetBit(table[p / 8], p % 8)])
  {
    var g, t := SetBit(group, p / 8), table[p / 8 := SetBit(table[p / 8], p % 8)];
    BitsStayNarrow(group, p / 8, 32);
    forall n: nat | n < 32 ensures ByteOk(ready[p := q], g, t[n], n) {
      SetBitSets(group, p / 8, n);
      assert ByteOk(ready, group, table[n], n);
      if n == p / 8 {
        SetByte(ready, group, table[n], p, q);
      } else {
        OtherByte(ready, group, g, table[n], n, p, q);
      }
    }
  }

  lemma ClearByte(ready: seq<seq<int>>, group: nat, group1: nat, byte: nat, p: nat)
    requires ByteOk(ready, group, byte, p / 8) && p < |ready|
    requires group1 == if ClearBit(byte, p % 8) == 0 then ClearBit(group, p / 8) else group
    ensures ByteOk(ready[p := []], group1, ClearBit(byte, p % 8), p / 8)
  {
    BitsStayNarrow(byte, p % 8, 8);
    ClearBitClears(group, p / 8, p / 8);
    forall i: nat | i < 8 ensures Bit(ClearBit(byte, p % 8), i) <==> NonEmpty(ready[p := []], 8 * (p / 8) + i) {
      ClearBitClears(byte, p % 8, i);
      assert 8 * (p / 8) + i == p <==> i == p % 8;
      assert NonEmpty(ready, 8 * (p / 8) + i) <==> Bit(byte, i);
    }
    if byte == 0 {
      ClearZero(p % 8);
    }
  }

  lemma {:induction false} ClearZero(i: nat)
    ensures ClearBit(0, i) == 0
    decreases i
  {
    if i > 0 {
      ClearZero(i - 1);
    }
  }

  lemma ClearTwoLevel(ready: seq<seq<int>>, group: nat, table: seq<nat>, p: nat)
    requires TwoLevel(ready, group, table) && p < |ready|
    ensures var b := ClearBit(table[p / 8], p % 8); TwoLevel(ready[p := []], if b == 0 then ClearBit(group, p / 8) else group, table[p / 8 := b])
  {
    var b := ClearBit(table[p / 8], p % 8);
    var g, t := if b == 0 then ClearBit(group, p / 8) else group, table[p / 8 := b];
    BitsStayNarrow(group, p / 8, 32);
    forall n: nat | n < 32 ensures ByteOk(ready[p := []], g, t[n], n) {
      ClearBitClears(group, p / 8, n);
      assert ByteOk(ready, group, table[n], n);
      if n == p / 8 {
        ClearByte(ready, group, g, table[n], p);
      } else {
        OtherByte(ready, group, g, table[n], n, p, []);
      }
    }
  }

  lemma KeepTwoLevel(ready: seq<seq<int>>, group: nat, table: seq<nat>, p: nat, q: seq<int>)
    requires TwoLevel(ready, group, table) && p < |ready| && (q == [] <==> ready[p] == [])
    ensures TwoLevel(ready[p := q], group, table)
  {
    forall n: nat | n < 32 ensures ByteOk(ready[p := q], group, table[n], n) {
      assert ByteOk(ready, group, table[n], n);
      forall i: nat | i < 8 ensures Bit(table[n], i) <==> NonEmpty(ready[p := q], 8 * n + i) {
        assert NonEmpty(ready, 8 * n + i) <==> Bit(table[n], i);
      }
    }
  }

  /** The group word is zero exactly when nothing is ready. */
  lemma GroupMeansReady(ready: seq<seq<int>>, group: nat, table: seq<nat>)
    requires IndexOk(ready, group, table)
    ensures group != 0 <==> Highest(ready) < |ready|
  {
    HighestMeaning(ready, 0);
    if |ready| > 32 {
      if group != 0 {
        TwoLevelLookup(ready, group, table);
      } else if Highest(ready) < |ready| {
        var p := Highest(ready);
        ListSetsGroup(ready, group, table, p);
      }
    } else {
      if group != 0 {
        OneLevelLookup(ready, group);
      } else if Highest(ready) < |ready| {
        SomeBit(group, Highest(ready));
      }
    }
  }

  lemma ListSetsGroup(ready: seq<seq<int>>, group: nat, table: seq<nat>, p: nat)
    requires TwoLevel(ready, group, table) && NonEmpty(ready, p)
    ensures p / 8 < 32 && Bit(group, p / 8) && Bit(table[p / 8], p % 8) && group != 0
  {
    assert ByteOk(ready, group, table[p / 8], p / 8);
    assert NonEmpty(ready, 8 * (p / 8) + p % 8);
    SomeBit(table[p / 8], p % 8);
    SomeBit(group, p / 8);
  }

  /** With one level, the lowest set bit is the best ready priority. */
  lemma OneLevelLookup(ready: seq<seq<int>>, group: nat)
    requires OneLevel(ready, group) && group != 0
    ensures LowestBit(group) == Highest(ready) < |ready|
  {
    var p := LowestBit(group);
    ZeroWord(group, 32);
    HighestMeaning(ready, p);
    LowestBitMeaning(group, Highest(ready));
  }

  /** With two levels, the lowest bit of the lowest non-zero byte is. */
  lemma TwoLevelLookup(ready: seq<seq<int>>, group: nat, table: seq<nat>)
    requires TwoLevel(ready, group, table) && group != 0
    ensures LowestBit(group) < 32 && table[LowestBit(group)] != 0
    ensures 8 * LowestBit(group) + LowestBit(table[LowestBit(group)]) == Highest(ready) < |ready|
  {
    var n := LowestBit(group);
    FoundLevel(ready, group, table);
    var i := LowestBit(table[n]);
    HighestMeaning(ready, 8 * n + i);
    NothingLower(ready, group, table, Highest(ready));
  }

  /** The level that the lookup finds has a ready thread. */
  lemma FoundLevel(ready: seq<seq<int>>, group: nat, table: seq<nat>)
    requires TwoLevel(ready, group, table) && group != 0
    ensures LowestBit(group) < 32 && table[LowestBit(group)] != 0
    ensures var i := LowestBit(table[LowestBit(group)]); i < 8 && NonEmpty(ready, 8 * LowestBit(group) + i)
  {
    var n := LowestBit(group);
    ZeroWord(group, 32);
    assert ByteOk(ready, group, table[n], n);
    ZeroWord(table[n], 8);
  }

  /** No level below it has one. */
  lemma NothingLower(ready: seq<seq<int>>, group: nat, table: seq<nat>, h: nat)
    requires TwoLevel(ready, group, table) && group != 0 && NonEmpty(ready, h)
    requires LowestBit(group) < 32 && table[LowestBit(group)] != 0 && LowestBit(table[LowestBit(group)]) < 8
    ensures 8 * LowestBit(group) + LowestBit(table[LowestBit(group)]) <= h
  {
    ListSetsGroup(ready, group, table, h);
    LowestBitMeaning(group, h / 8);
    LowestBitMeaning(table[LowestBit(group)], h % 8);
  }
}

/** scheduler.c without RT_USING_SMP, and rt_tick_increase. */
module Scheduler {
  import opened Sequences
  import opened RtDef
  import opened Bitmap
  import opened ReadyIndex
  import opened SchedulerLaws
  import opened SchedulerSpec

  class Core {
    var ready: seq<seq<int>>    // rt_thread_priority_table
    var group: nat              // rt_thread_ready_priority_group
    const table: array<nat>     // rt_thread_ready_table
    var tcb: map<int, Tcb>      // the fields of the threads
    var cur: Handle             // rt_current_thread
    var lock: int               // rt_scheduler_lock_nest

    ghost predicate Rep()
      reads this`ready, this`group, table
    {
      table.Length == 32 && IndexOk(ready, group, table[..])
    }

    ghost function Contents(): State
      reads this`ready, this`tcb, this`cur, this`lock
    {
      State(ready, tcb, cur, lock)
    }

    /** rt_system_scheduler_init; `priorities` is RT_THREAD_PRIORITY_MAX. */
    constructor (priorities: nat, threads: map<int, Tcb>)
      requires 0 < priorities <= 256
      ensures Rep() && fresh(table)
      ensures cur == Handle.Null && lock == 0 && tcb == threads
      ensures |ready| == priorities && forall p :: 0 <= p < priorities ==> ready[p] == []
    {
      ready := seq(priorities, i => []);
      group := 0;
      table := new nat[32](i => 0);
      tcb, cur, lock := threads, Handle.Null, 0;
      new;
      EmptyIndex(ready, table[..]);
    }

    /** Sets the bit of level p, and of its group. */
    method MarkReady(p: nat, ghost before: seq<seq<int>>, ghost q: seq<int>)
      requires table.Length == 32 && IndexOk(before, group, table[..]) && p < |before| && q != []
      requires ready == before[p := q]
      modifies this`group, table
      ensures Rep()
    {
      if |ready| > 32 {
        SetTwoLevel(before, group, table[..], p, q);
        table[p / 8] := SetBit(table[p / 8], p % 8);
        group := SetBit(group, p / 8);
      } else {
        SetOneLevel(before, group, p, q);
        group := SetBit(group, p);
      }
    }

    /** Clears the bit of level p, and of its group when no other level of the group is left. */
    method MarkEmpty(p: nat, ghost before: seq<seq<int>>)
      requires table.Length == 32 && IndexOk(before, group, table[..]) && p < |before|
      requires ready == before[p := []]
      modifies this`group, table
      ensures Rep()
    {
      if |ready| > 32 {
        ClearTwoLevel(before, group, table[..], p);
        table[p / 8] := ClearBit(table[p / 8], p % 8);
        if table[p / 8] == 0 {
          group := ClearBit(group, p / 8);
        }
      } else {
        ClearOneLevel(before, group, p);
        group := ClearBit(group, p);
      }
    }

    /** rt_schedule_insert_thread */
    method InsertThread(t: int)
      requires Rep() && t in tcb && tcb[t].prio < |ready|
      modifies this`ready, this`group, this`tcb, table
      ensures Rep() && Contents() == Insert(old(Contents()), t)
    {
      if cur == Thread(t) {
        tcb := tcb[t := tcb[t].(stat := Running)];
        return;
      }
      tcb := tcb[t := tcb[t].(stat := Ready)];
      var p := tcb[t].prio;
      ghost var before := ready;
      ready := ready[p := ready[p] + [t]];
      MarkReady(p, before, before[p] + [t]);
    }

    /** rt_schedule_remove_thread */
    method RemoveThread(t: int)
      requires Rep() && t in tcb && tcb[t].prio < |ready|
      modifies this`ready, this`group, table
      ensures Rep() && Contents() == Remove(old(Contents()), t)
    {
      var p := tcb[t].prio;
      ghost var before := ready;
      ready := ready[p := Unlinked(ready[p], t)];
      if ready[p] == [] {
        MarkEmpty(p, before);
      } else {
        KeepIndex(before, group, table[..], p, ready[p]);
      }
    }

    /** _scheduler_get_highest_priority_thread, through the bitmap alone. */
    method HighestPriorityThread() returns (t: int, best: nat)
      requires Rep() && group != 0
      ensures best == Highest(ready) < |ready| && ready[best] != [] && t == ready[best][0]
    {
      assert Pow2(8) == 256;
      WordSize();
      HighestMeaning(ready, 0);
      if |ready| > 32 {
        TwoLevelLookup(ready, group, table[..]);
        var number := Ffs(group);
        number := number - 1;
        assert ByteOk(ready, group, table[..][number], number);
        var low := Ffs(table[number]);
        best := 8 * number + low - 1;
      } else {
        OneLevelLookup(ready, group);
        var bit := Ffs(group);
        best := bit - 1;
      }
      t := ready[best][0];
    }

    /** Takes t off its list and marks it RUNNING. */
    method SettleThread(t: int)
      requires Rep() && t in tcb && tcb[t].prio < |ready|
      modifies this`ready, this`group, this`tcb, table
      ensures Rep() && Contents() == Settle(old(Contents()), t)
    {
      RemoveThread(t);
      tcb := tcb[t := tcb[t].(stat := Running)];
    }

    /** The part of rt_schedule that changes the current thread. */
    method SwitchThread(to: int, requeue: bool)
      requires Rep() && Formed(Contents()) && cur.Thread? && to in tcb
      modifies this`ready, this`group, this`tcb, this`cur, table
      ensures Rep() && Contents() == SwitchTo(old(Contents()), to, requeue)
    {
      var from := cur.id;
      cur := Thread(to);
      if requeue {
        InsertThread(from);
      }
      SettleThread(to);
    }

    /** rt_schedule */
    method Schedule()
      requires Rep() && Schedulable(Contents())
      modifies this`ready, this`group, this`tcb, this`cur, table
      ensures Rep() && Contents() == SchedulerSpec.Schedule(old(Contents()))
    {
      GroupMeansReady(ready, group, table[..]);
      if lock == 0 && group != 0 {
        var requeue := false;
        var to, best := HighestPriorityThread();
        if tcb[cur.id].stat.Running? {
          if tcb[cur.id].prio < best {
            to := cur.id;
          } else if tcb[cur.id].prio == best && !tcb[cur.id].yielded {
            to := cur.id;
          } else {
            requeue := true;
          }
          tcb := tcb[cur.id := tcb[cur.id].(yielded := false)];
        }
        if to != cur.id {
          SwitchThread(to, requeue);
        } else {
          SettleThread(cur.id);
        }
      }
    }

    /** rt_system_scheduler_start */
    method StartScheduler()
      requires Rep() && Formed(Contents()) && AnyReady(Contents())
      requires ready[Highest(ready)] != [] && ready[Highest(ready)][0] in tcb
      modifies this`ready, this`group, this`tcb, this`cur, table
      ensures Rep() && Contents() == Start(old(Contents()))
    {
      GroupMeansReady(ready, group, table[..]);
      var to, best := HighestPriorityThread();
      cur := Thread(to);
      RemoveThread(to);
      tcb := tcb[to := tcb[to].(stat := Running, yielded := false)];
    }

    /** rt_enter_critical: one section deeper, whatever the depth; a step of the scheduler as long as
        the counter holds it. */
    method EnterCritical()
      requires Rep() && -0x8000 <= lock <= 0x7fff
      modifies this`lock
      ensures Rep() && Contents() == old(Contents()).(lock := EnterTimes(old(lock), 1))
      ensures Allowed(old(Contents()), DoEnter) ==> Contents() == Step(old(Contents()), DoEnter) && Inv(Contents())
    {
      ghost var before := Contents();
      if Allowed(before, DoEnter) {
        LockKeeps(before, before.lock + 1);
      }
      assert EnterTimes(lock, 1) == Int16(EnterTimes(lock, 0) + 1);
      lock := Int16(lock + 1);
    }

    /** rt_exit_critical */
    method ExitCritical()
      requires Rep() && -0x8000 <= lock <= 0x7fff && (cur.Thread? ==> Schedulable(Contents()))
      modifies this
      modifies table
      ensures Rep()
      ensures var m := Leave(old(Contents())); if m.lock == 0 && m.cur.Thread? then Contents() == SchedulerSpec.Schedule(m) else Contents() == m
    {
      lock := Int16(lock - 1);
      if lock <= 0 {
        lock := 0;
        if cur.Thread? {
          Schedule();
        }
      }
    }

    /** rt_tick_increase without the tick counter and the timer check. */
    method TickIncrease()
      requires Rep() && Schedulable(Contents())
      modifies this
      modifies table
      ensures Rep()
      ensures var m := CountTick(old(Contents())); Contents() == if SliceEnds(old(Contents())) then SchedulerSpec.Schedule(m) else m
    {
      var t := cur.id;
      tcb := tcb[t := tcb[t].(remaining := Wrap(tcb[t].remaining - 1))];
      if tcb[t].remaining == 0 {
        tcb := tcb[t := tcb[t].(remaining := tcb[t].initTick, yielded := true)];
        assert Contents() == CountTick(old(Contents()));
        Schedule();
      }
    }
  }

  lemma WordSize()
    ensures Pow2(32) == 0x1_0000_0000
  {
    assert Pow2(8) == 256;
    assert Pow2(16) == 0x1_0000;
    assert Pow2(24) == 0x100_0000;
  }

  lemma EmptyIndex(ready: seq<seq<int>>, table: seq<nat>)
    requires 0 < |ready| <= 256 && |table| == 32
    requires forall p :: 0 <= p < |ready| ==> ready[p] == []
    requires forall n :: 0 <= n < 32 ==> table[n] == 0
    ensures IndexOk(ready, 0, table)
  {
    PowPositive(32);
    PowPositive(8);
    forall i: nat | i < 32 ensures !Bit(0, i) {
      ZeroHasNoBits(i);
    }
    forall n: nat | n < 32 ensures ByteOk(ready, 0, table[n], n) {
      forall i: nat | i < 8 ensures Bit(0, i) <==> NonEmpty(ready, 8 * n + i) {
      }
    }
  }

  lemma KeepIndex(ready: seq<seq<int>>, group: nat, table: seq<nat>, p: nat, q: seq<int>)
    requires IndexOk(ready, group, table) && p < |ready| && q != [] && ready[p] != []
    ensures IndexOk(ready[p := q], group, table)
  {
    if |ready| > 32 {
      KeepTwoLevel(ready, group, table, p, q);
    } else {
      KeepOneLevel(ready, group, p, q);
    }
  }
}
