/** Ready threads of one priority are served in turn. */
module SchedulerFairness {
  import opened RtDef
  import opened Sequences
  import opened SchedulerSpec
  import opened SchedulerLaws

  lemma {:induction false} IndexAppend(q: seq<int>, x: int, t: int)
    requires t in q
    ensures IndexOf(q + [x], t) == IndexOf(q, t)
  {
    if q[0] != t {
      assert (q + [x])[1..] == q[1..] + [x];
      IndexAppend(q[1..], x, t);
    }
  }

  lemma {:induction false} IndexUnlinked(q: seq<int>, x: int, t: int)
    requires x != t && t in q
    ensures IndexOf(Unlinked(q, x), t) <= IndexOf(q, t) && t in Unlinked(q, x)
  {
    if q[0] != t && q[0] != x {
      IndexUnlinked(q[1..], x, t);
      assert Unlinked(q, x)[1..] == Unlinked(q[1..], x);
    }
  }

  lemma {:induction false} IndexInside(q: seq<int>, t: int)
    requires t in q
    ensures IndexOf(q, t) < |q| && q[IndexOf(q, t)] == t
  {
    if q[0] != t {
      IndexInside(q[1..], t);
    }
  }

  predicate ReadyAt(s: State, t: int, p: nat) {
    t in s.tcb && s.tcb[t].stat.Ready? && s.tcb[t].prio == p && p < |s.ready|
  }

  /** One when the step hands the processor to a thread of priority p. */
  function Pick(s: State, r: State, p: nat): nat {
    if r.cur != s.cur && r.cur.Thread? && r.cur.id in r.tcb && r.tcb[r.cur.id].prio == p then 1 else 0
  }

  /** rt_schedule moves a thread that stays ready forward by exactly one when it picks from that
      thread's level, and not at all otherwise. */
  lemma ScheduleFair(s: State, t: int, p: nat)
    requires Inv(s) && Schedulable(s) && ReadyAt(s, t, p) && ReadyAt(Schedule(s), t, p)
    ensures IndexOf(Schedule(s).ready[p], t) + Pick(s, Schedule(s), p) == IndexOf(s.ready[p], t)
  {
    assert Listed(s, t);
    if Preempts(s) {
      ScheduleWhenPreempting(s);
      HeadExists(s);
      RotatedIndex(s, t, p);
    } else {
      ScheduleWhenKeeping(s);
    }
  }

  lemma RotatedIndex(s: State, t: int, p: nat)
    requires Inv(s) && Schedulable(s) && AnyReady(s) && ReadyAt(s, t, p)
    requires t != s.ready[Highest(s.ready)][0]
    ensures |Rotated(s)| == |s.ready|
    ensures IndexOf(Rotated(s)[p], t) == IndexOf(s.ready[p], t) - if p == Highest(s.ready) then 1 else 0
  {
    assert Listed(s, t);
    var best := Highest(s.ready);
    var q := if p == best then s.ready[p][1..] else s.ready[p];
    assert t in q;
    IndexAppend(q, s.cur.id, t);
  }

  /** A thread that stays READY at one priority, and whose own priority is not set again, never
      moves back, and every pick from its level moves it forward. */
  lemma StepFair(s: State, op: Op, t: int, p: nat)
    requires Allowed(s, op) && ReadyAt(s, t, p) && ReadyAt(Step(s, op), t, p)
    requires op.DoPriority? ==> op.thread != t
    ensures IndexOf(Step(s, op).ready[p], t) + Pick(s, Step(s, op), p) <= IndexOf(s.ready[p], t)
  {
    HeadExists(s);
    assert Listed(s, t);
    match op
    case DoSchedule => ScheduleFair(s, t, p);
    case DoTick =>
      CountTickKeeps(s);
      HeadExists(CountTick(s));
      if SliceEnds(s) {
        ScheduleFair(CountTick(s), t, p);
      }
    case DoBlock => BlockKeeps(s);
    case DoResume(u) => IndexAppend(s.ready[p], u, t);
    case DoPriority(u, n) => PriorityFair(s, u, n, t, p);
    case DoEnter =>
    case DoExit =>
      LeaveKeeps(s);
      HeadExists(Leave(s));
      if Leave(s).lock == 0 {
        ScheduleFair(Leave(s), t, p);
      }
  }

  lemma PriorityFair(s: State, u: int, n: nat, t: int, p: nat)
    requires Inv(s) && u in s.tcb && n < |s.ready| && ReadyAt(s, t, p) && u != t
    ensures IndexOf(ChangePriority(s, u, n).ready[p], t) <= IndexOf(s.ready[p], t)
  {
    assert Listed(s, t);
    IndexUnlinked(s.ready[p], u, t);
    IndexAppend(s.ready[p], u, t);
    IndexAppend(Unlinked(s.ready[p], u), u, t);
  }

  /** t waits READY at level p through the whole run and nobody sets its priority. */
  ghost predicate Waits(s: State, ops: seq<Op>, t: int, p: nat)
    requires AllowedRun(s, ops)
    decreases |ops|
  {
    ReadyAt(s, t, p) && (ops != [] ==>
      !(ops[0].DoPriority? && ops[0].thread == t) && Waits(Step(s, ops[0]), ops[1..], t, p))
  }

  ghost function Picks(s: State, ops: seq<Op>, p: nat): nat
    requires AllowedRun(s, ops)
    decreases |ops|
  {
    if ops == [] then 0 else Pick(s, Step(s, ops[0]), p) + Picks(Step(s, ops[0]), ops[1..], p)
  }

  /** Over any run through which t stays ready, its place never goes back and the number of times
      its level was picked from is at most the place it started at: bounded bypass. */
  lemma {:induction false} RunIsFair(s: State, ops: seq<Op>, t: int, p: nat)
    requires AllowedRun(s, ops) && Waits(s, ops, t, p)
    ensures ReadyAt(Run(s, ops), t, p)
    ensures IndexOf(Run(s, ops).ready[p], t) + Picks(s, ops, p) <= IndexOf(s.ready[p], t)
    decreases |ops|
  {
    if ops != [] {
      StepFair(s, ops[0], t, p);
      RunIsFair(Step(s, ops[0]), ops[1..], t, p);
    }
  }

  /** remaining_tick lies in 1..init_tick for every thread. */
  predicate Slices(s: State) {
    forall t :: t in s.tcb ==> 1 <= s.tcb[t].remaining <= s.tcb[t].initTick
  }

  /** Every step keeps remaining_tick within 1..init_tick. */
  lemma StepKeepsSlices(s: State, op: Op)
    requires Allowed(s, op) && Slices(s)
    ensures Slices(Step(s, op))
  {
    HeadExists(s);
    if op.DoTick? {
      CountTickKeeps(s);
      HeadExists(CountTick(s));
      assert Slices(CountTick(s));
      ScheduleKeepsSlices(CountTick(s));
    } else if op.DoExit? {
      LeaveKeeps(s);
      HeadExists(Leave(s));
      ScheduleKeepsSlices(Leave(s));
    } else if op.DoSchedule? {
      ScheduleKeepsSlices(s);
    }
  }

  lemma ScheduleKeepsSlices(s: State)
    requires Schedulable(s) && Slices(s)
    ensures Slices(Schedule(s))
  {
  }

  lemma ScheduleKeepsCounters(s: State, t: int)
    requires Schedulable(s) && t in s.tcb
    ensures t in Schedule(s).tcb && Schedule(s).tcb[t].remaining == s.tcb[t].remaining && Schedule(s).tcb[t].initTick == s.tcb[t].initTick
  {
  }

  /** The ticks until the counter reads zero: it is counted down first and compared then, so that a
      counter of zero goes all the way round. */
  function Left(b: Tcb): nat {
    if b.remaining == 0 then WORD_RANGE else b.remaining
  }

  /** The current thread followed by the others of its level. */
  function Ring(s: State): seq<int>
    requires s.cur.Thread? && s.cur.id in s.tcb && s.tcb[s.cur.id].prio < |s.ready|
  {
    [s.cur.id] + s.ready[s.tcb[s.cur.id].prio]
  }

  /** Unlocked, and the current thread RUNNING with nothing better ready. */
  ghost predicate Sharing(s: State) {
    Inv(s) && s.lock == 0 && Optimal(s)
  }

  /** The other threads' blocks and the current thread's reload are all that a tick touches. */
  lemma TickWithinSlice(s: State)
    requires Sharing(s) && Left(s.tcb[s.cur.id]) > 1
    ensures Sharing(Step(s, DoTick)) && Step(s, DoTick).cur == s.cur
    ensures Ring(Step(s, DoTick)) == Ring(s)
    ensures var b := Step(s, DoTick).tcb[s.cur.id]; Left(b) == Left(s.tcb[s.cur.id]) - 1 && b.initTick == s.tcb[s.cur.id].initTick
  {
    HeadExists(s);
    CountTickKeeps(s);
  }

  function Turned(q: seq<int>): seq<int>
    requires q != []
  {
    q[1..] + [q[0]]
  }

  /** The tick that ends a slice turns the ring by one place and reloads the counter. */
  lemma TickEndsSlice(s: State)
    requires Sharing(s) && Left(s.tcb[s.cur.id]) == 1
    ensures Sharing(Step(s, DoTick))
    ensures Ring(Step(s, DoTick)) == Turned(Ring(s))
    ensures s.cur.id in Step(s, DoTick).tcb && Step(s, DoTick).tcb[s.cur.id].remaining == s.tcb[s.cur.id].initTick
    ensures Step(s, DoTick).tcb[s.cur.id].initTick == s.tcb[s.cur.id].initTick
  {
    HeadExists(s);
    CountTickKeeps(s);
    var m := CountTick(s);
    HeadExists(m);
    ScheduleKeepsCounters(m, s.cur.id);
    ScheduleIsOptimal(m);
    LevelIsBest(m);
    if Preempts(m) {
      ScheduleWhenPreempting(m);
      TurnedLists(m);
    } else {
      ScheduleWhenKeeping(m);
    }
  }

  lemma LevelIsBest(s: State)
    requires Inv(s) && Optimal(s)
    ensures var p := s.tcb[s.cur.id].prio; p <= Highest(s.ready) && (s.ready[p] != [] ==> Highest(s.ready) == p)
  {
    var p := s.tcb[s.cur.id].prio;
    HighestMeaning(s.ready, p);
    if AnyReady(s) {
      HeadExists(s);
      var head := s.ready[Highest(s.ready)][0];
      assert head in s.tcb && s.tcb[head].stat.Ready?;
    }
  }

  lemma TurnedLists(s: State)
    requires Inv(s) && Schedulable(s) && Preempts(s) && s.tcb[s.cur.id].stat.Running?
    requires s.tcb[s.cur.id].prio == Highest(s.ready)
    ensures |Rotated(s)| == |s.ready|
    ensures var best := Highest(s.ready); [s.ready[best][0]] + Rotated(s)[best] == Turned(Ring(s))
  {
    HeadExists(s);
    var q := s.ready[Highest(s.ready)];
    assert q == [q[0]] + q[1..];
  }

  lemma TickShares(s: State)
    requires Sharing(s)
    ensures Sharing(Step(s, DoTick))
  {
    if Left(s.tcb[s.cur.id]) == 1 {
      TickEndsSlice(s);
    } else {
      TickWithinSlice(s);
    }
  }

  ghost function Ticks(s: State, k: nat): State
    requires Sharing(s)
    decreases k
  {
    if k == 0 then s
    else
      TickShares(s);
      Ticks(Step(s, DoTick), k - 1)
  }

  /** The current thread keeps the processor for exactly the ticks that are left to it: as many as
      its counter says, or 2^32 if the counter is zero. Then the ring turns, and the counter is the
      thread's initial one. */
  lemma {:induction false} SliceRuns(s: State, k: nat)
    requires Sharing(s) && k <= Left(s.tcb[s.cur.id])
    ensures Sharing(Ticks(s, k)) && s.cur.id in Ticks(s, k).tcb
    ensures k < Left(s.tcb[s.cur.id]) ==> Ticks(s, k).cur == s.cur && Ring(Ticks(s, k)) == Ring(s)
    ensures k == Left(s.tcb[s.cur.id]) ==> Ring(Ticks(s, k)) == Turned(Ring(s))
    ensures k == Left(s.tcb[s.cur.id]) ==> Ticks(s, k).tcb[s.cur.id].remaining == s.tcb[s.cur.id].initTick
    ensures Ticks(s, k).tcb[s.cur.id].initTick == s.tcb[s.cur.id].initTick
    decreases k
  {
    if k > 0 {
      if Left(s.tcb[s.cur.id]) == 1 {
        TickEndsSlice(s);
      } else {
        TickWithinSlice(s);
        SliceRuns(Step(s, DoTick), k - 1);
      }
    }
  }

  /** Once its slice is over, a thread's next slice is at most init_tick long exactly when init_tick
      is not zero; a thread created with no ticks has slices of 2^32 ticks. */
  lemma NextSlice(s: State)
    requires Sharing(s)
    ensures var k := Left(s.tcb[s.cur.id]); Sharing(Ticks(s, k)) && s.cur.id in Ticks(s, k).tcb
    ensures var b := Ticks(s, Left(s.tcb[s.cur.id])).tcb[s.cur.id]; Left(b) <= b.initTick <==> s.tcb[s.cur.id].initTick >= 1
    ensures s.tcb[s.cur.id].initTick == 0 ==> Left(Ticks(s, Left(s.tcb[s.cur.id])).tcb[s.cur.id]) == WORD_RANGE
  {
    SliceRuns(s, Left(s.tcb[s.cur.id]));
  }

  /** After k whole slices. */
  ghost function Turns(s: State, k: nat): (r: State)
    requires Sharing(s)
    ensures Sharing(r)
    decreases k
  {
    if k == 0 then s
    else
      var r := Turns(s, k - 1);
      SliceRuns(r, Left(r.tcb[r.cur.id]));
      Ticks(r, Left(r.tcb[r.cur.id]))
  }

  /** Round robin: when nothing but ticks happens, the k-th slice goes to the k-th member of the
      ring, so that each of its n members, which are distinct, runs for exactly one slice out of n, and after
      n slices the order is what it was. */
  lemma {:induction false} RoundRobin(s: State, k: nat)
    requires Sharing(s) && k <= |Ring(s)|
    ensures Ring(Turns(s, k)) == Ring(s)[k..] + Ring(s)[..k]
    ensures k < |Ring(s)| ==> Turns(s, k).cur == Thread(Ring(s)[k])
    decreases k
  {
    if k == 0 {
      assert Ring(s)[0..] + Ring(s)[..0] == Ring(s);
    } else {
      RoundRobin(s, k - 1);
      OneTurn(s, k);
      TurnRotation(Ring(s), k);
    }
    RingHead(Turns(s, k), Ring(s), k);
  }

  lemma OneTurn(s: State, k: nat)
    requires Sharing(s) && k > 0
    ensures Ring(Turns(s, k)) == Turned(Ring(Turns(s, k - 1)))
  {
    var r := Turns(s, k - 1);
    SliceRuns(r, Left(r.tcb[r.cur.id]));
  }

  lemma RingHead(r: State, q: seq<int>, k: nat)
    requires Sharing(r) && k <= |q| && Ring(r) == q[k..] + q[..k]
    ensures k < |q| ==> r.cur == Thread(q[k])
  {
    assert Ring(r)[0] == r.cur.id;
  }

  lemma TurnRotation(q: seq<int>, k: nat)
    requires 0 < k <= |q|
    ensures Turned(q[k - 1..] + q[..k - 1]) == q[k..] + q[..k]
  {
    assert q[k - 1..] == [q[k - 1]] + q[k..];
    assert q[..k] == q[..k - 1] + [q[k - 1]];
  }

  /** No thread is twice in the ring. */
  lemma RingDistinct(s: State)
    requires Inv(s) && s.cur.Thread?
    ensures Distinct(Ring(s))
  {
    var p := s.tcb[s.cur.id].prio;
    assert ListOk(s, p);
    Unlisted(s, s.cur.id, p);
    var q := s.ready[p];
    forall i, j | 0 <= i < j < |Ring(s)| ensures Ring(s)[i] != Ring(s)[j] {
      assert q[j - 1] in q;
    }
  }
}
