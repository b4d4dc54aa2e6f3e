/** What each call on a mutex does and answers, and how `hold` counts takes and releases. */
module MutexEffects {
  import opened Sequences
  import opened MutexSpec

  /** What the call returns; a thread whose timer fires returns with a timeout. */
  function Answer(s: State, op: Op): Outcome
    requires s.Inv() && Runs(s, op)
  {
    match op
    case DoTake(m, t, time) => Take(s.mutexes[m], s.prio, t, time).2
    case DoRelease(m, t) => Release(s.mutexes[m], s.prio, t).2
    case DoExpire(_, _) => Outcome.Timeout
  }

  /** The system with another mutex m, and nothing else changed. */
  function With(s: State, m: int, mu: Mutex): State {
    s.(mutexes := s.mutexes[m := mu])
  }

  lemma WithSame(s: State, m: int)
    requires m in s.mutexes
    ensures With(s, m, s.mutexes[m]) == s
  {
    assert s.mutexes[m := s.mutexes[m]] == s.mutexes;
  }

  // ----- one call -----

  /** A take by the owner raises `hold` by one, up to 255, and changes nothing else. */
  lemma OwnerTakes(s: State, m: int, t: int, time: int)
    requires s.Inv() && Runs(s, DoTake(m, t, time)) && s.mutexes[m].owner == t
    ensures var op, mu := DoTake(m, t, time), s.mutexes[m];
      if mu.hold < 0xff then Answer(s, op) == Ok && Step(s, op) == With(s, m, mu.(hold := mu.hold + 1))
      else Answer(s, op) == Full && Step(s, op) == s
  {
    WithSame(s, m);
  }

  /** A take of a free mutex records the caller, one hold and the caller's priority. */
  lemma FreeTaken(s: State, m: int, t: int, time: int)
    requires s.Inv() && Runs(s, DoTake(m, t, time)) && s.mutexes[m].owner == NONE
    ensures var op := DoTake(m, t, time);
      Answer(s, op) == Ok && Step(s, op) == With(s, m, Mutex(0, t, 1, s.prio[t], []))
  {
    assert MutexOk(s.mutexes[m], s.prio);
  }

  /** A take of somebody else's mutex: without waiting time it changes nothing. Otherwise the caller
      joins the waiters behind all who are at least as urgent and in front of the next one, and the
      owner is lifted to the caller's priority unless it has as good a one. */
  lemma OtherTakes(s: State, m: int, t: int, time: int) returns (k: nat)
    requires s.Inv() && Runs(s, DoTake(m, t, time)) && s.mutexes[m].owner != NONE && s.mutexes[m].owner != t
    ensures s.mutexes[m].owner in s.prio
    ensures time == 0 ==> Answer(s, DoTake(m, t, time)) == Outcome.Timeout && Step(s, DoTake(m, t, time)) == s
    ensures time != 0 ==> Answer(s, DoTake(m, t, time)) == Blocked
    ensures time != 0 ==> Queued(s, Step(s, DoTake(m, t, time)), m, t, k)
  {
    var mu := s.mutexes[m];
    assert MutexOk(mu, s.prio);
    if time == 0 {
      k := 0;
      WithSame(s, m);
    } else {
      var s' := Step(s, DoTake(m, t, time));
      k := Position(mu.waiters, s'.prio, s.prio[t]);
      assert s'.prio == s.prio[mu.owner := if s.prio[t] < s.prio[mu.owner] then s.prio[t] else s.prio[mu.owner]];
      forall i | 0 <= i < k ensures s'.prio[mu.waiters[i]] <= s.prio[t] {
        assert mu.waiters[i] in mu.waiters;
      }
    }
  }

  /** Thread t has joined the waiters of m at place k, and m's owner has been lifted. */
  ghost predicate Queued(s: State, s': State, m: int, t: int, k: nat) {
    && m in s.mutexes && t in s.prio && s.mutexes[m].owner in s.prio
    && var mu, p := s.mutexes[m], s.prio[t];
      && k <= |mu.waiters|
      && s'.mutexes == s.mutexes[m := mu.(waiters := mu.waiters[..k] + [t] + mu.waiters[k..])]
      && s'.prio == s.prio[mu.owner := if p < s.prio[mu.owner] then p else s.prio[mu.owner]]
      && (forall i :: 0 <= i < k ==> mu.waiters[i] in s'.prio && s'.prio[mu.waiters[i]] <= p)
      && (k < |mu.waiters| ==> mu.waiters[k] in s'.prio && p < s'.prio[mu.waiters[k]])
  }

  /** A release by the owner of a deeper hold lowers it by one and changes nothing else. */
  lemma OwnerReleases(s: State, m: int, t: int)
    requires s.Inv() && Runs(s, DoRelease(m, t)) && s.mutexes[m].owner == t && s.mutexes[m].hold > 1
    ensures var op, mu := DoRelease(m, t), s.mutexes[m];
      Answer(s, op) == Ok && Step(s, op) == With(s, m, mu.(hold := mu.hold - 1))
  {
  }

  /** The last release gives the caller back the priority that the mutex remembers. The mutex becomes
      free, or goes to the first waiter with one hold and that thread's priority. */
  lemma LastReleases(s: State, m: int, t: int)
    requires s.Inv() && Runs(s, DoRelease(m, t)) && s.mutexes[m].owner == t && s.mutexes[m].hold == 1
    ensures var op, ws := DoRelease(m, t), s.mutexes[m].waiters;
      && Answer(s, op) == Ok && Step(s, op).prio == s.prio[t := s.mutexes[m].original]
      && (ws == [] ==> Step(s, op).mutexes == s.mutexes[m := Mutex(1, NONE, 0, 0xff, [])])
      && (ws != [] ==> ws[0] != t && ws[0] in s.prio)
      && (ws != [] ==> Step(s, op).mutexes == s.mutexes[m := Mutex(0, ws[0], 1, s.prio[ws[0]], ws[1..])])
  {
    var mu := s.mutexes[m];
    assert MutexOk(mu, s.prio);
    if mu.waiters != [] {
      assert mu.waiters[0] in mu.waiters;
    }
  }

  lemma OtherReleases(s: State, m: int, t: int)
    requires s.Inv() && Runs(s, DoRelease(m, t)) && s.mutexes[m].owner != t
    ensures Answer(s, DoRelease(m, t)) == Error && Step(s, DoRelease(m, t)) == s
  {
    WithSame(s, m);
  }

  /** A timeout takes the thread out of the list it waits in, and changes nothing else. */
  lemma Expires(s: State, m: int, t: int) returns (k: nat)
    requires s.Inv() && Runs(s, DoExpire(m, t))
    ensures var ws := s.mutexes[m].waiters;
      && k < |ws| && ws[k] == t
      && Step(s, DoExpire(m, t)) == With(s, m, s.mutexes[m].(waiters := ws[..k] + ws[k + 1..]))
  {
    assert MutexOk(s.mutexes[m], s.prio);
    k := UnlinkedOne(s.mutexes[m].waiters, t);
  }

  // ----- holds over runs -----

  /** How often thread t holds mutex m. */
  function Depth(s: State, m: int, t: int): int {
    if m in s.mutexes && s.mutexes[m].owner == t then s.mutexes[m].hold else 0
  }

  /** The step lets t have m once more: a take by t that answers Ok, or a last release by another
      thread that hands m over to t. */
  predicate Grants(s: State, op: Op, m: int, t: int)
    requires s.Inv() && Runs(s, op)
  {
    op.m == m && match op
    case DoTake(_, u, _) => u == t && Answer(s, op) == Ok
    case DoRelease(_, u) =>
      s.mutexes[m].owner == u && s.mutexes[m].hold == 1 && s.mutexes[m].waiters != [] && s.mutexes[m].waiters[0] == t
    case DoExpire(_, _) => false
  }

  /** The step is a release by t that answers Ok. */
  predicate Returns(s: State, op: Op, m: int, t: int)
    requires s.Inv() && Runs(s, op)
  {
    op == DoRelease(m, t) && Answer(s, op) == Ok
  }

  lemma StepDepth(s: State, op: Op, m: int, t: int)
    requires s.Inv() && Runs(s, op) && m in s.mutexes && t in s.prio
    ensures Depth(Step(s, op), m, t) ==
      Depth(s, m, t) + (if Grants(s, op, m, t) then 1 else 0) - (if Returns(s, op, m, t) then 1 else 0)
  {
    if op.m == m {
      assert MutexOk(s.mutexes[m], s.prio);
      match op
      case DoTake(_, u, time) => TakeDepth(s, m, u, time, t);
      case DoRelease(_, u) => ReleaseDepth(s, m, u, t);
      case DoExpire(_, u) =>
    }
  }

  lemma TakeDepth(s: State, m: int, u: int, time: int, t: int)
    requires s.Inv() && Runs(s, DoTake(m, u, time)) && t in s.prio
    ensures Depth(Step(s, DoTake(m, u, time)), m, t) ==
      Depth(s, m, t) + if u == t && Answer(s, DoTake(m, u, time)) == Ok then 1 else 0
  {
    assert MutexOk(s.mutexes[m], s.prio);
    if s.mutexes[m].owner == u {
      OwnerTakes(s, m, u, time);
    } else if s.mutexes[m].owner == NONE {
      FreeTaken(s, m, u, time);
    } else {
      var k := OtherTakes(s, m, u, time);
    }
  }

  lemma ReleaseDepth(s: State, m: int, u: int, t: int)
    requires s.Inv() && Runs(s, DoRelease(m, u)) && t in s.prio
    ensures Depth(Step(s, DoRelease(m, u)), m, t) ==
      Depth(s, m, t) + (if Grants(s, DoRelease(m, u), m, t) then 1 else 0) - (if Returns(s, DoRelease(m, u), m, t) then 1 else 0)
  {
    assert MutexOk(s.mutexes[m], s.prio);
    if s.mutexes[m].owner != u {
      OtherReleases(s, m, u);
    } else if s.mutexes[m].hold > 1 {
      OwnerReleases(s, m, u);
    } else {
      LastReleases(s, m, u);
    }
  }

  function GrantCount(s: State, ops: seq<Op>, m: int, t: int): nat
    requires s.Inv() && NestedRun(s, ops)
    decreases |ops|
  {
    if ops == [] then 0
    else
      StepKeeps(s, ops[0]);
      (if Grants(s, ops[0], m, t) then 1 else 0) + GrantCount(Step(s, ops[0]), ops[1..], m, t)
  }

  function ReturnCount(s: State, ops: seq<Op>, m: int, t: int): nat
    requires s.Inv() && NestedRun(s, ops)
    decreases |ops|
  {
    if ops == [] then 0
    else
      StepKeeps(s, ops[0]);
      (if Returns(s, ops[0], m, t) then 1 else 0) + ReturnCount(Step(s, ops[0]), ops[1..], m, t)
  }

  lemma StepThreads(s: State, op: Op)
    requires s.Inv() && Runs(s, op)
    ensures Step(s, op).prio.Keys == s.prio.Keys && Step(s, op).mutexes.Keys == s.mutexes.Keys
  {
    assert MutexOk(s.mutexes[op.m], s.prio);
  }

  /** Over every run of takes, releases and timeouts of all threads, with any nesting: what t holds of
      m is what it held, plus its grants, less its releases. */
  lemma {:induction false} RunDepth(s: State, ops: seq<Op>, m: int, t: int)
    requires s.Inv() && NestedRun(s, ops) && m in s.mutexes && t in s.prio
    ensures Depth(NestedEnd(s, ops), m, t) == Depth(s, m, t) + GrantCount(s, ops, m, t) - ReturnCount(s, ops, m, t)
    decreases |ops|
  {
    if ops != [] {
      StepKeeps(s, ops[0]);
      StepThreads(s, ops[0]);
      StepDepth(s, ops[0], m, t);
      RunDepth(Step(s, ops[0]), ops[1..], m, t);
    }
  }

  lemma {:induction false} RunThreads(s: State, ops: seq<Op>)
    requires s.Inv() && NestedRun(s, ops)
    ensures NestedEnd(s, ops).prio.Keys == s.prio.Keys && NestedEnd(s, ops).mutexes.Keys == s.mutexes.Keys
    decreases |ops|
  {
    if ops != [] {
      StepKeeps(s, ops[0]);
      StepThreads(s, ops[0]);
      RunThreads(Step(s, ops[0]), ops[1..]);
    }
  }

  /** From a free mutex, a thread owns it exactly while it has been granted it more often than it has
      released it: k takes need k releases. */
  lemma OwnsWhileUnreturned(s: State, ops: seq<Op>, m: int, t: int)
    requires s.Inv() && NestedRun(s, ops) && m in s.mutexes && s.mutexes[m].owner == NONE && t in s.prio
    ensures ReturnCount(s, ops, m, t) <= GrantCount(s, ops, m, t)
    ensures NestedEnd(s, ops).Owns(t, m) <==> ReturnCount(s, ops, m, t) < GrantCount(s, ops, m, t)
  {
    RunDepth(s, ops, m, t);
    RunThreads(s, ops);
    assert MutexOk(NestedEnd(s, ops).mutexes[m], NestedEnd(s, ops).prio);
  }

  /** Mutual exclusion: from a free mutex, no two threads have been granted it and not released it. */
  lemma Exclusion(s: State, ops: seq<Op>, m: int, t: int, u: int)
    requires s.Inv() && NestedRun(s, ops) && m in s.mutexes && s.mutexes[m].owner == NONE && t in s.prio && u in s.prio
    requires ReturnCount(s, ops, m, t) < GrantCount(s, ops, m, t) && ReturnCount(s, ops, m, u) < GrantCount(s, ops, m, u)
    ensures t == u
  {
    OwnsWhileUnreturned(s, ops, m, t);
    OwnsWhileUnreturned(s, ops, m, u);
  }
}
