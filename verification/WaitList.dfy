/** The lists of suspended threads of ipc.c: `_ipc_list_suspend`, `_ipc_list_resume(_all)`. */
module WaitList {
  /** RT_IPC_FLAG_FIFO, RT_IPC_FLAG_PRIO */
  datatype Flag = Fifo | Prio

  /** A suspended thread with its current priority (0 is the best), which may change while the
      thread waits. `ticket` numbers the suspensions in the order they happen; the source does not
      store it. */
  datatype Waiter = Waiter(thread: int, prio: int, ticket: int)

  /** Index of the first waiter with a worse priority; |ws| if there is none. */
  function Position(ws: seq<Waiter>, prio: int): (k: nat)
    ensures k <= |ws| && (k < |ws| ==> prio < ws[k].prio)
    ensures forall i :: 0 <= i < k ==> ws[i].prio <= prio
  {
    if ws == [] || prio < ws[0].prio then 0 else
      var k := Position(ws[1..], prio);
      assert forall i :: 0 < i < k + 1 ==> ws[i] == ws[1..][i - 1];
      k + 1
  }

  function Enqueue(ws: seq<Waiter>, w: Waiter, flag: Flag): seq<Waiter> {
    var k := if flag.Fifo? then |ws| else Position(ws, w.prio);
    ws[..k] + [w] + ws[k..]
  }

  /** Place k suits a newcomer: the end under FIFO; under PRIO all before it are at least as urgent,
      and the next one is not. */
  predicate Place(ws: seq<Waiter>, prio: int, flag: Flag, k: nat) {
    && k <= |ws|
    && (flag.Fifo? ==> k == |ws|)
    && (flag.Prio? ==> (forall i :: 0 <= i < k ==> ws[i].prio <= prio) && (k < |ws| ==> prio < ws[k].prio))
  }

  /** Linking in serving order finds the place. */
  lemma PlaceFound(ws: seq<Waiter>, w: Waiter, flag: Flag) returns (k: nat)
    ensures Place(ws, w.prio, flag, k) && Enqueue(ws, w, flag) == ws[..k] + [w] + ws[k..]
  {
    k := if flag.Fifo? then |ws| else Position(ws, w.prio);
  }

  /** r is ws without the entry at place k, which is the one of thread t. */
  predicate TakenOut(ws: seq<Waiter>, r: seq<Waiter>, t: int, k: nat) {
    k < |ws| && ws[k].thread == t && r == ws[..k] + ws[k + 1..]
  }

  /** The order in which waiters are served: by priority under PRIO, and by arrival among equals
      (under FIFO, by arrival alone). */
  predicate Before(a: Waiter, b: Waiter, flag: Flag) {
    if flag.Prio? && a.prio != b.prio then a.prio < b.prio else a.ticket < b.ticket
  }

  ghost predicate Ordered(ws: seq<Waiter>, flag: Flag) {
    forall i, j :: 0 <= i < j < |ws| ==> Before(ws[i], ws[j], flag)
  }

  ghost predicate OneEntryEach(ws: seq<Waiter>) {
    forall i, j :: 0 <= i < j < |ws| ==> ws[i].thread != ws[j].thread
  }

  predicate Waits(ws: seq<Waiter>, t: int) {
    exists i :: 0 <= i < |ws| && ws[i].thread == t
  }

  /** The list without the entry of thread t (a timeout unlinks it). */
  function Without(ws: seq<Waiter>, t: int): seq<Waiter> {
    if ws == [] then [] else if ws[0].thread == t then ws[1..] else [ws[0]] + Without(ws[1..], t)
  }

  /** Suspending a thread is a stable insertion: a newcomer goes behind everybody who is at least
      as urgent, so the list stays in serving order. */
  lemma EnqueueKeepsOrder(ws: seq<Waiter>, w: Waiter, flag: Flag)
    requires Ordered(ws, flag) && forall a :: a in ws ==> a.ticket < w.ticket
    ensures Ordered(Enqueue(ws, w, flag), flag)
  {
    var k := if flag.Fifo? then |ws| else Position(ws, w.prio);
    var r := Enqueue(ws, w, flag);
    forall i, j | 0 <= i < j < |r| ensures Before(r[i], r[j], flag) {
      if j < k {
        assert r[i] == ws[i] && r[j] == ws[j];
      } else if j == k {
        assert ws[i] in ws;
      } else if i == k {
        assert r[j] == ws[j - 1] && ws[k] in ws && ws[j - 1] in ws;
        assert k < j - 1 ==> Before(ws[k], ws[j - 1], flag);
      } else {
        assert r[j] == ws[j - 1] && r[i] == if i < k then ws[i] else ws[i - 1];
      }
    }
  }

  lemma EnqueueMembers(ws: seq<Waiter>, w: Waiter, flag: Flag)
    ensures forall a :: a in Enqueue(ws, w, flag) <==> a in ws || a == w
    ensures |Enqueue(ws, w, flag)| == |ws| + 1
    ensures forall t :: Waits(Enqueue(ws, w, flag), t) <==> Waits(ws, t) || t == w.thread
    ensures OneEntryEach(ws) && !Waits(ws, w.thread) ==> OneEntryEach(Enqueue(ws, w, flag))
  {
    var k := if flag.Fifo? then |ws| else Position(ws, w.prio);
    InsertMembers(ws, w, k);
    InsertWaits(ws, w, k);
    if OneEntryEach(ws) && !Waits(ws, w.thread) {
      InsertOneEntry(ws, w, k);
    }
  }

  lemma InsertMembers(ws: seq<Waiter>, w: Waiter, k: nat)
    requires k <= |ws|
    ensures forall a :: a in ws[..k] + [w] + ws[k..] <==> a in ws || a == w
  {
    assert ws == ws[..k] + ws[k..];
  }

  lemma InsertWaits(ws: seq<Waiter>, w: Waiter, k: nat)
    requires k <= |ws|
    ensures forall t :: Waits(ws[..k] + [w] + ws[k..], t) <==> Waits(ws, t) || t == w.thread
  {
    var r := ws[..k] + [w] + ws[k..];
    forall t ensures Waits(r, t) <==> Waits(ws, t) || t == w.thread {
      WaitsIn(r, t);
      WaitsIn(ws, t);
      InsertMembers(ws, w, k);
    }
  }

  lemma WaitsIn(ws: seq<Waiter>, t: int)
    ensures Waits(ws, t) <==> exists a :: a in ws && a.thread == t
  {
    if a :| a in ws && a.thread == t {
      var i :| 0 <= i < |ws| && ws[i] == a;
    }
  }

  lemma InsertOneEntry(ws: seq<Waiter>, w: Waiter, k: nat)
    requires k <= |ws| && OneEntryEach(ws) && !Waits(ws, w.thread)
    ensures OneEntryEach(ws[..k] + [w] + ws[k..])
  {
    var r := ws[..k] + [w] + ws[k..];
    forall i, j | 0 <= i < j < |r| ensures r[i].thread != r[j].thread {
      var i', j' := if i < k then i else i - 1, if j < k then j else j - 1;
      assert i != k ==> r[i] == ws[i'];
      assert j != k ==> r[j] == ws[j'];
    }
  }

  lemma {:induction false} WithoutMembers(ws: seq<Waiter>, t: int)
    requires OneEntryEach(ws)
    ensures forall a :: a in Without(ws, t) <==> a in ws && a.thread != t
    ensures forall u :: Waits(Without(ws, t), u) <==> Waits(ws, u) && u != t
    ensures OneEntryEach(Without(ws, t))
    ensures |Without(ws, t)| == if Waits(ws, t) then |ws| - 1 else |ws|
  {
    if ws != [] {
      WithoutMembers(ws[1..], t);
      WaitsCons(ws);
      if ws[0].thread != t {
        WaitsCons([ws[0]] + Without(ws[1..], t));
      }
      forall a ensures a in ws <==> a == ws[0] || a in ws[1..] {
      }
      assert !Waits(ws[1..], ws[0].thread);
    }
  }

  /** Unlinking takes out exactly the thread's entry. */
  lemma {:induction false} WithoutOne(ws: seq<Waiter>, t: int) returns (k: nat)
    ensures !Waits(ws, t) ==> Without(ws, t) == ws
    ensures Waits(ws, t) ==> TakenOut(ws, Without(ws, t), t, k)
  {
    k := 0;
    if ws != [] && ws[0].thread != t {
      var j := WithoutOne(ws[1..], t);
      WaitsCons(ws);
      k := j + 1;
      if Waits(ws, t) {
        assert ws[..k] + ws[k + 1..] == [ws[0]] + (ws[1..][..j] + ws[1..][j + 1..]);
      } else {
        assert ws == [ws[0]] + ws[1..];
      }
    }
  }

  lemma WaitsCons(ws: seq<Waiter>)
    requires ws != []
    ensures forall u :: Waits(ws, u) <==> ws[0].thread == u || Waits(ws[1..], u)
  {
    forall u ensures Waits(ws, u) <==> ws[0].thread == u || Waits(ws[1..], u) {
      if Waits(ws[1..], u) {
        var i :| 0 <= i < |ws[1..]| && ws[1..][i].thread == u;
        assert ws[i + 1].thread == u;
      }
    }
  }

  lemma {:induction false} WithoutKeepsOrder(ws: seq<Waiter>, t: int, flag: Flag)
    requires Ordered(ws, flag)
    ensures Ordered(Without(ws, t), flag) && forall a :: a in Without(ws, t) ==> a in ws
  {
    if ws != [] {
      WithoutKeepsOrder(ws[1..], t, flag);
      if ws[0].thread != t {
        var rest := Without(ws[1..], t);
        forall a | a in rest ensures Before(ws[0], a, flag) {
          var i :| 0 <= i < |ws[1..]| && ws[1..][i] == a;
          assert a == ws[i + 1];
        }
      }
    }
  }

  /** _ipc_list_suspend: the search for the position, on the list of the object. */
  method Suspend(ws: seq<Waiter>, w: Waiter, flag: Flag) returns (r: seq<Waiter>)
    ensures r == Enqueue(ws, w, flag)
  {
    match flag
    case Fifo =>
      r := ws + [w];
    case Prio =>
      var n := 0;
      while n < |ws|
        invariant n <= |ws| && n <= Position(ws, w.prio)
      {
        if w.prio < ws[n].prio {
          return ws[..n] + [w] + ws[n..];
        }
        n := n + 1;
      }
      r := ws + [w];
  }

  /** _ipc_list_resume_all: the head is resumed with an error until the list is empty. */
  method ResumeAll(ws: seq<Waiter>) returns (rest: seq<Waiter>, resumed: seq<Waiter>)
    ensures rest == [] && resumed == ws
  {
    rest, resumed := ws, [];
    while rest != []
      invariant resumed + rest == ws
      decreases |rest|
    {
      resumed := resumed + [rest[0]];
      rest := rest[1..];
    }
  }

  // ----- priorities that change during the wait -----

  /** RT_THREAD_CTRL_CHANGE_PRIORITY on a suspended thread, as rt_mutex_take does it to the owner of
      a mutex: the thread has its new priority where it stands. */
  function Reprio(ws: seq<Waiter>, t: int, p: int): (r: seq<Waiter>)
    ensures |r| == |ws|
    ensures forall i :: 0 <= i < |ws| ==> r[i] == if ws[i].thread == t then ws[i].(prio := p) else ws[i]
  {
    seq(|ws|, i requires 0 <= i < |ws| => if ws[i].thread == t then ws[i].(prio := p) else ws[i])
  }

  /** With priority p, thread t is still behind the waiter right before it and in front of the one
      right after it. */
  ghost predicate InPlace(ws: seq<Waiter>, t: int, p: int, flag: Flag) {
    forall i :: 0 <= i < |ws| && ws[i].thread == t ==>
      && (i > 0 ==> Before(ws[i - 1], ws[i].(prio := p), flag))
      && (i + 1 < |ws| ==> Before(ws[i].(prio := p), ws[i + 1], flag))
  }

  /** A change of priority keeps the serving order exactly when it suits the neighbours; under FIFO
      it always does. */
  lemma ReprioOrder(ws: seq<Waiter>, t: int, p: int, flag: Flag)
    requires Ordered(ws, flag) && OneEntryEach(ws)
    ensures Ordered(Reprio(ws, t, p), flag) <==> InPlace(ws, t, p, flag)
    ensures flag.Fifo? ==> InPlace(ws, t, p, flag)
  {
    var r := Reprio(ws, t, p);
    if InPlace(ws, t, p, flag) {
      forall i, j | 0 <= i < j < |ws| ensures Before(r[i], r[j], flag) {
        ReprioPair(ws, t, p, flag, i, j);
      }
    } else {
      var i :| 0 <= i < |ws| && ws[i].thread == t
        && !((i > 0 ==> Before(ws[i - 1], ws[i].(prio := p), flag)) && (i + 1 < |ws| ==> Before(ws[i].(prio := p), ws[i + 1], flag)));
      if i > 0 && !Before(ws[i - 1], ws[i].(prio := p), flag) {
        assert !Before(r[i - 1], r[i], flag);
      } else {
        assert !Before(r[i], r[i + 1], flag);
      }
    }
  }

  lemma ReprioPair(ws: seq<Waiter>, t: int, p: int, flag: Flag, i: int, j: int)
    requires Ordered(ws, flag) && OneEntryEach(ws) && InPlace(ws, t, p, flag) && 0 <= i < j < |ws|
    ensures Before(Reprio(ws, t, p)[i], Reprio(ws, t, p)[j], flag)
  {
    assert Before(ws[i], ws[j], flag) && ws[i].thread != ws[j].thread;
    if ws[i].thread == t && i + 1 < j {
      assert Before(ws[i + 1], ws[j], flag);
    } else if ws[j].thread == t && i + 1 < j {
      assert Before(ws[i], ws[j - 1], flag);
    }
  }

  // ----- waiters and the threads already resumed -----

  /** A waiter list with one entry per thread, none of whose threads is among the resumed ones. */
  ghost predicate Queued(ws: seq<Waiter>, tickets: int, woken: set<int>) {
    && OneEntryEach(ws)
    && forall w :: w in ws ==> w.ticket < tickets && w.thread !in woken
  }

  lemma DequeueQueued(ws: seq<Waiter>, tickets: int, woken: set<int>)
    requires Queued(ws, tickets, woken) && ws != []
    ensures Queued(ws[1..], tickets, woken + {ws[0].thread})
    ensures |woken + {ws[0].thread}| == |woken| + 1
  {
    assert ws[0] in ws;
    forall w | w in ws[1..] ensures w.ticket < tickets && w.thread !in woken + {ws[0].thread} {
      var i :| 0 <= i < |ws[1..]| && ws[1..][i] == w;
      assert w == ws[i + 1];
    }
  }

  lemma EnqueueQueued(ws: seq<Waiter>, flag: Flag, tickets: int, woken: set<int>, t: int, prio: int)
    requires Queued(ws, tickets, woken) && !Waits(ws, t)
    ensures Queued(Enqueue(ws, Waiter(t, prio, tickets), flag), tickets + 1, woken - {t})
  {
    EnqueueMembers(ws, Waiter(t, prio, tickets), flag);
  }

  lemma WithoutQueued(ws: seq<Waiter>, tickets: int, woken: set<int>, t: int)
    requires Queued(ws, tickets, woken)
    ensures Queued(Without(ws, t), tickets, woken)
    ensures ws == [] ==> Without(ws, t) == []
  {
    WithoutMembers(ws, t);
  }

  lemma ReprioQueued(ws: seq<Waiter>, tickets: int, woken: set<int>, t: int, p: int)
    requires Queued(ws, tickets, woken)
    ensures Queued(Reprio(ws, t, p), tickets, woken) && |Reprio(ws, t, p)| == |ws|
  {
    var r := Reprio(ws, t, p);
    forall w | w in r ensures w.ticket < tickets && w.thread !in woken {
      var i :| 0 <= i < |r| && r[i] == w;
      assert ws[i] in ws;
    }
  }

  lemma QueuedLater(ws: seq<Waiter>, tickets: int, woken: set<int>, t: int)
    requires Queued(ws, tickets, woken)
    ensures Queued(ws, tickets + 1, woken) && Queued(ws, tickets, woken - {t}) && Queued(ws, tickets + 1, woken - {t})
  {
  }

  lemma RemoveOne(woken: set<int>, t: int)
    ensures |woken - {t}| >= |woken| - 1 && (t !in woken ==> woken - {t} == woken)
  {
    if t in woken {
      assert woken == (woken - {t}) + {t};
    }
  }
}
