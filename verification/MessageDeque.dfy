/** What a message queue looks like from outside: a deque with the calls that are under way. An
    event is what a caller sees of one call: the message it offers, the moment it takes effect, and
    the bytes it gets back. Nodes, memory and copying do not appear. */
module MessageDeque {
  datatype Event =
    | Offer(t: int, urgent: bool, data: seq<int>)
    | Enter(t: int)
    | Take(t: int, want: int)
    | Deliver(t: int, bytes: seq<int>)
    | Clear

  datatype Offered = Offered(urgent: bool, data: seq<int>)

  datatype Claim = Claim(msg: seq<int>, want: int)

  datatype Deque = Deque(msgs: seq<seq<int>>, offers: map<int, Offered>, claims: map<int, Claim>)

  const EMPTY: Deque := Deque([], map[], map[])

  /** The two agree as far as both reach. */
  predicate Agree(a: seq<int>, b: seq<int>) {
    forall i :: 0 <= i < |a| && i < |b| ==> a[i] == b[i]
  }

  predicate Accepts(d: Deque, e: Event) {
    match e
    case Offer(t, _, _) => t !in d.offers && t !in d.claims
    case Enter(t) => t in d.offers
    case Take(t, _) => t !in d.offers && t !in d.claims && d.msgs != []
    case Deliver(t, bytes) => t in d.claims && |bytes| == d.claims[t].want && Agree(bytes, d.claims[t].msg)
    case Clear => true
  }

  /** A plain message goes to the back, an urgent one to the front, and the front one is taken. */
  function Apply(d: Deque, e: Event): Deque
    requires Accepts(d, e)
  {
    match e
    case Offer(t, urgent, data) => d.(offers := d.offers[t := Offered(urgent, data)])
    case Enter(t) =>
      var o := d.offers[t];
      d.(msgs := if o.urgent then [o.data] + d.msgs else d.msgs + [o.data], offers := d.offers - {t})
    case Take(t, want) => d.(msgs := d.msgs[1..], claims := d.claims[t := Claim(d.msgs[0], want)])
    case Deliver(t, _) => d.(claims := d.claims - {t})
    case Clear => d.(msgs := [])
  }

  predicate AcceptsAll(d: Deque, es: seq<Event>)
    decreases |es|
  {
    es != [] ==> Accepts(d, es[0]) && AcceptsAll(Apply(d, es[0]), es[1..])
  }

  function Replay(d: Deque, es: seq<Event>): Deque
    requires AcceptsAll(d, es)
    decreases |es|
  {
    if es == [] then d else Replay(Apply(d, es[0]), es[1..])
  }

  lemma {:induction false} ReplayAppend(d: Deque, es: seq<Event>, fs: seq<Event>)
    requires AcceptsAll(d, es) && AcceptsAll(Replay(d, es), fs)
    ensures AcceptsAll(d, es + fs) && Replay(d, es + fs) == Replay(Replay(d, es), fs)
    decreases |es|
  {
    if es == [] {
      assert es + fs == fs;
    } else {
      assert (es + fs)[1..] == es[1..] + fs;
      ReplayAppend(Apply(d, es[0]), es[1..], fs);
    }
  }

  // ----- urgent and plain messages -----

  /** The urgent messages in the deque, newest first, and the plain ones, oldest first; `entered`
      lists the plain messages that have entered and not been cleared away, and `left` those of them
      that have been taken. */
  datatype Ledger = Ledger(urgent: seq<seq<int>>, plain: seq<seq<int>>, entered: seq<seq<int>>, left: seq<seq<int>>)

  function Enter1(l: Ledger, o: Offered): Ledger {
    if o.urgent then l.(urgent := [o.data] + l.urgent)
    else l.(plain := l.plain + [o.data], entered := l.entered + [o.data])
  }

  function Take1(l: Ledger): Ledger {
    if l.urgent != [] then l.(urgent := l.urgent[1..])
    else if l.plain != [] then l.(plain := l.plain[1..], left := l.left + [l.plain[0]])
    else l
  }

  function Account(l: Ledger, d: Deque, es: seq<Event>): Ledger
    requires AcceptsAll(d, es)
    decreases |es|
  {
    if es == [] then l
    else
      var e := es[0];
      var l1 := match e
        case Enter(t) => Enter1(l, d.offers[t])
        case Take(_, _) => Take1(l)
        case Clear => Ledger([], [], l.left, l.left)
        case _ => l;
      Account(l1, Apply(d, e), es[1..])
  }

  predicate Balanced(l: Ledger, d: Deque) {
    d.msgs == l.urgent + l.plain && l.left + l.plain == l.entered
  }

  /** Over every sequence of events, urgent ones and clearings included: urgent messages stand in
      front of the plain ones, the last one first, and plain messages leave in the order in which they
      entered: those that left, followed by those still there, are those that entered. */
  lemma {:induction false} PlainIsFifo(l: Ledger, d: Deque, es: seq<Event>)
    requires AcceptsAll(d, es) && Balanced(l, d)
    ensures Balanced(Account(l, d, es), Replay(d, es))
    decreases |es|
  {
    if es != [] {
      match es[0]
      case Enter(t) =>
        EnterBalanced(l, d, t);
        PlainIsFifo(Enter1(l, d.offers[t]), Apply(d, es[0]), es[1..]);
      case Take(t, want) =>
        TakeBalanced(l, d);
        PlainIsFifo(Take1(l), Apply(d, es[0]), es[1..]);
      case Clear =>
        assert l.left + [] == l.left;
        PlainIsFifo(Ledger([], [], l.left, l.left), Apply(d, es[0]), es[1..]);
      case Offer(t, urgent, data) => PlainIsFifo(l, Apply(d, es[0]), es[1..]);
      case Deliver(t, bytes) => PlainIsFifo(l, Apply(d, es[0]), es[1..]);
    }
  }

  lemma EnterBalanced(l: Ledger, d: Deque, t: int)
    requires Balanced(l, d) && t in d.offers
    ensures Balanced(Enter1(l, d.offers[t]), Apply(d, Enter(t)))
  {
    var m := d.offers[t].data;
    assert [m] + (l.urgent + l.plain) == ([m] + l.urgent) + l.plain;
    assert (l.urgent + l.plain) + [m] == l.urgent + (l.plain + [m]);
    assert (l.left + l.plain) + [m] == l.left + (l.plain + [m]);
  }

  lemma TakeBalanced(l: Ledger, d: Deque)
    requires Balanced(l, d) && d.msgs != []
    ensures Take1(l).urgent + Take1(l).plain == d.msgs[1..] && Take1(l).left + Take1(l).plain == Take1(l).entered
  {
    if l.urgent != [] {
      assert (l.urgent + l.plain)[1..] == l.urgent[1..] + l.plain;
    } else {
      assert l.urgent + l.plain == l.plain && l.urgent + l.plain[1..] == l.plain[1..];
      assert l.plain == [l.plain[0]] + l.plain[1..];
      assert (l.left + [l.plain[0]]) + l.plain[1..] == l.left + ([l.plain[0]] + l.plain[1..]);
    }
  }

  // ----- where messages come from -----

  /** Every message in the deque, offered or taken is one of `known`. */
  predicate OnlyFrom(d: Deque, known: set<seq<int>>) {
    && (forall m :: m in d.msgs ==> m in known)
    && (forall t :: t in d.offers ==> d.offers[t].data in known)
    && (forall t :: t in d.claims ==> d.claims[t].msg in known)
  }

  /** The messages that events offer. */
  function Offers(es: seq<Event>): set<seq<int>> {
    set e | e in es && e.Offer? :: e.data
  }

  lemma {:induction false} ReplayOnlyFrom(d: Deque, es: seq<Event>, known: set<seq<int>>)
    requires AcceptsAll(d, es) && OnlyFrom(d, known)
    ensures OnlyFrom(Replay(d, es), known + Offers(es))
    decreases |es|
  {
    if es != [] {
      var e := es[0];
      var known1 := known + Offers([e]);
      ApplyOnlyFrom(d, e, known);
      ReplayOnlyFrom(Apply(d, e), es[1..], known1);
      assert es == [e] + es[1..];
      assert known1 + Offers(es[1..]) == known + Offers(es) by {
        assert forall f :: f in es <==> f in [e] || f in es[1..];
      }
    }
  }

  lemma ApplyOnlyFrom(d: Deque, e: Event, known: set<seq<int>>)
    requires Accepts(d, e) && OnlyFrom(d, known)
    ensures OnlyFrom(Apply(d, e), known + Offers([e]))
  {
    if e.Offer? {
      assert e in [e] && e.data in Offers([e]);
    }
    if e.Take? {
      assert d.msgs[0] in d.msgs;
    }
  }
}
