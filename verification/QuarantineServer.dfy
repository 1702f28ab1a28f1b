/**
 The quarantine of a client whose server answers mutations in local order: it answers again what it
 has answered before, and of the others only the next one. Exactly as long as it has answered no
 mutation that is quarantined and resubmitted, no replacement is resolved before its original.
 */
module QuarantineServer {
  import opened Quarantine

  /** A client's tables and the last local sequence that the server has answered for it. */
  datatype Client = Client(s: Store, last: nat)

  datatype Event =
    | Allocated
    | Claimed(mutation: nat)
    | Received(mutation: nat)
    | Settled(mutation: nat)
    | AsideSet(mutation: nat)
    | Resubmitted(mutation: nat, request: Request)
    | ResolvedWith(mutation: nat, preserves: bool)
    /** The server answers a submitted or discarded mutation, but the client never hears it. */
    | Unheard(mutation: nat)

  predicate Answers(last: nat, m: nat) {
    m <= last + 1
  }

  function Max(a: nat, b: nat): nat {
    if a < b then b else a
  }

  predicate Enabled(c: Client, ev: Event) {
    match ev
    case Received(m) => m in c.s.pending && m in c.s.claimed && Answers(c.last, m)
    case ResolvedWith(m, _) => m in c.s.quarantine && Answers(c.last, m)
    case Unheard(m) => (m in c.s.claimed || m in c.s.quarantine) && Answers(c.last, m)
    case _ => true
  }

  function Happened(c: Client, ev: Event): Client {
    match ev
    case Allocated => c.(s := Next(c.s, Other(Allocate)))
    case Claimed(m) => c.(s := Next(c.s, Other(Claim(m))))
    case Received(m) => Client(Next(c.s, Other(Receive(m))), Max(c.last, m))
    case Settled(m) => c.(s := Next(c.s, Other(Settle(m))))
    case AsideSet(m) => c.(s := Next(c.s, SetAside(m)))
    case Resubmitted(m, q) => c.(s := Next(c.s, Resubmit(m, q)))
    case ResolvedWith(m, preserves) => Client(Next(c.s, ResolveWith(m, preserves)), Max(c.last, m))
    case Unheard(m) => c.(last := Max(c.last, m))
  }

  /** Whatever the server has not answered is still there, and only what it has answered has a receipt. */
  ghost predicate Waits(c: Client) {
    && c.last < c.s.next
    && (forall m :: c.last < m < c.s.next ==> m in c.s.pending || m in c.s.quarantine)
    && (forall m :: m in c.s.receipted ==> m <= c.last)
  }

  ghost predicate Sound(c: Client) {
    Valid(c.s) && Waits(c)
  }

  /** The server has answered no mutation that is quarantined and resubmitted. */
  ghost predicate Unanswered(c: Client) {
    forall o :: o in c.s.links ==> c.last < o
  }

  /** The event that would make it otherwise. */
  predicate Exposes(c: Client, ev: Event) {
    match ev
    case Resubmitted(m, q) => m in c.s.quarantine && m !in c.s.links && q.admitted && m <= c.last
    case Unheard(m) => m in c.s.links && c.last < m
    case _ => false
  }

  predicate OutOfOrder(c: Client, ev: Event) {
    ev.ResolvedWith? && ev.mutation in c.s.links.Values
  }

  // ---------------------------------------------------------------- in order

  /** An in-order server cannot answer for a replacement before it has answered for the original. */
  lemma UnansweredIsInOrder(c: Client, ev: Event)
    requires Sound(c) && Unanswered(c) && Enabled(c, ev)
    ensures !OutOfOrder(c, ev)
  {
    forall o | o in c.s.links ensures c.last + 1 < c.s.links[o] { assert Replaces(c.s, o, c.s.links[o]); }
  }

  lemma ResolvingKeepsWaits(c: Client, m: nat, preserves: bool)
    requires Sound(c) && m in c.s.quarantine && Answers(c.last, m)
    ensures Waits(Happened(c, ResolvedWith(m, preserves)))
    ensures Happened(c, ResolvedWith(m, preserves)).s.links == c.s.links - {m}
  {
    ResolveShape(c.s, m, preserves);
    if m in c.s.links { assert Replaces(c.s, m, c.s.links[m]); }
  }

  lemma EventKeepsWaits(c: Client, ev: Event)
    requires Sound(c) && Enabled(c, ev)
    ensures Waits(Happened(c, ev))
  {
    if ev.ResolvedWith? { ResolvingKeepsWaits(c, ev.mutation, ev.preserves); }
  }

  lemma EventKeepsValid(c: Client, ev: Event)
    requires Sound(c) && Enabled(c, ev) && !OutOfOrder(c, ev)
    ensures Valid(Happened(c, ev).s)
  {
    match ev {
      case Allocated => ProceedKeeps(c.s, Allocate);
      case Claimed(m) => ProceedKeeps(c.s, Claim(m));
      case Received(m) => ProceedKeeps(c.s, Receive(m));
      case Settled(m) => ProceedKeeps(c.s, Settle(m));
      case AsideSet(m) => SetAsideKeeps(c.s, m);
      case Resubmitted(m, q) => EnsureKeeps(c.s, m, q);
      case ResolvedWith(m, preserves) => ResolveKeeps(c.s, m, preserves);
      case Unheard(_) =>
    }
  }

  /** An event keeps every resubmitted original unanswered exactly if it exposes none. */
  lemma ExposesExactly(c: Client, ev: Event)
    requires Sound(c) && Unanswered(c) && Enabled(c, ev)
    ensures Unanswered(Happened(c, ev)) <==> !Exposes(c, ev)
  {
    var d := Happened(c, ev);
    match ev {
      case Received(m) => assert m !in c.s.links;
      case ResolvedWith(m, preserves) =>
        ResolvingKeepsWaits(c, m, preserves);
        assert m !in d.s.links;
      case Unheard(m) => if Exposes(c, ev) { assert d.last == m && m in d.s.links; }
      case Resubmitted(m, q) => if Exposes(c, ev) { assert m in d.s.links; }
      case _ =>
    }
  }

  /** The server's answers only rise: to what the client hears of, and to what it never hears of. */
  lemma AnswersRise(c: Client, ev: Event)
    requires Sound(c) && Enabled(c, ev)
    ensures var d := Happened(c, ev);
            match ev
            case Received(m) => d.last == Max(c.last, m) >= m && m in d.s.receipted
            case ResolvedWith(m, _) => d.last == Max(c.last, m) >= m && m in d.s.receipted
            case Unheard(m) => d.last == Max(c.last, m) >= m && d.s == c.s
            case _ => d.last == c.last
  {
    if ev.ResolvedWith? { ResolveShape(c.s, ev.mutation, ev.preserves); }
  }

  ghost predicate Follows(c: Client, evs: seq<Event>)
    decreases |evs|
  {
    evs == [] || (Enabled(c, evs[0]) && !Exposes(c, evs[0]) && Follows(Happened(c, evs[0]), evs[1..]))
  }

  function Ended(c: Client, evs: seq<Event>): Client
    decreases |evs|
  {
    if evs == [] then c else Ended(Happened(c, evs[0]), evs[1..])
  }

  lemma {:induction false} InOrderKept(c: Client, evs: seq<Event>)
    requires Sound(c) && Unanswered(c) && Follows(c, evs)
    ensures Sound(Ended(c, evs)) && Unanswered(Ended(c, evs))
    decreases |evs|
  {
    if evs != [] {
      UnansweredIsInOrder(c, evs[0]);
      EventKeepsWaits(c, evs[0]);
      EventKeepsValid(c, evs[0]);
      ExposesExactly(c, evs[0]);
      InOrderKept(Happened(c, evs[0]), evs[1..]);
    }
  }

  // ---------------------------------------------------------------- and out of order otherwise

  /** The mutation to be answered on the way to the replacement of `o`. */
  function Target(c: Client, o: nat): nat
    requires o in c.s.links
  {
    if c.s.links[o] <= c.last then c.s.links[o] else c.last + 1
  }

  /** Sets the target aside if it is pending, and has it resolved otherwise. */
  function Toward(c: Client, o: nat): Event
    requires o in c.s.links
  {
    var k := Target(c, o);
    if k in c.s.pending then AsideSet(k) else ResolvedWith(k, true)
  }

  ghost function Distance(c: Client, o: nat): nat
    requires o in c.s.links
  {
    if c.last < c.s.links[o] then c.s.links[o] - c.last else 0
  }

  lemma TowardAdvances(c: Client, o: nat)
    requires Sound(c) && o in c.s.links && o <= c.last && !OutOfOrder(c, Toward(c, o))
    ensures Enabled(c, Toward(c, o)) && !Exposes(c, Toward(c, o))
    ensures var d := Happened(c, Toward(c, o));
            && o in d.s.links && d.s.links[o] == c.s.links[o] && o <= d.last
            && (Distance(d, o) < Distance(c, o)
                || (Distance(d, o) == Distance(c, o) && Target(c, o) in c.s.pending && Target(d, o) !in d.s.pending))
  {
    var k := Target(c, o);
    assert Replaces(c.s, o, c.s.links[o]);
    assert k in c.s.pending || k in c.s.quarantine;
    if k !in c.s.pending {
      ResolvingKeepsWaits(c, k, true);
      assert k in c.s.links.Values || k != c.s.links[o];
    }
  }

  /** From any state with an answered original, the server can answer for a replacement first. */
  lemma {:induction false} ReachesOutOfOrder(c: Client, o: nat) returns (evs: seq<Event>, ev: Event)
    requires Sound(c) && o in c.s.links && o <= c.last
    ensures Follows(c, evs) && Enabled(Ended(c, evs), ev) && OutOfOrder(Ended(c, evs), ev)
    decreases Distance(c, o), if Target(c, o) in c.s.pending then 1 else 0
  {
    var step := Toward(c, o);
    assert Replaces(c.s, o, c.s.links[o]);
    if OutOfOrder(c, step) {
      evs, ev := [], step;
    } else {
      TowardAdvances(c, o);
      EventKeepsWaits(c, step);
      EventKeepsValid(c, step);
      var rest;
      rest, ev := ReachesOutOfOrder(Happened(c, step), o);
      evs := [step] + rest;
      assert evs[1..] == rest;
    }
  }

  /** However the client goes on, no replacement can be resolved before its original. */
  ghost predicate AlwaysInOrder(c: Client) {
    forall evs, ev :: Follows(c, evs) && Enabled(Ended(c, evs), ev) ==> !OutOfOrder(Ended(c, evs), ev)
  }

  /**
   An in-order server keeps resolutions in order, in every run that exposes no further original,
   exactly if it has answered no mutation that is quarantined and resubmitted.
   */
  lemma AlwaysInOrderExactly(c: Client)
    requires Sound(c)
    ensures AlwaysInOrder(c) <==> Unanswered(c)
  {
    if Unanswered(c) {
      forall evs, ev | Follows(c, evs) && Enabled(Ended(c, evs), ev) ensures !OutOfOrder(Ended(c, evs), ev) {
        InOrderKept(c, evs);
        UnansweredIsInOrder(Ended(c, evs), ev);
      }
    } else {
      var o :| o in c.s.links && o <= c.last;
      var evs, ev := ReachesOutOfOrder(c, o);
    }
  }

  // ---------------------------------------------------------------- accepted before it was quarantined

  /**
   The first mutation is submitted and accepted, but set aside before its receipt arrives. It is
   resubmitted as the second, which is set aside in turn, answered in order, and settled. The link of
   the first then has no replacement to find.
   */
  lemma OutOfOrderCorrupts(q: Request)
    requires q.admitted
    ensures var c := Client(Store({}, {}, {}, map[], map[], {}, 1), 0);
            var evs := [Allocated, Claimed(1), Unheard(1), AsideSet(1)]
                       + [Resubmitted(1, q), AsideSet(2), ResolvedWith(2, false), Settled(2)];
            && Sound(c) && AllEnabled(c, evs)
            && var d := Ended(c, evs);
               && 1 in d.s.quarantine && Ensured(d.s, 1, q) == Failed(MissingReplacement)
               && Resolve(d.s, 1, false) == Failed(MissingReplacement)
  {
    var c := Client(Store({}, {}, {}, map[], map[], {}, 1), 0);
    var first := [Allocated, Claimed(1), Unheard(1), AsideSet(1)];
    var rest := [Resubmitted(1, q), AsideSet(2), ResolvedWith(2, false), Settled(2)];
    FirstIsSetAside(c);
    SecondIsSettled(Client(Store({}, {}, {1}, map[], map[], {1}, 2), 1), q);
    EndedSplit(c, first, rest);
    LinkDangles(Store({}, {}, {1}, map[1 := 2], map[], {1}, 3), q);
  }

  lemma LinkDangles(s: Store, q: Request)
    requires s == Store({}, {}, {1}, map[1 := 2], map[], {1}, 3)
    ensures Ensured(s, 1, q) == Failed(MissingReplacement) && Resolve(s, 1, false) == Failed(MissingReplacement)
  {}

  ghost predicate AllEnabled(c: Client, evs: seq<Event>)
    decreases |evs|
  {
    evs == [] || (Enabled(c, evs[0]) && AllEnabled(Happened(c, evs[0]), evs[1..]))
  }

  lemma {:induction false} EndedSplit(c: Client, a: seq<Event>, b: seq<Event>)
    ensures Ended(c, a + b) == Ended(Ended(c, a), b)
    ensures AllEnabled(c, a + b) <==> AllEnabled(c, a) && AllEnabled(Ended(c, a), b)
    decreases |a|
  {
    if a == [] {
      assert a + b == b;
    } else {
      assert (a + b)[1..] == a[1..] + b;
      EndedSplit(Happened(c, a[0]), a[1..], b);
    }
  }

  lemma FirstIsSetAside(c: Client)
    requires c == Client(Store({}, {}, {}, map[], map[], {}, 1), 0)
    ensures var evs := [Allocated, Claimed(1), Unheard(1), AsideSet(1)];
            AllEnabled(c, evs) && Ended(c, evs) == Client(Store({}, {}, {1}, map[], map[], {1}, 2), 1)
  {
    var c1 := Client(Store({1}, {}, {}, map[], map[], {}, 2), 0);
    var c2 := Client(Store({1}, {}, {}, map[], map[], {1}, 2), 0);
    var c3 := Client(Store({1}, {}, {}, map[], map[], {1}, 2), 1);
    assert Happened(c, Allocated) == c1 && Happened(c1, Claimed(1)) == c2 && Happened(c2, Unheard(1)) == c3;
    assert Happened(c3, AsideSet(1)) == Client(Store({}, {}, {1}, map[], map[], {1}, 2), 1);
    Unroll(c, Allocated, Claimed(1), Unheard(1), AsideSet(1));
  }

  lemma SecondIsSettled(c: Client, q: Request)
    requires c == Client(Store({}, {}, {1}, map[], map[], {1}, 2), 1) && q.admitted
    ensures var evs := [Resubmitted(1, q), AsideSet(2), ResolvedWith(2, false), Settled(2)];
            AllEnabled(c, evs) && Ended(c, evs) == Client(Store({}, {}, {1}, map[1 := 2], map[], {1}, 3), 2)
  {
    var c1 := Client(Store({2}, {}, {1}, map[1 := 2], map[], {1}, 3), 1);
    var c2 := Client(Store({}, {}, {1, 2}, map[1 := 2], map[], {1}, 3), 1);
    var c3 := Client(Store({2}, {2}, {1}, map[1 := 2], map[], {1}, 3), 2);
    assert Happened(c, Resubmitted(1, q)) == c1 && Happened(c1, AsideSet(2)) == c2;
    assert RootsOf(c2.s, 2) == {} && map[1 := 2] - {2} == map[1 := 2];
    assert Happened(c2, ResolvedWith(2, false)) == c3;
    assert Happened(c3, Settled(2)) == Client(Store({}, {}, {1}, map[1 := 2], map[], {1}, 3), 2);
    Unroll(c, Resubmitted(1, q), AsideSet(2), ResolvedWith(2, false), Settled(2));
  }

  lemma UnrollTwo(c: Client, a: Event, b: Event)
    ensures Ended(c, [a, b]) == Happened(Happened(c, a), b)
    ensures AllEnabled(c, [a, b]) <==> Enabled(c, a) && Enabled(Happened(c, a), b)
  {
    assert [a, b][1..] == [b] && [b][1..] == [];
    assert Ended(Happened(c, a), [b]) == Happened(Happened(c, a), b);
    assert AllEnabled(Happened(c, a), [b]) <==> Enabled(Happened(c, a), b);
  }

  lemma Unroll(c: Client, a: Event, b: Event, d: Event, e: Event)
    ensures var c1 := Happened(c, a);
            var c2 := Happened(c1, b);
            var c3 := Happened(c2, d);
            && Ended(c, [a, b, d, e]) == Happened(c3, e)
            && (AllEnabled(c, [a, b, d, e]) <==> Enabled(c, a) && Enabled(c1, b) && Enabled(c2, d) && Enabled(c3, e))
  {
    assert [a, b, d, e] == [a, b] + [d, e];
    EndedSplit(c, [a, b], [d, e]);
    UnrollTwo(c, a, b);
    UnrollTwo(Ended(c, [a, b]), d, e);
  }
}
