/**
 The rounds of the commit queue. A round claims what the last one carried over and polls the queue
 for more, leaving out what is withdrawn; it commits the whole batch, or answers the request that
 crashed it and carries over the rest.
 */
module CommitRounds {
  import opened Basics
  import opened CommitOrder

  const MAXIMUM_COMMIT_BATCH: nat := 32

  datatype State<!S> = State(store: S, told: map<nat, Exit<S>>, carried: seq<Request>, queue: seq<Request>)

  // ---------------------------------------------------------------- one round

  /** How many queued requests are looked at to fill a batch that has `size` already. */
  function Polled(size: nat, queue: seq<Request>, polls: nat, withdrawn: nat -> bool): (n: nat)
    ensures n <= |queue|
    decreases |queue|
  {
    if size < MAXIMUM_COMMIT_BATCH && polls > 0 && queue != [] then
      1 + Polled(if withdrawn(queue[0].ticket) then size else size + 1, queue[1..], polls - 1, withdrawn)
    else 0
  }

  /**
   How many of the queue a round looks at. With nothing carried over it starts from the head; the
   queue is polled only if something stands by then.
   */
  function Looked(carried: seq<Request>, queue: seq<Request>, polls: nat, withdrawn: nat -> bool): (n: nat)
    ensures n <= |queue|
  {
    if carried == [] then
      if queue == [] then 0
      else if withdrawn(queue[0].ticket) then 1
      else 1 + Polled(1, queue[1..], polls, withdrawn)
    else
      var kept := Standing(carried, withdrawn);
      if kept == [] then 0 else Polled(|kept|, queue, polls, withdrawn)
  }

  /** The requests that a round takes from the queue, withdrawn or not. */
  function Taken(carried: seq<Request>, queue: seq<Request>, polls: nat, withdrawn: nat -> bool): seq<Request> {
    queue[..Looked(carried, queue, polls, withdrawn)]
  }

  function Rest(carried: seq<Request>, queue: seq<Request>, polls: nat, withdrawn: nat -> bool): seq<Request> {
    queue[Looked(carried, queue, polls, withdrawn)..]
  }

  /** A batch is what still stands of the carried requests, and what stands of those taken from the queue. */
  function Batch(carried: seq<Request>, queue: seq<Request>, polls: nat, withdrawn: nat -> bool): seq<Request> {
    Standing(carried, withdrawn) + Standing(Taken(carried, queue, polls, withdrawn), withdrawn)
  }

  /** Polling stops exactly when the batch is full, the queue is empty or the polls are used up. */
  lemma PolledExactly(size: nat, queue: seq<Request>, polls: nat, withdrawn: nat -> bool)
    ensures var n := Polled(size, queue, polls, withdrawn);
            && n <= polls && (n == |queue| || n == polls || size + |Standing(queue[..n], withdrawn)| >= 32)
            && forall k :: 0 <= k < n ==> size + |Standing(queue[..k], withdrawn)| < 32
  {
    PolledEnds(size, queue, polls, withdrawn);
    PolledShort(size, queue, polls, withdrawn);
  }

  lemma {:induction false} PolledEnds(size: nat, queue: seq<Request>, polls: nat, withdrawn: nat -> bool)
    ensures var n := Polled(size, queue, polls, withdrawn);
            n <= polls && (n == |queue| || n == polls || size + |Standing(queue[..n], withdrawn)| >= 32)
    decreases |queue|
  {
    var n := Polled(size, queue, polls, withdrawn);
    if n > 0 {
      PolledEnds(if withdrawn(queue[0].ticket) then size else size + 1, queue[1..], polls - 1, withdrawn);
      StandingHead(queue, n, withdrawn);
    }
  }

  lemma {:induction false} PolledShort(size: nat, queue: seq<Request>, polls: nat, withdrawn: nat -> bool)
    ensures forall k :: 0 <= k < Polled(size, queue, polls, withdrawn) ==>
              size + |Standing(queue[..k], withdrawn)| < 32
    decreases |queue|
  {
    var n := Polled(size, queue, polls, withdrawn);
    if n > 0 {
      var next := if withdrawn(queue[0].ticket) then size else size + 1;
      PolledShort(next, queue[1..], polls - 1, withdrawn);
      forall k | 0 < k < n ensures size + |Standing(queue[..k], withdrawn)| < 32 {
        StillShort(size, queue, k, next, withdrawn);
      }
    }
  }

  lemma StillShort(size: nat, queue: seq<Request>, k: nat, next: nat, withdrawn: nat -> bool)
    requires 0 < k <= |queue| && next == if withdrawn(queue[0].ticket) then size else size + 1
    requires next + |Standing(queue[1..][..k - 1], withdrawn)| < 32
    ensures size + |Standing(queue[..k], withdrawn)| < 32
  {
    StandingHead(queue, k, withdrawn);
  }

  lemma StandingHead(queue: seq<Request>, k: nat, withdrawn: nat -> bool)
    requires 0 < k <= |queue|
    ensures |Standing(queue[..k], withdrawn)|
            == |Standing(queue[1..][..k - 1], withdrawn)| + if withdrawn(queue[0].ticket) then 0 else 1
  {
    assert queue[..k][1..] == queue[1..][..k - 1];
  }

  /**
   A batch is what stands of the carried requests and of a prefix of the queue. Carried requests that
   are all withdrawn, or else a withdrawn head, end it; otherwise it is filled from the queue.
   */
  lemma BatchExactly(carried: seq<Request>, queue: seq<Request>, polls: nat, withdrawn: nat -> bool)
    requires carried != [] || queue != []
    ensures var batch, rest := Batch(carried, queue, polls, withdrawn), Rest(carried, queue, polls, withdrawn);
            var n := |queue| - |rest|;
            && 0 <= n <= |queue| && rest == queue[n..]
            && batch == Standing(carried, withdrawn) + Standing(queue[..n], withdrawn)
            && (carried != [] && Standing(carried, withdrawn) == [] ==> n == 0)
            && (carried == [] && withdrawn(queue[0].ticket) ==> n == 1)
            && (carried == [] && !withdrawn(queue[0].ticket) ==>
                  1 <= n <= polls + 1 && (n == |queue| || n == polls + 1 || |batch| >= 32))
            && (Standing(carried, withdrawn) != [] ==>
                  n <= polls && (n == |queue| || n == polls || |batch| >= 32))
            && (|carried| <= 32 ==> |batch| <= 32)
  {
    var kept := Standing(carried, withdrawn);
    StandingSize(carried, withdrawn);
    if carried == [] {
      HeadFills(queue, polls, withdrawn);
    } else if kept != [] {
      PolledExactly(|kept|, queue, polls, withdrawn);
      if |carried| <= 32 { PolledFits(|kept|, queue, polls, withdrawn); }
    }
  }

  lemma HeadFills(queue: seq<Request>, polls: nat, withdrawn: nat -> bool)
    requires queue != []
    ensures var n := Looked([], queue, polls, withdrawn);
            var size := |Standing(queue[..n], withdrawn)|;
            && size <= 32 && 1 <= n
            && (if withdrawn(queue[0].ticket) then n == 1
                else n <= polls + 1 && (n == |queue| || n == polls + 1 || size >= 32))
  {
    StandingHead(queue, Looked([], queue, polls, withdrawn), withdrawn);
    if withdrawn(queue[0].ticket) {
      assert queue[1..][..0] == [];
    } else {
      PolledExactly(1, queue[1..], polls, withdrawn);
      PolledFits(1, queue[1..], polls, withdrawn);
    }
  }

  lemma PolledFits(size: nat, queue: seq<Request>, polls: nat, withdrawn: nat -> bool)
    requires size <= 32
    ensures size + |Standing(queue[..Polled(size, queue, polls, withdrawn)], withdrawn)| <= 32
  {
    var n := Polled(size, queue, polls, withdrawn);
    PolledExactly(size, queue, polls, withdrawn);
    if n > 0 {
      assert queue[..n] == queue[..n - 1] + [queue[n - 1]];
      StandingOn(queue[..n - 1], queue[n - 1], withdrawn);
    }
  }

  ghost predicate CrashesAt<S>(apply: Handler<S>, s: S, claimed: seq<Request>, i: nat) {
    i < |claimed| && apply(Sequential(apply, s, claimed[..i]), claimed[i].body).Defect?
  }

  ghost predicate FirstCrash<S>(apply: Handler<S>, s: S, claimed: seq<Request>, i: nat) {
    CrashesAt(apply, s, claimed, i) && forall j :: 0 <= j < i ==> !CrashesAt(apply, s, claimed, j)
  }

  ghost function Culprit<S>(apply: Handler<S>, s: S, claimed: seq<Request>): Option<nat> {
    if i: nat :| FirstCrash(apply, s, claimed, i) then Some(i) else None
  }

  lemma CulpritIs<S>(apply: Handler<S>, s: S, claimed: seq<Request>, i: nat)
    requires FirstCrash(apply, s, claimed, i)
    ensures Culprit(apply, s, claimed) == Some(i)
  {
    var c := Culprit(apply, s, claimed);
    assert c.Some? && FirstCrash(apply, s, claimed, c.value);
    assert !(c.value < i) && !(i < c.value);
  }

  /** What the transaction of a batch leaves. */
  ghost function Ran<S>(apply: Handler<S>, q: State<S>, claimed: seq<Request>, rest: seq<Request>): (q': State<S>)
    ensures q'.queue == rest && (|q'.carried| < |claimed| || q'.carried == [])
  {
    match Culprit(apply, q.store, claimed)
    case None => State(Sequential(apply, q.store, claimed), q.told + Answers(apply, q.store, claimed), [], rest)
    case Some(i) =>
      var e := apply(Sequential(apply, q.store, claimed[..i]), claimed[i].body);
      State(q.store, q.told[claimed[i].ticket := e], claimed[..i] + claimed[i + 1..], rest)
  }

  predicate Busy<S>(q: State<S>) {
    q.carried != [] || q.queue != []
  }

  ghost function Round<S>(apply: Handler<S>, q: State<S>, polls: nat, withdrawn: nat -> bool): State<S> {
    Ran(apply, q, Batch(q.carried, q.queue, polls, withdrawn), Rest(q.carried, q.queue, polls, withdrawn))
  }

  lemma RoundShrinks<S>(apply: Handler<S>, q: State<S>, polls: nat, withdrawn: nat -> bool)
    requires Busy(q)
    ensures var q' := Round(apply, q, polls, withdrawn);
            |q'.carried| + |q'.queue| < |q.carried| + |q.queue|
  {
    StandingSize(q.carried, withdrawn);
    StandingSize(Taken(q.carried, q.queue, polls, withdrawn), withdrawn);
  }

  // ---------------------------------------------------------------- all rounds

  /** The state once the queue is worked off, rounds being numbered from `k`. */
  ghost function Final<S>(apply: Handler<S>, q: State<S>, polls: nat -> nat, withdrawn: nat -> nat -> bool, k: nat)
    : State<S>
    decreases |q.carried| + |q.queue|
  {
    if !Busy(q) then q
    else
      RoundShrinks(apply, q, polls(k), withdrawn(k));
      Final(apply, Round(apply, q, polls(k), withdrawn(k)), polls, withdrawn, k + 1)
  }

  /** The requests that stood when they were first looked at, in queue order. */
  ghost function Accepted<S>(apply: Handler<S>, q: State<S>, polls: nat -> nat, withdrawn: nat -> nat -> bool, k: nat)
    : seq<Request>
    decreases |q.carried| + |q.queue|
  {
    if !Busy(q) then []
    else
      RoundShrinks(apply, q, polls(k), withdrawn(k));
      Standing(Taken(q.carried, q.queue, polls(k), withdrawn(k)), withdrawn(k))
      + Accepted(apply, Round(apply, q, polls(k), withdrawn(k)), polls, withdrawn, k + 1)
  }

  /** No round finds a request withdrawn that an earlier, aborted round had claimed. */
  ghost predicate NeverLate<S>(apply: Handler<S>, q: State<S>, polls: nat -> nat, withdrawn: nat -> nat -> bool, k: nat)
    decreases |q.carried| + |q.queue|
  {
    if !Busy(q) then true
    else
      RoundShrinks(apply, q, polls(k), withdrawn(k));
      && AllStanding(q.carried, withdrawn(k))
      && NeverLate(apply, Round(apply, q, polls(k), withdrawn(k)), polls, withdrawn, k + 1)
  }

  /** The rounds end with the store and the answers of running `requests` alone, one after the other. */
  ghost predicate SameAsAlone<S>(apply: Handler<S>, q: State<S>, polls: nat -> nat, withdrawn: nat -> nat -> bool,
                                 k: nat, requests: seq<Request>) {
    && Final(apply, q, polls, withdrawn, k).store == Sequential(apply, q.store, requests)
    && Final(apply, q, polls, withdrawn, k).told == q.told + Answers(apply, q.store, requests)
  }

  /** Every ticket waits once, and nobody who waits has been told anything. */
  ghost predicate Waiting<S>(q: State<S>) {
    && Unique(Bag(q.carried + q.queue))
    && forall t :: t in Bag(q.carried + q.queue) ==> t !in q.told
  }

  // ---------------------------------------------------------------- tickets

  lemma QueueSplits(carried: seq<Request>, queue: seq<Request>, polls: nat, withdrawn: nat -> bool)
    ensures Taken(carried, queue, polls, withdrawn) + Rest(carried, queue, polls, withdrawn) == queue
  {}

  lemma BatchBag(carried: seq<Request>, queue: seq<Request>, polls: nat, withdrawn: nat -> bool)
    ensures Bag(Batch(carried, queue, polls, withdrawn)) + Bag(Rest(carried, queue, polls, withdrawn))
            <= Bag(carried + queue)
  {
    var taken, rest := Taken(carried, queue, polls, withdrawn), Rest(carried, queue, polls, withdrawn);
    assert queue == taken + rest;
    BagSplit(carried, queue);
    BagSplit(taken, rest);
    BagSplit(Standing(carried, withdrawn), Standing(taken, withdrawn));
    StandingBag(carried, withdrawn);
    StandingBag(taken, withdrawn);
    BagsBelow(Bag(Standing(carried, withdrawn)), Bag(Standing(taken, withdrawn)), Bag(carried), Bag(taken), Bag(rest));
  }

  lemma BagsBelow(a: multiset<nat>, b: multiset<nat>, c: multiset<nat>, d: multiset<nat>, rest: multiset<nat>)
    requires a <= c && b <= d
    ensures a + b + rest <= c + (d + rest)
  {}

  /** A batch answers its culprit or everyone in it, and carries over what it does not answer. */
  lemma CulpritAnswered<S>(apply: Handler<S>, q: State<S>, claimed: seq<Request>, rest: seq<Request>)
    requires Culprit(apply, q.store, claimed).Some?
    ensures var q' := Ran(apply, q, claimed, rest);
            var t := claimed[Culprit(apply, q.store, claimed).value].ticket;
            t in Bag(claimed) && q'.told.Keys == q.told.Keys + {t} && Bag(claimed) == Bag(q'.carried) + multiset{t}
  {
    BagWithout(claimed, Culprit(apply, q.store, claimed).value);
  }

  lemma RanAnswers<S>(apply: Handler<S>, q: State<S>, claimed: seq<Request>, rest: seq<Request>)
    ensures var q' := Ran(apply, q, claimed, rest);
            && q.told.Keys <= q'.told.Keys && Bag(q'.carried) <= Bag(claimed)
            && (forall t :: t in q'.told ==> t in q.told || t in Bag(claimed))
            && (Unique(Bag(claimed)) ==> forall t :: t in Bag(q'.carried) && t in q'.told ==> t in q.told)
  {
    AnswersKeys(apply, q.store, claimed);
    if Culprit(apply, q.store, claimed).Some? { CulpritAnswered(apply, q, claimed, rest); }
  }

  lemma RoundKeepsWaiting<S>(apply: Handler<S>, q: State<S>, polls: nat, withdrawn: nat -> bool)
    requires Waiting(q)
    ensures Waiting(Round(apply, q, polls, withdrawn))
    ensures var q' := Round(apply, q, polls, withdrawn); Bag(q'.carried + q'.queue) <= Bag(q.carried + q.queue)
  {
    var claimed, rest := Batch(q.carried, q.queue, polls, withdrawn), Rest(q.carried, q.queue, polls, withdrawn);
    var q' := Round(apply, q, polls, withdrawn);
    BatchBag(q.carried, q.queue, polls, withdrawn);
    RanAnswers(apply, q, claimed, rest);
    BagSplit(q'.carried, rest);
    BagsApart(Bag(claimed), Bag(rest), Bag(q.carried + q.queue));
    forall t | t in Bag(q'.carried + rest) ensures t in Bag(q.carried + q.queue) && t !in q'.told {
      if t in Bag(rest) { assert t !in Bag(claimed); }
    }
  }

  lemma BagsApart(a: multiset<nat>, b: multiset<nat>, whole: multiset<nat>)
    requires a + b <= whole && Unique(whole)
    ensures Unique(a) && Unique(b) && Unique(a + b) && forall t :: t in a ==> t !in b
  {
    forall t ensures a[t] + b[t] <= 1 { assert (a + b)[t] <= whole[t] <= 1; }
  }

  lemma TakenBag(taken: seq<Request>, rest: seq<Request>, withdrawn: nat -> bool, later: seq<Request>)
    requires Bag(later) <= Bag(rest)
    ensures Bag(Standing(taken, withdrawn) + later) <= Bag(taken + rest)
  {
    StandingBag(taken, withdrawn);
    BagSplit(taken, rest);
    BagSplit(Standing(taken, withdrawn), later);
  }

  lemma {:induction false} AcceptedBag<S>(apply: Handler<S>, q: State<S>, polls: nat -> nat,
                                          withdrawn: nat -> nat -> bool, k: nat)
    ensures Bag(Accepted(apply, q, polls, withdrawn, k)) <= Bag(q.queue)
    decreases |q.carried| + |q.queue|
  {
    if Busy(q) {
      RoundShrinks(apply, q, polls(k), withdrawn(k));
      var q' := Round(apply, q, polls(k), withdrawn(k));
      var taken := Taken(q.carried, q.queue, polls(k), withdrawn(k));
      AcceptedBag(apply, q', polls, withdrawn, k + 1);
      QueueSplits(q.carried, q.queue, polls(k), withdrawn(k));
      TakenBag(taken, q'.queue, withdrawn(k), Accepted(apply, q', polls, withdrawn, k + 1));
    }
  }

  // ---------------------------------------------------------------- in order, if nobody is late

  /** One round keeps what the requests in it and those after it mean. */
  lemma RoundMeans<S>(apply: Handler<S>, q: State<S>, claimed: seq<Request>, rest: seq<Request>, later: seq<Request>)
    requires Unique(Bag(claimed + later))
    ensures var q' := Ran(apply, q, claimed, rest);
            SameMeaning(apply, q.store, q.told, claimed + later, q'.store, q'.told, q'.carried + later)
  {
    var c := Culprit(apply, q.store, claimed);
    if c.Some? {
      AbortKeeps(apply, q.store, q.told, claimed, c.value, later);
    } else {
      CommitKeeps(apply, q.store, q.told, claimed, later);
      assert [] + later == later;
    }
  }

  lemma {:induction false} RoundsInOrder<S>(apply: Handler<S>, q: State<S>, polls: nat -> nat,
                                            withdrawn: nat -> nat -> bool, k: nat)
    requires Waiting(q) && NeverLate(apply, q, polls, withdrawn, k)
    ensures SameAsAlone(apply, q, polls, withdrawn, k, q.carried + Accepted(apply, q, polls, withdrawn, k))
    decreases |q.carried| + |q.queue|
  {
    if Busy(q) {
      RoundShrinks(apply, q, polls(k), withdrawn(k));
      RoundKeepsWaiting(apply, q, polls(k), withdrawn(k));
      var q' := Round(apply, q, polls(k), withdrawn(k));
      var later := Accepted(apply, q', polls, withdrawn, k + 1);
      RoundsInOrder(apply, q', polls, withdrawn, k + 1);
      AcceptedBag(apply, q', polls, withdrawn, k + 1);
      RoundInOrder(apply, q, polls(k), withdrawn(k), later);
    } else {
      assert q.carried + Accepted(apply, q, polls, withdrawn, k) == [];
    }
  }

  lemma RoundInOrder<S>(apply: Handler<S>, q: State<S>, polls: nat, withdrawn: nat -> bool, later: seq<Request>)
    requires Waiting(q) && AllStanding(q.carried, withdrawn)
    requires Bag(later) <= Bag(Rest(q.carried, q.queue, polls, withdrawn))
    ensures var q' := Round(apply, q, polls, withdrawn);
            var joined := Standing(Taken(q.carried, q.queue, polls, withdrawn), withdrawn);
            SameMeaning(apply, q.store, q.told, q.carried + (joined + later), q'.store, q'.told, q'.carried + later)
  {
    var claimed, rest := Batch(q.carried, q.queue, polls, withdrawn), Rest(q.carried, q.queue, polls, withdrawn);
    var joined := Standing(Taken(q.carried, q.queue, polls, withdrawn), withdrawn);
    BatchBag(q.carried, q.queue, polls, withdrawn);
    BagsApart(Bag(claimed), Bag(rest), Bag(q.carried + q.queue));
    UniqueRest(claimed, later, Bag(rest));
    RoundMeans(apply, q, claimed, rest, later);
    assert q.carried + (joined + later) == claimed + later;
  }

  // ---------------------------------------------------------------- and not otherwise

  /** Who neither waits nor has been told anything is never told anything. */
  lemma {:induction false} UntoldForever<S>(apply: Handler<S>, q: State<S>, polls: nat -> nat,
                                            withdrawn: nat -> nat -> bool, k: nat, t: nat)
    requires t !in q.told && t !in Bag(q.carried + q.queue)
    ensures t !in Final(apply, q, polls, withdrawn, k).told
    decreases |q.carried| + |q.queue|
  {
    if Busy(q) {
      RoundShrinks(apply, q, polls(k), withdrawn(k));
      BatchBag(q.carried, q.queue, polls(k), withdrawn(k));
      GoneForRound(apply, q, polls(k), withdrawn(k), t);
      UntoldForever(apply, Round(apply, q, polls(k), withdrawn(k)), polls, withdrawn, k + 1, t);
    }
  }

  lemma GoneForRound<S>(apply: Handler<S>, q: State<S>, polls: nat, withdrawn: nat -> bool, t: nat)
    requires t !in q.told
    requires t !in Bag(Batch(q.carried, q.queue, polls, withdrawn))
    requires t !in Bag(Rest(q.carried, q.queue, polls, withdrawn))
    ensures var q' := Round(apply, q, polls, withdrawn); t !in q'.told && t !in Bag(q'.carried + q'.queue)
  {
    var q' := Round(apply, q, polls, withdrawn);
    RanAnswers(apply, q, Batch(q.carried, q.queue, polls, withdrawn), q'.queue);
    BagSplit(q'.carried, q'.queue);
  }

  /** A request withdrawn after an aborted round had claimed it. */
  lemma LateIsGone<S>(apply: Handler<S>, q: State<S>, polls: nat, withdrawn: nat -> bool) returns (t: nat)
    requires Waiting(q) && !AllStanding(q.carried, withdrawn)
    ensures t in Bag(q.carried)
    ensures var q' := Round(apply, q, polls, withdrawn); t !in q'.told && t !in Bag(q'.carried + q'.queue)
  {
    var r :| r in q.carried && withdrawn(r.ticket);
    t := r.ticket;
    var taken, rest := Taken(q.carried, q.queue, polls, withdrawn), Rest(q.carried, q.queue, polls, withdrawn);
    TicketIn(q.carried, t);
    BagSplit(q.carried, q.queue);
    BagsApart(Bag(q.carried), Bag(q.queue), Bag(q.carried + q.queue));
    QueueSplits(q.carried, q.queue, polls, withdrawn);
    BagSplit(taken, rest);
    BagSplit(Standing(q.carried, withdrawn), Standing(taken, withdrawn));
    WithdrawnIsOut(q.carried, withdrawn, t);
    WithdrawnIsOut(taken, withdrawn, t);
    GoneForRound(apply, q, polls, withdrawn, t);
  }

  lemma WithdrawnIsOut(requests: seq<Request>, withdrawn: nat -> bool, t: nat)
    requires withdrawn(t)
    ensures t !in Bag(Standing(requests, withdrawn))
  {
    TicketIn(Standing(requests, withdrawn), t);
  }

  lemma TicketIn(requests: seq<Request>, t: nat)
    ensures t in Bag(requests) <==> exists r :: r in requests && r.ticket == t
  {
    if t in Tickets(requests) {
      var i :| 0 <= i < |requests| && Tickets(requests)[i] == t;
      assert requests[i] in requests;
    }
    forall r | r in requests && r.ticket == t ensures t in Tickets(requests) {
      var i :| 0 <= i < |requests| && requests[i] == r;
      assert Tickets(requests)[i] == t;
    }
  }

  /** Somebody who stood at first is never told anything, if somebody is late. */
  lemma {:induction false} SomebodyUntold<S>(apply: Handler<S>, q: State<S>, polls: nat -> nat,
                                             withdrawn: nat -> nat -> bool, k: nat) returns (t: nat)
    requires Waiting(q) && !NeverLate(apply, q, polls, withdrawn, k)
    ensures t in Bag(q.carried + Accepted(apply, q, polls, withdrawn, k))
    ensures t !in Final(apply, q, polls, withdrawn, k).told
    decreases |q.carried| + |q.queue|
  {
    RoundShrinks(apply, q, polls(k), withdrawn(k));
    RoundKeepsWaiting(apply, q, polls(k), withdrawn(k));
    var q' := Round(apply, q, polls(k), withdrawn(k));
    var later := Accepted(apply, q', polls, withdrawn, k + 1);
    if !AllStanding(q.carried, withdrawn(k)) {
      t := LateIsGone(apply, q, polls(k), withdrawn(k));
      UntoldForever(apply, q', polls, withdrawn, k + 1, t);
    } else {
      t := SomebodyUntold(apply, q', polls, withdrawn, k + 1);
      CarriedStood(apply, q, polls(k), withdrawn(k), later);
    }
    BagSplit(q.carried, Accepted(apply, q, polls, withdrawn, k));
  }

  /** Whoever is carried over or accepted later was carried or accepted now or is accepted later. */
  lemma CarriedStood<S>(apply: Handler<S>, q: State<S>, polls: nat, withdrawn: nat -> bool, later: seq<Request>)
    ensures var q' := Round(apply, q, polls, withdrawn);
            var joined := Standing(Taken(q.carried, q.queue, polls, withdrawn), withdrawn);
            Bag(q'.carried + later) <= Bag(q.carried) + Bag(joined + later)
  {
    var q' := Round(apply, q, polls, withdrawn);
    var joined := Standing(Taken(q.carried, q.queue, polls, withdrawn), withdrawn);
    RanAnswers(apply, q, Batch(q.carried, q.queue, polls, withdrawn), q'.queue);
    BagSplit(Standing(q.carried, withdrawn), joined);
    StandingBag(q.carried, withdrawn);
    BagSplit(q'.carried, later);
    BagSplit(joined, later);
  }

  /**
   Whatever the handlers, the polls and the withdrawals: the rounds end as if each request that stood
   when it was first looked at had run alone, in queue order, exactly when none of these is withdrawn
   after a round that claimed it has aborted.
   */
  lemma SameAsAloneExactly<S>(apply: Handler<S>, q: State<S>, polls: nat -> nat, withdrawn: nat -> nat -> bool, k: nat)
    requires Waiting(q)
    ensures SameAsAlone(apply, q, polls, withdrawn, k, q.carried + Accepted(apply, q, polls, withdrawn, k))
            <==> NeverLate(apply, q, polls, withdrawn, k)
  {
    if NeverLate(apply, q, polls, withdrawn, k) {
      RoundsInOrder(apply, q, polls, withdrawn, k);
    } else {
      var t := SomebodyUntold(apply, q, polls, withdrawn, k);
      var stood := q.carried + Accepted(apply, q, polls, withdrawn, k);
      AnswersKeys(apply, q.store, stood);
      assert t in Answers(apply, q.store, stood);
    }
  }

  // ---------------------------------------------------------------- who stood at first

  function AllAt(tickets: multiset<nat>, k: nat): map<nat, nat> {
    map t | t in tickets :: k
  }

  /** The round in which each queued ticket is first looked at. */
  ghost function FirstLooks<S>(apply: Handler<S>, q: State<S>, polls: nat -> nat, withdrawn: nat -> nat -> bool, k: nat)
    : map<nat, nat>
    decreases |q.carried| + |q.queue|
  {
    if !Busy(q) then map[]
    else
      RoundShrinks(apply, q, polls(k), withdrawn(k));
      AllAt(Bag(Taken(q.carried, q.queue, polls(k), withdrawn(k))), k)
      + FirstLooks(apply, Round(apply, q, polls(k), withdrawn(k)), polls, withdrawn, k + 1)
  }

  function AtFirstLook(looks: map<nat, nat>, withdrawn: nat -> nat -> bool): nat -> bool {
    t => t in looks && withdrawn(looks[t])(t)
  }

  lemma {:induction false} StandingAgree(requests: seq<Request>, a: nat -> bool, b: nat -> bool)
    requires forall t :: t in Bag(requests) ==> a(t) == b(t)
    ensures Standing(requests, a) == Standing(requests, b)
    decreases |requests|
  {
    if requests != [] {
      BagOff(requests);
      assert requests[0].ticket in Bag(requests);
      StandingAgree(requests[1..], a, b);
    }
  }

  /** `accepted` is what stands of the queue, each request judged in the round that first looks at it. */
  ghost predicate StoodAtFirst(queue: seq<Request>, accepted: seq<Request>, looks: map<nat, nat>,
                               withdrawn: nat -> nat -> bool) {
    && (forall t :: t in looks <==> t in Bag(queue))
    && accepted == Standing(queue, AtFirstLook(looks, withdrawn))
  }

  lemma {:induction false} AcceptedStood<S>(apply: Handler<S>, q: State<S>, polls: nat -> nat,
                                            withdrawn: nat -> nat -> bool, k: nat)
    requires Waiting(q)
    ensures StoodAtFirst(q.queue, Accepted(apply, q, polls, withdrawn, k), FirstLooks(apply, q, polls, withdrawn, k),
                         withdrawn)
    decreases |q.carried| + |q.queue|
  {
    if Busy(q) {
      RoundShrinks(apply, q, polls(k), withdrawn(k));
      RoundKeepsWaiting(apply, q, polls(k), withdrawn(k));
      var q' := Round(apply, q, polls(k), withdrawn(k));
      AcceptedStood(apply, q', polls, withdrawn, k + 1);
      QueueSplits(q.carried, q.queue, polls(k), withdrawn(k));
      BagSplit(q.carried, q.queue);
      BagsApart(Bag(q.carried), Bag(q.queue), Bag(q.carried + q.queue));
      LooksSplit(q.queue, Taken(q.carried, q.queue, polls(k), withdrawn(k)), q'.queue,
                 Accepted(apply, q', polls, withdrawn, k + 1),
                 FirstLooks(apply, q', polls, withdrawn, k + 1), withdrawn, k);
    } else {
      assert Bag(q.queue) == multiset{};
    }
  }

  lemma StandingBoth(taken: seq<Request>, rest: seq<Request>, a: nat -> bool, b: nat -> bool, c: nat -> bool)
    requires forall t :: t in Bag(taken) ==> a(t) == c(t)
    requires forall t :: t in Bag(rest) ==> b(t) == c(t)
    ensures Standing(taken, a) + Standing(rest, b) == Standing(taken + rest, c)
  {
    StandingSplit(taken, rest, c);
    StandingAgree(taken, a, c);
    StandingAgree(rest, b, c);
  }

  lemma LooksMerge(taken: multiset<nat>, rest: multiset<nat>, looks: map<nat, nat>,
                   withdrawn: nat -> nat -> bool, k: nat)
    requires (forall t :: t in looks <==> t in rest) && forall t :: t in taken ==> t !in rest
    ensures var all := AllAt(taken, k) + looks;
            && (forall t :: t in all <==> t in taken + rest)
            && (forall t :: t in taken ==> withdrawn(k)(t) == AtFirstLook(all, withdrawn)(t))
            && (forall t :: t in rest ==> AtFirstLook(looks, withdrawn)(t) == AtFirstLook(all, withdrawn)(t))
  {}

  lemma LooksSplit(queue: seq<Request>, taken: seq<Request>, rest: seq<Request>, accepted: seq<Request>,
                   looks: map<nat, nat>, withdrawn: nat -> nat -> bool, k: nat)
    requires queue == taken + rest && Unique(Bag(queue)) && StoodAtFirst(rest, accepted, looks, withdrawn)
    ensures StoodAtFirst(queue, Standing(taken, withdrawn(k)) + accepted, AllAt(Bag(taken), k) + looks, withdrawn)
  {
    var all := AllAt(Bag(taken), k) + looks;
    BagSplit(taken, rest);
    BagsApart(Bag(taken), Bag(rest), Bag(queue));
    LooksMerge(Bag(taken), Bag(rest), looks, withdrawn, k);
    StandingBoth(taken, rest, withdrawn(k), AtFirstLook(looks, withdrawn), AtFirstLook(all, withdrawn));
  }

  /** Whoever stands when first looked at stands from then on. */
  ghost predicate Decided(looks: map<nat, nat>, withdrawn: nat -> nat -> bool) {
    forall t, j :: t in looks && looks[t] <= j && withdrawn(j)(t) ==> withdrawn(looks[t])(t)
  }

  ghost predicate StandFrom(tickets: multiset<nat>, withdrawn: nat -> nat -> bool, k: nat) {
    forall t, j :: t in tickets && k <= j ==> !withdrawn(j)(t)
  }

  /** Withdrawing a request that is still queued, in whatever round, is never late. */
  lemma {:induction false} QueuedIsNeverLate<S>(apply: Handler<S>, q: State<S>, polls: nat -> nat,
                                                withdrawn: nat -> nat -> bool, k: nat)
    requires Waiting(q) && StandFrom(Bag(q.carried), withdrawn, k)
    requires Decided(FirstLooks(apply, q, polls, withdrawn, k), withdrawn)
    ensures NeverLate(apply, q, polls, withdrawn, k)
    decreases |q.carried| + |q.queue|
  {
    if Busy(q) {
      RoundShrinks(apply, q, polls(k), withdrawn(k));
      QueuedStep(apply, q, polls, withdrawn, k);
      TicketsStand(q.carried, withdrawn, k);
      QueuedIsNeverLate(apply, Round(apply, q, polls(k), withdrawn(k)), polls, withdrawn, k + 1);
    }
  }

  /** A round passes that on to the next: whoever it carries over stands from then on. */
  lemma QueuedStep<S>(apply: Handler<S>, q: State<S>, polls: nat -> nat, withdrawn: nat -> nat -> bool, k: nat)
    requires Waiting(q) && StandFrom(Bag(q.carried), withdrawn, k) && Busy(q)
    requires Decided(FirstLooks(apply, q, polls, withdrawn, k), withdrawn)
    ensures var q' := Round(apply, q, polls(k), withdrawn(k));
            && Waiting(q') && StandFrom(Bag(q'.carried), withdrawn, k + 1)
            && Decided(FirstLooks(apply, q', polls, withdrawn, k + 1), withdrawn)
  {
    var q' := Round(apply, q, polls(k), withdrawn(k));
    var taken := Taken(q.carried, q.queue, polls(k), withdrawn(k));
    RoundKeepsWaiting(apply, q, polls(k), withdrawn(k));
    QueueSplits(q.carried, q.queue, polls(k), withdrawn(k));
    LooksOn(apply, q, polls, withdrawn, k);
    LooksApart(apply, q, q', taken, polls, withdrawn, k + 1);
    DecidedSplit(Bag(taken), FirstLooks(apply, q', polls, withdrawn, k + 1), withdrawn, k);
    CarriedStand(apply, q, polls(k), withdrawn, k);
  }

  lemma LooksOn<S>(apply: Handler<S>, q: State<S>, polls: nat -> nat, withdrawn: nat -> nat -> bool, k: nat)
    requires Busy(q)
    ensures FirstLooks(apply, q, polls, withdrawn, k)
            == AllAt(Bag(Taken(q.carried, q.queue, polls(k), withdrawn(k))), k)
               + FirstLooks(apply, Round(apply, q, polls(k), withdrawn(k)), polls, withdrawn, k + 1)
  {}

  /** What a round looks at first is not looked at first again. */
  lemma LooksApart<S>(apply: Handler<S>, q: State<S>, q': State<S>, taken: seq<Request>, polls: nat -> nat,
                      withdrawn: nat -> nat -> bool, k: nat)
    requires Waiting(q) && Waiting(q') && q.queue == taken + q'.queue
    ensures forall t :: t in Bag(taken) ==> t !in FirstLooks(apply, q', polls, withdrawn, k)
  {
    AcceptedStood(apply, q', polls, withdrawn, k);
    PartsApart(q.carried, taken, q'.queue);
    forall t | t in Bag(taken) ensures t !in FirstLooks(apply, q', polls, withdrawn, k) { assert t !in Bag(q'.queue); }
  }

  /** What is waiting once is in one part of the queue only. */
  lemma PartsApart(carried: seq<Request>, taken: seq<Request>, rest: seq<Request>)
    requires Unique(Bag(carried + (taken + rest)))
    ensures forall t :: t in Bag(taken) ==> t !in Bag(rest)
  {
    BagSplit(carried, taken + rest);
    BagSplit(taken, rest);
    BagsApart(Bag(taken), Bag(rest), Bag(carried + (taken + rest)));
  }

  lemma DecidedSplit(taken: multiset<nat>, looks: map<nat, nat>, withdrawn: nat -> nat -> bool, k: nat)
    requires Decided(AllAt(taken, k) + looks, withdrawn) && forall t :: t in taken ==> t !in looks
    ensures Decided(looks, withdrawn)
    ensures forall t, j :: t in taken && k <= j && withdrawn(j)(t) ==> withdrawn(k)(t)
  {
    var all := AllAt(taken, k) + looks;
    forall t, j | t in looks && looks[t] <= j && withdrawn(j)(t) ensures withdrawn(looks[t])(t) {
      assert t in all && all[t] == looks[t];
    }
    forall t, j | t in taken && k <= j && withdrawn(j)(t) ensures withdrawn(k)(t) { assert t in all && all[t] == k; }
  }

  lemma TicketsStand(requests: seq<Request>, withdrawn: nat -> nat -> bool, k: nat)
    requires StandFrom(Bag(requests), withdrawn, k)
    ensures AllStanding(requests, withdrawn(k))
  {
    forall r | r in requests ensures !withdrawn(k)(r.ticket) { TicketIn(requests, r.ticket); }
  }

  /** What a round carries over stands from then on. */
  lemma CarriedStand<S>(apply: Handler<S>, q: State<S>, polls: nat, withdrawn: nat -> nat -> bool, k: nat)
    requires StandFrom(Bag(q.carried), withdrawn, k)
    requires forall t, j :: t in Bag(Taken(q.carried, q.queue, polls, withdrawn(k))) && k <= j && withdrawn(j)(t) ==>
                            withdrawn(k)(t)
    ensures StandFrom(Bag(Round(apply, q, polls, withdrawn(k)).carried), withdrawn, k)
  {
    var q' := Round(apply, q, polls, withdrawn(k));
    var taken := Taken(q.carried, q.queue, polls, withdrawn(k));
    RanAnswers(apply, q, Batch(q.carried, q.queue, polls, withdrawn(k)), q'.queue);
    BagSplit(Standing(q.carried, withdrawn(k)), Standing(taken, withdrawn(k)));
    StandingBag(q.carried, withdrawn(k));
    StandingBag(taken, withdrawn(k));
    forall t, j | t in Bag(q'.carried) && k <= j ensures !withdrawn(j)(t) {
      if t !in Bag(q.carried) {
        assert t in Bag(taken);
        if withdrawn(k)(t) { WithdrawnIsOut(taken, withdrawn(k), t); WithdrawnIsOut(q.carried, withdrawn(k), t); }
      }
    }
  }

  // ---------------------------------------------------------------- whatever is withdrawn

  /** The batches that were committed, one after the other. */
  ghost function Committed<S>(apply: Handler<S>, q: State<S>, polls: nat -> nat, withdrawn: nat -> nat -> bool, k: nat)
    : seq<Request>
    decreases |q.carried| + |q.queue|
  {
    if !Busy(q) then []
    else
      RoundShrinks(apply, q, polls(k), withdrawn(k));
      var claimed := Batch(q.carried, q.queue, polls(k), withdrawn(k));
      (if Culprit(apply, q.store, claimed).None? then claimed else [])
      + Committed(apply, Round(apply, q, polls(k), withdrawn(k)), polls, withdrawn, k + 1)
  }

  /** The committed requests have the answers of running alone in order; any other answer is a crash. */
  ghost predicate Linear<S(!new)>(apply: Handler<S>, q: State<S>, q': State<S>, committed: seq<Request>) {
    && q'.store == Sequential(apply, q.store, committed)
    && (forall t :: t in q.told ==> t in q'.told && q'.told[t] == q.told[t])
    && (forall t :: t in Answers(apply, q.store, committed) ==>
          t in q'.told && q'.told[t] == Answers(apply, q.store, committed)[t])
    && (forall t :: t in q'.told && t !in q.told && t !in Bag(committed) ==> q'.told[t].Defect?)
  }

  lemma RanIsLinear<S(!new)>(apply: Handler<S>, q: State<S>, claimed: seq<Request>, rest: seq<Request>)
    requires Unique(Bag(claimed)) && forall t :: t in Bag(claimed) ==> t !in q.told
    ensures Linear(apply, q, Ran(apply, q, claimed, rest),
                   if Culprit(apply, q.store, claimed).None? then claimed else [])
  {
    AnswersKeys(apply, q.store, claimed);
    var c := Culprit(apply, q.store, claimed);
    if c.Some? {
      BagWithout(claimed, c.value);
      assert Bag(claimed)[claimed[c.value].ticket] > 0;
    }
  }

  lemma LinearBoth<S(!new)>(apply: Handler<S>, q: State<S>, q': State<S>, q'': State<S>,
                            a: seq<Request>, b: seq<Request>)
    requires Linear(apply, q, q', a) && Linear(apply, q', q'', b)
    requires forall t :: t in Bag(b) ==> t !in q'.told
    ensures Linear(apply, q, q'', a + b)
  {
    SequentialSplit(apply, q.store, a, b);
    AnswersSplit(apply, q.store, a, b);
    AnswersKeys(apply, q.store, a);
    AnswersKeys(apply, q'.store, b);
    BagSplit(a, b);
  }

  /** However requests are withdrawn, store and answers are those of some requests, each run alone in order. */
  lemma {:induction false} RoundsAreLinear<S(!new)>(apply: Handler<S>, q: State<S>, polls: nat -> nat,
                                                    withdrawn: nat -> nat -> bool, k: nat)
    requires Waiting(q)
    ensures Linear(apply, q, Final(apply, q, polls, withdrawn, k), Committed(apply, q, polls, withdrawn, k))
    ensures Bag(Committed(apply, q, polls, withdrawn, k)) <= Bag(q.carried + q.queue)
    decreases |q.carried| + |q.queue|
  {
    if Busy(q) {
      RoundShrinks(apply, q, polls(k), withdrawn(k));
      RoundKeepsWaiting(apply, q, polls(k), withdrawn(k));
      var q' := Round(apply, q, polls(k), withdrawn(k));
      RoundsAreLinear(apply, q', polls, withdrawn, k + 1);
      RoundIsLinear(apply, q, q', Final(apply, q', polls, withdrawn, k + 1), polls(k), withdrawn(k),
                    Committed(apply, q', polls, withdrawn, k + 1));
    }
  }

  lemma RoundIsLinear<S(!new)>(apply: Handler<S>, q: State<S>, q': State<S>, q'': State<S>, polls: nat,
                               withdrawn: nat -> bool, later: seq<Request>)
    requires Waiting(q) && q' == Round(apply, q, polls, withdrawn) && Waiting(q')
    requires Linear(apply, q', q'', later) && Bag(later) <= Bag(q'.carried + q'.queue)
    ensures var claimed := Batch(q.carried, q.queue, polls, withdrawn);
            var committed := (if Culprit(apply, q.store, claimed).None? then claimed else []) + later;
            Linear(apply, q, q'', committed) && Bag(committed) <= Bag(q.carried + q.queue)
  {
    var claimed, rest := Batch(q.carried, q.queue, polls, withdrawn), Rest(q.carried, q.queue, polls, withdrawn);
    var now := if Culprit(apply, q.store, claimed).None? then claimed else [];
    BatchBag(q.carried, q.queue, polls, withdrawn);
    BagsApart(Bag(claimed), Bag(rest), Bag(q.carried + q.queue));
    RanIsLinear(apply, q, claimed, rest);
    LinearBoth(apply, q, q', q'', now, later);
    BagSplit(now, later);
    BagSplit(q'.carried, q'.queue);
    RoundKeepsWaiting(apply, q, polls, withdrawn);
  }

  // ---------------------------------------------------------------- a late withdrawal

  function LateHandler(s: nat, body: nat): Exit<nat> {
    if body == 0 then Success(1, 0) else if s == 1 then Defect(7) else Success(2, 0)
  }

  lemma {:induction false} NeverBackToZero(s: nat, requests: seq<Request>)
    requires s > 0 || requests != []
    ensures Sequential(LateHandler, s, requests) > 0
    decreases |requests|
  {
    if requests != [] {
      var next := Left(s, LateHandler(s, requests[0].body));
      assert next > 0;
      if requests[1..] != [] { NeverBackToZero(next, requests[1..]); }
    }
  }

  const FIRST := Request(1, 0)
  const SECOND := Request(2, 1)
  const BOTH_WAITING: State<nat> := State(0, map[], [], [FIRST, SECOND])
  const SECOND_CRASHED: State<nat> := State(0, map[2 := Defect(7)], [FIRST], [])

  /** The first request is withdrawn from the second round on. */
  function LateWithdrawal(k: nat): nat -> bool {
    t => k >= 1 && t == 1
  }

  function OncePerRound(k: nat): nat {
    1
  }

  lemma LateFirstRound()
    ensures Round(LateHandler, BOTH_WAITING, 1, LateWithdrawal(0)) == SECOND_CRASHED
  {
    var q, withdrawn := BOTH_WAITING, LateWithdrawal(0);
    assert q.queue[1..] == [SECOND] && [SECOND][1..] == [];
    assert Polled(2, [SECOND][1..], 0, withdrawn) == 0;
    assert Looked([], q.queue, 1, withdrawn) == 2;
    assert Standing(q.queue, withdrawn) == [FIRST, SECOND];
    assert Batch([], q.queue, 1, withdrawn) == [FIRST, SECOND];
    assert [FIRST, SECOND][..0] == [] && [FIRST, SECOND][..1] == [FIRST];
    assert Sequential(LateHandler, 0, [FIRST]) == 1 by { assert [FIRST][1..] == []; }
    CulpritIs(LateHandler, 0, [FIRST, SECOND], 1);
  }

  lemma LateSecondRound()
    ensures Round(LateHandler, SECOND_CRASHED, 1, LateWithdrawal(1)) == State(0, map[2 := Defect(7)], [], [])
  {
    assert [FIRST][1..] == [];
    assert Standing([FIRST], LateWithdrawal(1)) == [];
    assert Batch([FIRST], [], 1, LateWithdrawal(1)) == [];
  }

  /**
   Two requests share a batch, the second crashes on what the first did, and the first is withdrawn
   before the next round. The rounds end with nothing done and the second told of its crash: no list
   of requests whatever, run alone in order, leaves that store and tells the second anything.
   */
  lemma LateWithdrawalDiffers()
    ensures && Waiting(BOTH_WAITING) && !NeverLate(LateHandler, BOTH_WAITING, OncePerRound, LateWithdrawal, 0)
            && Final(LateHandler, BOTH_WAITING, OncePerRound, LateWithdrawal, 0)
               == State(0, map[2 := Defect(7)], [], [])
    ensures forall order: seq<Request> ::
              !(Sequential(LateHandler, 0, order) == 0 && 2 in Answers(LateHandler, 0, order))
  {
    LateFirstRound();
    LateRest();
    BothWait();
    NoOrderExplains();
  }

  lemma BothWait()
    ensures Waiting(BOTH_WAITING)
  {
    assert Tickets([] + [FIRST, SECOND]) == [1, 2];
  }

  lemma NoOrderExplains()
    ensures forall order: seq<Request> ::
              !(Sequential(LateHandler, 0, order) == 0 && 2 in Answers(LateHandler, 0, order))
  {
    forall order: seq<Request> | 2 in Answers(LateHandler, 0, order) ensures Sequential(LateHandler, 0, order) != 0 {
      NeverBackToZero(0, order);
    }
  }

  lemma LateRest()
    ensures !NeverLate(LateHandler, SECOND_CRASHED, OncePerRound, LateWithdrawal, 1)
    ensures Final(LateHandler, SECOND_CRASHED, OncePerRound, LateWithdrawal, 1) == State(0, map[2 := Defect(7)], [], [])
  {
    LateSecondRound();
    assert FIRST in SECOND_CRASHED.carried;
  }
}
