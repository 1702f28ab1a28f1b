/**
 Local commits: requests are taken from a queue in batches, each batch runs in one transaction, and
 a request that crashes its batch is answered and taken out before the rest is tried again.
 */
module CommitQueue {
  import opened Basics
  import opened CommitOrder
  import opened CommitRounds

  // ---------------------------------------------------------------- every ticket is counted once

  lemma ClaimOn(requests: seq<Request>, i: nat, withdrawn: nat -> bool, claimed: seq<Request>,
                before: multiset<nat>, released: multiset<nat>)
    requires i < |requests| && claimed == Standing(requests[..i], withdrawn)
    requires Conserved(before, Bag(requests[..i]), released, Bag(claimed))
    ensures var r := requests[i];
            && Standing(requests[..i + 1], withdrawn) == claimed + (if withdrawn(r.ticket) then [] else [r])
            && Conserved(before, Bag(requests[..i + 1]), released + multiset{r.ticket}, Bag(claimed))
            && Conserved(before, Bag(requests[..i + 1]), released, Bag(claimed + [r]))
  {
    var r := requests[i];
    assert requests[..i + 1] == requests[..i] + [r];
    StandingOn(requests[..i], r, withdrawn);
    BagOn(requests[..i], r);
    BagOn(claimed, r);
    ConservedOn(before, Bag(requests[..i]), released, Bag(claimed), r.ticket);
  }

  /** What polling has done after it looked at `i` of the queued requests. */
  ghost predicate Polling(initial: seq<Request>, start: seq<Request>, polls: nat, withdrawn: nat -> bool, i: nat,
                          claimed: seq<Request>, queue: seq<Request>, before: multiset<nat>, released: multiset<nat>) {
    && i <= |start| && i <= polls && queue == start[i..] && claimed == initial + Standing(start[..i], withdrawn)
    && Polled(|initial|, start, polls, withdrawn) == i + Polled(|claimed|, queue, polls - i, withdrawn)
    && Conserved(before, Bag(initial) + Bag(start), released, Bag(claimed) + Bag(queue))
  }

  lemma PolledSeq(initial: seq<Request>, start: seq<Request>, i: nat, withdrawn: nat -> bool)
    requires i < |start|
    ensures initial + Standing(start[..i + 1], withdrawn)
            == initial + Standing(start[..i], withdrawn) + (if withdrawn(start[i].ticket) then [] else [start[i]])
  {
    assert start[..i + 1] == start[..i] + [start[i]];
    StandingOn(start[..i], start[i], withdrawn);
  }

  /** The head of the queue is either claimed or released. */
  lemma HeadMoves(before: multiset<nat>, whole: multiset<nat>, released: multiset<nat>, claimed: seq<Request>,
                  queue: seq<Request>)
    requires queue != [] && Conserved(before, whole, released, Bag(claimed) + Bag(queue))
    ensures var r := queue[0];
            && Conserved(before, whole, released + multiset{r.ticket}, Bag(claimed) + Bag(queue[1..]))
            && Conserved(before, whole, released, Bag(claimed + [r]) + Bag(queue[1..]))
  {
    BagOn(claimed, queue[0]);
    BagOff(queue);
    ConservedMove(before, whole, released, Bag(claimed), Bag(queue[1..]), queue[0].ticket);
  }

  lemma PollingOn(initial: seq<Request>, start: seq<Request>, polls: nat, withdrawn: nat -> bool, i: nat,
                  claimed: seq<Request>, queue: seq<Request>, before: multiset<nat>, released: multiset<nat>)
    requires Polling(initial, start, polls, withdrawn, i, claimed, queue, before, released)
    requires |claimed| < MAXIMUM_COMMIT_BATCH && i < polls && queue != []
    ensures var r := queue[0];
            if withdrawn(r.ticket)
            then
              Polling(initial, start, polls, withdrawn, i + 1, claimed, queue[1..], before,
                      released + multiset{r.ticket})
            else Polling(initial, start, polls, withdrawn, i + 1, claimed + [r], queue[1..], before, released)
  {
    var r := queue[0];
    assert queue[1..] == start[i + 1..];
    PolledSeq(initial, start, i, withdrawn);
    HeadMoves(before, Bag(initial) + Bag(start), released, claimed, queue);
  }

  // ---------------------------------------------------------------- rounds

  /** Taking the head of the queue first makes no difference to a round. */
  lemma HeadFirst<S>(apply: Handler<S>, s: S, told: map<nat, Exit<S>>, head: Request, rest: seq<Request>, polls: nat,
                     withdrawn: nat -> bool)
    ensures Round(apply, State(s, told, [head], rest), polls, withdrawn)
            == Round(apply, State(s, told, [], [head] + rest), polls, withdrawn)
  {
    HeadFirstLooks(head, rest, polls, withdrawn);
    HeadFirstClaims(head, rest, polls, withdrawn);
    RoundIs(apply, State(s, told, [head], rest), polls, withdrawn);
    RoundIs(apply, State(s, told, [], [head] + rest), polls, withdrawn);
    RunAnyway(apply, s, told, [head], rest, [], [head] + rest, Batch([head], rest, polls, withdrawn),
              Rest([head], rest, polls, withdrawn));
  }

  lemma RoundIs<S>(apply: Handler<S>, q: State<S>, polls: nat, withdrawn: nat -> bool)
    ensures Round(apply, q, polls, withdrawn)
            == Ran(apply, q, Batch(q.carried, q.queue, polls, withdrawn), Rest(q.carried, q.queue, polls, withdrawn))
  {}

  /** What a batch does is a matter of the batch, not of where its requests came from. */
  lemma RunAnyway<S>(apply: Handler<S>, s: S, told: map<nat, Exit<S>>, carried: seq<Request>, queue: seq<Request>,
                     other: seq<Request>, otherQueue: seq<Request>, claimed: seq<Request>, rest: seq<Request>)
    ensures Ran(apply, State(s, told, carried, queue), claimed, rest)
            == Ran(apply, State(s, told, other, otherQueue), claimed, rest)
  {}

  lemma HeadFirstLooks(head: Request, rest: seq<Request>, polls: nat, withdrawn: nat -> bool)
    ensures Looked([], [head] + rest, polls, withdrawn) == Looked([head], rest, polls, withdrawn) + 1
  {
    var queue := [head] + rest;
    assert queue[0] == head && queue[1..] == rest && [head][1..] == [];
  }

  lemma HeadFirstClaims(head: Request, rest: seq<Request>, polls: nat, withdrawn: nat -> bool)
    requires Looked([], [head] + rest, polls, withdrawn) == Looked([head], rest, polls, withdrawn) + 1
    ensures Batch([head], rest, polls, withdrawn) == Batch([], [head] + rest, polls, withdrawn)
    ensures Rest([head], rest, polls, withdrawn) == Rest([], [head] + rest, polls, withdrawn)
  {
    var n := Looked([head], rest, polls, withdrawn);
    HeadOff(head, rest, n);
    StandingSplit([head], rest[..n], withdrawn);
    assert Standing([], withdrawn) + Standing([head] + rest[..n], withdrawn) == Standing([head] + rest[..n], withdrawn);
  }

  lemma HeadOff(head: Request, rest: seq<Request>, n: nat)
    requires n <= |rest|
    ensures ([head] + rest)[..n + 1] == [head] + rest[..n] && ([head] + rest)[n + 1..] == rest[n..]
  {}

  lemma NothingRan<S>(apply: Handler<S>, q: State<S>, rest: seq<Request>)
    ensures Ran(apply, q, [], rest) == State(q.store, q.told, [], rest)
  {
    assert Culprit(apply, q.store, []).None?;
    assert q.told + map[] == q.told;
  }

  class CommitQueue<S(!new)> {
    const apply: Handler<S>
    var store: S
    var queue: seq<Request>
    var told: map<nat, Exit<S>>
    var released: multiset<nat>

    ghost function Current(carried: seq<Request>): State<S>
      reads this
    {
      State(store, told, carried, queue)
    }

    constructor (apply: Handler<S>, store: S, queue: seq<Request>)
      ensures this.apply == apply && this.store == store && this.queue == queue
      ensures told == map[] && released == multiset{}
    {
      this.apply, this.store, this.queue, told, released := apply, store, queue, map[], multiset{};
    }

    /** Answers the request and releases its ticket. */
    method Settle(r: Request, e: Exit<S>)
      modifies `told, `released
      ensures told == old(told)[r.ticket := e] && released == old(released) + multiset{r.ticket}
    {
      told, released := told[r.ticket := e], released + multiset{r.ticket};
    }

    /** Claims the requests that are not withdrawn; the others are released unanswered. */
    method Claim(requests: seq<Request>, withdrawn: nat -> bool) returns (claimed: seq<Request>)
      modifies `released
      ensures claimed == Standing(requests, withdrawn)
      ensures Conserved(old(released), Bag(requests), released, Bag(claimed))
    {
      claimed := [];
      for i := 0 to |requests|
        invariant claimed == Standing(requests[..i], withdrawn)
        invariant Conserved(old(released), Bag(requests[..i]), released, Bag(claimed))
      {
        var r := requests[i];
        ClaimOn(requests, i, withdrawn, claimed, old(released), released);
        if withdrawn(r.ticket) { released := released + multiset{r.ticket}; } else { claimed := claimed + [r]; }
      }
      assert requests[..|requests|] == requests;
    }

    /** Fills the batch from the queue, as long as there is room and the queue has something. */
    method Poll(initial: seq<Request>, polls: nat, withdrawn: nat -> bool) returns (claimed: seq<Request>)
      modifies `queue, `released
      ensures var n := Polled(|initial|, old(queue), polls, withdrawn);
              claimed == initial + Standing(old(queue)[..n], withdrawn) && queue == old(queue)[n..]
      ensures Conserved(old(released), Bag(initial) + Bag(old(queue)), released, Bag(claimed) + Bag(queue))
    {
      claimed := initial;
      var polled := 0;
      while |claimed| < MAXIMUM_COMMIT_BATCH && polled < polls && queue != []
        invariant Polling(initial, old(queue), polls, withdrawn, polled, claimed, queue, old(released), released)
        decreases |queue|
      {
        PollingOn(initial, old(queue), polls, withdrawn, polled, claimed, queue, old(released), released);
        var next := queue[0];
        queue, polled := queue[1..], polled + 1;
        if withdrawn(next.ticket) {
          released := released + multiset{next.ticket};
        } else {
          claimed := claimed + [next];
        }
      }
    }

    /** Claims what the last batch carried over and, unless nothing of it stands, what the queue has. */
    method ClaimBatch(initial: seq<Request>, polls: nat, withdrawn: nat -> bool) returns (claimed: seq<Request>)
      requires initial != []
      modifies `queue, `released
      ensures claimed == Batch(initial, old(queue), polls, withdrawn)
      ensures queue == Rest(initial, old(queue), polls, withdrawn)
      ensures Conserved(old(released), Bag(initial) + Bag(old(queue)), released, Bag(claimed) + Bag(queue))
    {
      claimed := Claim(initial, withdrawn);
      ConservedWith(old(released), Bag(initial), released, Bag(claimed), Bag(queue));
      if claimed != [] {
        ghost var r, w := released, Bag(claimed) + Bag(queue);
        claimed := Poll(claimed, polls, withdrawn);
        ConservedBoth(old(released), Bag(initial) + Bag(old(queue)), r, w, released, Bag(claimed) + Bag(queue));
      }
    }

    /** Runs the batch in one transaction. The first crash rolls it back and is answered at once. */
    method RunBatch(claimed: seq<Request>) returns (culprit: Option<nat>)
      modifies `store, `told, `released
      ensures culprit == Culprit(apply, old(store), claimed)
      ensures culprit.None? ==>
                && store == Sequential(apply, old(store), claimed)
                && told == old(told) + Answers(apply, old(store), claimed)
                && released == old(released) + Bag(claimed)
      ensures culprit.Some? ==>
                && culprit.value < |claimed| && store == old(store)
                && var r := claimed[culprit.value];
                   var e := apply(Sequential(apply, store, claimed[..culprit.value]), r.body);
                   told == old(told)[r.ticket := e] && released == old(released) + multiset{r.ticket}
    {
      var trial, answers := store, [];
      for i := 0 to |claimed|
        invariant store == old(store) && told == old(told) && released == old(released)
        invariant trial == Sequential(apply, store, claimed[..i]) && |answers| == i
        invariant forall j :: 0 <= j < i ==>
                    answers[j] == apply(Sequential(apply, store, claimed[..j]), claimed[j].body)
        invariant forall j :: 0 <= j < i ==> !CrashesAt(apply, store, claimed, j)
      {
        var e := apply(trial, claimed[i].body);
        if e.Defect? {
          CulpritIs(apply, store, claimed, i);
          Settle(claimed[i], e);
          return Some(i);
        }
        answers := answers + [e];
        SequentialOn(apply, store, claimed, i);
        trial := Left(trial, e);
      }
      assert claimed[..|claimed|] == claimed;
      store := trial;
      SettleAll(claimed, answers, old(store));
      culprit := None;
    }

    /** Answers every request of a committed batch. */
    method SettleAll(claimed: seq<Request>, answers: seq<Exit<S>>, ghost from: S)
      requires |answers| == |claimed|
      requires forall j :: 0 <= j < |claimed| ==>
                 answers[j] == apply(Sequential(apply, from, claimed[..j]), claimed[j].body)
      modifies `told, `released
      ensures told == old(told) + Answers(apply, from, claimed) && released == old(released) + Bag(claimed)
    {
      assert Answers(apply, from, claimed[..0]) == map[];
      for i := 0 to |claimed|
        invariant told == old(told) + Answers(apply, from, claimed[..i])
        invariant released == old(released) + Bag(claimed[..i])
      {
        AnswersOn(apply, from, old(told), claimed, i);
        Settle(claimed[i], answers[i]);
      }
      assert claimed[..|claimed|] == claimed;
    }

    /** Runs what was claimed; after a crash the rest of it is carried over. */
    method CommitClaimed(claimed: seq<Request>) returns (carried: seq<Request>)
      modifies `store, `told, `released
      ensures Current(carried) == Ran(apply, old(Current([])), claimed, queue)
      ensures Conserved(old(released), Bag(claimed) + Bag(queue), released, Bag(carried) + Bag(queue))
    {
      ghost var r, w := released, Bag(claimed) + Bag(queue);
      var culprit := RunBatch(claimed);
      if culprit.None? {
        ConservedBatch(r, w, r, Bag(claimed), multiset{}, Bag(queue));
        return [];
      }
      var i := culprit.value;
      carried := claimed[..i] + claimed[i + 1..];
      BagWithout(claimed, i);
      ConservedBatch(r, w, r, multiset{claimed[i].ticket}, Bag(carried), Bag(queue));
    }

    /** One batch: what it carries over has to be tried again without the request that crashed it. */
    method CommitBatch(initial: seq<Request>, polls: nat, withdrawn: nat -> bool) returns (carried: seq<Request>)
      requires initial != []
      modifies `store, `queue, `told, `released
      ensures Current(carried) == Round(apply, old(Current(initial)), polls, withdrawn)
      ensures Conserved(old(released), Bag(initial) + Bag(old(queue)), released, Bag(carried) + Bag(queue))
    {
      ghost var q, r, w := Current(initial), released, Bag(initial) + Bag(queue);
      var claimed := ClaimBatch(initial, polls, withdrawn);
      ghost var r', w' := released, Bag(claimed) + Bag(queue);
      if claimed == [] {
        NothingRan(apply, q, queue);
        return [];
      }
      carried := CommitClaimed(claimed);
      ConservedBoth(r, w, r', w', released, Bag(carried) + Bag(queue));
    }

    method TakeFirst() returns (first: Request)
      requires queue != []
      modifies `queue
      ensures old(queue) == [first] + queue && Bag(old(queue)) == Bag([first]) + Bag(queue)
    {
      first := queue[0];
      assert queue == [first] + queue[1..];
      BagSplit([first], queue[1..]);
      queue := queue[1..];
    }

    /** Runs batches until nothing is carried over. */
    method CommitAll(first: Request, round: nat, polls: nat -> nat, withdrawn: nat -> nat -> bool) returns (next: nat)
      modifies `store, `queue, `told, `released
      ensures |queue| <= |old(queue)|
      ensures Final(apply, Current([]), polls, withdrawn, next)
              == Final(apply, old(Current([first])), polls, withdrawn, round)
      ensures Conserved(old(released), Bag([first]) + Bag(old(queue)), released, Bag(queue))
    {
      var carried := [first];
      next := round;
      while carried != []
        invariant |carried| + |queue| <= 1 + |old(queue)| && (carried == [] ==> |queue| <= |old(queue)|)
        invariant Final(apply, Current(carried), polls, withdrawn, next)
                  == Final(apply, old(Current([first])), polls, withdrawn, round)
        invariant Conserved(old(released), Bag([first]) + Bag(old(queue)), released, Bag(carried) + Bag(queue))
        decreases |carried| + |queue|
      {
        ghost var q, r, w := Current(carried), released, Bag(carried) + Bag(queue);
        RoundShrinks(apply, q, polls(next), withdrawn(next));
        carried := CommitBatch(carried, polls(next), withdrawn(next));
        ConservedBoth(old(released), Bag([first]) + Bag(old(queue)), r, w, released, Bag(carried) + Bag(queue));
        next := next + 1;
      }
    }

    /** Takes the next request and commits it with whatever else is claimed. */
    method CommitNext(round: nat, polls: nat -> nat, withdrawn: nat -> nat -> bool) returns (next: nat)
      requires queue != []
      modifies `store, `queue, `told, `released
      ensures |queue| < |old(queue)|
      ensures Final(apply, Current([]), polls, withdrawn, next)
              == Final(apply, old(Current([])), polls, withdrawn, round)
      ensures Conserved(old(released), Bag(old(queue)), released, Bag(queue))
    {
      var first := TakeFirst();
      HeadFirst(apply, store, told, first, queue, polls(round), withdrawn(round));
      next := CommitAll(first, round, polls, withdrawn);
    }

    /**
     Works the queue off and releases each ticket once. The store and the answers are those of running
     each request that stood when first looked at alone, in queue order, exactly when none of these is
     withdrawn later, after a round that claimed it has aborted.
     */
    method CommitQueued(polls: nat -> nat, withdrawn: nat -> nat -> bool)
      requires Unique(released + Bag(queue)) && forall t :: t in told ==> t in released
      modifies `store, `queue, `told, `released
      ensures Current([]) == Final(apply, old(Current([])), polls, withdrawn, 0) && queue == []
      ensures released == old(released) + Bag(old(queue))
      ensures var q := old(Current([]));
              var stood := Stood(apply, q, polls, withdrawn);
              NeverLate(apply, q, polls, withdrawn, 0)
              <==> store == Sequential(apply, q.store, stood) && told == q.told + Answers(apply, q.store, stood)
    {
      QueueWaits(Current([]), released);
      AloneExactly(apply, Current([]), polls, withdrawn);
      WorkOff(polls, withdrawn);
    }

    /** The loop over the queue. */
    method WorkOff(polls: nat -> nat, withdrawn: nat -> nat -> bool)
      modifies `store, `queue, `told, `released
      ensures Current([]) == Final(apply, old(Current([])), polls, withdrawn, 0) && queue == []
      ensures released == old(released) + Bag(old(queue))
    {
      var round := 0;
      while queue != []
        invariant Final(apply, Current([]), polls, withdrawn, round)
                  == Final(apply, old(Current([])), polls, withdrawn, 0)
        invariant Conserved(old(released), Bag(old(queue)), released, Bag(queue))
        decreases |queue|
      {
        ghost var r, w := released, Bag(queue);
        round := CommitNext(round, polls, withdrawn);
        ConservedBoth(old(released), Bag(old(queue)), r, w, released, Bag(queue));
      }
    }
  }

  /** The queued requests that stand when they are first looked at. */
  ghost function Stood<S>(apply: Handler<S>, q: State<S>, polls: nat -> nat, withdrawn: nat -> nat -> bool)
    : seq<Request>
  {
    Standing(q.queue, AtFirstLook(FirstLooks(apply, q, polls, withdrawn, 0), withdrawn))
  }

  lemma AloneExactly<S>(apply: Handler<S>, q: State<S>, polls: nat -> nat, withdrawn: nat -> nat -> bool)
    requires q.carried == [] && Waiting(q)
    ensures NeverLate(apply, q, polls, withdrawn, 0)
            <==> SameAsAlone(apply, q, polls, withdrawn, 0, Stood(apply, q, polls, withdrawn))
  {
    var accepted := Accepted(apply, q, polls, withdrawn, 0);
    assert q.carried + accepted == accepted;
    SameAsAloneExactly(apply, q, polls, withdrawn, 0);
    AcceptedStood(apply, q, polls, withdrawn, 0);
    assert Stood(apply, q, polls, withdrawn) == accepted;
  }

  lemma QueueWaits<S>(q: State<S>, released: multiset<nat>)
    requires q.carried == [] && Unique(released + Bag(q.queue)) && forall t :: t in q.told ==> t in released
    ensures Waiting(q)
  {
    assert q.carried + q.queue == q.queue;
    BagsApart(released, Bag(q.queue), released + Bag(q.queue));
  }
}
