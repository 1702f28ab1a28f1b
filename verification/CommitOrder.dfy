/**
 What local commits mean: each request run alone, in order. A request that crashes leaves the store
 as it was, so it can be answered first and the others afterwards.
 */
module CommitOrder {
  /** How a request ends: with the store it leaves, with a typed failure, or with a crash. */
  datatype Exit<S> = Success(store: S, value: nat) | Failure(error: nat) | Defect(cause: nat)

  datatype Request = Request(ticket: nat, body: nat)

  type Handler<!S> = (S, nat) -> Exit<S>

  // ---------------------------------------------------------------- one request at a time

  function Left<S>(s: S, e: Exit<S>): S {
    if e.Success? then e.store else s
  }

  /** The store after each request has run alone, in order. */
  function Sequential<S>(apply: Handler<S>, s: S, requests: seq<Request>): S
    decreases |requests|
  {
    if requests == [] then s
    else Sequential(apply, Left(s, apply(s, requests[0].body)), requests[1..])
  }

  /** What each caller is told when each request runs alone, in order. */
  function Answers<S>(apply: Handler<S>, s: S, requests: seq<Request>): map<nat, Exit<S>>
    decreases |requests|
  {
    if requests == [] then map[]
    else
      var e := apply(s, requests[0].body);
      map[requests[0].ticket := e] + Answers(apply, Left(s, e), requests[1..])
  }

  function Tickets(requests: seq<Request>): seq<nat> {
    seq(|requests|, i requires 0 <= i < |requests| => requests[i].ticket)
  }

  ghost predicate AllStanding(requests: seq<Request>, withdrawn: nat -> bool) {
    forall r :: r in requests ==> !withdrawn(r.ticket)
  }

  /** The requests that are not withdrawn. */
  function Standing(requests: seq<Request>, withdrawn: nat -> bool): (standing: seq<Request>)
    ensures AllStanding(standing, withdrawn)
    ensures AllStanding(requests, withdrawn) ==> standing == requests
    decreases |requests|
  {
    if requests == [] then []
    else (if withdrawn(requests[0].ticket) then [] else [requests[0]]) + Standing(requests[1..], withdrawn)
  }

  lemma {:induction false} SequentialSplit<S>(apply: Handler<S>, s: S, a: seq<Request>, b: seq<Request>)
    ensures Sequential(apply, s, a + b) == Sequential(apply, Sequential(apply, s, a), b)
    decreases |a|
  {
    if a == [] {
      assert a + b == b;
    } else {
      assert (a + b)[1..] == a[1..] + b;
      SequentialSplit(apply, Left(s, apply(s, a[0].body)), a[1..], b);
    }
  }

  lemma MapsAssociate<K, V>(a: map<K, V>, b: map<K, V>, c: map<K, V>)
    ensures (a + b) + c == a + (b + c)
  {}

  lemma {:induction false} AnswersSplit<S>(apply: Handler<S>, s: S, a: seq<Request>, b: seq<Request>)
    ensures Answers(apply, s, a + b) == Answers(apply, s, a) + Answers(apply, Sequential(apply, s, a), b)
    decreases |a|
  {
    if a == [] {
      assert a + b == b;
    } else {
      var e := apply(s, a[0].body);
      assert (a + b)[1..] == a[1..] + b && (a + b)[0] == a[0];
      AnswersSplit(apply, Left(s, e), a[1..], b);
      MapsAssociate(map[a[0].ticket := e], Answers(apply, Left(s, e), a[1..]),
                    Answers(apply, Sequential(apply, s, a), b));
    }
  }

  lemma {:induction false} StandingSplit(a: seq<Request>, b: seq<Request>, withdrawn: nat -> bool)
    ensures Standing(a + b, withdrawn) == Standing(a, withdrawn) + Standing(b, withdrawn)
    decreases |a|
  {
    if a == [] {
      assert a + b == b;
    } else {
      assert (a + b)[1..] == a[1..] + b;
      StandingSplit(a[1..], b, withdrawn);
    }
  }

  lemma {:induction false} AnswersKeys<S>(apply: Handler<S>, s: S, requests: seq<Request>)
    ensures forall t :: t in Answers(apply, s, requests) <==> t in Tickets(requests)
    decreases |requests|
  {
    if requests != [] {
      AnswersKeys(apply, Left(s, apply(s, requests[0].body)), requests[1..]);
      assert Tickets(requests) == [requests[0].ticket] + Tickets(requests[1..]);
    }
  }

  /** A crash leaves the store alone. */
  lemma CulpritLeavesStore<S>(apply: Handler<S>, s: S, before: seq<Request>, culprit: Request, rest: seq<Request>)
    requires apply(Sequential(apply, s, before), culprit.body).Defect?
    ensures Sequential(apply, s, before + [culprit]) == Sequential(apply, s, before)
    ensures Sequential(apply, s, before + [culprit] + rest) == Sequential(apply, s, before + rest)
  {
    SequentialSplit(apply, s, before + [culprit], rest);
    SequentialSplit(apply, s, before, [culprit]);
    SequentialSplit(apply, s, before, rest);
    assert [culprit][1..] == [];
  }

  lemma MapsCommute<K, V>(a: map<K, V>, k: K, v: V, b: map<K, V>)
    requires k !in a && k !in b
    ensures (a + map[k := v]) + b == map[k := v] + (a + b)
  {
  }

  /** Answering the crashed request first and the others afterwards tells everyone the same. */
  lemma CulpritCommutes<S>(apply: Handler<S>, s: S, before: seq<Request>, culprit: Request, rest: seq<Request>)
    requires apply(Sequential(apply, s, before), culprit.body).Defect?
    requires culprit.ticket !in Tickets(before) && culprit.ticket !in Tickets(rest)
    ensures var e := apply(Sequential(apply, s, before), culprit.body);
            Answers(apply, s, before + [culprit] + rest) == map[culprit.ticket := e] + Answers(apply, s, before + rest)
  {
    var mid := Sequential(apply, s, before);
    var e := apply(mid, culprit.body);
    AnswersKeys(apply, s, before);
    AnswersKeys(apply, mid, rest);
    calc {
      Answers(apply, s, before + [culprit] + rest);
      { AnswersSplit(apply, s, before + [culprit], rest); CulpritLeavesStore(apply, s, before, culprit, rest); }
      Answers(apply, s, before + [culprit]) + Answers(apply, mid, rest);
      { AnswersSplit(apply, s, before, [culprit]); AnswerAlone(apply, mid, culprit); }
      Answers(apply, s, before) + map[culprit.ticket := e] + Answers(apply, mid, rest);
      { MapsCommute(Answers(apply, s, before), culprit.ticket, e, Answers(apply, mid, rest)); }
      map[culprit.ticket := e] + (Answers(apply, s, before) + Answers(apply, mid, rest));
      { AnswersSplit(apply, s, before, rest); }
      map[culprit.ticket := e] + Answers(apply, s, before + rest);
    }
  }

  lemma AnswerAlone<S>(apply: Handler<S>, s: S, r: Request)
    ensures Answers(apply, s, [r]) == map[r.ticket := apply(s, r.body)]
    ensures Sequential(apply, s, [r]) == Left(s, apply(s, r.body))
  {
    assert [r][1..] == [];
  }

  /** The tickets, each as often as it occurs. */
  function Bag(requests: seq<Request>): multiset<nat> {
    multiset(Tickets(requests))
  }

  lemma AnswersOn<S>(apply: Handler<S>, s: S, told: map<nat, Exit<S>>, claimed: seq<Request>, i: nat)
    requires i < |claimed|
    ensures var e := apply(Sequential(apply, s, claimed[..i]), claimed[i].body);
            told + Answers(apply, s, claimed[..i + 1])
            == (told + Answers(apply, s, claimed[..i]))[claimed[i].ticket := e]
    ensures Bag(claimed[..i + 1]) == Bag(claimed[..i]) + multiset{claimed[i].ticket}
  {
    assert claimed[..i + 1] == claimed[..i] + [claimed[i]];
    AnswersSplit(apply, s, claimed[..i], [claimed[i]]);
    AnswerAlone(apply, Sequential(apply, s, claimed[..i]), claimed[i]);
    BagOn(claimed[..i], claimed[i]);
  }

  lemma SequentialOn<S>(apply: Handler<S>, s: S, claimed: seq<Request>, i: nat)
    requires i < |claimed|
    ensures var trial := Sequential(apply, s, claimed[..i]);
            Sequential(apply, s, claimed[..i + 1]) == Left(trial, apply(trial, claimed[i].body))
  {
    assert claimed[..i + 1] == claimed[..i] + [claimed[i]];
    SequentialSplit(apply, s, claimed[..i], [claimed[i]]);
    AnswerAlone(apply, Sequential(apply, s, claimed[..i]), claimed[i]);
  }

  lemma BagOn(requests: seq<Request>, r: Request)
    ensures Bag(requests + [r]) == Bag(requests) + multiset{r.ticket}
  {
    assert Tickets(requests + [r]) == Tickets(requests) + [r.ticket];
  }

  lemma BagOff(requests: seq<Request>)
    requires requests != []
    ensures Bag(requests) == multiset{requests[0].ticket} + Bag(requests[1..])
  {
    assert Tickets(requests) == [requests[0].ticket] + Tickets(requests[1..]);
  }

  lemma BagSplit(a: seq<Request>, b: seq<Request>)
    ensures Bag(a + b) == Bag(a) + Bag(b)
  {
    assert Tickets(a + b) == Tickets(a) + Tickets(b);
  }

  /** Tickets only move from what is waiting to what is released. */
  ghost predicate Conserved(released: multiset<nat>, waiting: multiset<nat>,
                            released': multiset<nat>, waiting': multiset<nat>) {
    released' + waiting' == released + waiting
  }

  lemma ConservedBoth(r: multiset<nat>, w: multiset<nat>, r': multiset<nat>, w': multiset<nat>,
                      r'': multiset<nat>, w'': multiset<nat>)
    requires Conserved(r, w, r', w') && Conserved(r', w', r'', w'')
    ensures Conserved(r, w, r'', w'')
  {}

  lemma ConservedOn(r: multiset<nat>, w: multiset<nat>, r': multiset<nat>, w': multiset<nat>, t: nat)
    requires Conserved(r, w, r', w')
    ensures Conserved(r, w + multiset{t}, r' + multiset{t}, w') && Conserved(r, w + multiset{t}, r', w' + multiset{t})
  {
    assert r' + multiset{t} + w' == r' + w' + multiset{t};
  }

  lemma ConservedMove(r: multiset<nat>, w: multiset<nat>, r': multiset<nat>, a: multiset<nat>, b: multiset<nat>, t: nat)
    requires Conserved(r, w, r', a + (multiset{t} + b))
    ensures Conserved(r, w, r' + multiset{t}, a + b) && Conserved(r, w, r', a + multiset{t} + b)
  {
    assert r' + multiset{t} + (a + b) == r' + (a + (multiset{t} + b));
    assert a + multiset{t} + b == a + (multiset{t} + b);
  }

  lemma ConservedWith(r: multiset<nat>, w: multiset<nat>, r': multiset<nat>, w': multiset<nat>, more: multiset<nat>)
    requires Conserved(r, w, r', w')
    ensures Conserved(r, w + more, r', w' + more)
  {
    assert r' + (w' + more) == (r' + w') + more;
    assert r + (w + more) == (r + w) + more;
  }

  lemma ConservedBatch(r: multiset<nat>, w: multiset<nat>, r': multiset<nat>, gone: multiset<nat>, left: multiset<nat>,
                       queue: multiset<nat>)
    requires Conserved(r, w, r', gone + left + queue)
    ensures Conserved(r, w, r' + gone, left + queue)
  {
    assert r' + gone + (left + queue) == r' + (gone + left + queue);
  }

  lemma BagWithout(requests: seq<Request>, i: nat)
    requires i < |requests|
    ensures Bag(requests) == multiset{requests[i].ticket} + Bag(requests[..i] + requests[i + 1..])
  {
    assert requests == requests[..i] + [requests[i]] + requests[i + 1..];
    BagSplit(requests[..i] + [requests[i]], requests[i + 1..]);
    BagOn(requests[..i], requests[i]);
    BagSplit(requests[..i], requests[i + 1..]);
  }

  lemma {:induction false} StandingBag(requests: seq<Request>, withdrawn: nat -> bool)
    ensures Bag(Standing(requests, withdrawn)) <= Bag(requests)
    decreases |requests|
  {
    if requests != [] {
      StandingBag(requests[1..], withdrawn);
      BagOff(requests);
      var rest := Standing(requests[1..], withdrawn);
      if withdrawn(requests[0].ticket) {
        assert Standing(requests, withdrawn) == rest;
      } else {
        BagOff(Standing(requests, withdrawn));
        assert Standing(requests, withdrawn)[1..] == rest;
      }
    }
  }

  lemma UniqueRest(claimed: seq<Request>, rest: seq<Request>, queue: multiset<nat>)
    requires Unique(Bag(claimed) + queue) && Bag(rest) <= queue
    ensures Unique(Bag(claimed + rest))
  {
    BagSplit(claimed, rest);
    forall t ensures Bag(claimed + rest)[t] <= 1 {
      assert (Bag(claimed) + queue)[t] <= 1 && Bag(rest)[t] <= queue[t];
    }
  }

  lemma StandingOn(requests: seq<Request>, r: Request, withdrawn: nat -> bool)
    ensures Standing(requests + [r], withdrawn)
            == Standing(requests, withdrawn) + if withdrawn(r.ticket) then [] else [r]
  {
    StandingSplit(requests, [r], withdrawn);
    assert [r][1..] == [];
  }

  ghost predicate Unique(tickets: multiset<nat>) {
    forall t :: tickets[t] <= 1
  }

  /** What is still to come has the answers and the store that it would have alone, in order. */
  ghost predicate SameMeaning<S>(apply: Handler<S>, s: S, told: map<nat, Exit<S>>, live: seq<Request>,
                                 s': S, told': map<nat, Exit<S>>, live': seq<Request>) {
    && Sequential(apply, s', live') == Sequential(apply, s, live)
    && told' + Answers(apply, s', live') == told + Answers(apply, s, live)
  }

  lemma {:induction false} StandingSize(requests: seq<Request>, withdrawn: nat -> bool)
    ensures |Standing(requests, withdrawn)| <= |requests|
    decreases |requests|
  {
    if requests != [] { StandingSize(requests[1..], withdrawn); }
  }

  lemma CulpritOnce(before: seq<Request>, culprit: Request, after: seq<Request>)
    requires Unique(Bag(before + [culprit] + after))
    ensures culprit.ticket !in Tickets(before) && culprit.ticket !in Tickets(after)
  {
    BagSplit(before + [culprit], after);
    BagOn(before, culprit);
    assert Bag(before + [culprit] + after)[culprit.ticket] <= 1;
    assert Bag(before)[culprit.ticket] == 0 && Bag(after)[culprit.ticket] == 0;
  }

  lemma AbortTells<S>(apply: Handler<S>, s: S, told: map<nat, Exit<S>>, before: seq<Request>, culprit: Request,
                      after: seq<Request>)
    requires apply(Sequential(apply, s, before), culprit.body).Defect?
    requires culprit.ticket !in Tickets(before) && culprit.ticket !in Tickets(after)
    ensures told[culprit.ticket := apply(Sequential(apply, s, before), culprit.body)]
            + Answers(apply, s, before + after)
            == told + Answers(apply, s, before + [culprit] + after)
  {
    var e := apply(Sequential(apply, s, before), culprit.body);
    CulpritCommutes(apply, s, before, culprit, after);
    MapsAssociate(told, map[culprit.ticket := e], Answers(apply, s, before + after));
    assert told[culprit.ticket := e] == told + map[culprit.ticket := e];
  }

  /** An aborted batch has told its culprit what it would have been told alone; the rest is unchanged. */
  lemma AbortKeeps<S>(apply: Handler<S>, s: S, told: map<nat, Exit<S>>, claimed: seq<Request>, i: nat,
                      rest: seq<Request>)
    requires i < |claimed| && apply(Sequential(apply, s, claimed[..i]), claimed[i].body).Defect?
    requires Unique(Bag(claimed + rest))
    ensures var e := apply(Sequential(apply, s, claimed[..i]), claimed[i].body);
            SameMeaning(apply, s, told, claimed + rest,
                        s, told[claimed[i].ticket := e], claimed[..i] + claimed[i + 1..] + rest)
  {
    var before, culprit, after := claimed[..i], claimed[i], claimed[i + 1..] + rest;
    assert claimed + rest == before + [culprit] + after;
    assert claimed[..i] + claimed[i + 1..] + rest == before + after;
    CulpritOnce(before, culprit, after);
    AbortTells(apply, s, told, before, culprit, after);
    CulpritLeavesStore(apply, s, before, culprit, after);
  }

  lemma CommitKeeps<S>(apply: Handler<S>, s: S, told: map<nat, Exit<S>>, claimed: seq<Request>, rest: seq<Request>)
    ensures SameMeaning(apply, s, told, claimed + rest,
                        Sequential(apply, s, claimed), told + Answers(apply, s, claimed), rest)
  {
    SequentialSplit(apply, s, claimed, rest);
    AnswersSplit(apply, s, claimed, rest);
    MapsAssociate(told, Answers(apply, s, claimed), Answers(apply, Sequential(apply, s, claimed), rest));
  }
}
