/**
 Quarantined mutations, the resubmissions that replace them and the cancellation chains that run
 through both. Mutations are named by their local sequences. `claimed` remembers every mutation
 that was ever handed to the server.
 */
module Quarantine {
  import opened Basics

  datatype Store = Store(
    pending: set<nat>,
    receipted: set<nat>,
    quarantine: set<nat>,
    links: map<nat, nat>,
    cancellations: map<nat, nat>,
    claimed: set<nat>,
    next: nat)

  /** The errors of these operations. The last three say that the tables contradict each other. */
  datatype Error =
    | NotFound | Conflict | Rejected | Refused | Unavailable | MissingReplacement | MissingCurrent | DuplicateRow

  predicate Corrupt(e: Error) {
    e.MissingReplacement? || e.MissingCurrent? || e.DuplicateRow?
  }

  datatype Outcome<T> = Done(store: Store, value: T) | Failed(error: Error)

  // ---------------------------------------------------------------- invariant

  /** A replacement is newer than what it replaces, was never submitted, and is still unresolved. */
  ghost predicate Replaces(s: Store, original: nat, replacement: nat) {
    && original in s.quarantine && original < replacement
    && replacement !in s.claimed && replacement !in s.receipted
    && (replacement in s.pending || replacement in s.quarantine)
  }

  ghost predicate LinksHold(s: Store) {
    && (forall o :: o in s.links ==> Replaces(s, o, s.links[o]))
    && (forall o, p :: o in s.links && p in s.links && s.links[o] == s.links[p] ==> o == p)
  }

  /** A resolved root never comes back; its current mutation waits in quarantine, replacing nothing. */
  ghost predicate CancellationsHold(s: Store) {
    && (forall r :: r in s.cancellations ==>
          && s.cancellations[r] in s.quarantine && s.cancellations[r] !in s.links.Values
          && r < s.next && r !in s.quarantine && (r in s.pending ==> r in s.receipted))
    && (forall r, q ::
          r in s.cancellations && q in s.cancellations && s.cancellations[r] == s.cancellations[q] ==> r == q)
  }

  ghost predicate Valid(s: Store) {
    && s.pending !! s.quarantine && s.receipted <= s.pending
    && (forall m :: m in s.pending || m in s.quarantine || m in s.claimed ==> m < s.next)
    && LinksHold(s) && CancellationsHold(s)
  }

  // ---------------------------------------------------------------- operations

  /** Only what precedes every quarantined mutation is submitted. */
  predicate Submittable(s: Store, m: nat) {
    m in s.pending && forall q :: q in s.quarantine ==> m < q
  }

  /** What a caller asks for: the content already resubmitted, and something the outbox admits. */
  datatype Request = Request(same: bool, admitted: bool)

  /** The pending mutation a quarantined one was resubmitted as: the recorded one, or a new one. */
  function Ensured(s: Store, m: nat, q: Request): Outcome<nat> {
    if m !in s.quarantine then Failed(NotFound)
    else if m in s.links then
      if s.links[m] !in s.pending + s.quarantine then Failed(MissingReplacement)
      else if !q.same then Failed(Conflict)
      else if s.links[m] in s.pending then Done(s, s.links[m])
      else Failed(Rejected)
    else if !q.admitted then Failed(Refused)
    else if s.next in s.links.Values then Failed(DuplicateRow)
    else Done(s.(pending := s.pending + {s.next}, links := s.links[m := s.next], next := s.next + 1), s.next)
  }

  /** The replacement that goes down with a mutation, moved to quarantine if it was pending. */
  function CancelReplacement(s: Store, m: nat, preserves: bool): Outcome<Option<nat>> {
    if m !in s.links || preserves then Done(s, None)
    else
      var r := s.links[m];
      if r in s.pending then
        if r in s.quarantine then Failed(DuplicateRow)
        else Done(s.(pending := s.pending - {r}, quarantine := s.quarantine + {r}), Some(r))
      else if r in s.quarantine then Done(s, Some(r))
      else Failed(MissingReplacement)
  }

  function RootsOf(s: Store, current: nat): set<nat> {
    set r | r in s.cancellations && s.cancellations[r] == current
  }

  /** The chain that arrived at `m` moves on to what was canceled with it, starts there, or ends. */
  function MoveCancellation(s: Store, m: nat, canceled: Option<nat>): Outcome<Option<nat>> {
    match canceled
    case None => Done(s.(cancellations := s.cancellations - RootsOf(s, m)), None)
    case Some(c) =>
      if c in s.cancellations.Values then Failed(DuplicateRow)
      else if RootsOf(s, m) != {} then
        Done(s.(cancellations :=
                  map r | r in s.cancellations :: if s.cancellations[r] == m then c else s.cancellations[r]), canceled)
      else if m in s.cancellations then Failed(DuplicateRow)
      else Done(s.(cancellations := s.cancellations[m := c]), canceled)
  }

  function Return(s: Store, m: nat): Store {
    s.(pending := s.pending + {m}, receipted := s.receipted + {m}, quarantine := s.quarantine - {m},
       links := s.links - {m})
  }

  /** A quarantined mutation goes back to the outbox with its receipt. */
  function Resolve(s: Store, m: nat, preserves: bool): Outcome<Option<nat>> {
    if m !in s.quarantine then Failed(NotFound)
    else match CancelReplacement(s, m, preserves)
      case Failed(e) => Failed(e)
      case Done(t, canceled) =>
        match MoveCancellation(t, m, canceled)
        case Failed(e) => Failed(e)
        case Done(u, _) => if m in u.pending then Failed(DuplicateRow) else Done(Return(u, m), canceled)
  }

  /** Where an interrupted cancellation is to go on. */
  function Continuation(s: Store, root: nat): Outcome<Option<nat>> {
    if root !in s.cancellations then Done(s, None)
    else if s.cancellations[root] in s.quarantine then Done(s, Some(s.cancellations[root]))
    else Failed(MissingCurrent)
  }

  /** What goes on in the background of a quarantine operation. */
  datatype Background = Allocate | Claim(mutation: nat) | Receive(mutation: nat) | Settle(mutation: nat)

  datatype Step =
    | Other(other: Background)
    | SetAside(mutation: nat)
    | Resubmit(mutation: nat, request: Request)
    | ResolveWith(mutation: nat, preserves: bool)

  /** Receipts come for claimed mutations, and rows leave the outbox with one. */
  function Proceed(s: Store, o: Background): Store {
    match o
    case Allocate => s.(pending := s.pending + {s.next}, next := s.next + 1)
    case Claim(m) => if Submittable(s, m) then s.(claimed := s.claimed + {m}) else s
    case Receive(m) => if m in s.pending && m in s.claimed then s.(receipted := s.receipted + {m}) else s
    case Settle(m) => if m in s.receipted then s.(pending := s.pending - {m}, receipted := s.receipted - {m}) else s
  }

  function StoreOf<T>(s: Store, o: Outcome<T>): Store {
    if o.Done? then o.store else s
  }

  /** A row without a receipt may be set aside when the schema changes under it. */
  function Next(s: Store, step: Step): Store {
    match step
    case Other(o) => Proceed(s, o)
    case SetAside(m) =>
      if m in s.pending && m !in s.receipted then s.(pending := s.pending - {m}, quarantine := s.quarantine + {m})
      else s
    case Resubmit(m, q) => StoreOf(s, Ensured(s, m, q))
    case ResolveWith(m, preserves) => StoreOf(s, Resolve(s, m, preserves))
  }

  // ---------------------------------------------------------------- what a caller sees

  datatype Result<T> = Ok(value: T) | Err(error: Error)

  function ResultOf<T>(o: Outcome<T>): Result<T> {
    if o.Done? then Ok(o.value) else Err(o.error)
  }

  /** The answers to asking for a resubmission in consistent tables, each with its reason and effect. */
  ghost predicate Answered(s: Store, m: nat, q: Request, r: Result<nat>, t: Store) {
    match r
    case Ok(c) =>
      && m in s.quarantine
      && (m in s.links ==> q.same && c == s.links[m] && c in s.pending && t == s)
      && (m !in s.links ==>
            && q.admitted && c == s.next && t.pending == s.pending + {c} && t.links == s.links[m := c]
            && t.next == c + 1 && t.receipted == s.receipted && t.quarantine == s.quarantine
            && t.cancellations == s.cancellations && t.claimed == s.claimed)
    case Err(e) =>
      && t == s
      && (e.NotFound? <==> m !in s.quarantine)
      && (e.Conflict? <==> m in s.quarantine && m in s.links && !q.same)
      && (e.Rejected? <==> m in s.quarantine && m in s.links && q.same && s.links[m] !in s.pending)
      && (e.Refused? <==> m in s.quarantine && m !in s.links && !q.admitted)
      && (e.NotFound? || e.Conflict? || e.Rejected? || e.Refused?)
  }

  /** What becomes of the cancellations when `m` is resolved and `canceled` goes down with it. */
  ghost predicate Moved(s: map<nat, nat>, m: nat, canceled: Option<nat>, t: map<nat, nat>) {
    && (forall r :: r in s && s[r] != m ==> r in t && t[r] == s[r])
    && (canceled.None? ==> forall r :: r in t ==> r in s && s[r] != m)
    && (canceled.Some? ==>
          && (forall r :: r in s && s[r] == m ==> r in t && t[r] == canceled.value)
          && ((forall r :: r in s ==> s[r] != m) ==>
                m in t && t[m] == canceled.value && forall r :: r in t && r != m ==> r in s)
          && ((exists r :: r in s && s[r] == m) ==> forall r :: r in t ==> r in s))
  }

  /** The answers to resolving a mutation in consistent tables, each with its reason and effect. */
  ghost predicate Returned(s: Store, m: nat, preserves: bool, r: Result<Option<nat>>, t: Store) {
    match r
    case Err(e) => e.NotFound? && m !in s.quarantine && t == s
    case Ok(canceled) =>
      && m in s.quarantine && t.claimed == s.claimed && t.next == s.next
      && t.receipted == s.receipted + {m} && t.links == s.links - {m}
      && Moved(s.cancellations, m, canceled, t.cancellations)
      && (m in s.links && !preserves ==>
            && canceled == Some(s.links[m])
            && t.pending == s.pending - {s.links[m]} + {m} && t.quarantine == s.quarantine + {s.links[m]} - {m})
      && (m !in s.links || preserves ==>
            canceled == None && t.pending == s.pending + {m} && t.quarantine == s.quarantine - {m})
  }

  /** Where a mutation may go while the outbox works on, each way with its reason. */
  ghost predicate Worked(s: Store, o: Background, t: Store) {
    && t.quarantine == s.quarantine && t.links == s.links && t.cancellations == s.cancellations
    && (t.next == if o.Allocate? then s.next + 1 else s.next)
    && (forall m :: m in t.pending <==>
          (m in s.pending && !(o == Settle(m) && m in s.receipted)) || (o.Allocate? && m == s.next))
    && (forall m :: m in t.claimed <==>
          m in s.claimed || (o == Claim(m) && m in s.pending && forall q :: q in s.quarantine ==> m < q))
    && (forall m :: m in t.receipted <==>
          (m in s.receipted && o != Settle(m)) || (o == Receive(m) && m in s.pending && m in s.claimed))
  }

  lemma EnsuredAnswers(s: Store, m: nat, q: Request)
    requires Valid(s)
    ensures Answered(s, m, q, ResultOf(Ensured(s, m, q)), StoreOf(s, Ensured(s, m, q)))
  {
    if m in s.links { assert Replaces(s, m, s.links[m]); }
    forall o | o in s.links ensures s.links[o] < s.next { assert Replaces(s, o, s.links[o]); }
  }

  lemma ResolveReturns(s: Store, m: nat, preserves: bool)
    requires Valid(s)
    ensures Returned(s, m, preserves, ResultOf(Resolve(s, m, preserves)), StoreOf(s, Resolve(s, m, preserves)))
  {
    if m in s.quarantine {
      ResolveShape(s, m, preserves);
      ResolveCancellations(s, m, preserves);
      var canceled := Resolve(s, m, preserves).value;
      forall r | canceled.Some? && r in s.cancellations && s.cancellations[r] == m
        ensures r in RootsOf(s, m) && r in RootsOf(Resolve(s, m, preserves).store, canceled.value)
      {
        assert r in RootsOf(s, m);
      }
      if canceled.Some? && RootsOf(s, m) == {} {
        assert m in RootsOf(Resolve(s, m, preserves).store, canceled.value);
        assert forall r :: r in s.cancellations ==> r in RootsOf(s, m) || s.cancellations[r] != m;
      }
    }
  }

  /** In whatever tables, when asking for a resubmission finds that they contradict each other. */
  lemma EnsuredCorruptExactly(s: Store, m: nat, q: Request)
    ensures Ensured(s, m, q) == Failed(MissingReplacement) <==>
              m in s.quarantine && m in s.links && s.links[m] !in s.pending && s.links[m] !in s.quarantine
    ensures Ensured(s, m, q) == Failed(DuplicateRow) <==>
              m in s.quarantine && m !in s.links && q.admitted && exists o :: o in s.links && s.links[o] == s.next
    ensures Ensured(s, m, q) != Failed(MissingCurrent)
  {
    if s.next in s.links.Values {
      var o :| o in s.links && s.links[o] == s.next;
    }
  }

  /**
   In whatever tables, when resolving finds that they contradict each other: the replacement to take
   down is in neither table or in both, the chain would arrive where another one stands, or the
   mutation is pending already.
   */
  lemma ResolveCorruptExactly(s: Store, m: nat, preserves: bool)
    requires m in s.quarantine
    ensures var down := m in s.links && !preserves;
            var missing := down && s.links[m] !in s.pending && s.links[m] !in s.quarantine;
            && (Resolve(s, m, preserves) == Failed(MissingReplacement) <==> missing)
            && (Resolve(s, m, preserves) == Failed(DuplicateRow) <==>
                  || (down && s.links[m] in s.pending && s.links[m] in s.quarantine)
                  || (down && !missing && exists r :: r in s.cancellations && s.cancellations[r] == s.links[m])
                  || (down && !missing && m in s.cancellations
                      && forall r :: r in s.cancellations ==> s.cancellations[r] != m)
                  || (!missing && m in s.pending && !(down && s.links[m] == m)))
            && (Resolve(s, m, preserves).Failed? ==>
                  Resolve(s, m, preserves).error in {MissingReplacement, DuplicateRow})
  {
    if m in s.links && s.links[m] in s.cancellations.Values {
      var r :| r in s.cancellations && s.cancellations[r] == s.links[m];
    }
    if RootsOf(s, m) != {} {
      var r :| r in RootsOf(s, m);
    }
    forall r | r in s.cancellations && s.cancellations[r] == m ensures r in RootsOf(s, m) {}
  }

  /** Going on with a cancellation finds the mutation it is at, unless that is not in quarantine. */
  lemma ContinuesExactly(s: Store, root: nat)
    ensures match Continuation(s, root)
            case Failed(e) =>
              e == MissingCurrent && root in s.cancellations && s.cancellations[root] !in s.quarantine
            case Done(t, current) =>
              && t == s && (current.None? <==> root !in s.cancellations)
              && (current.Some? ==> s.cancellations[root] == current.value && current.value in s.quarantine)
  {}

  lemma ProceedWorks(s: Store, o: Background)
    ensures Worked(s, o, Proceed(s, o))
  {}

  lemma SetAsideMoves(s: Store, m: nat)
    ensures var t := Next(s, SetAside(m));
            && (forall p :: p in t.pending <==> p in s.pending && (p == m ==> m in s.receipted))
            && (forall p :: p in t.quarantine <==>
                  p in s.quarantine || (p == m && m in s.pending && m !in s.receipted))
            && t == s.(pending := t.pending, quarantine := t.quarantine)
  {}

  // ---------------------------------------------------------------- the tables never contradict each other

  lemma ProceedKeeps(s: Store, o: Background)
    requires Valid(s)
    ensures Valid(Proceed(s, o))
    ensures var t := Proceed(s, o);
            t.links == s.links && t.quarantine == s.quarantine && t.cancellations == s.cancellations
  {
    var t := Proceed(s, o);
    forall p | p in s.links ensures Replaces(t, p, s.links[p]) { assert Replaces(s, p, s.links[p]); }
  }

  lemma SetAsideKeeps(s: Store, m: nat)
    requires Valid(s)
    ensures Valid(Next(s, SetAside(m)))
  {
    var t := Next(s, SetAside(m));
    forall p | p in s.links ensures Replaces(t, p, s.links[p]) { assert Replaces(s, p, s.links[p]); }
  }

  lemma EnsureKeeps(s: Store, m: nat, q: Request)
    requires Valid(s)
    ensures Ensured(s, m, q).Failed? ==> !Corrupt(Ensured(s, m, q).error)
    ensures Valid(StoreOf(s, Ensured(s, m, q)))
  {
    var t := StoreOf(s, Ensured(s, m, q));
    forall o | o in s.links ensures Replaces(t, o, s.links[o]) && s.links[o] < s.next {
      assert Replaces(s, o, s.links[o]);
    }
    forall c | c in t.links.Values ensures c in s.links.Values || c == s.next {
      var o :| o in t.links && t.links[o] == c;
      assert o != m ==> o in s.links && s.links[o] == c;
    }
  }

  /** Resolving, when nothing fails: what the store becomes and what was canceled. */
  lemma ResolveShape(s: Store, m: nat, preserves: bool)
    requires Valid(s) && m in s.quarantine
    ensures Resolve(s, m, preserves).Done?
    ensures Resolve(s, m, preserves).value == if m in s.links && !preserves then Some(s.links[m]) else None
    ensures var t := Resolve(s, m, preserves).store;
            && t.links == s.links - {m} && t.claimed == s.claimed && t.next == s.next
            && t.pending == s.pending - (if m in s.links && !preserves then {s.links[m]} else {}) + {m}
            && t.quarantine == s.quarantine + (if m in s.links && !preserves then {s.links[m]} else {}) - {m}
            && t.receipted == s.receipted + {m}
  {
    if m in s.links { assert Replaces(s, m, s.links[m]); }
    if m in s.links && !preserves {
      var c := s.links[m];
      forall r | r in s.cancellations ensures s.cancellations[r] != c { assert c in s.links.Values; }
    }
  }

  /** A resolution moves the chain it belongs to and leaves the other chains alone. */
  lemma ResolveCancellations(s: Store, m: nat, preserves: bool)
    requires Valid(s) && m in s.quarantine
    ensures Resolve(s, m, preserves).Done?
    ensures var t := Resolve(s, m, preserves).store;
            var canceled := Resolve(s, m, preserves).value;
            && (forall r :: r in t.cancellations ==>
                  (r in s.cancellations && s.cancellations[r] != m && t.cancellations[r] == s.cancellations[r])
                  || (canceled.Some? && t.cancellations[r] == canceled.value
                      && (r == m || (r in s.cancellations && s.cancellations[r] == m))))
            && (forall r :: r in s.cancellations && s.cancellations[r] != m ==> r in t.cancellations)
            && (canceled.Some? ==> RootsOf(t, canceled.value) == if RootsOf(s, m) != {} then RootsOf(s, m) else {m})
  {
    ResolveShape(s, m, preserves);
    if m in s.links { assert Replaces(s, m, s.links[m]) && s.links[m] in s.links.Values; }
    assert RootsOf(s, m) != {} ==> exists r :: r in RootsOf(s, m);
  }

  lemma ResolveLinks(s: Store, m: nat, preserves: bool)
    requires Valid(s) && m in s.quarantine && m !in s.links.Values
    ensures Resolve(s, m, preserves).Done? && LinksHold(Resolve(s, m, preserves).store)
  {
    ResolveShape(s, m, preserves);
    var t := Resolve(s, m, preserves).store;
    forall o | o in t.links ensures Replaces(t, o, t.links[o]) {
      assert Replaces(s, o, s.links[o]) && s.links[o] in s.links.Values;
      if m in s.links { assert s.links[m] != s.links[o]; }
    }
  }

  lemma ResolveChains(s: Store, m: nat, preserves: bool)
    requires Valid(s) && m in s.quarantine && m !in s.links.Values
    ensures Resolve(s, m, preserves).Done? && CancellationsHold(Resolve(s, m, preserves).store)
  {
    ResolveShape(s, m, preserves);
    ResolveCancellations(s, m, preserves);
    ChainsAreUnlinked(s, m, preserves);
  }

  /** What a chain stands at replaces nothing any more. */
  lemma ChainsAreUnlinked(s: Store, m: nat, preserves: bool)
    requires Valid(s) && m in s.quarantine && m !in s.links.Values
    ensures Resolve(s, m, preserves).Done?
    ensures var t := Resolve(s, m, preserves).store;
            forall r :: r in t.cancellations ==> t.cancellations[r] !in t.links.Values
  {
    ResolveShape(s, m, preserves);
    ResolveCancellations(s, m, preserves);
    var t := Resolve(s, m, preserves).store;
    forall r, o | r in t.cancellations && o in t.links ensures t.links[o] != t.cancellations[r] {
      assert o in s.links && s.links[o] in s.links.Values;
      if m in s.links { assert s.links[m] != s.links[o]; }
    }
  }

  lemma ResolveKeeps(s: Store, m: nat, preserves: bool)
    requires Valid(s) && m in s.quarantine && m !in s.links.Values
    ensures Resolve(s, m, preserves).Done? && Valid(Resolve(s, m, preserves).store)
  {
    ResolveShape(s, m, preserves);
    ResolveLinks(s, m, preserves);
    ResolveChains(s, m, preserves);
    if m in s.links { assert Replaces(s, m, s.links[m]); }
  }

  /**
   Resolving a quarantined mutation keeps the tables consistent exactly when it is not itself the
   replacement of a mutation that is still quarantined.
   */
  lemma ResolveKeepsExactly(s: Store, m: nat, preserves: bool)
    requires Valid(s) && m in s.quarantine
    ensures Valid(StoreOf(s, Resolve(s, m, preserves))) <==> m !in s.links.Values
  {
    ResolveShape(s, m, preserves);
    if m in s.links.Values {
      var o :| o in s.links && s.links[o] == m;
      assert Replaces(s, o, m);
      var t := Resolve(s, m, preserves).store;
      assert o in t.links && t.links[o] == m && m in t.receipted && !Replaces(t, o, m);
    } else {
      ResolveKeeps(s, m, preserves);
    }
  }

  /** No replacement is resolved before its original. */
  ghost predicate InOrder(s: Store, step: Step) {
    step.ResolveWith? && step.mutation in s.quarantine ==> step.mutation !in s.links.Values
  }

  /** A step keeps the tables consistent exactly when it resolves no replacement before its original. */
  lemma StepKeepsValid(s: Store, step: Step)
    requires Valid(s)
    ensures Valid(Next(s, step)) <==> InOrder(s, step)
  {
    match step {
      case Other(o) => ProceedKeeps(s, o);
      case SetAside(m) => SetAsideKeeps(s, m);
      case Resubmit(m, q) => EnsureKeeps(s, m, q);
      case ResolveWith(m, preserves) => if m in s.quarantine { ResolveKeepsExactly(s, m, preserves); }
    }
  }

  function After(s: Store, run: seq<Step>): Store
    decreases |run|
  {
    if run == [] then s else After(Next(s, run[0]), run[1..])
  }

  ghost predicate AllInOrder(s: Store, run: seq<Step>)
    decreases |run|
  {
    run == [] || (InOrder(s, run[0]) && AllInOrder(Next(s, run[0]), run[1..]))
  }

  lemma {:induction false} RunKeepsValid(s: Store, run: seq<Step>)
    requires Valid(s) && AllInOrder(s, run)
    ensures Valid(After(s, run))
    decreases |run|
  {
    if run != [] {
      StepKeepsValid(s, run[0]);
      RunKeepsValid(Next(s, run[0]), run[1..]);
    }
  }

  /** A run is its steps one after the other, and in order if each of them is. */
  lemma {:induction false} RunSteps(s: Store, run: seq<Step>, last: Step)
    ensures After(s, []) == s && After(s, run + [last]) == Next(After(s, run), last)
    ensures AllInOrder(s, [])
    ensures AllInOrder(s, run + [last]) <==> AllInOrder(s, run) && InOrder(After(s, run), last)
    decreases |run|
  {
    if run == [] {
      assert run + [last] == [last] && [last][1..] == [];
    } else {
      assert (run + [last])[1..] == run[1..] + [last];
      RunSteps(Next(s, run[0]), run[1..], last);
    }
  }

  ghost predicate Fresh(s: Store) {
    && s.pending !! s.quarantine && s.receipted <= s.pending && s.links == map[] && s.cancellations == map[]
    && forall r :: r in s.pending || r in s.quarantine || r in s.claimed ==> r < s.next
  }

  /**
   In every state reached from one with neither links nor cancellations, no operation finds its
   tables in contradiction, and every link leads to a newer mutation that was never submitted.
   */
  lemma NeverCorrupt(s: Store, run: seq<Step>, m: nat, q: Request, preserves: bool)
    requires Fresh(s) && AllInOrder(s, run)
    ensures var t := After(s, run);
            && (Ensured(t, m, q).Failed? ==> !Corrupt(Ensured(t, m, q).error))
            && (Resolve(t, m, preserves).Failed? <==> m !in t.quarantine)
            && Continuation(t, m).Done?
            && forall o :: o in t.links ==> Replaces(t, o, t.links[o])
  {
    RunKeepsValid(s, run);
    var t := After(s, run);
    EnsureKeeps(t, m, q);
    if m in t.quarantine { ResolveShape(t, m, preserves); }
  }

  // ---------------------------------------------------------------- canceling a whole chain

  /** The mutations that go down with `m`: its replacement, the replacement's replacement, and so on. */
  function Chain(links: map<nat, nat>, m: nat): set<nat>
    decreases |links|
  {
    if m in links then
      assert links.Keys == (links - {m}).Keys + {m};
      assert |links| == |links.Keys| && |links - {m}| == |(links - {m}).Keys|;
      {m} + Chain(links - {m}, links[m])
    else {m}
  }

  /** On links that lead to newer mutations, the chain is the least set with `m` that follows every link. */
  lemma {:induction false} ChainFollows(links: map<nat, nat>, m: nat)
    requires forall o :: o in links ==> o < links[o]
    ensures m in Chain(links, m)
    ensures forall x :: x in Chain(links, m) ==>
              && m <= x && (x in links ==> links[x] in Chain(links, m))
              && (x != m ==> exists o :: o in Chain(links, m) && o in links && links[o] == x)
    decreases |links|
  {
    if m in links {
      assert links.Keys == (links - {m}).Keys + {m};
      assert |links| == |links.Keys| && |links - {m}| == |(links - {m}).Keys|;
      ChainFollows(links - {m}, links[m]);
      forall x | x in Chain(links, m) && x != m
        ensures m <= x && (x in links ==> links[x] in Chain(links, m))
        ensures exists o :: o in Chain(links, m) && o in links && links[o] == x
      {
        assert x in Chain(links - {m}, links[m]);
        if x == links[m] {
          assert m in Chain(links, m) && links[m] == x;
        } else {
          var o :| o in Chain(links - {m}, links[m]) && o in links - {m} && (links - {m})[o] == x;
          assert o in Chain(links, m) && links[o] == x;
        }
      }
    }
  }

  function Proceeded(s: Store, others: seq<Background>): Store
    decreases |others|
  {
    if others == [] then s else Proceeded(Proceed(s, others[0]), others[1..])
  }

  lemma {:induction false} ProceededKeeps(s: Store, others: seq<Background>)
    requires Valid(s)
    ensures Valid(Proceeded(s, others))
    ensures var t := Proceeded(s, others);
            t.links == s.links && t.quarantine == s.quarantine && t.cancellations == s.cancellations
    decreases |others|
  {
    if others != [] {
      ProceedKeeps(s, others[0]);
      ProceededKeeps(Proceed(s, others[0]), others[1..]);
    }
  }

  lemma {:induction false} ProceededOn(s: Store, others: seq<Background>, last: Background)
    ensures Proceeded(s, []) == s && Proceeded(s, others + [last]) == Proceed(Proceeded(s, others), last)
    decreases |others|
  {
    if others == [] {
      assert others + [last] == [last] && [last][1..] == [];
    } else {
      assert (others + [last])[1..] == others[1..] + [last];
      ProceededOn(Proceed(s, others[0]), others[1..], last);
    }
  }

  /**
   `t` has gone on with the cancellation of `from` in `s` up to `current`: what is left of the chain
   is the chain of `current`, and the rest of it is out of quarantine.
   */
  ghost predicate CanceledUpTo(s: Store, from: nat, t: Store, current: nat) {
    && current in t.quarantine && current !in t.links.Values
    && RootsOf(t, current) == RootsOf(s, from) != {} && t.cancellations.Keys == s.cancellations.Keys
    && Chain(t.links, current) <= Chain(s.links, from)
    && t.quarantine - Chain(t.links, current) == s.quarantine - Chain(s.links, from)
    && t.links - Chain(t.links, current) == s.links - Chain(s.links, from)
  }

  /** The whole chain of `from` is resolved and forgotten. */
  ghost predicate Canceled(s: Store, from: nat, t: Store) {
    && t.quarantine == s.quarantine - Chain(s.links, from)
    && t.links == s.links - Chain(s.links, from)
    && t.cancellations.Keys == s.cancellations.Keys - RootsOf(s, from)
  }

  /**
   Nothing but `gone` is touched: other rows without a receipt leave the outbox only after they were
   claimed, no other rows come but new ones, and the chains that stand elsewhere stay where they are.
   */
  ghost predicate Spares(s: Store, gone: set<nat>, t: Store) {
    && s.claimed <= t.claimed && s.next <= t.next
    && (forall p :: p in s.pending && p !in s.receipted && p !in t.claimed && p !in gone ==>
          p in t.pending && p !in t.receipted)
    && (forall p :: p in t.pending ==> p in s.pending || p in gone || s.next <= p)
    && (forall r :: r in s.cancellations && s.cancellations[r] !in gone ==>
          r in t.cancellations && t.cancellations[r] == s.cancellations[r])
  }

  lemma SparesOn(s: Store, gone: set<nat>, t: Store, u: Store)
    requires Spares(s, gone, t) && Spares(t, gone, u)
    ensures Spares(s, gone, u)
  {}

  lemma {:induction false} ProceededSpares(s: Store, gone: set<nat>, others: seq<Background>)
    ensures Spares(s, gone, Proceeded(s, others))
    decreases |others|
  {
    if others != [] {
      ProceededSpares(Proceed(s, others[0]), gone, others[1..]);
      SparesOn(s, gone, Proceed(s, others[0]), Proceeded(s, others));
    }
  }

  lemma ResolveSpares(s: Store, gone: set<nat>, m: nat, preserves: bool)
    requires Resolve(s, m, preserves).Done? && m in gone && (m in s.links && !preserves ==> s.links[m] in gone)
    ensures Spares(s, gone, Resolve(s, m, preserves).store)
  {}

  /** Resolving the current mutation of a cancellation passes it on to the rest of the chain, or ends it. */
  lemma ChainStep(s: Store, m: nat)
    requires Valid(s) && m in s.quarantine && m !in s.links.Values && RootsOf(s, m) != {}
    ensures Resolve(s, m, false).Done?
    ensures var t := Resolve(s, m, false).store;
            match Resolve(s, m, false).value
            case Some(c) => CanceledUpTo(s, m, t, c)
            case None => Canceled(s, m, t)
  {
    ResolveShape(s, m, false);
    ResolveLinks(s, m, false);
    ResolveCancellations(s, m, false);
    var t := Resolve(s, m, false).store;
    if m in s.links {
      var c := s.links[m];
      assert Replaces(s, m, c);
      assert t.links == s.links - {m};
      assert Chain(s.links, m) == {m} + Chain(t.links, c);
      assert c in Chain(t.links, c);
      forall o | o in t.links ensures t.links[o] != c { assert s.links[o] != s.links[m]; }
    } else {
      assert s.links - {m} == s.links;
    }
  }

  /**
   Canceling `m` stopped on the way: `m` and part of its chain are out of quarantine, the rest waits,
   and the cancellations of `m` name where to go on.
   */
  ghost predicate Interrupted(s: Store, m: nat, t: Store) {
    exists c :: StoppedAt(s, m, t, c)
  }

  ghost predicate StoppedAt(s: Store, m: nat, t: Store, c: nat) {
    && c in t.quarantine && c !in t.links.Values && m !in t.quarantine
    && RootsOf(t, c) == (if RootsOf(s, m) != {} then RootsOf(s, m) else {m})
    && t.cancellations.Keys - RootsOf(t, c) == s.cancellations.Keys - RootsOf(s, m)
    && t.quarantine - Chain(t.links, c) == s.quarantine - Chain(s.links, m)
    && t.links - Chain(t.links, c) == s.links - Chain(s.links, m)
  }

  /** Only what is outside the chain matters for what an interrupted cancellation leaves. */
  lemma InterruptedAlike(s: Store, t: Store, m: nat, u: Store)
    requires Interrupted(t, m, u) && t.cancellations == s.cancellations
    requires t.quarantine - Chain(t.links, m) == s.quarantine - Chain(s.links, m)
    requires t.links - Chain(t.links, m) == s.links - Chain(s.links, m)
    ensures Interrupted(s, m, u)
  {
    var c :| StoppedAt(t, m, u, c);
    assert RootsOf(s, m) == RootsOf(t, m);
    assert StoppedAt(s, m, u, c);
  }

  /** Whoever goes on with an interrupted cancellation ends where an uninterrupted one does. */
  lemma InterruptedResumes(s: Store, m: nat, t: Store, c: nat, u: Store)
    requires StoppedAt(s, m, t, c) && Canceled(t, c, u)
    ensures Canceled(s, m, u)
  {}

  lemma CanceledFromStart(s: Store, m: nat, t: Store, c: nat, u: Store)
    requires m in s.links && c == s.links[m] && t.links == s.links - {m}
    requires t.quarantine == s.quarantine + {c} - {m}
    requires t.cancellations.Keys - RootsOf(t, c) == s.cancellations.Keys - RootsOf(s, m)
    requires Canceled(t, c, u)
    ensures Canceled(s, m, u)
  {
    assert Chain(s.links, m) == {m} + Chain(t.links, c);
    assert c in Chain(t.links, c);
  }

  /** Discarding a quarantined mutation starts, or continues, the cancellation of everything after it. */
  lemma DiscardStarts(s: Store, m: nat, u: Store)
    requires Valid(s) && m in s.quarantine && m !in s.links.Values
    ensures Resolve(s, m, false).Done?
    ensures var t := Resolve(s, m, false).store;
            match Resolve(s, m, false).value
            case Some(c) => c in t.cancellations.Values && (Canceled(t, c, u) ==> Canceled(s, m, u))
            case None => Canceled(s, m, t)
  {
    ResolveShape(s, m, false);
    ResolveCancellations(s, m, false);
    var t := Resolve(s, m, false).store;
    if m in s.links {
      var c := s.links[m];
      assert c in Chain(t.links, c);
      var r :| r in RootsOf(t, c);
      assert t.cancellations[r] == c;
      assert t.cancellations.Keys - RootsOf(t, c) == s.cancellations.Keys - RootsOf(s, m);
      if Canceled(t, c, u) { CanceledFromStart(s, m, t, c, u); }
    } else {
      assert s.links - {m} == s.links;
    }
  }

  /** A cancellation that began at `m` and was interrupted later stopped on the chain of `m`. */
  lemma InterruptedLater(s: Store, m: nat, t: Store, u: Store)
    requires Valid(s) && m in s.quarantine && m !in s.links.Values
    requires Resolve(s, m, false).Done? && t == Resolve(s, m, false).store && Valid(u)
    requires Resolve(s, m, false).value.Some? && exists c :: CanceledUpTo(t, Resolve(s, m, false).value.value, u, c)
    ensures Interrupted(s, m, u)
  {
    ResolveShape(s, m, false);
    ResolveCancellations(s, m, false);
    var first := s.links[m];
    var c :| CanceledUpTo(t, first, u, c);
    forall o | o in s.links ensures o < s.links[o] { assert Replaces(s, o, s.links[o]); }
    ChainFollows(t.links, first);
    assert m !in Chain(t.links, first);
    assert t.cancellations.Keys - RootsOf(t, first) == s.cancellations.Keys - RootsOf(s, m);
    StopsOnChain(s, m, t, first, u, c);
  }

  lemma StopsOnChain(s: Store, m: nat, t: Store, first: nat, u: Store, c: nat)
    requires m in s.links && first == s.links[m] && t.links == s.links - {m}
    requires m !in Chain(t.links, first) && t.quarantine == s.quarantine + {first} - {m}
    requires RootsOf(t, first) == if RootsOf(s, m) != {} then RootsOf(s, m) else {m}
    requires t.cancellations.Keys - RootsOf(t, first) == s.cancellations.Keys - RootsOf(s, m)
    requires CanceledUpTo(t, first, u, c)
    ensures StoppedAt(s, m, u, c)
  {
    assert Chain(s.links, m) == {m} + Chain(t.links, first);
    assert m in u.quarantine ==> m in u.quarantine - Chain(u.links, c);
    assert first in Chain(t.links, first);
  }

  /** Resubmitting adds at most the new mutation to the end of a chain. */
  lemma EnsuredChain(s: Store, m: nat, q: Request)
    requires Valid(s) && m !in s.links.Values && Ensured(s, m, q).Done?
    ensures var t := Ensured(s, m, q).store;
            && m in t.links && t.links[m] == Ensured(s, m, q).value && m !in t.links.Values
            && t.quarantine == s.quarantine && t.cancellations == s.cancellations
            && t.quarantine - Chain(t.links, m) == s.quarantine - Chain(s.links, m)
            && t.links - Chain(t.links, m) == s.links - Chain(s.links, m) && t.links - {m} == s.links - {m}
            && Chain(t.links, m) <= Chain(s.links, m) + {s.next}
  {
    var t := Ensured(s, m, q).store;
    if m !in s.links {
      assert t.links - {m} == s.links;
      assert Chain(t.links, m) == {m} + Chain(s.links, s.next);
    } else {
      assert Replaces(s, m, s.links[m]);
    }
  }

  lemma ChainStarts(s: Store, m: nat)
    requires Valid(s) && m in s.cancellations.Values
    ensures CanceledUpTo(s, m, s, m)
  {
    var r :| r in s.cancellations && s.cancellations[r] == m;
    assert r in RootsOf(s, m);
  }

  lemma WaitingKeeps(s: Store, from: nat, t: Store, current: nat, others: seq<Background>)
    requires Valid(t) && CanceledUpTo(s, from, t, current)
    ensures Valid(Proceeded(t, others)) && CanceledUpTo(s, from, Proceeded(t, others), current)
  {
    ProceededKeeps(t, others);
    assert RootsOf(Proceeded(t, others), current) == RootsOf(t, current);
  }

  lemma RoundKeeps(s: Store, from: nat, t: Store, m: nat)
    requires Valid(t) && CanceledUpTo(s, from, t, m)
    ensures Resolve(t, m, false).Done? && Valid(Resolve(t, m, false).store)
    ensures var u := Resolve(t, m, false).store;
            match Resolve(t, m, false).value
            case Some(c) => CanceledUpTo(s, from, u, c) && |u.links| < |t.links|
            case None => Canceled(s, from, u)
  {
    ChainStep(t, m);
    ResolveKeeps(t, m, false);
    ResolveShape(t, m, false);
    if m in t.links {
      assert t.links.Keys == (t.links - {m}).Keys + {m};
      assert |t.links| == |t.links.Keys| && |t.links - {m}| == |(t.links - {m}).Keys|;
    }
  }

  // ---------------------------------------------------------------- a replacement resolved before its original

  /** The store without some of its links. */
  function Cut(s: Store, broken: set<nat>): Store {
    s.(links := s.links - broken)
  }

  /** The mutations that were resubmitted as `m`; there is at most one. */
  function Linking(links: map<nat, nat>, m: nat): set<nat> {
    set o | o in links && links[o] == m
  }

  lemma CutKeeps(s: Store, broken: set<nat>)
    requires Valid(s)
    ensures Valid(Cut(s, broken))
  {
    var t := Cut(s, broken);
    forall o | o in t.links ensures Replaces(t, o, t.links[o]) { assert Replaces(s, o, s.links[o]); }
    forall c | c in t.links.Values ensures c in s.links.Values {}
  }

  lemma LinkingCut(s: Store, m: nat)
    requires Valid(s)
    ensures Valid(Cut(s, Linking(s.links, m))) && m !in Cut(s, Linking(s.links, m)).links.Values
    ensures forall o :: o in Linking(s.links, m) ==> o < m
    ensures Linking(s.links, m) == {} <==> m !in s.links.Values
    ensures m !in s.links.Values ==> Cut(s, Linking(s.links, m)) == s
  {
    CutKeeps(s, Linking(s.links, m));
    forall o | o in Linking(s.links, m) ensures o < m { assert Replaces(s, o, m); }
    if m in s.links.Values {
      var o :| o in s.links && s.links[o] == m;
      assert o in Linking(s.links, m);
    } else {
      assert s.links - {} == s.links;
    }
  }

  /** Resolving a mutation does not look at the links of others. */
  lemma ResolveCut(s: Store, broken: set<nat>, m: nat, preserves: bool)
    requires m !in broken
    ensures Resolve(Cut(s, broken), m, preserves) ==
              match Resolve(s, m, preserves)
              case Failed(e) => Failed(e)
              case Done(t, value) => Done(Cut(t, broken), value)
  {
    CanceledCut(s, broken, m, preserves);
    var canceled := CancelReplacement(s, m, preserves);
    if canceled.Done? { MovedCut(canceled.store, broken, m, canceled.value); }
    assert s.links - broken - {m} == s.links - {m} - broken;
  }

  lemma CanceledCut(s: Store, broken: set<nat>, m: nat, preserves: bool)
    requires m !in broken
    ensures CancelReplacement(Cut(s, broken), m, preserves) ==
              match CancelReplacement(s, m, preserves)
              case Failed(e) => Failed(e)
              case Done(t, value) => Done(Cut(t, broken), value)
    ensures CancelReplacement(s, m, preserves).Done? ==> CancelReplacement(s, m, preserves).store.links == s.links
  {}

  lemma MovedCut(s: Store, broken: set<nat>, m: nat, canceled: Option<nat>)
    ensures MoveCancellation(Cut(s, broken), m, canceled) ==
              match MoveCancellation(s, m, canceled)
              case Failed(e) => Failed(e)
              case Done(t, value) => Done(Cut(t, broken), value)
    ensures MoveCancellation(s, m, canceled).Done? ==> MoveCancellation(s, m, canceled).store.links == s.links
  {}

  lemma {:induction false} ProceededCut(s: Store, broken: set<nat>, others: seq<Background>)
    ensures Proceeded(Cut(s, broken), others) == Cut(Proceeded(s, others), broken)
    ensures Proceeded(s, others).links == s.links
    decreases |others|
  {
    if others != [] { ProceededCut(Proceed(s, others[0]), broken, others[1..]); }
  }

  /** A resolved mutation has its receipt, or has left the outbox with it. */
  ghost predicate Resolved(s: Store, m: nat) {
    m < s.next && m !in s.quarantine && (m in s.pending ==> m in s.receipted)
  }

  lemma {:induction false} ProceededResolved(s: Store, m: nat, others: seq<Background>)
    requires Resolved(s, m)
    ensures Resolved(Proceeded(s, others), m)
    decreases |others|
  {
    if others != [] { ProceededResolved(Proceed(s, others[0]), m, others[1..]); }
  }

  /** A link to a resolved replacement makes the tables contradict each other. */
  lemma DanglingIsInvalid(s: Store, o: nat, m: nat)
    requires Resolved(s, m) && o in s.links && s.links[o] == m
    ensures !Valid(s)
  {
    assert !Replaces(s, o, m);
  }

  /** The links of `broken` lead to the resolved `m`; apart from them the tables agree. */
  ghost predicate Dangling(s: Store, broken: set<nat>, m: nat) {
    && Valid(Cut(s, broken)) && Resolved(s, m)
    && (forall o :: o in broken ==> o in s.links && s.links[o] == m && o < m)
  }

  /** One round of a cancellation, with some links dangling that it has nothing to do with. */
  lemma DanglingRound(from: Store, start: nat, s: Store, broken: set<nat>, m: nat, c: nat)
    requires Dangling(s, broken, m) && CanceledUpTo(from, start, Cut(s, broken), c)
    requires forall o :: o in broken ==> o < c
    ensures Resolve(s, c, false).Done? && Dangling(Resolve(s, c, false).store, broken, m)
    ensures var u := Cut(Resolve(s, c, false).store, broken);
            match Resolve(s, c, false).value
            case Some(d) =>
              (forall o :: o in broken ==> o < d) && CanceledUpTo(from, start, u, d)
              && |u.links| < |Cut(s, broken).links|
            case None => Canceled(from, start, u)
  {
    RoundKeeps(from, start, Cut(s, broken), c);
    ResolveCut(s, broken, c, false);
    ResolvesAbove(Cut(s, broken), c);
    DanglingStays(s, broken, m, c);
  }

  /** A round touches only the chain it is on. */
  lemma RoundSpares(from: Store, start: nat, s: Store, broken: set<nat>, c: nat)
    requires CanceledUpTo(from, start, Cut(s, broken), c) && c !in broken && Resolve(s, c, false).Done?
    ensures Spares(s, Chain(from.links, start), Resolve(s, c, false).store)
  {
    var links := s.links - broken;
    assert c in Chain(links, c);
    if c in s.links {
      assert c in links && Chain(links, c) == {c} + Chain(links - {c}, links[c]);
      assert links[c] in Chain(links - {c}, links[c]);
    }
    ResolveSpares(s, Chain(from.links, start), c, false);
  }

  /** Canceling a mutation touches only its chain, from the first resolution on. */
  lemma ChainSpares(s: Store, broken: set<nat>, m: nat, u: Store)
    requires m !in broken && Resolve(s, m, false).Done?
    requires var t := Resolve(s, m, false);
             if t.value.Some? then Spares(t.store, Chain(t.store.links - broken, t.value.value), u) else u == t.store
    ensures Spares(s, Chain(s.links - broken, m), u)
  {
    var links, t := s.links - broken, Resolve(s, m, false);
    var gone := Chain(links, m);
    if m in s.links {
      assert gone == {m} + Chain(links - {m}, links[m]);
      assert t.store.links - broken == links - {m};
    }
    ResolveSpares(s, gone, m, false);
    if t.value.Some? { SparesMore(t.store, Chain(t.store.links - broken, t.value.value), gone, u); }
    if t.value.Some? { SparesOn(s, gone, t.store, u); }
  }

  lemma SparesMore(s: Store, gone: set<nat>, more: set<nat>, t: Store)
    requires Spares(s, gone, t) && gone <= more
    ensures Spares(s, more, t)
  {}

  lemma EnsuredSpares(s: Store, m: nat, q: Request, u: Store)
    requires Valid(s) && Ensured(s, m, q).Done?
    requires var t := Ensured(s, m, q).store;
             Spares(t, Chain(t.links - Linking(t.links, m), m), u)
    ensures Spares(s, Chain(s.links - Linking(s.links, m), m) + {s.next}, u)
  {
    var broken, t := Linking(s.links, m), Ensured(s, m, q).store;
    var gone := Chain(s.links - broken, m) + {s.next};
    LinkingCut(s, m);
    EnsuredCut(s, m, q);
    EnsuredChain(Cut(s, broken), m, q);
    SparesMore(t, Chain(t.links - broken, m), gone, u);
    assert Spares(s, gone, t);
    SparesOn(s, gone, t, u);
  }

  lemma ResolvesAbove(s: Store, c: nat)
    requires Valid(s) && c in s.quarantine
    ensures Resolve(s, c, false).Done? && (Resolve(s, c, false).value.Some? ==> c < Resolve(s, c, false).value.value)
  {
    ResolveShape(s, c, false);
    if c in s.links { assert Replaces(s, c, s.links[c]); }
  }

  lemma DanglingStays(s: Store, broken: set<nat>, m: nat, c: nat)
    requires Dangling(s, broken, m) && c in s.quarantine && c !in broken && Resolve(s, c, false).Done?
    requires Valid(Cut(Resolve(s, c, false).store, broken))
    ensures Dangling(Resolve(s, c, false).store, broken, m)
  {
    var t, u := Resolve(s, c, false).store, Cut(s, broken);
    ResolveCut(s, broken, c, false);
    ResolveShape(u, c, false);
    if c in u.links { assert Replaces(u, c, u.links[c]); }
  }

  lemma DanglingWait(from: Store, start: nat, s: Store, broken: set<nat>, m: nat, c: nat, others: seq<Background>)
    requires Dangling(s, broken, m) && CanceledUpTo(from, start, Cut(s, broken), c)
    ensures Dangling(Proceeded(s, others), broken, m)
    ensures CanceledUpTo(from, start, Cut(Proceeded(s, others), broken), c)
    ensures Proceeded(s, others).links == s.links
  {
    WaitingKeeps(from, start, Cut(s, broken), c, others);
    ProceededCut(s, broken, others);
    ProceededResolved(s, m, others);
  }

  class QuarantineStore {
    var pending: set<nat>
    var receipted: set<nat>
    var quarantine: set<nat>
    var links: map<nat, nat>
    var cancellations: map<nat, nat>
    var claimed: set<nat>
    var next: nat

    function Stored(): Store
      reads this
    {
      Store(pending, receipted, quarantine, links, cancellations, claimed, next)
    }

    constructor ()
      ensures Fresh(Stored()) && pending == quarantine == claimed == {} && next == 1
    {
      pending, receipted, quarantine, links, cancellations := {}, {}, {}, map[], map[];
      claimed, next := {}, 1;
    }

    /** Something else happens to the outbox while the caller waits for the server. */
    method Wait(others: seq<Background>)
      modifies `pending, `receipted, `claimed, `next
      ensures Stored() == Proceeded(old(Stored()), others)
    {
      for i := 0 to |others|
        invariant Proceeded(Stored(), others[i..]) == Proceeded(old(Stored()), others)
        invariant Stored().links == links
      {
        assert others[i..][0] == others[i] && others[i..][1..] == others[i + 1..];
        match others[i] {
          case Allocate => pending, next := pending + {next}, next + 1;
          case Claim(m) => if m in pending && forall q :: q in quarantine ==> m < q { claimed := claimed + {m}; }
          case Receive(m) => if m in pending && m in claimed { receipted := receipted + {m}; }
          case Settle(m) => if m in receipted { pending, receipted := pending - {m}, receipted - {m}; }
        }
      }
    }

    method EnsureResubmission(m: nat, q: Request) returns (r: Result<nat>)
      modifies `pending, `links, `next
      ensures r == ResultOf(Ensured(old(Stored()), m, q))
      ensures Stored() == StoreOf(old(Stored()), Ensured(old(Stored()), m, q))
      ensures old(Valid(Stored())) ==> Answered(old(Stored()), m, q, r, Stored())
    {
      if Valid(Stored()) { EnsuredAnswers(Stored(), m, q); }
      if m !in quarantine { return Err(NotFound); }
      if m in links {
        if links[m] !in pending && links[m] !in quarantine { return Err(MissingReplacement); }
        if !q.same { return Err(Conflict); }
        if links[m] !in pending { return Err(Rejected); }
        return Ok(links[m]);
      }
      if !q.admitted { return Err(Refused); }
      if next in links.Values { return Err(DuplicateRow); }
      r := Ok(next);
      pending, links, next := pending + {next}, links[m := next], next + 1;
    }

    /** The replacement that goes down with the mutation, on copies of the tables. */
    method CancelLinked(m: nat, preserves: bool)
      returns (failure: Option<Error>, waiting: set<nat>, aside: set<nat>, canceled: Option<nat>)
      ensures match CancelReplacement(Stored(), m, preserves)
              case Failed(e) => failure == Some(e)
              case Done(t, c) =>
                && failure.None? && canceled == c && t == Stored().(pending := waiting, quarantine := aside)
    {
      failure, waiting, aside, canceled := None, pending, quarantine, None;
      if m in links && !preserves {
        var c := links[m];
        if c in waiting {
          if c in aside { failure := Some(DuplicateRow); }
          aside, waiting := aside + {c}, waiting - {c};
        } else if c !in aside {
          failure := Some(MissingReplacement);
        }
        canceled := Some(c);
      }
    }

    /** The transaction works on copies of the rows and writes them back only if nothing failed. */
    method ResolveQuarantine(m: nat, preserves: bool) returns (r: Result<Option<nat>>)
      modifies `pending, `receipted, `quarantine, `links, `cancellations
      ensures r == ResultOf(Resolve(old(Stored()), m, preserves))
      ensures Stored() == StoreOf(old(Stored()), Resolve(old(Stored()), m, preserves))
      ensures old(Valid(Stored())) ==> Returned(old(Stored()), m, preserves, r, Stored())
    {
      if Valid(Stored()) { ResolveReturns(Stored(), m, preserves); }
      if m !in quarantine { return Err(NotFound); }
      var failure, waiting, aside, canceled := CancelLinked(m, preserves);
      if failure.Some? { return Err(failure.value); }
      var chains := cancellations;
      var roots := set r | r in chains && chains[r] == m;
      assert roots == RootsOf(Stored(), m);
      match canceled {
        case Some(c) =>
          if c in chains.Values { return Err(DuplicateRow); }
          if roots != {} {
            chains := map r | r in chains :: if chains[r] == m then c else chains[r];
          } else if m in chains {
            return Err(DuplicateRow);
          } else {
            chains := chains[m := c];
          }
        case None =>
          chains := chains - roots;
      }
      if m in waiting { return Err(DuplicateRow); }
      pending, receipted, quarantine := waiting + {m}, receipted + {m}, aside - {m};
      links, cancellations := links - {m}, chains;
      r := Ok(canceled);
    }

    /** One round of a cancellation that began at `start` in the tables `s`: a synchronization and a resolution. */
    method CancelRound(current: nat, answer: bool, others: seq<Background>, ghost s: Store, ghost start: nat,
                       ghost broken: set<nat>, ghost resolved: nat)
      returns (next: Result<Option<nat>>)
      requires Dangling(Stored(), broken, resolved) && CanceledUpTo(s, start, Cut(Stored(), broken), current)
      requires forall o :: o in broken ==> o < current
      modifies this
      ensures Dangling(Stored(), broken, resolved) && Spares(old(Stored()), Chain(s.links, start), Stored())
      ensures next.Err? <==> !answer
      ensures match next
              case Err(_) => CanceledUpTo(s, start, Cut(Stored(), broken), current)
              case Ok(None) => Canceled(s, start, Cut(Stored(), broken))
              case Ok(Some(d)) =>
                && (forall o :: o in broken ==> o < d) && CanceledUpTo(s, start, Cut(Stored(), broken), d)
                && |Cut(Stored(), broken).links| < |Cut(old(Stored()), broken).links|
    {
      ghost var gone := Chain(s.links, start);
      DanglingWait(s, start, Stored(), broken, resolved, current, others);
      ProceededSpares(Stored(), gone, others);
      Wait(others);
      if !answer { return Err(Unavailable); }
      DanglingRound(s, start, Stored(), broken, resolved, current);
      RoundSpares(s, start, Stored(), broken, current);
      SparesOn(old(Stored()), gone, Stored(), Resolve(Stored(), current, false).store);
      next := ResolveQuarantine(current, false);
    }

    /**
     Discards what was canceled, one mutation at a time, each after a synchronization. If the server
     fails on the way, the cancellation still names the mutation to go on with. Links that dangle at
     the mutation `resolved` are none of its business.
     */
    method ContinueCancellation(initial: Option<nat>, answers: nat -> bool, others: nat -> seq<Background>,
                                ghost broken: set<nat>, ghost resolved: nat)
      returns (r: Result<()>)
      requires Dangling(Stored(), broken, resolved)
      requires initial.Some? ==> initial.value in cancellations.Values && forall o :: o in broken ==> o < initial.value
      modifies this
      ensures Dangling(Stored(), broken, resolved)
      ensures initial.None? ==> r.Ok? && Stored() == old(Stored())
      ensures initial.Some? && r.Ok? ==> Canceled(Cut(old(Stored()), broken), initial.value, Cut(Stored(), broken))
      ensures initial.Some? && r.Err? ==>
                exists c :: CanceledUpTo(Cut(old(Stored()), broken), initial.value, Cut(Stored(), broken), c)
      ensures initial.Some? ==> Spares(old(Stored()), Chain(old(links) - broken, initial.value), Stored())
      ensures r.Err? ==> r.error.Unavailable? && exists n :: !answers(n)
    {
      ghost var s := Cut(Stored(), broken);
      var canceled, round := initial, 0;
      ghost var gone := if initial.Some? then Chain(links - broken, initial.value) else {};
      if canceled.Some? { ChainStarts(s, canceled.value); }
      while canceled.Some?
        invariant Dangling(Stored(), broken, resolved)
        invariant initial.None? ==> canceled.None? && Stored() == old(Stored())
        invariant canceled.Some? ==> forall o :: o in broken ==> o < canceled.value
        invariant initial.Some? ==>
          match canceled
          case Some(c) => CanceledUpTo(s, initial.value, Cut(Stored(), broken), c)
          case None => Canceled(s, initial.value, Cut(Stored(), broken))
        invariant Spares(old(Stored()), gone, Stored())
        decreases canceled.Some?, |Cut(Stored(), broken).links|
      {
        ghost var before := Stored();
        var next := CancelRound(canceled.value, answers(round), others(round), s, initial.value, broken, resolved);
        SparesOn(old(Stored()), gone, before, Stored());
        if next.Err? { return Err(Unavailable); }
        canceled, round := next.value, round + 1;
      }
      r := Ok(());
    }

    /** Cancels a quarantined mutation that the server has answered, with its chain of replacements. */
    method CancelChain(m: nat, answers: nat -> bool, others: nat -> seq<Background>) returns (r: Result<()>)
      requires Valid(Stored()) && m in quarantine
      modifies this
      ensures var broken := Linking(old(links), m);
              && Valid(Cut(Stored(), broken)) && (Valid(Stored()) <==> broken == {})
              && (r.Ok? ==> Canceled(Cut(old(Stored()), broken), m, Cut(Stored(), broken)))
              && (r.Err? ==> Interrupted(Cut(old(Stored()), broken), m, Cut(Stored(), broken)))
      ensures r.Err? ==> r.error.Unavailable? && exists n :: !answers(n)
      ensures Spares(old(Stored()), Chain(old(links) - Linking(old(links), m), m), Stored())
    {
      ghost var s, broken := Stored(), Linking(links, m);
      LinkingCut(s, m);
      DiscardedDangles(s, m, false);
      var resolved := ResolveQuarantine(m, false);
      DiscardStarts(Cut(s, broken), m, Cut(Stored(), broken));
      ghost var t := Cut(Stored(), broken);
      r := ContinueCancellation(resolved.value, answers, others, broken, m);
      DiscardStarts(Cut(s, broken), m, Cut(Stored(), broken));
      ChainSpares(s, broken, m, Stored());
      if r.Err? { InterruptedLater(Cut(s, broken), m, t, Cut(Stored(), broken)); }
      DanglingExactly(Stored(), broken, m);
    }

    /** Goes on with a cancellation that was interrupted, if there is one. */
    method Resume(m: nat, answers: nat -> bool, others: nat -> seq<Background>) returns (r: Result<()>)
      requires Valid(Stored())
      modifies this
      ensures Valid(Stored())
      ensures r.Ok? && m in old(cancellations) ==> Canceled(old(Stored()), old(cancellations)[m], Stored())
      ensures m !in old(cancellations) ==> r.Ok? && Stored() == old(Stored())
      ensures r.Err? ==> r.error.Unavailable? && exists n :: !answers(n)
      ensures m in old(cancellations) ==> Spares(old(Stored()), Chain(old(links), old(cancellations)[m]), Stored())
    {
      if m !in cancellations { return Ok(()); }
      NothingDangles(Stored(), m);
      NothingCut(Stored());
      r := ContinueCancellation(Some(cancellations[m]), answers, others, {}, m);
      NothingCut(Stored());
    }

    /**
     Gives up on a quarantined mutation and on everything it was resubmitted as. Called again after
     a failure, it goes on with what is left. The tables agree afterwards exactly unless what was
     resolved replaces a mutation that is still quarantined; that link then dangles, and apart from
     it they agree in any case.
     */
    method DiscardQuarantined(m: nat, answer: bool, answers: nat -> bool, others: nat -> seq<Background>)
      returns (r: Result<()>)
      requires Valid(Stored())
      modifies this
      ensures Valid(Cut(Stored(), Linking(old(links), m)))
      ensures Valid(Stored()) <==> !(answer && m in old(quarantine) && m in old(links.Values))
      ensures r.Ok? && m in old(quarantine) ==>
                Canceled(Cut(old(Stored()), Linking(old(links), m)), m, Cut(Stored(), Linking(old(links), m)))
      ensures r.Ok? && m !in old(quarantine) && m in old(cancellations) ==>
                Canceled(old(Stored()), old(cancellations)[m], Stored())
      ensures m !in old(quarantine) && m !in old(cancellations) ==> r.Ok? && Stored() == old(Stored())
      ensures r.Err? ==> r.error.Unavailable? && ((m in old(quarantine) && !answer) || exists n :: !answers(n))
      ensures m in old(quarantine) && !answer ==> r.Err? && Stored() == old(Stored())
      ensures m in old(quarantine) ==>
                Spares(old(Stored()), Chain(old(links) - Linking(old(links), m), m), Stored())
      ensures m !in old(quarantine) && m in old(cancellations) ==>
                Spares(old(Stored()), Chain(old(links), old(cancellations)[m]), Stored())
      ensures m in old(quarantine) && answer && r.Err? ==>
                Interrupted(Cut(old(Stored()), Linking(old(links), m)), m, Cut(Stored(), Linking(old(links), m)))
    {
      LinkingCut(Stored(), m);
      if m !in quarantine {
        ghost var broken := Linking(links, m);
        r := Resume(m, answers, others);
        CutKeeps(Stored(), broken);
      } else if answer {
        r := CancelChain(m, answers, others);
      } else {
        r := Err(Unavailable);
      }
    }

    /**
     Puts a quarantined mutation back as a new one. The new one stays if the server then rejects the
     old one as quarantined; any other receipt takes the new one down again. A mutation that is not
     quarantined any more is resolved already, up to a cancellation that goes on.
     */
    method ResubmitQuarantined(m: nat, q: Request, answer: Option<bool>, answers: nat -> bool,
                               others: nat -> seq<Background>)
      returns (r: Result<Option<nat>>)
      requires Valid(Stored())
      modifies this
      ensures Valid(Cut(Stored(), Linking(old(links), m)))
      ensures answer.None? ==> Valid(Stored())
      ensures m !in old(quarantine) ==> Valid(Stored()) && (r.Ok? ==> r.value.None?)
      ensures m !in old(quarantine) && r.Ok? && m in old(cancellations) ==>
                Canceled(old(Stored()), old(cancellations)[m], Stored())
      ensures m !in old(quarantine) && m !in old(cancellations) ==> r == Ok(None) && Stored() == old(Stored())
      ensures m !in old(quarantine) && m in old(cancellations) ==>
                Spares(old(Stored()), Chain(old(links), old(cancellations)[m]), Stored())
      ensures m in old(quarantine) && r.Ok? ==> (Valid(Stored()) <==> m !in old(links.Values))
      ensures m in old(quarantine) && r.Ok? && r.value.Some? ==>
                && r.value.value in pending && r.value.value !in claimed && r.value.value !in receipted
                && quarantine == old(quarantine) - {m} && links == old(links) - {m} && m in receipted
                && r.value.value == (if m in old(links) then old(links)[m] else old(next))
      ensures m in old(quarantine) ==>
                Spares(old(Stored()), Chain(old(links) - Linking(old(links), m), m) + {old(next)}, Stored())
      ensures m in old(quarantine) && r.Ok? ==> answer.Some? && (r.value.Some? <==> answer.value)
      ensures r.Err? ==>
                || (m in old(quarantine) && Answered(old(Stored()), m, q, Err(r.error), Stored()))
                || (r.error.Unavailable? && ((m in old(quarantine) && answer.None?) || exists n :: !answers(n)))
      ensures m in old(quarantine) && r.Err? && r.error.Unavailable? ==>
                (if answer.None? then exists c :: Answered(old(Stored()), m, q, Ok(c), Stored())
                 else Interrupted(Cut(old(Stored()), Linking(old(links), m)), m, Cut(Stored(), Linking(old(links), m))))
      ensures m in old(quarantine) && r.Ok? && r.value.None? ==>
                Canceled(Cut(old(Stored()), Linking(old(links), m)), m, Cut(Stored(), Linking(old(links), m)))
    {
      if m in quarantine {
        r := Resubmit(m, q, answer, answers, others);
        return;
      }
      LinkingCut(Stored(), m);
      ghost var broken := Linking(links, m);
      var resumed := Resume(m, answers, others);
      CutKeeps(Stored(), broken);
      r := if resumed.Err? then Err(resumed.error) else Ok(None);
    }

    /** The same of a mutation that is quarantined. */
    method Resubmit(m: nat, q: Request, answer: Option<bool>, answers: nat -> bool, others: nat -> seq<Background>)
      returns (r: Result<Option<nat>>)
      requires Valid(Stored()) && m in quarantine
      modifies this
      ensures Valid(Cut(Stored(), Linking(old(links), m))) && (answer.None? ==> Valid(Stored()) && r.Err?)
      ensures r.Ok? ==>
                (Valid(Stored()) <==> m !in old(links.Values)) && answer.Some? && (r.value.Some? <==> answer.value)
      ensures r.Ok? && r.value.Some? ==>
                && r.value.value in pending && r.value.value !in claimed && r.value.value !in receipted
                && quarantine == old(quarantine) - {m} && links == old(links) - {m} && m in receipted
                && r.value.value == (if m in old(links) then old(links)[m] else old(next))
      ensures Spares(old(Stored()), Chain(old(links) - Linking(old(links), m), m) + {old(next)}, Stored())
      ensures r.Err? ==>
                || Answered(old(Stored()), m, q, Err(r.error), Stored())
                || (r.error.Unavailable? && (answer.None? || exists n :: !answers(n)))
      ensures r.Err? && r.error.Unavailable? ==>
                (if answer.None? then exists c :: Answered(old(Stored()), m, q, Ok(c), Stored())
                 else Interrupted(Cut(old(Stored()), Linking(old(links), m)), m, Cut(Stored(), Linking(old(links), m))))
      ensures r.Ok? && r.value.None? ==>
                Canceled(Cut(old(Stored()), Linking(old(links), m)), m, Cut(Stored(), Linking(old(links), m)))
    {
      ghost var s := Stored();
      LinkingCut(s, m);
      EnsureKeeps(s, m, q);
      EnsuredCut(s, m, q);
      var made := EnsureResubmission(m, q);
      CutKeeps(Stored(), Linking(s.links, m));
      if made.Err? { return Err(made.error); }
      if answer.None? { return Err(Unavailable); }
      ghost var t := Cut(Stored(), Linking(s.links, m));
      EnsuredChain(Cut(s, Linking(s.links, m)), m, q);
      r := AnswerResubmission(m, made.value, answer.value, answers, others);
      EnsuredSpares(s, m, q, Stored());
      if r.Err? { InterruptedAlike(Cut(s, Linking(s.links, m)), t, m, Cut(Stored(), Linking(s.links, m))); }
    }

    /** The rest of a resubmission, once the server has answered for the old mutation. */
    method AnswerResubmission(m: nat, made: nat, preserves: bool, answers: nat -> bool, others: nat -> seq<Background>)
      returns (r: Result<Option<nat>>)
      requires Valid(Stored()) && m in quarantine && m in links && links[m] == made && made in pending
      modifies this
      ensures var broken := Linking(old(links), m);
              && Valid(Cut(Stored(), broken)) && (Valid(Stored()) <==> broken == {})
              && (r.Ok? && r.value.None? ==> Canceled(Cut(old(Stored()), broken), m, Cut(Stored(), broken)))
              && (r.Err? ==> Interrupted(Cut(old(Stored()), broken), m, Cut(Stored(), broken)))
      ensures r.Err? ==> !preserves && r.error.Unavailable? && exists n :: !answers(n)
      ensures r.Ok? ==> (r.value.Some? <==> preserves)
      ensures Spares(old(Stored()), Chain(old(links) - Linking(old(links), m), m), Stored())
      ensures r.Ok? && r.value.Some? ==>
                && r.value.value == made && made in pending && made !in claimed && made !in receipted
                && quarantine == old(quarantine) - {m} && links == old(links) - {m} && m in receipted
    {
      if !preserves {
        var canceled := CancelChain(m, answers, others);
        return if canceled.Err? then Err(canceled.error) else Ok(None);
      }
      DiscardedDangles(Stored(), m, true);
      ResolveSpares(Stored(), Chain(links - Linking(links, m), m), m, true);
      ReplacementStays(Stored(), m);
      ghost var broken := Linking(links, m);
      var resolved := ResolveQuarantine(m, true);
      DanglingExactly(Stored(), broken, m);
      r := Ok(Some(made));
    }
  }

  lemma NothingCut(s: Store)
    ensures Cut(s, {}) == s
  {
    assert s.links - {} == s.links;
  }

  lemma NothingDangles(s: Store, root: nat)
    requires Valid(s) && root in s.cancellations
    ensures Dangling(s, {}, root)
  {
    NothingCut(s);
  }

  lemma DanglingExactly(s: Store, broken: set<nat>, m: nat)
    requires Dangling(s, broken, m)
    ensures Valid(s) <==> broken == {}
  {
    if broken == {} {
      NothingCut(s);
    } else {
      var o :| o in broken;
      DanglingIsInvalid(s, o, m);
    }
  }

  /** After a resolution exactly the links to what was resolved dangle. */
  lemma DiscardedDangles(s: Store, m: nat, preserves: bool)
    requires Valid(s) && m in s.quarantine
    ensures Resolve(s, m, preserves).Done?
    ensures var t, broken := Resolve(s, m, preserves).store, Linking(s.links, m);
            && Dangling(t, broken, m)
            && Resolve(Cut(s, broken), m, preserves) == Done(Cut(t, broken), Resolve(s, m, preserves).value)
            && (Resolve(s, m, preserves).value.Some? ==>
                  m < Resolve(s, m, preserves).value.value
                  && forall o :: o in broken ==> o < Resolve(s, m, preserves).value.value)
  {
    var broken := Linking(s.links, m);
    LinkingCut(s, m);
    ResolveCut(s, broken, m, preserves);
    ResolveKeeps(Cut(s, broken), m, preserves);
    ResolveShape(s, m, preserves);
    if m in s.links { assert Replaces(s, m, s.links[m]); }
  }

  lemma ReplacementStays(s: Store, m: nat)
    requires Valid(s) && m in s.quarantine && m in s.links
    ensures Resolve(s, m, true).Done?
    ensures var t, c := Resolve(s, m, true).store, s.links[m];
            && (c in s.pending ==> c in t.pending) && c !in t.claimed && c !in t.receipted
            && t.quarantine == s.quarantine - {m} && t.links == s.links - {m} && m in t.receipted
  {
    assert Replaces(s, m, s.links[m]);
    ResolveShape(s, m, true);
  }

  /** Asking for a resubmission does not look at the links of others either. */
  lemma EnsuredCut(s: Store, m: nat, q: Request)
    requires Valid(s)
    ensures var broken := Linking(s.links, m);
            && Ensured(Cut(s, broken), m, q) ==
                 (match Ensured(s, m, q)
                  case Failed(e) => Failed(e)
                  case Done(t, c) => Done(Cut(t, broken), c))
            && (Ensured(s, m, q).Done? ==> Linking(Ensured(s, m, q).store.links, m) == broken)
  {
    var broken := Linking(s.links, m);
    LinkingCut(s, m);
    EnsureKeeps(s, m, q);
    if m in s.links { assert Replaces(s, m, s.links[m]); }
    assert m in s.quarantine ==> m < s.next;
    LinkedCut(s.links, broken, m, s.next);
  }

  lemma LinkedCut(links: map<nat, nat>, broken: set<nat>, m: nat, next: nat)
    requires m !in broken
    ensures (links - broken)[m := next] == links[m := next] - broken
    ensures forall c :: c in (links - broken).Values ==> c in links.Values
  {
    forall c | c in (links - broken).Values ensures c in links.Values {}
  }
}
