/**
 Whether the receipt of a pending mutation always finds room: exactly in which states it does, and
 for exactly which limits it does over every run.
 */
module ReceiptCapacity {
  import opened Basics
  import opened SettlementLog
  import opened SettlementRuns

  // ---------------------------------------------------------------- the outbox stays within its limit

  function Unresolved(s: Log): nat {
    |s.pending| + |s.quarantine|
  }

  lemma {:induction false} SettleShrinks(s: Log, batch: seq<nat>)
    ensures Unresolved(Settle(s, batch)) <= Unresolved(s)
    decreases |batch|
  {
    if batch != [] {
      SettleShrinks(if batch[0] in s.pending then SettleRow(s, batch[0]) else s, batch[1..]);
    }
  }

  lemma AdmitBounds(s: Log, l: Limits, e: Envelope, replacing: bool)
    ensures var t := Admit(s, l, e, replacing).0;
            t == s || Unresolved(t) <= l.maximumPending + if replacing then 1 else 0
  {
    if Admit(s, l, e, replacing).1.Created? {
      assert |s.pending + {s.nextLocal}| <= |s.pending| + 1;
    }
  }

  lemma SetAsideBounds(s: Log, r: nat)
    requires r in s.pending
    ensures Unresolved(SetAside(s, r)) <= Unresolved(s)
  {
    RemovedSize(s.pending, {r});
    assert |s.quarantine + {r}| <= |s.quarantine| + 1;
  }

  lemma ResolveCases(s: Log, l: Limits, r: nat)
    ensures var t := Prune(s, l.retainedReceipts, l.retainedIds);
            Resolve(s, l, r) == s
            || (r in s.quarantine
                && Resolve(s, l, r) == WithReceipt(t.(quarantine := t.quarantine - {r}, pending := t.pending + {r}), r))
  {
  }

  lemma ResolveBounds(s: Log, l: Limits, r: nat)
    requires Spared(s, Prune(s, l.retainedReceipts, l.retainedIds))
    ensures Unresolved(Resolve(s, l, r)) <= Unresolved(s)
  {
    ResolveCases(s, l, r);
    if r in s.quarantine {
      RemovedSize(s.quarantine, {r});
      assert |s.pending + {r}| <= |s.pending| + 1;
    }
  }

  lemma PersistBounds(s: Log, l: Limits, r: nat)
    requires Valid(s, l)
    ensures Unresolved(Persist(s, l, r)) == Unresolved(s)
    ensures Unresolved(Prune(s, l.retainedReceipts, l.retainedIds)) == Unresolved(s)
  {
    PruneSpares(s, l);
  }

  /** Only a resubmission, which does not count the row it replaces, takes the outbox past its limit. */
  lemma StepBounds(s: Log, l: Limits, step: Step, bound: nat)
    requires Valid(s, l) && Enabled(s, step) && Unresolved(s) <= bound && l.maximumPending <= bound
    requires step.Mutate? && step.replacing ==> l.maximumPending < bound
    ensures Unresolved(Next(s, l, step)) <= bound
  {
    match step {
      case Mutate(e, replacing) => AdmitBounds(s, l, e, replacing);
      case PersistReceipt(r) => PersistBounds(s, l, r);
      case SettleBatch(batch) => SettleShrinks(s, batch);
      case Quarantine(r) => SetAsideBounds(s, r);
      case ResolveQuarantine(r) =>
        PruneSpares(s, l);
        ResolveBounds(s, l, r);
      case AcknowledgeSettlements(n) =>
      case PruneReceipts => PersistBounds(s, l, 0);
    }
  }

  ghost predicate Resubmits(run: seq<Step>) {
    exists i :: 0 <= i < |run| && run[i].Mutate? && run[i].replacing
  }

  lemma {:induction false} RunBounds(s: Log, l: Limits, run: seq<Step>, bound: nat)
    requires Valid(s, l) && Follows(s, l, run) && Unresolved(s) <= bound && l.maximumPending <= bound
    requires Resubmits(run) ==> l.maximumPending < bound
    ensures Unresolved(AfterRun(s, l, run)) <= bound
    decreases |run|
  {
    if run != [] {
      assert run[0].Mutate? && run[0].replacing ==> Resubmits(run);
      assert Resubmits(run[1..]) ==> Resubmits(run) by {
        if i :| 0 <= i < |run[1..]| && run[1..][i].Mutate? && run[1..][i].replacing {
          assert run[i + 1] == run[1..][i];
        }
      }
      StepBounds(s, l, run[0], bound);
      StepKeepsValid(s, l, run[0]);
      RunBounds(Next(s, l, run[0]), l, run[1..], bound);
    }
  }

  /** A pending mutation's receipt is there after it arrived exactly when it was, or the held ones leave room. */
  lemma PersistStoresExactly(s: Log, l: Limits, r: nat)
    requires Valid(s, l) && Configured(l) && r in s.pending
    ensures r in Receipted(Persist(s, l, r)) <==> r in s.open || |Held(s)| < l.maximumReceipts
  {
    CapacityExactly(s, l);
  }

  lemma ReceiptFits(s: Log, l: Limits, r: nat)
    requires Valid(s, l) && Configured(l) && r in s.pending && Unresolved(s) <= l.maximumReceipts
    ensures r in Receipted(Persist(s, l, r))
  {
    PersistStoresExactly(s, l, r);
    if r !in s.open { SubsetSize(Held(s), s.pending - {r}); }
  }

  /**
   In every reachable state the first receipt of a pending mutation is stored, provided the receipt
   table is larger than the outbox or no quarantined mutation was ever resubmitted.
   */
  lemma ReceiptsAlwaysFit(l: Limits, run: seq<Step>, r: nat)
    requires Configured(l) && Follows(Initial(), l, run)
    requires l.maximumPending < l.maximumReceipts || !Resubmits(run)
    requires r in AfterRun(Initial(), l, run).pending
    ensures r in Receipted(Persist(AfterRun(Initial(), l, run), l, r))
  {
    InitialHolds(l);
    RunKeepsValid(Initial(), l, run);
    RunBounds(Initial(), l, run, if Resubmits(run) then l.maximumPending + 1 else l.maximumPending);
    ReceiptFits(AfterRun(Initial(), l, run), l, r);
  }

  // ---------------------------------------------------------------- exactly the configurations that fit

  /** No more local sequences are ever given out than there are safe integers. */
  lemma {:induction false} SequencesAreSafe(s: Log, l: Limits, run: seq<Step>)
    requires Valid(s, l) && Follows(s, l, run) && s.nextLocal <= MAX_SAFE_INTEGER
    ensures AfterRun(s, l, run).nextLocal <= MAX_SAFE_INTEGER
    decreases |run|
  {
    if run != [] {
      StepKeepsValid(s, l, run[0]);
      NextSequenceIsSafe(s, l, run[0]);
      SequencesAreSafe(Next(s, l, run[0]), l, run[1..]);
    }
  }

  lemma PersistCases(s: Log, l: Limits, r: nat)
    ensures Persist(s, l, r) == s || Persist(s, l, r) == WithReceipt(Prune(s, l.retainedReceipts, l.retainedIds), r)
  {
  }

  lemma PruneAllocatesNothing(s: Log, l: Limits, r: nat)
    requires Valid(s, l)
    ensures Prune(s, l.retainedReceipts, l.retainedIds).nextLocal == s.nextLocal
    ensures Persist(s, l, r).nextLocal == s.nextLocal && Resolve(s, l, r).nextLocal == s.nextLocal
  {
    assert Prune(s, l.retainedReceipts, l.retainedIds).nextLocal == s.nextLocal by { PruneSpares(s, l); }
    PersistCases(s, l, r);
    ResolveCases(s, l, r);
  }

  lemma NextSequenceIsSafe(s: Log, l: Limits, step: Step)
    requires Valid(s, l) && Enabled(s, step) && s.nextLocal <= MAX_SAFE_INTEGER
    ensures Next(s, l, step).nextLocal <= MAX_SAFE_INTEGER
  {
    match step {
      case Mutate(e, replacing) => AdmitCases(s, l, e, replacing);
      case PersistReceipt(r) => PruneAllocatesNothing(s, l, r);
      case SettleBatch(batch) => SettleAllocatesNothing(s, batch);
      case Quarantine(r) =>
      case ResolveQuarantine(r) => PruneAllocatesNothing(s, l, r);
      case AcknowledgeSettlements(n) =>
      case PruneReceipts => PruneAllocatesNothing(s, l, 0);
    }
  }

  lemma {:induction false} SettleAllocatesNothing(s: Log, batch: seq<nat>)
    ensures Settle(s, batch).nextLocal == s.nextLocal
    decreases |batch|
  {
    if batch != [] {
      SettleAllocatesNothing(if batch[0] in s.pending then SettleRow(s, batch[0]) else s, batch[1..]);
    }
  }

  function Numbers(n: nat): (numbers: set<nat>)
    ensures |numbers| == n && forall r :: r in numbers <==> 0 < r <= n
  {
    if n == 0 then {} else Numbers(n - 1) + {n}
  }

  /** The sequences run out before the receipts of that many mutations can be held. */
  lemma HeldBySequences(s: Log, r: nat)
    requires Partitioned(s) && s.nextLocal <= MAX_SAFE_INTEGER && r in s.pending && r !in s.open
    ensures |Held(s)| + 2 <= MAX_SAFE_INTEGER
  {
    forall k | k in Held(s) ensures k in Numbers(s.nextLocal - 1) - {r} { assert k in Known(s); }
    assert r in Known(s);
    SubsetSize(Held(s), Numbers(s.nextLocal - 1) - {r});
  }

  function Numbered(n: nat): Envelope {
    Envelope(seq(n, _ => 'x'), "", "")
  }

  function Made(n: nat): map<nat, Envelope> {
    map r | r in Numbers(n) :: Numbered(r)
  }

  /** The first mutation is set aside; the others, up to the n-th, are pending. */
  function Queue(n: nat): Log {
    Log(Made(n), Numbers(n) - {1}, {1}, {}, map[], {}, n + 1, 1, 0, 0, map[], map[])
  }

  /** All n mutations are pending, the first k of them with receipts. */
  function Holding(n: nat, k: nat): Log {
    Log(Made(n), Numbers(n), {}, Numbers(k), map[], {}, n + 1, 1, 0, 0, map[], map[])
  }

  lemma NumberedIsNew(n: nat)
    requires n > 0
    ensures Search(Queue(n), Numbered(n + 1)).Unknown?
  {
    var s := Queue(n);
    forall r: nat | 0 < r <= n ensures Numbered(r).id != Numbered(n + 1).id {
      assert |Numbered(r).id| != |Numbered(n + 1).id|;
    }
    assert WithId(s, s.pending, Numbered(n + 1).id) == {};
    assert WithId(s, s.quarantine, Numbered(n + 1).id) == {};
  }

  lemma QueueSize(n: nat)
    requires n > 0
    ensures |Queue(n).pending| + |Queue(n).quarantine| == n
  {
    RemovedSize(Numbers(n), {1});
  }

  lemma AdmitsNew(s: Log, l: Limits, e: Envelope, replacing: bool)
    requires Search(s, e).Unknown? && s.nextLocal < MAX_SAFE_INTEGER
    requires |s.pending| + |s.quarantine| < l.maximumPending + if replacing then 1 else 0
    ensures Admit(s, l, e, replacing).0 == Allocated(s, e)
  {
  }

  lemma QueueGrows(n: nat)
    requires n > 0
    ensures Allocated(Queue(n), Numbered(n + 1)) == Queue(n + 1)
  {
    assert Made(n + 1) == Made(n)[n + 1 := Numbered(n + 1)];
    assert Numbers(n + 1) - {1} == Numbers(n) - {1} + {n + 1};
  }

  /** The last mutation resubmits the first, so it is not counted against the limit. */
  lemma Queues(l: Limits, n: nat)
    requires 0 < n <= l.maximumPending && n + 1 < MAX_SAFE_INTEGER
    ensures Next(Queue(n), l, Mutate(Numbered(n + 1), n == l.maximumPending)) == Queue(n + 1)
  {
    NumberedIsNew(n);
    QueueSize(n);
    AdmitsNew(Queue(n), l, Numbered(n + 1), n == l.maximumPending);
    QueueGrows(n);
  }

  lemma NothingToTake(s: Log, excess: nat)
    requires s.open <= s.pending && s.settled == map[]
    ensures OpenVictims(s, excess) == {} && SettledVictims(s, excess) == {}
  {
    assert s.open - s.pending == {};
  }

  lemma TakenNothing(s: Log, ids: nat)
    requires s.settled == map[] && s.retired == {} && s.marks == map[]
    ensures Without(s, {}, {}, ids) == s
  {
    assert NamesAmong(s, {}) == {} && RowsOf(s, {}) == {};
  }

  /** Receipts of pending mutations are never pruned. */
  lemma HoldingIsKept(n: nat, k: nat, target: nat, ids: nat)
    requires k <= n
    ensures Prune(Holding(n, k), target, ids) == Holding(n, k)
  {
    var s := Holding(n, k);
    NothingToTake(s, Minus(ReceiptCount(s), target));
    TakenNothing(s, ids);
  }

  lemma NothingPruned(s: Log, target: nat, ids: nat)
    requires ReceiptCount(s) == 0
    ensures Prune(s, target, ids) == s
  {
  }

  lemma ResolveStores(s: Log, l: Limits, r: nat)
    requires r in s.quarantine && ReceiptCount(s) < l.maximumReceipts
    requires Prune(s, l.retainedReceipts, l.retainedIds) == s
    ensures Resolve(s, l, r) == WithReceipt(s.(quarantine := s.quarantine - {r}, pending := s.pending + {r}), r)
  {
  }

  lemma FirstReturns(n: nat)
    requires 0 < n
    ensures var s := Queue(n);
            WithReceipt(s.(quarantine := s.quarantine - {1}, pending := s.pending + {1}), 1) == Holding(n, 1)
  {
    assert Numbers(n) - {1} + {1} == Numbers(n) && {} + {1} == Numbers(1);
  }

  lemma Resolves(l: Limits, n: nat)
    requires 0 < n && 0 < l.maximumReceipts
    ensures Next(Queue(n), l, ResolveQuarantine(1)) == Holding(n, 1)
  {
    assert ReceiptCount(Queue(n)) == 0;
    NothingPruned(Queue(n), l.retainedReceipts, l.retainedIds);
    ResolveStores(Queue(n), l, 1);
    FirstReturns(n);
  }

  lemma PersistStores(s: Log, l: Limits, r: nat)
    requires r in s.pending && r !in Receipted(s) && ReceiptCount(s) < l.maximumReceipts
    requires Prune(s, l.retainedReceipts, l.retainedIds) == s
    ensures Persist(s, l, r) == WithReceipt(s, r)
  {
  }

  lemma Holds(l: Limits, n: nat, k: nat)
    requires 0 < k < n && k < l.maximumReceipts
    ensures Next(Holding(n, k), l, PersistReceipt(k + 1)) == Holding(n, k + 1)
  {
    HoldingIsKept(n, k, l.retainedReceipts, l.retainedIds);
    assert ReceiptCount(Holding(n, k)) == k && Receipted(Holding(n, k)) == Numbers(k);
    PersistStores(Holding(n, k), l, k + 1);
    assert Numbers(k + 1) == Numbers(k) + {k + 1};
  }

  lemma Refuses(l: Limits, n: nat)
    requires n == l.maximumReceipts + 1
    ensures n !in Receipted(Persist(Holding(n, n - 1), l, n))
  {
    HoldingIsKept(n, n - 1, l.retainedReceipts, l.retainedIds);
    assert ReceiptCount(Holding(n, n - 1)) == n - 1 && Receipted(Holding(n, n - 1)) == Numbers(n - 1);
  }

  lemma Starts(l: Limits)
    requires l.maximumPending > 0
    ensures var s := Next(Initial(), l, Mutate(Numbered(1), false));
            Enabled(s, Quarantine(1)) && Next(s, l, Quarantine(1)) == Queue(1)
  {
    var s := Next(Initial(), l, Mutate(Numbered(1), false));
    assert s == Allocated(Initial(), Numbered(1));
    assert Made(1) == map[1 := Numbered(1)] && Numbers(1) == {1};
    assert SetAside(s, 1) == Queue(1);
  }

  lemma RunOf(s: Log, l: Limits, step: Step, rest: seq<Step>)
    requires s.nextSettled > 0 && Enabled(s, step) && Follows(Next(s, l, step), l, rest)
    ensures Follows(s, l, [step] + rest) && AfterRun(s, l, [step] + rest) == AfterRun(Next(s, l, step), l, rest)
  {
    assert ([step] + rest)[1..] == rest;
  }

  lemma {:induction false} HoldingRun(l: Limits, n: nat, k: nat) returns (run: seq<Step>)
    requires 0 < k <= l.maximumReceipts < n
    ensures Follows(Holding(n, k), l, run) && AfterRun(Holding(n, k), l, run) == Holding(n, l.maximumReceipts)
    decreases l.maximumReceipts - k
  {
    run := [];
    if k < l.maximumReceipts {
      run := HoldingRun(l, n, k + 1);
      Holds(l, n, k);
      RunOf(Holding(n, k), l, PersistReceipt(k + 1), run);
      run := [PersistReceipt(k + 1)] + run;
    }
  }

  /** The queue fills up one by one, from `n` mutations to one more than the outbox holds. */
  lemma {:induction false} QueueRun(l: Limits, n: nat, last: nat, rest: seq<Step>) returns (run: seq<Step>)
    requires 0 < n <= last == l.maximumPending + 1 < MAX_SAFE_INTEGER && Follows(Queue(last), l, rest)
    ensures Follows(Queue(n), l, run) && AfterRun(Queue(n), l, run) == AfterRun(Queue(last), l, rest)
    decreases last - n
  {
    run := rest;
    if n < last {
      run := QueueRun(l, n + 1, last, rest);
      run := LongerQueueRun(l, n, run);
    }
  }

  lemma LongerQueueRun(l: Limits, n: nat, rest: seq<Step>) returns (run: seq<Step>)
    requires 0 < n <= l.maximumPending < MAX_SAFE_INTEGER - 1 && Follows(Queue(n + 1), l, rest)
    ensures Follows(Queue(n), l, run) && AfterRun(Queue(n), l, run) == AfterRun(Queue(n + 1), l, rest)
  {
    var step := Mutate(Numbered(n + 1), n == l.maximumPending);
    Queues(l, n);
    RunOf(Queue(n), l, step, rest);
    run := [step] + rest;
  }

  lemma FullQueueRun(l: Limits, n: nat) returns (run: seq<Step>)
    requires n == l.maximumPending + 1 && 0 < l.maximumPending == l.maximumReceipts && n < MAX_SAFE_INTEGER
    ensures Follows(Queue(n), l, run) && AfterRun(Queue(n), l, run) == Holding(n, l.maximumReceipts)
  {
    run := HoldingRun(l, n, 1);
    Resolves(l, n);
    RunOf(Queue(n), l, ResolveQuarantine(1), run);
    run := [ResolveQuarantine(1)] + run;
  }

  /**
   With no more room for receipts than for mutations: one mutation is quarantined, the outbox fills
   up, the quarantined one is resubmitted and then resolved, and the receipts of the others fill the
   table. The receipt of the last pending mutation does not fit.
   */
  lemma Overflows(l: Limits) returns (run: seq<Step>, r: nat)
    requires Configured(l) && l.maximumPending == l.maximumReceipts && l.maximumPending + 1 < MAX_SAFE_INTEGER
    ensures Follows(Initial(), l, run) && r in AfterRun(Initial(), l, run).pending
    ensures r !in Receipted(Persist(AfterRun(Initial(), l, run), l, r))
  {
    r := l.maximumPending + 1;
    var s := Next(Initial(), l, Mutate(Numbered(1), false));
    run := FullQueueRun(l, r);
    run := QueueRun(l, 1, r, run);
    Starts(l);
    RunOf(s, l, Quarantine(1), run);
    run := [Quarantine(1)] + run;
    RunOf(Initial(), l, Mutate(Numbered(1), false), run);
    run := [Mutate(Numbered(1), false)] + run;
    Refuses(l, r);
  }

  /** Over every run, the receipt of a pending mutation is there once it arrived. */
  ghost predicate EveryReceiptFits(l: Limits) {
    forall run, r :: Follows(Initial(), l, run) && r in AfterRun(Initial(), l, run).pending
                     ==> r in Receipted(Persist(AfterRun(Initial(), l, run), l, r))
  }

  /**
   The receipts of all pending mutations fit over every run exactly when the receipt table is larger
   than the outbox, or so large that the local sequences run out before it is full.
   */
  lemma ReceiptsFitExactly(l: Limits)
    requires Configured(l)
    ensures EveryReceiptFits(l)
            <==> l.maximumPending < l.maximumReceipts || l.maximumReceipts + 1 >= MAX_SAFE_INTEGER
  {
    if l.maximumPending == l.maximumReceipts && l.maximumPending + 1 < MAX_SAFE_INTEGER {
      var run, r := Overflows(l);
    } else {
      forall run, r | Follows(Initial(), l, run) && r in AfterRun(Initial(), l, run).pending
        ensures r in Receipted(Persist(AfterRun(Initial(), l, run), l, r))
      {
        if l.maximumPending < l.maximumReceipts {
          ReceiptsAlwaysFit(l, run, r);
        } else {
          FitsBySequences(l, run, r);
        }
      }
    }
  }

  lemma FitsBySequences(l: Limits, run: seq<Step>, r: nat)
    requires Configured(l) && Follows(Initial(), l, run) && r in AfterRun(Initial(), l, run).pending
    requires l.maximumReceipts + 1 >= MAX_SAFE_INTEGER
    ensures r in Receipted(Persist(AfterRun(Initial(), l, run), l, r))
  {
    InitialHolds(l);
    RunKeepsValid(Initial(), l, run);
    SequencesAreSafe(Initial(), l, run);
    PersistStoresExactly(AfterRun(Initial(), l, run), l, r);
    if r !in AfterRun(Initial(), l, run).open { HeldBySequences(AfterRun(Initial(), l, run), r); }
  }
}
