/**
 The operations on the receipt tables and the settlement log, and what holds over every run of them:
 a settlement reader is never silently skipped past, and a mutation id is never used twice within
 its retention window.
 */
module SettlementRuns {
  import opened Basics
  import opened Paging
  import opened SettlementLog

  const MAX_SAFE_INTEGER: nat := 9007199254740991
  const SETTLEMENT_PAGE_SIZE: nat := 64

  // ---------------------------------------------------------------- mutation identity

  datatype Lookup = Existing(row: nat) | Conflict | Unknown

  function WithId(s: Log, part: set<nat>, id: string): set<nat> {
    set r | r in part && r in s.made && s.made[r].id == id
  }

  /** The recorded row if it carries the same mutation. */
  function SameOrConflict(s: Log, r: nat, e: Envelope): Lookup {
    if r in s.made && s.made[r] == e then Existing(r) else Conflict
  }

  /** Pending rows first, then quarantine, then the settled snapshots, then receipts and retired ids. */
  function Search(s: Log, e: Envelope): Lookup {
    if WithId(s, s.pending, e.id) != {} then SameOrConflict(s, Least(WithId(s, s.pending, e.id)), e)
    else if WithId(s, s.quarantine, e.id) != {} then Conflict
    else if WithId(s, s.settled.Values, e.id) != {} then SameOrConflict(s, Least(WithId(s, s.settled.Values, e.id)), e)
    else if WithId(s, s.open, e.id) != {} then Conflict
    else if WithId(s, s.retired, e.id) != {} then Conflict
    else Unknown
  }

  lemma UnknownIsNew(s: Log, e: Envelope)
    requires Partitioned(s)
    ensures Search(s, e).Unknown? <==> forall r :: r in Known(s) ==> s.made[r].id != e.id
  {
    forall r | r in Known(s) && s.made[r].id == e.id ensures !Search(s, e).Unknown? {
      assert r in WithId(s, s.pending, e.id) || r in WithId(s, s.quarantine, e.id)
             || r in WithId(s, s.settled.Values, e.id) || r in WithId(s, s.open, e.id)
             || r in WithId(s, s.retired, e.id);
    }
  }

  /** The lookup sees every known use of an id, and returns it only with the same content. */
  lemma SearchIsExact(s: Log, l: Limits, e: Envelope)
    requires Valid(s, l)
    ensures Search(s, e).Unknown? <==> forall r :: r in Known(s) ==> s.made[r].id != e.id
    ensures forall r :: Search(s, e) == Existing(r) <==> r in s.pending + s.settled.Values && s.made[r] == e
  {
    UnknownIsNew(s, e);
    forall r ensures Search(s, e) == Existing(r) <==> r in s.pending + s.settled.Values && s.made[r] == e {
      if r in s.pending + s.settled.Values && s.made[r] == e { SearchFinds(s, l, e, r); }
    }
  }

  lemma SearchFinds(s: Log, l: Limits, e: Envelope, r: nat)
    requires Valid(s, l) && r in s.pending + s.settled.Values && s.made[r] == e
    ensures Search(s, e) == Existing(r)
  {
    OnlyOne(s, l, r, e.id);
  }

  lemma OnlyOne(s: Log, l: Limits, r: nat, id: string)
    requires Valid(s, l) && r in Known(s) && s.made[r].id == id
    ensures forall part :: part <= Known(s) ==> WithId(s, part, id) == if r in part then {r} else {}
  {
  }

  // ---------------------------------------------------------------- operations

  datatype Admission = Repeated(row: nat) | IdentityConflict | SequenceExhausted | TooManyPending | Created(row: nat)

  function Allocated(s: Log, e: Envelope): Log {
    s.(made := s.made[s.nextLocal := e], pending := s.pending + {s.nextLocal}, nextLocal := s.nextLocal + 1)
  }

  /** A repeated request returns what it made; a resubmission does not count the row it replaces. */
  function Admit(s: Log, l: Limits, e: Envelope, replacing: bool): (Log, Admission) {
    match Search(s, e)
    case Existing(r) => (s, Repeated(r))
    case Conflict => (s, IdentityConflict)
    case Unknown =>
      var unresolved := |s.pending| + |s.quarantine| - (if replacing then 1 else 0);
      if s.nextLocal >= MAX_SAFE_INTEGER then (s, SequenceExhausted)
      else if unresolved >= l.maximumPending then (s, TooManyPending)
      else (Allocated(s, e), Created(s.nextLocal))
  }

  /** No known mutation has the id. */
  ghost predicate Unused(s: Log, id: string)
    requires Known(s) <= s.made.Keys
  {
    forall r :: r in Known(s) ==> s.made[r].id != id
  }

  /** The mutation is recorded, with the same content, as the row. */
  ghost predicate RecordedAs(s: Log, e: Envelope, r: nat)
    requires Known(s) <= s.made.Keys
  {
    (r in s.pending || r in s.settled.Values) && s.made[r] == e
  }

  lemma LookupExactly(s: Log, l: Limits, e: Envelope)
    requires Valid(s, l)
    ensures Search(s, e).Unknown? <==> Unused(s, e.id)
    ensures forall r :: Search(s, e) == Existing(r) <==> RecordedAs(s, e, r)
    ensures Unused(s, e.id) ==> forall r :: !RecordedAs(s, e, r)
  {
    SearchIsExact(s, l, e);
  }

  /** What is answered, told by what is recorded and by the two limits. */
  ghost predicate Answers(s: Log, l: Limits, e: Envelope, replacing: bool, a: Admission)
    requires Known(s) <= s.made.Keys
  {
    var unresolved := |s.pending| + |s.quarantine| - (if replacing then 1 else 0);
    && (forall r :: a == Repeated(r) <==> RecordedAs(s, e, r))
    && (a.IdentityConflict? <==> !Unused(s, e.id) && forall r :: !RecordedAs(s, e, r))
    && (a.SequenceExhausted? <==> Unused(s, e.id) && s.nextLocal >= MAX_SAFE_INTEGER)
    && (a.TooManyPending? <==>
          Unused(s, e.id) && s.nextLocal < MAX_SAFE_INTEGER && unresolved >= l.maximumPending)
    && (a.Created? <==> Unused(s, e.id) && s.nextLocal < MAX_SAFE_INTEGER && unresolved < l.maximumPending)
    && (a.Created? ==> a.row == s.nextLocal)
  }

  lemma AdmitAnswers(s: Log, l: Limits, e: Envelope, replacing: bool)
    requires Known(s) <= s.made.Keys
    requires Search(s, e).Unknown? <==> Unused(s, e.id)
    requires forall r :: Search(s, e) == Existing(r) <==> RecordedAs(s, e, r)
    ensures Answers(s, l, e, replacing, Admit(s, l, e, replacing).1)
  {
    match Search(s, e)
    case Existing(r) => assert RecordedAs(s, e, r);
    case Conflict =>
    case Unknown => forall r ensures !RecordedAs(s, e, r) {}
  }

  /** Every request gets the answer it should. */
  lemma AdmitExactly(s: Log, l: Limits, e: Envelope, replacing: bool)
    requires Valid(s, l)
    ensures Answers(s, l, e, replacing, Admit(s, l, e, replacing).1)
  {
    LookupExactly(s, l, e);
    AdmitAnswers(s, l, e, replacing);
  }

  function WithReceipt(s: Log, r: nat): Log {
    s.(open := s.open + {r})
  }

  /** A receipt is kept if it is new, belongs to a pending mutation and fits the table. */
  function Persist(s: Log, l: Limits, r: nat): Log {
    var pruned := Prune(s, l.retainedReceipts, l.retainedIds);
    if r in Receipted(s) || r !in s.pending || ReceiptCount(pruned) >= l.maximumReceipts then s
    else WithReceipt(pruned, r)
  }

  function SettleRow(s: Log, r: nat): Log {
    s.(pending := s.pending - {r}, open := s.open - {r}, settled := s.settled[s.nextSettled := r],
       history := s.history[s.nextSettled := r], nextSettled := s.nextSettled + 1)
  }

  /** The batch's rows that are still pending settle in batch order. */
  function Settle(s: Log, batch: seq<nat>): Log
    decreases |batch|
  {
    if batch == [] then s
    else Settle(if batch[0] in s.pending then SettleRow(s, batch[0]) else s, batch[1..])
  }

  function SetAside(s: Log, r: nat): Log {
    s.(pending := s.pending - {r}, quarantine := s.quarantine + {r})
  }

  /** Setting aside moves the mutation between the two tables and nothing else. */
  lemma SetAsideMoves(s: Log, r: nat)
    requires Partitioned(s) && r in s.pending
    ensures var t := SetAside(s, r);
            && r !in t.pending && r in t.quarantine
            && forall m :: m != r ==> (m in t.pending <==> m in s.pending) && (m in t.quarantine <==> m in s.quarantine)
  {
  }

  /** A quarantined mutation returns to the outbox with its receipt. */
  function Resolve(s: Log, l: Limits, r: nat): Log {
    var pruned := Prune(s, l.retainedReceipts, l.retainedIds);
    if r !in s.quarantine || ReceiptCount(pruned) >= l.maximumReceipts then s
    else WithReceipt(pruned.(quarantine := pruned.quarantine - {r}, pending := pruned.pending + {r}), r)
  }

  /** A quarantined mutation comes back with its receipt exactly if the held receipts leave room for it. */
  lemma ResolvesExactly(s: Log, l: Limits, r: nat)
    requires Valid(s, l) && Configured(l) && r in s.quarantine
    ensures var t := Resolve(s, l, r);
            if |Held(s)| < l.maximumReceipts
            then t.pending == s.pending + {r} && t.quarantine == s.quarantine - {r} && r in t.open
                 && PrunedTo(s, l.retainedReceipts, l.retainedIds,
                             t.(pending := s.pending, quarantine := s.quarantine, open := t.open - {r}))
            else t == s
  {
    var pruned, t := Prune(s, l.retainedReceipts, l.retainedIds), Resolve(s, l, r);
    CapacityExactly(s, l);
    assert r !in s.open;
    if |Held(s)| < l.maximumReceipts {
      PruneSpares(s, l);
      ReturnedFrom(s, pruned, r);
      assert t.(pending := s.pending, quarantine := s.quarantine, open := t.open - {r}) == pruned;
      PruneTakesOldest(s, l, l.retainedReceipts);
    }
  }

  lemma ReturnedFrom(s: Log, pruned: Log, r: nat)
    requires Spared(s, pruned) && r !in s.open
    ensures var t := WithReceipt(pruned.(quarantine := pruned.quarantine - {r}, pending := pruned.pending + {r}), r);
            && t.pending == s.pending + {r} && t.quarantine == s.quarantine - {r} && r in t.open
            && t.(pending := s.pending, quarantine := s.quarantine, open := t.open - {r}) == pruned
  {
    assert pruned.open + {r} - {r} == pruned.open;
  }

  function Acknowledge(s: Log, n: nat): Log
    requires s.nextSettled > 0
  {
    s.(floor := Max(s.floor, if n < s.nextSettled - 1 then n else s.nextSettled - 1))
  }

  datatype Step =
    | Mutate(e: Envelope, replacing: bool)
    | PersistReceipt(row: nat)
    | SettleBatch(batch: seq<nat>)
    | Quarantine(row: nat)
    | ResolveQuarantine(row: nat)
    | AcknowledgeSettlements(through: nat)
    | PruneReceipts

  ghost predicate Distinct(batch: seq<nat>) {
    forall i, j :: 0 <= i < j < |batch| ==> batch[i] != batch[j]
  }

  /** Settlements are prepared from rows with receipts; only rows without one are set aside. */
  ghost predicate Enabled(s: Log, step: Step) {
    match step
    case SettleBatch(batch) => Distinct(batch) && forall r :: r in batch && r in s.pending ==> r in s.open
    case Quarantine(r) => r in s.pending && r !in s.open
    case _ => true
  }

  function Next(s: Log, l: Limits, step: Step): Log
    requires s.nextSettled > 0
  {
    match step
    case Mutate(e, replacing) => Admit(s, l, e, replacing).0
    case PersistReceipt(r) => Persist(s, l, r)
    case SettleBatch(batch) => Settle(s, batch)
    case Quarantine(r) => SetAside(s, r)
    case ResolveQuarantine(r) => Resolve(s, l, r)
    case AcknowledgeSettlements(n) => Acknowledge(s, n)
    case PruneReceipts => Prune(s, l.retainedReceipts, l.retainedIds)
  }

  // ---------------------------------------------------------------- every step keeps the invariant

  /** The marks stay exact while more is recorded past them. */
  lemma MarksSurvive(s: Log, t: Log)
    requires Recorded(s) && MarksAreExact(s) && t.marks == s.marks && t.pruned == s.pruned
    requires forall r :: r in s.made ==> r in t.made && t.made[r] == s.made[r]
    requires forall q :: q in s.history ==> q in t.history && t.history[q] == s.history[q]
    requires forall q :: q in t.history && q <= s.pruned ==> q in s.history
    ensures MarksAreExact(t)
  {
    forall n ensures IsLast(t.history, t.made, t.pruned, n, Mark(t.marks, n)) {
      assert IsLast(s.history, s.made, s.pruned, n, Mark(s.marks, n));
    }
  }

  lemma AllocationPartitioned(s: Log, e: Envelope)
    requires Partitioned(s)
    ensures Partitioned(Allocated(s, e)) && Known(Allocated(s, e)) == Known(s) + {s.nextLocal}
  {
    assert Known(Allocated(s, e)) == Known(s) + {s.nextLocal};
    assert s.nextLocal !in Known(s);
  }

  lemma AllocationIdentified(s: Log, ids: nat, e: Envelope)
    requires Partitioned(s) && Identified(s, ids) && forall r :: r in Known(s) ==> s.made[r].id != e.id
    requires Partitioned(Allocated(s, e)) && Known(Allocated(s, e)) == Known(s) + {s.nextLocal}
    ensures Identified(Allocated(s, e), ids)
  {
    var t := Allocated(s, e);
    forall r | r in t.made && t.nextLocal <= r + ids ensures r in Known(t) {
      assert r == s.nextLocal || r in Known(s);
    }
    forall a, b | a in t.made && b in t.made && a < b && t.made[a].id == t.made[b].id ensures a + ids < b {
      assert a in s.made && t.made[a] == s.made[a];
      if b == s.nextLocal { assert a !in Known(s); }
    }
  }

  lemma AllocationRecorded(s: Log, e: Envelope)
    requires Partitioned(s) && Recorded(s) && MarksAreExact(s) && SettledOnce(s)
    ensures Recorded(Allocated(s, e)) && MarksAreExact(Allocated(s, e)) && SettledOnce(Allocated(s, e))
  {
    MarksSurvive(s, Allocated(s, e));
  }

  lemma AllocationKeeps(s: Log, l: Limits, e: Envelope)
    requires Valid(s, l) && forall r :: r in Known(s) ==> s.made[r].id != e.id
    ensures Valid(Allocated(s, e), l)
  {
    AllocationPartitioned(s, e);
    AllocationIdentified(s, l.retainedIds, e);
    AllocationRecorded(s, e);
  }

  lemma AdmitCases(s: Log, l: Limits, e: Envelope, replacing: bool)
    ensures Admit(s, l, e, replacing).0 == s
            || (Search(s, e).Unknown? && Admit(s, l, e, replacing).0 == Allocated(s, e))
  {
  }

  lemma AdmitKeeps(s: Log, l: Limits, e: Envelope, replacing: bool)
    requires Valid(s, l)
    ensures Valid(Admit(s, l, e, replacing).0, l)
  {
    AdmitCases(s, l, e, replacing);
    SearchIsExact(s, l, e);
    if Search(s, e).Unknown? { AllocationKeeps(s, l, e); }
  }

  lemma SettleRowValues(s: Log, r: nat)
    requires Recorded(s) && r in s.pending && r in s.open
    ensures SettleRow(s, r).settled.Values == s.settled.Values + {r}
    ensures Known(SettleRow(s, r)) == Known(s)
  {
    var t := SettleRow(s, r);
    assert t.settled[s.nextSettled] == r;
    forall x | x in s.settled.Values ensures x in t.settled.Values {
      var q :| q in s.settled && s.settled[q] == x;
      assert q != s.nextSettled && t.settled[q] == x;
    }
    assert t.settled.Values == s.settled.Values + {r};
  }

  lemma SettleRowRecorded(s: Log, r: nat)
    requires Recorded(s) && NoGap(s) && r in s.made
    ensures Recorded(SettleRow(s, r)) && NoGap(SettleRow(s, r))
  {
  }

  lemma SettleRowOnce(s: Log, r: nat)
    requires Recorded(s) && SettledOnce(s) && r in s.pending && r !in s.quarantine
    ensures SettledOnce(SettleRow(s, r))
  {
    var t := SettleRow(s, r);
    forall q | q in t.history ensures t.history[q] !in t.pending + t.quarantine + t.open {
      if q in s.history { assert s.history[q] !in s.pending + s.quarantine + s.open; }
    }
  }

  lemma SettleRowPartitioned(s: Log, r: nat, ids: nat)
    requires Partitioned(s) && Recorded(s) && Identified(s, ids) && r in s.pending && r in s.open
    ensures Partitioned(SettleRow(s, r)) && Identified(SettleRow(s, r), ids)
  {
    SettleRowValues(s, r);
  }

  lemma SettleRowKeeps(s: Log, l: Limits, r: nat)
    requires Valid(s, l) && r in s.pending && r in s.open
    ensures Valid(SettleRow(s, r), l)
  {
    assert r in Known(s);
    SettleRowPartitioned(s, r, l.retainedIds);
    SettleRowRecorded(s, r);
    SettleRowOnce(s, r);
    MarksSurvive(s, SettleRow(s, r));
  }

  lemma {:induction false} SettleKeeps(s: Log, l: Limits, batch: seq<nat>)
    requires Valid(s, l) && Enabled(s, SettleBatch(batch))
    ensures Valid(Settle(s, batch), l)
    decreases |batch|
  {
    if batch != [] {
      var r := batch[0];
      var s' := if r in s.pending then SettleRow(s, r) else s;
      if r in s.pending { SettleRowKeeps(s, l, r); }
      forall x | x in batch[1..] && x in s'.pending ensures x in s'.open { assert x in batch && x != r; }
      SettleKeeps(s', l, batch[1..]);
    }
  }

  /** The log with its unsettled mutations differently distributed. */
  function Moved(s: Log, pending: set<nat>, quarantine: set<nat>, open: set<nat>): Log {
    s.(pending := pending, quarantine := quarantine, open := open)
  }

  lemma MovedPartitioned(s: Log, pending: set<nat>, quarantine: set<nat>, open: set<nat>, ids: nat)
    requires Partitioned(s) && Identified(s, ids)
    requires pending + quarantine + open == s.pending + s.quarantine + s.open
    requires quarantine !! pending && quarantine !! open
    ensures Partitioned(Moved(s, pending, quarantine, open)) && Identified(Moved(s, pending, quarantine, open), ids)
  {
    assert Known(Moved(s, pending, quarantine, open)) == Known(s);
  }

  lemma MoveKeeps(s: Log, l: Limits, pending: set<nat>, quarantine: set<nat>, open: set<nat>)
    requires Valid(s, l) && pending + quarantine + open == s.pending + s.quarantine + s.open
    requires quarantine !! pending && quarantine !! open
    ensures Valid(Moved(s, pending, quarantine, open), l)
  {
    MovedPartitioned(s, pending, quarantine, open, l.retainedIds);
    MovedSettlements(s, pending, quarantine, open);
  }

  lemma MovedSettlements(s: Log, pending: set<nat>, quarantine: set<nat>, open: set<nat>)
    requires Recorded(s) && NoGap(s) && MarksAreExact(s) && SettledOnce(s)
    requires pending + quarantine + open == s.pending + s.quarantine + s.open
    ensures var t := Moved(s, pending, quarantine, open);
            Recorded(t) && NoGap(t) && MarksAreExact(t) && SettledOnce(t)
  {
    MarksSurvive(s, Moved(s, pending, quarantine, open));
  }

  lemma ReceiptKeeps(s: Log, l: Limits, r: nat)
    requires Valid(s, l) && r in s.pending && r !in Receipted(s)
    ensures Valid(WithReceipt(s, r), l)
  {
    MoveKeeps(s, l, s.pending, s.quarantine, s.open + {r});
  }

  lemma ResolveKeeps(s: Log, l: Limits, r: nat)
    requires Valid(s, l) && r in s.quarantine
    ensures Valid(WithReceipt(s.(quarantine := s.quarantine - {r}, pending := s.pending + {r}), r), l)
  {
    MoveKeeps(s, l, s.pending + {r}, s.quarantine - {r}, s.open + {r});
  }

  /** A prune leaves pending and quarantined mutations, and the receipts of pending ones, alone. */
  ghost predicate Spared(s: Log, t: Log) {
    && t.pending == s.pending && t.quarantine == s.quarantine
    && s.open * s.pending <= t.open <= s.open && t.settled.Values <= s.settled.Values
    && t.made == s.made && t.history == s.history && t.nextLocal == s.nextLocal && t.nextSettled == s.nextSettled
  }

  lemma PruneSpares(s: Log, l: Limits)
    requires Valid(s, l)
    ensures Spared(s, Prune(s, l.retainedReceipts, l.retainedIds))
  {
    var excess := Minus(ReceiptCount(s), l.retainedReceipts);
    if excess > 0 {
      VictimsAreOldest(s, l, excess);
      PrunedRows(s, SettledVictims(s, excess));
    }
  }

  lemma PersistKeeps(s: Log, l: Limits, r: nat)
    requires Valid(s, l)
    ensures Valid(Persist(s, l, r), l)
  {
    PruneKeepsValid(s, l, l.retainedReceipts);
    PruneSpares(s, l);
    if Persist(s, l, r) != s { ReceiptKeeps(Prune(s, l.retainedReceipts, l.retainedIds), l, r); }
  }

  lemma ResolutionKeeps(s: Log, l: Limits, r: nat)
    requires Valid(s, l)
    ensures Valid(Resolve(s, l, r), l)
  {
    PruneKeepsValid(s, l, l.retainedReceipts);
    PruneSpares(s, l);
    if Resolve(s, l, r) != s { ResolveKeeps(Prune(s, l.retainedReceipts, l.retainedIds), l, r); }
  }

  lemma SetAsideKeeps(s: Log, l: Limits, r: nat)
    requires Valid(s, l) && r in s.pending && r !in s.open
    ensures Valid(SetAside(s, r), l)
  {
    MoveKeeps(s, l, s.pending - {r}, s.quarantine + {r}, s.open);
  }

  lemma AcknowledgeKeeps(s: Log, l: Limits, n: nat)
    requires Valid(s, l)
    ensures Valid(Acknowledge(s, n), l)
  {
  }

  /** Every operation keeps the receipt tables consistent. */
  lemma StepKeepsValid(s: Log, l: Limits, step: Step)
    requires Valid(s, l) && Enabled(s, step)
    ensures Valid(Next(s, l, step), l)
  {
    match step {
      case Mutate(e, replacing) => AdmitKeeps(s, l, e, replacing);
      case PersistReceipt(r) => PersistKeeps(s, l, r);
      case SettleBatch(batch) => SettleKeeps(s, l, batch);
      case Quarantine(r) => SetAsideKeeps(s, l, r);
      case ResolveQuarantine(r) => ResolutionKeeps(s, l, r);
      case AcknowledgeSettlements(n) => AcknowledgeKeeps(s, l, n);
      case PruneReceipts => PruneKeepsValid(s, l, l.retainedReceipts);
    }
  }

  function Initial(): Log {
    Log(map[], {}, {}, {}, map[], {}, 1, 1, 0, 0, map[], map[])
  }

  ghost predicate Follows(s: Log, l: Limits, run: seq<Step>)
    decreases |run|
  {
    run == [] || (s.nextSettled > 0 && Enabled(s, run[0]) && Follows(Next(s, l, run[0]), l, run[1..]))
  }

  function AfterRun(s: Log, l: Limits, run: seq<Step>): Log
    decreases |run|
  {
    if run == [] || s.nextSettled == 0 then s else AfterRun(Next(s, l, run[0]), l, run[1..])
  }

  /** A run is its steps one after the other. */
  lemma {:induction false} RunSteps(s: Log, l: Limits, run: seq<Step>, last: Step)
    requires Follows(s, l, run)
    ensures AfterRun(s, l, []) == s
    ensures AfterRun(s, l, run).nextSettled > 0 ==>
              AfterRun(s, l, run + [last]) == Next(AfterRun(s, l, run), l, last)
    decreases |run|
  {
    if run == [] {
      assert run + [last] == [last] && [last][1..] == [];
    } else {
      assert (run + [last])[1..] == run[1..] + [last];
      RunSteps(Next(s, l, run[0]), l, run[1..], last);
    }
  }

  // ---------------------------------------------------------------- floors and marks only grow

  ghost predicate Grows(s: Log, t: Log) {
    && s.nextLocal <= t.nextLocal && s.nextSettled <= t.nextSettled && s.floor <= t.floor && s.pruned <= t.pruned
    && (forall n :: Mark(s.marks, n) <= Mark(t.marks, n))
    && (forall r :: r in s.made ==> r in t.made && t.made[r] == s.made[r])
    && (forall q :: q in s.history ==> q in t.history && t.history[q] == s.history[q])
  }

  lemma PruneGrows(s: Log, l: Limits)
    requires Valid(s, l)
    ensures Grows(s, Prune(s, l.retainedReceipts, l.retainedIds))
  {
    var excess := Minus(ReceiptCount(s), l.retainedReceipts);
    if excess > 0 {
      VictimsAreOldest(s, l, excess);
      WithoutGrows(s, OpenVictims(s, excess), SettledVictims(s, excess), l.retainedIds);
    }
  }

  lemma WithoutGrows(s: Log, open: set<nat>, part: set<nat>, ids: nat)
    requires Recorded(s) && NoGap(s) && MarksAreExact(s) && Prunable(s, open, part)
    ensures Grows(s, Without(s, open, part, ids))
  {
    PrunedMarks(s, open, part, ids);
  }

  lemma GrowsOn(s: Log, t: Log, u: Log)
    requires Grows(s, t) && Grows(t, u)
    ensures Grows(s, u)
  {
    forall n ensures Mark(s.marks, n) <= Mark(u.marks, n) { assert Mark(s.marks, n) <= Mark(t.marks, n); }
  }

  lemma SettleRowGrows(s: Log, r: nat)
    requires Recorded(s)
    ensures Grows(s, SettleRow(s, r)) && Grows(s, s)
  {
  }

  lemma {:induction false} SettleGrows(s: Log, l: Limits, batch: seq<nat>)
    requires Valid(s, l) && Enabled(s, SettleBatch(batch))
    ensures Grows(s, Settle(s, batch))
    decreases |batch|
  {
    if batch != [] {
      var r := batch[0];
      var s' := if r in s.pending then SettleRow(s, r) else s;
      if r in s.pending { SettleRowKeeps(s, l, r); }
      forall x | x in batch[1..] && x in s'.pending ensures x in s'.open { assert x in batch && x != r; }
      SettleGrows(s', l, batch[1..]);
      SettleRowGrows(s, r);
      GrowsOn(s, s', Settle(s', batch[1..]));
    }
  }

  lemma ReceiptsGrow(s: Log, l: Limits, r: nat)
    requires Valid(s, l)
    ensures Grows(s, Persist(s, l, r)) && Grows(s, Resolve(s, l, r))
  {
    PruneGrows(s, l);
    var pruned := Prune(s, l.retainedReceipts, l.retainedIds);
    if Persist(s, l, r) != s { GrowsOn(s, pruned, Persist(s, l, r)); }
    if Resolve(s, l, r) != s { GrowsOn(s, pruned, Resolve(s, l, r)); }
  }

  lemma AdmitGrows(s: Log, l: Limits, e: Envelope, replacing: bool)
    requires Partitioned(s)
    ensures Grows(s, Admit(s, l, e, replacing).0)
  {
    AdmitCases(s, l, e, replacing);
    assert Grows(s, s) && Grows(s, Allocated(s, e));
  }

  lemma StepGrows(s: Log, l: Limits, step: Step)
    requires Valid(s, l) && Enabled(s, step)
    ensures Grows(s, Next(s, l, step))
  {
    match step {
      case Mutate(e, replacing) => AdmitGrows(s, l, e, replacing);
      case PersistReceipt(r) => ReceiptsGrow(s, l, r);
      case SettleBatch(batch) => SettleGrows(s, l, batch);
      case Quarantine(r) => assert Grows(s, SetAside(s, r));
      case ResolveQuarantine(r) => ReceiptsGrow(s, l, r);
      case AcknowledgeSettlements(n) => assert Grows(s, Acknowledge(s, n));
      case PruneReceipts => PruneGrows(s, l);
    }
  }

  /** Over every run the log stays valid, nothing recorded is forgotten and no counter goes back. */
  lemma {:induction false} RunKeepsValid(s: Log, l: Limits, run: seq<Step>)
    requires Valid(s, l) && Follows(s, l, run)
    ensures Valid(AfterRun(s, l, run), l) && Grows(s, AfterRun(s, l, run))
    decreases |run|
  {
    if run != [] {
      StepKeepsValid(s, l, run[0]);
      StepGrows(s, l, run[0]);
      RunKeepsValid(Next(s, l, run[0]), l, run[1..]);
      GrowsOn(s, Next(s, l, run[0]), AfterRun(s, l, run));
    }
  }

  lemma InitialHolds(l: Limits)
    ensures Valid(Initial(), l)
  {
  }

  /**
   In every reachable state two mutations with one id are more than the retention window apart, and
   an id used within the window is found again: as the recorded mutation or as a conflict.
   */
  lemma IdentityOverRuns(l: Limits, run: seq<Step>, a: nat, b: nat, e: Envelope)
    requires Follows(Initial(), l, run)
    ensures var s := AfterRun(Initial(), l, run);
            && (a in s.made && b in s.made && a < b && s.made[a].id == s.made[b].id ==> a + l.retainedIds < b)
            && (a in s.made && s.made[a].id == e.id && s.nextLocal <= a + l.retainedIds ==> !Search(s, e).Unknown?)
            && (a in s.made && s.made[a].id == e.id && s.nextLocal <= a + l.retainedIds ==>
                Admit(s, l, e, false).0 == s)
  {
    InitialHolds(l);
    RunKeepsValid(Initial(), l, run);
    SearchIsExact(AfterRun(Initial(), l, run), l, e);
  }

  // ---------------------------------------------------------------- reading the log

  datatype Reading = Truncated(oldest: nat) | Page(sequences: seq<nat>)

  predicate Named(s: Log, q: nat, name: Option<string>) {
    q in s.history && s.history[q] in s.made && (name.None? || NameOf(s, q) == name.value)
  }

  /** Every settlement of the name that was ever recorded. */
  function Everything(s: Log, name: Option<string>): set<nat> {
    set q | q in s.history && Named(s, q, name)
  }

  function Retained(s: Log, name: Option<string>): set<nat> {
    set q | q in s.settled && Named(s, q, name)
  }

  function PruneMark(s: Log, name: Option<string>): nat {
    if name.None? then s.pruned else Mark(s.marks, name.value)
  }

  function Read(s: Log, after: nat, name: Option<string>): Reading {
    if after < PruneMark(s, name) then Truncated(PruneMark(s, name))
    else Page(NextBatch(Retained(s, name), after, SETTLEMENT_PAGE_SIZE))
  }

  /** A read is refused exactly when a settlement it should have returned was pruned. */
  lemma TruncatedExactly(s: Log, l: Limits, after: nat, name: Option<string>)
    requires Valid(s, l)
    ensures Read(s, after, name).Truncated? <==> exists q :: q in Everything(s, name) && after < q && q !in s.settled
  {
    var mark := PruneMark(s, name);
    if name.Some? { assert IsLast(s.history, s.made, s.pruned, name.value, Mark(s.marks, name.value)); }
    if after < mark { assert mark in Everything(s, name) && mark !in s.settled; }
    forall q | q in Everything(s, name) && after < q && q !in s.settled ensures after < mark {
      assert q <= s.pruned;
    }
  }

  /** A read that succeeds returns the next page of everything ever settled under the name. */
  lemma ReadIsComplete(s: Log, l: Limits, after: nat, name: Option<string>)
    requires Valid(s, l) && Read(s, after, name).Page?
    ensures Read(s, after, name).sequences == NextBatch(Everything(s, name), after, SETTLEMENT_PAGE_SIZE)
  {
    TruncatedExactly(s, l, after, name);
    forall q ensures q in After(Retained(s, name), after) <==> q in After(Everything(s, name), after) {}
    assert After(Retained(s, name), after) == After(Everything(s, name), after);
  }

  // ---------------------------------------------------------------- a reader that follows the log

  datatype Reader = Reader(start: nat, cursor: nat, delivered: seq<nat>)

  /** A reader that reads until it is told that its position is gone. */
  datatype Move = Act(step: Step) | Poll

  ghost function Polled(s: Log, r: Reader, name: Option<string>): Reader {
    var reading := Read(s, r.cursor, name);
    if reading.Truncated? || reading.sequences == [] then r
    else r.(cursor := reading.sequences[|reading.sequences| - 1], delivered := r.delivered + reading.sequences)
  }

  /** The reader has every settlement of the name between its start and its cursor, once and in order. */
  ghost predicate UpToDate(s: Log, r: Reader, name: Option<string>) {
    && r.start <= r.cursor && Ascending(r.delivered)
    && (forall q :: q in r.delivered <==> q in Everything(s, name) && r.start < q <= r.cursor)
  }

  /** The page holds every key past the position up to its own last key. */
  ghost predicate Stretch(page: seq<nat>, keys: set<nat>, after: nat) {
    && Ascending(page) && page != [] && after < page[|page| - 1]
    && (forall q :: q in page <==> q in keys && after < q <= page[|page| - 1])
  }

  lemma BatchStretches(keys: set<nat>, after: nat, limit: nat)
    requires NextBatch(keys, after, limit) != []
    ensures Stretch(NextBatch(keys, after, limit), keys, after)
  {
    var page := NextBatch(keys, after, limit);
    assert page[|page| - 1] in page;
    forall q | q in keys && after < q <= page[|page| - 1] ensures q in page {}
    forall q | q in page ensures q <= page[|page| - 1] {}
  }

  /** A poll that is not refused delivers something as long as there is something to deliver. */
  lemma PollDelivers(s: Log, l: Limits, r: Reader, name: Option<string>, q: nat)
    requires Valid(s, l) && Read(s, r.cursor, name).Page? && q in Everything(s, name) && r.cursor < q
    ensures var p := Polled(s, r, name);
            && p.start == r.start && r.cursor < p.cursor && |p.delivered| <= |r.delivered| + SETTLEMENT_PAGE_SIZE
            && r.delivered <= p.delivered && p.cursor in Everything(s, name)
            && (q <= p.cursor || |p.delivered| == |r.delivered| + SETTLEMENT_PAGE_SIZE)
  {
    ReadIsComplete(s, l, r.cursor, name);
    BatchReaches(Everything(s, name), r.cursor, SETTLEMENT_PAGE_SIZE, q);
  }

  lemma BatchReaches(keys: set<nat>, after: nat, limit: nat, q: nat)
    requires q in keys && after < q && limit > 0
    ensures var page := NextBatch(keys, after, limit);
            && page != [] && after < page[|page| - 1] && page[|page| - 1] in keys
            && (q <= page[|page| - 1] || |page| == limit)
  {
    var page := NextBatch(keys, after, limit);
    assert q in After(keys, after) && page != [];
    assert page[|page| - 1] in page;
    if q in page {
      var i :| 0 <= i < |page| && page[i] == q;
      assert i == |page| - 1 || page[i] < page[|page| - 1];
    }
  }

  lemma PageKeeps(s: Log, r: Reader, name: Option<string>, page: seq<nat>)
    requires UpToDate(s, r, name) && Stretch(page, Everything(s, name), r.cursor)
    ensures UpToDate(s, r.(cursor := page[|page| - 1], delivered := r.delivered + page), name)
  {
    var delivered := r.delivered + page;
    forall q ensures q in delivered <==> q in r.delivered || q in page {}
    forall i, j | 0 <= i < j < |delivered| ensures delivered[i] < delivered[j] {
      if i < |r.delivered| <= j { assert delivered[i] in r.delivered && delivered[j] in page; }
    }
  }

  lemma ReadStretches(s: Log, l: Limits, after: nat, name: Option<string>, page: seq<nat>)
    requires Valid(s, l) && Read(s, after, name) == Page(page) && page != []
    ensures Stretch(page, Everything(s, name), after) && page[|page| - 1] < s.nextSettled
  {
    ReadIsComplete(s, l, after, name);
    BatchStretches(Everything(s, name), after, SETTLEMENT_PAGE_SIZE);
    assert page[|page| - 1] in page;
  }

  lemma PollKeeps(s: Log, l: Limits, r: Reader, name: Option<string>)
    requires Valid(s, l) && UpToDate(s, r, name) && r.cursor < s.nextSettled
    ensures UpToDate(s, Polled(s, r, name), name) && Polled(s, r, name).cursor < s.nextSettled
  {
    match Read(s, r.cursor, name)
    case Truncated(_) =>
    case Page(page) =>
      if page != [] {
        ReadStretches(s, l, r.cursor, name, page);
        PageKeeps(s, r, name, page);
      }
  }

  lemma StepKeepsReader(s: Log, l: Limits, r: Reader, name: Option<string>, step: Step)
    requires Valid(s, l) && Enabled(s, step) && UpToDate(s, r, name) && r.cursor < s.nextSettled
    ensures UpToDate(Next(s, l, step), r, name) && r.cursor < Next(s, l, step).nextSettled
  {
    StepKeepsValid(s, l, step);
    StepGrows(s, l, step);
    var t := Next(s, l, step);
    forall q | q <= r.cursor ensures q in Everything(t, name) <==> q in Everything(s, name) {
      if q in t.history { assert q in s.history && t.history[q] == s.history[q]; }
    }
  }

  ghost predicate Moves(s: Log, l: Limits, run: seq<Move>)
    decreases |run|
  {
    run == [] || (match run[0]
                  case Poll => Moves(s, l, run[1..])
                  case Act(step) => s.nextSettled > 0 && Enabled(s, step) && Moves(Next(s, l, step), l, run[1..]))
  }

  ghost function Watched(s: Log, l: Limits, r: Reader, name: Option<string>, run: seq<Move>): (Log, Reader)
    requires Moves(s, l, run)
    decreases |run|
  {
    if run == [] then (s, r)
    else match run[0]
      case Poll => Watched(s, l, Polled(s, r, name), name, run[1..])
      case Act(step) => Watched(Next(s, l, step), l, r, name, run[1..])
  }

  /**
   However the log is written, settled and pruned between its reads, what a reader was given is
   exactly what settled under its name from its start up to its cursor, in order.
   */
  lemma {:induction false} ReaderMissesNothing(s: Log, l: Limits, r: Reader, name: Option<string>, run: seq<Move>)
    requires Valid(s, l) && UpToDate(s, r, name) && r.cursor < s.nextSettled && Moves(s, l, run)
    ensures UpToDate(Watched(s, l, r, name, run).0, Watched(s, l, r, name, run).1, name)
    decreases |run|
  {
    if run != [] {
      match run[0] {
        case Poll =>
          PollKeeps(s, l, r, name);
          ReaderMissesNothing(s, l, Polled(s, r, name), name, run[1..]);
        case Act(step) =>
          StepKeepsReader(s, l, r, name, step);
          StepKeepsValid(s, l, step);
          ReaderMissesNothing(Next(s, l, step), l, r, name, run[1..]);
      }
    }
  }
}
