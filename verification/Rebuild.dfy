/**
 The full rebuild of the projection as a replay in batches that drops retracted entities after
 each batch, its relation to the incremental delta, and what resuming it keeps.
 */
module Rebuild {
  import opened Basics
  import opened Tables
  import opened Outbox
  import opened Paging
  import opened Projection

  /** Rows the replay query returns; some are already settled by a receipt and get skipped. */
  function Selected(ob: Pending): set<nat> {
    set s | s in ob && Replayable(ob[s])
  }

  predicate AtEnd(selected: set<nat>, after: nat, limit: nat) {
    NextBatch(selected, after, limit) == []
  }

  /** The last sequence of the next batch, or `after` when there is none. */
  function PageEnd(selected: set<nat>, after: nat, limit: nat): nat {
    var page := NextBatch(selected, after, limit);
    Reached(page, after, |page|)
  }

  /** The sequences at which a replay that continues after `after` ends its batches. */
  function BatchEnds(selected: set<nat>, limit: nat, after: nat): set<nat>
    requires limit > 0
    decreases |After(selected, after)|
  {
    if AtEnd(selected, after, limit) then {} else
      var last := PageEnd(selected, after, limit);
      PageAdvances(selected, after, limit);
      {last} + BatchEnds(selected, limit, last)
  }

  /** Every selected row lies in a batch, and batches end at selected rows. */
  lemma {:induction false} BatchEndsCover(selected: set<nat>, limit: nat, after: nat, k: nat)
    requires limit > 0
    ensures forall e :: e in BatchEnds(selected, limit, after) ==> after < e && e in selected
    ensures k in selected && after < k ==> exists e :: e in BatchEnds(selected, limit, after) && k <= e
    decreases |After(selected, after)|
  {
    if AtEnd(selected, after, limit) {
      ShortPageIsLast(selected, after, limit);
    } else {
      var last := PageEnd(selected, after, limit);
      PageAdvances(selected, after, limit);
      BatchEndsCover(selected, limit, last, k);
      assert BatchEnds(selected, limit, after) == {last} + BatchEnds(selected, limit, last);
      if k <= last { assert last in BatchEnds(selected, limit, after); }
    }
  }

  lemma PageAdvances(keys: set<nat>, after: nat, limit: nat)
    requires !AtEnd(keys, after, limit)
    ensures var last := PageEnd(keys, after, limit);
            after < last && last in keys && |After(keys, last)| < |After(keys, after)|
  {
    var page := NextBatch(keys, after, limit);
    var last := page[|page| - 1];
    assert last in page;
    assert After(keys, last) <= After(keys, after) - {last};
    SubsetSize(After(keys, last), After(keys, after) - {last});
  }

  /** A rebuild that continues after sequence `after`. */
  function RebuildPlan(h: Handler, limit: nat, s: Replica, after: nat): Plan
    requires limit > 0
  {
    Plan(h, Live(s), BatchEnds(Selected(s.pending), limit, after), s.retractions)
  }

  function RebuiltTable(h: Handler, limit: nat, s: Replica): Table
    requires limit > 0
  {
    Fold(RebuildPlan(h, limit, s, 0), s.pending, Base(s), 1, s.nextSequence)
  }

  function RebuiltPending(h: Handler, limit: nat, s: Replica): Pending
    requires limit > 0
  {
    Recorded(RebuildPlan(h, limit, s, 0), s.pending, Base(s), 1, s.nextSequence)
  }

  // ---------------------------------------------------------------- rebuild against delta

  lemma LiveAreSelected(s: Replica)
    ensures Live(s) <= Selected(s.pending)
  {}

  lemma RebuildIsCovered(h: Handler, limit: nat, s: Replica, after: nat)
    requires limit > 0 && WellFormed(s)
    ensures Covered(RebuildPlan(h, limit, s, after), after + 1, s.nextSequence)
    ensures forall e :: e in RebuildPlan(h, limit, s, after).ends ==> after < e < s.nextSequence
  {
    LiveAreSelected(s);
    BatchEndsCover(Selected(s.pending), limit, after, 0);
    forall k | k in Live(s) && after < k < s.nextSequence
      ensures exists e :: e in RebuildPlan(h, limit, s, after).ends && k <= e < s.nextSequence
    {
      BatchEndsCover(Selected(s.pending), limit, after, k);
    }
  }

  /** Whatever the handlers write, a rebuild leaves no retracted entity visible. */
  lemma RebuildHidesRetracted(h: Handler, limit: nat, s: Replica)
    requires limit > 0 && WellFormed(s) && s.nextSequence > 0
    ensures HidesRetracted(RebuiltTable(h, limit, s), s.retractions)
  {
    RebuildIsCovered(h, limit, s, 0);
    CoveredFoldHides(RebuildPlan(h, limit, s, 0), s.pending, Base(s), 1, s.nextSequence, s.nextSequence);
  }

  lemma FromOne(h: Handler, s: Replica, n: nat)
    requires WellFormed(s) && n > 0
    ensures Fold(Whole(h, Live(s)), s.pending, Base(s), 1, n) == Fold(Whole(h, Live(s)), s.pending, Base(s), 0, n)
  {
    assert 0 !in Live(s);
    FoldSplit(Whole(h, Live(s)), s.pending, Base(s), 0, 1, n);
    FoldGap(Whole(h, Live(s)), s.pending, Base(s), 0, 0, 1);
  }

  lemma CleanFromOne(h: Handler, s: Replica)
    requires WellFormed(s) && CleanReplay(h, s)
    ensures FoldSpares(Whole(h, Live(s)), s.pending, Base(s), 1, s.nextSequence, s.retractions)
  {
    forall j | 1 <= j < s.nextSequence && j in Live(s)
      ensures RowSpares(h, s.pending[j], Fold(Whole(h, Live(s)), s.pending, Base(s), 1, j), s.retractions)
    {
      FromOne(h, s, j);
    }
  }

  /** When no replayed mutation writes a retracted entity, every batch size gives the plain replay. */
  lemma RebuildIsReplay(h: Handler, limit: nat, s: Replica)
    requires limit > 0 && WellFormed(s) && CleanReplay(h, s) && s.nextSequence > 0
    ensures RebuiltTable(h, limit, s) == Replay(h, s)
    ensures RebuiltPending(h, limit, s) == ReplayRecords(h, s)
  {
    var n, p, q := s.nextSequence, RebuildPlan(h, limit, s, 0), Whole(h, Live(s));
    CleanFromOne(h, s);
    SparedFold(p, q, s.pending, Base(s), 1, n);
    FromOne(h, s, n);
    var a, b := RebuiltPending(h, limit, s), ReplayRecords(h, s);
    forall j | j in s.pending ensures a[j] == b[j] {
      if j in Live(s) {
        SparedFold(p, q, s.pending, Base(s), 1, j);
        FromOne(h, s, j);
      }
    }
  }

  /** With clean replays the delta, the rebuild and the replay are one and the same projection. */
  lemma DeltaEqualsRebuild(h: Handler, limit: nat, s: Replica)
    requires limit > 0 && WellFormed(s) && Framed(s) && CleanReplay(h, s) && s.nextSequence > 0
    ensures RebuiltTable(h, limit, s) == DeltaTable(h, s) == Replay(h, s)
    ensures RebuiltPending(h, limit, s) == DeltaPending(h, s)
  {
    CleanDeltaIsReplay(h, s);
    DeltaRefinesReplay(h, s);
    RebuildIsReplay(h, limit, s);
  }

  // ---------------------------------------------------------------- one batch

  lemma RecordedSimilar(p: Plan, q: Plan, ob: Pending, t: Table, lo: nat, hi: nat)
    requires p.h == q.h && p.live == q.live && p.hidden == q.hidden
    requires forall s :: lo <= s < hi ==> (s in p.ends <==> s in q.ends)
    ensures Recorded(p, ob, t, lo, hi) == Recorded(q, ob, t, lo, hi)
  {
    forall s | s in ob ensures Recorded(p, ob, t, lo, hi)[s] == Recorded(q, ob, t, lo, hi)[s] {
      if lo <= s < hi { FoldSimilar(p, q, ob, t, lo, s); }
    }
  }

  /** The table after one batch: its rows replayed in one piece, then retracted entities dropped. */
  function BatchTable(h: Handler, s: Replica, t: Table, after: nat, last: nat): Table {
    Fold(Whole(h, Live(s)), s.pending, t, after + 1, last + 1) - s.retractions
  }

  function BatchPending(h: Handler, s: Replica, t: Table, after: nat, last: nat): Pending {
    Recorded(Whole(h, Live(s)), s.pending, t, after + 1, last + 1)
  }

  /** A stretch whose only filter is at its end is replayed in one piece and then filtered. */
  lemma StretchIsBatch(p: Plan, ob: Pending, t: Table, lo: nat, last: nat)
    requires lo <= last && last in p.ends && forall e :: lo <= e < last ==> e !in p.ends
    ensures Fold(p, ob, t, lo, last + 1) == Fold(Whole(p.h, p.live), ob, t, lo, last + 1) - p.hidden
    ensures Recorded(p, ob, t, lo, last + 1) == Recorded(Whole(p.h, p.live), ob, t, lo, last + 1)
  {
    SameWhole(p, ob, t, lo, last);
    var a, b := Recorded(p, ob, t, lo, last + 1), Recorded(Whole(p.h, p.live), ob, t, lo, last + 1);
    forall j | j in ob ensures a[j] == b[j] {
      if lo <= j <= last { SameWhole(p, ob, t, lo, j); }
    }
  }

  /** Without a filter in the stretch, the plan's filter is irrelevant. */
  lemma {:induction false} SameWhole(p: Plan, ob: Pending, t: Table, lo: nat, hi: nat)
    requires forall e :: lo <= e < hi ==> e !in p.ends
    ensures Fold(p, ob, t, lo, hi) == Fold(Whole(p.h, p.live), ob, t, lo, hi)
    decreases hi
  {
    if lo < hi { SameWhole(p, ob, t, lo, hi - 1); }
  }

  /** Two plans that agree after `mid` finish alike once the first stretch has been recorded. */
  lemma StretchThenRest(p: Plan, q: Plan, ob: Pending, t: Table, lo: nat, mid: nat, n: nat)
    requires lo <= mid <= n && p.h == q.h && p.live == q.live && p.hidden == q.hidden
    requires forall e :: mid <= e < n ==> (e in p.ends <==> e in q.ends)
    ensures Fold(q, Recorded(p, ob, t, lo, mid), Fold(p, ob, t, lo, mid), mid, n) == Fold(p, ob, t, lo, n)
    ensures Recorded(q, Recorded(p, ob, t, lo, mid), Fold(p, ob, t, lo, mid), mid, n) == Recorded(p, ob, t, lo, n)
  {
    var ob', t' := Recorded(p, ob, t, lo, mid), Fold(p, ob, t, lo, mid);
    RecordedPlan(p, ob, t, lo, mid);
    FoldSplit(p, ob, t, lo, mid, n);
    FoldSimilar(p, q, ob, t', mid, n);
    FoldPlan(q, ob, ob', t', mid, n);
    RecordedSplit(p, ob, t, lo, mid, n);
    RecordedSimilar(p, q, ob', t', mid, n);
  }

  /** The rows and the table with which a rebuild that stands after `after` will end. */
  function Remaining(h: Handler, limit: nat, s: Replica, t: Table, after: nat): (Pending, Table)
    requires limit > 0
  {
    (Recorded(RebuildPlan(h, limit, s, after), s.pending, t, after + 1, s.nextSequence),
     Fold(RebuildPlan(h, limit, s, after), s.pending, t, after + 1, s.nextSequence))
  }

  lemma PlanAfterBatch(h: Handler, limit: nat, s: Replica, after: nat)
    requires limit > 0 && WellFormed(s) && !AtEnd(Selected(s.pending), after, limit)
    ensures var last := PageEnd(Selected(s.pending), after, limit);
            NextPlan(RebuildPlan(h, limit, s, after), RebuildPlan(h, limit, s, last), after + 1, last, s.nextSequence)
  {
    var last := PageEnd(Selected(s.pending), after, limit);
    PageAdvances(Selected(s.pending), after, limit);
    BatchEndsCover(Selected(s.pending), limit, last, 0);
  }

  lemma BatchKeepsPlan(h: Handler, limit: nat, s: Replica, s': Replica, t: Table, after: nat, last: nat, k: nat)
    requires limit > 0
    requires s'.pending == BatchPending(h, s, t, after, last)
    requires s'.meta == s.meta && s'.retractions == s.retractions && s'.nextSequence == s.nextSequence
    ensures Selected(s'.pending) == Selected(s.pending) && Live(s') == Live(s)
    ensures WellFormed(s) ==> WellFormed(s')
    ensures RebuildPlan(h, limit, s', k) == RebuildPlan(h, limit, s, k)
  {
    RecordedPlan(Whole(h, Live(s)), s.pending, t, after + 1, last + 1);
    PlanKeepsLive(s.pending, s'.pending, s.meta);
    assert Selected(s'.pending) == Selected(s.pending);
  }

  /** Completing a batch leaves what remains of the rebuild leading to the same rows and table. */
  lemma BatchKeepsRemaining(h: Handler, limit: nat, s: Replica, s': Replica, t: Table, t': Table, after: nat,
                            last: nat)
    requires limit > 0 && WellFormed(s) && !AtEnd(Selected(s.pending), after, limit)
    requires last == PageEnd(Selected(s.pending), after, limit)
    requires s'.pending == BatchPending(h, s, t, after, last) && t' == BatchTable(h, s, t, after, last)
    requires s'.meta == s.meta && s'.retractions == s.retractions && s'.nextSequence == s.nextSequence
    ensures Remaining(h, limit, s', t', last) == Remaining(h, limit, s, t, after)
  {
    BatchKeepsPlan(h, limit, s, s', t, after, last, last);
    var p, q := RebuildPlan(h, limit, s, after), RebuildPlan(h, limit, s, last);
    PlanAfterBatch(h, limit, s, after);
    RemainingOf(p, q, s, s', t, t', after, last);
    RemainingIs(h, limit, s, t, after, p);
    RemainingIs(h, limit, s', t', last, q);
  }

  lemma RemainingIs(h: Handler, limit: nat, s: Replica, t: Table, after: nat, p: Plan)
    requires limit > 0 && p == RebuildPlan(h, limit, s, after)
    ensures Remaining(h, limit, s, t, after)
            == (Recorded(p, s.pending, t, after + 1, s.nextSequence), Fold(p, s.pending, t, after + 1, s.nextSequence))
  {}

  lemma RemainingOf(p: Plan, q: Plan, s: Replica, s': Replica, t: Table, t': Table, after: nat, last: nat)
    requires NextPlan(p, q, after + 1, last, s.nextSequence)
    requires p.live == Live(s) && p.hidden == s.retractions && s'.nextSequence == s.nextSequence
    requires s'.pending == BatchPending(p.h, s, t, after, last) && t' == BatchTable(p.h, s, t, after, last)
    ensures Recorded(q, s'.pending, t', last + 1, s'.nextSequence)
            == Recorded(p, s.pending, t, after + 1, s.nextSequence)
    ensures Fold(q, s'.pending, t', last + 1, s'.nextSequence) == Fold(p, s.pending, t, after + 1, s.nextSequence)
  {
    FilteredThenRest(p, q, s.pending, t, s'.pending, t', after + 1, last, s.nextSequence);
  }

  /** `q` is what remains of `p` once the batch that starts at `lo` has ended at `last`. */
  ghost predicate NextPlan(p: Plan, q: Plan, lo: nat, last: nat, n: nat) {
    && lo <= last < n && p.h == q.h && p.live == q.live && p.hidden == q.hidden
    && last in p.ends && (forall e :: lo <= e < last ==> e !in p.ends)
    && (forall e :: last < e < n ==> (e in p.ends <==> e in q.ends))
  }

  lemma FilteredThenRest(p: Plan, q: Plan, ob: Pending, t: Table, ob': Pending, t': Table, lo: nat, last: nat, n: nat)
    requires NextPlan(p, q, lo, last, n)
    requires ob' == Recorded(Whole(p.h, p.live), ob, t, lo, last + 1)
    requires t' == Fold(Whole(p.h, p.live), ob, t, lo, last + 1) - p.hidden
    ensures Recorded(q, ob', t', last + 1, n) == Recorded(p, ob, t, lo, n)
    ensures Fold(q, ob', t', last + 1, n) == Fold(p, ob, t, lo, n)
  {
    StretchIsBatch(p, ob, t, lo, last);
    StretchThenRest(p, q, ob, t, lo, last + 1, n);
  }

  lemma NothingRemains(h: Handler, limit: nat, s: Replica, t: Table, after: nat)
    requires limit > 0 && AtEnd(Selected(s.pending), after, limit)
    ensures Remaining(h, limit, s, t, after) == (s.pending, t)
  {
    var p := RebuildPlan(h, limit, s, after);
    ShortPageIsLast(Selected(s.pending), after, limit);
    LiveAreSelected(s);
    if after + 1 <= s.nextSequence {
      FoldGap(p, s.pending, t, after + 1, after + 1, s.nextSequence);
    }
    assert Recorded(p, s.pending, t, after + 1, s.nextSequence) == s.pending;
  }
}
