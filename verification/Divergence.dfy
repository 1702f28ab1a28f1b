/**
 Exactly when the batched rebuild and the incremental delta project the same thing whatever the
 handlers do. They filter retracted entities at different moments, and a mutation in a later batch
 can see the difference.
 */
module Divergence {
  import opened Basics
  import opened Tables
  import opened Outbox
  import opened Paging
  import opened Projection
  import opened Rebuild

  ghost function LongestKey(s: set<Entity>): nat
    decreases |s|
  {
    if s == {} then 0 else
      var e :| e in s;
      var rest := LongestKey(s - {e});
      if rest < |e.key| then |e.key| else rest
  }

  lemma {:induction false} KeysWithin(s: set<Entity>, x: Entity)
    requires x in s
    ensures |x.key| <= LongestKey(s)
    decreases |s|
  {
    var e :| e in s && LongestKey(s) == (if LongestKey(s - {e}) < |e.key| then |e.key| else LongestKey(s - {e}));
    if e != x { KeysWithin(s - {e}, x); }
  }

  lemma FreshEntity(s: set<Entity>) returns (x: Entity)
    ensures x !in s
  {
    x := Entity("", seq(LongestKey(s) + 1, _ => 'k'));
    if x in s { KeysWithin(s, x); }
  }

  // ---------------------------------------------------------------- all undropped rows in one batch

  lemma {:induction false} QuietFold(p: Plan, ob: Pending, t: Table, lo: nat, hi: nat)
    requires t.Keys !! p.hidden && forall s :: lo <= s < hi ==> s !in p.live
    ensures Fold(p, ob, t, lo, hi) == t
    decreases hi
  {
    if lo < hi {
      QuietFold(p, ob, t, lo, hi - 1);
      assert t - p.hidden == t;
    }
  }

  lemma {:induction false} QuietTail(p: Plan, ob: Pending, t: Table, lo: nat, hi: nat)
    requires forall s :: lo <= s < hi ==> s !in p.live
    ensures Fold(p, ob, t, lo, hi) - p.hidden == t - p.hidden
    decreases hi
  {
    if lo < hi { QuietTail(p, ob, t, lo, hi - 1); }
  }

  /** A batch end lies between two undropped rows. */
  ghost predicate Separated(live: set<nat>, ends: set<nat>) {
    exists a, e, b :: a in live && e in ends && b in live && a <= e < b
  }

  /** Up to the last undropped row, filtering between the batches removes nothing. */
  lemma {:induction false} UnseparatedFold(p: Plan, ob: Pending, t: Table, lo: nat, k: nat, last: nat)
    requires t.Keys !! p.hidden && !Separated(p.live, p.ends) && last in p.live && k <= last
    ensures Fold(p, ob, t, lo, k) == Fold(p.(ends := {}), ob, t, lo, k)
    decreases k
  {
    if lo < k {
      UnseparatedFold(p, ob, t, lo, k - 1, last);
      if k - 1 in p.ends {
        assert k - 1 < last;
        QuietFold(p, ob, t, lo, k);
        QuietFold(p.(ends := {}), ob, t, lo, k);
      }
    }
  }

  lemma UnseparatedTable(p: Plan, ob: Pending, t: Table, lo: nat, n: nat, last: nat)
    requires t.Keys !! p.hidden && !Separated(p.live, p.ends)
    requires lo <= last < n && last in p.live && forall s :: s in p.live ==> s <= last
    ensures Fold(p, ob, t, lo, n) - p.hidden == Fold(p.(ends := {}), ob, t, lo, n) - p.hidden
  {
    var q := p.(ends := {});
    UnseparatedFold(p, ob, t, lo, last, last);
    FoldSplit(p, ob, t, lo, last + 1, n);
    FoldSplit(q, ob, t, lo, last + 1, n);
    var a, b := Fold(p, ob, t, lo, last + 1), Fold(q, ob, t, lo, last + 1);
    assert b - p.hidden == a - p.hidden by { assert b - p.hidden - p.hidden == b - p.hidden; }
    QuietTail(p, ob, a, last + 1, n);
    QuietTail(q, ob, b, last + 1, n);
  }

  lemma {:induction false} LastExists(keys: set<nat>) returns (k: nat)
    requires keys != {}
    ensures k in keys && forall j :: j in keys ==> j <= k
    decreases keys
  {
    k :| k in keys;
    if keys != {k} {
      assert keys == {k} + (keys - {k});
      var j := LastExists(keys - {k});
      if k < j { k := j; }
    }
  }

  /** If no batch end separates two undropped rows, the rebuild filters at no other moment than the delta. */
  lemma UnseparatedAgree(h: Handler, limit: nat, s: Replica)
    requires limit > 0 && WellFormed(s) && Framed(s) && s.nextSequence > 0
    requires !Separated(Live(s), BatchEnds(Selected(s.pending), limit, 0))
    ensures RebuiltTable(h, limit, s) == DeltaTable(h, s) && RebuiltPending(h, limit, s) == DeltaPending(h, s)
  {
    DeltaRefinesReplay(h, s);
    RebuildHidesRetracted(h, limit, s);
    assert RebuiltTable(h, limit, s) - s.retractions == RebuiltTable(h, limit, s);
    if Live(s) == {} {
      AgreeOnNoRow(h, limit, s);
    } else {
      var last := LastExists(Live(s));
      AgreeUpTo(h, limit, s, last);
    }
  }

  lemma AgreeOnNoRow(h: Handler, limit: nat, s: Replica)
    requires limit > 0 && WellFormed(s) && Live(s) == {}
    ensures RebuiltTable(h, limit, s) - s.retractions == Replay(h, s) - s.retractions
    ensures RebuiltPending(h, limit, s) == ReplayRecords(h, s)
  {
    QuietFold(RebuildPlan(h, limit, s, 0), s.pending, Base(s), 1, s.nextSequence);
    QuietFold(Whole(h, Live(s)), s.pending, Base(s), 0, s.nextSequence);
  }

  lemma AgreeUpTo(h: Handler, limit: nat, s: Replica, last: nat)
    requires limit > 0 && WellFormed(s) && !Separated(Live(s), BatchEnds(Selected(s.pending), limit, 0))
    requires last in Live(s) && forall k :: k in Live(s) ==> k <= last
    ensures RebuiltTable(h, limit, s) - s.retractions == Replay(h, s) - s.retractions
    ensures RebuiltPending(h, limit, s) == ReplayRecords(h, s)
  {
    var p, n := RebuildPlan(h, limit, s, 0), s.nextSequence;
    var q := p.(ends := {});
    LiveInPending(s, last);
    UnseparatedTable(p, s.pending, Base(s), 1, n, last);
    SameWhole(q, s.pending, Base(s), 1, n);
    FromOne(h, s, n);
    forall k | k in Live(s) ensures RebuiltPending(h, limit, s)[k] == ReplayRecords(h, s)[k] {
      UnseparatedFold(p, s.pending, Base(s), 1, k, last);
      SameWhole(q, s.pending, Base(s), 1, k);
      FromOne(h, s, k);
    }
  }

  lemma WithoutRetractionsAgree(h: Handler, limit: nat, s: Replica)
    requires limit > 0 && WellFormed(s) && Framed(s) && s.nextSequence > 0 && s.retractions == {}
    ensures RebuiltTable(h, limit, s) == DeltaTable(h, s) && RebuiltPending(h, limit, s) == DeltaPending(h, s)
  {
    forall j | j in Live(s) ensures RowSpares(h, s.pending[j], Fold(Whole(h, Live(s)), s.pending, Base(s), 0, j), {}) {}
    DeltaEqualsRebuild(h, limit, s);
  }

  // ---------------------------------------------------------------- a handler that tells them apart

  function Writes(r: Entity, x: Entity, y: Entity, v: Value, t: Table): seq<Change> {
    [Upsert(r, v), Upsert(x, v)] + if x in t && r !in t then [Upsert(y, v)] else []
  }

  /** Writes the retracted entity `r` and leaves the mark `x`; it writes `y` if it sees the mark without `r`. */
  function Probe(r: Entity, x: Entity, y: Entity, v: Value): Handler {
    (name, payload, t: Table) => Committed("", Writes(r, x, y, v, t))
  }

  lemma ProbeRuns(r: Entity, x: Entity, y: Entity, v: Value, row: Row, t: Table)
    ensures Execute(Probe(r, x, y, v), row, t)
            == if x in t && r !in t then t[r := v][x := v][y := v] else t[r := v][x := v]
  {
    var cs := Writes(r, x, y, v, t);
    assert cs[0] == Upsert(r, v) && cs[1..][0] == Upsert(x, v);
    var after := t[r := v][x := v];
    assert ApplyAll(t, cs) == ApplyAll(after, cs[1..][1..]);
    if x in t && r !in t { assert cs[1..][1..][0] == Upsert(y, v) && cs[1..][1..][1..] == []; }
  }

  /** In one piece `r` stays once it is written, so the mark is never seen without it. */
  lemma {:induction false} ProbeWhole(r: Entity, x: Entity, y: Entity, v: Value, p: Plan, ob: Pending, t: Table,
                                      lo: nat, hi: nat)
    requires p.h == Probe(r, x, y, v) && p.ends == {} && r != y && x != y
    requires (x in t ==> r in t) && y !in t
    ensures var u := Fold(p, ob, t, lo, hi); (x in u ==> r in u) && y !in u
    decreases hi
  {
    if lo < hi {
      ProbeWhole(r, x, y, v, p, ob, t, lo, hi - 1);
      if hi - 1 in ob { ProbeRuns(r, x, y, v, ob[hi - 1], Fold(p, ob, t, lo, hi - 1)); }
    }
  }

  /** No entity that is not retracted ever goes. */
  lemma {:induction false} ProbeKeeps(r: Entity, x: Entity, y: Entity, v: Value, p: Plan, ob: Pending, t: Table,
                                      lo: nat, hi: nat, z: Entity)
    requires p.h == Probe(r, x, y, v) && z !in p.hidden && z in t
    ensures z in Fold(p, ob, t, lo, hi)
    decreases hi
  {
    if lo < hi {
      ProbeKeeps(r, x, y, v, p, ob, t, lo, hi - 1, z);
      if hi - 1 in ob { ProbeRuns(r, x, y, v, ob[hi - 1], Fold(p, ob, t, lo, hi - 1)); }
    }
  }

  /** Without undropped rows nothing comes. */
  lemma {:induction false} NothingComes(p: Plan, ob: Pending, t: Table, lo: nat, hi: nat, z: Entity)
    requires z !in t && forall k :: lo <= k < hi ==> k !in p.live
    ensures z !in Fold(p, ob, t, lo, hi)
    decreases hi
  {
    if lo < hi { NothingComes(p, ob, t, lo, hi - 1, z); }
  }

  /** The batch of `a` ends at `e`, which hides `r` and leaves the mark. */
  lemma ProbeMarked(r: Entity, x: Entity, y: Entity, v: Value, p: Plan, ob: Pending, t: Table, lo: nat, a: nat, e: nat)
    requires p.h == Probe(r, x, y, v) && r in p.hidden && x !in p.hidden && r != x
    requires lo <= a <= e && a in p.live && a in ob && e in p.ends
    ensures var ended := Fold(p, ob, t, lo, e + 1); x in ended && r !in ended
  {
    ProbeRuns(r, x, y, v, ob[a], Fold(p, ob, t, lo, a));
    var marked := Fold(p, ob, t, lo, a + 1);
    assert x in marked;
    FoldSplit(p, ob, t, lo, a + 1, e + 1);
    ProbeKeeps(r, x, y, v, p, ob, marked, a + 1, e + 1, x);
  }

  /** The next row, `b`, sees the mark alone. */
  lemma ProbeBatched(r: Entity, x: Entity, y: Entity, v: Value, p: Plan, ob: Pending, t: Table, lo: nat, n: nat,
                     a: nat, e: nat, b: nat)
    requires p.h == Probe(r, x, y, v) && r in p.hidden && x !in p.hidden && y !in p.hidden && r != x
    requires lo <= a <= e < b < n && a in p.live && a in ob && b in p.live && b in ob && e in p.ends
    requires forall k :: e < k < b ==> k !in p.live
    ensures y in Fold(p, ob, t, lo, n)
  {
    ProbeMarked(r, x, y, v, p, ob, t, lo, a, e);
    FoldSplit(p, ob, t, lo, e + 1, b);
    ProbeKeeps(r, x, y, v, p, ob, Fold(p, ob, t, lo, e + 1), e + 1, b, x);
    NothingComes(p, ob, Fold(p, ob, t, lo, e + 1), e + 1, b, r);
    ProbeSees(r, x, y, v, p, ob, t, lo, b);
    FoldSplit(p, ob, t, lo, b + 1, n);
    ProbeKeeps(r, x, y, v, p, ob, Fold(p, ob, t, lo, b + 1), b + 1, n, y);
  }

  lemma ProbeSees(r: Entity, x: Entity, y: Entity, v: Value, p: Plan, ob: Pending, t: Table, lo: nat, b: nat)
    requires p.h == Probe(r, x, y, v) && y !in p.hidden && lo <= b && b in p.live && b in ob
    requires x in Fold(p, ob, t, lo, b) && r !in Fold(p, ob, t, lo, b)
    ensures y in Fold(p, ob, t, lo, b + 1)
  {
    ProbeRuns(r, x, y, v, ob[b], Fold(p, ob, t, lo, b));
  }

  /** One retraction and a batch end between two undropped rows: some handler is projected differently. */
  lemma SeparatedDiffer(limit: nat, s: Replica) returns (h: Handler)
    requires limit > 0 && WellFormed(s) && Framed(s) && s.retractions != {}
    requires Separated(Live(s), BatchEnds(Selected(s.pending), limit, 0))
    ensures RebuiltTable(h, limit, s) != DeltaTable(h, s)
  {
    var ends := BatchEnds(Selected(s.pending), limit, 0);
    var a, e, far :| a in Live(s) && e in ends && far in Live(s) && a <= e < far;
    assert far in After(Live(s), e);
    var b := Least(After(Live(s), e));
    var r :| r in s.retractions;
    var x := FreshEntity(s.retractions + Base(s).Keys);
    var y := FreshEntity(s.retractions + Base(s).Keys + {x});
    h := Probe(r, x, y, Value(0, ""));
    LiveInPending(s, a);
    LiveInPending(s, b);
    assert forall k :: e < k && k in Live(s) ==> k in After(Live(s), e);
    ProbeBatched(r, x, y, Value(0, ""), RebuildPlan(h, limit, s, 0), s.pending, Base(s), 1, s.nextSequence, a, e, b);
    ProbeWhole(r, x, y, Value(0, ""), Whole(h, Live(s)), s.pending, Base(s), 0, s.nextSequence);
    DeltaRefinesReplay(h, s);
  }

  /** The rebuild with this batch size gives what the delta gives, whatever the handlers do. */
  ghost predicate AlwaysAgree(limit: nat, s: Replica)
    requires limit > 0
  {
    forall h: Handler ::
      RebuiltTable(h, limit, s) == DeltaTable(h, s) && RebuiltPending(h, limit, s) == DeltaPending(h, s)
  }

  /**
   They agree whatever the handlers do exactly when nothing is retracted or no batch ends between two
   undropped rows.
   */
  lemma RebuildEqualsDeltaExactly(limit: nat, s: Replica)
    requires limit > 0 && WellFormed(s) && Framed(s) && s.nextSequence > 0
    ensures AlwaysAgree(limit, s)
            <==> s.retractions == {} || !Separated(Live(s), BatchEnds(Selected(s.pending), limit, 0))
  {
    if s.retractions != {} && Separated(Live(s), BatchEnds(Selected(s.pending), limit, 0)) {
      var h := SeparatedDiffer(limit, s);
    } else {
      forall h: Handler
        ensures RebuiltTable(h, limit, s) == DeltaTable(h, s) && RebuiltPending(h, limit, s) == DeltaPending(h, s)
      {
        if s.retractions == {} { WithoutRetractionsAgree(h, limit, s); } else { UnseparatedAgree(h, limit, s); }
      }
    }
  }

  // ---------------------------------------------------------------- at every batch size

  lemma {:induction false} SingleRowBatches(selected: set<nat>, after: nat, k: nat)
    requires k in selected && after < k
    ensures k in BatchEnds(selected, 1, after)
    decreases |After(selected, after)|
  {
    var page := NextBatch(selected, after, 1);
    if page != [] {
      NoKeySkipped(selected, after, 1, 0);
      PageAdvances(selected, after, 1);
      if k != page[0] { SingleRowBatches(selected, page[0], k); }
    }
  }

  /** Nothing separates what is not there twice. */
  lemma AloneIsUnseparated(live: set<nat>, ends: set<nat>)
    requires |live| <= 1
    ensures !Separated(live, ends)
  {
    if a, e, b :| a in live && e in ends && b in live && a <= e < b {
      assert {a, b} <= live;
      SubsetSize({a, b}, live);
    }
  }

  lemma OneByOneSeparates(s: Replica)
    requires WellFormed(s) && |Live(s)| > 1
    ensures Separated(Live(s), BatchEnds(Selected(s.pending), 1, 0))
  {
    var a :| a in Live(s);
    assert Live(s) == {a} + (Live(s) - {a});
    var b :| b in Live(s) - {a};
    var low, high := if a < b then a else b, if a < b then b else a;
    LiveInPending(s, low);
    SingleRowBatches(Selected(s.pending), 0, low);
    assert low <= low < high;
  }

  /** At every batch size they agree exactly when nothing is retracted or at most one row is replayed. */
  lemma AgreeAtEverySizeExactly(s: Replica)
    requires WellFormed(s) && Framed(s) && s.nextSequence > 0
    ensures (forall limit: nat :: limit > 0 ==> AlwaysAgree(limit, s)) <==> s.retractions == {} || |Live(s)| <= 1
  {
    if s.retractions == {} || |Live(s)| <= 1 {
      forall limit: nat | limit > 0 ensures AlwaysAgree(limit, s) {
        RebuildEqualsDeltaExactly(limit, s);
        if |Live(s)| <= 1 { AloneIsUnseparated(Live(s), BatchEnds(Selected(s.pending), limit, 0)); }
      }
    } else {
      OneByOneSeparates(s);
      RebuildEqualsDeltaExactly(1, s);
    }
  }
}
