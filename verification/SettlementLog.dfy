/**
 Mutation identities, receipts and the settlement log: what is kept, what is pruned and in which
 order, and what a reader of the log can rely on.

 A mutation's envelope never changes, so the tables hold local sequences and `made` gives the
 envelope. The receipt table is split by whether a row carries a settlement sequence. `made` and
 `history` also remember what the tables have forgotten.
 */
module SettlementLog {
  import opened Basics
  import opened Paging

  datatype Envelope = Envelope(id: string, name: string, payload: string)

  datatype Log = Log(
    made: map<nat, Envelope>,
    pending: set<nat>,
    quarantine: set<nat>,
    open: set<nat>,
    settled: map<nat, nat>,
    retired: set<nat>,
    nextLocal: nat,
    nextSettled: nat,
    floor: nat,
    pruned: nat,
    marks: map<string, nat>,
    history: map<nat, nat>)

  datatype Limits = Limits(retainedReceipts: nat, maximumReceipts: nat, retainedIds: nat, maximumPending: nat)

  // ---------------------------------------------------------------- invariant

  function Receipted(s: Log): set<nat> {
    s.open + s.settled.Values
  }

  function Known(s: Log): set<nat> {
    s.pending + s.quarantine + Receipted(s) + s.retired
  }

  function ReceiptCount(s: Log): nat {
    |s.open| + |s.settled|
  }

  function Mark(marks: map<string, nat>, name: string): nat {
    if name in marks then marks[name] else 0
  }

  ghost predicate Partitioned(s: Log) {
    && s.nextLocal > 0
    && (forall r :: r in s.made <==> 0 < r < s.nextLocal)
    && Known(s) <= s.made.Keys
    && s.pending !! s.quarantine && s.quarantine !! Receipted(s)
    && s.retired !! (s.pending + s.quarantine + Receipted(s))
    && s.settled.Values !! (s.pending + s.open)
  }

  ghost predicate Recorded(s: Log) {
    && (forall q :: q in s.history <==> 0 < q < s.nextSettled)
    && (forall q :: q in s.history ==> s.history[q] in s.made)
    && (forall q :: q in s.settled ==> q in s.history && s.history[q] == s.settled[q])
    && s.floor < s.nextSettled && s.pruned < s.nextSettled
  }

  /** The retained settlements are exactly those past the prune mark. */
  ghost predicate NoGap(s: Log) {
    forall q :: s.pruned < q < s.nextSettled <==> q in s.settled
  }

  function NameOf(s: Log, q: nat): string
    requires q in s.history && s.history[q] in s.made
  {
    s.made[s.history[q]].name
  }

  /** `mark` is the last pruned settlement of the name, or zero if none was pruned. */
  ghost predicate IsLast(history: map<nat, nat>, made: map<nat, Envelope>, pruned: nat, name: string, mark: nat) {
    && (mark > 0 ==> mark <= pruned && mark in history && history[mark] in made && made[history[mark]].name == name)
    && (forall q :: q in history && q <= pruned && history[q] in made && made[history[q]].name == name ==> q <= mark)
  }

  ghost predicate MarksAreExact(s: Log) {
    forall n :: IsLast(s.history, s.made, s.pruned, n, Mark(s.marks, n))
  }

  /** Recent mutations are still known, no two known ones share an id, and no id is reused early. */
  ghost predicate Identified(s: Log, retainedIds: nat)
    requires Partitioned(s)
  {
    && (forall r :: r in s.made && s.nextLocal <= r + retainedIds ==> r in Known(s))
    && (forall a, b :: a in Known(s) && b in Known(s) && a != b ==> s.made[a].id != s.made[b].id)
    && (forall a, b :: a in s.made && b in s.made && a < b && s.made[a].id == s.made[b].id ==> a + retainedIds < b)
  }

  /** A mutation settles at most once, and never comes back once it has. */
  ghost predicate SettledOnce(s: Log) {
    && (forall p, q :: p in s.history && q in s.history && s.history[p] == s.history[q] ==> p == q)
    && (forall q :: q in s.history ==> s.history[q] !in s.pending + s.quarantine + s.open)
  }

  ghost predicate Valid(s: Log, l: Limits) {
    && Partitioned(s) && Recorded(s) && NoGap(s) && MarksAreExact(s) && Identified(s, l.retainedIds)
    && SettledOnce(s)
  }

  ghost predicate Configured(l: Limits) {
    l.retainedReceipts < l.maximumReceipts && 0 < l.maximumPending <= l.maximumReceipts && l.retainedIds > 0
  }

  // ---------------------------------------------------------------- pruning

  function Highest(keys: set<nat>): (m: nat)
    ensures forall k :: k in keys ==> k <= m
    ensures keys != {} ==> m in keys
    ensures keys == {} ==> m == 0
    decreases keys
  {
    if keys == {} then 0 else
      var k := Least(keys);
      var rest := Highest(keys - {k});
      assert forall j :: j in keys ==> j == k || j in keys - {k};
      if keys == {k} then k else
        assert keys - {k} != {} by { assert keys == {k} + (keys - {k}); }
        rest
  }

  function Max(a: nat, b: nat): nat {
    if a < b then b else a
  }

  function Minus(a: nat, b: nat): nat {
    if b < a then a - b else 0
  }

  function AsSet(page: seq<nat>): set<nat> {
    set k | k in page
  }

  /** Receipts without a settlement and without a pending row go first, in local order. */
  function OpenVictims(s: Log, excess: nat): set<nat> {
    AsSet(NextBatch(s.open - s.pending, 0, excess))
  }

  function Upto(s: Log, floor: nat): set<nat> {
    set q | q in s.settled && q <= floor
  }

  /** Then settled ones in settlement order, the acknowledged before the others. */
  function AcknowledgedVictims(s: Log, excess: nat): set<nat> {
    AsSet(NextBatch(Upto(s, s.floor), 0, Minus(excess, |OpenVictims(s, excess)|)))
  }

  function OtherVictims(s: Log, excess: nat): set<nat> {
    AsSet(NextBatch(s.settled.Keys, s.floor,
                    Minus(excess, |OpenVictims(s, excess)| + |AcknowledgedVictims(s, excess)|)))
  }

  function SettledVictims(s: Log, excess: nat): set<nat> {
    AcknowledgedVictims(s, excess) + OtherVictims(s, excess)
  }

  function NamedAmong(s: Log, part: set<nat>, name: string): set<nat> {
    set q | q in part && q in s.history && s.history[q] in s.made && NameOf(s, q) == name
  }

  function NamesAmong(s: Log, part: set<nat>): set<string> {
    set q | q in part && q in s.history && s.history[q] in s.made :: NameOf(s, q)
  }

  function RowsOf(s: Log, part: set<nat>): set<nat> {
    set q | q in part && q in s.settled :: s.settled[q]
  }

  function RaisedMarks(s: Log, part: set<nat>): map<string, nat> {
    map n | n in s.marks.Keys + NamesAmong(s, part) :: Max(Mark(s.marks, n), Highest(NamedAmong(s, part, n)))
  }

  /** The state after the receipts `open` and the settlements `part` have been pruned. */
  function Without(s: Log, open: set<nat>, part: set<nat>, retainedIds: nat): Log {
    s.(open := s.open - open,
       settled := s.settled - part,
       retired := (set r | r in s.retired + open + RowsOf(s, part) && s.nextLocal <= r + retainedIds),
       pruned := Max(s.pruned, Highest(part)),
       marks := RaisedMarks(s, part))
  }

  function Prune(s: Log, target: nat, retainedIds: nat): Log {
    var excess := Minus(ReceiptCount(s), target);
    if excess == 0 then s else Without(s, OpenVictims(s, excess), SettledVictims(s, excess), retainedIds)
  }

  ghost predicate DownClosed(part: set<nat>, whole: set<nat>) {
    part <= whole && forall a, b :: a in part && b in whole && b < a ==> b in part
  }

  lemma {:induction false} AscendingSize(page: seq<nat>)
    requires Ascending(page)
    ensures |AsSet(page)| == |page|
    decreases |page|
  {
    if page != [] {
      var front, last := page[..|page| - 1], page[|page| - 1];
      AscendingSize(front);
      assert AsSet(page) == AsSet(front) + {last} by { assert page == front + [last]; }
      assert last !in AsSet(front);
    }
  }

  lemma PageDownClosed(keys: set<nat>, after: nat, limit: nat)
    ensures var part := AsSet(NextBatch(keys, after, limit));
            Oldest(part, After(keys, after), limit)
  {
    var page := NextBatch(keys, after, limit);
    AscendingSize(page);
    forall a, b | a in AsSet(page) && b in After(keys, after) && b < a ensures b in AsSet(page) {
      assert b in page || (|page| == limit && forall j :: j in page ==> j < b);
    }
  }

  lemma OpenVictimsTaken(s: Log, excess: nat)
    requires Partitioned(s)
    ensures Oldest(OpenVictims(s, excess), s.open - s.pending, excess)
  {
    assert After(s.open - s.pending, 0) == s.open - s.pending by {
      forall r | r in s.open - s.pending ensures r > 0 { assert r in Known(s); }
    }
    PageDownClosed(s.open - s.pending, 0, excess);
  }

  /** `part` is the oldest keys of `whole`, at most `limit` of them, and all of them if fewer. */
  ghost predicate Oldest(part: set<nat>, whole: set<nat>, limit: nat) {
    DownClosed(part, whole) && |part| <= limit && (|part| < limit ==> part == whole)
  }

  /** The oldest of the low keys followed by the oldest of the high ones are the oldest of all. */
  lemma TwoPages(low: set<nat>, high: set<nat>, a: set<nat>, n: set<nat>, limit: nat)
    requires forall x, y :: x in low && y in high ==> x < y
    requires Oldest(a, low, limit) && Oldest(n, high, Minus(limit, |a|))
    ensures Oldest(a + n, low + high, limit)
  {
    assert a !! n by { forall q | q in n ensures q !in a { assert q in high; } }
    assert |a + n| == |a| + |n|;
    assert n != {} ==> |n| > 0;
    forall x, y | x in a + n && y in low + high && y < x ensures y in a + n {
      if y in low {} else { assert x in high; }
    }
  }

  lemma AcknowledgedTaken(s: Log, excess: nat)
    requires Recorded(s)
    ensures Oldest(AcknowledgedVictims(s, excess), Upto(s, s.floor), Minus(excess, |OpenVictims(s, excess)|))
  {
    assert After(Upto(s, s.floor), 0) == Upto(s, s.floor);
    PageDownClosed(Upto(s, s.floor), 0, Minus(excess, |OpenVictims(s, excess)|));
  }

  lemma OtherTaken(s: Log, excess: nat)
    ensures Oldest(OtherVictims(s, excess), After(s.settled.Keys, s.floor),
                   Minus(excess, |OpenVictims(s, excess)| + |AcknowledgedVictims(s, excess)|))
  {
    PageDownClosed(s.settled.Keys, s.floor, Minus(excess, |OpenVictims(s, excess)| + |AcknowledgedVictims(s, excess)|));
  }

  lemma BothSides(s: Log)
    ensures Upto(s, s.floor) + After(s.settled.Keys, s.floor) == s.settled.Keys
  {}

  lemma SettledVictimsTaken(s: Log, excess: nat)
    requires Recorded(s)
    ensures Oldest(SettledVictims(s, excess), s.settled.Keys, Minus(excess, |OpenVictims(s, excess)|))
  {
    var low, high := Upto(s, s.floor), After(s.settled.Keys, s.floor);
    var a, n := AcknowledgedVictims(s, excess), OtherVictims(s, excess);
    var limit := Minus(excess, |OpenVictims(s, excess)|);
    AcknowledgedTaken(s, excess);
    OtherTaken(s, excess);
    BothSides(s);
    assert Oldest(n, high, Minus(limit, |a|));
    TwoPages(low, high, a, n, limit);
  }

  /** A prune takes the oldest settlements, up to the excess, and all candidates if they are fewer. */
  lemma VictimsAreOldest(s: Log, l: Limits, excess: nat)
    requires Valid(s, l)
    ensures OpenVictims(s, excess) <= s.open - s.pending
    ensures DownClosed(SettledVictims(s, excess), s.settled.Keys)
    ensures var taken := |OpenVictims(s, excess)| + |SettledVictims(s, excess)|;
            taken >= excess
            || (OpenVictims(s, excess) == s.open - s.pending && SettledVictims(s, excess) == s.settled.Keys)
  {
    OpenVictimsTaken(s, excess);
    SettledVictimsTaken(s, excess);
  }

  // ---------------------------------------------------------------- what a prune keeps

  ghost predicate Prunable(s: Log, open: set<nat>, part: set<nat>) {
    open <= s.open - s.pending && DownClosed(part, s.settled.Keys)
  }

  lemma PrunedInterval(s: Log, open: set<nat>, part: set<nat>, ids: nat)
    requires Recorded(s) && NoGap(s) && Prunable(s, open, part)
    ensures var s' := Without(s, open, part, ids);
            Recorded(s') && NoGap(s') && s.pruned <= s'.pruned && forall q :: q in part <==> s.pruned < q <= s'.pruned
  {
    var s' := Without(s, open, part, ids);
    forall q | q in part ensures s.pruned < q <= s'.pruned { assert q in s.settled; }
    forall q | s.pruned < q <= s'.pruned ensures q in part {
      assert part != {};
      assert s'.pruned == Highest(part) && Highest(part) in part && s'.pruned in s.settled;
      assert q in s.settled;
    }
    forall q ensures s'.pruned < q < s'.nextSettled <==> q in s'.settled {
      if q in s.settled && q !in part { assert s.pruned < q; }
    }
  }

  lemma MarkAfter(s: Log, open: set<nat>, part: set<nat>, ids: nat, n: string)
    ensures Mark(Without(s, open, part, ids).marks, n) == Max(Mark(s.marks, n), Highest(NamedAmong(s, part, n)))
  {
    forall q | q in NamedAmong(s, part, n) ensures n in NamesAmong(s, part) {}
    assert n !in NamesAmong(s, part) ==> NamedAmong(s, part, n) == {};
  }

  lemma PrunedMark(s: Log, open: set<nat>, part: set<nat>, ids: nat, n: string)
    requires Recorded(s) && NoGap(s) && MarksAreExact(s) && Prunable(s, open, part)
    ensures var t := Without(s, open, part, ids);
            Mark(s.marks, n) <= Mark(t.marks, n) && IsLast(s.history, s.made, t.pruned, n, Mark(t.marks, n))
  {
    var t := Without(s, open, part, ids);
    PrunedInterval(s, open, part, ids);
    MarkAfter(s, open, part, ids, n);
    assert IsLast(s.history, s.made, s.pruned, n, Mark(s.marks, n));
    forall q | q in s.history && q <= t.pruned && NameOf(s, q) == n ensures q <= Mark(t.marks, n) {
      if s.pruned < q { assert q in NamedAmong(s, part, n); }
    }
  }

  lemma PrunedMarks(s: Log, open: set<nat>, part: set<nat>, ids: nat)
    requires Recorded(s) && NoGap(s) && MarksAreExact(s) && Prunable(s, open, part)
    ensures MarksAreExact(Without(s, open, part, ids))
    ensures forall n :: Mark(s.marks, n) <= Mark(Without(s, open, part, ids).marks, n)
  {
    forall n ensures Mark(s.marks, n) <= Mark(Without(s, open, part, ids).marks, n)
             ensures IsLast(s.history, s.made, Without(s, open, part, ids).pruned, n,
                            Mark(Without(s, open, part, ids).marks, n))
    {
      PrunedMark(s, open, part, ids, n);
    }
  }

  lemma PrunedRows(s: Log, part: set<nat>)
    requires Recorded(s) && SettledOnce(s)
    ensures (s.settled - part).Values == s.settled.Values - RowsOf(s, part) && RowsOf(s, part) <= s.settled.Values
  {
    var left := s.settled - part;
    forall r | r in s.settled.Values - RowsOf(s, part) ensures r in left.Values {
      var q :| q in s.settled && s.settled[q] == r;
      assert q in left && left[q] == r;
    }
    forall r | r in left.Values ensures r in s.settled.Values - RowsOf(s, part) {
      var q :| q in left && left[q] == r;
      assert s.settled[q] == r;
      forall p | p in part && p in s.settled ensures s.settled[p] != r { assert s.history[p] != s.history[q]; }
    }
  }

  lemma PrunedKnown(s: Log, open: set<nat>, part: set<nat>, ids: nat)
    requires Recorded(s) && SettledOnce(s) && Prunable(s, open, part)
    ensures Known(Without(s, open, part, ids)) <= Known(s)
    ensures forall r :: r in Known(s) && s.nextLocal <= r + ids ==> r in Known(Without(s, open, part, ids))
  {
    PrunedRows(s, part);
    forall r | r in Known(s) && s.nextLocal <= r + ids ensures r in Known(Without(s, open, part, ids)) {
      assert r in s.open - open || r in open || r in s.settled.Values - RowsOf(s, part) || r in RowsOf(s, part)
             || r in s.pending + s.quarantine + s.retired;
    }
  }

  lemma PrunedPartition(s: Log, open: set<nat>, part: set<nat>, ids: nat)
    requires Partitioned(s) && Recorded(s) && SettledOnce(s) && Prunable(s, open, part)
    ensures Partitioned(Without(s, open, part, ids))
  {
    PrunedRows(s, part);
    PrunedKnown(s, open, part, ids);
  }

  lemma PrunedIdentities(s: Log, open: set<nat>, part: set<nat>, ids: nat)
    requires Partitioned(s) && Recorded(s) && Identified(s, ids) && SettledOnce(s) && Prunable(s, open, part)
    ensures Partitioned(Without(s, open, part, ids)) && Identified(Without(s, open, part, ids), ids)
  {
    PrunedPartition(s, open, part, ids);
    PrunedKnown(s, open, part, ids);
  }

  lemma PruneKeepsValid(s: Log, l: Limits, target: nat)
    requires Valid(s, l)
    ensures Valid(Prune(s, target, l.retainedIds), l)
  {
    var excess := Minus(ReceiptCount(s), target);
    if excess > 0 {
      var open, part := OpenVictims(s, excess), SettledVictims(s, excess);
      VictimsAreOldest(s, l, excess);
      PrunedInterval(s, open, part, l.retainedIds);
      PrunedMarks(s, open, part, l.retainedIds);
      PrunedIdentities(s, open, part, l.retainedIds);
    }
  }

  // ---------------------------------------------------------------- what a prune takes

  /**
   `t` is `s` with its oldest prunable receipts gone: exactly as many as lie over the target, or all
   there are; those without a settlement first; and recent ids among them retired.
   */
  ghost predicate PrunedTo(s: Log, target: nat, ids: nat, t: Log) {
    && OldestGone(s.open, s.open * s.pending, t.open) && OldestGone(s.settled.Keys, {}, t.settled.Keys)
    && Sized(s, target, t) && (|s.open| + |s.settled| > target ==> Retires(s, ids, t))
    && (|s.open| + |s.settled| <= target ==> t == s)
    && (forall q :: q in t.settled ==> t.settled[q] == s.settled[q])
    && t == s.(open := t.open, settled := t.settled, retired := t.retired, pruned := t.pruned, marks := t.marks)
  }

  /** What is left keeps what is held, and whatever goes is older than whatever else is left. */
  ghost predicate OldestGone(all: set<nat>, held: set<nat>, left: set<nat>) {
    held <= left <= all && forall a, b :: a in all && a !in left && b in left && b !in held ==> a < b
  }

  /** The target is met, or else nothing is left but the receipts of pending mutations. */
  ghost predicate Sized(s: Log, target: nat, t: Log) {
    && (|s.open| + |s.settled| > target ==>
          |t.open| + |t.settled| == target
          || (|t.open| + |t.settled| > target && t.open == s.open * s.pending && t.settled == map[]))
    && (t.settled != s.settled ==> t.open == s.open * s.pending)
  }

  /** The retired ids are the recent ones of those retired before and of the receipts that are gone. */
  ghost predicate Retires(s: Log, ids: nat, t: Log) {
    forall r: nat :: r in t.retired <==>
      s.nextLocal <= r + ids && (r in s.retired || (r in s.open && r !in t.open) || Dropped(s.settled, t.settled, r))
  }

  ghost predicate Dropped(before: map<nat, nat>, after: map<nat, nat>, r: nat) {
    exists q :: q in before && q !in after && before[q] == r
  }

  lemma GoneAreOldest(all: set<nat>, held: set<nat>, part: set<nat>)
    requires held <= all && DownClosed(part, all - held)
    ensures OldestGone(all, held, all - part)
  {}

  lemma DroppedAre(s: Log, part: set<nat>, r: nat)
    ensures r in RowsOf(s, part) <==> Dropped(s.settled, s.settled - part, r)
  {
    if r in RowsOf(s, part) {
      var q :| q in part && q in s.settled && s.settled[q] == r;
      assert q !in s.settled - part;
    }
  }

  lemma WithoutRetires(s: Log, open: set<nat>, part: set<nat>, ids: nat)
    requires open <= s.open
    ensures Retires(s, ids, Without(s, open, part, ids))
  {
    forall r { DroppedAre(s, part, r); }
  }

  lemma LeftAfter(open: set<nat>, pending: set<nat>, settled: map<nat, nat>, a: set<nat>, b: set<nat>, excess: nat)
    requires Oldest(a, open - pending, excess) && Oldest(b, settled.Keys, Minus(excess, |a|))
    ensures |open - a| + |settled - b| == |open| + |settled| - |a| - |b| && |a| + |b| <= excess
    ensures |a| + |b| < excess ==> open - a == open * pending && settled - b == map[]
    ensures settled - b != settled ==> open - a == open * pending
  {
    RemovedSize(open, a);
    RemovedSize(settled.Keys, b);
    assert (settled - b).Keys == settled.Keys - b;
    assert |settled - b| == |(settled - b).Keys| && |settled| == |settled.Keys|;
    assert open - (open - pending) == open * pending;
    if b == {} { assert settled - b == settled; } else { assert |b| > 0; }
  }

  lemma WithoutSized(s: Log, open: set<nat>, part: set<nat>, ids: nat, excess: nat)
    requires excess > 0 && Oldest(open, s.open - s.pending, excess)
    requires Oldest(part, s.settled.Keys, Minus(excess, |open|)) && ReceiptCount(s) >= excess
    ensures Sized(s, ReceiptCount(s) - excess, Without(s, open, part, ids))
  {
    LeftAfter(s.open, s.pending, s.settled, open, part, excess);
  }

  /** Pruning takes the oldest receipts down to the target and nothing else. */
  lemma PruneTakesOldest(s: Log, l: Limits, target: nat)
    requires Valid(s, l)
    ensures PrunedTo(s, target, l.retainedIds, Prune(s, target, l.retainedIds))
  {
    var excess := Minus(ReceiptCount(s), target);
    if excess > 0 {
      var open, part := OpenVictims(s, excess), SettledVictims(s, excess);
      OpenVictimsTaken(s, excess);
      SettledVictimsTaken(s, excess);
      WithoutOldest(s, open, part, l.retainedIds);
      WithoutSized(s, open, part, l.retainedIds, excess);
      WithoutRetires(s, open, part, l.retainedIds);
    }
  }

  lemma WithoutOldest(s: Log, open: set<nat>, part: set<nat>, ids: nat)
    requires DownClosed(open, s.open - s.pending) && DownClosed(part, s.settled.Keys)
    ensures var t := Without(s, open, part, ids);
            OldestGone(s.open, s.open * s.pending, t.open) && OldestGone(s.settled.Keys, {}, t.settled.Keys)
  {
    assert s.open - s.open * s.pending == s.open - s.pending && s.settled.Keys - {} == s.settled.Keys;
    GoneAreOldest(s.open, s.open * s.pending, open);
    GoneAreOldest(s.settled.Keys, {}, part);
    assert (s.settled - part).Keys == s.settled.Keys - part;
  }

  // ---------------------------------------------------------------- the receipt capacity

  /** Receipts whose mutation is still pending; a prune never takes these. */
  function Held(s: Log): set<nat> {
    s.open * s.pending
  }

  lemma RemovedSize(a: set<nat>, b: set<nat>)
    requires b <= a
    ensures |a - b| == |a| - |b|
  {
    assert a == (a - b) + b;
  }

  lemma PrunedCount(s: Log, open: set<nat>, part: set<nat>, ids: nat)
    requires Prunable(s, open, part)
    ensures ReceiptCount(Without(s, open, part, ids)) == ReceiptCount(s) - |open| - |part|
  {
    RemovedSize(s.open, open);
    RemovedSize(s.settled.Keys, part);
    assert (s.settled - part).Keys == s.settled.Keys - part;
    assert |s.settled - part| == |(s.settled - part).Keys| && |s.settled| == |s.settled.Keys|;
  }

  lemma PrunedToTarget(s: Log, l: Limits, open: set<nat>, part: set<nat>, target: nat)
    requires Prunable(s, open, part) && ReceiptCount(s) > target
    requires |open| + |part| >= ReceiptCount(s) - target || (open == s.open - s.pending && part == s.settled.Keys)
    ensures var left := ReceiptCount(Without(s, open, part, l.retainedIds));
            |Held(s)| <= left && (left <= target || left == |Held(s)|)
  {
    PrunedCount(s, open, part, l.retainedIds);
    SubsetSize(Held(s), s.open - open);
    RemovedSize(s.open, open);
    SubsetSize(part, s.settled.Keys);
    assert |s.settled| == |s.settled.Keys|;
    assert s.open - (s.open - s.pending) == Held(s);
  }

  /**
   After pruning to the retention target the receipt table is full exactly when the receipts that
   are held by pending mutations fill it alone.
   */
  lemma CapacityExactly(s: Log, l: Limits)
    requires Valid(s, l) && Configured(l)
    ensures ReceiptCount(Prune(s, l.retainedReceipts, l.retainedIds)) >= l.maximumReceipts
            <==> |Held(s)| >= l.maximumReceipts
  {
    var excess := Minus(ReceiptCount(s), l.retainedReceipts);
    SubsetSize(Held(s), s.open);
    if excess > 0 {
      VictimsAreOldest(s, l, excess);
      PrunedToTarget(s, l, OpenVictims(s, excess), SettledVictims(s, excess), l.retainedReceipts);
    }
  }

  /** While the pending mutations fit the receipt table, a new receipt never overflows it. */
  lemma CapacityIsUnreachable(s: Log, l: Limits, r: nat)
    requires Valid(s, l) && Configured(l)
    requires r in s.pending && r !in s.open && |s.pending| <= l.maximumReceipts
    ensures ReceiptCount(Prune(s, l.retainedReceipts, l.retainedIds)) < l.maximumReceipts
  {
    CapacityExactly(s, l);
    SubsetSize(Held(s), s.pending - {r});
  }
}
