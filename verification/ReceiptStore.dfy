/** The receipt tables as they are updated in place, statement by statement. */
module ReceiptStore {
  import opened Basics
  import opened Paging
  import opened SettlementLog
  import opened SettlementRuns

  // ---------------------------------------------------------------- what the loops compute

  function Filter(batch: seq<nat>, keep: set<nat>): (kept: seq<nat>)
    ensures AsSet(kept) == AsSet(batch) * keep
  {
    if batch == [] then []
    else
      assert AsSet(batch) == {batch[0]} + AsSet(batch[1..]);
      var rest := Filter(batch[1..], keep);
      if batch[0] in keep then
        assert AsSet([batch[0]] + rest) == {batch[0]} + AsSet(rest);
        [batch[0]] + rest
      else rest
  }

  /** Consecutive settlement sequences for the rows, in order. */
  function Assigned(base: map<nat, nat>, next: nat, rows: seq<nat>): map<nat, nat>
    decreases |rows|
  {
    if rows == [] then base else Assigned(base[next := rows[0]], next + 1, rows[1..])
  }

  function SettledInBulk(s: Log, rows: seq<nat>): Log {
    s.(pending := s.pending - AsSet(rows), open := s.open - AsSet(rows),
       settled := Assigned(s.settled, s.nextSettled, rows), history := Assigned(s.history, s.nextSettled, rows),
       nextSettled := s.nextSettled + |rows|)
  }

  /** The rows come in the order of the batch, each once. */
  ghost predicate InOrderOf(rows: seq<nat>, batch: seq<nat>) {
    forall a, b, i, j ::
      (0 <= a < b < |rows| && 0 <= i < |batch| && 0 <= j < |batch| && rows[a] == batch[i] && rows[b] == batch[j])
      ==> i < j
  }

  lemma {:induction false} FilterInOrder(batch: seq<nat>, keep: set<nat>)
    requires Distinct(batch)
    ensures InOrderOf(Filter(batch, keep), batch)
    decreases |batch|
  {
    if batch != [] {
      var rest, rows := Filter(batch[1..], keep), Filter(batch, keep);
      FilterInOrder(batch[1..], keep);
      forall a, b, i, j | 0 <= a < b < |rows| && 0 <= i < |batch| && 0 <= j < |batch|
                          && rows[a] == batch[i] && rows[b] == batch[j]
        ensures i < j
      {
        var k := if batch[0] in keep then 1 else 0;
        LaterInBatch(batch, keep, b - k, j);
        if a >= k { LaterInBatch(batch, keep, a - k, i); }
      }
    }
  }

  /** What is kept of the rest of a batch stands in the rest. */
  lemma LaterInBatch(batch: seq<nat>, keep: set<nat>, a: nat, i: nat)
    requires Distinct(batch) && batch != [] && a < |Filter(batch[1..], keep)| && i < |batch|
    requires Filter(batch[1..], keep)[a] == batch[i]
    ensures i > 0 && batch[1..][i - 1] == batch[i]
  {
    var rest := Filter(batch[1..], keep);
    assert rest[a] in AsSet(rest) && rest[a] in AsSet(batch[1..]);
  }

  lemma {:induction false} AssignedAt(base: map<nat, nat>, next: nat, rows: seq<nat>)
    requires forall q :: q in base ==> q < next
    ensures var m := Assigned(base, next, rows);
            && (forall q :: q in m <==> q in base || next <= q < next + |rows|)
            && (forall q :: q in base ==> m[q] == base[q])
            && (forall i :: 0 <= i < |rows| ==> next + i in m && m[next + i] == rows[i])
    decreases |rows|
  {
    if rows != [] {
      AssignedAt(base[next := rows[0]], next + 1, rows[1..]);
      forall i | 0 < i < |rows|
        ensures next + i in Assigned(base, next, rows) && Assigned(base, next, rows)[next + i] == rows[i]
      {
        assert rows[1..][i - 1] == rows[i];
      }
    }
  }

  lemma FilterSame(batch: seq<nat>, keep: set<nat>, other: set<nat>)
    requires forall r :: r in batch ==> (r in keep <==> r in other)
    ensures Filter(batch, keep) == Filter(batch, other)
  {
    if batch != [] { FilterSame(batch[1..], keep, other); }
  }

  lemma {:induction false} BulkStep(s: Log, r: nat, rows: seq<nat>)
    ensures SettledInBulk(SettleRow(s, r), rows) == SettledInBulk(s, [r] + rows)
  {
    assert ([r] + rows)[1..] == rows;
    assert AsSet([r] + rows) == {r} + AsSet(rows);
    assert s.pending - {r} - AsSet(rows) == s.pending - AsSet([r] + rows);
    assert s.open - {r} - AsSet(rows) == s.open - AsSet([r] + rows);
  }

  /** Deleting the settled rows at once and then numbering them is settling them one by one. */
  lemma {:induction false} SettleIsBulk(s: Log, batch: seq<nat>)
    requires Distinct(batch)
    ensures Settle(s, batch) == SettledInBulk(s, Filter(batch, s.pending))
    decreases |batch|
  {
    if batch == [] {
      assert s.pending - AsSet([]) == s.pending && s.open - AsSet([]) == s.open;
    } else {
      var r := batch[0];
      var t := if r in s.pending then SettleRow(s, r) else s;
      SettleIsBulk(t, batch[1..]);
      FilterSame(batch[1..], s.pending, t.pending);
      if r in s.pending { BulkStep(s, r, Filter(batch[1..], s.pending)); }
    }
  }

  /** The highest sequence of each name among the first rows. */
  ghost predicate HighestByName(s: Log, rows: seq<nat>, byName: map<string, nat>) {
    forall n :: (n in byName <==> n in NamesAmong(s, AsSet(rows)))
                && (n in byName ==> byName[n] == Highest(NamedAmong(s, AsSet(rows), n)))
  }

  lemma HighestWith(keys: set<nat>, q: nat)
    ensures Highest(keys + {q}) == Max(Highest(keys), q)
  {
    assert Highest(keys + {q}) in keys + {q};
  }

  lemma NamedWith(s: Log, rows: seq<nat>, q: nat, n: string)
    requires q in s.history && s.history[q] in s.made
    ensures NamedAmong(s, AsSet(rows + [q]), n) == NamedAmong(s, AsSet(rows), n) + if NameOf(s, q) == n then {q} else {}
    ensures n in NamesAmong(s, AsSet(rows + [q])) <==> n in NamesAmong(s, AsSet(rows)) || NameOf(s, q) == n
  {
    assert AsSet(rows + [q]) == AsSet(rows) + {q};
  }

  lemma HighestByNameStep(s: Log, rows: seq<nat>, byName: map<string, nat>, q: nat)
    requires HighestByName(s, rows, byName) && q in s.history && s.history[q] in s.made
    ensures var n := NameOf(s, q);
            HighestByName(s, rows + [q], byName[n := if n in byName then Max(byName[n], q) else q])
  {
    var name := NameOf(s, q);
    var next := byName[name := if name in byName then Max(byName[name], q) else q];
    forall n ensures n in next <==> n in NamesAmong(s, AsSet(rows + [q]))
             ensures n in next ==> next[n] == Highest(NamedAmong(s, AsSet(rows + [q]), n))
    {
      NamedWith(s, rows, q, n);
      HighestWith(NamedAmong(s, AsSet(rows), n), q);
      NothingNamed(s, AsSet(rows), n);
      if n != name { assert NamedAmong(s, AsSet(rows), n) + {} == NamedAmong(s, AsSet(rows), n); }
    }
  }

  /** What the loop over the settlements that go has found among the first of them. */
  ghost predicate HighestAmong(s: Log, rows: seq<nat>, through: nat, byName: map<string, nat>) {
    through == Highest(AsSet(rows)) && HighestByName(s, rows, byName)
  }

  lemma HighestAmongStep(s: Log, rows: seq<nat>, through: nat, byName: map<string, nat>, q: nat)
    requires HighestAmong(s, rows, through, byName) && q in s.history && s.history[q] in s.made
    ensures var n := NameOf(s, q);
            HighestAmong(s, rows + [q], Max(through, q), byName[n := if n in byName then Max(byName[n], q) else q])
  {
    HighestByNameStep(s, rows, byName, q);
    HighestWith(AsSet(rows), q);
    assert AsSet(rows + [q]) == AsSet(rows) + {q};
  }

  lemma SettledIsNamed(s: Log, q: nat)
    requires Recorded(s) && q in s.settled
    ensures q in s.history && s.history[q] == s.settled[q] && s.settled[q] in s.made
    ensures NameOf(s, q) == s.made[s.settled[q]].name
  {
  }

  lemma NothingNamed(s: Log, part: set<nat>, n: string)
    ensures n in NamesAmong(s, part) || (NamedAmong(s, part, n) == {} && Highest(NamedAmong(s, part, n)) == 0)
  {
    forall q | q in NamedAmong(s, part, n) ensures n in NamesAmong(s, part) {}
  }

  /** The marks once the names in `done` have been raised to their sequences. */
  function Raised(marks: map<string, nat>, byName: map<string, nat>, done: set<string>): map<string, nat>
    requires done <= byName.Keys
  {
    map n | n in marks.Keys + done :: if n in done then Max(Mark(marks, n), byName[n]) else marks[n]
  }

  lemma NothingRaised(marks: map<string, nat>, byName: map<string, nat>)
    ensures Raised(marks, byName, {}) == marks
  {}

  lemma RaisedStep(marks: map<string, nat>, byName: map<string, nat>, done: set<string>, n: string)
    requires done <= byName.Keys && n in byName && n !in done
    ensures var m := Raised(marks, byName, done);
            m[n := Max(Mark(m, n), byName[n])] == Raised(marks, byName, done + {n})
  {
  }

  lemma RaisedByName(s: Log, rows: seq<nat>, byName: map<string, nat>)
    requires HighestByName(s, rows, byName)
    ensures Raised(s.marks, byName, byName.Keys) == RaisedMarks(s, AsSet(rows))
  {
    forall n ensures n in byName.Keys || Highest(NamedAmong(s, AsSet(rows), n)) == 0 {
      NothingNamed(s, AsSet(rows), n);
    }
    assert byName.Keys == NamesAmong(s, AsSet(rows));
  }

  // ---------------------------------------------------------------- the tables

  lemma AsSetJoined(a: seq<nat>, b: seq<nat>)
    ensures AsSet(a + b) == AsSet(a) + AsSet(b)
  {
    forall k | k in a + b ensures k in a || k in b {}
  }

  /** The pages of the three queries are the three parts of what goes. */
  lemma SelectedAre(s: Log, excess: nat, unsettled: seq<nat>, acknowledged: seq<nat>, others: seq<nat>)
    requires unsettled == NextBatch(s.open - s.pending, 0, Minus(excess, 0)) && |AsSet(unsettled)| == |unsettled|
    requires acknowledged == NextBatch(Upto(s, s.floor), 0, Minus(excess, |unsettled|))
    requires |AsSet(acknowledged)| == |acknowledged|
    requires others == NextBatch(s.settled.Keys, s.floor, Minus(excess, |unsettled| + |acknowledged|))
    ensures AsSet(unsettled) == OpenVictims(s, excess)
    ensures AsSet(acknowledged) == AcknowledgedVictims(s, excess)
    ensures AsSet(others) == OtherVictims(s, excess)
  {
    assert Minus(excess, 0) == excess;
  }

  lemma PruneTakes(s: Log, target: nat, ids: nat, excess: nat)
    requires ReceiptCount(s) == target + excess && excess > 0
    ensures Prune(s, target, ids) == Without(s, OpenVictims(s, excess), SettledVictims(s, excess), ids)
  {
  }

  lemma VictimsAreThere(s: Log, l: Limits, excess: nat)
    requires Valid(s, l)
    ensures Recorded(s) && SettledVictims(s, excess) <= s.settled.Keys
  {
    VictimsAreOldest(s, l, excess);
  }

  /** An id is used by one known row at most. */
  lemma OnlyRow(s: Log, l: Limits, part: set<nat>, r: nat, id: string)
    requires Valid(s, l) && part <= Known(s) && r in WithId(s, part, id)
    ensures Least(WithId(s, part, id)) == r
  {
    OnlyOne(s, l, r, id);
  }

  lemma PendingIsUnsettled(s: Log, r: nat)
    requires Partitioned(s) && r in s.pending
    ensures r !in s.settled.Values
  {
  }

  /** A receipt that is kept joins what pruning to the retention target leaves. */
  lemma PersistPrunes(s: Log, l: Limits, row: nat)
    requires Valid(s, l) && row in s.pending && row !in s.open
    ensures var pruned := Prune(s, l.retainedReceipts, l.retainedIds);
            var t := WithReceipt(pruned, row);
            PrunedTo(s, l.retainedReceipts, l.retainedIds, t.(open := t.open - {row}))
  {
    PruneSpares(s, l);
    OneReceiptMore(Prune(s, l.retainedReceipts, l.retainedIds), row);
    PruneTakesOldest(s, l, l.retainedReceipts);
  }

  lemma OneReceiptMore(s: Log, row: nat)
    requires row !in s.open
    ensures var t := WithReceipt(s, row); t.(open := t.open - {row}) == s
  {
    assert s.open + {row} - {row} == s.open;
  }

  lemma SettledAreNumbered(s: Log)
    requires Recorded(s)
    ensures forall q :: q in s.settled ==> q < s.nextSettled
  {
  }

  lemma KnownAreMade(s: Log, l: Limits)
    requires Valid(s, l)
    ensures Partitioned(s) && Recorded(s) && s.pending <= s.made.Keys && s.quarantine <= s.made.Keys
    ensures s.open <= s.made.Keys && s.settled.Values <= s.made.Keys && s.retired <= s.made.Keys
    ensures s.pending <= Known(s) && s.settled.Values <= Known(s)
  {
    assert Known(s) <= s.made.Keys;
  }

  predicate OfName(e: Envelope, name: Option<string>) {
    name == None || name == Some(e.name)
  }

  lemma NamedExactly(s: Log, q: nat, name: Option<string>)
    requires q in s.history && s.history[q] in s.made
    ensures q in Everything(s, name) <==> OfName(s.made[s.history[q]], name)
  {}

  /** A read is refused exactly if a settlement of the name past the position is gone; else it returns the next ones. */
  lemma ReadsExactly(s: Log, l: Limits, after: nat, name: Option<string>)
    requires Valid(s, l)
    ensures Read(s, after, name).Truncated? <==>
              exists q :: q in s.history && after < q && q !in s.settled
                          && s.history[q] in s.made && OfName(s.made[s.history[q]], name)
    ensures Read(s, after, name).Page? ==>
              var page := Read(s, after, name).sequences;
              && Ascending(page) && |page| <= SETTLEMENT_PAGE_SIZE
              && (forall q :: q in page ==>
                    after < q && q in s.settled && s.settled[q] in s.made && OfName(s.made[s.settled[q]], name))
              && (forall q :: q in s.history && after < q
                              && s.history[q] in s.made && OfName(s.made[s.history[q]], name) ==>
                    q in page || (|page| == SETTLEMENT_PAGE_SIZE && forall p :: p in page ==> p < q))
  {
    TruncatedExactly(s, l, after, name);
    forall q | q in s.history && s.history[q] in s.made { NamedExactly(s, q, name); }
    if Read(s, after, name).Page? { PagesExactly(s, l, after, name); }
  }

  lemma PagesExactly(s: Log, l: Limits, after: nat, name: Option<string>)
    requires Valid(s, l) && Read(s, after, name).Page?
    ensures var page := Read(s, after, name).sequences;
            && (forall q :: q in page ==>
                  after < q && q in s.settled && s.settled[q] in s.made && OfName(s.made[s.settled[q]], name))
            && (forall q :: q in Everything(s, name) && after < q ==>
                  q in page || (|page| == SETTLEMENT_PAGE_SIZE && forall p :: p in page ==> p < q))
  {
    ReadIsComplete(s, l, after, name);
    forall q | q in Everything(s, name) && after < q ensures q in After(Everything(s, name), after) {}
    forall q | q in Read(s, after, name).sequences
      ensures after < q && q in s.settled && s.settled[q] in s.made && OfName(s.made[s.settled[q]], name)
    {
      SettledIsNamed(s, q);
    }
  }

  /** The batch's pending rows are gone with their receipts, and numbered next in its order. */
  ghost predicate BatchSettled(s: Log, batch: seq<nat>, deleted: seq<nat>, t: Log) {
    && (forall r :: r in deleted <==> r in batch && r in s.pending) && InOrderOf(deleted, batch)
    && t.pending == s.pending - AsSet(deleted) && t.open == s.open - AsSet(deleted)
    && t.nextSettled == s.nextSettled + |deleted|
    && (forall q :: q in t.settled <==> q in s.settled || s.nextSettled <= q < t.nextSettled)
    && (forall q :: q in s.settled ==> q in t.settled && t.settled[q] == s.settled[q])
    && (forall i :: 0 <= i < |deleted| ==>
          s.nextSettled + i in t.settled && t.settled[s.nextSettled + i] == deleted[i])
  }

  lemma BatchSettles(s: Log, batch: seq<nat>)
    requires Recorded(s) && Distinct(batch)
    ensures var deleted := Filter(batch, s.pending);
            BatchSettled(s, batch, deleted, SettledInBulk(s, deleted))
  {
    var deleted := Filter(batch, s.pending);
    SettledAreNumbered(s);
    FilterInOrder(batch, s.pending);
    AssignedAt(s.settled, s.nextSettled, deleted);
    forall r ensures r in deleted <==> r in batch && r in s.pending {
      assert r in deleted <==> r in AsSet(deleted);
      assert r in batch <==> r in AsSet(batch);
    }
  }

  class Receipts {
    const limits: Limits
    var made: map<nat, Envelope>
    var pending: set<nat>
    var quarantine: set<nat>
    var open: set<nat>
    var settled: map<nat, nat>
    var retired: set<nat>
    var nextLocal: nat
    var nextSettled: nat
    var floor: nat
    var pruned: nat
    var marks: map<string, nat>
    ghost var history: map<nat, nat>

    ghost function Stored(): Log
      reads this
    {
      Log(made, pending, quarantine, open, settled, retired, nextLocal, nextSettled, floor, pruned, marks, history)
    }

    constructor (limits: Limits)
      ensures this.limits == limits && Stored() == Initial() && Valid(Stored(), limits)
    {
      this.limits := limits;
      made, pending, quarantine, open, settled, retired := map[], {}, {}, {}, map[], {};
      nextLocal, nextSettled, floor, pruned, marks, history := 1, 1, 0, 0, map[], map[];
      new;
      InitialHolds(limits);
    }

    /** One query for candidates, not asked once enough are taken. */
    method SelectSome(keys: set<nat>, after: nat, taken: nat, excess: nat) returns (page: seq<nat>)
      ensures page == NextBatch(keys, after, Minus(excess, taken)) && |AsSet(page)| == |page|
    {
      page := [];
      if taken < excess { page := NextBatch(keys, after, excess - taken); }
      AscendingSize(page);
    }

    /** Unsettled receipts first, then acknowledged settlements, then the others, up to the excess. */
    method SelectPrunable(excess: nat) returns (unsettled: seq<nat>, going: seq<nat>)
      ensures AsSet(unsettled) == OpenVictims(Stored(), excess)
      ensures AsSet(going) == SettledVictims(Stored(), excess)
    {
      unsettled := SelectSome(open - pending, 0, 0, excess);
      var low := set q | q in settled && q <= floor;
      assert low == Upto(Stored(), floor);
      var acknowledged := SelectSome(low, 0, |unsettled|, excess);
      var others := SelectSome(settled.Keys, floor, |unsettled| + |acknowledged|, excess);
      SelectedAre(Stored(), excess, unsettled, acknowledged, others);
      AsSetJoined(acknowledged, others);
      going := acknowledged + others;
    }

    /** The highest sequence about to go, overall and by name. */
    method HighestSequences(going: seq<nat>) returns (through: nat, byName: map<string, nat>)
      requires Recorded(Stored()) && AsSet(going) <= settled.Keys
      ensures HighestAmong(Stored(), going, through, byName)
    {
      ghost var s := Stored();
      through, byName := 0, map[];
      for i := 0 to |going|
        invariant HighestAmong(s, going[..i], through, byName)
      {
        var q := going[i];
        assert q in AsSet(going);
        SettledIsNamed(s, q);
        var name := made[settled[q]].name;
        HighestAmongStep(s, going[..i], through, byName, q);
        assert going[..i + 1] == going[..i] + [q];
        through := Max(through, q);
        byName := byName[name := if name in byName then Max(byName[name], q) else q];
      }
      assert going[..|going|] == going;
    }

    /** One name's mark moves up to its sequence, after those of `done`. */
    method UpsertMark(name: string, byName: map<string, nat>, ghost before: map<string, nat>, ghost done: set<string>)
      requires done <= byName.Keys && name in byName && name !in done && marks == Raised(before, byName, done)
      modifies `marks
      ensures marks == Raised(before, byName, done + {name})
    {
      RaisedStep(before, byName, done, name);
      marks := marks[name := if name in marks then Max(marks[name], byName[name]) else byName[name]];
    }

    /** Each name's mark moves up to its sequence, never down. */
    method UpsertMarks(byName: map<string, nat>)
      modifies `marks
      ensures marks == Raised(old(marks), byName, byName.Keys)
    {
      var names := byName.Keys;
      ghost var done: set<string> := {};
      NothingRaised(marks, byName);
      while names != {}
        invariant done <= byName.Keys && names == byName.Keys - done && marks == Raised(old(marks), byName, done)
        decreases names
      {
        var n :| n in names;
        UpsertMark(n, byName, old(marks), done);
        names, done := names - {n}, done + {n};
      }
      assert done == byName.Keys;
    }

    /** Moves the marks up to the settlements that are about to go. */
    method RaiseMarks(going: seq<nat>)
      requires Recorded(Stored()) && AsSet(going) <= settled.Keys
      modifies `marks, `pruned
      ensures marks == RaisedMarks(old(Stored()), AsSet(going)) && pruned == Max(old(pruned), Highest(AsSet(going)))
    {
      var through, byName := HighestSequences(going);
      RaisedByName(Stored(), going, byName);
      UpsertMarks(byName);
      pruned := Max(pruned, through);
    }

    /** Deletes receipts and keeps the ids that are recent enough. */
    method DropReceipts(unsettled: set<nat>, going: set<nat>)
      modifies `open, `settled, `retired
      ensures open == old(open) - unsettled && settled == old(settled) - going
      ensures retired == set r | r in old(retired) + unsettled + RowsOf(old(Stored()), going)
                                 && nextLocal <= r + limits.retainedIds
    {
      var leaving := retired + unsettled + (set q | q in going && q in settled :: settled[q]);
      retired := set r | r in leaving && nextLocal <= r + limits.retainedIds;
      open, settled := open - unsettled, settled - going;
    }

    /** Drops the selected receipts, remembering their ids and how far the log is gone. */
    method Retire(unsettled: seq<nat>, going: seq<nat>)
      requires Recorded(Stored()) && AsSet(going) <= settled.Keys
      modifies `open, `settled, `retired, `marks, `pruned
      ensures Stored() == Without(old(Stored()), AsSet(unsettled), AsSet(going), limits.retainedIds)
    {
      RaiseMarks(going);
      DropReceipts(AsSet(unsettled), AsSet(going));
    }

    /** Retires the oldest prunable receipts, so many or all there are. */
    method RetireOldest(ghost s: Log, excess: nat)
      requires s == Stored() && Valid(s, limits)
      modifies `open, `settled, `retired, `marks, `pruned
      ensures Stored() == Without(s, OpenVictims(s, excess), SettledVictims(s, excess), limits.retainedIds)
    {
      var unsettled, going := SelectPrunable(excess);
      VictimsAreThere(s, limits, excess);
      assert Stored() == s;
      Retire(unsettled, going);
    }

    /** Retires the oldest prunable receipts until the table is back at its target. */
    method PruneReceipts(target: nat)
      requires Valid(Stored(), limits)
      modifies `open, `settled, `retired, `marks, `pruned
      ensures Stored() == Prune(old(Stored()), target, limits.retainedIds)
      ensures PrunedTo(old(Stored()), target, limits.retainedIds, Stored())
    {
      ghost var s := Stored();
      RetireSurplus(target);
      PruneTakesOldest(s, limits, target);
    }

    method RetireSurplus(target: nat)
      requires Valid(Stored(), limits)
      modifies `open, `settled, `retired, `marks, `pruned
      ensures Stored() == Prune(old(Stored()), target, limits.retainedIds)
    {
      ghost var s := Stored();
      if |open| + |settled| > target {
        var excess := |open| + |settled| - target;
        PruneTakes(s, target, limits.retainedIds, excess);
        RetireOldest(s, excess);
      }
    }

    /** Restores the receipt tables of an aborted transaction. */
    method Rollback(t: (set<nat>, map<nat, nat>, set<nat>, map<string, nat>, nat))
      modifies `open, `settled, `retired, `marks, `pruned
      ensures (open, settled, retired, marks, pruned) == t
    {
      open, settled, retired, marks, pruned := t.0, t.1, t.2, t.3, t.4;
    }

    /** Prunes to the retention target and then adds the receipt if it fits, or leaves all as it was. */
    method InsertReceipt(row: nat) returns (stored: bool)
      requires Valid(Stored(), limits)
      modifies `open, `settled, `retired, `marks, `pruned
      ensures stored <==>
                ReceiptCount(Prune(old(Stored()), limits.retainedReceipts, limits.retainedIds)) < limits.maximumReceipts
      ensures Stored() == if stored
                          then WithReceipt(Prune(old(Stored()), limits.retainedReceipts, limits.retainedIds), row)
                          else old(Stored())
    {
      var before := (open, settled, retired, marks, pruned);
      RetireSurplus(limits.retainedReceipts);
      stored := AddIfRoom(row);
      if !stored { Rollback(before); }
    }

    method AddIfRoom(row: nat) returns (stored: bool)
      modifies `open
      ensures stored <==> ReceiptCount(old(Stored())) < limits.maximumReceipts
      ensures Stored() == if stored then WithReceipt(old(Stored()), row) else old(Stored())
    {
      stored := |open| + |settled| < limits.maximumReceipts;
      if stored { open := open + {row}; }
    }

    /** Keeps the first receipt of a pending mutation; a repeated or unknown one changes nothing. */
    method PersistReceipt(row: nat) returns (stored: bool)
      requires Valid(Stored(), limits)
      modifies `open, `settled, `retired, `marks, `pruned
      ensures Stored() == Persist(old(Stored()), limits, row)
      ensures !stored ==> Stored() == old(Stored())
      ensures stored ==> row in open && row !in old(open) && row !in old(settled.Values) && row in pending
      ensures stored ==> PrunedTo(old(Stored()), limits.retainedReceipts, limits.retainedIds,
                                  Stored().(open := open - {row}))
      ensures Configured(limits) && row in pending && row !in old(open) ==>
                (stored <==> |old(open) * old(pending)| < limits.maximumReceipts)
    {
      if Configured(limits) { CapacityExactly(Stored(), limits); }
      if row in pending { PendingIsUnsettled(Stored(), row); }
      if row in open || row in settled.Values || row !in pending { return false; }
      PersistPrunes(Stored(), limits, row);
      stored := InsertReceipt(row);
    }

    /** Numbers the rows consecutively, from the next settlement sequence on. */
    method NumberSettled(deleted: seq<nat>)
      modifies `settled, `nextSettled, `history
      ensures settled == Assigned(old(settled), old(nextSettled), deleted)
      ensures history == Assigned(old(history), old(nextSettled), deleted)
      ensures nextSettled == old(nextSettled) + |deleted|
    {
      var sequence := nextSettled;
      for i := 0 to |deleted|
        invariant sequence == nextSettled + i && nextSettled == old(nextSettled)
        invariant Assigned(settled, sequence, deleted[i..]) == Assigned(old(settled), nextSettled, deleted)
        invariant Assigned(history, sequence, deleted[i..]) == Assigned(old(history), nextSettled, deleted)
      {
        assert deleted[i..][1..] == deleted[i + 1..];
        settled, history := settled[sequence := deleted[i]], history[sequence := deleted[i]];
        sequence := sequence + 1;
      }
      nextSettled := sequence;
    }

    /** Deletes the settled rows and then numbers them in the order of the settlements. */
    method DeleteSettledPending(batch: seq<nat>) returns (deleted: seq<nat>)
      requires Valid(Stored(), limits) && Enabled(Stored(), SettleBatch(batch))
      modifies `pending, `open, `settled, `nextSettled, `history
      ensures Stored() == Settle(old(Stored()), batch)
      ensures BatchSettled(old(Stored()), batch, deleted, Stored())
    {
      SettleIsBulk(Stored(), batch);
      BatchSettles(Stored(), batch);
      deleted := Filter(batch, pending);
      DeleteRows(deleted);
    }

    method DeleteRows(deleted: seq<nat>)
      modifies `pending, `open, `settled, `nextSettled, `history
      ensures Stored() == SettledInBulk(old(Stored()), deleted)
    {
      pending, open := pending - AsSet(deleted), open - AsSet(deleted);
      NumberSettled(deleted);
    }

    method AcknowledgeSettlements(through: nat)
      requires Valid(Stored(), limits)
      modifies `floor
      ensures Stored() == Acknowledge(old(Stored()), through)
      ensures old(floor) <= floor < nextSettled && (floor == old(floor) || floor <= through)
      ensures floor >= through || floor == nextSettled - 1
    {
      var last := if through < nextSettled - 1 then through else nextSettled - 1;
      if floor < last { floor := last; }
    }

    /** The retained settlements of the name. */
    method SelectNamed(name: Option<string>) returns (rows: set<nat>)
      requires Recorded(Stored())
      ensures rows == Retained(Stored(), name)
    {
      forall q | q in settled ensures settled[q] in made && Named(Stored(), q, name)
                                      <==> (name.None? || made[settled[q]].name == name.value)
      {
        SettledIsNamed(Stored(), q);
      }
      rows := set q | q in settled && (name.None? || made[settled[q]].name == name.value);
    }

    /** A page of the log past a position, or the mark the position has fallen behind. */
    method ReadSettlements(after: nat, name: Option<string>) returns (reading: Reading)
      requires Valid(Stored(), limits)
      ensures reading == Read(Stored(), after, name)
      ensures reading.Page? ==>
                reading.sequences == NextBatch(Everything(Stored(), name), after, SETTLEMENT_PAGE_SIZE)
      ensures reading.Page? ==>
                && Ascending(reading.sequences) && |reading.sequences| <= SETTLEMENT_PAGE_SIZE
                && (forall q :: q in reading.sequences ==>
                      after < q && q in settled && settled[q] in made && OfName(made[settled[q]], name))
                && (forall q :: q in history && after < q && history[q] in made && OfName(made[history[q]], name) ==>
                      q in reading.sequences
                      || (|reading.sequences| == SETTLEMENT_PAGE_SIZE && forall p :: p in reading.sequences ==> p < q))
      ensures reading.Truncated? <==>
                exists q :: q in history && after < q && q !in settled
                            && history[q] in made && OfName(made[history[q]], name)
    {
      ReadsExactly(Stored(), limits, after, name);
      var mark := if name.None? then pruned else if name.value in marks then marks[name.value] else 0;
      if after < mark { return Truncated(mark); }
      ReadIsComplete(Stored(), limits, after, name);
      KnownAreMade(Stored(), limits);
      var rows := SelectNamed(name);
      return Page(NextBatch(rows, after, SETTLEMENT_PAGE_SIZE));
    }

    /** A row of the table with the id. */
    method SelectId(part: set<nat>, id: string) returns (row: Option<nat>)
      requires part <= made.Keys
      ensures row.None? ==> WithId(Stored(), part, id) == {}
      ensures row.Some? ==> row.value in WithId(Stored(), part, id)
    {
      if r :| r in part && made[r].id == id { return Some(r); }
      return None;
    }

    /** What is already recorded under a requested id. */
    method RecordedMutation(e: Envelope) returns (found: Lookup)
      requires Valid(Stored(), limits)
      ensures found == Search(Stored(), e)
    {
      KnownAreMade(Stored(), limits);
      var row := SelectId(pending, e.id);
      if row.Some? {
        OnlyRow(Stored(), limits, pending, row.value, e.id);
        return if made[row.value] == e then Existing(row.value) else Conflict;
      }
      row := SelectId(quarantine, e.id);
      if row.Some? { return Conflict; }
      row := SelectId(settled.Values, e.id);
      if row.Some? {
        OnlyRow(Stored(), limits, settled.Values, row.value, e.id);
        return if made[row.value] == e then Existing(row.value) else Conflict;
      }
      row := SelectId(open, e.id);
      if row.Some? { return Conflict; }
      row := SelectId(retired, e.id);
      return if row.Some? then Conflict else Unknown;
    }

    method Allocate(e: Envelope)
      modifies `made, `pending, `nextLocal
      ensures Stored() == Allocated(old(Stored()), e)
    {
      made, pending, nextLocal := made[nextLocal := e], pending + {nextLocal}, nextLocal + 1;
    }

    /** Records a mutation under the next local sequence unless its id is known or there is no room. */
    method Mutate(e: Envelope, replacing: bool) returns (a: Admission)
      requires Valid(Stored(), limits)
      modifies `made, `pending, `nextLocal
      ensures (Stored(), a) == Admit(old(Stored()), limits, e, replacing)
      ensures forall r :: a == Repeated(r) <==>
                          (r in old(pending) || r in old(settled.Values)) && r in old(made) && old(made)[r] == e
      ensures a.IdentityConflict? <==>
                && !Unused(old(Stored()), e.id)
                && forall r :: r in old(pending) || r in old(settled.Values) ==> old(made)[r] != e
      ensures a.SequenceExhausted? <==> Unused(old(Stored()), e.id) && old(nextLocal) >= MAX_SAFE_INTEGER
      ensures a.TooManyPending? <==>
                && Unused(old(Stored()), e.id) && old(nextLocal) < MAX_SAFE_INTEGER
                && |old(pending)| + |old(quarantine)| - (if replacing then 1 else 0) >= limits.maximumPending
      ensures a.Created? ==>
                && a.row == old(nextLocal) && made == old(made)[a.row := e] && pending == old(pending) + {a.row}
                && nextLocal == a.row + 1
      ensures !a.Created? ==> Stored() == old(Stored())
    {
      KnownAreMade(Stored(), limits);
      AdmitExactly(Stored(), limits, e, replacing);
      var found := RecordedMutation(e);
      match found {
        case Existing(r) => return Repeated(r);
        case Conflict => return IdentityConflict;
        case Unknown =>
      }
      if nextLocal >= MAX_SAFE_INTEGER { return SequenceExhausted; }
      var unresolved := |pending| + |quarantine| - (if replacing then 1 else 0);
      if unresolved >= limits.maximumPending { return TooManyPending; }
      a := Created(nextLocal);
      Allocate(e);
    }
  }
}
