/**
 The client store's projection code: the shortcut check, the incremental delta and the resumable
 rebuild. A transaction works on local copies and assigns the fields at its end, so a failure
 leaves the stored state as it was.
 */
module LocalStore {
  import opened Basics
  import opened Tables
  import opened Outbox
  import opened Paging
  import opened Projection
  import opened Rebuild
  import opened RebuildRuns

  datatype DeltaResult =
    | RebuildPending
    | ProtocolInvalid
    | Applied(entities: set<Entity>)

  datatype RebuildResult =
    | Interrupted
    | Rebuilt(changed: set<Entity>)

  datatype BatchResult = NoRows | ForeignReceipt | Advanced

  // ---------------------------------------------------------------- helpers of the loops

  function Upto(ob: Pending, n: nat): Pending {
    map k | k in ob && k <= n :: ob[k]
  }

  /** The shortcut's row conditions, for the rows up to `n`. */
  ghost predicate RowsMatch(ob: Pending, m: Meta, dirty: set<Entity>, n: nat) {
    && (forall k :: k in ob && k <= n ==> !Mismatched(ob[k]))
    && DroppedFirst(Upto(ob, n), m)
    && DirtyIffDropped(Upto(ob, n), m, dirty)
  }

  ghost predicate RowMatches(row: Row, m: Meta, dirty: set<Entity>) {
    forall c :: c in row.changes ==> (Dropped(row, m) <==> c.entity in dirty)
  }

  lemma RowsMatchBack(ob: Pending, m: Meta, dirty: set<Entity>, n: nat, k: nat)
    requires n < k && k in ob && RowsMatch(ob, m, dirty, k)
    ensures RowsMatch(ob, m, dirty, n) && !Mismatched(ob[k]) && RowMatches(ob[k], m, dirty)
    ensures Dropped(ob[k], m) ==> Between(LiveKeys(ob, m), 0, n + 1) == {}
  {
    var before, after := Upto(ob, n), Upto(ob, k);
    assert forall a :: a in before ==> a in after && after[a] == before[a];
    assert k in after && after[k] == ob[k];
    if Dropped(ob[k], m) {
      forall j | j in ob && j <= n ensures Dropped(ob[j], m) { assert j in after && after[j] == ob[j]; }
    }
  }

  lemma RowsMatchNext(ob: Pending, m: Meta, dirty: set<Entity>, n: nat, k: nat)
    requires n < k && k in ob && forall j :: n < j < k ==> j !in ob
    requires RowsMatch(ob, m, dirty, n) && !Mismatched(ob[k]) && RowMatches(ob[k], m, dirty)
    requires Dropped(ob[k], m) ==> Between(LiveKeys(ob, m), 0, n + 1) == {}
    ensures RowsMatch(ob, m, dirty, k)
  {
    var before, after := Upto(ob, n), Upto(ob, k);
    assert after == before[k := ob[k]];
    forall a, b | a in after && b in after && a < b && Dropped(after[b], m) ensures Dropped(after[a], m) {
      assert a in before && before[a] == ob[a];
      if b == k {
        assert a !in Between(LiveKeys(ob, m), 0, n + 1);
      } else {
        assert b in before && before[b] == ob[b];
      }
    }
  }

  lemma RowsMatchAll(ob: Pending, m: Meta, dirty: set<Entity>, n: nat)
    requires forall k :: k in ob ==> k <= n
    ensures Upto(ob, n) == ob
  {}

  lemma LiveGrows(ob: Pending, m: Meta, n: nat, k: nat)
    requires n < k && k in ob && forall j :: n < j < k ==> j !in ob
    ensures Between(LiveKeys(ob, m), 0, k + 1)
            == Between(LiveKeys(ob, m), 0, n + 1) + (if Dropped(ob[k], m) then {} else {k})
  {}

  /** A batch of at most `limit` keys, as many as there are. */
  method PickSome<T(==)>(keys: set<T>, limit: nat) returns (some: set<T>)
    requires limit > 0
    ensures some <= keys && |some| <= limit
    ensures keys != {} ==> |some| > 0
    ensures |some| < limit ==> some == keys
  {
    some := {};
    while |some| < limit && some != keys
      invariant some <= keys && |some| <= limit
      invariant keys != {} && some == {} ==> some != keys
      decreases limit - |some|
    {
      assert keys - some != {} by { assert some + (keys - some) == keys; }
      var k :| k in keys - some;
      some := some + {k};
    }
  }

  /** A receipt for another mutation stands on a row that is to be replayed. */
  predicate Unusable(row: Row) {
    && row.submission != AwaitingReceipt && row.entry == None
    && row.receipt.Some? && row.receipt.value.identity != row.identity
  }

  /** Row by row: who waits comes last, and it is the others whose writes are dirty; none waiting is retracted. */
  ghost predicate WaitingAreLast(s: Replica) {
    && (forall k :: k in s.pending ==> !Unusable(s.pending[k]))
    && (forall a, b :: a in s.pending && b in s.pending && a < b && Waiting(s.pending[a], s.meta) ==>
          Waiting(s.pending[b], s.meta))
    && (forall k, c :: k in s.pending && c in s.pending[k].changes ==>
          (Waiting(s.pending[k], s.meta) <==> c.entity !in s.dirty))
    && (forall k, c :: k in s.pending && Waiting(s.pending[k], s.meta) && c in s.pending[k].changes ==>
          c.entity !in s.retractions)
    && (forall e :: e in s.dirty ==> Get(Base(s), e) == Get(Visible(s), e))
  }

  lemma ShortcutExactly(s: Replica)
    ensures MatchesReplay(s) <==> WaitingAreLast(s)
  {
    forall k | k in s.pending ensures Waiting(s.pending[k], s.meta) <==> k in Live(s) {
      WaitingExactly(s.pending[k], s.meta);
    }
  }

  class ProjectionStore {
    const handler: Handler
    const limit: nat

    var canonical: Table
    var retractions: set<Entity>
    var pending: Pending
    var meta: Meta
    var nextSequence: nat
    var dirty: set<Entity>
    var visible: map<nat, Table>
    var active: nat
    var target: Option<nat>
    var cursor: Cursor
    var revision: nat

    function Stored(): Replica
      reads this
    {
      Replica(canonical, retractions, pending, meta, nextSequence, dirty, visible, active, target, cursor, revision)
    }

    ghost predicate Valid()
      reads this
    {
      limit > 0 && WellFormed(Stored())
    }

    method RequestProjectionReplay()
      modifies this`target, this`cursor
      ensures Stored() == RequestReplay(old(Stored()))
      ensures old(target).Some? ==> target == old(target) && cursor == old(cursor)
      ensures old(target).None? ==> target == Some(active + 1) && cursor == Cleanup
    {
      if target.None? {
        target, cursor := Some(active + 1), Cleanup;
      }
    }

    /** A row passes when it is settled and all it wrote is dirty, or it is not and nothing it wrote is. */
    method RowPasses(row: Row) returns (ok: bool)
      ensures ok <==> RowMatches(row, meta, dirty)
    {
      var dropped := Dropped(row, meta);
      for i := 0 to |row.changes|
        invariant forall c :: c in row.changes[..i] ==> (dropped <==> c.entity in dirty)
      {
        assert row.changes[..i + 1] == row.changes[..i] + [row.changes[i]];
        if dropped != (row.changes[i].entity in dirty) { return false; }
      }
      assert row.changes[..|row.changes|] == row.changes;
      return true;
    }

    method ProjectionMatchesReplay() returns (ok: bool)
      requires Valid()
      ensures ok <==> MatchesReplay(Stored())
      ensures ok <==> WaitingAreLast(Stored())
    {
      ShortcutExactly(Stored());
      ok := ScanOutbox();
    }

    /** Reads the outbox page by page, up to the first row that does not match. */
    method ScanOutbox() returns (ok: bool)
      requires Valid()
      ensures ok <==> MatchesReplay(Stored())
    {
      var replayedSeen, replayed: set<Entity>, after := false, {}, 0;
      assert Upto(pending, 0) == map[];
      var more := true;
      while more
        invariant Scanned(Stored(), after, replayedSeen, replayed)
        invariant !more ==> forall k :: k in pending ==> k <= after
        decreases more, |After(pending.Keys, after)|
      {
        var page := NextBatch(pending.Keys, after, limit);
        ghost var start := after;
        for i := 0 to |page|
          invariant after == Reached(page, start, i)
          invariant Scanned(Stored(), after, replayedSeen, replayed)
        {
          NoKeySkipped(pending.Keys, start, limit, i);
          var row := pending[page[i]];
          var matches := RowPasses(row);
          if Mismatched(row) || (Dropped(row, meta) && replayedSeen) || !matches {
            NotMatching(Stored(), after, page[i]);
            return false;
          }
          ScanNext(Stored(), after, replayedSeen, replayed, page[i]);
          if !Dropped(row, meta) {
            replayedSeen, replayed := true, replayed + EntitiesOf(row.changes);
          }
          after := page[i];
        }
        if |page| < limit {
          ShortPageIsLast(pending.Keys, start, limit);
          more := false;
        } else {
          PageAdvances(pending.Keys, start, limit);
        }
      }
      ScanEnds(Stored(), after, replayedSeen, replayed);
      ok := replayed !! retractions && forall e :: e in dirty ==> Get(Base(Stored()), e) == Get(Visible(Stored()), e);
    }

    /** Replays one selected row over local copies: skipped once settled, run and recorded otherwise. */
    method ReplayPendingRow(ghost ob: Pending, ghost base: Table, ghost lo: nat, ghost n: nat, k: nat,
                            stored: Pending, table: Table, wrote: set<Entity>)
      returns (ok: bool, rows: Pending, t: Table, written: set<Entity>)
      requires lo <= n + 1 <= k && k in ob && forall j :: n < j < k ==> j !in Selected(ob)
      requires Replaying(handler, ob, LiveKeys(ob, meta), base, lo, n, stored, table, wrote)
      ensures ok <==> !(&& ob[k].submission != AwaitingReceipt && ob[k].entry == None
                        && ob[k].receipt.Some? && ob[k].receipt.value.identity != ob[k].identity)
      ensures ok && Waiting(ob[k], meta) ==>
                && k in stored && k in rows && Ran(handler, ob[k], table, rows[k], t) && rows == stored[k := rows[k]]
                && written == wrote + EntitiesOf(rows[k].changes)
      ensures ok && !Waiting(ob[k], meta) ==> rows == stored && t == table && written == wrote
      ensures ok ==> Replaying(handler, ob, LiveKeys(ob, meta), base, lo, k, rows, t, written)
    {
      WaitingExactly(ob[k], meta);
      RowRuns(handler, ob[k], table);
      RowUntouched(handler, ob, meta, base, lo, n, k, stored, table, wrote);
      rows, t, written := stored, table, wrote;
      var row := stored[k];
      if Mismatched(row) {
        ok := false;
      } else if Dropped(row, meta) {
        SkipRow(handler, ob, meta, base, lo, n, k, stored, table, wrote);
        ok := true;
      } else {
        ReplayRow(handler, ob, meta, base, lo, n, k, stored, table, wrote);
        var record := Record(handler, row, table);
        ok, rows, t := true, stored[k := record], Execute(handler, row, table);
        written := wrote + EntitiesOf(record.changes);
      }
    }

    /** Replays one page of rows; stops at a receipt that belongs elsewhere. */
    method ReplayPage(ghost ob: Pending, ghost base: Table, ghost lo: nat, start: nat, page: seq<nat>,
                      stored: Pending, table: Table, wrote: set<Entity>)
      returns (ok: bool, rows: Pending, t: Table, written: set<Entity>)
      requires page == NextBatch(Selected(ob), start, limit) && lo <= start + 1
      requires Replaying(handler, ob, LiveKeys(ob, meta), base, lo, start, stored, table, wrote)
      ensures ok <==> PageMatches(ob, page)
      ensures ok ==>
                Replaying(handler, ob, LiveKeys(ob, meta), base, lo, Reached(page, start, |page|), rows, t, written)
    {
      ok, rows, t, written := true, stored, table, wrote;
      for i := 0 to |page|
        invariant ok && forall j :: 0 <= j < i ==> page[j] in ob && !Mismatched(ob[page[j]])
        invariant Replaying(handler, ob, LiveKeys(ob, meta), base, lo, Reached(page, start, i), rows, t, written)
      {
        NoKeySkipped(Selected(ob), start, limit, i);
        ok, rows, t, written := ReplayPendingRow(ob, base, lo, Reached(page, start, i), page[i], rows, t, written);
        if !ok {
          assert page[i] in page;
          return;
        }
      }
    }

    /** Replays every selected row over a copy of the projection, in batches, without filtering. */
    method ReplayOutbox(start: Table)
      returns (ok: bool, rows: Pending, table: Table, written: set<Entity>)
      requires Valid()
      ensures ok <==> forall k :: k in pending ==> !Mismatched(pending[k])
      ensures ok ==> rows == Recorded(Whole(handler, Live(Stored())), pending, start, 0, nextSequence)
      ensures ok ==> table == Fold(Whole(handler, Live(Stored())), pending, start, 0, nextSequence)
      ensures ok ==> written == WriteSet(rows, Live(Stored()))
    {
      var after, more := 0, true;
      ok, rows, table, written := true, pending, start, {};
      ReplayStarts(handler, Stored(), start);
      while more
        invariant ok && Replaying(handler, pending, Live(Stored()), start, 0, after, rows, table, written)
        invariant forall k :: k in pending && k <= after ==> !Mismatched(pending[k])
        invariant !more ==> forall k :: after < k ==> k !in Selected(pending)
        decreases more, |After(Selected(pending), after)|
      {
        ReplayKeepsPlan(handler, pending, Live(Stored()), start, 0, after, rows, table, written);
        var page := NextBatch(Selected(rows), after, limit);
        ok, rows, table, written := ReplayPage(pending, start, 0, after, page, rows, table, written);
        if !ok { return; }
        PageIsChecked(pending, after, limit);
        if |page| < limit {
          ShortPageIsLast(Selected(pending), after, limit);
          more := false;
        } else {
          PageAdvances(Selected(pending), after, limit);
        }
        after := Reached(page, after, |page|);
      }
      ReplayEnds(handler, Stored(), start, after, rows, table, written);
      UnselectedMatch(pending, after);
    }

    method ApplyProjectionDelta() returns (r: DeltaResult)
      requires Valid()
      modifies this`pending, this`visible, this`dirty, this`revision
      ensures target.Some? ==> r.RebuildPending? && Stored() == old(Stored())
      ensures target.None? && MatchesReplay(old(Stored())) ==>
                r == Applied({}) && Stored() == old(Stored()).(dirty := {})
      ensures target.None? && !MatchesReplay(old(Stored())) ==>
                if exists k :: k in old(pending) && Mismatched(old(pending)[k])
                then r.ProtocolInvalid? && Stored() == old(Stored())
                else r == Applied(DeltaEntities(handler, old(Stored()))) && Stored() == Delta(handler, old(Stored()))
    {
      if target.Some? { return RebuildPending; }
      var matches := ProjectionMatchesReplay();
      if matches {
        dirty := {};
        return Applied({});
      }
      r := ReplayTouched();
    }

    /** The delta proper: reset the touched entities, replay, drop what is retracted. */
    method ReplayTouched() returns (r: DeltaResult)
      requires Valid()
      modifies this`pending, this`visible, this`dirty, this`revision
      ensures r == if exists k :: k in old(pending) && Mismatched(old(pending)[k])
                   then ProtocolInvalid else Applied(DeltaEntities(handler, old(Stored())))
      ensures Stored() == if r.ProtocolInvalid? then old(Stored()) else Delta(handler, old(Stored()))
      ensures r.Applied? ==> dirty == {} && revision == old(revision) + 1 && active == old(active)
    {
      ghost var s := Stored();
      var touched := TouchedEntities();
      var start := Reset(Generation(visible, active), touched, canonical - retractions);
      assert start == DeltaStart(s);
      var ok, rows, table, written := ReplayOutbox(start);
      if !ok { return ProtocolInvalid; }
      var entities := touched + written;
      DeltaReplayed(handler, s, rows, table, written);
      table := table - (retractions * entities);
      pending, visible := rows, visible[active := table];
      dirty, revision := {}, revision + 1;
      return Applied(entities);
    }

    // -------------------------------------------------------------- resumable rebuild

    method DeleteProjectionRows() returns (deleted: bool, ghost ev: Event)
      requires Valid() && target.Some? && cursor.Cleanup?
      modifies this`visible, this`cursor
      ensures Enabled(handler, limit, old(Stored()), ev) && Stored() == RebuildRuns.Apply(handler, old(Stored()), ev)
      ensures (deleted <==> ev.Deleted?) && (!deleted <==> ev.CleanedUp?)
    {
      var rows := Generation(visible, target.value);
      var gone := PickSome(rows.Keys, limit);
      if gone == {} {
        deleted, ev, cursor := false, CleanedUp, Canonical;
      } else {
        deleted, ev, visible := true, Deleted(gone), visible[target.value := rows - gone];
      }
    }

    method CopyProjectionRows() returns (copied: bool, ghost ev: Event)
      requires Valid() && target.Some? && cursor.Canonical?
      modifies this`visible, this`cursor
      ensures Enabled(handler, limit, old(Stored()), ev) && Stored() == RebuildRuns.Apply(handler, old(Stored()), ev)
      ensures (copied <==> ev.Copied?) && (!copied <==> ev.CopiedAll?)
    {
      ghost var s := Stored();
      var more := PickSome((canonical - retractions).Keys - Generation(visible, target.value).Keys, limit);
      copied := more != {};
      if copied {
        ev := Copied(more);
        CopyRows(more);
      } else {
        ev := CopiedAll;
        AllCopied(handler, limit, s);
        cursor := PendingAfter(0);
      }
    }

    method CopyRows(more: set<Entity>)
      requires limit > 0 && target.Some? && cursor.Canonical? && more <= Uncopied(Stored()) && 0 < |more| <= limit
      modifies this`visible
      ensures Enabled(handler, limit, old(Stored()), Copied(more))
      ensures Stored() == RebuildRuns.Apply(handler, old(Stored()), Copied(more))
    {
      CopyWritten(handler, limit, Stored(), more);
      visible := visible[target.value := Generation(visible, target.value) + CopyOf(canonical - retractions, more)];
    }

    /** The rows of one batch over copies, with the entities it will mark dirty. */
    method ReplayBatchRows(after: nat, table: Table)
      returns (ok: bool, rows: Pending, t: Table, touched: set<Entity>)
      requires Valid() && target.Some? && table == TargetRows(Stored())
      requires !AtEnd(Selected(pending), after, limit)
      ensures var last := PageEnd(Selected(pending), after, limit);
              ok <==> forall k :: k in pending && after < k <= last ==> !Mismatched(pending[k])
      ensures var last := PageEnd(Selected(pending), after, limit);
              ok ==> && rows == BatchPending(handler, Stored(), table, after, last)
                     && t == BatchTable(handler, Stored(), table, after, last)
                     && touched == BatchEntities(handler, Stored(), after, last)
    {
      var page := NextBatch(Selected(pending), after, limit);
      BatchStarts(handler, Stored(), table, after);
      ok, rows, t, touched := ReplayPage(pending, table, after + 1, after, page, pending, table, {});
      PageSpans(pending, after, limit);
      var last := page[|page| - 1];
      if ok { BatchReplayed(handler, Stored(), table, after, last, rows, t, touched); }
      t, touched := t - retractions, WriteSet(pending, Between(Selected(pending), after + 1, last + 1)) + touched;
    }

    method ReplayPendingBatch() returns (r: BatchResult, ghost ev: Event)
      requires Valid() && target.Some? && cursor.PendingAfter?
      modifies this`pending, this`visible, this`dirty, this`cursor
      ensures !r.Advanced? ==> Stored() == old(Stored())
      ensures r.NoRows? ==> Promotable(limit, Stored())
      ensures r.ForeignReceipt? ==> exists k :: k in pending && Mismatched(pending[k])
      ensures r.Advanced? ==> ev.Replayed? && Enabled(handler, limit, old(Stored()), ev)
                              && Stored() == RebuildRuns.Apply(handler, old(Stored()), ev)
      ensures r.Advanced? ==> cursor == PendingAfter(ev.last) && old(dirty) <= dirty
      ensures r.Advanced? ==>
                forall k :: k in old(pending) && Replayable(old(pending)[k]) && old(cursor).sequence < k <= ev.last ==>
                  && EntitiesOf(old(pending)[k].changes) <= dirty
                  && k in pending && (Waiting(old(pending)[k], meta) ==> EntitiesOf(pending[k].changes) <= dirty)
    {
      ev := Restarted;
      var after := cursor.sequence;
      if AtEnd(Selected(pending), after, limit) { return NoRows, ev; }
      var ok, rows, table, touched := ReplayBatchRows(after, Generation(visible, target.value));
      if !ok { return ForeignReceipt, ev; }
      var last := PageEnd(Selected(pending), after, limit);
      ev := Replayed(last);
      WriteBatch(last, rows, table, touched);
      BatchMarks(handler, old(Stored()), after, last);
      return Advanced, ev;
    }

    method WriteBatch(last: nat, rows: Pending, table: Table, touched: set<Entity>)
      requires target.Some? && cursor.PendingAfter?
      requires rows == BatchPending(handler, Stored(), TargetRows(Stored()), cursor.sequence, last)
      requires table == BatchTable(handler, Stored(), TargetRows(Stored()), cursor.sequence, last)
      requires touched == BatchEntities(handler, Stored(), cursor.sequence, last)
      modifies this`pending, this`visible, this`dirty, this`cursor
      ensures Stored() == RebuildRuns.Apply(handler, old(Stored()), Replayed(last))
    {
      BatchWritten(handler, Stored(), last, rows, table, touched);
      pending, dirty, cursor := rows, dirty + touched, PendingAfter(last);
      visible := visible[target.value := table];
    }

    method PromoteProjection() returns (changed: set<Entity>)
      requires target.Some?
      modifies this`active, this`target, this`cursor, this`dirty, this`revision
      ensures Stored() == Promote(old(Stored())) && changed == old(dirty)
      ensures active == old(target).value && target == None && cursor == Cleanup && dirty == {}
      ensures revision == old(revision) + 1
    {
      changed := dirty;
      active, target, cursor := target.value, None, Cleanup;
      dirty, revision := {}, revision + 1;
    }

    /** Rows of superseded generations are deleted in batches after the promotion. */
    method CollectGenerations()
      requires Valid()
      modifies this`visible
      ensures Visible(Stored()) == Visible(old(Stored()))
      ensures forall g :: g != active ==> Generation(visible, g) == map[]
    {
      var stale := Stale(visible, active);
      while stale != {}
        invariant stale == Stale(visible, active)
        invariant Generation(visible, active) == Generation(old(visible), active)
        decreases |stale|
      {
        var gone := PickSome(stale, limit);
        var kept := map g | g in visible :: visible[g] - (set r | r in gone && r.0 == g :: r.1);
        StaleShrinks(visible, kept, active, gone);
        visible := kept;
        stale := Stale(visible, active);
      }
      forall g | g != active ensures Generation(visible, g) == map[] {
        if g in visible { assert forall e :: e in visible[g] ==> (g, e) in Stale(visible, active); }
      }
    }

    /**
     The full rebuild, started afresh or resumed from any stored cursor. It promotes the outcome
     that cursor promised, or stops at a receipt stored for another mutation with the promise kept.
     */
    method RebuildProjection() returns (r: RebuildResult)
      requires Valid() && (target.Some? ==> InProgress(Retargeted(Stored())))
      modifies this`pending, this`visible, this`dirty, this`active, this`target, this`cursor, this`revision
      ensures old(target).None? ==> r == Rebuilt({}) && Stored() == old(Stored())
      ensures old(target).Some? && r.Rebuilt? ==>
                && (pending, Visible(Stored())) == RebuildRuns.Outcome(handler, limit, Retargeted(old(Stored())))
                && target.None? && dirty == {} && revision == old(revision) + 1
                && forall g :: g != active ==> Generation(visible, g) == map[]
      ensures r.Interrupted? ==>
                && Continues(handler, limit, Retargeted(old(Stored())), Stored())
                && exists k :: k in pending && Mismatched(pending[k])
    {
      if target.None? { return Rebuilt({}); }
      ghost var from := Retargeted(Stored());
      if target == Some(active) {
        target, cursor := Some(active + 1), Cleanup;
      }
      assert Stored() == from;
      ContinuesItself(handler, limit, from);
      r := RunRebuild(from);
    }

    method RunRebuild(ghost from: Replica) returns (r: RebuildResult)
      requires Valid() && Continues(handler, limit, from, Stored())
      modifies this`pending, this`visible, this`dirty, this`active, this`target, this`cursor, this`revision
      ensures r.Rebuilt? ==>
                && (pending, Visible(Stored())) == RebuildRuns.Outcome(handler, limit, from)
                && target.None? && dirty == {} && revision == from.revision + 1
                && forall g :: g != active ==> Generation(visible, g) == map[]
      ensures r.Interrupted? ==>
                Continues(handler, limit, from, Stored()) && exists k :: k in pending && Mismatched(pending[k])
    {
      EmptyTarget(from);
      CopyCanonical(from);
      var done := ReplayBatches(from);
      if !done { return Interrupted; }
      var changed := FinishRebuild(from);
      return Rebuilt(changed);
    }

    method FinishRebuild(ghost from: Replica) returns (changed: set<Entity>)
      requires Valid() && Continues(handler, limit, from, Stored()) && Promotable(limit, Stored())
      modifies this`visible, this`dirty, this`active, this`target, this`cursor, this`revision
      ensures (pending, Visible(Stored())) == RebuildRuns.Outcome(handler, limit, from)
      ensures target.None? && dirty == {} && revision == old(revision) + 1
      ensures forall g :: g != active ==> Generation(visible, g) == map[]
    {
      NothingRemains(handler, limit, Stored(), TargetRows(Stored()), cursor.sequence);
      changed := PromoteProjection();
      CollectGenerations();
    }

    method EmptyTarget(ghost from: Replica)
      requires Valid() && Continues(handler, limit, from, Stored())
      modifies this`visible, this`cursor
      ensures Valid() && Continues(handler, limit, from, Stored()) && !cursor.Cleanup?
    {
      while cursor.Cleanup?
        invariant Valid() && Continues(handler, limit, from, Stored())
        decreases Phase(Stored()), Left(Stored())
      {
        ghost var s := Stored();
        var deleted, ev := DeleteProjectionRows();
        ContinuesWith(handler, limit, from, s, ev);
        EventAdvances(handler, limit, s, ev);
      }
    }

    method CopyCanonical(ghost from: Replica)
      requires Valid() && Continues(handler, limit, from, Stored()) && !cursor.Cleanup?
      modifies this`visible, this`cursor
      ensures Valid() && Continues(handler, limit, from, Stored()) && cursor.PendingAfter?
    {
      while cursor.Canonical?
        invariant Valid() && Continues(handler, limit, from, Stored()) && !cursor.Cleanup?
        decreases Phase(Stored()), Left(Stored())
      {
        ghost var s := Stored();
        var copied, ev := CopyProjectionRows();
        ContinuesWith(handler, limit, from, s, ev);
        EventAdvances(handler, limit, s, ev);
      }
    }

    method ReplayBatches(ghost from: Replica) returns (done: bool)
      requires Valid() && Continues(handler, limit, from, Stored()) && cursor.PendingAfter?
      modifies this`pending, this`visible, this`dirty, this`cursor
      ensures Valid() && Continues(handler, limit, from, Stored())
      ensures done ==> Promotable(limit, Stored())
      ensures !done ==> exists k :: k in pending && Mismatched(pending[k])
    {
      var batch := Advanced;
      while batch.Advanced?
        invariant Valid() && Continues(handler, limit, from, Stored()) && cursor.PendingAfter?
        invariant batch.NoRows? ==> Promotable(limit, Stored())
        invariant batch.ForeignReceipt? ==> exists k :: k in pending && Mismatched(pending[k])
        decreases batch.Advanced?, Left(Stored())
      {
        ghost var s := Stored();
        ghost var ev;
        batch, ev := ReplayPendingBatch();
        if batch.Advanced? {
          ContinuesWith(handler, limit, from, s, ev);
          EventAdvances(handler, limit, s, ev);
        }
      }
      done := batch.NoRows?;
    }

    /** Dirty entities and everything recorded in the outbox, read in batches. */
    method TouchedEntities() returns (touched: set<Entity>)
      requires Valid()
      ensures touched == Touched(Stored())
    {
      touched := dirty;
      TouchedStarts(Stored());
      var after, more := 0, true;
      while more
        invariant touched == TouchedUpto(Stored(), after)
        invariant !more ==> forall k :: after < k ==> k !in pending.Keys
        decreases more, |After(pending.Keys, after)|
      {
        var page := NextBatch(pending.Keys, after, limit);
        ghost var start := after;
        for i := 0 to |page|
          invariant after == Reached(page, start, i)
          invariant touched == TouchedUpto(Stored(), after)
        {
          NoKeySkipped(pending.Keys, start, limit, i);
          TouchedGrows(Stored(), after, page[i]);
          touched := touched + EntitiesOf(pending[page[i]].changes);
          after := page[i];
        }
        if |page| < limit {
          ShortPageIsLast(pending.Keys, start, limit);
          more := false;
        } else {
          PageAdvances(pending.Keys, start, limit);
        }
      }
      TouchedEnds(Stored(), after);
    }
  }

  lemma DeltaReplayed(h: Handler, s: Replica, rows: Pending, table: Table, written: set<Entity>)
    requires rows == Recorded(Whole(h, Live(s)), s.pending, DeltaStart(s), 0, s.nextSequence)
    requires table == Fold(Whole(h, Live(s)), s.pending, DeltaStart(s), 0, s.nextSequence)
    requires written == WriteSet(rows, Live(s))
    ensures Touched(s) + written == DeltaEntities(h, s)
    ensures Delta(h, s) == s.(pending := rows, dirty := {}, revision := s.revision + 1,
                              visible := s.visible[s.active := table - (s.retractions * (Touched(s) + written))])
  {}

  /** What a row of the batch had written and what it writes now are both among the batch's entities. */
  lemma BatchMarks(h: Handler, s: Replica, after: nat, last: nat)
    requires s.target.Some?
    ensures forall k :: k in s.pending && Replayable(s.pending[k]) && after < k <= last ==>
              && EntitiesOf(s.pending[k].changes) <= BatchEntities(h, s, after, last)
              && k in BatchPending(h, s, TargetRows(s), after, last)
              && (Waiting(s.pending[k], s.meta) ==>
                    EntitiesOf(BatchPending(h, s, TargetRows(s), after, last)[k].changes)
                    <= BatchEntities(h, s, after, last))
  {
    var rows := BatchPending(h, s, TargetRows(s), after, last);
    forall k | k in s.pending && Replayable(s.pending[k]) && after < k <= last
      ensures EntitiesOf(s.pending[k].changes) <= BatchEntities(h, s, after, last)
      ensures k in rows
      ensures Waiting(s.pending[k], s.meta) ==> EntitiesOf(rows[k].changes) <= BatchEntities(h, s, after, last)
    {
      WaitingExactly(s.pending[k], s.meta);
      assert k in Between(Selected(s.pending), after + 1, last + 1);
      assert Waiting(s.pending[k], s.meta) ==> k in Between(Live(s), after + 1, last + 1);
    }
  }

  lemma AllCopied(h: Handler, limit: nat, s: Replica)
    requires limit > 0 && s.target.Some? && s.cursor.Canonical? && Uncopied(s) == {}
    ensures Enabled(h, limit, s, CopiedAll) && RebuildRuns.Apply(h, s, CopiedAll) == s.(cursor := PendingAfter(0))
  {}

  lemma CopyWritten(h: Handler, limit: nat, s: Replica, more: set<Entity>)
    requires limit > 0 && s.target.Some? && s.cursor.Canonical? && more <= Uncopied(s) && 0 < |more| <= limit
    ensures Enabled(h, limit, s, Copied(more))
    ensures RebuildRuns.Apply(h, s, Copied(more))
            == s.(visible := s.visible[s.target.value := TargetRows(s) + CopyOf(Base(s), more)])
  {}

  /** What a replayed batch writes is what the run's event says. */
  lemma BatchWritten(h: Handler, s: Replica, last: nat, rows: Pending, table: Table, touched: set<Entity>)
    requires s.target.Some? && s.cursor.PendingAfter?
    requires rows == BatchPending(h, s, TargetRows(s), s.cursor.sequence, last)
    requires table == BatchTable(h, s, TargetRows(s), s.cursor.sequence, last)
    requires touched == BatchEntities(h, s, s.cursor.sequence, last)
    ensures RebuildRuns.Apply(h, s, Replayed(last))
            == s.(pending := rows, dirty := s.dirty + touched, cursor := PendingAfter(last),
                  visible := s.visible[s.target.value := table])
  {}

  ghost function TouchedUpto(s: Replica, n: nat): set<Entity> {
    s.dirty + WriteSet(s.pending, Between(s.pending.Keys, 0, n + 1))
  }

  lemma TouchedStarts(s: Replica)
    requires WellFormed(s)
    ensures TouchedUpto(s, 0) == s.dirty
  {
    assert 0 !in s.pending;
  }

  lemma TouchedEnds(s: Replica, n: nat)
    requires forall k :: n < k ==> k !in s.pending.Keys
    ensures TouchedUpto(s, n) == Touched(s)
  {
    assert Between(s.pending.Keys, 0, n + 1) == s.pending.Keys;
  }

  lemma TouchedGrows(s: Replica, n: nat, k: nat)
    requires n < k && k in s.pending && forall j :: n < j < k ==> j !in s.pending.Keys
    ensures TouchedUpto(s, k) == TouchedUpto(s, n) + EntitiesOf(s.pending[k].changes)
  {
    assert Between(s.pending.Keys, 0, k + 1) == Between(s.pending.Keys, 0, n + 1) + {k};
  }

  /** The local copies after replaying, over `base`, the rows from `lo` up to `n`. */
  ghost predicate Replaying(h: Handler, ob: Pending, live: set<nat>, base: Table, lo: nat, n: nat,
                            rows: Pending, t: Table, written: set<Entity>) {
    && rows == Recorded(Whole(h, live), ob, base, lo, n + 1)
    && t == Fold(Whole(h, live), ob, base, lo, n + 1)
    && written == WriteSet(rows, Between(live, lo, n + 1))
  }

  ghost predicate PageMatches(ob: Pending, page: seq<nat>) {
    forall k :: k in page ==> k in ob && !Mismatched(ob[k])
  }

  lemma ReplayKeepsPlan(h: Handler, ob: Pending, live: set<nat>, base: Table, lo: nat, n: nat,
                        rows: Pending, t: Table, written: set<Entity>)
    requires Replaying(h, ob, live, base, lo, n, rows, t, written)
    ensures Selected(rows) == Selected(ob)
  {
    RecordedPlan(Whole(h, live), ob, base, lo, n + 1);
    PlanKeepsLive(ob, rows, Meta(0, None));
  }

  lemma ReplayStarts(h: Handler, s: Replica, base: Table)
    requires WellFormed(s)
    ensures Replaying(h, s.pending, Live(s), base, 0, 0, s.pending, base, {})
  {
    var p := Whole(h, Live(s));
    assert 0 !in s.pending;
    FoldGap(p, s.pending, base, 0, 0, 1);
    assert Recorded(p, s.pending, base, 0, 1) == s.pending;
  }

  lemma RowUntouched(h: Handler, ob: Pending, m: Meta, base: Table, lo: nat, n: nat, k: nat,
                     rows: Pending, t: Table, written: set<Entity>)
    requires n < k && k in ob && Replaying(h, ob, LiveKeys(ob, m), base, lo, n, rows, t, written)
    ensures k in rows && rows[k] == ob[k]
  {}

  lemma ReplayReaches(h: Handler, ob: Pending, m: Meta, base: Table, lo: nat, n: nat, k: nat,
                      rows: Pending, t: Table, written: set<Entity>)
    requires lo <= n + 1 <= k && forall j :: n < j < k ==> j !in Selected(ob)
    requires Replaying(h, ob, LiveKeys(ob, m), base, lo, n, rows, t, written)
    ensures rows == Recorded(Whole(h, LiveKeys(ob, m)), ob, base, lo, k)
    ensures t == Fold(Whole(h, LiveKeys(ob, m)), ob, base, lo, k)
    ensures written == WriteSet(rows, Between(LiveKeys(ob, m), lo, k))
  {
    var live := LiveKeys(ob, m);
    forall j | n + 1 <= j < k ensures j !in live { assert j !in Selected(ob); }
    FoldGap(Whole(h, live), ob, base, lo, n + 1, k);
    RecordedGap(Whole(h, live), ob, base, lo, n + 1, k);
    assert Between(live, lo, k) == Between(live, lo, n + 1);
  }

  /** A selected row that its receipt has settled is passed over. */
  lemma SkipRow(h: Handler, ob: Pending, m: Meta, base: Table, lo: nat, n: nat, k: nat,
                rows: Pending, t: Table, written: set<Entity>)
    requires lo <= n + 1 <= k && k in ob && Dropped(ob[k], m) && forall j :: n < j < k ==> j !in Selected(ob)
    requires Replaying(h, ob, LiveKeys(ob, m), base, lo, n, rows, t, written)
    ensures Replaying(h, ob, LiveKeys(ob, m), base, lo, k, rows, t, written)
  {
    var live := LiveKeys(ob, m);
    ReplayReaches(h, ob, m, base, lo, n, k, rows, t, written);
    FoldGap(Whole(h, live), ob, base, lo, k, k + 1);
    RecordedGap(Whole(h, live), ob, base, lo, k, k + 1);
    assert Between(live, lo, k + 1) == Between(live, lo, k);
  }

  /** Any other selected row is run on the table and recorded. */
  lemma ReplayRow(h: Handler, ob: Pending, m: Meta, base: Table, lo: nat, n: nat, k: nat,
                  rows: Pending, t: Table, written: set<Entity>)
    requires lo <= n + 1 <= k && k in ob && !Dropped(ob[k], m) && forall j :: n < j < k ==> j !in Selected(ob)
    requires Replaying(h, ob, LiveKeys(ob, m), base, lo, n, rows, t, written)
    ensures var record := Record(h, ob[k], t);
            Replaying(h, ob, LiveKeys(ob, m), base, lo, k, rows[k := record], Execute(h, ob[k], t),
                      written + EntitiesOf(record.changes))
  {
    var live := LiveKeys(ob, m);
    ReplayReaches(h, ob, m, base, lo, n, k, rows, t, written);
    RecordedNext(Whole(h, live), ob, base, lo, k);
    WriteSetGrows(Whole(h, live), ob, base, lo, k);
  }

  lemma ReplayEnds(h: Handler, s: Replica, start: Table, n: nat, rows: Pending, t: Table, written: set<Entity>)
    requires WellFormed(s) && Replaying(h, s.pending, Live(s), start, 0, n, rows, t, written)
    requires forall k :: n < k ==> k !in Selected(s.pending)
    ensures rows == Recorded(Whole(h, Live(s)), s.pending, start, 0, s.nextSequence)
    ensures t == Fold(Whole(h, Live(s)), s.pending, start, 0, s.nextSequence)
    ensures written == WriteSet(rows, Live(s))
  {
    var p := Whole(h, Live(s));
    LiveAreSelected(s);
    assert Between(Live(s), 0, n + 1) == Live(s);
    if n + 1 <= s.nextSequence {
      FoldGap(p, s.pending, start, 0, n + 1, s.nextSequence);
      RecordedGap(p, s.pending, start, 0, n + 1, s.nextSequence);
    } else {
      forall k | s.nextSequence <= k ensures k !in Live(s) { if k in Live(s) { LiveInPending(s, k); } }
      FoldGap(p, s.pending, start, 0, s.nextSequence, n + 1);
      RecordedGap(p, s.pending, start, 0, s.nextSequence, n + 1);
    }
  }

  /** A requested target that is still the active generation is moved on before anything is deleted. */
  function Retargeted(s: Replica): Replica {
    if s.target == Some(s.active) then s.(target := Some(s.active + 1), cursor := Cleanup) else s
  }

  lemma ContinuesItself(h: Handler, limit: nat, s: Replica)
    requires limit > 0 && InProgress(s)
    ensures Continues(h, limit, s, s)
  {
    assert SamePlan(s.pending, s.pending);
  }

  function Stale(visible: map<nat, Table>, active: nat): set<(nat, Entity)> {
    set g, e | g in visible && g != active && e in visible[g] :: (g, e)
  }

  lemma StaleShrinks(visible: map<nat, Table>, kept: map<nat, Table>, active: nat, gone: set<(nat, Entity)>)
    requires gone <= Stale(visible, active) && |gone| > 0
    requires kept == map g | g in visible :: visible[g] - (set r | r in gone && r.0 == g :: r.1)
    ensures |Stale(kept, active)| < |Stale(visible, active)|
    ensures Generation(kept, active) == Generation(visible, active)
  {
    var a, b := Stale(kept, active), Stale(visible, active);
    var r :| r in gone;
    assert a <= b - {r};
    SubsetSize(a, b - {r});
  }

  lemma BatchStarts(h: Handler, s: Replica, t: Table, after: nat)
    ensures Replaying(h, s.pending, Live(s), t, after + 1, after, s.pending, t, {})
  {
    assert Recorded(Whole(h, Live(s)), s.pending, t, after + 1, after + 1) == s.pending;
  }

  /** What a replayed page makes of the copies is what a batch makes of the store. */
  lemma BatchReplayed(h: Handler, s: Replica, table: Table, after: nat, last: nat, rows: Pending, t: Table,
                      written: set<Entity>)
    requires s.target.Some? && table == TargetRows(s)
    requires Replaying(h, s.pending, Live(s), table, after + 1, last, rows, t, written)
    ensures rows == BatchPending(h, s, table, after, last) && t - s.retractions == BatchTable(h, s, table, after, last)
    ensures WriteSet(s.pending, Between(Selected(s.pending), after + 1, last + 1)) + written
            == BatchEntities(h, s, after, last)
  {}

  lemma PageSpans(ob: Pending, after: nat, limit: nat)
    requires !AtEnd(Selected(ob), after, limit)
    ensures PageMatches(ob, NextBatch(Selected(ob), after, limit)) <==>
              forall k :: k in ob && after < k <= PageEnd(Selected(ob), after, limit) ==> !Mismatched(ob[k])
  {
    var page := NextBatch(Selected(ob), after, limit);
    assert page[|page| - 1] in page;
    forall k | k in page ensures k in ob && after < k <= PageEnd(Selected(ob), after, limit) {
      var j :| 0 <= j < |page| && page[j] == k;
      if j < |page| - 1 { assert page[j] < page[|page| - 1]; }
    }
    forall k | k in ob && after < k <= PageEnd(Selected(ob), after, limit) ensures k in page || !Mismatched(ob[k]) {}
  }

  lemma PageIsChecked(ob: Pending, after: nat, limit: nat)
    requires forall k :: k in NextBatch(Selected(ob), after, limit) ==> k in ob && !Mismatched(ob[k])
    requires forall k :: k in ob && k <= after ==> !Mismatched(ob[k])
    ensures forall k :: k in ob && k <= PageEnd(Selected(ob), after, limit) ==> !Mismatched(ob[k])
  {
    var page := NextBatch(Selected(ob), after, limit);
    forall k | k in ob && after < k <= Reached(page, after, |page|) ensures !Mismatched(ob[k]) {
      if k in Selected(ob) && k !in page { assert page[|page| - 1] in page; }
    }
  }

  lemma UnselectedMatch(ob: Pending, after: nat)
    requires forall k :: after < k ==> k !in Selected(ob)
    requires forall k :: k in ob && k <= after ==> !Mismatched(ob[k])
    ensures forall k :: k in ob ==> !Mismatched(ob[k])
  {
    forall k | k in ob ensures !Mismatched(ob[k]) { if after < k { assert k !in Selected(ob); } }
  }

  lemma MatchesUpto(s: Replica, k: nat)
    requires MatchesReplay(s)
    ensures RowsMatch(s.pending, s.meta, s.dirty, k)
  {
    var part := Upto(s.pending, k);
    assert forall a :: a in part ==> a in s.pending && part[a] == s.pending[a];
  }

  /** One row that fails the scan is enough to refuse the shortcut. */
  lemma NotMatching(s: Replica, n: nat, k: nat)
    requires n < k && k in s.pending
    requires Mismatched(s.pending[k]) || !RowMatches(s.pending[k], s.meta, s.dirty)
             || (Dropped(s.pending[k], s.meta) && Between(Live(s), 0, n + 1) != {})
    ensures !MatchesReplay(s)
  {
    if MatchesReplay(s) {
      MatchesUpto(s, k);
      RowsMatchBack(s.pending, s.meta, s.dirty, n, k);
    }
  }

  /** What the shortcut's scan knows once it has read the rows up to `n`. */
  ghost predicate Scanned(s: Replica, n: nat, replayedSeen: bool, replayed: set<Entity>) {
    && RowsMatch(s.pending, s.meta, s.dirty, n)
    && (replayedSeen <==> Between(Live(s), 0, n + 1) != {})
    && replayed == WriteSet(s.pending, Between(Live(s), 0, n + 1))
  }

  lemma ScanNext(s: Replica, n: nat, replayedSeen: bool, replayed: set<Entity>, k: nat)
    requires n < k && k in s.pending && (forall j :: n < j < k ==> j !in s.pending)
    requires Scanned(s, n, replayedSeen, replayed)
    requires !Mismatched(s.pending[k]) && RowMatches(s.pending[k], s.meta, s.dirty)
    requires !(Dropped(s.pending[k], s.meta) && replayedSeen)
    ensures Dropped(s.pending[k], s.meta) ==> Scanned(s, k, replayedSeen, replayed)
    ensures !Dropped(s.pending[k], s.meta) ==> Scanned(s, k, true, replayed + EntitiesOf(s.pending[k].changes))
  {
    RowsMatchNext(s.pending, s.meta, s.dirty, n, k);
    LiveGrows(s.pending, s.meta, n, k);
  }

  lemma ScanEnds(s: Replica, n: nat, replayedSeen: bool, replayed: set<Entity>)
    requires Scanned(s, n, replayedSeen, replayed) && forall k :: k in s.pending ==> k <= n
    ensures MatchesReplay(s) <==>
            && replayed !! s.retractions
            && forall e :: e in s.dirty ==> Get(Base(s), e) == Get(Visible(s), e)
  {
    RowsMatchAll(s.pending, s.meta, s.dirty, n);
    assert Between(Live(s), 0, n + 1) == Live(s) by {
      forall k | k in Live(s) ensures k <= n { LiveInPending(s, k); }
    }
  }
}
