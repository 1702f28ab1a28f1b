/**
 Runs of the operations that change the projection's inputs, under the gate that serializes
 them, with crashes and restarts. A settlement takes three transactions: mark what the settled
 rows wrote as dirty, project, delete the rows.
 */
module ProjectionRuns {
  import opened Basics
  import opened Tables
  import opened Outbox
  import opened View
  import opened Projection
  import opened Rebuild
  import RebuildRuns

  /** Where the operation that holds the gate stands in a settlement. */
  datatype Gate =
    | Free
    | Prepared(rows: set<nat>)
    | Projected(rows: set<nat>)

  /**
   The durable state with its history: the base and the rows of the last projection, and whether
   every replay since the last one that re-ran the whole outbox spared the retracted entities.
   */
  datatype World = World(s: Replica, gate: Gate, base: Table, projected: set<nat>, clean: bool)

  datatype Event =
    | Mutate(identity: Identity, payload: string)
    | Page(changes: seq<ViewChange>, serverSequence: Option<nat>)
    | Install(entries: seq<ViewChange>, sequence: nat, terminal: nat)
    | Revoke
    | ApplyEntries(writes: seq<Change>, through: nat, logged: map<nat, nat>)
    | PersistReceipt(at: nat, receipt: Receipt)
    | MarkSubmission(at: nat, submission: Submission)
    | ResolveQuarantine(row: Row, canceled: Option<nat>)
    | Prepare
    | Project
    | SkipProjection
    | DeleteSettled
    | Rebuild
    | Crash

  // ---------------------------------------------------------------- settlement

  /** A receipt that settles its row under the installed state. */
  predicate Settles(row: Row, m: Meta) {
    && row.receipt.Some? && row.receipt.value.identity == row.identity
    && match row.receipt.value
       case Accepted(_, sequence, _) => row.entry.Some? || sequence <= m.serverCursor
       case Rejected(_, _, _) => true
       case Expired(_, sequence, through) =>
         m.installed.Some? && sequence <= m.installed.value.sequence && through <= m.installed.value.terminal
  }

  /** A receipt that an arriving snapshot covers. */
  predicate Covered(row: Row, sequence: nat, terminal: nat) {
    && row.receipt.Some? && row.receipt.value.identity == row.identity
    && match row.receipt.value
       case Accepted(_, s, t) => s <= sequence && (t.None? || t.value <= terminal)
       case Rejected(_, _, t) => t.Some? && t.value <= terminal
       case Expired(_, s, t) => s <= sequence && t <= terminal
  }

  /** The four ways a receipt settles its row, comparison by comparison. */
  ghost predicate Due(row: Row, m: Meta) {
    && row.receipt.Some?
    && (|| row.receipt.value.Rejected?
        || (row.receipt.value.Accepted? && row.entry.Some?)
        || (row.receipt.value.Accepted? && row.receipt.value.serverSequence <= m.serverCursor)
        || (&& row.receipt.value.Expired? && m.installed.Some?
            && row.receipt.value.snapshotSequence <= m.installed.value.sequence
            && row.receipt.value.terminalThrough <= m.installed.value.terminal))
  }

  lemma SettlesExactly(row: Row, m: Meta)
    ensures Settles(row, m) <==> Due(row, m) && row.receipt.value.identity == row.identity
  {}

  /** The three ways an arriving snapshot covers the receipt of a row. */
  ghost predicate Reached(row: Row, sequence: nat, terminal: nat) {
    && row.receipt.Some?
    && (|| (&& row.receipt.value.Accepted? && row.receipt.value.serverSequence <= sequence
            && (row.receipt.value.terminalSequence.Some? ==> row.receipt.value.terminalSequence.value <= terminal))
        || (&& row.receipt.value.Rejected? && row.receipt.value.terminalSequence.Some?
            && row.receipt.value.terminalSequence.value <= terminal)
        || (&& row.receipt.value.Expired? && row.receipt.value.snapshotSequence <= sequence
            && row.receipt.value.terminalThrough <= terminal))
  }

  lemma CoveredExactly(row: Row, sequence: nat, terminal: nat)
    ensures Covered(row, sequence, terminal)
            <==> Reached(row, sequence, terminal) && row.receipt.value.identity == row.identity
  {}

  /** The installed snapshot lies at or before the watermark. */
  ghost predicate Anchored(m: Meta) {
    m.installed.Some? ==> m.installed.value.sequence <= m.serverCursor
  }

  /** Then a settlement takes every row that replay has dropped because of its receipt, and no other. */
  lemma DroppedIsSettled(row: Row, m: Meta)
    requires Anchored(m) && Replayable(row) && !Mismatched(row)
    ensures Dropped(row, m) <==> Settles(row, m)
  {}

  function SettledRows(s: Replica): set<nat> {
    set k | k in s.pending && Settles(s.pending[k], s.meta)
  }

  function InstalledMeta(sequence: nat, terminal: nat): Meta {
    Meta(sequence, Some(Installed(sequence, terminal)))
  }

  /** Every row a settlement deletes had already been dropped by replay. */
  lemma SettledIsDropped(row: Row, m: Meta)
    requires Settles(row, m)
    ensures Dropped(row, m)
  {}

  lemma CoveredIsDropped(row: Row, sequence: nat, terminal: nat)
    requires Covered(row, sequence, terminal)
    ensures Dropped(row, InstalledMeta(sequence, terminal))
  {}

  // ---------------------------------------------------------------- steps

  /** Accepted log evidence up to the snapshot turns into waiting for the receipt. */
  function Covering(row: Row, sequence: nat): Row {
    if row.entry.Some? && row.entry.value <= sequence
    then row.(submission := AwaitingReceipt, entry := None) else row
  }

  function CoveringAll(ob: Pending, sequence: nat): Pending {
    map k | k in ob :: Covering(ob[k], sequence)
  }

  function InstallCanonical(s: Replica, entries: seq<ViewChange>): Replicated {
    Replacement(Replicated(s.canonical, s.retractions), entries)
  }

  function InstallSnapshot(s: Replica, entries: seq<ViewChange>, sequence: nat, terminal: nat): Replica {
    var r := InstallCanonical(s, entries);
    RebuildRuns.RequestReplay(s.(
      canonical := r.canonical,
      retractions := r.retractions,
      pending := CoveringAll(s.pending, sequence),
      meta := InstalledMeta(sequence, terminal),
      dirty := s.dirty + s.canonical.Keys + Visible(s).Keys + ViewEntities(entries)))
  }

  function RevokeView(s: Replica): Replica {
    var all := s.canonical.Keys + Visible(s).Keys;
    RebuildRuns.RequestReplay(s.(canonical := map[], retractions := s.retractions + all, dirty := s.dirty + all))
  }

  function ApplyPage(s: Replica, changes: seq<ViewChange>, serverSequence: Option<nat>): Replica {
    var r := ApplyView(Replicated(s.canonical, s.retractions), changes);
    s.(canonical := r.canonical, retractions := r.retractions, dirty := s.dirty + ViewEntities(changes),
       meta := if serverSequence.Some? then s.meta.(serverCursor := serverSequence.value) else s.meta)
  }

  function Commit(h: Handler, s: Replica, identity: Identity, payload: string): Replica {
    match h(identity.name, payload, Visible(s))
    case Refused => s
    case Committed(result, changes) =>
      s.(pending := s.pending[s.nextSequence := Row(identity, payload, result, changes, Queued, None, None)],
         visible := s.visible[s.active := ApplyAll(Visible(s), changes)],
         nextSequence := s.nextSequence + 1,
         revision := s.revision + 1)
  }

  function Rebuilt(h: Handler, limit: nat, s: Replica): Replica
    requires limit > 0 && s.target.Some?
  {
    s.(pending := RebuiltPending(h, limit, s),
       visible := s.visible[s.target.value := RebuiltTable(h, limit, s)],
       active := s.target.value, target := None, dirty := {}, revision := s.revision + 1)
  }

  ghost predicate Enabled(h: Handler, w: World, ev: Event) {
    var s := w.s;
    match ev
    case Mutate(identity, _) => w.gate.Free? && identity.localSequence == s.nextSequence
    case Page(_, serverSequence) =>
      w.gate.Free? && (serverSequence.Some? ==> s.meta.serverCursor <= serverSequence.value)
    case Install(_, sequence, _) => w.gate.Free? && s.meta.serverCursor <= sequence
    case Revoke => w.gate.Free?
    case ApplyEntries(_, through, logged) =>
      w.gate.Free? && s.meta.serverCursor <= through && logged.Keys <= s.pending.Keys
    case PersistReceipt(k, receipt) =>
      k in s.pending && s.pending[k].receipt.None? && receipt.identity == s.pending[k].identity
    case MarkSubmission(k, submission) =>
      k in s.pending && !submission.AwaitingReceipt? && !s.pending[k].submission.AwaitingReceipt?
    case ResolveQuarantine(row, canceled) =>
      && w.gate.Free?
      && 0 < row.identity.localSequence < s.nextSequence && row.identity.localSequence !in s.pending
      && row.changes == [] && row.submission.Queued? && row.entry.None?
      && row.receipt.Some? && row.receipt.value.identity == row.identity
      && (canceled.Some? ==> canceled.value in s.pending)
    case Prepare => w.gate.Free?
    case Project => w.gate.Prepared?
    case SkipProjection => w.gate.Prepared? && WriteSet(s.pending, w.gate.rows) == {}
    case DeleteSettled => w.gate.Projected?
    case Rebuild => w.gate.Free? && s.target.Some?
    case Crash => true
  }

  /** Projecting in the gate: rebuild if one is requested, else the shortcut, else the delta. */
  ghost function ProjectWorld(h: Handler, limit: nat, w: World, rows: Gate): World
    requires limit > 0
  {
    var s := w.s;
    if s.target.Some? then
      World(Rebuilt(h, limit, s), rows, Base(s), Live(s), CleanReplay(h, s))
    else if MatchesReplay(s) then
      World(s.(dirty := {}), rows, Base(s), w.projected * Live(s), w.clean && Live(s) <= w.projected)
    else
      World(Delta(h, s), rows, Base(s), Live(s), CleanReplay(h, s))
  }

  ghost function Next(h: Handler, limit: nat, w: World, ev: Event): World
    requires limit > 0 && Enabled(h, w, ev)
  {
    var s := w.s;
    match ev
    case Mutate(identity, payload) =>
      var s' := Commit(h, s, identity, payload);
      w.(s := s',
         projected := if s'.nextSequence == s.nextSequence then w.projected else w.projected + {s.nextSequence})
    case Page(changes, serverSequence) => w.(s := ApplyPage(s, changes, serverSequence))
    case Install(entries, sequence, terminal) =>
      w.(s := InstallSnapshot(s, entries, sequence, terminal),
         gate := Prepared(set k | k in s.pending && Covered(s.pending[k], sequence, terminal)))
    case Revoke => w.(s := RevokeView(s), gate := Prepared({}))
    case ApplyEntries(writes, through, logged) =>
      w.(s := RebuildRuns.RequestReplay(s.(
           canonical := ApplyAll(s.canonical, writes),
           meta := s.meta.(serverCursor := through),
           pending := map k | k in s.pending ::
             if k in logged then s.pending[k].(entry := Some(logged[k])) else s.pending[k])))
    case PersistReceipt(k, receipt) =>
      var row := s.pending[k];
      var state := if row.submission.AwaitingReceipt? then AwaitingReceipt else Submitted;
      w.(s := s.(pending := s.pending[k := row.(receipt := Some(receipt), submission := state)]))
    case MarkSubmission(k, submission) =>
      w.(s := s.(pending := s.pending[k := s.pending[k].(submission := submission)]))
    case ResolveQuarantine(row, canceled) =>
      var kept := if canceled.Some? then s.pending - {canceled.value} else s.pending;
      var s' := s.(pending := kept[row.identity.localSequence := row]);
      if canceled.Some?
      then w.(s := RebuildRuns.RequestReplay(s'), projected := w.projected - {canceled.value})
      else w.(s := s')
    case Prepare =>
      w.(s := s.(dirty := s.dirty + WriteSet(s.pending, SettledRows(s))), gate := Prepared(SettledRows(s)))
    case Project => ProjectWorld(h, limit, w, Projected(w.gate.rows))
    case SkipProjection => w.(gate := Projected(w.gate.rows))
    case DeleteSettled =>
      w.(s := s.(pending := s.pending - w.gate.rows), gate := Free, projected := w.projected - w.gate.rows)
    case Rebuild => ProjectWorld(h, limit, w, Free)
    case Crash => w.(s := RebuildRuns.Restore(s), gate := Free)
  }

  /** One row is different, and only as `row` says. */
  ghost predicate RowBecomes(s: Replica, k: nat, row: Row, t: Replica) {
    && t == s.(pending := t.pending) && t.pending.Keys == s.pending.Keys + {k} && t.pending[k] == row
    && forall j :: j in s.pending && j != k ==> t.pending[j] == s.pending[j]
  }

  /** A row for every row, with the log evidence of `logged` where that names it. */
  ghost predicate Evidenced(before: Pending, logged: map<nat, nat>, after: Pending) {
    && after.Keys == before.Keys
    && (forall k :: k in before && k in logged ==> after[k] == before[k].(entry := Some(logged[k])))
    && (forall k :: k in before && k !in logged ==> after[k] == before[k])
  }

  /** What the events do that no operation on the tables is modelled for. */
  lemma EventWrites(h: Handler, limit: nat, w: World, ev: Event)
    requires limit > 0 && Enabled(h, w, ev)
    ensures var s, t := w.s, Next(h, limit, w, ev).s;
            match ev
            case PersistReceipt(k, receipt) =>
              RowBecomes(s, k, s.pending[k].(receipt := Some(receipt), submission :=
                if s.pending[k].submission == AwaitingReceipt then AwaitingReceipt else Submitted), t)
            case MarkSubmission(k, submission) => RowBecomes(s, k, s.pending[k].(submission := submission), t)
            case ApplyEntries(writes, through, logged) =>
              && Written(s.canonical, writes, t.canonical) && Evidenced(s.pending, logged, t.pending)
              && t.meta.serverCursor == through && t.meta.installed == s.meta.installed && t.target.Some?
              && t.visible == s.visible && t.retractions == s.retractions && t.dirty == s.dirty
            case ResolveQuarantine(row, canceled) =>
              && row.identity.localSequence in t.pending && t.pending[row.identity.localSequence] == row
              && t.pending.Keys == s.pending.Keys - (if canceled.Some? then {canceled.value} else {})
                                   + {row.identity.localSequence}
              && (forall k :: k in t.pending && k != row.identity.localSequence ==> t.pending[k] == s.pending[k])
              && (canceled.Some? ==> t.target.Some?) && (canceled.None? ==> t.target == s.target)
              && t.visible == s.visible && t.canonical == s.canonical && t.retractions == s.retractions
            case Crash =>
              && (s.dirty != {} ==> t.target.Some?) && (s.target.Some? || s.dirty == {} ==> t == s)
              && t == s.(target := t.target, cursor := t.cursor)
            case _ => true
  {
    if ev.ApplyEntries? { ApplyAllWrites(w.s.canonical, ev.writes); }
  }

  // ---------------------------------------------------------------- invariants

  /** Unless a replay is requested, only dirty entities and projected writes differ from the base. */
  ghost predicate Framing(w: World) {
    w.s.target.Some? || AgreeOutside(Visible(w.s), Base(w.s), w.s.dirty + WriteSet(w.s.pending, w.projected))
  }

  /** Rows about to be deleted are dropped, and by then contribute nothing to the projection. */
  ghost predicate Settling(w: World) {
    match w.gate
    case Free => true
    case Prepared(rows) =>
      && (forall k :: k in rows && k in w.s.pending ==> Dropped(w.s.pending[k], w.s.meta))
      && (w.s.target.Some? || WriteSet(w.s.pending, rows) <= w.s.dirty)
    case Projected(rows) =>
      && (forall k :: k in rows && k in w.s.pending ==> Dropped(w.s.pending[k], w.s.meta))
      && (w.s.target.Some?
          || forall k :: k in rows && k in w.projected && k in w.s.pending ==> w.s.pending[k].changes == [])
  }

  ghost predicate ReceiptsMatch(ob: Pending) {
    forall k :: k in ob && ob[k].receipt.Some? ==> ob[k].receipt.value.identity == ob[k].identity
  }

  ghost predicate Invariant(h: Handler, w: World) {
    && WellFormed(w.s) && w.s.nextSequence > 0
    && ReceiptsMatch(w.s.pending)
    && w.projected <= w.s.pending.Keys
    && Framing(w) && Settling(w)
    && (w.s.target.None? && w.clean ==> Coherent(h, w.s, w.base, w.projected))
  }

  /** The projection has run every undropped row. */
  ghost predicate AllRun(w: World) {
    Live(w.s) <= w.projected
  }

  // ---------------------------------------------------------------- local mutations

  lemma CommitGrows(h: Handler, s: Replica, identity: Identity, payload: string, keys: set<nat>)
    requires WellFormed(s) && keys <= s.pending.Keys
    requires h(identity.name, payload, Visible(s)).Committed?
    ensures var s' := Commit(h, s, identity, payload);
            WriteSet(s'.pending, keys + {s.nextSequence})
            == WriteSet(s.pending, keys) + EntitiesOf(s'.pending[s.nextSequence].changes)
  {
    var s' := Commit(h, s, identity, payload);
    assert s.nextSequence !in s.pending;
    assert forall k :: k in keys ==> s'.pending[k] == s.pending[k];
  }

  lemma CommitKeepsFraming(h: Handler, w: World, identity: Identity, payload: string)
    requires WellFormed(w.s) && w.projected <= w.s.pending.Keys && Framing(w) && w.s.target.None?
    requires h(identity.name, payload, Visible(w.s)).Committed?
    ensures Framing(w.(s := Commit(h, w.s, identity, payload), projected := w.projected + {w.s.nextSequence}))
  {
    var s' := Commit(h, w.s, identity, payload);
    var changes := s'.pending[w.s.nextSequence].changes;
    CommitGrows(h, w.s, identity, payload, w.projected);
    ApplyAllFrame(Visible(w.s), changes);
    forall e | e !in s'.dirty + WriteSet(s'.pending, w.projected + {w.s.nextSequence})
      ensures Get(Visible(s'), e) == Get(Base(s'), e)
    {
      assert Get(Visible(w.s), e) == Get(Visible(s'), e);
    }
  }

  lemma CommitFold(h: Handler, ob: Pending, row: Row, b0: Table, projected: set<nat>, n: nat, k: nat)
    requires k <= n
    ensures Fold(Whole(h, projected + {n}), ob[n := row], b0, 0, k) == Fold(Whole(h, projected), ob, b0, 0, k)
  {
    var p, q := Whole(h, projected), Whole(h, projected + {n});
    FoldSimilar(p, q, ob, b0, 0, k);
    FoldLocal(q, ob, ob[n := row], b0, 0, k);
  }

  /** A new mutation runs on the visible table after all others, so the replay simply grows by it. */
  lemma CommitKeepsCoherence(h: Handler, s: Replica, b0: Table, projected: set<nat>, identity: Identity,
                             payload: string)
    requires WellFormed(s) && projected <= s.pending.Keys && Coherent(h, s, b0, projected)
    requires h(identity.name, payload, Visible(s)).Committed?
    ensures Coherent(h, Commit(h, s, identity, payload), b0, projected + {s.nextSequence})
  {
    var s', n := Commit(h, s, identity, payload), s.nextSequence;
    var p, q := Whole(h, projected), Whole(h, projected + {n});
    var a, b := Recorded(q, s'.pending, b0, 0, n + 1), Recorded(p, s.pending, b0, 0, n);
    CommitFold(h, s.pending, s'.pending[n], b0, projected, n, n);
    forall k | k in s'.pending ensures a[k] == s'.pending[k] {
      if k != n {
        assert b[k] == s.pending[k];
        CommitFold(h, s.pending, s'.pending[n], b0, projected, n, k);
      }
    }
  }

  lemma MutateKeeps(h: Handler, limit: nat, w: World, identity: Identity, payload: string)
    requires limit > 0 && Invariant(h, w) && Enabled(h, w, Mutate(identity, payload))
    ensures Invariant(h, Next(h, limit, w, Mutate(identity, payload)))
  {
    if h(identity.name, payload, Visible(w.s)).Committed? && w.s.target.None? {
      CommitKeepsFraming(h, w, identity, payload);
      if w.clean { CommitKeepsCoherence(h, w.s, w.base, w.projected, identity, payload); }
    }
  }

  // ---------------------------------------------------------------- the replicated view

  lemma PageKeeps(h: Handler, limit: nat, w: World, changes: seq<ViewChange>, serverSequence: Option<nat>)
    requires limit > 0 && Invariant(h, w) && Enabled(h, w, Page(changes, serverSequence))
    ensures Invariant(h, Next(h, limit, w, Page(changes, serverSequence)))
  {
    var s' := ApplyPage(w.s, changes, serverSequence);
    ViewFrame(Replicated(w.s.canonical, w.s.retractions), changes);
    forall e | e !in s'.dirty ensures Get(Base(w.s), e) == Get(Base(s'), e) {}
    if w.s.target.None? && w.clean {
      forall e | e !in s'.dirty ensures Get(w.base, e) == Get(Base(s'), e) {
        assert Get(w.base, e) == Get(Base(w.s), e);
      }
    }
    if w.s.target.None? {
      forall e | e !in s'.dirty + WriteSet(s'.pending, w.projected) ensures Get(Visible(s'), e) == Get(Base(s'), e) {
        assert Get(Visible(w.s), e) == Get(Base(w.s), e);
      }
    }
  }

  /** Whatever a requested replay has to make good, it needs no frame and no coherence before. */
  lemma RequestedKeeps(h: Handler, w: World)
    requires WellFormed(w.s) && w.s.nextSequence > 0 && ReceiptsMatch(w.s.pending) && w.projected <= w.s.pending.Keys
    requires w.s.target.Some? && Settling(w)
    ensures Invariant(h, w)
  {}

  lemma InstallKeeps(h: Handler, limit: nat, w: World, entries: seq<ViewChange>, sequence: nat, terminal: nat)
    requires limit > 0 && Invariant(h, w) && Enabled(h, w, Install(entries, sequence, terminal))
    ensures var w' := Next(h, limit, w, Install(entries, sequence, terminal)); Invariant(h, w') && w'.s.target.Some?
  {
    var w' := Next(h, limit, w, Install(entries, sequence, terminal));
    forall k | k in w'.gate.rows && k in w'.s.pending ensures Dropped(w'.s.pending[k], w'.s.meta) {
      CoveredIsDropped(w'.s.pending[k], sequence, terminal);
    }
    CoveringKeepsRows(w.s.pending, sequence);
    RequestedKeeps(h, w');
  }

  lemma CoveringKeepsRows(ob: Pending, sequence: nat)
    requires ReceiptsMatch(ob)
    ensures ReceiptsMatch(CoveringAll(ob, sequence)) && CoveringAll(ob, sequence).Keys == ob.Keys
  {}

  lemma EntriesKeep(h: Handler, limit: nat, w: World, ev: Event)
    requires limit > 0 && Invariant(h, w) && Enabled(h, w, ev) && ev.ApplyEntries?
    ensures Invariant(h, Next(h, limit, w, ev)) && Next(h, limit, w, ev).s.target.Some?
  {
    RequestedKeeps(h, Next(h, limit, w, ev));
  }

  lemma ReplacedViewKeeps(h: Handler, limit: nat, w: World, ev: Event)
    requires limit > 0 && Invariant(h, w) && Enabled(h, w, ev)
    requires ev.Install? || ev.Revoke? || ev.ApplyEntries?
    ensures Invariant(h, Next(h, limit, w, ev)) && Next(h, limit, w, ev).s.target.Some?
  {
    match ev
    case Install(entries, sequence, terminal) => InstallKeeps(h, limit, w, entries, sequence, terminal);
    case Revoke => RequestedKeeps(h, Next(h, limit, w, ev));
    case ApplyEntries(_, _, _) => EntriesKeep(h, limit, w, ev);
  }

  // ---------------------------------------------------------------- receipts and quarantine

  /** A change of submission state or receipt leaves the projection's history as it was. */
  lemma CoherentUnder(h: Handler, s: Replica, ob: Pending, b0: Table, projected: set<nat>)
    requires Coherent(h, s, b0, projected) && SameMutations(s.pending, ob)
    requires forall k :: k in ob ==> ob[k].result == s.pending[k].result && ob[k].changes == s.pending[k].changes
    ensures Coherent(h, s.(pending := ob), b0, projected)
  {
    var p, n := Whole(h, projected), s.nextSequence;
    FoldPlan(p, s.pending, ob, b0, 0, n);
    var a, b := Recorded(p, ob, b0, 0, n), Recorded(p, s.pending, b0, 0, n);
    forall k | k in ob ensures a[k] == ob[k] {
      FoldPlan(p, s.pending, ob, b0, 0, k);
      assert b[k] == s.pending[k];
    }
  }

  lemma SameWrites(a: Pending, b: Pending, keys: set<nat>)
    requires forall k :: k in keys ==> (k in a <==> k in b) && (k in a ==> a[k].changes == b[k].changes)
    ensures WriteSet(a, keys) == WriteSet(b, keys)
  {
    forall e | e in WriteSet(a, keys) ensures e in WriteSet(b, keys) {
      var k, c :| k in keys && k in a && c in a[k].changes && c.entity == e;
      assert k in b && c in b[k].changes;
    }
    forall e | e in WriteSet(b, keys) ensures e in WriteSet(a, keys) {
      var k, c :| k in keys && k in b && c in b[k].changes && c.entity == e;
      assert k in a && c in a[k].changes;
    }
  }

  /** The same rows with the same write sets; a row that was dropped stays so. */
  ghost predicate OnlyStatus(a: Pending, b: Pending, m: Meta) {
    && SameMutations(a, b)
    && (forall k :: k in b ==> b[k].result == a[k].result && b[k].changes == a[k].changes)
    && (forall k :: k in b && Dropped(a[k], m) ==> Dropped(b[k], m))
  }

  lemma ReceiptIsStatus(ob: Pending, m: Meta, k: nat, row: Row)
    requires ReceiptsMatch(ob) && k in ob && row.receipt.Some? && row.receipt.value.identity == ob[k].identity
    requires ob[k].receipt.None? && row == ob[k].(receipt := row.receipt, submission := row.submission)
    requires ob[k].submission.AwaitingReceipt? ==> row.submission.AwaitingReceipt?
    ensures OnlyStatus(ob, ob[k := row], m) && ReceiptsMatch(ob[k := row])
  {}

  lemma SubmissionIsStatus(ob: Pending, m: Meta, k: nat, submission: Submission)
    requires ReceiptsMatch(ob) && k in ob && !ob[k].submission.AwaitingReceipt? && !submission.AwaitingReceipt?
    ensures OnlyStatus(ob, ob[k := ob[k].(submission := submission)], m)
    ensures ReceiptsMatch(ob[k := ob[k].(submission := submission)])
  {}

  lemma RowUpdateIsStatus(h: Handler, limit: nat, w: World, ev: Event)
    requires limit > 0 && Invariant(h, w) && Enabled(h, w, ev) && (ev.PersistReceipt? || ev.MarkSubmission?)
    ensures var ob := Next(h, limit, w, ev).s.pending;
            && Next(h, limit, w, ev) == w.(s := w.s.(pending := ob))
            && OnlyStatus(w.s.pending, ob, w.s.meta) && ReceiptsMatch(ob)
  {
    var ob := Next(h, limit, w, ev).s.pending;
    if ev.PersistReceipt? {
      ReceiptIsStatus(w.s.pending, w.s.meta, ev.at, ob[ev.at]);
    } else {
      SubmissionIsStatus(w.s.pending, w.s.meta, ev.at, ev.submission);
    }
  }

  lemma StatusKeepsSettling(w: World, ob: Pending)
    requires Settling(w) && OnlyStatus(w.s.pending, ob, w.s.meta)
    ensures Settling(w.(s := w.s.(pending := ob)))
  {
    if w.gate.Prepared? { SameWrites(w.s.pending, ob, w.gate.rows); }
  }

  lemma RowUpdateKeeps(h: Handler, limit: nat, w: World, ev: Event)
    requires limit > 0 && Invariant(h, w) && Enabled(h, w, ev) && (ev.PersistReceipt? || ev.MarkSubmission?)
    ensures Invariant(h, Next(h, limit, w, ev))
  {
    var ob := Next(h, limit, w, ev).s.pending;
    RowUpdateIsStatus(h, limit, w, ev);
    SameWrites(w.s.pending, ob, w.projected);
    StatusKeepsSettling(w, ob);
    if w.s.target.None? && w.clean { CoherentUnder(h, w.s, ob, w.base, w.projected); }
  }

  lemma ResolveKeepsCoherence(h: Handler, s: Replica, row: Row, b0: Table, projected: set<nat>)
    requires Coherent(h, s, b0, projected) && projected <= s.pending.Keys
    requires row.identity.localSequence !in s.pending
    ensures Coherent(h, s.(pending := s.pending[row.identity.localSequence := row]), b0, projected)
  {
    var p, n, ob := Whole(h, projected), s.nextSequence, s.pending[row.identity.localSequence := row];
    FoldLocal(p, s.pending, ob, b0, 0, n);
    var a, b := Recorded(p, ob, b0, 0, n), Recorded(p, s.pending, b0, 0, n);
    forall k | k in ob ensures a[k] == ob[k] {
      if k in projected {
        FoldLocal(p, s.pending, ob, b0, 0, k);
        assert b[k] == s.pending[k];
      }
    }
  }

  lemma ResolveKeeps(h: Handler, limit: nat, w: World, row: Row, canceled: Option<nat>)
    requires limit > 0 && Invariant(h, w) && Enabled(h, w, ResolveQuarantine(row, canceled))
    ensures Invariant(h, Next(h, limit, w, ResolveQuarantine(row, canceled)))
  {
    var w' := Next(h, limit, w, ResolveQuarantine(row, canceled));
    if canceled.None? {
      SameWrites(w.s.pending, w'.s.pending, w.projected);
      if w.s.target.None? && w.clean { ResolveKeepsCoherence(h, w.s, row, w.base, w.projected); }
    }
  }

  // ---------------------------------------------------------------- settlements

  lemma PrepareKeeps(h: Handler, limit: nat, w: World)
    requires limit > 0 && Invariant(h, w) && Enabled(h, w, Prepare)
    ensures Invariant(h, Next(h, limit, w, Prepare))
  {
    forall k | k in SettledRows(w.s) ensures Dropped(w.s.pending[k], w.s.meta) {
      SettledIsDropped(w.s.pending[k], w.s.meta);
    }
  }

  lemma WritesSomething(cs: seq<Change>)
    ensures cs != [] ==> EntitiesOf(cs) != {}
  {
    if cs != [] { assert cs[0].entity in EntitiesOf(cs); }
  }

  lemma SkipKeeps(h: Handler, limit: nat, w: World)
    requires limit > 0 && Invariant(h, w) && Enabled(h, w, SkipProjection)
    ensures Invariant(h, Next(h, limit, w, SkipProjection))
  {
    forall k | k in w.gate.rows && k in w.s.pending ensures w.s.pending[k].changes == [] {
      WritesSomething(w.s.pending[k].changes);
      assert EntitiesOf(w.s.pending[k].changes) <= WriteSet(w.s.pending, w.gate.rows);
    }
  }

  /** The rows that a settlement is about to delete contribute nothing to a replay. */
  lemma {:induction false} EmptyRowsDropOut(h: Handler, ob: Pending, projected: set<nat>, gone: set<nat>,
                                         b0: Table, n: nat)
    requires Recorded(Whole(h, projected), ob, b0, 0, n) == ob
    requires forall k :: k in gone && k in projected && k in ob ==> ob[k].changes == []
    ensures Fold(Whole(h, projected - gone), ob - gone, b0, 0, n) == Fold(Whole(h, projected), ob, b0, 0, n)
    decreases n
  {
    if n > 0 {
      var p, k := Whole(h, projected), n - 1;
      RecordedShorter(p, ob, b0, k);
      EmptyRowsDropOut(h, ob, projected, gone, b0, k);
      if k in projected && k in gone && k in ob {
        var before := Fold(p, ob, b0, 0, k);
        assert Recorded(p, ob, b0, 0, n)[k] == Record(h, ob[k], before);
        assert Execute(h, ob[k], before) == before;
      }
    }
  }

  lemma RecordedShorter(p: Plan, ob: Pending, t: Table, k: nat)
    requires Recorded(p, ob, t, 0, k + 1) == ob
    ensures Recorded(p, ob, t, 0, k) == ob
  {
    var a, b := Recorded(p, ob, t, 0, k), Recorded(p, ob, t, 0, k + 1);
    forall j | j in ob ensures a[j] == ob[j] { assert b[j] == ob[j]; }
  }

  lemma {:induction false} RecordedUpto(p: Plan, ob: Pending, t: Table, k: nat, n: nat)
    requires k <= n && Recorded(p, ob, t, 0, n) == ob
    ensures Recorded(p, ob, t, 0, k) == ob
    decreases n
  {
    if k < n {
      RecordedShorter(p, ob, t, n - 1);
      RecordedUpto(p, ob, t, k, n - 1);
    }
  }

  lemma DeleteKeepsCoherence(h: Handler, s: Replica, b0: Table, projected: set<nat>, gone: set<nat>)
    requires Coherent(h, s, b0, projected)
    requires forall k :: k in gone && k in projected && k in s.pending ==> s.pending[k].changes == []
    ensures Coherent(h, s.(pending := s.pending - gone), b0, projected - gone)
  {
    var p, q, n, ob := Whole(h, projected), Whole(h, projected - gone), s.nextSequence, s.pending - gone;
    EmptyRowsDropOut(h, s.pending, projected, gone, b0, n);
    var a, b := Recorded(q, ob, b0, 0, n), Recorded(p, s.pending, b0, 0, n);
    forall k | k in ob ensures a[k] == ob[k] {
      if k < n && k in projected {
        RecordedUpto(p, s.pending, b0, k, n);
        EmptyRowsDropOut(h, s.pending, projected, gone, b0, k);
        assert b[k] == s.pending[k];
      }
    }
  }

  lemma DeleteKeeps(h: Handler, limit: nat, w: World)
    requires limit > 0 && Invariant(h, w) && Enabled(h, w, DeleteSettled)
    ensures Invariant(h, Next(h, limit, w, DeleteSettled))
  {
    var w' := Next(h, limit, w, DeleteSettled);
    forall e | w.s.target.None? && e in WriteSet(w.s.pending, w.projected)
      ensures e in WriteSet(w'.s.pending, w'.projected)
    {
      var k, c :| k in w.projected && k in w.s.pending && c in w.s.pending[k].changes && c.entity == e;
      assert k !in w.gate.rows;
      assert k in w'.s.pending && c in w'.s.pending[k].changes;
    }
    if w.s.target.None? && w.clean { DeleteKeepsCoherence(h, w.s, w.base, w.projected, w.gate.rows); }
  }

  // ---------------------------------------------------------------- projecting

  /** A projection that re-ran the whole outbox is coherent with the present base. */
  lemma FreshIsCoherent(h: Handler, s: Replica, s': Replica)
    requires WellFormed(s) && Base(s') == Base(s) && s'.nextSequence == s.nextSequence
    requires Visible(s') == Replay(h, s) && s'.pending == ReplayRecords(h, s)
    ensures Coherent(h, s', Base(s), Live(s))
  {
    RecordedAgain(Whole(h, Live(s)), s.pending, Base(s), 0, s.nextSequence);
  }

  lemma RecordedStatus(h: Handler, s: Replica, ob: Pending)
    requires WellFormed(s) && SamePlan(s.pending, ob) && ReceiptsMatch(s.pending)
    ensures WellFormed(s.(pending := ob)) && ReceiptsMatch(ob) && LiveKeys(ob, s.meta) == Live(s)
    ensures forall k :: k in ob ==> Dropped(ob[k], s.meta) == Dropped(s.pending[k], s.meta)
  {
    PlanKeepsLive(s.pending, ob, s.meta);
    forall k | k in ob
      ensures Dropped(ob[k], s.meta) == Dropped(s.pending[k], s.meta)
      ensures ob[k].receipt == s.pending[k].receipt && ob[k].identity == s.pending[k].identity
    {
      PlanKeepsRow(s.pending[k], ob[k], s.meta, h, map[]);
      assert Erase(ob[k]).receipt == Erase(s.pending[k]).receipt;
      assert Erase(ob[k]).identity == Erase(s.pending[k]).identity;
    }
  }

  lemma RebuiltFrame(h: Handler, limit: nat, s: Replica)
    requires limit > 0 && WellFormed(s) && s.nextSequence > 0
    ensures AgreeOutside(RebuiltTable(h, limit, s), Base(s), WriteSet(RebuiltPending(h, limit, s), Live(s)))
    ensures SamePlan(s.pending, RebuiltPending(h, limit, s))
  {
    var p := RebuildPlan(h, limit, s, 0);
    var ob := RebuiltPending(h, limit, s);
    FoldFrame(p, s.pending, Base(s), 1, s.nextSequence);
    WriteSetWithin(ob, Between(Live(s), 1, s.nextSequence), Live(s));
    RecordedPlan(p, s.pending, Base(s), 1, s.nextSequence);
    forall e | e !in WriteSet(ob, Live(s)) ensures Get(RebuiltTable(h, limit, s), e) == Get(Base(s), e) {
      assert Get(Base(s), e) == Get(Fold(p, s.pending, Base(s), 1, s.nextSequence), e);
    }
  }

  lemma RebuildKeeps(h: Handler, limit: nat, w: World, rows: Gate)
    requires limit > 0 && Invariant(h, w) && w.s.target.Some?
    requires rows.Free? || (rows.Projected? && w.gate == Prepared(rows.rows))
    ensures Invariant(h, ProjectWorld(h, limit, w, rows))
  {
    var s, w' := w.s, ProjectWorld(h, limit, w, rows);
    RebuiltFrame(h, limit, s);
    RecordedStatus(h, s, RebuiltPending(h, limit, s));
    if w'.clean {
      RebuildIsReplay(h, limit, s);
      FreshIsCoherent(h, s, w'.s);
    }
  }

  lemma ProjectedIsFramed(w: World)
    requires w.s.target.None? && Framing(w)
    ensures Framed(w.s)
  {
    WriteSetWithin(w.s.pending, w.projected, w.s.pending.Keys);
  }

  lemma DeltaKeeps(h: Handler, limit: nat, w: World, rows: Gate)
    requires limit > 0 && Invariant(h, w) && w.s.target.None? && !MatchesReplay(w.s)
    requires rows.Projected? && w.gate == Prepared(rows.rows)
    ensures Invariant(h, ProjectWorld(h, limit, w, rows))
  {
    var s, w' := w.s, ProjectWorld(h, limit, w, rows);
    ProjectedIsFramed(w);
    RecordedPlan(Whole(h, Live(s)), s.pending, DeltaStart(s), 0, s.nextSequence);
    RecordedStatus(h, s, DeltaPending(h, s));
    DeltaKeepsFrame(h, s);
    if w'.clean {
      CleanDeltaIsReplay(h, s);
      DeltaRefinesReplay(h, s);
      FreshIsCoherent(h, s, w'.s);
    }
  }

  lemma ShortcutFrames(w: World)
    requires Framing(w) && w.s.target.None? && MatchesReplay(w.s) && w.projected <= w.s.pending.Keys
    ensures AgreeOutside(Visible(w.s), Base(w.s), WriteSet(w.s.pending, w.projected * Live(w.s)))
  {
    var s, kept := w.s, WriteSet(w.s.pending, w.projected * Live(w.s));
    forall e | e in WriteSet(s.pending, w.projected) ensures e in s.dirty || e in kept {
      var k, c :| k in w.projected && k in s.pending && c in s.pending[k].changes && c.entity == e;
      if e !in s.dirty { assert k in w.projected * Live(s); }
    }
  }

  lemma ShortcutKeeps(h: Handler, limit: nat, w: World, rows: Gate)
    requires limit > 0 && Invariant(h, w) && w.s.target.None? && MatchesReplay(w.s)
    requires rows.Projected? && w.gate == Prepared(rows.rows)
    ensures Invariant(h, ProjectWorld(h, limit, w, rows))
  {
    var s, w' := w.s, ProjectWorld(h, limit, w, rows);
    ShortcutFrames(w);
    if w'.clean {
      ShortcutSound(h, s, w.base, w.projected);
      assert w.projected * Live(s) == Live(s);
      FreshIsCoherent(h, s, w'.s);
    }
  }

  // ---------------------------------------------------------------- every run

  lemma StepKeepsInvariant(h: Handler, limit: nat, w: World, ev: Event)
    requires limit > 0 && Invariant(h, w) && Enabled(h, w, ev)
    ensures Invariant(h, Next(h, limit, w, ev))
  {
    match ev
    case Mutate(identity, payload) => MutateKeeps(h, limit, w, identity, payload);
    case Page(changes, serverSequence) => PageKeeps(h, limit, w, changes, serverSequence);
    case Install(_, _, _) => ReplacedViewKeeps(h, limit, w, ev);
    case Revoke => ReplacedViewKeeps(h, limit, w, ev);
    case ApplyEntries(_, _, _) => ReplacedViewKeeps(h, limit, w, ev);
    case PersistReceipt(_, _) => RowUpdateKeeps(h, limit, w, ev);
    case MarkSubmission(_, _) => RowUpdateKeeps(h, limit, w, ev);
    case ResolveQuarantine(row, canceled) => ResolveKeeps(h, limit, w, row, canceled);
    case Prepare => PrepareKeeps(h, limit, w);
    case Project =>
      if w.s.target.Some? { RebuildKeeps(h, limit, w, Projected(w.gate.rows)); }
      else if MatchesReplay(w.s) { ShortcutKeeps(h, limit, w, Projected(w.gate.rows)); }
      else { DeltaKeeps(h, limit, w, Projected(w.gate.rows)); }
    case SkipProjection => SkipKeeps(h, limit, w);
    case DeleteSettled => DeleteKeeps(h, limit, w);
    case Rebuild => RebuildKeeps(h, limit, w, Free);
    case Crash =>
  }

  /** The world after a run of enabled events, or None if one was not enabled. */
  ghost function RunAll(h: Handler, limit: nat, w: World, evs: seq<Event>): Option<World>
    requires limit > 0
    decreases |evs|
  {
    if evs == [] then Some(w)
    else if !Enabled(h, w, evs[0]) then None
    else RunAll(h, limit, Next(h, limit, w, evs[0]), evs[1..])
  }

  lemma {:induction false} RunAllSteps(h: Handler, limit: nat, w: World, evs: seq<Event>, last: Event)
    requires limit > 0
    ensures RunAll(h, limit, w, []) == Some(w)
    ensures RunAll(h, limit, w, evs + [last]) ==
              match RunAll(h, limit, w, evs)
              case None => None
              case Some(v) => if Enabled(h, v, last) then Some(Next(h, limit, v, last)) else None
    decreases |evs|
  {
    if evs == [] {
      assert evs + [last] == [last] && [last][1..] == [];
    } else {
      assert (evs + [last])[1..] == evs[1..] + [last];
      if Enabled(h, w, evs[0]) { RunAllSteps(h, limit, Next(h, limit, w, evs[0]), evs[1..], last); }
    }
  }

  /** A space without pending mutations whose visible rows are its base. */
  ghost predicate Initial(w: World) {
    && w.s.pending == map[] && w.s.nextSequence > 0 && w.gate.Free? && w.projected == {}
    && w.s.dirty == {} && w.s.target.None? && Visible(w.s) == Base(w.s) && w.base == Base(w.s)
  }

  lemma InitialHolds(h: Handler, w: World)
    requires Initial(w)
    ensures Invariant(h, w) && AllRun(w)
  {
    FoldGap(Whole(h, {}), map[], w.base, 0, 0, w.s.nextSequence);
  }

  /** The frame and, after clean replays, the coherence of the projection hold over every run. */
  lemma {:induction false} RunKeepsInvariant(h: Handler, limit: nat, w: World, evs: seq<Event>)
    requires limit > 0 && Invariant(h, w) && RunAll(h, limit, w, evs).Some?
    ensures Invariant(h, RunAll(h, limit, w, evs).value)
    decreases |evs|
  {
    if evs != [] {
      StepKeepsInvariant(h, limit, w, evs[0]);
      RunKeepsInvariant(h, limit, Next(h, limit, w, evs[0]), evs[1..]);
    }
  }

  /** No step moves the watermark back behind the installed snapshot. */
  lemma StepKeepsAnchor(h: Handler, limit: nat, w: World, ev: Event)
    requires limit > 0 && Anchored(w.s.meta) && Enabled(h, w, ev)
    ensures Anchored(Next(h, limit, w, ev).s.meta)
  {}

  lemma {:induction false} RunKeepsAnchor(h: Handler, limit: nat, w: World, evs: seq<Event>)
    requires limit > 0 && Anchored(w.s.meta) && RunAll(h, limit, w, evs).Some?
    ensures Anchored(RunAll(h, limit, w, evs).value.s.meta)
    decreases |evs|
  {
    if evs != [] {
      StepKeepsAnchor(h, limit, w, evs[0]);
      RunKeepsAnchor(h, limit, Next(h, limit, w, evs[0]), evs[1..]);
    }
  }

  // ---------------------------------------------------------------- what visible means

  /** A resolved quarantine row that its receipt does not settle at once, with no replay requested. */
  ghost predicate LeavesRowOut(w: World, ev: Event) {
    ev.ResolveQuarantine? && ev.canceled.None? && !Dropped(ev.row, w.s.meta)
  }

  lemma FewerLive(w: World, w': World)
    requires w.s.target.None? ==> AllRun(w)
    requires w'.s.target == w.s.target && Live(w'.s) <= Live(w.s) && w.projected * Live(w'.s) <= w'.projected
    ensures w'.s.target.None? ==> AllRun(w')
  {}

  lemma MutationIsRun(h: Handler, limit: nat, w: World, ev: Event)
    requires limit > 0 && Invariant(h, w) && Enabled(h, w, ev) && (w.s.target.None? ==> AllRun(w)) && ev.Mutate?
    ensures Next(h, limit, w, ev).s.target.None? ==> AllRun(Next(h, limit, w, ev))
  {
    var w' := Next(h, limit, w, ev);
    forall k | k in Live(w'.s) && w.s.target.None? ensures k in w'.projected {
      if k != w.s.nextSequence { assert k in Live(w.s); }
    }
  }

  lemma StatusIsRun(h: Handler, limit: nat, w: World, ev: Event)
    requires limit > 0 && Invariant(h, w) && Enabled(h, w, ev) && (w.s.target.None? ==> AllRun(w))
    requires ev.PersistReceipt? || ev.MarkSubmission?
    ensures Next(h, limit, w, ev).s.target.None? ==> AllRun(Next(h, limit, w, ev))
  {
    var w' := Next(h, limit, w, ev);
    RowUpdateIsStatus(h, limit, w, ev);
    forall k | k in Live(w'.s) ensures k in Live(w.s) {}
    FewerLive(w, w');
  }

  /** The cursor only moves on, so a row that was dropped stays so. */
  lemma PageIsRun(h: Handler, limit: nat, w: World, ev: Event)
    requires limit > 0 && Invariant(h, w) && Enabled(h, w, ev) && (w.s.target.None? ==> AllRun(w)) && ev.Page?
    ensures Next(h, limit, w, ev).s.target.None? ==> AllRun(Next(h, limit, w, ev))
  {
    var w' := Next(h, limit, w, ev);
    forall k | k in Live(w'.s) ensures k in Live(w.s) {}
    FewerLive(w, w');
  }

  lemma DeletionIsRun(h: Handler, limit: nat, w: World, ev: Event)
    requires limit > 0 && Invariant(h, w) && Enabled(h, w, ev) && (w.s.target.None? ==> AllRun(w)) && ev.DeleteSettled?
    ensures Next(h, limit, w, ev).s.target.None? ==> AllRun(Next(h, limit, w, ev))
  {
    forall k | k in Live(Next(h, limit, w, ev).s) ensures k in Live(w.s) && k !in w.gate.rows {}
    FewerLive(w, Next(h, limit, w, ev));
  }

  lemma ResolvedIsRun(h: Handler, limit: nat, w: World, ev: Event)
    requires limit > 0 && Invariant(h, w) && Enabled(h, w, ev) && (w.s.target.None? ==> AllRun(w))
    requires ev.ResolveQuarantine?
    ensures var w' := Next(h, limit, w, ev); w'.s.target.None? ==> (AllRun(w') <==> !LeavesRowOut(w, ev))
  {
    var w', at := Next(h, limit, w, ev), ev.row.identity.localSequence;
    if ev.canceled.None? {
      assert at !in w.projected && (at in Live(w'.s) <==> !Dropped(ev.row, w.s.meta));
      forall k | k in Live(w'.s) && k != at ensures k in Live(w.s) {}
    }
  }

  /**
   Every undropped row has been run by the projection, in every step but one: resolving a
   quarantined mutation whose receipt is not terminally ready yet, exactly then.
   */
  lemma NoRowIsMissed(h: Handler, limit: nat, w: World, ev: Event)
    requires limit > 0 && Invariant(h, w) && Enabled(h, w, ev)
    requires w.s.target.None? ==> AllRun(w)
    ensures var w' := Next(h, limit, w, ev);
            w'.s.target.None? ==> (AllRun(w') <==> !LeavesRowOut(w, ev))
  {
    match ev
    case Mutate(_, _) => MutationIsRun(h, limit, w, ev);
    case Page(_, _) => PageIsRun(h, limit, w, ev);
    case PersistReceipt(_, _) => StatusIsRun(h, limit, w, ev);
    case MarkSubmission(_, _) => StatusIsRun(h, limit, w, ev);
    case ResolveQuarantine(_, _) => ResolvedIsRun(h, limit, w, ev);
    case Install(_, _, _) => ReplacedViewKeeps(h, limit, w, ev);
    case Revoke => ReplacedViewKeeps(h, limit, w, ev);
    case ApplyEntries(_, _, _) => ReplacedViewKeeps(h, limit, w, ev);
    case Prepare =>
    case Project => ProjectRunsEveryRow(h, limit, w, Projected(w.gate.rows));
    case SkipProjection =>
    case DeleteSettled => DeletionIsRun(h, limit, w, ev);
    case Rebuild => ProjectRunsEveryRow(h, limit, w, Free);
    case Crash =>
  }

  lemma RebuiltKeepsLive(h: Handler, limit: nat, s: Replica)
    requires limit > 0 && WellFormed(s) && s.nextSequence > 0 && ReceiptsMatch(s.pending) && s.target.Some?
    ensures Live(Rebuilt(h, limit, s)) == Live(s) && Base(Rebuilt(h, limit, s)) == Base(s)
  {
    RebuiltFrame(h, limit, s);
    RecordedStatus(h, s, RebuiltPending(h, limit, s));
  }

  lemma DeltaKeepsLive(h: Handler, s: Replica)
    requires WellFormed(s) && ReceiptsMatch(s.pending)
    ensures Live(Delta(h, s)) == Live(s) && Base(Delta(h, s)) == Base(s)
  {
    RecordedPlan(Whole(h, Live(s)), s.pending, DeltaStart(s), 0, s.nextSequence);
    RecordedStatus(h, s, DeltaPending(h, s));
  }

  lemma ProjectKeepsLive(h: Handler, limit: nat, w: World, rows: Gate)
    requires limit > 0 && Invariant(h, w)
    ensures Live(ProjectWorld(h, limit, w, rows).s) == Live(w.s)
    ensures Base(ProjectWorld(h, limit, w, rows).s) == Base(w.s)
  {
    if w.s.target.Some? { RebuiltKeepsLive(h, limit, w.s); } else { DeltaKeepsLive(h, w.s); }
  }

  lemma ProjectRunsEveryRow(h: Handler, limit: nat, w: World, rows: Gate)
    requires limit > 0 && Invariant(h, w) && (w.s.target.None? ==> AllRun(w))
    ensures ProjectWorld(h, limit, w, rows).projected == Live(ProjectWorld(h, limit, w, rows).s)
  {
    ProjectKeepsLive(h, limit, w, rows);
    assert w.s.target.None? ==> w.projected * Live(w.s) == Live(w.s);
  }

  /**
   The meaning of the projection: with nothing dirty, clean replays behind it and every undropped
   row run, what is visible is the base with the unsettled mutations replayed on top, and the
   write sets stored in the outbox are those of that replay.
   */
  lemma VisibleMeansReplay(h: Handler, w: World)
    requires Invariant(h, w) && w.s.target.None? && w.clean
    requires w.s.dirty == {} && w.projected == Live(w.s)
    ensures Visible(w.s) == Replay(h, w.s) && w.s.pending == ReplayRecords(h, w.s)
  {
    SameRows(w.base, Base(w.s));
  }

  /** Every projection that ran cleanly re-establishes that meaning, by whichever of the three ways. */
  lemma ProjectMeansReplay(h: Handler, limit: nat, w: World, rows: Gate)
    requires limit > 0 && Invariant(h, w) && (w.s.target.None? ==> AllRun(w))
    requires w.gate.Prepared? && rows == Projected(w.gate.rows)
    ensures var w' := ProjectWorld(h, limit, w, rows);
            w'.clean ==> Visible(w'.s) == Replay(h, w'.s) && w'.s.pending == ReplayRecords(h, w'.s)
  {
    var w' := ProjectWorld(h, limit, w, rows);
    assert w' == Next(h, limit, w, Project);
    StepKeepsInvariant(h, limit, w, Project);
    ProjectRunsEveryRow(h, limit, w, rows);
    if w'.clean { VisibleMeansReplay(h, w'); }
  }

  /** Clean or not, no projection leaves a retracted entity visible. */
  lemma ProjectHidesRetracted(h: Handler, limit: nat, w: World, rows: Gate)
    requires limit > 0 && Invariant(h, w)
    ensures var w' := ProjectWorld(h, limit, w, rows);
            HidesRetracted(Visible(w'.s), w'.s.retractions)
  {
    var s := w.s;
    if s.target.Some? {
      RebuildHidesRetracted(h, limit, s);
    } else if MatchesReplay(s) {
      ShortcutFrames(w);
      WriteSetWithin(s.pending, w.projected * Live(s), Live(s));
      forall e | e in s.retractions ensures e !in Visible(s) {
        assert e !in WriteSet(s.pending, w.projected * Live(s));
        assert Get(Visible(s), e) == Get(Base(s), e);
      }
    } else {
      ProjectedIsFramed(w);
      DeltaHidesRetracted(h, s);
    }
  }

  /**
   Deleting settled rows is neutral: the visible table stays as it is, and replaying the rows that
   remain gives what replaying all of them gave.
   */
  lemma DeletingIsNeutral(h: Handler, limit: nat, w: World)
    requires limit > 0 && Invariant(h, w) && Enabled(h, w, DeleteSettled)
    ensures var w' := Next(h, limit, w, DeleteSettled);
            Visible(w'.s) == Visible(w.s) && Live(w'.s) == Live(w.s) && Replay(h, w'.s) == Replay(h, w.s)
  {
    var s, s' := w.s, Next(h, limit, w, DeleteSettled).s;
    assert Live(s') == Live(s) by {
      forall k | k in Live(s) ensures k in Live(s') { assert k !in w.gate.rows; }
    }
    FoldLocal(Whole(h, Live(s)), s.pending, s'.pending, Base(s), 0, s.nextSequence);
  }

  // ---------------------------------------------------------------- the row that is left out

  /**
   A mutation that the server had accepted before it was quarantined, resolved while the cursor
   is still behind: it is pending again, undropped, and not visible.
   */
  lemma ResolvedRowIsInvisible() returns (h: Handler, w: World, ev: Event)
    ensures Initial(w) && w.clean && Enabled(h, w, ev) && LeavesRowOut(w, ev)
    ensures var w' := Next(h, 1, w, ev);
            w'.s.target.None? && w'.s.dirty == {} && Visible(w'.s) != Replay(h, w'.s)
  {
    var e, v := Entity("task", "1"), Value(1, "done");
    h := (name, payload, t) => Committed("", [Tables.Upsert(e, v)]);
    var s := Replica(map[], {}, map[], Meta(0, None), 2, {}, map[0 := map[]], 0, None, Cleanup, 0);
    w := World(s, Free, map[], {}, true);
    assert Base(s) == map[];
    var identity := Identity("i", "m", 1, "Put");
    var row := Row(identity, "p", "null", [], Queued, None, Some(Accepted(identity, 7, None)));
    ev := ResolveQuarantine(row, None);
    var s' := Next(h, 1, w, ev).s;
    assert 1 in Live(s');
    assert ApplyAll(map[], [Tables.Upsert(e, v)]) == map[e := v] by { assert [Tables.Upsert(e, v)][1..] == []; }
    assert Base(s') == map[];
    assert Fold(Whole(h, Live(s')), s'.pending, map[], 0, 1) == map[];
    assert Replay(h, s') == Execute(h, row, map[]) == map[e := v];
    assert e in Replay(h, s') && e !in Visible(s');
  }
}
