/**
 The durable state behind a client's visible projection, the incremental delta and the
 do-nothing shortcut, as functions of that state.
 */
module Projection {
  import opened Basics
  import opened Tables
  import opened Outbox
  import Paging

  /** The stored position of a resumable rebuild: NULL, `canonical` or `pending:n`. */
  datatype Cursor = Cleanup | Canonical | PendingAfter(sequence: nat)

  datatype Replica = Replica(
    canonical: Table,
    retractions: set<Entity>,
    pending: Pending,
    meta: Meta,
    nextSequence: nat,
    dirty: set<Entity>,
    visible: map<nat, Table>,
    active: nat,
    target: Option<nat>,
    cursor: Cursor,
    revision: nat)

  /** Canonical entities that no retraction hides. */
  function Base(s: Replica): Table {
    s.canonical - s.retractions
  }

  function Generation(visible: map<nat, Table>, g: nat): Table {
    if g in visible then visible[g] else map[]
  }

  function Visible(s: Replica): Table {
    Generation(s.visible, s.active)
  }

  function Live(s: Replica): set<nat> {
    LiveKeys(s.pending, s.meta)
  }

  /** Local sequences start at one and stay below the next one to be allocated. */
  ghost predicate WellFormed(s: Replica) {
    forall k :: k in s.pending ==> 0 < k < s.nextSequence
  }

  /** The meaning of the projection: every undropped mutation, in order, over the base. */
  function Replay(h: Handler, s: Replica): Table {
    Fold(Whole(h, Live(s)), s.pending, Base(s), 0, s.nextSequence)
  }

  function ReplayRecords(h: Handler, s: Replica): Pending {
    Recorded(Whole(h, Live(s)), s.pending, Base(s), 0, s.nextSequence)
  }

  /** One sequence of a replay: a row that waits is run on the table, anything else passes. */
  ghost predicate Passes(h: Handler, s: Replica, k: nat, t: Table, t': Table, records: Pending) {
    if k !in s.pending then t' == t
    else k in records && if Waiting(s.pending[k], s.meta) then Ran(h, s.pending[k], t, records[k], t')
                         else t' == t && records[k] == s.pending[k]
  }

  /** The tables of a replay, from the canonical rows that are not retracted through every sequence. */
  ghost predicate ReplayedThrough(h: Handler, s: Replica, tables: seq<Table>, records: Pending) {
    && |tables| == s.nextSequence + 1 && records.Keys == s.pending.Keys
    && (forall e :: e in tables[0] <==> e in s.canonical && e !in s.retractions)
    && (forall e :: e in tables[0] ==> tables[0][e] == s.canonical[e])
    && (forall k :: 0 <= k < s.nextSequence ==> Passes(h, s, k, tables[k], tables[k + 1], records))
  }

  lemma FoldPasses(h: Handler, s: Replica, k: nat)
    requires k < s.nextSequence
    ensures var p := Whole(h, Live(s));
            Passes(h, s, k, Fold(p, s.pending, Base(s), 0, k), Fold(p, s.pending, Base(s), 0, k + 1),
                   ReplayRecords(h, s))
  {
    if k in s.pending {
      WaitingExactly(s.pending[k], s.meta);
      RowRuns(h, s.pending[k], Fold(Whole(h, Live(s)), s.pending, Base(s), 0, k));
    }
  }

  /** The replay is the last of such tables, and records what they record. */
  lemma ReplayRuns(h: Handler, s: Replica) returns (tables: seq<Table>)
    requires WellFormed(s)
    ensures ReplayedThrough(h, s, tables, ReplayRecords(h, s)) && tables[s.nextSequence] == Replay(h, s)
  {
    tables := seq(s.nextSequence + 1, k requires 0 <= k => Fold(Whole(h, Live(s)), s.pending, Base(s), 0, k));
    forall k | 0 <= k < s.nextSequence ensures Passes(h, s, k, tables[k], tables[k + 1], ReplayRecords(h, s)) {
      FoldPasses(h, s, k);
    }
  }

  lemma PassesOnce(h: Handler, s: Replica, k: nat, t: Table, a: Table, b: Table, ra: Pending, rb: Pending)
    requires Passes(h, s, k, t, a, ra) && Passes(h, s, k, t, b, rb)
    ensures a == b && (k in s.pending ==> ra[k] == rb[k])
  {
    if k in s.pending && Waiting(s.pending[k], s.meta) { RanOnce(h, s.pending[k], t, ra[k], a, rb[k], b); }
  }

  lemma {:induction false} SameTables(h: Handler, s: Replica, a: seq<Table>, b: seq<Table>, ra: Pending, rb: Pending,
                                      k: nat)
    requires ReplayedThrough(h, s, a, ra) && ReplayedThrough(h, s, b, rb) && k <= s.nextSequence
    ensures a[k] == b[k] && forall j :: j in s.pending && j < k ==> ra[j] == rb[j]
  {
    if k > 0 {
      SameTables(h, s, a, b, ra, rb, k - 1);
      SameNext(h, s, a, b, ra, rb, k - 1);
    } else {
      SameStart(h, s, a, b, ra, rb);
    }
  }

  lemma SameNext(h: Handler, s: Replica, a: seq<Table>, b: seq<Table>, ra: Pending, rb: Pending, k: nat)
    requires ReplayedThrough(h, s, a, ra) && ReplayedThrough(h, s, b, rb) && k < s.nextSequence && a[k] == b[k]
    ensures a[k + 1] == b[k + 1] && (k in s.pending ==> ra[k] == rb[k])
  {
    PassesOnce(h, s, k, a[k], a[k + 1], b[k + 1], ra, rb);
  }

  lemma SameStart(h: Handler, s: Replica, a: seq<Table>, b: seq<Table>, ra: Pending, rb: Pending)
    requires ReplayedThrough(h, s, a, ra) && ReplayedThrough(h, s, b, rb)
    ensures a[0] == b[0]
  {
    forall e ensures Get(a[0], e) == Get(b[0], e) {}
    SameRows(a[0], b[0]);
  }

  /** There are no other such tables: any that run the waiting rows in order end in the replay. */
  lemma OnlyReplay(h: Handler, s: Replica, tables: seq<Table>, records: Pending)
    requires WellFormed(s) && ReplayedThrough(h, s, tables, records)
    ensures tables[s.nextSequence] == Replay(h, s) && records == ReplayRecords(h, s)
  {
    var own := ReplayRuns(h, s);
    SameTables(h, s, tables, own, records, ReplayRecords(h, s), s.nextSequence);
    SameEntries(records, ReplayRecords(h, s));
  }

  /** No mutation replayed over the base writes a retracted entity. */
  ghost predicate CleanReplay(h: Handler, s: Replica) {
    FoldSpares(Whole(h, Live(s)), s.pending, Base(s), 0, s.nextSequence, s.retractions)
  }

  ghost predicate HidesRetracted(t: Table, retractions: set<Entity>) {
    t.Keys !! retractions
  }

  // ---------------------------------------------------------------- the shortcut

  /** Dropped rows come first. */
  ghost predicate DroppedFirst(ob: Pending, m: Meta) {
    forall a, b :: a in ob && b in ob && a < b && Dropped(ob[b], m) ==> Dropped(ob[a], m)
  }

  /** A recorded write is dirty exactly when its row is dropped. */
  ghost predicate DirtyIffDropped(ob: Pending, m: Meta, dirty: set<Entity>) {
    forall s, c :: s in ob && c in ob[s].changes ==> (Dropped(ob[s], m) <==> c.entity in dirty)
  }

  ghost predicate MatchesReplay(s: Replica) {
    && (forall k :: k in s.pending ==> !Mismatched(s.pending[k]))
    && DroppedFirst(s.pending, s.meta)
    && DirtyIffDropped(s.pending, s.meta, s.dirty)
    && WriteSet(s.pending, Live(s)) !! s.retractions
    && forall e :: e in s.dirty ==> Get(Base(s), e) == Get(Visible(s), e)
  }

  // ---------------------------------------------------------------- the delta

  /** Entities the delta resets: dirty ones and everything any pending row recorded. */
  function Touched(s: Replica): set<Entity> {
    s.dirty + WriteSet(s.pending, s.pending.Keys)
  }

  function DeltaStart(s: Replica): Table {
    Reset(Visible(s), Touched(s), Base(s))
  }

  function DeltaPending(h: Handler, s: Replica): Pending {
    Recorded(Whole(h, Live(s)), s.pending, DeltaStart(s), 0, s.nextSequence)
  }

  /** What the delta reports as changed: the reset entities and the newly written ones. */
  function DeltaEntities(h: Handler, s: Replica): set<Entity> {
    Touched(s) + WriteSet(DeltaPending(h, s), Live(s))
  }

  function DeltaTable(h: Handler, s: Replica): Table {
    Fold(Whole(h, Live(s)), s.pending, DeltaStart(s), 0, s.nextSequence) - (s.retractions * DeltaEntities(h, s))
  }

  function Delta(h: Handler, s: Replica): Replica {
    s.(pending := DeltaPending(h, s),
       visible := s.visible[s.active := DeltaTable(h, s)],
       dirty := {},
       revision := s.revision + 1)
  }

  /** Outside the dirty set and the recorded writes, the projection is the base. */
  ghost predicate Framed(s: Replica) {
    AgreeOutside(Visible(s), Base(s), Touched(s))
  }

  // ---------------------------------------------------------------- theorems about the delta

  lemma LiveInPending(s: Replica, k: nat)
    requires k in Live(s)
    ensures k in s.pending
  {}

  lemma AllLiveBetween(s: Replica)
    requires WellFormed(s)
    ensures Between(Live(s), 0, s.nextSequence) == Live(s)
  {
    forall k | k in Live(s) ensures k < s.nextSequence { LiveInPending(s, k); }
  }

  /** The incremental delta computes the replay of the whole outbox over the whole base. */
  lemma DeltaRefinesReplay(h: Handler, s: Replica)
    requires WellFormed(s) && Framed(s)
    ensures DeltaTable(h, s) == Replay(h, s) - s.retractions
    ensures DeltaPending(h, s) == ReplayRecords(h, s)
  {
    ResetRestores(Visible(s), Touched(s), Base(s));
    var full := Replay(h, s);
    FoldFrame(Whole(h, Live(s)), s.pending, Base(s), 0, s.nextSequence);
    AllLiveBetween(s);
    assert full - s.retractions == full - (s.retractions * DeltaEntities(h, s)) by {
      forall e | e in full && e in s.retractions ensures e in DeltaEntities(h, s) {
        assert Get(Base(s), e) != Get(full, e);
      }
    }
  }

  /** A clean replay needs no filter: the delta is then the replay itself. */
  lemma CleanDeltaIsReplay(h: Handler, s: Replica)
    requires WellFormed(s) && Framed(s) && CleanReplay(h, s)
    ensures DeltaTable(h, s) == Replay(h, s)
  {
    DeltaRefinesReplay(h, s);
    CleanReplayHidesRetracted(h, s);
  }

  lemma CleanReplayHidesRetracted(h: Handler, s: Replica)
    requires WellFormed(s) && CleanReplay(h, s)
    ensures HidesRetracted(Replay(h, s), s.retractions)
  {
    SparedFold(Plan(h, Live(s), {}, s.retractions), Whole(h, Live(s)), s.pending, Base(s), 0, s.nextSequence);
  }

  /** Whatever the handlers write, the delta leaves no retracted entity visible. */
  lemma DeltaHidesRetracted(h: Handler, s: Replica)
    requires WellFormed(s) && Framed(s)
    ensures HidesRetracted(DeltaTable(h, s), s.retractions)
  {
    DeltaRefinesReplay(h, s);
  }

  /** Every entity whose visible row the delta changes is among those it reports. */
  lemma DeltaReportsChanges(h: Handler, s: Replica)
    requires WellFormed(s)
    ensures AgreeOutside(Visible(s), DeltaTable(h, s), DeltaEntities(h, s))
  {
    var start := DeltaStart(s);
    var full := Fold(Whole(h, Live(s)), s.pending, start, 0, s.nextSequence);
    ResetRows(Visible(s), Touched(s), Base(s));
    FoldFrame(Whole(h, Live(s)), s.pending, start, 0, s.nextSequence);
    AllLiveBetween(s);
    forall e | e !in DeltaEntities(h, s) ensures Get(Visible(s), e) == Get(DeltaTable(h, s), e) {
      assert Get(start, e) == Get(full, e);
    }
  }

  /** The delta re-establishes the frame with an empty dirty set. */
  lemma DeltaKeepsFrame(h: Handler, s: Replica)
    requires WellFormed(s) && Framed(s)
    ensures Framed(Delta(h, s)) && WellFormed(Delta(h, s))
    ensures AgreeOutside(Visible(Delta(h, s)), Base(s), WriteSet(Delta(h, s).pending, Live(s)))
  {
    var d := Delta(h, s);
    DeltaRefinesReplay(h, s);
    FoldFrame(Whole(h, Live(s)), s.pending, Base(s), 0, s.nextSequence);
    AllLiveBetween(s);
    var wrote := WriteSet(d.pending, Live(s));
    forall e | e !in wrote ensures Get(Visible(d), e) == Get(Base(s), e) {
      assert Get(Base(s), e) == Get(Replay(h, s), e);
    }
    WriteSetWithin(d.pending, Live(s), d.pending.Keys);
  }

  // ---------------------------------------------------------------- the shortcut is sound

  /**
   The projection was produced by replaying the rows `projected` over `b0`, with the write
   sets now recorded in them, and `b0` differs from the present base on dirty entities only.
   */
  ghost predicate Coherent(h: Handler, s: Replica, b0: Table, projected: set<nat>) {
    && AgreeOutside(b0, Base(s), s.dirty)
    && Visible(s) == Fold(Whole(h, projected), s.pending, b0, 0, s.nextSequence)
    && Recorded(Whole(h, projected), s.pending, b0, 0, s.nextSequence) == s.pending
  }

  /** The first undropped sequence, or the end of the outbox. */
  ghost predicate Cut(s: Replica, k: nat) {
    && k <= s.nextSequence
    && (forall j :: j in Live(s) ==> k <= j)
    && (forall j :: j in s.pending && k <= j ==> j in Live(s))
  }

  lemma CutExists(s: Replica) returns (k: nat)
    requires WellFormed(s) && DroppedFirst(s.pending, s.meta)
    ensures Cut(s, k)
  {
    if Live(s) == {} {
      k := s.nextSequence;
    } else {
      Paging.LeastExists(Live(s));
      k :| k in Live(s) && forall j :: j in Live(s) ==> k <= j;
      LiveInPending(s, k);
    }
  }

  /** Before the cut, everything projected was recorded as dirty. */
  lemma PrefixIsDirty(h: Handler, s: Replica, b0: Table, projected: set<nat>, k: nat)
    requires WellFormed(s) && Coherent(h, s, b0, projected) && Cut(s, k)
    requires DirtyIffDropped(s.pending, s.meta, s.dirty)
    ensures AgreeOutside(b0, Fold(Whole(h, projected), s.pending, b0, 0, k), s.dirty)
  {
    var early := Recorded(Whole(h, projected), s.pending, b0, 0, k);
    var late := Recorded(Whole(h, projected), s.pending, b0, 0, s.nextSequence);
    FoldFrame(Whole(h, projected), s.pending, b0, 0, k);
    forall e | e in WriteSet(early, Between(projected, 0, k)) ensures e in s.dirty {
      var j, c :| j in Between(projected, 0, k) && j in early && c in early[j].changes && c.entity == e;
      assert early[j] == late[j] == s.pending[j];
      assert j !in Live(s);
    }
  }

  /** The rows after the cut touch no dirty entity, so they leave dirty rows as the prefix made them. */
  lemma SuffixSparesDirty(h: Handler, s: Replica, b0: Table, projected: set<nat>, k: nat)
    requires WellFormed(s) && Coherent(h, s, b0, projected) && Cut(s, k)
    requires DirtyIffDropped(s.pending, s.meta, s.dirty)
    ensures forall e :: e in s.dirty ==>
              Get(Fold(Whole(h, projected), s.pending, b0, 0, k), e) == Get(Visible(s), e)
  {
    var n := s.nextSequence;
    var middle := Fold(Whole(h, projected), s.pending, b0, 0, k);
    FoldSplit(Whole(h, projected), s.pending, b0, 0, k, n);
    FoldFrame(Whole(h, projected), s.pending, middle, k, n);
    var rest := Recorded(Whole(h, projected), s.pending, middle, k, n);
    assert rest == s.pending by { SuffixRecords(h, s, b0, projected, k); }
    forall e | e in WriteSet(rest, Between(projected, k, n)) ensures e !in s.dirty {
      var j, c :| j in Between(projected, k, n) && j in rest && c in rest[j].changes && c.entity == e;
      assert j in Live(s);
    }
  }

  lemma SuffixRecords(h: Handler, s: Replica, b0: Table, projected: set<nat>, k: nat)
    requires Coherent(h, s, b0, projected) && k <= s.nextSequence
    ensures Recorded(Whole(h, projected), s.pending, Fold(Whole(h, projected), s.pending, b0, 0, k), k, s.nextSequence)
            == s.pending
  {
    var n := s.nextSequence;
    var middle := Fold(Whole(h, projected), s.pending, b0, 0, k);
    var rest := Recorded(Whole(h, projected), s.pending, middle, k, n);
    var whole := Recorded(Whole(h, projected), s.pending, b0, 0, n);
    forall j | j in s.pending ensures rest[j] == whole[j] {
      if k <= j < n && j in projected { FoldSplit(Whole(h, projected), s.pending, b0, 0, k, j); }
    }
  }

  /** When the shortcut applies, the base is exactly the table the undropped rows were run on. */
  lemma MatchedBase(h: Handler, s: Replica, b0: Table, projected: set<nat>, k: nat)
    requires WellFormed(s) && Coherent(h, s, b0, projected) && MatchesReplay(s) && Cut(s, k)
    ensures Fold(Whole(h, projected), s.pending, b0, 0, k) == Base(s)
  {
    PrefixIsDirty(h, s, b0, projected, k);
    SuffixSparesDirty(h, s, b0, projected, k);
    var middle := Fold(Whole(h, projected), s.pending, b0, 0, k);
    forall e ensures Get(middle, e) == Get(Base(s), e) {
      if e in s.dirty {
        assert Get(Base(s), e) == Get(Visible(s), e);
      } else {
        assert Get(b0, e) == Get(middle, e);
      }
    }
    SameRows(middle, Base(s));
  }

  /**
   Shortcut soundness: whenever the cheap check succeeds on a coherent projection that has run
   every undropped row, replaying the outbox over the new base gives the rows already visible and
   the write sets already recorded, and nothing visible is retracted.
   */
  lemma ShortcutSound(h: Handler, s: Replica, b0: Table, projected: set<nat>)
    requires WellFormed(s) && Coherent(h, s, b0, projected) && Live(s) <= projected
    requires MatchesReplay(s)
    ensures Replay(h, s) == Visible(s)
    ensures ReplayRecords(h, s) == s.pending
    ensures HidesRetracted(Visible(s), s.retractions)
  {
    var n := s.nextSequence;
    var k := CutExists(s);
    MatchedBase(h, s, b0, projected, k);
    FoldSplit(Whole(h, projected), s.pending, b0, 0, k, n);
    FoldGap(Whole(h, Live(s)), s.pending, Base(s), 0, 0, k);
    FoldSplit(Whole(h, Live(s)), s.pending, Base(s), 0, k, n);
    FoldSimilar(Whole(h, Live(s)), Whole(h, projected), s.pending, Base(s), k, n);
    var again := ReplayRecords(h, s);
    forall j | j in s.pending ensures again[j] == s.pending[j] {
      if j in Live(s) {
        FoldSplit(Whole(h, Live(s)), s.pending, Base(s), 0, k, j);
        FoldSimilar(Whole(h, Live(s)), Whole(h, projected), s.pending, Base(s), k, j);
        FoldSplit(Whole(h, projected), s.pending, b0, 0, k, j);
        assert Recorded(Whole(h, projected), s.pending, b0, 0, n)[j] == s.pending[j];
      }
    }
    forall j | j in Live(s)
      ensures RowSpares(h, s.pending[j], Fold(Whole(h, Live(s)), s.pending, Base(s), 0, j), s.retractions)
    {
      assert again[j] == s.pending[j];
      assert forall c :: c in s.pending[j].changes ==> c.entity in WriteSet(s.pending, Live(s));
    }
    CleanReplayHidesRetracted(h, s);
  }
}
