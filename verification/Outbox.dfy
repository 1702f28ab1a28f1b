/**
 The outbox of optimistic mutations, ordered by local sequence, and what replaying it means.

 Replaying is defined once, row by row, as a fold over local sequences. Every projection
 algorithm of the store is proved against this fold.
 */
module Outbox {
  import opened Basics
  import opened Tables

  datatype Identity = Identity(incarnation: string, mutationId: string, localSequence: nat, name: string)

  datatype Receipt =
    | Accepted(identity: Identity, serverSequence: nat, terminalSequence: Option<nat>)
    | Rejected(identity: Identity, fromQuarantine: bool, terminalSequence: Option<nat>)
    | Expired(identity: Identity, snapshotSequence: nat, terminalThrough: nat)

  datatype Submission = Queued | Submitting | Retrying | Submitted | AwaitingReceipt

  /** A pending mutation joined with its receipt and with its sequence in the accepted log, if any. */
  datatype Row = Row(identity: Identity, payload: string, result: string, changes: seq<Change>,
                     submission: Submission, entry: Option<nat>, receipt: Option<Receipt>)

  type Pending = map<nat, Row>

  datatype Installed = Installed(sequence: nat, terminal: nat)

  /** The durable server watermark and the last installed snapshot. */
  datatype Meta = Meta(serverCursor: nat, installed: Option<Installed>)

  datatype Outcome =
    | Refused
    | Committed(result: string, changes: seq<Change>)

  /** A deterministic handler: a mutation name, its payload, and the table it reads. */
  type Handler = (string, string, Table) -> Outcome

  // ---------------------------------------------------------------- settlement readiness

  predicate TerminallyReady(r: Receipt, m: Meta) {
    match r
    case Accepted(_, sequence, terminal) =>
      || sequence <= m.serverCursor
      || (&& m.installed.Some?
          && sequence <= m.installed.value.sequence
          && (terminal.None? || terminal.value <= m.installed.value.terminal))
    case Rejected(_, _, _) => true
    case Expired(_, sequence, through) =>
      m.installed.Some? && sequence <= m.installed.value.sequence && through <= m.installed.value.terminal
  }

  predicate Replayable(row: Row) {
    !row.submission.AwaitingReceipt? && row.entry.None?
  }

  /** A receipt stored for another mutation: replaying such a row is a protocol failure. */
  predicate Mismatched(row: Row) {
    Replayable(row) && row.receipt.Some? && row.receipt.value.identity != row.identity
  }

  /** The row no longer contributes to the projection. */
  predicate Dropped(row: Row, m: Meta) {
    !Replayable(row) || (row.receipt.Some? && TerminallyReady(row.receipt.value, m))
  }

  /** The same, receipt by receipt: who still waits to be replayed. */
  ghost predicate Waiting(row: Row, m: Meta) {
    && row.submission != AwaitingReceipt && row.entry == None
    && (row.receipt.Some? ==> !row.receipt.value.Rejected?)
    && (row.receipt.Some? && row.receipt.value.Accepted? ==>
          && m.serverCursor < row.receipt.value.serverSequence
          && (m.installed.Some? ==>
                || m.installed.value.sequence < row.receipt.value.serverSequence
                || (row.receipt.value.terminalSequence.Some?
                    && m.installed.value.terminal < row.receipt.value.terminalSequence.value)))
    && (row.receipt.Some? && row.receipt.value.Expired? ==>
          m.installed.Some? ==>
            || m.installed.value.sequence < row.receipt.value.snapshotSequence
            || m.installed.value.terminal < row.receipt.value.terminalThrough)
  }

  lemma WaitingExactly(row: Row, m: Meta)
    ensures Waiting(row, m) <==> !Dropped(row, m)
  {}

  function LiveKeys(ob: Pending, m: Meta): set<nat> {
    set s | s in ob && !Dropped(ob[s], m)
  }

  function Between(keys: set<nat>, lo: nat, hi: nat): set<nat> {
    set s | s in keys && lo <= s < hi
  }

  // ---------------------------------------------------------------- replay

  function Execute(h: Handler, row: Row, t: Table): Table {
    match h(row.identity.name, row.payload, t)
    case Refused => t
    case Committed(_, cs) => ApplyAll(t, cs)
  }

  function Record(h: Handler, row: Row, t: Table): Row {
    match h(row.identity.name, row.payload, t)
    case Refused => row.(changes := [])
    case Committed(r, cs) => row.(result := r, changes := cs)
  }

  /**
   Running the row on a table, told by what its handler answers: a refusal leaves the table and
   records no writes, a commitment leaves exactly its writes and records them with its result.
   */
  ghost predicate Ran(h: Handler, before: Row, t: Table, after: Row, t': Table) {
    match h(before.identity.name, before.payload, t)
    case Refused => t' == t && after == before.(changes := [])
    case Committed(result, cs) => Written(t, cs, t') && after == before.(result := result, changes := cs)
  }

  lemma RowRuns(h: Handler, row: Row, t: Table)
    ensures Ran(h, row, t, Record(h, row, t), Execute(h, row, t))
  {
    match h(row.identity.name, row.payload, t)
    case Refused =>
    case Committed(_, cs) => ApplyAllWrites(t, cs);
  }

  lemma RanOnce(h: Handler, row: Row, t: Table, a: Row, ta: Table, b: Row, tb: Table)
    requires Ran(h, row, t, a, ta) && Ran(h, row, t, b, tb)
    ensures a == b && ta == tb
  {
    match h(row.identity.name, row.payload, t)
    case Refused =>
    case Committed(_, cs) => WrittenOnce(t, cs, ta, tb);
  }

  /**
   What a replay runs: the handlers, the rows that count as undropped, and the sequences after
   which it drops the entities `hidden` from the table.
   */
  datatype Plan = Plan(h: Handler, live: set<nat>, ends: set<nat>, hidden: set<Entity>)

  /** A replay in one piece, with no filtering on the way. */
  function Whole(h: Handler, live: set<nat>): Plan {
    Plan(h, live, {}, {})
  }

  function Step(p: Plan, ob: Pending, t: Table, s: nat): Table {
    var ran := if s in ob && s in p.live then Execute(p.h, ob[s], t) else t;
    if s in p.ends then ran - p.hidden else ran
  }

  /** The table after replaying, on top of `t`, the planned rows with `lo <= sequence < hi`. */
  function Fold(p: Plan, ob: Pending, t: Table, lo: nat, hi: nat): Table
    decreases hi
  {
    if hi <= lo then t else Step(p, ob, Fold(p, ob, t, lo, hi - 1), hi - 1)
  }

  /** The rows with the results and write sets that this replay records. */
  function Recorded(p: Plan, ob: Pending, t: Table, lo: nat, hi: nat): Pending {
    map s | s in ob ::
      if lo <= s < hi && s in p.live then Record(p.h, ob[s], Fold(p, ob, t, lo, s)) else ob[s]
  }

  /** Entities in the recorded write sets of the rows `keys`. */
  function WriteSet(ob: Pending, keys: set<nat>): set<Entity> {
    set s, c | s in keys && s in ob && c in ob[s].changes :: c.entity
  }

  function Erase(row: Row): Row {
    row.(result := "", changes := [])
  }

  /** The same rows up to what a replay records in them. */
  ghost predicate SamePlan(a: Pending, b: Pending) {
    a.Keys == b.Keys && forall s :: s in a ==> Erase(a[s]) == Erase(b[s])
  }

  /** The same mutations, whatever their receipts, submission states and recorded write sets. */
  ghost predicate SameMutations(a: Pending, b: Pending) {
    a.Keys == b.Keys && forall s :: s in a ==> a[s].identity == b[s].identity && a[s].payload == b[s].payload
  }

  lemma PlanKeepsRow(a: Row, b: Row, m: Meta, h: Handler, t: Table)
    requires Erase(a) == Erase(b)
    ensures Dropped(a, m) == Dropped(b, m)
    ensures Execute(h, a, t) == Execute(h, b, t)
    ensures Replayable(a) == Replayable(b) && Mismatched(a) == Mismatched(b)
  {
    assert a.identity == Erase(a).identity && a.payload == Erase(a).payload;
    assert a.submission == Erase(a).submission && a.entry == Erase(a).entry && a.receipt == Erase(a).receipt;
  }

  lemma PlanKeepsLive(a: Pending, b: Pending, m: Meta)
    requires SamePlan(a, b)
    ensures LiveKeys(a, m) == LiveKeys(b, m)
    ensures forall s :: s in a ==> Replayable(a[s]) == Replayable(b[s]) && Mismatched(a[s]) == Mismatched(b[s])
  {
    forall s | s in a
      ensures Dropped(a[s], m) == Dropped(b[s], m)
      ensures Replayable(a[s]) == Replayable(b[s]) && Mismatched(a[s]) == Mismatched(b[s])
    {
      PlanKeepsRow(a[s], b[s], m, (_, _, _) => Refused, map[]);
    }
  }

  /** Replay depends on the mutations, never on what an earlier replay recorded. */
  lemma {:induction false} FoldPlan(p: Plan, a: Pending, b: Pending, t: Table, lo: nat, hi: nat)
    requires SameMutations(a, b)
    ensures Fold(p, a, t, lo, hi) == Fold(p, b, t, lo, hi)
    decreases hi
  {
    if lo < hi { FoldPlan(p, a, b, t, lo, hi - 1); }
  }

  /** Rows outside the replayed stretch are irrelevant. */
  lemma {:induction false} FoldLocal(p: Plan, a: Pending, b: Pending, t: Table, lo: nat, hi: nat)
    requires forall s :: lo <= s < hi && s in p.live ==> (s in a <==> s in b) && (s in a ==> a[s] == b[s])
    ensures Fold(p, a, t, lo, hi) == Fold(p, b, t, lo, hi)
    decreases hi
  {
    if lo < hi { FoldLocal(p, a, b, t, lo, hi - 1); }
  }

  lemma RecordedPlan(p: Plan, ob: Pending, t: Table, lo: nat, hi: nat)
    ensures SamePlan(ob, Recorded(p, ob, t, lo, hi)) && SameMutations(ob, Recorded(p, ob, t, lo, hi))
  {}

  /** Only what a plan says about the replayed stretch matters. */
  lemma {:induction false} FoldSimilar(p: Plan, q: Plan, ob: Pending, t: Table, lo: nat, hi: nat)
    requires p.h == q.h && p.hidden == q.hidden
    requires forall s :: lo <= s < hi ==> (s in p.ends <==> s in q.ends)
    requires forall s :: lo <= s < hi && s in ob ==> (s in p.live <==> s in q.live)
    ensures Fold(p, ob, t, lo, hi) == Fold(q, ob, t, lo, hi)
    decreases hi
  {
    if lo < hi { FoldSimilar(p, q, ob, t, lo, hi - 1); }
  }

  ghost predicate Idle(p: Plan, lo: nat, hi: nat) {
    forall s :: lo <= s < hi ==> s !in p.live && s !in p.ends
  }

  /** Sequences without a replayed row or a filter do not change the table. */
  lemma {:induction false} FoldGap(p: Plan, ob: Pending, t: Table, lo: nat, mid: nat, hi: nat)
    requires lo <= mid <= hi && Idle(p, mid, hi)
    ensures Fold(p, ob, t, lo, hi) == Fold(p, ob, t, lo, mid)
    decreases hi
  {
    if mid < hi { FoldGap(p, ob, t, lo, mid, hi - 1); }
  }

  lemma {:induction false} FoldSplit(p: Plan, ob: Pending, t: Table, lo: nat, mid: nat, hi: nat)
    requires lo <= mid <= hi
    ensures Fold(p, ob, t, lo, hi) == Fold(p, ob, Fold(p, ob, t, lo, mid), mid, hi)
    decreases hi
  {
    if mid < hi { FoldSplit(p, ob, t, lo, mid, hi - 1); }
  }

  /** Recording in two stretches is recording in one. */
  lemma RecordedSplit(p: Plan, ob: Pending, t: Table, lo: nat, mid: nat, hi: nat)
    requires lo <= mid <= hi
    ensures Recorded(p, Recorded(p, ob, t, lo, mid), Fold(p, ob, t, lo, mid), mid, hi)
            == Recorded(p, ob, t, lo, hi)
  {
    var half := Recorded(p, ob, t, lo, mid);
    var table := Fold(p, ob, t, lo, mid);
    var whole := Recorded(p, ob, t, lo, hi);
    var twice := Recorded(p, half, table, mid, hi);
    RecordedPlan(p, ob, t, lo, mid);
    forall s | s in ob ensures twice[s] == whole[s] {
      if mid <= s < hi { LaterFold(p, ob, half, t, lo, mid, s); }
    }
    SameEntries(twice, whole);
  }

  lemma SameEntries(a: Pending, b: Pending)
    requires a.Keys == b.Keys && forall s :: s in a ==> a[s] == b[s]
    ensures a == b
  {}

  lemma LaterFold(p: Plan, ob: Pending, half: Pending, t: Table, lo: nat, mid: nat, s: nat)
    requires lo <= mid <= s && SameMutations(ob, half)
    ensures Fold(p, half, Fold(p, ob, t, lo, mid), mid, s) == Fold(p, ob, t, lo, s)
  {
    FoldPlan(p, ob, half, Fold(p, ob, t, lo, mid), mid, s);
    FoldSplit(p, ob, t, lo, mid, s);
  }

  /** Extending the range over a stretch with no replayed row records nothing. */
  lemma RecordedGap(p: Plan, ob: Pending, t: Table, lo: nat, mid: nat, hi: nat)
    requires lo <= mid <= hi
    requires forall s :: mid <= s < hi ==> s !in p.live
    ensures Recorded(p, ob, t, lo, hi) == Recorded(p, ob, t, lo, mid)
  {}

  lemma RecordedNext(p: Plan, ob: Pending, t: Table, lo: nat, s: nat)
    requires lo <= s && s in p.live && s in ob
    ensures Recorded(p, ob, t, lo, s + 1)
            == Recorded(p, ob, t, lo, s)[s := Record(p.h, ob[s], Fold(p, ob, t, lo, s))]
  {}

  /** Replaying twice over the same base records what the first replay recorded. */
  lemma RecordedAgain(p: Plan, ob: Pending, t: Table, lo: nat, hi: nat)
    ensures var once := Recorded(p, ob, t, lo, hi);
            Recorded(p, once, t, lo, hi) == once && Fold(p, once, t, lo, hi) == Fold(p, ob, t, lo, hi)
  {
    var once := Recorded(p, ob, t, lo, hi);
    var twice := Recorded(p, once, t, lo, hi);
    RecordedPlan(p, ob, t, lo, hi);
    FoldPlan(p, ob, once, t, lo, hi);
    forall s | s in ob ensures twice[s] == once[s] {
      FoldPlan(p, ob, once, t, lo, s);
    }
  }

  // ---------------------------------------------------------------- what a replay can change

  lemma ExecuteFrame(h: Handler, row: Row, t: Table)
    ensures AgreeOutside(t, Execute(h, row, t), EntitiesOf(Record(h, row, t).changes))
  {
    match h(row.identity.name, row.payload, t)
    case Refused =>
    case Committed(_, cs) => ApplyAllFrame(t, cs);
  }

  /** A replay, filtered or not, changes only entities in the write sets it records. */
  lemma {:induction false} FoldFrame(p: Plan, ob: Pending, t: Table, lo: nat, hi: nat)
    requires p.ends == {} || t.Keys !! p.hidden
    ensures AgreeOutside(t, Fold(p, ob, t, lo, hi),
                         WriteSet(Recorded(p, ob, t, lo, hi), Between(p.live, lo, hi)))
    decreases hi
  {
    if lo < hi {
      FoldFrame(p, ob, t, lo, hi - 1);
      if hi - 1 in p.live && hi - 1 in ob {
        RunFrame(p, ob, t, lo, hi - 1);
      } else {
        WriteSetKept(p, ob, t, lo, hi - 1);
        FilterFrame(p, t, Fold(p, ob, t, lo, hi - 1), hi - 1, Wrote(p, ob, t, lo, hi - 1));
      }
    }
  }

  /** The entities that replaying the stretch has written. */
  function Wrote(p: Plan, ob: Pending, t: Table, lo: nat, hi: nat): set<Entity> {
    WriteSet(Recorded(p, ob, t, lo, hi), Between(p.live, lo, hi))
  }

  lemma RunFrame(p: Plan, ob: Pending, t: Table, lo: nat, s: nat)
    requires p.ends == {} || t.Keys !! p.hidden
    requires lo <= s && s in p.live && s in ob && AgreeOutside(t, Fold(p, ob, t, lo, s), Wrote(p, ob, t, lo, s))
    ensures AgreeOutside(t, Fold(p, ob, t, lo, s + 1), Wrote(p, ob, t, lo, s + 1))
  {
    var before := Fold(p, ob, t, lo, s);
    var ran := Execute(p.h, ob[s], before);
    ExecuteFrame(p.h, ob[s], before);
    WriteSetGrows(p, ob, t, lo, s);
    AgreeOutsideBoth(t, before, ran, Wrote(p, ob, t, lo, s), EntitiesOf(Record(p.h, ob[s], before).changes));
    FilterFrame(p, t, ran, s, Wrote(p, ob, t, lo, s + 1));
  }

  lemma FilterFrame(p: Plan, t: Table, ran: Table, s: nat, wrote: set<Entity>)
    requires p.ends == {} || t.Keys !! p.hidden
    requires AgreeOutside(t, ran, wrote)
    ensures AgreeOutside(t, if s in p.ends then ran - p.hidden else ran, wrote)
  {
    forall e | e !in wrote ensures Get(t, e) == Get(if s in p.ends then ran - p.hidden else ran, e) {
      assert Get(t, e) == Get(ran, e);
    }
  }

  lemma RecordedKept(p: Plan, ob: Pending, t: Table, lo: nat, s: nat)
    requires !(s in p.live && s in ob)
    ensures Recorded(p, ob, t, lo, s + 1) == Recorded(p, ob, t, lo, s)
  {}

  lemma WriteSetWithin(ob: Pending, a: set<nat>, b: set<nat>)
    requires forall k :: k in a && k in ob ==> k in b
    ensures WriteSet(ob, a) <= WriteSet(ob, b)
  {}

  lemma WriteSetKept(p: Plan, ob: Pending, t: Table, lo: nat, s: nat)
    requires lo <= s && !(s in p.live && s in ob)
    ensures WriteSet(Recorded(p, ob, t, lo, s + 1), Between(p.live, lo, s + 1))
            == WriteSet(Recorded(p, ob, t, lo, s), Between(p.live, lo, s))
  {
    var late := Recorded(p, ob, t, lo, s + 1);
    RecordedKept(p, ob, t, lo, s);
    WriteSetWithin(late, Between(p.live, lo, s + 1), Between(p.live, lo, s));
    WriteSetWithin(late, Between(p.live, lo, s), Between(p.live, lo, s + 1));
  }

  lemma WriteSetGrows(p: Plan, ob: Pending, t: Table, lo: nat, s: nat)
    requires lo <= s && s in p.live && s in ob
    ensures WriteSet(Recorded(p, ob, t, lo, s + 1), Between(p.live, lo, s + 1))
            == WriteSet(Recorded(p, ob, t, lo, s), Between(p.live, lo, s))
               + EntitiesOf(Record(p.h, ob[s], Fold(p, ob, t, lo, s)).changes)
  {
    assert Between(p.live, lo, s + 1) == Between(p.live, lo, s) + {s};
    RecordedNext(p, ob, t, lo, s);
    WriteSetWith(Recorded(p, ob, t, lo, s), Between(p.live, lo, s), s, Record(p.h, ob[s], Fold(p, ob, t, lo, s)));
  }

  lemma WriteSetWith(ob: Pending, keys: set<nat>, s: nat, row: Row)
    requires s !in keys
    ensures WriteSet(ob[s := row], keys + {s}) == WriteSet(ob, keys) + EntitiesOf(row.changes)
  {
    forall e | e in EntitiesOf(row.changes) ensures e in WriteSet(ob[s := row], keys + {s}) {
      var c :| c in row.changes && c.entity == e;
      assert s in keys + {s} && c in ob[s := row][s].changes;
    }
  }

  /** Running the row on `t` writes none of the entities `hidden`. */
  ghost predicate RowSpares(h: Handler, row: Row, t: Table, hidden: set<Entity>) {
    match h(row.identity.name, row.payload, t)
    case Refused => true
    case Committed(_, cs) => forall c :: c in cs ==> c.entity !in hidden
  }

  /** No row that this replay runs writes one of the entities `hidden`. */
  ghost predicate FoldSpares(p: Plan, ob: Pending, t: Table, lo: nat, hi: nat, hidden: set<Entity>) {
    forall j :: lo <= j < hi && j in p.live && j in ob ==> RowSpares(p.h, ob[j], Fold(p, ob, t, lo, j), hidden)
  }

  lemma {:induction false} ApplyAllSpares(t: Table, cs: seq<Change>, hidden: set<Entity>)
    requires t.Keys !! hidden && forall c :: c in cs ==> c.entity !in hidden
    ensures ApplyAll(t, cs).Keys !! hidden
    decreases |cs|
  {
    if cs != [] {
      assert cs[0] in cs;
      ApplyAllSpares(Apply(t, cs[0]), cs[1..], hidden);
    }
  }

  lemma ExecuteSpares(h: Handler, row: Row, t: Table, hidden: set<Entity>)
    requires t.Keys !! hidden && RowSpares(h, row, t, hidden)
    ensures Execute(h, row, t).Keys !! hidden
  {
    match h(row.identity.name, row.payload, t)
    case Refused =>
    case Committed(_, cs) => ApplyAllSpares(t, cs, hidden);
  }

  /** A replay that writes no hidden entity never shows one, so filtering it changes nothing. */
  lemma {:induction false} SparedFold(p: Plan, q: Plan, ob: Pending, t: Table, lo: nat, hi: nat)
    requires q == Whole(p.h, p.live) && t.Keys !! p.hidden && FoldSpares(q, ob, t, lo, hi, p.hidden)
    ensures Fold(p, ob, t, lo, hi) == Fold(q, ob, t, lo, hi)
    ensures Fold(q, ob, t, lo, hi).Keys !! p.hidden
    decreases hi
  {
    if lo < hi {
      SparedFold(p, q, ob, t, lo, hi - 1);
      var before := Fold(q, ob, t, lo, hi - 1);
      if hi - 1 in ob && hi - 1 in p.live {
        ExecuteSpares(p.h, ob[hi - 1], before, p.hidden);
        assert Execute(p.h, ob[hi - 1], before) - p.hidden == Execute(p.h, ob[hi - 1], before);
      } else {
        assert before - p.hidden == before;
      }
    }
  }

  /** Every replayed row is followed by a filter before the end of the stretch. */
  ghost predicate Covered(p: Plan, lo: nat, hi: nat) {
    forall k :: k in p.live && lo <= k < hi ==> exists e :: e in p.ends && k <= e < hi
  }

  /** Whatever the rows write, a replay whose batches all end in a filter shows no hidden entity. */
  lemma {:induction false} CoveredFoldHides(p: Plan, ob: Pending, t: Table, lo: nat, mid: nat, hi: nat)
    requires lo <= mid <= hi && t.Keys !! p.hidden && Covered(p, lo, hi) && Idle(p, mid, hi)
    ensures Fold(p, ob, t, lo, hi).Keys !! p.hidden
    decreases mid
  {
    FoldGap(p, ob, t, lo, mid, hi);
    if mid == lo || mid - 1 in p.ends {
    } else {
      assert mid - 1 !in p.live;
      CoveredFoldHides(p, ob, t, lo, mid - 1, hi);
    }
  }
}
