/**
 The transactions that change what the projection is computed from: a mutation committed locally,
 a page of the replicated view, a snapshot installed, the view revoked, settlements prepared. Each
 reads and writes the tables row by row and is proved to be one step of a projection run.
 */
module StoreOperations {
  import opened Basics
  import opened Tables
  import opened Outbox
  import opened Paging
  import opened View
  import opened Projection
  import opened LocalStore
  import Rebuild
  import RebuildRuns
  import P = ProjectionRuns

  // ---------------------------------------------------------------- local mutations

  datatype MutateResult =
    | PendingFull
    | Declined
    | Recorded(sequence: nat)

  /** Writes a handler's changes to the visible rows in the order it made them. */
  method WriteVisible(store: ProjectionStore, changes: seq<Change>)
    modifies store`visible
    ensures store.visible ==
              old(store.visible)[store.active := ApplyAll(Visible(old(store.Stored())), changes)]
    ensures Written(Visible(old(store.Stored())), changes, Visible(store.Stored()))
  {
    ApplyAllWrites(Visible(store.Stored()), changes);
    var table := Generation(store.visible, store.active);
    for i := 0 to |changes|
      invariant ApplyAll(table, changes[i..]) == ApplyAll(Visible(old(store.Stored())), changes)
    {
      assert changes[i..][0] == changes[i] && changes[i..][1..] == changes[i + 1..];
      table := Apply(table, changes[i]);
    }
    assert changes[|changes|..] == [];
    store.visible := store.visible[store.active := table];
  }

  /** What the handler made of the mutation becomes visible, and the mutation joins the outbox. */
  method Record(store: ProjectionStore, identity: Identity, payload: string, result: string, changes: seq<Change>)
    requires identity.localSequence == store.nextSequence
    requires store.handler(identity.name, payload, Visible(store.Stored())) == Committed(result, changes)
    modifies store`pending, store`visible, store`nextSequence, store`revision
    ensures Written(Visible(old(store.Stored())), changes, Visible(store.Stored()))
    ensures store.pending == old(store.pending)[old(store.nextSequence) :=
                               Row(identity, payload, result, changes, Queued, None, None)]
    ensures store.nextSequence == old(store.nextSequence) + 1 && store.revision == old(store.revision) + 1
    ensures store.Stored() == P.Commit(store.handler, old(store.Stored()), identity, payload)
    ensures old(store.Valid() && store.nextSequence > 0) ==>
              store.Valid() && old(store.pending.Keys) !! {old(store.nextSequence)}
  {
    WriteVisible(store, changes);
    store.pending := store.pending[store.nextSequence := Row(identity, payload, result, changes, Queued, None, None)];
    store.nextSequence, store.revision := store.nextSequence + 1, store.revision + 1;
  }

  /**
   A mutation runs on the visible rows and joins the outbox at the next local sequence. The outbox
   and the quarantine share one capacity; a replacement frees the place of what it replaces.
   */
  method Mutate(store: ProjectionStore, maximumPending: nat, quarantined: nat, replacing: bool,
                identity: Identity, payload: string)
    returns (r: MutateResult)
    requires identity.localSequence == store.nextSequence
    modifies store`pending, store`visible, store`nextSequence, store`revision
    ensures r.PendingFull? <==>
              |old(store.pending)| + quarantined - (if replacing then 1 else 0) >= maximumPending
    ensures r.PendingFull? || r.Declined? ==> store.Stored() == old(store.Stored())
    ensures !r.PendingFull? ==>
              (r.Declined? <==> store.handler(identity.name, payload, Visible(old(store.Stored()))).Refused?)
    ensures r.Recorded? ==>
              var out := store.handler(identity.name, payload, Visible(old(store.Stored())));
              && Written(Visible(old(store.Stored())), out.changes, Visible(store.Stored()))
              && store.pending == old(store.pending)[r.sequence :=
                                    Row(identity, payload, out.result, out.changes, Queued, None, None)]
              && store.revision == old(store.revision) + 1
    ensures r.Recorded? ==>
              && r.sequence == old(store.nextSequence) && store.nextSequence == r.sequence + 1
              && store.Stored() == P.Commit(store.handler, old(store.Stored()), identity, payload)
              && (old(store.Valid() && store.nextSequence > 0) ==>
                    store.Valid() && old(store.pending.Keys) !! {r.sequence})
  {
    var unresolved := |store.pending| + quarantined;
    if replacing { unresolved := unresolved - 1; }
    if unresolved >= maximumPending { return PendingFull; }
    match store.handler(identity.name, payload, Visible(store.Stored()))
    case Refused => r := Declined;
    case Committed(result, changes) =>
      r := Recorded(store.nextSequence);
      Record(store, identity, payload, result, changes);
  }

  // ---------------------------------------------------------------- the replicated view

  method ApplyViewChange(store: ProjectionStore, c: ViewChange)
    modifies store`canonical, store`retractions
    ensures Replicated(store.canonical, store.retractions) ==
              View.ApplyViewChange(old(Replicated(store.canonical, store.retractions)), c)
    ensures Stands(c, Replicated(store.canonical, store.retractions))
    ensures forall e :: e != c.entity ==>
              Untouched(old(Replicated(store.canonical, store.retractions)),
                        Replicated(store.canonical, store.retractions), e)
  {
    OneViewed(Replicated(store.canonical, store.retractions), c);
    match c
    case Put(entity, value) =>
      store.retractions := store.retractions - {entity};
      store.canonical := store.canonical[entity := value];
    case Remove(entity) =>
      store.canonical := store.canonical - {entity};
      store.retractions := store.retractions - {entity};
    case Retract(entity) =>
      store.canonical := store.canonical - {entity};
      store.retractions := store.retractions + {entity};
  }

  /** Applies view changes one by one and collects the entities they name. */
  method ApplyViewChanges(store: ProjectionStore, changes: seq<ViewChange>) returns (touched: set<Entity>)
    modifies store`canonical, store`retractions
    ensures touched == ViewEntities(changes)
    ensures Replicated(store.canonical, store.retractions) ==
              ApplyView(old(Replicated(store.canonical, store.retractions)), changes)
    ensures Viewed(old(Replicated(store.canonical, store.retractions)), changes,
                   Replicated(store.canonical, store.retractions))
  {
    touched := {};
    for i := 0 to |changes|
      invariant touched == ViewEntities(changes[..i])
      invariant Replicated(store.canonical, store.retractions) ==
                  ApplyView(old(Replicated(store.canonical, store.retractions)), changes[..i])
    {
      assert changes[..i + 1][..i] == changes[..i] && changes[..i + 1] == changes[..i] + [changes[i]];
      ApplyViewChange(store, changes[i]);
      touched := touched + {changes[i].entity};
    }
    assert changes[..|changes|] == changes;
    ApplyViewStands(old(Replicated(store.canonical, store.retractions)), changes);
  }

  /** A page of the view; only the last page of a revision moves the watermark, never back. */
  method ApplyViewPage(store: ProjectionStore, changes: seq<ViewChange>, serverSequence: Option<nat>)
    returns (ok: bool)
    modifies store`canonical, store`retractions, store`dirty, store`meta
    ensures ok <==> (serverSequence.Some? ==> old(store.meta.serverCursor) <= serverSequence.value)
    ensures store.Stored() ==
              if ok then P.ApplyPage(old(store.Stored()), changes, serverSequence) else old(store.Stored())
    ensures ok ==>
              && Viewed(old(Replicated(store.canonical, store.retractions)), changes,
                        Replicated(store.canonical, store.retractions))
              && store.dirty == old(store.dirty) + ViewEntities(changes)
              && store.meta.installed == old(store.meta.installed)
              && store.meta.serverCursor == (if serverSequence.Some? then serverSequence.value
                                             else old(store.meta.serverCursor))
  {
    if serverSequence.Some? && serverSequence.value < store.meta.serverCursor { return false; }
    var touched := ApplyViewChanges(store, changes);
    store.dirty := store.dirty + touched;
    if serverSequence.Some? { store.meta := store.meta.(serverCursor := serverSequence.value); }
    return true;
  }

  /** Retracts the given entities one row at a time. */
  method RetractAll(store: ProjectionStore, entities: set<Entity>)
    modifies store`retractions
    ensures store.retractions == old(store.retractions) + entities
  {
    var done: set<Entity> := {};
    while done != entities
      invariant done <= entities && store.retractions == old(store.retractions) + done
      decreases |entities - done|
    {
      assert entities - done != {} by { assert done + (entities - done) == entities; }
      var e :| e in entities - done;
      assert entities - (done + {e}) == entities - done - {e};
      done, store.retractions := done + {e}, store.retractions + {e};
    }
  }

  /** Everything the replica knows of is retracted, and nothing canonical stays. */
  method RevokeReplication(store: ProjectionStore)
    modifies store`canonical, store`retractions, store`dirty, store`target, store`cursor
    ensures store.Stored() == P.RevokeView(old(store.Stored()))
    ensures Base(store.Stored()) == map[] && store.target.Some? && store.canonical == map[]
    ensures store.retractions ==
              old(store.retractions) + old(store.canonical.Keys) + Visible(old(store.Stored())).Keys
    ensures store.dirty == old(store.dirty) + old(store.canonical.Keys) + Visible(old(store.Stored())).Keys
  {
    var known := store.canonical.Keys + Generation(store.visible, store.active).Keys;
    RetractAll(store, known);
    store.canonical := map[];
    store.dirty := store.dirty + known;
    store.RequestProjectionReplay();
  }

  // ---------------------------------------------------------------- receipts

  function Receipted(ob: Pending): set<nat> {
    set k | k in ob && ob[k].receipt.Some?
  }

  predicate Named(row: Row) {
    row.receipt.Some? ==> row.receipt.value.identity == row.identity
  }

  /** A stored receipt names its mutation and agrees with the accepted log. */
  predicate Sound(row: Row) {
    && Named(row)
    && (row.receipt.Some? && row.receipt.value.Accepted? && row.entry.Some? ==>
          row.entry.value == row.receipt.value.serverSequence)
  }

  /** The receipt names another mutation, or contradicts the log entry of its own. */
  ghost predicate Foreign(row: Row) {
    && row.receipt.Some?
    && (|| row.receipt.value.identity != row.identity
        || (&& row.receipt.value.Accepted? && row.entry.Some?
            && row.receipt.value.serverSequence != row.entry.value))
  }

  lemma SoundExactly(row: Row)
    ensures Sound(row) <==> !Foreign(row)
  {}

  lemma ForeignRow(ob: Pending)
    ensures (forall k :: k in ob ==> Sound(ob[k])) <==> !exists k :: k in ob && Foreign(ob[k])
  {
    forall k | k in ob ensures Sound(ob[k]) <==> !Foreign(ob[k]) { SoundExactly(ob[k]); }
  }

  lemma DueAreSettled(s: Replica)
    requires forall k :: k in s.pending ==> Named(s.pending[k])
    ensures forall k :: k in P.SettledRows(s) <==> k in s.pending && P.Due(s.pending[k], s.meta)
  {
    forall k | k in s.pending ensures k in P.SettledRows(s) <==> P.Due(s.pending[k], s.meta) {
      P.SettlesExactly(s.pending[k], s.meta);
    }
  }

  lemma ReachedAreCovered(ob: Pending, sequence: nat, terminal: nat)
    requires forall k :: k in ob ==> Named(ob[k])
    ensures forall k :: k in CoveredRows(ob, sequence, terminal) <==> k in ob && P.Reached(ob[k], sequence, terminal)
  {
    forall k | k in ob ensures k in CoveredRows(ob, sequence, terminal) <==> P.Reached(ob[k], sequence, terminal) {
      P.CoveredExactly(ob[k], sequence, terminal);
    }
  }

  lemma NextReceipted(ob: Pending, after: nat)
    requires After(Receipted(ob), after) != {}
    ensures var k := Least(After(Receipted(ob), after));
            && after < k && k in Receipted(ob)
            && (forall j :: j in Receipted(ob) && j <= k ==> j <= after || j == k)
            && |After(Receipted(ob), k)| < |After(Receipted(ob), after)|
  {
    var k := Least(After(Receipted(ob), after));
    assert k in After(Receipted(ob), after);
    forall j | j in Receipted(ob) && after < j ensures k <= j { assert j in After(Receipted(ob), after); }
    assert After(Receipted(ob), k) <= After(Receipted(ob), after) - {k};
    SubsetSize(After(Receipted(ob), k), After(Receipted(ob), after) - {k});
  }

  /** A scan of the receipts up to `n` met only good rows, and found those of the wanted rows. */
  ghost predicate Examined(ob: Pending, good: set<nat>, wanted: set<nat>, n: nat, found: set<nat>) {
    && found == Between(wanted, 0, n + 1)
    && Between(Receipted(ob), 0, n + 1) <= good
  }

  lemma ExaminedNext(ob: Pending, good: set<nat>, wanted: set<nat>, n: nat, k: nat, found: set<nat>)
    requires n < k && k in good && wanted <= Receipted(ob) && Examined(ob, good, wanted, n, found)
    requires forall j :: j in Receipted(ob) && j <= k ==> j <= n || j == k
    ensures Examined(ob, good, wanted, k, if k in wanted then found + {k} else found)
  {
    assert Between(wanted, 0, k + 1) == found + (if k in wanted then {k} else {}) by {
      assert forall j :: j in wanted && j <= k ==> j in Receipted(ob);
    }
    forall j | j in Between(Receipted(ob), 0, k + 1) ensures j in good {
      assert j == k || j in Between(Receipted(ob), 0, n + 1);
    }
  }

  lemma ExaminedAll(ob: Pending, good: set<nat>, wanted: set<nat>, n: nat, found: set<nat>)
    requires wanted <= Receipted(ob) && Examined(ob, good, wanted, n, found)
    requires After(Receipted(ob), n) == {}
    ensures found == wanted && Receipted(ob) <= good
  {
    forall k | k in Receipted(ob) ensures k in Between(Receipted(ob), 0, n + 1) {
      assert k !in After(Receipted(ob), n);
    }
    assert forall k :: k in wanted ==> k in Between(Receipted(ob), 0, n + 1);
  }

  function SoundRows(ob: Pending): set<nat> {
    set k | k in ob && Sound(ob[k])
  }

  function NamedRows(ob: Pending): set<nat> {
    set k | k in ob && Named(ob[k])
  }

  function CoveredRows(ob: Pending, sequence: nat, terminal: nat): set<nat> {
    set k | k in ob && P.Covered(ob[k], sequence, terminal)
  }

  /**
   Finds the rows that their receipts settle and marks what they wrote as dirty. It fails, and
   changes nothing, exactly when some receipt does not belong to its row.
   */
  method PrepareSettlements(store: ProjectionStore) returns (r: Option<set<nat>>, touched: set<Entity>)
    requires store.Valid()
    modifies store`dirty
    ensures r.Some? <==> forall k :: k in store.pending ==> Sound(store.pending[k])
    ensures r.None? ==> store.Stored() == old(store.Stored())
    ensures r.None? <==> exists k :: k in store.pending && Foreign(store.pending[k])
    ensures r.Some? ==> forall k :: k in r.value <==> k in store.pending && P.Due(store.pending[k], store.meta)
    ensures r.Some? ==>
              && r.value == P.SettledRows(old(store.Stored())) && touched == WriteSet(store.pending, r.value)
              && store.Stored() == old(store.Stored()).(dirty := old(store.dirty) + touched)
  {
    ghost var wanted := P.SettledRows(store.Stored());
    ForeignRow(store.pending);
    var after, settled: set<nat> := 0, {};
    touched := {};
    while After(Receipted(store.pending), after) != {}
      invariant store.dirty == old(store.dirty)
      invariant Examined(store.pending, SoundRows(store.pending), wanted, after, settled)
      invariant touched == WriteSet(store.pending, settled)
      decreases |After(Receipted(store.pending), after)|
    {
      NextReceipted(store.pending, after);
      var k := Least(After(Receipted(store.pending), after));
      var row := store.pending[k];
      if !Sound(row) { return None, {}; }
      ExaminedNext(store.pending, SoundRows(store.pending), wanted, after, k, settled);
      if P.Settles(row, store.meta) {
        settled, touched := settled + {k}, touched + EntitiesOf(row.changes);
      }
      after := k;
    }
    ExaminedAll(store.pending, SoundRows(store.pending), wanted, after, settled);
    assert forall k :: k in store.pending && k !in Receipted(store.pending) ==> Sound(store.pending[k]);
    DueAreSettled(store.Stored());
    store.dirty := store.dirty + touched;
    r := Some(settled);
  }

  // ---------------------------------------------------------------- snapshots

  /** The rows whose receipts a snapshot covers, or nothing if a receipt belongs elsewhere. */
  method FindCovered(store: ProjectionStore, sequence: nat, terminal: nat) returns (r: Option<set<nat>>)
    requires store.Valid()
    ensures r.Some? <==> forall k :: k in store.pending ==> Named(store.pending[k])
    ensures r.None? <==> exists k :: k in store.pending && store.pending[k].receipt.Some?
                                     && store.pending[k].receipt.value.identity != store.pending[k].identity
    ensures r.Some? ==> r.value == CoveredRows(store.pending, sequence, terminal)
    ensures r.Some? ==>
              forall k :: k in r.value <==> k in store.pending && P.Reached(store.pending[k], sequence, terminal)
  {
    ghost var wanted := CoveredRows(store.pending, sequence, terminal);
    var after, covered: set<nat> := 0, {};
    while After(Receipted(store.pending), after) != {}
      invariant Examined(store.pending, NamedRows(store.pending), wanted, after, covered)
      decreases |After(Receipted(store.pending), after)|
    {
      NextReceipted(store.pending, after);
      var k := Least(After(Receipted(store.pending), after));
      var row := store.pending[k];
      if !Named(row) { return None; }
      ExaminedNext(store.pending, NamedRows(store.pending), wanted, after, k, covered);
      if P.Covered(row, sequence, terminal) { covered := covered + {k}; }
      after := k;
    }
    ExaminedAll(store.pending, NamedRows(store.pending), wanted, after, covered);
    assert forall k :: k in store.pending && k !in Receipted(store.pending) ==> Named(store.pending[k]);
    ReachedAreCovered(store.pending, sequence, terminal);
    return Some(covered);
  }

  function Logged(ob: Pending, sequence: nat): set<nat> {
    set k | k in ob && ob[k].entry.Some? && ob[k].entry.value <= sequence
  }

  function Awaiting(ob: Pending, keys: set<nat>): Pending {
    map k | k in ob :: if k in keys then ob[k].(submission := AwaitingReceipt) else ob[k]
  }

  lemma AwaitOne(ob: Pending, done: set<nat>, k: nat)
    requires k in ob && k !in done
    ensures Awaiting(ob, done)[k := ob[k].(submission := AwaitingReceipt)] == Awaiting(ob, done + {k})
    ensures Awaiting(ob, done)[k] == ob[k]
  {}

  function Unlogged(ob: Pending, sequence: nat): Pending {
    map k | k in ob :: if ob[k].entry.Some? && ob[k].entry.value <= sequence then ob[k].(entry := None) else ob[k]
  }

  lemma CoveredAll(ob: Pending, sequence: nat)
    ensures Unlogged(Awaiting(ob, Logged(ob, sequence)), sequence) == P.CoveringAll(ob, sequence)
  {}

  /** Rows with accepted log evidence up to the snapshot wait for their receipt; that log goes. */
  method AwaitLogged(store: ProjectionStore, sequence: nat)
    modifies store`pending
    ensures store.pending == P.CoveringAll(old(store.pending), sequence)
    ensures store.pending.Keys == old(store.pending.Keys)
    ensures forall k :: k in store.pending ==>
              var row := old(store.pending)[k];
              store.pending[k] == if row.entry.Some? && row.entry.value <= sequence
                                  then row.(submission := AwaitingReceipt, entry := None) else row
  {
    ghost var ob := store.pending;
    var left := Logged(store.pending, sequence);
    assert Logged(ob, sequence) - left == {};
    while left != {}
      invariant left <= Logged(ob, sequence)
      invariant store.pending == Awaiting(ob, Logged(ob, sequence) - left)
      decreases left
    {
      var k := Least(left);
      AwaitOne(ob, Logged(ob, sequence) - left, k);
      assert Logged(ob, sequence) - (left - {k}) == Logged(ob, sequence) - left + {k};
      store.pending := store.pending[k := store.pending[k].(submission := AwaitingReceipt)];
      left := left - {k};
    }
    assert Logged(ob, sequence) - left == Logged(ob, sequence);
    CoveredAll(ob, sequence);
    store.pending := Unlogged(store.pending, sequence);
  }

  /** The canonical rows become the snapshot's; whatever it no longer lists is retracted. */
  method ReplaceView(store: ProjectionStore, entries: seq<ViewChange>) returns (arrived: set<Entity>)
    modifies store`canonical, store`retractions
    ensures arrived == ViewEntities(entries)
    ensures Replicated(store.canonical, store.retractions) == P.InstallCanonical(old(store.Stored()), entries)
    ensures Fenced(Replicated(store.canonical, store.retractions))
    ensures Replaced(old(Replicated(store.canonical, store.retractions)), entries,
                     Replicated(store.canonical, store.retractions))
  {
    ReplacementReplaces(Replicated(store.canonical, store.retractions), entries);
    RetractAll(store, store.canonical.Keys - ViewEntities(entries));
    store.canonical := map[];
    ViewKeepsFence(Replicated(store.canonical, store.retractions), entries);
    arrived := ApplyViewChanges(store, entries);
  }

  /** Every write of an installation. */
  method WriteSnapshot(store: ProjectionStore, entries: seq<ViewChange>, sequence: nat, terminal: nat)
    modifies store`canonical, store`retractions, store`pending, store`meta, store`dirty, store`target, store`cursor
    ensures store.Stored() == P.InstallSnapshot(old(store.Stored()), entries, sequence, terminal)
    ensures Fenced(Replicated(store.canonical, store.retractions)) && store.target.Some?
    ensures Replaced(old(Replicated(store.canonical, store.retractions)), entries,
                     Replicated(store.canonical, store.retractions))
    ensures store.meta.serverCursor == sequence && store.meta.installed == Some(Outbox.Installed(sequence, terminal))
    ensures old(store.canonical).Keys + Visible(old(store.Stored())).Keys + ViewEntities(entries) <= store.dirty
  {
    WriteInstalled(store, entries, sequence, terminal);
    store.RequestProjectionReplay();
  }

  /** All of an installation but the request to replay. */
  ghost function Installed(s: Replica, entries: seq<ViewChange>, sequence: nat, terminal: nat): Replica {
    var r := P.InstallCanonical(s, entries);
    s.(canonical := r.canonical, retractions := r.retractions, pending := P.CoveringAll(s.pending, sequence),
       meta := P.InstalledMeta(sequence, terminal),
       dirty := s.dirty + s.canonical.Keys + Visible(s).Keys + ViewEntities(entries))
  }

  method WriteInstalled(store: ProjectionStore, entries: seq<ViewChange>, sequence: nat, terminal: nat)
    modifies store`canonical, store`retractions, store`pending, store`meta, store`dirty
    ensures store.Stored() == Installed(old(store.Stored()), entries, sequence, terminal)
    ensures Fenced(Replicated(store.canonical, store.retractions))
    ensures Replaced(old(Replicated(store.canonical, store.retractions)), entries,
                     Replicated(store.canonical, store.retractions))
    ensures store.meta.serverCursor == sequence && store.meta.installed == Some(Outbox.Installed(sequence, terminal))
    ensures old(store.canonical).Keys + Visible(old(store.Stored())).Keys + ViewEntities(entries) <= store.dirty
  {
    var known := store.canonical.Keys + Generation(store.visible, store.active).Keys;
    AwaitLogged(store, sequence);
    var arrived := ReplaceView(store, entries);
    store.meta := P.InstalledMeta(sequence, terminal);
    store.dirty := store.dirty + known + arrived;
  }

  /**
   Installs a checked snapshot in one transaction and returns the rows it settles. It fails, and
   changes nothing, exactly when it is older than the watermark or a receipt belongs elsewhere.
   */
  method InstallSnapshot(store: ProjectionStore, entries: seq<ViewChange>, sequence: nat, terminal: nat)
    returns (r: Option<set<nat>>)
    requires store.Valid()
    modifies store`canonical, store`retractions, store`pending, store`meta, store`dirty, store`target, store`cursor
    ensures r.Some? <==>
              && old(store.meta.serverCursor) <= sequence
              && forall k :: k in old(store.pending) ==> Named(old(store.pending)[k])
    ensures r.None? ==> store.Stored() == old(store.Stored())
    ensures r.Some? ==> r.value == CoveredRows(old(store.pending), sequence, terminal)
    ensures r.Some? ==>
              forall k :: k in r.value <==>
                            k in old(store.pending) && P.Reached(old(store.pending)[k], sequence, terminal)
    ensures r.Some? ==> Replaced(old(Replicated(store.canonical, store.retractions)), entries,
                                 Replicated(store.canonical, store.retractions))
    ensures r.Some? && NamedOnce(entries) ==>
              forall e, v :: e in store.canonical && store.canonical[e] == v <==> Put(e, v) in entries
    ensures r.Some? ==>
              && store.meta.serverCursor == sequence
              && store.meta.installed == Some(Outbox.Installed(sequence, terminal))
    ensures r.Some? ==> store.Stored() == P.InstallSnapshot(old(store.Stored()), entries, sequence, terminal)
    ensures r.Some? ==> Fenced(Replicated(store.canonical, store.retractions)) && store.target.Some?
  {
    if sequence < store.meta.serverCursor { return None; }
    r := FindCovered(store, sequence, terminal);
    if r.None? { return; }
    WriteSnapshot(store, entries, sequence, terminal);
    if NamedOnce(entries) {
      ReplacedByPuts(old(Replicated(store.canonical, store.retractions)), entries,
                     Replicated(store.canonical, store.retractions));
    }
  }

  // ---------------------------------------------------------------- a page in the gate

  /** The same stored state, up to generation numbers and the cursor of a finished rebuild. */
  ghost predicate SameState(a: Replica, b: Replica) {
    && a.canonical == b.canonical && a.retractions == b.retractions && a.pending == b.pending
    && a.meta == b.meta && a.nextSequence == b.nextSequence && a.dirty == b.dirty
    && a.target == b.target && Visible(a) == Visible(b)
  }

  /** A requested rebuild has not begun. */
  ghost predicate Unstarted(s: Replica) {
    s.target.Some? ==> s.cursor.Cleanup? && s.target != Some(s.active)
  }

  lemma UnstartedOutcome(h: Handler, limit: nat, s: Replica)
    requires limit > 0 && WellFormed(s) && s.target.Some? && Unstarted(s)
    ensures Retargeted(s) == s && RebuildRuns.InProgress(s)
    ensures RebuildRuns.Outcome(h, limit, s) == (Rebuild.RebuiltPending(h, limit, s), Rebuild.RebuiltTable(h, limit, s))
  {}

  lemma NoForeignReceipt(a: Pending, b: Pending)
    requires P.ReceiptsMatch(a) && SamePlan(a, b)
    ensures forall k :: k in b ==> !Mismatched(b[k])
  {
    forall k | k in b ensures !Mismatched(b[k]) {
      assert Erase(a[k]) == Erase(b[k]);
      assert Erase(a[k]).receipt == a[k].receipt && Erase(b[k]).receipt == b[k].receipt;
      assert Erase(a[k]).identity == a[k].identity && Erase(b[k]).identity == b[k].identity;
    }
  }

  /** A requested rebuild, from its first step; the run's invariant rules out a protocol failure. */
  method RebuildRequested(store: ProjectionStore)
    requires store.Valid() && store.target.Some? && Unstarted(store.Stored()) && P.ReceiptsMatch(store.pending)
    modifies store`pending, store`visible, store`dirty, store`active, store`target, store`cursor, store`revision
    ensures SameState(store.Stored(), P.Rebuilt(store.handler, store.limit, old(store.Stored())))
  {
    ghost var before := store.pending;
    UnstartedOutcome(store.handler, store.limit, store.Stored());
    var rebuilt := store.RebuildProjection();
    if rebuilt.Interrupted? { NoForeignReceipt(before, store.pending); }
  }

  /** Projects by whichever way applies. */
  method Project(store: ProjectionStore, ghost w: P.World, ghost rows: P.Gate)
    requires store.Valid() && w.s == store.Stored() && P.Invariant(store.handler, w) && Unstarted(store.Stored())
    modifies store`pending, store`visible, store`dirty, store`active, store`target, store`cursor, store`revision
    ensures SameState(store.Stored(), P.ProjectWorld(store.handler, store.limit, w, rows).s)
  {
    assert SamePlan(store.pending, store.pending);
    NoForeignReceipt(store.pending, store.pending);
    var delta := store.ApplyProjectionDelta();
    if delta.RebuildPending? { RebuildRequested(store); }
  }

  /** The rest of a settlement whose rows are marked: projecting, then deleting them. */
  ghost function Concluded(h: Handler, limit: nat, w: P.World): P.World
    requires limit > 0 && w.gate.Prepared?
  {
    P.Next(h, limit, P.Next(h, limit, w, P.Project), P.DeleteSettled)
  }

  /** What is visible is the replay of what is pending over what is replicated. */
  ghost predicate Faithful(h: Handler, s: Replica) {
    && s.dirty == {} && s.target.None?
    && Visible(s) == Replay(h, s) && s.pending == ReplayRecords(h, s)
  }

  /** A settlement, an installation or a revocation in progress, as a run allows it. */
  ghost predicate Marked(h: Handler, limit: nat, w: P.World) {
    limit > 0 && P.Invariant(h, w) && w.gate.Prepared? && (w.s.target.None? ==> P.AllRun(w))
  }

  lemma ConcludedIsFaithful(h: Handler, limit: nat, w: P.World)
    requires Marked(h, limit, w)
    ensures var w' := Concluded(h, limit, w);
            && P.Invariant(h, w') && HidesRetracted(Visible(w'.s), w'.s.retractions)
            && w'.s.dirty == {} && w'.s.target.None? && (w'.clean ==> Faithful(h, w'.s))
  {
    var w1 := P.Next(h, limit, w, P.Project);
    P.StepKeepsInvariant(h, limit, w, P.Project);
    P.ProjectRunsEveryRow(h, limit, w, P.Projected(w.gate.rows));
    P.ProjectHidesRetracted(h, limit, w, P.Projected(w.gate.rows));
    P.StepKeepsInvariant(h, limit, w1, P.DeleteSettled);
    P.DeletingIsNeutral(h, limit, w1);
    DeletedRowsAreNotLive(w1);
    if w1.clean { P.VisibleMeansReplay(h, P.Next(h, limit, w1, P.DeleteSettled)); }
  }

  lemma DeletedRowsAreNotLive(w: P.World)
    requires w.gate.Projected? && P.Settling(w) && w.projected == Live(w.s)
    ensures w.projected - w.gate.rows == w.projected
  {
    forall k | k in w.projected ensures k !in w.gate.rows { LiveInPending(w.s, k); }
  }

  lemma SameStateSameMeaning(h: Handler, a: Replica, b: Replica)
    requires SameState(a, b)
    ensures Faithful(h, a) <==> Faithful(h, b)
  {
    assert Base(a) == Base(b) && Live(a) == Live(b);
  }

  lemma ProjectKeepsRows(h: Handler, limit: nat, w: P.World, rows: P.Gate)
    requires limit > 0
    ensures SamePlan(w.s.pending, P.ProjectWorld(h, limit, w, rows).s.pending)
  {
    if w.s.target.Some? { RebuildKeepsRows(h, limit, w.s); } else { DeltaKeepsRows(h, w.s); }
  }

  lemma RebuildKeepsRows(h: Handler, limit: nat, s: Replica)
    requires limit > 0
    ensures SamePlan(s.pending, Rebuild.RebuiltPending(h, limit, s))
  {
    RecordedPlan(Rebuild.RebuildPlan(h, limit, s, 0), s.pending, Base(s), 1, s.nextSequence);
  }

  lemma DeltaKeepsRows(h: Handler, s: Replica)
    ensures SamePlan(s.pending, Delta(h, s).pending)
  {
    RecordedPlan(Whole(h, Live(s)), s.pending, DeltaStart(s), 0, s.nextSequence);
  }

  lemma DeletingKeepsState(a: Replica, b: Replica, rows: set<nat>)
    requires SameState(a, b)
    ensures SameState(a.(pending := a.pending - rows), b.(pending := b.pending - rows))
  {}

  lemma ConcludedDeletes(h: Handler, limit: nat, w: P.World)
    requires limit > 0 && w.gate.Prepared?
    ensures var s := P.ProjectWorld(h, limit, w, P.Projected(w.gate.rows)).s;
            Concluded(h, limit, w).s == s.(pending := s.pending - w.gate.rows)
  {}

  /** Deleting the settled rows from the projected state concludes the settlement. */
  lemma DeletingConcludes(h: Handler, limit: nat, w: P.World, projected: Replica, s: Replica)
    requires Marked(h, limit, w)
    requires SameState(projected, P.ProjectWorld(h, limit, w, P.Projected(w.gate.rows)).s)
    requires s == projected.(pending := projected.pending - w.gate.rows)
    ensures SameState(s, Concluded(h, limit, w).s) && SamePlan(w.s.pending - w.gate.rows, s.pending)
    ensures HidesRetracted(Visible(s), s.retractions) && (Concluded(h, limit, w).clean ==> Faithful(h, s))
  {
    var world := P.ProjectWorld(h, limit, w, P.Projected(w.gate.rows)).s;
    ProjectKeepsRows(h, limit, w, P.Projected(w.gate.rows));
    DeletingKeepsState(projected, world, w.gate.rows);
    ConcludedDeletes(h, limit, w);
    ConcludedIsFaithful(h, limit, w);
    SameStateSameMeaning(h, s, Concluded(h, limit, w).s);
  }

  /** Projects with the settled rows marked, then deletes them. */
  method Conclude(store: ProjectionStore, ghost w: P.World, settled: set<nat>)
    requires store.Valid() && Marked(store.handler, store.limit, w) && w.s == store.Stored()
    requires w.gate == P.Prepared(settled) && Unstarted(store.Stored())
    modifies store`pending, store`visible, store`dirty, store`active, store`target, store`cursor, store`revision
    ensures SamePlan(old(store.pending) - settled, store.pending)
    ensures SameState(store.Stored(), Concluded(store.handler, store.limit, w).s)
    ensures Concluded(store.handler, store.limit, w).clean ==> Faithful(store.handler, store.Stored())
    ensures HidesRetracted(Visible(store.Stored()), store.retractions)
  {
    Project(store, w, P.Projected(settled));
    ghost var projected := store.Stored();
    store.pending := store.pending - settled;
    DeletingConcludes(store.handler, store.limit, w, projected, store.Stored());
  }

  /** A settlement as events of a run. */
  ghost function Settled(h: Handler, limit: nat, w: P.World): P.World
    requires limit > 0 && w.gate.Free?
  {
    Concluded(h, limit, P.Next(h, limit, w, P.Prepare))
  }

  /** A settlement of rows that wrote nothing, which is not worth projecting. */
  ghost function Skipped(h: Handler, limit: nat, w: P.World): P.World
    requires limit > 0 && w.gate.Free? && WriteSet(w.s.pending, P.SettledRows(w.s)) == {}
  {
    P.Next(h, limit, P.Next(h, limit, P.Next(h, limit, w, P.Prepare), P.SkipProjection), P.DeleteSettled)
  }

  lemma FewerRecords(h: Handler, a: Replica, b: Replica)
    requires Base(a) == Base(b) && Live(a) == Live(b) && a.nextSequence == b.nextSequence
    requires b.pending.Keys <= a.pending.Keys && forall k :: k in b.pending ==> b.pending[k] == a.pending[k]
    requires Live(a) <= b.pending.Keys && a.pending == ReplayRecords(h, a)
    ensures b.pending == ReplayRecords(h, b)
  {
    var p := Whole(h, Live(a));
    forall k | k in b.pending ensures ReplayRecords(h, b)[k] == ReplayRecords(h, a)[k] {
      FoldLocal(p, a.pending, b.pending, Base(a), 0, k);
    }
  }

  /** It changes neither what is visible nor what a replay gives. */
  lemma SkippedIsNeutral(h: Handler, limit: nat, w: P.World)
    requires limit > 0 && P.Invariant(h, w) && w.gate.Free? && WriteSet(w.s.pending, P.SettledRows(w.s)) == {}
    ensures var s := Skipped(h, limit, w).s;
            && P.Invariant(h, Skipped(h, limit, w)) && s == w.s.(pending := w.s.pending - P.SettledRows(w.s))
            && Replay(h, s) == Replay(h, w.s) && (Faithful(h, w.s) ==> Faithful(h, s))
  {
    var w1 := P.Next(h, limit, w, P.Prepare);
    assert w1.s == w.s;
    P.PrepareKeeps(h, limit, w);
    P.SkipKeeps(h, limit, w1);
    P.DeleteKeeps(h, limit, P.Next(h, limit, w1, P.SkipProjection));
    P.DeletingIsNeutral(h, limit, P.Next(h, limit, w1, P.SkipProjection));
    if Faithful(h, w.s) { FewerRecords(h, w.s, Skipped(h, limit, w).s); }
  }

  lemma DueOfPlan(a: Row, b: Row, m: Meta)
    requires Erase(a) == Erase(b)
    ensures P.Due(a, m) == P.Due(b, m)
  {
    assert a.receipt == Erase(a).receipt && a.entry == Erase(a).entry;
  }

  /** Once the due rows are gone, none that stays is due. */
  lemma NothingDueStays(ob: Pending, settled: set<nat>, left: Pending, m: Meta)
    requires SamePlan(ob - settled, left) && forall k :: k in settled <==> k in ob && P.Due(ob[k], m)
    ensures left.Keys == ob.Keys - settled && forall k :: k in left ==> !P.Due(left[k], m)
  {
    forall k | k in left ensures !P.Due(left[k], m) {
      assert k in ob - settled;
      DueOfPlan((ob - settled)[k], left[k], m);
    }
  }

  /** A page always projects; without one there is nothing to do unless something was written. */
  predicate Projects(page: bool, s: Replica) {
    page || WriteSet(s.pending, P.SettledRows(s)) != {}
  }

  /**
   Settles in the gate: mark, project, delete. Without a page, rows that wrote nothing are deleted
   without projecting. A receipt that does not belong to its row stops the settlement before anything
   is marked, but the page, if there is one, is still projected.
   */
  method Settle(store: ProjectionStore, ghost w: P.World, page: bool) returns (r: Option<set<nat>>)
    requires store.Valid() && w.s == store.Stored() && P.Invariant(store.handler, w) && w.gate.Free?
    requires Unstarted(store.Stored()) && (store.target.None? ==> P.AllRun(w))
    modifies store`pending, store`visible, store`dirty, store`active, store`target, store`cursor, store`revision
    ensures r.Some? <==> forall k :: k in old(store.pending) ==> Sound(old(store.pending)[k])
    ensures r.None? <==> exists k :: k in old(store.pending) && Foreign(old(store.pending)[k])
    ensures r.Some? ==> r.value == P.SettledRows(w.s)
    ensures r.Some? ==>
              forall k :: k in r.value <==> k in old(store.pending) && P.Due(old(store.pending)[k], store.meta)
    ensures r.Some? ==> forall k :: k in store.pending ==> !P.Due(store.pending[k], store.meta)
    ensures r.Some? ==> store.pending.Keys == old(store.pending.Keys) - r.value
    ensures r.Some? && Projects(page, w.s) ==>
              && SameState(store.Stored(), Settled(store.handler, store.limit, w).s)
              && (Settled(store.handler, store.limit, w).clean ==> Faithful(store.handler, store.Stored()))
    ensures r.Some? && !Projects(page, w.s) ==>
              && store.Stored() == Skipped(store.handler, store.limit, w).s
              && (Faithful(store.handler, w.s) ==> Faithful(store.handler, store.Stored()))
    ensures r.None? && page ==> SameState(store.Stored(), P.ProjectWorld(store.handler, store.limit, w, P.Free).s)
    ensures r.None? && !page ==> store.Stored() == w.s
    ensures page || (r.Some? && Projects(page, w.s)) ==> HidesRetracted(Visible(store.Stored()), store.retractions)
  {
    var touched;
    r, touched := PrepareSettlements(store);
    if r.None? {
      if page { ProjectAnyway(store, w); }
    } else if page || touched != {} {
      PreparedIsMarked(store.handler, store.limit, w);
      Conclude(store, P.Next(store.handler, store.limit, w, P.Prepare), r.value);
    } else {
      assert store.Stored() == w.s;
      DeleteUnwritten(store, w, r.value);
    }
    if r.Some? { NothingDueStays(old(store.pending), r.value, store.pending, store.meta); }
  }

  method DeleteUnwritten(store: ProjectionStore, ghost w: P.World, settled: set<nat>)
    requires w.s == store.Stored() && P.Invariant(store.handler, w) && w.gate.Free? && store.limit > 0
    requires settled == P.SettledRows(w.s) && WriteSet(w.s.pending, settled) == {}
    modifies store`pending
    ensures store.Stored() == Skipped(store.handler, store.limit, w).s
    ensures store.pending == old(store.pending) - settled
    ensures Faithful(store.handler, w.s) ==> Faithful(store.handler, store.Stored())
  {
    SkippedIsNeutral(store.handler, store.limit, w);
    store.pending := store.pending - settled;
  }

  lemma PreparedIsMarked(h: Handler, limit: nat, w: P.World)
    requires limit > 0 && P.Invariant(h, w) && w.gate.Free? && (w.s.target.None? ==> P.AllRun(w)) && Unstarted(w.s)
    ensures var w' := P.Next(h, limit, w, P.Prepare);
            && Marked(h, limit, w') && w'.gate == P.Prepared(P.SettledRows(w.s)) && Unstarted(w'.s)
            && w'.s == w.s.(dirty := w.s.dirty + WriteSet(w.s.pending, P.SettledRows(w.s)))
  {
    P.PrepareKeeps(h, limit, w);
  }

  method ProjectAnyway(store: ProjectionStore, ghost w: P.World)
    requires store.Valid() && w.s == store.Stored() && P.Invariant(store.handler, w) && Unstarted(store.Stored())
    modifies store`pending, store`visible, store`dirty, store`active, store`target, store`cursor, store`revision
    ensures SameState(store.Stored(), P.ProjectWorld(store.handler, store.limit, w, P.Free).s)
    ensures HidesRetracted(Visible(store.Stored()), store.retractions)
  {
    Project(store, w, P.Free);
    P.ProjectHidesRetracted(store.handler, store.limit, w, P.Free);
  }

  datatype PageResult =
    | Regressed
    | More
    | Conflicting
    | Delivered(settled: set<nat>)

  /**
   A page of the view arrives in the gate. The last page of a revision is followed by a settlement,
   after which, if the replay was clean, what is visible is what the page and the outbox mean.
   */
  method ReceivePage(store: ProjectionStore, ghost w: P.World, changes: seq<ViewChange>, serverSequence: Option<nat>)
    returns (r: PageResult)
    requires store.Valid() && w.s == store.Stored() && P.Invariant(store.handler, w) && w.gate.Free?
    requires Unstarted(store.Stored()) && (store.target.None? ==> P.AllRun(w))
    modifies store`canonical, store`retractions, store`meta, store`pending, store`visible, store`dirty,
             store`active, store`target, store`cursor, store`revision
    ensures r.Regressed? <==> serverSequence.Some? && serverSequence.value < old(store.meta.serverCursor)
    ensures r.Regressed? ==> store.Stored() == old(store.Stored())
    ensures r.More? <==> serverSequence.None?
    ensures r.More? ==> store.Stored() == P.ApplyPage(w.s, changes, None)
    ensures !r.Regressed? ==>
              Replicated(store.canonical, store.retractions)
              == ApplyView(Replicated(w.s.canonical, w.s.retractions), changes)
    ensures r.Delivered? ==> forall k :: k in old(store.pending) ==> Sound(old(store.pending)[k])
    ensures r.Conflicting? ==> exists k :: k in old(store.pending) && !Sound(old(store.pending)[k])
    ensures !r.Regressed? ==>
              Viewed(Replicated(w.s.canonical, w.s.retractions), changes,
                     Replicated(store.canonical, store.retractions))
    ensures r.Delivered? ==>
              && (forall k :: k in r.settled <==> k in old(store.pending) && P.Due(old(store.pending)[k], store.meta))
              && (forall k :: k in store.pending ==> !P.Due(store.pending[k], store.meta))
    ensures r.Delivered? ==>
              && r.settled == P.SettledRows(P.ApplyPage(w.s, changes, serverSequence))
              && store.pending.Keys == old(store.pending.Keys) - r.settled
              && store.meta.serverCursor == serverSequence.value
    ensures r.Delivered? ==>
              Settled(store.handler, store.limit, w.(s := P.ApplyPage(w.s, changes, serverSequence))).clean ==>
              Faithful(store.handler, store.Stored())
    ensures r.Delivered? || r.Conflicting? ==> HidesRetracted(Visible(store.Stored()), store.retractions)
  {
    ghost var paged := w.(s := P.ApplyPage(w.s, changes, serverSequence));
    var ok := ApplyViewPage(store, changes, serverSequence);
    if !ok { return Regressed; }
    if serverSequence.None? { return More; }
    P.PageKeeps(store.handler, store.limit, w, changes, serverSequence);
    P.NoRowIsMissed(store.handler, store.limit, w, P.Page(changes, serverSequence));
    var settled := Settle(store, paged, true);
    r := if settled.Some? then Delivered(settled.value) else Conflicting;
  }

  ghost function Arrived(h: Handler, limit: nat, w: P.World, entries: seq<ViewChange>, sequence: nat, terminal: nat)
    : P.World
    requires limit > 0 && P.Enabled(h, w, P.Install(entries, sequence, terminal))
    ensures Arrived(h, limit, w, entries, sequence, terminal).gate.Prepared?
  {
    P.Next(h, limit, w, P.Install(entries, sequence, terminal))
  }

  lemma ArrivedIsMarked(h: Handler, limit: nat, w: P.World, entries: seq<ViewChange>, sequence: nat, terminal: nat)
    requires limit > 0 && P.Invariant(h, w) && P.Enabled(h, w, P.Install(entries, sequence, terminal))
    ensures var w' := Arrived(h, limit, w, entries, sequence, terminal);
            && Marked(h, limit, w') && w'.gate == P.Prepared(CoveredRows(w.s.pending, sequence, terminal))
            && w'.s == P.InstallSnapshot(w.s, entries, sequence, terminal) && w'.s.pending.Keys == w.s.pending.Keys
            && (Unstarted(w.s) ==> Unstarted(w'.s))
  {
    P.ReplacedViewKeeps(h, limit, w, P.Install(entries, sequence, terminal));
  }

  /**
   A fetched snapshot is installed, the projection rebuilt and the covered rows deleted. After that,
   if the replay was clean, what is visible is what the snapshot and the remaining outbox mean.
   */
  method ReceiveSnapshot(store: ProjectionStore, ghost w: P.World, entries: seq<ViewChange>, sequence: nat,
                         terminal: nat)
    returns (r: Option<set<nat>>)
    requires store.Valid() && w.s == store.Stored() && P.Invariant(store.handler, w) && w.gate.Free?
    requires Unstarted(store.Stored())
    modifies store`canonical, store`retractions, store`meta, store`pending, store`visible, store`dirty,
             store`active, store`target, store`cursor, store`revision
    ensures r.Some? <==> old(store.meta.serverCursor) <= sequence
    ensures r.None? ==> store.Stored() == old(store.Stored())
    ensures r.Some? ==> r.value == CoveredRows(old(store.pending), sequence, terminal)
    ensures r.Some? ==>
              forall k :: k in r.value <==>
                            k in old(store.pending) && P.Reached(old(store.pending)[k], sequence, terminal)
    ensures r.Some? ==> store.pending.Keys == old(store.pending.Keys) - r.value
    ensures r.Some? ==> Replaced(old(Replicated(store.canonical, store.retractions)), entries,
                                 Replicated(store.canonical, store.retractions))
    ensures r.Some? && NamedOnce(entries) ==>
              forall e, v :: e in store.canonical && store.canonical[e] == v <==> Put(e, v) in entries
    ensures r.Some? ==>
              forall e :: e in old(store.canonical) && e !in ViewEntities(entries) ==>
                e in store.retractions && e !in Visible(store.Stored())
    ensures r.Some? ==>
              Replicated(store.canonical, store.retractions) == P.InstallCanonical(old(store.Stored()), entries)
    ensures r.Some? ==> HidesRetracted(Visible(store.Stored()), store.retractions)
    ensures r.Some? ==>
              var w' := Arrived(store.handler, store.limit, w, entries, sequence, terminal);
              Concluded(store.handler, store.limit, w').clean ==>
              Faithful(store.handler, store.Stored())
  {
    r := InstallSnapshot(store, entries, sequence, terminal);
    if r.None? { return; }
    ArrivedIsMarked(store.handler, store.limit, w, entries, sequence, terminal);
    Conclude(store, Arrived(store.handler, store.limit, w, entries, sequence, terminal), r.value);
  }

  ghost function Revoked(h: Handler, limit: nat, w: P.World): P.World
    requires limit > 0 && w.gate.Free?
    ensures Revoked(h, limit, w).gate == P.Prepared({})
  {
    P.Next(h, limit, w, P.Revoke)
  }

  lemma RevokedIsMarked(h: Handler, limit: nat, w: P.World)
    requires limit > 0 && P.Invariant(h, w) && w.gate.Free? && Unstarted(w.s)
    ensures var w' := Revoked(h, limit, w);
            Marked(h, limit, w') && w'.s == P.RevokeView(w.s) && Unstarted(w'.s)
  {
    P.ReplacedViewKeeps(h, limit, w, P.Revoke);
  }

  /** Revoking the view and rebuilding leaves only what the outbox itself writes, none of it retracted. */
  method Revoke(store: ProjectionStore, ghost w: P.World)
    requires store.Valid() && w.s == store.Stored() && P.Invariant(store.handler, w) && w.gate.Free?
    requires Unstarted(store.Stored())
    modifies store`canonical, store`retractions, store`pending, store`visible, store`dirty,
             store`active, store`target, store`cursor, store`revision
    ensures store.canonical == map[] && store.pending.Keys == old(store.pending.Keys)
    ensures store.retractions ==
              old(store.retractions) + old(store.canonical.Keys) + Visible(old(store.Stored())).Keys
    ensures HidesRetracted(Visible(store.Stored()), store.retractions)
    ensures Concluded(store.handler, store.limit, Revoked(store.handler, store.limit, w)).clean ==>
              Faithful(store.handler, store.Stored())
  {
    RevokeReplication(store);
    RevokedIsMarked(store.handler, store.limit, w);
    Conclude(store, Revoked(store.handler, store.limit, w), {});
  }
}
