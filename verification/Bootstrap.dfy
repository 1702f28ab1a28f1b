/**
 Bootstrapping a replica from a snapshot: entries are staged page by page, survive crashes, are
 checked again when they are installed, and then replace the canonical entities.
 */
module Bootstrap {
  import opened Basics
  import opened Tables
  import opened View

  datatype Entry = Entry(ordinal: nat, change: ViewChange, entryBytes: nat)

  datatype Manifest = Manifest(snapshotId: string, entityCount: nat, contentBytes: nat, digest: int, sequence: nat)

  datatype Page = Page(manifest: Manifest, entries: seq<Entry>, hasMore: bool)

  datatype Row = Row(entry: Entry, entryBytes: nat)

  datatype Stage = Stage(manifest: Manifest, nextOrdinal: nat, receivedBytes: nat, rollingDigest: int)

  datatype Failure = ProtocolInvalid | CapacityExceeded | StorageCorrupt

  datatype Result<T> = Ok(value: T) | Err(failure: Failure)

  /** Encoding, entry digests and schema validation are left to the caller. */
  datatype Codec = Codec(size: ViewChange -> nat, digest: (int, Entry) -> int, valid: ViewChange -> bool, initial: int)

  datatype Limits = Limits(maximumEntities: nat, maximumBytes: nat)

  // ---------------------------------------------------------------- what a list of entries amounts to

  function Bytes(c: Codec, entries: seq<Entry>): nat {
    if entries == [] then 0 else Bytes(c, entries[..|entries| - 1]) + c.size(entries[|entries| - 1].change)
  }

  function Digest(c: Codec, entries: seq<Entry>): int {
    if entries == [] then c.initial else c.digest(Digest(c, entries[..|entries| - 1]), entries[|entries| - 1])
  }

  predicate EntryFits(c: Codec, ordinal: nat, e: Entry) {
    e.ordinal == ordinal && c.valid(e.change) && e.entryBytes == c.size(e.change)
  }

  ghost predicate Numbered(c: Codec, base: nat, entries: seq<Entry>) {
    forall i :: 0 <= i < |entries| ==> EntryFits(c, base + i, entries[i])
  }

  ghost predicate DistinctEntities(entries: seq<Entry>) {
    forall i, j :: 0 <= i < j < |entries| ==> entries[i].change.entity != entries[j].change.entity
  }

  /** Entries as a snapshot has them: numbered from zero, valid, sized, and each entity once. */
  ghost predicate WellFormed(c: Codec, entries: seq<Entry>) {
    Numbered(c, 0, entries) && DistinctEntities(entries)
  }

  function Entities(entries: seq<Entry>): set<Entity> {
    set e | e in entries :: e.change.entity
  }

  /** The entries are the whole snapshot that the manifest announces. */
  ghost predicate Describes(c: Codec, m: Manifest, entries: seq<Entry>) {
    |entries| == m.entityCount && Bytes(c, entries) == m.contentBytes && Digest(c, entries) == m.digest
  }

  lemma BytesOn(c: Codec, entries: seq<Entry>, e: Entry)
    ensures Bytes(c, entries + [e]) == Bytes(c, entries) + c.size(e.change)
    ensures Digest(c, entries + [e]) == c.digest(Digest(c, entries), e)
    ensures Bytes(c, []) == 0 && Digest(c, []) == c.initial
  {
    var longer := entries + [e];
    assert longer[..|longer| - 1] == entries;
  }

  lemma {:induction false} BytesGrow(c: Codec, a: seq<Entry>, b: seq<Entry>)
    ensures Bytes(c, a) <= Bytes(c, a + b)
    decreases |b|
  {
    if b == [] {
      assert a + b == a;
    } else {
      BytesGrow(c, a, b[..|b| - 1]);
      BytesOn(c, a + b[..|b| - 1], b[|b| - 1]);
      assert a + b == a + b[..|b| - 1] + [b[|b| - 1]];
    }
  }

  /** A page continues what is staged exactly when it is numbered on and repeats no entity. */
  lemma PageContinues(c: Codec, a: seq<Entry>, b: seq<Entry>)
    requires WellFormed(c, a)
    ensures WellFormed(c, a + b) <==> Numbered(c, |a|, b) && DistinctEntities(b) && Entities(a) !! Entities(b)
  {
    var all := a + b;
    if WellFormed(c, all) {
      forall i | 0 <= i < |b| ensures EntryFits(c, |a| + i, b[i]) { assert all[|a| + i] == b[i]; }
      forall i, j | 0 <= i < j < |b| ensures b[i].change.entity != b[j].change.entity {
        assert all[|a| + i] == b[i] && all[|a| + j] == b[j];
      }
      forall x, y | x in a && y in b ensures x.change.entity != y.change.entity {
        var i :| 0 <= i < |a| && a[i] == x;
        var j :| 0 <= j < |b| && b[j] == y;
        assert all[i] == x && all[|a| + j] == y;
      }
    }
    if Numbered(c, |a|, b) && DistinctEntities(b) && Entities(a) !! Entities(b) {
      forall i | 0 <= i < |all| ensures EntryFits(c, i, all[i]) {
        if i >= |a| { assert EntryFits(c, |a| + (i - |a|), b[i - |a|]); }
      }
      forall i, j | 0 <= i < j < |all| ensures all[i].change.entity != all[j].change.entity {
        if i < |a| <= j {
          assert a[i] in a && b[j - |a|] in b;
          assert a[i].change.entity in Entities(a) && b[j - |a|].change.entity in Entities(b);
        }
      }
    }
  }

  lemma WellFormedPrefix(c: Codec, a: seq<Entry>, b: seq<Entry>)
    requires WellFormed(c, a + b)
    ensures WellFormed(c, a)
  {
    forall i | 0 <= i < |a| ensures a[i] == (a + b)[i] {}
  }

  /** What one page may add to the entries staged before it. */
  ghost predicate Acceptable(c: Codec, staged: seq<Entry>, page: Page) {
    var all := staged + page.entries;
    var complete := |all| == page.manifest.entityCount;
    && WellFormed(c, all) && Bytes(c, all) <= page.manifest.contentBytes && |all| <= page.manifest.entityCount
    && (complete || page.entries != []) && page.hasMore != complete
    && (complete ==> Describes(c, page.manifest, all))
  }

  /** The same, entry by entry: the checks that a page has to pass. */
  lemma AcceptableExactly(c: Codec, staged: seq<Entry>, page: Page)
    requires WellFormed(c, staged)
    ensures Acceptable(c, staged, page) <==>
              && (forall i :: 0 <= i < |page.entries| ==>
                    var e := page.entries[i];
                    e.ordinal == |staged| + i && c.valid(e.change) && e.entryBytes == c.size(e.change))
              && (forall i, j :: 0 <= i < j < |page.entries| ==>
                    page.entries[i].change.entity != page.entries[j].change.entity)
              && (forall x, y :: x in staged && y in page.entries ==> x.change.entity != y.change.entity)
              && Bytes(c, staged + page.entries) <= page.manifest.contentBytes
              && |staged| + |page.entries| <= page.manifest.entityCount
              && (if |staged| + |page.entries| == page.manifest.entityCount
                  then !page.hasMore && Bytes(c, staged + page.entries) == page.manifest.contentBytes
                       && Digest(c, staged + page.entries) == page.manifest.digest
                  else page.hasMore && page.entries != [])
  {
    PageContinues(c, staged, page.entries);
    if Entities(staged) !! Entities(page.entries) {
      forall x, y | x in staged && y in page.entries ensures x.change.entity != y.change.entity {
        assert x.change.entity in Entities(staged) && y.change.entity in Entities(page.entries);
      }
    }
  }

  // ---------------------------------------------------------------- installing

  function Changes(entries: seq<Entry>): seq<ViewChange> {
    seq(|entries|, i requires 0 <= i < |entries| => entries[i].change)
  }

  /** Canonical entities that the snapshot does not mention are fenced, and the snapshot replaces the rest. */
  function Installed(r: Replicated, entries: seq<Entry>): Replicated {
    Replacement(r, Changes(entries))
  }

  lemma ChangesName(entries: seq<Entry>)
    ensures ViewEntities(Changes(entries)) == Entities(entries)
  {
    forall e | e in Entities(entries) ensures e in ViewEntities(Changes(entries)) {
      var i :| 0 <= i < |entries| && entries[i].change.entity == e;
      assert Changes(entries)[i] in Changes(entries);
    }
    forall e | e in ViewEntities(Changes(entries)) ensures e in Entities(entries) {
      var i :| 0 <= i < |entries| && Changes(entries)[i].entity == e;
      assert entries[i] in entries;
    }
  }

  predicate Holds(t: Table, e: Entity, v: Value) {
    e in t && t[e] == v
  }

  /** The snapshot's own row for an entity. */
  ghost predicate Puts(entries: seq<Entry>, e: Entity, v: Value) {
    exists i :: 0 <= i < |entries| && entries[i].change == Put(e, v)
  }

  ghost predicate Fences(entries: seq<Entry>, e: Entity) {
    exists i :: 0 <= i < |entries| && entries[i].change == Retract(e)
  }

  /** One more entry, of an entity that is new, adds its own row or fence and no other. */
  lemma EntryOn(front: seq<Entry>, last: Entry)
    requires last.change.entity !in Entities(front)
    ensures Changes(front + [last]) == Changes(front) + [last.change]
    ensures Entities(front + [last]) == Entities(front) + {last.change.entity}
    ensures forall e, v :: Puts(front + [last], e, v) <==> Puts(front, e, v) || last.change == Put(e, v)
    ensures forall e :: Fences(front + [last], e) <==> Fences(front, e) || last.change == Retract(e)
    ensures forall e, v :: Puts(front, e, v) ==> e != last.change.entity
    ensures forall e :: Fences(front, e) ==> e != last.change.entity
  {
    var entries := front + [last];
    assert entries[|front|] == last;
    forall e, v ensures Puts(entries, e, v) <==> Puts(front, e, v) || last.change == Put(e, v) {
      if i :| 0 <= i < |front| && front[i].change == Put(e, v) { assert entries[i].change == Put(e, v); }
    }
    forall e ensures Fences(entries, e) <==> Fences(front, e) || last.change == Retract(e) {
      if i :| 0 <= i < |front| && front[i].change == Retract(e) { assert entries[i].change == Retract(e); }
    }
    forall i | 0 <= i < |front| ensures front[i].change.entity != last.change.entity {
      assert front[i] in front;
    }
  }

  lemma {:induction false} AppliedIsSnapshot(c: Codec, r: Replicated, entries: seq<Entry>)
    requires WellFormed(c, entries) && r.canonical == map[]
    ensures var t := ApplyView(r, Changes(entries));
            && (forall e, v :: Holds(t.canonical, e, v) <==> Puts(entries, e, v))
            && (forall e :: e in t.retractions <==>
                  Fences(entries, e) || (e in r.retractions && e !in Entities(entries)))
    decreases |entries|
  {
    if entries != [] {
      var front, last := entries[..|entries| - 1], entries[|entries| - 1];
      assert entries == front + [last];
      WellFormedPrefix(c, front, [last]);
      AppliedIsSnapshot(c, r, front);
      EntryOn(front, last);
      assert Changes(entries)[..|entries| - 1] == Changes(front);
    }
  }

  /**
   `after` has the snapshot's rows as its canonical ones, and fences what the snapshot fences and
   whatever it does not name that was canonical or fenced before.
   */
  ghost predicate Snapshot(before: Replicated, entries: seq<Entry>, after: Replicated) {
    && (forall e, v :: Holds(after.canonical, e, v) <==> Puts(entries, e, v))
    && (forall e :: e in after.retractions <==>
          Fences(entries, e) || (e !in Entities(entries) && (e in before.retractions || e in before.canonical)))
  }

  /** An installation leaves the snapshot, and no entity both canonical and fenced. */
  lemma InstallMeansSnapshot(c: Codec, r: Replicated, entries: seq<Entry>)
    requires WellFormed(c, entries)
    ensures var t := Installed(r, entries);
            Snapshot(r, entries, t) && Fenced(t)
  {
    var start := Replicated(map[], r.retractions + (r.canonical.Keys - Entities(entries)));
    ChangesName(entries);
    AppliedIsSnapshot(c, start, entries);
    ViewKeepsFence(start, Changes(entries));
    forall e | Fences(entries, e) ensures e in Entities(entries) {
      var i :| 0 <= i < |entries| && entries[i].change == Retract(e);
      assert entries[i] in entries;
    }
  }

  // ---------------------------------------------------------------- the durable stage

  class BootstrapStore {
    const codec: Codec
    const limits: Limits
    var stage: Option<Stage>
    var rows: map<nat, Row>
    var replicated: Replicated
    var serverCursor: nat
    var installedSnapshot: Option<string>
    /** The entries staged so far, in order. */
    ghost var staged: seq<Entry>

    /** The rows, the counters and the rolling digest all say the same: what has been staged. */
    ghost predicate Valid()
      reads this
    {
      && WellFormed(codec, staged)
      && (forall i :: i in rows <==> 0 <= i < |staged|)
      && (forall i :: 0 <= i < |staged| ==> rows[i] == Row(staged[i], staged[i].entryBytes))
      && (stage.None? ==> staged == [])
      && (stage.Some? ==>
            && stage.value.nextOrdinal == |staged| <= stage.value.manifest.entityCount
            && stage.value.receivedBytes == Bytes(codec, staged) <= stage.value.manifest.contentBytes
            && stage.value.rollingDigest == Digest(codec, staged))
    }

    constructor (codec: Codec, limits: Limits, replicated: Replicated, serverCursor: nat)
      ensures Valid() && this.codec == codec && this.limits == limits && stage.None?
      ensures this.replicated == replicated && this.serverCursor == serverCursor
    {
      this.codec, this.limits, this.replicated, this.serverCursor := codec, limits, replicated, serverCursor;
      stage, rows, staged, installedSnapshot := None, map[], [], None;
    }

    predicate Admissible(m: Manifest)
      reads this
    {
      m.entityCount <= limits.maximumEntities && m.contentBytes <= limits.maximumBytes
    }

    /** Starts staging a snapshot, or goes on with it if it is the one already staged. */
    method PrepareBootstrap(m: Manifest) returns (r: Result<int>)
      requires Valid()
      modifies `stage, `rows, `staged
      ensures Valid()
      ensures r.Err? <==> m.entityCount > limits.maximumEntities || m.contentBytes > limits.maximumBytes
      ensures r.Err? ==> r.failure.CapacityExceeded? && unchanged(this)
      ensures r.Ok? ==> stage.Some? && stage.value.manifest == m && r.value == |staged| - 1
      ensures r.Ok? && old(stage).Some? && old(stage).value.manifest == m ==> staged == old(staged)
      ensures r.Ok? && !(old(stage).Some? && old(stage).value.manifest == m) ==> staged == []
    {
      if !Admissible(m) { return Err(CapacityExceeded); }
      if stage.Some? && stage.value.manifest == m {
        return Ok(stage.value.nextOrdinal - 1);
      }
      rows, staged := map[], [];
      stage := Some(Stage(m, 0, 0, codec.initial));
      r := Ok(-1);
    }

    /** Checks the entries of a page, and that none of their entities is staged already. */
    method CheckEntries(s: Stage, entries: seq<Entry>) returns (ok: bool, received: nat, rolling: int)
      requires Valid() && stage == Some(s)
      ensures ok <==> WellFormed(codec, staged + entries) && Bytes(codec, staged + entries) <= s.manifest.contentBytes
      ensures ok ==> received == Bytes(codec, staged + entries) && rolling == Digest(codec, staged + entries)
    {
      PageContinues(codec, staged, entries);
      ok, received, rolling := ScanEntries(codec, staged, s, entries);
      if ok {
        var identities := Entities(entries);
        PresentExactly(identities);
        ok := (set i | i in rows && rows[i].entry.change.entity in identities) == {};
      }
    }

    lemma PresentExactly(identities: set<Entity>)
      requires Valid()
      ensures (set i | i in rows && rows[i].entry.change.entity in identities) == {} <==> Entities(staged) !! identities
    {
      var present := set i | i in rows && rows[i].entry.change.entity in identities;
      forall i | i in present ensures rows[i].entry.change.entity in Entities(staged) * identities {
        assert rows[i].entry == staged[i] && staged[i] in staged;
      }
      forall e | e in Entities(staged) * identities ensures exists i :: i in present {
        var x :| x in staged && x.change.entity == e;
        var i :| 0 <= i < |staged| && staged[i] == x;
        assert i in rows && rows[i].entry == x && i in present;
      }
      assert present != {} ==> exists i :: i in present;
    }

    /** Adds a page to the stage, or leaves everything as it was. */
    method StageBootstrapPage(page: Page) returns (r: Result<bool>)
      requires Valid()
      modifies `stage, `rows, `staged
      ensures Valid()
      ensures r.Err? ==> unchanged(this)
      ensures r.Ok? <==> Admissible(page.manifest) && old(stage).Some? && old(stage).value.manifest == page.manifest
                         && Acceptable(codec, old(staged), page)
      ensures r.Err? ==>
                (r.failure.CapacityExceeded? <==>
                   || page.manifest.entityCount > limits.maximumEntities
                   || page.manifest.contentBytes > limits.maximumBytes)
      ensures r.Ok? ==>
                && staged == old(staged) + page.entries && stage.Some? && stage.value.manifest == page.manifest
                && (r.value <==> |staged| == page.manifest.entityCount)
                && (r.value ==> Describes(codec, page.manifest, staged))
    {
      if !Admissible(page.manifest) { return Err(CapacityExceeded); }
      if stage.None? || stage.value.manifest != page.manifest { return Err(ProtocolInvalid); }
      var s := stage.value;
      var ok, received, rolling := CheckEntries(s, page.entries);
      if !ok { return Err(ProtocolInvalid); }
      var next := s.nextOrdinal + |page.entries|;
      if next > s.manifest.entityCount { return Err(ProtocolInvalid); }
      var complete := next == s.manifest.entityCount;
      if !complete && page.entries == [] { return Err(ProtocolInvalid); }
      if page.hasMore == complete { return Err(ProtocolInvalid); }
      if complete && (received != s.manifest.contentBytes || rolling != s.manifest.digest) {
        return Err(ProtocolInvalid);
      }
      InsertEntries(s.nextOrdinal, page.entries);
      stage := Some(s.(nextOrdinal := next, receivedBytes := received, rollingDigest := rolling));
      r := Ok(complete);
    }

    method InsertEntries(next: nat, entries: seq<Entry>)
      requires next == |staged|
      requires forall i :: i in rows <==> 0 <= i < |staged|
      requires forall i :: 0 <= i < |staged| ==> rows[i] == Row(staged[i], staged[i].entryBytes)
      modifies `rows, `staged
      ensures staged == old(staged) + entries
      ensures forall i :: i in rows <==> 0 <= i < |staged|
      ensures forall i :: 0 <= i < |staged| ==> rows[i] == Row(staged[i], staged[i].entryBytes)
    {
      for k := 0 to |entries|
        invariant staged == old(staged) + entries[..k]
        invariant forall i :: i in rows <==> 0 <= i < |staged|
        invariant forall i :: 0 <= i < |staged| ==> rows[i] == Row(staged[i], staged[i].entryBytes)
      {
        rows := rows[next + k := Row(entries[k], entries[k].entryBytes)];
        assert entries[..k + 1] == entries[..k] + [entries[k]];
        staged := staged + [entries[k]];
      }
      assert entries[..|entries|] == entries;
    }

    /** Reads the staged rows back and checks them all again. */
    method ReadStaged(m: Manifest) returns (r: Result<seq<Entry>>)
      ensures r.Ok? ==> Durable(codec, rows, m, r.value)
      ensures forall entries :: Durable(codec, rows, m, entries) ==> r == Ok(entries)
    {
      if |rows| != m.entityCount { return Err(StorageCorrupt); }
      var read, received, rolling := [], 0, codec.initial;
      var identities := {};
      for i := 0 to |rows|
        invariant |read| == i && ReadBack(codec, rows, read, identities, received, rolling)
      {
        if i !in rows { return Err(StorageCorrupt); }
        var e := rows[i].entry;
        if !EntryFits(codec, i, e) || rows[i].entryBytes != e.entryBytes { return Err(StorageCorrupt); }
        if e.change.entity in identities {
          return Err(StorageCorrupt);
        }
        ReadOn(codec, rows, read, identities, received, rolling);
        identities := identities + {e.change.entity};
        received, rolling, read := received + codec.size(e.change), codec.digest(rolling, e), read + [e];
      }
      OnlyDurable(codec, rows, m, read);
      if received != m.contentBytes || rolling != m.digest { return Err(StorageCorrupt); }
      r := Ok(read);
    }

    ghost predicate Installable(m: Manifest)
      reads this
    {
      && Admissible(m) && stage.Some? && stage.value.manifest == m && Describes(codec, m, staged)
      && serverCursor <= m.sequence
    }

    /** All checks of an installation. The durable ones never fail on what was staged here. */
    method CheckStage(m: Manifest) returns (r: Result<seq<Entry>>)
      ensures Valid() && r.Err? ==> !r.failure.StorageCorrupt? && !Installable(m)
      ensures Valid() && r.Ok? ==> Installable(m) && r.value == staged
    {
      if !Admissible(m) { return Err(CapacityExceeded); }
      if stage.None? || stage.value.manifest != m { return Err(ProtocolInvalid); }
      var s := stage.value;
      if s.nextOrdinal != m.entityCount || s.receivedBytes != m.contentBytes || s.rollingDigest != m.digest {
        return Err(ProtocolInvalid);
      }
      StagedIsDurable();
      r := ReadStaged(m);
      if r.Ok? && m.sequence < serverCursor { return Err(ProtocolInvalid); }
    }

    /** Replaces the canonical entities by a complete snapshot. */
    method InstallBootstrap(m: Manifest) returns (r: Result<()>)
      modifies this
      ensures r.Err? ==> unchanged(this)
      ensures old(Valid()) ==> Valid() && (r.Err? ==> !r.failure.StorageCorrupt?)
      ensures old(Valid()) ==>
                (r.Ok? <==>
                   && m.entityCount <= limits.maximumEntities && m.contentBytes <= limits.maximumBytes
                   && old(stage).Some? && old(stage).value.manifest == m && |old(staged)| == m.entityCount
                   && Bytes(codec, old(staged)) == m.contentBytes && Digest(codec, old(staged)) == m.digest
                   && old(serverCursor) <= m.sequence)
      ensures old(Valid()) && r.Ok? ==>
                && Snapshot(old(replicated), old(staged), replicated)
                && serverCursor == m.sequence && installedSnapshot == Some(m.snapshotId) && stage.None?
    {
      var checked := CheckStage(m);
      if checked.Err? { return Err(checked.failure); }
      var entries := checked.value;
      var gone := replicated.canonical.Keys - Entities(entries);
      ChangesName(entries);
      if Valid() { InstallMeansSnapshot(codec, replicated, entries); }
      replicated := ApplyView(Replicated(map[], replicated.retractions + gone), Changes(entries));
      serverCursor, installedSnapshot := m.sequence, Some(m.snapshotId);
      stage, rows, staged := None, map[], [];
      r := Ok(());
    }

    /** Part of the snapshot is staged. */
    ghost predicate Fetching(m: Manifest, snapshot: seq<Entry>)
      reads this
    {
      && Valid() && Admissible(m) && WellFormed(codec, snapshot) && Describes(codec, m, snapshot)
      && stage.Some? && stage.value.manifest == m && staged <= snapshot
    }

    /** Fetches one page from a server that has the snapshot, and stages it. */
    method FetchPage(m: Manifest, ghost snapshot: seq<Entry>, page: Page) returns (complete: bool)
      requires Fetching(m, snapshot)
      requires page.manifest == m && |staged| + |page.entries| <= |snapshot|
      requires page.entries == snapshot[|staged|..|staged| + |page.entries|]
      requires page.hasMore <==> |staged| + |page.entries| < |snapshot|
      requires page.entries != [] || |staged| == |snapshot|
      modifies `stage, `rows, `staged
      ensures Fetching(m, snapshot) && |staged| == |old(staged)| + |page.entries|
      ensures complete <==> staged == snapshot
    {
      NextPageFits(codec, m, snapshot, staged, page);
      var staging := StageBootstrapPage(page);
      complete := staging.value;
    }

    /**
     Fetches what is missing of a snapshot, in pages of any size, and installs it; it may start from
     whatever an interrupted attempt has left.
     */
    method Bootstrap(m: Manifest, snapshot: seq<Entry>, sizes: nat -> nat)
      requires Valid() && Admissible(m) && serverCursor <= m.sequence
      requires WellFormed(codec, snapshot) && Describes(codec, m, snapshot)
      requires stage.Some? && stage.value.manifest == m ==> staged <= snapshot
      modifies this
      ensures Valid() && stage.None? && serverCursor == m.sequence && installedSnapshot == Some(m.snapshotId)
      ensures Snapshot(old(replicated), snapshot, replicated)
    {
      var prepared := PrepareBootstrap(m);
      var from, round, complete := prepared.value + 1, 0, false;
      while !complete
        invariant Fetching(m, snapshot) && from == |staged| && (complete ==> staged == snapshot)
        invariant replicated == old(replicated) && serverCursor == old(serverCursor)
        decreases |snapshot| - |staged|, !complete
      {
        var limit := if sizes(round) == 0 then 1 else sizes(round);
        var to := if from + limit < |snapshot| then from + limit else |snapshot|;
        complete := FetchPage(m, snapshot, Page(m, snapshot[from..to], to < |snapshot|));
        from, round := to, round + 1;
      }
      var installed := InstallBootstrap(m);
      assert installed.Ok?;
    }

    lemma StagedIsDurable()
      ensures Valid() && stage.Some? && Describes(codec, stage.value.manifest, staged) ==>
                Durable(codec, rows, stage.value.manifest, staged)
    {
      if Valid() {
        OrdinalsSize(rows.Keys, |staged|);
        assert |rows| == |rows.Keys|;
      }
    }
  }

  lemma {:induction false} OrdinalsSize(keys: set<nat>, n: nat)
    requires forall i :: i in keys <==> 0 <= i < n
    ensures |keys| == n
    decreases n
  {
    if n > 0 {
      OrdinalsSize(keys - {n - 1}, n - 1);
      assert keys == keys - {n - 1} + {n - 1};
    } else {
      assert keys == {};
    }
  }

  /** The table holds these entries, and they are the snapshot that the manifest announces. */
  ghost predicate Durable(c: Codec, rows: map<nat, Row>, m: Manifest, entries: seq<Entry>) {
    && |rows| == |entries| && WellFormed(c, entries) && Describes(c, m, entries)
    && forall i :: 0 <= i < |entries| ==> i in rows && rows[i] == Row(entries[i], entries[i].entryBytes)
  }

  /** The running totals over the rows read so far. */
  ghost predicate ReadBack(c: Codec, rows: map<nat, Row>, read: seq<Entry>, identities: set<Entity>, received: int,
                           rolling: int) {
    && WellFormed(c, read) && identities == Entities(read)
    && (forall j :: 0 <= j < |read| ==> j in rows && rows[j] == Row(read[j], read[j].entryBytes))
    && received == Bytes(c, read) && rolling == Digest(c, read)
  }

  lemma ReadOn(c: Codec, rows: map<nat, Row>, read: seq<Entry>, identities: set<Entity>, received: int, rolling: int)
    requires ReadBack(c, rows, read, identities, received, rolling) && |read| in rows
    requires var e := rows[|read|].entry;
             EntryFits(c, |read|, e) && rows[|read|].entryBytes == e.entryBytes && e.change.entity !in identities
    ensures var e := rows[|read|].entry;
            ReadBack(c, rows, read + [e], identities + {e.change.entity},
                     received + c.size(e.change), c.digest(rolling, e))
  {
    var e := rows[|read|].entry;
    BytesOn(c, read, e);
    EntryAdded(c, read, e);
  }

  /** What was read row by row is the only sequence of entries the rows can stand for. */
  lemma OnlyDurable(c: Codec, rows: map<nat, Row>, m: Manifest, read: seq<Entry>)
    requires |read| == |rows| == m.entityCount
    requires forall j :: 0 <= j < |read| ==> j in rows && rows[j] == Row(read[j], read[j].entryBytes)
    ensures forall entries :: Durable(c, rows, m, entries) ==> entries == read
  {
    forall entries: seq<Entry> | Durable(c, rows, m, entries) ensures entries == read {
      assert forall i :: 0 <= i < |read| ==> rows[i] == Row(entries[i], entries[i].entryBytes);
    }
  }

  /** A server that has the snapshot always sends a page that can be staged. */
  lemma NextPageFits(c: Codec, m: Manifest, snapshot: seq<Entry>, staged: seq<Entry>, page: Page)
    requires WellFormed(c, snapshot) && Describes(c, m, snapshot) && staged <= snapshot && page.manifest == m
    requires |staged| + |page.entries| <= |snapshot|
    requires page.entries == snapshot[|staged|..|staged| + |page.entries|]
    requires page.hasMore <==> |staged| + |page.entries| < |snapshot|
    requires page.entries != [] || |staged| == |snapshot|
    ensures Acceptable(c, staged, page) && staged + page.entries <= snapshot
    ensures |staged + page.entries| == |snapshot| ==> staged + page.entries == snapshot
  {
    var upto, rest := staged + page.entries, snapshot[|staged| + |page.entries|..];
    assert snapshot == upto + rest;
    WellFormedPrefix(c, upto, rest);
    BytesGrow(c, upto, rest);
    assert |upto| == |snapshot| ==> upto == snapshot;
  }

  lemma EntryAdded(c: Codec, read: seq<Entry>, e: Entry)
    requires WellFormed(c, read) && EntryFits(c, |read|, e) && e.change.entity !in Entities(read)
    ensures WellFormed(c, read + [e]) && Entities(read + [e]) == Entities(read) + {e.change.entity}
  {
    forall i | 0 <= i < |read| ensures read[i].change.entity in Entities(read) { assert read[i] in read; }
  }

  /** Entries that continue what is staged, distinct among themselves and within the declared bytes. */
  ghost predicate PageFine(c: Codec, staged: seq<Entry>, entries: seq<Entry>, contentBytes: nat) {
    Numbered(c, |staged|, entries) && DistinctEntities(entries) && Bytes(c, staged + entries) <= contentBytes
  }

  /** One more entry is fine exactly when it fits, is new and stays within the bytes. */
  lemma PageTaken(c: Codec, staged: seq<Entry>, entries: seq<Entry>, i: nat, contentBytes: nat)
    requires i < |entries| && PageFine(c, staged, entries[..i], contentBytes)
    ensures PageFine(c, staged, entries[..i + 1], contentBytes) <==>
              && EntryFits(c, |staged| + i, entries[i])
              && entries[i].change.entity !in Entities(entries[..i])
              && Bytes(c, staged + entries[..i + 1]) <= contentBytes
    ensures PageFine(c, staged, entries, contentBytes) ==> PageFine(c, staged, entries[..i + 1], contentBytes)
  {
    EntitySeen(entries, i);
    EntryTaken(c, staged, entries, i);
    PageUpto(c, |staged|, entries, i);
  }

  lemma PageUpto(c: Codec, at: nat, entries: seq<Entry>, i: nat)
    requires i < |entries| && Numbered(c, at, entries[..i]) && DistinctEntities(entries[..i])
    ensures Numbered(c, at, entries[..i + 1]) <==> EntryFits(c, at + i, entries[i])
    ensures DistinctEntities(entries[..i + 1])
            <==> forall j :: 0 <= j < i ==> entries[j].change.entity != entries[i].change.entity
    ensures Numbered(c, at, entries) ==> Numbered(c, at, entries[..i + 1])
    ensures DistinctEntities(entries) ==> DistinctEntities(entries[..i + 1])
  {
    var upto := entries[..i + 1];
    assert forall j :: 0 <= j < i ==> upto[j] == entries[..i][j];
    assert upto[i] == entries[i];
  }

  /** Checks the entries of a page among themselves and counts them on. */
  method ScanEntries(c: Codec, ghost staged: seq<Entry>, s: Stage, entries: seq<Entry>)
    returns (ok: bool, received: nat, rolling: int)
    requires s.nextOrdinal == |staged| && s.receivedBytes == Bytes(c, staged) && s.rollingDigest == Digest(c, staged)
    requires Bytes(c, staged) <= s.manifest.contentBytes
    ensures ok <==> PageFine(c, staged, entries, s.manifest.contentBytes)
    ensures ok ==> received == Bytes(c, staged + entries) && rolling == Digest(c, staged + entries)
  {
    var identities := {};
    received, rolling := s.receivedBytes, s.rollingDigest;
    assert staged + entries[..0] == staged;
    for i := 0 to |entries|
      invariant PageFine(c, staged, entries[..i], s.manifest.contentBytes)
      invariant received == Bytes(c, staged + entries[..i])
      invariant rolling == Digest(c, staged + entries[..i]) && identities == Entities(entries[..i])
    {
      var e := entries[i];
      EntryTaken(c, staged, entries, i);
      PageTaken(c, staged, entries, i, s.manifest.contentBytes);
      if !EntryFits(c, s.nextOrdinal + i, e) { return false, received, rolling; }
      if e.change.entity in identities { return false, received, rolling; }
      identities := identities + {e.change.entity};
      received := received + c.size(e.change);
      if received > s.manifest.contentBytes { return false, received, rolling; }
      rolling := c.digest(rolling, e);
    }
    assert entries[..|entries|] == entries;
    ok := true;
  }

  lemma EntryTaken(c: Codec, staged: seq<Entry>, entries: seq<Entry>, i: nat)
    requires i < |entries|
    ensures var before, after := staged + entries[..i], staged + entries[..i + 1];
            && Bytes(c, after) == Bytes(c, before) + c.size(entries[i].change)
            && Digest(c, after) == c.digest(Digest(c, before), entries[i])
            && Bytes(c, after) <= Bytes(c, staged + entries)
            && Entities(entries[..i + 1]) == Entities(entries[..i]) + {entries[i].change.entity}
  {
    var before := staged + entries[..i];
    assert entries[..i + 1] == entries[..i] + [entries[i]];
    assert staged + entries[..i + 1] == before + [entries[i]];
    BytesOn(c, before, entries[i]);
    BytesGrow(c, staged + entries[..i + 1], entries[i + 1..]);
    assert staged + entries == staged + entries[..i + 1] + entries[i + 1..];
  }

  lemma EntitySeen(entries: seq<Entry>, i: nat)
    requires i < |entries|
    ensures entries[i].change.entity in Entities(entries[..i]) <==>
              exists j :: 0 <= j < i && entries[j].change.entity == entries[i].change.entity
  {
    forall x | x in entries[..i] ensures exists j :: 0 <= j < i && entries[j] == x {
      var j :| 0 <= j < |entries[..i]| && entries[..i][j] == x;
      assert entries[j] == x;
    }
    forall j | 0 <= j < i ensures entries[j].change.entity in Entities(entries[..i]) {
      assert entries[..i][j] == entries[j];
    }
  }
}
