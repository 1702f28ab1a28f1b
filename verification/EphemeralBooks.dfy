/**
 The tables of an ephemeral space together with the counters kept beside them: bytes of the whole
 space and of its snapshot, and bytes, state keys and event keys of every member.
 */
module EphemeralBooks {
  import opened Basics
  import opened EphemeralKeys
  import opened EphemeralView

  datatype MemberRecord = MemberRecord(entry: MemberEntry, bytes: nat, entryBytes: nat, token: nat, sessionToken: nat,
                                       leaseMillis: nat)

  datatype StateRecord = StateRecord(entry: StateEntry, bytes: nat, entryBytes: nat, token: nat)

  datatype EventRecord = EventRecord(member: Member, channel: string, token: nat)

  datatype Books = Books(
    members: map<string, MemberRecord>,
    states: map<string, StateRecord>,
    events: map<string, EventRecord>,
    memberBytes: map<string, int>,
    memberStateKeys: map<string, int>,
    memberEventKeys: map<string, int>,
    spaceBytes: int,
    snapshotEntriesBytes: int)

  datatype Limits = Limits(
    maximumMembersPerSpace: nat,
    maximumEventKeysPerMember: nat,
    maximumEventKeysPerSpace: nat,
    maximumStateKeysPerMember: nat,
    maximumStateKeysPerSpace: nat,
    maximumBytesPerMember: nat,
    maximumBytesPerSpace: nat,
    maximumSnapshotBytes: nat)

  const SNAPSHOT_BASE_BYTES: nat := 256

  // ---------------------------------------------------------------- sums over a table

  lemma Smaller<R>(m: map<string, R>, k: string)
    requires k in m
    ensures |m - {k}| == |m| - 1
  {
    assert m.Keys == (m - {k}).Keys + {k};
    assert |m| == |m.Keys| && |m - {k}| == |(m - {k}).Keys|;
  }

  ghost function Sum(m: map<string, nat>): nat
    decreases |m|
  {
    if m == map[] then 0
    else
      var k :| k in m;
      Smaller(m, k);
      m[k] + Sum(m - {k})
  }

  lemma {:induction false} SumWithout(m: map<string, nat>, k: string)
    requires k in m
    ensures Sum(m) == m[k] + Sum(m - {k})
    decreases |m|
  {
    var j :| j in m && Sum(m) == m[j] + Sum(m - {j});
    if j != k {
      Smaller(m, j);
      SumWithout(m - {j}, k);
      Smaller(m, k);
      SumWithout(m - {k}, j);
      assert m - {j} - {k} == m - {k} - {j};
    }
  }

  lemma {:induction false} SumZero(m: map<string, nat>)
    requires forall k :: k in m ==> m[k] == 0
    ensures Sum(m) == 0
    decreases |m|
  {
    if m != map[] {
      var k :| k in m && Sum(m) == m[k] + Sum(m - {k});
      Smaller(m, k);
      SumZero(m - {k});
    }
  }

  function Owned(m: map<string, int>, k: string): int {
    if k in m then m[k] else 0
  }

  lemma SumPut(m: map<string, nat>, k: string, n: nat)
    ensures Sum(m[k := n]) == Sum(m) - Owned(m, k) + n
  {
    SumWithout(m[k := n], k);
    assert m[k := n] - {k} == m - {k};
    if k in m { SumWithout(m, k); } else { assert m - {k} == m; }
  }

  lemma SumDrop(m: map<string, nat>, k: string)
    ensures Sum(m - {k}) == Sum(m) - Owned(m, k)
  {
    if k in m { SumWithout(m, k); } else { assert m - {k} == m; }
  }

  function MemberBytes(m: map<string, MemberRecord>): map<string, nat> {
    map k | k in m :: m[k].bytes
  }

  function MemberEntryBytes(m: map<string, MemberRecord>): map<string, nat> {
    map k | k in m :: m[k].entryBytes
  }

  function StateBytes(m: map<string, StateRecord>): map<string, nat> {
    map k | k in m :: m[k].bytes
  }

  function StateEntryBytes(m: map<string, StateRecord>): map<string, nat> {
    map k | k in m :: m[k].entryBytes
  }

  function BytesAt(m: map<string, MemberRecord>, k: string): nat {
    if k in m then m[k].bytes else 0
  }

  function EntryBytesAt(m: map<string, MemberRecord>, k: string): nat {
    if k in m then m[k].entryBytes else 0
  }

  function StateBytesAt(m: map<string, StateRecord>, id: string): nat {
    if id in m then m[id].bytes else 0
  }

  function StateEntryBytesAt(m: map<string, StateRecord>, id: string): nat {
    if id in m then m[id].entryBytes else 0
  }

  function Owner(r: StateRecord): string {
    MemberKey(r.entry.member)
  }

  function OwnerBytes(m: map<string, StateRecord>, o: string): map<string, nat> {
    map k | k in m :: if Owner(m[k]) == o then m[k].bytes else 0
  }

  function OwnerStates(m: map<string, StateRecord>, o: string): map<string, nat> {
    map k | k in m :: if Owner(m[k]) == o then 1 else 0
  }

  function OwnerEvents(m: map<string, EventRecord>, o: string): map<string, nat> {
    map k | k in m :: if MemberKey(m[k].member) == o then 1 else 0
  }

  // ---------------------------------------------------------------- the counters are the sums

  ghost predicate SpaceBalanced(b: Books) {
    && b.spaceBytes == Sum(MemberBytes(b.members)) + Sum(StateBytes(b.states))
    && b.snapshotEntriesBytes == Sum(MemberEntryBytes(b.members)) + Sum(StateEntryBytes(b.states))
  }

  ghost predicate OwnerBalanced(b: Books, o: string) {
    && Owned(b.memberBytes, o) == BytesAt(b.members, o) + Sum(OwnerBytes(b.states, o))
    && Owned(b.memberStateKeys, o) == Sum(OwnerStates(b.states, o))
    && Owned(b.memberEventKeys, o) == Sum(OwnerEvents(b.events, o))
  }

  /** The accounts of the whole space, or of one owner. */
  ghost predicate AccountBalanced(b: Books, account: Option<string>) {
    match account
    case None => SpaceBalanced(b)
    case Some(o) => OwnerBalanced(b, o)
  }

  ghost predicate Balanced(b: Books) {
    forall account :: AccountBalanced(b, account)
  }

  /** Nothing is kept for an owner that has neither a session nor anything accounted to it. */
  ghost predicate OwnerTidy(b: Books, o: string) {
    o in b.memberBytes || o in b.memberStateKeys || o in b.memberEventKeys ==>
      o in b.members || Owned(b.memberBytes, o) != 0 || Owned(b.memberStateKeys, o) != 0
      || Owned(b.memberEventKeys, o) != 0
  }

  ghost predicate Tidy(b: Books) {
    forall o :: OwnerTidy(b, o)
  }

  ghost predicate TidyBut(b: Books, gone: string) {
    forall o :: o != gone ==> OwnerTidy(b, o)
  }

  // ---------------------------------------------------------------- changes

  function PutMember(b: Books, k: string, r: MemberRecord): Books {
    b.(members := b.members[k := r],
       memberBytes := b.memberBytes[k := Owned(b.memberBytes, k) - BytesAt(b.members, k) + r.bytes],
       spaceBytes := b.spaceBytes - BytesAt(b.members, k) + r.bytes,
       snapshotEntriesBytes := b.snapshotEntriesBytes - EntryBytesAt(b.members, k) + r.entryBytes)
  }

  /** The entry changes and the value does not. */
  function RenewMember(b: Books, k: string, r: MemberRecord): Books {
    b.(members := b.members[k := r],
       snapshotEntriesBytes := b.snapshotEntriesBytes - EntryBytesAt(b.members, k) + r.entryBytes)
  }

  function DropMember(b: Books, k: string): Books {
    b.(members := b.members - {k},
       memberBytes := b.memberBytes[k := Owned(b.memberBytes, k) - BytesAt(b.members, k)],
       spaceBytes := b.spaceBytes - BytesAt(b.members, k),
       snapshotEntriesBytes := b.snapshotEntriesBytes - EntryBytesAt(b.members, k))
  }

  function PutState(b: Books, id: string, r: StateRecord): Books {
    b.(states := b.states[id := r],
       memberBytes := b.memberBytes[Owner(r) := Owned(b.memberBytes, Owner(r)) - StateBytesAt(b.states, id) + r.bytes],
       memberStateKeys :=
         b.memberStateKeys[Owner(r) := Owned(b.memberStateKeys, Owner(r)) + if id in b.states then 0 else 1],
       spaceBytes := b.spaceBytes - StateBytesAt(b.states, id) + r.bytes,
       snapshotEntriesBytes := b.snapshotEntriesBytes - StateEntryBytesAt(b.states, id) + r.entryBytes)
  }

  function DropState(b: Books, id: string): Books
    requires id in b.states
  {
    var r := b.states[id];
    b.(states := b.states - {id},
       memberBytes := b.memberBytes[Owner(r) := Owned(b.memberBytes, Owner(r)) - r.bytes],
       memberStateKeys := b.memberStateKeys[Owner(r) := Owned(b.memberStateKeys, Owner(r)) - 1],
       spaceBytes := b.spaceBytes - r.bytes,
       snapshotEntriesBytes := b.snapshotEntriesBytes - r.entryBytes)
  }

  function PutEvent(b: Books, id: string, r: EventRecord): Books {
    var o := MemberKey(r.member);
    b.(events := b.events[id := r],
       memberEventKeys := b.memberEventKeys[o := Owned(b.memberEventKeys, o) + if id in b.events then 0 else 1])
  }

  function DropEvent(b: Books, id: string): Books
    requires id in b.events
  {
    var o := MemberKey(b.events[id].member);
    b.(events := b.events - {id}, memberEventKeys := b.memberEventKeys[o := Owned(b.memberEventKeys, o) - 1])
  }

  function WithoutEventsOf(events: map<string, EventRecord>, o: string): map<string, EventRecord> {
    map id | id in events && MemberKey(events[id].member) != o :: events[id]
  }

  function DropEvents(b: Books, o: string): Books {
    b.(events := WithoutEventsOf(b.events, o), memberEventKeys := b.memberEventKeys[o := 0])
  }

  /** Forgets the counters of an owner that has left and has nothing accounted to it. */
  function CleanUp(b: Books, o: string): Books {
    if o in b.members || Owned(b.memberBytes, o) != 0 || Owned(b.memberStateKeys, o) != 0
      || Owned(b.memberEventKeys, o) != 0
    then b
    else b.(memberBytes := b.memberBytes - {o}, memberStateKeys := b.memberStateKeys - {o},
            memberEventKeys := b.memberEventKeys - {o})
  }

  // ---------------------------------------------------------------- every change keeps them

  lemma PutMemberSum(m: map<string, MemberRecord>, k: string, r: MemberRecord)
    ensures Sum(MemberBytes(m[k := r])) == Sum(MemberBytes(m)) - BytesAt(m, k) + r.bytes
  {
    SumPut(MemberBytes(m), k, r.bytes);
    assert MemberBytes(m[k := r]) == MemberBytes(m)[k := r.bytes];
  }

  lemma PutMemberSums(m: map<string, MemberRecord>, k: string, r: MemberRecord)
    ensures Sum(MemberBytes(m[k := r])) == Sum(MemberBytes(m)) - BytesAt(m, k) + r.bytes
    ensures Sum(MemberEntryBytes(m[k := r])) == Sum(MemberEntryBytes(m)) - EntryBytesAt(m, k) + r.entryBytes
  {
    PutMemberSum(m, k, r);
    SumPut(MemberEntryBytes(m), k, r.entryBytes);
    assert MemberEntryBytes(m[k := r]) == MemberEntryBytes(m)[k := r.entryBytes];
  }

  lemma PutMemberBalances(b: Books, k: string, r: MemberRecord)
    requires Balanced(b)
    ensures Balanced(PutMember(b, k, r))
  {
    PutMemberSums(b.members, k, r);
    forall a ensures AccountBalanced(PutMember(b, k, r), a) { assert AccountBalanced(b, a); }
  }

  lemma RenewMemberBalances(b: Books, k: string, r: MemberRecord)
    requires Balanced(b) && k in b.members && r.bytes == b.members[k].bytes
    ensures Balanced(RenewMember(b, k, r))
  {
    PutMemberSums(b.members, k, r);
    forall a ensures AccountBalanced(RenewMember(b, k, r), a) { assert AccountBalanced(b, a); }
  }

  lemma DropMemberSums(m: map<string, MemberRecord>, k: string)
    ensures Sum(MemberBytes(m - {k})) == Sum(MemberBytes(m)) - BytesAt(m, k)
    ensures Sum(MemberEntryBytes(m - {k})) == Sum(MemberEntryBytes(m)) - EntryBytesAt(m, k)
  {
    SumDrop(MemberBytes(m), k);
    SumDrop(MemberEntryBytes(m), k);
    assert MemberBytes(m - {k}) == MemberBytes(m) - {k};
    assert MemberEntryBytes(m - {k}) == MemberEntryBytes(m) - {k};
  }

  lemma DropMemberBalances(b: Books, k: string)
    requires Balanced(b)
    ensures Balanced(DropMember(b, k))
  {
    DropMemberSums(b.members, k);
    forall a ensures AccountBalanced(DropMember(b, k), a) { assert AccountBalanced(b, a); }
  }

  lemma PutStateSum(m: map<string, StateRecord>, id: string, r: StateRecord)
    ensures Sum(StateBytes(m[id := r])) == Sum(StateBytes(m)) - StateBytesAt(m, id) + r.bytes
  {
    SumPut(StateBytes(m), id, r.bytes);
    assert StateBytes(m[id := r]) == StateBytes(m)[id := r.bytes];
  }

  lemma PutStateSums(m: map<string, StateRecord>, id: string, r: StateRecord)
    ensures Sum(StateBytes(m[id := r])) == Sum(StateBytes(m)) - StateBytesAt(m, id) + r.bytes
    ensures Sum(StateEntryBytes(m[id := r])) == Sum(StateEntryBytes(m)) - StateEntryBytesAt(m, id) + r.entryBytes
  {
    PutStateSum(m, id, r);
    SumPut(StateEntryBytes(m), id, r.entryBytes);
    assert StateEntryBytes(m[id := r]) == StateEntryBytes(m)[id := r.entryBytes];
  }

  lemma PutOwnerBytes(m: map<string, StateRecord>, id: string, r: StateRecord, o: string)
    requires id in m ==> Owner(m[id]) == Owner(r)
    ensures Sum(OwnerBytes(m[id := r], o))
            == Sum(OwnerBytes(m, o)) + if Owner(r) == o then r.bytes - StateBytesAt(m, id) else 0
  {
    var n := if Owner(r) == o then r.bytes else 0;
    SumPut(OwnerBytes(m, o), id, n);
    assert OwnerBytes(m[id := r], o) == OwnerBytes(m, o)[id := n];
  }

  lemma PutOwnerStates(m: map<string, StateRecord>, id: string, r: StateRecord, o: string)
    requires id in m ==> Owner(m[id]) == Owner(r)
    ensures Sum(OwnerStates(m[id := r], o)) == Sum(OwnerStates(m, o)) + if Owner(r) == o && id !in m then 1 else 0
  {
    var one := if Owner(r) == o then 1 else 0;
    SumPut(OwnerStates(m, o), id, one);
    assert OwnerStates(m[id := r], o) == OwnerStates(m, o)[id := one];
  }

  lemma OwnedPut(m: map<string, int>, k: string, n: int, o: string)
    ensures Owned(m[k := n], o) == if k == o then n else Owned(m, o)
  {
  }

  lemma PutStateOwnerBytes(b: Books, id: string, r: StateRecord, o: string)
    requires OwnerBalanced(b, o) && (id in b.states ==> Owner(b.states[id]) == Owner(r))
    ensures Owned(PutState(b, id, r).memberBytes, o) == BytesAt(b.members, o) + Sum(OwnerBytes(b.states[id := r], o))
  {
    PutOwnerBytes(b.states, id, r, o);
    OwnedPut(b.memberBytes, Owner(r), Owned(b.memberBytes, Owner(r)) - StateBytesAt(b.states, id) + r.bytes, o);
  }

  lemma PutStateOwner(b: Books, id: string, r: StateRecord, o: string)
    requires OwnerBalanced(b, o) && (id in b.states ==> Owner(b.states[id]) == Owner(r))
    ensures OwnerBalanced(PutState(b, id, r), o)
  {
    PutStateOwnerBytes(b, id, r, o);
    PutStateOwnerKeys(b, id, r, o);
    assert PutState(b, id, r).members == b.members && PutState(b, id, r).states == b.states[id := r];
  }

  lemma PutStateOwnerKeys(b: Books, id: string, r: StateRecord, o: string)
    requires OwnerBalanced(b, o) && (id in b.states ==> Owner(b.states[id]) == Owner(r))
    ensures Owned(PutState(b, id, r).memberStateKeys, o) == Sum(OwnerStates(b.states[id := r], o))
  {
    var keys := Owned(b.memberStateKeys, Owner(r)) + if id in b.states then 0 else 1;
    assert PutState(b, id, r).memberStateKeys == b.memberStateKeys[Owner(r) := keys];
    OwnedPut(b.memberStateKeys, Owner(r), keys, o);
    PutOwnerStates(b.states, id, r, o);
  }

  lemma PutStateBalances(b: Books, id: string, r: StateRecord)
    requires Balanced(b) && (id in b.states ==> Owner(b.states[id]) == Owner(r))
    ensures Balanced(PutState(b, id, r))
  {
    PutStateSums(b.states, id, r);
    forall a ensures AccountBalanced(PutState(b, id, r), a) {
      assert AccountBalanced(b, a);
      if a.Some? { PutStateOwner(b, id, r, a.value); }
    }
  }

  lemma DropOwnerBytes(m: map<string, StateRecord>, id: string, o: string)
    requires id in m
    ensures Sum(OwnerBytes(m - {id}, o)) == Sum(OwnerBytes(m, o)) - if Owner(m[id]) == o then m[id].bytes else 0
  {
    SumDrop(OwnerBytes(m, o), id);
    assert OwnerBytes(m - {id}, o) == OwnerBytes(m, o) - {id};
  }

  lemma DropOwnerStates(m: map<string, StateRecord>, id: string, o: string)
    requires id in m
    ensures Sum(OwnerStates(m - {id}, o)) == Sum(OwnerStates(m, o)) - if Owner(m[id]) == o then 1 else 0
  {
    SumDrop(OwnerStates(m, o), id);
    assert OwnerStates(m - {id}, o) == OwnerStates(m, o) - {id};
  }

  lemma DropStateSums(m: map<string, StateRecord>, id: string)
    ensures Sum(StateBytes(m - {id})) == Sum(StateBytes(m)) - StateBytesAt(m, id)
    ensures Sum(StateEntryBytes(m - {id})) == Sum(StateEntryBytes(m)) - StateEntryBytesAt(m, id)
  {
    SumDrop(StateBytes(m), id);
    SumDrop(StateEntryBytes(m), id);
    assert StateBytes(m - {id}) == StateBytes(m) - {id};
    assert StateEntryBytes(m - {id}) == StateEntryBytes(m) - {id};
  }

  lemma DropStateOwner(b: Books, id: string, o: string)
    requires OwnerBalanced(b, o) && id in b.states
    ensures OwnerBalanced(DropState(b, id), o)
  {
    DropOwnerBytes(b.states, id, o);
    DropOwnerStates(b.states, id, o);
    var r := b.states[id];
    OwnedPut(b.memberBytes, Owner(r), Owned(b.memberBytes, Owner(r)) - r.bytes, o);
    OwnedPut(b.memberStateKeys, Owner(r), Owned(b.memberStateKeys, Owner(r)) - 1, o);
    assert DropState(b, id).members == b.members && DropState(b, id).states == b.states - {id};
  }

  lemma DropStateBalances(b: Books, id: string)
    requires Balanced(b) && id in b.states
    ensures Balanced(DropState(b, id))
  {
    DropStateSums(b.states, id);
    forall a ensures AccountBalanced(DropState(b, id), a) {
      assert AccountBalanced(b, a);
      if a.Some? { DropStateOwner(b, id, a.value); }
    }
  }

  lemma PutEventOwned(m: map<string, EventRecord>, id: string, r: EventRecord, o: string)
    requires id in m ==> MemberKey(m[id].member) == MemberKey(r.member)
    ensures Sum(OwnerEvents(m[id := r], o))
            == Sum(OwnerEvents(m, o)) + if MemberKey(r.member) == o && id !in m then 1 else 0
  {
    var one := if MemberKey(r.member) == o then 1 else 0;
    SumPut(OwnerEvents(m, o), id, one);
    assert OwnerEvents(m[id := r], o) == OwnerEvents(m, o)[id := one];
  }

  lemma PutEventBalances(b: Books, id: string, r: EventRecord)
    requires Balanced(b) && (id in b.events ==> MemberKey(b.events[id].member) == MemberKey(r.member))
    ensures Balanced(PutEvent(b, id, r))
  {
    forall a ensures AccountBalanced(PutEvent(b, id, r), a) {
      assert AccountBalanced(b, a);
      if a.Some? { PutEventOwned(b.events, id, r, a.value); }
    }
  }

  lemma DropEventOwned(m: map<string, EventRecord>, id: string, o: string)
    requires id in m
    ensures Sum(OwnerEvents(m - {id}, o)) == Sum(OwnerEvents(m, o)) - if MemberKey(m[id].member) == o then 1 else 0
  {
    SumDrop(OwnerEvents(m, o), id);
    assert OwnerEvents(m - {id}, o) == OwnerEvents(m, o) - {id};
  }

  lemma DropEventBalances(b: Books, id: string)
    requires Balanced(b) && id in b.events
    ensures Balanced(DropEvent(b, id))
  {
    forall a ensures AccountBalanced(DropEvent(b, id), a) {
      assert AccountBalanced(b, a);
      if a.Some? { DropEventOwned(b.events, id, a.value); }
    }
  }

  lemma {:induction false} SumOfOthers(events: map<string, EventRecord>, gone: string, o: string)
    requires o != gone
    ensures Sum(OwnerEvents(WithoutEventsOf(events, gone), o)) == Sum(OwnerEvents(events, o))
    decreases |events|
  {
    if events == map[] {
      assert OwnerEvents(WithoutEventsOf(events, gone), o) == OwnerEvents(events, o);
    } else {
      var k :| k in events;
      Smaller(events, k);
      SumOfOthers(events - {k}, gone, o);
      DropEventOwned(events, k, o);
      DropOfOthers(events, gone, o, k);
    }
  }

  lemma DropOfOthers(events: map<string, EventRecord>, gone: string, o: string, k: string)
    requires o != gone && k in events
    ensures Sum(OwnerEvents(WithoutEventsOf(events - {k}, gone), o))
            == Sum(OwnerEvents(WithoutEventsOf(events, gone), o)) - if MemberKey(events[k].member) == o then 1 else 0
  {
    var kept := WithoutEventsOf(events, gone);
    assert WithoutEventsOf(events - {k}, gone) == kept - {k};
    if k in kept { DropEventOwned(kept, k, o); } else { assert kept - {k} == kept; }
  }

  lemma SumFiltered(events: map<string, EventRecord>, gone: string, o: string)
    ensures Sum(OwnerEvents(WithoutEventsOf(events, gone), o)) == if o == gone then 0 else Sum(OwnerEvents(events, o))
  {
    if o == gone { SumZero(OwnerEvents(WithoutEventsOf(events, gone), o)); } else { SumOfOthers(events, gone, o); }
  }

  lemma DropEventsBalances(b: Books, gone: string)
    requires Balanced(b)
    ensures Balanced(DropEvents(b, gone))
  {
    forall a ensures AccountBalanced(DropEvents(b, gone), a) {
      assert AccountBalanced(b, a);
      if a.Some? { SumFiltered(b.events, gone, a.value); }
    }
  }

  lemma CleanUpBalances(b: Books, gone: string)
    requires Balanced(b)
    ensures Balanced(CleanUp(b, gone))
  {
    forall a ensures AccountBalanced(CleanUp(b, gone), a) {
      assert AccountBalanced(b, a);
      if a.Some? { CleanUpOwns(b, gone, a.value); }
    }
  }

  /** Only counters at zero are forgotten. */
  lemma CleanUpOwns(b: Books, gone: string, o: string)
    ensures Owned(CleanUp(b, gone).memberBytes, o) == Owned(b.memberBytes, o)
    ensures Owned(CleanUp(b, gone).memberStateKeys, o) == Owned(b.memberStateKeys, o)
    ensures Owned(CleanUp(b, gone).memberEventKeys, o) == Owned(b.memberEventKeys, o)
  {
  }

  // ---------------------------------------------------------------- what holds of a space at rest

  /** How many bytes values and entries take when encoded. */
  datatype Sizes = Sizes(value: int -> nat, member: MemberEntry -> nat, state: StateEntry -> nat)

  predicate MemberFits(sizes: Sizes, k: string, r: MemberRecord) {
    k == MemberKey(r.entry.member) && r.bytes == sizes.value(r.entry.value) && r.entryBytes == sizes.member(r.entry)
  }

  predicate StateFits(sizes: Sizes, id: string, r: StateRecord) {
    id == KeyOf(r.entry) && r.bytes == sizes.value(r.entry.value) && r.entryBytes == sizes.state(r.entry)
  }

  /** Every record is where its identity says and as large as its content. */
  ghost predicate Recorded(b: Books, sizes: Sizes) {
    && (forall k :: k in b.members ==> MemberFits(sizes, k, b.members[k]))
    && (forall id :: id in b.states ==> StateFits(sizes, id, b.states[id]))
    && (forall id :: id in b.events ==> id == EventKey(b.events[id].member, b.events[id].channel))
  }

  function SnapshotBytes(entriesBytes: int, entries: int): int {
    SNAPSHOT_BASE_BYTES + entriesBytes + if entries > 1 then entries - 1 else 0
  }

  ghost predicate OwnerWithin(b: Books, l: Limits, o: string) {
    && Owned(b.memberBytes, o) <= l.maximumBytesPerMember
    && Owned(b.memberStateKeys, o) <= l.maximumStateKeysPerMember
    && Owned(b.memberEventKeys, o) <= l.maximumEventKeysPerMember
  }

  /** No limit is exceeded, and the snapshot of a space that holds anything can be sent. */
  ghost predicate Within(b: Books, l: Limits) {
    && (forall o :: OwnerWithin(b, l, o))
    && b.spaceBytes <= l.maximumBytesPerSpace
    && |b.members| <= l.maximumMembersPerSpace && |b.states| <= l.maximumStateKeysPerSpace
    && |b.events| <= l.maximumEventKeysPerSpace
    && (|b.members| + |b.states| > 0 ==>
          SnapshotBytes(b.snapshotEntriesBytes, |b.members| + |b.states|) <= l.maximumSnapshotBytes)
  }

  ghost predicate Sound(b: Books, sizes: Sizes, l: Limits) {
    Recorded(b, sizes) && Balanced(b) && Tidy(b) && Within(b, l)
  }

  lemma Larger<R>(m: map<string, R>, k: string, r: R)
    ensures |m[k := r]| == |m| + if k in m then 0 else 1
  {
    if k in m {
      assert m[k := r].Keys == m.Keys;
    } else {
      assert m[k := r].Keys == m.Keys + {k};
    }
    assert |m| == |m.Keys| && |m[k := r]| == |m[k := r].Keys|;
  }

  /** The limits a member's new record has to keep, as they are checked before it is stored. */
  predicate MemberAdmissible(b: Books, l: Limits, k: string, r: MemberRecord) {
    && (k in b.members || |b.members| < l.maximumMembersPerSpace)
    && Owned(b.memberBytes, k) - BytesAt(b.members, k) + r.bytes <= l.maximumBytesPerMember
    && b.spaceBytes - BytesAt(b.members, k) + r.bytes <= l.maximumBytesPerSpace
    && SnapshotBytes(b.snapshotEntriesBytes - EntryBytesAt(b.members, k) + r.entryBytes,
                     |b.members| + |b.states| + if k in b.members then 0 else 1) <= l.maximumSnapshotBytes
  }

  lemma PutMemberTidy(b: Books, k: string, r: MemberRecord)
    requires Tidy(b)
    ensures Tidy(PutMember(b, k, r)) && Tidy(RenewMember(b, k, r))
  {
    forall o ensures OwnerTidy(PutMember(b, k, r), o) && OwnerTidy(RenewMember(b, k, r), o) { assert OwnerTidy(b, o); }
  }

  lemma PutMemberWithin(b: Books, l: Limits, k: string, r: MemberRecord)
    requires Within(b, l) && MemberAdmissible(b, l, k, r)
    ensures Within(PutMember(b, k, r), l)
  {
    Larger(b.members, k, r);
    forall o ensures OwnerWithin(PutMember(b, k, r), l, o) { assert OwnerWithin(b, l, o); }
  }

  /** A member's record is refused exactly if some limit would be exceeded with it. */
  lemma MemberAdmissibleExactly(b: Books, l: Limits, k: string, r: MemberRecord)
    requires Within(b, l)
    ensures MemberAdmissible(b, l, k, r) <==> Within(PutMember(b, k, r), l)
  {
    Larger(b.members, k, r);
    if MemberAdmissible(b, l, k, r) { PutMemberWithin(b, l, k, r); }
    assert Within(PutMember(b, k, r), l) ==> OwnerWithin(PutMember(b, k, r), l, k);
  }

  lemma PutMemberSound(b: Books, sizes: Sizes, l: Limits, k: string, r: MemberRecord)
    requires Sound(b, sizes, l) && MemberFits(sizes, k, r) && MemberAdmissible(b, l, k, r)
    ensures Sound(PutMember(b, k, r), sizes, l)
  {
    PutMemberBalances(b, k, r);
    PutMemberTidy(b, k, r);
    PutMemberWithin(b, l, k, r);
    assert Recorded(PutMember(b, k, r), sizes);
  }

  lemma RenewMemberWithin(b: Books, l: Limits, k: string, r: MemberRecord)
    requires Within(b, l) && k in b.members
    requires SnapshotBytes(b.snapshotEntriesBytes - EntryBytesAt(b.members, k) + r.entryBytes,
                           |b.members| + |b.states|) <= l.maximumSnapshotBytes
    ensures Within(RenewMember(b, k, r), l)
  {
    Larger(b.members, k, r);
    forall o ensures OwnerWithin(RenewMember(b, k, r), l, o) { assert OwnerWithin(b, l, o); }
  }

  lemma RenewMemberSound(b: Books, sizes: Sizes, l: Limits, k: string, r: MemberRecord)
    requires Sound(b, sizes, l) && MemberFits(sizes, k, r) && k in b.members && r.bytes == b.members[k].bytes
    requires SnapshotBytes(b.snapshotEntriesBytes - EntryBytesAt(b.members, k) + r.entryBytes,
                           |b.members| + |b.states|) <= l.maximumSnapshotBytes
    ensures Sound(RenewMember(b, k, r), sizes, l)
  {
    RenewMemberBalances(b, k, r);
    PutMemberTidy(b, k, r);
    RenewMemberWithin(b, l, k, r);
    assert Recorded(RenewMember(b, k, r), sizes);
  }

  lemma FewerEvents(events: map<string, EventRecord>, gone: string)
    ensures |WithoutEventsOf(events, gone)| <= |events|
  {
    SubsetSize(WithoutEventsOf(events, gone).Keys, events.Keys);
    assert |events| == |events.Keys| && |WithoutEventsOf(events, gone)| == |WithoutEventsOf(events, gone).Keys|;
  }

  lemma DropEventsWithin(b: Books, l: Limits, gone: string)
    requires Within(b, l)
    ensures Within(DropEvents(b, gone), l)
  {
    FewerEvents(b.events, gone);
    forall o ensures OwnerWithin(DropEvents(b, gone), l, o) { assert OwnerWithin(b, l, o); }
  }

  lemma DropEventsTidy(b: Books, gone: string)
    requires TidyBut(b, gone)
    ensures TidyBut(DropEvents(b, gone), gone) && (gone in b.members ==> Tidy(DropEvents(b, gone)))
  {
    forall o ensures o != gone || gone in b.members ==> OwnerTidy(DropEvents(b, gone), o) {
      assert o != gone ==> OwnerTidy(b, o);
    }
  }

  /** The events of an earlier session go before the next one begins. */
  lemma DropEventsSound(b: Books, sizes: Sizes, l: Limits, gone: string)
    requires Sound(b, sizes, l) && gone in b.members
    ensures Sound(DropEvents(b, gone), sizes, l)
  {
    DropEventsBalances(b, gone);
    DropEventsWithin(b, l, gone);
    DropEventsTidy(b, gone);
    assert Recorded(DropEvents(b, gone), sizes);
  }

  lemma CleanUpWithin(b: Books, l: Limits, gone: string)
    requires Within(b, l)
    ensures Within(CleanUp(b, gone), l)
  {
    forall o ensures OwnerWithin(CleanUp(b, gone), l, o) {
      assert OwnerWithin(b, l, o);
      CleanUpOwns(b, gone, o);
    }
  }

  lemma CleanUpTidy(b: Books, gone: string)
    requires TidyBut(b, gone)
    ensures Tidy(CleanUp(b, gone))
  {
    forall o ensures OwnerTidy(CleanUp(b, gone), o) {
      assert o != gone ==> OwnerTidy(b, o);
      CleanUpOwns(b, gone, o);
    }
  }

  lemma CleanUpSound(b: Books, sizes: Sizes, l: Limits, gone: string)
    requires Recorded(b, sizes) && Balanced(b) && TidyBut(b, gone) && Within(b, l)
    ensures Sound(CleanUp(b, gone), sizes, l)
  {
    CleanUpBalances(b, gone);
    CleanUpWithin(b, l, gone);
    CleanUpTidy(b, gone);
    CleanUpRecorded(b, sizes, gone);
  }

  lemma CleanUpRecorded(b: Books, sizes: Sizes, gone: string)
    requires Recorded(b, sizes)
    ensures Recorded(CleanUp(b, gone), sizes)
  {
    assert CleanUp(b, gone).members == b.members && CleanUp(b, gone).states == b.states;
  }

  function Leave(b: Books, k: string): Books {
    CleanUp(DropEvents(DropMember(b, k), k), k)
  }

  lemma DropMemberWithin(b: Books, l: Limits, k: string)
    requires Within(b, l) && k in b.members
    ensures Within(DropMember(b, k), l)
  {
    Smaller(b.members, k);
    forall o ensures OwnerWithin(DropMember(b, k), l, o) { assert OwnerWithin(b, l, o); }
  }

  lemma DropMemberTidy(b: Books, k: string)
    requires Tidy(b)
    ensures TidyBut(DropMember(b, k), k)
  {
    forall o | o != k ensures OwnerTidy(DropMember(b, k), o) { assert OwnerTidy(b, o); }
  }

  lemma LeaveSound(b: Books, sizes: Sizes, l: Limits, k: string)
    requires Sound(b, sizes, l) && k in b.members
    ensures Sound(Leave(b, k), sizes, l)
  {
    var t := DropMember(b, k);
    DropMemberBalances(b, k);
    DropMemberWithin(b, l, k);
    DropMemberTidy(b, k);
    DropEventsBalances(t, k);
    DropEventsWithin(t, l, k);
    DropEventsTidy(t, k);
    assert Recorded(DropEvents(t, k), sizes);
    CleanUpSound(DropEvents(t, k), sizes, l, k);
  }

  predicate StateAdmissible(b: Books, l: Limits, id: string, r: StateRecord) {
    && (id in b.states || Owned(b.memberStateKeys, Owner(r)) < l.maximumStateKeysPerMember)
    && (id in b.states || |b.states| < l.maximumStateKeysPerSpace)
    && Owned(b.memberBytes, Owner(r)) - StateBytesAt(b.states, id) + r.bytes <= l.maximumBytesPerMember
    && b.spaceBytes - StateBytesAt(b.states, id) + r.bytes <= l.maximumBytesPerSpace
    && SnapshotBytes(b.snapshotEntriesBytes - StateEntryBytesAt(b.states, id) + r.entryBytes,
                     |b.members| + |b.states| + if id in b.states then 0 else 1) <= l.maximumSnapshotBytes
  }

  lemma PutStateWithin(b: Books, l: Limits, id: string, r: StateRecord)
    requires Within(b, l) && StateAdmissible(b, l, id, r)
    ensures Within(PutState(b, id, r), l)
  {
    Larger(b.states, id, r);
    forall o ensures OwnerWithin(PutState(b, id, r), l, o) { assert OwnerWithin(b, l, o); }
  }

  /** A state is refused exactly if some limit would be exceeded with it. */
  lemma StateAdmissibleExactly(b: Books, l: Limits, id: string, r: StateRecord)
    requires Within(b, l)
    ensures StateAdmissible(b, l, id, r) <==> Within(PutState(b, id, r), l)
  {
    Larger(b.states, id, r);
    if StateAdmissible(b, l, id, r) { PutStateWithin(b, l, id, r); }
    assert Within(PutState(b, id, r), l) ==> OwnerWithin(PutState(b, id, r), l, Owner(r));
  }

  lemma PutStateTidy(b: Books, id: string, r: StateRecord)
    requires Tidy(b) && Owner(r) in b.members
    ensures Tidy(PutState(b, id, r))
  {
    forall o ensures OwnerTidy(PutState(b, id, r), o) { assert OwnerTidy(b, o); }
  }

  /** A key belongs to one member, so a state only ever replaces one of the same member. */
  lemma SameOwner(b: Books, sizes: Sizes, id: string, r: StateRecord)
    requires Recorded(b, sizes) && StateFits(sizes, id, r) && id in b.states
    ensures Owner(b.states[id]) == Owner(r) && b.states[id].entry.channel == r.entry.channel
  {
    assert StateFits(sizes, id, b.states[id]);
    var e := b.states[id].entry;
    StateKeyInjective(e.member, e.channel, e.key, r.entry.member, r.entry.channel, r.entry.key);
  }

  lemma PutStateRecorded(b: Books, sizes: Sizes, id: string, r: StateRecord)
    requires Recorded(b, sizes) && StateFits(sizes, id, r)
    ensures Recorded(PutState(b, id, r), sizes)
  {
  }

  lemma PutStateSound(b: Books, sizes: Sizes, l: Limits, id: string, r: StateRecord)
    requires Sound(b, sizes, l) && StateFits(sizes, id, r) && StateAdmissible(b, l, id, r) && Owner(r) in b.members
    ensures Sound(PutState(b, id, r), sizes, l)
  {
    if id in b.states { SameOwner(b, sizes, id, r); }
    PutStateBalances(b, id, r);
    PutStateWithin(b, l, id, r);
    PutStateTidy(b, id, r);
    PutStateRecorded(b, sizes, id, r);
  }

  function RemoveState(b: Books, id: string): Books
    requires id in b.states
  {
    CleanUp(DropState(b, id), Owner(b.states[id]))
  }

  lemma DropStateWithin(b: Books, l: Limits, id: string)
    requires Within(b, l) && id in b.states
    ensures Within(DropState(b, id), l)
  {
    Smaller(b.states, id);
    forall o ensures OwnerWithin(DropState(b, id), l, o) { DropStateOwnerWithin(b, l, id, o); }
  }

  lemma DropStateOwnerWithin(b: Books, l: Limits, id: string, o: string)
    requires Within(b, l) && id in b.states
    ensures OwnerWithin(DropState(b, id), l, o)
  {
    assert OwnerWithin(b, l, o);
  }

  lemma DropStateTidy(b: Books, id: string)
    requires Tidy(b) && id in b.states
    ensures TidyBut(DropState(b, id), Owner(b.states[id]))
  {
    forall o | o != Owner(b.states[id]) ensures OwnerTidy(DropState(b, id), o) { assert OwnerTidy(b, o); }
  }

  lemma RemoveStateSound(b: Books, sizes: Sizes, l: Limits, id: string)
    requires Sound(b, sizes, l) && id in b.states
    ensures Sound(RemoveState(b, id), sizes, l)
  {
    DropStateBalances(b, id);
    DropStateWithin(b, l, id);
    DropStateTidy(b, id);
    assert Recorded(DropState(b, id), sizes);
    CleanUpSound(DropState(b, id), sizes, l, Owner(b.states[id]));
  }

  predicate EventAdmissible(b: Books, l: Limits, id: string, r: EventRecord) {
    && (id in b.events || Owned(b.memberEventKeys, MemberKey(r.member)) < l.maximumEventKeysPerMember)
    && (id in b.events || |b.events| < l.maximumEventKeysPerSpace)
  }

  lemma PutEventWithin(b: Books, l: Limits, id: string, r: EventRecord)
    requires Within(b, l) && EventAdmissible(b, l, id, r)
    ensures Within(PutEvent(b, id, r), l)
  {
    Larger(b.events, id, r);
    forall o ensures OwnerWithin(PutEvent(b, id, r), l, o) { assert OwnerWithin(b, l, o); }
  }

  /** An event is refused exactly if some limit would be exceeded with it. */
  lemma EventAdmissibleExactly(b: Books, l: Limits, id: string, r: EventRecord)
    requires Within(b, l)
    ensures EventAdmissible(b, l, id, r) <==> Within(PutEvent(b, id, r), l)
  {
    Larger(b.events, id, r);
    if EventAdmissible(b, l, id, r) { PutEventWithin(b, l, id, r); }
    assert Within(PutEvent(b, id, r), l) ==> OwnerWithin(PutEvent(b, id, r), l, MemberKey(r.member));
  }

  lemma PutEventTidy(b: Books, id: string, r: EventRecord)
    requires Tidy(b) && MemberKey(r.member) in b.members
    ensures Tidy(PutEvent(b, id, r))
  {
    forall o ensures OwnerTidy(PutEvent(b, id, r), o) { assert OwnerTidy(b, o); }
  }

  lemma PutEventSound(b: Books, sizes: Sizes, l: Limits, id: string, r: EventRecord)
    requires Sound(b, sizes, l) && id == EventKey(r.member, r.channel) && EventAdmissible(b, l, id, r)
    requires MemberKey(r.member) in b.members
    ensures Sound(PutEvent(b, id, r), sizes, l)
  {
    if id in b.events { EventKeyInjective(b.events[id].member, b.events[id].channel, r.member, r.channel); }
    PutEventBalances(b, id, r);
    PutEventWithin(b, l, id, r);
    PutEventTidy(b, id, r);
    assert Recorded(PutEvent(b, id, r), sizes);
  }

  function ClearEvent(b: Books, id: string): Books
    requires id in b.events
  {
    CleanUp(DropEvent(b, id), MemberKey(b.events[id].member))
  }

  lemma DropEventWithin(b: Books, l: Limits, id: string)
    requires Within(b, l) && id in b.events
    ensures Within(DropEvent(b, id), l)
  {
    Smaller(b.events, id);
    forall o ensures OwnerWithin(DropEvent(b, id), l, o) { assert OwnerWithin(b, l, o); }
  }

  lemma DropEventTidy(b: Books, id: string)
    requires Tidy(b) && id in b.events
    ensures TidyBut(DropEvent(b, id), MemberKey(b.events[id].member))
  {
    forall o | o != MemberKey(b.events[id].member) ensures OwnerTidy(DropEvent(b, id), o) { assert OwnerTidy(b, o); }
  }

  lemma ClearEventSound(b: Books, sizes: Sizes, l: Limits, id: string)
    requires Sound(b, sizes, l) && id in b.events
    ensures Sound(ClearEvent(b, id), sizes, l)
  {
    DropEventBalances(b, id);
    DropEventWithin(b, l, id);
    DropEventTidy(b, id);
    assert Recorded(DropEvent(b, id), sizes);
    CleanUpSound(DropEvent(b, id), sizes, l, MemberKey(b.events[id].member));
  }
}
