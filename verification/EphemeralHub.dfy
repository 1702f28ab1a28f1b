/**
 One ephemeral space of the hub. Every operation runs under the space's gate, keeps the counters in
 step with the tables, and publishes one message for every revision.
 */
module EphemeralHub {
  import opened Basics
  import opened EphemeralKeys
  import opened EphemeralView
  import opened EphemeralBooks

  datatype Failure = SessionUnavailable | CapacityExceeded

  datatype Result<T> = Ok(value: T) | Err(failure: Failure)

  datatype Started = Started(token: nat, sessionToken: nat, snapshot: Snapshot)

  datatype Lifetimes = Lifetimes(member: nat, event: nat, state: nat)

  function Min(a: nat, b: nat): nat {
    if a < b then a else b
  }

  // ---------------------------------------------------------------- what clients are to see

  function MemberEntries(members: map<string, MemberRecord>): map<string, MemberEntry> {
    map k | k in members :: members[k].entry
  }

  function StateEntries(states: map<string, StateRecord>): map<string, StateEntry> {
    map id | id in states :: states[id].entry
  }

  function HubView(b: Books): View {
    Grouped(MemberEntries(b.members), StateEntries(b.states))
  }

  lemma UpsertSeen(b: Books, k: string, r: MemberRecord)
    requires k == MemberKey(r.entry.member)
    ensures Reduce(HubView(b), MemberUpserted(r.entry)) == HubView(b.(members := b.members[k := r]))
  {
    assert MemberEntries(b.members[k := r]) == MemberEntries(b.members)[k := r.entry];
  }

  /** The view has the entry of every member, and of every state under its channel. */
  lemma ViewIsTables(b: Books)
    ensures forall k :: k in HubView(b).members <==> k in b.members
    ensures forall k :: k in b.members ==> HubView(b).members[k] == b.members[k].entry
    ensures forall id, c :: id in Channel(HubView(b), c) <==> id in b.states && b.states[id].entry.channel == c
    ensures forall id :: id in b.states ==>
              Channel(HubView(b), b.states[id].entry.channel)[id] == b.states[id].entry
  {
    forall c { GroupedChannel(MemberEntries(b.members), StateEntries(b.states), c); }
  }

  lemma LeaveSeen(b: Books, m: Member)
    ensures Reduce(HubView(b), MemberLeft(m)) == HubView(b.(members := b.members - {MemberKey(m)}))
  {
    assert MemberEntries(b.members - {MemberKey(m)}) == MemberEntries(b.members) - {MemberKey(m)};
  }

  lemma StateSeen(b: Books, sizes: Sizes, id: string, r: StateRecord)
    requires Recorded(b, sizes) && StateFits(sizes, id, r)
    ensures Reduce(HubView(b), StateSet(r.entry)) == HubView(b.(states := b.states[id := r]))
  {
    if id in b.states { SameOwner(b, sizes, id, r); }
    assert StateEntries(b.states[id := r]) == StateEntries(b.states)[id := r.entry];
    SetIsReduced(MemberEntries(b.members), StateEntries(b.states), r.entry, id);
  }

  lemma RemovalSeen(b: Books, sizes: Sizes, id: string)
    requires Recorded(b, sizes) && id in b.states
    ensures var e := b.states[id].entry;
            Reduce(HubView(b), StateRemoved(e.member, e.channel, e.key)) == HubView(b.(states := b.states - {id}))
  {
    var e := b.states[id].entry;
    assert StateFits(sizes, id, b.states[id]);
    assert StateEntries(b.states - {id}) == StateEntries(b.states) - {id};
    RemoveIsReduced(MemberEntries(b.members), StateEntries(b.states), e.member, e.channel, e.key, id);
  }

  /** Messages that a client's view ignores. */
  predicate Unseen(d: Delta) {
    d.Event? || d.EventCleared?
  }

  lemma {:induction false} UnseenMessages(v: View, log: seq<Message>, more: seq<Message>)
    requires forall i :: 0 <= i < |more| ==> Unseen(more[i].delta)
    ensures ReduceAll(v, log + more) == ReduceAll(v, log)
    decreases |more|
  {
    if more == [] {
      assert log + more == log;
    } else {
      assert (log + more)[..|log + more| - 1] == log + more[..|more| - 1];
      UnseenMessages(v, log, more[..|more| - 1]);
    }
  }

  lemma SeenLast(v: View, log: seq<Message>, m: Message)
    ensures ReduceAll(v, log + [m]) == Reduce(ReduceAll(v, log), m.delta)
  {
    assert (log + [m])[..|log + [m]| - 1] == log;
  }

  // ---------------------------------------------------------------- a space at rest

  datatype Aspect = CountersSound | RevisionsCount | MessagesTell

  ghost predicate Holds(b: Books, log: seq<Message>, sizes: Sizes, l: Limits, aspect: Aspect) {
    match aspect
    case CountersSound => Sound(b, sizes, l)
    case RevisionsCount => Numbered(log)
    case MessagesTell => ReduceAll(Empty(), log) == HubView(b)
  }

  /** The counters agree with the tables and keep the limits; the messages so far tell the whole state. */
  ghost predicate Good(b: Books, log: seq<Message>, sizes: Sizes, l: Limits) {
    forall aspect :: Holds(b, log, sizes, l, aspect)
  }

  lemma GoodMeans(b: Books, log: seq<Message>, sizes: Sizes, l: Limits)
    ensures Good(b, log, sizes, l) <==> Sound(b, sizes, l) && Numbered(log) && ReduceAll(Empty(), log) == HubView(b)
  {
    assert Good(b, log, sizes, l) ==>
             Holds(b, log, sizes, l, CountersSound) && Holds(b, log, sizes, l, RevisionsCount)
             && Holds(b, log, sizes, l, MessagesTell);
  }

  function Numbering(log: seq<Message>, d: Delta): seq<Message> {
    log + [Message(|log| + 1, d)]
  }

  lemma NumberedOn(log: seq<Message>, d: Delta)
    requires Numbered(log)
    ensures Numbered(Numbering(log, d)) && ReduceAll(Empty(), Numbering(log, d)) == Reduce(ReduceAll(Empty(), log), d)
  {
    SeenLast(Empty(), log, Message(|log| + 1, d));
  }

  predicate NothingRecorded(b: Books) {
    && b.members == map[] && b.states == map[] && b.events == map[] && b.spaceBytes == b.snapshotEntriesBytes == 0
    && b.memberBytes == map[] && b.memberStateKeys == map[] && b.memberEventKeys == map[]
  }

  lemma EmptyGood(b: Books, log: seq<Message>, sizes: Sizes, l: Limits)
    requires NothingRecorded(b) && log == []
    ensures Good(b, log, sizes, l)
  {
    SumZero(MemberBytes(b.members));
    SumZero(MemberEntryBytes(b.members));
    SumZero(StateBytes(b.states));
    SumZero(StateEntryBytes(b.states));
    forall a ensures AccountBalanced(b, a) {
      if a.Some? {
        SumZero(OwnerBytes(b.states, a.value));
        SumZero(OwnerStates(b.states, a.value));
        SumZero(OwnerEvents(b.events, a.value));
      }
    }
    assert HubView(b) == Empty();
    GoodMeans(b, log, sizes, l);
  }

  lemma LeaveGood(b: Books, log: seq<Message>, sizes: Sizes, l: Limits, m: Member)
    requires Good(b, log, sizes, l) && MemberKey(m) in b.members
    ensures Good(Leave(b, MemberKey(m)), Numbering(log, MemberLeft(m)), sizes, l)
  {
    GoodMeans(b, log, sizes, l);
    LeaveSound(b, sizes, l, MemberKey(m));
    LeaveSeen(b, m);
    NumberedOn(log, MemberLeft(m));
    GoodMeans(Leave(b, MemberKey(m)), Numbering(log, MemberLeft(m)), sizes, l);
  }

  lemma PutMemberGood(b: Books, log: seq<Message>, sizes: Sizes, l: Limits, k: string, r: MemberRecord)
    requires Good(b, log, sizes, l) && MemberFits(sizes, k, r) && MemberAdmissible(b, l, k, r)
    ensures Good(PutMember(b, k, r), Numbering(log, MemberUpserted(r.entry)), sizes, l)
  {
    GoodMeans(b, log, sizes, l);
    PutMemberSound(b, sizes, l, k, r);
    UpsertSeen(b, k, r);
    NumberedOn(log, MemberUpserted(r.entry));
    GoodMeans(PutMember(b, k, r), Numbering(log, MemberUpserted(r.entry)), sizes, l);
  }

  lemma RenewMemberGood(b: Books, log: seq<Message>, sizes: Sizes, l: Limits, k: string, r: MemberRecord)
    requires Good(b, log, sizes, l) && MemberFits(sizes, k, r) && k in b.members && r.bytes == b.members[k].bytes
    requires SnapshotBytes(b.snapshotEntriesBytes - EntryBytesAt(b.members, k) + r.entryBytes,
                           |b.members| + |b.states|) <= l.maximumSnapshotBytes
    ensures Good(RenewMember(b, k, r), Numbering(log, MemberUpserted(r.entry)), sizes, l)
  {
    GoodMeans(b, log, sizes, l);
    RenewMemberSound(b, sizes, l, k, r);
    UpsertSeen(b, k, r);
    NumberedOn(log, MemberUpserted(r.entry));
    GoodMeans(RenewMember(b, k, r), Numbering(log, MemberUpserted(r.entry)), sizes, l);
  }

  lemma DropEventsGood(b: Books, log: seq<Message>, more: seq<Message>, sizes: Sizes, l: Limits, k: string)
    requires Good(b, log, sizes, l) && k in b.members
    requires Numbered(log + more) && forall i :: 0 <= i < |more| ==> Unseen(more[i].delta)
    ensures Good(DropEvents(b, k), log + more, sizes, l)
  {
    GoodMeans(b, log, sizes, l);
    DropEventsSound(b, sizes, l, k);
    UnseenMessages(Empty(), log, more);
    GoodMeans(DropEvents(b, k), log + more, sizes, l);
  }

  lemma PutStateGood(b: Books, log: seq<Message>, sizes: Sizes, l: Limits, id: string, r: StateRecord)
    requires Good(b, log, sizes, l) && StateFits(sizes, id, r) && StateAdmissible(b, l, id, r) && Owner(r) in b.members
    ensures Good(PutState(b, id, r), Numbering(log, StateSet(r.entry)), sizes, l)
  {
    GoodMeans(b, log, sizes, l);
    PutStateSound(b, sizes, l, id, r);
    StateSeen(b, sizes, id, r);
    NumberedOn(log, StateSet(r.entry));
    GoodMeans(PutState(b, id, r), Numbering(log, StateSet(r.entry)), sizes, l);
  }

  lemma RemoveStateGood(b: Books, log: seq<Message>, sizes: Sizes, l: Limits, id: string)
    requires Good(b, log, sizes, l) && id in b.states
    ensures var e := b.states[id].entry;
            Good(RemoveState(b, id), Numbering(log, StateRemoved(e.member, e.channel, e.key)), sizes, l)
  {
    GoodMeans(b, log, sizes, l);
    var e := b.states[id].entry;
    RemoveStateSound(b, sizes, l, id);
    RemovalSeen(b, sizes, id);
    NumberedOn(log, StateRemoved(e.member, e.channel, e.key));
    GoodMeans(RemoveState(b, id), Numbering(log, StateRemoved(e.member, e.channel, e.key)), sizes, l);
  }

  /** A message that no view shows goes with books of the same members and states. */
  lemma UnseenGood(a: Books, b: Books, log: seq<Message>, sizes: Sizes, l: Limits, d: Delta)
    requires Good(a, log, sizes, l) && Sound(b, sizes, l) && Unseen(d)
    requires b.members == a.members && b.states == a.states
    ensures Good(b, Numbering(log, d), sizes, l)
  {
    GoodMeans(a, log, sizes, l);
    NumberedOn(log, d);
    assert HubView(b) == HubView(a);
    GoodMeans(b, Numbering(log, d), sizes, l);
  }

  lemma PutEventGood(b: Books, log: seq<Message>, sizes: Sizes, l: Limits, id: string, r: EventRecord, d: Delta)
    requires Good(b, log, sizes, l) && id == EventKey(r.member, r.channel) && EventAdmissible(b, l, id, r)
    requires MemberKey(r.member) in b.members && Unseen(d)
    ensures Good(PutEvent(b, id, r), Numbering(log, d), sizes, l)
  {
    GoodMeans(b, log, sizes, l);
    PutEventSound(b, sizes, l, id, r);
    UnseenGood(b, PutEvent(b, id, r), log, sizes, l, d);
  }

  lemma ClearEventSpares(b: Books, id: string)
    requires id in b.events
    ensures ClearEvent(b, id).members == b.members && ClearEvent(b, id).states == b.states
  {}

  lemma ClearEventGood(b: Books, log: seq<Message>, sizes: Sizes, l: Limits, id: string, d: Delta)
    requires Good(b, log, sizes, l) && id in b.events && Unseen(d)
    ensures Good(ClearEvent(b, id), Numbering(log, d), sizes, l)
  {
    GoodMeans(b, log, sizes, l);
    ClearEventSound(b, sizes, l, id);
    ClearEventSpares(b, id);
    UnseenGood(b, ClearEvent(b, id), log, sizes, l, d);
  }

  // ---------------------------------------------------------------- operations

  datatype Config = Config(limits: Limits, sizes: Sizes, lifetimes: Lifetimes)

  datatype Space = Space(books: Books, log: seq<Message>, nextToken: nat)

  datatype Operation =
    | Join(m: Member, value: int, ttl: nat, now: nat)
    | UpdateMember(m: Member, session: nat, value: int)
    | Heartbeat(m: Member, session: nat, now: nat)
    | RemoveMember(m: Member, token: nat)
    | SetState(m: Member, session: nat, channel: string, key: string, value: int, ttl: nat, now: nat)
    | DeleteState(m: Member, channel: string, key: string, ifToken: Option<nat>, ifSession: Option<nat>)
    | PublishEvent(m: Member, session: nat, channel: string, value: int, ttl: nat, now: nat)
    | CancelEvent(m: Member, channel: string, ifToken: Option<nat>, ifSession: Option<nat>)

  predicate HasSession(b: Books, m: Member, session: nat) {
    MemberKey(m) in b.members && b.members[MemberKey(m)].sessionToken == session
  }

  function JoinRecord(c: Config, m: Member, value: int, ttl: nat, now: nat, token: nat): MemberRecord {
    var lease := Min(ttl, c.lifetimes.member);
    var entry := MemberEntry(m, value, now + lease);
    MemberRecord(entry, c.sizes.value(value), c.sizes.member(entry), token, token, lease)
  }

  function UpdatedRecord(c: Config, r: MemberRecord, value: int): MemberRecord {
    var entry := r.entry.(value := value);
    r.(entry := entry, bytes := c.sizes.value(value), entryBytes := c.sizes.member(entry))
  }

  function RenewedRecord(c: Config, r: MemberRecord, now: nat): MemberRecord {
    var entry := r.entry.(expiresAtMillis := now + r.leaseMillis);
    r.(entry := entry, entryBytes := c.sizes.member(entry))
  }

  predicate RenewalFits(c: Config, b: Books, k: string, r: MemberRecord) {
    SnapshotBytes(b.snapshotEntriesBytes - EntryBytesAt(b.members, k) + r.entryBytes, |b.members| + |b.states|)
    <= c.limits.maximumSnapshotBytes
  }

  /** A heartbeat is refused exactly if the snapshot would grow too large with it. */
  lemma RenewalFitsExactly(c: Config, b: Books, k: string, r: MemberRecord)
    requires Within(b, c.limits) && k in b.members
    ensures RenewalFits(c, b, k, r) <==> Within(RenewMember(b, k, r), c.limits)
  {
    Larger(b.members, k, r);
    forall o ensures OwnerWithin(RenewMember(b, k, r), c.limits, o) { assert OwnerWithin(b, c.limits, o); }
    assert k in RenewMember(b, k, r).members;
  }

  function NewState(c: Config, m: Member, channel: string, key: string, value: int, ttl: nat, now: nat, token: nat)
    : StateRecord
  {
    var entry := StateEntry(m, channel, key, value, now + Min(ttl, c.lifetimes.state));
    StateRecord(entry, c.sizes.value(value), c.sizes.state(entry), token)
  }

  function NewEvent(c: Config, m: Member, channel: string, value: int, ttl: nat, now: nat): EventEntry {
    EventEntry(m, channel, value, now + Min(ttl, c.lifetimes.event))
  }

  function EventsOf(events: map<string, EventRecord>, k: string): set<string> {
    set id | id in events && MemberKey(events[id].member) == k
  }

  /** Every id of the set once, in some order. */
  ghost predicate Orders(order: seq<string>, ids: set<string>) {
    (forall id :: id in order <==> id in ids) && forall i, j :: 0 <= i < j < |order| ==> order[i] != order[j]
  }

  /** One cleared message for each of the events, in this order. */
  function Clears(events: map<string, EventRecord>, m: Member, start: nat, order: seq<string>): seq<Message>
    requires forall id :: id in order ==> id in events
  {
    seq(|order|, i requires 0 <= i < |order| => Message(start + i + 1, EventCleared(m, events[order[i]].channel)))
  }

  /** A new session; if it replaces one, it clears that one's events before. */
  function JoinedInOrder(s: Space, r: MemberRecord, order: seq<string>): Space
    requires forall id :: id in order ==> id in s.books.events
  {
    var m, k := r.entry.member, MemberKey(r.entry.member);
    var books := if k in s.books.members then DropEvents(s.books, k) else s.books;
    Space(PutMember(books, k, r),
          Numbering(s.log + Clears(s.books.events, m, |s.log|, order), MemberUpserted(r.entry)), s.nextToken + 1)
  }

  /** What goes with a session that is replaced: its events, each with a message of its own. */
  function Replaced(b: Books, k: string): set<string> {
    if k in b.members then EventsOf(b.events, k) else {}
  }

  ghost predicate Joined(s: Space, t: Space, r: MemberRecord) {
    exists order :: Orders(order, Replaced(s.books, MemberKey(r.entry.member))) && t == JoinedInOrder(s, r, order)
  }

  predicate Permitted(s: Space, m: Member, session: Option<nat>) {
    session.None? || HasSession(s.books, m, session.value)
  }

  /** What an operation does; one that fails or finds nothing to do leaves the space as it was. */
  ghost predicate Step(c: Config, s: Space, op: Operation, t: Space) {
    var b, k := s.books, MemberKey(op.m);
    match op
    case Join(m, value, ttl, now) =>
      var r := JoinRecord(c, m, value, ttl, now, s.nextToken);
      if MemberAdmissible(b, c.limits, k, r) then Joined(s, t, r) else t == s
    case UpdateMember(m, session, value) =>
      if !HasSession(b, m, session) then t == s
      else
        var r := UpdatedRecord(c, b.members[k], value);
        t == if MemberAdmissible(b, c.limits, k, r)
             then s.(books := PutMember(b, k, r), log := Numbering(s.log, MemberUpserted(r.entry))) else s
    case Heartbeat(m, session, now) =>
      if !HasSession(b, m, session) then t == s
      else
        var r := RenewedRecord(c, b.members[k], now);
        t == if RenewalFits(c, b, k, r)
             then s.(books := RenewMember(b, k, r), log := Numbering(s.log, MemberUpserted(r.entry))) else s
    case RemoveMember(m, token) =>
      t == if k in b.members && b.members[k].token == token
           then s.(books := Leave(b, k), log := Numbering(s.log, MemberLeft(m))) else s
    case SetState(m, session, channel, key, value, ttl, now) =>
      var id, r := StateKey(m, channel, key), NewState(c, m, channel, key, value, ttl, now, s.nextToken);
      t == if HasSession(b, m, session) && StateAdmissible(b, c.limits, id, r)
           then Space(PutState(b, id, r), Numbering(s.log, StateSet(r.entry)), s.nextToken + 1) else s
    case DeleteState(m, channel, key, token, session) =>
      var id := StateKey(m, channel, key);
      t == if Permitted(s, m, session) && id in b.states && (token.None? || b.states[id].token == token.value)
           then s.(books := RemoveState(b, id), log := Numbering(s.log, StateRemoved(m, channel, key))) else s
    case PublishEvent(m, session, channel, value, ttl, now) =>
      var id, r := EventKey(m, channel), EventRecord(m, channel, s.nextToken);
      t == if HasSession(b, m, session) && EventAdmissible(b, c.limits, id, r)
           then Space(PutEvent(b, id, r), Numbering(s.log, Event(NewEvent(c, m, channel, value, ttl, now))),
                       s.nextToken + 1)
           else s
    case CancelEvent(m, channel, token, session) =>
      var id := EventKey(m, channel);
      t == if Permitted(s, m, session) && id in b.events && (token.None? || b.events[id].token == token.value)
           then s.(books := ClearEvent(b, id), log := Numbering(s.log, EventCleared(m, channel))) else s
  }

  ghost predicate GoodSpace(c: Config, s: Space) {
    Good(s.books, s.log, c.sizes, c.limits)
  }

  lemma AdmissibleAgain(b: Books, l: Limits, k: string, r: MemberRecord)
    requires MemberAdmissible(b, l, k, r)
    ensures MemberAdmissible(DropEvents(b, k), l, k, r)
  {
  }

  lemma ClearsNumbered(log: seq<Message>, events: map<string, EventRecord>, m: Member, order: seq<string>)
    requires Numbered(log) && forall id :: id in order ==> id in events
    ensures Numbered(log + Clears(events, m, |log|, order))
    ensures forall i :: 0 <= i < |order| ==> Unseen(Clears(events, m, |log|, order)[i].delta)
  {
  }

  lemma RejoinKeepsGood(c: Config, s: Space, r: MemberRecord, order: seq<string>)
    requires GoodSpace(c, s) && MemberKey(r.entry.member) in s.books.members
    requires MemberFits(c.sizes, MemberKey(r.entry.member), r)
    requires MemberAdmissible(s.books, c.limits, MemberKey(r.entry.member), r)
    requires forall id :: id in order ==> id in s.books.events
    ensures GoodSpace(c, JoinedInOrder(s, r, order))
  {
    var k := MemberKey(r.entry.member);
    var more := Clears(s.books.events, r.entry.member, |s.log|, order);
    GoodMeans(s.books, s.log, c.sizes, c.limits);
    ClearsNumbered(s.log, s.books.events, r.entry.member, order);
    DropEventsGood(s.books, s.log, more, c.sizes, c.limits, k);
    AdmissibleAgain(s.books, c.limits, k, r);
    PutMemberGood(DropEvents(s.books, k), s.log + more, c.sizes, c.limits, k, r);
  }

  lemma FirstIsIn(order: seq<string>)
    ensures order == [] || order[0] in order
  {
  }

  lemma JoinedForTheFirstTime(s: Space, r: MemberRecord, order: seq<string>)
    requires MemberKey(r.entry.member) !in s.books.members && Orders(order, {})
    ensures var k := MemberKey(r.entry.member);
            JoinedInOrder(s, r, order)
            == Space(PutMember(s.books, k, r), Numbering(s.log, MemberUpserted(r.entry)), s.nextToken + 1)
  {
    FirstIsIn(order);
    assert s.log + [] == s.log;
  }

  lemma JoinKeepsGood(c: Config, s: Space, r: MemberRecord, t: Space)
    requires GoodSpace(c, s) && Joined(s, t, r)
    requires var k := MemberKey(r.entry.member); MemberFits(c.sizes, k, r) && MemberAdmissible(s.books, c.limits, k, r)
    ensures GoodSpace(c, t)
  {
    var k := MemberKey(r.entry.member);
    var order :| Orders(order, Replaced(s.books, k)) && t == JoinedInOrder(s, r, order);
    if k in s.books.members {
      RejoinKeepsGood(c, s, r, order);
    } else {
      JoinedForTheFirstTime(s, r, order);
      PutMemberGood(s.books, s.log, c.sizes, c.limits, k, r);
    }
  }

  lemma MemberStepKeepsGood(c: Config, s: Space, op: Operation, t: Space)
    requires GoodSpace(c, s) && Step(c, s, op, t) && (op.UpdateMember? || op.Heartbeat?) && t != s
    ensures GoodSpace(c, t)
  {
    GoodMeans(s.books, s.log, c.sizes, c.limits);
    var b, k := s.books, MemberKey(op.m);
    assert MemberFits(c.sizes, k, b.members[k]);
    if op.UpdateMember? {
      PutMemberGood(b, s.log, c.sizes, c.limits, k, UpdatedRecord(c, b.members[k], op.value));
    } else {
      RenewMemberGood(b, s.log, c.sizes, c.limits, k, RenewedRecord(c, b.members[k], op.now));
    }
  }

  lemma StateStepKeepsGood(c: Config, s: Space, op: Operation, t: Space)
    requires GoodSpace(c, s) && Step(c, s, op, t) && (op.SetState? || op.DeleteState?) && t != s
    ensures GoodSpace(c, t)
  {
    GoodMeans(s.books, s.log, c.sizes, c.limits);
    var b, id := s.books, StateKey(op.m, op.channel, op.key);
    if op.SetState? {
      PutStateGood(b, s.log, c.sizes, c.limits, id,
                   NewState(c, op.m, op.channel, op.key, op.value, op.ttl, op.now, s.nextToken));
    } else {
      RemoveStateGood(b, s.log, c.sizes, c.limits, id);
      var e := b.states[id].entry;
      assert StateFits(c.sizes, id, b.states[id]);
      StateKeyInjective(e.member, e.channel, e.key, op.m, op.channel, op.key);
    }
  }

  lemma EventStepKeepsGood(c: Config, s: Space, op: Operation, t: Space)
    requires GoodSpace(c, s) && Step(c, s, op, t) && (op.PublishEvent? || op.CancelEvent?) && t != s
    ensures GoodSpace(c, t)
  {
    GoodMeans(s.books, s.log, c.sizes, c.limits);
    var b, id := s.books, EventKey(op.m, op.channel);
    if op.PublishEvent? {
      PutEventGood(b, s.log, c.sizes, c.limits, id, EventRecord(op.m, op.channel, s.nextToken),
                   Event(NewEvent(c, op.m, op.channel, op.value, op.ttl, op.now)));
    } else {
      ClearEventGood(b, s.log, c.sizes, c.limits, id, EventCleared(op.m, op.channel));
    }
  }

  /** Every operation keeps the counters right, the limits, and the messages a full account. */
  lemma StepKeepsGood(c: Config, s: Space, op: Operation, t: Space)
    requires GoodSpace(c, s) && Step(c, s, op, t)
    ensures GoodSpace(c, t)
  {
    if t != s {
      match op {
        case Join(m, value, ttl, now) => JoinKeepsGood(c, s, JoinRecord(c, m, value, ttl, now, s.nextToken), t);
        case RemoveMember(m, token) => LeaveGood(s.books, s.log, c.sizes, c.limits, m);
        case UpdateMember(_, _, _) => MemberStepKeepsGood(c, s, op, t);
        case Heartbeat(_, _, _) => MemberStepKeepsGood(c, s, op, t);
        case SetState(_, _, _, _, _, _, _) => StateStepKeepsGood(c, s, op, t);
        case DeleteState(_, _, _, _, _) => StateStepKeepsGood(c, s, op, t);
        case PublishEvent(_, _, _, _, _, _) => EventStepKeepsGood(c, s, op, t);
        case CancelEvent(_, _, _, _) => EventStepKeepsGood(c, s, op, t);
      }
    }
  }

  // ---------------------------------------------------------------- snapshots

  /** The snapshot has the entries of all members and all states, and no others. */
  ghost predicate Lists(snapshot: Snapshot, b: Books) {
    && (forall e :: e in snapshot.members <==> e in MemberEntries(b.members).Values)
    && (forall e :: e in snapshot.states <==> e in StateEntries(b.states).Values)
  }

  lemma {:induction false} FromMembersHolds(entries: seq<MemberEntry>)
    ensures var m := FromMembers(entries);
            && (forall e :: e in entries ==> MemberKey(e.member) in m)
            && (forall k :: k in m ==> m[k] in entries && k == MemberKey(m[k].member))
    decreases |entries|
  {
    if entries != [] {
      var front, last := entries[..|entries| - 1], entries[|entries| - 1];
      assert entries == front + [last];
      FromMembersHolds(front);
    }
  }

  lemma {:induction false} FromStatesHolds(entries: seq<StateEntry>)
    ensures var m := FromStates(entries);
            && (forall e :: e in entries ==> KeyOf(e) in m)
            && (forall k :: k in m ==> m[k] in entries && k == KeyOf(m[k]))
    decreases |entries|
  {
    if entries != [] {
      var front, last := entries[..|entries| - 1], entries[|entries| - 1];
      assert entries == front + [last];
      FromStatesHolds(front);
    }
  }

  lemma ListedMembers(entries: seq<MemberEntry>, members: map<string, MemberEntry>)
    requires forall k :: k in members ==> k == MemberKey(members[k].member)
    requires forall e :: e in entries <==> e in members.Values
    ensures FromMembers(entries) == members
  {
    FromMembersHolds(entries);
    forall k | k in members ensures k in FromMembers(entries) { assert members[k] in entries; }
    forall k | k in FromMembers(entries) ensures k in members && members[k] == FromMembers(entries)[k] {
      var e := FromMembers(entries)[k];
      assert e in members.Values;
      var j :| j in members && members[j] == e;
    }
  }

  lemma ListedStates(entries: seq<StateEntry>, states: map<string, StateEntry>)
    requires WellKeyed(states)
    requires forall e :: e in entries <==> e in states.Values
    ensures FromStates(entries) == states
  {
    FromStatesHolds(entries);
    forall k | k in states ensures k in FromStates(entries) { assert states[k] in entries; }
    forall k | k in FromStates(entries) ensures k in states && states[k] == FromStates(entries)[k] {
      var e := FromStates(entries)[k];
      assert e in states.Values;
      var j :| j in states && states[j] == e;
    }
  }

  /** A client that takes over such a snapshot sees what the hub sees. */
  lemma SnapshotShowsHub(snapshot: Snapshot, b: Books, sizes: Sizes)
    requires Recorded(b, sizes) && Lists(snapshot, b)
    ensures SnapshotView(snapshot) == HubView(b)
  {
    SnapshotIsGrouped(snapshot);
    forall k | k in b.members ensures MemberFits(sizes, k, b.members[k]) {}
    ListedMembers(snapshot.members, MemberEntries(b.members));
    forall id | id in b.states ensures StateFits(sizes, id, b.states[id]) {}
    ListedStates(snapshot.states, StateEntries(b.states));
  }

  // ---------------------------------------------------------------- runs

  /** A run of a space from its creation: the state before each operation, and the last one. */
  ghost predicate Steps(c: Config, states: seq<Space>, ops: seq<Operation>) {
    |states| == |ops| + 1 && forall i {:trigger ops[i]} :: 0 <= i < |ops| ==> Step(c, states[i], ops[i], states[i + 1])
  }

  ghost predicate Run(c: Config, states: seq<Space>, ops: seq<Operation>) {
    Steps(c, states, ops) && NothingRecorded(states[0].books) && states[0].log == []
  }

  lemma StartsGood(c: Config, s: Space)
    requires NothingRecorded(s.books) && s.log == []
    ensures GoodSpace(c, s)
  {
    EmptyGood(s.books, s.log, c.sizes, c.limits);
  }

  lemma NextKeepsGood(c: Config, states: seq<Space>, ops: seq<Operation>, n: nat)
    requires Steps(c, states, ops) && 0 < n < |states| && GoodSpace(c, states[n - 1])
    ensures GoodSpace(c, states[n])
  {
    StepKeepsGood(c, states[n - 1], ops[n - 1], states[n]);
  }

  lemma {:induction false} StepsKeepGood(c: Config, states: seq<Space>, ops: seq<Operation>, n: nat)
    requires Steps(c, states, ops) && n < |states| && GoodSpace(c, states[0])
    ensures GoodSpace(c, states[n])
    decreases n
  {
    if n > 0 {
      StepsKeepGood(c, states, ops, n - 1);
      NextKeepsGood(c, states, ops, n);
    }
  }

  /** In every state of a run the tables and counters are sound and the messages tell all. */
  lemma RunKeepsGood(c: Config, states: seq<Space>, ops: seq<Operation>, n: nat)
    requires Run(c, states, ops) && n < |states|
    ensures GoodSpace(c, states[n])
  {
    StartsGood(c, states[0]);
    StepsKeepGood(c, states, ops, n);
  }

  lemma RunViews(c: Config, states: seq<Space>, ops: seq<Operation>, n: nat)
    requires Run(c, states, ops) && n < |states|
    ensures Numbered(states[n].log) && ReduceAll(Empty(), states[n].log) == HubView(states[n].books)
    ensures Recorded(states[n].books, c.sizes)
  {
    RunKeepsGood(c, states, ops, n);
    GoodMeans(states[n].books, states[n].log, c.sizes, c.limits);
  }

  /** Messages are only ever added, at least one for every change of the tables. */
  lemma StepPublishes(c: Config, s: Space, op: Operation, t: Space)
    requires Step(c, s, op, t)
    ensures s.log <= t.log && (t.books != s.books ==> |s.log| < |t.log|)
  {
    if op.Join? && t != s {
      var r := JoinRecord(c, op.m, op.value, op.ttl, op.now, s.nextToken);
      var order :| Orders(order, Replaced(s.books, MemberKey(op.m))) && t == JoinedInOrder(s, r, order);
    }
  }

  /** Only the last message of an operation moves the view. */
  lemma WithinStep(c: Config, s: Space, op: Operation, t: Space, revision: nat)
    requires Step(c, s, op, t) && |s.log| <= revision < |t.log|
    ensures ReduceAll(Empty(), t.log[..revision]) == ReduceAll(Empty(), s.log)
  {
    if op.Join? {
      var r := JoinRecord(c, op.m, op.value, op.ttl, op.now, s.nextToken);
      var order :| Orders(order, Replaced(s.books, MemberKey(op.m))) && t == JoinedInOrder(s, r, order);
      WithinRejoin(s, r, order, revision);
    } else {
      StepPublishes(c, s, op, t);
      assert t.log[..revision] == s.log;
    }
  }

  lemma WithinRejoin(s: Space, r: MemberRecord, order: seq<string>, revision: nat)
    requires forall id :: id in order ==> id in s.books.events
    requires |s.log| <= revision <= |s.log| + |order|
    ensures ReduceAll(Empty(), JoinedInOrder(s, r, order).log[..revision]) == ReduceAll(Empty(), s.log)
  {
    var more := Clears(s.books.events, r.entry.member, |s.log|, order)[..revision - |s.log|];
    assert JoinedInOrder(s, r, order).log[..revision] == s.log + more;
    UnseenMessages(Empty(), s.log, more);
  }

  lemma {:induction false} LogGrows(c: Config, states: seq<Space>, ops: seq<Operation>, i: nat, j: nat)
    requires Steps(c, states, ops) && i <= j < |states|
    ensures states[i].log <= states[j].log
    decreases j - i
  {
    if i < j {
      StepPublishes(c, states[i], ops[i], states[i + 1]);
      LogGrows(c, states, ops, i + 1, j);
    }
  }

  /** The state that a revision shows: the one with this revision, or the one before a step that passes it. */
  ghost predicate ShownAt(states: seq<Space>, n: nat, revision: nat) {
    n < |states|
    && (revision == |states[n].log|
        || (n + 1 < |states| && |states[n].log| < revision < |states[n + 1].log|))
  }

  /** Every revision between those of two states shows one of the states between them. */
  lemma {:induction false} RevisionIsShown(c: Config, states: seq<Space>, ops: seq<Operation>, joined: nat, last: nat,
                                           revision: nat) returns (n: nat)
    requires Steps(c, states, ops) && joined <= last < |states|
    requires |states[joined].log| <= revision <= |states[last].log|
    ensures joined <= n <= last && ShownAt(states, n, revision)
    decreases last
  {
    n := last;
    if revision < |states[last].log| {
      StepPublishes(c, states[last - 1], ops[last - 1], states[last]);
      if revision < |states[last - 1].log| {
        n := RevisionIsShown(c, states, ops, joined, last - 1, revision);
      } else {
        n := last - 1;
      }
    }
  }

  /** The messages up to any revision tell the state that it shows. */
  lemma ShownView(c: Config, states: seq<Space>, ops: seq<Operation>, n: nat, last: nat, revision: nat)
    requires Run(c, states, ops) && ShownAt(states, n, revision) && n <= last < |states|
    requires revision <= |states[last].log|
    ensures ReduceAll(Empty(), states[last].log[..revision]) == HubView(states[n].books)
  {
    RunViews(c, states, ops, n);
    LogGrows(c, states, ops, n, last);
    if revision == |states[n].log| {
      assert states[last].log[..revision] == states[n].log;
    } else {
      assert n < last;
      LogGrows(c, states, ops, n + 1, last);
      WithinStep(c, states[n], ops[n], states[n + 1], revision);
      assert states[last].log[..revision] == states[n + 1].log[..revision];
    }
  }

  /**
   A client joins in one state of a run and later receives any of the messages published since, some
   of them dropped. Its view is then the hub's own view in the state that the last revision it was
   handed shows, even between the messages of one operation.
   */
  lemma ClientFollowsHub(c: Config, states: seq<Space>, ops: seq<Operation>, joined: nat, last: nat, later: nat,
                         snapshot: Snapshot, received: seq<Message>)
    requires Run(c, states, ops) && joined <= last < |states| && later <= last
    requires Lists(snapshot, states[joined].books) && snapshot.revision == |states[joined].log|
    requires Published(states[last].log, received)
    requires ShownAt(states, later, snapshot.revision + |Delivered(received, snapshot.revision)|)
    ensures ReduceAll(SnapshotView(snapshot), Delivered(received, snapshot.revision)) == HubView(states[later].books)
  {
    var revision := snapshot.revision + |Delivered(received, snapshot.revision)|;
    JoinedView(c, states, ops, joined, last, snapshot);
    DeliveredWithin(states[last].log, snapshot.revision, received);
    ShownView(c, states, ops, later, last, revision);
    DeliveredView(states[last].log, snapshot.revision, revision, received, SnapshotView(snapshot),
                  HubView(states[later].books));
  }

  lemma DeliveredWithin(log: seq<Message>, start: nat, received: seq<Message>)
    requires Numbered(log) && start <= |log| && Published(log, received)
    ensures start + |Delivered(received, start)| <= |log|
  {
    ClientSeesTheHub(log, start, received);
  }

  lemma DeliveredView(log: seq<Message>, start: nat, revision: nat, received: seq<Message>, v: View, shown: View)
    requires Numbered(log) && Published(log, received)
    requires start <= revision <= |log| && revision == start + |Delivered(received, start)|
    requires v == ReduceAll(Empty(), log[..start]) && shown == ReduceAll(Empty(), log[..revision])
    ensures ReduceAll(v, Delivered(received, start)) == shown
  {
    ClientFollowsLog(log, log[..start], log[..revision], received);
  }

  /** A snapshot is what the messages up to its revision tell. */
  lemma JoinedView(c: Config, states: seq<Space>, ops: seq<Operation>, joined: nat, last: nat, snapshot: Snapshot)
    requires Run(c, states, ops) && joined <= last < |states|
    requires Lists(snapshot, states[joined].books) && snapshot.revision == |states[joined].log|
    ensures Numbered(states[last].log) && snapshot.revision <= |states[last].log|
    ensures SnapshotView(snapshot) == ReduceAll(Empty(), states[last].log[..snapshot.revision])
  {
    RunViews(c, states, ops, joined);
    RunViews(c, states, ops, last);
    LogGrows(c, states, ops, joined, last);
    SnapshotShowsHub(snapshot, states[joined].books, c.sizes);
    assert states[last].log[..snapshot.revision] == states[joined].log;
  }

  /** So its view is at every moment one that the hub had since the client joined. */
  lemma ClientIsNeverAstray(c: Config, states: seq<Space>, ops: seq<Operation>, joined: nat, last: nat,
                            snapshot: Snapshot, received: seq<Message>) returns (later: nat)
    requires Run(c, states, ops) && joined <= last < |states|
    requires Lists(snapshot, states[joined].books) && snapshot.revision == |states[joined].log|
    requires Published(states[last].log, received)
    ensures joined <= later <= last
    ensures ReduceAll(SnapshotView(snapshot), Delivered(received, snapshot.revision)) == HubView(states[later].books)
  {
    RunViews(c, states, ops, last);
    LogGrows(c, states, ops, joined, last);
    DeliveredWithin(states[last].log, snapshot.revision, received);
    later := RevisionIsShown(c, states, ops, joined, last,
                             snapshot.revision + |Delivered(received, snapshot.revision)|);
    ClientFollowsHub(c, states, ops, joined, last, later, snapshot, received);
  }

  /** In every state of a run the counters are the sums over the tables and no limit is exceeded. */
  lemma AccountsAreExact(c: Config, states: seq<Space>, ops: seq<Operation>, n: nat)
    requires Run(c, states, ops) && n < |states|
    ensures Balanced(states[n].books) && Within(states[n].books, c.limits) && Tidy(states[n].books)
  {
    RunKeepsGood(c, states, ops, n);
    GoodMeans(states[n].books, states[n].log, c.sizes, c.limits);
  }

  /** What an earlier session left behind, an expiry or a token, cannot touch the session after it. */
  lemma EarlierSessionsAreOver(c: Config, s: Space, op: Operation, t: Space, token: nat, u: Space)
    requires op.Join? && Step(c, s, op, t) && t != s && token < s.nextToken
    ensures Step(c, t, RemoveMember(op.m, token), u) ==> u == t
    ensures !HasSession(t.books, op.m, token) && HasSession(t.books, op.m, s.nextToken)
  {
    var r := JoinRecord(c, op.m, op.value, op.ttl, op.now, s.nextToken);
    var order :| Orders(order, Replaced(s.books, MemberKey(op.m))) && t == JoinedInOrder(s, r, order);
  }

  // ---------------------------------------------------------------- the space as the hub keeps it

  /** Nothing but the entry at the key is different. */
  ghost predicate OnlyAt<R>(before: map<string, R>, key: string, after: map<string, R>) {
    key in after && after.Keys == before.Keys + {key} && forall k :: k in before && k != key ==> after[k] == before[k]
  }

  /** The last message has the last revision. */
  ghost predicate Said(log: seq<Message>, d: Delta) {
    log != [] && log[|log| - 1] == Message(|log|, d)
  }

  /**
   A member has joined: its record with fresh tokens and the capped lease, the message of it last, and
   the events of a session it replaces gone.
   */
  ghost predicate IsJoined(c: Config, s: Space, op: Operation, t: Space)
    requires op.Join?
  {
    var k, lease := MemberKey(op.m), if op.ttl < c.lifetimes.member then op.ttl else c.lifetimes.member;
    && OnlyAt(s.books.members, k, t.books.members) && t.books.states == s.books.states
    && var r := t.books.members[k];
       && r.entry == MemberEntry(op.m, op.value, op.now + lease) && r.leaseMillis == lease
       && r.token == r.sessionToken == s.nextToken && t.nextToken == s.nextToken + 1
       && Said(t.log, MemberUpserted(r.entry))
       && (forall id :: id in t.books.events <==>
             id in s.books.events && (k in s.books.members ==> MemberKey(s.books.events[id].member) != k))
  }

  lemma JoinJoins(c: Config, s: Space, op: Operation, t: Space)
    requires op.Join? && Step(c, s, op, t) && t != s
    ensures IsJoined(c, s, op, t)
  {
    var r := JoinRecord(c, op.m, op.value, op.ttl, op.now, s.nextToken);
    var order :| Orders(order, Replaced(s.books, MemberKey(op.m))) && t == JoinedInOrder(s, r, order);
  }

  /** A state is set: one entry with one message, and nothing else but the counters. */
  ghost predicate StateIsSet(c: Config, s: Space, op: Operation, t: Space)
    requires op.SetState?
  {
    var id, k := StateKey(op.m, op.channel, op.key), MemberKey(op.m);
    var lease := if op.ttl < c.lifetimes.state then op.ttl else c.lifetimes.state;
    && k in s.books.members && s.books.members[k].sessionToken == op.session
    && OnlyAt(s.books.states, id, t.books.states)
    && t.books.members == s.books.members && t.books.events == s.books.events
    && t.books.states[id].entry == StateEntry(op.m, op.channel, op.key, op.value, op.now + lease)
    && t.books.states[id].token == s.nextToken && t.nextToken == s.nextToken + 1
    && Said(t.log, StateSet(t.books.states[id].entry))
  }

  lemma SetStateSets(c: Config, s: Space, op: Operation, t: Space)
    requires op.SetState? && Step(c, s, op, t) && t != s
    ensures StateIsSet(c, s, op, t)
  {}

  /** An event is published: one record with one message, and nothing else but the counters. */
  ghost predicate EventIsOut(c: Config, s: Space, op: Operation, t: Space)
    requires op.PublishEvent?
  {
    var id, k := EventKey(op.m, op.channel), MemberKey(op.m);
    var lease := if op.ttl < c.lifetimes.event then op.ttl else c.lifetimes.event;
    && k in s.books.members && s.books.members[k].sessionToken == op.session
    && OnlyAt(s.books.events, id, t.books.events)
    && t.books.members == s.books.members && t.books.states == s.books.states
    && t.books.events[id] == EventRecord(op.m, op.channel, s.nextToken) && t.nextToken == s.nextToken + 1
    && Said(t.log, Event(EventEntry(op.m, op.channel, op.value, op.now + lease)))
  }

  lemma PublishEventPublishes(c: Config, s: Space, op: Operation, t: Space)
    requires op.PublishEvent? && Step(c, s, op, t) && t != s
    ensures EventIsOut(c, s, op, t)
  {}

  class SpaceRuntime {
    const config: Config
    var members: map<string, MemberRecord>
    var states: map<string, StateRecord>
    var events: map<string, EventRecord>
    var memberBytes: map<string, int>
    var memberStateKeys: map<string, int>
    var memberEventKeys: map<string, int>
    var spaceBytes: int
    var snapshotEntriesBytes: int
    var revision: nat
    /** Tokens are handed out in order, so a new one differs from all before it. */
    var nextToken: nat
    /** Everything that was ever published. */
    ghost var log: seq<Message>

    function Accounts(): Books
      reads this
    {
      Books(members, states, events, memberBytes, memberStateKeys, memberEventKeys, spaceBytes, snapshotEntriesBytes)
    }

    ghost function Current(): Space
      reads this
    {
      Space(Accounts(), log, nextToken)
    }

    /** One message was published for every revision. */
    ghost predicate Counted()
      reads this
    {
      |log| == revision
    }

    constructor (config: Config)
      ensures this.config == config && Counted() && NothingRecorded(Accounts()) && log == []
    {
      this.config := config;
      members, states, events := map[], map[], map[];
      memberBytes, memberStateKeys, memberEventKeys := map[], map[], map[];
      spaceBytes, snapshotEntriesBytes, revision, nextToken, log := 0, 0, 0, 0, [];
    }

    method PublishDelta(d: Delta)
      requires Counted()
      modifies `revision, `log
      ensures log == Numbering(old(log), d) && Counted()
    {
      revision := revision + 1;
      log := log + [Message(revision, d)];
    }

    method EnsureSession(m: Member, session: nat) returns (ok: bool)
      ensures ok == HasSession(Accounts(), m, session)
    {
      var k := MemberKey(m);
      ok := k in members && members[k].sessionToken == session;
    }

    method EnsureSnapshotSize(entriesBytes: int, entries: int) returns (ok: bool)
      ensures ok <==> SnapshotBytes(entriesBytes, entries) <= config.limits.maximumSnapshotBytes
    {
      ok := SNAPSHOT_BASE_BYTES + entriesBytes + (if entries - 1 > 0 then entries - 1 else 0)
            <= config.limits.maximumSnapshotBytes;
    }

    method CleanupOwnerAccounting(o: string)
      modifies `memberBytes, `memberStateKeys, `memberEventKeys
      ensures Accounts() == CleanUp(old(Accounts()), o)
    {
      if o in members || Owned(memberBytes, o) != 0 || Owned(memberStateKeys, o) != 0
         || Owned(memberEventKeys, o) != 0
      {
        return;
      }
      memberBytes, memberStateKeys, memberEventKeys := memberBytes - {o}, memberStateKeys - {o}, memberEventKeys - {o};
    }

    method StoreMember(k: string, r: MemberRecord)
      modifies `members, `memberBytes, `spaceBytes, `snapshotEntriesBytes
      ensures Accounts() == PutMember(old(Accounts()), k, r)
    {
      var bytes := if k in members then members[k].bytes else 0;
      var entryBytes := if k in members then members[k].entryBytes else 0;
      memberBytes := memberBytes[k := Owned(memberBytes, k) - bytes + r.bytes];
      spaceBytes := spaceBytes - bytes + r.bytes;
      snapshotEntriesBytes := snapshotEntriesBytes - entryBytes + r.entryBytes;
      members := members[k := r];
    }

    /** The checks before a member's record is stored, in their order. */
    method CheckMember(k: string, r: MemberRecord) returns (ok: bool)
      ensures ok <==> MemberAdmissible(Accounts(), config.limits, k, r)
    {
      var bytes := if k in members then members[k].bytes else 0;
      var entryBytes := if k in members then members[k].entryBytes else 0;
      if k !in members && |members| >= config.limits.maximumMembersPerSpace { return false; }
      if Owned(memberBytes, k) - bytes + r.bytes > config.limits.maximumBytesPerMember { return false; }
      if spaceBytes - bytes + r.bytes > config.limits.maximumBytesPerSpace { return false; }
      var entries := |members| + |states| + if k in members then 0 else 1;
      ok := EnsureSnapshotSize(snapshotEntriesBytes - entryBytes + r.entryBytes, entries);
    }

    method ClearOne(id: string, m: Member)
      requires Counted() && id in events
      modifies `events, `revision, `log
      ensures Counted() && events == old(events) - {id}
      ensures log == Numbering(old(log), EventCleared(m, old(events)[id].channel))
    {
      var channel := events[id].channel;
      events := events - {id};
      PublishDelta(EventCleared(m, channel));
    }

    method ClearAll(all: set<string>, m: Member) returns (ghost order: seq<string>)
      requires Counted() && all <= events.Keys
      modifies `events, `revision, `log
      ensures Counted() && events == old(events) - all && Orders(order, all)
      ensures log == old(log) + Clears(old(events), m, |old(log)|, order)
    {
      var left := all;
      order := [];
      assert old(log) + [] == log;
      while left != {}
        invariant Counted() && left <= all && events == old(events) - (all - left) && Orders(order, all - left)
        invariant log == old(log) + Clears(old(events), m, |old(log)|, order)
        decreases left
      {
        var id :| id in left;
        ClearOne(id, m);
        ClearsOn(old(log), old(events), m, order, id);
        OrdersOn(order, all - left, id);
        assert all - (left - {id}) == all - left + {id};
        order, left := order + [id], left - {id};
      }
      assert all - left == all;
    }

    /** Removes the events of a session that is replaced, and says so. */
    method ClearEventsOf(k: string, m: Member) returns (ghost order: seq<string>)
      requires Counted()
      modifies `events, `memberEventKeys, `revision, `log
      ensures Counted() && Accounts() == DropEvents(old(Accounts()), k) && Orders(order, EventsOf(old(events), k))
      ensures log == old(log) + Clears(old(events), m, |old(log)|, order)
    {
      var all := set id | id in events && MemberKey(events[id].member) == k;
      EventsGone(events, k);
      order := ClearAll(all, m);
      memberEventKeys := memberEventKeys[k := 0];
    }

    /** The entries of all members and states, in any order. */
    method TakeSnapshot() returns (snapshot: Snapshot)
      ensures snapshot.revision == revision && Lists(snapshot, Accounts())
    {
      var ms := ListMembers();
      var ss := ListStates();
      snapshot := Snapshot(revision, ms, ss);
    }

    method ListMembers() returns (entries: seq<MemberEntry>)
      ensures forall e :: e in entries <==> e in MemberEntries(members).Values
    {
      entries := [];
      var left := members.Keys;
      while left != {}
        invariant left <= members.Keys
        invariant forall e :: e in entries <==> exists k :: k in members && k !in left && members[k].entry == e
        decreases left
      {
        var k :| k in left;
        entries, left := entries + [members[k].entry], left - {k};
      }
      forall k | k in members ensures members[k].entry in MemberEntries(members).Values {
        assert MemberEntries(members)[k] == members[k].entry;
      }
    }

    method ListStates() returns (entries: seq<StateEntry>)
      ensures forall e :: e in entries <==> e in StateEntries(states).Values
    {
      entries := [];
      var left := states.Keys;
      while left != {}
        invariant left <= states.Keys
        invariant forall e :: e in entries <==> exists id :: id in states && id !in left && states[id].entry == e
        decreases left
      {
        var id :| id in left;
        entries, left := entries + [states[id].entry], left - {id};
      }
      forall id | id in states ensures states[id].entry in StateEntries(states).Values {
        assert StateEntries(states)[id] == states[id].entry;
      }
    }

    /** Stores the new session, after what went with the one it replaces. */
    method Begin(k: string, r: MemberRecord) returns (ghost order: seq<string>)
      requires Counted() && k == MemberKey(r.entry.member)
      modifies this
      ensures Counted() && Orders(order, Replaced(old(Accounts()), k))
      ensures Current() == JoinedInOrder(old(Current()), r, order)
    {
      order := [];
      assert log + [] == log;
      if k in members { order := ClearEventsOf(k, r.entry.member); }
      StoreMember(k, r);
      nextToken := nextToken + 1;
      PublishDelta(MemberUpserted(r.entry));
    }

    /** A member joins, or starts another session in place of its last one. */
    method Join(m: Member, value: int, ttl: nat, now: nat) returns (started: Option<Started>)
      requires Counted()
      modifies this
      ensures Counted() && Step(config, old(Current()), Operation.Join(m, value, ttl, now), Current())
      ensures started.Some? ==>
                && started.value.sessionToken == old(nextToken) && started.value.snapshot.revision == |log|
                && Lists(started.value.snapshot, Accounts())
      ensures started.None? ==> Current() == old(Current())
      ensures started.Some? ==>
                && started.value.token == old(nextToken)
                && IsJoined(config, old(Current()), Operation.Join(m, value, ttl, now), Current())
    {
      ghost var s := Current();
      var k, r := MemberKey(m), JoinRecord(config, m, value, ttl, now, nextToken);
      var ok := CheckMember(k, r);
      if !ok { return None; }
      ghost var order := Begin(k, r);
      JoinJoins(config, s, Operation.Join(m, value, ttl, now), Current());
      var snapshot := TakeSnapshot();
      started := Some(Started(r.token, r.sessionToken, snapshot));
    }

    method UpdateMember(m: Member, session: nat, value: int) returns (ok: bool)
      requires Counted()
      modifies `members, `memberBytes, `spaceBytes, `snapshotEntriesBytes, `revision, `log
      ensures Counted() && Step(config, old(Current()), Operation.UpdateMember(m, session, value), Current())
      ensures ok <==> |old(log)| < |log|
      ensures !ok ==> Current() == old(Current())
      ensures ok ==>
                var k := MemberKey(m);
                && k in old(members) && old(members)[k].sessionToken == session && OnlyAt(old(members), k, members)
                && members[k].entry.value == value && members[k].entry.member == old(members)[k].entry.member
                && members[k].entry.expiresAtMillis == old(members)[k].entry.expiresAtMillis
                && members[k].token == old(members)[k].token && members[k].sessionToken == session
                && members[k].leaseMillis == old(members)[k].leaseMillis
                && Said(log, MemberUpserted(members[k].entry))
    {
      ok := EnsureSession(m, session);
      if !ok { return; }
      var k := MemberKey(m);
      var r := UpdatedRecord(config, members[k], value);
      ok := CheckMember(k, r);
      if !ok { return; }
      StoreMember(k, r);
      PublishDelta(MemberUpserted(r.entry));
    }

    method Heartbeat(m: Member, session: nat, now: nat) returns (ok: bool)
      requires Counted()
      modifies `members, `snapshotEntriesBytes, `revision, `log
      ensures Counted() && Step(config, old(Current()), Operation.Heartbeat(m, session, now), Current())
      ensures ok <==> |old(log)| < |log|
      ensures !ok ==> Current() == old(Current())
      ensures ok ==>
                var k := MemberKey(m);
                && k in old(members) && old(members)[k].sessionToken == session && OnlyAt(old(members), k, members)
                && members[k].entry.expiresAtMillis == now + old(members)[k].leaseMillis
                && members[k].entry.value == old(members)[k].entry.value
                && members[k].entry.member == old(members)[k].entry.member
                && members[k].token == old(members)[k].token && members[k].sessionToken == session
                && members[k].leaseMillis == old(members)[k].leaseMillis
                && Said(log, MemberUpserted(members[k].entry))
    {
      ok := EnsureSession(m, session);
      if !ok { return; }
      var k := MemberKey(m);
      var r := RenewedRecord(config, members[k], now);
      var next := snapshotEntriesBytes + r.entryBytes - members[k].entryBytes;
      ok := EnsureSnapshotSize(next, |members| + |states|);
      if !ok { return; }
      snapshotEntriesBytes, members := next, members[k := r];
      PublishDelta(MemberUpserted(r.entry));
    }

    method ForgetMember(k: string)
      requires k in members
      modifies `members, `memberBytes, `spaceBytes, `snapshotEntriesBytes
      ensures Accounts() == DropMember(old(Accounts()), k)
    {
      var r := members[k];
      members := members - {k};
      spaceBytes := spaceBytes - r.bytes;
      snapshotEntriesBytes := snapshotEntriesBytes - r.entryBytes;
      memberBytes := memberBytes[k := Owned(memberBytes, k) - r.bytes];
    }

    method Depart(k: string)
      requires k in members
      modifies `members, `events, `memberBytes, `memberStateKeys, `memberEventKeys, `spaceBytes, `snapshotEntriesBytes
      ensures Accounts() == Leave(old(Accounts()), k)
    {
      ForgetMember(k);
      events, memberEventKeys := WithoutEventsOf(events, k), memberEventKeys[k := 0];
      CleanupOwnerAccounting(k);
    }

    /** A session ends: by itself, by its stream, or by its expiry. */
    method RemoveMember(m: Member, token: nat)
      requires Counted()
      modifies this
      ensures Counted() && Step(config, old(Current()), Operation.RemoveMember(m, token), Current())
      ensures var k := MemberKey(m);
              if k in old(members) && old(members)[k].token == token
              then && members == old(members) - {k} && states == old(states) && Said(log, MemberLeft(m))
                   && (forall id :: id in events <==> id in old(events) && MemberKey(old(events)[id].member) != k)
                   && |log| == |old(log)| + 1
              else Current() == old(Current())
    {
      var k := MemberKey(m);
      if k !in members || members[k].token != token { return; }
      Depart(k);
      PublishDelta(MemberLeft(m));
    }

    method CheckState(id: string, r: StateRecord) returns (ok: bool)
      ensures ok <==> StateAdmissible(Accounts(), config.limits, id, r)
    {
      var owner := Owner(r);
      var bytes := if id in states then states[id].bytes else 0;
      var entryBytes := if id in states then states[id].entryBytes else 0;
      if id !in states && Owned(memberStateKeys, owner) >= config.limits.maximumStateKeysPerMember { return false; }
      if id !in states && |states| >= config.limits.maximumStateKeysPerSpace { return false; }
      if Owned(memberBytes, owner) - bytes + r.bytes > config.limits.maximumBytesPerMember { return false; }
      if spaceBytes - bytes + r.bytes > config.limits.maximumBytesPerSpace { return false; }
      var entries := |members| + |states| + if id in states then 0 else 1;
      ok := EnsureSnapshotSize(snapshotEntriesBytes - entryBytes + r.entryBytes, entries);
    }

    method ChargeState(owner: string, bytes: int, keys: int)
      modifies `memberBytes, `memberStateKeys
      ensures memberBytes == old(memberBytes)[owner := Owned(old(memberBytes), owner) + bytes]
      ensures memberStateKeys == old(memberStateKeys)[owner := Owned(old(memberStateKeys), owner) + keys]
    {
      memberBytes := memberBytes[owner := Owned(memberBytes, owner) + bytes];
      memberStateKeys := memberStateKeys[owner := Owned(memberStateKeys, owner) + keys];
    }

    method StoreState(id: string, r: StateRecord)
      modifies `states, `memberBytes, `memberStateKeys, `spaceBytes, `snapshotEntriesBytes
      ensures Accounts() == PutState(old(Accounts()), id, r)
    {
      var bytes := if id in states then states[id].bytes else 0;
      var entryBytes := if id in states then states[id].entryBytes else 0;
      ChargeState(Owner(r), r.bytes - bytes, if id in states then 0 else 1);
      spaceBytes := spaceBytes - bytes + r.bytes;
      snapshotEntriesBytes := snapshotEntriesBytes - entryBytes + r.entryBytes;
      states := states[id := r];
    }

    method SetState(m: Member, session: nat, channel: string, key: string, value: int, ttl: nat, now: nat)
      returns (ok: bool)
      requires Counted()
      modifies this
      ensures Counted()
      ensures Step(config, old(Current()), Operation.SetState(m, session, channel, key, value, ttl, now), Current())
      ensures ok <==> |old(log)| < |log|
      ensures !ok ==> Current() == old(Current())
      ensures ok ==>
                StateIsSet(config, old(Current()), Operation.SetState(m, session, channel, key, value, ttl, now),
                           Current())
    {
      ghost var s := Current();
      ok := EnsureSession(m, session);
      if !ok { return; }
      var id, r := StateKey(m, channel, key), NewState(config, m, channel, key, value, ttl, now, nextToken);
      ok := CheckState(id, r);
      if !ok { return; }
      StoreState(id, r);
      nextToken := nextToken + 1;
      PublishDelta(StateSet(r.entry));
      SetStateSets(config, s, Operation.SetState(m, session, channel, key, value, ttl, now), Current());
    }

    method ForgetState(id: string)
      requires id in states
      modifies `states, `memberBytes, `memberStateKeys, `spaceBytes, `snapshotEntriesBytes
      ensures Accounts() == DropState(old(Accounts()), id)
    {
      var r := states[id];
      var owner := Owner(r);
      states := states - {id};
      spaceBytes := spaceBytes - r.bytes;
      snapshotEntriesBytes := snapshotEntriesBytes - r.entryBytes;
      memberBytes := memberBytes[owner := Owned(memberBytes, owner) - r.bytes];
      memberStateKeys := memberStateKeys[owner := Owned(memberStateKeys, owner) - 1];
    }

    method ReleaseState(id: string)
      requires id in states
      modifies `states, `memberBytes, `memberStateKeys, `memberEventKeys, `spaceBytes, `snapshotEntriesBytes
      ensures Accounts() == EphemeralBooks.RemoveState(old(Accounts()), id)
    {
      var owner := Owner(states[id]);
      ForgetState(id);
      CleanupOwnerAccounting(owner);
    }

    /** A state is removed by its member, or by its own expiry and no other. */
    method RemoveState(m: Member, channel: string, key: string, token: Option<nat>, session: Option<nat>)
      requires Counted()
      modifies this
      ensures Counted()
      ensures Step(config, old(Current()), DeleteState(m, channel, key, token, session), Current())
      ensures var id, k := StateKey(m, channel, key), MemberKey(m);
              if && (session.Some? ==> k in old(members) && old(members)[k].sessionToken == session.value)
                 && id in old(states) && (token.Some? ==> old(states)[id].token == token.value)
              then && states == old(states) - {id} && members == old(members) && events == old(events)
                   && Said(log, StateRemoved(m, channel, key)) && |log| == |old(log)| + 1
              else Current() == old(Current())
    {
      if session.Some? {
        var ok := EnsureSession(m, session.value);
        if !ok { return; }
      }
      var id := StateKey(m, channel, key);
      if id !in states || (token.Some? && states[id].token != token.value) { return; }
      ReleaseState(id);
      PublishDelta(StateRemoved(m, channel, key));
    }

    method StoreEvent(id: string, r: EventRecord) returns (ok: bool)
      modifies `events, `memberEventKeys
      ensures ok <==> EventAdmissible(old(Accounts()), config.limits, id, r)
      ensures Accounts() == if ok then PutEvent(old(Accounts()), id, r) else old(Accounts())
    {
      var owner := MemberKey(r.member);
      if id !in events && Owned(memberEventKeys, owner) >= config.limits.maximumEventKeysPerMember { return false; }
      if id !in events && |events| >= config.limits.maximumEventKeysPerSpace { return false; }
      memberEventKeys := memberEventKeys[owner := Owned(memberEventKeys, owner) + if id in events then 0 else 1];
      events := events[id := r];
      ok := true;
    }

    method PublishEvent(m: Member, session: nat, channel: string, value: int, ttl: nat, now: nat) returns (ok: bool)
      requires Counted()
      modifies this
      ensures Counted()
      ensures Step(config, old(Current()), Operation.PublishEvent(m, session, channel, value, ttl, now), Current())
      ensures ok <==> |old(log)| < |log|
      ensures !ok ==> Current() == old(Current())
      ensures ok ==>
                EventIsOut(config, old(Current()), Operation.PublishEvent(m, session, channel, value, ttl, now),
                           Current())
    {
      ghost var s := Current();
      ok := EnsureSession(m, session);
      if !ok { return; }
      var id, r := EventKey(m, channel), EventRecord(m, channel, nextToken);
      ok := StoreEvent(id, r);
      if !ok { return; }
      nextToken := nextToken + 1;
      PublishDelta(Event(NewEvent(config, m, channel, value, ttl, now)));
      PublishEventPublishes(config, s, Operation.PublishEvent(m, session, channel, value, ttl, now), Current());
    }

    method ForgetEvent(id: string)
      requires id in events
      modifies `events, `memberBytes, `memberStateKeys, `memberEventKeys
      ensures Accounts() == EphemeralBooks.ClearEvent(old(Accounts()), id)
    {
      var owner := MemberKey(events[id].member);
      events := events - {id};
      memberEventKeys := memberEventKeys[owner := Owned(memberEventKeys, owner) - 1];
      CleanupOwnerAccounting(owner);
    }

    /** An event is cleared by its member, or by its own expiry and no other. */
    method ClearEvent(m: Member, channel: string, token: Option<nat>, session: Option<nat>)
      requires Counted()
      modifies this
      ensures Counted() && Step(config, old(Current()), CancelEvent(m, channel, token, session), Current())
      ensures var id, k := EventKey(m, channel), MemberKey(m);
              if && (session.Some? ==> k in old(members) && old(members)[k].sessionToken == session.value)
                 && id in old(events) && (token.Some? ==> old(events)[id].token == token.value)
              then && events == old(events) - {id} && members == old(members) && states == old(states)
                   && Said(log, EventCleared(m, channel)) && |log| == |old(log)| + 1
              else Current() == old(Current())
    {
      if session.Some? {
        var ok := EnsureSession(m, session.value);
        if !ok { return; }
      }
      var id := EventKey(m, channel);
      if id !in events || (token.Some? && events[id].token != token.value) { return; }
      ForgetEvent(id);
      PublishDelta(EventCleared(m, channel));
    }
  }

  lemma EventsGone(events: map<string, EventRecord>, k: string)
    ensures events - EventsOf(events, k) == WithoutEventsOf(events, k)
  {
  }

  lemma ClearsOn(log: seq<Message>, events: map<string, EventRecord>, m: Member, order: seq<string>, id: string)
    requires id in events && forall x :: x in order ==> x in events
    ensures Numbering(log + Clears(events, m, |log|, order), EventCleared(m, events[id].channel))
            == log + Clears(events, m, |log|, order + [id])
  {
    assert Clears(events, m, |log|, order + [id])
           == Clears(events, m, |log|, order) + [Message(|log| + |order| + 1, EventCleared(m, events[id].channel))];
  }

  lemma OrdersOn(order: seq<string>, ids: set<string>, id: string)
    requires Orders(order, ids) && id !in ids
    ensures Orders(order + [id], ids + {id})
  {
    forall i | 0 <= i < |order| ensures order[i] != id { assert order[i] in order; }
  }
}
