/**
 What a client of an ephemeral space sees: a snapshot, and then messages over a channel that may
 drop any of them. The client stops at the first gap, so what it has seen is always a state that the
 hub was in.
 */
module EphemeralView {
  import opened EphemeralKeys

  datatype MemberEntry = MemberEntry(member: Member, value: int, expiresAtMillis: nat)

  datatype StateEntry = StateEntry(member: Member, channel: string, key: string, value: int, expiresAtMillis: nat)

  datatype EventEntry = EventEntry(member: Member, channel: string, value: int, expiresAtMillis: nat)

  datatype Delta =
    | MemberUpserted(member: MemberEntry)
    | MemberLeft(left: Member)
    | StateSet(state: StateEntry)
    | StateRemoved(owner: Member, channel: string, key: string)
    | Event(event: EventEntry)
    | EventCleared(owner: Member, channel: string)

  datatype Message = Message(revision: nat, delta: Delta)

  datatype Snapshot = Snapshot(revision: nat, members: seq<MemberEntry>, states: seq<StateEntry>)

  /** The client keeps states by channel, and no channel without states. */
  datatype View = View(members: map<string, MemberEntry>, channels: map<string, map<string, StateEntry>>)

  function KeyOf(e: StateEntry): string {
    StateKey(e.member, e.channel, e.key)
  }

  function Channel(v: View, channel: string): map<string, StateEntry> {
    if channel in v.channels then v.channels[channel] else map[]
  }

  function WithChannel(v: View, channel: string, entries: map<string, StateEntry>): View {
    if entries == map[] then v.(channels := v.channels - {channel}) else v.(channels := v.channels[channel := entries])
  }

  /** One message; events leave no trace in the view. */
  function Reduce(v: View, d: Delta): View {
    match d
    case MemberUpserted(e) => v.(members := v.members[MemberKey(e.member) := e])
    case MemberLeft(m) => v.(members := v.members - {MemberKey(m)})
    case StateSet(e) => WithChannel(v, e.channel, Channel(v, e.channel)[KeyOf(e) := e])
    case StateRemoved(m, c, k) =>
      if c !in v.channels then v else WithChannel(v, c, v.channels[c] - {StateKey(m, c, k)})
    case Event(_) => v
    case EventCleared(_, _) => v
  }

  function ReduceAll(v: View, messages: seq<Message>): View
    decreases |messages|
  {
    if messages == [] then v
    else Reduce(ReduceAll(v, messages[..|messages| - 1]), messages[|messages| - 1].delta)
  }

  // ---------------------------------------------------------------- the hub's tables as a client keeps them

  ghost predicate WellKeyed(states: map<string, StateEntry>) {
    forall id :: id in states ==> id == KeyOf(states[id])
  }

  function OfChannel(states: map<string, StateEntry>, channel: string): map<string, StateEntry> {
    map id | id in states && states[id].channel == channel :: states[id]
  }

  function ChannelsOf(states: map<string, StateEntry>): set<string> {
    set id | id in states :: states[id].channel
  }

  /** The members, and the states grouped by channel. */
  function Grouped(members: map<string, MemberEntry>, states: map<string, StateEntry>): View {
    View(members, map c | c in ChannelsOf(states) :: OfChannel(states, c))
  }

  lemma GroupedChannel(members: map<string, MemberEntry>, states: map<string, StateEntry>, c: string)
    ensures Channel(Grouped(members, states), c) == OfChannel(states, c)
    ensures c in Grouped(members, states).channels <==> OfChannel(states, c) != map[]
  {
    if c in ChannelsOf(states) {
      var id :| id in states && states[id].channel == c;
      assert id in OfChannel(states, c);
    } else {
      forall id | id in states ensures states[id].channel != c { assert states[id].channel in ChannelsOf(states); }
      assert OfChannel(states, c) == map[];
    }
  }

  /** Two views are the same if they have the same members and the same states in every channel. */
  lemma SameView(v: View, members: map<string, MemberEntry>, states: map<string, StateEntry>)
    requires v.members == members
    requires NoEmptyChannel(v) && forall c :: Channel(v, c) == OfChannel(states, c)
    ensures v == Grouped(members, states)
  {
    var g := Grouped(members, states);
    forall c ensures (c in v.channels <==> c in g.channels) && (c in g.channels ==> v.channels[c] == g.channels[c]) {
      GroupedChannel(members, states, c);
      assert Channel(v, c) == OfChannel(states, c);
    }
    assert v.channels == g.channels;
  }

  lemma PutInChannel(states: map<string, StateEntry>, id: string, e: StateEntry, c: string)
    requires id in states ==> states[id].channel == e.channel
    ensures OfChannel(states[id := e], c)
            == if c == e.channel then OfChannel(states, c)[id := e] else OfChannel(states, c)
  {
  }

  lemma DropFromChannel(states: map<string, StateEntry>, id: string, channel: string, c: string)
    requires id in states ==> states[id].channel == channel
    ensures OfChannel(states - {id}, c) == if c == channel then OfChannel(states, c) - {id} else OfChannel(states, c)
  {
  }

  /** No channel is kept without states. */
  ghost predicate NoEmptyChannel(v: View) {
    forall c :: c in v.channels ==> v.channels[c] != map[]
  }

  lemma GroupedHasNoEmpty(members: map<string, MemberEntry>, states: map<string, StateEntry>)
    ensures NoEmptyChannel(Grouped(members, states))
  {
    forall c | c in Grouped(members, states).channels ensures Grouped(members, states).channels[c] != map[] {
      GroupedChannel(members, states, c);
    }
  }

  lemma WithChannelKeeps(v: View, channel: string, entries: map<string, StateEntry>)
    requires NoEmptyChannel(v)
    ensures NoEmptyChannel(WithChannel(v, channel, entries))
    ensures forall c :: Channel(WithChannel(v, channel, entries), c) == if c == channel then entries else Channel(v, c)
  {
  }

  /** Setting a state moves the grouped view as setting its row moves the table. */
  lemma SetIsReduced(members: map<string, MemberEntry>, states: map<string, StateEntry>, e: StateEntry, id: string)
    requires id == KeyOf(e) && (id in states ==> states[id].channel == e.channel)
    ensures Reduce(Grouped(members, states), StateSet(e)) == Grouped(members, states[id := e])
  {
    var g := Grouped(members, states);
    GroupedHasNoEmpty(members, states);
    WithChannelKeeps(g, e.channel, Channel(g, e.channel)[id := e]);
    var v := WithChannel(g, e.channel, Channel(g, e.channel)[id := e]);
    forall c ensures Channel(v, c) == OfChannel(states[id := e], c) {
      GroupedChannel(members, states, c);
      PutInChannel(states, id, e, c);
    }
    SameView(v, members, states[id := e]);
  }

  lemma RemoveIsReduced(members: map<string, MemberEntry>, states: map<string, StateEntry>, m: Member, c: string,
                        k: string, id: string)
    requires id == StateKey(m, c, k) && (id in states ==> states[id].channel == c)
    ensures Reduce(Grouped(members, states), StateRemoved(m, c, k)) == Grouped(members, states - {id})
  {
    var g := Grouped(members, states);
    GroupedHasNoEmpty(members, states);
    WithChannelKeeps(g, c, Channel(g, c) - {id});
    var v := if c in g.channels then WithChannel(g, c, Channel(g, c) - {id}) else g;
    forall d ensures Channel(v, d) == OfChannel(states - {id}, d) {
      GroupedChannel(members, states, d);
      DropFromChannel(states, id, c, d);
    }
    SameView(v, members, states - {id});
  }

  /** The key of a state determines its channel. */
  lemma KeyedChannel(states: map<string, StateEntry>, m: Member, c: string, k: string)
    requires WellKeyed(states) && StateKey(m, c, k) in states
    ensures var o := states[StateKey(m, c, k)]; o.member == m && o.channel == c && o.key == k
  {
    var o := states[StateKey(m, c, k)];
    StateKeyInjective(o.member, o.channel, o.key, m, c, k);
  }

  // ---------------------------------------------------------------- snapshots

  function FromMembers(entries: seq<MemberEntry>): map<string, MemberEntry> {
    if entries == [] then map[]
    else FromMembers(entries[..|entries| - 1])[MemberKey(entries[|entries| - 1].member) := entries[|entries| - 1]]
  }

  function FromStates(entries: seq<StateEntry>): map<string, StateEntry> {
    if entries == [] then map[]
    else FromStates(entries[..|entries| - 1])[KeyOf(entries[|entries| - 1]) := entries[|entries| - 1]]
  }

  function ForChannel(entries: seq<StateEntry>, channel: string): seq<StateEntry> {
    if entries == [] then []
    else ForChannel(entries[..|entries| - 1], channel)
         + if entries[|entries| - 1].channel == channel then [entries[|entries| - 1]] else []
  }

  function ListedChannels(entries: seq<StateEntry>): set<string> {
    set e | e in entries :: e.channel
  }

  /** The view a snapshot starts with: its states are first grouped, then keyed. */
  function SnapshotView(s: Snapshot): View {
    View(FromMembers(s.members), map c | c in ListedChannels(s.states) :: FromStates(ForChannel(s.states, c)))
  }

  lemma {:induction false} FromStatesKeyed(entries: seq<StateEntry>)
    ensures WellKeyed(FromStates(entries))
    decreases |entries|
  {
    if entries != [] { FromStatesKeyed(entries[..|entries| - 1]); }
  }

  lemma ForChannelOn(front: seq<StateEntry>, last: StateEntry, c: string)
    ensures FromStates(front + [last]) == FromStates(front)[KeyOf(last) := last]
    ensures FromStates(ForChannel(front + [last], c))
            == if last.channel == c then FromStates(ForChannel(front, c))[KeyOf(last) := last]
               else FromStates(ForChannel(front, c))
    ensures ListedChannels(front + [last]) == ListedChannels(front) + {last.channel}
  {
    assert (front + [last])[..|front + [last]| - 1] == front;
    var longer := ForChannel(front, c) + [last];
    assert longer[..|longer| - 1] == ForChannel(front, c);
    assert ForChannel(front, c) + [] == ForChannel(front, c);
    assert ForChannel(front + [last], c) == if last.channel == c then longer else ForChannel(front, c);
  }

  lemma {:induction false} ForChannelKeyed(entries: seq<StateEntry>, c: string)
    ensures FromStates(ForChannel(entries, c)) == OfChannel(FromStates(entries), c)
    ensures c in ListedChannels(entries) <==> OfChannel(FromStates(entries), c) != map[]
    decreases |entries|
  {
    if entries != [] {
      var front, last := entries[..|entries| - 1], entries[|entries| - 1];
      var id := KeyOf(last);
      assert entries == front + [last];
      ForChannelKeyed(front, c);
      ForChannelOn(front, last, c);
      FromStatesKeyed(front);
      if id in FromStates(front) { KeyedChannel(FromStates(front), last.member, last.channel, last.key); }
      PutInChannel(FromStates(front), id, last, c);
      assert last.channel == c ==> id in OfChannel(FromStates(entries), c);
    }
  }

  /** A snapshot view holds exactly the listed entries. */
  lemma SnapshotIsGrouped(s: Snapshot)
    ensures SnapshotView(s) == Grouped(FromMembers(s.members), FromStates(s.states))
  {
    forall c ensures Channel(SnapshotView(s), c) == OfChannel(FromStates(s.states), c)
             ensures c in SnapshotView(s).channels ==> SnapshotView(s).channels[c] != map[]
    {
      ForChannelKeyed(s.states, c);
    }
    SameView(SnapshotView(s), FromMembers(s.members), FromStates(s.states));
  }

  // ---------------------------------------------------------------- delivery

  /** Revisions count the messages. */
  ghost predicate Numbered(log: seq<Message>) {
    forall i :: 0 <= i < |log| ==> log[i].revision == i + 1
  }

  /** Whatever the channel drops or keeps, it only hands on messages that were published. */
  ghost predicate Published(log: seq<Message>, received: seq<Message>) {
    forall m :: m in received ==> 1 <= m.revision <= |log| && log[m.revision - 1] == m
  }

  function Newer(received: seq<Message>, revision: nat): seq<Message> {
    if received == [] then []
    else (if received[0].revision > revision then [received[0]] else []) + Newer(received[1..], revision)
  }

  /** Messages up to the first gap. */
  function UpToGap(received: seq<Message>, revision: nat): seq<Message>
    decreases |received|
  {
    if received == [] || received[0].revision != revision + 1 then []
    else [received[0]] + UpToGap(received[1..], revision + 1)
  }

  function Delivered(received: seq<Message>, revision: nat): seq<Message> {
    UpToGap(Newer(received, revision), revision)
  }

  /** Everything up to the first gap is handed on: what comes next, if anything, is not the next revision. */
  lemma {:induction false} UpToGapIsLongest(received: seq<Message>, revision: nat)
    ensures var seen := UpToGap(received, revision);
            && seen <= received
            && (forall i :: 0 <= i < |seen| ==> seen[i].revision == revision + i + 1)
            && (|seen| < |received| ==> received[|seen|].revision != revision + |seen| + 1)
    decreases |received|
  {
    if received != [] && received[0].revision == revision + 1 {
      var rest := UpToGap(received[1..], revision + 1);
      UpToGapIsLongest(received[1..], revision + 1);
      assert received == [received[0]] + received[1..];
      assert rest == received[1..][..|rest|];
      if |rest| < |received[1..]| { assert received[1..][|rest|] == received[|rest| + 1]; }
    }
  }

  lemma {:induction false} NewerSkips(log: seq<Message>, a: nat, b: nat, revision: nat)
    requires Numbered(log) && a <= revision <= b <= |log|
    ensures Newer(log[a..b], revision) == log[revision..b]
    decreases b - a
  {
    if a < b {
      assert log[a..b][1..] == log[a + 1..b] && log[a..b][0] == log[a];
      if a < revision {
        NewerSkips(log, a + 1, b, revision);
      } else {
        NewerAll(log, a, b, revision);
      }
    }
  }

  lemma {:induction false} NewerAll(log: seq<Message>, a: nat, b: nat, revision: nat)
    requires Numbered(log) && revision <= a <= b <= |log|
    ensures Newer(log[a..b], revision) == log[a..b]
    decreases b - a
  {
    if a < b {
      assert log[a..b] == [log[a]] + log[a + 1..b] && log[a..b][1..] == log[a + 1..b];
      NewerAll(log, a + 1, b, revision);
    }
  }

  /** If nothing is lost from before the client's revision on, everything newer is handed on. */
  lemma NothingIsHeldBack(log: seq<Message>, a: nat, b: nat, revision: nat)
    requires Numbered(log) && a <= revision <= b <= |log|
    ensures Delivered(log[a..b], revision) == log[revision..b]
  {
    NewerSkips(log, a, b, revision);
    assert forall i :: 0 <= i < |log[revision..b]| ==> log[revision..b][i].revision == revision + i + 1;
    UpToGapIsLongest(log[revision..b], revision);
    assert log[revision..b][..|log[revision..b]|] == log[revision..b];
  }

  lemma {:induction false} NewerPublished(log: seq<Message>, received: seq<Message>, revision: nat)
    requires Published(log, received)
    ensures Published(log, Newer(received, revision))
    decreases |received|
  {
    if received != [] { NewerPublished(log, received[1..], revision); }
  }

  lemma {:induction false} GapFree(log: seq<Message>, received: seq<Message>, revision: nat)
    requires Published(log, received) && revision <= |log|
    ensures revision + |UpToGap(received, revision)| <= |log|
    ensures UpToGap(received, revision) == log[revision..revision + |UpToGap(received, revision)|]
    decreases |received|
  {
    if received != [] && received[0].revision == revision + 1 {
      assert received[0] in received;
      GapFree(log, received[1..], revision + 1);
      var rest := UpToGap(received[1..], revision + 1);
      assert log[revision..revision + 1 + |rest|] == [log[revision]] + log[revision + 1..revision + 1 + |rest|];
    }
  }

  lemma {:induction false} ReduceSplit(v: View, a: seq<Message>, b: seq<Message>)
    ensures ReduceAll(v, a + b) == ReduceAll(ReduceAll(v, a), b)
    decreases |b|
  {
    if b == [] {
      assert a + b == a;
    } else {
      assert (a + b)[..|a + b| - 1] == a + b[..|b| - 1];
      ReduceSplit(v, a, b[..|b| - 1]);
    }
  }

  function Empty(): View {
    View(map[], map[])
  }

  /**
   A client that starts from the hub's state at some revision and reduces what it is delivered sees
   exactly the hub's state at the last delivered revision, whatever was dropped on the way.
   */
  lemma ClientSeesTheHub(log: seq<Message>, start: nat, received: seq<Message>)
    requires Numbered(log) && start <= |log| && Published(log, received)
    ensures var seen := Delivered(received, start);
            && start + |seen| <= |log|
            && (seen != [] ==> seen[|seen| - 1].revision == start + |seen|)
            && ReduceAll(ReduceAll(Empty(), log[..start]), seen) == ReduceAll(Empty(), log[..start + |seen|])
  {
    NewerPublished(log, received, start);
    GapFree(log, Newer(received, start), start);
    var seen := Delivered(received, start);
    assert log[..start + |seen|] == log[..start] + seen;
    ReduceSplit(Empty(), log[..start], seen);
  }

  /** The same for any two moments of a log that has grown since: joining, and being up to date. */
  lemma ClientFollowsLog(log: seq<Message>, joined: seq<Message>, later: seq<Message>, received: seq<Message>)
    requires Numbered(log) && joined <= log && later <= log && Published(log, received)
    requires |later| == |joined| + |Delivered(received, |joined|)|
    ensures ReduceAll(ReduceAll(Empty(), joined), Delivered(received, |joined|)) == ReduceAll(Empty(), later)
  {
    NewerPublished(log, received, |joined|);
    GapFree(log, Newer(received, |joined|), |joined|);
    FollowedBy(log, joined, later, Delivered(received, |joined|));
  }

  lemma FollowedBy(log: seq<Message>, joined: seq<Message>, later: seq<Message>, seen: seq<Message>)
    requires joined <= log && later <= log && |later| == |joined| + |seen| && seen == log[|joined|..|later|]
    ensures ReduceAll(ReduceAll(Empty(), joined), seen) == ReduceAll(Empty(), later)
  {
    assert later == joined + seen;
    ReduceSplit(Empty(), joined, seen);
  }
}
