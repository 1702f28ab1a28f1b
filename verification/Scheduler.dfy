/**
 The reconciliation manager: a work queue shared by all registered spaces, and for each space the
 flags that say whether it is queued, running, waiting to retry, paused for credentials or halted.

 A registration is told apart from later ones of the same space by its generation; what refers to a
 registration that is gone changes nothing.
 */
module Scheduler {
  import opened Basics

  datatype Work = Work(spaceId: string, generation: nat)

  datatype Managed = Managed(
    generation: nat,
    queued: bool,
    running: bool,
    retrying: bool,
    halted: bool,
    gate: Option<nat>,
    dirtyEpoch: nat,
    retryAttempt: nat)

  /** How a turn or a readmission fails. A rejected credential may come with the generation to wait for. */
  datatype Failure = Transient | Terminal | CredentialRejected(waits: bool)

  function Count(queue: seq<Work>, w: Work): nat {
    if queue == [] then 0 else (if queue[0] == w then 1 else 0) + Count(queue[1..], w)
  }

  lemma {:induction false} CountAppend(queue: seq<Work>, last: Work, w: Work)
    ensures Count(queue + [last], w) == Count(queue, w) + if last == w then 1 else 0
    decreases |queue|
  {
    if queue == [] {
      assert queue + [last] == [last] && [last][1..] == [];
    } else {
      assert (queue + [last])[1..] == queue[1..] + [last];
      CountAppend(queue[1..], last, w);
    }
  }

  lemma {:induction false} CountAbsent(queue: seq<Work>, w: Work)
    requires forall x :: x in queue ==> x.generation < w.generation
    ensures Count(queue, w) == 0
    decreases |queue|
  {
    if queue != [] {
      assert queue[0] in queue;
      CountAbsent(queue[1..], w);
    }
  }

  lemma {:induction false} CountPresent(queue: seq<Work>, w: Work)
    requires Count(queue, w) > 0
    ensures w in queue
    decreases |queue|
  {
    if queue[0] != w { CountPresent(queue[1..], w); }
  }

  /** Something will see to the space without being told. */
  predicate Busy(s: Managed) {
    s.queued || s.running || s.retrying || s.gate.Some?
  }

  /** A request moves the epoch on and ends a halt; it queues the space unless something sees to it already. */
  ghost predicate Asked(before: map<string, Managed>, w: Work, after: map<string, Managed>)
    requires w.spaceId in before
  {
    var s := before[w.spaceId];
    after == before[w.spaceId := s.(
      dirtyEpoch := s.dirtyEpoch + 1, halted := false,
      queued := s.queued || (!s.running && !s.retrying && s.gate.None?))]
  }

  /** The item of a registration that was not queued before and is queued now. */
  ghost function NewWork(before: map<string, Managed>, w: Work, after: map<string, Managed>): seq<Work>
    requires w.spaceId in before && w.spaceId in after
  {
    if after[w.spaceId].queued && !before[w.spaceId].queued then [w] else []
  }

  /** The failure left its mark on the registration. */
  predicate Failed(before: Managed, after: Managed, f: Failure) {
    match f
    case Transient => after == before.(retrying := true, retryAttempt := before.retryAttempt + 1)
    case Terminal => after == before.(halted := true)
    case CredentialRejected(waits) =>
      if !waits then after == before.(halted := true)
      else after.gate.Some? && after == before.(gate := after.gate) && (before.gate.Some? ==> after == before)
  }

  lemma CountHead(queue: seq<Work>, w: Work)
    requires queue != []
    ensures Count(queue, w) == Count(queue[1..], w) + if queue[0] == w then 1 else 0
  {
  }

  lemma {:induction false} CountZero(queue: seq<Work>, w: Work)
    ensures Count(queue, w) == 0 ==> w !in queue
    decreases |queue|
  {
    if queue != [] { CountZero(queue[1..], w); }
  }

  /** The manager's tables. By generation: its space, the epoch of its last selection, its readmissions under way. */
  datatype Registry = Registry(
    spaces: map<string, Managed>,
    queue: seq<Work>,
    nextGeneration: nat,
    owners: map<nat, string>,
    selected: map<nat, nat>,
    readmitting: map<nat, nat>,
    turns: map<nat, nat>)

  /** What keeps a space that has not seen its latest request from being forgotten. */
  ghost predicate Held(r: Registry, s: Managed)
    requires s.generation in r.readmitting
  {
    Busy(s) || s.halted || r.readmitting[s.generation] > 0
  }

  /** What holds of one registration. */
  ghost predicate Tracked(r: Registry, id: string, s: Managed) {
    var g := s.generation;
    && g in r.owners && r.owners[g] == id && g in r.selected && g in r.readmitting
    && (s.running <==> g in r.turns) && (s.running ==> r.turns[g] == r.selected[g])
    && !(s.queued && s.running)
    && Count(r.queue, Work(id, g)) == (if s.queued then 1 else 0)
    && r.selected[g] <= s.dirtyEpoch && (r.selected[g] < s.dirtyEpoch ==> Held(r, s))
  }

  /** Every generation is accounted for, and so is every item of the queue. */
  ghost predicate Accounted(r: Registry) {
    && (forall g :: g in r.owners ==> g < r.nextGeneration && g in r.selected && g in r.readmitting)
    && (forall w :: w in r.queue ==> w.generation in r.owners) && r.turns.Keys <= r.owners.Keys
  }

  ghost predicate Sound(r: Registry) {
    Accounted(r) && forall id :: id in r.spaces ==> Tracked(r, id, r.spaces[id])
  }

  /** What one map says of a generation the other says as well. */
  ghost predicate SameAt(a: map<nat, nat>, b: map<nat, nat>, g: nat) {
    (g in a <==> g in b) && (g in a ==> a[g] == b[g])
  }

  /** Nothing is different for a generation of another space. */
  ghost predicate OnlyFor(a: Registry, b: Registry, id: string) {
    && (forall j :: j != id && j in b.spaces ==> j in a.spaces && b.spaces[j] == a.spaces[j])
    && (forall g :: g in a.owners ==> g in b.owners && b.owners[g] == a.owners[g])
    && (forall g :: g in a.owners && a.owners[g] != id ==>
          SameAt(a.selected, b.selected, g) && SameAt(a.readmitting, b.readmitting, g) && SameAt(a.turns, b.turns, g))
    && (forall w: Work :: w.spaceId != id ==> Count(b.queue, w) == Count(a.queue, w))
  }

  /** A change for one space leaves the registrations of the others as they were. */
  lemma OneChanged(a: Registry, b: Registry, id: string)
    requires Sound(a) && OnlyFor(a, b, id) && Accounted(b)
    requires id in b.spaces ==> Tracked(b, id, b.spaces[id])
    ensures Sound(b)
  {
    forall j | j in b.spaces && j != id ensures Tracked(b, j, b.spaces[j]) {
      assert Tracked(a, j, a.spaces[j]);
    }
  }

  predicate InPlace(r: Registry, w: Work) {
    w.spaceId in r.spaces && r.spaces[w.spaceId].generation == w.generation
  }

  function Stored(r: Registry, w: Work, s: Managed): Registry {
    r.(spaces := r.spaces[w.spaceId := s])
  }

  /** The registration is put at the end of the queue. */
  function Offered(r: Registry, w: Work, s: Managed): Registry {
    Stored(r, w, s.(queued := true)).(queue := r.queue + [w])
  }

  /** The head of the queue goes to a worker. */
  function Taken(r: Registry): Registry
    requires r.queue != [] && InPlace(r, r.queue[0])
  {
    var w := r.queue[0];
    var s := r.spaces[w.spaceId];
    Stored(r, w, s.(queued := false, running := true)).(
      queue := r.queue[1..], selected := r.selected[w.generation := s.dirtyEpoch],
      turns := r.turns[w.generation := s.dirtyEpoch])
  }

  function TurnOver(r: Registry, w: Work): Registry {
    r.(turns := r.turns - {w.generation})
  }

  lemma StoredKeeps(r: Registry, w: Work, s: Managed)
    requires Sound(r) && InPlace(r, w) && Tracked(Stored(r, w, s), w.spaceId, s)
    ensures Sound(Stored(r, w, s))
  {
    OneChanged(r, Stored(r, w, s), w.spaceId);
  }

  lemma OfferedKeeps(r: Registry, w: Work, s: Managed)
    requires Sound(r) && InPlace(r, w) && s.generation == w.generation && !r.spaces[w.spaceId].queued
    requires !s.running && !r.spaces[w.spaceId].running && r.spaces[w.spaceId].dirtyEpoch <= s.dirtyEpoch
    ensures Sound(Offered(r, w, s))
  {
    assert Tracked(r, w.spaceId, r.spaces[w.spaceId]);
    forall x { CountAppend(r.queue, w, x); }
    OneChanged(r, Offered(r, w, s), w.spaceId);
  }

  lemma TakenKeeps(r: Registry)
    requires Sound(r) && r.queue != [] && InPlace(r, r.queue[0]) && r.spaces[r.queue[0].spaceId].queued
    ensures Sound(Taken(r))
  {
    var w := r.queue[0];
    TakenIsTracked(r);
    TakenIsAccounted(r);
    TakenIsOnlyFor(r);
    OneChanged(r, Taken(r), w.spaceId);
  }

  lemma TakenIsOnlyFor(r: Registry)
    requires r.queue != [] && InPlace(r, r.queue[0]) && r.queue[0].generation in r.owners
    requires r.owners[r.queue[0].generation] == r.queue[0].spaceId
    ensures OnlyFor(r, Taken(r), r.queue[0].spaceId)
  {
    forall x: Work | x.spaceId != r.queue[0].spaceId ensures Count(r.queue[1..], x) == Count(r.queue, x) {
      CountHead(r.queue, x);
    }
  }

  lemma TakenIsAccounted(r: Registry)
    requires Accounted(r) && r.queue != [] && InPlace(r, r.queue[0])
    ensures Accounted(Taken(r))
  {
    assert r.queue[0] in r.queue;
  }

  lemma TakenIsTracked(r: Registry)
    requires Sound(r) && r.queue != [] && InPlace(r, r.queue[0]) && r.spaces[r.queue[0].spaceId].queued
    ensures var w := r.queue[0]; Tracked(Taken(r), w.spaceId, Taken(r).spaces[w.spaceId])
    ensures var w := r.queue[0]; w.generation in r.owners && r.owners[w.generation] == w.spaceId
  {
    var w := r.queue[0];
    assert Tracked(r, w.spaceId, r.spaces[w.spaceId]);
    CountHead(r.queue, w);
  }

  lemma TurnOverKeeps(r: Registry, w: Work)
    requires Sound(r) && !InPlace(r, w) && w.generation in r.owners && r.owners[w.generation] == w.spaceId
    ensures Sound(TurnOver(r, w))
  {
    assert w.spaceId in r.spaces ==> Tracked(r, w.spaceId, r.spaces[w.spaceId]);
    OneChanged(r, TurnOver(r, w), w.spaceId);
  }

  lemma TurnStoredKeeps(r: Registry, w: Work, s: Managed)
    requires Sound(r) && InPlace(r, w) && s == r.spaces[w.spaceId].(running := false)
    requires w.generation in r.turns && (r.turns[w.generation] < s.dirtyEpoch ==> Busy(s) || s.halted)
    ensures Sound(Stored(TurnOver(r, w), w, s))
  {
    assert Tracked(r, w.spaceId, r.spaces[w.spaceId]);
    OneChanged(r, Stored(TurnOver(r, w), w, s), w.spaceId);
  }

  lemma TurnOfferedKeeps(r: Registry, w: Work, s: Managed)
    requires Sound(r) && InPlace(r, w) && s == r.spaces[w.spaceId].(running := false) && w.generation in r.turns
    ensures Sound(Offered(TurnOver(r, w), w, s))
  {
    assert Tracked(r, w.spaceId, r.spaces[w.spaceId]);
    forall x { CountAppend(r.queue, w, x); }
    OneChanged(r, Offered(TurnOver(r, w), w, s), w.spaceId);
  }

  /** A generation that was not given out before belongs to no registration. */
  lemma NewGeneration(a: Registry, b: Registry, w: Work)
    requires Sound(a) && w.generation == a.nextGeneration
    requires b == a.(owners := a.owners[w.generation := w.spaceId], selected := a.selected[w.generation := 0],
                     readmitting := a.readmitting[w.generation := 0], nextGeneration := a.nextGeneration + 1)
    ensures Sound(b)
  {
    forall id | id in b.spaces ensures Tracked(b, id, b.spaces[id]) { assert Tracked(a, id, a.spaces[id]); }
  }

  /** A registration that nothing refers to yet takes the place of the last one. */
  lemma RegisteredKeeps(r: Registry, w: Work)
    requires Sound(r) && w.generation in r.owners && r.owners[w.generation] == w.spaceId
    requires Count(r.queue, w) == 0 && w.generation !in r.turns
    requires w.generation in r.selected && r.selected[w.generation] == 0 && w.generation in r.readmitting
    ensures Sound(Stored(r, w, Managed(w.generation, false, false, false, false, None, 0, 0)))
  {
    OneChanged(r, Stored(r, w, Managed(w.generation, false, false, false, false, None, 0, 0)), w.spaceId);
  }

  lemma FirstRequest(spaces: map<string, Managed>, w: Work, after: map<string, Managed>)
    requires Asked(spaces[w.spaceId := Managed(w.generation, false, false, false, false, None, 0, 0)], w, after)
    ensures after == spaces[w.spaceId := Managed(w.generation, true, false, false, false, None, 1, 0)]
  {}

  /** An item that stands for no queued registration can go. */
  lemma HeadIsStale(a: Registry, b: Registry)
    requires Sound(a) && a.queue != [] && b == a.(queue := a.queue[1..])
    requires var w := a.queue[0];
             w.spaceId !in a.spaces || a.spaces[w.spaceId].generation != w.generation || !a.spaces[w.spaceId].queued
    ensures Sound(b)
    ensures var w := a.queue[0]; w.spaceId in a.spaces ==> a.spaces[w.spaceId].generation != w.generation
  {
    forall id | id in b.spaces ensures Tracked(b, id, b.spaces[id]) {
      assert Tracked(a, id, a.spaces[id]);
      CountHead(a.queue, Work(id, a.spaces[id].generation));
    }
  }

  class Manager {
    var spaces: map<string, Managed>
    var queue: seq<Work>
    var nextGeneration: nat
    var nextGate: nat
    /** By generation: the space it was made for, the epoch of its last selection, its readmissions under way. */
    ghost var owners: map<nat, string>
    ghost var selected: map<nat, nat>
    ghost var readmitting: map<nat, nat>
    /** The turns that are running, each with the epoch it was selected at. */
    ghost var turns: map<nat, nat>

    ghost function State(): Registry
      reads this
    {
      Registry(spaces, queue, nextGeneration, owners, selected, readmitting, turns)
    }

    ghost predicate Valid()
      reads this
    {
      Sound(State())
    }

    /** `w` names a registration, present or past. */
    ghost predicate Known(w: Work)
      reads `owners
    {
      w.generation in owners && owners[w.generation] == w.spaceId
    }

    predicate Current(w: Work)
      reads `spaces
    {
      w.spaceId in spaces && spaces[w.spaceId].generation == w.generation
    }

    constructor ()
      ensures Valid() && spaces == map[] && queue == []
    {
      spaces, queue, nextGeneration, nextGate := map[], [], 0, 0;
      owners, selected, readmitting, turns := map[], map[], map[], map[];
    }

    /** Puts a registration on the queue that is not on it. */
    method Offer(w: Work, s: Managed)
      requires Current(w) && s.generation == w.generation && !s.queued
      modifies `spaces, `queue
      ensures State() == Offered(old(State()), w, s)
    {
      spaces := spaces[w.spaceId := s.(queued := true)];
      queue := queue + [w];
    }

    /** A request, which is refused only if the registration is gone. */
    method Admit(w: Work) returns (ok: bool)
      requires Valid()
      modifies `spaces, `queue
      ensures Valid() && ok == Current(w) == old(Current(w))
      ensures !ok ==> spaces == old(spaces) && queue == old(queue)
      ensures ok ==> Asked(old(spaces), w, spaces) && queue == old(queue) + NewWork(old(spaces), w, spaces)
    {
      if !Current(w) { return false; }
      ghost var before := State();
      assert Tracked(before, w.spaceId, spaces[w.spaceId]);
      var s := spaces[w.spaceId].(dirtyEpoch := spaces[w.spaceId].dirtyEpoch + 1, halted := false);
      if s.queued || s.running || s.retrying || s.gate.Some? {
        StoredKeeps(before, w, s);
        spaces := spaces[w.spaceId := s];
      } else {
        OfferedKeeps(before, w, s);
        Offer(w, s);
      }
      ok := true;
    }

    /** A worker takes the head of the queue. A live item is never taken in vain. */
    method SelectWork() returns (work: Option<(Work, nat)>)
      requires queue != []
      modifies `spaces, `queue, `selected, `turns
      ensures queue == old(queue)[1..]
      ensures old(Valid()) ==> Valid() && (work.Some? <==> old(Current(queue[0])))
      ensures work.Some? ==>
                && work.value.0 == old(queue)[0] && old(Current(queue[0])) && Current(work.value.0)
                && work.value.1 == spaces[work.value.0.spaceId].dirtyEpoch
                && turns == old(turns)[work.value.0.generation := work.value.1]
                && selected == old(selected)[work.value.0.generation := work.value.1]
                && var s := old(spaces)[work.value.0.spaceId];
                   s.queued && !s.running
                   && spaces == old(spaces)[work.value.0.spaceId := s.(queued := false, running := true)]
      ensures work.None? && old(Valid()) ==> spaces == old(spaces)
    {
      var w := queue[0];
      ghost var before := State();
      queue := queue[1..];
      if !Current(w) || !spaces[w.spaceId].queued {
        if Sound(before) { HeadIsStale(before, State()); }
        return None;
      }
      var s := spaces[w.spaceId].(queued := false);
      if s.running {
        spaces := spaces[w.spaceId := s];
        return None;
      }
      spaces := spaces[w.spaceId := s.(running := true)];
      selected, turns := selected[s.generation := s.dirtyEpoch], turns[s.generation := s.dirtyEpoch];
      work := Some((w, s.dirtyEpoch));
      if Sound(before) { TakenKeeps(before); }
    }

    /** A turn ends; if requests came in meanwhile and nothing else will see to them, another follows. */
    method FinishTurn(w: Work, epoch: nat)
      requires Valid() && Known(w) && w.generation in turns && turns[w.generation] == epoch
      modifies `spaces, `queue, `turns
      ensures Valid() && turns == old(turns) - {w.generation}
      ensures !old(Current(w)) ==> spaces == old(spaces) && queue == old(queue)
      ensures old(Current(w)) ==>
                && var s := old(spaces)[w.spaceId];
                   var again := epoch < s.dirtyEpoch && !s.queued && !s.retrying && !s.halted && s.gate.None?;
                   spaces == old(spaces)[w.spaceId := s.(running := false, queued := s.queued || again)]
                   && queue == old(queue) + if again then [w] else []
    {
      ghost var before := State();
      turns := turns - {w.generation};
      if !Current(w) {
        TurnOverKeeps(before, w);
        return;
      }
      var s := spaces[w.spaceId].(running := false);
      if s.dirtyEpoch <= epoch || s.queued || s.retrying || s.halted || s.gate.Some? {
        TurnStoredKeeps(before, w, s);
        spaces := spaces[w.spaceId := s];
      } else {
        TurnOfferedKeeps(before, w, s);
        Offer(w, s);
      }
    }

    /** A turn succeeded, so the next failure counts as the first again. */
    method TurnSucceeded(w: Work)
      requires Valid()
      modifies `spaces
      ensures Valid()
      ensures spaces == if old(Current(w)) then old(spaces)[w.spaceId := old(spaces)[w.spaceId].(retryAttempt := 0)]
                        else old(spaces)
    {
      ghost var before := State();
      assert w.spaceId in spaces ==> Tracked(before, w.spaceId, spaces[w.spaceId]);
      if Current(w) { spaces := spaces[w.spaceId := spaces[w.spaceId].(retryAttempt := 0)]; }
      OneChanged(before, State(), w.spaceId);
    }

    /** What a failure makes of a registration. */
    method Classify(s: Managed, f: Failure) returns (after: Managed)
      modifies `nextGate
      ensures Failed(s, after, f)
      ensures nextGate == old(nextGate) + if after.gate != s.gate then 1 else 0
      ensures after.gate != s.gate ==> after.gate == Some(old(nextGate))
    {
      after := s;
      match f {
        case Transient => after := s.(retryAttempt := s.retryAttempt + 1, retrying := true);
        case Terminal => after := s.(halted := true);
        case CredentialRejected(waits) =>
          if !waits {
            after := s.(halted := true);
          } else if s.gate.None? {
            after, nextGate := s.(gate := Some(nextGate)), nextGate + 1;
          }
      }
    }

    /** A failure is retried later, waited out at a credential gate, or halts the space. */
    method HandleFailure(w: Work, f: Failure)
      requires Valid()
      modifies `spaces, `nextGate
      ensures Valid() && Current(w) == old(Current(w))
      ensures !Current(w) ==> spaces == old(spaces)
      ensures Current(w) ==>
                && spaces == old(spaces)[w.spaceId := spaces[w.spaceId]]
                && Failed(old(spaces)[w.spaceId], spaces[w.spaceId], f)
                && (spaces[w.spaceId].gate != old(spaces)[w.spaceId].gate ==>
                      spaces[w.spaceId].gate == Some(old(nextGate)) && nextGate == old(nextGate) + 1)
    {
      if !Current(w) { return; }
      ghost var before := State();
      assert Tracked(before, w.spaceId, spaces[w.spaceId]);
      var s := Classify(spaces[w.spaceId], f);
      spaces := spaces[w.spaceId := s];
      OneChanged(before, State(), w.spaceId);
    }

    /** Something sets out to readmit the space: a watch, or the end of a wait. */
    ghost method StartReadmission(w: Work)
      requires Valid() && Known(w)
      modifies `readmitting
      ensures Valid() && readmitting == old(readmitting)[w.generation := old(readmitting)[w.generation] + 1]
    {
      var before := State();
      assert w.spaceId in spaces ==> Tracked(before, w.spaceId, spaces[w.spaceId]);
      readmitting := readmitting[w.generation := readmitting[w.generation] + 1];
      OneChanged(before, State(), w.spaceId);
    }

    /** The wait before a retry is over. */
    method FinishRetry(w: Work)
      requires Valid() && Known(w)
      modifies `spaces, `readmitting
      ensures Valid()
      ensures !old(Current(w)) ==> spaces == old(spaces) && readmitting == old(readmitting)
      ensures old(Current(w)) ==>
                && spaces == old(spaces)[w.spaceId := old(spaces)[w.spaceId].(retrying := false)]
                && readmitting == old(readmitting)[w.generation := old(readmitting)[w.generation] + 1]
    {
      if !Current(w) { return; }
      StartReadmission(w);
      ghost var before := State();
      assert Tracked(before, w.spaceId, spaces[w.spaceId]);
      spaces := spaces[w.spaceId := spaces[w.spaceId].(retrying := false)];
      OneChanged(before, State(), w.spaceId);
    }

    /** The credential changed. Only the gate that was waited for opens. */
    method FinishWait(w: Work, gate: nat)
      requires Valid() && Known(w)
      modifies `spaces, `readmitting
      ensures Valid()
      ensures var opens := old(Current(w)) && old(spaces)[w.spaceId].gate == Some(gate);
              && (!opens ==> spaces == old(spaces) && readmitting == old(readmitting))
              && (opens ==>
                    && spaces == old(spaces)[w.spaceId := old(spaces)[w.spaceId].(gate := None, retryAttempt := 0)]
                    && readmitting == old(readmitting)[w.generation := old(readmitting)[w.generation] + 1])
    {
      if !Current(w) || spaces[w.spaceId].gate != Some(gate) { return; }
      StartReadmission(w);
      ghost var before := State();
      assert Tracked(before, w.spaceId, spaces[w.spaceId]);
      spaces := spaces[w.spaceId := spaces[w.spaceId].(gate := None, retryAttempt := 0)];
      OneChanged(before, State(), w.spaceId);
    }

    /** A readmission is over, and the space no longer needs it. */
    ghost method EndReadmission(w: Work)
      requires Valid() && Known(w) && readmitting[w.generation] > 0
      requires Current(w) ==> Busy(spaces[w.spaceId]) || spaces[w.spaceId].halted
      modifies `readmitting
      ensures Valid() && readmitting == old(readmitting)[w.generation := old(readmitting)[w.generation] - 1]
    {
      var before := State();
      assert w.spaceId in spaces ==> Tracked(before, w.spaceId, spaces[w.spaceId]);
      readmitting := readmitting[w.generation := readmitting[w.generation] - 1];
      OneChanged(before, State(), w.spaceId);
    }

    /** A readmission arrives: its durable request was made, and the space is admitted. */
    method Readmit(w: Work) returns (ok: bool)
      requires Valid() && Known(w) && readmitting[w.generation] > 0
      modifies `spaces, `queue, `readmitting
      ensures Valid() && ok == old(Current(w))
      ensures !ok ==> spaces == old(spaces) && queue == old(queue)
      ensures ok ==>
                Asked(old(spaces), w, spaces) && Current(w) && queue == old(queue) + NewWork(old(spaces), w, spaces)
      ensures readmitting == old(readmitting)[w.generation := old(readmitting)[w.generation] - 1]
    {
      ok := Admit(w);
      EndReadmission(w);
    }

    /** A readmission fails, and is then treated like a failed turn. */
    method ReadmissionFailed(w: Work, f: Failure)
      requires Valid() && Known(w) && readmitting[w.generation] > 0
      modifies `spaces, `nextGate, `readmitting
      ensures Valid()
      ensures !old(Current(w)) ==> spaces == old(spaces)
      ensures old(Current(w)) ==>
                && Current(w) && spaces == old(spaces)[w.spaceId := spaces[w.spaceId]]
                && Failed(old(spaces)[w.spaceId], spaces[w.spaceId], f)
                && (spaces[w.spaceId].gate != old(spaces)[w.spaceId].gate ==>
                      spaces[w.spaceId].gate == Some(old(nextGate)) && nextGate == old(nextGate) + 1)
      ensures readmitting == old(readmitting)[w.generation := old(readmitting)[w.generation] - 1]
    {
      HandleFailure(w, f);
      EndReadmission(w);
    }

    /** A space is registered, possibly in place of an earlier registration, and admitted. */
    method Register(spaceId: string) returns (w: Work)
      requires Valid()
      modifies this
      ensures Valid() && Known(w) && w == Work(spaceId, old(nextGeneration))
      ensures spaces == old(spaces)[spaceId := Managed(w.generation, true, false, false, false, None, 1, 0)]
      ensures queue == old(queue) + [w] && nextGeneration == old(nextGeneration) + 1
    {
      w := NewRegistration(spaceId);
      Enter(w);
      var admitted := Admit(w);
      FirstRequest(old(spaces), w, spaces);
    }

    method Enter(w: Work)
      requires Valid() && Known(w) && Count(queue, w) == 0 && w.generation !in turns
      requires selected[w.generation] == 0
      modifies `spaces
      ensures Valid() && Current(w)
      ensures spaces == old(spaces)[w.spaceId := Managed(w.generation, false, false, false, false, None, 0, 0)]
    {
      RegisteredKeeps(State(), w);
      spaces := spaces[w.spaceId := Managed(w.generation, false, false, false, false, None, 0, 0)];
    }

    /** A generation that no registration, item or turn has had. */
    method NewRegistration(spaceId: string) returns (w: Work)
      requires Valid()
      modifies `nextGeneration, `owners, `selected, `readmitting
      ensures Valid() && Known(w) && w == Work(spaceId, old(nextGeneration))
      ensures nextGeneration == old(nextGeneration) + 1
      ensures Count(queue, w) == 0 && w.generation !in turns
      ensures selected[w.generation] == 0 && readmitting[w.generation] == 0
    {
      ghost var before := State();
      w := Work(spaceId, nextGeneration);
      CountAbsent(queue, w);
      owners := owners[w.generation := w.spaceId];
      selected, readmitting := selected[w.generation := 0], readmitting[w.generation := 0];
      nextGeneration := nextGeneration + 1;
      NewGeneration(before, State(), w);
    }

    method Unregister(w: Work)
      requires Valid()
      modifies `spaces
      ensures Valid() && !Current(w)
      ensures spaces == if old(Current(w)) then old(spaces) - {w.spaceId} else old(spaces)
    {
      ghost var before := State();
      assert w.spaceId in spaces ==> Tracked(before, w.spaceId, spaces[w.spaceId]);
      if Current(w) { spaces := spaces - {w.spaceId}; }
      OneChanged(before, State(), w.spaceId);
    }
  }

  /**
   When nothing is queued, running, waiting or on its way any more, every space that is not halted
   has been selected since its latest request.
   */
  lemma QuietMeansDone(m: Manager, id: string)
    requires m.Valid() && id in m.spaces && m.queue == []
    requires var s := m.spaces[id];
             && !s.running && !s.retrying && s.gate.None?
             && s.generation in m.readmitting && m.readmitting[s.generation] == 0
    ensures m.spaces[id].generation in m.selected
    ensures m.spaces[id].halted || m.selected[m.spaces[id].generation] == m.spaces[id].dirtyEpoch
  {
    assert Tracked(m.State(), id, m.spaces[id]);
  }

  /** A space is queued exactly when its item is in the queue, which it is at most once. */
  lemma QueuedExactly(m: Manager, id: string)
    requires m.Valid() && id in m.spaces
    ensures m.spaces[id].queued <==> Work(id, m.spaces[id].generation) in m.queue
    ensures Count(m.queue, Work(id, m.spaces[id].generation)) <= 1
    ensures !(m.spaces[id].queued && m.spaces[id].running)
  {
    var w := Work(id, m.spaces[id].generation);
    assert Tracked(m.State(), id, m.spaces[id]);
    if m.spaces[id].queued { CountPresent(m.queue, w); }
    CountZero(m.queue, w);
  }
}
