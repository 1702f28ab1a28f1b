/**
 Runs of the resumable rebuild. The state holds only what is durable, so a crash between two
 transactions loses nothing but the running fiber; a restart goes on from the stored cursor.
 */
module RebuildRuns {
  import opened Basics
  import opened Tables
  import opened Outbox
  import opened Paging
  import opened Projection
  import opened Rebuild

  function TargetRows(s: Replica): Table
    requires s.target.Some?
  {
    Generation(s.visible, s.target.value)
  }

  function WithTarget(s: Replica, rows: Table): Replica
    requires s.target.Some?
  {
    s.(visible := s.visible[s.target.value := rows])
  }

  /** A rebuild under way, into a generation other than the active one. */
  ghost predicate InProgress(s: Replica) {
    && WellFormed(s)
    && s.target.Some? && s.target.value != s.active
    && (s.cursor.Canonical? ==> forall e :: e in TargetRows(s) ==> Get(TargetRows(s), e) == Get(Base(s), e))
    && (s.cursor.PendingAfter? ==> HidesRetracted(TargetRows(s), s.retractions))
  }

  /** The rows and the table that the rebuild will promote if it is left to finish. */
  function Outcome(h: Handler, limit: nat, s: Replica): (Pending, Table)
    requires limit > 0 && s.target.Some?
  {
    match s.cursor
    case Cleanup => Remaining(h, limit, s, Base(s), 0)
    case Canonical => Remaining(h, limit, s, Base(s), 0)
    case PendingAfter(n) => Remaining(h, limit, s, TargetRows(s), n)
  }

  // ---------------------------------------------------------------- transactions

  datatype Event =
    | Deleted(gone: set<Entity>)
    | CleanedUp
    | Copied(more: set<Entity>)
    | CopiedAll
    | Replayed(last: nat)
    | Restarted

  function RequestReplay(s: Replica): Replica {
    if s.target.Some? then s else s.(target := Some(s.active + 1), cursor := Cleanup)
  }

  /** What a restart does before anything else. */
  function Restore(s: Replica): Replica {
    if s.dirty != {} then RequestReplay(s) else s
  }

  function Uncopied(s: Replica): set<Entity>
    requires s.target.Some?
  {
    Base(s).Keys - TargetRows(s).Keys
  }

  function CopyOf(base: Table, more: set<Entity>): Table {
    map e | e in base && e in more :: base[e]
  }

  /** Entities marked dirty by one batch: what its rows had recorded and what they record now. */
  function BatchEntities(h: Handler, s: Replica, after: nat, last: nat): set<Entity>
    requires s.target.Some?
  {
    WriteSet(s.pending, Between(Selected(s.pending), after + 1, last + 1))
    + WriteSet(BatchPending(h, s, TargetRows(s), after, last), Between(Live(s), after + 1, last + 1))
  }

  predicate Enabled(h: Handler, limit: nat, s: Replica, ev: Event)
    requires limit > 0 && s.target.Some?
  {
    match ev
    case Deleted(gone) => s.cursor.Cleanup? && gone <= TargetRows(s).Keys && 0 < |gone| <= limit
    case CleanedUp => s.cursor.Cleanup? && TargetRows(s) == map[]
    case Copied(more) => s.cursor.Canonical? && more <= Uncopied(s) && 0 < |more| <= limit
    case CopiedAll => s.cursor.Canonical? && Uncopied(s) == {}
    case Replayed(last) =>
      && s.cursor.PendingAfter?
      && !AtEnd(Selected(s.pending), s.cursor.sequence, limit)
      && last == PageEnd(Selected(s.pending), s.cursor.sequence, limit)
      && (forall k :: k in s.pending && s.cursor.sequence < k <= last ==> !Mismatched(s.pending[k]))
    case Restarted => true
  }

  function Apply(h: Handler, s: Replica, ev: Event): Replica
    requires s.target.Some?
    requires ev.Replayed? ==> s.cursor.PendingAfter?
  {
    match ev
    case Deleted(gone) => WithTarget(s, TargetRows(s) - gone)
    case CleanedUp => s.(cursor := Canonical)
    case Copied(more) => WithTarget(s, TargetRows(s) + CopyOf(Base(s), more))
    case CopiedAll => s.(cursor := PendingAfter(0))
    case Replayed(last) =>
      var after := s.cursor.sequence;
      WithTarget(s, BatchTable(h, s, TargetRows(s), after, last)).(
        pending := BatchPending(h, s, TargetRows(s), after, last),
        dirty := s.dirty + BatchEntities(h, s, after, last),
        cursor := PendingAfter(last))
    case Restarted => Restore(s)
  }

  predicate Promotable(limit: nat, s: Replica)
    requires limit > 0
  {
    s.target.Some? && s.cursor.PendingAfter? && AtEnd(Selected(s.pending), s.cursor.sequence, limit)
  }

  /** The swap of generations, in one transaction. */
  function Promote(s: Replica): Replica
    requires s.target.Some?
  {
    s.(active := s.target.value, target := None, cursor := Cleanup, dirty := {}, revision := s.revision + 1)
  }

  // ---------------------------------------------------------------- what every transaction keeps

  lemma ReplayedKeeps(h: Handler, limit: nat, s: Replica, last: nat)
    requires limit > 0 && InProgress(s) && Enabled(h, limit, s, Replayed(last))
    ensures var s' := Apply(h, s, Replayed(last));
            InProgress(s') && Outcome(h, limit, s') == Outcome(h, limit, s) && Live(s') == Live(s)
            && Selected(s'.pending) == Selected(s.pending)
  {
    var s' := Apply(h, s, Replayed(last));
    var t, after := TargetRows(s), s.cursor.sequence;
    BatchKeepsPlan(h, limit, s, s', t, after, last, last);
    BatchKeepsRemaining(h, limit, s, s', t, BatchTable(h, s, t, after, last), after, last);
    assert TargetRows(s') == BatchTable(h, s, t, after, last);
  }

  lemma SameInputs(h: Handler, limit: nat, s: Replica, s': Replica, t: Table, after: nat)
    requires limit > 0 && s'.pending == s.pending && s'.meta == s.meta
    requires s'.retractions == s.retractions && s'.nextSequence == s.nextSequence
    ensures Remaining(h, limit, s', t, after) == Remaining(h, limit, s, t, after)
  {
    assert RebuildPlan(h, limit, s', after) == RebuildPlan(h, limit, s, after);
  }

  lemma CopiedAllKeeps(h: Handler, limit: nat, s: Replica)
    requires limit > 0 && InProgress(s) && Enabled(h, limit, s, CopiedAll)
    ensures TargetRows(s) == Base(s) && InProgress(Apply(h, s, CopiedAll))
  {
    forall e ensures Get(TargetRows(s), e) == Get(Base(s), e) {
      if e in Base(s) { assert e !in Uncopied(s); }
    }
    SameRows(TargetRows(s), Base(s));
  }

  lemma CopiedKeeps(h: Handler, limit: nat, s: Replica, more: set<Entity>)
    requires limit > 0 && InProgress(s) && Enabled(h, limit, s, Copied(more))
    ensures InProgress(Apply(h, s, Copied(more)))
  {}

  lemma OtherKeeps(h: Handler, limit: nat, s: Replica, ev: Event)
    requires limit > 0 && InProgress(s) && Enabled(h, limit, s, ev) && !ev.Replayed?
    ensures InProgress(Apply(h, s, ev)) && Outcome(h, limit, Apply(h, s, ev)) == Outcome(h, limit, s)
  {
    var s' := Apply(h, s, ev);
    match ev
    case CopiedAll =>
      CopiedAllKeeps(h, limit, s);
      SameInputs(h, limit, s, s', Base(s), 0);
    case Copied(more) =>
      CopiedKeeps(h, limit, s, more);
      SameInputs(h, limit, s, s', Base(s), 0);
    case Deleted(gone) => SameInputs(h, limit, s, s', Base(s), 0);
    case CleanedUp => SameInputs(h, limit, s, s', Base(s), 0);
    case Restarted =>
  }

  /** Every transaction, and every restart, leaves the promised outcome and the active rows alone. */
  lemma EventKeeps(h: Handler, limit: nat, s: Replica, ev: Event)
    requires limit > 0 && InProgress(s) && Enabled(h, limit, s, ev)
    ensures InProgress(Apply(h, s, ev)) && Outcome(h, limit, Apply(h, s, ev)) == Outcome(h, limit, s)
    ensures Visible(Apply(h, s, ev)) == Visible(s) && Apply(h, s, ev).active == s.active
    ensures Apply(h, s, ev).canonical == s.canonical && Apply(h, s, ev).retractions == s.retractions
  {
    EventKeepsActive(h, limit, s, ev);
    if ev.Replayed? { ReplayedKeeps(h, limit, s, ev.last); } else { OtherKeeps(h, limit, s, ev); }
  }

  lemma EventKeepsActive(h: Handler, limit: nat, s: Replica, ev: Event)
    requires limit > 0 && s.target.Some? && s.target.value != s.active && Enabled(h, limit, s, ev)
    ensures Visible(Apply(h, s, ev)) == Visible(s) && Apply(h, s, ev).active == s.active
    ensures Apply(h, s, ev).canonical == s.canonical && Apply(h, s, ev).retractions == s.retractions
  {}

  /** Position of a rebuild: its phase, then the rows the phase has left. */
  function Phase(s: Replica): nat {
    match s.cursor
    case Cleanup => 2
    case Canonical => 1
    case PendingAfter(_) => 0
  }

  function Left(s: Replica): nat
    requires s.target.Some?
  {
    match s.cursor
    case Cleanup => |TargetRows(s).Keys|
    case Canonical => |Uncopied(s)|
    case PendingAfter(n) => |After(Selected(s.pending), n)|
  }

  lemma ReplayedAdvances(h: Handler, limit: nat, s: Replica, last: nat)
    requires limit > 0 && InProgress(s) && Enabled(h, limit, s, Replayed(last))
    ensures var s' := Apply(h, s, Replayed(last));
            s'.cursor.PendingAfter? && Left(s') < Left(s)
  {
    ReplayedKeeps(h, limit, s, last);
    PageAdvances(Selected(s.pending), s.cursor.sequence, limit);
  }

  lemma DeletedAdvances(h: Handler, limit: nat, s: Replica, gone: set<Entity>)
    requires limit > 0 && InProgress(s) && Enabled(h, limit, s, Deleted(gone))
    ensures Left(Apply(h, s, Deleted(gone))) < Left(s)
  {
    assert TargetRows(Apply(h, s, Deleted(gone))).Keys == TargetRows(s).Keys - gone;
    RemovedSize(TargetRows(s).Keys, gone);
  }

  lemma CopiedAdvances(h: Handler, limit: nat, s: Replica, more: set<Entity>)
    requires limit > 0 && InProgress(s) && Enabled(h, limit, s, Copied(more))
    ensures Left(Apply(h, s, Copied(more))) < Left(s)
  {
    assert Uncopied(Apply(h, s, Copied(more))) == Uncopied(s) - more;
    RemovedSize(Uncopied(s), more);
  }

  /** Every transaction that is not a restart strictly advances the rebuild. */
  lemma EventAdvances(h: Handler, limit: nat, s: Replica, ev: Event)
    requires limit > 0 && InProgress(s) && Enabled(h, limit, s, ev) && !ev.Restarted?
    ensures var s' := Apply(h, s, ev);
            Phase(s') < Phase(s) || (Phase(s') == Phase(s) && Left(s') < Left(s))
  {
    match ev
    case Replayed(last) => ReplayedAdvances(h, limit, s, last);
    case Deleted(gone) => DeletedAdvances(h, limit, s, gone);
    case Copied(more) => CopiedAdvances(h, limit, s, more);
    case CleanedUp =>
    case CopiedAll =>
  }

  lemma RemovedSize(a: set<Entity>, b: set<Entity>)
    requires b <= a && |b| > 0
    ensures |a - b| < |a|
  {
    var x :| x in b;
    SubsetSize(a - b, a - {x});
  }

  /** A rebuild that has not reached the end and meets no foreign receipt can always go on. */
  lemma CanAdvance(h: Handler, limit: nat, s: Replica)
    requires limit > 0 && InProgress(s) && !Promotable(limit, s)
    requires forall k :: k in s.pending ==> !Mismatched(s.pending[k])
    ensures exists ev :: Enabled(h, limit, s, ev) && !ev.Restarted?
  {
    match s.cursor
    case Cleanup =>
      if TargetRows(s) == map[] {
        assert Enabled(h, limit, s, CleanedUp);
      } else {
        var e :| e in TargetRows(s).Keys;
        assert Enabled(h, limit, s, Deleted({e}));
      }
    case Canonical =>
      if Uncopied(s) == {} {
        assert Enabled(h, limit, s, CopiedAll);
      } else {
        var e :| e in Uncopied(s);
        assert Enabled(h, limit, s, Copied({e}));
      }
    case PendingAfter(n) =>
      assert Enabled(h, limit, s, Replayed(PageEnd(Selected(s.pending), n, limit)));
  }

  // ---------------------------------------------------------------- whole runs

  /** The state after a run of transactions, restarts included, or None if one was not enabled. */
  function Run(h: Handler, limit: nat, s: Replica, evs: seq<Event>): Option<Replica>
    requires limit > 0
    decreases |evs|
  {
    if evs == [] then Some(s)
    else if s.target.None? || !Enabled(h, limit, s, evs[0]) then None
    else Run(h, limit, Apply(h, s, evs[0]), evs[1..])
  }

  lemma {:induction false} RunSteps(h: Handler, limit: nat, s: Replica, evs: seq<Event>, last: Event)
    requires limit > 0
    ensures Run(h, limit, s, []) == Some(s)
    ensures Run(h, limit, s, evs + [last]) ==
              match Run(h, limit, s, evs)
              case None => None
              case Some(t) =>
                if t.target.Some? && Enabled(h, limit, t, last) then Some(Apply(h, t, last)) else None
    decreases |evs|
  {
    if evs == [] {
      assert evs + [last] == [last] && [last][1..] == [];
    } else {
      assert (evs + [last])[1..] == evs[1..] + [last];
      if s.target.Some? && Enabled(h, limit, s, evs[0]) {
        RunSteps(h, limit, Apply(h, s, evs[0]), evs[1..], last);
      }
    }
  }

  lemma {:induction false} RunKeeps(h: Handler, limit: nat, s: Replica, evs: seq<Event>)
    requires limit > 0 && InProgress(s) && Run(h, limit, s, evs).Some?
    ensures var s' := Run(h, limit, s, evs).value;
            && InProgress(s') && Outcome(h, limit, s') == Outcome(h, limit, s)
            && Visible(s') == Visible(s) && s'.retractions == s.retractions
    decreases |evs|
  {
    if evs != [] {
      EventKeeps(h, limit, s, evs[0]);
      RunKeeps(h, limit, Apply(h, s, evs[0]), evs[1..]);
    }
  }

  /** `s` is a later point of the rebuild that stood at `from`. */
  ghost predicate Continues(h: Handler, limit: nat, from: Replica, s: Replica) {
    && limit > 0 && from.target.Some?
    && InProgress(s) && Outcome(h, limit, s) == Outcome(h, limit, from)
    && Visible(s) == Visible(from) && s.active == from.active && s.target == from.target
    && s.canonical == from.canonical && s.retractions == from.retractions
    && s.meta == from.meta && s.nextSequence == from.nextSequence && s.revision == from.revision
    && SamePlan(from.pending, s.pending)
  }

  lemma ContinuesWith(h: Handler, limit: nat, from: Replica, s: Replica, ev: Event)
    requires Continues(h, limit, from, s) && Enabled(h, limit, s, ev) && !ev.Restarted?
    ensures Continues(h, limit, from, Apply(h, s, ev))
  {
    EventKeeps(h, limit, s, ev);
    SamePlanKept(h, limit, from.pending, s, ev);
  }

  lemma SamePlanKept(h: Handler, limit: nat, from: Pending, s: Replica, ev: Event)
    requires limit > 0 && s.target.Some? && Enabled(h, limit, s, ev) && SamePlan(from, s.pending) && !ev.Restarted?
    ensures SamePlan(from, Apply(h, s, ev).pending)
  {
    if ev.Replayed? {
      BatchSamePlan(h, s, TargetRows(s), s.cursor.sequence, ev.last);
      SamePlanOn(from, s.pending, BatchPending(h, s, TargetRows(s), s.cursor.sequence, ev.last));
    }
  }

  lemma BatchSamePlan(h: Handler, s: Replica, t: Table, after: nat, last: nat)
    ensures SamePlan(s.pending, BatchPending(h, s, t, after, last))
  {
    RecordedPlan(Whole(h, Live(s)), s.pending, t, after + 1, last + 1);
  }

  lemma SamePlanOn(a: Pending, b: Pending, c: Pending)
    requires SamePlan(a, b) && SamePlan(b, c)
    ensures SamePlan(a, c)
  {}

  /**
   Resumable rebuild: however the run is cut by crashes, and from whatever cursor it resumes, it
   promotes the outcome promised where it started, shows the old rows until then, and shows no
   retracted entity after it.
   */
  lemma ResumedRunPromotes(h: Handler, limit: nat, s: Replica, evs: seq<Event>)
    requires limit > 0 && InProgress(s) && Run(h, limit, s, evs).Some?
    requires Promotable(limit, Run(h, limit, s, evs).value)
    ensures var before := Run(h, limit, s, evs).value;
            var promoted := Promote(before);
            && Visible(before) == Visible(s)
            && (promoted.pending, Visible(promoted)) == Outcome(h, limit, s)
            && HidesRetracted(Visible(promoted), s.retractions)
            && promoted.target.None? && promoted.dirty == {}
  {
    RunKeeps(h, limit, s, evs);
    var before := Run(h, limit, s, evs).value;
    NothingRemains(h, limit, before, TargetRows(before), before.cursor.sequence);
  }

  /** A rebuild requested now promotes the rebuilt projection of the present state. */
  lemma RequestedOutcome(h: Handler, limit: nat, s: Replica)
    requires limit > 0 && WellFormed(s) && s.target.None?
    ensures var r := RequestReplay(s);
            InProgress(r) && Outcome(h, limit, r) == (RebuiltPending(h, limit, s), RebuiltTable(h, limit, s))
  {
    var r := RequestReplay(s);
    assert r.pending == s.pending && r.meta == s.meta;
    assert RebuildPlan(h, limit, r, 0) == RebuildPlan(h, limit, s, 0);
  }
}
