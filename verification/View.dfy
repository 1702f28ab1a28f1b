/** Changes of the replicated view and what they do to canonical entities and to the retraction fence. */
module View {
  import opened Tables

  datatype ViewChange =
    | Put(entity: Entity, value: Value)
    | Remove(entity: Entity)
    | Retract(entity: Entity)

  datatype Replicated = Replicated(canonical: Table, retractions: set<Entity>)

  function ApplyViewChange(r: Replicated, c: ViewChange): Replicated {
    match c
    case Put(e, v) => Replicated(r.canonical[e := v], r.retractions - {e})
    case Remove(e) => Replicated(r.canonical - {e}, r.retractions - {e})
    case Retract(e) => Replicated(r.canonical - {e}, r.retractions + {e})
  }

  function ApplyView(r: Replicated, cs: seq<ViewChange>): Replicated
    decreases |cs|
  {
    if cs == [] then r else
      ApplyViewChange(ApplyView(r, cs[..|cs| - 1]), cs[|cs| - 1])
  }

  function ViewEntities(cs: seq<ViewChange>): set<Entity> {
    set c | c in cs :: c.entity
  }

  function Shown(r: Replicated): Table {
    r.canonical - r.retractions
  }

  /** Canonical rows and retractions exclude each other once both have been kept by view changes. */
  ghost predicate Fenced(r: Replicated) {
    r.canonical.Keys !! r.retractions
  }

  lemma {:induction false} ViewFrame(r: Replicated, cs: seq<ViewChange>)
    ensures AgreeOutside(Shown(r), Shown(ApplyView(r, cs)), ViewEntities(cs))
    decreases |cs|
  {
    if cs != [] {
      var front, c := cs[..|cs| - 1], cs[|cs| - 1];
      ViewFrame(r, front);
      assert cs == front + [c];
      assert ViewEntities(cs) == ViewEntities(front) + {c.entity};
      var before, after := ApplyView(r, front), ApplyView(r, cs);
      forall e | e !in ViewEntities(cs) ensures Get(Shown(r), e) == Get(Shown(after), e) {
        assert Get(Shown(r), e) == Get(Shown(before), e);
      }
    }
  }

  lemma {:induction false} ViewKeepsFence(r: Replicated, cs: seq<ViewChange>)
    requires Fenced(r)
    ensures Fenced(ApplyView(r, cs))
    decreases |cs|
  {
    if cs != [] { ViewKeepsFence(r, cs[..|cs| - 1]); }
  }

  // ---------------------------------------------------------------- entity by entity

  /** No later change names the same entity. */
  ghost predicate Last(cs: seq<ViewChange>, i: nat) {
    i < |cs| && forall j :: i < j < |cs| ==> cs[j].entity != cs[i].entity
  }

  /** What a change makes of its entity: a row, nothing, or a retraction. */
  ghost predicate Stands(c: ViewChange, r: Replicated) {
    match c
    case Put(e, v) => e in r.canonical && r.canonical[e] == v && e !in r.retractions
    case Remove(e) => e !in r.canonical && e !in r.retractions
    case Retract(e) => e !in r.canonical && e in r.retractions
  }

  ghost predicate Untouched(a: Replicated, b: Replicated, e: Entity) {
    && (e in b.canonical <==> e in a.canonical)
    && (e in b.canonical && e in a.canonical ==> b.canonical[e] == a.canonical[e])
    && (e in b.retractions <==> e in a.retractions)
  }

  /** The last change of each entity stands, and an entity that none names is as it was. */
  ghost predicate Viewed(before: Replicated, cs: seq<ViewChange>, after: Replicated) {
    && (forall i :: 0 <= i < |cs| && Last(cs, i) ==> Stands(cs[i], after))
    && (forall e :: e !in ViewEntities(cs) ==> Untouched(before, after, e))
  }

  lemma OneViewed(r: Replicated, c: ViewChange)
    ensures Stands(c, ApplyViewChange(r, c))
    ensures forall e :: e != c.entity ==> Untouched(r, ApplyViewChange(r, c), e)
  {}

  lemma {:induction false} ApplyViewStands(r: Replicated, cs: seq<ViewChange>)
    ensures Viewed(r, cs, ApplyView(r, cs))
    decreases |cs|
  {
    if cs != [] {
      var front, c := cs[..|cs| - 1], cs[|cs| - 1];
      assert cs == front + [c];
      ApplyViewStands(r, front);
      OneViewed(ApplyView(r, front), c);
      forall i | 0 <= i < |cs| && Last(cs, i) ensures Stands(cs[i], ApplyView(r, cs)) {
        if i < |front| {
          assert front[i] == cs[i] && Last(front, i);
          StandsOn(cs[i], ApplyView(r, front), ApplyView(r, cs));
        }
      }
      forall e | e !in ViewEntities(cs) ensures Untouched(r, ApplyView(r, cs), e) {
        assert e !in ViewEntities(front) && c in cs;
        assert Untouched(r, ApplyView(r, front), e) && Untouched(ApplyView(r, front), ApplyView(r, cs), e);
      }
    }
  }

  lemma StandsOn(c: ViewChange, a: Replicated, b: Replicated)
    requires Stands(c, a) && Untouched(a, b, c.entity)
    ensures Stands(c, b)
  {}

  // ---------------------------------------------------------------- a whole snapshot

  /** A snapshot replaces the canonical rows; what was canonical and is not in it becomes retracted. */
  function Replacement(r: Replicated, entries: seq<ViewChange>): Replicated {
    ApplyView(Replicated(map[], r.retractions + (r.canonical.Keys - ViewEntities(entries))), entries)
  }

  /** The entries stand; an entity that none names has no row, and is retracted if it was or had one. */
  ghost predicate Replaced(before: Replicated, entries: seq<ViewChange>, after: Replicated) {
    && (forall i :: 0 <= i < |entries| && Last(entries, i) ==> Stands(entries[i], after))
    && (forall e :: e !in ViewEntities(entries) ==>
          && e !in after.canonical
          && (e in after.retractions <==> e in before.retractions || e in before.canonical))
  }

  lemma ReplacementReplaces(r: Replicated, entries: seq<ViewChange>)
    ensures Replaced(r, entries, Replacement(r, entries)) && Fenced(Replacement(r, entries))
  {
    var start := Replicated(map[], r.retractions + (r.canonical.Keys - ViewEntities(entries)));
    ApplyViewStands(start, entries);
    ViewKeepsFence(start, entries);
    forall e | e !in ViewEntities(entries)
      ensures e !in Replacement(r, entries).canonical
      ensures e in Replacement(r, entries).retractions <==> e in r.retractions || e in r.canonical
    {
      assert Untouched(start, Replacement(r, entries), e);
    }
  }

  ghost predicate NamedOnce(entries: seq<ViewChange>) {
    forall i, j :: 0 <= i < j < |entries| ==> entries[i].entity != entries[j].entity
  }

  /** With every entity named once, the canonical rows are exactly the snapshot's. */
  lemma ReplacedByPuts(before: Replicated, entries: seq<ViewChange>, after: Replicated)
    requires Replaced(before, entries, after) && NamedOnce(entries)
    ensures forall e, v :: e in after.canonical && after.canonical[e] == v <==> Put(e, v) in entries
  {
    forall e, v ensures e in after.canonical && after.canonical[e] == v <==> Put(e, v) in entries {
      if e in ViewEntities(entries) {
        var i :| 0 <= i < |entries| && entries[i].entity == e;
        assert Last(entries, i) && Stands(entries[i], after);
        if j :| 0 <= j < |entries| && entries[j] == Put(e, v) { assert j == i; }
      } else {
        assert Put(e, v) in entries ==> Put(e, v).entity in ViewEntities(entries);
      }
    }
  }
}
