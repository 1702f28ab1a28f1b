/** Entity tables and the optimistic changes a mutation handler writes to them. */
module Tables {
  import opened Basics

  datatype Entity = Entity(model: string, key: string)

  datatype Value = Value(version: nat, json: string)

  type Table = map<Entity, Value>

  datatype Change =
    | Upsert(entity: Entity, value: Value)
    | Delete(entity: Entity)

  function Get(t: Table, e: Entity): Option<Value> {
    if e in t then Some(t[e]) else None
  }

  function Apply(t: Table, c: Change): Table {
    match c
    case Upsert(e, v) => t[e := v]
    case Delete(e) => t - {e}
  }

  function ApplyAll(t: Table, cs: seq<Change>): Table
    decreases |cs|
  {
    if cs == [] then t else ApplyAll(Apply(t, cs[0]), cs[1..])
  }

  function EntitiesOf(cs: seq<Change>): set<Entity> {
    set c | c in cs :: c.entity
  }

  /** The two tables hold the same row, or both no row, for every entity outside `s`. */
  ghost predicate AgreeOutside(a: Table, b: Table, s: set<Entity>) {
    forall e :: e !in s ==> Get(a, e) == Get(b, e)
  }

  /** `t` with its rows for `s` replaced by those of `source`. */
  function Reset(t: Table, s: set<Entity>, source: Table): Table {
    (t - s) + (map e | e in source && e in s :: source[e])
  }

  lemma SameRows(a: Table, b: Table)
    requires forall e :: Get(a, e) == Get(b, e)
    ensures a == b
  {
    assert forall e :: e in a <==> Get(a, e).Some?;
    assert forall e :: e in b <==> Get(b, e).Some?;
    forall e | e in a ensures e in b && a[e] == b[e] {
      assert Get(a, e) == Some(a[e]);
    }
  }

  lemma {:induction false} ApplyAllFrame(t: Table, cs: seq<Change>)
    ensures AgreeOutside(t, ApplyAll(t, cs), EntitiesOf(cs))
    decreases |cs|
  {
    if cs == [] {
    } else {
      var next := Apply(t, cs[0]);
      ApplyAllFrame(next, cs[1..]);
      forall e | e !in EntitiesOf(cs) ensures Get(t, e) == Get(ApplyAll(t, cs), e) {
        assert cs[0] in cs && EntitiesOf(cs[1..]) <= EntitiesOf(cs);
        assert Get(next, e) == Get(t, e);
      }
    }
  }

  /** No later change names the same entity. */
  ghost predicate Decisive(cs: seq<Change>, i: nat) {
    i < |cs| && forall j :: i < j < |cs| ==> cs[j].entity != cs[i].entity
  }

  /** Row by row: what the changes leave behind. The last change of an entity decides; others stay as they were. */
  ghost predicate Written(before: Table, cs: seq<Change>, after: Table) {
    && (forall i :: 0 <= i < |cs| && Decisive(cs, i) ==>
          match cs[i]
          case Upsert(e, v) => e in after && after[e] == v
          case Delete(e) => e !in after)
    && (forall e :: (forall i :: 0 <= i < |cs| ==> cs[i].entity != e) ==>
          (e in after <==> e in before) && (e in before ==> after[e] == before[e]))
  }

  lemma {:induction false} ChangeDecides(t: Table, cs: seq<Change>, i: nat)
    requires Decisive(cs, i)
    ensures match cs[i]
            case Upsert(e, v) => e in ApplyAll(t, cs) && ApplyAll(t, cs)[e] == v
            case Delete(e) => e !in ApplyAll(t, cs)
    decreases |cs|
  {
    var next := Apply(t, cs[0]);
    if i == 0 {
      ApplyAllFrame(next, cs[1..]);
      var e := cs[0].entity;
      assert e !in EntitiesOf(cs[1..]) by {
        forall c | c in cs[1..] ensures c.entity != e {
          var j :| 0 <= j < |cs[1..]| && cs[1..][j] == c;
          assert cs[j + 1] == c;
        }
      }
      assert Get(next, e) == Get(ApplyAll(t, cs), e);
    } else {
      assert forall j :: i <= j < |cs| ==> cs[1..][j - 1] == cs[j];
      ChangeDecides(next, cs[1..], i - 1);
    }
  }

  lemma ApplyAllWrites(t: Table, cs: seq<Change>)
    ensures Written(t, cs, ApplyAll(t, cs))
  {
    forall i | 0 <= i < |cs| && Decisive(cs, i)
      ensures match cs[i]
              case Upsert(e, v) => e in ApplyAll(t, cs) && ApplyAll(t, cs)[e] == v
              case Delete(e) => e !in ApplyAll(t, cs)
    {
      ChangeDecides(t, cs, i);
    }
    ApplyAllFrame(t, cs);
    forall e | forall i :: 0 <= i < |cs| ==> cs[i].entity != e
      ensures (e in ApplyAll(t, cs) <==> e in t) && (e in t ==> ApplyAll(t, cs)[e] == t[e])
    {
      assert e !in EntitiesOf(cs);
      assert Get(t, e) == Get(ApplyAll(t, cs), e);
    }
  }

  lemma LastChange(cs: seq<Change>, e: Entity, n: nat) returns (i: nat)
    requires n < |cs| && cs[n].entity == e
    ensures Decisive(cs, i) && cs[i].entity == e
    decreases |cs| - n
  {
    i := n;
    if j :| n < j < |cs| && cs[j].entity == e { i := LastChange(cs, e, j); }
  }

  /** So the changes and the table before them determine the table after them. */
  lemma WrittenOnce(before: Table, cs: seq<Change>, a: Table, b: Table)
    requires Written(before, cs, a) && Written(before, cs, b)
    ensures a == b
  {
    forall e ensures Get(a, e) == Get(b, e) {
      if n :| 0 <= n < |cs| && cs[n].entity == e { var i := LastChange(cs, e, n); }
    }
    SameRows(a, b);
  }

  lemma AgreeOutsideBoth(a: Table, b: Table, c: Table, s: set<Entity>, t: set<Entity>)
    requires AgreeOutside(a, b, s) && AgreeOutside(b, c, t)
    ensures AgreeOutside(a, c, s + t)
  {
    forall e | e !in s + t ensures Get(a, e) == Get(c, e) {
      assert Get(a, e) == Get(b, e);
    }
  }

  lemma ResetRows(t: Table, s: set<Entity>, source: Table)
    ensures forall e :: Get(Reset(t, s, source), e) == if e in s then Get(source, e) else Get(t, e)
  {}

  /** Resetting every entity on which the tables may differ restores the source. */
  lemma ResetRestores(t: Table, s: set<Entity>, source: Table)
    requires AgreeOutside(t, source, s)
    ensures Reset(t, s, source) == source
  {
    ResetRows(t, s, source);
    forall e ensures Get(Reset(t, s, source), e) == Get(source, e) {}
    SameRows(Reset(t, s, source), source);
  }
}
