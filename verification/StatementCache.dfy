/**
 The prepared statements of one SQLite connection: a least-recently-used cache in which a statement
 in use is pinned, and every statement is finalized once, when it is neither cached nor in use.
 */
module StatementCache {
  import opened Basics

  // ---------------------------------------------------------------- order of use

  /** The order without one key. */
  function Without(order: seq<string>, sql: string): (rest: seq<string>)
    ensures forall s :: s in rest <==> s in order && s != sql
  {
    if order == [] then []
    else
      assert forall s :: s in order <==> s == order[0] || s in order[1..];
      var rest := Without(order[1..], sql);
      if order[0] == sql then rest else [order[0]] + rest
  }

  /** Every key was used, and each one before the keys that follow it. */
  ghost predicate ByUse(order: seq<string>, used: map<string, nat>)
    decreases |order|
  {
    order == [] ||
    (order[0] in used && (forall s :: s in order[1..] ==> s in used && used[order[0]] < used[s])
     && ByUse(order[1..], used))
  }

  lemma {:induction false} WithoutKeeps(order: seq<string>, sql: string, used: map<string, nat>)
    requires ByUse(order, used)
    ensures ByUse(Without(order, sql), used)
    ensures |Without(order, sql)| == |order| - if sql in order then 1 else 0
    decreases |order|
  {
    if order != [] {
      WithoutKeeps(order[1..], sql, used);
      assert order[0] !in order[1..];
    }
  }

  lemma {:induction false} WithoutAbsent(order: seq<string>, sql: string)
    requires sql !in order
    ensures Without(order, sql) == order
    decreases |order|
  {
    if order != [] {
      assert order[0] in order && forall s :: s in order[1..] ==> s in order;
      WithoutAbsent(order[1..], sql);
      assert order == [order[0]] + order[1..];
    }
  }

  /** What is used last leaves its place at the head to the next. */
  lemma WithoutHead(order: seq<string>, sql: string, used: map<string, nat>)
    requires ByUse(order, used) && sql !in order
    ensures Without(order + [sql], (order + [sql])[0]) == (order + [sql])[1..]
  {
    var all := order + [sql];
    if order != [] { assert all[1..] == order[1..] + [sql] && order[0] in order && order[0] !in order[1..]; }
    WithoutAbsent(all[1..], all[0]);
  }

  lemma {:induction false} UseLast(order: seq<string>, sql: string, used: map<string, nat>, clock: nat)
    requires ByUse(order, used) && sql !in order && forall s :: s in used ==> used[s] < clock
    ensures ByUse(order + [sql], used[sql := clock])
    decreases |order|
  {
    if order == [] {
      var last := order + [sql];
      assert last[0] == sql && last[1..] == [] && ByUse(last[1..], used[sql := clock]);
    } else {
      UseLast(order[1..], sql, used, clock);
      assert (order + [sql])[1..] == order[1..] + [sql];
      assert order[0] in order;
    }
  }

  // ---------------------------------------------------------------- the cache

  /** A failed eviction fails the checkout it was part of. */
  datatype Checkout = Prepared(statement: nat) | EvictionFailed

  /** The state of the cache: what is prepared, in use, finalized, and in use with nobody to return it. */
  datatype Cache = Cache(size: nat, prepared: map<string, nat>, order: seq<string>, running: set<nat>,
                         text: map<nat, string>, finalized: map<nat, nat>, stranded: set<nat>)

  /** What callers do, in any interleaving; preparing may overlap with other uses of the same text. */
  datatype Operation =
    | Reuse(sql: string)
    | Complete(sql: string, created: nat, evictionSucceeds: bool)
    | Return(statement: nat, failed: bool)

  predicate Hits(c: Cache, sql: string) {
    sql in c.prepared && c.prepared[sql] !in c.running
  }

  function Adopted(c: Cache, sql: string, created: nat): Cache {
    var a := c.(text := c.text[created := sql], finalized := c.finalized[created := 0],
               running := c.running + {created});
    if sql in c.prepared then a else a.(prepared := c.prepared[sql := created], order := c.order + [sql])
  }

  function Finalized(c: Cache, statement: nat): Cache {
    c.(finalized := c.finalized[statement := (if statement in c.finalized then c.finalized[statement] else 0) + 1])
  }

  function Evicted(c: Cache, sql: string): Cache
    requires sql in c.prepared
  {
    var e := c.(prepared := c.prepared - {sql}, order := Without(c.order, sql));
    if c.prepared[sql] in c.running then e else Finalized(e, c.prepared[sql])
  }

  /** The text that a new statement pushes out, if the cache is full. */
  function Pushed(a: Cache): Option<string> {
    if |a.order| > a.size && a.order[0] in a.prepared then Some(a.order[0]) else None
  }

  function Completed(c: Cache, sql: string, created: nat, evictionSucceeds: bool): (Cache, Checkout) {
    var a := Adopted(c, sql, created);
    if sql in c.prepared || Pushed(a).None? then (a, Prepared(created))
    else
      var head := Pushed(a).value;
      if evictionSucceeds || a.prepared[head] in a.running then (Evicted(a, head), Prepared(created))
      else (Evicted(a, head).(stranded := c.stranded + {created}), EvictionFailed)
  }

  function Returned(c: Cache, statement: nat, failed: bool): Cache
    requires statement in c.text
  {
    var sql := c.text[statement];
    var cached := sql in c.prepared && c.prepared[sql] == statement;
    var idle := c.(running := c.running - {statement});
    if cached && !failed then idle
    else if cached then Finalized(idle.(prepared := c.prepared - {sql}, order := Without(c.order, sql)), statement)
    else Finalized(idle, statement)
  }

  predicate Allowed(c: Cache, op: Operation) {
    match op
    case Reuse(_) => true
    case Complete(_, created, _) => created !in c.text
    case Return(statement, _) => statement in c.running && statement !in c.stranded && statement in c.text
  }

  function Performed(c: Cache, op: Operation): Cache
    requires Allowed(c, op)
  {
    match op
    case Reuse(sql) =>
      if Hits(c, sql) then c.(order := Without(c.order, sql) + [sql], running := c.running + {c.prepared[sql]}) else c
    case Complete(sql, created, evictionSucceeds) => Completed(c, sql, created, evictionSucceeds).0
    case Return(statement, failed) => Returned(c, statement, failed)
  }

  // ---------------------------------------------------------------- finalized once

  ghost predicate CachedIn(c: Cache, s: nat)
    requires s in c.text
  {
    c.text[s] in c.prepared && c.prepared[c.text[s]] == s
  }

  /** A statement has been finalized once if it is neither cached nor running, and otherwise never. */
  ghost predicate FinalizedOnce(c: Cache) {
    && c.finalized.Keys == c.text.Keys
    && forall s :: s in c.text ==> c.finalized[s] == if CachedIn(c, s) || s in c.running then 0 else 1
  }

  ghost predicate Known(c: Cache) {
    && c.running <= c.text.Keys && c.stranded <= c.running
    && forall sql :: sql in c.prepared ==> c.prepared[sql] in c.text && c.text[c.prepared[sql]] == sql
  }

  ghost predicate Sound(c: Cache) {
    FinalizedOnce(c) && Known(c)
  }

  lemma AdoptedSound(c: Cache, sql: string, created: nat)
    requires Sound(c) && created !in c.text
    ensures Sound(Adopted(c, sql, created))
  {
    var a := Adopted(c, sql, created);
    forall s | s in a.text ensures a.finalized[s] == if CachedIn(a, s) || s in a.running then 0 else 1 {
      if s != created { assert CachedIn(a, s) <==> CachedIn(c, s); }
    }
  }

  lemma EvictedSound(c: Cache, sql: string)
    requires Sound(c) && sql in c.prepared
    ensures Sound(Evicted(c, sql))
  {
    var e := Evicted(c, sql);
    forall s | s in e.text ensures e.finalized[s] == if CachedIn(e, s) || s in e.running then 0 else 1 {
      if s == c.prepared[sql] { assert CachedIn(c, s); } else { assert CachedIn(e, s) <==> CachedIn(c, s); }
    }
  }

  lemma CompletedSound(c: Cache, sql: string, created: nat, evictionSucceeds: bool)
    requires Sound(c) && created !in c.text
    ensures Sound(Completed(c, sql, created, evictionSucceeds).0)
  {
    var a := Adopted(c, sql, created);
    AdoptedSound(c, sql, created);
    if Pushed(a).Some? {
      EvictedSound(a, a.order[0]);
      StrandedSound(Evicted(a, a.order[0]), created);
    }
  }

  lemma StrandedSound(c: Cache, created: nat)
    requires Sound(c)
    ensures created in c.running ==> Sound(c.(stranded := c.stranded + {created}))
  {
    var d := c.(stranded := c.stranded + {created});
    forall s | s in d.text ensures CachedIn(d, s) <==> CachedIn(c, s) {}
  }

  lemma ReturnedSound(c: Cache, statement: nat, failed: bool)
    requires Sound(c) && Allowed(c, Return(statement, failed))
    ensures Sound(Returned(c, statement, failed))
  {
    var d := Returned(c, statement, failed);
    forall s | s in d.text ensures d.finalized[s] == if CachedIn(d, s) || s in d.running then 0 else 1 {
      if s != statement { assert CachedIn(d, s) <==> CachedIn(c, s); }
    }
  }

  lemma PerformedSound(c: Cache, op: Operation)
    requires Sound(c) && Allowed(c, op)
    ensures Sound(Performed(c, op))
  {
    match op
    case Reuse(sql) =>
      var d := Performed(c, op);
      forall s | s in d.text ensures d.finalized[s] == if CachedIn(d, s) || s in d.running then 0 else 1 {
        assert CachedIn(d, s) <==> CachedIn(c, s);
      }
    case Complete(sql, created, evictionSucceeds) => CompletedSound(c, sql, created, evictionSucceeds);
    case Return(statement, failed) => ReturnedSound(c, statement, failed);
  }

  ghost predicate AllAllowed(c: Cache, ops: seq<Operation>)
    decreases |ops|
  {
    ops == [] || (Allowed(c, ops[0]) && AllAllowed(Performed(c, ops[0]), ops[1..]))
  }

  function After(c: Cache, ops: seq<Operation>): Cache
    requires AllAllowed(c, ops)
    decreases |ops|
  {
    if ops == [] then c else After(Performed(c, ops[0]), ops[1..])
  }

  /** In every interleaving, what is cached or in use is open, and everything else was finalized once. */
  lemma {:induction false} RunKeepsSound(c: Cache, ops: seq<Operation>)
    requires Sound(c) && AllAllowed(c, ops)
    ensures Sound(After(c, ops))
    decreases |ops|
  {
    if ops != [] {
      PerformedSound(c, ops[0]);
      RunKeepsSound(Performed(c, ops[0]), ops[1..]);
    }
  }

  // ---------------------------------------------------------------- stranded statements

  ghost predicate Stranded(c: Cache, s: nat) {
    && s in c.stranded && s in c.running && s in c.text
    && s in c.finalized && c.finalized[s] == 0
  }

  /** A checkout strands its statement exactly if it pushes out an idle one that cannot be finalized. */
  lemma StrandsExactly(c: Cache, sql: string, created: nat, evictionSucceeds: bool)
    requires created !in c.text && c.stranded <= c.text.Keys && |c.order| <= c.size
    requires forall s :: s in c.order ==> s in c.prepared
    ensures created in Completed(c, sql, created, evictionSucceeds).0.stranded
            <==> && sql !in c.prepared && |c.order| >= c.size > 0
                 && c.prepared[c.order[0]] !in c.running + {created} && !evictionSucceeds
  {
    var a := Adopted(c, sql, created);
    if sql !in c.prepared {
      assert a.order[0] == if c.order == [] then sql else c.order[0];
    }
  }

  lemma StrandedStays(c: Cache, op: Operation, s: nat)
    requires Allowed(c, op) && Stranded(c, s)
    ensures Stranded(Performed(c, op), s) && Performed(c, op).text[s] == c.text[s]
  {}

  /**
   Once stranded, a statement is in use and unfinalized for good, and as long as its text is cached
   as that statement, nobody who asks for the text gets a cached one.
   */
  lemma {:induction false} StrandedForever(c: Cache, ops: seq<Operation>, s: nat)
    requires AllAllowed(c, ops) && Stranded(c, s)
    ensures var d := After(c, ops);
            && Stranded(d, s) && d.text[s] == c.text[s]
            && (d.text[s] in d.prepared && d.prepared[d.text[s]] == s ==> !Hits(d, d.text[s]))
            && forall failed :: !Allowed(d, Return(s, failed))
    decreases |ops|
  {
    if ops != [] {
      StrandedStays(c, ops[0], s);
      StrandedForever(Performed(c, ops[0]), ops[1..], s);
    }
  }

  function Empty(size: nat): Cache {
    Cache(size, map[], [], {}, map[], map[], {})
  }

  /** A cache of one: its idle statement is pushed out, cannot be finalized, and the new one is stranded. */
  lemma StrandingHappens()
    ensures var ops := [Complete("a", 0, true), Return(0, false), Complete("b", 1, false)];
            && AllAllowed(Empty(1), ops)
            && var c := After(Empty(1), ops);
               Stranded(c, 1) && c.prepared == map["b" := 1] && !Hits(c, "b") && Performed(c, Reuse("b")) == c
  {
    var a, r, b := Complete("a", 0, true), Return(0, false), Complete("b", 1, false);
    var c1 := Cache(1, map["a" := 0], ["a"], {0}, map[0 := "a"], map[0 := 0], {});
    var c2 := c1.(running := {});
    FirstIsKept();
    assert Performed(c1, r) == c2;
    NewIsStranded(c2);
    assert [a, r, b][1..] == [r, b] && [r, b][1..] == [b] && [b][1..] == [];
    assert AllAllowed(c2, [b]) && After(c2, [b]) == Performed(c2, b);
  }

  lemma FirstIsKept()
    ensures Performed(Empty(1), Complete("a", 0, true))
            == Cache(1, map["a" := 0], ["a"], {0}, map[0 := "a"], map[0 := 0], {})
  {
    assert [] + ["a"] == ["a"] && {} + {0} == {0};
    assert Adopted(Empty(1), "a", 0) == Cache(1, map["a" := 0], ["a"], {0}, map[0 := "a"], map[0 := 0], {});
  }

  lemma NewIsStranded(c: Cache)
    requires c == Cache(1, map["a" := 0], ["a"], {}, map[0 := "a"], map[0 := 0], {})
    ensures var d := Performed(c, Complete("b", 1, false));
            Stranded(d, 1) && d.prepared == map["b" := 1] && !Hits(d, "b")
  {
    assert ["a"] + ["b"] == ["a", "b"] && Without(["a", "b"][1..], "a") == ["b"];
    assert map["a" := 0, "b" := 1] - {"a"} == map["b" := 1];
  }

  // ---------------------------------------------------------------- the connection

  class Connection {
    const prepareCacheSize: nat
    var prepared: map<string, nat>
    /** The cached texts, oldest use first. */
    var order: seq<string>
    var running: set<nat>
    /** The text of every statement that was ever prepared, and how often it has been finalized. */
    ghost var text: map<nat, string>
    ghost var finalized: map<nat, nat>
    ghost var clock: nat
    ghost var used: map<string, nat>
    /** Statements that are running although no caller has them. */
    ghost var stranded: set<nat>

    ghost function Current(): Cache
      reads this
    {
      Cache(prepareCacheSize, prepared, order, running, text, finalized, stranded)
    }

    ghost predicate Ordered()
      reads this
    {
      && (forall sql :: sql in prepared <==> sql in order)
      && ByUse(order, used) && (forall sql :: sql in used ==> used[sql] < clock)
    }

    ghost predicate Valid()
      reads this
    {
      Sound(Current()) && Ordered() && |order| <= prepareCacheSize
    }

    constructor (prepareCacheSize: nat)
      ensures Valid() && this.prepareCacheSize == prepareCacheSize && text == map[]
    {
      this.prepareCacheSize := prepareCacheSize;
      prepared, order, running := map[], [], {};
      text, finalized, clock, used, stranded := map[], map[], 0, map[], {};
    }

    /** A cached statement that nobody is using is handed out, and is then the newest. */
    method CheckoutCached(sql: string) returns (hit: Option<nat>)
      requires Valid()
      modifies `order, `running, `clock, `used
      ensures Valid()
      ensures hit.Some? <==> sql in prepared && prepared[sql] !in old(running)
      ensures hit.Some? ==> hit.value == prepared[sql] && running == old(running) + {hit.value}
      ensures hit.Some? ==> order == Without(old(order), sql) + [sql] && used == old(used)[sql := old(clock)]
      ensures hit.None? ==> running == old(running) && order == old(order) && used == old(used)
      ensures Current() == Performed(old(Current()), Reuse(sql))
    {
      if sql !in prepared || prepared[sql] in running { return None; }
      PerformedSound(Current(), Reuse(sql));
      WithoutKeeps(order, sql, used);
      UseLast(Without(order, sql), sql, used, clock);
      order := Without(order, sql) + [sql];
      used, clock := used[sql := clock], clock + 1;
      running := running + {prepared[sql]};
      hit := Some(prepared[sql]);
    }

    method Forget(sql: string)
      requires Ordered() && sql in prepared
      modifies `prepared, `order
      ensures Ordered() && prepared == old(prepared) - {sql} && |order| == |old(order)| - 1
      ensures order == Without(old(order), sql)
    {
      WithoutKeeps(order, sql, used);
      prepared, order := prepared - {sql}, Without(order, sql);
    }

    method Remember(sql: string, statement: nat)
      requires Ordered() && sql !in prepared
      modifies `prepared, `order, `clock, `used
      ensures Ordered() && prepared == old(prepared)[sql := statement] && order == old(order) + [sql]
    {
      UseLast(order, sql, used, clock);
      prepared, order := prepared[sql := statement], order + [sql];
      used, clock := used[sql := clock], clock + 1;
    }

    /** Takes a text out of the cache. A statement in use stays open until it is checked in. */
    method Evict(sql: string, succeeds: bool) returns (ok: bool)
      requires Ordered() && sql in prepared && prepared[sql] in finalized
      modifies `prepared, `order, `finalized
      ensures Ordered() && |order| == |old(order)| - 1 && Current() == Evicted(old(Current()), sql)
      ensures ok <==> succeeds || old(prepared)[sql] in running
    {
      var statement := prepared[sql];
      Forget(sql);
      if statement in running { return true; }
      Finalize(statement);
      ok := succeeds;
    }

    /** A new statement is running, and cached as the newest if its text is not cached yet. */
    method Adopt(sql: string, created: nat)
      requires Ordered()
      modifies `prepared, `order, `running, `text, `finalized, `clock, `used
      ensures Ordered() && Current() == Adopted(old(Current()), sql, created)
    {
      text, finalized, running := text[created := sql], finalized[created := 0], running + {created};
      if sql !in prepared {
        Remember(sql, created);
      }
    }

    /** Caches the new statement if its text is not cached, and pushes out the oldest text if it must. */
    method CacheNew(sql: string, created: nat, evictionSucceeds: bool) returns (out: Checkout)
      requires Ordered() && |order| <= prepareCacheSize && created !in text
      requires prepared.Values <= finalized.Keys
      modifies this
      ensures Ordered() && |order| <= prepareCacheSize
      ensures (Current(), out) == Completed(old(Current()), sql, created, evictionSucceeds)
    {
      var cached := sql in prepared;
      Adopt(sql, created);
      assert |order| > prepareCacheSize ==> Pushed(Current()) == Some(order[0]);
      if !cached && |order| > prepareCacheSize {
        var ok := Evict(order[0], evictionSucceeds);
        if !ok {
          stranded := stranded + {created};
          return EvictionFailed;
        }
      }
      out := Prepared(created);
    }

    /**
     A statement has been prepared for the caller. It is cached unless another one with the same text
     already is, and then pushes out the text that was used longest ago. The checkout fails, and the
     statement is stranded, exactly if what it pushes out is idle and cannot be finalized.
     */
    method PrepareCompleted(sql: string, created: nat, evictionSucceeds: bool) returns (out: Checkout)
      requires Valid() && created !in text
      modifies this
      ensures Valid() && created in running && finalized[created] == 0
      ensures CompletedAs(old(Current()), sql, created, evictionSucceeds, Current(), out)
      ensures Current() == Performed(old(Current()), Complete(sql, created, evictionSucceeds))
    {
      CompletedMeans(Current(), sql, created, evictionSucceeds, used);
      CompletedSound(Current(), sql, created, evictionSucceeds);
      out := CacheNew(sql, created, evictionSucceeds);
      assert CachedIn(Current(), created) || created in running;
    }

    /** Takes the statement out of use, and finalizes it if it failed or is no longer cached. */
    method Release(sql: string, statement: nat, failed: bool)
      requires Ordered() && statement in text && text[statement] == sql && statement in finalized
      modifies `prepared, `order, `running, `finalized
      ensures Ordered() && |order| <= |old(order)| && Current() == Returned(old(Current()), statement, failed)
    {
      running := running - {statement};
      var cached := sql in prepared && prepared[sql] == statement;
      if cached && !failed { return; }
      if cached { Forget(sql); }
      Finalize(statement);
    }

    method Finalize(statement: nat)
      requires statement in finalized
      modifies `finalized
      ensures Current() == Finalized(old(Current()), statement)
    {
      finalized := finalized[statement := finalized[statement] + 1];
    }

    /** The caller is done; a statement that failed, or is no longer cached, is finalized now. */
    method Checkin(sql: string, statement: nat, failed: bool)
      requires Valid() && statement in running && statement !in stranded && text[statement] == sql
      modifies `prepared, `order, `running, `finalized
      ensures Valid() && running == old(running) - {statement}
      ensures old(CachedIn(Current(), statement)) && !failed ==>
                CachedIn(Current(), statement) && finalized == old(finalized)
      ensures !old(CachedIn(Current(), statement)) || failed ==>
                !CachedIn(Current(), statement) && finalized == old(finalized)[statement := 1]
      ensures forall s :: s in text && s != statement ==> (CachedIn(Current(), s) <==> old(CachedIn(Current(), s)))
      ensures Current() == Performed(old(Current()), Return(statement, failed))
    {
      ReturnedSound(Current(), statement, failed);
      assert finalized[statement] == 0;
      Release(sql, statement, failed);
    }
  }

  /**
   What a completed preparation leaves behind. A text that was cached stays as it is; a new one becomes
   the newest, and pushes out the oldest if the cache is full.
   */
  ghost predicate CompletedAs(c: Cache, sql: string, created: nat, evictionSucceeds: bool, d: Cache, out: Checkout) {
    && d.text == c.text[created := sql] && d.running == c.running + {created}
    && d.stranded == (if out.EvictionFailed? then c.stranded + {created} else c.stranded)
    && (out.EvictionFailed? <==>
          && sql !in c.prepared && |c.order| >= c.size > 0 && c.order[0] in c.prepared
          && c.prepared[c.order[0]] !in c.running + {created} && !evictionSucceeds)
    && (out.Prepared? ==> out.statement == created)
    && (sql in c.prepared ==>
          d.prepared == c.prepared && d.order == c.order && d.finalized == c.finalized[created := 0])
    && (sql !in c.prepared && |c.order| < c.size ==>
          d.prepared == c.prepared[sql := created] && d.order == c.order + [sql])
    && (sql !in c.prepared && |c.order| >= c.size ==>
          && d.prepared == c.prepared[sql := created] - {(c.order + [sql])[0]}
          && d.order == (c.order + [sql])[1..])
  }

  lemma CompletedMeans(c: Cache, sql: string, created: nat, evictionSucceeds: bool, used: map<string, nat>)
    requires |c.order| <= c.size && created !in c.text && forall s :: s in c.order <==> s in c.prepared
    requires ByUse(c.order, used)
    ensures var (d, out) := Completed(c, sql, created, evictionSucceeds);
            CompletedAs(c, sql, created, evictionSucceeds, d, out)
  {
    if sql !in c.prepared {
      WithoutHead(c.order, sql, used);
      assert (c.order + [sql])[0] == if c.order == [] then sql else c.order[0];
      assert (c.order + [sql])[0] in c.order + [sql];
    }
  }

  lemma {:induction false} OrderSize(order: seq<string>, used: map<string, nat>, keys: set<string>)
    requires ByUse(order, used) && forall s :: s in keys <==> s in order
    ensures |keys| == |order|
    decreases |order|
  {
    if order == [] {
      assert keys == {};
    } else {
      assert order[0] !in order[1..];
      OrderSize(order[1..], used, keys - {order[0]});
      assert keys == keys - {order[0]} + {order[0]};
    }
  }

  /** What is open is what is cached or running, and no more than the limit is cached. */
  lemma OpenExactly(c: Connection)
    requires c.Valid()
    ensures (set s | s in c.text && c.finalized[s] == 0) == c.running + c.prepared.Values
    ensures |c.prepared| <= c.prepareCacheSize
    ensures forall s :: s in c.text ==> c.finalized[s] <= 1
  {
    forall s | s in c.prepared.Values ensures s in c.text && CachedIn(c.Current(), s) {
      var sql :| sql in c.prepared && c.prepared[sql] == s;
      assert c.text[s] == sql;
    }
    forall s | s in c.text && CachedIn(c.Current(), s) ensures s in c.prepared.Values {
      assert c.text[s] in c.prepared;
    }
    OrderSize(c.order, c.used, c.prepared.Keys);
    assert |c.prepared| == |c.prepared.Keys|;
  }

  /** The head of the order, which is what an eviction takes, is the text used longest ago. */
  lemma HeadIsOldest(c: Connection, sql: string)
    requires c.Valid() && sql in c.prepared && sql != c.order[0]
    ensures c.used[c.order[0]] < c.used[sql]
  {
    assert sql in c.order[1..];
  }
}
