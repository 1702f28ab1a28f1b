/** Ordered, limited reads of a keyed table: `WHERE key > after ORDER BY key LIMIT limit`. */
module Paging {

  lemma {:induction false} LeastExists(keys: set<nat>)
    requires keys != {}
    ensures exists k :: k in keys && forall j :: j in keys ==> k <= j
  {
    var x :| x in keys;
    LeastBelow(keys, x);
  }

  lemma {:induction false} LeastBelow(keys: set<nat>, x: nat)
    requires x in keys
    ensures exists k :: k in keys && forall j :: j in keys ==> k <= j
    decreases x
  {
    if y :| y in keys && y < x {
      LeastBelow(keys, y);
    }
  }

  function Least(keys: set<nat>): (k: nat)
    requires keys != {}
    ensures k in keys && forall j :: j in keys ==> k <= j
  {
    LeastExists(keys);
    var k :| k in keys && forall j :: j in keys ==> k <= j;
    k
  }

  function After(keys: set<nat>, after: nat): set<nat> {
    set k | k in keys && after < k
  }

  ghost predicate Ascending(s: seq<nat>) {
    forall i, j :: 0 <= i < j < |s| ==> s[i] < s[j]
  }

  /** Every key is on the page, or the page is full and the key lies past it. */
  ghost predicate Complete(page: seq<nat>, keys: set<nat>, limit: nat) {
    forall k :: k in keys ==> k in page || (|page| == limit && forall j :: j in page ==> j < k)
  }

  /** The lowest keys in order, at most `limit` of them. */
  function Lowest(keys: set<nat>, limit: nat): (page: seq<nat>)
    ensures |page| <= limit && Ascending(page) && Complete(page, keys, limit)
    ensures forall k :: k in page ==> k in keys
    decreases limit
  {
    if limit == 0 || keys == {} then []
    else
      var first := Least(keys);
      var rest := Lowest(keys - {first}, limit - 1);
      PageExtends(keys, limit, first, rest);
      [first] + rest
  }

  lemma PageExtends(keys: set<nat>, limit: nat, first: nat, rest: seq<nat>)
    requires limit > 0 && first in keys && forall j :: j in keys ==> first <= j
    requires |rest| < limit && Ascending(rest) && forall k :: k in rest ==> k in keys - {first}
    requires Complete(rest, keys - {first}, limit - 1)
    ensures var page := [first] + rest;
            Ascending(page) && Complete(page, keys, limit) && forall k :: k in page ==> k in keys
  {
    var page := [first] + rest;
    assert forall i :: 0 <= i < |rest| ==> rest[i] in rest;
    forall k | k in keys && k !in page ensures |page| == limit && forall j :: j in page ==> j < k {
      assert page[0] == first && k in keys - {first};
      assert k !in rest by { assert rest == page[1..]; }
    }
  }

  /** The page is ascending, within the limit, and skips no key before its last one. */
  function NextBatch(keys: set<nat>, after: nat, limit: nat): (page: seq<nat>)
    ensures |page| <= limit && Ascending(page) && Complete(page, After(keys, after), limit)
    ensures forall k :: k in page ==> k in keys && after < k
  {
    Lowest(After(keys, after), limit)
  }

  /** Position reached before reading entry `i` of a page that starts after `after`. */
  function Reached(page: seq<nat>, after: nat, i: nat): nat
    requires i <= |page|
  {
    if i == 0 then after else page[i - 1]
  }

  /** No key lies between two neighbouring entries of a page. */
  lemma NoKeySkipped(keys: set<nat>, after: nat, limit: nat, i: nat)
    requires i < |NextBatch(keys, after, limit)|
    ensures var page := NextBatch(keys, after, limit);
            && page[i] in keys && after <= Reached(page, after, i) < page[i]
            && forall k :: Reached(page, after, i) < k < page[i] ==> k !in keys
  {
    var page := NextBatch(keys, after, limit);
    assert page[i] in page;
    if i > 0 { assert page[i - 1] in page; }
    forall k | Reached(page, after, i) < k < page[i] ensures k !in keys {
      NothingBetween(page, after, i, k);
      assert !(forall j :: j in page ==> j < k);
    }
  }

  lemma NothingBetween(page: seq<nat>, after: nat, i: nat, k: nat)
    requires Ascending(page) && i < |page| && Reached(page, after, i) < k < page[i]
    ensures k !in page
  {
    forall j | 0 <= j < |page| ensures page[j] != k {
      if j < i - 1 { assert page[j] < page[i - 1]; }
    }
  }

  /** A page shorter than its limit reaches past every key. */
  lemma ShortPageIsLast(keys: set<nat>, after: nat, limit: nat)
    requires |NextBatch(keys, after, limit)| < limit
    ensures var page := NextBatch(keys, after, limit);
            forall k :: Reached(page, after, |page|) < k ==> k !in keys
  {
    var page := NextBatch(keys, after, limit);
    if page != [] { assert page[|page| - 1] in page; }
    forall k | k in page ensures k <= Reached(page, after, |page|) {
      var j :| 0 <= j < |page| && page[j] == k;
      if j < |page| - 1 { assert page[j] < page[|page| - 1]; }
    }
    assert forall k :: k in keys && after < k ==> k in After(keys, after);
  }
}
