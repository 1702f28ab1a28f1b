/**
 A submission pass: the outbox is claimed in batches bounded by count and by encoded size, and the
 server answers each batch with receipts for a prefix of it.
 */
module Submission {
  import opened Basics
  import O = Outbox
  import opened Paging

  const MAXIMUM_SUBMIT_BATCH_ENTRIES: nat := 64
  const MAXIMUM_BATCH_BYTES: nat := 4 * 1024 * 1024

  // ---------------------------------------------------------------- rows in order

  /** The rows of the table, in ascending order. */
  ghost predicate ListOf(rows: seq<nat>, keys: set<nat>) {
    Ascending(rows) && forall r :: r in rows <==> r in keys
  }

  lemma {:induction false} ListExists(keys: set<nat>)
    ensures exists rows :: ListOf(rows, keys)
    decreases keys
  {
    if keys == {} {
      assert ListOf([], keys);
    } else {
      var first := Least(keys);
      ListExists(keys - {first});
      var rest :| ListOf(rest, keys - {first});
      Prepended(keys, first, rest);
      assert ListOf([first] + rest, keys);
    }
  }

  ghost function Listed(keys: set<nat>): (rows: seq<nat>)
    ensures ListOf(rows, keys)
  {
    ListExists(keys);
    var rows :| ListOf(rows, keys);
    rows
  }

  /** Reads the rows in order. */
  method SelectOrdered(keys: set<nat>) returns (rows: seq<nat>)
    ensures rows == Listed(keys)
  {
    rows := [];
    var left := keys;
    while left != {}
      invariant left <= keys && ListOf(rows, keys - left) && forall r, k :: r in rows && k in left ==> r < k
      decreases left
    {
      var first := Least(left);
      forall i | 0 <= i < |rows| ensures rows[i] < first { assert rows[i] in rows; }
      rows, left := rows + [first], left - {first};
    }
    assert keys - left == keys;
    AscendingUnique(rows, Listed(keys));
  }

  lemma Prepended(keys: set<nat>, first: nat, rest: seq<nat>)
    requires first in keys && forall k :: k in keys ==> first <= k
    requires Ascending(rest) && forall r :: r in rest <==> r in keys - {first}
    ensures Ascending([first] + rest) && forall r :: r in [first] + rest <==> r in keys
  {
    forall i | 0 <= i < |rest| ensures first < rest[i] { assert rest[i] in rest; }
  }

  lemma HasRow(rows: seq<nat>)
    ensures rows == [] || exists r :: r in rows
  {
    if rows != [] { assert rows[0] in rows; }
  }

  lemma {:induction false} AscendingUnique(a: seq<nat>, b: seq<nat>)
    requires Ascending(a) && Ascending(b) && forall r :: r in a <==> r in b
    ensures a == b
    decreases |a|
  {
    HasRow(b);
    if a != [] {
      assert a[0] in b && b[0] in a;
      TailRows(a);
      TailRows(b);
      AscendingUnique(a[1..], b[1..]);
      assert a == [a[0]] + a[1..] && b == [b[0]] + b[1..];
    }
  }

  lemma TailRows(a: seq<nat>)
    requires a != [] && Ascending(a)
    ensures Ascending(a[1..]) && forall r :: r in a[1..] <==> r in a && r != a[0]
  {
    forall r | r in a && r != a[0] ensures r in a[1..] {
      var i :| 0 <= i < |a| && a[i] == r;
      assert a[1..][i - 1] == r;
    }
  }

  function Within(keys: set<nat>, after: nat, through: nat): set<nat> {
    set k | k in keys && after < k <= through
  }

  /** The rows between two positions, in order. */
  function Range(rows: seq<nat>, after: nat, through: nat): seq<nat> {
    if rows == [] then []
    else (if after < rows[0] <= through then [rows[0]] else []) + Range(rows[1..], after, through)
  }

  lemma {:induction false} RangeRows(rows: seq<nat>, after: nat, through: nat)
    requires Ascending(rows)
    ensures Ascending(Range(rows, after, through))
    ensures forall r :: r in Range(rows, after, through) <==> r in rows && after < r <= through
    decreases |rows|
  {
    if rows != [] {
      TailRows(rows);
      RangeRows(rows[1..], after, through);
      var rest := Range(rows[1..], after, through);
      forall i | 0 <= i < |rest| ensures rows[0] < rest[i] { assert rest[i] in rest; }
    }
  }

  lemma RangeIsListed(keys: set<nat>, after: nat, through: nat)
    ensures Range(Listed(keys), after, through) == Listed(Within(keys, after, through))
  {
    RangeRows(Listed(keys), after, through);
    AscendingUnique(Range(Listed(keys), after, through), Listed(Within(keys, after, through)));
  }

  lemma {:induction false} RangeStep(rows: seq<nat>, i: nat, after: nat, through: nat)
    requires Ascending(rows) && i < |rows|
    ensures rows[i] > through ==> Range(rows[i..], after, through) == []
    ensures rows[i] <= after ==> Range(rows[i..], after, through) == Range(rows[i + 1..], after, through)
    ensures after < rows[i] <= through ==>
              Range(rows[i..], after, through) == [rows[i]] + Range(rows[i + 1..], after, through)
    decreases |rows| - i
  {
    assert rows[i..][1..] == rows[i + 1..];
    if rows[i] > through && i + 1 < |rows| {
      RangeStep(rows, i + 1, after, through);
    }
  }

  /** The rows past the n-th are listed after it. */
  lemma ListedOn(keys: set<nat>, after: nat, through: nat, n: nat)
    requires 0 < n <= |Listed(Within(keys, after, through))|
    ensures var rows := Listed(Within(keys, after, through));
            && after < rows[n - 1] <= through && rows[n..] == Listed(Within(keys, rows[n - 1], through))
  {
    var rows := Listed(Within(keys, after, through));
    assert rows[n - 1] in rows;
    var later := Listed(Within(keys, rows[n - 1], through));
    forall r | r in later ensures r in rows[n..] {
      assert r in rows;
      var i :| 0 <= i < |rows| && rows[i] == r;
      assert i >= n && rows[n..][i - n] == r;
    }
    forall r | r in rows[n..] ensures r in later {
      var i :| 0 <= i < |rows[n..]| && rows[n..][i] == r;
      assert rows[n + i] == r && rows[n + i] in rows;
    }
    AscendingUnique(rows[n..], later);
  }

  // ---------------------------------------------------------------- batches

  function Bytes(size: map<nat, nat>, row: nat): nat {
    if row in size then size[row] else 0
  }

  /** The encoded array: its opening bracket, and each envelope with the byte after it. */
  function Encoded(size: map<nat, nat>, batch: seq<nat>): nat {
    if batch == [] then 1 else Bytes(size, batch[0]) + 1 + Encoded(size, batch[1..])
  }

  /** A batch of one is always sent, however large; more must fit. */
  predicate Fits(size: map<nat, nat>, batch: seq<nat>) {
    |batch| <= MAXIMUM_SUBMIT_BATCH_ENTRIES && (|batch| <= 1 || Encoded(size, batch) <= MAXIMUM_BATCH_BYTES)
  }

  /** The longest prefix of the rows that fits in one request, and at least one row if there is any. */
  ghost predicate LongestFit(size: map<nat, nat>, rows: seq<nat>, batch: seq<nat>) {
    && batch <= rows && Fits(size, batch) && (rows != [] ==> batch != [])
    && (|batch| < |rows| ==> !Fits(size, rows[..|batch| + 1]))
  }

  /** Within both limits unless it is a single row, and stopped by one of them if rows are left. */
  lemma LongestFitExactly(size: map<nat, nat>, rows: seq<nat>, batch: seq<nat>)
    ensures LongestFit(size, rows, batch) <==>
              && batch <= rows && (rows != [] ==> batch != []) && |batch| <= 64
              && (|batch| > 1 ==> Encoded(size, batch) <= 4 * 1024 * 1024)
              && (batch < rows ==> |batch| == 64 || Encoded(size, rows[..|batch| + 1]) > 4 * 1024 * 1024)
  {}

  lemma {:induction false} EncodedOn(size: map<nat, nat>, batch: seq<nat>, row: nat)
    ensures Encoded(size, batch + [row]) == Encoded(size, batch) + Bytes(size, row) + 1
    ensures Encoded(size, []) == 1
    ensures row in size ==> Encoded(size, batch + [row]) == Encoded(size, batch) + size[row] + 1
    decreases |batch|
  {
    if batch == [] {
      assert batch + [row] == [row] && [row][1..] == [];
    } else {
      EncodedOn(size, batch[1..], row);
      assert (batch + [row])[1..] == batch[1..] + [row];
    }
  }

  lemma NextInList(all: seq<nat>, batch: seq<nat>, row: nat, rest: seq<nat>)
    requires all == batch + ([row] + rest)
    ensures all == batch + [row] + rest && all[..|batch| + 1] == batch + [row]
  {
  }

  /** The rows before `start`, and their sizes, are the same. */
  ghost predicate SameSizes(a: map<nat, nat>, b: map<nat, nat>, start: nat) {
    forall r: nat :: r < start ==> (r in a <==> r in b) && Bytes(a, r) == Bytes(b, r)
  }

  lemma {:induction false} SameEncoded(a: map<nat, nat>, b: map<nat, nat>, start: nat, batch: seq<nat>)
    requires SameSizes(a, b, start) && forall i :: 0 <= i < |batch| ==> batch[i] < start
    ensures Encoded(a, batch) == Encoded(b, batch)
    decreases |batch|
  {
    if batch != [] {
      SameEncoded(a, b, start, batch[1..]);
    }
  }

  lemma SameFit(a: map<nat, nat>, b: map<nat, nat>, start: nat, rows: seq<nat>, batch: seq<nat>)
    requires SameSizes(a, b, start) && LongestFit(b, rows, batch) && forall r :: r in rows ==> r < start
    ensures LongestFit(a, rows, batch)
  {
    assert forall i :: 0 <= i < |rows| ==> rows[i] in rows;
    SameEncoded(a, b, start, batch);
    if |batch| < |rows| { SameEncoded(a, b, start, rows[..|batch| + 1]); }
  }

  method TakeBatch(rows: seq<nat>, size: map<nat, nat>, after: nat, through: nat) returns (batch: seq<nat>, more: bool)
    requires Ascending(rows) && forall r :: r in rows ==> r in size
    ensures var all := Range(rows, after, through);
            LongestFit(size, all, batch) && (more <==> |batch| < |all|)
  {
    ghost var all := Range(rows, after, through);
    ghost var rest := all;
    batch, more := [], false;
    var requestBytes := 1;
    var i := 0;
    assert rows[0..] == rows;
    while i < |rows|
      invariant 0 <= i <= |rows| && !more && all == batch + rest && rest == Range(rows[i..], after, through)
      invariant Fits(size, batch) && requestBytes == Encoded(size, batch)
    {
      var row := rows[i];
      RangeStep(rows, i, after, through);
      if row > through { break; }
      if row > after {
        EncodedOn(size, batch, row);
        NextInList(all, batch, row, rest[1..]);
        if |batch| >= MAXIMUM_SUBMIT_BATCH_ENTRIES {
          more := true;
          break;
        }
        requestBytes := requestBytes + size[row] + 1;
        if |batch| > 0 && requestBytes > MAXIMUM_BATCH_BYTES {
          more := true;
          break;
        }
        batch, rest := batch + [row], rest[1..];
      }
      i := i + 1;
    }
  }

  datatype Answer = Receipts(mutations: seq<nat>) | Unreachable

  /** The receipts belong, one for one, to the first mutations of the batch. */
  predicate ValidAnswer(batch: seq<nat>, answer: Answer) {
    answer.Receipts? && 0 < |answer.mutations| <= |batch| && answer.mutations == batch[..|answer.mutations|]
  }

  lemma ValidAnswerExactly(batch: seq<nat>, answer: Answer)
    ensures ValidAnswer(batch, answer) <==> answer.Receipts? && answer.mutations != [] && answer.mutations <= batch
  {}

  class Outbox {
    /** The encoded size of every pending mutation, by local sequence. */
    var size: map<nat, nat>
    var state: map<nat, O.Submission>
    var quarantined: set<nat>
    var next: nat

    ghost predicate Valid()
      reads this
    {
      && state.Keys == size.Keys && 0 !in size && next > 0
      && (forall r :: r in size ==> r < next) && (forall r :: r in quarantined ==> r < next)
    }

    /** The pending rows before the first quarantined mutation. */
    function Submittable(): set<nat>
      reads this
    {
      set r | r in size.Keys && forall q :: q in quarantined ==> r < q
    }

    /** A new mutation arrives behind everything that is pending. */
    method Arrive(bytes: nat)
      requires Valid()
      modifies `size, `state, `next
      ensures Valid() && next == old(next) + 1
      ensures size == old(size)[old(next) := bytes] && state == old(state)[old(next) := O.Queued]
    {
      size, state, next := size[next := bytes], state[next := O.Queued], next + 1;
    }

    /** The longest batch that fits, of the submittable rows past a position. */
    method ClaimRows(after: nat, through: nat) returns (batch: seq<nat>, more: bool)
      requires Valid()
      ensures var rows := Listed(Within(Submittable(), after, through));
              && LongestFit(size, rows, batch)
              && (more <==> |batch| < |rows|)
    {
      RangeIsListed(Submittable(), after, through);
      var rows := SelectOrdered(Submittable());
      batch, more := TakeBatch(rows, size, after, through);
    }

    /** Moves the rows to a new state, except those that only wait for a receipt. */
    method Mark(rows: seq<nat>, to: O.Submission)
      requires Valid()
      modifies `state
      ensures Valid() && state.Keys == old(state).Keys
      ensures forall r :: r in state ==>
                state[r] == if r in rows && old(state)[r] != O.AwaitingReceipt then to else old(state)[r]
    {
      state := map r | r in state :: if r in rows && state[r] != O.AwaitingReceipt then to else state[r];
    }

    /** Rows that are still being submitted will be retried. */
    method MarkRetrying(rows: seq<nat>)
      requires Valid()
      modifies `state
      ensures Valid() && state.Keys == old(state).Keys
      ensures forall r :: r in state ==>
                state[r] == if r in rows && old(state)[r] == O.Submitting then O.Retrying else old(state)[r]
    {
      state := map r | r in state :: if r in rows && state[r] == O.Submitting then O.Retrying else state[r];
    }

    /** The last row that a pass beginning now will submit. */
    method LastRow(after: nat, through: Option<nat>) returns (limit: nat)
      requires Valid()
      ensures through.Some? ==> limit == through.value
      ensures through.None? ==>
                (forall r :: r in Submittable() ==> r <= limit) && (limit in Submittable() || limit == after)
    {
      var rows := SelectOrdered(Submittable());
      if through.Some? { return through.value; }
      if rows == [] {
        HasRow(rows);
        return after;
      }
      limit := rows[|rows| - 1];
      assert limit in rows && forall r :: r in rows ==> r <= limit;
    }

    /** Claims the next batch. The first claim of a pass fixes the last row the pass will submit. */
    method ClaimSubmitBatch(after: nat, through: Option<nat>) returns (batch: seq<nat>, limit: nat, more: bool)
      requires Valid()
      modifies `state
      ensures Valid()
      ensures through.Some? ==> limit == through.value
      ensures through.None? ==>
                (forall r :: r in Submittable() ==> r <= limit) && (limit in Submittable() || limit == after)
      ensures var rows := Listed(Within(Submittable(), after, limit));
              LongestFit(size, rows, batch) && (more <==> |batch| < |rows|)
      ensures forall r, q :: r in batch && q in quarantined ==> r < q
      ensures forall r :: r in state ==>
                state[r] == if r in batch && old(state)[r] != O.AwaitingReceipt then O.Submitting else old(state)[r]
    {
      limit := LastRow(after, through);
      batch, more := ClaimRows(after, limit);
      PrefixWithin(Submittable(), after, limit, batch);
      Mark(batch, O.Submitting);
    }

    ghost predicate NothingInFlight()
      reads this
    {
      forall r :: r in state ==> state[r] != O.Submitting
    }

    /** Sends one claimed batch and records what came back. */
    method SendBatch(batch: seq<nat>, answer: Answer) returns (accepted: nat)
      requires Valid() && forall r :: r in state && state[r] == O.Submitting ==> r in batch
      modifies `state
      ensures Valid() && NothingInFlight() && state.Keys == old(state).Keys
      ensures accepted == if ValidAnswer(batch, answer) then |answer.mutations| else 0
      ensures accepted <= |batch|
      ensures accepted > 0 <==>
                && answer.Receipts? && 0 < |answer.mutations| <= |batch|
                && forall i :: 0 <= i < |answer.mutations| ==> answer.mutations[i] == batch[i]
      ensures forall r :: r in state ==>
                state[r] ==
                if r in batch[..accepted] then
                  if old(state)[r] == O.AwaitingReceipt then O.AwaitingReceipt else O.Submitted
                else if old(state)[r] == O.Submitting then O.Retrying else old(state)[r]
    {
      accepted := 0;
      if ValidAnswer(batch, answer) {
        accepted := |answer.mutations|;
        Mark(batch[..accepted], O.Submitted);
      }
      forall r | r in batch && r !in batch[..accepted] ensures r in batch[accepted..] {
        assert batch == batch[..accepted] + batch[accepted..];
      }
      MarkRetrying(batch[accepted..]);
    }

    method ArriveAll(sizes: seq<nat>)
      requires Valid() && NothingInFlight()
      modifies `size, `state, `next
      ensures Valid() && NothingInFlight() && old(next) <= next
      ensures forall r :: r < old(next) ==> (r in Submittable() <==> r in old(Submittable()))
      ensures SameSizes(old(size), size, old(next))
      ensures next == old(next) + |sizes|
      ensures forall r :: old(next) <= r < next ==> r in size && size[r] == sizes[r - old(next)]
    {
      for i := 0 to |sizes|
        invariant Valid() && NothingInFlight() && next == old(next) + i
        invariant SameSizes(old(size), size, old(next))
        invariant forall r :: old(next) <= r < next ==> r in size && size[r] == sizes[r - old(next)]
      {
        Arrive(sizes[i]);
      }
    }

    /** The rows a pass began with, below `start`, are still the submittable ones there. */
    ghost predicate Began(rows: set<nat>, start: nat, through: Option<nat>)
      reads this
    {
      && Valid() && 0 < start <= next && 0 !in rows
      && (forall r :: r in rows ==> r < start) && (forall r :: r < start ==> (r in Submittable() <==> r in rows))
      && (through.None? ==> Submittable() == rows) && (through.Some? ==> through.value < start)
    }

    /** Claims the next batch of what the pass began with. */
    method ClaimRound(ghost rows: set<nat>, ghost start: nat, after: nat, through: Option<nat>)
      returns (batch: seq<nat>, limit: nat, rest: bool)
      requires Began(rows, start, through) && NothingInFlight() && (through.None? ==> after == 0)
      modifies `state
      ensures Began(rows, start, Some(limit))
      ensures forall r :: r in state && state[r] == O.Submitting ==> r in batch
      ensures var list := Listed(Within(rows, after, limit));
              && Remaining(rows, after, through) == list && batch <= list && (rest <==> |batch| < |list|)
              && LongestFit(size, list, batch)
    {
      batch, limit, rest := ClaimSubmitBatch(after, through);
      LimitIsLast(rows, after, through, limit);
      SameWithin(Submittable(), rows, start, after, limit);
    }

    /** Claims and sends one batch; `taken` is what the server acknowledged of the batch `sent`. */
    method SubmitRound(ghost rows: set<nat>, ghost start: nat, after: nat, through: Option<nat>,
                       answer: seq<nat> -> Answer, sizes: seq<nat>)
      returns (limit: nat, sent: seq<nat>, taken: seq<nat>, more: bool)
      requires Began(rows, start, through) && NothingInFlight() && (through.None? ==> after == 0)
      modifies `size, `state, `next
      ensures Began(rows, start, Some(limit)) && NothingInFlight()
      ensures LongestFit(old(size), Remaining(rows, after, through), sent)
      ensures taken == if ValidAnswer(sent, answer(sent)) then answer(sent).mutations else []
      ensures SameSizes(old(size), size, start)
      ensures taken != [] ==>
                && Remaining(rows, after, through) == taken + Remaining(rows, taken[|taken| - 1], Some(limit))
                && (more || Remaining(rows, taken[|taken| - 1], Some(limit)) == [])
    {
      var rest;
      sent, limit, rest := ClaimRound(rows, start, after, through);
      taken, more := [], false;
      if sent == [] { return; }
      var accepted := SendBatch(sent, answer(sent));
      ArriveAll(sizes);
      if accepted == 0 { return; }
      taken, more := sent[..accepted], rest || accepted < |sent|;
      RoundAdvances(rows, after, through, limit, sent, taken);
    }

    /**
     A whole pass. It ends well exactly if it acknowledges every row that could be submitted when it
     began, once each and in order, whatever arrives meanwhile; or else at the first batch, the next
     that fits, that is not answered by a valid prefix.
     */
    method SubmitPending(answers: nat -> seq<nat> -> Answer, arrivals: nat -> seq<nat>)
      returns (ok: bool, acknowledged: seq<nat>, refused: seq<nat>, round: nat)
      requires Valid() && NothingInFlight()
      modifies `size, `state, `next
      ensures Valid() && NothingInFlight()
      ensures acknowledged <= Listed(old(Submittable()))
      ensures ok <==> acknowledged == Listed(old(Submittable()))
      ensures Ascending(acknowledged)
      ensures forall r :: r in acknowledged ==> r in old(size) && forall q :: q in old(quarantined) ==> r < q
      ensures ok <==> forall r :: r in old(size) && (forall q :: q in old(quarantined) ==> r < q) ==> r in acknowledged
      ensures !ok ==> LongestFit(old(size), Listed(old(Submittable()))[|acknowledged|..], refused)
      ensures !ok ==> refused != [] && !ValidAnswer(refused, answers(round)(refused))
    {
      ghost var rows, start := Submittable(), next;
      var after: nat, through: Option<nat>, more := 0, None, true;
      acknowledged, refused, round := [], [], 0;
      while more
        invariant Began(rows, start, through) && NothingInFlight() && (through.None? ==> after == 0)
        invariant SameSizes(old(size), size, start)
        invariant Listed(rows) == acknowledged + Remaining(rows, after, through)
        invariant more || Remaining(rows, after, through) == []
        decreases |Listed(rows)| - |acknowledged|, more
      {
        ghost var left := Remaining(rows, after, through);
        ghost var sizes := size;
        var limit, sent, taken, rest := SubmitRound(rows, start, after, through, answers(round), arrivals(round));
        if taken == [] {
          SameFit(old(size), sizes, start, left, sent);
          ListedPrefix(rows, acknowledged);
          return sent == [], acknowledged, sent, round;
        }
        Joined(Listed(rows), acknowledged, left, taken, Remaining(rows, taken[|taken| - 1], Some(limit)));
        after, through := taken[|taken| - 1], Some(limit);
        acknowledged, more, round := acknowledged + taken, rest, round + 1;
      }
      ListedPrefix(rows, acknowledged);
      ok := true;
    }
  }

  /** A prefix of the list is the whole list exactly if no row is missing. */
  lemma ListedPrefix(rows: set<nat>, prefix: seq<nat>)
    requires prefix <= Listed(rows)
    ensures Ascending(prefix) && forall r :: r in prefix ==> r in rows
    ensures prefix == Listed(rows) <==> forall r :: r in rows ==> r in prefix
  {
    var list := Listed(rows);
    forall i | 0 <= i < |prefix| ensures prefix[i] == list[i] && list[i] in list {}
    if |prefix| < |list| {
      var next := list[|prefix|];
      assert next in list;
      forall i | 0 <= i < |prefix| ensures prefix[i] < next { assert prefix[i] == list[i]; }
    }
  }

  /** What a pass still has to submit. */
  ghost function Remaining(rows: set<nat>, after: nat, through: Option<nat>): seq<nat> {
    if through.None? then Listed(rows) else Listed(Within(rows, after, through.value))
  }

  lemma PrefixWithin(rows: set<nat>, after: nat, limit: nat, batch: seq<nat>)
    requires batch <= Listed(Within(rows, after, limit))
    ensures forall r :: r in batch ==> r in rows
  {
    var list := Listed(Within(rows, after, limit));
    forall r | r in batch ensures r in list {
      var i :| 0 <= i < |batch| && batch[i] == r;
      assert list[i] == r;
    }
  }

  lemma SameWithin(a: set<nat>, b: set<nat>, start: nat, after: nat, limit: nat)
    requires limit < start && forall r :: r < start ==> (r in a <==> r in b)
    ensures Within(a, after, limit) == Within(b, after, limit)
  {
  }

  lemma Joined(all: seq<nat>, before: seq<nat>, left: seq<nat>, taken: seq<nat>, rest: seq<nat>)
    requires all == before + left && left == taken + rest
    ensures all == before + taken + rest && |all| - |before + taken| == |all| - |before| - |taken|
  {
  }

  lemma LimitIsLast(rows: set<nat>, after: nat, through: Option<nat>, limit: nat)
    requires through.Some? ==> limit == through.value
    requires through.None? ==> after == 0 && 0 !in rows && forall r :: r in rows ==> r <= limit
    ensures Remaining(rows, after, through) == Remaining(rows, after, Some(limit))
  {
    if through.None? { assert Within(rows, after, limit) == rows; }
  }

  /** What is left after a prefix of the list was acknowledged. */
  lemma RoundAdvances(rows: set<nat>, after: nat, through: Option<nat>, limit: nat, batch: seq<nat>, taken: seq<nat>)
    requires Remaining(rows, after, through) == Listed(Within(rows, after, limit))
    requires taken != [] && taken <= batch && batch <= Listed(Within(rows, after, limit))
    ensures Remaining(rows, after, through) == taken + Remaining(rows, taken[|taken| - 1], Some(limit))
    ensures |taken| < |batch| || |batch| < |Listed(Within(rows, after, limit))|
            || Remaining(rows, taken[|taken| - 1], Some(limit)) == []
  {
    var list := Listed(Within(rows, after, limit));
    ListedOn(rows, after, limit, |taken|);
    assert taken == list[..|taken|] && list == list[..|taken|] + list[|taken|..];
  }
}
