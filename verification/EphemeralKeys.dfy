/**
 The strings that identify members, states and events of an ephemeral space. Two different members,
 states or events never share one.
 */
module EphemeralKeys {

  /** Client ids and membership incarnations are checked against a pattern without colons. */
  type Identifier = s: string | ':' !in s witness ""

  datatype Member = Member(clientId: Identifier, membershipIncarnation: Identifier)

  function MemberKey(m: Member): string {
    m.clientId + ":" + m.membershipIncarnation
  }

  function Digit(d: nat): (c: char)
    requires d < 10
    ensures c != ':'
  {
    "0123456789"[d]
  }

  function Decimal(n: nat): (s: string)
    ensures s != "" && ':' !in s
  {
    if n < 10 then [Digit(n)] else Decimal(n / 10) + [Digit(n % 10)]
  }

  /** Every component with its length before it. */
  function Prefixed(components: seq<string>): string {
    if components == [] then ""
    else Decimal(|components[0]|) + ":" + components[0] + Prefixed(components[1..])
  }

  function StateKey(m: Member, channel: string, key: string): string {
    Prefixed([m.clientId, m.membershipIncarnation, channel, key])
  }

  function EventKey(m: Member, channel: string): string {
    Prefixed([m.clientId, m.membershipIncarnation, channel])
  }

  // ---------------------------------------------------------------- injectivity

  /** What precedes the first colon, and what follows it, can be told apart. */
  lemma CutAtColon(a: string, b: string, x: string, y: string)
    requires ':' !in a && ':' !in b && a + ":" + x == b + ":" + y
    ensures a == b && x == y
  {
    var s := a + ":" + x;
    assert s[|a|] == ':' && s[|b|] == ':';
    assert forall i :: 0 <= i < |a| ==> s[i] == a[i] && a[i] in a;
    assert forall i :: 0 <= i < |b| ==> s[i] == b[i] && b[i] in b;
    assert a == s[..|a|] && b == s[..|b|];
    assert x == s[|a| + 1..] && y == s[|b| + 1..];
  }

  lemma DecimalLength(n: nat)
    ensures n < 10 <==> |Decimal(n)| == 1
  {
    if n >= 10 { assert |Decimal(n)| == |Decimal(n / 10)| + 1; }
  }

  lemma {:induction false} DecimalInjective(m: nat, n: nat)
    requires Decimal(m) == Decimal(n)
    ensures m == n
    decreases m
  {
    var s := Decimal(m);
    DecimalLength(m);
    DecimalLength(n);
    assert s[|s| - 1] == Digit(m % 10) == Digit(n % 10);
    if m >= 10 {
      assert Decimal(m / 10) == s[..|s| - 1] == Decimal(n / 10);
      DecimalInjective(m / 10, n / 10);
    }
  }

  lemma ComponentInjective(a: string, b: string, x: string, y: string)
    requires Decimal(|a|) + ":" + (a + x) == Decimal(|b|) + ":" + (b + y)
    ensures a == b && x == y
  {
    CutAtColon(Decimal(|a|), Decimal(|b|), a + x, b + y);
    DecimalInjective(|a|, |b|);
    assert a == (a + x)[..|a|] && b == (b + y)[..|b|];
    assert x == (a + x)[|a|..] && y == (b + y)[|b|..];
  }

  lemma PrefixedFirst(a: seq<string>)
    requires a != []
    ensures Prefixed(a) == Decimal(|a[0]|) + ":" + (a[0] + Prefixed(a[1..]))
  {
  }

  lemma {:induction false} PrefixedInjective(a: seq<string>, b: seq<string>)
    requires Prefixed(a) == Prefixed(b)
    ensures a == b
    decreases |a|
  {
    if a != [] && b != [] {
      PrefixedFirst(a);
      PrefixedFirst(b);
      ComponentInjective(a[0], b[0], Prefixed(a[1..]), Prefixed(b[1..]));
      PrefixedInjective(a[1..], b[1..]);
      assert a == [a[0]] + a[1..] && b == [b[0]] + b[1..];
    }
  }

  lemma MemberKeyInjective(m: Member, n: Member)
    requires MemberKey(m) == MemberKey(n)
    ensures m == n
  {
    CutAtColon(m.clientId, n.clientId, m.membershipIncarnation, n.membershipIncarnation);
  }

  lemma StateKeyInjective(m: Member, channel: string, key: string, n: Member, channel': string, key': string)
    requires StateKey(m, channel, key) == StateKey(n, channel', key')
    ensures m == n && channel == channel' && key == key'
  {
    var a := [m.clientId, m.membershipIncarnation, channel, key];
    var b := [n.clientId, n.membershipIncarnation, channel', key'];
    PrefixedInjective(a, b);
    assert a[0] == b[0] && a[1] == b[1] && a[2] == b[2] && a[3] == b[3];
  }

  lemma EventKeyInjective(m: Member, channel: string, n: Member, channel': string)
    requires EventKey(m, channel) == EventKey(n, channel')
    ensures m == n && channel == channel'
  {
    var a, b := [m.clientId, m.membershipIncarnation, channel], [n.clientId, n.membershipIncarnation, channel'];
    PrefixedInjective(a, b);
    assert a[0] == b[0] && a[1] == b[1] && a[2] == b[2];
  }
}
