/** `std::to_string` and the strings built with it. */
module Text {
  import opened Bytes

  /** The bytes of an ASCII string. */
  function Ascii(s: string): bytes
  {
    seq(|s|, i requires 0 <= i < |s| => s[i] as int % 256)
  }

  function Decimal(n: nat): (s: bytes)
    ensures s != [] && (|s| == 1 <==> n < 10)
    ensures forall b :: b in s ==> 48 <= b < 58
  {
    if n < 10 then [48 + n] else Decimal(n / 10) + [48 + n % 10]
  }

  function ToString(n: int): (s: bytes)
    ensures s != []
    ensures forall b :: b in s ==> b != 58
  {
    if n >= 0 then Decimal(n) else [45] + Decimal(-n)
  }

  lemma {:induction false} DecimalInjective(m: nat, n: nat)
    requires Decimal(m) == Decimal(n)
    ensures m == n
  {
    var s := Decimal(m);
    assert s[|s| - 1] == 48 + m % 10 && s[|s| - 1] == 48 + n % 10;
    if m >= 10 {
      assert s[..|s| - 1] == Decimal(m / 10) && s[..|s| - 1] == Decimal(n / 10);
      DecimalInjective(m / 10, n / 10);
    }
  }

  lemma Sign(n: int)
    ensures ToString(n)[0] == 45 <==> n < 0
  {
    if n >= 0 {
      assert ToString(n)[0] in Decimal(n);
    }
  }

  lemma ToStringInjective(m: int, n: int)
    requires ToString(m) == ToString(n)
    ensures m == n
  {
    Sign(m);
    Sign(n);
    if m >= 0 {
      DecimalInjective(m, n);
    } else {
      assert ToString(m)[1..] == Decimal(-m) && ToString(n)[1..] == Decimal(-n);
      DecimalInjective(-m, -n);
    }
  }

  /** `topic + ":" + std::to_string(partition)`: the key of a partition context. */
  function ContextKey(topic: bytes, partition: int): bytes
  {
    topic + [58] + ToString(partition)
  }

  /** The last colon of a key ends the topic. */
  lemma LastColon(t: bytes, p: int)
    ensures var k := ContextKey(t, p);
            k[|t|] == 58 && forall j :: |t| < j < |k| ==> k[j] != 58
  {
    var k, d := ContextKey(t, p), ToString(p);
    forall j | |t| < j < |k| ensures k[j] != 58 {
      assert k[j] == d[j - |t| - 1] && d[j - |t| - 1] in d;
    }
  }

  /** Keys are unambiguous, even for topics that contain a colon. */
  lemma ContextKeyInjective(t1: bytes, p1: int, t2: bytes, p2: int)
    requires ContextKey(t1, p1) == ContextKey(t2, p2)
    ensures t1 == t2 && p1 == p2
  {
    var k, d1, d2 := ContextKey(t1, p1), ToString(p1), ToString(p2);
    LastColon(t1, p1);
    LastColon(t2, p2);
    assert |t1| == |t2|;
    assert k[..|t1|] == t1 && k[..|t2|] == t2 && k[|t1| + 1..] == d1 && k[|t2| + 1..] == d2;
    ToStringInjective(p1, p2);
  }
}
