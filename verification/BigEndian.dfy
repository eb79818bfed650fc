/** Big-endian integers: the conversions of CommonData.h and what they mean as numbers. */
module BigEndian {

  type byte = x: int | 0 <= x < 256

  function Pow256(n: nat): (p: nat)
    ensures p > 0
  {
    if n == 0 then 1 else 256 * Pow256(n - 1)
  }

  /** The number that a big-endian byte string denotes. */
  function Value(s: seq<byte>): nat {
    if s == [] then 0 else 256 * Value(s[..|s| - 1]) + s[|s| - 1]
  }

  /** The shortest big-endian byte string for v; empty for zero. */
  function Compact(v: nat): seq<byte> {
    if v == 0 then [] else Compact(v / 256) + [v % 256]
  }

  /** The low n bytes of v, big-endian. */
  function Fixed(v: nat, n: nat): (s: seq<byte>)
    ensures |s| == n
  {
    if n == 0 then [] else Fixed(v / 256, n - 1) + [v % 256]
  }

  function Zeros(n: nat): (s: seq<byte>)
    ensures |s| == n && forall i :: 0 <= i < n ==> s[i] == 0
  {
    seq(n, _ => 0)
  }

  ghost predicate NoLeadingZero(s: seq<byte>) {
    s != [] ==> s[0] != 0
  }

  // ---- Laws

  lemma {:induction false} ValueOfCompact(v: nat)
    ensures Value(Compact(v)) == v && NoLeadingZero(Compact(v))
  {
    if v == 0 {
    } else {
      ValueOfCompact(v / 256);
      assert Compact(v)[..|Compact(v)| - 1] == Compact(v / 256);
      if v < 256 {
        assert Compact(v) == [v];
      } else {
        assert Compact(v)[0] == Compact(v / 256)[0];
      }
    }
  }

  lemma {:induction false} CompactOfValue(s: seq<byte>)
    requires NoLeadingZero(s)
    ensures Compact(Value(s)) == s
  {
    if s == [] {
    } else {
      var t := s[..|s| - 1];
      assert NoLeadingZero(t);
      CompactOfValue(t);
      assert Value(s) / 256 == Value(t) && Value(s) % 256 == s[|s| - 1];
      if t == [] {
        assert Value(s) == s[0];
      }
      assert Value(s) != 0;
    }
  }

  /** A value fits n bytes exactly when it is below 256 to the n. */
  lemma {:induction false} CompactLength(v: nat, n: nat)
    ensures |Compact(v)| <= n <==> v < Pow256(n)
  {
    if v == 0 || n == 0 {
    } else {
      CompactLength(v / 256, n - 1);
    }
  }

  lemma {:induction false} ValueBound(s: seq<byte>)
    ensures Value(s) < Pow256(|s|)
  {
    if s == [] {
    } else {
      ValueBound(s[..|s| - 1]);
    }
  }

  lemma {:induction false} FixedPadsCompact(v: nat, n: nat)
    requires |Compact(v)| <= n
    ensures Fixed(v, n) == Zeros(n - |Compact(v)|) + Compact(v)
  {
    if n == 0 {
    } else {
      if v == 0 {
        FixedPadsCompact(0, n - 1);
      } else {
        FixedPadsCompact(v / 256, n - 1);
      }
    }
  }

  lemma {:induction false} ValueOfFixed(v: nat, n: nat)
    ensures Value(Fixed(v, n)) == v % Pow256(n)
  {
    if n == 0 {
    } else {
      ValueOfFixed(v / 256, n - 1);
      assert Fixed(v, n)[..n - 1] == Fixed(v / 256, n - 1);
      SplitMod(v, Pow256(n - 1));
    }
  }

  lemma SplitMod(v: nat, m: nat)
    requires m > 0
    ensures v % (256 * m) == 256 * ((v / 256) % m) + v % 256
  {
    var q := v / 256;
    var r := 256 * (q % m) + v % 256;
    assert q == m * (q / m) + q % m;
    assert v == (256 * m) * (q / m) + r by {
      assert v == 256 * q + v % 256;
      assert 256 * (m * (q / m)) == (256 * m) * (q / m);
    }
    assert r < 256 * m;
    ModUnique(v, 256 * m, q / m, r);
  }

  lemma ModUnique(v: nat, m: nat, q: nat, r: nat)
    requires m > 0 && v == m * q + r && r < m
    ensures v % m == r && v / m == q
  {
    var d := q - v / m;
    assert m * d == v % m - r by {
      assert v == m * (v / m) + v % m;
      assert m * q == m * (v / m) + m * d;
    }
    if d > 0 {
      MulAtLeast(m, d);
    } else if d < 0 {
      MulAtLeast(m, -d);
    }
  }

  lemma MulAtLeast(m: nat, d: nat)
    requires d > 0
    ensures m * d >= m
  {
    assert m * d == m * (d - 1) + m;
  }

  /** Appending bytes multiplies the value by a power of 256 and adds. */
  lemma {:induction false} ValueOfAppend(s: seq<byte>, t: seq<byte>)
    ensures Value(s + t) == Value(s) * Pow256(|t|) + Value(t)
  {
    if t == [] {
      assert s + t == s;
    } else {
      var u := t[..|t| - 1];
      ValueOfAppend(s, u);
      assert (s + t)[..|s + t| - 1] == s + u;
      assert 256 * (Value(s) * Pow256(|u|)) == Value(s) * Pow256(|t|);
    }
  }

  lemma ValueOfZeros(n: nat)
    ensures Value(Zeros(n)) == 0
  {
    if n == 0 {
    } else {
      ValueOfZeros(n - 1);
      assert Zeros(n)[..n - 1] == Zeros(n - 1);
    }
  }

  // ---- The loops of CommonData.h

  method BytesRequired(v: nat) returns (n: nat)
    ensures n == |Compact(v)|
  {
    n := 0;
    var i := v;
    while i != 0
      invariant |Compact(v)| == n + |Compact(i)|
    {
      n := n + 1;
      i := i / 256;
    }
  }

  method FromBigEndian(s: seq<byte>) returns (v: nat)
    ensures v == Value(s)
  {
    v := 0;
    for i := 0 to |s|
      invariant v == Value(s[..i])
    {
      assert s[..i + 1][..i] == s[..i];
      v := v * 256 + s[i];
    }
    assert s[..|s|] == s;
  }

  method ToBigEndian(v: nat, out: array<byte>)
    modifies out
    ensures out[..] == Fixed(v, out.Length)
  {
    var i := out.Length;
    var w := v;
    while i != 0
      invariant 0 <= i <= out.Length
      invariant Fixed(v, out.Length) == Fixed(w, i) + out[i..]
    {
      out[i - 1] := w % 256;
      assert out[i - 1..] == [w % 256] + out[i..];
      w := w / 256;
      i := i - 1;
    }
    assert out[0..] == out[..];
  }

  method ToCompactBigEndian(v: nat, min: nat) returns (s: seq<byte>)
    ensures Value(s) == v && |s| == (if |Compact(v)| < min then min else |Compact(v)|)
    ensures s == Zeros(|s| - |Compact(v)|) + Compact(v)
  {
    var i := BytesRequired(v);
    var ret := new byte[if i < min then min else i];
    ToBigEndian(v, ret);
    s := ret[..];
    FixedPadsCompact(v, |s|);
    ValueOfFixed(v, |s|);
    CompactLength(v, |s|);
    SmallMod(v, Pow256(|s|));
  }

  lemma SmallMod(v: nat, m: nat)
    requires v < m
    ensures v % m == v
  {
  }
}
