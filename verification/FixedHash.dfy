/** FixedHash: n raw bytes that stand for a big-endian number. */
module FixedHash {
  import opened BigEndian
  import opened Powers

  datatype Align = AlignLeft | AlignRight

  /** The source bytes aligned in n bytes: cut or filled with zeros on the other side. */
  function Aligned(b: seq<byte>, n: nat, align: Align): seq<byte> {
    var c := if |b| < n then |b| else n;
    match align
    case AlignLeft => b[..c] + Zeros(n - c)
    case AlignRight => Zeros(n - c) + b[|b| - c..]
  }

  /** Right alignment keeps the number, modulo the size of the hash. */
  lemma AlignRightKeepsValue(b: seq<byte>, n: nat)
    ensures |Aligned(b, n, AlignRight)| == n
    ensures Value(Aligned(b, n, AlignRight)) == Value(b) % Pow256(n)
  {
    hide Pow256, Value;
    if |b| < n {
      ValueOfAppend(Zeros(n - |b|), b);
      ValueOfZeros(n - |b|);
      assert b[0..] == b;
      ValueBound(b);
      CompactLength(Value(b), |b|);
      CompactLength(Value(b), n);
      SmallMod(Value(b), Pow256(n));
    } else {
      var k := |b| - n;
      assert Aligned(b, n, AlignRight) == Zeros(0) + b[k..] == b[k..];
      assert b == b[..k] + b[k..];
      ValueOfAppend(b[..k], b[k..]);
      ValueBound(b[k..]);
      assert Value(b) == Pow256(n) * Value(b[..k]) + Value(b[k..]);
      ModUnique(Value(b), Pow256(n), Value(b[..k]), Value(b[k..]));
    }
  }

  /** Left alignment keeps the leading bytes: it multiplies or divides by a power of 256. */
  lemma AlignLeftShiftsValue(b: seq<byte>, n: nat)
    ensures |Aligned(b, n, AlignLeft)| == n
    ensures |b| <= n ==> Value(Aligned(b, n, AlignLeft)) == Value(b) * Pow256(n - |b|)
    ensures |b| > n ==> Value(Aligned(b, n, AlignLeft)) == Value(b) / Pow256(|b| - n)
  {
    if |b| <= n {
      assert b[..|b|] == b;
      ValueOfAppend(b, Zeros(n - |b|));
      ValueOfZeros(n - |b|);
    } else {
      assert b == b[..n] + b[n..];
      assert b[..n] + Zeros(0) == b[..n];
      ValueOfAppend(b[..n], b[n..]);
      ValueBound(b[n..]);
      assert Value(b) == Pow256(|b| - n) * Value(b[..n]) + Value(b[n..]);
      ModUnique(Value(b), Pow256(|b| - n), Value(b[..n]), Value(b[n..]));
    }
  }

  lemma {:induction false} FixedOfValue(s: seq<byte>)
    ensures Fixed(Value(s), |s|) == s
  {
    if s == [] {
    } else {
      FixedOfValue(s[..|s| - 1]);
    }
  }

  /** Adding one to a suffix that is all 0xff carries over it. */
  lemma {:induction false} CarryOver(s: seq<byte>, i: nat)
    requires i <= |s| && forall k :: i <= k < |s| ==> s[k] == 255
    ensures Value(s) + 1 == (Value(s[..i]) + 1) * Pow256(|s| - i)
  {
    if i < |s| {
      var t := s[..|s| - 1];
      CarryOver(t, i);
      assert t[..i] == s[..i];
      assert 256 * ((Value(t[..i]) + 1) * Pow256(|t| - i)) == (Value(t[..i]) + 1) * (256 * Pow256(|t| - i));
    } else {
      assert s[..i] == s;
    }
  }

  /** One added above a run of 0xff bytes that turn to zero. */
  lemma CarryStops(before: seq<byte>, after: seq<byte>, i: nat)
    requires |after| == |before| && 0 < i <= |before|
    requires forall k :: i <= k < |before| ==> before[k] == 255 && after[k] == 0
    requires before[i - 1] < 255 && after[..i] == before[..i - 1] + [(before[i - 1] as int + 1) as byte]
    ensures after == Fixed(Value(before) + 1, |before|)
  {
    hide Pow256, Fixed;
    var m := |before| - i;
    CarryOver(before, i);
    assert after == after[..i] + Zeros(m);
    ValueOfAppend(after[..i], Zeros(m));
    ValueOfZeros(m);
    assert before[..i][..i - 1] == before[..i - 1] == after[..i][..i - 1];
    assert Value(after[..i]) == Value(before[..i]) + 1;
    FixedOfValue(after);
  }

  lemma AllOnes(s: seq<byte>)
    requires forall k :: 0 <= k < |s| ==> s[k] == 255
    ensures Value(s) + 1 == Pow256(|s|)
  {
    hide Pow256;
    CarryOver(s, 0);
    assert s[..0] == [];
  }

  /** All bytes 0xff: the count wraps to zero. */
  lemma CarryWraps(before: seq<byte>, after: seq<byte>)
    requires |after| == |before|
    requires forall k :: 0 <= k < |before| ==> before[k] == 255 && after[k] == 0
    ensures after == Fixed(Value(before) + 1, |before|)
  {
    hide Pow256, Fixed, Value;
    var m := |before|;
    AllOnes(before);
    assert after == Zeros(m);
    ValueOfZeros(m);
    FixedOfValue(after);
    var v := Value(before) + 1;
    ModUnique(v, Pow256(m), 1, 0);
    ValueOfFixed(v, m);
    FixedOfValue(Fixed(v, m));
  }

  lemma Between(lo: nat, d: nat, hi: nat, p: nat, r: nat)
    requires lo <= d < hi && r < p
    ensures lo * p <= d * p + r < hi * p
  {
    MulOrder(lo, d, p);
    MulOrder(d + 1, hi, p);
    assert (d + 1) * p == d * p + p;
  }

  lemma ValueAround(s: seq<byte>, i: nat)
    requires i < |s|
    ensures Value(s) == Value(s[..i + 1]) * Pow256(|s| - i - 1) + Value(s[i + 1..])
    ensures Value(s[..i + 1]) == 256 * Value(s[..i]) + s[i]
    ensures Value(s[i + 1..]) < Pow256(|s| - i - 1)
  {
    hide Pow256;
    assert s == s[..i + 1] + s[i + 1..] && s[..i + 1][..i] == s[..i];
    ValueOfAppend(s[..i + 1], s[i + 1..]);
    ValueBound(s[i + 1..]);
  }

  /** Byte strings of one length are ordered as numbers by their first difference. */
  lemma FirstDifference(a: seq<byte>, b: seq<byte>, i: nat)
    requires |a| == |b| && i < |a| && a[..i] == b[..i] && a[i] < b[i]
    ensures Value(a) < Value(b)
  {
    hide Pow256, Value;
    ValueAround(a, i);
    ValueAround(b, i);
    Between(0, Value(a[..i + 1]), Value(b[..i + 1]), Pow256(|a| - i - 1), Value(a[i + 1..]));
  }

  /** Bits before the first one of a byte. */
  function LeadingZeros(d: byte): (z: nat)
    ensures z <= 8 && (z == 8 <==> d == 0)
    ensures 0 < d < 128 ==> z > 0
  {
    if d >= 128 then 0 else if d >= 64 then 1 else if d >= 32 then 2 else if d >= 16 then 3
    else if d >= 8 then 4 else if d >= 4 then 5 else if d >= 2 then 6 else if d == 1 then 7 else 8
  }

  /** The hash after i bytes have been copied into zeros. */
  function Copied(b: seq<byte>, n: nat, i: nat, align: Align): (s: seq<byte>)
    requires i <= |b| && i <= n
    ensures |s| == n
  {
    match align
    case AlignLeft => b[..i] + Zeros(n - i)
    case AlignRight => Zeros(n - i) + b[|b| - i..]
  }

  lemma CopiedNext(b: seq<byte>, n: nat, i: nat, align: Align)
    requires i < |b| && i < n
    ensures align.AlignLeft? ==> Copied(b, n, i + 1, align) == Copied(b, n, i, align)[i := b[i]]
    ensures align.AlignRight? ==> Copied(b, n, i + 1, align) == Copied(b, n, i, align)[n - 1 - i := b[|b| - 1 - i]]
  {
  }

  class Hash {
    const data: array<byte>

    constructor Zero(n: nat)
      ensures fresh(data) && data[..] == Zeros(n)
    {
      data := new byte[n](_ => 0);
    }

    /** The aligning constructors. */
    constructor FromBytes(b: seq<byte>, n: nat, align: Align)
      ensures fresh(data) && data[..] == Aligned(b, n, align)
    {
      data := new byte[n](_ => 0);
      new;
      var c := if |b| < n then |b| else n;
      assert data[..] == Copied(b, n, 0, align);
      for i := 0 to c
        invariant data.Length == n && data[..] == Copied(b, n, i, align)
      {
        CopiedNext(b, n, i, align);
        ghost var before := data[..];
        if align.AlignRight? {
          data[n - 1 - i] := b[|b| - 1 - i];
          assert data[..] == before[n - 1 - i := b[|b| - 1 - i]];
        } else {
          data[i] := b[i];
          assert data[..] == before[i := b[i]];
        }
      }
    }

    /** operator++: add one, carrying from the last byte. */
    method Increment()
      modifies data
      ensures data[..] == Fixed(Value(old(data[..])) + 1, data.Length)
    {
      ghost var before := data[..];
      var i := data.Length;
      var carry := true;
      while i > 0 && carry
        invariant 0 <= i <= data.Length
        invariant forall k :: 0 <= k < i && carry ==> data[k] == before[k]
        invariant carry ==> forall k :: i <= k < data.Length ==> before[k] == 255 && data[k] == 0
        invariant !carry ==> data[..] == Fixed(Value(before) + 1, data.Length)
      {
        i := i - 1;
        data[i] := (data[i] as int + 1) % 256;
        carry := data[i] == 0;
        if !carry {
          assert data[..][..i + 1] == before[..i] + [(before[i] as int + 1) as byte];
          CarryStops(before, data[..], i + 1);
        }
      }
      if carry {
        CarryWraps(before, data[..]);
      }
    }

    /** operator<: byte by byte from the front. */
    method Less(other: Hash) returns (r: bool)
      requires data.Length == other.data.Length
      ensures r <==> Value(data[..]) < Value(other.data[..])
    {
      for i := 0 to data.Length
        invariant data[..i] == other.data[..i]
      {
        if data[i] < other.data[i] {
          FirstDifference(data[..], other.data[..], i);
          return true;
        } else if data[i] > other.data[i] {
          FirstDifference(other.data[..], data[..], i);
          return false;
        }
      }
      assert data[..] == other.data[..];
      return false;
    }

    /** firstBitSet: the position of the first one bit from the front, or the number of bits. */
    method FirstBitSet() returns (r: nat)
      ensures r <= 8 * data.Length
      ensures Value(data[..]) < Pow(2, 8 * data.Length - r)
      ensures r < 8 * data.Length ==> Pow(2, 8 * data.Length - r - 1) <= Value(data[..])
    {
      r := 0;
      for i := 0 to data.Length
        invariant r == 8 * i && forall k :: 0 <= k < i ==> data[k] == 0
      {
        var d := data[i];
        if d != 0 {
          while d < 128
            invariant 0 < d < 256 && r + LeadingZeros(d) == 8 * i + LeadingZeros(data[i])
            decreases 256 - d
          {
            r := r + 1;
            d := d * 2 % 256;
          }
          LeadingBit(data[..], i);
          return;
        }
        r := r + 8;
      }
      assert data[..] == Zeros(data.Length);
      ValueOfZeros(data.Length);
      PowersAgree(0);
    }
  }

  lemma {:induction false} PowersAgree(n: nat)
    ensures Pow(2, 8 * n) == Pow256(n)
  {
    if n == 0 {
    } else {
      PowersAgree(n - 1);
      PowAdd(2, 8, 8 * (n - 1));
      assert Pow(2, 8) == 256 by { assert Pow(2, 4) == 16; }
    }
  }

  lemma {:induction false} ByteBit(d: byte)
    requires d != 0
    ensures Pow(2, 7 - LeadingZeros(d)) <= d < Pow(2, 8 - LeadingZeros(d))
  {
    assert Pow(2, 1) == 2 && Pow(2, 2) == 4 && Pow(2, 3) == 8 && Pow(2, 4) == 16;
    assert Pow(2, 5) == 32 && Pow(2, 6) == 64 && Pow(2, 7) == 128 && Pow(2, 8) == 256;
  }

  lemma LeadingBit(s: seq<byte>, i: nat)
    requires i < |s| && s[i] != 0 && forall k :: 0 <= k < i ==> s[k] == 0
    ensures var r := 8 * i + LeadingZeros(s[i]);
            r < 8 * |s| && Pow(2, 8 * |s| - r - 1) <= Value(s) < Pow(2, 8 * |s| - r)
  {
    hide Pow256, Pow, Value;
    var z := LeadingZeros(s[i]);
    var m := |s| - i - 1;
    ByteBit(s[i]);
    assert s[..i] == Zeros(i);
    ValueOfZeros(i);
    ValueAround(s, i);
    PowersAgree(m);
    PowAdd(2, 7 - z, 8 * m);
    PowAdd(2, 8 - z, 8 * m);
    Between(Pow(2, 7 - z), s[i], Pow(2, 8 - z), Pow256(m), Value(s[i + 1..]));
  }
}
