/** Numbers as digit sequences, least significant first, and products summed by columns. */
module MexArith {
  import opened Powers

  function Val(s: seq<nat>, b: nat): nat {
    if s == [] then 0 else Val(s[..|s| - 1], b) + s[|s| - 1] * Pow(b, |s| - 1)
  }

  ghost predicate Digits(s: seq<nat>, b: nat) {
    forall i :: 0 <= i < |s| ==> s[i] < b
  }

  function At(s: seq<nat>, i: int): nat {
    if 0 <= i < |s| then s[i] else 0
  }

  /** The products x[k] * y[n - k] for cnt indices k from lo on. */
  function Part(x: seq<nat>, y: seq<nat>, n: int, lo: int, cnt: nat): nat {
    if cnt == 0 then 0 else Part(x, y, n, lo, cnt - 1) + At(x, lo + cnt - 1) * At(y, n - lo - cnt + 1)
  }

  /** Column n of the product. */
  function Conv(x: seq<nat>, y: seq<nat>, n: int): nat {
    Part(x, y, n, 0, |x|)
  }

  /** The columns below t, each at its place. */
  function ColSum(x: seq<nat>, y: seq<nat>, b: nat, t: nat): nat {
    if t == 0 then 0 else ColSum(x, y, b, t - 1) + Conv(x, y, t - 1) * Pow(b, t - 1)
  }

  // ---- Values

  lemma {:induction false} ValBound(s: seq<nat>, b: nat)
    requires Digits(s, b)
    ensures Val(s, b) < Pow(b, |s|)
  {
    if s == [] {
    } else {
      var n := |s| - 1;
      ValBound(s[..n], b);
      MulOrder(s[n] + 1, b, Pow(b, n));
      assert (s[n] + 1) * Pow(b, n) == s[n] * Pow(b, n) + Pow(b, n);
    }
  }

  lemma ValSnoc(s: seq<nat>, d: nat, b: nat)
    ensures Val(s + [d], b) == Val(s, b) + d * Pow(b, |s|)
  {
    assert (s + [d])[..|s|] == s;
  }

  // ---- Columns

  lemma {:induction false} PartSplit(x: seq<nat>, y: seq<nat>, n: int, lo: int, c1: nat, c2: nat)
    ensures Part(x, y, n, lo, c1 + c2) == Part(x, y, n, lo, c1) + Part(x, y, n, lo + c1, c2)
  {
    if c2 == 0 {
    } else {
      PartSplit(x, y, n, lo, c1, c2 - 1);
    }
  }

  lemma {:induction false} PartZero(x: seq<nat>, y: seq<nat>, n: int, lo: int, cnt: nat)
    requires forall k :: lo <= k < lo + cnt ==> At(x, k) == 0 || At(y, n - k) == 0
    ensures Part(x, y, n, lo, cnt) == 0
  {
    if cnt == 0 {
    } else {
      PartZero(x, y, n, lo, cnt - 1);
      var k := lo + cnt - 1;
      assert At(x, k) == 0 || At(y, n - k) == 0;
    }
  }

  /** Only the products of two existing digits count in a column. */
  lemma Narrow(x: seq<nat>, y: seq<nat>, n: nat, lo: nat, cnt: nat)
    requires lo + cnt <= |x| && n - lo < |y|
    requires lo == 0 || n - lo + 1 >= |y|
    requires lo + cnt == |x| || n < lo + cnt
    ensures Conv(x, y, n) == Part(x, y, n, lo, cnt)
  {
    PartSplit(x, y, n, 0, lo, |x| - lo);
    PartSplit(x, y, n, lo, cnt, |x| - lo - cnt);
    PartZero(x, y, n, 0, lo);
    PartZero(x, y, n, lo + cnt, |x| - lo - cnt);
  }

  lemma {:induction false} PartBound(x: seq<nat>, y: seq<nat>, n: int, lo: int, cnt: nat, b: nat)
    requires b > 0 && Digits(x, b) && Digits(y, b)
    ensures Part(x, y, n, lo, cnt) <= cnt * ((b - 1) * (b - 1))
  {
    if cnt == 0 {
    } else {
      PartBound(x, y, n, lo, cnt - 1, b);
      var u, w := At(x, lo + cnt - 1), At(y, n - lo - cnt + 1);
      DigitProduct(u, w, b);
      OneMore(cnt - 1, (b - 1) * (b - 1));
    }
  }

  lemma DigitProduct(u: nat, w: nat, b: nat)
    requires u < b && w < b
    ensures u * w <= (b - 1) * (b - 1)
  {
    MulOrder(u, b - 1, w);
    Commute(w, b - 1);
    MulOrder(w, b - 1, b - 1);
  }

  lemma OneMore(n: nat, v: nat)
    ensures (n + 1) * v == n * v + v
  {
  }

  lemma {:induction false} PartSame(x: seq<nat>, x': seq<nat>, y: seq<nat>, n: int, lo: nat, cnt: nat)
    requires forall k :: lo <= k < lo + cnt && 0 <= n - k < |y| ==> At(x, k) == At(x', k)
    ensures Part(x, y, n, lo, cnt) == Part(x', y, n, lo, cnt)
  {
    if cnt == 0 {
    } else {
      PartSame(x, x', y, n, lo, cnt - 1);
      var k := lo + cnt - 1;
      if 0 <= n - k < |y| {
        assert At(x, k) == At(x', k);
      }
    }
  }

  /** A column of a number with itself reads the same from both ends. */
  lemma {:induction false} Reflect(x: seq<nat>, n: int, lo: int, cnt: nat)
    ensures Part(x, x, n, lo, cnt) == Part(x, x, n, n - lo - cnt + 1, cnt)
  {
    if cnt == 0 {
    } else {
      Reflect(x, n, lo, cnt - 1);
      var lo' := n - lo - cnt + 1;
      PartSplit(x, x, n, lo', 1, cnt - 1);
      PartOne(x, x, n, lo');
      Commute(At(x, lo'), At(x, n - lo'));
      assert n - lo' == lo + cnt - 1;
    }
  }

  lemma PartOne(x: seq<nat>, y: seq<nat>, n: int, lo: int)
    ensures Part(x, y, n, lo, 1) == At(x, lo) * At(y, n - lo)
  {
    assert Part(x, y, n, lo, 0) == 0;
  }

  lemma Commute(a: nat, b: nat)
    ensures a * b == b * a
  {
  }

  // ---- The product is the sum of its columns

  lemma ConvSnoc(x: seq<nat>, d: nat, y: seq<nat>, n: int)
    ensures Conv(x + [d], y, n) == Conv(x, y, n) + d * At(y, n - |x|)
  {
    PartSame(x + [d], x, y, n, 0, |x|);
  }

  function ShiftSum(y: seq<nat>, l: nat, b: nat, t: nat): nat {
    if t == 0 then 0 else ShiftSum(y, l, b, t - 1) + At(y, t - 1 - l) * Pow(b, t - 1)
  }

  lemma {:induction false} ShiftValue(y: seq<nat>, l: nat, b: nat, t: nat)
    ensures ShiftSum(y, l, b, t) ==
            if t <= l then 0 else Pow(b, l) * Val(y[..if t - l <= |y| then t - l else |y|], b)
  {
    if t == 0 {
    } else {
      ShiftValue(y, l, b, t - 1);
      if t > l {
        var u := t - l;
        PowAdd(b, l, u - 1);
        if u <= |y| {
          assert y[..u] == y[..u - 1] + [y[u - 1]];
          ValSnoc(y[..u - 1], y[u - 1], b);
          Distribute(Pow(b, l), Val(y[..u - 1], b), y[u - 1], Pow(b, u - 1));
        }
      }
    }
  }

  lemma Distribute(p: nat, v: nat, d: nat, q: nat)
    ensures p * (v + d * q) == p * v + d * (p * q)
  {
    assert p * (d * q) == d * (p * q);
    assert p * (v + d * q) == p * v + p * (d * q);
  }

  lemma AddTimes(c: nat, d: nat, e: nat, q: nat)
    ensures (c + d * e) * q == c * q + d * (e * q)
  {
    assert (d * e) * q == d * (e * q);
    assert (c + d * e) * q == c * q + (d * e) * q;
  }

  lemma TimesAdd(d: nat, u: nat, v: nat)
    ensures d * (u + v) == d * u + d * v
  {
  }

  lemma {:induction false} ColSumSnoc(x: seq<nat>, d: nat, y: seq<nat>, b: nat, t: nat)
    ensures ColSum(x + [d], y, b, t) == ColSum(x, y, b, t) + d * ShiftSum(y, |x|, b, t)
  {
    hide Pow, Conv, At;
    if t == 0 {
    } else {
      ColSumSnoc(x, d, y, b, t - 1);
      ConvSnoc(x, d, y, t - 1);
      var e, q := At(y, t - 1 - |x|), Pow(b, t - 1);
      AddTimes(Conv(x, y, t - 1), d, e, q);
      TimesAdd(d, ShiftSum(y, |x|, b, t - 1), e * q);
    }
  }

  lemma {:induction false} ColumnsMakeProduct(x: seq<nat>, y: seq<nat>, b: nat, t: nat)
    requires t >= |x| + |y|
    ensures ColSum(x, y, b, t) == Val(x, b) * Val(y, b)
  {
    hide Pow, ColSum, ShiftSum;
    if x == [] {
      NoColumns(y, b, t);
    } else {
      var n := |x| - 1;
      assert x == x[..n] + [x[n]];
      ColumnsMakeProduct(x[..n], y, b, t);
      ColSumSnoc(x[..n], x[n], y, b, t);
      ShiftValue(y, n, b, t);
      assert y[..|y|] == y;
      AddTimes(Val(x[..n], b), x[n], Pow(b, n), Val(y, b));
    }
  }

  lemma {:induction false} NoColumns(y: seq<nat>, b: nat, t: nat)
    ensures ColSum([], y, b, t) == 0
  {
    if t == 0 {
    } else {
      NoColumns(y, b, t - 1);
    }
  }

  /** The column above the top one is empty, so p-digit factors have their product after 2p - 1 columns. */
  lemma ProductFromColumns(x: seq<nat>, y: seq<nat>, b: nat, p: nat)
    requires |x| == |y| == p > 0
    ensures ColSum(x, y, b, 2 * p - 1) == Val(x, b) * Val(y, b)
  {
    ColumnsMakeProduct(x, y, b, 2 * p);
    PartZero(x, y, 2 * p - 1, 0, p);
  }

  /** A digit appended to x changes no column below its own place. */
  lemma {:induction false} ColSumStable(x: seq<nat>, d: nat, y: seq<nat>, b: nat, t: nat)
    requires t <= |x|
    ensures ColSum(x + [d], y, b, t) == ColSum(x, y, b, t)
  {
    if t == 0 {
    } else {
      ColSumStable(x, d, y, b, t - 1);
      ConvSnoc(x, d, y, t - 1);
    }
  }

  /** Beyond column t the columns only contribute multiples of b^t. */
  lemma {:induction false} HighColumns(x: seq<nat>, y: seq<nat>, b: nat, t: nat, u: nat) returns (q: nat)
    requires t <= u
    ensures ColSum(x, y, b, u) == ColSum(x, y, b, t) + q * Pow(b, t)
  {
    if t == u {
      q := 0;
    } else {
      hide Pow, Conv;
      var q' := HighColumns(x, y, b, t, u - 1);
      var c, w := Conv(x, y, u - 1), Pow(b, u - 1 - t);
      PowAdd(b, u - 1 - t, t);
      q := q' + c * w;
      AddTimes(q', c, w, Pow(b, t));
    }
  }
}
