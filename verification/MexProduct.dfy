/** MULTIPLY, MULTUP and SQUARE compute products. */
module MexProduct {
  import opened Wrappers
  import opened MexCode
  import opened MexArith
  import opened Powers
  import opened MexMachine

  /** p-digit operands, digit by digit below the base, and an accumulator for p products of digits and a carry. */
  ghost predicate Ready(mc: Machine, s: State, p: nat) {
    && mc.unit == 1 && mc.base > 1 && p > 0 && mc.cap >= p * (mc.base * mc.base)
    && |s.a| == |s.b| == p && Digits(s.a, mc.base) && Digits(s.b, mc.base)
  }

  /** n columns are done: their digits are in w, and what is left of their sum is in the accumulator. */
  ghost predicate Done(mc: Machine, s: State, t: State, p: nat, n: nat) {
    && t.a == s.a && t.b == s.b && Idle(t) && |t.w| == |s.w| && n <= |t.w|
    && Digits(t.w[..n], mc.base) && t.w[n..] == s.w[n..]
    && t.acc <= p * (mc.base - 1)
    && Val(t.w[..n], mc.base) + t.acc * Pow(mc.base, n) == ColSum(s.a, s.b, mc.base, n)
  }

  /** p products of digits on top of a carry stay below p * base^2, and leave a carry of the same size. */
  lemma CarryBound(p: nat, b: nat, acc: nat, c: nat)
    requires b > 1 && p > 0 && acc <= p * (b - 1) && c <= p * ((b - 1) * (b - 1))
    ensures acc + c < p * (b * b) && (acc + c) / b <= p * (b - 1)
  {
    var m := p * (b - 1);
    Reassociate(p, b - 1, b - 1);
    TimesAdd(m, b - 1, 1);
    assert acc + c <= m * b;
    DivBound(acc + c, m, b);
    Reassociate(p, b, b);
    TimesAdd(p, b - 1, 1);
    AddTimes(m, p, 1, b);
  }

  lemma DivBound(x: nat, m: nat, b: nat)
    requires b > 0 && x <= m * b
    ensures x / b <= m
  {
    assert x / b * b <= x;
    if x / b > m {
      MulOrder(m + 1, x / b, b);
    }
  }

  /** Splitting an accumulator into a stored digit and a carry loses nothing. */
  lemma Balance(v: nat, acc: nat, c: nat, b: nat, q: nat, sum: nat)
    requires b > 0 && v + acc * q == sum
    ensures (v + (acc + c) % b * q) + (acc + c) / b * (b * q) == sum + c * q
  {
    var x := acc + c;
    var d, r := x / b, x % b;
    assert x == b * d + r;
    assert x * q == (b * d) * q + r * q;
    assert (b * d) * q == d * (b * q);
    assert x * q == acc * q + c * q;
  }

  lemma ColumnFits(mc: Machine, s: State, t: State, p: nat, n: nat)
    requires Ready(mc, s, p) && Done(mc, s, t, p, n)
    ensures t.acc + Conv(s.a, s.b, n) < mc.cap && (t.acc + Conv(s.a, s.b, n)) / mc.base <= p * (mc.base - 1)
  {
    PartBound(s.a, s.b, n, 0, p, mc.base);
    hide Part, ColSum, Val, Pow, Digits;
    CarryBound(p, mc.base, t.acc, Conv(s.a, s.b, n));
  }

  /** With column n in the accumulator, storing its digit and shifting completes the column. */
  lemma FinishColumn(mc: Machine, s: State, t: State, p: nat, n: nat)
    requires Ready(mc, s, p) && n < |s.w| && Done(mc, s, t, p, n)
    ensures var full := t.(acc := t.acc + Conv(s.a, s.b, n));
            && Exec(mc, Fin(n), full).Some?
            && Done(mc, s, Exec(mc, Fin(n), full).value, p, n + 1)
  {
    hide Conv, Val, Digit;
    var b := mc.base;
    var c, q := Conv(s.a, s.b, n), Pow(b, n);
    ColumnFits(mc, s, t, p, n);
    PlainDigit(mc, n);
    var r := (t.acc + c) % b;
    var w := t.w[n := r];
    assert w[..n + 1] == t.w[..n] + [r];
    assert w[n + 1..] == t.w[n..][1..] == s.w[n..][1..] == s.w[n + 1..];
    ValSnoc(t.w[..n], r, b);
    Balance(Val(t.w[..n], b), t.acc, c, b, q, ColSum(s.a, s.b, b, n));
  }

  lemma Started(mc: Machine, s: State, p: nat)
    requires Ready(mc, s, p) && Idle(s) && s.acc == 0
    ensures Done(mc, s, s, p, 0)
  {
    assert s.w[..0] == [] && s.w[0..] == s.w;
  }

  lemma {:induction false} RunColumns(mc: Machine, s: State, p: nat, scheduled: bool, n: nat) returns (t: State)
    requires Ready(mc, s, p) && n < 2 * p && n <= |s.w| && Idle(s) && s.acc == 0
    ensures Run(mc, Columns(p, scheduled, n), s) == Some(t) && Done(mc, s, t, p, n)
  {
    hide Done, Ready, ColumnCode, Exec, Conv, First, Count, Run, Idle;
    if n == 0 {
      t := s;
      Started(mc, s, p);
      RunNothing(mc, s);
    } else {
      t := RunColumns(mc, s, p, scheduled, n - 1);
      var column := ColumnCode(scheduled, false, First(p, n - 1), n - 1 - First(p, n - 1), Count(p, n - 1));
      ColumnIsConv(mc, s, t, p, scheduled, n - 1);
      FinishColumn(mc, s, t, p, n - 1);
      var full := t.(acc := t.acc + Conv(s.a, s.b, n - 1));
      RunAppend(mc, Columns(p, scheduled, n - 1), column + [Fin(n - 1)], s);
      RunSnoc(mc, column, Fin(n - 1), t);
      t := Exec(mc, Fin(n - 1), full).value;
    }
  }

  lemma Shapes(mc: Machine, s: State, t: State, p: nat, n: nat)
    requires Ready(mc, s, p) && Done(mc, s, t, p, n)
    ensures mc.unit == 1 && mc.base > 1 && |s.a| == |s.b| == p > 0 && t.a == s.a && t.b == s.b && Idle(t)
  {
  }

  lemma ColumnIsConv(mc: Machine, s: State, t: State, p: nat, scheduled: bool, n: nat)
    requires Ready(mc, s, p) && n + 1 < 2 * p && Done(mc, s, t, p, n)
    ensures Run(mc, ColumnCode(scheduled, false, First(p, n), n - First(p, n), Count(p, n)), t)
         == Some(t.(acc := t.acc + Conv(s.a, s.b, n)))
  {
    hide Conv, Run, ColumnCode, Part, Ready, Done;
    ColumnFits(mc, s, t, p, n);
    Shapes(mc, s, t, p, n);
    var k, cnt := First(p, n), Count(p, n);
    Narrow(s.a, s.b, n, k, cnt);
    ColumnAdds(mc, t, scheduled, false, k, n - k, cnt);
  }

  function Cleared(s: State): State {
    s.(acc := 0, slot1 := None, slot2 := None, carry := 0)
  }

  /** Memory after a product: the operands as they were, in w the digits of the product, nothing in flight. */
  ghost predicate HoldsProduct(mc: Machine, s: State, t: State) {
    && t.a == s.a && t.b == s.b && Idle(t) && |t.w| == |s.w| && Digits(t.w, mc.base)
    && Val(t.w, mc.base) == Val(s.a, mc.base) * Val(s.b, mc.base)
  }

  /** After 2p - 1 columns what is left is a single digit, and with it the product is complete. */
  lemma LastDigit(mc: Machine, s: State, t: State, p: nat)
    requires Ready(mc, s, p) && |s.w| == 2 * p && Done(mc, s, t, p, 2 * p - 1)
    ensures t.acc < mc.base
    ensures Exec(mc, End(2 * p - 1), t).Some? && HoldsProduct(mc, s, Exec(mc, End(2 * p - 1), t).value)
  {
    hide ColSum, Val, Digit, Pow;
    var b := mc.base;
    var n := 2 * p - 1;
    ProductFromColumns(s.a, s.b, b, p);
    var low, q := t.w[..n], Pow(b, n);
    ProductBound(s.a, s.b, b, p);
    FitsDigit(Val(low, b), t.acc, b, q, Val(s.a, b) * Val(s.b, b));
    PlainDigit(mc, n);
    var w := t.w[n := t.acc];
    assert w == low + [t.acc];
    ValSnoc(low, t.acc, b);
  }

  lemma FitsDigit(v: nat, acc: nat, b: nat, q: nat, product: nat)
    requires v + acc * q == product && product < b * q
    ensures acc < b
  {
    if acc >= b {
      MulOrder(b, acc, q);
    }
  }

  lemma ProductBound(x: seq<nat>, y: seq<nat>, b: nat, p: nat)
    requires b > 0 && |x| == |y| == p > 0 && Digits(x, b) && Digits(y, b)
    ensures Val(x, b) * Val(y, b) < b * Pow(b, 2 * p - 1)
  {
    ValBound(x, b);
    ValBound(y, b);
    PowAdd(b, p, p);
    assert Pow(b, 2 * p) == b * Pow(b, 2 * p - 1);
    hide Val, Pow;
    var u, v, w := Val(x, b), Val(y, b), Pow(b, p);
    MulOrder(u, w, v);
    Commute(w, v);
    StrictOrder(v, w, w);
  }

  lemma StrictOrder(a: nat, b: nat, c: nat)
    requires a < b && c > 0
    ensures a * c < b * c
  {
    MulOrder(a + 1, b, c);
    AddTimes(a, 1, 1, c);
  }

  lemma StartsCleared(mc: Machine, s: State, p: nat)
    requires Ready(mc, s, p)
    ensures Run(mc, [MulStart], s) == Some(Cleared(s)) && Ready(mc, Cleared(s), p) && Idle(Cleared(s))
  {
    RunOne(mc, MulStart, s);
  }

  /** MULTIPLY, scheduled or not: the exact product in 2p digits, with an accumulator of p * base^2. */
  lemma MultiplyIsProduct(mc: Machine, s: State, p: nat, scheduled: bool)
    requires Ready(mc, s, p) && |s.w| == 2 * p
    ensures Run(mc, MultiplyCode(p, scheduled), s).Some?
    ensures HoldsProduct(mc, s, Run(mc, MultiplyCode(p, scheduled), s).value)
  {
    hide Run, Columns, Exec, Done;
    StartsCleared(mc, s, p);
    var t := RunColumns(mc, Cleared(s), p, scheduled, 2 * p - 1);
    LastDigit(mc, Cleared(s), t, p);
    RunAppend(mc, [MulStart], Columns(p, scheduled, 2 * p - 1), s);
    RunSnoc(mc, [MulStart] + Columns(p, scheduled, 2 * p - 1), End(2 * p - 1), s);
  }

  // ---- MULTUP

  lemma ModAdd(x: nat, y: nat, b: nat)
    requires b > 0
    ensures (x % b + y) % b == (x + y) % b
  {
    var d := (x % b + y) / b;
    var r := (x % b + y) % b;
    assert x == b * (x / b) + x % b;
    assert x + y == b * (x / b) + b * d + r;
    TimesAdd(b, x / b, d);
    BigEndian.ModUnique(x + y, b, x / b + d, r);
  }

  lemma {:induction false} RunLasts(mc: Machine, t: State, p: nat, c: nat)
    requires mc.unit == 1 && mc.base > 0 && |t.a| == |t.b| == p && c <= p
    ensures Run(mc, Lasts(p, c), t)
         == Some(if c == 0 then t else t.(acc := (t.acc + Part(t.a, t.b, p - 1, 0, c)) % mc.base))
  {
    hide Exec;
    if c == 0 {
    } else {
      RunLasts(mc, t, p, c - 1);
      RunSnoc(mc, Lasts(p, c - 1), Last(c - 1, p - c), t);
      OneLast(mc, t, p, c);
    }
  }

  lemma OneLast(mc: Machine, t: State, p: nat, c: nat)
    requires mc.unit == 1 && mc.base > 0 && |t.a| == |t.b| == p && 0 < c <= p
    ensures var u := if c == 1 then t else t.(acc := (t.acc + Part(t.a, t.b, p - 1, 0, c - 1)) % mc.base);
            Exec(mc, Last(c - 1, p - c), u) == Some(t.(acc := (t.acc + Part(t.a, t.b, p - 1, 0, c)) % mc.base))
  {
    hide Exec, Part;
    var v := t.a[c - 1] * t.b[p - c];
    LastPart(t.a, t.b, p, c);
    var u := if c == 1 then t else t.(acc := (t.acc + Part(t.a, t.b, p - 1, 0, c - 1)) % mc.base);
    LastStores(mc, u, c - 1, p - c);
    ModAdd(t.acc + Part(t.a, t.b, p - 1, 0, c - 1), v, mc.base);
  }

  lemma LastStores(mc: Machine, u: State, k: nat, m: nat)
    requires mc.unit == 1 && mc.base > 0 && k < |u.a| && m < |u.b|
    ensures Exec(mc, Last(k, m), u) == Some(u.(acc := (u.acc + u.a[k] * u.b[m]) % mc.base))
  {
    hide Digit;
    PlainDigit(mc, k);
    PlainDigit(mc, m);
  }

  lemma LastPart(x: seq<nat>, y: seq<nat>, p: nat, c: nat)
    requires |x| == |y| == p && 0 < c <= p
    ensures Part(x, y, p - 1, 0, c) == Part(x, y, p - 1, 0, c - 1) + x[c - 1] * y[p - c]
    ensures Part(x, y, p - 1, 0, 0) == 0
  {
  }

  /** MULTUP: the low p digits of the product, that is, the product modulo base^p. */
  lemma MultUpIsLowProduct(mc: Machine, s: State, p: nat, scheduled: bool)
    requires Ready(mc, s, p) && |s.w| == p
    ensures Run(mc, MultUpCode(p, scheduled), s).Some?
    ensures var t := Run(mc, MultUpCode(p, scheduled), s).value;
            && t.a == s.a && t.b == s.b && |t.w| == p && Digits(t.w, mc.base)
            && Val(t.w, mc.base) == Val(s.a, mc.base) * Val(s.b, mc.base) % Pow(mc.base, p)
  {
    hide Run, Columns, Exec, Done, ColSum, Val, Pow, Part, Lasts;
    StartsCleared(mc, s, p);
    var t := RunColumns(mc, Cleared(s), p, scheduled, p - 1);
    Shapes(mc, Cleared(s), t, p, p - 1);
    RunLasts(mc, t, p, p);
    var u := t.(acc := (t.acc + Conv(s.a, s.b, p - 1)) % mc.base);
    LowDigits(mc, Cleared(s), t, p);
    RunAppend(mc, [MulStart], Columns(p, scheduled, p - 1), s);
    RunAppend(mc, [MulStart] + Columns(p, scheduled, p - 1), Lasts(p, p), s);
    RunSnoc(mc, [MulStart] + Columns(p, scheduled, p - 1) + Lasts(p, p), End(p - 1), s);
  }

  lemma LowDigits(mc: Machine, s: State, t: State, p: nat)
    requires Ready(mc, s, p) && |s.w| == p && Done(mc, s, t, p, p - 1)
    ensures var u := t.(acc := (t.acc + Conv(s.a, s.b, p - 1)) % mc.base);
            && Exec(mc, End(p - 1), u).Some?
            && var w := Exec(mc, End(p - 1), u).value.w;
            && Exec(mc, End(p - 1), u).value.a == s.a && Exec(mc, End(p - 1), u).value.b == s.b
            && |w| == p && Digits(w, mc.base)
            && Val(w, mc.base) == Val(s.a, mc.base) * Val(s.b, mc.base) % Pow(mc.base, p)
  {
    hide Conv, Val, Digit;
    var b := mc.base;
    var c, q := Conv(s.a, s.b, p - 1), Pow(b, p - 1);
    var r, d := (t.acc + c) % b, (t.acc + c) / b;
    PlainDigit(mc, p - 1);
    var low := t.w[..p - 1];
    var w := t.w[p - 1 := r];
    assert w == low + [r];
    ValSnoc(low, r, b);
    Balance(Val(low, b), t.acc, c, b, q, ColSum(s.a, s.b, b, p - 1));
    assert Val(w, b) + d * Pow(b, p) == ColSum(s.a, s.b, b, p);
    LowOfProduct(s.a, s.b, b, p, w, d);
  }

  lemma LowOfProduct(x: seq<nat>, y: seq<nat>, b: nat, p: nat, w: seq<nat>, d: nat)
    requires b > 0 && |x| == |y| == |w| == p > 0 && Digits(w, b)
    requires Val(w, b) + d * Pow(b, p) == ColSum(x, y, b, p)
    ensures Val(w, b) == Val(x, b) * Val(y, b) % Pow(b, p)
  {
    hide ColSum, Val, Pow;
    var e := HighColumns(x, y, b, p, 2 * p - 1);
    ProductFromColumns(x, y, b, p);
    ValBound(w, b);
    AddTimes(d, e, 1, Pow(b, p));
    Commute(d + e, Pow(b, p));
    BigEndian.ModUnique(Val(x, b) * Val(y, b), Pow(b, p), d + e, Val(w, b));
  }

  // ---- SQUARE

  /** A column of a square: its pairs twice, and the middle digit's square when there is one. */
  lemma Symmetric(x: seq<nat>, n: nat, lo: nat, cnt: nat)
    requires n == 2 * lo + cnt - 1 && cnt > 0
    ensures n % 2 == 0 <==> cnt % 2 == 1
    ensures Part(x, x, n, lo, cnt) ==
            2 * Part(x, x, n, lo, cnt / 2) + if n % 2 == 0 then At(x, n / 2) * At(x, n / 2) else 0
  {
    var h := cnt / 2;
    PartSplit(x, x, n, lo, h, cnt - h);
    Reflect(x, n, lo, h);
    if cnt % 2 == 1 {
      PartSplit(x, x, n, lo + h, 1, h);
      PartOne(x, x, n, lo + h);
    }
  }

  lemma SquareColumnIsConv(mc: Machine, s: State, t: State, p: nat, scheduled: bool, n: nat)
    requires Ready(mc, s, p) && s.b == s.a && n + 1 < 2 * p && n < |s.w| && Done(mc, s, t, p, n)
    ensures Run(mc, SquareColumn(p, scheduled, n), t) == Exec(mc, Fin(n), t.(acc := t.acc + Conv(s.a, s.b, n)))
  {
    hide Conv, Run, ColumnCode, Part, Ready, Done, Exec;
    ColumnFits(mc, s, t, p, n);
    Shapes(mc, s, t, p, n);
    var k, cnt := First(p, n), Count(p, n);
    Narrow(s.a, s.a, n, k, cnt);
    Symmetric(s.a, n, k, cnt);
    ColumnAdds(mc, t, scheduled, true, k, n - k, cnt / 2);
    PairsFit(mc, t, k, n, cnt / 2);
    var pairs := ColumnCode(scheduled, true, k, n - k, cnt / 2);
    var u := t.(acc := t.acc + 2 * Part(s.a, s.a, n, k, cnt / 2));
    if n % 2 == 0 {
      SelfAdds(mc, u, n / 2);
      RunSnoc(mc, pairs, Self(n / 2), t);
      RunSnoc(mc, pairs + [Self(n / 2)], Fin(n), t);
    } else {
      assert pairs + [] == pairs;
      RunSnoc(mc, pairs, Fin(n), t);
    }
  }

  lemma PairsFit(mc: Machine, t: State, k: nat, n: nat, h: nat)
    requires k <= n && t.acc + 2 * Part(t.a, t.b, n, k, h) < mc.cap
    ensures Added(mc, t, true, k, n - k, h) == Some(t.(acc := t.acc + 2 * Part(t.a, t.b, n, k, h)))
  {
  }

  lemma SelfAdds(mc: Machine, u: State, x: nat)
    requires mc.unit == 1 && u.b == u.a && x < |u.a| && u.acc + At(u.a, x) * At(u.a, x) < mc.cap
    ensures Exec(mc, Self(x), u) == Some(u.(acc := u.acc + At(u.a, x) * At(u.a, x)))
  {
    PlainDigit(mc, x);
  }

  lemma {:induction false} RunSquareColumns(mc: Machine, s: State, p: nat, scheduled: bool, n: nat) returns (t: State)
    requires Ready(mc, s, p) && s.b == s.a && n < 2 * p && n <= |s.w| && Idle(s) && s.acc == 0
    ensures Run(mc, SquareColumns(p, scheduled, n), s) == Some(t) && Done(mc, s, t, p, n)
  {
    hide Done, Ready, SquareColumn, Exec, Conv, Run, Idle;
    if n == 0 {
      t := s;
      Started(mc, s, p);
      RunNothing(mc, s);
    } else {
      t := RunSquareColumns(mc, s, p, scheduled, n - 1);
      SquareColumnIsConv(mc, s, t, p, scheduled, n - 1);
      FinishColumn(mc, s, t, p, n - 1);
      RunAppend(mc, SquareColumns(p, scheduled, n - 1), SquareColumn(p, scheduled, n - 1), s);
      t := Exec(mc, Fin(n - 1), t.(acc := t.acc + Conv(s.a, s.b, n - 1))).value;
    }
  }

  /** SQUARE, scheduled or not: the number times itself. */
  lemma SquareIsProduct(mc: Machine, s: State, p: nat, scheduled: bool)
    requires Ready(mc, s, p) && s.b == s.a && |s.w| == 2 * p
    ensures Run(mc, SquareCode(p, scheduled), s).Some?
    ensures HoldsProduct(mc, s, Run(mc, SquareCode(p, scheduled), s).value)
  {
    hide Run, SquareColumns, Exec, Done;
    StartsCleared(mc, s, p);
    var t := RunSquareColumns(mc, Cleared(s), p, scheduled, 2 * p - 1);
    LastDigit(mc, Cleared(s), t, p);
    RunAppend(mc, [MulStart], SquareColumns(p, scheduled, 2 * p - 1), s);
    RunSnoc(mc, [MulStart] + SquareColumns(p, scheduled, 2 * p - 1), End(2 * p - 1), s);
  }

  /** SQUARE leaves, word for word, what MULTIPLY leaves when both operands are the same. */
  lemma SquareIsMultiply(mc: Machine, s: State, p: nat, scheduled: bool, t: State, u: State)
    requires Ready(mc, s, p) && s.b == s.a && |s.w| == 2 * p
    requires Run(mc, SquareCode(p, scheduled), s) == Some(t)
    requires Run(mc, MultiplyCode(p, scheduled), s) == Some(u)
    ensures t.w == u.w
  {
    hide Run, SquareCode, MultiplyCode;
    SquareIsProduct(mc, s, p, scheduled);
    MultiplyIsProduct(mc, s, p, scheduled);
    OneDigitString(t.w, u.w, mc.base);
  }

  lemma TopDigit(x: seq<nat>, b: nat)
    requires b > 0 && x != [] && Digits(x, b)
    ensures var n := |x| - 1;
            Val(x, b) / Pow(b, n) == x[n] && Val(x, b) % Pow(b, n) == Val(x[..n], b)
  {
    var n := |x| - 1;
    ValBound(x[..n], b);
    Commute(x[n], Pow(b, n));
    BigEndian.ModUnique(Val(x, b), Pow(b, n), x[n], Val(x[..n], b));
  }

  lemma {:induction false} OneDigitString(x: seq<nat>, y: seq<nat>, b: nat)
    requires b > 0 && |x| == |y| && Digits(x, b) && Digits(y, b) && Val(x, b) == Val(y, b)
    ensures x == y
  {
    hide Val, Pow;
    if x == [] {
    } else {
      var n := |x| - 1;
      TopDigit(x, b);
      TopDigit(y, b);
      OneDigitString(x[..n], y[..n], b);
      assert x == x[..n] + [x[n]] && y == y[..n] + [y[n]];
    }
  }
}
