/** REDC is Montgomery reduction. */
module MexRedc {
  import opened Wrappers
  import opened MexCode
  import opened MexArith
  import opened Powers
  import opened MexMachine
  import MexProduct

  /** A number of 2p digits to reduce, a modulus of p digits, and the negated inverse of the modulus' lowest digit. */
  ghost predicate Ready(mc: Machine, s: State, p: nat) {
    && mc.unit == 1 && mc.base > 1 && p > 0 && mc.cap >= p * (mc.base * mc.base)
    && |s.a| == 2 * p && |s.b| == p && Digits(s.a, mc.base) && Digits(s.b, mc.base)
    && (s.b[0] * mc.ndash + 1) % mc.base == 0
  }

  /** The digit q makes the column divisible. */
  lemma QuotientDigit(sum: nat, nd: nat, b: nat, n0: nat)
    requires b > 0 && (n0 * nd + 1) % b == 0
    ensures (sum + sum * nd % b * n0) % b == 0
  {
    var k := (n0 * nd + 1) / b;
    var d, q := sum * nd / b, sum * nd % b;
    assert n0 * nd + 1 == b * k;
    assert sum * nd == q + b * d;
    Commute(n0, nd);
    Reassociate(sum, nd, n0);
    AddTimes(q, b, d, n0);
    TimesAdd(sum, nd * n0, 1);
    Reassociate(sum, b, k);
    Commute(sum, b);
    Reassociate(b, sum, k);
    Multiple(sum + q * n0, b, sum * k, d * n0);
  }

  lemma Multiple(z: nat, b: nat, u: nat, v: nat)
    requires b > 0 && z + b * v == b * u
    ensures z % b == 0
  {
    if u < v {
      StrictMul(b, u, v);
    } else {
      TimesAdd(b, u - v, v);
      BigEndian.ModUnique(z, b, u - v, 0);
    }
  }

  lemma StrictMul(b: nat, u: nat, v: nat)
    requires b > 0 && u < v
    ensures b * u < b * v
  {
    TimesAdd(b, u, v - u);
    MulOrder(1, v - u, b);
    Commute(b, v - u);
  }

  /** A column's products, a digit of the number and a carry: below p * base^2, leaving a carry of the same size. */
  lemma CarryBound(p: nat, b: nat, acc: nat, d: nat, c: nat)
    requires b > 1 && p > 0 && acc <= p * (b - 1) && d < b && c <= p * ((b - 1) * (b - 1))
    ensures acc + c + d < p * (b * b) && (acc + c + d) / b <= p * (b - 1)
  {
    var m := p * (b - 1);
    Reassociate(p, b - 1, b - 1);
    TimesAdd(m, b - 1, 1);
    assert acc + c <= m * b;
    Reassociate(p, b, b);
    TimesAdd(p, b - 1, 1);
    AddTimes(m, p, 1, b);
    MulOrder(1, p, b);
    DivBelow(acc + c + d, m, b);
  }

  lemma DivBelow(x: nat, m: nat, b: nat)
    requires b > 0 && x < m * b + b
    ensures x / b <= m
  {
    assert x / b * b <= x;
    if x / b > m {
      MulOrder(m + 1, x / b, b);
      AddTimes(m, 1, 1, b);
    }
  }

  // ---- The way up

  /** n quotient digits stand in the low digits, and the columns they make vanish except for a carry. */
  ghost predicate Up(mc: Machine, s: State, t: State, p: nat, n: nat) {
    && n <= p && t.b == s.b && t.w == s.w && Idle(t) && |t.a| == |s.a| == 2 * p
    && t.a[n..] == s.a[n..] && Digits(t.a, mc.base)
    && t.acc <= p * (mc.base - 1)
    && t.acc * Pow(mc.base, n) == Val(s.a[..n], mc.base) + ColSum(t.a[..n], s.b, mc.base, n)
  }

  lemma UpColumn(a: seq<nat>, y: seq<nat>, n: nat, d: nat)
    requires n < |a| && y != []
    ensures Conv(a[..n] + [d], y, n) == Part(a, y, n, 0, n) + d * y[0]
  {
    var q := a[..n] + [d];
    PartSame(q, a, y, n, 0, n);
    assert Part(q, y, n, 0, n + 1) == Part(q, y, n, 0, n) + At(q, n) * At(y, 0);
  }

  /** The slices of the number after quotient digit d has been stored at position n. */
  lemma UpSlices(a: seq<nat>, s: seq<nat>, n: nat, d: nat)
    requires n < |a| == |s| && a[n..] == s[n..]
    ensures a[n] == s[n] && s[..n + 1] == s[..n] + [s[n]]
    ensures a[n := d][..n + 1] == a[..n] + [d] && a[n := d][n + 1..] == s[n + 1..]
  {
    assert a[n] == a[n..][0] == s[n..][0];
    assert a[n + 1..] == a[n..][1..] == s[n..][1..] == s[n + 1..];
  }

  lemma UpSums(a: seq<nat>, x: seq<nat>, y: seq<nat>, b: nat, n: nat, acc: nat, d: nat, e: nat)
    requires n < |a| == |x| && a[n..] == x[n..] && acc * Pow(b, n) == Val(x[..n], b) + ColSum(a[..n], y, b, n)
    requires acc + Conv(a[..n] + [d], y, n) + x[n] == b * e
    ensures e * Pow(b, n + 1) == Val(x[..n + 1], b) + ColSum(a[..n] + [d], y, b, n + 1)
  {
    hide Conv, Val;
    var q := a[..n] + [d];
    UpSlices(a, x, n, d);
    ValSnoc(x[..n], x[n], b);
    ColSumStable(a[..n], d, y, b, n);
    UpBalance(acc, Conv(q, y, n), x[n], b, Pow(b, n), Val(x[..n], b) + ColSum(a[..n], y, b, n), e);
  }

  lemma RFinUStores(mc: Machine, u: State, n: nat, d: nat, c: nat)
    requires mc.unit == 1 && mc.base > 0 && n < |u.a| && u.b != []
    requires d == (u.acc + u.a[n]) * mc.ndash % mc.base
    requires c == u.acc + u.a[n] + d * u.b[0] && c < mc.cap && c % mc.base == 0
    ensures Exec(mc, RFinU(n), u) == Some(u.(a := u.a[n := d], acc := c / mc.base))
  {
    hide Digit;
    PlainDigit(mc, n);
  }

  lemma UpSays(mc: Machine, s: State, t: State, p: nat, n: nat)
    requires Ready(mc, s, p) && n < p && Up(mc, s, t, p, n)
    ensures mc.unit == 1 && mc.base > 0 && n < |t.a| == |s.a| && t.a[n..] == s.a[n..] && t.b == s.b != []
    ensures (t.b[0] * mc.ndash + 1) % mc.base == 0
    ensures t.acc * Pow(mc.base, n) == Val(s.a[..n], mc.base) + ColSum(t.a[..n], s.b, mc.base, n)
  {
  }

  /** RFINU on column n: the digit d it stores and the carry e it leaves. */
  lemma UpChoice(mc: Machine, s: State, t: State, p: nat, n: nat) returns (d: nat, e: nat)
    requires Ready(mc, s, p) && n < p && Up(mc, s, t, p, n)
    ensures d < mc.base && e <= p * (mc.base - 1) && t.acc + Part(t.a, t.b, n, 0, n) < mc.cap && n < |t.a|
    ensures t.acc + Conv(t.a[..n] + [d], s.b, n) + t.a[n] == mc.base * e
    ensures Exec(mc, RFinU(n), t.(acc := t.acc + Part(t.a, t.b, n, 0, n))) == Some(t.(a := t.a[n := d], acc := e))
  {
    hide Exec, Conv, Val, Part, Pow, ColSum, Ready, Up;
    UpSays(mc, s, t, p, n);
    var part := Part(t.a, t.b, n, 0, n);
    var sum := t.acc + part + t.a[n];
    d := sum * mc.ndash % mc.base;
    var c := sum + d * t.b[0];
    UpColumn(t.a, t.b, n, d);
    QuotientDigit(sum, mc.ndash, mc.base, t.b[0]);
    UpFits(mc, s, t, p, n, d);
    UpSlices(t.a, s.a, n, d);
    RFinUStores(mc, t.(acc := t.acc + part), n, d, c);
    DivMod(c, mc.base);
    e := c / mc.base;
  }

  lemma UpDigit(mc: Machine, s: State, t: State, p: nat, n: nat)
    requires Ready(mc, s, p) && n < p && Up(mc, s, t, p, n)
    ensures t.acc + Part(t.a, t.b, n, 0, n) < mc.cap
    ensures var full := t.(acc := t.acc + Part(t.a, t.b, n, 0, n));
            Exec(mc, RFinU(n), full).Some? && Up(mc, s, Exec(mc, RFinU(n), full).value, p, n + 1)
  {
    hide Exec, Conv, Val, Part, Pow, ColSum, Ready, Up;
    var d, e := UpChoice(mc, s, t, p, n);
    UpSays(mc, s, t, p, n);
    UpSlices(t.a, s.a, n, d);
    UpSums(t.a, s.a, s.b, mc.base, n, t.acc, d, e);
    UpAgain(mc, s, t, p, n, d, e);
  }

  lemma UpAgain(mc: Machine, s: State, t: State, p: nat, n: nat, d: nat, e: nat)
    requires Up(mc, s, t, p, n) && n < p && d < mc.base && e <= p * (mc.base - 1)
    requires e * Pow(mc.base, n + 1) == Val(s.a[..n + 1], mc.base) + ColSum(t.a[..n] + [d], s.b, mc.base, n + 1)
    ensures Up(mc, s, t.(a := t.a[n := d], acc := e), p, n + 1)
  {
    hide Val, Pow, ColSum;
    UpSlices(t.a, s.a, n, d);
  }

  lemma UpFits(mc: Machine, s: State, t: State, p: nat, n: nat, d: nat)
    requires Ready(mc, s, p) && n < p && Up(mc, s, t, p, n) && d < mc.base
    ensures var c := Conv(t.a[..n] + [d], s.b, n);
            t.acc + c + s.a[n] < mc.cap && (t.acc + c + s.a[n]) / mc.base <= p * (mc.base - 1)
  {
    var q := t.a[..n] + [d];
    PartBound(q, s.b, n, 0, n + 1, mc.base);
    hide Part, Val, ColSum, Pow;
    MulOrder(n + 1, p, (mc.base - 1) * (mc.base - 1));
    CarryBound(p, mc.base, t.acc, s.a[n], Conv(q, s.b, n));
  }

  lemma UpBalance(acc: nat, c: nat, d: nat, b: nat, q: nat, sum: nat, e: nat)
    requires acc * q == sum && acc + c + d == b * e
    ensures e * (b * q) == sum + d * q + c * q
  {
    assert (acc + c + d) * q == acc * q + c * q + d * q;
    assert (b * e) * q == e * (b * q);
  }

  lemma DivMod(x: nat, b: nat)
    requires b > 0
    ensures x == b * (x / b) + x % b
  {
  }

  lemma {:induction false} RunUp(mc: Machine, s: State, p: nat, scheduled: bool, n: nat) returns (t: State)
    requires Ready(mc, s, p) && n <= p && Idle(s) && s.acc == 0
    ensures Run(mc, RedcColumns(p, scheduled, n), s) == Some(t) && Up(mc, s, t, p, n)
  {
    hide Up, Ready, ColumnCode, Exec, Part, Run, Idle;
    if n == 0 {
      t := s;
      UpStart(mc, s, p);
      RunNothing(mc, s);
    } else {
      t := RunUp(mc, s, p, scheduled, n - 1);
      var column := ColumnCode(scheduled, false, 0, n - 1, n - 1);
      UpDigit(mc, s, t, p, n - 1);
      UpColumnRuns(mc, s, t, p, scheduled, n - 1);
      var full := t.(acc := t.acc + Part(t.a, t.b, n - 1, 0, n - 1));
      RunAppend(mc, RedcColumns(p, scheduled, n - 1), column + [RFinU(n - 1)], s);
      RunSnoc(mc, column, RFinU(n - 1), t);
      t := Exec(mc, RFinU(n - 1), full).value;
    }
  }

  lemma UpStart(mc: Machine, s: State, p: nat)
    requires Ready(mc, s, p) && Idle(s) && s.acc == 0
    ensures Up(mc, s, s, p, 0)
  {
    assert s.a[..0] == [];
  }

  lemma UpColumnRuns(mc: Machine, s: State, t: State, p: nat, scheduled: bool, n: nat)
    requires Ready(mc, s, p) && n < p && Up(mc, s, t, p, n) && t.acc + Part(t.a, t.b, n, 0, n) < mc.cap
    ensures Run(mc, ColumnCode(scheduled, false, 0, n, n), t) == Some(t.(acc := t.acc + Part(t.a, t.b, n, 0, n)))
  {
    hide Run, ColumnCode, Part, Val, ColSum, Pow, Added;
    ColumnAdds(mc, t, scheduled, false, 0, n, n);
    AddedFits(mc, t, 0, n, n);
  }

  lemma AddedFits(mc: Machine, t: State, k: int, m: int, cnt: nat)
    requires t.acc + Part(t.a, t.b, k + m, k, cnt) < mc.cap
    ensures Added(mc, t, false, k, m, cnt) == Some(t.(acc := t.acc + Part(t.a, t.b, k + m, k, cnt)))
  {
  }

  // ---- The way down

  /** The quotient q is complete; the result's digits are stored from position p up to n. */
  ghost predicate Down(mc: Machine, s: State, t: State, p: nat, q: seq<nat>, n: nat) {
    && p <= n < 2 * p && t.b == s.b && t.w == s.w && Idle(t) && |t.a| == |s.a| == 2 * p
    && t.a[..p] == q && t.a[n..] == s.a[n..] && Digits(t.a, mc.base)
    && t.acc <= p * (mc.base - 1)
    && Val(s.a[..n], mc.base) + ColSum(q, s.b, mc.base, n)
       == t.acc * Pow(mc.base, n) + Pow(mc.base, p) * Val(t.a[p..n], mc.base)
  }

  /** Storing one digit at position n extends the run of digits from p. */
  lemma StoreSlices(a: seq<nat>, p: nat, n: nat, r: nat)
    requires p <= n < |a|
    ensures a[n := r][..p] == a[..p] && a[n := r][n + 1..] == a[n + 1..]
    ensures a[n := r][p..n + 1] == a[p..n] + [r]
  {
  }

  /** Storing one digit of the result at position n, behind those from p on. */
  lemma StoreResult(a: seq<nat>, p: nat, n: nat, r: nat, b: nat)
    requires p <= n < |a|
    ensures a[n := r][..p] == a[..p] && a[n := r][n + 1..] == a[n + 1..]
    ensures Pow(b, p) * Val(a[n := r][p..n + 1], b) == Pow(b, p) * Val(a[p..n], b) + r * Pow(b, n)
  {
    hide Val, Pow;
    StoreSlices(a, p, n, r);
    var run := a[p..n];
    assert |run| == n - p;
    SnocTimes(run, r, b, p);
    assert p + |run| == n;
  }

  lemma SnocTimes(run: seq<nat>, r: nat, b: nat, p: nat)
    ensures Pow(b, p) * Val(run + [r], b) == Pow(b, p) * Val(run, b) + r * Pow(b, p + |run|)
  {
    hide Val, Pow;
    ValSnoc(run, r, b);
    PowAdd(b, p, |run|);
    Distribute(Pow(b, p), Val(run, b), r, Pow(b, |run|));
  }

  lemma DownBalance(acc: nat, c: nat, d: nat, b: nat, q: nat, left: nat, right: nat, e: nat, r: nat)
    requires left == acc * q + right && acc + c + d == b * e + r
    ensures left + d * q + c * q == e * (b * q) + (right + r * q)
  {
    assert (acc + c + d) * q == acc * q + c * q + d * q;
    assert (b * e + r) * q == (b * e) * q + r * q;
    assert (b * e) * q == e * (b * q);
  }

  lemma DownFits(mc: Machine, s: State, t: State, p: nat, q: seq<nat>, n: nat)
    requires Ready(mc, s, p) && Down(mc, s, t, p, q, n)
    ensures var c := Conv(q, s.b, n);
            t.acc + c + t.a[n] < mc.cap && (t.acc + c + t.a[n]) / mc.base <= p * (mc.base - 1)
  {
    PartBound(q, s.b, n, 0, p, mc.base);
    hide Part, Val, ColSum, Pow;
    CarryBound(p, mc.base, t.acc, t.a[n], Conv(q, s.b, n));
  }

  /** One column of the way down, in numbers: its digit r joins the result, e is the carry. */
  lemma DownSums(a: seq<nat>, x: seq<nat>, q: seq<nat>, y: seq<nat>, b: nat, p: nat, n: nat, acc: nat, e: nat, r: nat)
    requires p <= n < |a| == |x| && a[n..] == x[n..]
    requires Val(x[..n], b) + ColSum(q, y, b, n) == acc * Pow(b, n) + Pow(b, p) * Val(a[p..n], b)
    requires acc + Conv(q, y, n) + a[n] == b * e + r
    ensures Val(x[..n + 1], b) + ColSum(q, y, b, n + 1)
         == e * Pow(b, n + 1) + Pow(b, p) * Val(a[n := r][p..n + 1], b)
    ensures a[n := r][..p] == a[..p] && a[n := r][n + 1..] == x[n + 1..]
  {
    hide Conv, Val;
    UpSlices(a, x, n, r);
    ValSnoc(x[..n], x[n], b);
    StoreResult(a, p, n, r, b);
    DownBalance(acc, Conv(q, y, n), a[n], b, Pow(b, n), Val(x[..n], b) + ColSum(q, y, b, n), Pow(b, p) * Val(a[p..n], b),
                e, r);
  }

  lemma RFinDStores(mc: Machine, u: State, n: nat)
    requires mc.unit == 1 && mc.base > 0 && n < |u.a| && u.acc + u.a[n] < mc.cap
    ensures var x := u.acc + u.a[n];
            Exec(mc, RFinD(n), u) == Some(u.(a := u.a[n := x % mc.base], acc := x / mc.base))
  {
    hide Digit;
    PlainDigit(mc, n);
  }

  lemma DownDigit(mc: Machine, s: State, t: State, p: nat, q: seq<nat>, n: nat)
    requires Ready(mc, s, p) && n + 1 < 2 * p && Down(mc, s, t, p, q, n)
    ensures var full := t.(acc := t.acc + Conv(q, s.b, n));
            && Exec(mc, RFinD(n), full).Some?
            && Down(mc, s, Exec(mc, RFinD(n), full).value, p, q, n + 1)
  {
    hide Exec, Conv, Val, ColSum, Pow;
    DownFits(mc, s, t, p, q, n);
    RFinDStores(mc, t.(acc := t.acc + Conv(q, s.b, n)), n);
    var x := t.acc + Conv(q, s.b, n) + t.a[n];
    DivMod(x, mc.base);
    DownSums(t.a, s.a, q, s.b, mc.base, p, n, t.acc, x / mc.base, x % mc.base);
  }

  lemma DownColumnRuns(mc: Machine, s: State, t: State, p: nat, scheduled: bool, q: seq<nat>, n: nat)
    requires Ready(mc, s, p) && n + 1 < 2 * p && Down(mc, s, t, p, q, n)
    ensures Run(mc, ColumnCode(scheduled, false, First(p, n), n - First(p, n), Count(p, n)), t)
         == Some(t.(acc := t.acc + Conv(q, s.b, n)))
  {
    hide Conv, Run, ColumnCode, Part, Val, ColSum, Pow, Added, Ready, Down, First, Count, Idle, Digit;
    DownFits(mc, s, t, p, q, n);
    DownShapes(mc, s, t, p, q, n);
    var k, cnt := First(p, n), Count(p, n);
    SpanInside(p, n);
    Narrow(q, s.b, n, k, cnt);
    PartSame(t.a, q, s.b, n, k, cnt);
    ColumnOf(mc, t, scheduled, k, n - k, cnt, Conv(q, s.b, n));
  }

  lemma SpanInside(p: nat, n: nat)
    requires p > 0 && n < 2 * p - 1
    ensures var k, cnt := First(p, n), Count(p, n);
            && 0 <= k && k + cnt <= p && n - k < p && cnt <= n - k + 1
            && (k == 0 || n - k + 1 >= p) && (k + cnt == p || n < k + cnt)
  {
  }

  lemma ColumnOf(mc: Machine, t: State, scheduled: bool, k: nat, m: nat, cnt: nat, sum: nat)
    requires mc.unit == 1 && Idle(t) && InRange(t, k, m, cnt)
    requires Part(t.a, t.b, k + m, k, cnt) == sum && t.acc + sum < mc.cap
    ensures Run(mc, ColumnCode(scheduled, false, k, m, cnt), t) == Some(t.(acc := t.acc + sum))
  {
    hide Part, Run, ColumnCode, Added, InRange, Idle;
    ColumnAdds(mc, t, scheduled, false, k, m, cnt);
    AddedFits(mc, t, k, m, cnt);
  }

  lemma DownShapes(mc: Machine, s: State, t: State, p: nat, q: seq<nat>, n: nat)
    requires Ready(mc, s, p) && Down(mc, s, t, p, q, n)
    ensures mc.unit == 1 && |s.b| == |q| == p > 0 && |t.a| == 2 * p && t.b == s.b && Idle(t)
    ensures forall i :: 0 <= i < p ==> At(t.a, i) == At(q, i)
  {
    assert forall i :: 0 <= i < p ==> t.a[..p][i] == t.a[i];
  }

  lemma {:induction false} RunDown(mc: Machine, s: State, p: nat, scheduled: bool, n: nat)
    returns (t: State, q: seq<nat>)
    requires Ready(mc, s, p) && p <= n < 2 * p && Idle(s) && s.acc == 0
    ensures Run(mc, RedcColumns(p, scheduled, n), s) == Some(t) && Down(mc, s, t, p, q, n)
  {
    hide Up, Down, Ready, ColumnCode, Exec, Conv, Run, Idle, First, Count;
    if n == p {
      t := RunUp(mc, s, p, scheduled, p);
      q := UpIsDown(mc, s, t, p);
    } else {
      t, q := RunDown(mc, s, p, scheduled, n - 1);
      var column := ColumnCode(scheduled, false, First(p, n - 1), n - 1 - First(p, n - 1), Count(p, n - 1));
      DownDigit(mc, s, t, p, q, n - 1);
      DownColumnRuns(mc, s, t, p, scheduled, q, n - 1);
      var full := t.(acc := t.acc + Conv(q, s.b, n - 1));
      RunAppend(mc, RedcColumns(p, scheduled, n - 1), column + [RFinD(n - 1)], s);
      RunSnoc(mc, column, RFinD(n - 1), t);
      t := Exec(mc, RFinD(n - 1), full).value;
    }
  }

  lemma UpIsDown(mc: Machine, s: State, t: State, p: nat) returns (q: seq<nat>)
    requires Ready(mc, s, p) && Up(mc, s, t, p, p)
    ensures Down(mc, s, t, p, q, p)
  {
    q := t.a[..p];
    assert t.a[p..p] == [];
  }

  // ---- The result

  /** What REDC leaves: the quotient in the low digits, the result in the high ones with a carry on top. */
  function Result(mc: Machine, t: State, p: nat): nat
    requires |t.a| == 2 * p
  {
    Val(t.a[p..], mc.base) + t.carry * Pow(mc.base, p)
  }

  function Quotient(mc: Machine, t: State, p: nat): nat
    requires |t.a| == 2 * p
  {
    Val(t.a[..p], mc.base)
  }

  lemma LastSums(a: seq<nat>, x: seq<nat>, q: seq<nat>, y: seq<nat>, b: nat, p: nat, acc: nat, e: nat, r: nat)
    requires p > 0 && |a| == |x| == 2 * p && |q| == |y| == p && a[2 * p - 1..] == x[2 * p - 1..]
    requires var n := 2 * p - 1; Val(x[..n], b) + ColSum(q, y, b, n) == acc * Pow(b, n) + Pow(b, p) * Val(a[p..n], b)
    requires acc + a[2 * p - 1] == b * e + r
    ensures Pow(b, p) * (Val(a[2 * p - 1 := r][p..], b) + e * Pow(b, p)) == Val(x, b) + Val(q, b) * Val(y, b)
  {
    hide Val, ColSum, Pow;
    var n := 2 * p - 1;
    var a' := a[n := r];
    UpSlices(a, x, n, r);
    assert x[..n + 1] == x && a'[p..n + 1] == a'[p..];
    ValSnoc(x[..n], x[n], b);
    StoreResult(a, p, n, r, b);
    PowNext(b, n);
    DownBalance(acc, 0, a[n], b, Pow(b, n), Val(x[..n], b) + ColSum(q, y, b, n), Pow(b, p) * Val(a[p..n], b), e, r);
    ProductFromColumns(q, y, b, p);
    PowAdd(b, p, p);
    Distribute(Pow(b, p), Val(a'[p..], b), e, Pow(b, p));
  }

  lemma RedcEndStores(mc: Machine, t: State, n: nat)
    requires mc.unit == 1 && mc.base > 0 && n < |t.a| && t.acc + t.a[n] < mc.cap
    ensures var x := t.acc + t.a[n];
            Exec(mc, RedcEnd(n), t) == Some(t.(a := t.a[n := x % mc.base], carry := x / mc.base))
  {
    hide Digit;
    PlainDigit(mc, n);
  }

  lemma LastStep(mc: Machine, s: State, t: State, p: nat, q: seq<nat>)
    requires Ready(mc, s, p) && Down(mc, s, t, p, q, 2 * p - 1)
    ensures var r := Exec(mc, RedcEnd(2 * p - 1), t);
            && r.Some? && |r.value.a| == 2 * p && Digits(r.value.a, mc.base) && r.value.b == s.b
            && Pow(mc.base, p) * Result(mc, r.value, p)
               == Val(s.a, mc.base) + Quotient(mc, r.value, p) * Val(s.b, mc.base)
  {
    hide Exec, Conv, Val, ColSum, Pow;
    var n := 2 * p - 1;
    DownFits(mc, s, t, p, q, n);
    RedcEndStores(mc, t, n);
    var x := t.acc + t.a[n];
    DivMod(x, mc.base);
    LastSums(t.a, s.a, q, s.b, mc.base, p, t.acc, x / mc.base, x % mc.base);
    assert t.a[n := x % mc.base][..p] == q;
  }

  lemma PowNext(b: nat, n: nat)
    ensures Pow(b, n + 1) == b * Pow(b, n)
  {
  }

  /** REDC, scheduled or not: the division by base^p is exact, result * base^p = number + quotient * modulus. */
  lemma ReductionIsExact(mc: Machine, s: State, p: nat, scheduled: bool)
    requires Ready(mc, s, p)
    ensures var r := Run(mc, RedcCode(p, scheduled), s);
            && r.Some? && |r.value.a| == 2 * p && Digits(r.value.a, mc.base) && r.value.b == s.b
            && Quotient(mc, r.value, p) < Pow(mc.base, p)
            && Pow(mc.base, p) * Result(mc, r.value, p)
               == Val(s.a, mc.base) + Quotient(mc, r.value, p) * Val(s.b, mc.base)
  {
    hide Run, RedcColumns, Exec, Up, Down, Result;
    RunOne(mc, MulStart, s);
    assert Exec(mc, MulStart, s) == Some(MexProduct.Cleared(s)) by { Clear(mc, s); }
    var t, q := RunDown(mc, MexProduct.Cleared(s), p, scheduled, 2 * p - 1);
    LastStep(mc, MexProduct.Cleared(s), t, p, q);
    RunAppend(mc, [MulStart], RedcColumns(p, scheduled, 2 * p - 1), s);
    RunSnoc(mc, [MulStart] + RedcColumns(p, scheduled, 2 * p - 1), RedcEnd(2 * p - 1), s);
    ValBound(Exec(mc, RedcEnd(2 * p - 1), t).value.a[..p], mc.base);
  }

  lemma Clear(mc: Machine, s: State)
    ensures Exec(mc, MulStart, s) == Some(MexProduct.Cleared(s))
  {
  }

  /** Montgomery reduction: congruent to the number over base^p modulo the modulus, below twice the modulus
      whenever the number is below base^p times it, and then with a carry of at most one. */
  lemma ReductionIsMontgomery(mc: Machine, s: State, p: nat, scheduled: bool, t: State)
    requires Ready(mc, s, p) && Run(mc, RedcCode(p, scheduled), s) == Some(t) && Val(s.b, mc.base) > 0
    ensures |t.a| == 2 * p
    ensures Pow(mc.base, p) * Result(mc, t, p) % Val(s.b, mc.base) == Val(s.a, mc.base) % Val(s.b, mc.base)
    ensures Val(s.a, mc.base) < Val(s.b, mc.base) * Pow(mc.base, p) ==>
              Result(mc, t, p) < 2 * Val(s.b, mc.base) && t.carry <= 1
  {
    hide Run, RedcCode, Result, Val, Pow;
    ReductionIsExact(mc, s, p, scheduled);
    var w, q, n, r, x := Pow(mc.base, p), Quotient(mc, t, p), Val(s.b, mc.base), Result(mc, t, p), Val(s.a, mc.base);
    Congruent(x, q, n);
    if x < n * w {
      ValBound(s.b, mc.base);
      BelowTwice(w, r, x, q, n);
      CarryIsOne(mc, t, p, n);
    }
  }

  lemma Congruent(x: nat, q: nat, n: nat)
    requires n > 0
    ensures (x + q * n) % n == x % n
  {
    assert x == n * (x / n) + x % n;
    TimesAdd(n, x / n, q);
    BigEndian.ModUnique(x + q * n, n, x / n + q, x % n);
  }

  lemma BelowTwice(w: nat, r: nat, x: nat, q: nat, n: nat)
    requires w * r == x + q * n && q < w && x < n * w
    ensures r < 2 * n
  {
    MulOrder(q, w, n);
    Commute(w, n);
    AddTimes(n, n, 1, w);
    if r >= 2 * n {
      MulOrder(2 * n, r, w);
      Commute(w, r);
    }
  }

  lemma CarryIsOne(mc: Machine, t: State, p: nat, n: nat)
    requires |t.a| == 2 * p && Result(mc, t, p) < 2 * n && n < Pow(mc.base, p)
    ensures t.carry <= 1
  {
    if t.carry > 1 {
      MulOrder(2, t.carry, Pow(mc.base, p));
    }
  }

  // ---- An odd modulus has the digit that REDC needs

  lemma {:induction false} OddHasInverse(n0: nat, w: nat) returns (nd: nat)
    requires n0 % 2 == 1
    ensures (n0 * nd + 1) % Pow(2, w) == 0
  {
    if w == 0 {
      nd := 0;
    } else {
      var x := OddHasInverse(n0, w - 1);
      nd := OneMoreBit(n0, Pow(2, w - 1), x);
    }
  }

  /** An inverse modulo m, or that plus m, is one modulo 2m. */
  lemma OneMoreBit(n0: nat, m: nat, x: nat) returns (nd: nat)
    requires n0 % 2 == 1 && m > 0 && (n0 * x + 1) % m == 0
    ensures (n0 * nd + 1) % (2 * m) == 0
  {
    var k := (n0 * x + 1) / m;
    assert n0 * x + 1 == m * k;
    if k % 2 == 0 {
      nd := x;
      Halve(m, k);
    } else {
      nd := x + m;
      TimesAdd(n0, x, m);
      Commute(n0, m);
      TimesAdd(m, k, n0);
      Halve(m, k + n0);
    }
  }

  lemma Halve(m: nat, k: nat)
    requires m > 0 && k % 2 == 0
    ensures m * k % (2 * m) == 0
  {
    var h := k / 2;
    assert m * k == (2 * m) * h;
    BigEndian.ModUnique(m * k, 2 * m, h, 0);
  }
}
