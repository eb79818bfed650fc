/** The code that mex emits: which macros, with which word indices, in which order. */
module MexCode {

  /** One emitted macro. STEP and DSTEP, and their two-slot forms, differ in how often they add their product;
      the H2_ and H4_ forms carry the index of the first word of each block of two or four. */
  datatype Instr =
    | MulStart                                         // MUL_START, SQR_START, REDC_START
    | Step(double: bool, k: int, m: int)               // STEP, DSTEP
    | Load(double: bool, slot: int, k: int, m: int)    // STEP1M, STEP2M, DSTEP1M, DSTEP2M
    | Add(double: bool, slot: int)                     // STEP1A, STEP2A, DSTEP1A, DSTEP2A
    | Self(k: int)                                     // SELF
    | Last(k: int, m: int)                             // LAST
    | Fin(n: int)                                      // MFIN, SFIN
    | End(n: int)                                      // MUL_END, SQR_END
    | RFinU(n: int)                                    // RFINU
    | RFinD(n: int)                                    // RFIND
    | RedcEnd(n: int)                                  // REDC_END

  // ---- What the code is, one digit at a time

  /** Products k*m, (k+1)*(m-1), ...: cnt of them. */
  function Column(double: bool, k: int, m: int, cnt: nat): seq<Instr> {
    if cnt == 0 then [] else Column(double, k, m, cnt - 1) + [Step(double, k + (cnt - 1), m - (cnt - 1))]
  }

  function SlotOf(c: nat): int {
    if c % 2 == 0 then 1 else 2
  }

  /** Software pipelining: product c is loaded before product c-1 is added. */
  function Pipeline(double: bool, k: int, m: int, c: nat): seq<Instr> {
    if c == 0 then [Load(double, 1, k, m)]
    else Pipeline(double, k, m, c - 1) + [Load(double, SlotOf(c), k + c, m - c), Add(double, SlotOf(c - 1))]
  }

  function ColumnCode(scheduled: bool, double: bool, k: int, m: int, cnt: nat): seq<Instr> {
    if !scheduled then Column(double, k, m, cnt)
    else if cnt == 0 then []
    else Pipeline(double, k, m, cnt - 1) + [Add(double, SlotOf(cnt - 1))]
  }

  /** In column n of a p by p product the left index starts here... */
  function First(p: nat, n: nat): nat {
    if n < p then 0 else n - p + 1
  }

  /** ...and this many products follow. */
  function Count(p: nat, n: nat): nat
    requires n < 2 * p
  {
    if n < p then n + 1 else 2 * p - 1 - n
  }

  function Columns(p: nat, scheduled: bool, n: nat): seq<Instr>
    requires n < 2 * p
  {
    if n == 0 then []
    else Columns(p, scheduled, n - 1)
         + (ColumnCode(scheduled, false, First(p, n - 1), n - 1 - First(p, n - 1), Count(p, n - 1)) + [Fin(n - 1)])
  }

  function MultiplyCode(p: nat, scheduled: bool): seq<Instr>
    requires p > 0
  {
    [MulStart] + Columns(p, scheduled, 2 * p - 1) + [End(2 * p - 1)]
  }

  function Lasts(p: nat, cnt: nat): seq<Instr> {
    if cnt == 0 then [] else Lasts(p, cnt - 1) + [Last(cnt - 1, p - cnt)]
  }

  function MultUpCode(p: nat, scheduled: bool): seq<Instr>
    requires p > 0
  {
    [MulStart] + Columns(p, scheduled, p - 1) + Lasts(p, p) + [End(p - 1)]
  }

  function SquareColumn(p: nat, scheduled: bool, n: nat): seq<Instr>
    requires n < 2 * p
  {
    ColumnCode(scheduled, true, First(p, n), n - First(p, n), Count(p, n) / 2)
    + (if n % 2 == 0 then [Self(n / 2)] else [])
    + [Fin(n)]
  }

  function SquareColumns(p: nat, scheduled: bool, n: nat): seq<Instr>
    requires n < 2 * p
  {
    if n == 0 then [] else SquareColumns(p, scheduled, n - 1) + SquareColumn(p, scheduled, n - 1)
  }

  function SquareCode(p: nat, scheduled: bool): seq<Instr>
    requires p > 0
  {
    [MulStart] + SquareColumns(p, scheduled, 2 * p - 1) + [End(2 * p - 1)]
  }

  /** Reduction: on the way up column n leaves out the product with the modulus' lowest digit, which RFINU adds. */
  function RedcColumns(p: nat, scheduled: bool, n: nat): seq<Instr>
    requires n < 2 * p
  {
    if n == 0 then []
    else RedcColumns(p, scheduled, n - 1)
         + if n - 1 < p then ColumnCode(scheduled, false, 0, n - 1, n - 1) + [RFinU(n - 1)]
           else ColumnCode(scheduled, false, First(p, n - 1), n - 1 - First(p, n - 1), Count(p, n - 1)) + [RFinD(n - 1)]
  }

  function RedcCode(p: nat, scheduled: bool): seq<Instr>
    requires p > 0
  {
    [MulStart] + RedcColumns(p, scheduled, 2 * p - 1) + [RedcEnd(2 * p - 1)]
  }

  // ---- Blocks of h words

  /** The first word of block x. */
  function Word(h: int, x: int): int {
    h * x
  }

  function ScaleInstr(h: int, i: Instr): Instr {
    match i
    case MulStart => i
    case Step(d, k, m) => Step(d, Word(h, k), Word(h, m))
    case Load(d, s, k, m) => Load(d, s, Word(h, k), Word(h, m))
    case Add(_, _) => i
    case Self(k) => Self(Word(h, k))
    case Last(k, m) => Last(Word(h, k), Word(h, m))
    case Fin(n) => Fin(Word(h, n))
    case End(n) => End(Word(h, n))
    case RFinU(n) => RFinU(Word(h, n))
    case RFinD(n) => RFinD(Word(h, n))
    case RedcEnd(n) => RedcEnd(Word(h, n))
  }

  /** The same code with every digit index turned into the index of its block's first word. */
  function Scale(h: int, code: seq<Instr>): seq<Instr> {
    if code == [] then [] else Scale(h, code[..|code| - 1]) + [ScaleInstr(h, code[|code| - 1])]
  }

  lemma ScaleOne(h: int, i: Instr)
    ensures Scale(h, [i]) == [ScaleInstr(h, i)]
  {
    assert [i][..0] == [];
  }

  lemma {:induction false} ScaleAppend(h: int, a: seq<Instr>, b: seq<Instr>)
    ensures Scale(h, a + b) == Scale(h, a) + Scale(h, b)
  {
    if b == [] {
      assert a + b == a;
    } else {
      ScaleAppend(h, a, b[..|b| - 1]);
      assert (a + b)[..|a + b| - 1] == a + b[..|b| - 1];
    }
  }

  lemma ScaleSnoc(h: int, a: seq<Instr>, i: Instr)
    ensures Scale(h, a + [i]) == Scale(h, a) + [ScaleInstr(h, i)]
  {
    ScaleAppend(h, a, [i]);
    ScaleOne(h, i);
  }

  ghost predicate IsInc(inc: nat) {
    inc == 1 || inc == 2 || inc == 4
  }

  lemma Blocks(inc: nat, x: int, y: int)
    requires IsInc(inc)
    ensures Word(inc, x) < Word(inc, y) <==> x < y
    ensures Word(inc, x + 1) == Word(inc, x) + inc && Word(inc, x - 1) == Word(inc, x) - inc
  {
  }

  // ---- The emitting loops

  function Prologue(double: bool, k: int, m: int): seq<Instr> {
    [Load(double, 1, k, m)]
  }

  function Epilogue(double: bool, x: int): seq<Instr> {
    if x == 1 then [Add(double, 1)] else [Add(double, 2)]
  }

  function Schedule(double: bool, x: int, k: int, m: int): seq<Instr> {
    if x == 1 then [Load(double, 2, k, m), Add(double, 1)] else [Load(double, 1, k, m), Add(double, 2)]
  }

  /** The scheduled loop: prologue, then one more product a round with the slots swapped, then epilogue. */
  method EmitScheduled(double: bool, k0: int, m0: int, ghost cnt: nat, last: int, pairs: bool)
    returns (code: seq<Instr>)
    requires cnt > 0
    requires !pairs ==> last == k0 + cnt - 1
    requires pairs ==> k0 + (cnt - 1) < m0 - (cnt - 1) && k0 + cnt >= m0 - cnt
    ensures code == ColumnCode(true, double, k0, m0, cnt)
  {
    var x := 1;
    code := Prologue(double, k0, m0);
    var k, m := k0 + 1, m0 - 1;
    ghost var c := 0;
    while if pairs then k < m else k <= last
      invariant c < cnt && k == k0 + c + 1 && m == m0 - c - 1
      invariant x == SlotOf(c) && code == Pipeline(double, k0, m0, c)
      decreases cnt - c
    {
      code := code + Schedule(double, x, k, m);
      k, m, x := k + 1, m - 1, 3 - x;
      c := c + 1;
    }
    code := code + Epilogue(double, x);
  }

  lemma ColumnSnoc(inc: nat, double: bool, kb: int, mb: int, c: nat)
    ensures Scale(inc, Column(double, kb, mb, 0)) == []
    ensures Scale(inc, Column(double, kb, mb, c + 1))
         == Scale(inc, Column(double, kb, mb, c)) + [Step(double, Word(inc, kb + c), Word(inc, mb - c))]
  {
    ScaleSnoc(inc, Column(double, kb, mb, c), Step(double, kb + c, mb - c));
  }

  /** The plain loop over a column, up to a last index or while the pair's indices have not met. Where the indices
      are those of whole blocks it is the column of those blocks. */
  method EmitPlain(double: bool, k0: int, m0: int, inc: nat, last: int, pairs: bool,
                   ghost aligned: bool, ghost kb: int, ghost mb: int, ghost cnt: nat) returns (code: seq<Instr>)
    requires IsInc(inc)
    requires aligned ==> k0 == Word(inc, kb) && m0 == Word(inc, mb)
    requires aligned && !pairs ==> last == Word(inc, kb + cnt - 1)
    requires aligned && pairs ==> (cnt == 0 || kb + (cnt - 1) < mb - (cnt - 1)) && kb + cnt >= mb - cnt
    ensures aligned ==> code == Scale(inc, Column(double, kb, mb, cnt))
  {
    hide Word, Column, Scale;
    code := [];
    ColumnSnoc(inc, double, kb, mb, 0);
    var k, m := k0, m0;
    ghost var c := 0;
    while if pairs then k < m else k <= last
      invariant aligned ==> c <= cnt && k == Word(inc, kb + c) && m == Word(inc, mb - c)
      invariant aligned ==> code == Scale(inc, Column(double, kb, mb, c))
      decreases if pairs then m - k else last + inc - k
    {
      Blocks(inc, kb + c, mb - c);
      Blocks(inc, kb + cnt - 1, kb + c);
      Blocks(inc, mb - c, 0);
      ColumnSnoc(inc, double, kb, mb, c);
      code := code + [Step(double, k, m)];
      k, m := k + inc, m - inc;
      c := c + 1;
    }
    Blocks(inc, kb + c, mb - c);
    Blocks(inc, kb + cnt - 1, kb + c);
  }

  method EmitColumn(scheduled: bool, double: bool, k: int, m: int, inc: nat, last: int, pairs: bool,
                    ghost aligned: bool, ghost kb: int, ghost mb: int, ghost cnt: nat) returns (code: seq<Instr>)
    requires IsInc(inc) && (scheduled ==> inc == 1 && aligned)
    requires aligned ==> k == Word(inc, kb) && m == Word(inc, mb)
    requires aligned && !pairs ==> last == Word(inc, kb + cnt - 1) && (scheduled ==> cnt > 0)
    requires aligned && pairs ==> (cnt == 0 || kb + (cnt - 1) < mb - (cnt - 1)) && kb + cnt >= mb - cnt
    ensures aligned ==> code == Scale(inc, ColumnCode(scheduled, double, kb, mb, cnt))
  {
    if scheduled {
      if pairs && k >= m {
        return [];
      }
      code := EmitScheduled(double, k, m, cnt, last, pairs);
      ScaleByOne(code);
    } else {
      code := EmitPlain(double, k, m, inc, last, pairs, aligned, kb, mb, cnt);
    }
  }

  lemma {:induction false} ScaleByOne(code: seq<Instr>)
    ensures Scale(1, code) == code
  {
    if code == [] {
    } else {
      ScaleByOne(code[..|code| - 1]);
    }
  }

  lemma ScaleTwo(h: int, a: seq<Instr>, b: seq<Instr>, i: Instr)
    ensures Scale(h, a + (b + [i])) == Scale(h, a) + Scale(h, b) + [ScaleInstr(h, i)]
  {
    ScaleAppend(h, a, b + [i]);
    ScaleSnoc(h, b, i);
  }

  ghost predicate Fits(param: nat, inc: nat, scheduled: bool) {
    IsInc(inc) && param > 0 && param % inc == 0 && (scheduled ==> inc == 1)
  }

  lemma ParamBlocks(param: nat, inc: nat)
    requires IsInc(inc) && param > 0 && param % inc == 0
    ensures param == Word(inc, param / inc) && param / inc > 0 && Word(inc, 0) == 0
  {
  }

  /** MULTIPLY: the columns on the way up, those on the way down, the last word. */
  method EmitMultiply(param: nat, inc: nat, scheduled: bool) returns (code: seq<Instr>)
    requires Fits(param, inc, scheduled)
    ensures code == Scale(inc, MultiplyCode(param / inc, scheduled))
  {
    hide Word, Scale, ColumnCode, Columns;
    ghost var p := param / inc;
    ParamBlocks(param, inc);
    code := [MulStart];
    var i, n := 0, 0;
    ghost var j: nat := 0;
    ScaleOne(inc, MulStart);
    NoColumns(p, scheduled);
    while i < param
      invariant i == n == Word(inc, j) && j <= p
      invariant code == Scale(inc, [MulStart] + Columns(p, scheduled, j))
      decreases p - j
    {
      Blocks(inc, j, p);
      var column := EmitColumn(scheduled, false, 0, i, inc, i, false, true, 0, j, j + 1);
      NextColumn(inc, [MulStart], p, scheduled, j);
      code := code + column + [Fin(n)];
      i, n, j := i + inc, n + inc, j + 1;
    }
    Blocks(inc, j, p);
    i := 0;
    ghost var t: nat := 0;
    while i < param - inc
      invariant i == Word(inc, t) && n == Word(inc, p + t) && t <= p - 1
      invariant code == Scale(inc, [MulStart] + Columns(p, scheduled, p + t))
      decreases p - t
    {
      Blocks(inc, t, p - 1);
      Blocks(inc, p, 0);
      Blocks(inc, p + t, 0);
      var column := EmitColumn(scheduled, false, i + inc, param - inc, inc, param - inc, false,
                               true, t + 1, p - 1, p - 1 - t);
      NextColumn(inc, [MulStart], p, scheduled, p + t);
      code := code + column + [Fin(n)];
      i, n, t := i + inc, n + inc, t + 1;
    }
    Blocks(inc, t, p - 1);
    Blocks(inc, p, 0);
    TwiceParam(param, inc);
    ScaleSnoc(inc, [MulStart] + Columns(p, scheduled, 2 * p - 1), End(2 * p - 1));
    code := code + [End(2 * param - inc)];
  }

  lemma NoColumns(p: nat, scheduled: bool)
    requires p > 0
    ensures [MulStart] + Columns(p, scheduled, 0) == [MulStart]
  {
  }

  lemma TwiceParam(param: nat, inc: nat)
    requires IsInc(inc) && param > 0 && param % inc == 0
    ensures Word(inc, 2 * (param / inc) - 1) == 2 * param - inc
  {
  }

  lemma NextColumn(inc: nat, front: seq<Instr>, p: nat, scheduled: bool, n: nat)
    requires n + 1 < 2 * p
    ensures Scale(inc, front + Columns(p, scheduled, n + 1)) ==
            Scale(inc, front + Columns(p, scheduled, n))
            + Scale(inc, ColumnCode(scheduled, false, First(p, n), n - First(p, n), Count(p, n)))
            + [Fin(Word(inc, n))]
  {
    var column := ColumnCode(scheduled, false, First(p, n), n - First(p, n), Count(p, n));
    assert front + Columns(p, scheduled, n + 1) == (front + Columns(p, scheduled, n)) + (column + [Fin(n)]);
    ScaleTwo(inc, front + Columns(p, scheduled, n), column, Fin(n));
  }

  /** MULTUP: the columns below the top one, then the top one with single-word products. */
  method EmitMultUp(param: nat, inc: nat, scheduled: bool) returns (code: seq<Instr>)
    requires Fits(param, inc, scheduled)
    ensures code == Scale(inc, MultUpCode(param / inc, scheduled))
  {
    hide Word, Scale, ColumnCode, Columns;
    ghost var p := param / inc;
    ParamBlocks(param, inc);
    Blocks(inc, p, 0);
    code := [MulStart];
    var i, n := 0, 0;
    ghost var j: nat := 0;
    ScaleOne(inc, MulStart);
    NoColumns(p, scheduled);
    while i < param - inc
      invariant i == n == Word(inc, j) && j <= p - 1
      invariant code == Scale(inc, [MulStart] + Columns(p, scheduled, j))
      decreases p - j
    {
      Blocks(inc, j, p - 1);
      var column := EmitColumn(scheduled, false, 0, i, inc, i, false, true, 0, j, j + 1);
      NextColumn(inc, [MulStart], p, scheduled, j);
      code := code + column + [Fin(n)];
      i, n, j := i + inc, n + inc, j + 1;
    }
    Blocks(inc, j, p - 1);
    var k, m := 0, param - inc;
    ghost var c: nat := 0;
    ghost var front := [MulStart] + Columns(p, scheduled, p - 1);
    assert front + Lasts(p, 0) == front;
    while k <= i
      invariant k == Word(inc, c) && m == Word(inc, p - 1 - c) && c <= p
      invariant code == Scale(inc, front + Lasts(p, c))
      decreases p - c
    {
      Blocks(inc, p - 1, c);
      Blocks(inc, p - 1 - c, 0);
      Blocks(inc, c, 0);
      ScaleSnoc(inc, front + Lasts(p, c), Last(c, p - 1 - c));
      assert front + Lasts(p, c + 1) == (front + Lasts(p, c)) + [Last(c, p - 1 - c)];
      code := code + [Last(k, m)];
      k, m, c := k + inc, m - inc, c + 1;
    }
    Blocks(inc, p - 1, c);
    ScaleSnoc(inc, front + Lasts(p, p), End(p - 1));
    code := code + [End(param - inc)];
  }

  lemma HalfBlock(inc: nat, n: int, j: nat)
    requires IsInc(inc) && n == Word(inc, j)
    ensures n % (2 * inc) == 0 <==> j % 2 == 0
    ensures j % 2 == 0 ==> n / 2 == Word(inc, j / 2)
  {
  }

  /** SELF on the columns with a middle product. */
  method EmitSelf(n: int, inc: nat, ghost j: nat) returns (code: seq<Instr>)
    requires IsInc(inc) && n == Word(inc, j)
    ensures code == Scale(inc, if j % 2 == 0 then [Self(j / 2)] else [])
  {
    HalfBlock(inc, n, j);
    ScaleOne(inc, Self(j / 2));
    code := [];
    if (inc == 1 && n % 2 == 0) || (inc == 2 && n % 4 == 0) || (inc == 4 && n % 8 == 0) {
      code := [Self(n / 2)];
    }
  }

  lemma NextSquareColumn(inc: nat, front: seq<Instr>, p: nat, scheduled: bool, n: nat)
    requires n + 1 < 2 * p
    ensures Scale(inc, front + SquareColumns(p, scheduled, n + 1)) ==
            Scale(inc, front + SquareColumns(p, scheduled, n))
            + Scale(inc, ColumnCode(scheduled, true, First(p, n), n - First(p, n), Count(p, n) / 2))
            + Scale(inc, if n % 2 == 0 then [Self(n / 2)] else [])
            + [Fin(Word(inc, n))]
  {
    var pairs := ColumnCode(scheduled, true, First(p, n), n - First(p, n), Count(p, n) / 2);
    var self := if n % 2 == 0 then [Self(n / 2)] else [];
    var done := SquareColumns(p, scheduled, n);
    assert SquareColumns(p, scheduled, n + 1) == done + SquareColumn(p, scheduled, n);
    Associate(front, done, SquareColumn(p, scheduled, n));
    hide SquareColumns, ColumnCode, Scale, Word;
    ScaleTwo(inc, front + done, pairs + self, Fin(n));
    ScaleAppend(inc, pairs, self);
    Associate(Scale(inc, front + done), Scale(inc, pairs), Scale(inc, self));
  }

  lemma Associate<T>(a: seq<T>, b: seq<T>, c: seq<T>)
    ensures a + (b + c) == (a + b) + c
  {
  }

  /** SQUARE: each pair of a column once, doubled, and the middle product by itself. */
  method EmitSquare(param: nat, inc: nat, scheduled: bool) returns (code: seq<Instr>)
    requires Fits(param, inc, scheduled)
    ensures code == Scale(inc, SquareCode(param / inc, scheduled))
  {
    hide Word, Scale, ColumnCode, SquareColumns;
    ghost var p := param / inc;
    ParamBlocks(param, inc);
    code := [MulStart];
    var i, n := 0, 0;
    ghost var j: nat := 0;
    ScaleOne(inc, MulStart);
    NoSquareColumns(p, scheduled);
    while i < param
      invariant i == n == Word(inc, j) && j <= p
      invariant code == Scale(inc, [MulStart] + SquareColumns(p, scheduled, j))
      decreases p - j
    {
      Blocks(inc, j, p);
      var column := EmitColumn(scheduled, true, 0, i, inc, 0, true, true, 0, j, (j + 1) / 2);
      var self := EmitSelf(n, inc, j);
      NextSquareColumn(inc, [MulStart], p, scheduled, j);
      code := code + column + self + [Fin(n)];
      i, n, j := i + inc, n + inc, j + 1;
    }
    Blocks(inc, j, p);
    i := 0;
    ghost var t: nat := 0;
    while i < param - inc
      invariant i == Word(inc, t) && n == Word(inc, p + t) && t <= p - 1
      invariant code == Scale(inc, [MulStart] + SquareColumns(p, scheduled, p + t))
      decreases p - t
    {
      Blocks(inc, t, p - 1);
      Blocks(inc, p, 0);
      Blocks(inc, p + t, 0);
      var column := EmitColumn(scheduled, true, i + inc, param - inc, inc, 0, true,
                               true, t + 1, p - 1, (p - 1 - t) / 2);
      var self := EmitSelf(n, inc, p + t);
      NextSquareColumn(inc, [MulStart], p, scheduled, p + t);
      code := code + column + self + [Fin(n)];
      i, n, t := i + inc, n + inc, t + 1;
    }
    Blocks(inc, t, p - 1);
    Blocks(inc, p, 0);
    TwiceParam(param, inc);
    ScaleSnoc(inc, [MulStart] + SquareColumns(p, scheduled, 2 * p - 1), End(2 * p - 1));
    code := code + [End(2 * param - inc)];
  }

  lemma NoSquareColumns(p: nat, scheduled: bool)
    requires p > 0
    ensures [MulStart] + SquareColumns(p, scheduled, 0) == [MulStart]
  {
  }

  lemma NextRedcColumn(inc: nat, front: seq<Instr>, p: nat, scheduled: bool, n: nat)
    requires n + 1 < 2 * p
    ensures n < p ==> Scale(inc, front + RedcColumns(p, scheduled, n + 1)) ==
                      Scale(inc, front + RedcColumns(p, scheduled, n))
                      + Scale(inc, ColumnCode(scheduled, false, 0, n, n)) + [RFinU(Word(inc, n))]
    ensures n >= p ==> Scale(inc, front + RedcColumns(p, scheduled, n + 1)) ==
                       Scale(inc, front + RedcColumns(p, scheduled, n))
                       + Scale(inc, ColumnCode(scheduled, false, First(p, n), n - First(p, n), Count(p, n)))
                       + [RFinD(Word(inc, n))]
  {
    var column := if n < p then ColumnCode(scheduled, false, 0, n, n)
                  else ColumnCode(scheduled, false, First(p, n), n - First(p, n), Count(p, n));
    var fin := if n < p then RFinU(n) else RFinD(n);
    assert front + RedcColumns(p, scheduled, n + 1) == (front + RedcColumns(p, scheduled, n)) + (column + [fin]);
    ScaleTwo(inc, front + RedcColumns(p, scheduled, n), column, fin);
  }

  lemma FirstRedcColumn(inc: nat, p: nat, scheduled: bool)
    requires p > 0
    ensures p > 1 ==> Scale(inc, [MulStart] + RedcColumns(p, scheduled, 1)) == [MulStart, RFinU(Word(inc, 0))]
    ensures p == 1 ==> Scale(inc, [MulStart] + RedcColumns(p, scheduled, 1)) == [MulStart, RFinU(Word(inc, 0))]
  {
    assert RedcColumns(p, scheduled, 1) == [RFinU(0)];
    ScaleOne(inc, MulStart);
    ScaleSnoc(inc, [MulStart], RFinU(0));
  }

  /** The number of blocks that param words touch. */
  function Ceiling(param: nat, inc: nat): nat
    requires inc > 0
  {
    if param % inc == 0 then param / inc else param / inc + 1
  }

  lemma CeilingBlocks(param: nat, inc: nat, j: int)
    requires IsInc(inc) && param > 0
    ensures Ceiling(param, inc) > 0 && (Word(inc, j) < param <==> j < Ceiling(param, inc))
  {
  }

  /** The way up of REDC, over every block that has a word below PARAM. */
  method EmitRedcUp(param: nat, inc: nat, scheduled: bool) returns (code: seq<Instr>, n: int)
    requires IsInc(inc) && param > 0 && (scheduled ==> inc == 1)
    ensures var p := Ceiling(param, inc);
            p > 0 && n == Word(inc, p) && code == Scale(inc, [MulStart] + RedcColumns(p, scheduled, p))
  {
    hide Word, Scale, ColumnCode, RedcColumns, Ceiling;
    ghost var p := Ceiling(param, inc);
    CeilingBlocks(param, inc, 1);
    FirstRedcColumn(inc, p, scheduled);
    code := [MulStart, RFinU(0)];
    var i;
    i, n := inc, inc;
    ghost var j: nat := 1;
    Blocks(inc, 0, p);
    ZeroBlock(inc);
    while i < param
      invariant i == n == Word(inc, j) && 1 <= j <= p
      invariant code == Scale(inc, [MulStart] + RedcColumns(p, scheduled, j))
      decreases p - j
    {
      CeilingBlocks(param, inc, j);
      Blocks(inc, j, p);
      var column := EmitColumn(scheduled, false, 0, i, inc, i - inc, false, true, 0, j, j);
      NextRedcColumn(inc, [MulStart], p, scheduled, j);
      code := code + column + [RFinU(n)];
      i, n, j := i + inc, n + inc, j + 1;
    }
    CeilingBlocks(param, inc, j);
  }

  lemma ZeroBlock(inc: nat)
    ensures Word(inc, 0) == 0
  {
  }

  /** REDC: the way up makes each column divisible, the way down collects the result. Nobody checks that PARAM is a
      multiple of the block size here; if it is not, the way up runs one block too far. */
  method EmitRedc(param: nat, inc: nat, scheduled: bool) returns (code: seq<Instr>)
    requires IsInc(inc) && param > 0 && (scheduled ==> inc == 1)
    ensures param % inc == 0 ==> code == Scale(inc, RedcCode(param / inc, scheduled))
    ensures param % inc != 0 ==> Scale(inc, [MulStart] + RedcColumns(param / inc + 1, false, param / inc + 1)) <= code
  {
    hide Word, Scale, ColumnCode, RedcColumns;
    ghost var aligned := param % inc == 0;
    ghost var p := Ceiling(param, inc);
    var n;
    code, n := EmitRedcUp(param, inc, scheduled);
    ghost var up := code;
    if aligned {
      ParamBlocks(param, inc);
    }
    var i := 0;
    ZeroBlock(inc);
    ghost var t: nat := 0;
    while i < param - inc
      invariant aligned ==> i == Word(inc, t) && n == Word(inc, p + t) && t <= p - 1
      invariant aligned ==> code == Scale(inc, [MulStart] + RedcColumns(p, scheduled, p + t))
      invariant up <= code
      decreases param - i
    {
      if aligned {
        Blocks(inc, t, p - 1);
        Blocks(inc, p, 0);
        Blocks(inc, p + t, 0);
        NextRedcColumn(inc, [MulStart], p, scheduled, p + t);
      }
      var column := EmitColumn(scheduled, false, i + inc, param - inc, inc, param - inc, false,
                               aligned, t + 1, p - 1, if aligned then p - 1 - t else 0);
      code := code + column + [RFinD(n)];
      i, n, t := i + inc, n + inc, t + 1;
    }
    if aligned {
      Blocks(inc, t, p - 1);
      Blocks(inc, p, 0);
      TwiceParam(param, inc);
      ScaleSnoc(inc, [MulStart] + RedcColumns(p, scheduled, 2 * p - 1), RedcEnd(2 * p - 1));
    }
    code := code + [RedcEnd(2 * param - inc)];
  }
}
