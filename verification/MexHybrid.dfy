/** The block-hybrid programs, which work on blocks of two or four words, against the numbers the words stand for. */
module MexHybrid {
  import opened Wrappers
  import opened MexCode
  import opened MexArith
  import opened Powers
  import opened MexMachine
  import MexProduct
  import MexRedc

  /** Memory read h words at a time, from the lowest word on; words that do not fill a block are left over. */
  function Grouped(words: seq<nat>, h: nat, b: nat): seq<nat>
    requires h > 0
  {
    if |words| < h then [] else [Val(words[..h], b)] + Grouped(words[h..], h, b)
  }

  lemma {:induction false} ValSplit(u: seq<nat>, v: seq<nat>, b: nat)
    ensures Val(u + v, b) == Val(u, b) + Pow(b, |u|) * Val(v, b)
  {
    hide Val, Pow;
    if v == [] {
      assert u + v == u;
      Empty(b);
    } else {
      var n := |v| - 1;
      ValSplit(u, v[..n], b);
      assert u + v == (u + v[..n]) + [v[n]];
      assert v == v[..n] + [v[n]];
      ValSnoc(u + v[..n], v[n], b);
      ValSnoc(v[..n], v[n], b);
      PowAdd(b, |u|, n);
      Distribute(Pow(b, |u|), Val(v[..n], b), v[n], Pow(b, n));
    }
  }

  lemma Empty(b: nat)
    ensures Val([], b) == 0
  {
  }

  lemma {:induction false} PowPow(b: nat, h: nat, n: nat)
    ensures Pow(Pow(b, h), n) == Pow(b, h * n)
  {
    if n == 0 {
    } else {
      PowPow(b, h, n - 1);
      TimesAdd(h, n - 1, 1);
      PowAdd(b, h, h * (n - 1));
    }
  }

  /** One block of words in front is one digit in front: the same number either way. */
  lemma OneMoreBlock(u: seq<nat>, v: seq<nat>, g: seq<nat>, h: nat, b: nat)
    requires |u| == h && Val(g, Pow(b, h)) == Val(v, b)
    ensures Val([Val(u, b)] + g, Pow(b, h)) == Val(u + v, b)
  {
    hide Val, Pow;
    ValSplit(u, v, b);
    ValSplit([Val(u, b)], g, Pow(b, h));
    OneDigit(Val(u, b), Pow(b, h));
  }

  lemma OneDigit(d: nat, q: nat)
    ensures Val([d], q) == d && Pow(q, 1) == q
  {
    assert [d][..0] == [];
    assert Pow(q, 0) == 1;
  }

  lemma NoBlocks(words: seq<nat>, h: nat, b: nat)
    requires h > 0 && words == []
    ensures Grouped(words, h, b) == [] && Val(words, b) == 0 == Val(Grouped(words, h, b), Pow(b, h))
  {
  }

  lemma FirstBlock(words: seq<nat>, h: nat, b: nat, p: nat)
    requires h > 0 && p > 0 && |words| == h * p && Digits(words, b)
    ensures |words| >= h && |words[h..]| == h * (p - 1) && Digits(words[..h], b) && Digits(words[h..], b)
    ensures Grouped(words, h, b) == [Val(words[..h], b)] + Grouped(words[h..], h, b)
  {
    hide Val;
    TimesAdd(h, p - 1, 1);
    MulOrder(0, p - 1, h);
  }

  /** Grouping words into blocks changes neither the number nor the bound on its digits. */
  lemma {:induction false} GroupedValue(words: seq<nat>, h: nat, b: nat, p: nat)
    requires h > 0 && |words| == h * p && Digits(words, b)
    ensures |Grouped(words, h, b)| == p && Digits(Grouped(words, h, b), Pow(b, h))
    ensures Val(Grouped(words, h, b), Pow(b, h)) == Val(words, b)
    decreases p
  {
    hide Val, Pow, Grouped;
    if p == 0 {
      NoBlocks(words, h, b);
    } else {
      FirstBlock(words, h, b, p);
      var u, v := words[..h], words[h..];
      GroupedValue(v, h, b, p - 1);
      ValBound(u, b);
      OneMoreBlock(u, v, Grouped(v, h, b), h, b);
      assert u + v == words;
    }
  }

  /** A machine whose digits are blocks of h words of base b. */
  function BlockMachine(h: nat, b: nat, cap: nat, ndash: nat): Machine {
    Machine(h, Pow(b, h), cap, ndash)
  }

  /** Operands of param words each, read in blocks. */
  function Reading(a: seq<nat>, y: seq<nat>, w: seq<nat>, h: nat, b: nat): State
    requires h > 0
  {
    State(Grouped(a, h, b), Grouped(y, h, b), w, 0, None, None, 0)
  }

  ghost predicate Operands(a: seq<nat>, y: seq<nat>, la: nat, ly: nat, b: nat) {
    b > 1 && |a| == la && |y| == ly && Digits(a, b) && Digits(y, b)
  }

  /** An accumulator for p products of digits of base q. */
  ghost predicate Roomy(p: nat, q: nat, cap: nat) {
    cap >= p * (q * q)
  }

  /** The negated inverse of the modulus' lowest digit, modulo the base of the digits. */
  ghost predicate NegatedInverse(n: seq<nat>, ndash: nat, q: nat) {
    q > 0 && n != [] && (n[0] * ndash + 1) % q == 0
  }

  lemma PowAbove(b: nat, h: nat)
    requires b > 1 && h > 0
    ensures Pow(b, h) > 1
  {
    MulOrder(1, Pow(b, h - 1), b);
  }

  /** What EmitMultiply emits, for any block size that divides param: the exact product of the word arrays. */
  lemma HybridMultiply(a: seq<nat>, y: seq<nat>, w: seq<nat>, param: nat, h: nat, b: nat, cap: nat, scheduled: bool)
    requires Fits(param, h, scheduled) && Operands(a, y, param, param, b) && |w| == 2 * (param / h)
    requires Roomy(param / h, Pow(b, h), cap)
    ensures var code := Scale(h, MultiplyCode(param / h, scheduled));
            var r := Run(BlockMachine(h, b, cap, 0), code, Reading(a, y, w, h, b));
            && r.Some? && |r.value.w| == |w| && Digits(r.value.w, Pow(b, h))
            && Val(r.value.w, Pow(b, h)) == Val(a, b) * Val(y, b)
  {
    hide Run, Scale, MultiplyCode, Val, Pow;
    var p := param / h;
    var mc := BlockMachine(h, b, cap, 0);
    PowAbove(b, h);
    ParamBlocks(param, h);
    GroupedValue(a, h, b, p);
    GroupedValue(y, h, b, p);
    RunScaled(mc, h, MultiplyCode(p, scheduled), Reading(a, y, w, h, b));
    MexProduct.MultiplyIsProduct(mc.(unit := 1), Reading(a, y, w, h, b), p, scheduled);
  }

  /** The hybrid program leaves the very words that the plain one leaves, read in blocks. */
  lemma HybridIsPlain(a: seq<nat>, y: seq<nat>, w: seq<nat>, w': seq<nat>, param: nat, h: nat, b: nat, cap: nat)
    requires Fits(param, h, false) && Operands(a, y, param, param, b) && |w| == 2 * (param / h) && |w'| == 2 * param
    requires Roomy(param / h, Pow(b, h), cap) && Roomy(param, b, cap)
    ensures var r := Run(BlockMachine(h, b, cap, 0), Scale(h, MultiplyCode(param / h, false)), Reading(a, y, w, h, b));
            var r' := Run(BlockMachine(1, b, cap, 0), Scale(1, MultiplyCode(param, false)), Reading(a, y, w', 1, b));
            r.Some? && r'.Some? && r.value.w == Grouped(r'.value.w, h, b)
  {
    hide Run, Scale, MultiplyCode, Val, Pow;
    var p := param / h;
    ParamBlocks(param, h);
    PowOne(b);
    HybridMultiply(a, y, w, param, h, b, cap, false);
    HybridMultiply(a, y, w', param, 1, b, cap, false);
    var plain := Run(BlockMachine(1, b, cap, 0), Scale(1, MultiplyCode(param, false)), Reading(a, y, w', 1, b)).value.w;
    PowAbove(b, h);
    assert 2 * param == h * (2 * p) by { TimesAdd(h, p, p); }
    GroupedValue(plain, h, b, 2 * p);
    var hybrid := Run(BlockMachine(h, b, cap, 0), Scale(h, MultiplyCode(p, false)), Reading(a, y, w, h, b)).value.w;
    MexProduct.OneDigitString(hybrid, Grouped(plain, h, b), Pow(b, h));
  }

  lemma PowOne(b: nat)
    ensures Pow(b, 1) == b
  {
    assert Pow(b, 0) == 1;
  }

  lemma HybridMultUp(a: seq<nat>, y: seq<nat>, w: seq<nat>, param: nat, h: nat, b: nat, cap: nat, scheduled: bool)
    requires Fits(param, h, scheduled) && Operands(a, y, param, param, b) && |w| == param / h
    requires Roomy(param / h, Pow(b, h), cap)
    ensures var code := Scale(h, MultUpCode(param / h, scheduled));
            var r := Run(BlockMachine(h, b, cap, 0), code, Reading(a, y, w, h, b));
            && r.Some? && Digits(r.value.w, Pow(b, h)) && Pow(b, param) > 0
            && Val(r.value.w, Pow(b, h)) == Val(a, b) * Val(y, b) % Pow(b, param)
  {
    hide Run, Scale, MultUpCode, Val, Pow;
    var p := param / h;
    var mc := BlockMachine(h, b, cap, 0);
    PowAbove(b, h);
    ParamBlocks(param, h);
    GroupedValue(a, h, b, p);
    GroupedValue(y, h, b, p);
    PowPow(b, h, p);
    RunScaled(mc, h, MultUpCode(p, scheduled), Reading(a, y, w, h, b));
    MexProduct.MultUpIsLowProduct(mc.(unit := 1), Reading(a, y, w, h, b), p, scheduled);
  }

  lemma HybridSquare(a: seq<nat>, w: seq<nat>, param: nat, h: nat, b: nat, cap: nat, scheduled: bool)
    requires Fits(param, h, scheduled) && Operands(a, a, param, param, b) && |w| == 2 * (param / h)
    requires Roomy(param / h, Pow(b, h), cap)
    ensures var code := Scale(h, SquareCode(param / h, scheduled));
            var r := Run(BlockMachine(h, b, cap, 0), code, Reading(a, a, w, h, b));
            && r.Some? && Digits(r.value.w, Pow(b, h))
            && Val(r.value.w, Pow(b, h)) == Val(a, b) * Val(a, b)
  {
    hide Run, Scale, SquareCode, Val, Pow;
    var p := param / h;
    var mc := BlockMachine(h, b, cap, 0);
    PowAbove(b, h);
    ParamBlocks(param, h);
    GroupedValue(a, h, b, p);
    RunScaled(mc, h, SquareCode(p, scheduled), Reading(a, a, w, h, b));
    MexProduct.SquareIsProduct(mc.(unit := 1), Reading(a, a, w, h, b), p, scheduled);
  }

  /** The state before REDC: the number in a, the modulus in b, and the unit digits that make the columns vanish. */
  lemma RedcReady(x: seq<nat>, n: seq<nat>, param: nat, h: nat, b: nat, cap: nat, ndash: nat, scheduled: bool)
    requires Fits(param, h, scheduled) && Operands(x, n, 2 * param, param, b)
    requires Roomy(param / h, Pow(b, h), cap) && NegatedInverse(Grouped(n, h, b), ndash, Pow(b, h))
    ensures var mc, p, s := BlockMachine(h, b, cap, ndash), param / h, Reading(x, n, [], h, b);
            && MexRedc.Ready(mc.(unit := 1), s, p) && Pow(mc.base, p) == Pow(b, param)
            && Val(s.a, mc.base) == Val(x, b) && Val(s.b, mc.base) == Val(n, b)
  {
    hide Val, Pow, Roomy, NegatedInverse, MexRedc.Ready, Grouped;
    var p := param / h;
    PowAbove(b, h);
    ParamBlocks(param, h);
    assert 2 * param == h * (2 * p) by { TimesAdd(h, p, p); }
    GroupedValue(x, h, b, 2 * p);
    GroupedValue(n, h, b, p);
    PowPow(b, h, p);
    ReadyToReduce(BlockMachine(h, b, cap, ndash).(unit := 1), Reading(x, n, [], h, b), p);
  }

  lemma ReadyToReduce(mc: Machine, s: State, p: nat)
    requires mc.unit == 1 && mc.base > 1 && p > 0 && Roomy(p, mc.base, mc.cap)
    requires |s.a| == 2 * p && |s.b| == p && Digits(s.a, mc.base) && Digits(s.b, mc.base)
    requires NegatedInverse(s.b, mc.ndash, mc.base)
    ensures MexRedc.Ready(mc, s, p)
  {
  }

  lemma UnitIsIrrelevant(mc: Machine, t: State, p: nat)
    requires |t.a| == 2 * p
    ensures MexRedc.Result(mc, t, p) == MexRedc.Result(mc.(unit := 1), t, p)
    ensures MexRedc.Quotient(mc, t, p) == MexRedc.Quotient(mc.(unit := 1), t, p)
  {
  }

  /** REDC on the word arrays: x of 2 * param words and a modulus n of param words, in blocks of h. The quotient
      digits it leaves in the low blocks make x + quotient * n divisible by base^param, and the result is the
      outcome of that division: congruent to x / base^param modulo n, and below 2n whenever x < n * base^param. */
  lemma HybridRedc(x: seq<nat>, n: seq<nat>, param: nat, h: nat, b: nat, cap: nat, ndash: nat, scheduled: bool)
    requires Fits(param, h, scheduled) && Operands(x, n, 2 * param, param, b) && Val(n, b) > 0
    requires Roomy(param / h, Pow(b, h), cap) && NegatedInverse(Grouped(n, h, b), ndash, Pow(b, h))
    ensures var mc, p := BlockMachine(h, b, cap, ndash), param / h;
            var r := Run(mc, Scale(h, RedcCode(p, scheduled)), Reading(x, n, [], h, b));
            && r.Some? && |r.value.a| == 2 * p && Digits(r.value.a, Pow(b, h))
            && Pow(b, param) * MexRedc.Result(mc, r.value, p)
               == Val(x, b) + MexRedc.Quotient(mc, r.value, p) * Val(n, b)
            && MexRedc.Quotient(mc, r.value, p) < Pow(b, param)
            && (Val(x, b) < Val(n, b) * Pow(b, param) ==>
                  MexRedc.Result(mc, r.value, p) < 2 * Val(n, b) && r.value.carry <= 1)
  {
    hide Run, Scale, RedcCode, Val, Pow, Fits, Operands, Grouped, Roomy, NegatedInverse;
    hide MexRedc.Ready, MexRedc.Result, MexRedc.Quotient;
    FitsBlocks(param, h, scheduled);
    var p := param / h;
    var mc := BlockMachine(h, b, cap, ndash);
    var s := Reading(x, n, [], h, b);
    RedcReady(x, n, param, h, b, cap, ndash, scheduled);
    RunScaled(mc, h, RedcCode(p, scheduled), s);
    MexRedc.ReductionIsExact(mc.(unit := 1), s, p, scheduled);
    var t := Run(mc, Scale(h, RedcCode(p, scheduled)), s).value;
    MexRedc.ReductionIsMontgomery(mc.(unit := 1), s, p, scheduled, t);
    UnitIsIrrelevant(mc, t, p);
  }

  lemma FitsBlocks(param: nat, h: nat, scheduled: bool)
    requires Fits(param, h, scheduled)
    ensures h > 0 && param / h > 0
  {
    ParamBlocks(param, h);
  }

  // ---- PARAM not a multiple of the block size

  lemma ExecKeepsB(mc: Machine, i: Instr, s: State)
    ensures Exec(mc, i, s).Some? ==> |Exec(mc, i, s).value.b| == |s.b|
  {
  }

  lemma {:induction false} RunKeepsB(mc: Machine, code: seq<Instr>, s: State)
    ensures Run(mc, code, s).Some? ==> |Run(mc, code, s).value.b| == |s.b|
  {
    hide Exec;
    if code == [] {
    } else {
      var front := code[..|code| - 1];
      RunKeepsB(mc, front, s);
      if Run(mc, front, s).Some? {
        ExecKeepsB(mc, code[|code| - 1], Run(mc, front, s).value);
      }
    }
  }

  /** A column whose right index is no digit of the modulus cannot be run. */
  lemma {:induction false} ColumnFails(mc: Machine, t: State, q: nat, cnt: nat)
    requires mc.unit == 1 && |t.b| == q && cnt > 0
    ensures Run(mc, Column(false, 0, q, cnt), t).None?
  {
    hide Exec, Run;
    RunSnoc(mc, Column(false, 0, q, cnt - 1), Step(false, cnt - 1, q - (cnt - 1)), t);
    if cnt == 1 {
      RunNothing(mc, t);
      StepFails(mc, t, q);
    } else {
      ColumnFails(mc, t, q, cnt - 1);
    }
  }

  lemma StepFails(mc: Machine, t: State, q: nat)
    requires mc.unit == 1 && |t.b| == q
    ensures Exec(mc, Step(false, 0, q), t).None?
  {
    PlainDigit(mc, q);
  }

  /** With a modulus of q whole blocks, the way up over q + 1 blocks breaks the machine's contract. */
  lemma OneBlockTooFar(mc: Machine, s: State, q: nat)
    requires mc.unit == 1 && |s.b| == q
    ensures Run(mc, [MulStart] + RedcColumns(q + 1, false, q + 1), s).None?
  {
    hide Exec, Run, RedcColumns;
    var front := [MulStart] + RedcColumns(q + 1, false, q);
    var column := ColumnCode(false, false, 0, q, q);
    LastUpColumn(q);
    RunSnoc(mc, front + column, RFinU(q), s);
    RunAppend(mc, front, column, s);
    RunKeepsB(mc, front, s);
    if Run(mc, front, s).Some? {
      var t := Run(mc, front, s).value;
      if q > 0 {
        ColumnFails(mc, t, q, q);
      } else {
        RunNothing(mc, t);
        NoDigits(mc, t);
      }
    }
  }

  lemma LastUpColumn(q: nat)
    ensures [MulStart] + RedcColumns(q + 1, false, q + 1)
         == ([MulStart] + RedcColumns(q + 1, false, q)) + ColumnCode(false, false, 0, q, q) + [RFinU(q)]
  {
  }

  lemma NoDigits(mc: Machine, t: State)
    requires |t.b| == 0
    ensures Exec(mc, RFinU(0), t).None?
  {
  }

  lemma PrefixFails(mc: Machine, front: seq<Instr>, code: seq<Instr>, s: State)
    requires front <= code && Run(mc, front, s).None?
    ensures Run(mc, code, s).None?
  {
    hide Run;
    assert code == front + code[|front|..];
    RunAppend(mc, front, code[|front|..], s);
  }

  lemma {:induction false} GroupedLength(words: seq<nat>, h: nat, b: nat)
    requires IsInc(h)
    ensures |Grouped(words, h, b)| == |words| / h
  {
    hide Val;
    OneBlockLess(|words|, h);
    if |words| < h {
    } else {
      GroupedLength(words[h..], h, b);
    }
  }

  lemma OneBlockLess(n: nat, h: nat)
    requires IsInc(h)
    ensures n / h == if n < h then 0 else (n - h) / h + 1
  {
  }

  /** What EmitRedc emits runs, on a number and a modulus read in whole blocks, exactly if PARAM is a multiple of the
      block size: otherwise it uses a block of the modulus that is not there. */
  lemma RedcRunsOnMultiples(code: seq<Instr>, x: seq<nat>, n: seq<nat>, param: nat, h: nat, b: nat, cap: nat,
                            ndash: nat, scheduled: bool)
    requires IsInc(h) && param > 0 && (scheduled ==> h == 1) && Operands(x, n, 2 * param, param, b) && Val(n, b) > 0
    requires param % h == 0 ==> code == Scale(h, RedcCode(param / h, scheduled))
    requires param % h != 0 ==> Scale(h, [MulStart] + RedcColumns(param / h + 1, false, param / h + 1)) <= code
    requires param % h == 0 ==> Roomy(param / h, Pow(b, h), cap) && NegatedInverse(Grouped(n, h, b), ndash, Pow(b, h))
    ensures Run(BlockMachine(h, b, cap, ndash), code, Reading(x, n, [], h, b)).Some? <==> param % h == 0
  {
    hide Run, Scale, Val, Pow, Roomy, NegatedInverse, Grouped, RedcCode, RedcColumns;
    var mc, s := BlockMachine(h, b, cap, ndash), Reading(x, n, [], h, b);
    if param % h == 0 {
      HybridRedc(x, n, param, h, b, cap, ndash, scheduled);
    } else {
      var q := param / h;
      var front := [MulStart] + RedcColumns(q + 1, false, q + 1);
      GroupedLength(n, h, b);
      OneBlockTooFar(mc.(unit := 1), s, q);
      RunScaled(mc, h, front, s);
      PrefixFails(mc, Scale(h, front), code, s);
    }
  }

  /** Three decimal words in blocks of two, lowest word first: the modulus 347 has one whole block, 47, with the unit
      digit 17, and the code asks for a second one. */
  method RedcOfThreeWords() returns (code: seq<Instr>)
    ensures Grouped([7, 4, 3], 2, 10) == [47] && NegatedInverse([47], 17, Pow(10, 2))
    ensures Run(BlockMachine(2, 10, 20000, 17), code, Reading([1, 0, 0, 0, 0, 0], [7, 4, 3], [], 2, 10)).None?
  {
    hide Run, Scale, RedcCode, RedcColumns, Reading, Roomy, NegatedInverse, Grouped, Val, Pow;
    code := EmitRedc(3, 2, false);
    ThreeWords();
    RedcRunsOnMultiples(code, [1, 0, 0, 0, 0, 0], [7, 4, 3], 3, 2, 10, 20000, 17, false);
  }

  lemma ThreeWords()
    ensures Val([7, 4, 3], 10) > 0 && Grouped([7, 4, 3], 2, 10) == [47] && NegatedInverse([47], 17, Pow(10, 2))
  {
    var n: seq<nat> := [7, 4, 3];
    assert n[..2] == [7, 4] && n[2..] == [3] && [7, 4][..1] == [7] && [7][..0] == [];
    assert Pow(10, 0) == 1 && Pow(10, 1) == 10 && Pow(10, 2) == 100;
    assert Val([], 10) == 0;
    assert Val([7], 10) == 7;
    assert Val([7, 4], 10) == 47;
    assert Val(n, 10) == 347;
    assert Grouped([3], 2, 10) == [];
  }
}
