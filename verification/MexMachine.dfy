/** What the macros do. Their texts are in files outside this model; these are the contracts that the emitted code
    relies on. */
module MexMachine {
  import opened Wrappers
  import opened MexCode
  import opened MexArith
  import opened Powers
  import BigEndian

  /** unit: words in a digit (the block size); base: the digits' base; cap: what the accumulator can hold;
      ndash: the negated inverse of the modulus' lowest digit. */
  datatype Machine = Machine(unit: nat, base: nat, cap: nat, ndash: nat)

  /** Operand arrays a and b, result w, all in digits; the accumulator; two slots for products in flight. */
  datatype State = State(
    a: seq<nat>, b: seq<nat>, w: seq<nat>, acc: nat, slot1: Option<nat>, slot2: Option<nat>, carry: nat)

  /** The digit that starts at a word, or -1. */
  function Digit(mc: Machine, k: int): int {
    if mc.unit > 0 && k >= 0 && k % mc.unit == 0 then k / mc.unit else -1
  }

  function Accumulate(mc: Machine, s: State, v: nat): Option<State> {
    if s.acc + v < mc.cap then Some(s.(acc := s.acc + v)) else None
  }

  function Times(double: bool, v: nat): nat {
    if double then 2 * v else v
  }

  /** The product of two operand digits, when both exist. */
  function Product(mc: Machine, s: State, k: int, m: int): Option<nat> {
    var x, y := Digit(mc, k), Digit(mc, m);
    if 0 <= x < |s.a| && 0 <= y < |s.b| then Some(s.a[x] * s.b[y]) else None
  }

  function ExecStep(mc: Machine, s: State, d: bool, k: int, m: int): Option<State> {
    var p := Product(mc, s, k, m);
    if p.None? then None else Accumulate(mc, s, Times(d, p.value))
  }

  function ExecLoad(mc: Machine, s: State, slot: int, k: int, m: int): Option<State> {
    var p := Product(mc, s, k, m);
    if p.None? then None
    else if slot == 1 && s.slot1 == None then Some(s.(slot1 := p))
    else if slot == 2 && s.slot2 == None then Some(s.(slot2 := p))
    else None
  }

  function ExecAdd(mc: Machine, s: State, d: bool, slot: int): Option<State> {
    if slot == 1 && s.slot1.Some? then Accumulate(mc, s.(slot1 := None), Times(d, s.slot1.value))
    else if slot == 2 && s.slot2.Some? then Accumulate(mc, s.(slot2 := None), Times(d, s.slot2.value))
    else None
  }

  function ExecLast(mc: Machine, s: State, k: int, m: int): Option<State> {
    var p := Product(mc, s, k, m);
    if p.None? || mc.base == 0 then None else Some(s.(acc := (s.acc + p.value) % mc.base))
  }

  function ExecFin(mc: Machine, s: State, n: int): Option<State> {
    var x := Digit(mc, n);
    if 0 <= x < |s.w| && mc.base > 0 then Some(s.(w := s.w[x := s.acc % mc.base], acc := s.acc / mc.base)) else None
  }

  function ExecEnd(mc: Machine, s: State, n: int): Option<State> {
    var x := Digit(mc, n);
    if 0 <= x < |s.w| && s.acc < mc.base then Some(s.(w := s.w[x := s.acc])) else None
  }

  function ExecRFinU(mc: Machine, s: State, n: int): Option<State> {
    var x := Digit(mc, n);
    if !(0 <= x < |s.a| && |s.b| > 0 && mc.base > 0) then None
    else
      var sum := s.acc + s.a[x];
      var q := sum * mc.ndash % mc.base;
      var total := sum + q * s.b[0];
      if total < mc.cap && total % mc.base == 0 then Some(s.(a := s.a[x := q], acc := total / mc.base)) else None
  }

  function ExecRFinD(mc: Machine, s: State, n: int): Option<State> {
    var x := Digit(mc, n);
    if 0 <= x < |s.a| && mc.base > 0 && s.acc + s.a[x] < mc.cap then
      Some(s.(a := s.a[x := (s.acc + s.a[x]) % mc.base], acc := (s.acc + s.a[x]) / mc.base))
    else None
  }

  function ExecRedcEnd(mc: Machine, s: State, n: int): Option<State> {
    var x := Digit(mc, n);
    if 0 <= x < |s.a| && mc.base > 0 && s.acc + s.a[x] < mc.cap then
      Some(s.(a := s.a[x := (s.acc + s.a[x]) % mc.base], carry := (s.acc + s.a[x]) / mc.base))
    else None
  }

  /** None where a contract is broken: an index outside its array, a slot loaded while full or added while empty,
      an accumulator that overflows, a top word that does not fit, a column that is not divisible. */
  function Exec(mc: Machine, i: Instr, s: State): Option<State> {
    match i
    case MulStart => Some(s.(acc := 0, slot1 := None, slot2 := None, carry := 0))
    case Step(d, k, m) => ExecStep(mc, s, d, k, m)
    case Load(d, slot, k, m) => ExecLoad(mc, s, slot, k, m)
    case Add(d, slot) => ExecAdd(mc, s, d, slot)
    case Self(k) => ExecStep(mc, s, false, k, k)
    case Last(k, m) => ExecLast(mc, s, k, m)
    case Fin(n) => ExecFin(mc, s, n)
    case End(n) => ExecEnd(mc, s, n)
    case RFinU(n) => ExecRFinU(mc, s, n)
    case RFinD(n) => ExecRFinD(mc, s, n)
    case RedcEnd(n) => ExecRedcEnd(mc, s, n)
  }

  /** k is not the first word of a digit among n. */
  predicate IsOutside(mc: Machine, k: int, n: nat) {
    mc.unit == 0 || k < 0 || k % mc.unit != 0 || k / mc.unit >= n
  }

  /** What no program that runs does: it reads no digit that is not there, loads no full slot and adds no empty one,
      overflows no accumulator and stores no top word that does not fit. */
  lemma BrokenContracts(mc: Machine, s: State, d: bool, slot: int, k: int, m: int, n: int)
    ensures IsOutside(mc, k, |s.a|) || IsOutside(mc, m, |s.b|) ==>
              && Exec(mc, Step(d, k, m), s) == None && Exec(mc, Load(d, slot, k, m), s) == None
              && Exec(mc, Last(k, m), s) == None
    ensures (slot == 1 && s.slot1.Some?) || (slot == 2 && s.slot2.Some?) || (slot != 1 && slot != 2) ==>
              Exec(mc, Load(d, slot, k, m), s) == None
    ensures (slot == 1 && s.slot1 == None) || (slot == 2 && s.slot2 == None) || (slot != 1 && slot != 2) ==>
              Exec(mc, Add(d, slot), s) == None
    ensures s.slot1.Some? && s.acc + s.slot1.value * (if d then 2 else 1) >= mc.cap ==> Exec(mc, Add(d, 1), s) == None
    ensures s.slot2.Some? && s.acc + s.slot2.value * (if d then 2 else 1) >= mc.cap ==> Exec(mc, Add(d, 2), s) == None
    ensures IsOutside(mc, n, |s.w|) || s.acc >= mc.base ==> Exec(mc, End(n), s) == None
    ensures IsOutside(mc, n, |s.w|) ==> Exec(mc, Fin(n), s) == None
    ensures IsOutside(mc, n, |s.a|) ==>
              Exec(mc, RFinU(n), s) == Exec(mc, RFinD(n), s) == Exec(mc, RedcEnd(n), s) == None
  {
  }

  function Run(mc: Machine, code: seq<Instr>, s: State): Option<State> {
    if code == [] then Some(s)
    else
      var r := Run(mc, code[..|code| - 1], s);
      if r.None? then None else Exec(mc, code[|code| - 1], r.value)
  }

  lemma RunSnoc(mc: Machine, code: seq<Instr>, i: Instr, s: State)
    ensures Run(mc, code + [i], s) == if Run(mc, code, s).None? then None else Exec(mc, i, Run(mc, code, s).value)
  {
    assert (code + [i])[..|code|] == code;
  }

  lemma {:induction false} RunAppend(mc: Machine, c1: seq<Instr>, c2: seq<Instr>, s: State)
    ensures Run(mc, c1 + c2, s) == if Run(mc, c1, s).None? then None else Run(mc, c2, Run(mc, c1, s).value)
  {
    hide Exec;
    if c2 == [] {
      assert c1 + c2 == c1;
    } else {
      var n := |c2| - 1;
      RunAppend(mc, c1, c2[..n], s);
      assert c1 + c2 == (c1 + c2[..n]) + [c2[n]];
      RunSnoc(mc, c1 + c2[..n], c2[n], s);
    }
  }

  lemma RunOne(mc: Machine, i: Instr, s: State)
    ensures Run(mc, [i], s) == Exec(mc, i, s)
  {
    hide Exec;
    assert [i][..0] == [];
    assert Run(mc, [], s) == Some(s);
  }

  // ---- Blocks as digits

  lemma ScaledDigit(mc: Machine, h: nat, k: int)
    requires h > 0
    ensures Digit(mc.(unit := h), Word(h, k)) == Digit(mc.(unit := 1), k)
  {
    if k < 0 {
      MulOrder(1, -k, h);
      assert h * k == -(-k * h);
    } else {
      BigEndian.ModUnique(h * k, h, k, 0);
    }
  }

  lemma ExecScaled(mc: Machine, h: nat, i: Instr, s: State)
    requires h > 0
    ensures Exec(mc.(unit := h), ScaleInstr(h, i), s) == Exec(mc.(unit := 1), i, s)
  {
    hide Digit, Word, Times;
    match i {
      case MulStart =>
      case Step(_, k, m) => ScaledDigit(mc, h, k); ScaledDigit(mc, h, m);
      case Load(_, _, k, m) => ScaledDigit(mc, h, k); ScaledDigit(mc, h, m);
      case Add(_, _) =>
      case Self(k) => ScaledDigit(mc, h, k);
      case Last(k, m) => ScaledDigit(mc, h, k); ScaledDigit(mc, h, m);
      case Fin(n) => ScaledDigit(mc, h, n);
      case End(n) => ScaledDigit(mc, h, n);
      case RFinU(n) => ScaledDigit(mc, h, n);
      case RFinD(n) => ScaledDigit(mc, h, n);
      case RedcEnd(n) => ScaledDigit(mc, h, n);
    }
  }

  /** Block code over blocks of h words does what the plain code does with every block taken as one digit. */
  lemma {:induction false} RunScaled(mc: Machine, h: nat, code: seq<Instr>, s: State)
    requires h > 0
    ensures Run(mc.(unit := h), Scale(h, code), s) == Run(mc.(unit := 1), code, s)
  {
    hide Exec, ScaleInstr;
    if code == [] {
    } else {
      var n := |code| - 1;
      RunScaled(mc, h, code[..n], s);
      RunSnoc(mc.(unit := h), Scale(h, code[..n]), ScaleInstr(h, code[n]), s);
      if Run(mc.(unit := 1), code[..n], s).Some? {
        ExecScaled(mc, h, code[n], Run(mc.(unit := 1), code[..n], s).value);
      }
    }
  }

  // ---- One column

  ghost predicate Idle(s: State) {
    s.slot1 == None && s.slot2 == None
  }

  /** The indices of a column lie in the operands. */
  ghost predicate InRange(s: State, k: int, m: int, cnt: nat) {
    0 <= k && k + cnt <= |s.a| && m < |s.b| && m - cnt + 1 >= 0
  }

  lemma PlainDigit(mc: Machine, k: nat)
    requires mc.unit == 1
    ensures Digit(mc, k) == k
  {
  }

  /** What a column of cnt products makes of a state: nothing when the accumulator overflows on the way. */
  function Added(mc: Machine, s: State, double: bool, k: int, m: int, cnt: nat): Option<State> {
    var acc := s.acc + Times(double, Part(s.a, s.b, k + m, k, cnt));
    if cnt == 0 then Some(s) else if acc < mc.cap then Some(s.(acc := acc)) else None
  }

  lemma AddedSnoc(mc: Machine, s: State, double: bool, k: int, m: int, cnt: nat)
    requires InRange(s, k, m, cnt) && cnt > 0
    ensures Added(mc, s, double, k, m, cnt) ==
            var r := Added(mc, s, double, k, m, cnt - 1);
            if r.None? then None else Accumulate(mc, r.value, Times(double, s.a[k + cnt - 1] * s.b[m - cnt + 1]))
    ensures Added(mc, s, double, k, m, cnt - 1).Some? ==>
              Added(mc, s, double, k, m, cnt - 1).value
              == s.(acc := s.acc + Times(double, Part(s.a, s.b, k + m, k, cnt - 1)))
  {
    var x, y := At(s.a, k + cnt - 1), At(s.b, m - cnt + 1);
    assert x * y == s.a[k + cnt - 1] * s.b[m - cnt + 1];
    assert k + m - k - cnt + 1 == m - cnt + 1;
    assert Part(s.a, s.b, k + m, k, 0) == 0;
  }

  lemma {:induction false} RunColumn(mc: Machine, s: State, double: bool, k: int, m: int, cnt: nat)
    requires mc.unit == 1 && InRange(s, k, m, cnt)
    ensures Run(mc, Column(double, k, m, cnt), s) == Added(mc, s, double, k, m, cnt)
  {
    hide Digit, Added, Times, Part;
    if cnt == 0 {
      AddedNothing(mc, s, double, k, m);
    } else {
      AddedSnoc(mc, s, double, k, m, cnt);
      RunColumn(mc, s, double, k, m, cnt - 1);
      PlainDigit(mc, k + cnt - 1);
      PlainDigit(mc, m - cnt + 1);
      RunSnoc(mc, Column(double, k, m, cnt - 1), Step(double, k + cnt - 1, m - cnt + 1), s);
    }
  }

  lemma AddedNothing(mc: Machine, s: State, double: bool, k: int, m: int)
    ensures Added(mc, s, double, k, m, 0) == Some(s)
  {
  }

  function InSlot(s: State, slot: int, p: nat): State {
    if slot == 1 then s.(slot1 := Some(p)) else s.(slot2 := Some(p))
  }

  /** With product c-1 in its slot, product c is loaded into the other and then product c-1 added. */
  lemma LoadThenAdd(mc: Machine, r: State, double: bool, c: nat, k: int, m: int, waiting: nat)
    requires Idle(r) && c > 0 && Product(mc, r, k, m).Some?
    ensures var loaded := ExecLoad(mc, InSlot(r, SlotOf(c - 1), waiting), SlotOf(c), k, m);
            && loaded.Some?
            && ExecAdd(mc, loaded.value, double, SlotOf(c - 1)) ==
               var added := Accumulate(mc, r, Times(double, waiting));
               if added.None? then None else Some(InSlot(added.value, SlotOf(c), Product(mc, r, k, m).value))
  {
  }

  lemma AddWaiting(mc: Machine, r: State, double: bool, c: nat, waiting: nat)
    requires Idle(r)
    ensures ExecAdd(mc, InSlot(r, SlotOf(c), waiting), double, SlotOf(c)) == Accumulate(mc, r, Times(double, waiting))
  {
    assert InSlot(r, SlotOf(c), waiting).(slot1 := None, slot2 := None) == r;
  }

  lemma AddedKeeps(mc: Machine, s: State, double: bool, k: int, m: int, cnt: nat)
    ensures Added(mc, s, double, k, m, cnt).Some? ==>
              var r := Added(mc, s, double, k, m, cnt).value;
              r == s.(acc := r.acc)
  {
  }

  /** Product c is in its slot and the other slot is empty; the products before it are in the accumulator. */
  lemma {:induction false} RunPipeline(mc: Machine, s: State, double: bool, k: int, m: int, c: nat)
    requires mc.unit == 1 && Idle(s) && InRange(s, k, m, c + 1)
    ensures Run(mc, Pipeline(double, k, m, c), s) ==
            var r := Added(mc, s, double, k, m, c);
            if r.None? then None else Some(InSlot(r.value, SlotOf(c), s.a[k + c] * s.b[m - c]))
  {
    hide Digit, Added, Times, Part, ExecLoad, ExecAdd, InSlot, Accumulate, Run, SlotOf;
    PlainDigit(mc, k + c);
    PlainDigit(mc, m - c);
    if c == 0 {
      AddedNothing(mc, s, double, k, m);
      RunOne(mc, Load(double, 1, k, m), s);
      LoadFirst(mc, s, k, m);
    } else {
      AddedSnoc(mc, s, double, k, m, c);
      AddedKeeps(mc, s, double, k, m, c - 1);
      RunPipeline(mc, s, double, k, m, c - 1);
      var before := Pipeline(double, k, m, c - 1);
      var load := Load(double, SlotOf(c), k + c, m - c);
      var add := Add(double, SlotOf(c - 1));
      assert Pipeline(double, k, m, c) == (before + [load]) + [add];
      RunSnoc(mc, before, load, s);
      RunSnoc(mc, before + [load], add, s);
      var r := Added(mc, s, double, k, m, c - 1);
      if r.Some? {
        LoadThenAdd(mc, r.value, double, c, k + c, m - c, s.a[k + c - 1] * s.b[m - c + 1]);
      }
    }
  }

  lemma LoadFirst(mc: Machine, s: State, k: int, m: int)
    requires Idle(s) && Product(mc, s, k, m).Some?
    ensures ExecLoad(mc, s, 1, k, m) == Some(InSlot(s, SlotOf(0), Product(mc, s, k, m).value))
  {
  }

  /** Scheduled or not, a column adds its products, and leaves no product in flight. */
  lemma ColumnAdds(mc: Machine, s: State, scheduled: bool, double: bool, k: int, m: int, cnt: nat)
    requires mc.unit == 1 && Idle(s) && InRange(s, k, m, cnt)
    ensures Run(mc, ColumnCode(scheduled, double, k, m, cnt), s) == Added(mc, s, double, k, m, cnt)
  {
    hide Digit, Added, Times, Part, Pipeline, Column, ExecAdd, InSlot, Accumulate, Run, SlotOf;
    if !scheduled {
      RunColumn(mc, s, double, k, m, cnt);
    } else if cnt > 0 {
      AddedSnoc(mc, s, double, k, m, cnt);
      AddedKeeps(mc, s, double, k, m, cnt - 1);
      RunPipeline(mc, s, double, k, m, cnt - 1);
      RunSnoc(mc, Pipeline(double, k, m, cnt - 1), Add(double, SlotOf(cnt - 1)), s);
      var r := Added(mc, s, double, k, m, cnt - 1);
      if r.Some? {
        AddWaiting(mc, r.value, double, cnt - 1, s.a[k + cnt - 1] * s.b[m - cnt + 1]);
      }
    } else {
      AddedNothing(mc, s, double, k, m);
      RunNothing(mc, s);
    }
  }

  lemma RunNothing(mc: Machine, s: State)
    ensures Run(mc, [], s) == Some(s)
  {
  }

  /** Software pipelining preserves meaning: the scheduled column and the plain one end in the same state,
      or overflow together. */
  lemma SchedulingPreservesMeaning(mc: Machine, s: State, double: bool, k: int, m: int, cnt: nat)
    requires mc.unit == 1 && Idle(s) && InRange(s, k, m, cnt)
    ensures Run(mc, ColumnCode(true, double, k, m, cnt), s) == Run(mc, ColumnCode(false, double, k, m, cnt), s)
    ensures Run(mc, ColumnCode(true, double, k, m, cnt), s).Some? ==>
              Idle(Run(mc, ColumnCode(true, double, k, m, cnt), s).value)
  {
    ColumnAdds(mc, s, true, double, k, m, cnt);
    ColumnAdds(mc, s, false, double, k, m, cnt);
  }
}
