/** Which products the emitted multiplication forms: every pair of digits once, in the column of its weight. */
module MexPairs {
  import opened MexCode

  predicate Multiplies(i: Instr, k: int, m: int) {
    match i
    case Step(_, x, y) => x == k && y == m
    case Load(_, _, x, y) => x == k && y == m
    case _ => false
  }

  /** How often a program multiplies digit k of one operand by digit m of the other. */
  function Occurs(code: seq<Instr>, k: int, m: int): nat {
    if code == [] then 0
    else Occurs(code[..|code| - 1], k, m) + if Multiplies(code[|code| - 1], k, m) then 1 else 0
  }

  lemma {:induction false} OccursAppend(a: seq<Instr>, b: seq<Instr>, k: int, m: int)
    ensures Occurs(a + b, k, m) == Occurs(a, k, m) + Occurs(b, k, m)
  {
    if b == [] {
      assert a + b == a;
    } else {
      OccursAppend(a, b[..|b| - 1], k, m);
      assert (a + b)[..|a + b| - 1] == a + b[..|b| - 1];
    }
  }

  lemma OccursOne(i: Instr, k: int, m: int)
    ensures Occurs([i], k, m) == if Multiplies(i, k, m) then 1 else 0
  {
    assert [i][..0] == [];
  }

  lemma OccursTwo(i: Instr, j: Instr, k: int, m: int)
    ensures Occurs([i, j], k, m) == (if Multiplies(i, k, m) then 1 else 0) + if Multiplies(j, k, m) then 1 else 0
  {
    assert [i, j] == [i] + [j];
    OccursAppend([i], [j], k, m);
    OccursOne(i, k, m);
    OccursOne(j, k, m);
  }

  predicate OnColumn(k0: int, m0: int, cnt: int, k: int, m: int) {
    k + m == k0 + m0 && k0 <= k < k0 + cnt
  }

  lemma {:induction false} ColumnOccurs(double: bool, k0: int, m0: int, cnt: nat, k: int, m: int)
    ensures Occurs(Column(double, k0, m0, cnt), k, m) == if OnColumn(k0, m0, cnt, k, m) then 1 else 0
  {
    if cnt == 0 {
    } else {
      ColumnOccurs(double, k0, m0, cnt - 1, k, m);
      var i := Step(double, k0 + (cnt - 1), m0 - (cnt - 1));
      OccursAppend(Column(double, k0, m0, cnt - 1), [i], k, m);
      OccursOne(i, k, m);
    }
  }

  lemma {:induction false} PipelineOccurs(double: bool, k0: int, m0: int, c: nat, k: int, m: int)
    ensures Occurs(Pipeline(double, k0, m0, c), k, m) == if OnColumn(k0, m0, c + 1, k, m) then 1 else 0
  {
    if c == 0 {
      OccursOne(Load(double, 1, k0, m0), k, m);
    } else {
      PipelineOccurs(double, k0, m0, c - 1, k, m);
      var i, j := Load(double, SlotOf(c), k0 + c, m0 - c), Add(double, SlotOf(c - 1));
      OccursAppend(Pipeline(double, k0, m0, c - 1), [i, j], k, m);
      OccursTwo(i, j, k, m);
    }
  }

  lemma ColumnCodeOccurs(scheduled: bool, double: bool, k0: int, m0: int, cnt: nat, k: int, m: int)
    ensures Occurs(ColumnCode(scheduled, double, k0, m0, cnt), k, m) == if OnColumn(k0, m0, cnt, k, m) then 1 else 0
  {
    hide Column, Pipeline;
    if !scheduled {
      ColumnOccurs(double, k0, m0, cnt, k, m);
    } else if cnt > 0 {
      PipelineOccurs(double, k0, m0, cnt - 1, k, m);
      OccursAppend(Pipeline(double, k0, m0, cnt - 1), [Add(double, SlotOf(cnt - 1))], k, m);
      OccursOne(Add(double, SlotOf(cnt - 1)), k, m);
    }
  }

  /** A column holds exactly the pairs of digits of its weight. */
  lemma ColumnHolds(p: nat, n: nat, k: int, m: int)
    requires n < 2 * p
    ensures OnColumn(First(p, n), n - First(p, n), Count(p, n), k, m) <==> 0 <= k < p && 0 <= m < p && k + m == n
  {
  }

  lemma NextOccurs(p: nat, scheduled: bool, n: nat, k: int, m: int)
    requires n + 1 < 2 * p
    ensures Occurs(Columns(p, scheduled, n + 1), k, m)
         == Occurs(Columns(p, scheduled, n), k, m) + if 0 <= k < p && 0 <= m < p && k + m == n then 1 else 0
  {
    hide ColumnCode, Occurs, OnColumn, First, Count;
    var column := ColumnCode(scheduled, false, First(p, n), n - First(p, n), Count(p, n));
    ColumnHolds(p, n, k, m);
    ColumnCodeOccurs(scheduled, false, First(p, n), n - First(p, n), Count(p, n), k, m);
    OccursAppend(column, [Fin(n)], k, m);
    OccursOne(Fin(n), k, m);
    OccursAppend(Columns(p, scheduled, n), column + [Fin(n)], k, m);
  }

  /** After n columns exactly the pairs of digits whose indices sum to less than n have been multiplied, each once. */
  lemma {:induction false} ColumnsOccur(p: nat, scheduled: bool, n: nat, k: int, m: int)
    requires n < 2 * p
    ensures Occurs(Columns(p, scheduled, n), k, m) == if 0 <= k < p && 0 <= m < p && k + m < n then 1 else 0
  {
    if n == 0 {
    } else {
      hide Columns, Occurs;
      ColumnsOccur(p, scheduled, n - 1, k, m);
      NextOccurs(p, scheduled, n - 1, k, m);
    }
  }

  /** MULTIPLY multiplies each digit of one operand by each digit of the other exactly once. */
  lemma EachPairOnce(p: nat, scheduled: bool, k: int, m: int)
    requires p > 0
    ensures Occurs(MultiplyCode(p, scheduled), k, m) == if 0 <= k < p && 0 <= m < p then 1 else 0
  {
    hide Occurs, Columns;
    ColumnsOccur(p, scheduled, 2 * p - 1, k, m);
    OccursAppend([MulStart] + Columns(p, scheduled, 2 * p - 1), [End(2 * p - 1)], k, m);
    OccursAppend([MulStart], Columns(p, scheduled, 2 * p - 1), k, m);
    OccursOne(MulStart, k, m);
    OccursOne(End(2 * p - 1), k, m);
  }
}
