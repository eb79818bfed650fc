/** The Keccak-f[1600] permutation: the in-place loops against the step mappings of sections 3.2.1 to 3.2.5 of
    FIPS 202. */
module Keccak {
  import opened Rotation
  import opened RoundConstants

  /** Lane (x, y) stands at index x + 5 * y. */
  type Lanes = s: seq<bv64> | |s| == 25 witness seq(25, _ => 0)

  const RHO: seq<int> := [
    1, 3, 6, 10, 15, 21, 28, 36, 45, 55, 2, 14,
    27, 41, 56, 8, 25, 43, 62, 18, 39, 61, 20, 44]

  const PI: seq<int> := [
    10, 7, 11, 17, 18, 3, 5, 16, 8, 21, 24, 4,
    15, 23, 19, 13, 12, 2, 20, 14, 22, 9, 6, 1]

  // ---- The step mappings, all lanes at once

  function Xor(x: bv64, y: bv64): bv64 {
    x ^ y
  }

  /** The exclusive or of the first y lanes of column x. */
  function Parity(a: Lanes, x: int, y: nat): bv64
    requires 0 <= x < 5 && y <= 5
  {
    if y == 0 then 0 else Xor(Parity(a, x, y - 1), a[x + 5 * (y - 1)])
  }

  function ThetaAt(a: Lanes, i: int): bv64
    requires 0 <= i < 25
  {
    WithParities(a[i], Parity(a, (i % 5 + 4) % 5, 5), Parity(a, (i % 5 + 1) % 5, 5))
  }

  function WithParities(lane: bv64, before: bv64, after: bv64): bv64 {
    Xor(lane, Xor(before, Rol(after, 1)))
  }

  function Theta(a: Lanes): Lanes {
    seq(25, i requires 0 <= i < 25 => ThetaAt(a, i))
  }

  /** The walk that numbers the lanes other than (0, 0): section 3.2.2, steps 2 and 3. */
  function Walk(t: nat): (int, int) {
    if t == 0 then (1, 0) else var (x, y) := Walk(t - 1); (y, (2 * x + 3 * y) % 5)
  }

  function Offset(t: nat): int {
    (t + 1) * (t + 2) / 2
  }

  /** The step at which the walk meets lane i, from step t on; 24 if it does not. */
  function StepAt(i: int, t: nat): (r: nat)
    requires t <= 24
    ensures r <= 24
    decreases 24 - t
  {
    if t == 24 || Walk(t).0 + 5 * Walk(t).1 == i then t else StepAt(i, t + 1)
  }

  function RotatedBy(x: bv64, s: int): bv64 {
    if s % 64 == 0 then x else Rol(x, s % 64)
  }

  /** rho: lane i rotated by its offset; lane 0 stays. */
  function Rho(a: Lanes): Lanes {
    seq(25, i requires 0 <= i < 25 => if i == 0 then a[0] else RotatedBy(a[i], Offset(StepAt(i, 0))))
  }

  /** pi: lane (x, y) comes from lane ((x + 3y) mod 5, x). */
  function Source(i: int): (r: int)
    requires 0 <= i < 25
    ensures 0 <= r < 25
  {
    (i % 5 + 3 * (i / 5)) % 5 + 5 * (i % 5)
  }

  function Pi(a: Lanes): Lanes {
    seq(25, i requires 0 <= i < 25 => a[Source(i)])
  }

  function AndNot(x: bv64, y: bv64): bv64 {
    !x & y
  }

  function Nonlinear(lane: bv64, next: bv64, second: bv64): bv64 {
    Xor(lane, AndNot(next, second))
  }

  /** The lane n to the right in the same row. */
  function InRow(i: int, n: nat): (r: int)
    requires 0 <= i < 25
    ensures 0 <= r < 25
  {
    5 * (i / 5) + (i % 5 + n) % 5
  }

  function Chi(a: Lanes): Lanes {
    seq(25, i requires 0 <= i < 25 => Nonlinear(a[i], a[InRow(i, 1)], a[InRow(i, 2)]))
  }

  function Iota(a: Lanes, round: int): Lanes
    requires 0 <= round < 24
  {
    a[0 := Xor(a[0], RoundConstant(round))]
  }

  function Round(a: Lanes, round: int): Lanes
    requires 0 <= round < 24
  {
    Iota(Chi(Pi(Rho(Theta(a)))), round)
  }

  function Rounds(a: Lanes, n: nat): Lanes
    requires n <= 24
  {
    if n == 0 then a else Round(Rounds(a, n - 1), n - 1)
  }

  // ---- The tables are the walk

  function Target(k: int): int
    requires 0 <= k < 24
  {
    PI[k]
  }

  function Turn(k: int): int
    requires 0 <= k < 24
  {
    RHO[k]
  }

  /** The lane whose value is in hand at step k. */
  function InHand(k: int): int
    requires 0 <= k <= 24
  {
    if k == 0 then 1 else PI[k - 1]
  }

  /** A row of the two tables against the walk: the lane in hand at step k is the walk's, and goes where pi sends it. */
  predicate RowIsWalk(k: int)
    requires 0 <= k < 24
  {
    && 0 < Target(k) < 25 && Source(Target(k)) == InHand(k)
    && InHand(k) == Walk(k).0 + 5 * Walk(k).1
    && Turn(k) == Offset(k) % 64 && 0 < Turn(k) < 64
  }

  lemma WalkNext(t: nat, x: int, y: int)
    requires Walk(t) == (x, y)
    ensures Walk(t + 1) == (y, (2 * x + 3 * y) % 5)
  {
  }

  lemma TableStep(k: int)
    requires 0 <= k < 24
    ensures var i, j := InHand(k), InHand(k + 1);
            0 <= i < 25 && j % 5 == i / 5 && j / 5 == (2 * (i % 5) + 3 * (i / 5)) % 5
  {
  }

  lemma {:induction false} WalkIsTable(k: int)
    requires 0 <= k <= 24
    ensures Walk(k).0 == InHand(k) % 5 && Walk(k).1 == InHand(k) / 5
  {
    hide Walk, InHand;
    if k == 0 {
      WalkStart();
    } else {
      WalkIsTable(k - 1);
      var i := InHand(k - 1);
      TableStep(k - 1);
      WalkNext(k - 1, i % 5, i / 5);
    }
  }

  lemma WalkStart()
    ensures Walk(0) == (1, 0) && InHand(0) == 1
  {
  }

  lemma SourceRow(k: int)
    requires 0 <= k < 24
    ensures 0 < Target(k) < 25 && Source(Target(k)) == InHand(k)
  {
  }

  lemma OffsetNext(t: nat)
    ensures Offset(t + 1) == Offset(t) + t + 2 && Offset(0) == 1
  {
    assert (t + 2) * (t + 3) == (t + 1) * (t + 2) + 2 * (t + 2);
  }

  lemma TurnStep(k: int)
    requires 0 <= k < 24
    ensures 0 < Turn(k) < 64 && Turn(0) == 1
    ensures k < 23 ==> Turn(k + 1) == (Turn(k) + (k + 2)) % 64
  {
  }

  lemma ModStep(x: int, n: int)
    ensures (x % 64 + n) % 64 == (x + n) % 64
  {
  }

  lemma {:induction false} OffsetRow(k: int)
    requires 0 <= k < 24
    ensures Turn(k) == Offset(k) % 64 && 0 < Turn(k) < 64
  {
    hide Offset, Turn;
    TurnStep(k);
    OffsetNext(0);
    if k == 0 {
    } else {
      OffsetRow(k - 1);
      TurnStep(k - 1);
      OffsetNext(k - 1);
      ModStep(Offset(k - 1), k + 1);
    }
  }

  lemma RowsAreWalk(k: int)
    requires 0 <= k < 24
    ensures RowIsWalk(k)
  {
    hide Walk, InHand, Source, Offset, Target, Turn;
    WalkIsTable(k);
    SourceRow(k);
    OffsetRow(k);
  }

  /** The step of the in-place loop that writes lane i. */
  const WRITTEN_AT: seq<int> := [
    0, 23, 17, 5, 11, 6, 22, 1, 8, 21, 0, 2, 16,
    15, 19, 12, 7, 3, 4, 14, 18, 9, 20, 13, 10]

  function WrittenAt(i: int): int
    requires 0 <= i < 25
  {
    WRITTEN_AT[i]
  }

  /** The table of targets is one cycle through all lanes but the first: each is written exactly once. */
  lemma EachWrittenOnce(i: int)
    requires 1 <= i < 25
    ensures 0 <= WrittenAt(i) < 24 && PI[WrittenAt(i)] == i
  {
  }

  lemma WritesItsTarget(k: int)
    requires 0 <= k < 24
    ensures 1 <= PI[k] < 25 && WrittenAt(PI[k]) == k
  {
  }

  lemma InHandOnce(t: int, k: int)
    requires 0 <= t < k < 24
    ensures InHand(t) != InHand(k)
  {
    WritesItsTarget(k - 1);
    if t > 0 {
      WritesItsTarget(t - 1);
    } else {
      WritesItsTarget(23);
    }
  }

  lemma {:induction false} StepAtTable(k: int, t: nat)
    requires 0 <= t <= k < 24
    ensures StepAt(InHand(k), t) == k
    decreases k - t
  {
    hide Walk, InHand;
    WalkIsTable(t);
    InHandRange(t);
    if t == k {
    } else {
      InHandOnce(t, k);
      StepAtTable(k, t + 1);
    }
  }

  lemma InHandRange(k: int)
    requires 0 <= k <= 24
    ensures 1 <= InHand(k) < 25
  {
    if k > 0 {
      WritesItsTarget(k - 1);
    }
  }

  /** What step k of the loop writes is what rho and pi together put there. */
  lemma WriteIsRhoPi(a: Lanes, k: int)
    requires 0 <= k < 24 && 0 < Turn(k) < 64 && 1 <= Target(k) < 25 && 0 <= InHand(k) < 25
    ensures Pi(Rho(a))[Target(k)] == Rol(a[InHand(k)], Turn(k))
  {
    hide Walk, InHand, Source, Offset, StepAt, Rol, Target, Turn;
    InHandRange(k);
    SourceRow(k);
    OffsetRow(k);
    StepAtTable(k, 0);
  }

  function RhoPi(a: Lanes): Lanes {
    Pi(Rho(a))
  }

  /** All that one step of the loop needs. */
  lemma LoopStep(a: Lanes, k: int)
    requires 0 <= k < 24
    ensures 0 < Turn(k) < 64 && 1 <= Target(k) < 25 && 1 <= InHand(k) < 25
    ensures InHand(k + 1) == Target(k) && WrittenAt(Target(k)) == k
    ensures RhoPi(a)[Target(k)] == Rol(a[InHand(k)], Turn(k))
    ensures forall i :: 1 <= i < 25 && i != Target(k) ==> WrittenAt(i) != k
  {
    hide InHand, WrittenAt, Rol, Pi, Rho;
    WritesItsTarget(k);
    OffsetRow(k);
    InHandRange(k);
    WriteIsRhoPi(a, k);
    InHandNext(k);
    forall i | 1 <= i < 25 && i != Target(k) ensures WrittenAt(i) != k {
      EachWrittenOnce(i);
    }
  }

  lemma LoopBounds()
    ensures forall i :: 1 <= i < 25 ==> 0 <= WrittenAt(i) < 24
  {
    hide WrittenAt;
    forall i | 1 <= i < 25 ensures 0 <= WrittenAt(i) < 24 {
      EachWrittenOnce(i);
    }
  }

  /** One pass around the cycle, with a single lane in hand. */
  method RhoPiInPlace(a: array<bv64>)
    requires a.Length == 25
    modifies a
    ensures a[..] == RhoPi(old(a[..]))
  {
    hide Rol, InHand, WrittenAt, RhoPi, Target, Turn;
    ghost var was: Lanes := a[..];
    var t := a[1];
    InHandStart();
    FirstStays(was);
    LoopBounds();
    for x := 0 to 24
      invariant 0 <= InHand(x) < 25 && t == was[InHand(x)]
      invariant a[0] == RhoPi(was)[0]
      invariant forall i :: 1 <= i < 25 ==> a[i] == if WrittenAt(i) < x then RhoPi(was)[i] else was[i]
    {
      LoopStep(was, x);
      var b0 := a[Target(x)];
      a[Target(x)] := Rol(t, Turn(x));
      t := b0;
    }
  }

  lemma InHandStart()
    ensures InHand(0) == 1
  {
  }

  lemma InHandNext(k: int)
    requires 0 <= k < 24
    ensures InHand(k + 1) == PI[k]
  {
  }

  lemma FirstStays(a: Lanes)
    ensures RhoPi(a)[0] == a[0]
  {
  }

  // ---- The other step mappings

  /** The effect of column x of the second loop pair, up to row y. */
  ghost predicate ThetaDone(a: seq<bv64>, was: Lanes, x: int, y: int) {
    && |a| == 25
    && forall i :: 0 <= i < 25 ==> a[i] == if i % 5 < x || (i % 5 == x && i / 5 < y) then Theta(was)[i] else was[i]
  }

  method ParitiesOf(a: array<bv64>, b: array<bv64>)
    requires a.Length == 25 && b.Length == 5 && a != b
    modifies b
    ensures forall x :: 0 <= x < 5 ==> b[x] == Parity(a[..], x, 5)
  {
    hide Xor;
    ghost var was: Lanes := a[..];
    for x := 0 to 5
      invariant forall k :: 0 <= k < x ==> b[k] == Parity(was, k, 5)
    {
      b[x] := 0;
      for y := 0 to 5
        invariant forall k :: 0 <= k < x ==> b[k] == Parity(was, k, 5)
        invariant b[x] == Parity(was, x, y)
      {
        b[x] := Xor(b[x], a[x + 5 * y]);
      }
    }
  }

  lemma Coordinates(x: int, y: int)
    requires 0 <= x < 5 && 0 <= y < 5
    ensures var i := 5 * y + x; 0 <= i < 25 && i % 5 == x && i / 5 == y
    ensures InRow(5 * y + x, 1) == 5 * y + (x + 1) % 5 && InRow(5 * y + x, 2) == 5 * y + (x + 2) % 5
  {
  }

  lemma ThetaLane(was: Lanes, i: int)
    requires 0 <= i < 25
    ensures Theta(was)[i] == ThetaAt(was, i)
  {
    hide ThetaAt;
  }

  lemma ThetaLaneDone(a: seq<bv64>, was: Lanes, x: int, y: int)
    requires 0 <= x < 5 && 0 <= y < 5 && ThetaDone(a, was, x, y)
    ensures 0 <= 5 * y + x < 25 && a[5 * y + x] == was[5 * y + x]
    ensures ThetaDone(a[5 * y + x := Theta(was)[5 * y + x]], was, x, y + 1)
  {
    hide Theta;
    Coordinates(x, y);
  }

  lemma ThetaNextColumn(a: seq<bv64>, was: Lanes, x: int)
    requires ThetaDone(a, was, x, 5)
    ensures ThetaDone(a, was, x + 1, 0)
  {
    hide Theta;
  }

  lemma ThetaEnds(a: seq<bv64>, was: Lanes)
    ensures ThetaDone(was, was, 0, 0)
    ensures ThetaDone(a, was, 5, 0) ==> a == Theta(was)
  {
    hide ThetaAt;
  }

  method ThetaInPlace(a: array<bv64>, b: array<bv64>)
    requires a.Length == 25 && b.Length == 5 && a != b
    modifies a, b
    ensures a[..] == Theta(old(a[..]))
  {
    hide Parity, WithParities, Theta, ThetaDone;
    ghost var was: Lanes := a[..];
    ParitiesOf(a, b);
    ThetaEnds(a[..], was);
    for x := 0 to 5
      invariant forall k :: 0 <= k < 5 ==> b[k] == Parity(was, k, 5)
      invariant ThetaDone(a[..], was, x, 0)
    {
      for y := 0 to 5
        invariant forall k :: 0 <= k < 5 ==> b[k] == Parity(was, k, 5)
        invariant ThetaDone(a[..], was, x, y)
      {
        ThetaLaneDone(a[..], was, x, y);
        Coordinates(x, y);
        var i := 5 * y + x;
        ThetaLane(was, i);
        ghost var before := a[..];
        a[i] := WithParities(a[i], b[(x + 4) % 5], b[(x + 1) % 5]);
        assert a[..] == before[i := a[i]];
      }
      ThetaNextColumn(a[..], was, x);
    }
    ThetaEnds(a[..], was);
  }

  ghost predicate ChiDone(a: seq<bv64>, was: Lanes, n: int) {
    |a| == 25 && forall i :: 0 <= i < 25 ==> a[i] == if i < n then Chi(was)[i] else was[i]
  }

  lemma ChiEnds(a: seq<bv64>, was: Lanes)
    ensures ChiDone(was, was, 0)
    ensures ChiDone(a, was, 25) ==> a == Chi(was)
  {
    hide Nonlinear, InRow;
  }

  lemma ChiLane(was: Lanes, i: int)
    requires 0 <= i < 25
    ensures Chi(was)[i] == Nonlinear(was[i], was[InRow(i, 1)], was[InRow(i, 2)])
  {
    hide Nonlinear, InRow;
  }

  lemma ChiLaneDone(a: seq<bv64>, was: Lanes, x: int, y: int)
    requires 0 <= x < 5 && 0 <= y < 5 && ChiDone(a, was, 5 * y + x)
    ensures var i := 5 * y + x;
            && 0 <= i < 25
            && Chi(was)[i] == Nonlinear(was[i], was[5 * y + (x + 1) % 5], was[5 * y + (x + 2) % 5])
            && ChiDone(a[i := Chi(was)[i]], was, i + 1)
  {
    hide Nonlinear, InRow, Chi;
    Coordinates(x, y);
    ChiLane(was, 5 * y + x);
  }

  lemma ChiRow(a: seq<bv64>, was: Lanes, y: int)
    requires 0 <= y < 5 && ChiDone(a, was, 5 * y)
    ensures forall i :: 5 * y <= i < 5 * y + 5 ==> a[i] == was[i]
  {
    hide Chi;
  }

  method ChiInPlace(a: array<bv64>, b: array<bv64>)
    requires a.Length == 25 && b.Length == 5 && a != b
    modifies a, b
    ensures a[..] == Chi(old(a[..]))
  {
    hide Nonlinear, ChiDone, Chi;
    ghost var was: Lanes := a[..];
    ChiEnds(a[..], was);
    for y := 0 to 5
      invariant ChiDone(a[..], was, 5 * y)
    {
      ChiRow(a[..], was, y);
      for x := 0 to 5
        invariant ChiDone(a[..], was, 5 * y)
        invariant forall i :: 5 * y <= i < 5 * y + 5 ==> a[i] == was[i]
        invariant forall k :: 0 <= k < x ==> b[k] == was[5 * y + k]
      {
        b[x] := a[5 * y + x];
      }
      for x := 0 to 5
        invariant ChiDone(a[..], was, 5 * y + x)
        invariant forall k :: 0 <= k < 5 ==> b[k] == was[5 * y + k]
      {
        ChiLaneDone(a[..], was, x, y);
        ghost var before := a[..];
        var i := 5 * y + x;
        a[i] := Nonlinear(b[x], b[(x + 1) % 5], b[(x + 2) % 5]);
        assert a[..] == before[i := a[i]];
      }
    }
    ChiEnds(a[..], was);
  }

  /** keccakf: 24 rounds, each of the four loops in place. */
  method KeccakF(a: array<bv64>)
    requires a.Length == 25
    modifies a
    ensures a[..] == Rounds(old(a[..]), 24)
  {
    hide Theta, RhoPi, Chi, Round, Iota, Rounds;
    ghost var was: Lanes := a[..];
    NoRounds(was);
    var b := new bv64[5](_ => 0);
    for i := 0 to 24
      invariant fresh(b) && a[..] == Rounds(was, i)
    {
      ThetaInPlace(a, b);
      RhoPiInPlace(a);
      ChiInPlace(a, b);
      AddConstant(a, i);
      OneMoreRound(was, i);
    }
  }

  method AddConstant(a: array<bv64>, round: int)
    requires a.Length == 25 && 0 <= round < 24
    modifies a
    ensures a[..] == Iota(old(a[..]), round)
  {
    hide Xor, RoundConstant;
    RowsAreConstants(round);
    a[0] := Xor(a[0], RC[round]);
  }

  lemma NoRounds(a: Lanes)
    ensures Rounds(a, 0) == a
  {
  }

  lemma OneMoreRound(a: Lanes, n: int)
    requires 0 <= n < 24
    ensures Rounds(a, n + 1) == Iota(Chi(RhoPi(Theta(Rounds(a, n)))), n)
  {
  }
  // ---- Bit by bit, as in sections 3.2.1, 3.2.4 and 3.2.5

  /** Bit z of lane (x, y). */
  function BitAt(a: Lanes, x: int, y: int, z: bv8): bool
    requires 0 <= x < 5 && 0 <= y < 5 && z < 64
  {
    Bit(a[x + 5 * y], z)
  }

  /** The exclusive or of the five bits of column (x, z). */
  function ColumnBit(a: Lanes, x: int, z: bv8): bool
    requires 0 <= x < 5 && z < 64
  {
    Odd(BitAt(a, x, 0, z), BitAt(a, x, 1, z), BitAt(a, x, 2, z), BitAt(a, x, 3, z), BitAt(a, x, 4, z))
  }

  function Odd(b0: bool, b1: bool, b2: bool, b3: bool, b4: bool): bool {
    (((b0 != b1) != b2) != b3) != b4
  }

  lemma XorShift(x: bv64, y: bv64)
    ensures Right(Xor(x, y), 1) == Xor(Right(x, 1), Right(y, 1))
  {
  }

  lemma AndNotShift(x: bv64, y: bv64)
    ensures Right(AndNot(x, y), 1) == AndNot(Right(x, 1), Right(y, 1))
  {
  }

  lemma NoShift(x: bv64)
    ensures Right(x, 0) == x
  {
  }

  lemma {:induction false} XorShifts(x: bv64, y: bv64, z: bv8)
    requires z < 64
    ensures Right(Xor(x, y), z) == Xor(Right(x, z), Right(y, z))
    ensures Right(AndNot(x, y), z) == AndNot(Right(x, z), Right(y, z))
    decreases z
  {
    hide Right, Xor, AndNot;
    if z == 0 {
      NoShift(x);
      NoShift(y);
      NoShift(Xor(x, y));
      NoShift(AndNot(x, y));
    } else {
      var t := z - 1;
      XorShifts(x, y, t);
      ShiftOne(x, t);
      ShiftOne(y, t);
      ShiftOne(Xor(x, y), t);
      ShiftOne(AndNot(x, y), t);
      XorShift(Right(x, t), Right(y, t));
      AndNotShift(Right(x, t), Right(y, t));
      assert t + 1 == z;
    }
  }

  lemma LastBits(x: bv64, y: bv64)
    ensures (Xor(x, y) & 1 == 1) == ((x & 1 == 1) != (y & 1 == 1))
    ensures (AndNot(x, y) & 1 == 1) == (!(x & 1 == 1) && (y & 1 == 1))
  {
  }

  lemma XorBit(x: bv64, y: bv64, z: bv8)
    requires z < 64
    ensures Bit(Xor(x, y), z) == (Bit(x, z) != Bit(y, z)) && Bit(AndNot(x, y), z) == (!Bit(x, z) && Bit(y, z))
  {
    hide Right, Xor, AndNot;
    XorShifts(x, y, z);
    LastBits(Right(x, z), Right(y, z));
  }

  lemma NoBit(z: bv8)
    requires z < 64
    ensures !Bit(0, z)
  {
  }

  lemma ParityStep(a: Lanes, x: int, y: nat, z: bv8)
    requires 0 <= x < 5 && 0 < y <= 5 && z < 64
    ensures Bit(Parity(a, x, y), z) == (Bit(Parity(a, x, y - 1), z) != BitAt(a, x, y - 1, z))
  {
    hide Bit, Xor;
    XorBit(Parity(a, x, y - 1), a[x + 5 * (y - 1)], z);
  }

  lemma ParityBit(a: Lanes, x: int, z: bv8)
    requires 0 <= x < 5 && z < 64
    ensures Bit(Parity(a, x, 5), z) == ColumnBit(a, x, z)
  {
    hide Bit, Xor, Parity, BitAt;
    FirstParity(a, x, z);
    ParityStep(a, x, 2, z);
    ParityStep(a, x, 3, z);
    ParityStep(a, x, 4, z);
    ParityStep(a, x, 5, z);
  }

  lemma FirstParity(a: Lanes, x: int, z: bv8)
    requires 0 <= x < 5 && z < 64
    ensures Bit(Parity(a, x, 1), z) == BitAt(a, x, 0, z)
  {
    ParityNothing(a, x);
    NoBit(z);
    hide Bit, Xor, Parity;
    ParityStep(a, x, 1, z);
  }

  lemma ParityNothing(a: Lanes, x: int)
    requires 0 <= x < 5
    ensures Parity(a, x, 0) == 0
  {
  }

  lemma WithParitiesBit(lane: bv64, before: bv64, after: bv64, z: bv8)
    requires z < 64
    ensures Bit(WithParities(lane, before, after), z)
         == (Bit(lane, z) != (Bit(before, z) != Bit(after, if z == 0 then 63 else z - 1)))
  {
    hide Bit, Xor, Rol;
    RolOnce(after, z);
    XorBit(before, Rol(after, 1), z);
    XorBit(lane, Xor(before, Rol(after, 1)), z);
  }

  /** theta: each bit is xored with the parities of the columns at x - 1, and at x + 1 one place below. */
  lemma ThetaBits(a: Lanes, x: int, y: int, z: bv8)
    requires 0 <= x < 5 && 0 <= y < 5 && z < 64
    ensures BitAt(Theta(a), x, y, z)
         == (BitAt(a, x, y, z) !=
             (ColumnBit(a, (x + 4) % 5, z) != ColumnBit(a, (x + 1) % 5, if z == 0 then 63 else z - 1)))
  {
    hide Bit, Parity, WithParities, ColumnBit;
    Coordinates(x, y);
    var i := x + 5 * y;
    ThetaLane(a, i);
    WithParitiesBit(a[i], Parity(a, (x + 4) % 5, 5), Parity(a, (x + 1) % 5, 5), z);
    ParityBit(a, (x + 4) % 5, z);
    ParityBit(a, (x + 1) % 5, if z == 0 then 63 else z - 1);
  }

  /** chi: each bit is xored with the product of the complement of the next bit in its row and the one behind that. */
  lemma ChiBits(a: Lanes, x: int, y: int, z: bv8)
    requires 0 <= x < 5 && 0 <= y < 5 && z < 64
    ensures BitAt(Chi(a), x, y, z)
         == (BitAt(a, x, y, z) != (!BitAt(a, (x + 1) % 5, y, z) && BitAt(a, (x + 2) % 5, y, z)))
  {
    hide Bit, Xor, AndNot, InRow;
    Coordinates(x, y);
    var i := x + 5 * y;
    ChiLane(a, i);
    var next, second := a[InRow(i, 1)], a[InRow(i, 2)];
    XorBit(next, second, z);
    XorBit(a[i], AndNot(next, second), z);
  }

  /** iota: lane (0, 0) is xored with the round constant; the others stay. */
  lemma IotaBits(a: Lanes, round: int, x: int, y: int, z: bv8)
    requires 0 <= round < 24 && 0 <= x < 5 && 0 <= y < 5 && z < 64
    ensures BitAt(Iota(a, round), x, y, z)
         == (BitAt(a, x, y, z) != (x == y == 0 && Bit(RoundConstant(round), z)))
  {
    hide Bit, Xor, RoundConstant;
    XorBit(a[0], RoundConstant(round), z);
  }
}
