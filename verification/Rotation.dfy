/** The 64-bit rotation of the Keccak loops: two shifts and an or, against the place it gives to each bit. */
module Rotation {

  function Left(x: bv64, s: bv8): bv64
    requires s <= 64
  {
    x << s
  }

  function Right(x: bv64, s: bv8): bv64
    requires s <= 64
  {
    x >> s
  }

  function Or(x: bv64, y: bv64): bv64 {
    x | y
  }

  function RolBy(x: bv64, s: bv8): bv64
    requires 0 < s < 64
  {
    Or(Left(x, s), Right(x, 64 - s))
  }

  function Rol(x: bv64, s: int): bv64
    requires 0 < s < 64
  {
    RolBy(x, s as bv8)
  }

  function Bit(x: bv64, z: bv8): bool
    requires z < 64
  {
    Right(x, z) & 1 == 1
  }

  /** Bit z's new place. */
  function Turned(z: bv8, s: bv8): (r: bv8)
    requires z < 64 && s < 64
    ensures r < 64
  {
    (z + s) & 63
  }

  // ---- Shifting by one more

  lemma LeftLow(x: bv64, s: bv8)
    requires s < 16
    ensures Left(Left(x, s), 1) == Left(x, s + 1)
  {
  }

  lemma LeftMiddle(x: bv64, s: bv8)
    requires 16 <= s < 32
    ensures Left(Left(x, s), 1) == Left(x, s + 1)
  {
  }

  lemma LeftHigh(x: bv64, s: bv8)
    requires 32 <= s < 63
    ensures Left(Left(x, s), 1) == Left(x, s + 1)
  {
  }

  lemma RightLow(x: bv64, s: bv8)
    requires s < 16
    ensures Right(Right(x, s), 1) == Right(x, s + 1)
  {
  }

  lemma RightMiddle(x: bv64, s: bv8)
    requires 16 <= s < 32
    ensures Right(Right(x, s), 1) == Right(x, s + 1)
  {
  }

  lemma RightHigh(x: bv64, s: bv8)
    requires 32 <= s < 63
    ensures Right(Right(x, s), 1) == Right(x, s + 1)
  {
  }

  lemma ShiftOne(x: bv64, s: bv8)
    requires s < 63
    ensures Left(Left(x, s), 1) == Left(x, s + 1) && Right(Right(x, s), 1) == Right(x, s + 1)
  {
    hide Left, Right;
    if s < 16 {
      LeftLow(x, s);
      RightLow(x, s);
    } else if s < 32 {
      LeftMiddle(x, s);
      RightMiddle(x, s);
    } else {
      LeftHigh(x, s);
      RightHigh(x, s);
    }
  }

  // ---- Rotating by one more

  lemma LastBit(x: bv64, s: bv8)
    requires s < 64
    ensures Right(Left(x, s), 63) == Right(x, 63 - s) & 1
  {
  }

  lemma Rejoined(y: bv64)
    ensures Or(Left(Right(y, 1), 1), y & 1) == y
  {
  }

  /** The bit that leaves at the top is the one that comes in below the others. */
  lemma ComesRound(x: bv64, s: bv8)
    requires 0 < s < 63
    ensures Or(Left(Right(x, 64 - s), 1), Right(Left(x, s), 63)) == Right(x, 63 - s)
  {
    ShiftOne(x, 63 - s);
    LastBit(x, s);
    Rejoined(Right(x, 63 - s));
  }

  lemma NoTopBit(x: bv64, s: bv8)
    requires 0 < s < 64
    ensures Right(Right(x, 64 - s), 63) == 0
  {
  }

  lemma ShiftsDistribute(u: bv64, v: bv64)
    ensures Left(Or(u, v), 1) == Or(Left(u, 1), Left(v, 1)) && Right(Or(u, v), 63) == Or(Right(u, 63), Right(v, 63))
  {
  }

  lemma Regrouped(a: bv64, b: bv64, c: bv64)
    ensures Or(Or(a, b), Or(c, 0)) == Or(a, Or(b, c))
  {
  }

  lemma OneMore(x: bv64, s: bv8)
    requires 0 < s < 63
    ensures RolBy(RolBy(x, s), 1) == RolBy(x, s + 1)
  {
    hide Left, Right, Or;
    ShiftOne(x, s);
    ComesRound(x, s);
    NoTopBit(x, s);
    var l, r := Left(x, s), Right(x, 64 - s);
    ShiftsDistribute(l, r);
    Regrouped(Left(l, 1), Left(r, 1), Right(l, 63));
    assert RolBy(x, s) == Or(l, r);
    assert RolBy(Or(l, r), 1) == Or(Left(Or(l, r), 1), Right(Or(l, r), 63));
    assert RolBy(x, s + 1) == Or(Left(x, s + 1), Right(x, 63 - s));
  }

  // ---- Where the bits go

  lemma ByOne(x: bv64, z: bv8)
    requires z < 64
    ensures Bit(RolBy(x, 1), Turned(z, 1)) == Bit(x, z)
  {
  }

  lemma TurnedOneMore(z: bv8, s: bv8)
    requires z < 64 && 0 < s < 63
    ensures Turned(Turned(z, s), 1) == Turned(z, s + 1)
  {
  }

  /** A rotation by s moves every bit z to place z + s modulo 64. */
  lemma {:induction false} RolMovesBits(x: bv64, s: bv8, z: bv8)
    requires 0 < s < 64 && z < 64
    ensures Bit(RolBy(x, s), Turned(z, s)) == Bit(x, z)
    decreases s
  {
    hide RolBy, Bit, Turned;
    if s == 1 {
      ByOne(x, z);
    } else {
      var t := s - 1;
      RolMovesBits(x, t, z);
      OneMore(x, t);
      TurnedOneMore(z, t);
      ByOne(RolBy(x, t), Turned(z, t));
      assert t + 1 == s;
    }
  }
  /** The same for an amount given as an int, as the tables have it. */
  lemma RolMoves(x: bv64, s: int, z: bv8)
    requires 0 < s < 64 && z < 64
    ensures Bit(Rol(x, s), Turned(z, s as bv8)) == Bit(x, z)
  {
    hide RolBy, Bit, Turned;
    RolMovesBits(x, s as bv8, z);
  }

  /** The bit at place z comes from the place below, or from the top. */
  lemma RolOnce(x: bv64, z: bv8)
    requires z < 64
    ensures Bit(Rol(x, 1), z) == Bit(x, if z == 0 then 63 else z - 1)
  {
    hide Rol, Bit;
    var from: bv8 := if z == 0 then 63 else z - 1;
    assert Turned(from, 1) == z;
    RolMoves(x, 1, from);
  }
  lemma TopBits(x: bv64, y: bv64)
    requires Bit(x, 63) == Bit(y, 63)
    ensures Right(x, 63) == Right(y, 63)
  {
  }

  lemma OneBitMore(u: bv64, v: bv64)
    requires Right(u, 1) == Right(v, 1) && u & 1 == v & 1
    ensures u == v
  {
  }

  lemma LowBit(x: bv64, y: bv64, z: bv8)
    requires z < 64 && Bit(x, z) == Bit(y, z)
    ensures Right(x, z) & 1 == Right(y, z) & 1
  {
    hide Right;
    ZeroOrOne(Right(x, z));
    ZeroOrOne(Right(y, z));
  }

  lemma ZeroOrOne(u: bv64)
    ensures u & 1 == 0 || u & 1 == 1
  {
  }

  lemma {:induction false} SameBitsFrom(x: bv64, y: bv64, z: bv8)
    requires z < 64 && forall k: bv8 :: k < 64 ==> Bit(x, k) == Bit(y, k)
    ensures Right(x, z) == Right(y, z)
    decreases 63 - z
  {
    hide Right, Bit;
    if z == 63 {
      TopBits(x, y);
    } else {
      SameBitsFrom(x, y, z + 1);
      ShiftOne(x, z);
      ShiftOne(y, z);
      LowBit(x, y, z);
      OneBitMore(Right(x, z), Right(y, z));
    }
  }

  /** A lane is determined by its bits. */
  lemma SameBits(x: bv64, y: bv64)
    requires forall k: bv8 :: k < 64 ==> Bit(x, k) == Bit(y, k)
    ensures x == y
  {
    SameBitsFrom(x, y, 0);
  }
}
