/** The round constants of Keccak-f[1600]: the table against the algorithms of section 3.2.5 of FIPS 202. */
module RoundConstants {

  const RC: seq<bv64> := [
    1, 0x8082, 0x800000000000808a, 0x8000000080008000,
    0x808b, 0x80000001, 0x8000000080008081, 0x8000000000008009,
    0x8a, 0x88, 0x80008009, 0x8000000a,
    0x8000808b, 0x800000000000008b, 0x8000000000008089, 0x8000000000008003,
    0x8000000000008002, 0x8000000000000080, 0x800a, 0x800000008000000a,
    0x8000000080008081, 0x8000000000008080, 0x80000001, 0x8000000080008008]

  // ---- Section 3.2.5

  datatype Register = Register(b0: bool, b1: bool, b2: bool, b3: bool, b4: bool, b5: bool, b6: bool, b7: bool)

  /** One step of the shift register: the bit that leaves at the end is added to bits 0, 4, 5 and 6. */
  function Shifted(r: Register): Register {
    Register(r.b7, r.b0, r.b1, r.b2, r.b3 != r.b7, r.b4 != r.b7, r.b5 != r.b7, r.b6)
  }

  function RegisterAt(t: nat): Register {
    if t == 0 then Register(true, false, false, false, false, false, false, false) else Shifted(RegisterAt(t - 1))
  }

  /** Bit t of the register's output. */
  function RoundBit(t: nat): bool {
    RegisterAt(t % 255).b0
  }

  /** A lane with these bits at the places 2^j - 1, for j from 0 to 6, and zeros elsewhere. */
  function Lane(b0: bool, b1: bool, b2: bool, b3: bool, b4: bool, b5: bool, b6: bool): bv64 {
    (if b0 then 1 else 0) | (if b1 then 1 << 1 else 0) | (if b2 then 1 << 3 else 0) | (if b3 then 1 << 7 else 0)
    | (if b4 then 1 << 15 else 0) | (if b5 then 1 << 31 else 0) | (if b6 then 1 << 63 else 0)
  }

  function RoundConstant(round: nat): bv64 {
    var t := 7 * round;
    Lane(RoundBit(t), RoundBit(t + 1), RoundBit(t + 2), RoundBit(t + 3), RoundBit(t + 4), RoundBit(t + 5),
         RoundBit(t + 6))
  }

  // ---- The table

  /** The lane made of a register's next seven outputs. */
  function Outputs(r: Register): bv64 {
    var r1 := Shifted(r);
    var r2 := Shifted(r1);
    var r3 := Shifted(r2);
    var r4 := Shifted(r3);
    var r5 := Shifted(r4);
    var r6 := Shifted(r5);
    Lane(r.b0, r1.b0, r2.b0, r3.b0, r4.b0, r5.b0, r6.b0)
  }

  function Seven(r: Register): Register {
    Shifted(Shifted(Shifted(Shifted(Shifted(Shifted(Shifted(r)))))))
  }

  function SevenBits(r: Register): Register {
    Register(r.b1 != (r.b3 != r.b4), r.b2 != (r.b4 != r.b5), r.b3 != (r.b5 != r.b6), r.b4 != (r.b6 != r.b7),
             r.b1 != (r.b3 != (r.b4 != (r.b5 != r.b7))), r.b1 != (r.b2 != (r.b3 != (r.b5 != r.b6))),
             r.b1 != (r.b2 != (r.b6 != r.b7)), r.b0 != (r.b2 != (r.b3 != r.b7)))
  }

  lemma SevenIsBits(r: Register)
    ensures Seven(r) == SevenBits(r)
  {
  }

  lemma SevenShifts(t: nat)
    ensures RegisterAt(t + 7) == Seven(RegisterAt(t))
  {
    hide Shifted;
    assert RegisterAt(t + 1) == Shifted(RegisterAt(t));
    assert RegisterAt(t + 2) == Shifted(RegisterAt(t + 1));
    assert RegisterAt(t + 3) == Shifted(RegisterAt(t + 2));
    assert RegisterAt(t + 4) == Shifted(RegisterAt(t + 3));
    assert RegisterAt(t + 5) == Shifted(RegisterAt(t + 4));
    assert RegisterAt(t + 6) == Shifted(RegisterAt(t + 5));
  }

  lemma RoundBitIs(t: nat)
    requires t < 254
    ensures RoundBit(t) == RegisterAt(t).b0 && RegisterAt(t + 1) == Shifted(RegisterAt(t))
  {
    NextRegister(t);
    hide RegisterAt;
  }

  lemma NextRegister(t: nat)
    ensures RegisterAt(t + 1) == Shifted(RegisterAt(t))
  {
    hide Shifted;
  }

  lemma ConstantIsOutputs(round: nat)
    requires round < 24
    ensures RoundConstant(round) == Outputs(RegisterAt(7 * round))
  {
    hide Shifted, Lane, RegisterAt, RoundBit;
    var t := 7 * round;
    RoundBitIs(t);
    RoundBitIs(t + 1);
    RoundBitIs(t + 2);
    RoundBitIs(t + 3);
    RoundBitIs(t + 4);
    RoundBitIs(t + 5);
    RoundBitIs(t + 6);
  }

  /** The register at the beginning of each round. */
  function RowRegister(k: int): Register {
    match k
    case 0 => Register(true, false, false, false, false, false, false, false)
    case 1 => Register(false, false, false, false, false, false, false, true)
    case 2 => Register(false, false, false, true, true, false, true, true)
    case 3 => Register(false, true, false, true, true, false, false, false)
    case 4 => Register(true, true, true, true, true, false, true, true)
    case 5 => Register(true, false, false, true, false, false, false, false)
    case 6 => Register(true, false, true, false, true, true, false, false)
    case 7 => Register(true, true, true, true, false, false, true, false)
    case 8 => Register(false, true, false, true, false, false, true, true)
    case 9 => Register(false, false, false, false, true, true, true, false)
    case 10 => Register(true, false, false, false, false, false, true, false)
    case 11 => Register(false, false, true, true, false, true, true, true)
    case 12 => Register(true, false, true, false, true, false, true, true)
    case 13 => Register(true, false, true, true, false, false, true, true)
    case 14 => Register(true, true, false, false, false, true, true, false)
    case 15 => Register(true, true, false, true, false, true, false, true)
    case 16 => Register(false, true, false, true, false, true, false, true)
    case 17 => Register(false, true, false, true, false, true, false, false)
    case 18 => Register(false, true, false, false, true, true, true, true)
    case 19 => Register(false, false, false, true, false, true, true, true)
    case 20 => Register(true, true, true, false, true, true, false, false)
    case 21 => Register(false, true, true, true, true, true, false, false)
    case 22 => Register(true, true, false, true, false, false, false, false)
    case _ => Register(false, false, true, false, false, false, true, false)
  }

  lemma FirstOutputs(k: int)
    requires 0 <= k < 8
    ensures Outputs(RowRegister(k)) == RC[k]
  {
  }

  lemma MiddleOutputs(k: int)
    requires 8 <= k < 16
    ensures Outputs(RowRegister(k)) == RC[k]
  {
  }

  lemma LastOutputs(k: int)
    requires 16 <= k < 24
    ensures Outputs(RowRegister(k)) == RC[k]
  {
  }

  lemma FirstSteps(k: int)
    requires 0 <= k < 5
    ensures SevenBits(RowRegister(k)) == RowRegister(k + 1)
  {
  }

  lemma SecondSteps(k: int)
    requires 5 <= k < 10
    ensures SevenBits(RowRegister(k)) == RowRegister(k + 1)
  {
  }

  lemma ThirdSteps(k: int)
    requires 10 <= k < 15
    ensures SevenBits(RowRegister(k)) == RowRegister(k + 1)
  {
  }

  lemma FourthSteps(k: int)
    requires 15 <= k < 19
    ensures SevenBits(RowRegister(k)) == RowRegister(k + 1)
  {
  }

  lemma LastSteps(k: int)
    requires 19 <= k < 23
    ensures SevenBits(RowRegister(k)) == RowRegister(k + 1)
  {
  }

  lemma RowStep(k: int)
    requires 0 <= k < 23
    ensures Seven(RowRegister(k)) == RowRegister(k + 1)
  {
    hide RowRegister, Seven, SevenBits;
    SevenIsBits(RowRegister(k));
    if k < 5 {
      FirstSteps(k);
    } else if k < 10 {
      SecondSteps(k);
    } else if k < 15 {
      ThirdSteps(k);
    } else if k < 19 {
      FourthSteps(k);
    } else {
      LastSteps(k);
    }
  }

  lemma {:induction false} RegisterIsRow(k: int)
    requires 0 <= k < 24
    ensures RegisterAt(7 * k) == RowRegister(k)
  {
    if k == 0 {
    } else {
      hide RowRegister, RegisterAt, Seven;
      RegisterIsRow(k - 1);
      SevenShifts(7 * (k - 1));
      RowStep(k - 1);
    }
  }

  /** Each row of the table is the constant that section 3.2.5 computes for its round. */
  lemma RowsAreConstants(k: int)
    requires 0 <= k < 24
    ensures RC[k] == RoundConstant(k)
  {
    hide RowRegister, RegisterAt, Outputs, RoundConstant;
    ConstantIsOutputs(k);
    RegisterIsRow(k);
    if k < 8 {
      FirstOutputs(k);
    } else if k < 16 {
      MiddleOutputs(k);
    } else {
      LastOutputs(k);
    }
  }
}
