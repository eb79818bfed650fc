/** The sponge around Keccak-f[1600]: absorbing and padding in place, squeezing, against section 4 of FIPS 202 with the
    padding of section 5.1. */
module Sponge {
  import opened Octets
  import BigEndian
  import Keccak

  const WIDTH: nat := 200

  type State = s: seq<bv8> | |s| == WIDTH witness seq(WIDTH, _ => 0)

  // ---- Bytes as lanes, on a little-endian host

  function Lane(b: seq<bv8>): bv64
    requires |b| == 8
  {
    (b[0] as bv64) | ((b[1] as bv64) << 8) | ((b[2] as bv64) << 16) | ((b[3] as bv64) << 24)
    | ((b[4] as bv64) << 32) | ((b[5] as bv64) << 40) | ((b[6] as bv64) << 48) | ((b[7] as bv64) << 56)
  }

  function ByteOf(x: bv64, j: nat): bv8
    requires j < 8
  {
    ((if j == 0 then x else if j == 1 then x >> 8 else if j == 2 then x >> 16 else if j == 3 then x >> 24
      else if j == 4 then x >> 32 else if j == 5 then x >> 40 else if j == 6 then x >> 48 else x >> 56) & 0xff) as bv8
  }

  lemma ByteOfLane(b: seq<bv8>, j: nat)
    requires |b| == 8 && j < 8
    ensures ByteOf(Lane(b), j) == b[j]
  {
  }

  /** The byte at place j holds bits 8j to 8j + 7, the lowest bit first. */
  lemma LaneBytes(b: seq<bv8>)
    requires |b| == 8
    ensures var x := Lane(b);
            && x & 0xff == b[0] as bv64 && (x >> 8) & 0xff == b[1] as bv64
            && (x >> 16) & 0xff == b[2] as bv64 && (x >> 24) & 0xff == b[3] as bv64
            && (x >> 32) & 0xff == b[4] as bv64 && (x >> 40) & 0xff == b[5] as bv64
            && (x >> 48) & 0xff == b[6] as bv64 && (x >> 56) & 0xff == b[7] as bv64
  {
  }

  /** The byte view and the lane view are two views of the same memory. */
  lemma ViewsAgree(s: State)
    ensures BytesOf(LanesOf(s)) == s
  {
    hide Lane, ByteOf;
    forall k | 0 <= k < WIDTH ensures BytesOf(LanesOf(s))[k] == s[k] {
      ByteOfLane(s[8 * (k / 8)..8 * (k / 8) + 8], k % 8);
    }
  }

  function LanesOf(s: State): Keccak.Lanes {
    seq(25, i requires 0 <= i < 25 => Lane(s[8 * i..8 * i + 8]))
  }

  function BytesOf(a: Keccak.Lanes): State {
    seq(WIDTH, k requires 0 <= k < WIDTH => ByteOf(a[k / 8], k % 8))
  }

  /** The permutation on the state's bytes. */
  function Permuted(s: State): State {
    BytesOf(Keccak.Rounds(LanesOf(s), 24))
  }

  /** The state is one piece of memory, seen as bytes here and as lanes there. */
  method Permute(a: array<bv8>)
    requires a.Length == WIDTH
    modifies a
    ensures a[..] == Permuted(old(a[..]))
  {
    hide Lane, ByteOf, Keccak.Rounds;
    var lanes := new bv64[25](i requires 0 <= i < 25 reads a => Lane(a[8 * i..8 * i + 8]));
    assert lanes[..] == LanesOf(a[..]);
    Keccak.KeccakF(lanes);
    ghost var out: Keccak.Lanes := lanes[..];
    for k := 0 to WIDTH
      invariant lanes[..] == out
      invariant forall i :: 0 <= i < k ==> a[i] == BytesOf(out)[i]
    {
      a[k] := ByteOf(lanes[k / 8], k % 8);
    }
  }

  // ---- The specification

  function Xor(x: bv8, y: bv8): bv8 {
    x ^ y
  }

  /** Bit by bit, the exclusive or. */
  lemma XorBits(x: bv8, y: bv8)
    ensures Xor(x, y) & 0x01 == 0 <==> x & 0x01 == y & 0x01
    ensures Xor(x, y) & 0x02 == 0 <==> x & 0x02 == y & 0x02
    ensures Xor(x, y) & 0x04 == 0 <==> x & 0x04 == y & 0x04
    ensures Xor(x, y) & 0x08 == 0 <==> x & 0x08 == y & 0x08
    ensures Xor(x, y) & 0x10 == 0 <==> x & 0x10 == y & 0x10
    ensures Xor(x, y) & 0x20 == 0 <==> x & 0x20 == y & 0x20
    ensures Xor(x, y) & 0x40 == 0 <==> x & 0x40 == y & 0x40
    ensures Xor(x, y) & 0x80 == 0 <==> x & 0x80 == y & 0x80
  {
  }

  /** One delimiter byte, zeros, and 0x80 in the last byte of the block: all in one byte if only one is left. */
  function Padding(rate: nat, delim: bv8, tail: nat): (s: seq<bv8>)
    requires tail < rate
    ensures |s| == rate - tail
  {
    if tail == rate - 1 then [Xor(delim, 0x80)] else [delim] + Zeros(rate - tail - 2) + [0x80]
  }

  function Padded(m: seq<bv8>, rate: nat, delim: bv8): (s: seq<bv8>)
    requires rate > 0
    ensures |s| % rate == 0
  {
    BlockLength(|m|, rate);
    m + Padding(rate, delim, |m| % rate)
  }

  lemma BlockLength(n: nat, rate: nat)
    requires rate > 0
    ensures (n + (rate - n % rate)) % rate == 0
  {
    assert n + (rate - n % rate) == rate * (n / rate + 1);
    BigEndian.ModUnique(n + (rate - n % rate), rate, n / rate + 1, 0);
  }

  function XorInto(s: State, block: seq<bv8>): (r: State)
    requires |block| <= WIDTH
  {
    seq(WIDTH, i requires 0 <= i < WIDTH => if i < |block| then Xor(s[i], block[i]) else s[i])
  }

  /** Folding the permutation over whole blocks. */
  function Absorbed(s: State, blocks: seq<bv8>, rate: nat): State
    requires 0 < rate < WIDTH
    decreases |blocks|
  {
    if |blocks| < rate then s else Absorbed(Permuted(XorInto(s, blocks[..rate])), blocks[rate..], rate)
  }

  function Squeezed(s: State, n: nat, rate: nat): (out: seq<bv8>)
    requires 0 < rate < WIDTH
    ensures |out| == n
    decreases n
  {
    if n < rate then s[..n] else s[..rate] + Squeezed(Permuted(s), n - rate, rate)
  }

  function Hash(m: seq<bv8>, n: nat, rate: nat, delim: bv8): (out: seq<bv8>)
    requires 0 < rate < WIDTH
  {
    Squeezed(Absorbed(Zeros(WIDTH), Padded(m, rate, delim), rate), n, rate)
  }

  // ---- The loops

  method XorIn(a: array<bv8>, src: seq<bv8>)
    requires a.Length == WIDTH && |src| <= WIDTH
    modifies a
    ensures a[..] == XorInto(old(a[..]), src)
  {
    ghost var was: State := a[..];
    for i := 0 to |src|
      invariant forall k :: 0 <= k < WIDTH ==> a[k] == if k < i then Xor(was[k], src[k]) else was[k]
    {
      a[i] := Xor(a[i], src[i]);
    }
  }

  method SetOut(a: array<bv8>, out: array<bv8>, at: nat, len: nat)
    requires a.Length == WIDTH && len <= WIDTH && at + len <= out.Length && a != out
    modifies out
    ensures out[..] == old(out[..at]) + a[..len] + old(out[at + len..])
  {
    ghost var was := out[..];
    for i := 0 to len
      invariant forall k :: 0 <= k < out.Length ==> out[k] == if at <= k < at + i then a[k - at] else was[k]
    {
      out[at + i] := a[i];
    }
  }

  /** One block less to absorb. */
  lemma OneBlock(s: State, rest: seq<bv8>, pad: seq<bv8>, rate: nat)
    requires 0 < rate < WIDTH && |rest| >= rate
    ensures Absorbed(s, rest + pad, rate) == Absorbed(Permuted(XorInto(s, rest[..rate])), rest[rate..] + pad, rate)
  {
    hide Permuted, XorInto;
    assert (rest + pad)[..rate] == rest[..rate] && (rest + pad)[rate..] == rest[rate..] + pad;
  }

  lemma LastBlock(s: State, block: seq<bv8>, rate: nat)
    requires 0 < rate < WIDTH && |block| == rate
    ensures Absorbed(s, block, rate) == Permuted(XorInto(s, block))
  {
    hide Permuted, XorInto;
    assert block[..rate] == block && block[rate..] == [];
  }

  /** The state with both marks in place. */
  function Marked(s: State, rate: nat, delim: bv8, tail: nat): State
    requires tail < rate < WIDTH
  {
    var s1 := s[tail := Xor(s[tail], delim)];
    s1[rate - 1 := Xor(s1[rate - 1], 0x80)]
  }

  /** Padding in place before the tail is xored in: the order does not matter, and both marks may meet in one byte. */
  lemma PadInPlace(s: State, tail: seq<bv8>, rate: nat, delim: bv8)
    requires 0 < rate < WIDTH && |tail| < rate
    ensures XorInto(Marked(s, rate, delim, |tail|), tail) == XorInto(s, tail + Padding(rate, delim, |tail|))
  {
    hide Xor, Padding, XorInto, Marked;
    forall i | 0 <= i < WIDTH
      ensures XorInto(Marked(s, rate, delim, |tail|), tail)[i] == XorInto(s, tail + Padding(rate, delim, |tail|))[i]
    {
      PadAt(s, tail, rate, delim, i);
    }
  }

  lemma XorAt(s: State, block: seq<bv8>, i: nat)
    requires |block| <= WIDTH && i < WIDTH
    ensures XorInto(s, block)[i] == if i < |block| then Xor(s[i], block[i]) else s[i]
  {
  }

  lemma PadAt(s: State, tail: seq<bv8>, rate: nat, delim: bv8, i: nat)
    requires 0 < rate < WIDTH && |tail| < rate && i < WIDTH
    ensures XorInto(Marked(s, rate, delim, |tail|), tail)[i] == XorInto(s, tail + Padding(rate, delim, |tail|))[i]
  {
    hide Xor, Padding, XorInto;
    XorAt(Marked(s, rate, delim, |tail|), tail, i);
    XorAt(s, tail + Padding(rate, delim, |tail|), i);
    if |tail| <= i < rate {
      PadByte(s[i], delim, rate, |tail|, i);
    }
  }

  /** One byte of the block behind the tail. */
  lemma PadByte(x: bv8, delim: bv8, rate: nat, tail: nat, i: nat)
    requires tail <= i < rate
    ensures var x1 := if i == tail then Xor(x, delim) else x;
            (if i == rate - 1 then Xor(x1, 0x80) else x1) == Xor(x, Padding(rate, delim, tail)[i - tail])
  {
    hide Xor;
    XorFacts(x, delim);
  }

  lemma XorFacts(x: bv8, y: bv8)
    ensures Xor(Xor(x, y), 0x80) == Xor(x, Xor(y, 0x80)) && Xor(x, 0) == x
  {
  }

  /** The last block: padding, what is left of the input, one permutation. */
  method AbsorbTail(a: array<bv8>, tail: seq<bv8>, rate: nat, delim: bv8)
    requires a.Length == WIDTH && 0 < rate < WIDTH && |tail| < rate
    modifies a
    ensures a[..] == Absorbed(old(a[..]), tail + Padding(rate, delim, |tail|), rate)
  {
    hide Permuted, XorInto, Absorbed, Padding, Xor;
    ghost var was: State := a[..];
    a[|tail|] := Xor(a[|tail|], delim);
    ghost var marked: State := a[..];
    assert marked == was[|tail| := Xor(was[|tail|], delim)];
    a[rate - 1] := Xor(a[rate - 1], 0x80);
    assert a[..] == marked[rate - 1 := Xor(marked[rate - 1], 0x80)];
    PadInPlace(was, tail, rate, delim);
    LastBlock(was, tail + Padding(rate, delim, |tail|), rate);
    XorIn(a, tail);
    Permute(a);
  }

  method Absorb(a: array<bv8>, m: seq<bv8>, rate: nat, delim: bv8)
    requires a.Length == WIDTH && 0 < rate < WIDTH
    modifies a
    ensures a[..] == Absorbed(old(a[..]), Padded(m, rate, delim), rate)
  {
    hide Permuted, XorInto, Absorbed, Padding;
    ghost var was: State := a[..];
    ghost var pad := Padding(rate, delim, |m| % rate);
    var at: nat, len: nat := 0, |m|;
    assert m[at..] == m;
    while len >= rate
      invariant at + len == |m| && len % rate == |m| % rate
      invariant Absorbed(was, m + pad, rate) == Absorbed(a[..], m[at..] + pad, rate)
    {
      OneBlock(a[..], m[at..], pad, rate);
      SlideTail(m, at, rate, len);
      XorIn(a, m[at..at + rate]);
      Permute(a);
      at, len := at + rate, len - rate;
    }
    SmallRemainder(len, rate);
    AbsorbTail(a, m[at..], rate, delim);
  }

  lemma SmallRemainder(len: nat, rate: nat)
    requires len < rate
    ensures len % rate == len
  {
  }

  lemma SlideTail(m: seq<bv8>, at: nat, rate: nat, len: nat)
    requires at + len == |m| && 0 < rate <= len
    ensures m[at..][..rate] == m[at..at + rate] && m[at..][rate..] == m[at + rate..]
    ensures (len - rate) % rate == len % rate
  {
    var q := len / rate;
    assert len - rate == rate * (q - 1) + len % rate;
    BigEndian.ModUnique(len - rate, rate, q - 1, len % rate);
  }

  method Squeeze(a: array<bv8>, out: array<bv8>, outlen: nat, rate: nat)
    requires a.Length == WIDTH && 0 < rate < WIDTH && outlen <= out.Length && a != out
    modifies a, out
    ensures out[..] == Squeezed(old(a[..]), outlen, rate) + old(out[outlen..])
  {
    hide Permuted, Squeezed;
    ghost var was: State := a[..];
    ghost var rest := out[outlen..];
    var at: nat, len: nat := 0, outlen;
    while len >= rate
      invariant at + len == outlen && out[outlen..] == rest
      invariant Squeezed(was, outlen, rate) == out[..at] + Squeezed(a[..], len, rate)
    {
      ghost var before: State := a[..];
      ghost var done := out[..at];
      SetOut(a, out, at, rate);
      assert out[..at + rate] == done + before[..rate];
      assert out[outlen..] == rest;
      Permute(a);
      SqueezeOne(before, len, rate);
      assert (done + before[..rate]) + Squeezed(a[..], len - rate, rate) == done + Squeezed(before, len, rate);
      at, len := at + rate, len - rate;
    }
    ghost var last: State := a[..];
    ghost var done := out[..at];
    SetOut(a, out, at, len);
    SqueezeOne(last, len, rate);
    assert out[..] == done + last[..len] + rest;
  }

  lemma SqueezeOne(s: State, n: nat, rate: nat)
    requires 0 < rate < WIDTH
    ensures n < rate ==> Squeezed(s, n, rate) == s[..n]
    ensures n >= rate ==> Squeezed(s, n, rate) == s[..rate] + Squeezed(Permuted(s), n - rate, rate)
  {
  }

  /** The hash construction on memory; null pointers and rates of the state's width or more are refused. */
  method HashInto(out: array?<bv8>, outlen: nat, input: array?<bv8>, inlen: nat, rate: nat, delim: bv8)
    returns (ret: int)
    requires rate > 0
    requires out != null ==> outlen <= out.Length
    requires input != null ==> inlen <= input.Length
    modifies if out == null then {} else {out}
    ensures ret == 0 || ret == -1
    ensures ret == -1 <==> out == null || (input == null && inlen != 0) || rate >= WIDTH
    ensures ret == -1 && out != null ==> out[..] == old(out[..])
    ensures ret == 0 ==>
              var m := if input == null then [] else old(input[..inlen]);
              out[..] == Hash(m, outlen, rate, delim) + old(out[outlen..])
  {
    if out == null || (input == null && inlen != 0) || rate >= WIDTH {
      return -1;
    }
    hide Absorbed, Squeezed, Padded;
    var a := new bv8[WIDTH](_ => 0);
    assert a[..] == Zeros(WIDTH);
    var m := if input == null then [] else input[..inlen];
    Absorb(a, m, rate, delim);
    Squeeze(a, out, outlen, rate);
    return 0;
  }

  /** sha3_224 to sha3_512: an output longer than the digest is refused, a shorter one is its beginning. */
  method Sha3(bits: nat, out: array?<bv8>, outlen: nat, input: array?<bv8>, inlen: nat) returns (ret: int)
    requires bits == 224 || bits == 256 || bits == 384 || bits == 512
    requires out != null ==> outlen <= out.Length
    requires input != null ==> inlen <= input.Length
    modifies if out == null then {} else {out}
    ensures ret == 0 <==> outlen <= bits / 8 && out != null && (input != null || inlen == 0)
    ensures ret == 0 || ret == -1
    ensures ret == -1 && out != null ==> out[..] == old(out[..])
    ensures ret == 0 ==>
              var m := if input == null then [] else old(input[..inlen]);
              out[..outlen] == Hash(m, bits / 8, WIDTH - bits / 4, 0x01)[..outlen]
  {
    if outlen > bits / 8 {
      return -1;
    }
    ret := HashInto(out, outlen, input, inlen, WIDTH - bits / 4, 0x01);
    if ret == 0 {
      ghost var m := if input == null then [] else old(input[..inlen]);
      ShorterOutput(Absorbed(Zeros(WIDTH), Padded(m, WIDTH - bits / 4, 0x01), WIDTH - bits / 4),
                    outlen, bits / 8, WIDTH - bits / 4);
      assert out[..outlen] == Hash(m, outlen, WIDTH - bits / 4, 0x01);
    }
  }

  /** A shorter output is a prefix of a longer one. */
  lemma {:induction false} ShorterOutput(s: State, n: nat, k: nat, rate: nat)
    requires 0 < rate < WIDTH && n <= k
    ensures Squeezed(s, n, rate) == Squeezed(s, k, rate)[..n]
    decreases n
  {
    hide Permuted;
    if n < rate {
    } else {
      ShorterOutput(Permuted(s), n - rate, k - rate, rate);
    }
  }

  // ---- The padding, bit by bit

  /** The bits of a byte, least significant first. */
  function ByteBits(b: bv8): (r: seq<bool>)
    ensures |r| == 8
  {
    [b & 0x01 != 0, b & 0x02 != 0, b & 0x04 != 0, b & 0x08 != 0,
     b & 0x10 != 0, b & 0x20 != 0, b & 0x40 != 0, b & 0x80 != 0]
  }

  function Bits(s: seq<bv8>): (r: seq<bool>)
    ensures |r| == 8 * |s|
  {
    if s == [] then [] else Bits(s[..|s| - 1]) + ByteBits(s[|s| - 1])
  }

  function Falses(n: nat): (r: seq<bool>)
    ensures |r| == n
  {
    seq(n, _ => false)
  }

  /** Section 5.1: a one, the fewest zeros that fill a block, a one. */
  function Pad101(x: nat, n: nat): seq<bool>
    requires x > 0
  {
    [true] + Falses((-2 - n) % x) + [true]
  }

  /** The delimiter byte holds a suffix of at most six bits and the first one of the padding. */
  predicate Delimits(delim: bv8, suffix: seq<bool>) {
    |suffix| <= 6 && ByteBits(delim) == suffix + [true] + Falses(7 - |suffix|)
  }

  lemma {:induction false} BitsAppend(a: seq<bv8>, b: seq<bv8>)
    ensures Bits(a + b) == Bits(a) + Bits(b)
  {
    hide ByteBits;
    if b == [] {
      assert a + b == a;
    } else {
      var n := |b| - 1;
      BitsAppend(a, b[..n]);
      assert (a + b)[..|a + b| - 1] == a + b[..n];
    }
  }

  lemma BitsOne(b: bv8)
    ensures Bits([b]) == ByteBits(b)
  {
    hide ByteBits;
    assert [b][..0] == [];
  }

  lemma {:induction false} BitsOfZeros(n: nat)
    ensures Bits(Zeros(n)) == Falses(8 * n)
  {
    if n == 0 {
    } else {
      BitsOfZeros(n - 1);
      assert Zeros(n)[..n - 1] == Zeros(n - 1);
      assert ByteBits(0) == Falses(8);
      assert Falses(8 * (n - 1)) + Falses(8) == Falses(8 * n);
    }
  }

  lemma LastMark(delim: bv8)
    requires !ByteBits(delim)[7]
    ensures ByteBits(Xor(delim, 0x80)) == ByteBits(delim)[..7] + [true]
  {
    MarkBits(delim);
  }

  lemma MarkBits(d: bv8)
    ensures (d ^ 0x80) & 0x01 == d & 0x01 && (d ^ 0x80) & 0x02 == d & 0x02 && (d ^ 0x80) & 0x04 == d & 0x04
    ensures (d ^ 0x80) & 0x08 == d & 0x08 && (d ^ 0x80) & 0x10 == d & 0x10 && (d ^ 0x80) & 0x20 == d & 0x20
    ensures (d ^ 0x80) & 0x40 == d & 0x40 && (d & 0x80 == 0 ==> (d ^ 0x80) & 0x80 != 0)
  {
  }

  lemma PaddingBits(rate: nat, delim: bv8, tail: nat, suffix: seq<bool>)
    requires tail < rate && Delimits(delim, suffix)
    ensures Bits(Padding(rate, delim, tail)) == suffix + ([true] + Falses(8 * (rate - tail) - |suffix| - 2) + [true])
  {
    if tail == rate - 1 {
      OneByteBits(delim, suffix);
    } else {
      ManyByteBits(delim, suffix, rate - tail - 2);
    }
  }

  lemma ManyByteBits(delim: bv8, suffix: seq<bool>, zeros: nat)
    requires Delimits(delim, suffix)
    ensures Bits([delim] + Zeros(zeros) + [0x80]) == suffix + ([true] + Falses(7 - |suffix| + 8 * zeros + 7) + [true])
  {
    hide ByteBits, Bits, Falses, Zeros;
    BitsAppend([delim] + Zeros(zeros), [0x80]);
    BitsAppend([delim], Zeros(zeros));
    BitsOfZeros(zeros);
    BitsOne(delim);
    BitsOne(0x80);
    TopBit();
    Gather(suffix, 7 - |suffix|, 8 * zeros);
  }

  lemma TopBit()
    ensures ByteBits(0x80) == Falses(7) + [true]
  {
  }

  lemma OneByteBits(delim: bv8, suffix: seq<bool>)
    requires Delimits(delim, suffix)
    ensures Bits([Xor(delim, 0x80)]) == suffix + ([true] + Falses(6 - |suffix|) + [true])
  {
    hide Xor, ByteBits;
    assert !ByteBits(delim)[7];
    LastMark(delim);
    BitsOne(Xor(delim, 0x80));
    assert ByteBits(delim)[..7] == suffix + [true] + Falses(6 - |suffix|);
  }

  lemma Gather(suffix: seq<bool>, a: nat, b: nat)
    ensures (suffix + [true] + Falses(a)) + Falses(b) + (Falses(7) + [true])
         == suffix + ([true] + Falses(a + b + 7) + [true])
  {
    assert Falses(a) + Falses(b) + Falses(7) == Falses(a + b + 7);
  }

  lemma FewestZeros(n: nat, x: nat, q: int, j: nat)
    requires j < x && n + 2 + j == x * q
    ensures (-2 - n) % x == j
  {
    assert -2 - n == x * (-q) + j;
    ModOf(x, -q, j);
  }

  lemma ModOf(x: nat, q: int, j: nat)
    requires j < x
    ensures (x * q + j) % x == j
  {
    var r := (x * q + j) % x;
    var d := (x * q + j) / x;
    assert x * q + j == x * d + r;
    if d < q {
      assert x * (q - d) == r - j;
      Bigger(x, q - d);
    } else if d > q {
      assert x * (d - q) == j - r;
      Bigger(x, d - q);
    }
  }

  lemma Bigger(x: nat, k: int)
    requires k >= 1
    ensures x * k >= x
  {
  }

  /** What the byte-wise padding appends is the suffix the delimiter stands for and then pad10*1 up to a whole block. */
  lemma PaddingIsPad101(m: seq<bv8>, rate: nat, delim: bv8, suffix: seq<bool>)
    requires rate > 0 && Delimits(delim, suffix)
    ensures Bits(Padded(m, rate, delim)) == Bits(m) + suffix + Pad101(8 * rate, |Bits(m) + suffix|)
  {
    hide Bits, Padding, ByteBits;
    var tail, q := |m| % rate, |m| / rate;
    PaddingBits(rate, delim, tail, suffix);
    BitsAppend(m, Padding(rate, delim, tail));
    var j := 8 * (rate - tail) - |suffix| - 2;
    assert |m| == rate * q + tail;
    assert (8 * rate) * (q + 1) == 8 * (rate * q) + 8 * rate;
    FewestZeros(8 * |m| + |suffix|, 8 * rate, q + 1, j);
  }

  /** The delimiters in use: 0x01 adds nothing before the padding (the original Keccak, not the 01 of SHA3-256 in FIPS
      202), 0x1f adds 1111 as SHAKE does. */
  lemma DelimitersInUse()
    ensures Delimits(0x01, []) && Delimits(0x1f, [true, true, true, true]) && !Delimits(0x01, [false, true])
  {
    assert ByteBits(0x01) == [true] + Falses(7);
    assert ByteBits(0x1f) == [true, true, true, true] + [true] + Falses(3);
    assert ByteBits(0x01)[0];
  }
}
