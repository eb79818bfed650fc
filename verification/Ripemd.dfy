/** How RIPEMD-160 frames a message: the blocks that reach the compression function, against the padding of RFC 1320,
    sections 3.1 and 3.2. The compression function itself is a parameter. */
module Ripemd {
  import opened Octets

  type Compress = (seq<bv32>, seq<bv32>) -> seq<bv32>

  const WORDS_PER_BLOCK: nat := 16
  const BLOCK: nat := 64
  const TWO_32: nat := 0x1_0000_0000

  const INITIAL: seq<bv32> := [0x67452301, 0xefcdab89, 0x98badcfe, 0x10325476, 0xc3d2e1f0]

  // ---- The specification

  /** Four bytes as a word, low-order byte first. */
  function Word(b0: bv8, b1: bv8, b2: bv8, b3: bv8): bv32 {
    ((b3 as bv32) << 24) | ((b2 as bv32) << 16) | ((b1 as bv32) << 8) | (b0 as bv32)
  }

  function WordAt(s: seq<bv8>, i: nat): bv32
    requires 4 * i + 4 <= |s|
  {
    Word(s[4 * i], s[4 * i + 1], s[4 * i + 2], s[4 * i + 3])
  }

  function Words(s: seq<bv8>): (r: seq<bv32>)
    ensures |r| == |s| / 4
  {
    seq(|s| / 4, i requires 0 <= i < |s| / 4 => WordAt(s, i))
  }

  /** Section 3.1: a one bit, then zeros until the length is 56 modulo 64. */
  function Extended(m: seq<bv8>): (s: seq<bv8>)
    ensures |s| % BLOCK == 56
  {
    m + [0x80] + Zeros((55 - |m|) % BLOCK)
  }

  function OctetOf(u: nat): bv8 {
    (u % 256) as bv8
  }

  /** A number below 2^32 as a word. */
  function WordOf(u: nat): bv32 {
    Word(OctetOf(u), OctetOf(u / 0x100), OctetOf(u / 0x1_0000), OctetOf(u / 0x100_0000))
  }

  function Low32(v: nat): bv32 {
    WordOf(v % TWO_32)
  }

  /** Section 3.2: the length in bits as two words, low-order word first. */
  function Length(bytes: nat): seq<bv32> {
    [Low32(8 * bytes), Low32(8 * bytes / TWO_32)]
  }

  function Framed(m: seq<bv8>): seq<bv32> {
    Words(Extended(m)) + Length(|m|)
  }

  function Folded(f: Compress, buffer: seq<bv32>, words: seq<bv32>): seq<bv32>
    decreases |words|
  {
    if |words| < WORDS_PER_BLOCK then buffer
    else Folded(f, f(buffer, words[..WORDS_PER_BLOCK]), words[WORDS_PER_BLOCK..])
  }

  // ---- Building a block in place

  /** A left shift by j bytes. */
  function Up(x: bv32, j: nat): bv32
    requires j < 4
  {
    if j == 0 then x else if j == 1 then x << 8 else if j == 2 then x << 16 else x << 24
  }

  function PutAt(w: bv32, b: bv8, j: nat): bv32
    requires j < 4
  {
    w ^ Up(b as bv32, j)
  }

  lemma PutFirst(b1: bv8, b2: bv8, b3: bv8, b: bv8)
    ensures PutAt(Word(0, b1, b2, b3), b, 0) == Word(b, b1, b2, b3)
  {
  }

  lemma PutSecond(b0: bv8, b2: bv8, b3: bv8, b: bv8)
    ensures PutAt(Word(b0, 0, b2, b3), b, 1) == Word(b0, b, b2, b3)
  {
  }

  lemma PutThird(b0: bv8, b1: bv8, b3: bv8, b: bv8)
    ensures PutAt(Word(b0, b1, 0, b3), b, 2) == Word(b0, b1, b, b3)
  {
  }

  lemma PutFourth(b0: bv8, b1: bv8, b2: bv8, b: bv8)
    ensures PutAt(Word(b0, b1, b2, 0), b, 3) == Word(b0, b1, b2, b)
  {
  }

  lemma PutIntoZero(b0: bv8, b1: bv8, b2: bv8, b3: bv8, b: bv8)
    ensures b0 == 0 ==> PutAt(Word(b0, b1, b2, b3), b, 0) == Word(b, b1, b2, b3)
    ensures b1 == 0 ==> PutAt(Word(b0, b1, b2, b3), b, 1) == Word(b0, b, b2, b3)
    ensures b2 == 0 ==> PutAt(Word(b0, b1, b2, b3), b, 2) == Word(b0, b1, b, b3)
    ensures b3 == 0 ==> PutAt(Word(b0, b1, b2, b3), b, 3) == Word(b0, b1, b2, b)
  {
    hide Word, PutAt;
    PutFirst(b1, b2, b3, b);
    PutSecond(b0, b2, b3, b);
    PutThird(b0, b1, b3, b);
    PutFourth(b0, b1, b2, b);
  }

  lemma WordIs(s: seq<bv8>, i: nat)
    requires i < |s| / 4
    ensures Words(s)[i] == WordAt(s, i)
  {
    hide Word;
  }

  /** Xoring a byte into its place in the words, where there was a zero byte, is storing it among the bytes. */
  lemma PutIsStore(s: seq<bv8>, k: nat, b: bv8)
    requires |s| == BLOCK && k < BLOCK && s[k] == 0
    ensures Words(s)[k / 4 := PutAt(Words(s)[k / 4], b, k % 4)] == Words(s[k := b])
  {
    hide Word, PutAt, Words;
    var w, s' := k / 4, s[k := b];
    forall i | 0 <= i < 16 ensures Words(s')[i] == if i == w then PutAt(Words(s)[w], b, k % 4) else Words(s)[i] {
      WordIs(s, i);
      WordIs(s', i);
      if i == w {
        PutIntoZero(s[4 * w], s[4 * w + 1], s[4 * w + 2], s[4 * w + 3], b);
      }
    }
  }

  /** The end mark: a one in the top bit of the byte behind the message. */
  lemma MarkIsByte(w: bv32, j: nat)
    requires j < 4
    ensures w ^ Up(0x80, j) == PutAt(w, 0x80, j)
  {
  }

  lemma Places(len: nat)
    ensures (len / 4) % 16 == len % BLOCK / 4 && len % 4 == len % BLOCK % 4
  {
  }

  // ---- The code

  method Clear(x: array<bv32>)
    requires x.Length == WORDS_PER_BLOCK
    modifies x
    ensures x[..] == Words(Zeros(BLOCK))
  {
    for i := 0 to WORDS_PER_BLOCK
      invariant forall k :: 0 <= k < i ==> x[k] == 0
    {
      x[i] := 0;
    }
    ZeroWords();
  }

  lemma ZeroWords()
    ensures Words(Zeros(BLOCK)) == seq(WORDS_PER_BLOCK, _ => 0)
  {
    ZeroWord();
  }

  lemma ZeroWord()
    ensures Word(0, 0, 0, 0) == 0
  {
  }

  /** The tail of the message and the end mark, byte by byte into a cleared block. */
  method LoadTail(x: array<bv32>, tail: seq<bv8>, len: nat)
    requires x.Length == WORDS_PER_BLOCK && |tail| == len % BLOCK
    modifies x
    ensures x[..] == Words(tail + [0x80] + Zeros(BLOCK - 1 - |tail|))
  {
    hide Words, PutAt, Up;
    Clear(x);
    var i := 0;
    assert tail[..0] + Zeros(BLOCK) == Zeros(BLOCK);
    while i < len % BLOCK
      invariant 0 <= i <= |tail| && x[..] == Words(tail[..i] + Zeros(BLOCK - i))
    {
      ghost var bytes := tail[..i] + Zeros(BLOCK - i);
      ghost var words := x[..];
      PutIsStore(bytes, i, tail[i]);
      x[i / 4] := PutAt(x[i / 4], tail[i], i % 4);
      assert x[..] == words[i / 4 := PutAt(words[i / 4], tail[i], i % 4)];
      assert bytes[i := tail[i]] == tail[..i + 1] + Zeros(BLOCK - i - 1);
      i := i + 1;
    }
    Places(len);
    ghost var bytes := tail[..i] + Zeros(BLOCK - i);
    ghost var words := x[..];
    PutIsStore(bytes, i, 0x80);
    MarkIsByte(x[i / 4], i % 4);
    x[(len / 4) % 16] := x[(len / 4) % 16] ^ Up(0x80, len % 4);
    assert x[..] == words[i / 4 := PutAt(words[i / 4], 0x80, i % 4)];
    assert bytes[i := 0x80] == tail + [0x80] + Zeros(BLOCK - 1 - |tail|);
  }

  lemma WordsAppend(a: seq<bv8>, b: seq<bv8>)
    requires |a| % 4 == 0
    ensures Words(a + b) == Words(a) + Words(b)
  {
    hide Word;
    forall i | 0 <= i < |a| / 4 ensures Words(a + b)[i] == Words(a)[i] {
    }
    forall i | |a| / 4 <= i < |a + b| / 4 ensures Words(a + b)[i] == Words(b)[i - |a| / 4] {
    }
  }

  lemma FoldOne(f: Compress, buffer: seq<bv32>, block: seq<bv32>, rest: seq<bv32>)
    requires |block| == WORDS_PER_BLOCK
    ensures Folded(f, buffer, block + rest) == Folded(f, f(buffer, block), rest)
  {
    assert (block + rest)[..WORDS_PER_BLOCK] == block && (block + rest)[WORDS_PER_BLOCK..] == rest;
  }

  lemma FoldLast(f: Compress, buffer: seq<bv32>, block: seq<bv32>)
    requires |block| == WORDS_PER_BLOCK
    ensures Folded(f, buffer, block) == f(buffer, block)
  {
    assert block + [] == block;
    FoldOne(f, buffer, block, []);
  }

  /** The words behind the whole blocks of a message of len bytes. */
  function Ending(tail: seq<bv8>, len: nat): seq<bv32> {
    Words(Extended(tail)) + Length(len)
  }

  /** A short tail leaves room for the length in its own block; a longer one puts it into a block of zeros. */
  lemma EndingBlocks(tail: seq<bv8>, len: nat)
    requires |tail| < BLOCK
    ensures var marked := Words(tail + [0x80] + Zeros(BLOCK - 1 - |tail|));
            Ending(tail, len) == if |tail| <= 55 then marked[..14] + Length(len)
                                 else marked + (Words(Zeros(BLOCK))[..14] + Length(len))
  {
    hide Words, Length;
    var bytes := tail + [0x80] + Zeros(BLOCK - 1 - |tail|);
    if |tail| <= 55 {
      assert bytes == Extended(tail) + Zeros(8);
      WordsAppend(Extended(tail), Zeros(8));
    } else {
      assert Extended(tail) == bytes + Zeros(56);
      WordsAppend(bytes, Zeros(56));
      assert Zeros(BLOCK) == Zeros(56) + Zeros(8);
      WordsAppend(Zeros(56), Zeros(8));
    }
  }

  /** The length words: a left shift by 3 and the top three bits of the low half, under a high half of zero. */
  method StoreLength(x: array<bv32>, lswlen: nat, mswlen: nat)
    requires x.Length == WORDS_PER_BLOCK && lswlen < TWO_32 && mswlen < TWO_32
    modifies x
    ensures x[..] == old(x[..14]) + Length(lswlen + TWO_32 * mswlen)
  {
    ShiftedLength(lswlen, mswlen);
    x[14] := Low32(8 * lswlen);
    x[15] := Low32(lswlen / 0x2000_0000 + 8 * mswlen);
  }

  lemma ShiftedLength(lsw: nat, msw: nat)
    requires lsw < TWO_32
    ensures var n := lsw + TWO_32 * msw;
            8 * n % TWO_32 == 8 * lsw % TWO_32 && 8 * n / TWO_32 == lsw / 0x2000_0000 + 8 * msw
  {
  }

  method MdFinish(f: Compress, buffer: seq<bv32>, tail: seq<bv8>, lswlen: nat, mswlen: nat) returns (r: seq<bv32>)
    requires lswlen < TWO_32 && mswlen < TWO_32 && |tail| == lswlen % BLOCK
    ensures r == Folded(f, buffer, Ending(tail, lswlen + TWO_32 * mswlen))
  {
    hide Words, Length, Folded;
    var x := new bv32[WORDS_PER_BLOCK];
    LoadTail(x, tail, lswlen);
    EndingBlocks(tail, lswlen + TWO_32 * mswlen);
    r := buffer;
    if lswlen % BLOCK > 55 {
      FoldOne(f, buffer, x[..], Words(Zeros(BLOCK))[..14] + Length(lswlen + TWO_32 * mswlen));
      r := f(r, x[..]);
      Clear(x);
    }
    ghost var front := x[..14];
    StoreLength(x, lswlen, mswlen);
    FoldLast(f, r, x[..]);
    r := f(r, x[..]);
  }

  /** One 64-byte chunk, word by word. */
  method LoadBlock(m: seq<bv8>, at: nat) returns (current: array<bv32>)
    requires at + BLOCK <= |m|
    ensures fresh(current) && current.Length == WORDS_PER_BLOCK && current[..] == Words(m[at..at + BLOCK])
  {
    hide Word;
    current := new bv32[WORDS_PER_BLOCK];
    for i := 0 to WORDS_PER_BLOCK
      invariant forall k :: 0 <= k < i ==> current[k] == WordAt(m[at..at + BLOCK], k)
    {
      var p := at + 4 * i;
      current[i] := Word(m[p], m[p + 1], m[p + 2], m[p + 3]);
    }
  }

  lemma NextBlock(m: seq<bv8>, at: nat, n: nat)
    requires at + BLOCK <= n <= |m|
    ensures Ending(m[at..n], n) == Words(m[at..at + BLOCK]) + Ending(m[at + BLOCK..n], n)
  {
    hide Words, Length;
    var rest := m[at + BLOCK..n];
    assert m[at..n] == m[at..at + BLOCK] + rest;
    assert Extended(m[at..n]) == m[at..at + BLOCK] + Extended(rest);
    WordsAppend(m[at..at + BLOCK], Extended(rest));
  }

  /** The bytes of a word, low-order byte first. */
  function BytesOf(w: bv32): (r: seq<bv8>)
    ensures |r| == 4
  {
    [(w & 0xff) as bv8, ((w >> 8) & 0xff) as bv8, ((w >> 16) & 0xff) as bv8, ((w >> 24) & 0xff) as bv8]
  }

  lemma WordOfBytes(w: bv32)
    ensures WordAt(BytesOf(w), 0) == w
  {
  }

  /** Sizes are counted in 32 bits: of a longer message only the first (size mod 2^32) bytes are hashed. */
  method Ripemd160(f: Compress, m: seq<bv8>) returns (hash: seq<bv8>)
    requires forall b, x :: |f(b, x)| == 5
    ensures |hash| == 20
    ensures Words(hash) == Folded(f, INITIAL, Framed(m[..|m| % 0x1_0000_0000]))
  {
    hide Words, Length, Folded, BytesOf, Extended;
    var size := |m| % TWO_32;
    var buffer := INITIAL;
    var message: nat, remaining: nat := 0, size;
    assert m[0..size] == m[..size];
    while remaining >= BLOCK
      invariant message + remaining == size && message % BLOCK == 0 && |buffer| == 5
      invariant Folded(f, INITIAL, Framed(m[..size])) == Folded(f, buffer, Ending(m[message..size], size))
    {
      var current := LoadBlock(m, message);
      NextBlock(m, message, size);
      FoldOne(f, buffer, current[..], Ending(m[message + BLOCK..size], size));
      buffer := f(buffer, current[..]);
      message, remaining := message + BLOCK, remaining - BLOCK;
    }
    Remainder(message, remaining, size);
    buffer := MdFinish(f, buffer, m[message..size], size, 0);
    LengthIs5(f, INITIAL, Framed(m[..size]));
    hash := [];
    NoWords();
    for i := 0 to 5
      invariant |hash| == 4 * i && Words(hash) == buffer[..i]
    {
      WordsAppend(hash, BytesOf(buffer[i]));
      OneWord(buffer[i]);
      hash := hash + BytesOf(buffer[i]);
    }
  }

  lemma Remainder(message: nat, remaining: nat, n: nat)
    requires message + remaining == n && message % BLOCK == 0 && remaining < BLOCK
    ensures remaining == n % BLOCK
  {
  }

  lemma NoWords()
    ensures Words([]) == []
  {
  }

  lemma OneWord(w: bv32)
    ensures Words(BytesOf(w)) == [w]
  {
    hide BytesOf;
    WordOfBytes(w);
  }

  lemma {:induction false} LengthIs5(f: Compress, buffer: seq<bv32>, words: seq<bv32>)
    requires |buffer| == 5 && forall b, x :: |f(b, x)| == 5
    ensures |Folded(f, buffer, words)| == 5
    decreases |words|
  {
    if |words| < WORDS_PER_BLOCK {
    } else {
      LengthIs5(f, f(buffer, words[..WORDS_PER_BLOCK]), words[WORDS_PER_BLOCK..]);
    }
  }

  // ---- The framing in bytes

  /** What a word's bytes are: the low-order one first. */
  lemma WordBytes(b0: bv8, b1: bv8, b2: bv8, b3: bv8)
    ensures var w := Word(b0, b1, b2, b3);
            && w & 0xff == b0 as bv32 && (w >> 8) & 0xff == b1 as bv32
            && (w >> 16) & 0xff == b2 as bv32 && (w >> 24) & 0xff == b3 as bv32
  {
  }

  /** Section 3.3: the buffer starts as the bytes 01 23 45 67, 89 ab cd ef and so on. */
  lemma InitialBytes()
    ensures INITIAL == Words([0x01, 0x23, 0x45, 0x67, 0x89, 0xab, 0xcd, 0xef, 0xfe, 0xdc, 0xba, 0x98,
                              0x76, 0x54, 0x32, 0x10, 0xf0, 0xe1, 0xd2, 0xc3])
  {
  }

  /** The number that eight bytes denote, the low-order one first. */
  function Number(d: seq<nat>): nat
    requires |d| == 8
  {
    d[0] + 0x100 * d[1] + 0x1_0000 * d[2] + 0x100_0000 * d[3]
    + 0x1_0000_0000 * (d[4] + 0x100 * d[5] + 0x1_0000 * d[6] + 0x100_0000 * d[7])
  }

  function AsBytes(d: seq<nat>): seq<bv8>
    requires forall i :: 0 <= i < |d| ==> d[i] < 256
  {
    seq(|d|, i requires 0 <= i < |d| => d[i] as bv8)
  }

  lemma FourOctets(u: nat)
    requires u < 0x1_0000_0000
    ensures u == u % 256 + 0x100 * (u / 0x100 % 256) + 0x1_0000 * (u / 0x1_0000 % 256)
                 + 0x100_0000 * (u / 0x100_0000 % 256)
  {
  }

  lemma TwoHalves(n: nat)
    ensures n % 0x1_0000_0000_0000_0000 == n % 0x1_0000_0000 + 0x1_0000_0000 * (n / 0x1_0000_0000 % 0x1_0000_0000)
  {
  }

  lemma WordsOfEight(b: seq<bv8>)
    requires |b| == 8
    ensures Words(b) == [Word(b[0], b[1], b[2], b[3]), Word(b[4], b[5], b[6], b[7])]
  {
    hide Word;
  }

  /** The bytes of the two length words. */
  lemma LengthBytes(bytes: nat) returns (d: seq<nat>)
    ensures |d| == 8 && (forall i :: 0 <= i < 8 ==> d[i] < 256) && Words(AsBytes(d)) == Length(bytes)
    ensures Number(d) == 8 * bytes % 0x1_0000_0000_0000_0000
  {
    hide Word, Words;
    var u, v := 8 * bytes % TWO_32, 8 * bytes / TWO_32 % TWO_32;
    d := [u % 256, u / 0x100 % 256, u / 0x1_0000 % 256, u / 0x100_0000 % 256,
          v % 256, v / 0x100 % 256, v / 0x1_0000 % 256, v / 0x100_0000 % 256];
    FourOctets(u);
    FourOctets(v);
    TwoHalves(8 * bytes);
    WordsOfEight(AsBytes(d));
  }

  /** The framed message is the words of the message, the byte 80, zeros up to 56 modulo 64 bytes, and eight bytes that
      denote the length in bits modulo 2^64, the low-order one first. */
  lemma FramedIsPadded(m: seq<bv8>) returns (zeros: nat, length: seq<nat>)
    ensures zeros < 64 && (|m| + 1 + zeros) % 64 == 56
    ensures |length| == 8 && (forall i :: 0 <= i < 8 ==> length[i] < 256)
    ensures Number(length) == 8 * |m| % 0x1_0000_0000_0000_0000
    ensures Framed(m) == Words(m + [0x80] + seq(zeros, _ => 0) + AsBytes(length))
  {
    hide Words, Length, Number, AsBytes;
    zeros := (55 - |m|) % BLOCK;
    length := LengthBytes(|m|);
    assert Extended(m) == m + [0x80] + seq(zeros, _ => 0);
    ExtendedSize(|m|);
    WordsAppend(Extended(m), AsBytes(length));
  }

  /** The blocks that are hashed are those of the padded message exactly if the message is shorter than 2^32 bytes. */
  lemma FramedIfShort(m: seq<bv8>)
    ensures Framed(m[..|m| % 0x1_0000_0000]) == Framed(m) <==> |m| < 0x1_0000_0000
  {
    hide Words, Length;
    if |m| < TWO_32 {
      assert m[..|m| % TWO_32] == m;
    } else {
      FramedSize(m[..|m| % TWO_32]);
      FramedSize(m);
    }
  }

  lemma FramedSize(m: seq<bv8>)
    ensures 4 * |Framed(m)| == |m| + 1 + (55 - |m|) % BLOCK + 8
  {
    hide Words;
    ExtendedSize(|m|);
  }

  /** Nothing is left over behind the last whole block. */
  lemma FramedIsWhole(m: seq<bv8>)
    ensures |Framed(m)| % WORDS_PER_BLOCK == 0
  {
    hide Words;
    FramedSize(m);
    Quarter(|Extended(m)|, |Framed(m)|);
  }

  lemma Quarter(bytes: nat, words: nat)
    requires bytes % BLOCK == 56 && 4 * words == bytes + 8
    ensures words % WORDS_PER_BLOCK == 0
  {
  }

  lemma ExtendedSize(n: nat)
    ensures (n + 1 + (55 - n) % BLOCK) % 4 == 0
  {
  }
}
