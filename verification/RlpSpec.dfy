/** Recursive Length Prefix, as Appendix B of the Ethereum Yellow Paper defines it:
    the trees, and the partial function from trees to byte strings. */
module RlpSpec {
  import opened Wrappers
  import opened BigEndian

  const MAX_LENGTH_BYTES := 8
  const DATA_IMM_LEN_START := 0x80
  const LIST_START := 0xc0
  const DATA_IMM_LEN_COUNT := LIST_START - DATA_IMM_LEN_START - MAX_LENGTH_BYTES
  const DATA_IND_LEN_ZERO := DATA_IMM_LEN_START + DATA_IMM_LEN_COUNT - 1
  const LIST_IMM_LEN_COUNT := 256 - LIST_START - MAX_LENGTH_BYTES
  const LIST_IND_LEN_ZERO := LIST_START + LIST_IMM_LEN_COUNT - 1

  /** Sizes are below this: size_t has 64 bits. */
  const SIZE_LIMIT := 0x1_0000_0000_0000_0000

  datatype Item = Str(data: seq<byte>) | List(items: seq<Item>)

  /** The two families of prefixes. */
  datatype Kind = DataKind | ListKind {
    function Start(): byte {
      if DataKind? then DATA_IMM_LEN_START else LIST_START
    }

    function IndZero(): byte {
      if DataKind? then DATA_IND_LEN_ZERO else LIST_IND_LEN_ZERO
    }
  }

  /** The prefix of a payload of the given length; none from 2^64 bytes on. */
  function Header(kind: Kind, length: nat): (h: Option<seq<byte>>)
    ensures h.Some? <==> |Compact(length)| <= MAX_LENGTH_BYTES
    ensures h.Some? ==> 1 <= |h.value| <= 9
  {
    assert length < 56 ==> |Compact(length)| <= 1 by { CompactLength(length, 1); assert Pow256(1) == 256 * Pow256(0); }
    if length < 56 then
      Some([kind.Start() + length])
    else if |Compact(length)| <= MAX_LENGTH_BYTES then
      Some([kind.IndZero() + |Compact(length)|] + Compact(length))
    else
      None
  }

  function EncodeData(s: seq<byte>): Option<seq<byte>> {
    if |s| == 1 && s[0] < DATA_IMM_LEN_START then
      Some(s)
    else
      var h := Header(DataKind, |s|);
      if h.None? then None else Some(h.value + s)
  }

  /** A list from its already encoded contents. */
  function WrapList(payload: seq<byte>): Option<seq<byte>> {
    var h := Header(ListKind, |payload|);
    if h.None? then None else Some(h.value + payload)
  }

  function Encode(t: Item): Option<seq<byte>>
    decreases t, 0
  {
    match t
    case Str(s) => EncodeData(s)
    case List(ts) =>
      var p := EncodeAll(ts);
      if p.None? then None else WrapList(p.value)
  }

  /** The encodings of several items, one after the other. */
  function EncodeAll(ts: seq<Item>): Option<seq<byte>>
    decreases ts, 1
  {
    if ts == [] then
      Some([])
    else
      var e, p := Encode(ts[0]), EncodeAll(ts[1..]);
      if e.None? || p.None? then None else Some(e.value + p.value)
  }

  lemma EncodeOne(t: Item)
    ensures EncodeAll([t]) == Encode(t)
  {
    assert [t][1..] == [];
    if Encode(t).Some? {
      assert Encode(t).value + [] == Encode(t).value;
    }
  }

  lemma {:induction false} EncodeAppend(a: seq<Item>, b: seq<Item>)
    ensures EncodeAll(a + b) ==
            if EncodeAll(a).Some? && EncodeAll(b).Some? then Some(EncodeAll(a).value + EncodeAll(b).value) else None
  {
    if a == [] {
      assert a + b == b;
      if EncodeAll(b).Some? {
        assert [] + EncodeAll(b).value == EncodeAll(b).value;
      }
    } else {
      EncodeAppend(a[1..], b);
      assert (a + b)[0] == a[0] && (a + b)[1..] == a[1..] + b;
      if EncodeAll(a).Some? && EncodeAll(b).Some? {
        assert EncodeAll(a).value + EncodeAll(b).value
            == Encode(a[0]).value + (EncodeAll(a[1..]).value + EncodeAll(b).value);
      }
    }
  }
  // ---- Appendix B in numbers

  lemma EightBytes(n: nat)
    ensures |Compact(n)| <= 8 <==> n < 0x1_0000_0000_0000_0000
  {
    CompactLength(n, 8);
    assert Pow256(8) == 0x1_0000_0000_0000_0000 by {
      assert Pow256(4) == 0x1_0000_0000;
    }
  }

  /** R_b: a single byte below 128 is its own encoding; up to 55 bytes stand behind 128 plus their number, more behind
      183 plus the number of bytes of their number, and that number. */
  lemma EncodedString(s: seq<byte>)
    ensures EncodeData(s)
         == if |s| == 1 && s[0] < 128 then Some(s)
            else if |s| < 56 then Some([128 + |s|] + s)
            else if |s| < 0x1_0000_0000_0000_0000 && |Compact(|s|)| <= 8 then
              Some([183 + |Compact(|s|)|] + Compact(|s|) + s)
            else None
    ensures |Compact(|s|)| <= 8 <==> |s| < 0x1_0000_0000_0000_0000
  {
    hide Compact;
    EightBytes(|s|);
  }

  /** R_l: the same for the encoded items of a list, behind 192 and 247. */
  lemma EncodedList(items: seq<Item>)
    ensures EncodeAll(items).None? ==> Encode(List(items)) == None
    ensures EncodeAll(items).Some? ==>
              var p := EncodeAll(items).value;
              && (|Compact(|p|)| <= 8 <==> |p| < 0x1_0000_0000_0000_0000)
              && Encode(List(items))
              == if |p| < 56 then Some([192 + |p|] + p)
                 else if |p| < 0x1_0000_0000_0000_0000 && |Compact(|p|)| <= 8 then
                   Some([247 + |Compact(|p|)|] + Compact(|p|) + p)
                 else None
  {
    hide Compact;
    if EncodeAll(items).Some? {
      EightBytes(|EncodeAll(items).value|);
    }
  }
}
