/** The strict reader: sizes and payloads read from prefixes, and whole trees read from byte strings. */
module RlpParse {
  import opened Wrappers
  import opened BigEndian
  import opened RlpSpec

  datatype ParseError = BadRLP | UndersizeRLP | OversizeRLP | BadCast

  /** Lengths from here on are refused, so that a prefix size can be added without overflow. */
  const LENGTH_LIMIT := 0xffff_ffff_ffff_ffff - 0x100

  function LengthSize(b: seq<byte>): nat
    requires b != []
  {
    if DATA_IND_LEN_ZERO < b[0] < LIST_START then b[0] - DATA_IND_LEN_ZERO
    else if b[0] > LIST_IND_LEN_ZERO then b[0] - LIST_IND_LEN_ZERO
    else 0
  }

  /** How many bytes into the data the payload starts. */
  function PayloadOffset(b: seq<byte>): nat
    requires b != []
  {
    if b[0] < DATA_IMM_LEN_START then 0 else 1 + LengthSize(b)
  }

  /** A length given by its own bytes: all there, no leading zero, not small enough for the short form. */
  function LongLength(b: seq<byte>): Result<nat, ParseError>
    requires b != [] && LengthSize(b) > 0
  {
    if |b| <= LengthSize(b) || b[1] == 0 then
      Err(BadRLP)
    else
      var v := Value(b[1..1 + LengthSize(b)]);
      if v < DATA_IMM_LEN_COUNT then Err(BadRLP)
      else if v >= LENGTH_LIMIT then Err(UndersizeRLP)
      else Ok(v)
  }

  /** No single byte below 0x80 behind a prefix of its own. */
  predicate IsGood(b: seq<byte>) {
    b != [] && (b[0] == DATA_IMM_LEN_START + 1 ==> |b| >= 2 && b[1] >= DATA_IMM_LEN_START)
  }

  function Length(b: seq<byte>): Result<nat, ParseError> {
    if b == [] then Ok(0)
    else if !IsGood(b) then Err(BadRLP)
    else if b[0] < DATA_IMM_LEN_START then Ok(1)
    else if LengthSize(b) > 0 then LongLength(b)
    else if b[0] < LIST_START then Ok(b[0] - DATA_IMM_LEN_START)
    else Ok(b[0] - LIST_START)
  }

  function ActualSize(b: seq<byte>): Result<nat, ParseError> {
    if b == [] then Ok(0)
    else if b[0] < DATA_IMM_LEN_START then Ok(1)
    else
      var l := Length(b);
      if l.Err? then l else Ok(PayloadOffset(b) + l.value)
  }

  /** The size of the item at the front of b, which must be there completely. */
  function SizeAsEncoded(b: seq<byte>): (r: Result<nat, ParseError>)
    ensures r.Ok? && b != [] ==> 1 <= r.value <= |b|
    ensures b == [] ==> r == Ok(0)
  {
    var a := ActualSize(b);
    if a.Err? then a else if a.value > |b| then Err(UndersizeRLP) else a
  }

  /** The checks of the constructor in its strictest and default mode. */
  function CheckExact(b: seq<byte>): Result<(), ParseError> {
    var a := ActualSize(b);
    if a.Err? then Err(a.error)
    else if a.value < |b| then Err(OversizeRLP)
    else if a.value > |b| then Err(UndersizeRLP)
    else Ok(())
  }

  /** An out-of-range crop is the empty view, as for vector_ref. */
  function Payload(b: seq<byte>): Result<seq<byte>, ParseError> {
    var l := Length(b);
    if l.Err? then Err(l.error)
    else if l.value > |b| then Err(BadRLP)
    else if b == [] || PayloadOffset(b) + l.value > |b| then Ok([])
    else Ok(b[PayloadOffset(b)..PayloadOffset(b) + l.value])
  }

  /** The tree in b, read strictly at every level. */
  function Decode(b: seq<byte>): Result<Item, ParseError>
    decreases |b|, 0
  {
    var c := CheckExact(b);
    if c.Err? then Err(c.error)
    else if b == [] then Err(BadCast)
    else if b[0] < LIST_START then
      var p := Payload(b);
      if p.Err? then Err(p.error) else Ok(Str(p.value))
    else
      var p := Payload(b);
      if p.Err? then Err(p.error)
      else
        var ts := DecodeAll(p.value);
        if ts.Err? then Err(ts.error) else Ok(List(ts.value))
  }

  /** The items of a payload, one after the other to its end. */
  function DecodeAll(p: seq<byte>): Result<seq<Item>, ParseError>
    decreases |p|, 1
  {
    if p == [] then Ok([])
    else
      var s := SizeAsEncoded(p);
      if s.Err? then Err(s.error)
      else
        var t := Decode(p[..s.value]);
        if t.Err? then Err(t.error)
        else
          var ts := DecodeAll(p[s.value..]);
          if ts.Err? then ts else Ok([t.value] + ts.value)
  }

  /** Every payload of the tree is shorter than 2^64 - 257 bytes, the reader's limit. */
  ghost predicate WithinLimit(t: Item)
    decreases t, 0
  {
    match t
    case Str(s) => |s| < 0xffff_ffff_ffff_feff
    case List(ts) => AllWithinLimit(ts) && EncodeAll(ts).Some? && |EncodeAll(ts).value| < 0xffff_ffff_ffff_feff
  }

  ghost predicate AllWithinLimit(ts: seq<Item>)
    decreases ts, 1
  {
    ts == [] || (WithinLimit(ts[0]) && AllWithinLimit(ts[1..]))
  }

  // ---- Headers

  /** The bytes b start with a header of this kind and length. */
  ghost predicate HasHeader(b: seq<byte>, kind: Kind, n: nat) {
    && Header(kind, n).Some?
    && Header(kind, n).value <= b
  }

  lemma LimitFits(n: nat)
    requires n < LENGTH_LIMIT
    ensures |Compact(n)| <= MAX_LENGTH_BYTES
  {
    CompactLength(n, 8);
    assert Pow256(8) > LENGTH_LIMIT by {
      assert Pow256(4) == 0x1_0000_0000;
    }
  }

  /** Reading a header back, whatever follows it. */
  lemma ReadHeader(b: seq<byte>, kind: Kind, n: nat)
    requires HasHeader(b, kind, n) && n < LENGTH_LIMIT
    requires kind == DataKind && n == 1 ==> |b| >= 2 && b[1] >= DATA_IMM_LEN_START
    ensures Length(b) == Ok(n) && PayloadOffset(b) == |Header(kind, n).value|
    ensures ActualSize(b) == Ok(|Header(kind, n).value| + n)
    ensures b[0] < LIST_START <==> kind == DataKind
    ensures b[0] >= DATA_IMM_LEN_START
  {
    var h := Header(kind, n).value;
    assert b[..|h|] == h;
    assert b[0] == h[0];
    if n >= 56 {
      ValueOfCompact(n);
      CompactLength(n, 0);
      assert b[1..|h|] == h[1..] == Compact(n);
      assert LengthSize(b) == |Compact(n)|;
      assert b[1] == Compact(n)[0];
    }
  }

  /** Whatever the strict reader takes for a prefixed item does start with the canonical header. */
  lemma WriteHeader(b: seq<byte>)
    requires b != [] && b[0] >= DATA_IMM_LEN_START && Length(b).Ok?
    ensures var n := Length(b).value;
            var kind := if b[0] < LIST_START then DataKind else ListKind;
            && n < LENGTH_LIMIT
            && HasHeader(b, kind, n) && |Header(kind, n).value| == PayloadOffset(b)
            && (kind == DataKind && n == 1 ==> |b| >= 2 && b[1] >= DATA_IMM_LEN_START)
  {
    var n := Length(b).value;
    var kind := if b[0] < LIST_START then DataKind else ListKind;
    if LengthSize(b) > 0 {
      var l := b[1..1 + LengthSize(b)];
      CompactOfValue(l);
      LimitFits(n);
      assert b[0] == kind.IndZero() + |l|;
      assert b[..1 + |l|] == [b[0]] + l;
    } else {
      assert b[..1] == [kind.Start() + n];
    }
  }

  // ---- Reading what was written

  lemma ReadPrefixed(b: seq<byte>, kind: Kind, p: seq<byte>)
    requires Header(kind, |p|).Some? && b == Header(kind, |p|).value + p && |p| < LENGTH_LIMIT
    requires !(kind == DataKind && |p| == 1 && p[0] < DATA_IMM_LEN_START)
    ensures b != [] && b[0] >= DATA_IMM_LEN_START && (b[0] < LIST_START <==> kind == DataKind)
    ensures CheckExact(b).Ok? && Payload(b) == Ok(p)
    ensures forall rest :: ActualSize(b + rest) == Ok(|b|)
  {
    var h := Header(kind, |p|).value;
    forall rest
      ensures ActualSize(b + rest) == Ok(|b|)
    {
      assert h <= b + rest;
      assert |p| == 1 ==> (b + rest)[1] == p[0];
      ReadHeader(b + rest, kind, |p|);
    }
    assert |p| == 1 ==> b[1] == p[0];
    ReadHeader(b, kind, |p|);
    assert b[|h|..|h| + |p|] == p;
  }

  lemma {:induction false} DecodeEncoded(t: Item)
    requires WithinLimit(t) && Encode(t).Some?
    ensures Decode(Encode(t).value) == Ok(t)
    ensures forall rest :: ActualSize(Encode(t).value + rest) == Ok(|Encode(t).value|)
    ensures Encode(t).value != []
    decreases t, 0
  {
    var b := Encode(t).value;
    var kind := if t.Str? then DataKind else ListKind;
    var p := if t.Str? then t.data else EncodeAll(t.items).value;
    if kind == DataKind && |p| == 1 && p[0] < DATA_IMM_LEN_START {
      assert b == p == p[0..1];
    } else {
      ReadPrefixed(b, kind, p);
      if t.List? {
        DecodeAllEncoded(t.items);
      }
    }
  }

  lemma {:induction false} DecodeAllEncoded(ts: seq<Item>)
    requires AllWithinLimit(ts) && EncodeAll(ts).Some?
    ensures DecodeAll(EncodeAll(ts).value) == Ok(ts)
    decreases ts, 1
  {
    if ts == [] {
    } else {
      var e, p := Encode(ts[0]).value, EncodeAll(ts[1..]).value;
      var b := EncodeAll(ts).value;
      DecodeEncoded(ts[0]);
      DecodeAllEncoded(ts[1..]);
      assert b == e + p;
      assert ActualSize(e + p) == Ok(|e|);
      assert b[..|e|] == e && b[|e|..] == p;
      assert [ts[0]] + ts[1..] == ts;
    }
  }

  // ---- Writing what was read

  lemma {:induction false} EncodeDecoded(b: seq<byte>)
    requires Decode(b).Ok?
    ensures Encode(Decode(b).value) == Some(b) && WithinLimit(Decode(b).value)
    decreases |b|, 0
  {
    if b[0] < DATA_IMM_LEN_START {
      assert |b| == 1 && b[0..1] == b;
    } else {
      WriteHeader(b);
      var p := Payload(b).value;
      var h := b[..PayloadOffset(b)];
      assert b == h + p;
      assert h == Header(if b[0] < LIST_START then DataKind else ListKind, |p|).value;
      if b[0] < LIST_START {
        assert |p| == 1 ==> p[0] == b[1];
      } else {
        EncodeDecodedAll(p);
      }
    }
  }

  lemma {:induction false} EncodeDecodedAll(p: seq<byte>)
    requires DecodeAll(p).Ok?
    ensures EncodeAll(DecodeAll(p).value) == Some(p) && AllWithinLimit(DecodeAll(p).value)
    decreases |p|, 1
  {
    hide SizeAsEncoded, Decode, Encode, WithinLimit;
    if p == [] {
    } else {
      var s := SizeAsEncoded(p).value;
      var t, rest := Decode(p[..s]).value, DecodeAll(p[s..]).value;
      var ts := DecodeAll(p).value;
      assert ts == [t] + rest;
      assert ts[0] == t && ts[1..] == rest;
      EncodeDecoded(p[..s]);
      EncodeDecodedAll(p[s..]);
      assert EncodeAll(ts) == Some(p[..s] + p[s..]);
      assert p == p[..s] + p[s..];
    }
  }

  /** The reader accepts exactly the encodings of trees within its limit, and reads back the tree. */
  lemma DecodeInvertsEncode(b: seq<byte>, t: Item)
    ensures Decode(b) == Ok(t) <==> Encode(t) == Some(b) && WithinLimit(t)
  {
    if Decode(b) == Ok(t) {
      EncodeDecoded(b);
    }
    if Encode(t) == Some(b) && WithinLimit(t) {
      DecodeEncoded(t);
    }
  }

  /** The trees that can be written but not read back: a payload in the last 257 lengths below 2^64. */
  lemma UnreadableExactlyAtTheLimit(t: Item)
    requires Encode(t).Some?
    ensures Decode(Encode(t).value).Ok? <==> WithinLimit(t)
  {
    var b := Encode(t).value;
    if Decode(b).Ok? {
      EncodeDecoded(b);
      OneTreePerEncoding(t, Decode(b).value);
    }
    if WithinLimit(t) {
      DecodeEncoded(t);
    }
  }

  lemma {:induction false} ShortIsWithinLimit(t: Item)
    requires Encode(t).Some? && |Encode(t).value| < 0xffff_ffff_ffff_feff
    ensures WithinLimit(t)
    decreases t, 0
  {
    if t.Str? {
    } else {
      ShortAreWithinLimit(t.items);
    }
  }

  lemma {:induction false} ShortAreWithinLimit(ts: seq<Item>)
    requires EncodeAll(ts).Some? && |EncodeAll(ts).value| < 0xffff_ffff_ffff_feff
    ensures AllWithinLimit(ts)
    decreases ts, 1
  {
    if ts == [] {
    } else {
      ShortIsWithinLimit(ts[0]);
      ShortAreWithinLimit(ts[1..]);
    }
  }

  /** Every tree whose encoding is shorter than 2^64 - 257 bytes is read back. */
  lemma ShortEncodingsAreRead(t: Item, b: seq<byte>)
    requires Encode(t) == Some(b) && |b| < 0xffff_ffff_ffff_feff
    ensures Decode(b) == Ok(t)
  {
    hide Encode, Decode, WithinLimit;
    ShortIsWithinLimit(t);
    DecodeEncoded(t);
  }

  // ---- Which prefixes are refused

  /** Prefixed data: n is the length that its canonical header announces; a single byte below 128 needs no header. */
  ghost predicate Announces(b: seq<byte>, n: nat) {
    && b != [] && b[0] >= 128
    && HasHeader(b, if b[0] < 192 then DataKind else ListKind, n)
    && (b[0] < 192 && n == 1 ==> |b| >= 2 && b[1] >= 128)
  }

  /** A length is read exactly from a canonical header that announces less than 2^64 - 257 bytes; from there on it is
      refused for its size, and everything else that is prefixed is malformed. */
  lemma LengthIs(b: seq<byte>, n: nat)
    requires b != [] && b[0] >= 128
    ensures Length(b) == Ok(n) <==> Announces(b, n) && n < 0xffff_ffff_ffff_feff
    ensures Announces(b, n) && n >= 0xffff_ffff_ffff_feff ==> Length(b) == Err(UndersizeRLP)
    ensures Length(b) == Err(UndersizeRLP) ==> exists m: nat :: Announces(b, m) && m >= 0xffff_ffff_ffff_feff
    ensures Length(b).Ok? || Length(b) == Err(UndersizeRLP) || Length(b) == Err(BadRLP)
  {
    if Length(b).Ok? {
      WriteHeader(b);
    }
    if Announces(b, n) {
      if n < 0xffff_ffff_ffff_feff {
        ReadHeader(b, if b[0] < 192 then DataKind else ListKind, n);
      } else {
        TooLong(b, n);
      }
    }
    if Length(b) == Err(UndersizeRLP) {
      var m := TooLongIs(b);
    }
  }

  lemma TooLong(b: seq<byte>, n: nat)
    requires Announces(b, n) && n >= 0xffff_ffff_ffff_feff
    ensures Length(b) == Err(UndersizeRLP)
  {
    var h := Header(if b[0] < 192 then DataKind else ListKind, n).value;
    assert b[..|h|] == h && b[0] == h[0];
    ValueOfCompact(n);
    CompactLength(n, 0);
    assert b[1..|h|] == h[1..] == Compact(n);
    assert LengthSize(b) == |Compact(n)|;
    assert b[1] == Compact(n)[0];
  }

  lemma TooLongIs(b: seq<byte>) returns (n: nat)
    requires b != [] && b[0] >= 128 && Length(b) == Err(UndersizeRLP)
    ensures Announces(b, n) && n >= 0xffff_ffff_ffff_feff
  {
    var l := b[1..1 + LengthSize(b)];
    n := Value(l);
    CompactOfValue(l);
    assert b[..1 + |l|] == [b[0]] + l;
  }

  /** The checks of the constructor compare what the header announces with what is there. */
  lemma CheckIs(b: seq<byte>, n: nat)
    requires Announces(b, n) && n < 0xffff_ffff_ffff_feff
    ensures var size := |Header(if b[0] < 192 then DataKind else ListKind, n).value| + n;
            && CheckExact(b) == (if |b| < size then Err(UndersizeRLP)
                                 else if |b| > size then Err(OversizeRLP)
                                 else Ok(()))
            && SizeAsEncoded(b) == (if |b| < size then Err(UndersizeRLP) else Ok(size))
  {
    ReadHeader(b, if b[0] < 192 then DataKind else ListKind, n);
  }

  // ---- Encodings as a code

  /** The header that an encoding starts with, limit or no limit; a byte below 0x80 has none. */
  ghost predicate StartsLike(b: seq<byte>, kind: Kind, n: nat, size: nat) {
    || (b != [] && b[0] < DATA_IMM_LEN_START && kind == DataKind && n == 1 && size == 1)
    || (HasHeader(b, kind, n) && size == |Header(kind, n).value| + n)
  }

  lemma SameHeader(b: seq<byte>, k1: Kind, n1: nat, k2: Kind, n2: nat)
    requires HasHeader(b, k1, n1) && HasHeader(b, k2, n2)
    ensures k1 == k2 && n1 == n2
  {
    var h1, h2 := Header(k1, n1).value, Header(k2, n2).value;
    assert h1[0] == b[0] == h2[0];
    CompactLength(n1, 0);
    CompactLength(n2, 0);
    assert |h1| == |h2|;
    assert h1 == b[..|h1|] == h2;
    if n1 >= 56 {
      assert Compact(n1) == h1[1..] == h2[1..] == Compact(n2);
      ValueOfCompact(n1);
      ValueOfCompact(n2);
    }
  }

  lemma HeaderFirst(b: seq<byte>, kind: Kind, n: nat)
    ensures HasHeader(b, kind, n) ==> b[0] >= DATA_IMM_LEN_START
  {
    if HasHeader(b, kind, n) {
      assert b[0] == Header(kind, n).value[0];
    }
  }

  lemma SameStart(a: seq<byte>, b: seq<byte>, k1: Kind, n1: nat, s1: nat, k2: Kind, n2: nat, s2: nat)
    requires a <= b && StartsLike(a, k1, n1, s1) && StartsLike(b, k2, n2, s2)
    ensures k1 == k2 && n1 == n2 && s1 == s2
  {
    assert a[0] == b[0];
    HeaderFirst(a, k1, n1);
    HeaderFirst(b, k2, n2);
    if a[0] >= DATA_IMM_LEN_START {
      assert Header(k1, n1).value <= b;
      SameHeader(b, k1, n1, k2, n2);
    }
  }

  lemma EncodingStarts(t: Item)
    requires Encode(t).Some?
    ensures var kind := if t.Str? then DataKind else ListKind;
            var n := if t.Str? then |t.data| else |EncodeAll(t.items).value|;
            StartsLike(Encode(t).value, kind, n, |Encode(t).value|)
    ensures Encode(t).value != []
  {
  }

  /** No encoding is the beginning of another. */
  lemma PrefixFree(t: Item, u: Item)
    requires Encode(t).Some? && Encode(u).Some? && Encode(t).value <= Encode(u).value
    ensures Encode(t) == Encode(u)
  {
    var a, b := Encode(t).value, Encode(u).value;
    EncodingStarts(t);
    EncodingStarts(u);
    SameStart(a, b,
              if t.Str? then DataKind else ListKind, if t.Str? then |t.data| else |EncodeAll(t.items).value|, |a|,
              if u.Str? then DataKind else ListKind, if u.Str? then |u.data| else |EncodeAll(u.items).value|, |b|);
    assert a == b[..|a|] == b;
  }

  lemma {:induction false} OneTreePerEncoding(t: Item, u: Item)
    requires Encode(t).Some? && Encode(t) == Encode(u)
    ensures t == u
    decreases t, 0
  {
    var b := Encode(t).value;
    EncodingStarts(t);
    EncodingStarts(u);
    var k1, n1 := if t.Str? then DataKind else ListKind, if t.Str? then |t.data| else |EncodeAll(t.items).value|;
    var k2, n2 := if u.Str? then DataKind else ListKind, if u.Str? then |u.data| else |EncodeAll(u.items).value|;
    SameStart(b, b, k1, n1, |b|, k2, n2, |b|);
    var p1 := if t.Str? then t.data else EncodeAll(t.items).value;
    var p2 := if u.Str? then u.data else EncodeAll(u.items).value;
    assert p1 == b[|b| - n1..] == p2;
    if t.List? {
      OneListPerEncoding(t.items, u.items);
    }
  }

  lemma {:induction false} OneListPerEncoding(ts: seq<Item>, us: seq<Item>)
    requires EncodeAll(ts).Some? && EncodeAll(ts) == EncodeAll(us)
    ensures ts == us
    decreases ts, 1
  {
    if ts != [] && us != [] {
      var b := EncodeAll(ts).value;
      var x, y := Encode(ts[0]).value, Encode(us[0]).value;
      assert x == b[..|x|] && y == b[..|y|];
      if |x| <= |y| {
        assert x == y[..|x|];
        PrefixFree(ts[0], us[0]);
      } else {
        assert y == x[..|y|];
        PrefixFree(us[0], ts[0]);
      }
      OneTreePerEncoding(ts[0], us[0]);
      assert EncodeAll(ts[1..]).value == b[|x|..] == EncodeAll(us[1..]).value;
      OneListPerEncoding(ts[1..], us[1..]);
      assert ts == [ts[0]] + ts[1..] && us == [us[0]] + us[1..];
    } else if ts != [] {
      EncodingStarts(ts[0]);
    } else if us != [] {
      EncodingStarts(us[0]);
    }
  }
}
