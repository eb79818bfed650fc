/** Integers and fixed-size hashes read from RLP data. */
module RlpInt {
  import opened Wrappers
  import opened BigEndian
  import opened RlpSpec
  import opened RlpParse
  import opened FixedHash

  /** Integer data: no leading zero byte. */
  function IsInt(b: seq<byte>): Result<bool, ParseError> {
    if b == [] then Ok(false)
    else if !IsGood(b) then Err(BadRLP)
    else if b[0] < DATA_IMM_LEN_START then Ok(b[0] != 0)
    else if b[0] == DATA_IMM_LEN_START then Ok(true)
    else if b[0] < LIST_START then
      var first := if b[0] <= DATA_IND_LEN_ZERO then 1 else 1 + b[0] - DATA_IND_LEN_ZERO;
      if |b| <= first then Err(BadRLP) else Ok(b[first] != 0)
    else Ok(false)
  }

  datatype Flags = Flags(allowNonCanon: bool, throwOnFail: bool, failIfTooBig: bool, failIfTooSmall: bool)

  const STRICT := Flags(false, true, true, false)

  /** What a conversion gives when it does not throw. */
  function Fail<T>(flags: Flags, zero: T): Result<T, ParseError> {
    if flags.throwOnFail then Err(BadCast) else Ok(zero)
  }

  /** Unsigned types of a fixed number of bytes, which wrap around, and bigint, which does not. */
  datatype IntType = Unsigned(size: nat) | BigInt

  function MaxSize(t: IntType): nat {
    if t.Unsigned? then t.size else 0xffff_ffff
  }

  function Cast(t: IntType, v: nat): nat {
    if t.Unsigned? then v % Pow256(t.size) else v
  }

  /** toInt, for any flags. */
  function ToInt(b: seq<byte>, t: IntType, flags: Flags): Result<nat, ParseError> {
    if !IsGood(b) then Err(BadRLP)
    else
      var i := IsInt(b);
      if i.Err? then Err(i.error)
      else if (!i.value && !flags.allowNonCanon) || b[0] >= LIST_START then Fail(flags, 0)
      else
        var p := Payload(b);
        if p.Err? then Err(p.error)
        else if |p.value| > MaxSize(t) && flags.failIfTooBig then Fail(flags, 0)
        else Ok(Cast(t, Value(p.value)))
  }

  /** toHash, for any flags: the payload, or its first n bytes, right-aligned. */
  function ToHash(b: seq<byte>, n: nat, flags: Flags): Result<seq<byte>, ParseError> {
    if !IsGood(b) then Err(BadRLP)
    else
      var p := Payload(b);
      if p.Err? then Err(p.error)
      else
        var l := |p.value|;
        if b[0] >= LIST_START || (l > n && flags.failIfTooBig) || (l < n && flags.failIfTooSmall) then
          Fail(flags, Zeros(n))
        else
          var s := if l < n then l else n;
          Ok(Zeros(n - s) + p.value[..s])
  }

  /** What a strict data node holds. */
  lemma StrictData(b: seq<byte>)
    requires CheckExact(b).Ok? && b != [] && b[0] < LIST_START
    ensures IsGood(b) && Payload(b).Ok?
    ensures Encode(Str(Payload(b).value)) == Some(b) && |Payload(b).value| < LENGTH_LIMIT
    ensures IsInt(b) == Ok(NoLeadingZero(Payload(b).value))
  {
    hide LongLength;
    assert Decode(b) == Ok(Str(Payload(b).value));
    DecodeInvertsEncode(b, Str(Payload(b).value));
    if b[0] >= DATA_IMM_LEN_START {
      var o := PayloadOffset(b);
      assert Payload(b).value == b[o..];
    } else {
      assert Payload(b).value == b[0..1];
    }
  }

  lemma CastSmall(t: IntType, v: nat)
    requires |Compact(v)| <= MaxSize(t)
    ensures Cast(t, v) == v
  {
    if t.Unsigned? {
      CompactLength(v, t.size);
      SmallMod(v, Pow256(t.size));
    }
  }

  /** The strict reader of integers accepts exactly the bytes that the writer makes of an integer that fits the type. */
  lemma IntegersSurvive(b: seq<byte>, v: nat, t: IntType)
    requires CheckExact(b).Ok? && b != []
    ensures ToInt(b, t, STRICT) == Ok(v) <==> EncodeData(Compact(v)) == Some(b) && |Compact(v)| <= MaxSize(t)
  {
    hide CheckExact, Payload, Length, EncodeData, Value, Compact, IsInt, Cast, MaxSize;
    ValueOfCompact(v);
    if b[0] < LIST_START {
      StrictData(b);
      var p := Payload(b).value;
      if NoLeadingZero(p) {
        CompactOfValue(p);
        if |p| <= MaxSize(t) {
          CastSmall(t, Value(p));
        }
      }
      if EncodeData(Compact(v)) == Some(b) {
        OneTreePerEncoding(Str(p), Str(Compact(v)));
      }
    } else {
      IntegersAreNotLists(b, Compact(v));
    }
  }

  lemma IntegersAreNotLists(b: seq<byte>, s: seq<byte>)
    requires b != [] && b[0] >= LIST_START
    ensures EncodeData(s) != Some(b) && (IsInt(b).Err? || IsInt(b) == Ok(false))
  {
    DataHeaderFirst(|s|);
  }

  lemma DataHeaderFirst(n: nat)
    ensures Header(DataKind, n).Some? ==> Header(DataKind, n).value[0] < LIST_START
  {
  }

  /** The bytes of a written string are a data node whose payload is the string, whatever follows them. */
  lemma WrittenString(s: seq<byte>, rest: seq<byte>)
    requires |s| < 0xffff_ffff_ffff_feff && EncodeData(s).Some?
    ensures var b := EncodeData(s).value + rest;
            && b != [] && b[0] < LIST_START && IsGood(b) && IsInt(b) == Ok(NoLeadingZero(s))
            && Payload(b) == Ok(s)
  {
    var e := EncodeData(s).value;
    var b := e + rest;
    if |s| == 1 && s[0] < DATA_IMM_LEN_START {
      assert b[0] == s[0] && b[0..1] == s;
    } else {
      var h := Header(DataKind, |s|).value;
      assert e == h + s && b == h + (s + rest);
      assert b[..|h|] == h && b[|h|..|h| + |s|] == s;
      assert |s| >= 1 ==> b[|h|] == s[0];
      ReadHeader(b, DataKind, |s|);
      HeaderPlace(b, s, h);
    }
  }

  lemma HeaderPlace(b: seq<byte>, s: seq<byte>, h: seq<byte>)
    requires |s| < 0xffff_ffff_ffff_feff && Header(DataKind, |s|) == Some(h) && h + s <= b && IsGood(b)
    requires !(|s| == 1 && s[0] < DATA_IMM_LEN_START)
    ensures IsInt(b) == Ok(NoLeadingZero(s))
  {
    assert b[0] == h[0] && (|s| > 0 ==> b[|h|] == s[0]);
    if |s| >= 56 {
      CompactLength(|s|, 0);
    }
  }

  lemma DecodedIsStrict(b: seq<byte>)
    requires Decode(b).Ok?
    ensures CheckExact(b).Ok? && b != [] && (Decode(b).value.Str? <==> b[0] < LIST_START)
  {
    hide CheckExact, Payload;
  }

  /** toHash of any written string, leading zeros or not, and whatever follows it in its buffer: the string, or its
      first n bytes, right-aligned in n bytes; refused only by its size, and then with an exception or with zeros. */
  lemma StringsAsHashes(s: seq<byte>, rest: seq<byte>, n: nat, flags: Flags)
    requires |s| < 0xffff_ffff_ffff_feff && EncodeData(s).Some?
    ensures ToHash(EncodeData(s).value + rest, n, flags)
         == if (|s| > n && flags.failIfTooBig) || (|s| < n && flags.failIfTooSmall) then
              if flags.throwOnFail then Err(BadCast) else Ok(Zeros(n))
            else if |s| <= n then Ok(Zeros(n - |s|) + s)
            else Ok(s[..n])
  {
    hide Payload, EncodeData, IsInt;
    WrittenString(s, rest);
    assert s[..|s|] == s;
    assert |s| > n ==> Zeros(0) + s[..n] == s[..n];
  }

  /** toInt of any written string: its number, wrapped around where the type is too small for it. Refused are leading
      zeros without AllowNonCanon and, with FailIfTooBig, more bytes than the type has; bigint has room for 2^32 - 1. */
  lemma StringsAsIntegers(s: seq<byte>, rest: seq<byte>, t: IntType, flags: Flags)
    requires |s| < 0xffff_ffff_ffff_feff && EncodeData(s).Some?
    ensures ToInt(EncodeData(s).value + rest, t, flags)
         == if (s != [] && s[0] == 0 && !flags.allowNonCanon)
                || (|s| > (if t.Unsigned? then t.size else 0xffff_ffff) && flags.failIfTooBig) then
              if flags.throwOnFail then Err(BadCast) else Ok(0)
            else if t.Unsigned? then Ok(Value(s) % Pow256(t.size))
            else Ok(Value(s))
  {
    hide Payload, EncodeData, IsInt, Value;
    WrittenString(s, rest);
  }

  /** A null node and a single byte below 128 behind a prefix throw whatever the flags; so does a hash of data without a
      readable length, and an integer of which not even the first byte is there. */
  lemma MalformedThrows(b: seq<byte>, t: IntType, n: nat, flags: Flags)
    ensures b == [] || (|b| >= 2 && b[0] == 0x81 && b[1] < 0x80) || b == [0x81] ==>
              ToInt(b, t, flags) == Err(BadRLP) && ToHash(b, n, flags) == Err(BadRLP)
    ensures b != [] && Length(b).Err? ==> ToHash(b, n, flags) == Err(Length(b).error)
    ensures b != [] && 0x80 < b[0] < 0xc0 && |b| <= (if b[0] <= 0xb7 then 1 else 1 + b[0] - 0xb7) ==>
              ToInt(b, t, flags) == Err(BadRLP)
  {
    hide LongLength;
  }

  /** Lists are neither. */
  lemma ListsAreRefused(b: seq<byte>, t: IntType, n: nat, flags: Flags)
    requires CheckExact(b).Ok? && b != [] && b[0] >= LIST_START
    ensures ToInt(b, t, flags) == (if flags.throwOnFail then Err(BadCast) else Ok(0))
    ensures ToHash(b, n, flags) == (if flags.throwOnFail then Err(BadCast) else Ok(Zeros(n)))
  {
    hide LongLength;
  }

  /** A written integer reads back unchanged, with any flags, if it fits the type; otherwise it is refused or, without
      FailIfTooBig, wrapped around. */
  lemma IntegersReadBack(v: nat, t: IntType, flags: Flags)
    requires |Compact(v)| < 0xffff_ffff_ffff_feff && EncodeData(Compact(v)).Some?
    ensures ToInt(EncodeData(Compact(v)).value, t, flags)
         == if |Compact(v)| <= MaxSize(t) then Ok(v) else if flags.failIfTooBig then Fail(flags, 0) else Ok(Cast(t, v))
  {
    hide Payload, EncodeData, Compact, IsInt, Value, Cast, MaxSize;
    WrittenString(Compact(v), []);
    assert EncodeData(Compact(v)).value + [] == EncodeData(Compact(v)).value;
    ValueOfCompact(v);
    if |Compact(v)| <= MaxSize(t) {
      CastSmall(t, v);
    }
  }

  /** The lax reader takes any strict data node for a number, leading zeros or not. */
  lemma LaxReadsAnyData(b: seq<byte>, t: IntType, flags: Flags)
    requires CheckExact(b).Ok? && b != [] && b[0] < LIST_START && flags.allowNonCanon && !flags.failIfTooBig
    ensures Encode(Str(Payload(b).value)) == Some(b) && ToInt(b, t, flags) == Ok(Cast(t, Value(Payload(b).value)))
  {
    hide CheckExact, Payload, EncodeData, IsInt, Value;
    StrictData(b);
  }

  /** A written integer, read as a hash of n bytes: its n-byte big-endian form. With more bytes it is refused or,
      without FailIfTooBig, loses its lowest bytes, where toInt loses the highest ones. */
  lemma IntegersAsHashes(v: nat, n: nat, flags: Flags)
    requires |Compact(v)| < 0xffff_ffff_ffff_feff && EncodeData(Compact(v)).Some?
    ensures var l, r := |Compact(v)|, ToHash(EncodeData(Compact(v)).value, n, flags);
            if v >= Pow256(n) then
              && l > n
              && (if flags.failIfTooBig then r == Fail(flags, Zeros(n))
                  else r.Ok? && |r.value| == n && Value(r.value) == v / Pow256(l - n))
            else
              && l <= n && Value(Fixed(v, n)) == v
              && r == if l < n && flags.failIfTooSmall then Fail(flags, Zeros(n)) else Ok(Fixed(v, n))
  {
    hide Payload, EncodeData, Compact, IsInt, Value, Fixed, Pow256;
    ValueOfCompact(v);
    WrittenString(Compact(v), []);
    assert EncodeData(Compact(v)).value + [] == EncodeData(Compact(v)).value;
    CompactLength(v, n);
    var c := Compact(v);
    if v < Pow256(n) {
      FixedPadsCompact(v, n);
      assert c[..|c|] == c;
      ValueOfFixed(v, n);
      SmallMod(v, Pow256(n));
    } else {
      ValueOfCompact(v);
      AlignLeftShiftsValue(c, n);
      assert Zeros(0) + c[..n] == Aligned(c, n, AlignLeft);
    }
  }
}