/** RLP nodes as views into a shared byte string: counting, iterating and indexing the items of a list. */
module RlpNode {
  import opened Wrappers
  import opened BigEndian
  import opened RlpSpec
  import opened RlpParse

  /** A vector_ref: a pointer with a count, or a null pointer. */
  datatype View = Nowhere | At(start: nat, count: nat)

  function Size(v: View): nat {
    if v.At? then v.count else 0
  }

  predicate InBase(base: seq<byte>, v: View) {
    v.At? ==> v.start + v.count <= |base|
  }

  function Bytes(base: seq<byte>, v: View): (s: seq<byte>)
    requires InBase(base, v)
    ensures |s| == Size(v)
  {
    if v.At? then base[v.start..v.start + v.count] else []
  }

  function Cropped(v: View, begin: nat, count: nat): View {
    if v.At? && begin + count <= v.count then At(v.start + begin, count) else Nowhere
  }

  function CroppedFrom(v: View, begin: nat): View {
    if v.At? && begin <= v.count then At(v.start + begin, v.count - begin) else Nowhere
  }

  lemma SubSlice(base: seq<byte>, s: nat, e: nat, i: nat, j: nat)
    requires s <= e <= |base| && i <= j <= e - s
    ensures base[s..e][i..j] == base[s + i..s + j]
  {
    var a, b := base[s..e][i..j], base[s + i..s + j];
    assert |a| == |b| && forall k :: 0 <= k < |a| ==> a[k] == b[k];
  }

  function PayloadView(base: seq<byte>, v: View): (r: Result<View, ParseError>)
    requires InBase(base, v)
    ensures r.Ok? ==> InBase(base, r.value) && Payload(Bytes(base, v)) == Ok(Bytes(base, r.value))
    ensures r.Err? ==> Payload(Bytes(base, v)) == Err(r.error)
  {
    var b := Bytes(base, v);
    var l := Length(b);
    if l.Err? then Err(l.error)
    else if l.value > |b| then Err(BadRLP)
    else if b == [] then Ok(Nowhere)
    else
      var o := PayloadOffset(b);
      assert o + l.value <= |b| ==> b[o..o + l.value] == base[v.start + o..v.start + o + l.value] by {
        if o + l.value <= |b| {
          SubSlice(base, v.start, v.start + v.count, o, o + l.value);
        }
      }
      Ok(Cropped(v, o, l.value))
  }

  // ---- The items of a payload

  /** The byte strings of the items that make up a payload. */
  function Slices(p: seq<byte>): Result<seq<seq<byte>>, ParseError> {
    if p == [] then Ok([])
    else
      var s := SizeAsEncoded(p);
      if s.Err? then Err(s.error)
      else
        var rest := Slices(p[s.value..]);
        if rest.Err? then rest else Ok([p[..s.value]] + rest.value)
  }

  function Total(slices: seq<seq<byte>>, k: nat): nat
    requires k <= |slices|
  {
    if k == 0 then 0 else Total(slices, k - 1) + |slices[k - 1]|
  }

  lemma {:induction false} TotalTail(slices: seq<seq<byte>>, k: nat)
    requires 1 <= k <= |slices|
    ensures Total(slices, k) == |slices[0]| + Total(slices[1..], k - 1)
  {
    if k == 1 {
    } else {
      TotalTail(slices, k - 1);
    }
  }

  /** The slices follow one another through p to its end, none of them empty, each of the size read at its place. */
  ghost predicate Partition(p: seq<byte>, slices: seq<seq<byte>>) {
    if slices == [] then p == []
    else
      && slices[0] != [] && slices[0] <= p
      && SizeAsEncoded(p) == Ok(|slices[0]|)
      && Partition(p[|slices[0]|..], slices[1..])
  }

  lemma {:induction false} SlicesPartition(p: seq<byte>)
    requires Slices(p).Ok?
    ensures Partition(p, Slices(p).value)
  {
    if p == [] {
    } else {
      var s := SizeAsEncoded(p).value;
      SlicesPartition(p[s..]);
      assert Slices(p).value[1..] == Slices(p[s..]).value;
    }
  }

  lemma {:induction false} PartitionTotal(p: seq<byte>, slices: seq<seq<byte>>)
    requires Partition(p, slices)
    ensures Total(slices, |slices|) == |p| >= |slices|
  {
    if slices == [] {
    } else {
      PartitionTotal(p[|slices[0]|..], slices[1..]);
      TotalTail(slices, |slices|);
    }
  }

  lemma {:induction false} PartitionAt(p: seq<byte>, slices: seq<seq<byte>>, k: nat)
    requires Partition(p, slices) && k < |slices|
    ensures Total(slices, k) < Total(slices, k + 1) <= |p| && slices[k] != []
    ensures p[Total(slices, k)..Total(slices, k + 1)] == slices[k]
    ensures SizeAsEncoded(p[Total(slices, k)..]) == Ok(|slices[k]|)
  {
    hide SizeAsEncoded;
    var s := |slices[0]|;
    if k == 0 {
      assert Total(slices, 1) == Total(slices, 0) + s;
      assert p[0..] == p;
    } else {
      PartitionAt(p[s..], slices[1..], k - 1);
      TotalTail(slices, k);
      TotalTail(slices, k + 1);
      var t, t' := Total(slices[1..], k - 1), Total(slices[1..], k);
      assert p[s..][t..] == p[s + t..];
      assert p[s..][t..t'] == p[s + t..s + t'];
    }
  }

  /** An item's size does not depend on what follows it. */
  lemma SizeStable(p: seq<byte>, s: nat)
    requires p != [] && SizeAsEncoded(p) == Ok(s)
    ensures 1 <= s <= |p| && CheckExact(p[..s]).Ok?
  {
    var q := p[..s];
    assert q[0] == p[0];
    if p[0] >= DATA_IMM_LEN_START {
      WriteHeader(p);
      var kind := if p[0] < LIST_START then DataKind else ListKind;
      var n := Length(p).value;
      assert Header(kind, n).value <= q;
      ReadHeader(q, kind, n);
    }
  }

  /** The items of a decoded list are the decodings of its slices. */
  lemma {:induction false} DecodeSlices(p: seq<byte>)
    requires DecodeAll(p).Ok?
    ensures Slices(p).Ok? && |Slices(p).value| == |DecodeAll(p).value|
    ensures forall k :: 0 <= k < |Slices(p).value| ==> Decode(Slices(p).value[k]) == Ok(DecodeAll(p).value[k])
  {
    if p == [] {
    } else {
      DecodeSlices(p[SizeAsEncoded(p).value..]);
    }
  }

  // ---- The loops

  /** The reader's loop over the length bytes. */
  method ReadLength(b: seq<byte>) returns (r: Result<nat, ParseError>)
    ensures r == Length(b)
  {
    if b == [] {
      return Ok(0);
    }
    if !IsGood(b) {
      return Err(BadRLP);
    }
    var n := b[0];
    if n < DATA_IMM_LEN_START {
      return Ok(1);
    } else if n <= DATA_IND_LEN_ZERO {
      return Ok(n - DATA_IMM_LEN_START);
    } else if LIST_START <= n <= LIST_IND_LEN_ZERO {
      return Ok(n - LIST_START);
    }
    var lengthSize := if n < LIST_START then n - DATA_IND_LEN_ZERO else n - LIST_IND_LEN_ZERO;
    if |b| <= lengthSize || b[1] == 0 {
      return Err(BadRLP);
    }
    var ret := 0;
    for i := 0 to lengthSize
      invariant ret == Value(b[1..1 + i])
    {
      assert b[1..1 + (i + 1)][..i] == b[1..1 + i];
      ret := ret * 256 + b[i + 1];
    }
    if ret < DATA_IMM_LEN_COUNT {
      return Err(BadRLP);
    }
    if ret >= LENGTH_LIMIT {
      return Err(UndersizeRLP);
    }
    return Ok(ret);
  }

  /** items(): steps through a payload, counting. */
  method CountItems(p: seq<byte>) returns (r: Result<nat, ParseError>)
    ensures match Slices(p)
            case Ok(slices) => r == Ok(|slices|)
            case Err(e) => r == Err(e)
  {
    var d := p;
    var i := 0;
    while d != []
      invariant match Slices(d)
                case Ok(rest) => Slices(p).Ok? && |Slices(p).value| == i + |rest|
                case Err(e) => Slices(p) == Err(e)
      decreases |d|
    {
      var s := SizeAsEncoded(d);
      if s.Err? {
        return Err(s.error);
      }
      d := d[s.value..];
      i := i + 1;
    }
    return Ok(i);
  }

  // ---- The iterator

  datatype Cursor = Cursor(current: View, remaining: nat)

  function Begin(base: seq<byte>, data: View): Result<Cursor, ParseError>
    requires InBase(base, data) && Size(data) > 0
  {
    var pl := PayloadView(base, data);
    if pl.Err? then Err(pl.error)
    else
      var s := SizeAsEncoded(Bytes(base, pl.value));
      if s.Err? then Err(s.error)
      else Ok(Cursor(Cropped(pl.value, 0, s.value), Size(pl.value) - s.value))
  }

  function End(data: View): Cursor {
    Cursor(CroppedFrom(data, Size(data)), 0)
  }

  /** operator++: the view moves past the current item and takes the size of the one it then points at. */
  function Advance(base: seq<byte>, c: Cursor): Result<Cursor, ParseError>
    requires c.current.At? && c.current.start + c.current.count + c.remaining <= |base|
  {
    var next := At(c.current.start + c.current.count, c.remaining);
    if c.remaining == 0 then Ok(Cursor(next, 0))
    else
      var s := SizeAsEncoded(Bytes(base, next));
      if s.Err? then Err(s.error)
      else Ok(Cursor(Cropped(next, 0, s.value), c.remaining - s.value))
  }

  /** A payload view whose bytes divide into these items. */
  ghost predicate Laid(base: seq<byte>, pl: View, slices: seq<seq<byte>>) {
    pl.At? && InBase(base, pl) && Partition(Bytes(base, pl), slices)
  }

  /** The cursor c is on item k, or, with k the number of items, past the last one. */
  ghost predicate IsOn(pl: View, slices: seq<seq<byte>>, k: nat, c: Cursor)
    requires pl.At? && k <= |slices|
  {
    && c.current == At(pl.start + Total(slices, k), if k < |slices| then |slices[k]| else 0)
    && Total(slices, k) + c.current.count + c.remaining == pl.count
  }

  lemma StepSize(base: seq<byte>, pl: View, slices: seq<seq<byte>>, k: nat)
    requires Laid(base, pl, slices) && k <= |slices|
    ensures Total(slices, k) <= pl.count && Total(slices, |slices|) == pl.count
    ensures SizeAsEncoded(Bytes(base, At(pl.start + Total(slices, k), pl.count - Total(slices, k))))
         == Ok(if k < |slices| then |slices[k]| else 0)
    ensures k < |slices| ==>
              && slices[k] != [] && Total(slices, k + 1) <= pl.count
              && InBase(base, At(pl.start + Total(slices, k), |slices[k]|))
              && Bytes(base, At(pl.start + Total(slices, k), |slices[k]|)) == slices[k]
  {
    hide SizeAsEncoded, Partition, Bytes;
    var p := Bytes(base, pl);
    PartitionTotal(p, slices);
    if k < |slices| {
      PartitionAt(p, slices, k);
      var t := Total(slices, k);
      SubView(base, pl, t, pl.count - t);
      SubView(base, pl, t, |slices[k]|);
      assert p[t..pl.count] == p[t..];
    } else {
      EmptyView(base, pl);
    }
  }

  lemma SubView(base: seq<byte>, pl: View, t: nat, count: nat)
    requires pl.At? && InBase(base, pl) && t + count <= pl.count
    ensures InBase(base, At(pl.start + t, count))
    ensures Bytes(base, At(pl.start + t, count)) == Bytes(base, pl)[t..t + count]
  {
    SubSlice(base, pl.start, pl.start + pl.count, t, t + count);
  }

  lemma EmptyView(base: seq<byte>, pl: View)
    requires pl.At? && InBase(base, pl)
    ensures InBase(base, At(pl.start + pl.count, 0)) && SizeAsEncoded(Bytes(base, At(pl.start + pl.count, 0))) == Ok(0)
  {
    hide SizeAsEncoded;
  }

  lemma AdvanceIsNext(base: seq<byte>, pl: View, slices: seq<seq<byte>>, k: nat, c: Cursor)
    requires Laid(base, pl, slices) && k <= |slices| && IsOn(pl, slices, k, c)
    ensures c.current.start + c.current.count + c.remaining <= |base|
    ensures Advance(base, c).Ok?
    ensures IsOn(pl, slices, if k < |slices| then k + 1 else k, Advance(base, c).value)
  {
    hide SizeAsEncoded, Partition, Bytes;
    StepSize(base, pl, slices, k);
    if k < |slices| {
      StepSize(base, pl, slices, k + 1);
    }
  }

  class Iterator {
    const base: seq<byte>
    var current: View
    var remaining: nat

    constructor (base: seq<byte>, c: Cursor)
      ensures this.base == base && current == c.current && remaining == c.remaining
    {
      this.base, current, remaining := base, c.current, c.remaining;
    }

    /** On item k, it moves to the next item or, from the last one, behind it. */
    method Increment() returns (r: Result<(), ParseError>)
      requires current.At? && current.start + current.count + remaining <= |base|
      modifies this
      ensures match Advance(base, old(Cursor(current, remaining)))
              case Ok(c) => r == Ok(()) && Cursor(current, remaining) == c
              case Err(e) => r == Err(e)
      ensures forall pl: View, slices: seq<seq<byte>>, k: nat ::
                pl.At? && k <= |slices| && Laid(base, pl, slices) && IsOn(pl, slices, k, old(Cursor(current, remaining))) ==>
                  r == Ok(()) && IsOn(pl, slices, if k < |slices| then k + 1 else k, Cursor(current, remaining))
    {
      hide SizeAsEncoded, Bytes, Laid, IsOn;
      forall pl: View, slices: seq<seq<byte>>, k: nat
        | pl.At? && k <= |slices| && Laid(base, pl, slices) && IsOn(pl, slices, k, Cursor(current, remaining))
        ensures Advance(base, Cursor(current, remaining)).Ok?
        ensures IsOn(pl, slices, if k < |slices| then k + 1 else k, Advance(base, Cursor(current, remaining)).value)
      {
        AdvanceIsNext(base, pl, slices, k, Cursor(current, remaining));
      }
      current := At(current.start + current.count, remaining);
      if remaining != 0 {
        var s := SizeAsEncoded(Bytes(base, current));
        if s.Err? {
          return Err(s.error);
        }
        current := Cropped(current, 0, s.value);
        remaining := remaining - (if Size(current) < remaining then Size(current) else remaining);
      }
      return Ok(());
    }
  }

  /** Well formed as far as its items go: a list whose payload lies inside it and divides into items. */
  ghost predicate ListView(base: seq<byte>, data: View, slices: seq<seq<byte>>) {
    && InBase(base, data) && Size(data) > 0 && base[data.start] >= LIST_START
    && PayloadView(base, data).Ok? && PayloadView(base, data).value.At?
    && Slices(Bytes(base, PayloadView(base, data).value)) == Ok(slices)
  }

  lemma BeginIsFirst(base: seq<byte>, data: View, slices: seq<seq<byte>>)
    requires ListView(base, data, slices)
    ensures var pl := PayloadView(base, data).value;
            && Laid(base, pl, slices)
            && Begin(base, data).Ok? && IsOn(pl, slices, 0, Begin(base, data).value)
            && (pl.start + pl.count == data.start + data.count <==> CheckExact(Bytes(base, data)).Ok?)
  {
    var pl := PayloadView(base, data).value;
    SlicesPartition(Bytes(base, pl));
    StepSize(base, pl, slices, 0);
  }

  /** Stepping from begin() to end(): the items in order, each of them a strictly valid node, and then it stops. */
  method Children(base: seq<byte>, data: View, ghost slices: seq<seq<byte>>)
    returns (r: Result<seq<seq<byte>>, ParseError>)
    requires ListView(base, data, slices) && CheckExact(Bytes(base, data)).Ok?
    ensures r == Ok(slices)
  {
    hide SizeAsEncoded, Partition, Slices, CheckExact, Advance, Begin, PayloadView, Payload, Laid, Bytes, Total;
    var begin := Begin(base, data);
    if begin.Err? {
      r := Err(begin.error);
      BeginIsFirst(base, data, slices);
      assert false;
    }
    BeginIsFirst(base, data, slices);
    ghost var pl := PayloadView(base, data).value;
    var it := new Iterator(base, begin.value);
    var items := [];
    ghost var k := 0;
    while Cursor(it.current, it.remaining) != End(data)
      invariant it.base == base && k <= |slices| && items == slices[..k]
      invariant IsOn(pl, slices, k, Cursor(it.current, it.remaining))
      decreases |slices| - k
    {
      StepSize(base, pl, slices, k);
      var item := Bytes(base, it.current);
      var ok := CheckExact(item);
      if ok.Err? {
        r := Err(ok.error);
        SliceIsExact(base, pl, slices, k);
        assert false;
      }
      items := items + [item];
      AdvanceIsNext(base, pl, slices, k, Cursor(it.current, it.remaining));
      var _ := it.Increment();
      k := k + 1;
    }
    StepSize(base, pl, slices, k);
    assert k == |slices| && slices[..k] == slices;
    return Ok(items);
  }

  lemma SliceIsExact(base: seq<byte>, pl: View, slices: seq<seq<byte>>, k: nat)
    requires Laid(base, pl, slices) && k < |slices|
    ensures CheckExact(slices[k]).Ok?
  {
    hide SizeAsEncoded, CheckExact;
    var p := Bytes(base, pl);
    PartitionAt(p, slices, k);
    var rest := p[Total(slices, k)..];
    SizeStable(rest, |slices[k]|);
    assert rest[..|slices[k]|] == slices[k];
  }

  /** begin() after n increments. */
  function CursorAfter(base: seq<byte>, data: View, n: nat): Result<Cursor, ParseError>
    requires InBase(base, data) && Size(data) > 0
  {
    if n == 0 then Begin(base, data)
    else
      var c := CursorAfter(base, data, n - 1);
      if c.Err? || !c.value.current.At? then c
      else if c.value.current.start + c.value.current.count + c.value.remaining > |base| then c
      else Advance(base, c.value)
  }

  lemma {:induction false} CursorAfterIs(base: seq<byte>, data: View, slices: seq<seq<byte>>, n: nat)
    requires ListView(base, data, slices)
    ensures var pl := PayloadView(base, data).value;
            var k := if n < |slices| then n else |slices|;
            CursorAfter(base, data, n).Ok? && IsOn(pl, slices, k, CursorAfter(base, data, n).value)
  {
    hide SizeAsEncoded, Partition, Slices, CheckExact, Advance, Begin, PayloadView, Payload, Total, Laid, Bytes;
    BeginIsFirst(base, data, slices);
    if n == 0 {
    } else {
      CursorAfterIs(base, data, slices, n - 1);
      AdvanceIsNext(base, PayloadView(base, data).value, slices, if n - 1 < |slices| then n - 1 else |slices|,
                    CursorAfter(base, data, n - 1).value);
    }
  }

  /** A range-for over a list ends exactly when nothing follows the payload: over a longer buffer, which lax
      construction allows, no number of increments reaches end(). */
  lemma IterationEndsWithoutTrailer(base: seq<byte>, data: View, slices: seq<seq<byte>>)
    requires ListView(base, data, slices)
    ensures (exists n: nat :: CursorAfter(base, data, n) == Ok(End(data))) <==> CheckExact(Bytes(base, data)).Ok?
  {
    hide SizeAsEncoded, Partition, Slices, CheckExact, Advance, Begin, PayloadView, Payload, CursorAfter;
    BeginIsFirst(base, data, slices);
    var pl := PayloadView(base, data).value;
    CursorAfterIs(base, data, slices, |slices|);
    StepSize(base, pl, slices, |slices|);
    forall n: nat | CursorAfter(base, data, n) == Ok(End(data))
      ensures pl.start + pl.count == data.start + data.count
    {
      CursorAfterIs(base, data, slices, n);
      StepSize(base, pl, slices, if n < |slices| then n else |slices|);
    }
  }

  /** A list of one empty string with a byte behind it: no number of increments reaches end(). */
  lemma TrailerExample()
    ensures ListView([0xc1, 0x80, 0x00], At(0, 3), [[0x80]]) && CheckExact([0xc1, 0x80, 0x00]) == Err(OversizeRLP)
    ensures !exists n: nat :: CursorAfter([0xc1, 0x80, 0x00], At(0, 3), n) == Ok(End(At(0, 3)))
  {
    hide CursorAfter;
    var b: seq<byte> := [0xc1, 0x80, 0x00];
    assert b[0..3] == b && b[1..2] == [0x80];
    var p: seq<byte> := [0x80];
    assert SizeAsEncoded(p) == Ok(1) && p[..1] == p && p[1..] == [];
    assert Slices(p) == Ok([p] + []) && [p] + [] == [p];
    IterationEndsWithoutTrailer(b, At(0, 3), [p]);
  }
}
