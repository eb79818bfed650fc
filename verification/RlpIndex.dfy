/** operator[] and the index cache behind it. */
module RlpIndex {
  import opened Wrappers
  import opened BigEndian
  import opened RlpSpec
  import opened RlpParse
  import opened RlpNode

  // ---- A payload read as far as it goes

  /** The items in front, and the error at which the reading stops, if there is one. */
  datatype Reading = Reading(items: seq<seq<byte>>, stop: Option<ParseError>)

  function Read(p: seq<byte>): Reading {
    if p == [] then Reading([], None)
    else
      var s := SizeAsEncoded(p);
      if s.Err? then Reading([], Some(s.error))
      else
        var rest := Read(p[s.value..]);
        Reading([p[..s.value]] + rest.items, rest.stop)
  }

  lemma {:induction false} ReadIsSlices(p: seq<byte>)
    ensures Slices(p) == match Read(p).stop case None => Ok(Read(p).items) case Some(e) => Err(e)
  {
    if p == [] || SizeAsEncoded(p).Err? {
    } else {
      ReadIsSlices(p[SizeAsEncoded(p).value..]);
    }
  }

  /** What is read at the place of item k, or behind the last one. */
  function SizeAt(r: Reading, k: nat): Result<nat, ParseError>
    requires k <= |r.items|
  {
    if k < |r.items| then Ok(|r.items[k]|)
    else if r.stop.None? then Ok(0)
    else Err(r.stop.value)
  }

  /** Item k, or the end of the reading, is where the sizes of the items before it lead. */
  ghost predicate IsAt(p: seq<byte>, r: Reading, k: nat)
    requires k <= |r.items|
  {
    var t := Total(r.items, k);
    && k <= t <= |p| && SizeAsEncoded(p[t..]) == SizeAt(r, k)
    && (k < |r.items| ==>
          && r.items[k] != [] && Total(r.items, k + 1) == t + |r.items[k]| <= |p|
          && p[t..t + |r.items[k]|] == r.items[k])
    && (k == |r.items| ==> (t == |p| <==> r.stop.None?))
  }

  lemma FirstIsAt(p: seq<byte>)
    ensures IsAt(p, Read(p), 0)
  {
    hide SizeAsEncoded;
    assert p[0..] == p;
    if |Read(p).items| > 0 {
      assert Total(Read(p).items, 0) == 0;
    }
  }

  lemma IsAtBehind(p: seq<byte>, r: Reading, k: nat)
    requires 1 <= k <= |r.items| && 0 < |r.items[0]| <= |p|
    requires IsAt(p[|r.items[0]|..], Reading(r.items[1..], r.stop), k - 1)
    ensures IsAt(p, r, k)
  {
    hide SizeAsEncoded;
    var s, t := |r.items[0]|, Total(r.items[1..], k - 1);
    TotalTail(r.items, k);
    assert p[s..][t..] == p[s + t..];
    if k < |r.items| {
      TotalTail(r.items, k + 1);
      assert p[s..][t..t + |r.items[k]|] == p[s + t..s + t + |r.items[k]|];
    }
  }

  /** The items follow one another through the payload; they cover it unless an error stops the reading. */
  lemma {:induction false} ReadAt(p: seq<byte>, k: nat)
    requires k <= |Read(p).items|
    ensures IsAt(p, Read(p), k)
  {
    hide IsAt, Total;
    if k == 0 {
      FirstIsAt(p);
    } else {
      var s := SizeAsEncoded(p).value;
      var r, rest := Read(p), Read(p[s..]);
      assert r.items[1..] == rest.items;
      ReadAt(p[s..], k - 1);
      IsAtBehind(p, r, k);
    }
  }

  /** Item i, nothing (the null node) behind the last item, or the error that stops the reading in front of item i. */
  function Answer(payload: Result<seq<byte>, ParseError>, i: nat): Result<seq<byte>, ParseError> {
    match payload
    case Err(e) => Err(e)
    case Ok(p) =>
      var r := Read(p);
      if i < |r.items| then Ok(r.items[i])
      else if r.stop.None? then Ok([])
      else Err(r.stop.value)
  }

  // ---- The cache

  /** A part of a view shows the same part of its bytes. */
  lemma Part(base: seq<byte>, v: View, begin: nat, count: nat)
    requires InBase(base, v) && begin + count <= Size(v)
    ensures InBase(base, Cropped(v, begin, count)) && Size(Cropped(v, begin, count)) == count
    ensures Bytes(base, Cropped(v, begin, count)) == Bytes(base, v)[begin..begin + count]
  {
    if v.At? {
      SubView(base, v, begin, count);
    }
  }

  lemma ExactIsSized(b: seq<byte>)
    requires CheckExact(b).Ok?
    ensures SizeAsEncoded(b).Ok?
  {
  }

  class RLP {
    const base: seq<byte>
    const data: View
    var lastIndex: nat
    var lastEnd: nat
    var lastItem: View

    constructor (base: seq<byte>, data: View)
      ensures this.base == base && this.data == data && Fresh()
    {
      this.base, this.data := base, data;
      lastIndex, lastEnd, lastItem := SIZE_LIMIT - 1, 0, Nowhere;
    }

    ghost predicate Fresh()
      reads this
    {
      lastIndex == SIZE_LIMIT - 1 && lastEnd == 0 && lastItem == Nowhere
    }

    /** The payload's items and what stops them. */
    ghost function Contents(pl: View): Reading
      requires InBase(base, pl)
    {
      Read(Bytes(base, pl))
    }

    /** The cache holds the item at lastIndex and the position right behind it; past the last item, an empty view. */
    ghost predicate Holds(pl: View)
      requires InBase(base, pl)
      reads this
    {
      var r := Contents(pl);
      && lastIndex <= |r.items| && SizeAt(r, lastIndex).Ok?
      && lastItem == Cropped(pl, Total(r.items, lastIndex), SizeAt(r, lastIndex).value)
      && lastEnd == Total(r.items, if lastIndex < |r.items| then lastIndex + 1 else lastIndex)
    }

    /** The loop has thrown behind the last item: the cache holds the unreadable rest under that item's index. */
    ghost predicate Stuck(pl: View)
      requires InBase(base, pl)
      reads this
    {
      var r := Contents(pl);
      && r.stop.Some? && lastIndex + 1 == |r.items| && lastEnd == Total(r.items, |r.items|) <= Size(pl)
      && lastItem == Cropped(pl, lastEnd, Size(pl) - lastEnd)
    }

    ghost predicate Cached(pl: View)
      reads this
    {
      InBase(base, pl) && (Holds(pl) || Stuck(pl))
    }

    ghost predicate Valid()
      reads this
    {
      && |base| < SIZE_LIMIT && InBase(base, data)
      && (Fresh() || (PayloadView(base, data).Ok? && Cached(PayloadView(base, data).value)))
    }

    lemma OneOfThree()
      requires Valid()
      ensures PayloadView(base, data).Ok? && InBase(base, PayloadView(base, data).value) ==>
                var pl := PayloadView(base, data).value;
                && (Fresh() ==> !Holds(pl) && !Stuck(pl)) && (Holds(pl) ==> !Stuck(pl))
    {
      hide Read, SizeAsEncoded, Bytes, PayloadView;
      if PayloadView(base, data).Ok? {
        var pl := PayloadView(base, data).value;
        var r := Contents(pl);
        ReadAt(Bytes(base, pl), |r.items|);
        if lastIndex < |r.items| {
          ReadAt(Bytes(base, pl), lastIndex);
        }
      }
    }

    /** What the constructor of the result finds in the cached view. */
    lemma Shown(pl: View)
      requires Cached(pl)
      ensures InBase(base, lastItem)
      ensures Holds(pl) ==>
                && Answer(Ok(Bytes(base, pl)), lastIndex) == Ok(Bytes(base, lastItem))
                && SizeAsEncoded(Bytes(base, lastItem)).Ok?
                && (Size(lastItem) == 0 <==> lastIndex == |Contents(pl).items|)
      ensures Stuck(pl) ==> SizeAsEncoded(Bytes(base, lastItem)) == Err(Contents(pl).stop.value) && Size(lastItem) != 0
    {
      hide Bytes, Read, SizeAsEncoded;
      var p, r := Bytes(base, pl), Contents(pl);
      ReadAt(p, lastIndex);
      if Holds(pl) {
        var size := SizeAt(r, lastIndex).value;
        Part(base, pl, Total(r.items, lastIndex), size);
        if lastIndex < |r.items| {
          var rest := p[Total(r.items, lastIndex)..];
          assert rest[..size] == r.items[lastIndex];
          SizeStable(rest, size);
          ExactIsSized(r.items[lastIndex]);
        } else {
          assert SizeAsEncoded([]) == Ok(0);
        }
      } else {
        ReadAt(p, |r.items|);
        Part(base, pl, lastEnd, Size(pl) - lastEnd);
        assert p[lastEnd..Size(pl)] == p[lastEnd..];
      }
    }

    /** One turn of the loop. */
    method Forward(pl: View) returns (ok: Result<(), ParseError>)
      requires Cached(pl) && Size(lastItem) != 0
      modifies this
      ensures match SizeAt(Contents(pl), old(lastIndex) + 1)
              case Ok(_) => ok == Ok(()) && Holds(pl) && lastIndex == old(lastIndex) + 1
              case Err(e) => ok == Err(e) && Stuck(pl) && lastIndex == old(lastIndex)
    {
      hide SizeAsEncoded, Bytes, Read;
      ghost var p, r := Bytes(base, pl), Contents(pl);
      ReadAt(p, lastIndex);
      if lastIndex < |r.items| {
        ReadAt(p, lastIndex + 1);
      } else {
        Part(base, pl, Total(r.items, lastIndex), 0);
        assert false;
      }
      Part(base, pl, lastEnd, Size(pl) - lastEnd);
      assert p[lastEnd..Size(pl)] == p[lastEnd..];
      lastItem := CroppedFrom(pl, lastEnd);
      var s := SizeAsEncoded(Bytes(base, lastItem));
      if s.Err? {
        return Err(s.error);
      }
      lastItem := Cropped(lastItem, 0, s.value);
      lastEnd := lastEnd + Size(lastItem);
      lastIndex := lastIndex + 1;
      return Ok(());
    }

    /** The cache starts over at the first item. */
    method Restart(pl: View) returns (ok: Result<(), ParseError>)
      requires InBase(base, pl)
      modifies this
      ensures match SizeAt(Contents(pl), 0)
              case Ok(_) => ok == Ok(()) && Holds(pl) && lastIndex == 0
              case Err(e) => ok == Err(e) && unchanged(this)
    {
      hide SizeAsEncoded, Bytes, Read;
      ghost var p := Bytes(base, pl);
      ReadAt(p, 0);
      assert p[0..] == p;
      var s := SizeAsEncoded(Bytes(base, pl));
      if s.Err? {
        return Err(s.error);
      }
      lastEnd := s.value;
      lastItem := Cropped(pl, 0, lastEnd);
      lastIndex := 0;
      return Ok(());
    }

    ghost predicate IsStuck()
      requires Valid()
      reads this
    {
      PayloadView(base, data).Ok? && Stuck(PayloadView(base, data).value)
    }

    /** The payload of this node. */
    ghost function Body(): Result<seq<byte>, ParseError>
      requires InBase(base, data)
    {
      Payload(Bytes(base, data))
    }

    /** operator[]. The answer depends on the node and the index alone, with two exceptions: the largest index gets the
        null node from a node that has not been indexed before, and right after a call that has thrown behind an item
        the index of that item throws too. */
    method Index(i: nat) returns (r: Result<View, ParseError>)
      requires Valid() && i < SIZE_LIMIT
      modifies this
      ensures Valid()
      ensures r.Ok? ==> InBase(base, r.value)
      ensures (match r case Ok(v) => Ok(Bytes(base, v)) case Err(e) => Err(e))
           == if old(Fresh()) && i == SIZE_LIMIT - 1 then Ok([])
              else if old(IsStuck()) && i == old(lastIndex) then Answer(Body(), i + 1)
              else Answer(Body(), i)
      ensures IsStuck() <==> r.Err? && Body().Ok? && |Read(Body().value).items| > 0
      ensures IsStuck() ==> lastIndex == |Read(Body().value).items| - 1
    {
      hide SizeAsEncoded, Bytes, Read, Payload;
      OneOfThree();
      var payload := PayloadView(base, data);
      if i < lastIndex {
        if payload.Err? {
          return Err(payload.error);
        }
        var ok := Restart(payload.value);
        if ok.Err? {
          return Err(ok.error);
        }
        OneOfThree();
      }
      while lastIndex < i && Size(lastItem) != 0
        invariant Valid() && lastIndex <= i
        invariant Fresh() <==> old(Fresh()) && i == SIZE_LIMIT - 1
        invariant IsStuck() ==> old(IsStuck()) && old(lastIndex) == lastIndex
        invariant old(IsStuck()) && i == old(lastIndex) ==> IsStuck()
      {
        var ok := Forward(payload.value);
        if ok.Err? {
          return Err(ok.error);
        }
        OneOfThree();
      }
      if !Fresh() {
        Shown(payload.value);
      }
      var size := SizeAsEncoded(Bytes(base, lastItem));
      if size.Err? {
        return Err(size.error);
      }
      return Ok(lastItem);
    }
  }
  // ---- What the nodes of a tree and byte strings are indexed to

  /** A strict list node, and so every list inside a strictly read tree, is indexed to the encodings of its items, and
      behind them to the null node. */
  lemma StrictListsAreIndexed(b: seq<byte>, i: nat)
    requires Decode(b).Ok? && Decode(b).value.List?
    ensures Answer(Payload(b), i).Ok?
    ensures var items := Decode(b).value.items;
            if i < |items| then Decode(Answer(Payload(b), i).value) == Ok(items[i]) else Answer(Payload(b), i) == Ok([])
  {
    hide SizeAsEncoded, Slices, Read;
    DecodeSlices(Payload(b).value);
    ReadIsSlices(Payload(b).value);
  }

  /** What the comment on operator[] promises: item i of a list, and the null node for any other index or node. */
  function Promised(b: seq<byte>, i: nat): seq<byte> {
    if b == [] || b[0] < LIST_START || Payload(b).Err? then []
    else
      var items := Read(Payload(b).value).items;
      if i < |items| then items[i] else []
  }

  /** The promise is kept for a list exactly when its payload divides into items, and for anything else exactly when
      the payload is empty: a byte string is indexed as if its contents were items. */
  lemma PromiseIsKept(b: seq<byte>)
    ensures (forall i: nat :: Answer(Payload(b), i) == Ok(Promised(b, i))) <==>
            Payload(b).Ok? &&
            if b != [] && b[0] >= LIST_START then Slices(Payload(b).value).Ok? else Payload(b).value == []
  {
    hide SizeAsEncoded, Payload, Slices, Read;
    if Payload(b).Ok? {
      var p := Payload(b).value;
      ReadIsSlices(p);
      ReadAt(p, 0);
      assert p[0..] == p;
      assert Answer(Payload(b), |Read(p).items|) == if Read(p).stop.None? then Ok([]) else Err(Read(p).stop.value);
      if |Read(p).items| > 0 {
        assert Answer(Payload(b), 0) == Ok(Read(p).items[0]);
      }
    } else {
      assert Answer(Payload(b), 0).Err?;
    }
  }

  /** Index 0 of the string "abc" is the item "a". */
  lemma StringIndexedExample()
    ensures var b: seq<byte> := [0x83, 'a' as int, 'b' as int, 'c' as int];
            CheckExact(b).Ok? && Promised(b, 0) == [] && Answer(Payload(b), 0) == Ok(['a' as int])
  {
    var b: seq<byte> := [0x83, 'a' as int, 'b' as int, 'c' as int];
    var p: seq<byte> := b[1..4];
    assert Payload(b) == Ok(p);
    assert SizeAsEncoded(p) == Ok(1) && p[..1] == ['a' as int];
    assert Read(p).items[0] == p[..1];
  }

  /** A list of a whole item and an incomplete one. */
  const BROKEN: seq<byte> := [0xc2, 0x01, 0xb8]

  lemma BrokenReads()
    ensures PayloadView(BROKEN, At(0, 3)) == Ok(At(1, 2)) && Payload(BROKEN) == Ok([0x01, 0xb8])
    ensures Read([0x01, 0xb8]) == Reading([[0x01]], Some(BadRLP))
  {
    var p: seq<byte> := [0x01, 0xb8];
    assert BROKEN[0..3] == BROKEN && BROKEN[1..3] == p;
    assert SizeAsEncoded(p) == Ok(1) && p[..1] == [0x01] && p[1..] == [0xb8];
    assert SizeAsEncoded([0xb8]) == Err(BadRLP);
    assert Read([0xb8]) == Reading([], Some(BadRLP));
  }

  /** Item 0 is there, index 1 throws, and then index 0 throws as well. */
  method AskedInOrder() returns (first: Result<View, ParseError>, second: Result<View, ParseError>,
                                 again: Result<View, ParseError>)
    ensures first.Ok? && InBase(BROKEN, first.value) && Bytes(BROKEN, first.value) == [0x01]
    ensures second == Err(BadRLP) && again == Err(BadRLP)
  {
    hide PayloadView, Payload, Read;
    BrokenReads();
    assert Bytes(BROKEN, At(0, 3)) == BROKEN;
    var node := new RLP(BROKEN, At(0, 3));
    first := node.Index(0);
    second := node.Index(1);
    again := node.Index(0);
  }
}
