/** RLPStream: the non-recursive writer. One flat buffer, a stack of lists still owed items, and headers
    patched in afterwards; verified against a forest of finished and open lists. */
module RlpStream {
  import opened Wrappers
  import opened BigEndian
  import opened RlpSpec

  datatype StreamError = ItemCountTooLarge | TooLargeForRlp | ListStackNotEmpty

  /** A list under construction: the items it still waits for, and those it has. */
  datatype OpenList = OpenList(owed: nat, items: seq<Item>)

  /** What a stream stands for: finished top-level items, and open lists from the outermost inwards. */
  datatype Forest = Forest(done: seq<Item>, open: seq<OpenList>)

  /** What m_listStack stores for an open list: items owed, and where its payload starts in the buffer. */
  datatype Frame = Frame(owed: nat, start: nat)

  /** Items arrive together: they go to the innermost open list, and lists that become full close one by one. */
  function NoteItems(f: Forest, items: seq<Item>): Result<Forest, StreamError>
    decreases |f.open|, 0
  {
    if items == [] then
      Ok(f)
    else if f.open == [] then
      Ok(f.(done := f.done + items))
    else
      var outer, top := f.open[..|f.open| - 1], f.open[|f.open| - 1];
      if top.owed < |items| then
        Err(ItemCountTooLarge)
      else if top.owed > |items| then
        Ok(f.(open := outer + [OpenList(top.owed - |items|, top.items + items)]))
      else
        AddItem(f.(open := outer), List(top.items + items))
  }

  function AddItem(f: Forest, t: Item): Result<Forest, StreamError>
    decreases |f.open|, 1
  {
    if Encode(t).None? then Err(TooLargeForRlp) else NoteItems(f, [t])
  }

  function BeginList(f: Forest, n: nat): Forest {
    f.(open := f.open + [OpenList(n, [])])
  }

  /** The calls that serialise a tree: a list announces its length, then appends its children in order. */
  function Drive(f: Forest, t: Item): Result<Forest, StreamError>
    decreases t, 0
  {
    match t
    case Str(_) => AddItem(f, t)
    case List(ts) => if ts == [] then AddItem(f, t) else DriveAll(BeginList(f, |ts|), ts)
  }

  function DriveAll(f: Forest, ts: seq<Item>): Result<Forest, StreamError>
    decreases ts, 1
  {
    if ts == [] then
      Ok(f)
    else
      var g := Drive(f, ts[0]);
      if g.Err? then g else DriveAll(g.value, ts[1..])
  }

  /** Driving the stream through a tree, whatever is already open, adds that one tree as one item;
      and it fails exactly when the tree has no encoding or an enclosing list that it completes has none. */
  lemma {:induction false} DriveAddsTheTree(f: Forest, t: Item)
    ensures Drive(f, t) == AddItem(f, t)
    decreases t, 0
  {
    if t.Str? || t.items == [] {
    } else {
      var g := BeginList(f, |t.items|);
      assert g.open[..|g.open| - 1] == f.open;
      DriveAllCloses(g, f.open, [], t.items);
      assert [] + t.items == t.items;
    }
  }

  lemma {:induction false} DriveAllCloses(f: Forest, outer: seq<OpenList>, before: seq<Item>, ts: seq<Item>)
    requires ts != [] && f.open == outer + [OpenList(|ts|, before)]
    ensures DriveAll(f, ts) ==
            if EncodeAll(ts).None? then Err(TooLargeForRlp) else AddItem(f.(open := outer), List(before + ts))
    decreases ts, 1
  {
    var t, rest := ts[0], ts[1..];
    DriveAddsTheTree(f, t);
    if Encode(t).Some? {
      assert f.open[..|f.open| - 1] == outer;
      if rest == [] {
        assert before + [t] == before + ts;
        assert ts == [t];
      } else {
        var g := f.(open := outer + [OpenList(|rest|, before + [t])]);
        assert Drive(f, t) == Ok(g);
        DriveAllCloses(g, outer, before + [t], rest);
        assert (before + [t]) + rest == before + ts;
        assert g.(open := outer) == f.(open := outer);
        if EncodeAll(rest).None? {
          assert EncodeAll(ts).None?;
        }
      }
    } else {
      assert EncodeAll(ts).None?;
    }
  }

  /** The buffer and the stack hold exactly the bytes of the forest: the payload of an open list starts at its frame. */
  ghost predicate Represents(f: Forest, out: seq<byte>, stack: seq<Frame>)
    decreases |stack|
  {
    && |f.open| == |stack|
    && if stack == [] then
         EncodeAll(f.done) == Some(out)
       else
         var open, top := f.open[|stack| - 1], stack[|stack| - 1];
         && top.owed == open.owed > 0
         && top.start <= |out|
         && EncodeAll(open.items) == Some(out[top.start..])
         && Represents(f.(open := f.open[..|stack| - 1]), out[..top.start], stack[..|stack| - 1])
  }

  /** As Represents, with the bytes of some items at the end of the buffer that no list counts yet. */
  ghost predicate Pending(f: Forest, out: seq<byte>, stack: seq<Frame>, items: seq<Item>) {
    && EncodeAll(items).Some?
    && |EncodeAll(items).value| <= |out|
    && var base := |out| - |EncodeAll(items).value|;
       out[base..] == EncodeAll(items).value && Represents(f, out[..base], stack)
  }

  lemma NothingPending(f: Forest, out: seq<byte>, stack: seq<Frame>)
    requires Pending(f, out, stack, [])
    ensures Represents(f, out, stack)
  {
    assert out[..|out|] == out;
  }

  lemma InnermostList(f: Forest, out: seq<byte>, stack: seq<Frame>, items: seq<Item>)
    requires Pending(f, out, stack, items) && stack != []
    ensures |f.open| == |stack|
    ensures f.open[|stack| - 1].owed == stack[|stack| - 1].owed > 0 && stack[|stack| - 1].start <= |out|
  {
  }

  lemma PendingItem(f: Forest, out: seq<byte>, stack: seq<Frame>, t: Item, tail: seq<byte>)
    requires Represents(f, out, stack) && Encode(t) == Some(tail)
    ensures Pending(f, out + tail, stack, [t])
  {
    EncodeOne(t);
    assert (out + tail)[..|out|] == out;
    assert (out + tail)[|out|..] == tail;
  }

  /** The items land in the open list or at top level without closing anything. */
  lemma Settle(f: Forest, out: seq<byte>, stack: seq<Frame>, items: seq<Item>)
    requires Pending(f, out, stack, items) && items != []
    ensures stack == [] ==> NoteItems(f, items).Ok? && Represents(NoteItems(f, items).value, out, [])
    ensures stack != [] && stack[|stack| - 1].owed > |items| ==>
              && NoteItems(f, items).Ok?
              && Represents(NoteItems(f, items).value, out,
                            stack[|stack| - 1 := stack[|stack| - 1].(owed := stack[|stack| - 1].owed - |items|)])
  {
    var e := EncodeAll(items).value;
    var base := out[..|out| - |e|];
    assert out == base + e;
    if stack == [] {
      EncodeAppend(f.done, items);
    } else {
      var last := |stack| - 1;
      var top := stack[last];
      if top.owed > |items| {
        EncodeAppend(f.open[last].items, items);
        var stack' := stack[last := top.(owed := top.owed - |items|)];
        var f' := NoteItems(f, items).value;
        assert f'.open[..last] == f.open[..last];
        assert stack'[..last] == stack[..last];
        assert out[top.start..] == base[top.start..] + e;
        assert out[..top.start] == base[..top.start];
        assert f.(open := f.open[..last]) == f'.(open := f'.open[..last]);
      }
    }
  }

  lemma EncodeList(items: seq<Item>)
    requires EncodeAll(items).Some?
    ensures Encode(List(items)) == WrapList(EncodeAll(items).value)
  {
    hide WrapList;
  }

  /** A list that has all its items: its bytes so far are its payload, and behind a header it is one pending item. */
  lemma Close(f: Forest, out: seq<byte>, stack: seq<Frame>, items: seq<Item>)
    requires Pending(f, out, stack, items) && items != [] && stack != [] && stack[|stack| - 1].owed == |items|
    ensures var last := |stack| - 1;
            var p := stack[last].start;
            var closed := List(f.open[last].items + items);
            && p <= |out|
            && NoteItems(f, items) == AddItem(f.(open := f.open[..last]), closed)
            && Encode(closed) == WrapList(out[p..])
            && (Encode(closed).Some? ==>
                  Pending(f.(open := f.open[..last]), out[..p] + Encode(closed).value, stack[..last], [closed]))
  {
    hide Encode, EncodeAll, WrapList, Header;
    var last := |stack| - 1;
    var p := stack[last].start;
    var e := EncodeAll(items).value;
    var base := out[..|out| - |e|];
    assert out == base + e;
    EncodeAppend(f.open[last].items, items);
    assert out[p..] == base[p..] + e;
    assert out[..p] == base[..p];
    var closed := List(f.open[last].items + items);
    EncodeList(f.open[last].items + items);
    if Encode(closed).Some? {
      PendingItem(f.(open := f.open[..last]), out[..p], stack[..last], closed, Encode(closed).value);
    }
  }

  /** Leading zero bytes off, as the compact form of append drops them. */
  function StripZeros(s: seq<byte>): seq<byte> {
    if s != [] && s[0] == 0 then StripZeros(s[1..]) else s
  }

  /** What is left has no leading zero, and only zeros are gone. */
  lemma {:induction false} StrippedIs(s: seq<byte>)
    ensures var r := StripZeros(s);
            NoLeadingZero(r) && |r| <= |s| && s == Zeros(|s| - |r|) + r
  {
    if s != [] && s[0] == 0 {
      StrippedIs(s[1..]);
      assert s == [0] + s[1..];
    } else {
      assert s == Zeros(0) + s;
    }
  }

  class RLPStream {
    var out: seq<byte>
    var listStack: seq<Frame>
    ghost var model: Forest

    ghost predicate Valid()
      reads this
    {
      Represents(model, out, listStack)
    }

    constructor ()
      ensures Valid() && model == Forest([], [])
    {
      out, listStack, model := [], [], Forest([], []);
    }

    /** What a call that adds items promises: the forest grows as specified, or the specified exception is thrown. */
    ghost predicate Added(r: Result<(), StreamError>, expected: Result<Forest, StreamError>)
      reads this
    {
      match expected
      case Ok(f) => r == Ok(()) && Valid() && model == f
      case Err(e) => r == Err(e)
    }

    /** Writes v big-endian, backwards from index last. */
    method PutBackwards(last: nat, v: nat)
      requires |Compact(v)| <= last + 1 <= |out|
      modifies this`out
      ensures out == old(out)[..last + 1 - |Compact(v)|] + Compact(v) + old(out)[last + 1..]
    {
      var b: int, w := last, v;
      while w != 0
        invariant b == last - |Compact(v)| + |Compact(w)|
        invariant |out| == |old(out)| && |Compact(w)| <= |Compact(v)|
        invariant out[..b + 1] == old(out)[..b + 1]
        invariant Compact(v) == Compact(w) + out[b + 1..last + 1]
        invariant out[last + 1..] == old(out)[last + 1..]
      {
        PutAt(out, b, last, w % 256);
        out := out[b := w % 256];
        assert Compact(w) == Compact(w / 256) + [w % 256];
        b, w := b - 1, w / 256;
      }
      assert out == out[..b + 1] + out[b + 1..last + 1] + out[last + 1..];
    }

    method PushInt(v: nat, br: nat)
      requires br == |Compact(v)|
      modifies this`out
      ensures out == old(out) + Compact(v)
    {
      out := out + Zeros(br);
      if v != 0 {
        PutBackwards(|out| - 1, v);
      }
      assert old(out) + Zeros(br) == old(out) + Zeros(br) + [];
    }

    /** Prefix byte and length of a long payload; a count is a size_t. */
    method PushCount(count: nat, kind: Kind) returns (r: Result<(), StreamError>)
      requires DATA_IMM_LEN_COUNT <= count < SIZE_LIMIT
      modifies this`out
      ensures r == Ok(()) && Header(kind, count).Some? && out == old(out) + Header(kind, count).value
    {
      SizeFits(count);
      var br := BytesRequired(count);
      if br + kind.IndZero() > 0xff {
        return Err(TooLargeForRlp);
      }
      out := out + [br + kind.IndZero()];
      PushInt(count, br);
      return Ok(());
    }

    /** The prefix of a payload of n bytes, in its short or its long form. */
    method PushPrefix(n: nat, kind: Kind)
      requires n < SIZE_LIMIT
      modifies this`out
      ensures Header(kind, n).Some? && out == old(out) + Header(kind, n).value
    {
      SizeFits(n);
      if n < DATA_IMM_LEN_COUNT {
        out := out + [n + kind.Start()];
      } else {
        var _ := PushCount(n, kind);
      }
    }

    /** Counts itemCount items just written, closing every list that this completes: the buffer's tail moves up
        by the header's size, the header is patched in, and the closed list is itself one item of the list around it. */
    method NoteAppended(itemCount: nat, ghost items: seq<Item>) returns (r: Result<(), StreamError>)
      requires |items| == itemCount && Pending(model, out, listStack, items)
      modifies this
      ensures Added(r, NoteItems(old(model), items))
    {
      hide Pending, Represents, Encode, EncodeAll, WrapList, Header;
      if itemCount == 0 {
        NothingPending(model, out, listStack);
        return Ok(());
      }
      var count := itemCount;
      ghost var pending := items;
      while |listStack| != 0
        invariant |pending| == count > 0 && Pending(model, out, listStack, pending)
        invariant NoteItems(model, pending) == NoteItems(old(model), items)
        decreases |listStack|
      {
        var last := |listStack| - 1;
        var top := listStack[last];
        InnermostList(model, out, listStack, pending);
        if top.owed < count {
          return Err(ItemCountTooLarge);
        }
        ghost var before := listStack;
        listStack := listStack[last := top.(owed := top.owed - count)];
        if listStack[last].owed != 0 {
          Settle(model, out, before, pending);
          model := NoteItems(model, pending).value;
          return Ok(());
        }
        Close(model, out, before, pending);
        ghost var closed := List(model.open[last].items + pending);
        ghost var payload := out[top.start..];
        listStack := listStack[..last];
        assert listStack == before[..last];
        r := InsertHeader(top.start);
        if r.Err? {
          return;
        }
        model, pending := model.(open := model.open[..last]), [closed];
        count := 1;
      }
      Settle(model, out, [], pending);
      model := NoteItems(model, pending).value;
      return Ok(());
    }

    /** The buffer's tail from p on moves up by n bytes. */
    method OpenGap(p: nat, n: nat)
      requires p <= |out|
      modifies this`out
      ensures |out| == |old(out)| + n && out[..p] == old(out)[..p] && out[p + n..] == old(out)[p..]
    {
      var os := |out|;
      out := out + Zeros(n);
      out := out[..p + n] + out[p..os];
    }

    /** Makes a list of everything in the buffer from position p on. */
    method InsertHeader(p: nat) returns (r: Result<(), StreamError>)
      requires p <= |out|
      modifies this`out
      ensures match WrapList(old(out)[p..])
              case Some(e) => r == Ok(()) && out == old(out)[..p] + e
              case None => r == Err(TooLargeForRlp)
    {
      hide Compact;
      var s := |out| - p;
      var brs := BytesRequired(s);
      ghost var front, payload := out[..p], out[p..];
      OpenGap(p, if s < LIST_IMM_LEN_COUNT then 1 else 1 + brs);
      if s < LIST_IMM_LEN_COUNT {
        PrefixPut(out, p, LIST_START + s);
        out := out[p := LIST_START + s];
      } else if LIST_IND_LEN_ZERO + brs <= 0xff {
        PrefixPut(out, p, LIST_IND_LEN_ZERO + brs);
        out := out[p := LIST_IND_LEN_ZERO + brs];
        PutBackwards(p + brs, s);
        LongHeaderInFront(front, LIST_IND_LEN_ZERO + brs, Compact(s), payload);
      } else {
        return Err(TooLargeForRlp);
      }
      return Ok(());
    }

    /** Appends bytes that the caller says are itemCount whole encoded items; with a count of zero, just bytes. */
    method AppendRaw(s: seq<byte>, itemCount: nat, ghost items: seq<Item>) returns (r: Result<(), StreamError>)
      requires |items| == itemCount
      requires itemCount > 0 ==> Pending(model, out + s, listStack, items)
      modifies this
      ensures itemCount == 0 ==>
                r == Ok(()) && out == old(out) + s && listStack == old(listStack) && model == old(model)
      ensures itemCount > 0 ==> Added(r, NoteItems(old(model), items))
    {
      out := out + s;
      if itemCount == 0 {
        return Ok(());
      }
      r := NoteAppended(itemCount, items);
    }

    method AppendList(n: nat) returns (r: Result<(), StreamError>)
      requires Valid()
      modifies this
      ensures Added(r, if n == 0 then AddItem(old(model), List([])) else Ok(BeginList(old(model), n)))
    {
      if n != 0 {
        listStack, model := listStack + [Frame(n, |out|)], BeginList(model, n);
        assert listStack[..|listStack| - 1] == old(listStack);
        assert model.open[..|listStack| - 1] == old(model).open;
        assert out[..|out|] == out && out[|out|..] == [];
        return Ok(());
      }
      r := AppendEncodedList([], []);
    }

    /** Appends a list whose contents are already encoded. */
    method AppendEncodedList(rlp: seq<byte>, ghost ts: seq<Item>) returns (r: Result<(), StreamError>)
      requires Valid() && EncodeAll(ts) == Some(rlp) && |rlp| < SIZE_LIMIT
      modifies this
      ensures Added(r, AddItem(old(model), List(ts)))
    {
      PushPrefix(|rlp|, ListKind);
      assert out + rlp == old(out) + Encode(List(ts)).value;
      PendingItem(model, old(out), listStack, List(ts), Encode(List(ts)).value);
      r := AppendRaw(rlp, 1, [List(ts)]);
    }

    method AppendData(s: seq<byte>, compact: bool) returns (r: Result<(), StreamError>)
      requires Valid() && |s| < SIZE_LIMIT
      modifies this
      ensures Added(r, AddItem(old(model), Str(if compact then StripZeros(s) else s)))
    {
      var d: seq<byte> := s;
      if compact {
        while d != [] && d[0] == 0
          invariant StripZeros(d) == StripZeros(s) && |d| <= |s|
        {
          d := d[1..];
        }
      }
      SizeFits(|d|);
      ghost var e := EncodeData(d).value;
      if |d| == 1 && d[0] < DATA_IMM_LEN_START {
        out := out + [d[0]];
        assert [d[0]] == d;
      } else {
        PushPrefix(|d|, DataKind);
        assert out + d == old(out) + e;
        var _ := AppendRaw(d, 0, []);
      }
      assert out == old(out) + e;
      PendingItem(model, old(out), listStack, Str(d), e);
      r := NoteAppended(1, [Str(d)]);
    }

    /** Prefix and bytes of an integer that needs them. */
    method PushIntData(i: nat) returns (r: Result<(), StreamError>)
      requires i >= DATA_IMM_LEN_START && |Compact(i)| < 0x1_0000_0000
      modifies this`out
      ensures r == Ok(()) && Header(DataKind, |Compact(i)|).Some?
      ensures out == old(out) + (Header(DataKind, |Compact(i)|).value + Compact(i))
    {
      var br := BytesRequired(i);
      SizeFits(br);
      if br < DATA_IMM_LEN_COUNT {
        out := out + [br + DATA_IMM_LEN_START];
      } else {
        var brbr := BytesRequired(br);
        if DATA_IND_LEN_ZERO + brbr > 0xff {
          return Err(TooLargeForRlp);
        }
        out := out + [DATA_IND_LEN_ZERO + brbr];
        PushInt(br, brbr);
      }
      assert out == old(out) + Header(DataKind, br).value;
      PushInt(i, br);
      return Ok(());
    }

    /** An integer goes out as its compact bytes. The source counts bytes in 32 bits. */
    method AppendInt(i: nat) returns (r: Result<(), StreamError>)
      requires Valid() && |Compact(i)| < 0x1_0000_0000
      modifies this
      ensures Added(r, AddItem(old(model), Str(Compact(i))))
    {
      SmallCompact(i);
      SizeFits(|Compact(i)|);
      if i == 0 {
        out := out + [DATA_IMM_LEN_START];
      } else if i < DATA_IMM_LEN_START {
        out := out + [i];
      } else {
        var _ := PushIntData(i);
      }
      PendingItem(model, old(out), listStack, Str(Compact(i)), EncodeData(Compact(i)).value);
      r := NoteAppended(1, [Str(Compact(i))]);
    }

    /** A nested collection: its size as a list header to come, then each element. */
    method AppendItem(t: Item) returns (r: Result<(), StreamError>)
      requires Valid() && StringsFit(t)
      modifies this
      ensures Added(r, AddItem(old(model), t))
      decreases t, 0
    {
      DriveAddsTheTree(model, t);
      match t {
        case Str(s) =>
          r := AppendData(s, false);
        case List(ts) =>
          r := AppendList(|ts|);
          if ts != [] {
            r := AppendItems(ts);
          }
      }
    }

    method AppendItems(ts: seq<Item>) returns (r: Result<(), StreamError>)
      requires Valid() && forall i :: 0 <= i < |ts| ==> StringsFit(ts[i])
      modifies this
      ensures Added(r, DriveAll(old(model), ts))
      decreases ts, 1
    {
      if ts == [] {
        return Ok(());
      }
      DriveAddsTheTree(model, ts[0]);
      r := AppendItem(ts[0]);
      if r.Ok? {
        r := AppendItems(ts[1..]);
      }
    }

    method Out() returns (r: Result<seq<byte>, StreamError>)
      requires Valid()
      ensures r == if model.open != [] then Err(ListStackNotEmpty) else Ok(EncodeAll(model.done).value)
    {
      if |listStack| != 0 {
        return Err(ListStackNotEmpty);
      }
      return Ok(out);
    }
  }

  lemma PrefixPut(s: seq<byte>, p: nat, prefix: byte)
    requires p < |s|
    ensures s[p := prefix] == s[..p] + ([prefix] + s[p + 1..]) && s[p := prefix][..p + 1] == s[..p] + [prefix]
    ensures forall i :: p < i <= |s| ==> s[p := prefix][i..] == s[i..]
  {
  }

  lemma LongHeaderInFront(front: seq<byte>, prefix: byte, length: seq<byte>, payload: seq<byte>)
    ensures (front + [prefix]) + length + payload == front + (([prefix] + length) + payload)
  {
  }

  lemma PutAt(s: seq<byte>, b: nat, last: nat, d: byte)
    requires b <= last < |s|
    ensures s[b := d][b..last + 1] == [d] + s[b + 1..last + 1]
    ensures s[b := d][..b] == s[..b + 1][..b] && s[b := d][last + 1..] == s[last + 1..]
  {
  }

  lemma SizeFits(n: nat)
    ensures n < SIZE_LIMIT <==> |Compact(n)| <= MAX_LENGTH_BYTES
  {
    CompactLength(n, 8);
    assert Pow256(8) == SIZE_LIMIT by {
      assert Pow256(4) == 0x1_0000_0000;
    }
  }

  lemma SmallCompact(i: nat)
    ensures i == 0 ==> EncodeData(Compact(i)) == Some([DATA_IMM_LEN_START])
    ensures 0 < i < DATA_IMM_LEN_START ==> EncodeData(Compact(i)) == Some([i])
    ensures i >= DATA_IMM_LEN_START && Header(DataKind, |Compact(i)|).Some? ==>
              EncodeData(Compact(i)) == Some(Header(DataKind, |Compact(i)|).value + Compact(i))
  {
    if i == 0 {
      assert [DATA_IMM_LEN_START] + Compact(0) == [DATA_IMM_LEN_START];
    } else if i < 256 {
      assert Compact(i) == [i];
    } else {
      assert |Compact(i / 256)| >= 1;
    }
  }

  /** Every byte string of the tree has a size_t for its size. */
  ghost predicate StringsFit(t: Item) {
    match t
    case Str(s) => |s| < SIZE_LIMIT
    case List(ts) => forall i :: 0 <= i < |ts| ==> StringsFit(ts[i])
  }

  /** rlp and rlpList: the bytes of one item, written by a fresh stream, are its recursive encoding. */
  method Rlp(t: Item) returns (r: Result<seq<byte>, StreamError>)
    requires StringsFit(t)
    ensures r == if Encode(t).None? then Err(TooLargeForRlp) else Ok(Encode(t).value)
  {
    var stream := new RLPStream();
    var added := stream.AppendItem(t);
    EncodeOne(t);
    if added.Err? {
      return Err(added.error);
    }
    assert [] + [t] == [t];
    r := stream.Out();
  }
}
