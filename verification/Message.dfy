/** The messages between two nodes: the bytes of one send_data call with a sequence number behind them. */
module Message {
  import opened BigEndian

  const SEQ_BYTES: nat := 4
  const MAX_SEQ: int := 0x7FFF_FFFF

  /** A number as four bytes in memory, on a little-endian host. */
  function Trailer(n: nat): (s: seq<byte>)
    ensures |s| == SEQ_BYTES
  {
    [n % 256, n / 256 % 256, n / 0x1_0000 % 256, n / 0x100_0000 % 256]
  }

  /** Four bytes of memory as a signed integer. */
  function Number(s: seq<byte>): int
    requires |s| == SEQ_BYTES
  {
    var v: int := (s[0] as int) + 256 * (s[1] as int) + 0x1_0000 * (s[2] as int) + 0x100_0000 * (s[3] as int);
    if v > MAX_SEQ then v - 0x1_0000_0000 else v
  }

  function Frame(data: seq<byte>, n: nat): seq<byte> {
    data + Trailer(n)
  }

  /** Where inputData cuts a message. */
  function DataOf(message: seq<byte>): seq<byte>
    requires |message| >= SEQ_BYTES
  {
    message[..|message| - SEQ_BYTES]
  }

  function SeqOf(message: seq<byte>): int
    requires |message| >= SEQ_BYTES
  {
    Number(message[|message| - SEQ_BYTES..])
  }

  /** The four bytes behind the data, the low-order one first. */
  lemma FrameIs(data: seq<byte>, n: nat)
    requires n < 0x8000_0000
    ensures exists b0: byte, b1: byte, b2: byte, b3: byte ::
              && Frame(data, n) == data + [b0, b1, b2, b3]
              && n == b0 as int + 0x100 * (b1 as int) + 0x1_0000 * (b2 as int) + 0x100_0000 * (b3 as int)
  {
    Base256(n);
    var b0: byte, b1: byte := n % 256, n / 256 % 256;
    var b2: byte, b3: byte := n / 0x1_0000 % 256, n / 0x100_0000 % 256;
    assert Frame(data, n) == data + [b0, b1, b2, b3];
  }

  /** What the sender framed the receiver reads back, whatever the data; numbers from 2^31 on come out negative. */
  lemma FrameReads(data: seq<byte>, n: nat)
    requires n < 0x1_0000_0000
    ensures DataOf(Frame(data, n)) == data
    ensures SeqOf(Frame(data, n)) == if n < 0x8000_0000 then n else n - 0x1_0000_0000
  {
    assert Frame(data, n)[|data|..] == Trailer(n);
    Base256(n);
  }

  lemma FrameSurvives(data: seq<byte>, n: nat)
    requires n <= MAX_SEQ
    ensures DataOf(Frame(data, n)) == data && SeqOf(Frame(data, n)) == n
  {
    FrameReads(data, n);
  }

  lemma Base256(n: nat)
    ensures n < 0x1_0000_0000 ==>
              n == n % 256 + 256 * (n / 256 % 256) + 0x1_0000 * (n / 0x1_0000 % 256)
                   + 0x100_0000 * (n / 0x100_0000 % 256)
  {
    assert n / 0x1_0000 == n / 256 / 256;
    assert n / 0x100_0000 == n / 256 / 256 / 256;
  }

  /** One end of the channel, as far as it sends. */
  class Sender {
    var seqNo: int
    var sendLen: int
    ghost var sent: seq<seq<byte>>

    ghost predicate Valid()
      reads this
    {
      seqNo == |sent|
    }

    constructor ()
      ensures Valid() && sent == [] && sendLen == 0
    {
      seqNo, sendLen, sent := 0, 0, [];
    }

    /** reached: whether forwarding to the peer succeeds. The sequence number is used up either way. */
    method SendData(data: seq<byte>, reached: bool) returns (ret: int, message: seq<byte>)
      requires Valid() && seqNo < MAX_SEQ
      modifies this
      ensures Valid() && sent == old(sent) + [data]
      ensures |message| >= SEQ_BYTES && DataOf(message) == data && SeqOf(message) == |sent|
      ensures ret == (if reached then |data| else -1) && sendLen == old(sendLen) + if reached then |data| else 0
    {
      seqNo := seqNo + 1;
      sent := sent + [data];
      message := data + Trailer(seqNo);
      FrameSurvives(data, seqNo);
      if !reached {
        return -1, message;
      }
      sendLen := sendLen + |data|;
      return |data|, message;
    }
  }
}
