/** The receiving side: parking, the processor's buffer queue, and recv_data, each against the functions of Stream. */
module Receiver {
  import opened Wrappers
  import opened BigEndian
  import opened Stream
  import Message

  /** The buffers that came for a task while no processor had it. */
  class FirstInputs {
    var parked: map<string, map<int, Buffer>>

    constructor ()
      ensures parked == map[]
    {
      parked := map[];
    }

    function Of(task: string): map<int, Buffer>
      reads this
    {
      if task in parked then parked[task] else map[]
    }

    method PutFirstInputBuffer(task: string, buffer: Buffer)
      modifies this
      ensures parked == old(parked)[task := Put(old(Of(task)), buffer)]
    {
      var buffers := map[];
      if task in parked {
        buffers := parked[task];
      }
      buffers := buffers[buffer.seqNo := buffer];
      parked := parked[task := buffers];
    }

    method RemoveFirstInputBuffer(task: string) returns (found: bool, buffers: map<int, Buffer>)
      modifies this
      ensures found == (task in old(parked)) && buffers == old(Of(task)) && parked == old(parked) - {task}
    {
      found, buffers := task in parked, map[];
      if found {
        buffers := parked[task];
      }
      parked := parked - {task};
    }
  }

  /** What inputBuffer makes of a queue while the reader waits, one batch a wait. */
  function AfterBatch(queue: map<int, Buffer>, batch: seq<Buffer>): map<int, Buffer> {
    if batch == [] then queue else Put(AfterBatch(queue, batch[..|batch| - 1]), batch[|batch| - 1])
  }

  function AfterBatches(queue: map<int, Buffer>, batches: seq<seq<Buffer>>): map<int, Buffer> {
    if batches == [] then queue
    else AfterBatch(AfterBatches(queue, batches[..|batches| - 1]), batches[|batches| - 1])
  }

  /** What consumeBuffer works on. */
  datatype Side = Side(queue: map<int, Buffer>, parked: map<int, Buffer>, running: bool, requestSeq: int)

  /** The queue after i waits; a stopped processor does not wait. */
  function Moment(s: Side, arrivals: seq<seq<Buffer>>, i: nat): map<int, Buffer>
    requires i <= |arrivals|
  {
    AfterBatches(Merge(s.queue, s.parked), arrivals[..i])
  }

  /** After i waits, and not before, the next number is the smallest one queued. */
  ghost predicate IsServed(s: Side, arrivals: seq<seq<Buffer>>, i: nat) {
    && i <= (if s.running then |arrivals| else 0)
    && Available(Moment(s, arrivals, i), s.requestSeq)
    && forall j: nat :: j < i ==> !Available(Moment(s, arrivals, j), s.requestSeq)
  }

  function Served(s: Side, arrivals: seq<seq<Buffer>>, i: nat): Side
    requires i <= |arrivals|
  {
    Side(Removed(Moment(s, arrivals, i), s.requestSeq + 1), map[], s.running, s.requestSeq + 1)
  }

  /** What a call of consumeBuffer leaves; None if it fails. */
  ghost function Consumed(s: Side, arrivals: seq<seq<Buffer>>): Option<Side> {
    if exists i: nat :: IsServed(s, arrivals, i) then
      var i: nat :| IsServed(s, arrivals, i);
      Some(Served(s, arrivals, i))
    else None
  }

  lemma ServedOnce(s: Side, arrivals: seq<seq<Buffer>>, i: nat, j: nat)
    requires IsServed(s, arrivals, i) && IsServed(s, arrivals, j)
    ensures i == j
  {
    hide Available, Moment;
  }

  /** Where the waiting ends, and what that decides. */
  lemma WaitedFor(s: Side, arrivals: seq<seq<Buffer>>, waits: nat)
    requires waits <= |arrivals| && (!s.running ==> waits == 0)
    requires forall j: nat :: j < waits ==> !Available(Moment(s, arrivals, j), s.requestSeq)
    ensures Available(Moment(s, arrivals, waits), s.requestSeq) ==>
              Consumed(s, arrivals) == Some(Served(s, arrivals, waits))
    ensures !Available(Moment(s, arrivals, waits), s.requestSeq) && (s.running ==> waits == |arrivals|) ==>
              Consumed(s, arrivals) == None
  {
    hide Available, Moment, Served;
    if Available(Moment(s, arrivals, waits), s.requestSeq) {
      assert IsServed(s, arrivals, waits);
      forall i: nat | IsServed(s, arrivals, i) ensures i == waits {
        ServedOnce(s, arrivals, i, waits);
      }
    }
  }

  /** After n calls, each with what arrives during it; None if one of them fails. */
  ghost function AfterCalls(s: Side, arrivals: seq<seq<seq<Buffer>>>, n: nat): Option<Side> {
    if n == 0 then Some(s)
    else
      var t := AfterCalls(s, arrivals, n - 1);
      if t.None? then None else Consumed(t.value, DuringCall(arrivals, n - 1))
  }

  function DuringCall(arrivals: seq<seq<seq<Buffer>>>, n: nat): seq<seq<Buffer>> {
    if n < |arrivals| then arrivals[n] else []
  }

  lemma {:induction false} FewerCalls(s: Side, arrivals: seq<seq<seq<Buffer>>>, m: nat, n: nat)
    requires m <= n && AfterCalls(s, arrivals, n).Some?
    ensures AfterCalls(s, arrivals, m).Some?
  {
    if m == n {
    } else {
      FewerCalls(s, arrivals, m, n - 1);
    }
  }

  class Processor {
    var task: string
    var running: bool
    var queue: map<int, Buffer>
    var requestSeq: int
    var bufferSeq: int

    ghost function State(inputs: FirstInputs): Side
      reads this, inputs
    {
      Side(queue, inputs.Of(task), running, requestSeq)
    }

    constructor ()
      ensures task == "" && running && queue == map[] && requestSeq == bufferSeq == 0
    {
      task, running, queue, requestSeq, bufferSeq := "", true, map[], 0, 0;
    }

    /** A new task: the counters start over; the buffers are left as they are. */
    method StartTask(newTask: string)
      modifies this
      ensures task == newTask && requestSeq == bufferSeq == 0 && queue == old(queue) && running == old(running)
    {
      task := newTask;
      bufferSeq := 0;
      requestSeq := 0;
    }

    method InputBuffer(buffer: Buffer)
      modifies this`queue
      ensures queue == Put(old(queue), buffer)
    {
      queue := queue[buffer.seqNo := buffer];
    }

    method InputBatch(batch: seq<Buffer>)
      modifies this`queue
      ensures queue == AfterBatch(old(queue), batch)
    {
      for i := 0 to |batch|
        invariant queue == AfterBatch(old(queue), batch[..i])
      {
        assert batch[..i + 1][..i] == batch[..i];
        InputBuffer(batch[i]);
      }
      assert batch[..|batch|] == batch;
    }

    /** arrivals: what other threads put into the queue during each wait; after the last one the processor is stopped.
        The reader returns as soon as the smallest number in its queue is the next one, and not before. */
    method ConsumeBuffer(inputs: FirstInputs, arrivals: seq<seq<Buffer>>)
      returns (ret: int, buffer: Option<Buffer>, ghost waits: nat)
      modifies this, inputs
      ensures task == old(task) && inputs.parked == old(inputs.parked) - {task}
      ensures waits <= |arrivals| && (ret == 0 || ret == -1)
      ensures var merged := Merge(old(queue), old(inputs.Of(task)));
              forall i :: 0 <= i < waits ==> !Available(AfterBatches(merged, arrivals[..i]), old(requestSeq))
      ensures var now := AfterBatches(Merge(old(queue), old(inputs.Of(task))), arrivals[..waits]);
              && (ret == 0 <==> Available(now, old(requestSeq)))
              && (ret == 0 ==> buffer == Some(now[First(now)]) && queue == Removed(now, now[First(now)].seqNo)
                               && requestSeq == old(requestSeq) + 1)
              && (ret == -1 ==> buffer == None && queue == now && requestSeq == old(requestSeq)
                                && !running && (waits == |arrivals| || !old(running)))
      ensures (ret == 0 ==> running == old(running)) && (!old(running) ==> waits == 0)
      ensures bufferSeq == old(bufferSeq) + if ret == 0 then 1 else 0
      ensures ret == 0 <==> Consumed(old(State(inputs)), arrivals).Some?
      ensures ret == 0 ==> Some(State(inputs)) == Consumed(old(State(inputs)), arrivals)
    {
      ghost var before := State(inputs);
      var _, buffers := inputs.RemoveFirstInputBuffer(task);
      queue := Merge(queue, buffers);
      ghost var merged := queue;
      waits := 0;
      var n := 0;
      assert arrivals[..0] == [];
      while running
        invariant n == waits <= |arrivals| && requestSeq == old(requestSeq) && task == old(task)
        invariant inputs.parked == old(inputs.parked) - {task} && bufferSeq == old(bufferSeq)
        invariant queue == AfterBatches(merged, arrivals[..n])
        invariant forall i :: 0 <= i < n ==> !Available(AfterBatches(merged, arrivals[..i]), requestSeq)
        invariant !running ==> n == |arrivals| || !old(running)
        invariant (!old(running) ==> n == 0 && !running)
        invariant !running && old(running) ==> !Available(queue, requestSeq)
        decreases |arrivals| - n, running
      {
        if Available(queue, requestSeq) {
          break;
        }
        if n < |arrivals| {
          assert arrivals[..n + 1][..n] == arrivals[..n];
          InputBatch(arrivals[n]);
          n := n + 1;
          waits := waits + 1;
        } else {
          running := false;
        }
      }
      WaitedFor(before, arrivals, waits);
      if Available(queue, requestSeq) {
        var found := queue[First(queue)];
        queue := Removed(queue, found.seqNo);
        bufferSeq := bufferSeq + 1;
        requestSeq := requestSeq + 1;
        return 0, Some(found), waits;
      }
      return -1, None, waits;
    }
  }

  /** The first processor that works on the task gets the buffer; without one it is parked. Nothing else changes. */
  twostate predicate Placed(inited: bool, processors: seq<Processor>, inputs: FirstInputs, task: string, buffer: Buffer)
    reads processors, inputs
  {
    && (forall p :: p in processors ==> p.task == old(p.task) && p.requestSeq == old(p.requestSeq))
    && if !inited then inputs.parked == old(inputs.parked) && forall p :: p in processors ==> p.queue == old(p.queue)
       else if forall p :: p in processors ==> p.task != task then
         && inputs.parked == old(inputs.parked)[task := Put(old(inputs.Of(task)), buffer)]
         && forall p :: p in processors ==> p.queue == old(p.queue)
       else
         && inputs.parked == old(inputs.parked)
         && exists i :: 0 <= i < |processors| && processors[i].task == task
              && (forall j :: 0 <= j < i ==> processors[j].task != task)
              && processors[i].queue == Put(old(processors[i].queue), buffer)
              && forall p :: p in processors && p != processors[i] ==> p.queue == old(p.queue)
  }

  method PutBuffer(inited: bool, processors: seq<Processor>, inputs: FirstInputs, task: string, buffer: Buffer)
    returns (ret: int)
    modifies processors, inputs
    ensures ret == if inited then 0 else -1
    ensures Placed(inited, processors, inputs, task, buffer)
  {
    if !inited {
      return -1;
    }
    for i := 0 to |processors|
      invariant forall j :: 0 <= j < i ==> processors[j].task != task
      invariant forall p :: p in processors ==>
                  p.queue == old(p.queue) && p.task == old(p.task) && p.requestSeq == old(p.requestSeq)
      invariant inputs.parked == old(inputs.parked)
    {
      if processors[i].task == task {
        processors[i].InputBuffer(buffer);
        return 0;
      }
    }
    inputs.PutFirstInputBuffer(task, buffer);
    return 0;
  }

  /** A message from the network: its last four bytes are the sequence number, the rest is the data. */
  method InputData(inited: bool, processors: seq<Processor>, inputs: FirstInputs, task: string, from: string,
                   message: seq<byte>)
    returns (buffer: Buffer)
    requires |message| >= Message.SEQ_BYTES
    modifies processors, inputs
    ensures Placed(inited, processors, inputs, task, buffer)
    ensures forall data, n: nat :: n <= Message.MAX_SEQ && message == Message.Frame(data, n) ==>
              buffer == Buffer(n, task, from, data)
  {
    forall data, n: nat | n <= Message.MAX_SEQ && message == Message.Frame(data, n)
      ensures Message.DataOf(message) == data && Message.SeqOf(message) == n
    {
      Message.FrameSurvives(data, n);
    }
    buffer := Buffer(Message.SeqOf(message), task, from, Message.DataOf(message));
    var _ := PutBuffer(inited, processors, inputs, task, buffer);
  }

  // ---- recv_data

  function Bytes(log: seq<Buffer>, task: string): seq<byte> {
    if log == [] then [] else Bytes(log[..|log| - 1], task) + Payload(log[|log| - 1], task)
  }

  lemma {:induction false} BytesAreData(log: seq<Buffer>, parts: seq<seq<byte>>, task: string)
    requires |log| == |parts| && forall i :: 0 <= i < |log| ==> log[i].task == task && log[i].data == parts[i]
    ensures Bytes(log, task) == Concat(parts)
  {
    if log == [] {
    } else {
      BytesAreData(log[..|log| - 1], parts[..|log| - 1], task);
    }
  }

  lemma BytesNext(log: seq<Buffer>, n: nat, task: string)
    requires n < |log|
    ensures Bytes(log[..n + 1], task) == Bytes(log[..n], task) + Payload(log[n], task)
  {
    assert log[..n + 1][..n] == log[..n];
  }

  /** Each buffer is the message of its number. */
  ghost predicate From(log: seq<Buffer>, m: map<int, Buffer>) {
    forall k :: k in m ==> 1 <= k <= |log| && m[k] == log[k - 1] && m[k].seqNo == k
  }

  ghost predicate BatchFrom(log: seq<Buffer>, batch: seq<Buffer>) {
    forall i :: 0 <= i < |batch| ==> 1 <= batch[i].seqNo <= |log| && batch[i] == log[batch[i].seqNo - 1]
  }

  ghost predicate BatchesFrom(log: seq<Buffer>, batches: seq<seq<Buffer>>) {
    forall i :: 0 <= i < |batches| ==> BatchFrom(log, batches[i])
  }

  lemma {:induction false} BatchKeepsFrom(log: seq<Buffer>, queue: map<int, Buffer>, batch: seq<Buffer>)
    requires From(log, queue) && BatchFrom(log, batch)
    ensures From(log, AfterBatch(queue, batch))
  {
    if batch == [] {
    } else {
      BatchKeepsFrom(log, queue, batch[..|batch| - 1]);
    }
  }

  lemma {:induction false} BatchesKeepFrom(log: seq<Buffer>, queue: map<int, Buffer>, batches: seq<seq<Buffer>>)
    requires From(log, queue) && BatchesFrom(log, batches)
    ensures From(log, AfterBatches(queue, batches))
  {
    hide From, BatchFrom;
    if batches == [] {
    } else {
      BatchesKeepFrom(log, queue, batches[..|batches| - 1]);
      BatchKeepsFrom(log, AfterBatches(queue, batches[..|batches| - 1]), batches[|batches| - 1]);
    }
  }

  lemma MergedFrom(log: seq<Buffer>, queue: map<int, Buffer>, parked: map<int, Buffer>)
    requires From(log, queue) && From(log, parked)
    ensures From(log, Merge(queue, parked))
  {
  }

  lemma QueueFrom(log: seq<Buffer>, queue: map<int, Buffer>, arrivals: seq<seq<Buffer>>, waits: nat)
    requires From(log, queue) && BatchesFrom(log, arrivals) && waits <= |arrivals|
    ensures From(log, AfterBatches(queue, arrivals[..waits]))
  {
    assert BatchesFrom(log, arrivals[..waits]);
    BatchesKeepFrom(log, queue, arrivals[..waits]);
  }

  /** An available buffer is the next message of the log; what is left when it is taken are messages of the log. */
  lemma NextFrom(log: seq<Buffer>, queue: map<int, Buffer>, requestSeq: int)
    requires From(log, queue) && Available(queue, requestSeq) && 0 <= requestSeq
    ensures requestSeq < |log| && queue[First(queue)] == log[requestSeq]
    ensures From(log, Removed(queue, queue[First(queue)].seqNo))
  {
    assert First(queue) in queue;
  }

  lemma PayloadIs(b: Buffer, task: string)
    ensures Payload(b, task) == if b.task == task then b.data else []
  {
  }

  /** After n served calls there are that many bytes in all. */
  ghost predicate Reaches(log: seq<Buffer>, task: string, s: Side, arrivals: seq<seq<seq<Buffer>>>, want: nat, n: nat) {
    && AfterCalls(s, arrivals, n).Some?
    && 0 <= s.requestSeq + n <= |log| && |Bytes(log[..s.requestSeq + n], task)| >= want
  }

  ghost predicate CanReach(log: seq<Buffer>, task: string, s: Side, arrivals: seq<seq<seq<Buffer>>>, want: nat) {
    exists n: nat :: Reaches(log, task, s, arrivals, want, n)
  }

  lemma CannotReach(log: seq<Buffer>, task: string, s: Side, arrivals: seq<seq<seq<Buffer>>>, want: nat, n: nat)
    requires 0 <= s.requestSeq && s.requestSeq + n <= |log| && |Bytes(log[..s.requestSeq + n], task)| < want
    requires AfterCalls(s, arrivals, n + 1).None?
    ensures !CanReach(log, task, s, arrivals, want)
  {
    hide Bytes, AfterCalls;
    forall m: nat ensures !Reaches(log, task, s, arrivals, want, m) {
      NotReached(log, task, s, arrivals, want, n, m);
    }
  }

  lemma NotReached(log: seq<Buffer>, task: string, s: Side, arrivals: seq<seq<seq<Buffer>>>, want: nat, n: nat, m: nat)
    requires 0 <= s.requestSeq && s.requestSeq + n <= |log| && |Bytes(log[..s.requestSeq + n], task)| < want
    requires AfterCalls(s, arrivals, n + 1).None?
    ensures !Reaches(log, task, s, arrivals, want, m)
  {
    hide Bytes, AfterCalls;
    if n < m {
      if AfterCalls(s, arrivals, m).Some? {
        FewerCalls(s, arrivals, n + 1, m);
      }
    } else {
      BytesGrow(log[..s.requestSeq + n], s.requestSeq + m, task);
      assert log[..s.requestSeq + n][..s.requestSeq + m] == log[..s.requestSeq + m];
    }
  }

  class Channel {
    const processor: Processor
    var recvBuffer: seq<byte>
    var recvLen: int
    ghost var returned: seq<byte>

    /** log: all messages of the peer, in the order it sent them. */
    ghost predicate Valid(log: seq<Buffer>, inputs: FirstInputs)
      reads this, processor, inputs
    {
      && 0 <= processor.requestSeq <= |log|
      && From(log, processor.queue) && From(log, inputs.Of(processor.task))
      && returned + recvBuffer == Bytes(log[..processor.requestSeq], processor.task)
    }

    constructor (processor: Processor)
      ensures this.processor == processor && recvBuffer == returned == [] && recvLen == 0
    {
      this.processor := processor;
      recvBuffer, recvLen, returned := [], 0, [];
    }

    /** One message into the receive buffer. */
    method Receive(inputs: FirstInputs, arrivals: seq<seq<Buffer>>, ghost log: seq<Buffer>) returns (ret: int)
      requires Valid(log, inputs) && BatchesFrom(log, arrivals)
      modifies this, processor, inputs
      ensures Valid(log, inputs) && returned == old(returned) && processor.task == old(processor.task)
      ensures recvLen == old(recvLen)
      ensures ret == 0 || ret == -1
      ensures ret == 0 <==> Consumed(old(processor.State(inputs)), arrivals).Some?
      ensures ret == 0 ==> Some(processor.State(inputs)) == Consumed(old(processor.State(inputs)), arrivals)
      ensures ret == 0 ==> processor.requestSeq == old(processor.requestSeq) + 1
      ensures ret != 0 ==> recvBuffer == old(recvBuffer) && processor.requestSeq == old(processor.requestSeq)
    {
      hide AfterBatches, Merge, Removed, Bytes, First, Payload, BatchFrom;
      ghost var merged := Merge(processor.queue, inputs.Of(processor.task));
      MergedFrom(log, processor.queue, inputs.Of(processor.task));
      var r, b, waits := processor.ConsumeBuffer(inputs, arrivals);
      QueueFrom(log, merged, arrivals, waits);
      assert inputs.Of(processor.task) == map[];
      if r != 0 || b == None {
        return -1;
      }
      NextFrom(log, AfterBatches(merged, arrivals[..waits]), old(processor.requestSeq));
      BytesNext(log, old(processor.requestSeq), processor.task);
      assert b.value == log[old(processor.requestSeq)];
      if b.value.task == processor.task {
        recvBuffer := recvBuffer + b.value.data;
      }
      PayloadIs(b.value, processor.task);
      return 0;
    }

    /** The bytes handed out are the next ones of the stream, whatever has arrived in which order. Messages are
        consumed until there are enough bytes and no further; the call fails exactly if one of these cannot be. */
    method RecvData(len: nat, inputs: FirstInputs, arrivals: seq<seq<seq<Buffer>>>, ghost log: seq<Buffer>)
      returns (ret: int, data: seq<byte>)
      requires Valid(log, inputs) && forall i :: 0 <= i < |arrivals| ==> BatchesFrom(log, arrivals[i])
      modifies this, processor, inputs
      ensures Valid(log, inputs) && processor.task == old(processor.task)
      ensures returned == old(returned) + data && returned <= Bytes(log, processor.task)
      ensures (ret == len && |data| == len) || (ret == -1 && data == [])
      ensures ret == -1 || recvLen == old(recvLen) + len
      // As many messages as it takes, and on failure all that could be had.
      ensures forall n :: old(processor.requestSeq) <= n < processor.requestSeq ==>
                |Bytes(log[..n], processor.task)| < |old(returned)| + len
      ensures ret == len <==> |Bytes(log[..processor.requestSeq], processor.task)| >= |old(returned)| + len
      ensures ret == len <==>
              CanReach(log, processor.task, old(processor.State(inputs)), arrivals, |old(returned)| + len)
      // What the calls of consumeBuffer have left.
      ensures processor.requestSeq >= old(processor.requestSeq)
      ensures var s, n := old(processor.State(inputs)), processor.requestSeq - old(processor.requestSeq);
              && AfterCalls(s, arrivals, n).Some?
              && (ret == -1 ==> AfterCalls(s, arrivals, n + 1).None?)
              && (ret != -1 ==> AfterCalls(s, arrivals, n) == Some(processor.State(inputs)))
      // Bytes that are at hand are handed out at once.
      ensures old(|recvBuffer|) >= len ==>
                && ret == len && data == old(recvBuffer)[..len] && recvBuffer == old(recvBuffer)[len..]
                && unchanged(processor) && unchanged(inputs)
    {
      hide Bytes, From, BatchFrom, Consumed;
      ghost var before := processor.State(inputs);
      var calls := 0;
      while |recvBuffer| < len
        invariant Valid(log, inputs) && returned == old(returned) && processor.task == old(processor.task)
        invariant recvLen == old(recvLen) && calls == processor.requestSeq - old(processor.requestSeq)
        invariant forall n :: old(processor.requestSeq) <= n < processor.requestSeq ==>
                    |Bytes(log[..n], processor.task)| < |old(returned)| + len
        invariant AfterCalls(before, arrivals, calls) == Some(processor.State(inputs))
        invariant calls == 0 ==> unchanged(processor) && unchanged(inputs) && recvBuffer == old(recvBuffer)
        invariant calls > 0 ==> old(|recvBuffer|) < len
        decreases |log| - processor.requestSeq
      {
        assert returned + recvBuffer == Bytes(log[..processor.requestSeq], processor.task);
        var r := Receive(inputs, DuringCall(arrivals, calls), log);
        if r != 0 {
          BytesPrefix(log, processor.requestSeq, processor.task, returned, recvBuffer);
          CannotReach(log, processor.task, before, arrivals, |returned| + len, calls);
          return -1, [];
        }
        calls := calls + 1;
      }
      assert Reaches(log, processor.task, before, arrivals, |returned| + len, calls);
      data := recvBuffer[..len];
      BytesPrefix(log, processor.requestSeq, processor.task, returned + data, recvBuffer[len..]);
      assert returned + recvBuffer == (returned + data) + recvBuffer[len..];
      recvBuffer := recvBuffer[len..];
      recvLen := recvLen + len;
      returned := returned + data;
      return len, data;
    }
  }

  lemma {:induction false} BytesGrow(log: seq<Buffer>, n: nat, task: string)
    requires n <= |log|
    ensures Bytes(log[..n], task) <= Bytes(log, task)
  {
    if n == |log| {
      assert log[..n] == log;
    } else {
      BytesGrow(log[..|log| - 1], n, task);
      assert log[..|log| - 1][..n] == log[..n];
    }
  }

  lemma BytesPrefix(log: seq<Buffer>, n: nat, task: string, a: seq<byte>, b: seq<byte>)
    requires n <= |log| && a + b == Bytes(log[..n], task)
    ensures a <= Bytes(log, task)
  {
    BytesGrow(log, n, task);
    PrefixOfPrefix(a, b, Bytes(log, task));
  }
}
