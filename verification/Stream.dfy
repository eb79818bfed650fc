/** The byte stream between two nodes: messages arrive in any order, at a processor or before there is one, and are put
    together again by sequence number. */
module Stream {
  import opened Wrappers
  import opened BigEndian

  datatype Buffer = Buffer(seqNo: int, task: string, from: string, data: seq<byte>)

  // ---- The receiving side of one task

  /** queue: the processor's buffers; parked: those that came before a processor had the task. */
  datatype Inbox = Inbox(queue: map<int, Buffer>, parked: map<int, Buffer>, requestSeq: int)

  ghost predicate IsFirst(queue: map<int, Buffer>, k: int) {
    k in queue && forall j :: j in queue ==> k <= j
  }

  lemma {:induction false} FirstExists(keys: set<int>)
    requires exists y :: y in keys
    ensures exists k :: k in keys && forall j :: j in keys ==> k <= j
    decreases |keys|
  {
    var x :| x in keys;
    var rest := keys - {x};
    assert forall y :: y in keys ==> y in rest || y == x;
    if exists y :: y in rest {
      FirstExists(rest);
      var m :| m in rest && forall j :: j in rest ==> m <= j;
      var k := if m < x then m else x;
      assert k in keys && forall j :: j in keys ==> k <= j;
    } else {
      assert x in keys && forall j :: j in keys ==> x <= j;
    }
  }

  predicate NonEmpty(queue: map<int, Buffer>) {
    exists k :: k in queue
  }

  /** std::map keeps its keys in order: the first one is the smallest. */
  function First(queue: map<int, Buffer>): (k: int)
    requires NonEmpty(queue)
    ensures IsFirst(queue, k)
  {
    assert exists k :: IsFirst(queue, k) by {
      FirstExists(queue.Keys);
      var k :| k in queue.Keys && forall j :: j in queue.Keys ==> k <= j;
      assert IsFirst(queue, k);
    }
    var k :| k in queue && forall j :: j in queue ==> k <= j;
    k
  }

  function Put(m: map<int, Buffer>, b: Buffer): map<int, Buffer> {
    m[b.seqNo := b]
  }

  /** Copying with std::map::insert: a buffer that is already queued stays. */
  function Merge(queue: map<int, Buffer>, taken: map<int, Buffer>): map<int, Buffer> {
    taken + queue
  }

  predicate Available(queue: map<int, Buffer>, requestSeq: int) {
    NonEmpty(queue) && queue[First(queue)].seqNo == requestSeq + 1
  }

  function Removed(queue: map<int, Buffer>, k: int): map<int, Buffer> {
    queue - {k}
  }

  // ---- Bytes

  function Concat(parts: seq<seq<byte>>): seq<byte> {
    if parts == [] then [] else Concat(parts[..|parts| - 1]) + parts[|parts| - 1]
  }

  lemma ConcatNext(parts: seq<seq<byte>>, n: nat)
    requires n < |parts|
    ensures Concat(parts[..n + 1]) == Concat(parts[..n]) + parts[n]
  {
    assert parts[..n + 1][..n] == parts[..n];
  }

  lemma {:induction false} ConcatPrefix(parts: seq<seq<byte>>, n: nat)
    requires n <= |parts|
    ensures Concat(parts[..n]) <= Concat(parts)
  {
    if n == |parts| {
      assert parts[..n] == parts;
    } else {
      var m := |parts| - 1;
      ConcatPrefix(parts[..m], n);
      assert parts[..m][..n] == parts[..n];
    }
  }

  // ---- Every interleaving of one sender, one reader and any number of network threads

  /** Where the reader is in consumeBuffer: outside, with the parked buffers in hand, or past the copying. */
  datatype Reader = Outside | Holding(taken: map<int, Buffer>) | Copied

  /** A network thread that is parking a buffer: it has a copy of the parked map, and will store it back extended. */
  datatype Parking = Parking(snapshot: map<int, Buffer>, buffer: Buffer)

  datatype World = World(
    task: string, sent: seq<seq<byte>>, arrived: set<int>, inbox: Inbox, threads: map<nat, Parking>, reader: Reader,
    recvBuffer: seq<byte>, returned: seq<byte>, order: seq<int>)

  datatype Step =
    | Send(data: seq<byte>)
    | Deliver(n: int, from: string)                  // the processor has the task: straight into its queue
    | Park(n: int, from: string)                     // no processor has it: parked, in one step
    | Snapshot(thread: nat, n: int, from: string)    // parking in two steps: reading the parked map...
    | Store(thread: nat)                             // ...and storing it back
    | TakeParked
    | Copy
    | Consume
    | Return(len: nat)

  predicate CanArrive(w: World, n: int) {
    1 <= n <= |w.sent| && n !in w.arrived
  }

  function Message(w: World, n: int, from: string): Buffer
    requires 1 <= n <= |w.sent|
  {
    Buffer(n, w.task, from, w.sent[n - 1])
  }

  /** The bytes a message adds to the stream of a task; one for another task is dropped. */
  function Payload(b: Buffer, task: string): seq<byte> {
    if b.task == task then b.data else []
  }

  function Take(w: World, s: Step): Option<World> {
    var i := w.inbox;
    match s
    case Send(data) => Some(w.(sent := w.sent + [data]))
    case Deliver(n, from) =>
      if CanArrive(w, n) then
        Some(w.(arrived := w.arrived + {n}, inbox := i.(queue := Put(i.queue, Message(w, n, from)))))
      else None
    case Park(n, from) =>
      if CanArrive(w, n) then
        Some(w.(arrived := w.arrived + {n}, inbox := i.(parked := Put(i.parked, Message(w, n, from)))))
      else None
    case Snapshot(thread, n, from) =>
      if CanArrive(w, n) && thread !in w.threads then
        Some(w.(arrived := w.arrived + {n}, threads := w.threads[thread := Parking(i.parked, Message(w, n, from))]))
      else None
    case Store(thread) =>
      if thread in w.threads then
        Some(w.(inbox := i.(parked := Stored(w, thread)), threads := w.threads - {thread}))
      else None
    case TakeParked =>
      if w.reader.Outside? then Some(w.(reader := Holding(i.parked), inbox := i.(parked := map[]))) else None
    case Copy =>
      if w.reader.Holding? then Some(w.(reader := Copied, inbox := i.(queue := Merge(i.queue, w.reader.taken))))
      else None
    case Consume =>
      if w.reader.Copied? && Available(i.queue, i.requestSeq) then
        var b := i.queue[First(i.queue)];
        Some(w.(reader := Outside, recvBuffer := w.recvBuffer + Payload(b, w.task), order := w.order + [b.seqNo],
                inbox := i.(queue := Removed(i.queue, b.seqNo), requestSeq := i.requestSeq + 1)))
      else None
    case Return(len) =>
      if len <= |w.recvBuffer| then
        Some(w.(recvBuffer := w.recvBuffer[len..], returned := w.returned + w.recvBuffer[..len]))
      else None
  }

  /** A task starts with nothing queued and nothing parked. */
  function Start(task: string): World {
    World(task, [], {}, Inbox(map[], map[], 0), map[], Outside, [], [], [])
  }

  function Run(w: World, steps: seq<Step>): Option<World> {
    if steps == [] then Some(w)
    else
      var r := Run(w, steps[..|steps| - 1]);
      if r.None? then None else Take(r.value, steps[|steps| - 1])
  }

  // ---- Safety: holds however parking threads overlap

  /** Every buffer is a message that was sent and has arrived, under its own number. */
  ghost predicate Genuine(w: World, m: map<int, Buffer>) {
    forall k :: k in m ==>
      && k in w.arrived && 1 <= k <= |w.sent|
      && m[k].seqNo == k && m[k].data == w.sent[k - 1] && m[k].task == w.task
  }

  /** What thread t will store. */
  function Stored(w: World, t: nat): map<int, Buffer>
    requires t in w.threads
  {
    Put(w.threads[t].snapshot, w.threads[t].buffer)
  }

  function UpTo(n: nat): seq<int> {
    seq(n, i => i + 1)
  }

  ghost predicate Safe(w: World) {
    && 0 <= w.inbox.requestSeq <= |w.sent|
    && Genuine(w, w.inbox.queue) && Genuine(w, w.inbox.parked)
    && (w.reader.Holding? ==> Genuine(w, w.reader.taken))
    && (forall t :: t in w.threads ==> Genuine(w, Stored(w, t)))
    && (forall k :: k in w.arrived ==> 1 <= k <= |w.sent|)
    && (forall k :: 1 <= k <= w.inbox.requestSeq ==> k in w.arrived)
    && w.returned + w.recvBuffer == Concat(w.sent[..w.inbox.requestSeq])
    && w.order == UpTo(w.inbox.requestSeq)
  }

  lemma SendSafe(w: World, data: seq<byte>)
    requires Safe(w)
    ensures Safe(Take(w, Send(data)).value)
  {
    var w' := Take(w, Send(data)).value;
    assert w'.sent[..w.inbox.requestSeq] == w.sent[..w.inbox.requestSeq];
  }

  /** What Consume does to the bytes and to the order of numbers. */
  lemma OneMessageOn(sent: seq<seq<byte>>, n: nat, returned: seq<byte>, received: seq<byte>)
    requires n < |sent| && returned + received == Concat(sent[..n])
    ensures returned + (received + sent[n]) == Concat(sent[..n + 1]) && UpTo(n) + [n + 1] == UpTo(n + 1)
  {
    ConcatNext(sent, n);
    assert returned + (received + sent[n]) == (returned + received) + sent[n];
  }

  lemma ConsumeSafe(w: World)
    requires Safe(w) && Take(w, Consume).Some?
    ensures Safe(Take(w, Consume).value)
  {
    hide Concat, UpTo;
    var n := w.inbox.requestSeq;
    assert w.inbox.queue[First(w.inbox.queue)].seqNo == First(w.inbox.queue) == n + 1;
    hide First;
    OneMessageOn(w.sent, n, w.returned, w.recvBuffer);
  }

  lemma ArrivalSafe(w: World, s: Step)
    requires Safe(w) && Take(w, s).Some? && (s.Deliver? || s.Park?)
    ensures Safe(Take(w, s).value)
  {
    hide Concat, UpTo;
  }

  lemma SnapshotSafe(w: World, s: Step)
    requires Safe(w) && Take(w, s).Some? && s.Snapshot?
    ensures Safe(Take(w, s).value)
  {
    hide Concat, UpTo;
  }

  lemma StoreSafe(w: World, s: Step)
    requires Safe(w) && Take(w, s).Some? && s.Store?
    ensures Safe(Take(w, s).value)
  {
    hide Concat, UpTo;
  }

  lemma ReaderSafe(w: World, s: Step)
    requires Safe(w) && Take(w, s).Some? && (s.TakeParked? || s.Copy?)
    ensures Safe(Take(w, s).value)
  {
    hide Concat, UpTo;
  }

  lemma ReturnSafe(w: World, len: nat)
    requires Safe(w) && len <= |w.recvBuffer|
    ensures Safe(Take(w, Return(len)).value)
  {
    assert w.returned + w.recvBuffer[..len] + w.recvBuffer[len..] == w.returned + w.recvBuffer;
  }

  lemma StepSafe(w: World, s: Step)
    requires Safe(w) && Take(w, s).Some?
    ensures Safe(Take(w, s).value)
  {
    hide Safe;
    match s
    case Send(data) => SendSafe(w, data);
    case Deliver(_, _) => ArrivalSafe(w, s);
    case Park(_, _) => ArrivalSafe(w, s);
    case Snapshot(_, _, _) => SnapshotSafe(w, s);
    case Store(_) => StoreSafe(w, s);
    case TakeParked => ReaderSafe(w, s);
    case Copy => ReaderSafe(w, s);
    case Consume => ConsumeSafe(w);
    case Return(len) => ReturnSafe(w, len);
  }

  lemma {:induction false} RunSafe(task: string, steps: seq<Step>)
    requires Run(Start(task), steps).Some?
    ensures Safe(Run(Start(task), steps).value)
  {
    hide Take, Safe;
    if steps == [] {
      StartSafe(task);
    } else {
      var front := steps[..|steps| - 1];
      RunSafe(task, front);
      StepSafe(Run(Start(task), front).value, steps[|steps| - 1]);
    }
  }

  lemma StartSafe(task: string)
    ensures Safe(Start(task))
  {
  }

  /** The bytes returned are a prefix of the bytes sent, and the messages consumed are the first of those sent. */
  predicate IsRight(w: World) {
    w.returned <= Concat(w.sent) && w.order == UpTo(|w.order|) && |w.order| <= |w.sent|
  }

  /** In every run, whatever the order of arrival and however network threads overlap while parking, what has been
      delivered is right. */
  lemma ReturnsPrefix(task: string, steps: seq<Step>)
    requires Run(Start(task), steps).Some?
    ensures IsRight(Run(Start(task), steps).value)
  {
    RunSafe(task, steps);
    SafeIsRight(Run(Start(task), steps).value);
  }

  lemma SafeIsRight(w: World)
    requires Safe(w)
    ensures IsRight(w)
  {
    ConcatPrefix(w.sent, w.inbox.requestSeq);
    PrefixOfPrefix(w.returned, w.recvBuffer, Concat(w.sent));
  }

  lemma PrefixOfPrefix(a: seq<byte>, b: seq<byte>, c: seq<byte>)
    requires a + b <= c
    ensures a <= c
  {
    assert forall i :: 0 <= i < |a| ==> a[i] == (a + b)[i];
  }
}
