/** A stream whose task starts with buffers of an earlier one in the processor's queue, which is never cleared. */
module StreamLeftovers {
  import opened Wrappers
  import opened Stream
  import opened StreamProgress

  /** Buffers under their own numbers; senders count from 1. */
  predicate IsLeftover(queue: map<int, Buffer>) {
    forall k :: k in queue ==> 1 <= k && queue[k].seqNo == k
  }

  function StartAfter(task: string, queue: map<int, Buffer>): World {
    Start(task).(inbox := Inbox(queue, map[], 0))
  }

  /** The numbers of the messages that went straight into the queue; parked ones do not replace what is queued. */
  function Delivered(steps: seq<Step>): set<int> {
    if steps == [] then {}
    else
      var last := steps[|steps| - 1];
      Delivered(steps[..|steps| - 1]) + if last.Deliver? then {last.n} else {}
  }

  predicate IsStale(queue: map<int, Buffer>, delivered: set<int>, k: int) {
    k in queue && k !in delivered
  }

  ghost predicate IsMessage(w: World, k: int, b: Buffer) {
    k in w.arrived && 1 <= k <= |w.sent| && b.seqNo == k && b.data == w.sent[k - 1] && b.task == w.task
  }

  /** A number that is still to be consumed has its leftover until its message is delivered; apart from that, the
      queue holds messages. */
  ghost predicate Mixed(w: World, queue: map<int, Buffer>, delivered: set<int>) {
    && 0 <= w.inbox.requestSeq
    && (forall k :: k in w.inbox.queue ==> w.inbox.queue[k].seqNo == k)
    && (forall k :: k > w.inbox.requestSeq && IsStale(queue, delivered, k) ==>
          k in w.inbox.queue && w.inbox.queue[k] == queue[k])
    && (forall k :: k in w.inbox.queue && k > w.inbox.requestSeq && !IsStale(queue, delivered, k) ==>
          IsMessage(w, k, w.inbox.queue[k]))
  }

  /** Outside the queue there are messages only. */
  ghost predicate Elsewhere(w: World) {
    && Genuine(w, w.inbox.parked)
    && (w.reader.Holding? ==> Genuine(w, w.reader.taken))
    && (forall t :: t in w.threads ==> Genuine(w, Stored(w, t)))
  }

  lemma ElsewhereStays(w: World, s: Step)
    requires Elsewhere(w) && Take(w, s).Some? && !s.Snapshot? && !s.Store?
    ensures Elsewhere(Take(w, s).value)
  {
    hide First, Payload, Available, Removed, Merge;
    var w' := Take(w, s).value;
    assert forall t :: t in w'.threads ==> t in w.threads && Stored(w', t) == Stored(w, t);
  }

  lemma ParkingElsewhere(w: World, s: Step)
    requires Elsewhere(w) && Take(w, s).Some? && (s.Snapshot? || s.Store?)
    ensures Elsewhere(Take(w, s).value)
  {
    hide First, Payload, Available, Removed, Merge;
    var w' := Take(w, s).value;
    if s.Snapshot? {
      assert forall t :: t in w'.threads && t != s.thread ==> t in w.threads && Stored(w', t) == Stored(w, t);
      assert Genuine(w', Stored(w', s.thread));
    } else {
      assert forall t :: t in w'.threads ==> t in w.threads && Stored(w', t) == Stored(w, t);
    }
  }

  lemma DeliverMixes(w: World, s: Step, queue: map<int, Buffer>, delivered: set<int>)
    requires Mixed(w, queue, delivered) && Take(w, s).Some? && s.Deliver?
    ensures Mixed(Take(w, s).value, queue, delivered + {s.n})
  {
    hide First, Payload, Available;
  }

  lemma CopyMixes(w: World, queue: map<int, Buffer>, delivered: set<int>)
    requires Mixed(w, queue, delivered) && Elsewhere(w) && w.reader.Holding?
    ensures Mixed(Take(w, Copy).value, queue, delivered)
  {
    hide IsStale, First, Payload, Available;
    var w' := Take(w, Copy).value;
    var q, taken := w.inbox.queue, w.reader.taken;
    assert forall k :: k in w'.inbox.queue ==> w'.inbox.queue[k] == if k in q then q[k] else taken[k];
  }

  lemma HasTaken(w: World)
    requires Take(w, Copy).Some?
    ensures w.reader.Holding?
  {
  }

  lemma ConsumeMixes(w: World, queue: map<int, Buffer>, delivered: set<int>)
    requires Mixed(w, queue, delivered) && Take(w, Consume).Some?
    ensures Mixed(Take(w, Consume).value, queue, delivered)
  {
    hide IsStale, Payload;
    assert w.inbox.queue[First(w.inbox.queue)].seqNo == First(w.inbox.queue);
    hide First;
  }

  lemma OtherMixes(w: World, s: Step, queue: map<int, Buffer>, delivered: set<int>)
    requires Mixed(w, queue, delivered) && Take(w, s).Some? && !s.Deliver? && !s.Copy? && !s.Consume?
    ensures Mixed(Take(w, s).value, queue, delivered)
  {
    hide IsStale, Payload, First, Available;
  }

  lemma StepMixes(w: World, s: Step, queue: map<int, Buffer>, delivered: set<int>)
    requires Mixed(w, queue, delivered) && Elsewhere(w) && Take(w, s).Some?
    ensures Mixed(Take(w, s).value, queue, delivered + if s.Deliver? then {s.n} else {})
    ensures Elsewhere(Take(w, s).value)
  {
    hide Take, Mixed, Elsewhere;
    assert delivered + {} == delivered;
    if s.Snapshot? || s.Store? {
      ParkingElsewhere(w, s);
    } else {
      ElsewhereStays(w, s);
    }
    match s
    case Deliver(_, _) => DeliverMixes(w, s, queue, delivered);
    case Copy =>
      HasTaken(w);
      CopyMixes(w, queue, delivered);
    case Consume => ConsumeMixes(w, queue, delivered);
    case _ => OtherMixes(w, s, queue, delivered);
  }

  lemma {:induction false} RunMixes(task: string, queue: map<int, Buffer>, steps: seq<Step>)
    requires IsLeftover(queue) && Run(StartAfter(task, queue), steps).Some?
    ensures Mixed(Run(StartAfter(task, queue), steps).value, queue, Delivered(steps))
    ensures Elsewhere(Run(StartAfter(task, queue), steps).value)
  {
    hide Take, Mixed, Elsewhere, IsLeftover;
    if steps == [] {
      StartMixes(task, queue);
    } else {
      var front, s := steps[..|steps| - 1], steps[|steps| - 1];
      RunMixes(task, queue, front);
      StepMixes(Run(StartAfter(task, queue), front).value, s, queue, Delivered(front));
    }
  }

  lemma StartMixes(task: string, queue: map<int, Buffer>)
    requires IsLeftover(queue)
    ensures Mixed(StartAfter(task, queue), queue, {}) && Elsewhere(StartAfter(task, queue))
  {
  }

  /** In every run the buffer that is consumed next is the leftover of its number, if there is one, unless the message
      of that number has been delivered straight into the queue; then, and without a leftover, it is the message. */
  lemma NextIs(task: string, queue: map<int, Buffer>, steps: seq<Step>)
    requires IsLeftover(queue) && Run(StartAfter(task, queue), steps).Some?
    requires var i := Run(StartAfter(task, queue), steps).value.inbox; Available(i.queue, i.requestSeq)
    ensures var w := Run(StartAfter(task, queue), steps).value;
            var k, b := w.inbox.requestSeq + 1, w.inbox.queue[First(w.inbox.queue)];
            && b.seqNo == k
            && if IsStale(queue, Delivered(steps), k) then b == queue[k]
               else 1 <= k <= |w.sent| && b == Buffer(k, w.task, b.from, w.sent[k - 1])
  {
    hide Run, Delivered;
    RunMixes(task, queue, steps);
  }
  // ---- What a leftover spoils

  /** A buffer of a number that has been consumed stands before all others and is never taken out. */
  predicate IsBlocked(w: World) {
    && (forall k :: k in w.inbox.queue ==> w.inbox.queue[k].seqNo == k)
    && (forall k :: k in w.inbox.parked ==> w.inbox.parked[k].seqNo == k)
    && (w.reader.Holding? ==> forall k :: k in w.reader.taken ==> w.reader.taken[k].seqNo == k)
    && (forall t :: t in w.threads ==> forall k :: k in Stored(w, t) ==> Stored(w, t)[k].seqNo == k)
    && exists k :: k in w.inbox.queue && k <= w.inbox.requestSeq
  }

  lemma NothingConsumed(w: World)
    requires IsBlocked(w)
    ensures Take(w, Consume).None?
  {
  }

  lemma ArrivalStaysBlocked(w: World, s: Step)
    requires IsBlocked(w) && Take(w, s).Some? && (s.Deliver? || s.Park? || s.Snapshot?)
    ensures IsBlocked(Take(w, s).value) && Take(w, s).value.order == w.order
  {
    hide First, Available, Payload;
    var w' := Take(w, s).value;
    var k :| k in w.inbox.queue && k <= w.inbox.requestSeq;
    assert k in w'.inbox.queue && k <= w'.inbox.requestSeq;
    if s.Snapshot? {
      assert forall t :: t in w'.threads && t != s.thread ==> t in w.threads && Stored(w', t) == Stored(w, t);
      assert forall k :: k in Stored(w', s.thread) ==> Stored(w', s.thread)[k].seqNo == k;
    } else {
      assert forall t :: t in w'.threads ==> t in w.threads && Stored(w', t) == Stored(w, t);
    }
  }

  lemma OtherStaysBlocked(w: World, s: Step)
    requires IsBlocked(w) && Take(w, s).Some? && !s.Deliver? && !s.Park? && !s.Snapshot? && !s.Consume?
    ensures IsBlocked(Take(w, s).value) && Take(w, s).value.order == w.order
  {
    hide First, Available, Payload;
    var w' := Take(w, s).value;
    var k :| k in w.inbox.queue && k <= w.inbox.requestSeq;
    assert k in w'.inbox.queue && k <= w'.inbox.requestSeq;
    assert forall t :: t in w'.threads ==> t in w.threads && Stored(w', t) == Stored(w, t);
  }

  lemma StepStaysBlocked(w: World, s: Step)
    requires IsBlocked(w) && Take(w, s).Some?
    ensures IsBlocked(Take(w, s).value) && Take(w, s).value.order == w.order
  {
    hide IsBlocked, Take;
    NothingConsumed(w);
    if s.Deliver? || s.Park? || s.Snapshot? {
      ArrivalStaysBlocked(w, s);
    } else {
      OtherStaysBlocked(w, s);
    }
  }

  lemma {:induction false} BlockedForever(w: World, steps: seq<Step>)
    requires IsBlocked(w) && Run(w, steps).Some?
    ensures IsBlocked(Run(w, steps).value) && Run(w, steps).value.order == w.order
  {
    hide Take, IsBlocked;
    if steps == [] {
    } else {
      BlockedForever(w, steps[..|steps| - 1]);
      StepStaysBlocked(Run(w, steps[..|steps| - 1]).value, steps[|steps| - 1]);
    }
  }

  /** Empty messages 1 to n have been sent and consumed, and the leftovers are still there. */
  ghost predicate AfterEmpty(w: World, task: string, queue: map<int, Buffer>, n: nat) {
    && w.task == task && |w.sent| == n && w.inbox == Inbox(queue, map[], n) && w.reader.Outside?
    && (forall k :: k in w.arrived ==> k <= n) && w.order == UpTo(n)
  }

  lemma OneEmptyMore(task: string, queue: map<int, Buffer>, n: nat, w: World, steps: seq<Step>)
    returns (w': World, steps': seq<Step>)
    requires IsLeftover(queue) && (forall k :: k in queue ==> n + 1 < k) && AfterEmpty(w, task, queue, n)
    requires Run(StartAfter(task, queue), steps) == Some(w)
    ensures Run(StartAfter(task, queue), steps') == Some(w') && AfterEmpty(w', task, queue, n + 1)
  {
    hide Run, Payload;
    var w0 := StartAfter(task, queue);
    NothingMerged(queue);
    w', steps' := OneMore(w0, w, steps, Send([]));
    w', steps' := OneMore(w0, w', steps', TakeParked);
    w', steps' := OneMore(w0, w', steps', Copy);
    w', steps' := OneMore(w0, w', steps', Deliver(n + 1, ""));
    AddedInFront(queue, n + 1, w'.inbox.queue[n + 1]);
    hide First, Available;
    w', steps' := OneMore(w0, w', steps', Consume);
  }

  lemma {:induction false} ReachAfterEmpty(task: string, queue: map<int, Buffer>, n: nat)
    returns (w: World, steps: seq<Step>)
    requires IsLeftover(queue) && forall k :: k in queue ==> n < k
    ensures Run(StartAfter(task, queue), steps) == Some(w) && AfterEmpty(w, task, queue, n)
  {
    if n == 0 {
      w, steps := StartAfter(task, queue), [];
    } else {
      hide Run, AfterEmpty;
      w, steps := ReachAfterEmpty(task, queue, n - 1);
      w, steps := OneEmptyMore(task, queue, n - 1, w, steps);
    }
  }

  lemma NothingMerged(queue: map<int, Buffer>)
    ensures Merge(queue, map[]) == queue
  {
  }

  lemma AddedInFront(queue: map<int, Buffer>, n: int, b: Buffer)
    requires (forall k :: k in queue ==> n < k) && b.seqNo == n
    ensures var q := Put(queue, b); NonEmpty(q) && First(q) == n && Removed(q, n) == queue
  {
    assert n in Put(queue, b);
  }

  /** Whatever is left over spoils some run: the leftover with the least number can be consumed in place of a message
      that has not even been sent. Without leftovers every run is right. */
  lemma RightIf(task: string, queue: map<int, Buffer>)
    requires IsLeftover(queue)
    ensures (forall steps :: Run(StartAfter(task, queue), steps).Some? ==>
               IsRight(Run(StartAfter(task, queue), steps).value))
        <==> !NonEmpty(queue)
  {
    var w0 := StartAfter(task, queue);
    if NonEmpty(queue) {
      var w, steps := ConsumesUnsent(task, queue);
      NotRight(w);
      assert Run(w0, steps).Some?;
    } else {
      assert Safe(w0);
      forall steps | Run(w0, steps).Some? ensures IsRight(Run(w0, steps).value) {
        hide Safe, IsRight;
        RunStaysSafe(w0, steps);
        SafeIsRight(Run(w0, steps).value);
      }
    }
  }

  lemma NotRight(w: World)
    requires |w.order| > |w.sent|
    ensures !IsRight(w)
  {
  }

  lemma ConsumesUnsent(task: string, queue: map<int, Buffer>) returns (w: World, steps: seq<Step>)
    requires IsLeftover(queue) && NonEmpty(queue)
    ensures Run(StartAfter(task, queue), steps) == Some(w) && |w.order| > |w.sent|
  {
    hide Run;
    var k := First(queue);
    w, steps := ReachAfterEmpty(task, queue, k - 1);
    NothingMerged(queue);
    w, steps := OneMore(StartAfter(task, queue), w, steps, TakeParked);
    w, steps := OneMore(StartAfter(task, queue), w, steps, Copy);
    w, steps := OneMore(StartAfter(task, queue), w, steps, Consume);
  }

  /** A leftover of another task is dropped but uses up its number; when the message of that number is delivered, the
      reader is blocked for good. */
  lemma NumberUsedUp(task: string, other: string, from: string) returns (w: World, steps: seq<Step>)
    requires other != task
    ensures Run(StartAfter(task, map[1 := Buffer(1, other, from, [9])]), steps) == Some(w)
    ensures w.order == [1] && w.recvBuffer == w.returned == [] && w.sent == [[7]] && w.arrived == {1} && IsBlocked(w)
  {
    var b := Buffer(1, other, from, [9]);
    var w0 := StartAfter(task, map[1 := b]);
    w, steps := w0, [];
    hide Run;
    AddedInFront(map[], 1, b);
    NothingMerged(map[1 := b]);
    assert Put(map[], b) == map[1 := b];
    w, steps := OneMore(w0, w, steps, TakeParked);
    w, steps := OneMore(w0, w, steps, Copy);
    w, steps := OneMore(w0, w, steps, Consume);
    w, steps := OneMore(w0, w, steps, Send([7]));
    w, steps := OneMore(w0, w, steps, Deliver(1, from));
    assert 1 in w.inbox.queue;
  }
}
