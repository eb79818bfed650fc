/** When the reader of a stream goes on. */
module StreamProgress {
  import opened Wrappers
  import opened Stream

  function Next(w: World): int {
    w.inbox.requestSeq + 1
  }

  /** Nothing that has been consumed. A buffer that has been stands before all others and is never taken out. */
  predicate Clean(w: World, m: map<int, Buffer>) {
    forall k :: k in m ==> k > w.inbox.requestSeq
  }

  /** Past the copying a reader can take a buffer exactly if nothing consumed is queued and the next message is. */
  lemma AvailableIf(w: World)
    requires Safe(w)
    ensures Available(w.inbox.queue, w.inbox.requestSeq) <==> Clean(w, w.inbox.queue) && Next(w) in w.inbox.queue
  {
    var q := w.inbox.queue;
    if NonEmpty(q) {
      assert q[First(q)].seqNo == First(q);
    }
  }

  // ---- Whether the reader can go on at all

  /** Taking over these parked buffers lets the reader go on: none has been consumed, and the next message is among
      them, or already queued, or still to arrive. */
  predicate Offers(w: World, m: map<int, Buffer>) {
    Clean(w, m) && (Next(w) in w.inbox.queue || Next(w) in m || Next(w) !in w.arrived)
  }

  /** Outside, the reader will take over what is parked, now or after a thread has stored what it is going to store. */
  predicate CanGoOn(w: World) {
    && Clean(w, w.inbox.queue)
    && match w.reader
       case Outside => Offers(w, w.inbox.parked) || exists t :: t in w.threads && Offers(w, Stored(w, t))
       case Holding(taken) => Offers(w, taken)
       case Copied => Next(w) in w.inbox.queue || Next(w) !in w.arrived
  }

  predicate Hopeless(w: World) {
    !CanGoOn(w)
  }

  lemma HopelessBlocks(w: World)
    requires Safe(w) && Hopeless(w)
    ensures Take(w, Consume).None?
  {
    AvailableIf(w);
  }

  /** What a map offers after message n has arrived it offered before, without message n in any map. */
  lemma OfferedBefore(w: World, w': World, m: map<int, Buffer>, m': map<int, Buffer>, n: int)
    requires n !in w.arrived && w'.arrived == w.arrived + {n} && w'.inbox.requestSeq == w.inbox.requestSeq
    requires forall k :: k in m ==> k in m'
    requires forall k :: k in m' ==> k in m || k == n
    requires forall k :: k in w'.inbox.queue ==> k in w.inbox.queue || k == n
    ensures Offers(w', m') ==> Offers(w, m)
  {
  }

  lemma DeliverStays(w: World, n: int, from: string)
    requires Hopeless(w) && Take(w, Deliver(n, from)).Some?
    ensures Hopeless(Take(w, Deliver(n, from)).value)
  {
    hide Offers;
    var w' := Take(w, Deliver(n, from)).value;
    forall m ensures Offers(w', m) ==> Offers(w, m) {
      OfferedBefore(w, w', m, m, n);
    }
    assert forall k :: k in w.inbox.queue ==> k in w'.inbox.queue;
    assert forall t :: t in w.threads ==> Stored(w', t) == Stored(w, t);
  }

  lemma ParkStays(w: World, n: int, from: string)
    requires Hopeless(w) && Take(w, Park(n, from)).Some?
    ensures Hopeless(Take(w, Park(n, from)).value)
  {
    hide Offers;
    var w' := Take(w, Park(n, from)).value;
    forall m ensures Offers(w', m) ==> Offers(w, m) {
      OfferedBefore(w, w', m, m, n);
    }
    OfferedBefore(w, w', w.inbox.parked, w'.inbox.parked, n);
    assert forall t :: t in w.threads ==> Stored(w', t) == Stored(w, t);
  }

  lemma SnapshotStays(w: World, thread: nat, n: int, from: string)
    requires Hopeless(w) && Take(w, Snapshot(thread, n, from)).Some?
    ensures Hopeless(Take(w, Snapshot(thread, n, from)).value)
  {
    hide Offers;
    var w' := Take(w, Snapshot(thread, n, from)).value;
    forall m ensures Offers(w', m) ==> Offers(w, m) {
      OfferedBefore(w, w', m, m, n);
    }
    OfferedBefore(w, w', w.inbox.parked, Stored(w', thread), n);
    assert forall t :: t in w.threads ==> Stored(w', t) == Stored(w, t);
  }

  lemma StoreStays(w: World, t: nat)
    requires Hopeless(w) && t in w.threads
    ensures Hopeless(Take(w, Store(t)).value)
  {
    var w' := Take(w, Store(t)).value;
    assert forall u :: u in w'.threads ==> u in w.threads && Stored(w', u) == Stored(w, u);
    assert Offers(w', w'.inbox.parked) ==> Offers(w, Stored(w, t));
    assert forall u :: u in w'.threads && Offers(w', Stored(w', u)) ==> Offers(w, Stored(w, u));
  }

  lemma ReaderStays(w: World, s: Step)
    requires Hopeless(w) && Take(w, s).Some? && (s.TakeParked? || s.Copy? || s.Send? || s.Return?)
    ensures Hopeless(Take(w, s).value)
  {
    var w' := Take(w, s).value;
    assert forall t :: t in w.threads ==> Stored(w', t) == Stored(w, t);
    if s.TakeParked? {
      assert Offers(w', w'.reader.taken) ==> Offers(w, w.inbox.parked);
    } else if s.Copy? {
      var q, taken := w.inbox.queue, w.reader.taken;
      assert forall k :: k in w'.inbox.queue <==> k in q || k in taken;
      assert Clean(w', w'.inbox.queue) ==> Clean(w, q) && Clean(w, taken);
    } else {
      assert forall m :: Offers(w', m) <==> Offers(w, m);
    }
  }

  lemma StepStays(w: World, s: Step)
    requires Safe(w) && Hopeless(w) && Take(w, s).Some?
    ensures var w' := Take(w, s).value;
            Hopeless(w') && w'.inbox.requestSeq == w.inbox.requestSeq && w'.order == w.order
  {
    hide Hopeless, Safe;
    HopelessBlocks(w);
    match s
    case Deliver(n, from) => DeliverStays(w, n, from);
    case Park(n, from) => ParkStays(w, n, from);
    case Snapshot(thread, n, from) => SnapshotStays(w, thread, n, from);
    case Store(t) => StoreStays(w, t);
    case Consume =>
    case _ => ReaderStays(w, s);
  }

  /** Nothing that happens afterwards lets the reader consume another message. */
  lemma {:induction false} HopelessForever(w: World, steps: seq<Step>)
    requires Safe(w) && Hopeless(w) && Run(w, steps).Some?
    ensures var w' := Run(w, steps).value;
            Safe(w') && Hopeless(w') && w'.order == w.order && w'.inbox.requestSeq == w.inbox.requestSeq
  {
    hide Take, Safe, Hopeless;
    if steps == [] {
    } else {
      var front, s := steps[..|steps| - 1], steps[|steps| - 1];
      HopelessForever(w, front);
      var u := Run(w, front).value;
      StepSafe(u, s);
      StepStays(u, s);
    }
  }

  lemma OneMore(w0: World, w: World, steps: seq<Step>, s: Step) returns (w': World, steps': seq<Step>)
    requires Run(w0, steps) == Some(w) && Take(w, s).Some?
    ensures Take(w, s) == Some(w') && Run(w0, steps') == Some(w') && steps' == steps + [s]
  {
    w' := Take(w, s).value;
    steps' := steps + [s];
    assert steps'[..|steps|] == steps;
  }

  /** From outside, a thread stores what is wanted if need be, and the reader takes it over. */
  lemma GoesInside(w: World) returns (w': World, steps: seq<Step>)
    requires CanGoOn(w) && w.reader.Outside?
    ensures Run(w, steps) == Some(w') && CanGoOn(w') && w'.reader.Holding? && w'.inbox.requestSeq == w.inbox.requestSeq
  {
    steps := [];
    w' := w;
    if !Offers(w, w.inbox.parked) {
      var t :| t in w.threads && Offers(w, Stored(w, t));
      w', steps := OneMore(w, w, [], Store(t));
    }
    w', steps := OneMore(w, w', steps, TakeParked);
  }

  lemma GoesPastCopying(w: World) returns (w': World)
    requires CanGoOn(w) && w.reader.Holding?
    ensures Take(w, Copy) == Some(w') && CanGoOn(w') && w'.reader.Copied? && w'.inbox.requestSeq == w.inbox.requestSeq
  {
    w' := Take(w, Copy).value;
    var q, taken := w.inbox.queue, w.reader.taken;
    assert forall k :: k in w'.inbox.queue <==> k in q || k in taken;
  }

  /** Past the copying, the next message is sent and delivered if it is not there yet, and then consumed. */
  lemma Consumes(w0: World, w: World, before: seq<Step>) returns (w': World, steps: seq<Step>)
    requires Safe(w) && CanGoOn(w) && w.reader.Copied? && Run(w0, before) == Some(w)
    ensures Run(w0, steps) == Some(w') && w'.inbox.requestSeq == w.inbox.requestSeq + 1
  {
    hide Run, First, Available;
    w', steps := w, before;
    if Next(w) !in w.inbox.queue {
      if Next(w) > |w.sent| {
        w', steps := OneMore(w0, w', steps, Send([]));
        StepSafe(w, Send([]));
      }
      var u := w';
      w', steps := OneMore(w0, u, steps, Deliver(Next(u), ""));
      StepSafe(u, Deliver(Next(u), ""));
    }
    AvailableIf(w');
    w', steps := OneMore(w0, w', steps, Consume);
  }

  lemma GoesOn(w: World) returns (w': World, steps: seq<Step>)
    requires Safe(w) && CanGoOn(w)
    ensures Run(w, steps) == Some(w') && w'.inbox.requestSeq == w.inbox.requestSeq + 1
  {
    hide CanGoOn, Take, Safe;
    w', steps := w, [];
    if w'.reader.Outside? {
      w', steps := GoesInside(w');
    }
    if w'.reader.Holding? {
      var u := GoesPastCopying(w');
      w', steps := OneMore(w, w', steps, Copy);
    }
    RunStaysSafe(w, steps);
    w', steps := Consumes(w, w', steps);
  }

  lemma {:induction false} RunStaysSafe(w: World, steps: seq<Step>)
    requires Safe(w) && Run(w, steps).Some?
    ensures Safe(Run(w, steps).value)
  {
    hide Take, Safe;
    if steps == [] {
    } else {
      var front := steps[..|steps| - 1];
      RunStaysSafe(w, front);
      StepSafe(Run(w, front).value, steps[|steps| - 1]);
    }
  }

  /** From any reachable state, with any number of threads half way through parking: some run consumes another message
      exactly if the reader can go on. */
  lemma ConsumesIf(w: World)
    requires Safe(w)
    ensures (exists steps :: Run(w, steps).Some? && Run(w, steps).value.inbox.requestSeq > w.inbox.requestSeq)
        <==> CanGoOn(w)
  {
    hide CanGoOn, Safe, Run;
    if CanGoOn(w) {
      var w', steps := GoesOn(w);
      assert Run(w, steps).Some?;
    } else {
      forall steps | Run(w, steps).Some? ensures Run(w, steps).value.inbox.requestSeq <= w.inbox.requestSeq {
        NotHopeless(w);
        HopelessForever(w, steps);
      }
    }
  }

  lemma NotHopeless(w: World)
    ensures Hopeless(w) <==> !CanGoOn(w)
  {
  }

  // ---- Whether the reader goes on without waiting

  /** Taking over these parked buffers is enough for the reader to go on at once. */
  predicate Has(w: World, m: map<int, Buffer>) {
    Clean(w, m) && (Next(w) in w.inbox.queue || Next(w) in m)
  }

  /** Outside, the reader may take over what is parked now or what any thread in the middle of parking will store. */
  predicate MustGoOn(w: World) {
    && Clean(w, w.inbox.queue) && Next(w) in w.arrived
    && match w.reader
       case Outside => Has(w, w.inbox.parked) && forall t :: t in w.threads ==> Has(w, Stored(w, t))
       case Holding(taken) => Has(w, taken)
       case Copied => Next(w) in w.inbox.queue
  }

  /** Message n arrives: what was enough still is, and with message n beside it too. */
  lemma StillHas(w: World, w': World, m: map<int, Buffer>, m': map<int, Buffer>, n: int)
    requires w'.inbox.requestSeq == w.inbox.requestSeq < n
    requires forall k :: k in w.inbox.queue ==> k in w'.inbox.queue
    requires forall k :: k in m' <==> k in m || (k == n && n in m')
    ensures Has(w, m) ==> Has(w', m')
  {
  }

  /** A message that had not arrived is none of those consumed. */
  lemma ArrivalIsNew(w: World, n: int)
    requires Safe(w) && CanArrive(w, n)
    ensures n > w.inbox.requestSeq
  {
  }

  lemma ArrivalMust(w: World, s: Step)
    requires Safe(w) && MustGoOn(w) && Take(w, s).Some? && (s.Deliver? || s.Park? || s.Snapshot?)
    ensures MustGoOn(Take(w, s).value)
  {
    hide Has, Safe;
    ArrivalIsNew(w, s.n);
    var w' := Take(w, s).value;
    forall m ensures Has(w, m) ==> Has(w', m) {
      StillHas(w, w', m, m, s.n);
    }
    StillHas(w, w', w.inbox.parked, w'.inbox.parked, s.n);
    if s.Snapshot? {
      StillHas(w, w', w.inbox.parked, Stored(w', s.thread), s.n);
    }
    assert forall t :: t in w.threads ==> Stored(w', t) == Stored(w, t);
  }

  lemma ReaderMust(w: World, s: Step)
    requires MustGoOn(w) && Take(w, s).Some? && (s.TakeParked? || s.Copy? || s.Send? || s.Return? || s.Store?)
    ensures MustGoOn(Take(w, s).value)
  {
    var w' := Take(w, s).value;
    assert forall t :: t in w'.threads ==> t in w.threads && Stored(w', t) == Stored(w, t);
    if s.Store? && w.reader.Outside? {
      assert Has(w, Stored(w, s.thread));
    } else if s.Copy? {
      var q, taken := w.inbox.queue, w.reader.taken;
      assert forall k :: k in w'.inbox.queue <==> k in q || k in taken;
    }
    assert s.Copy? || forall m :: Has(w, m) ==> Has(w', m);
  }

  ghost predicate Quiet(steps: seq<Step>) {
    forall s :: s in steps ==> !s.Consume?
  }

  lemma {:induction false} RunMust(w: World, steps: seq<Step>)
    requires Safe(w) && MustGoOn(w) && Run(w, steps).Some? && Quiet(steps)
    ensures MustGoOn(Run(w, steps).value) && Run(w, steps).value.inbox.requestSeq == w.inbox.requestSeq
  {
    hide Safe, MustGoOn;
    if steps == [] {
    } else {
      var front, s := steps[..|steps| - 1], steps[|steps| - 1];
      assert s in steps && forall x :: x in front ==> x in steps;
      RunMust(w, front);
      RunStaysSafe(w, front);
      var u := Run(w, front).value;
      if s.Deliver? || s.Park? || s.Snapshot? {
        ArrivalMust(u, s);
      } else {
        ReaderMust(u, s);
      }
    }
  }

  lemma TakingKeepsShort(w: World)
    requires w.reader.Outside? && !(Clean(w, w.inbox.queue) && Next(w) in w.arrived && Has(w, w.inbox.parked))
    ensures !MustGoOn(Take(w, TakeParked).value)
  {
    var w' := Take(w, TakeParked).value;
    assert Has(w', w.inbox.parked) ==> Has(w, w.inbox.parked);
  }

  /** Outside, the reader takes over buffers that are not enough. */
  lemma TakesTooLittle(w: World) returns (w': World, steps: seq<Step>)
    requires !MustGoOn(w) && w.reader.Outside?
    ensures Run(w, steps) == Some(w') && Quiet(steps) && w'.reader.Holding? && !MustGoOn(w')
  {
    w', steps := w, [];
    if Clean(w, w.inbox.queue) && Next(w) in w.arrived && Has(w, w.inbox.parked) {
      var t :| t in w.threads && !Has(w, Stored(w, t));
      w', steps := OneMore(w, w', steps, Store(t));
      StoredIsParked(w, t);
    }
    hide Run, Has, Clean;
    TakingKeepsShort(w');
    w', steps := OneMore(w, w', steps, TakeParked);
  }

  lemma StoredIsParked(w: World, t: nat)
    requires t in w.threads && !Has(w, Stored(w, t))
    ensures var w' := Take(w, Store(t)).value; !Has(w', w'.inbox.parked)
  {
  }

  lemma CopiesTooLittle(w: World) returns (w': World)
    requires !MustGoOn(w) && w.reader.Holding? && (forall k :: k in w.reader.taken ==> k in w.arrived)
    requires forall k :: k in w.inbox.queue ==> k in w.arrived
    ensures Take(w, Copy) == Some(w') && w'.reader.Copied?
    ensures !(Clean(w', w'.inbox.queue) && Next(w') in w'.inbox.queue)
  {
    w' := Take(w, Copy).value;
    var q, taken := w.inbox.queue, w.reader.taken;
    assert forall k :: k in w'.inbox.queue <==> k in q || k in taken;
  }

  lemma InArrived(w: World)
    requires Safe(w)
    ensures forall k :: k in w.inbox.queue ==> k in w.arrived
    ensures w.reader.Holding? ==> forall k :: k in w.reader.taken ==> k in w.arrived
  {
  }

  /** Some way past the copying at which the reader has to wait. */
  lemma HasToWait(w: World) returns (w': World, steps: seq<Step>)
    requires Safe(w) && !MustGoOn(w)
    ensures Run(w, steps) == Some(w') && Quiet(steps) && w'.reader.Copied?
    ensures !(Clean(w', w'.inbox.queue) && Next(w') in w'.inbox.queue)
  {
    hide Safe, Take, Clean;
    w', steps := w, [];
    if w.reader.Outside? {
      hide MustGoOn;
      w', steps := TakesTooLittle(w);
    }
    RunStaysSafe(w, steps);
    InArrived(w');
    if w'.reader.Holding? {
      var u := CopiesTooLittle(w');
      w', steps := OneMore(w, w', steps, Copy);
    }
  }

  /** The reader takes the next message without waiting, whatever happens until it is past the copying, exactly under
      this condition: the message has arrived, nothing consumed is queued, and whatever parked buffers the reader may
      take over hold nothing consumed and, unless the message is queued, hold the message. */
  lemma NeverWaitsIf(w: World)
    requires Safe(w)
    ensures (forall steps :: Run(w, steps).Some? && Quiet(steps) && Run(w, steps).value.reader.Copied? ==>
               var i := Run(w, steps).value.inbox; Available(i.queue, i.requestSeq))
        <==> MustGoOn(w)
  {
    hide Safe, MustGoOn, Run, Quiet, Available, Clean;
    if MustGoOn(w) {
      forall steps | Run(w, steps).Some? && Quiet(steps) && Run(w, steps).value.reader.Copied?
        ensures var i := Run(w, steps).value.inbox; Available(i.queue, i.requestSeq)
      {
        RunMust(w, steps);
        RunStaysSafe(w, steps);
        MustBeAvailable(Run(w, steps).value);
      }
    } else {
      var w', steps := HasToWait(w);
      RunStaysSafe(w, steps);
      AvailableIf(w');
      assert Run(w, steps).Some? && Quiet(steps);
    }
  }

  lemma MustBeAvailable(w: World)
    requires Safe(w) && MustGoOn(w) && w.reader.Copied?
    ensures Available(w.inbox.queue, w.inbox.requestSeq)
  {
    AvailableIf(w);
  }

  // ---- When parking is one step

  function InHand(w: World): map<int, Buffer> {
    if w.reader.Holding? then w.reader.taken else map[]
  }

  predicate Somewhere(w: World, k: int) {
    k in w.inbox.queue || k in w.inbox.parked || k in InHand(w)
  }

  /** Each message that has arrived and is still to be consumed is in exactly one of the three maps, no other in any. */
  ghost predicate Lossless(w: World) {
    && w.threads == map[]
    && (forall k :: Somewhere(w, k) <==> k in w.arrived && k > w.inbox.requestSeq)
    && (forall k :: k in w.inbox.queue ==> k !in w.inbox.parked && k !in InHand(w))
    && (forall k :: k in w.inbox.parked ==> k !in InHand(w))
  }

  predicate IsWhole(s: Step) {
    !s.Snapshot? && !s.Store?
  }

  lemma ArrivalLossless(w: World, s: Step)
    requires Safe(w) && Lossless(w) && Take(w, s).Some? && (s.Deliver? || s.Park?)
    ensures s.n > w.inbox.requestSeq ==> Lossless(Take(w, s).value)
  {
    var w' := Take(w, s).value;
    assert !Somewhere(w, s.n);
    assert forall k :: Somewhere(w', k) <==> Somewhere(w, k) || k == s.n;
  }

  lemma TakeParkedLossless(w: World)
    requires Lossless(w) && Take(w, TakeParked).Some?
    ensures Lossless(Take(w, TakeParked).value)
  {
    var w' := Take(w, TakeParked).value;
    assert forall k :: Somewhere(w', k) <==> Somewhere(w, k);
  }

  lemma CopyLossless(w: World)
    requires Lossless(w) && Take(w, Copy).Some?
    ensures Lossless(Take(w, Copy).value)
  {
    var w' := Take(w, Copy).value;
    assert forall k :: Somewhere(w', k) <==> Somewhere(w, k);
  }

  lemma ConsumeLossless(w: World)
    requires Safe(w) && Lossless(w) && Take(w, Consume).Some?
    ensures Lossless(Take(w, Consume).value)
  {
    var w' := Take(w, Consume).value;
    var k0 := First(w.inbox.queue);
    assert k0 == w.inbox.requestSeq + 1 && Somewhere(w, k0);
    assert forall k :: Somewhere(w', k) <==> Somewhere(w, k) && k != k0;
  }

  lemma StepLossless(w: World, s: Step)
    requires Safe(w) && Lossless(w) && IsWhole(s) && Take(w, s).Some?
    ensures Lossless(Take(w, s).value)
  {
    match s
    case Deliver(_, _) => ArrivalLossless(w, s);
    case Park(_, _) => ArrivalLossless(w, s);
    case TakeParked => TakeParkedLossless(w);
    case Copy => CopyLossless(w);
    case Consume => ConsumeLossless(w);
    case _ => OtherLossless(w, s);
  }

  lemma OtherLossless(w: World, s: Step)
    requires Lossless(w) && (s.Send? || s.Return?) && Take(w, s).Some?
    ensures Lossless(Take(w, s).value)
  {
    var w' := Take(w, s).value;
    assert forall k :: Somewhere(w', k) <==> Somewhere(w, k);
  }

  ghost predicate Orderly(w: World) {
    Safe(w) && Lossless(w)
  }

  lemma StartOrderly(task: string)
    ensures Orderly(Start(task))
  {
  }

  /** With parking as one step, every message that has arrived is consumed or in exactly one map, throughout. */
  lemma {:induction false} RunOrderly(task: string, steps: seq<Step>)
    requires Run(Start(task), steps).Some? && forall s :: s in steps ==> IsWhole(s)
    ensures Orderly(Run(Start(task), steps).value)
  {
    hide Take, Safe, Lossless, IsWhole;
    if steps == [] {
      StartOrderly(task);
    } else {
      var front, s := steps[..|steps| - 1], steps[|steps| - 1];
      assert s in steps && forall x :: x in front ==> x in steps;
      RunOrderly(task, front);
      StepSafe(Run(Start(task), front).value, s);
      StepLossless(Run(Start(task), front).value, s);
    }
  }

  /** Then a reader that is past the copying either can take a message, or its next message has not arrived, or it never
      will: the last exactly if that message was parked too late to be taken over. */
  lemma WaitingReader(w: World)
    requires Orderly(w) && w.reader.Copied?
    ensures Available(w.inbox.queue, w.inbox.requestSeq) <==> Next(w) in w.arrived && Next(w) !in w.inbox.parked
    ensures Hopeless(w) <==> Next(w) in w.inbox.parked
  {
    AvailableIf(w);
    assert Somewhere(w, Next(w)) <==> Next(w) in w.arrived;
    assert forall k :: k in w.inbox.queue ==> Somewhere(w, k);
  }

  /** And if the next message is queued or parked when the reader calls consumeBuffer, the reader never waits. */
  lemma NextMessageIsTaken(task: string, before: seq<Step>, steps: seq<Step>)
    requires Run(Start(task), before).Some? && forall s :: s in before ==> IsWhole(s)
    requires var w := Run(Start(task), before).value;
             && w.reader.Outside? && Next(w) in w.arrived
             && Run(w, steps).Some? && Quiet(steps) && Run(w, steps).value.reader.Copied?
    ensures var w := Run(Start(task), before).value;
            var i := Run(w, steps).value.inbox;
            Available(i.queue, i.requestSeq) && i.queue[First(i.queue)].seqNo == Next(w)
  {
    hide Run;
    RunOrderly(task, before);
    var w := Run(Start(task), before).value;
    OrderlyMust(w);
    RunMust(w, steps);
    RunStaysSafe(w, steps);
    MustBeAvailable(Run(w, steps).value);
  }

  lemma OrderlyMust(w: World)
    requires Orderly(w) && w.reader.Outside? && Next(w) in w.arrived
    ensures MustGoOn(w)
  {
    assert Somewhere(w, Next(w));
    assert forall k :: k in w.inbox.queue || k in w.inbox.parked ==> Somewhere(w, k);
  }

  // ---- Runs that go wrong

  /** Parking decided before the processor had the task, done after the reader has looked: the reader waits for ever. */
  lemma ParkedTooLate(task: string, from: string) returns (w: World, steps: seq<Step>)
    ensures Run(Start(task), steps) == Some(w) && Hopeless(w) && |w.sent| == 1 && w.order == [] && 1 in w.arrived
  {
    RunNothing(Start(task));
    hide Run, First, Available, Removed, Stored;
    w, steps := OneMore(Start(task), Start(task), [], Send([7]));
    w, steps := OneMore(Start(task), w, steps, TakeParked);
    w, steps := OneMore(Start(task), w, steps, Copy);
    w, steps := OneMore(Start(task), w, steps, Park(1, from));
  }

  lemma RunNothing(w: World)
    ensures Run(w, []) == Some(w)
  {
  }

  /** Two messages have been sent. */
  lemma BothSent(task: string) returns (w: World, steps: seq<Step>)
    ensures Run(Start(task), steps) == Some(w) && w == Start(task).(sent := [[7], [8]])
  {
    RunNothing(Start(task));
    hide Run, First, Available, Merge, Removed, Message, Stored;
    w, steps := OneMore(Start(task), Start(task), [], Send([7]));
    w, steps := OneMore(Start(task), w, steps, Send([8]));
  }

  /** Two threads have seen nothing parked and are about to park a message each. */
  lemma BothHalfParked(task: string, from: string) returns (w: World, steps: seq<Step>)
    ensures Run(Start(task), steps) == Some(w)
    ensures w == Start(task).(sent := [[7], [8]], arrived := {1, 2},
                              threads := map[0 := Parking(map[], Buffer(1, task, from, [7])),
                                             1 := Parking(map[], Buffer(2, task, from, [8]))])
  {
    hide Run;
    w, steps := BothSent(task);
    w, steps := OneMore(Start(task), w, steps, Snapshot(0, 1, from));
    w, steps := OneMore(Start(task), w, steps, Snapshot(1, 2, from));
  }

  /** Two threads park at once: the second to store discards what the first stored. */
  lemma ParkedTogether(task: string, from: string) returns (w: World, steps: seq<Step>)
    ensures Run(Start(task), steps) == Some(w) && Hopeless(w) && |w.sent| == 2 && w.threads == map[] && w.order == []
    ensures w.arrived == {1, 2}
  {
    hide Run;
    w, steps := BothHalfParked(task, from);
    w, steps := OneMore(Start(task), w, steps, Store(0));
    w, steps := OneMore(Start(task), w, steps, Store(1));
    assert w.inbox.parked.Keys == {2};
  }

  /** One message is parked, and a thread that has seen it is about to park another. */
  lemma HalfParked(task: string, from: string) returns (w: World, steps: seq<Step>)
    ensures Run(Start(task), steps) == Some(w)
    ensures var b1, b2 := Buffer(1, task, from, [7]), Buffer(2, task, from, [8]);
            w == World(task, [[7], [8]], {1, 2}, Inbox(map[], map[1 := b1], 0), map[0 := Parking(map[1 := b1], b2)],
                       Outside, [], [], [])
  {
    hide Run, First, Available, Merge, Removed, Stored;
    w, steps := BothSent(task);
    w, steps := OneMore(Start(task), w, steps, Park(1, from));
    w, steps := OneMore(Start(task), w, steps, Snapshot(0, 2, from));
  }

  /** The first message is taken over and queued meanwhile. */
  lemma TakenWhileParking(task: string, from: string) returns (w: World, steps: seq<Step>)
    ensures Run(Start(task), steps) == Some(w)
    ensures var b1, b2 := Buffer(1, task, from, [7]), Buffer(2, task, from, [8]);
            w == World(task, [[7], [8]], {1, 2}, Inbox(map[1 := b1], map[], 0), map[0 := Parking(map[1 := b1], b2)],
                       Copied, [], [], [])
  {
    hide Run;
    w, steps := HalfParked(task, from);
    w, steps := OneMore(Start(task), w, steps, TakeParked);
    w, steps := OneMore(Start(task), w, steps, Copy);
  }

  lemma OnlyKey(k: int, b: Buffer)
    requires b.seqNo == k
    ensures var m := map[k := b]; NonEmpty(m) && First(m) == k && Removed(m, k) == map[]
  {
    assert k in map[k := b];
  }

  /** A thread parks while the reader takes the parked buffers: a consumed message comes back, and although the next
      message is parked beside it, the reader never gets it. */
  lemma ParkedAgain(task: string, from: string) returns (w: World, steps: seq<Step>)
    ensures Run(Start(task), steps) == Some(w) && Hopeless(w) && |w.sent| == 2 && w.order == [1]
    ensures w.reader.Outside? && w.threads == map[] && Next(w) == 2 && 2 in w.inbox.parked
  {
    hide Run;
    w, steps := TakenWhileParking(task, from);
    OnlyKey(1, w.inbox.queue[1]);
    w, steps := OneMore(Start(task), w, steps, Consume);
    hide First;
    w, steps := OneMore(Start(task), w, steps, Store(0));
    assert 1 in w.inbox.parked;
  }
}
