/** How two nodes agree to start a task. Alice invites Bob and Bob notifies Alice; each node ORs bits into the state it
    keeps for the task and pushes the task to its put queue when it reads 0x03. Every critical section is a step of its
    own: writing the state, reading it, looking the task up, pushing it, and, once the task has been run, removing its
    state and its working entry. Any step of the other threads may come between two of them. */
module Handshake {
  import opened Wrappers

  datatype Party = Alice | Bob

  function Peer(p: Party): Party {
    if p == Alice then Bob else Alice
  }

  /** The bit a node sets when its own call has been answered; the handler its peer calls sets the other one. */
  function Own(p: Party): bv8 {
    if p == Alice then 0x01 else 0x02
  }

  const READY: bv8 := 0x03

  // ---- The task-state map, for one task

  function Update(state: Option<bv8>, bits: bv8): Option<bv8> {
    match state
    case None => Some(bits)
    case Some(known) => Some(known | bits)
  }

  /** A missing entry leaves the caller's variable as it was. */
  function Find(state: Option<bv8>, variable: bv8): bv8 {
    match state
    case None => variable
    case Some(found) => found
  }

  // ---- One task at one node

  /** The handler that the peer calls: invite2 at Bob, notify2 at Alice. Having read 0x03 it looks the task up among
      the working ones, and pushes the copy it got. */
  datatype Handler = NotCalled | Called | HandlerUpdated | HandlerReady | HandlerHolds | Returned(status: bv8)

  /** The node's own side: the task is submitted, taken from the commit queue, and the peer called; having read 0x03
      the thread pushes its own copy. */
  datatype Caller =
    | Uncommitted | Submitted | Admitted | Calling | ReplyUpdated(variable: bv8) | ReplyReady | Answered

  /** What a processor has removed after running the task. */
  datatype Removal = Nothing | StateGone | AllGone

  /** crossed: an update of one thread fell between the other thread's update and find.
      late: a find came after the state had been removed. missed: so did a lookup after the working entry. */
  datatype Node = Node(
    state: Option<bv8>, working: bool, pushes: nat, handler: Handler, caller: Caller, removal: Removal,
    crossed: bool, late: bool, missed: bool)

  datatype Step =
    | Submit(p: Party)
    | Commit(p: Party)
    | Call(p: Party)
    | HandlerUpdate(p: Party)
    | HandlerFind(p: Party)
    | HandlerLookup(p: Party)
    | HandlerPush(p: Party)
    | ReplyUpdate(p: Party)
    | ReplyFind(p: Party)
    | ReplyPush(p: Party)
    | RemoveState(p: Party)
    | RemoveWorking(p: Party)

  function HandlerUpdates(p: Party, n: Node): Node {
    n.(state := Update(n.state, Own(Peer(p))), handler := HandlerUpdated, crossed := n.caller.ReplyUpdated?)
  }

  function HandlerFinds(p: Party, n: Node): Node {
    var status := Find(n.state, Own(Peer(p)));
    n.(handler := if status == READY then HandlerReady else Returned(status), late := n.late || !n.removal.Nothing?)
  }

  /** Without a working task the handler only logs an error; it still returns the status it has read. */
  function HandlerLooksUp(n: Node): Node {
    n.(handler := if n.working then HandlerHolds else Returned(READY), missed := !n.working)
  }

  function HandlerPushes(n: Node): Node {
    n.(handler := Returned(READY), pushes := n.pushes + 1)
  }

  function ReplyUpdates(p: Party, n: Node, status: bv8): Node {
    var state := Own(p) | status;
    n.(state := Update(n.state, state), caller := ReplyUpdated(state), crossed := n.handler.HandlerUpdated?)
  }

  function ReplyFinds(n: Node): Node
    requires n.caller.ReplyUpdated?
  {
    var state := Find(n.state, n.caller.variable);
    n.(caller := if state == READY then ReplyReady else Answered, late := n.late || !n.removal.Nothing?)
  }

  function ReplyPushes(n: Node): Node {
    n.(caller := Answered, pushes := n.pushes + 1)
  }

  datatype Nodes = Nodes(alice: Node, bob: Node)

  function At(w: Nodes, p: Party): Node {
    if p == Alice then w.alice else w.bob
  }

  function Set(w: Nodes, p: Party, n: Node): Nodes {
    if p == Alice then w.(alice := n) else w.(bob := n)
  }

  /** The node after a step that concerns it alone; None where the step cannot be taken. A task that has been pushed
      may be run, and is then removed; a second removal would find nothing left. */
  function Local(p: Party, n: Node, peer: Node, s: Step): Option<Node> {
    match s
    case Submit(_) =>
      if n.caller.Uncommitted? then Some(n.(state := Update(n.state, 0), caller := Submitted)) else None
    case Commit(_) => if n.caller.Submitted? then Some(n.(caller := Admitted, working := true)) else None
    case Call(_) => if n.caller.Admitted? && peer.handler.NotCalled? then Some(n.(caller := Calling)) else None
    case HandlerUpdate(_) => if n.handler.Called? then Some(HandlerUpdates(p, n)) else None
    case HandlerFind(_) => if n.handler.HandlerUpdated? then Some(HandlerFinds(p, n)) else None
    case HandlerLookup(_) => if n.handler.HandlerReady? then Some(HandlerLooksUp(n)) else None
    case HandlerPush(_) => if n.handler.HandlerHolds? then Some(HandlerPushes(n)) else None
    case ReplyUpdate(_) =>
      if n.caller.Calling? && peer.handler.Returned? then Some(ReplyUpdates(p, n, peer.handler.status)) else None
    case ReplyFind(_) => if n.caller.ReplyUpdated? then Some(ReplyFinds(n)) else None
    case ReplyPush(_) => if n.caller.ReplyReady? then Some(ReplyPushes(n)) else None
    case RemoveState(_) =>
      if n.pushes > 0 && n.removal.Nothing? then Some(n.(state := None, removal := StateGone)) else None
    case RemoveWorking(_) => if n.removal.StateGone? then Some(n.(working := false, removal := AllGone)) else None
  }

  function Take(w: Nodes, s: Step): Option<Nodes> {
    var n, peer := At(w, s.p), At(w, Peer(s.p));
    var r := Local(s.p, n, peer, s);
    if r.None? then None
    else
      var w' := Set(w, s.p, r.value);
      Some(if s.Call? then Set(w', Peer(s.p), peer.(handler := Called)) else w')
  }

  function Run(w: Nodes, steps: seq<Step>): Option<Nodes> {
    if steps == [] then Some(w)
    else
      var r := Run(w, steps[..|steps| - 1]);
      if r.None? then None else Take(r.value, steps[|steps| - 1])
  }

  const FRESH := Node(None, false, 0, NotCalled, Uncommitted, Nothing, false, false, false)

  const START := Nodes(FRESH, FRESH)

  // ---- What every step keeps

  predicate IsEarly(n: Node) {
    n.caller.Uncommitted? || n.caller.Submitted?
  }

  predicate HasHandlerBit(n: Node) {
    !n.handler.NotCalled? && !n.handler.Called?
  }

  predicate HasOwnBit(n: Node) {
    n.caller.ReplyUpdated? || n.caller.ReplyReady? || n.caller.Answered?
  }

  predicate HasBoth(n: Node) {
    HasHandlerBit(n) && HasOwnBit(n)
  }

  /** The bits whose writers have written. */
  function Bits(p: Party, n: Node): Option<bv8> {
    if HasBoth(n) then Some(READY)
    else if HasHandlerBit(n) then Some(Own(Peer(p)))
    else if HasOwnBit(n) then Some(Own(p))
    else if n.caller.Uncommitted? then None
    else Some(0)
  }

  /** Threads that have updated and may still push. */
  function Outstanding(n: Node): nat {
    (if n.handler.HandlerUpdated? || n.handler.HandlerReady? || n.handler.HandlerHolds? then 1 else 0)
    + (if n.caller.ReplyUpdated? || n.caller.ReplyReady? then 1 else 0)
  }

  /** The pushes that there will have been when both threads are through. */
  function Due(n: Node): nat {
    if n.crossed && !n.late && !n.missed then 2 else 1
  }

  predicate NodeKept(p: Party, n: Node) {
    && n.state == (if n.removal.Nothing? then Bits(p, n) else None)
    && (n.working <==> !IsEarly(n) && !n.removal.AllGone?)
    && (!n.removal.Nothing? ==> n.pushes > 0)
    && (n.pushes > 0 ==> HasBoth(n))
    && (n.handler.Returned? ==> n.handler.status == Own(Peer(p)) || (n.handler.status == READY && HasBoth(n)))
    && (n.handler.HandlerReady? || n.handler.HandlerHolds? || n.caller.ReplyReady? ==> HasBoth(n))
    && (n.crossed ==> HasBoth(n))
    && (n.late || n.missed ==> n.crossed && n.pushes > 0) && !(n.late && n.missed)
    && (HasBoth(n) ==> n.pushes + Outstanding(n) == Due(n))
  }

  predicate Link(p: Party, n: Node, peer: Node) {
    && (peer.handler.NotCalled? <==> IsEarly(n) || n.caller.Admitted?)
    && (HasOwnBit(n) ==> peer.handler.Returned?)
    && (n.caller.ReplyUpdated? ==>
          n.caller.variable == Own(p) || (n.caller.variable == READY && !n.crossed && n.handler.Returned?))
  }

  predicate Both(p: Party, n: Node, peer: Node) {
    NodeKept(p, n) && NodeKept(Peer(p), peer) && Link(p, n, peer) && Link(Peer(p), peer, n)
  }

  predicate Kept(w: Nodes) {
    Both(Alice, w.alice, w.bob)
  }

  lemma BitFacts(p: Party)
    ensures Own(p) | Own(Peer(p)) == READY && Own(p) | READY == READY && Own(Peer(p)) | READY == READY
    ensures Own(Peer(p)) | Own(p) == READY && READY | Own(p) == READY && 0 | Own(p) == Own(p)
    ensures 0 | Own(Peer(p)) == Own(Peer(p)) && 0 | READY == READY
    ensures Own(p) != READY && Own(Peer(p)) != READY && Own(p) != Own(Peer(p)) && READY != 0
  {
  }

  lemma UpdateKeeps(p: Party, n: Node, peer: Node, s: Step)
    requires Both(p, n, peer) && (s.HandlerUpdate? || s.ReplyUpdate?) && Local(p, n, peer, s).Some?
    ensures Both(p, Local(p, n, peer, s).value, peer)
  {
    hide Own;
    BitFacts(p);
  }

  lemma FindKeeps(p: Party, n: Node, peer: Node, s: Step)
    requires Both(p, n, peer) && (s.HandlerFind? || s.ReplyFind?) && Local(p, n, peer, s).Some?
    ensures Both(p, Local(p, n, peer, s).value, peer)
  {
    hide Own;
    BitFacts(p);
  }

  lemma StartKeeps(p: Party, n: Node, peer: Node, s: Step)
    requires Both(p, n, peer) && (s.Submit? || s.Commit?) && Local(p, n, peer, s).Some?
    ensures Both(p, Local(p, n, peer, s).value, peer)
  {
    hide Own;
  }

  lemma PushKeeps(p: Party, n: Node, peer: Node, s: Step)
    requires Both(p, n, peer) && (s.HandlerLookup? || s.HandlerPush? || s.ReplyPush?) && Local(p, n, peer, s).Some?
    ensures Both(p, Local(p, n, peer, s).value, peer)
  {
    hide Own;
    BitFacts(p);
  }

  lemma RemoveKeeps(p: Party, n: Node, peer: Node, s: Step)
    requires Both(p, n, peer) && (s.RemoveState? || s.RemoveWorking?) && Local(p, n, peer, s).Some?
    ensures Both(p, Local(p, n, peer, s).value, peer)
  {
    hide Own;
  }

  lemma CallKeeps(p: Party, n: Node, peer: Node)
    requires Both(p, n, peer) && n.caller.Admitted? && peer.handler.NotCalled?
    ensures Both(p, n.(caller := Calling), peer.(handler := Called))
  {
    hide Own;
  }

  lemma StepKeeps(w: Nodes, s: Step)
    requires Kept(w) && Take(w, s).Some?
    ensures Kept(Take(w, s).value)
  {
    hide NodeKept, Link, HandlerUpdates, HandlerFinds, ReplyUpdates, ReplyFinds;
    var n, peer := At(w, s.p), At(w, Peer(s.p));
    if s.Call? {
      CallKeeps(s.p, n, peer);
    } else {
      hide Local;
      if s.HandlerUpdate? || s.ReplyUpdate? {
        UpdateKeeps(s.p, n, peer, s);
      } else if s.HandlerFind? || s.ReplyFind? {
        FindKeeps(s.p, n, peer, s);
      } else if s.Submit? || s.Commit? {
        StartKeeps(s.p, n, peer, s);
      } else if s.RemoveState? || s.RemoveWorking? {
        RemoveKeeps(s.p, n, peer, s);
      } else {
        PushKeeps(s.p, n, peer, s);
      }
    }
  }

  lemma {:induction false} RunKeeps(steps: seq<Step>)
    requires Run(START, steps).Some?
    ensures Kept(Run(START, steps).value)
  {
    if steps == [] {
    } else {
      hide Take, Kept;
      RunKeeps(steps[..|steps| - 1]);
      StepKeeps(Run(START, steps[..|steps| - 1]).value, steps[|steps| - 1]);
    }
  }

  // ---- The order of the accesses

  /** The steps that read or write what a node keeps for the task. */
  predicate IsAccess(s: Step) {
    !s.Submit? && !s.Commit? && !s.Call? && !s.HandlerPush? && !s.ReplyPush?
  }

  /** A node's accesses, in the order they happened. */
  function Accesses(p: Party, steps: seq<Step>): seq<Step> {
    if steps == [] then []
    else
      var last := steps[|steps| - 1];
      Accesses(p, steps[..|steps| - 1]) + if last.p == p && IsAccess(last) then [last] else []
  }

  ghost predicate Before(accesses: seq<Step>, x: Step, y: Step) {
    exists i, j :: 0 <= i < j < |accesses| && accesses[i] == x && accesses[j] == y
  }

  /** Both updates came before either find. */
  ghost predicate UpdatesFirst(p: Party, accesses: seq<Step>) {
    && HandlerUpdate(p) in accesses && ReplyUpdate(p) in accesses
    && !Before(accesses, HandlerFind(p), ReplyUpdate(p)) && !Before(accesses, ReplyFind(p), HandlerUpdate(p))
  }

  /** Each update is followed by its own thread's find, as if the two were one step. */
  predicate Paired(p: Party, accesses: seq<Step>) {
    forall i :: 0 <= i < |accesses| - 1 ==>
      && (accesses[i].HandlerUpdate? ==> accesses[i + 1] == HandlerFind(p))
      && (accesses[i].ReplyUpdate? ==> accesses[i + 1] == ReplyFind(p))
  }

  predicate HasFound(n: Node) {
    n.handler.HandlerReady? || n.handler.HandlerHolds? || n.handler.Returned?
  }

  predicate HasLookedUp(n: Node) {
    n.handler.HandlerHolds? || n.handler == Returned(READY)
  }

  /** What a node's accesses and their order say about it. */
  ghost predicate Traced(p: Party, n: Node, accesses: seq<Step>) {
    && (HandlerUpdate(p) in accesses <==> HasHandlerBit(n))
    && (ReplyUpdate(p) in accesses <==> HasOwnBit(n))
    && (HandlerFind(p) in accesses <==> HasFound(n))
    && (ReplyFind(p) in accesses <==> n.caller.ReplyReady? || n.caller.Answered?)
    && (HandlerLookup(p) in accesses <==> HasLookedUp(n))
    && (RemoveState(p) in accesses <==> !n.removal.Nothing?)
    && (RemoveWorking(p) in accesses <==> n.removal.AllGone?)
    && (n.crossed <==> UpdatesFirst(p, accesses))
    && (n.late <==>
          Before(accesses, RemoveState(p), HandlerFind(p)) || Before(accesses, RemoveState(p), ReplyFind(p)))
    && (n.missed <==> Before(accesses, RemoveWorking(p), HandlerLookup(p)))
  }

  lemma Snoc(accesses: seq<Step>, s: Step)
    ensures forall x :: x in accesses + [s] <==> x in accesses || x == s
    ensures forall x, y :: Before(accesses + [s], x, y) <==> Before(accesses, x, y) || (y == s && x in accesses)
  {
    var longer := accesses + [s];
    forall x, y ensures Before(longer, x, y) <==> Before(accesses, x, y) || (y == s && x in accesses) {
      if Before(longer, x, y) {
        var i, j :| 0 <= i < j < |longer| && longer[i] == x && longer[j] == y;
        assert accesses[i] == x;
      }
      if Before(accesses, x, y) {
        var i, j :| 0 <= i < j < |accesses| && accesses[i] == x && accesses[j] == y;
        assert longer[i] == x && longer[j] == y;
      }
      if y == s && x in accesses {
        var i :| 0 <= i < |accesses| && accesses[i] == x;
        assert longer[i] == x && longer[|accesses|] == y;
      }
    }
  }

  lemma BothOccur(accesses: seq<Step>)
    ensures forall x, y :: Before(accesses, x, y) ==> x in accesses && y in accesses
  {
  }

  lemma TraceUpdate(p: Party, n: Node, peer: Node, s: Step, accesses: seq<Step>)
    requires Both(p, n, peer) && Traced(p, n, accesses) && s.p == p && Local(p, n, peer, s).Some?
    requires s.HandlerUpdate? || s.ReplyUpdate?
    ensures Traced(p, Local(p, n, peer, s).value, accesses + [s])
  {
    hide Before, Own;
    BitFacts(p);
    Snoc(accesses, s);
    BothOccur(accesses);
  }

  lemma TraceFind(p: Party, n: Node, peer: Node, s: Step, accesses: seq<Step>)
    requires Both(p, n, peer) && Traced(p, n, accesses) && s.p == p && Local(p, n, peer, s).Some?
    requires s.HandlerFind? || s.ReplyFind?
    ensures Traced(p, Local(p, n, peer, s).value, accesses + [s])
  {
    hide Before, Own;
    BitFacts(p);
    Snoc(accesses, s);
    BothOccur(accesses);
  }

  lemma TraceRest(p: Party, n: Node, peer: Node, s: Step, accesses: seq<Step>)
    requires Both(p, n, peer) && Traced(p, n, accesses) && s.p == p && Local(p, n, peer, s).Some?
    requires s.HandlerLookup? || s.RemoveState? || s.RemoveWorking?
    ensures Traced(p, Local(p, n, peer, s).value, accesses + [s])
  {
    hide Before, Own;
    BitFacts(p);
    Snoc(accesses, s);
    BothOccur(accesses);
  }

  lemma OwnStep(p: Party, n: Node, peer: Node, s: Step, accesses: seq<Step>)
    requires Both(p, n, peer) && Traced(p, n, accesses) && s.p == p && IsAccess(s) && Local(p, n, peer, s).Some?
    ensures Traced(p, Local(p, n, peer, s).value, accesses + [s])
  {
    hide Traced, Both, Local;
    if s.HandlerUpdate? || s.ReplyUpdate? {
      TraceUpdate(p, n, peer, s, accesses);
    } else if s.HandlerFind? || s.ReplyFind? {
      TraceFind(p, n, peer, s, accesses);
    } else {
      TraceRest(p, n, peer, s, accesses);
    }
  }

  lemma OtherStep(p: Party, n: Node, peer: Node, s: Step, accesses: seq<Step>)
    requires Both(p, n, peer) && Traced(p, n, accesses) && !IsAccess(s) && Local(p, n, peer, s).Some?
    ensures Traced(p, Local(p, n, peer, s).value, accesses)
  {
    hide Before, Own, UpdatesFirst;
    BitFacts(p);
  }

  lemma PeerStep(p: Party, n: Node, accesses: seq<Step>)
    requires Traced(p, n, accesses) && n.handler.NotCalled?
    ensures Traced(p, n.(handler := Called), accesses)
  {
    hide Before, UpdatesFirst;
  }

  lemma TraceStep(w: Nodes, s: Step, p: Party, accesses: seq<Step>)
    requires Kept(w) && Take(w, s).Some? && Traced(p, At(w, p), accesses)
    ensures Traced(p, At(Take(w, s).value, p), accesses + if s.p == p && IsAccess(s) then [s] else [])
  {
    hide Traced, NodeKept, Link, Local;
    assert accesses + [] == accesses;
    var n, peer := At(w, p), At(w, Peer(p));
    assert Both(p, n, peer);
    if s.p == p {
      if IsAccess(s) {
        OwnStep(p, n, peer, s, accesses);
      } else {
        OtherStep(p, n, peer, s, accesses);
      }
    } else if s.Call? {
      CallIsFirst(s.p, peer, n, s);
      PeerStep(p, n, accesses);
    }
  }

  lemma CallIsFirst(p: Party, n: Node, peer: Node, s: Step)
    requires s.Call? && Local(p, n, peer, s).Some?
    ensures peer.handler.NotCalled?
  {
  }

  lemma {:induction false} RunTraces(steps: seq<Step>, p: Party)
    requires Run(START, steps).Some?
    ensures Traced(p, At(Run(START, steps).value, p), Accesses(p, steps))
  {
    hide Take, Traced, Kept;
    if steps == [] {
      NothingTraced(p);
    } else {
      var front := steps[..|steps| - 1];
      RunKeeps(front);
      RunTraces(front, p);
      TraceStep(Run(START, front).value, steps[|steps| - 1], p, Accesses(p, front));
    }
  }

  lemma NothingTraced(p: Party)
    ensures Traced(p, FRESH, [])
  {
  }

  // ---- Once, and not too early

  /** Both calls have been answered and both answers handled. */
  predicate Settled(w: Nodes) {
    && w.alice.handler.Returned? && w.bob.handler.Returned?
    && w.alice.caller.Answered? && w.bob.caller.Answered?
  }

  lemma KeptAt(w: Nodes, p: Party)
    requires Kept(w)
    ensures Both(p, At(w, p), At(w, Peer(p)))
  {
  }

  /** In every run in which both calls are answered, each node has pushed the task once or twice: twice exactly when
      both updates of its state came before both finds, no find came after the state was removed, and the handler did
      not look the task up after its working entry was removed. Until then the state is 0x03 at both nodes. */
  lemma PushedOnceOrTwice(steps: seq<Step>, p: Party)
    requires Run(START, steps).Some? && Settled(Run(START, steps).value)
    ensures var n, accesses := At(Run(START, steps).value, p), Accesses(p, steps);
            && 1 <= n.pushes <= 2
            && (n.pushes == 2 <==>
                  && UpdatesFirst(p, accesses)
                  && !Before(accesses, RemoveState(p), HandlerFind(p))
                  && !Before(accesses, RemoveState(p), ReplyFind(p))
                  && !Before(accesses, RemoveWorking(p), HandlerLookup(p)))
            && (RemoveState(p) !in accesses ==> n.state == Some(READY))
  {
    RunKeeps(steps);
    RunTraces(steps, p);
    KeptAt(Run(START, steps).value, p);
  }

  /** With update and find as one step each node pushes the task exactly once. */
  lemma PushedOnceWhenPaired(steps: seq<Step>, p: Party)
    requires Run(START, steps).Some? && Settled(Run(START, steps).value) && Paired(p, Accesses(p, steps))
    ensures At(Run(START, steps).value, p).pushes == 1
  {
    hide Run, Accesses;
    PushedOnceOrTwice(steps, p);
    PairedDoNotCross(p, Accesses(p, steps));
  }

  lemma PairedDoNotCross(p: Party, accesses: seq<Step>)
    requires Paired(p, accesses)
    ensures !UpdatesFirst(p, accesses)
  {
    if HandlerUpdate(p) in accesses && ReplyUpdate(p) in accesses {
      var i :| 0 <= i < |accesses| && accesses[i] == HandlerUpdate(p);
      var j :| 0 <= j < |accesses| && accesses[j] == ReplyUpdate(p);
      if i < j {
        assert accesses[i + 1] == HandlerFind(p) && i + 1 < j;
      } else {
        assert accesses[j + 1] == ReplyFind(p) && j + 1 < i;
      }
    }
  }

  /** Whenever a node has pushed the task, both handlers have set their bits, the one at the peer has returned, and
      both nodes had taken the task from their commit queues. */
  lemma NeverTooEarly(steps: seq<Step>, p: Party)
    requires Run(START, steps).Some? && At(Run(START, steps).value, p).pushes > 0
    ensures var w := Run(START, steps).value;
            && HasHandlerBit(At(w, p)) && At(w, Peer(p)).handler.Returned?
            && !IsEarly(w.alice) && !IsEarly(w.bob)
  {
    RunKeeps(steps);
    KeptAt(Run(START, steps).value, p);
  }

  /** A handler that has read 0x03 finds the task among the working ones unless the task has been run and removed. */
  lemma WorkingTaskIsThere(steps: seq<Step>, p: Party)
    requires Run(START, steps).Some? && At(Run(START, steps).value, p).handler.HandlerReady?
    ensures At(Run(START, steps).value, p).working <==> RemoveWorking(p) !in Accesses(p, steps)
  {
    RunKeeps(steps);
    RunTraces(steps, p);
    KeptAt(Run(START, steps).value, p);
  }

  /** The branch for a missing working task is taken exactly when the working entry is removed before the lookup of a
      handler that has read 0x03. Then both updates came before both finds, both finds before the removal, and the
      caller's push is the only one. */
  lemma WorkingTaskIsMissed(steps: seq<Step>, p: Party)
    requires Run(START, steps).Some?
    ensures var n, accesses := At(Run(START, steps).value, p), Accesses(p, steps);
            && (n.missed <==> Before(accesses, RemoveWorking(p), HandlerLookup(p)))
            && (n.missed ==>
                  && UpdatesFirst(p, accesses) && n.pushes == 1
                  && !Before(accesses, RemoveState(p), HandlerFind(p))
                  && !Before(accesses, RemoveState(p), ReplyFind(p)))
  {
    hide Before, UpdatesFirst, Run, Accesses;
    RunKeeps(steps);
    RunTraces(steps, p);
    KeptAt(Run(START, steps).value, p);
  }

  // ---- Interleavings

  /** A run goes on with one more step of party p. */
  lemma OneMore(w: Nodes, steps: seq<Step>, s: Step) returns (w': Nodes, steps': seq<Step>)
    requires Run(START, steps) == Some(w) && Local(s.p, At(w, s.p), At(w, Peer(s.p)), s).Some?
    ensures Run(START, steps') == Some(w')
    ensures At(w', s.p) == Local(s.p, At(w, s.p), At(w, Peer(s.p)), s).value
    ensures At(w', Peer(s.p)) == if s.Call? then At(w, Peer(s.p)).(handler := Called) else At(w, Peer(s.p))
  {
    hide Local;
    w' := Take(w, s).value;
    steps' := steps + [s];
    assert steps'[..|steps|] == steps;
  }

  /** Both nodes have taken the task. */
  lemma BothAdmitted() returns (w: Nodes, steps: seq<Step>)
    ensures Run(START, steps) == Some(w)
    ensures w.alice == FRESH.(state := Some(0), working := true, caller := Admitted) == w.bob
  {
    assert Run(START, []) == Some(START);
    hide Run, Own;
    w, steps := OneMore(START, [], Submit(Alice));
    w, steps := OneMore(w, steps, Commit(Alice));
    w, steps := OneMore(w, steps, Submit(Bob));
    w, steps := OneMore(w, steps, Commit(Bob));
  }

  /** Both nodes have called each other. */
  lemma BothCalled() returns (w: Nodes, steps: seq<Step>)
    ensures Run(START, steps) == Some(w)
    ensures w.alice == Node(Some(0), true, 0, Called, Calling, Nothing, false, false, false) == w.bob
  {
    hide Run, Own;
    w, steps := BothAdmitted();
    w, steps := OneMore(w, steps, Call(Alice));
    w, steps := OneMore(w, steps, Call(Bob));
  }

  /** Bob's handler has returned, and at Alice both threads have updated the state. */
  lemma BothUpdated() returns (w: Nodes, steps: seq<Step>)
    ensures Run(START, steps) == Some(w)
    ensures w.alice
         == Node(Some(READY), true, 0, HandlerUpdated, ReplyUpdated(Own(Alice)), Nothing, true, false, false)
    ensures w.bob == Node(Some(Own(Alice)), true, 0, Returned(Own(Alice)), Calling, Nothing, false, false, false)
  {
    BitFacts(Alice);
    BitFacts(Bob);
    OrSame(Own(Alice));
    hide Run, Own;
    w, steps := BothCalled();
    w, steps := OneMore(w, steps, HandlerUpdate(Bob));
    w, steps := OneMore(w, steps, HandlerFind(Bob));
    w, steps := OneMore(w, steps, HandlerUpdate(Alice));
    w, steps := OneMore(w, steps, ReplyUpdate(Alice));
  }

  lemma OrSame(x: bv8)
    ensures x | x == x
  {
  }

  /** Both of Alice's threads have read 0x03. */
  lemma BothReady() returns (w: Nodes, steps: seq<Step>)
    ensures Run(START, steps) == Some(w)
    ensures w.alice == Node(Some(READY), true, 0, HandlerReady, ReplyReady, Nothing, true, false, false)
    ensures w.bob == Node(Some(Own(Alice)), true, 0, Returned(Own(Alice)), Calling, Nothing, false, false, false)
  {
    hide Run, Own;
    w, steps := BothUpdated();
    w, steps := OneMore(w, steps, HandlerFind(Alice));
    w, steps := OneMore(w, steps, ReplyFind(Alice));
  }

  /** Alice has pushed the task twice. */
  lemma AliceHasPushed() returns (w: Nodes, steps: seq<Step>)
    ensures Run(START, steps) == Some(w)
    ensures w.alice == Node(Some(READY), true, 2, Returned(READY), Answered, Nothing, true, false, false)
    ensures w.bob == Node(Some(Own(Alice)), true, 0, Returned(Own(Alice)), Calling, Nothing, false, false, false)
  {
    hide Run, Own;
    w, steps := BothReady();
    w, steps := OneMore(w, steps, HandlerLookup(Alice));
    w, steps := OneMore(w, steps, HandlerPush(Alice));
    w, steps := OneMore(w, steps, ReplyPush(Alice));
  }

  /** A settled run in which Alice pushes the task twice, and Bob once. */
  lemma PushedTwice() returns (w: Nodes, steps: seq<Step>)
    ensures Run(START, steps) == Some(w) && Settled(w) && w.alice.pushes == 2 && w.bob.pushes == 1
  {
    BitFacts(Bob);
    OrTop(Own(Alice), Own(Bob));
    hide Run, Own;
    w, steps := AliceHasPushed();
    w, steps := OneMore(w, steps, ReplyUpdate(Bob));
    w, steps := OneMore(w, steps, ReplyFind(Bob));
    w, steps := OneMore(w, steps, ReplyPush(Bob));
  }

  lemma OrTop(x: bv8, y: bv8)
    requires x | READY == READY && y | READY == READY
    ensures x | (y | READY) == READY
  {
  }

  /** Between Alice's handler's find and its lookup the caller pushes the task, and it is run and removed. */
  lemma LookedUpTooLate() returns (w: Nodes, steps: seq<Step>)
    ensures Run(START, steps) == Some(w) && w.alice.missed && w.alice.pushes == 1 && w.alice.handler == Returned(READY)
  {
    hide Run, Own;
    w, steps := BothReady();
    w, steps := OneMore(w, steps, ReplyPush(Alice));
    w, steps := OneMore(w, steps, RemoveState(Alice));
    w, steps := OneMore(w, steps, RemoveWorking(Alice));
    w, steps := OneMore(w, steps, HandlerLookup(Alice));
  }
}
