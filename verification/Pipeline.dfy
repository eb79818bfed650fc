/** The way of a task through one node: commit queue, handshake, put queue, ready queue, processor. Each task carries
    the handshake of its two nodes with it; a step is one critical section of one thread. */
module Pipeline {
  import opened Wrappers
  import opened Dispatcher
  import H = Handshake

  /** How far a processor is with its task: running it, or removing what is kept for it, entry by entry. */
  datatype Phase = Running | Ended | StateGone | SlotGone

  datatype Job = Job(task: Task, phase: Phase)

  /** The dispatcher's queues, the handshakes, and the tasks that threads hold on their way from one to the next. The
      task states and the working entries are those of the handshakes. */
  datatype System = System(
    q: Queues,
    nodes: map<Task, H.Nodes>,
    accepted: set<Task>,         // all that putCommitTask ever took
    starting: Option<Task>,      // the ready processor's, before it has a request slot
    calling: Option<Task>,       // the ready processor's, from its slot until it is through with the peer's answer
    moving: Option<Task>,        // the put monitor's
    invitor: Option<Job>,        // the invitor processor's
    invitee: Option<Job>,        // the invitee processor's
    freed: set<Task>,            // all that have given back their slot
    done: seq<Task>)

  datatype Step =
    | Submit(t: Task)
    | PopCommit
    | Admit
    | Shake(t: Task, h: H.Step)
    | PopPut
    | PutReady
    | Fetch(invitee: bool)
    | EndRun(invitee: bool)
    | DropState(invitee: bool)
    | DropSlot(invitee: bool)
    | DropWorking(invitee: bool)

  const START := System(Queues([], map[], map[], map[], [], [], []), map[], {}, None, None, None, None, None, {}, [])

  function Party(t: Task): H.Party {
    if t.invitor then H.Alice else H.Bob
  }

  function NodesOf(s: System, t: Task): H.Nodes {
    if t in s.nodes then s.nodes[t] else H.START
  }

  /** The task at this node. */
  function Mine(s: System, t: Task): H.Node {
    H.At(NodesOf(s, t), Party(t))
  }

  function Theirs(s: System, t: Task): H.Node {
    H.At(NodesOf(s, t), H.Peer(Party(t)))
  }

  function Processor(s: System, invitee: bool): Option<Job> {
    if invitee then s.invitee else s.invitor
  }

  function WithProcessor(s: System, invitee: bool, job: Option<Job>): System {
    if invitee then s.(invitee := job) else s.(invitor := job)
  }

  predicate InPhase(s: System, invitee: bool, phase: Phase) {
    Processor(s, invitee).Some? && Processor(s, invitee).value.phase == phase
  }

  /** The handshakes after a step of the task's, if it can be taken. */
  function Carry(s: System, t: Task, h: H.Step): map<Task, H.Nodes> {
    var w := H.Take(NodesOf(s, t), h);
    if w.None? then s.nodes else s.nodes[t := w.value]
  }

  function Along(s: System, t: Task, h: H.Step): System {
    s.(nodes := Carry(s, t, h))
  }

  predicate IsHandling(h: H.Step) {
    h.HandlerUpdate? || h.HandlerFind? || h.HandlerLookup? || h.HandlerPush?
  }

  predicate IsReplying(h: H.Step) {
    h.ReplyUpdate? || h.ReplyFind? || h.ReplyPush?
  }

  /** What happens to the task at the peer, what handlers do here, and what the ready processor does with an answer. */
  predicate IsFree(s: System, t: Task, h: H.Step) {
    h.p != Party(t) || IsHandling(h) || (IsReplying(h) && s.calling == Some(t))
  }

  predicate IsPush(t: Task, h: H.Step) {
    h.p == Party(t) && (h.HandlerPush? || h.ReplyPush?)
  }

  /** A push puts a copy into the put queue; the ready processor is through when its side has been answered. */
  function Shaken(s: System, t: Task, h: H.Step): System {
    var s' := Along(s, t, h);
    s'.(q := if IsPush(t, h) then Pushed(s.q, t) else s.q,
        calling := if h.p == Party(t) && IsReplying(h) && Mine(s', t).caller.Answered? then None else s.calling)
  }

  predicate IsNew(s: System, t: Task) {
    forall u :: u in s.accepted ==> u.id != t.id
  }

  function Submitted(s: System, t: Task): System {
    Along(s, t, H.Submit(Party(t))).(q := s.q.(commits := s.q.commits + [t]), accepted := s.accepted + {t})
  }

  function Popped(s: System): System
    requires s.q.commits != []
  {
    var t := s.q.commits[0];
    Along(s, t, H.Commit(Party(t))).(q := s.q.(commits := s.q.commits[1..]), starting := Some(t))
  }

  function Admitted(s: System): System
    requires s.starting.Some?
  {
    var t := s.starting.value;
    Along(s, t, H.Call(Party(t))).(q := HoldsSlot(s.q, t), starting := None, calling := Some(t))
  }

  function Fetched(s: System, invitee: bool): System
    requires Ready(s.q, invitee) != []
  {
    WithProcessor(s.(q := WithoutFirst(s.q, invitee)), invitee, Some(Job(Ready(s.q, invitee)[0], Running)))
  }

  function WithoutState(s: System, invitee: bool): System
    requires InPhase(s, invitee, Ended)
  {
    var t := Processor(s, invitee).value.task;
    WithProcessor(Along(s, t, H.RemoveState(Party(t))), invitee, Some(Job(t, StateGone)))
  }

  function WithoutSlot(s: System, invitee: bool): System
    requires InPhase(s, invitee, StateGone)
  {
    var t := Processor(s, invitee).value.task;
    var s' := s.(q := s.q.(requests := s.q.requests - {t.id}), freed := s.freed + {t});
    WithProcessor(s', invitee, Some(Job(t, SlotGone)))
  }

  function WithoutWorking(s: System, invitee: bool): System
    requires InPhase(s, invitee, SlotGone)
  {
    var t := Processor(s, invitee).value.task;
    WithProcessor(Along(s, t, H.RemoveWorking(Party(t))).(done := s.done + [t]), invitee, None)
  }

  /** None where the step cannot be taken or its thread has to wait. Ids are not used twice. */
  function Take(s: System, step: Step): Option<System> {
    match step
    case Submit(t) => if |s.q.commits| < LOAD_LIMIT && IsNew(s, t) then Some(Submitted(s, t)) else None
    case PopCommit => if s.starting == s.calling == None && s.q.commits != [] then Some(Popped(s)) else None
    case Admit => if s.starting.Some? && |s.q.requests| < PROCESSORS then Some(Admitted(s)) else None
    case Shake(t, h) => if IsFree(s, t, h) && H.Take(NodesOf(s, t), h).Some? then Some(Shaken(s, t, h)) else None
    case PopPut =>
      if s.moving == None && s.q.put != [] then
        Some(s.(q := s.q.(put := s.q.put[1..]), moving := Some(s.q.put[0])))
      else None
    case PutReady =>
      if s.moving.Some? && ReadyHasRoom(s.q, s.moving.value) then
        Some(s.(q := MadeReady(s.q, s.moving.value), moving := None))
      else None
    case Fetch(invitee) =>
      if Processor(s, invitee) == None && Ready(s.q, invitee) != [] then Some(Fetched(s, invitee)) else None
    case EndRun(invitee) =>
      if InPhase(s, invitee, Running) then
        Some(WithProcessor(s, invitee, Some(Job(Processor(s, invitee).value.task, Ended))))
      else None
    case DropState(invitee) => if InPhase(s, invitee, Ended) then Some(WithoutState(s, invitee)) else None
    case DropSlot(invitee) =>
      if InPhase(s, invitee, StateGone) && s.q.requests != map[] then Some(WithoutSlot(s, invitee)) else None
    case DropWorking(invitee) => if InPhase(s, invitee, SlotGone) then Some(WithoutWorking(s, invitee)) else None
  }

  function Run(s: System, steps: seq<Step>): Option<System> {
    if steps == [] then Some(s)
    else
      var r := Run(s, steps[..|steps| - 1]);
      if r.None? then None else Take(r.value, steps[|steps| - 1])
  }

  // ---- Where the tasks are

  function Copies(tasks: seq<Task>, t: Task): nat {
    multiset(tasks)[t]
  }

  function One(place: Option<Task>, t: Task): nat {
    if place == Some(t) then 1 else 0
  }

  function AtWork(job: Option<Job>): Option<Task> {
    if job.Some? then Some(job.value.task) else None
  }

  /** How often a task stands behind the handshake, up to the end of its run. */
  function Behind(s: System, t: Task): nat {
    Copies(s.q.put, t) + One(s.moving, t) + Copies(s.q.invitors, t) + Copies(s.q.invitees, t)
    + One(AtWork(s.invitor), t) + One(AtWork(s.invitee), t)
  }

  predicate IsPast(n: H.Node) {
    n.caller.Calling? || n.caller.ReplyUpdated? || n.caller.ReplyReady? || n.caller.Answered?
  }

  /** Admitted, and not pushed yet. */
  predicate InHandshake(s: System, t: Task) {
    IsPast(Mine(s, t)) && Mine(s, t).pushes == 0
  }

  predicate HasSlot(s: System, t: Task) {
    Lookup(s.q.requests, t.id) == Some(t)
  }

  /** How often a task stands anywhere. */
  function Count(s: System, t: Task): nat {
    Copies(s.q.commits, t) + One(s.starting, t) + (if InHandshake(s, t) then 1 else 0)
    + Behind(s, t) + Copies(s.done, t)
  }

  // ---- What every step keeps

  /** All that the node knows of one task. */
  datatype Spot = Spot(
    node: H.Node, accepted: bool, commits: nat, starting: bool, calling: bool, behind: nat, done: nat,
    slot: bool, freed: bool)

  function SpotOf(s: System, t: Task): Spot {
    Spot(Mine(s, t), t in s.accepted, Copies(s.q.commits, t), s.starting == Some(t), s.calling == Some(t),
         Behind(s, t), Copies(s.done, t), HasSlot(s, t), t in s.freed)
  }

  /** Where a task is, by how far its handshake has come: each push has made one copy behind the handshake, and the
      slot is held from admission to the end of the first run. */
  predicate Fits(x: Spot) {
    var n := x.node;
    && (x.accepted <==> !n.caller.Uncommitted?)
    && x.commits == (if n.caller.Submitted? then 1 else 0)
    && (x.starting <==> n.caller.Admitted?)
    && (x.calling <==> IsPast(n) && !n.caller.Answered?)
    && x.behind + x.done == n.pushes
    && (n.pushes > 0 ==> IsPast(n))
    && (x.slot <==> ((IsPast(n) && n.pushes == 0) || x.behind > 0) && !x.freed)
    && (x.freed ==> n.pushes > 0) && (x.done > 0 ==> x.freed)
  }

  ghost predicate Placed(s: System, t: Task) {
    Fits(SpotOf(s, t))
  }

  ghost predicate AllPlaced(s: System) {
    forall t :: Placed(s, t)
  }

  ghost predicate AllShaking(s: System) {
    forall t :: H.Kept(NodesOf(s, t))
  }

  ghost predicate Distinct(s: System) {
    && (forall t, u :: t in s.accepted && u in s.accepted && t.id == u.id ==> t == u)
    && (forall id :: id in s.q.requests ==> s.q.requests[id].id == id && s.q.requests[id] in s.accepted)
    && (s.starting == None || s.calling == None)
  }

  ghost predicate Routed(s: System) {
    && (forall t :: t in s.q.invitors ==> t.invitor) && (forall t :: t in s.q.invitees ==> !t.invitor)
    && (s.invitor.Some? ==> s.invitor.value.task.invitor) && (s.invitee.Some? ==> !s.invitee.value.task.invitor)
    && (InPhase(s, false, SlotGone) ==> s.invitor.value.task in s.freed)
    && (InPhase(s, true, SlotGone) ==> s.invitee.value.task in s.freed)
  }

  predicate Bounded(s: System) {
    && |s.q.commits| <= LOAD_LIMIT && |s.q.requests| <= PROCESSORS
    && |s.q.invitors| <= PROCESSORS / 2 && |s.q.invitees| <= PROCESSORS / 2
  }

  ghost predicate Kept(s: System) {
    AllPlaced(s) && AllShaking(s) && Distinct(s) && Routed(s) && Bounded(s)
  }

  lemma CopiesFirst(tasks: seq<Task>, t: Task)
    requires tasks != []
    ensures Copies(tasks, t) == Copies(tasks[1..], t) + One(Some(tasks[0]), t)
  {
    assert tasks == [tasks[0]] + tasks[1..];
  }

  lemma CopiesLast(tasks: seq<Task>, last: Task, t: Task)
    ensures Copies(tasks + [last], t) == Copies(tasks, t) + One(Some(last), t)
  {
  }

  lemma InCopies(tasks: seq<Task>, t: Task)
    ensures Copies(tasks, t) > 0 <==> t in tasks
  {
  }

  /** What a step of a handshake does to one of its nodes, as far as the pipeline is concerned. */
  lemma NodeStep(w: H.Nodes, h: H.Step, p: H.Party)
    requires H.Take(w, h).Some?
    ensures var n, n' := H.At(w, p), H.At(H.Take(w, h).value, p);
            && n'.pushes == n.pushes + (if h.p == p && (h.HandlerPush? || h.ReplyPush?) then 1 else 0)
            && (h.p != p || IsHandling(h) || h.RemoveState? || h.RemoveWorking? ==> n'.caller == n.caller)
            && (h.p == p && h.Submit? ==> n.caller.Uncommitted? && n'.caller.Submitted?)
            && (h.p == p && h.Commit? ==> n.caller.Submitted? && n'.caller.Admitted?)
            && (h.p == p && h.Call? ==> n.caller.Admitted? && n'.caller.Calling?)
            && (h.p == p && IsReplying(h) ==> IsPast(n) && !n.caller.Answered? && IsPast(n'))
  {
  }

  /** The steps that the pipeline takes along are possible where it takes them. */
  lemma NodeReady(w: H.Nodes, p: H.Party)
    requires H.Kept(w)
    ensures H.At(w, p).caller.Uncommitted? ==> H.Take(w, H.Submit(p)).Some?
    ensures H.At(w, p).caller.Submitted? ==> H.Take(w, H.Commit(p)).Some?
    ensures H.At(w, p).caller.Admitted? ==> H.Take(w, H.Call(p)).Some?
  {
  }

  /** Bounds on the pushes of one task. */
  lemma Pushes(w: H.Nodes, p: H.Party)
    requires H.Kept(w)
    ensures H.At(w, p).pushes <= 2 && (H.At(w, p).pushes > 0 ==> IsPast(H.At(w, p)) && !H.At(w, p).caller.Calling?)
  {
  }

  lemma AlongShakes(s: System, t: Task, h: H.Step, u: Task)
    requires H.Kept(NodesOf(s, t)) && H.Kept(NodesOf(s, u))
    ensures H.Kept(NodesOf(Along(s, t, h), u))
  {
    hide H.Kept, H.Take;
    if H.Take(NodesOf(s, t), h).Some? {
      H.StepKeeps(NodesOf(s, t), h);
    }
  }

  lemma StepShakes(s: System, step: Step)
    requires AllShaking(s) && Take(s, step).Some?
    ensures AllShaking(Take(s, step).value)
  {
    hide H.Kept, H.Take;
    forall u ensures H.Kept(NodesOf(Take(s, step).value, u)) {
      assert H.Kept(NodesOf(s, u));
      match step
      case Submit(t) => AlongShakes(s, t, H.Submit(Party(t)), u);
      case PopCommit => AlongShakes(s, s.q.commits[0], H.Commit(Party(s.q.commits[0])), u);
      case Admit => AlongShakes(s, s.starting.value, H.Call(Party(s.starting.value)), u);
      case Shake(t, h) => AlongShakes(s, t, h, u);
      case DropState(invitee) =>
        var t := Processor(s, invitee).value.task;
        AlongShakes(s, t, H.RemoveState(Party(t)), u);
      case DropWorking(invitee) =>
        var t := Processor(s, invitee).value.task;
        AlongShakes(s, t, H.RemoveWorking(Party(t)), u);
      case _ =>
    }
  }

  // ---- What each step does to what is known of one task

  lemma AlongSpot(s: System, u: Task, h: H.Step, t: Task)
    ensures SpotOf(s, t).node == Mine(s, t)
    ensures SpotOf(Along(s, u, h), t) == SpotOf(s, t).(node := Mine(Along(s, u, h), t))
    ensures SpotOf(s, t).calling == (s.calling == Some(t)) && (t != u ==> Mine(Along(s, u, h), t) == Mine(s, t))
  {
    hide H.Take, Copies;
  }

  lemma SubmitSpot(s: System, u: Task, t: Task)
    ensures var x := SpotOf(Along(s, u, H.Submit(Party(u))), t);
            var y := x.(accepted := x.accepted || t == u, commits := x.commits + One(Some(u), t));
            SpotOf(Submitted(s, u), t) == y
  {
    hide Copies, Carry;
    CopiesLast(s.q.commits, u, t);
  }

  lemma PopCommitSpot(s: System, t: Task)
    requires s.starting == s.calling == None && s.q.commits != []
    ensures var u := s.q.commits[0];
            var x := SpotOf(Along(s, u, H.Commit(Party(u))), t);
            && x.commits >= One(Some(u), t) && !x.starting && !x.calling
            && SpotOf(Popped(s), t) == x.(commits := x.commits - One(Some(u), t), starting := t == u)
  {
    var u := s.q.commits[0];
    hide Copies, Carry;
    CopiesFirst(s.q.commits, t);
  }

  lemma HoldsSlotKeeps(q: Queues, t: Task)
    requires t.id !in q.requests
    ensures HoldsSlot(q, t) == q.(requests := q.requests[t.id := t])
  {
  }

  lemma AdmitSpot(s: System, t: Task)
    requires s.starting.Some? && s.starting.value.id !in s.q.requests && s.calling == None
    ensures var u := s.starting.value;
            var x := SpotOf(Along(s, u, H.Call(Party(u))), t);
            && x.starting == (t == u)
            && var y := x.(starting := false, calling := t == u, slot := t == u || (x.slot && t.id != u.id));
            SpotOf(Admitted(s), t) == y
  {
    var u := s.starting.value;
    hide Copies, Carry, HoldsSlot;
    HoldsSlotKeeps(s.q, u);
  }

  lemma ShakeSpot(s: System, u: Task, h: H.Step, t: Task)
    ensures var x := SpotOf(Along(s, u, h), t);
            var through := h.p == Party(u) && IsReplying(h) && Mine(Along(s, u, h), u).caller.Answered?;
            var pushed := if IsPush(u, h) then One(Some(u), t) else 0;
            SpotOf(Shaken(s, u, h), t) == x.(behind := x.behind + pushed, calling := x.calling && !through)
  {
    hide Copies, Carry;
    CopiesLast(s.q.put, u, t);
  }

  lemma MoveSpot(s: System, step: Step, t: Task)
    requires Take(s, step).Some? && (step.PopPut? || step.PutReady? || step.Fetch? || step.EndRun?)
    ensures SpotOf(Take(s, step).value, t) == SpotOf(s, t)
  {
    hide Copies, Carry;
    if step.PopPut? {
      CopiesFirst(s.q.put, t);
    } else if step.PutReady? {
      CopiesLast(s.q.invitors, s.moving.value, t);
      CopiesLast(s.q.invitees, s.moving.value, t);
    } else if step.Fetch? {
      CopiesFirst(Ready(s.q, step.invitee), t);
    }
  }

  lemma DropStateSpot(s: System, invitee: bool, t: Task)
    requires InPhase(s, invitee, Ended)
    ensures var u := Processor(s, invitee).value.task;
            SpotOf(WithoutState(s, invitee), t) == SpotOf(Along(s, u, H.RemoveState(Party(u))), t)
  {
    var u := Processor(s, invitee).value.task;
    hide Copies, Carry;
  }

  lemma DropSlotSpot(s: System, invitee: bool, t: Task)
    requires InPhase(s, invitee, StateGone)
    ensures var u, x := Processor(s, invitee).value.task, SpotOf(s, t);
            && SpotOf(WithoutSlot(s, invitee), t)
            == x.(slot := x.slot && t.id != u.id, freed := x.freed || t == u)
            && SpotOf(s, u).behind > 0
  {
    hide Copies;
  }

  lemma DropWorkingSpot(s: System, invitee: bool, t: Task)
    requires InPhase(s, invitee, SlotGone)
    ensures var u := Processor(s, invitee).value.task;
            var x := SpotOf(Along(s, u, H.RemoveWorking(Party(u))), t);
            && x.behind >= One(Some(u), t)
            && SpotOf(WithoutWorking(s, invitee), t)
            == x.(behind := x.behind - One(Some(u), t), done := x.done + One(Some(u), t))
  {
    var u := Processor(s, invitee).value.task;
    hide Copies, Carry, NodesOf, Lookup;
    CopiesLast(s.done, u, t);
  }

  // ---- Each step keeps every task in its place

  /** What is known of a task after a step of its handshake at this node. */
  lemma Carried(s: System, u: Task, h: H.Step)
    requires H.Kept(NodesOf(s, u)) && h.p == Party(u)
    ensures var n, n', taken := Mine(s, u), Mine(Along(s, u, h), u), H.Take(NodesOf(s, u), h).Some?;
            && n'.pushes == n.pushes + (if taken && (h.HandlerPush? || h.ReplyPush?) then 1 else 0)
            && (h.Submit? && n.caller.Uncommitted? ==> n'.caller.Submitted?)
            && (h.Commit? && n.caller.Submitted? ==> n'.caller.Admitted?)
            && (h.Call? && n.caller.Admitted? ==> n'.caller.Calling?)
            && (IsHandling(h) || h.RemoveState? || h.RemoveWorking? ==> n'.caller == n.caller)
            && (IsReplying(h) && taken ==> IsPast(n) && !n.caller.Answered? && IsPast(n'))
            && (n'.pushes > 0 ==> IsPast(n') && !n'.caller.Calling?)
  {
    hide H.Take, H.Kept;
    NodeReady(NodesOf(s, u), Party(u));
    Pushes(NodesOf(s, u), Party(u));
    if H.Take(NodesOf(s, u), h).Some? {
      NodeStep(NodesOf(s, u), h, Party(u));
      H.StepKeeps(NodesOf(s, u), h);
      Pushes(H.Take(NodesOf(s, u), h).value, Party(u));
    }
  }

  lemma KeptOf(s: System, t: Task)
    requires Kept(s)
    ensures Fits(SpotOf(s, t)) && H.Kept(NodesOf(s, t))
  {
    assert Placed(s, t);
  }

  lemma SubmittedIsNew(s: System, u: Task)
    requires IsNew(s, u)
    ensures !SpotOf(s, u).accepted
  {
  }

  lemma StartingSpot(s: System)
    requires s.starting.Some?
    ensures SpotOf(s, s.starting.value).starting
  {
    hide Copies, Behind;
  }

  lemma SubmitPlaces(s: System, u: Task, t: Task)
    requires Kept(s) && IsNew(s, u)
    ensures Placed(Submitted(s, u), t)
  {
    hide Kept, Take, SpotOf, H.Kept, H.Take, Carry, Submitted;
    KeptOf(s, t);
    KeptOf(s, u);
    SubmittedIsNew(s, u);
    SubmitSpot(s, u, t);
    AlongSpot(s, u, H.Submit(Party(u)), t);
    Carried(s, u, H.Submit(Party(u)));
  }

  lemma PopCommitPlaces(s: System, t: Task)
    requires Kept(s) && s.starting == s.calling == None && s.q.commits != []
    ensures Placed(Popped(s), t)
  {
    hide Kept, Take, SpotOf, H.Kept, H.Take, Carry, Popped;
    var u := s.q.commits[0];
    KeptOf(s, t);
    PopCommitSpot(s, t);
    AlongSpot(s, u, H.Commit(Party(u)), t);
    KeptOf(s, u);
    Carried(s, u, H.Commit(Party(u)));
  }

  /** A task that is only now admitted has no slot yet, and neither has another one of its id. */
  lemma AdmittedIsNew(s: System)
    requires Kept(s) && s.starting.Some?
    ensures s.calling == None && s.starting.value.id !in s.q.requests
  {
    hide Copies, H.Kept;
    var t := s.starting.value;
    KeptOf(s, t);
    Pushes(NodesOf(s, t), Party(t));
  }

  lemma AdmitPlaces(s: System, t: Task)
    requires Kept(s) && s.starting.Some?
    ensures Placed(Admitted(s), t)
  {
    hide Kept, Take, SpotOf, H.Kept, H.Take, Carry, Admitted;
    StartingSpot(s);
    var u := s.starting.value;
    KeptOf(s, t);
    AdmittedIsNew(s);
    AdmitSpot(s, t);
    SameId(s, t, u);
    AlongSpot(s, u, H.Call(Party(u)), t);
    KeptOf(s, u);
    Carried(s, u, H.Call(Party(u)));
  }

  /** No other task of u's id has a slot. */
  lemma SameId(s: System, t: Task, u: Task)
    requires Kept(s)
    ensures SpotOf(s, u).accepted && SpotOf(s, t).slot && t.id == u.id ==> t == u
  {
    hide Copies, H.Kept;
  }

  lemma ShakePlaces(s: System, u: Task, h: H.Step, t: Task)
    requires Kept(s) && IsFree(s, u, h) && H.Take(NodesOf(s, u), h).Some?
    ensures Placed(Shaken(s, u, h), t)
  {
    hide Kept, Take, SpotOf, H.Kept, H.Take, Carry, Shaken;
    KeptOf(s, t);
    KeptOf(s, u);
    ShakeSpot(s, u, h, t);
    AlongSpot(s, u, h, t);
    if h.p == Party(u) {
      Carried(s, u, h);
    } else {
      FromPeer(s, u, h);
    }
  }

  lemma FromPeer(s: System, u: Task, h: H.Step)
    requires h.p != Party(u) && H.Take(NodesOf(s, u), h).Some?
    ensures Mine(Along(s, u, h), u).pushes == Mine(s, u).pushes && Mine(Along(s, u, h), u).caller == Mine(s, u).caller
  {
    hide H.Take;
    NodeStep(NodesOf(s, u), h, Party(u));
  }

  lemma MovePlaces(s: System, step: Step, t: Task)
    requires Kept(s) && Take(s, step).Some? && (step.PopPut? || step.PutReady? || step.Fetch? || step.EndRun?)
    ensures Placed(Take(s, step).value, t)
  {
    hide Kept, Take, SpotOf, Fits;
    KeptOf(s, t);
    MoveSpot(s, step, t);
  }

  lemma DropStatePlaces(s: System, invitee: bool, t: Task)
    requires Kept(s) && InPhase(s, invitee, Ended)
    ensures Placed(WithoutState(s, invitee), t)
  {
    hide Kept, Take, SpotOf, H.Kept, H.Take, Carry, WithoutState;
    var u := Processor(s, invitee).value.task;
    KeptOf(s, t);
    KeptOf(s, u);
    DropStateSpot(s, invitee, t);
    AlongSpot(s, u, H.RemoveState(Party(u)), t);
    Carried(s, u, H.RemoveState(Party(u)));
  }

  lemma DropSlotPlaces(s: System, invitee: bool, t: Task)
    requires Kept(s) && InPhase(s, invitee, StateGone)
    ensures Placed(WithoutSlot(s, invitee), t)
  {
    hide Kept, Take, SpotOf, H.Kept, WithoutSlot;
    var u := Processor(s, invitee).value.task;
    KeptOf(s, t);
    KeptOf(s, u);
    DropSlotSpot(s, invitee, t);
    SameId(s, t, u);
  }

  lemma DropWorkingPlaces(s: System, invitee: bool, t: Task)
    requires Kept(s) && InPhase(s, invitee, SlotGone)
    ensures Placed(WithoutWorking(s, invitee), t)
  {
    hide Kept, Take, SpotOf, H.Kept, H.Take, Carry, WithoutWorking;
    var u := Processor(s, invitee).value.task;
    KeptOf(s, t);
    KeptOf(s, u);
    LeavingIsFreed(s, invitee);
    DropWorkingSpot(s, invitee, t);
    AlongSpot(s, u, H.RemoveWorking(Party(u)), t);
    Carried(s, u, H.RemoveWorking(Party(u)));
  }

  lemma LeavingIsFreed(s: System, invitee: bool)
    requires Kept(s) && InPhase(s, invitee, SlotGone)
    ensures SpotOf(s, Processor(s, invitee).value.task).freed
  {
    hide Copies, H.Kept, AllPlaced;
  }

  lemma StepPlaces(s: System, step: Step)
    requires Kept(s) && Take(s, step).Some?
    ensures AllPlaced(Take(s, step).value)
  {
    hide Kept, Placed, Shaken, Submitted, Popped, Admitted, WithoutState, WithoutSlot, WithoutWorking;
    forall t ensures Placed(Take(s, step).value, t) {
      match step
      case Submit(u) => SubmitPlaces(s, u, t);
      case PopCommit => PopCommitPlaces(s, t);
      case Admit => AdmitPlaces(s, t);
      case Shake(u, h) => ShakePlaces(s, u, h, t);
      case DropState(invitee) => DropStatePlaces(s, invitee, t);
      case DropSlot(invitee) => DropSlotPlaces(s, invitee, t);
      case DropWorking(invitee) => DropWorkingPlaces(s, invitee, t);
      case _ => MovePlaces(s, step, t);
    }
  }

  lemma StepAccepts(s: System, step: Step)
    requires Take(s, step).Some?
    ensures Take(s, step).value.accepted == s.accepted + if step.Submit? then {step.t} else {}
    ensures step.Submit? ==> forall u :: u in s.accepted ==> u.id != step.t.id
  {
    hide Carry, HoldsSlot;
  }

  lemma StepRequests(s: System, step: Step)
    requires Take(s, step).Some? && (step.Admit? ==> s.starting.Some? && s.starting.value.id !in s.q.requests)
    ensures var before, after := s.q.requests, Take(s, step).value.q.requests;
            && (step.Admit? ==> s.starting.Some? && after == before[s.starting.value.id := s.starting.value])
            && (!step.Admit? ==> after == before || exists id :: after == before - {id})
  {
    hide Carry, HoldsSlot;
    if step.Admit? {
      HoldsSlotKeeps(s.q, s.starting.value);
    } else if step.DropSlot? {
      var id := Processor(s, step.invitee).value.task.id;
      assert Take(s, step).value.q.requests == s.q.requests - {id};
    }
  }

  lemma StepCalls(s: System, step: Step)
    requires Take(s, step).Some? && (s.starting == None || s.calling == None)
    ensures var s' := Take(s, step).value; s'.starting == None || s'.calling == None
  {
    hide Carry, HoldsSlot;
  }

  lemma StartingIsThere(s: System)
    requires Take(s, Admit).Some?
    ensures s.starting.Some?
  {
    hide Admitted;
  }

  lemma StepDistinct(s: System, step: Step)
    requires Kept(s) && Take(s, step).Some?
    ensures Distinct(Take(s, step).value)
  {
    hide AllPlaced, AllShaking, Routed, Bounded, Take;
    if step.Admit? {
      StartingIsThere(s);
      AdmittedIsNew(s);
      StartingIsAccepted(s);
    }
    StepAccepts(s, step);
    StepRequests(s, step);
    StepCalls(s, step);
  }

  lemma StartingIsAccepted(s: System)
    requires Kept(s) && s.starting.Some?
    ensures s.starting.value in s.accepted
  {
    hide Copies, Behind, H.Kept;
    KeptOf(s, s.starting.value);
  }

  predicate IsQueueing(step: Step) {
    step.PopPut? || step.PutReady? || step.Fetch?
  }

  lemma QueueRoutes(s: System, step: Step)
    requires Routed(s) && Take(s, step).Some? && IsQueueing(step)
    ensures Routed(Take(s, step).value)
  {
    if step.Fetch? {
      assert Ready(s.q, step.invitee)[0] in Ready(s.q, step.invitee);
    }
  }

  predicate IsProcessing(step: Step) {
    step.EndRun? || step.DropState? || step.DropSlot? || step.DropWorking?
  }

  lemma ProcessorRoutes(s: System, step: Step)
    requires Routed(s) && Take(s, step).Some? && IsProcessing(step)
    ensures Routed(Take(s, step).value)
  {
    hide Carry;
  }

  lemma OtherRoutes(s: System, step: Step)
    requires Take(s, step).Some? && !IsQueueing(step) && !IsProcessing(step)
    ensures var s' := Take(s, step).value;
            && s'.q.invitors == s.q.invitors && s'.q.invitees == s.q.invitees
            && s'.invitor == s.invitor && s'.invitee == s.invitee && s'.freed == s.freed
  {
    hide Carry, HoldsSlot;
    if step.Admit? {
      HoldsSlotRoutes(s.q, s.starting.value);
    }
  }

  lemma StepRoutes(s: System, step: Step)
    requires Routed(s) && Take(s, step).Some?
    ensures Routed(Take(s, step).value)
  {
    hide Take;
    if IsQueueing(step) {
      QueueRoutes(s, step);
    } else if IsProcessing(step) {
      ProcessorRoutes(s, step);
    } else {
      OtherRoutes(s, step);
    }
  }

  lemma HoldsSlotRoutes(q: Queues, t: Task)
    ensures HoldsSlot(q, t) == q.(requests := HoldsSlot(q, t).requests)
  {
  }

  lemma MoreKeys(m: map<string, Task>, t: Task)
    requires t.id !in m
    ensures |m[t.id := t]| == |m| + 1
  {
    assert m[t.id := t].Keys == m.Keys + {t.id};
  }

  lemma FewerKeys(m: map<string, Task>, id: string)
    ensures |m - {id}| <= |m|
  {
    assert (m - {id}).Keys == m.Keys - {id};
  }

  lemma StepBounds(s: System, step: Step)
    requires Kept(s) && Take(s, step).Some?
    ensures Bounded(Take(s, step).value)
  {
    hide AllPlaced, AllShaking, Distinct, Routed, Carry, HoldsSlot;
    if step.Admit? {
      AdmittedIsNew(s);
      HoldsSlotKeeps(s.q, s.starting.value);
      MoreKeys(s.q.requests, s.starting.value);
    } else if step.DropSlot? {
      FewerKeys(s.q.requests, Processor(s, step.invitee).value.task.id);
    }
  }

  lemma StepKeeps(s: System, step: Step)
    requires Kept(s) && Take(s, step).Some?
    ensures Kept(Take(s, step).value)
  {
    hide AllPlaced, AllShaking, Distinct, Routed, Bounded, Take;
    StepPlaces(s, step);
    StepShakes(s, step);
    StepDistinct(s, step);
    StepRoutes(s, step);
    StepBounds(s, step);
  }

  lemma Started()
    ensures Kept(START)
  {
  }

  lemma {:induction false} RunKeeps(steps: seq<Step>)
    requires Run(START, steps).Some?
    ensures Kept(Run(START, steps).value)
  {
    hide Kept, Take;
    if steps == [] {
      Started();
    } else {
      RunKeeps(steps[..|steps| - 1]);
      StepKeeps(Run(START, steps[..|steps| - 1]).value, steps[|steps| - 1]);
    }
  }

  // ---- Over whole runs

  /** Each accepted task is in exactly one place, or, once it has been pushed twice, in two or twice in one, and nothing
      else is anywhere: every push puts one copy behind the handshake, and there are at most two. */
  lemma InExactlyOnePlace(steps: seq<Step>, t: Task)
    requires Run(START, steps).Some?
    ensures var s := Run(START, steps).value;
            && Behind(s, t) + Copies(s.done, t) == Mine(s, t).pushes <= 2
            && Count(s, t) == if t !in s.accepted then 0 else if Mine(s, t).pushes == 2 then 2 else 1
  {
    hide Run, Copies, Behind, H.Kept, Kept;
    RunKeeps(steps);
    var s := Run(START, steps).value;
    KeptOf(s, t);
    Pushes(NodesOf(s, t), Party(t));
  }

  /** At most two request slots are held, one for each task between admission and the end of its first run; a ready
      queue holds at most one task; and only invitor tasks reach the invitor processor. */
  lemma SlotsAndRoutes(steps: seq<Step>)
    requires Run(START, steps).Some?
    ensures var s := Run(START, steps).value;
            && |s.q.requests| <= 2 && |s.q.invitors| <= 1 && |s.q.invitees| <= 1
            && (s.invitor.Some? ==> s.invitor.value.task.invitor)
            && (s.invitee.Some? ==> !s.invitee.value.task.invitor)
    ensures var s := Run(START, steps).value;
            && (forall id :: id in s.q.requests ==> HasSlot(s, s.q.requests[id]))
            && forall t :: HasSlot(s, t) <==> (InHandshake(s, t) || Behind(s, t) > 0) && t !in s.freed
  {
    hide Run, Copies, Behind, H.Kept;
    RunKeeps(steps);
    var s := Run(START, steps).value;
    forall t ensures HasSlot(s, t) <==> (InHandshake(s, t) || Behind(s, t) > 0) && t !in s.freed {
      KeptOf(s, t);
    }
  }
}
