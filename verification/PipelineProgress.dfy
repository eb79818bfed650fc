/** When the node stands still, what it then waits for, and a run in which a task pushed twice makes it wait. */
module PipelineProgress {
  import opened Wrappers
  import opened Dispatcher
  import opened Pipeline
  import H = Handshake

  // ---- When the node stands still

  /** The steps that the node's own threads can take: a new task, the end of a run and the peer's steps come from
      outside. */
  predicate IsInternal(step: Step) {
    !step.Submit? && !step.EndRun? && (step.Shake? ==> step.h.p == Party(step.t))
  }

  ghost predicate StandsStill(s: System) {
    forall step :: IsInternal(step) ==> Take(s, step).None?
  }

  predicate Unanswered(s: System, t: Task) {
    Mine(s, t).caller.Calling? && !Theirs(s, t).handler.Returned?
  }

  /** Its call has not been answered, or the peer has not called. */
  predicate WaitsForPeer(s: System, t: Task) {
    InHandshake(s, t) && (Unanswered(s, t) || Mine(s, t).handler.NotCalled?)
  }

  predicate IsRun(s: System, invitee: bool, t: Task) {
    InPhase(s, invitee, Running) && Processor(s, invitee).value.task == t
  }

  /** It is being run, or stands in a queue that a running task blocks. */
  predicate WaitsForRun(s: System, t: Task) {
    || IsRun(s, false, t) || IsRun(s, true, t)
    || (t in s.q.invitors && InPhase(s, false, Running)) || (t in s.q.invitees && InPhase(s, true, Running))
    || ((t in s.q.put || s.moving == Some(t)) && s.moving.Some? && InPhase(s, !s.moving.value.invitor, Running))
  }

  lemma StillQueues(s: System)
    requires StandsStill(s) && Bounded(s)
    ensures s.q.put != [] ==> s.moving.Some?
    ensures s.moving.Some? ==> Processor(s, !s.moving.value.invitor).Some?
    ensures s.q.invitors != [] ==> s.invitor.Some?
    ensures s.q.invitees != [] ==> s.invitee.Some?
  {
    assert Take(s, PopPut).None? && Take(s, PutReady).None?;
    assert Take(s, Fetch(false)).None? && Take(s, Fetch(true)).None?;
  }

  lemma StillProcessors(s: System, invitee: bool)
    requires StandsStill(s) && Processor(s, invitee).Some?
    ensures InPhase(s, invitee, Running) || (InPhase(s, invitee, StateGone) && s.q.requests == map[])
  {
    assert Take(s, DropState(invitee)).None? && Take(s, DropSlot(invitee)).None? && Take(s, DropWorking(invitee)).None?;
  }

  lemma StillStart(s: System)
    requires StandsStill(s) && Bounded(s)
    ensures s.starting.Some? ==> |s.q.requests| == PROCESSORS
    ensures s.q.commits != [] ==> s.starting.Some? || s.calling.Some?
  {
    assert Take(s, Admit).None? && Take(s, PopCommit).None?;
  }

  lemma StillHandshake(s: System, t: Task)
    requires StandsStill(s) && Kept(s)
    ensures s.calling == Some(t) ==> Unanswered(s, t)
    ensures InHandshake(s, t) ==> WaitsForPeer(s, t)
  {
    var p, n, peer := Party(t), Mine(s, t), Theirs(s, t);
    hide Copies, Behind, H.Kept;
    KeptOf(s, t);
    StillNode(s, t);
    H.KeptAt(NodesOf(s, t), p);
  }

  lemma StillNode(s: System, t: Task)
    requires StandsStill(s)
    ensures Mine(s, t).handler.NotCalled? || Mine(s, t).handler.Returned?
    ensures s.calling == Some(t) ==> !Mine(s, t).caller.ReplyUpdated? && !Mine(s, t).caller.ReplyReady?
    ensures s.calling == Some(t) && Mine(s, t).caller.Calling? ==> !Theirs(s, t).handler.Returned?
  {
    var p := Party(t);
    assert Take(s, Shake(t, H.HandlerUpdate(p))).None? && Take(s, Shake(t, H.HandlerFind(p))).None?;
    assert Take(s, Shake(t, H.HandlerLookup(p))).None? && Take(s, Shake(t, H.HandlerPush(p))).None?;
    assert Take(s, Shake(t, H.ReplyUpdate(p))).None? && Take(s, Shake(t, H.ReplyFind(p))).None?;
    assert Take(s, Shake(t, H.ReplyPush(p))).None?;
  }

  lemma StillBehind(s: System, t: Task)
    requires StandsStill(s) && Kept(s) && Behind(s, t) > 0
    ensures s.q.requests != map[] ==> WaitsForRun(s, t)
  {
    hide AllPlaced, AllShaking, StandsStill;
    if s.q.requests != map[] {
      StillQueues(s);
      if s.invitor.Some? {
        StillProcessors(s, false);
      }
      if s.invitee.Some? {
        StillProcessors(s, true);
      }
      InCopies(s.q.put, t);
      InCopies(s.q.invitors, t);
      InCopies(s.q.invitees, t);
    }
  }

  /** When no thread of the node can go on by itself: every task with a slot waits for the peer or for the end of a run;
      a task is kept from being admitted only by two held slots, one in the commit queue only by that or by a call that
      the peer has not answered; and a processor that is not running its task waits to give back a slot, while nobody
      holds one and nothing is there to start. */
  lemma OnlyOthersBlock(steps: seq<Step>)
    requires Run(START, steps).Some? && StandsStill(Run(START, steps).value)
    ensures var s := Run(START, steps).value;
            && (forall t :: HasSlot(s, t) ==> WaitsForPeer(s, t) || WaitsForRun(s, t))
            && (s.starting.Some? ==> |s.q.requests| == PROCESSORS)
            && (s.calling.Some? ==> HasSlot(s, s.calling.value) && Unanswered(s, s.calling.value))
            && (s.q.commits != [] ==> s.starting.Some? || s.calling.Some?)
            && (forall x :: Processor(s, x).Some? && !InPhase(s, x, Running) ==>
                  && InPhase(s, x, StateGone) && s.q.requests == map[]
                  && s.starting == s.calling == None && s.q.commits == [])
  {
    hide Run, StandsStill, Behind, Copies, H.Kept, WaitsForPeer, WaitsForRun, Unanswered;
    RunKeeps(steps);
    var s := Run(START, steps).value;
    forall t | HasSlot(s, t) ensures WaitsForPeer(s, t) || WaitsForRun(s, t) {
      KeptOf(s, t);
      StillHandshake(s, t);
      if Behind(s, t) > 0 {
        StillBehind(s, t);
      }
    }
    StillStart(s);
    if s.calling.Some? {
      StillCall(s, s.calling.value);
    }
    forall x | Processor(s, x).Some? && !InPhase(s, x, Running)
      ensures InPhase(s, x, StateGone) && s.q.requests == map[]
    {
      StillProcessors(s, x);
    }
  }

  lemma StillCall(s: System, t: Task)
    requires StandsStill(s) && Kept(s) && s.calling == Some(t)
    ensures Unanswered(s, t) && HasSlot(s, t)
  {
    hide StandsStill, Behind, Copies, H.Kept;
    KeptOf(s, t);
    StillHandshake(s, t);
    Pushes(NodesOf(s, t), Party(t));
  }

  // ---- A processor that waits to give back a slot

  /** It has to wait exactly if every task past admission has given back its slot before. */
  lemma WaitsForSlotIf(steps: seq<Step>, x: bool)
    requires Run(START, steps).Some? && InPhase(Run(START, steps).value, x, StateGone)
    ensures var s := Run(START, steps).value;
            Take(s, DropSlot(x)).None? <==> forall u :: InHandshake(s, u) || Behind(s, u) > 0 ==> u in s.freed
  {
    hide Run, Behind, Copies, H.Kept;
    RunKeeps(steps);
    var s := Run(START, steps).value;
    forall u ensures HasSlot(s, u) <==> (InHandshake(s, u) || Behind(s, u) > 0) && u !in s.freed {
      KeptOf(s, u);
    }
    if Take(s, DropSlot(x)).Some? {
      var id :| id in s.q.requests;
      assert HasSlot(s, s.q.requests[id]);
    } else {
      assert s.q.requests == map[];
    }
  }

  /** Then it waits until the next task is admitted, whatever else happens. */
  lemma {:induction false} WaitsForAdmission(s: System, steps: seq<Step>, x: bool)
    requires InPhase(s, x, StateGone) && s.q.requests == map[] && Run(s, steps).Some? && Admit !in steps
    ensures var s' := Run(s, steps).value;
            Processor(s', x) == Processor(s, x) && s'.q.requests == map[] && Take(s', DropSlot(x)).None?
  {
    hide Take;
    if steps == [] {
      NothingToDrop(s, x);
    } else {
      var front, last := steps[..|steps| - 1], steps[|steps| - 1];
      assert last in steps && forall step :: step in front ==> step in steps;
      WaitsForAdmission(s, front, x);
      StaysWaiting(Run(s, front).value, last, x);
      NothingToDrop(Run(s, steps).value, x);
    }
  }

  lemma NothingToDrop(s: System, x: bool)
    requires s.q.requests == map[]
    ensures Take(s, DropSlot(x)).None?
  {
    hide WithoutSlot;
  }

  lemma StaysWaiting(s: System, step: Step, x: bool)
    requires InPhase(s, x, StateGone) && s.q.requests == map[] && Take(s, step).Some? && !step.Admit?
    ensures Processor(Take(s, step).value, x) == Processor(s, x) && Take(s, step).value.q.requests == map[]
  {
    hide Carry;
  }

  /** And the admission lets it go on. */
  lemma AdmissionReleases(s: System, x: bool)
    requires InPhase(s, x, StateGone) && Take(s, Admit).Some?
    ensures Take(Take(s, Admit).value, DropSlot(x)).Some?
  {
    hide Carry;
    assert s.starting.value.id in Take(s, Admit).value.q.requests;
  }
  // ---- A run with a task pushed twice

  lemma OneMore(s: System, steps: seq<Step>, step: Step) returns (s': System, steps': seq<Step>)
    requires Run(START, steps) == Some(s) && Take(s, step).Some?
    ensures Take(s, step) == Some(s') && Run(START, steps') == Some(s')
  {
    hide Take;
    s' := Take(s, step).value;
    steps' := steps + [step];
    assert steps'[..|steps|] == steps;
  }

  /** The run goes on with a step of the task's handshake that makes no push. */
  lemma Shakes(s: System, steps: seq<Step>, t: Task, h: H.Step) returns (s': System, steps': seq<Step>)
    requires Run(START, steps) == Some(s) && IsFree(s, t, h) && !IsPush(t, h)
    requires var w := NodesOf(s, t); H.Local(h.p, H.At(w, h.p), H.At(w, H.Peer(h.p)), h).Some?
    ensures Run(START, steps') == Some(s')
    ensures var w, w' := NodesOf(s, t), NodesOf(s', t);
            && H.At(w', h.p) == H.Local(h.p, H.At(w, h.p), H.At(w, H.Peer(h.p)), h).value
            && H.At(w', H.Peer(h.p))
            == if h.Call? then H.At(w, H.Peer(h.p)).(handler := H.Called) else H.At(w, H.Peer(h.p))
    ensures s' == s.(nodes := s.nodes[t := NodesOf(s', t)],
                     calling := if h.p == Party(t) && IsReplying(h) && Mine(s', t).caller.Answered? then None
                                else s.calling)
  {
    s', steps' := OneMore(s, steps, Shake(t, h));
    hide H.Local;
    assert H.Take(NodesOf(s, t), h).Some?;
  }

  /** The task alone at the node, with a slot. */
  function Alone(t: Task, w: H.Nodes, calling: Option<Task>, put: seq<Task>): System {
    START.(nodes := map[t := w], accepted := {t}, calling := calling,
           q := START.q.(requests := map[t.id := t], put := put))
  }

  lemma Taken(t: Task) returns (s: System, steps: seq<Step>)
    requires t.invitor
    ensures Run(START, steps) == Some(s)
    ensures var w := H.Nodes(H.FRESH.(state := Some(0), working := true, caller := H.Admitted), H.FRESH);
            s == START.(nodes := map[t := w], accepted := {t}, starting := Some(t))
  {
    assert Run(START, []) == Some(START);
    hide Run, H.Own;
    s, steps := OneMore(START, [], Submit(t));
    s, steps := OneMore(s, steps, PopCommit);
  }

  /** The ready processor has taken the task, and so has the peer. */
  lemma BothTaken(t: Task) returns (s: System, steps: seq<Step>)
    requires t.invitor
    ensures Run(START, steps) == Some(s)
    ensures var n := H.FRESH.(state := Some(0), working := true, caller := H.Admitted);
            s == START.(nodes := map[t := H.Nodes(n, n)], accepted := {t}, starting := Some(t))
  {
    hide Run, H.Own;
    s, steps := Taken(t);
    s, steps := Shakes(s, steps, t, H.Submit(H.Bob));
    s, steps := Shakes(s, steps, t, H.Commit(H.Bob));
  }

  /** Both nodes have admitted the task and called each other. */
  lemma BothCalling(t: Task) returns (s: System, steps: seq<Step>)
    requires t.invitor
    ensures Run(START, steps) == Some(s)
    ensures var n := H.Node(Some(0), true, 0, H.Called, H.Calling, H.Nothing, false, false, false);
            s == Alone(t, H.Nodes(n, n), Some(t), [])
  {
    hide Run, H.Own;
    s, steps := BothTaken(t);
    s, steps := OneMore(s, steps, Admit);
    s, steps := Shakes(s, steps, t, H.Call(H.Bob));
  }

  /** Bob's handler has returned, and at Alice both threads have updated the state. */
  lemma BothUpdated(t: Task) returns (s: System, steps: seq<Step>)
    requires t.invitor
    ensures Run(START, steps) == Some(s)
    ensures var reply := H.ReplyUpdated(H.Own(H.Alice));
            var n := H.Node(Some(H.READY), true, 0, H.HandlerUpdated, reply, H.Nothing, true, false, false);
            var m := H.Node(Some(H.Own(H.Alice)), true, 0, H.Returned(H.Own(H.Alice)), H.Calling, H.Nothing,
                            false, false, false);
            s == Alone(t, H.Nodes(n, m), Some(t), [])
  {
    H.BitFacts(H.Alice);
    H.BitFacts(H.Bob);
    H.OrSame(H.Own(H.Alice));
    hide Run, H.Own;
    s, steps := BothCalling(t);
    s, steps := Shakes(s, steps, t, H.HandlerUpdate(H.Bob));
    s, steps := Shakes(s, steps, t, H.HandlerFind(H.Bob));
    s, steps := Shakes(s, steps, t, H.HandlerUpdate(H.Alice));
    s, steps := Shakes(s, steps, t, H.ReplyUpdate(H.Alice));
  }

  /** Both of Alice's threads are about to push. */
  lemma BothReady(t: Task) returns (s: System, steps: seq<Step>)
    requires t.invitor
    ensures Run(START, steps) == Some(s)
    ensures var n := H.Node(Some(H.READY), true, 0, H.HandlerHolds, H.ReplyReady, H.Nothing, true, false, false);
            var m := H.Node(Some(H.Own(H.Alice)), true, 0, H.Returned(H.Own(H.Alice)), H.Calling, H.Nothing,
                            false, false, false);
            s == Alone(t, H.Nodes(n, m), Some(t), [])
  {
    hide Run, H.Own;
    s, steps := BothUpdated(t);
    s, steps := Shakes(s, steps, t, H.HandlerFind(H.Alice));
    s, steps := Shakes(s, steps, t, H.ReplyFind(H.Alice));
    s, steps := Shakes(s, steps, t, H.HandlerLookup(H.Alice));
  }

  lemma TwiceInPutQueue(t: Task) returns (s: System, steps: seq<Step>)
    requires t.invitor
    ensures Run(START, steps) == Some(s)
    ensures s == Alone(t, NodesOf(s, t), None, [t, t])
    ensures Mine(s, t).handler == H.Returned(H.READY) && Mine(s, t).caller.Answered?
    ensures Mine(s, t).pushes == 2 && Mine(s, t).removal.Nothing?
  {
    hide Run, H.Own;
    s, steps := BothReady(t);
    s, steps := OneMore(s, steps, Shake(t, H.HandlerPush(H.Alice)));
    s, steps := OneMore(s, steps, Shake(t, H.ReplyPush(H.Alice)));
  }

  /** The first copy is being run. */
  lemma FirstRun(t: Task) returns (s: System, steps: seq<Step>)
    requires t.invitor
    ensures Run(START, steps) == Some(s)
    ensures s == Alone(t, NodesOf(s, t), None, [t]).(invitor := Some(Job(t, Running)))
    ensures Mine(s, t).handler.Returned? && Mine(s, t).caller.Answered?
    ensures Mine(s, t).pushes == 2 && Mine(s, t).removal.Nothing?
  {
    hide Run;
    s, steps := TwiceInPutQueue(t);
    s, steps := OneMore(s, steps, PopPut);
    s, steps := OneMore(s, steps, PutReady);
    s, steps := OneMore(s, steps, Fetch(false));
  }

  /** It has been run, and its state is gone. */
  lemma FirstRunEnded(t: Task) returns (s: System, steps: seq<Step>)
    requires t.invitor
    ensures Run(START, steps) == Some(s)
    ensures s == Alone(t, NodesOf(s, t), None, [t]).(invitor := Some(Job(t, StateGone)))
    ensures Mine(s, t).handler.Returned? && Mine(s, t).caller.Answered? && Mine(s, t).removal.StateGone?
  {
    hide Run;
    s, steps := FirstRun(t);
    s, steps := OneMore(s, steps, EndRun(false));
    s, steps := OneMore(s, steps, DropState(false));
  }

  /** Its slot is free again. */
  lemma RunOnce(t: Task) returns (s: System, steps: seq<Step>)
    requires t.invitor
    ensures Run(START, steps) == Some(s)
    ensures s == START.(nodes := map[t := NodesOf(s, t)], accepted := {t}, freed := {t}, done := [t],
                        q := START.q.(put := [t]))
    ensures Mine(s, t).handler.Returned? && Mine(s, t).caller.Answered? && Mine(s, t).removal.AllGone?
  {
    hide Run;
    s, steps := FirstRunEnded(t);
    assert t.id in s.q.requests;
    s, steps := OneMore(s, steps, DropSlot(false));
    assert s.q.requests == map[];
    s, steps := OneMore(s, steps, DropWorking(false));
  }

  /** Then it is run a second time, and the node stands still while the processor waits to give back a slot. */
  lemma ProcessorWaits(t: Task) returns (s: System, steps: seq<Step>)
    requires t.invitor
    ensures Run(START, steps) == Some(s) && StandsStill(s)
    ensures InPhase(s, false, StateGone) && s.invitor.value.task == t && s.done == [t] && s.q.requests == map[]
    ensures s.q.commits == [] && s.starting == s.calling == None && s.accepted == {t}
  {
    hide Run, StandsStill;
    s, steps := RunOnce(t);
    s, steps := OneMore(s, steps, PopPut);
    s, steps := OneMore(s, steps, PutReady);
    s, steps := OneMore(s, steps, Fetch(false));
    s, steps := OneMore(s, steps, EndRun(false));
    s, steps := OneMore(s, steps, DropState(false));
    NothingInternal(s, t);
  }

  lemma NothingInternal(s: System, t: Task)
    requires t.invitor && Mine(s, t).handler.Returned? && Mine(s, t).caller.Answered?
    requires s == START.(nodes := map[t := NodesOf(s, t)], accepted := {t}, freed := {t}, done := [t],
                         invitor := Some(Job(t, StateGone)))
    ensures StandsStill(s)
  {
    forall step | IsInternal(step) ensures Take(s, step).None? {
      if step.Shake? {
        NoShake(s, t, step.t, step.h);
      }
    }
  }

  lemma NoShake(s: System, t: Task, u: Task, h: H.Step)
    requires s.calling == None && h.p == Party(u) && Mine(s, t).handler.Returned?
    requires u != t ==> NodesOf(s, u) == H.START
    ensures !IsFree(s, u, h) || H.Take(NodesOf(s, u), h).None?
  {
  }

  /** The next task is admitted. */
  lemma NextAdmitted(t: Task, u: Task) returns (s: System, steps: seq<Step>)
    requires t.invitor && t.id != u.id
    ensures Run(START, steps) == Some(s)
    ensures InPhase(s, false, StateGone) && s.invitor.value.task == t && s.done == [t] && s.q.requests == map[u.id := u]
  {
    hide Run, StandsStill, Carry;
    s, steps := ProcessorWaits(t);
    s, steps := OneMore(s, steps, Submit(u));
    s, steps := OneMore(s, steps, PopCommit);
    s, steps := OneMore(s, steps, Admit);
  }

  /** It lets the processor finish, and keeps its slot. */
  lemma ProcessorReleased(t: Task, u: Task) returns (s: System, steps: seq<Step>)
    requires t.invitor && t.id != u.id
    ensures Run(START, steps) == Some(s) && s.done == [t, t] && s.invitor == None && HasSlot(s, u)
  {
    hide Run, Carry;
    s, steps := NextAdmitted(t, u);
    assert u.id in s.q.requests;
    s, steps := OneMore(s, steps, DropSlot(false));
    s, steps := OneMore(s, steps, DropWorking(false));
  }
}
