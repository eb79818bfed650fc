/** The dispatcher's queues and maps, and the operations on them. A call that has to wait for another thread says so
    and changes nothing. */
module Dispatcher {
  import opened Wrappers
  import opened Handshake

  datatype Task = Task(id: string, invitor: bool)

  const PROCESSORS: nat := 2
  const LOAD_PER_PROCESSOR: nat := 2048
  const LOAD_LIMIT := PROCESSORS * LOAD_PER_PROCESSOR

  /** What the dispatcher holds. */
  datatype Queues = Queues(
    commits: seq<Task>, states: map<string, bv8>, working: map<string, Task>, requests: map<string, Task>,
    put: seq<Task>, invitors: seq<Task>, invitees: seq<Task>)

  function Lookup<V>(m: map<string, V>, id: string): Option<V> {
    if id in m then Some(m[id]) else None
  }

  /** std::map::insert leaves an existing entry alone. */
  function Insert(m: map<string, Task>, t: Task): map<string, Task> {
    if t.id in m then m else m[t.id := t]
  }

  function WithState(q: Queues, id: string, bits: bv8): Queues {
    q.(states := q.states[id := Update(Lookup(q.states, id), bits).value])
  }

  function Pushed(q: Queues, t: Task): Queues {
    q.(put := q.put + [t])
  }

  /** The ready queue of the task's kind has room for half as many tasks as there are processors. */
  predicate ReadyHasRoom(q: Queues, t: Task) {
    |if t.invitor then q.invitors else q.invitees| < PROCESSORS / 2
  }

  function MadeReady(q: Queues, t: Task): Queues {
    if t.invitor then q.(invitors := q.invitors + [t]) else q.(invitees := q.invitees + [t])
  }

  function Ready(q: Queues, invitee: bool): seq<Task> {
    if invitee then q.invitees else q.invitors
  }

  function WithoutFirst(q: Queues, invitee: bool): Queues
    requires Ready(q, invitee) != []
  {
    if invitee then q.(invitees := q.invitees[1..]) else q.(invitors := q.invitors[1..])
  }

  function HoldsSlot(q: Queues, t: Task): Queues {
    q.(requests := Insert(q.requests, t))
  }

  /** After a task has been run nothing is kept about it. */
  function Forgotten(q: Queues, id: string): Queues {
    q.(states := q.states - {id}, requests := q.requests - {id}, working := q.working - {id})
  }

  /** What a handler leaves that sets its bits and reads them back: it pushes the working task of that id, if any. */
  function Answering(q: Queues, id: string, bits: bv8): Queues {
    var r := WithState(q, id, bits);
    if r.states[id] == READY && id in r.working then Pushed(r, r.working[id]) else r
  }

  /** The caller pushes its own copy of the task, working or not. */
  function Replying(q: Queues, t: Task, bits: bv8): Queues {
    var r := WithState(q, t.id, bits);
    if r.states[t.id] == READY then Pushed(r, t) else r
  }

  /** What the dispatcher knows of a task, as a node of the handshake whose threads are where they are said to be. */
  function NodeOf(q: Queues, id: string, handler: Handler, caller: Caller): Node {
    Node(Lookup(q.states, id), id in q.working, 0, handler, caller, Nothing, false, false, false)
  }

  /** The same state, working entry and thread positions. */
  ghost predicate Agree(n: Node, m: Node) {
    n.state == m.state && n.working == m.working && n.handler == m.handler && n.caller == m.caller
  }

  /** Nothing but what concerns one task, and the put queue, may have changed. */
  ghost predicate OthersKept(q: Queues, q': Queues, id: string) {
    && q' == q.(states := q'.states, put := q'.put)
    && forall other :: other != id ==> Lookup(q'.states, other) == Lookup(q.states, other)
  }

  /** The node n is what the queues hold in the end, after these tasks have been pushed. */
  ghost predicate EndsAs(n: Node, q: Queues, q': Queues, id: string, pushed: seq<Task>) {
    Agree(n, NodeOf(q', id, n.handler, n.caller)) && q'.put == q.put + pushed && OthersKept(q, q', id)
  }

  /** The steps of a handler of the handshake, taken in a row, lead from q to q'. */
  ghost predicate HandlerRan(p: Party, caller: Caller, peer: Node, q: Queues, q': Queues, id: string, status: bv8) {
    var updated := Local(p, NodeOf(q, id, Called, caller), peer, HandlerUpdate(p));
    && updated.Some?
    && var found := Local(p, updated.value, peer, HandlerFind(p));
    && found.Some?
    && if found.value.handler.Returned? then
         found.value.handler.status == status && EndsAs(found.value, q, q', id, [])
       else
         var lookedUp := Local(p, found.value, peer, HandlerLookup(p));
         && lookedUp.Some? && status == 0x03
         && if lookedUp.value.handler.Returned? then
              EndsAs(lookedUp.value, q, q', id, [])
            else
              var pushed := Local(p, lookedUp.value, peer, HandlerPush(p));
              && pushed.Some? && pushed.value.pushes == 1 && pushed.value.handler == Returned(0x03)
              && id in q.working && EndsAs(pushed.value, q, q', id, [q.working[id]])
  }

  /** The same for the caller with the peer's answer. */
  ghost predicate ReplyRan(p: Party, handler: Handler, peer: Node, q: Queues, q': Queues, t: Task) {
    var updated := Local(p, NodeOf(q, t.id, handler, Calling), peer, ReplyUpdate(p));
    && updated.Some?
    && var found := Local(p, updated.value, peer, ReplyFind(p));
    && found.Some?
    && if found.value.caller.Answered? then
         EndsAs(found.value, q, q', t.id, [])
       else
         var pushed := Local(p, found.value, peer, ReplyPush(p));
         && pushed.Some? && pushed.value.pushes == 1 && pushed.value.caller.Answered?
         && EndsAs(pushed.value, q, q', t.id, [t])
  }

  lemma AnsweringKeeps(q: Queues, id: string, bits: bv8)
    ensures OthersKept(q, Answering(q, id, bits), id)
  {
    hide Update;
  }

  lemma ReplyingKeeps(q: Queues, t: Task, bits: bv8)
    ensures OthersKept(q, Replying(q, t, bits), t.id)
  {
    hide Update;
  }

  lemma WithStateIs(q: Queues, id: string, bits: bv8)
    ensures var r := WithState(q, id, bits);
            && id in r.states && Some(r.states[id]) == Update(Lookup(q.states, id), bits)
            && r.working == q.working && r.put == q.put
  {
  }

  lemma AnsweringIs(q: Queues, id: string, bits: bv8)
    ensures var r, q' := WithState(q, id, bits), Answering(q, id, bits);
            && id in r.states && q'.states == r.states && q'.working == q.working
            && q'.put == q.put + if r.states[id] == READY && id in q.working then [q.working[id]] else []
  {
    WithStateIs(q, id, bits);
    hide WithState, Update;
  }

  lemma ReplyingIs(q: Queues, t: Task, bits: bv8)
    ensures var r, q' := WithState(q, t.id, bits), Replying(q, t, bits);
            && t.id in r.states && q'.states == r.states && q'.working == q.working
            && q'.put == q.put + if r.states[t.id] == READY then [t] else []
  {
    WithStateIs(q, t.id, bits);
    hide WithState, Update;
  }

  lemma HandlerRuns(p: Party, caller: Caller, peer: Node, q: Queues, id: string)
    ensures var q' := Answering(q, id, Own(Peer(p)));
            id in q'.states && HandlerRan(p, caller, peer, q, q', id, q'.states[id])
  {
    AnsweringKeeps(q, id, Own(Peer(p)));
    AnsweringIs(q, id, Own(Peer(p)));
    WithStateIs(q, id, Own(Peer(p)));
    hide Own, OthersKept, Update, WithState, Answering;
  }

  lemma ReplyRuns(p: Party, handler: Handler, peer: Node, q: Queues, t: Task, status: bv8)
    requires peer.handler == Returned(status)
    ensures ReplyRan(p, handler, peer, q, Replying(q, t, Own(p) | status), t)
  {
    ReplyingKeeps(q, t, Own(p) | status);
    ReplyingIs(q, t, Own(p) | status);
    WithStateIs(q, t.id, Own(p) | status);
    hide Own, OthersKept, Update, WithState, Replying;
  }

  /** Of a forgotten task nothing can be looked up; of all others everything, and the queues stay. */
  lemma ForgottenIs(q: Queues, id: string)
    ensures var r := Forgotten(q, id);
            && Lookup(r.states, id) == None && Lookup(r.requests, id) == None && Lookup(r.working, id) == None
            && r.commits == q.commits && r.put == q.put && r.invitors == q.invitors && r.invitees == q.invitees
            && forall other :: other != id ==>
                 && Lookup(r.states, other) == Lookup(q.states, other)
                 && Lookup(r.requests, other) == Lookup(q.requests, other)
                 && Lookup(r.working, other) == Lookup(q.working, other)
  {
  }

  class TaskDispatcher {
    var inited: bool
    var commitNum: int
    var commitQueue: seq<Task>
    var taskState: map<string, bv8>
    var workingTasks: map<string, Task>
    var requestQueue: map<string, Task>
    var putQueue: seq<Task>
    var readyQueue: seq<Task>
    var inviteeReadyQueue: seq<Task>

    ghost function View(): Queues
      reads this
    {
      Queues(commitQueue, taskState, workingTasks, requestQueue, putQueue, readyQueue, inviteeReadyQueue)
    }

    ghost predicate Valid()
      reads this
    {
      commitNum == |commitQueue| && (!inited ==> commitQueue == [])
    }

    constructor ()
      ensures Valid() && !inited && View() == Queues([], map[], map[], map[], [], [], [])
    {
      inited, commitNum, commitQueue := false, 0, [];
      taskState, workingTasks, requestQueue := map[], map[], map[];
      putQueue, readyQueue, inviteeReadyQueue := [], [], [];
    }

    /** Starting the processors is not part of this model. */
    method Init()
      requires Valid()
      modifies this
      ensures Valid() && inited && View() == old(View())
    {
      if !inited {
        inited := true;
        commitNum := 0;
      }
    }

    method PutWorkingTask(task: Task)
      requires Valid()
      modifies this`workingTasks
      ensures Valid() && View() == old(View()).(working := old(workingTasks)[task.id := task])
    {
      workingTasks := workingTasks[task.id := task];
    }

    method GetWorkingTask(id: string) returns (ret: int, task: Option<Task>)
      ensures task == Lookup(workingTasks, id) && ret == if id in workingTasks then 0 else -1
    {
      if id !in workingTasks {
        return -1, None;
      }
      return 0, Some(workingTasks[id]);
    }

    method PutCommitTask(task: Task) returns (ret: int)
      requires Valid()
      modifies this
      ensures Valid() && inited == old(inited)
      ensures ret == 0 <==> inited && |old(commitQueue)| < 4096
      ensures ret == 1 <==> inited && |old(commitQueue)| >= 4096
      ensures ret == -1 <==> !inited
      ensures View() == if ret == 0 then old(View()).(commits := old(commitQueue) + [task]) else old(View())
    {
      if !inited {
        return -1;
      }
      if commitNum >= LOAD_LIMIT {
        return 1;
      }
      commitQueue := commitQueue + [task];
      commitNum := commitNum + 1;
      return 0;
    }

    /** The wait for a task gives up after a second. */
    method PopCommitTask() returns (ret: int, task: Option<Task>)
      requires Valid()
      modifies this
      ensures Valid() && inited == old(inited)
      ensures ret == 0 <==> inited && old(commitQueue) != []
      ensures ret == -1 <==> !inited
      ensures ret == 0 || ret == -1 || ret == -2
      ensures task == if ret == 0 then Some(old(commitQueue)[0]) else None
      ensures View() == if ret == 0 then old(View()).(commits := old(commitQueue)[1..]) else old(View())
    {
      task := None;
      if !inited {
        return -1, task;
      }
      if commitQueue == [] {
        return -2, task;
      }
      task := Some(commitQueue[0]);
      commitQueue := commitQueue[1..];
      commitNum := commitNum - 1;
      return 0, task;
    }

    method UpdateTaskState(id: string, state: bv8)
      requires Valid()
      modifies this`taskState
      ensures Valid() && View() == WithState(old(View()), id, state)
    {
      if id !in taskState {
        taskState := taskState[id := state];
      } else {
        taskState := taskState[id := taskState[id] | state];
      }
    }

    /** A missing entry is reported and leaves the variable as it was. */
    method FindTaskState(id: string, variable: bv8) returns (ret: int, state: bv8)
      ensures ret == (if id in taskState then 0 else -1) && state == Find(Lookup(taskState, id), variable)
    {
      if id !in taskState {
        return -1, variable;
      }
      return 0, taskState[id];
    }

    method PushPutTask(task: Task)
      requires Valid()
      modifies this`putQueue
      ensures Valid() && View() == Pushed(old(View()), task)
    {
      putQueue := putQueue + [task];
    }

    /** notify2, with nothing between its critical sections. */
    method Notify2(id: string, ghost caller: Caller, ghost peer: Node) returns (status: bv8)
      requires Valid()
      modifies this
      ensures Valid() && inited == old(inited)
      ensures View() == Answering(old(View()), id, Own(Bob)) && status == taskState[id]
      ensures HandlerRan(Alice, caller, peer, old(View()), View(), id, status)
    {
      HandlerRuns(Alice, caller, peer, View(), id);
      hide HandlerRan;
      UpdateTaskState(id, 0x02);
      var _, found := FindTaskState(id, 0x02);
      status := found;
      if status == READY {
        var ret, task := GetWorkingTask(id);
        if ret == 0 {
          PushPutTask(task.value);
        }
      }
    }

    /** invite2, the same at Bob with the other bit. */
    method Invite2(id: string, ghost caller: Caller, ghost peer: Node) returns (status: bv8)
      requires Valid()
      modifies this
      ensures Valid() && inited == old(inited)
      ensures View() == Answering(old(View()), id, Own(Alice)) && status == taskState[id]
      ensures HandlerRan(Bob, caller, peer, old(View()), View(), id, status)
    {
      HandlerRuns(Bob, caller, peer, View(), id);
      hide HandlerRan;
      UpdateTaskState(id, 0x01);
      var _, found := FindTaskState(id, 0x01);
      status := found;
      if status == READY {
        var ret, task := GetWorkingTask(id);
        if ret == 0 {
          PushPutTask(task.value);
        }
      }
    }

    /** The caller's side once the peer has answered: it pushes its own copy of the task. */
    method HandleReply(p: Party, task: Task, status: bv8, ghost handler: Handler, ghost peer: Node)
      requires Valid() && peer.handler == Returned(status)
      modifies this
      ensures Valid() && inited == old(inited)
      ensures View() == Replying(old(View()), task, Own(p) | status)
      ensures ReplyRan(p, handler, peer, old(View()), View(), task)
    {
      ReplyRuns(p, handler, peer, View(), task, status);
      hide Own, Update, ReplyRan;
      var state := Own(p) | status;
      UpdateTaskState(task.id, state);
      var _, found := FindTaskState(task.id, state);
      if found == READY {
        PushPutTask(task);
      }
    }

    /** Waits for a request slot. */
    method AddRequest(task: Task) returns (waits: bool)
      requires Valid()
      modifies this`requestQueue
      ensures Valid() && (waits <==> |old(requestQueue)| >= 2)
      ensures View() == if waits then old(View()) else HoldsSlot(old(View()), task)
    {
      if |requestQueue| >= PROCESSORS {
        return true;
      }
      if task.id !in requestQueue {
        requestQueue := requestQueue[task.id := task];
      }
      return false;
    }

    method PopPutTask() returns (waits: bool, task: Option<Task>)
      requires Valid()
      modifies this`putQueue
      ensures Valid() && (waits <==> old(putQueue) == [])
      ensures task == if waits then None else Some(old(putQueue)[0])
      ensures View() == if waits then old(View()) else old(View()).(put := old(putQueue)[1..])
    {
      if putQueue == [] {
        return true, None;
      }
      task := Some(putQueue[0]);
      putQueue := putQueue[1..];
      return false, task;
    }

    method PutReadyTask(task: Task) returns (waits: bool, ret: int)
      requires Valid()
      modifies this`readyQueue, this`inviteeReadyQueue
      ensures Valid() && (waits <==> inited && !ReadyHasRoom(old(View()), task)) && ret == if inited then 0 else -1
      ensures View() == if waits || !inited then old(View()) else MadeReady(old(View()), task)
    {
      if !inited {
        return false, -1;
      }
      if !task.invitor {
        if |inviteeReadyQueue| >= PROCESSORS / 2 {
          return true, 0;
        }
        inviteeReadyQueue := inviteeReadyQueue + [task];
      } else {
        if |readyQueue| >= PROCESSORS / 2 {
          return true, 0;
        }
        readyQueue := readyQueue + [task];
      }
      return false, 0;
    }

    method PopReadyTask(invitee: bool) returns (waits: bool, ret: int, task: Option<Task>)
      requires Valid()
      modifies this`readyQueue, this`inviteeReadyQueue
      ensures Valid() && (waits <==> inited && Ready(old(View()), invitee) == []) && ret == if inited then 0 else -1
      ensures task == if waits || !inited then None else Some(Ready(old(View()), invitee)[0])
      ensures View() == if waits || !inited then old(View()) else WithoutFirst(old(View()), invitee)
    {
      task := None;
      if !inited {
        return false, -1, task;
      }
      if invitee {
        if inviteeReadyQueue == [] {
          return true, 0, task;
        }
        task := Some(inviteeReadyQueue[0]);
        inviteeReadyQueue := inviteeReadyQueue[1..];
      } else {
        if readyQueue == [] {
          return true, 0, task;
        }
        task := Some(readyQueue[0]);
        readyQueue := readyQueue[1..];
      }
      return false, 0, task;
    }

    /** What a processor does after running a task; it waits as long as no request is held at all. */
    method Forget(id: string) returns (waits: bool)
      requires Valid()
      modifies this
      ensures Valid() && inited == old(inited) && (waits <==> old(requestQueue) == map[])
      ensures View() == if waits then old(View()).(states := old(taskState) - {id}) else Forgotten(old(View()), id)
    {
      taskState := taskState - {id};
      if requestQueue == map[] {
        return true;
      }
      requestQueue := requestQueue - {id};
      workingTasks := workingTasks - {id};
      return false;
    }
  }

  /** A running invite2 or notify2 that other threads may interrupt between its critical sections. */
  class HandlerCall {
    const p: Party
    const id: string
    var phase: Handler
    var held: Option<Task>

    constructor (p: Party, id: string)
      ensures this.p == p && this.id == id && phase == Called && held == None
    {
      this.p, this.id, phase, held := p, id, Called, None;
    }

    ghost predicate Running()
      reads this
    {
      (phase.Called? || phase.HandlerUpdated? || phase.HandlerReady? || phase.HandlerHolds?)
      && (phase.HandlerHolds? ==> held.Some?)
    }

    /** The step of the handshake that comes next. */
    function Next(): Step
      reads this
    {
      if phase.Called? then HandlerUpdate(p) else if phase.HandlerUpdated? then HandlerFind(p)
      else if phase.HandlerReady? then HandlerLookup(p) else HandlerPush(p)
    }

    /** The next critical section: the step of the handshake on what the dispatcher holds by now. */
    method Advance(d: TaskDispatcher, ghost caller: Caller, ghost peer: Node)
      requires d.Valid() && Running()
      modifies this, d
      ensures d.Valid() && d.inited == old(d.inited) && (Running() || phase.Returned?)
      ensures var r := Local(p, NodeOf(old(d.View()), id, old(phase), caller), peer, old(Next()));
              && r.Some? && Agree(r.value, NodeOf(d.View(), id, phase, caller))
              && d.putQueue == old(d.putQueue) + (if r.value.pushes == 1 then [old(held).value] else [])
              && OthersKept(old(d.View()), d.View(), id)
      ensures old(phase).HandlerReady? ==> held == Lookup(d.workingTasks, id)
    {
      hide Own;
      match phase
      case Called =>
        d.UpdateTaskState(id, Own(Peer(p)));
        phase := HandlerUpdated;
      case HandlerUpdated =>
        var _, status := d.FindTaskState(id, Own(Peer(p)));
        phase := if status == READY then HandlerReady else Returned(status);
      case HandlerReady =>
        var ret, task := d.GetWorkingTask(id);
        held := task;
        phase := if ret == 0 then HandlerHolds else Returned(READY);
      case HandlerHolds =>
        d.PushPutTask(held.value);
        phase := Returned(READY);
    }
  }

  /** The caller's thread after the peer's answer, equally open to interruption. */
  class ReplyCall {
    const p: Party
    const task: Task
    const status: bv8
    var phase: Caller

    constructor (p: Party, task: Task, status: bv8)
      ensures this.p == p && this.task == task && this.status == status && phase == Calling
    {
      this.p, this.task, this.status, phase := p, task, status, Calling;
    }

    ghost predicate Running()
      reads this
    {
      phase.Calling? || phase.ReplyUpdated? || phase.ReplyReady?
    }

    function Next(): Step
      reads this
    {
      if phase.Calling? then ReplyUpdate(p) else if phase.ReplyUpdated? then ReplyFind(p) else ReplyPush(p)
    }

    method Advance(d: TaskDispatcher, ghost handler: Handler, ghost peer: Node)
      requires d.Valid() && Running() && peer.handler == Returned(status)
      modifies this, d
      ensures d.Valid() && d.inited == old(d.inited) && (Running() || phase.Answered?)
      ensures var r := Local(p, NodeOf(old(d.View()), task.id, handler, old(phase)), peer, old(Next()));
              && r.Some? && Agree(r.value, NodeOf(d.View(), task.id, handler, phase))
              && d.putQueue == old(d.putQueue) + (if r.value.pushes == 1 then [task] else [])
              && OthersKept(old(d.View()), d.View(), task.id)
    {
      hide Own;
      match phase
      case Calling =>
        d.UpdateTaskState(task.id, Own(p) | status);
        phase := ReplyUpdated(Own(p) | status);
      case ReplyUpdated(variable) =>
        var _, state := d.FindTaskState(task.id, variable);
        phase := if state == READY then ReplyReady else Answered;
      case ReplyReady =>
        d.PushPutTask(task);
        phase := Answered;
    }
  }
}
