/**
 The nesting of src/agent/chat-handler.ts: a task waits in its tenant's queue, then in the shared
 queue, then for its provider, keeping every slot it has taken until it is done. Each queue is
 p-queue's contract: first in, first out, at most `concurrency` tasks started and not settled.
 */
module NestedQueues {
  import opened Cardinality
  import opened Wrappers

  datatype QueueId = TenantQueue(client: string) | SharedQueue | ProviderQueue(provider: nat)

  /** A task has taken the slots of path[..held]; it runs when it has them all. */
  datatype Task = Task(path: seq<QueueId>, held: nat, settled: bool)

  datatype State = State(tasks: map<nat, Task>, waiting: map<QueueId, seq<nat>>, busy: map<QueueId, nat>)

  datatype Step =
    | Add(id: nat, path: seq<QueueId>)
    | Start(queue: QueueId)
    | Settle(id: nat)
    | Leave(id: nat)

  const IDLE: State := State(map[], map[], map[])

  /** The queues of an admitted request; a provider without a limit has none. */
  function PathOf(client: string, provider: nat, limit: Option<nat>): seq<QueueId> {
    [TenantQueue(client), SharedQueue] + if limit.Some? then [ProviderQueue(provider)] else []
  }

  /** What queueFor's fallback would make of it: the shared queue inside itself. */
  function FallbackPath(provider: nat, limit: Option<nat>): seq<QueueId> {
    [SharedQueue, SharedQueue] + if limit.Some? then [ProviderQueue(provider)] else []
  }

  function Rank(q: QueueId): nat {
    match q
    case TenantQueue(_) => 0
    case SharedQueue => 1
    case ProviderQueue(_) => 2
  }

  /** The queues of a path are taken in one global order. */
  predicate Ordered(path: seq<QueueId>) {
    |path| > 0 && forall i, j :: 0 <= i < j < |path| ==> Rank(path[i]) < Rank(path[j])
  }

  predicate Limited(limits: map<QueueId, nat>, path: seq<QueueId>) {
    forall q :: q in path ==> q in limits && limits[q] > 0
  }

  function Waiting(s: State, q: QueueId): seq<nat> {
    if q in s.waiting then s.waiting[q] else []
  }

  function Busy(s: State, q: QueueId): nat {
    if q in s.busy then s.busy[q] else 0
  }

  function Limit(limits: map<QueueId, nat>, q: QueueId): nat {
    if q in limits then limits[q] else 0
  }

  predicate Enabled(s: State, limits: map<QueueId, nat>, step: Step) {
    match step
    case Add(id, path) => id !in s.tasks && |path| > 0
    case Start(q) => Waiting(s, q) != [] && Waiting(s, q)[0] in s.tasks && Busy(s, q) < Limit(limits, q)
    case Settle(id) => id in s.tasks && !s.tasks[id].settled && s.tasks[id].held == |s.tasks[id].path|
    case Leave(id) => id in s.tasks && s.tasks[id].settled && 0 < s.tasks[id].held <= |s.tasks[id].path|
  }

  function Enqueued(s: State, q: QueueId, id: nat): State {
    s.(waiting := s.waiting[q := Waiting(s, q) + [id]])
  }

  /** The head of the queue takes a slot and, if it needs another queue, joins that one's end. */
  function Started(s: State, q: QueueId): State
    requires Waiting(s, q) != [] && Waiting(s, q)[0] in s.tasks
  {
    var id := Waiting(s, q)[0];
    var task := s.tasks[id].(held := s.tasks[id].held + 1);
    var t := State(s.tasks[id := task], s.waiting[q := Waiting(s, q)[1..]], s.busy[q := Busy(s, q) + 1]);
    if task.held < |task.path| then Enqueued(t, task.path[task.held], id) else t
  }

  /** A settled task gives its slots back innermost first and is gone with the last one. */
  function Left(s: State, id: nat): State
    requires id in s.tasks && 0 < s.tasks[id].held <= |s.tasks[id].path|
  {
    var task := s.tasks[id];
    var q := task.path[task.held - 1];
    var t := s.(busy := s.busy[q := if Busy(s, q) > 0 then Busy(s, q) - 1 else 0]);
    if task.held == 1 then t.(tasks := s.tasks - {id}) else t.(tasks := s.tasks[id := task.(held := task.held - 1)])
  }

  function Next(s: State, limits: map<QueueId, nat>, step: Step): State
    requires Enabled(s, limits, step)
  {
    match step
    case Add(id, path) => Enqueued(s.(tasks := s.tasks[id := Task(path, 0, false)]), path[0], id)
    case Start(q) => Started(s, q)
    case Settle(id) => s.(tasks := s.tasks[id := s.tasks[id].(settled := true)])
    case Leave(id) => Left(s, id)
  }

  /** The tasks that hold a slot of the queue. */
  function SlotHolders(tasks: map<nat, Task>, q: QueueId): set<nat> {
    set id | id in tasks && tasks[id].held <= |tasks[id].path| && q in tasks[id].path[..tasks[id].held]
  }

  predicate WaitsIn(tasks: map<nat, Task>, id: nat, q: QueueId) {
    && id in tasks && !tasks[id].settled
    && tasks[id].held < |tasks[id].path| && tasks[id].path[tasks[id].held] == q
  }

  predicate TaskOk(task: Task, limits: map<QueueId, nat>) {
    && Ordered(task.path) && Limited(limits, task.path)
    && task.held <= |task.path| && (task.settled ==> task.held > 0)
  }

  predicate NoDuplicates(ids: seq<nat>) {
    forall i, j :: 0 <= i < j < |ids| ==> ids[i] != ids[j]
  }

  /** A queue's list is exactly its waiting tasks, and its counter the tasks holding its slots. */
  predicate QueueOk(s: State, limits: map<QueueId, nat>, q: QueueId) {
    && NoDuplicates(Waiting(s, q))
    && (forall id :: id in Waiting(s, q) ==> WaitsIn(s.tasks, id, q))
    && (forall id :: id in s.tasks && WaitsIn(s.tasks, id, q) ==> id in Waiting(s, q))
    && Busy(s, q) == |SlotHolders(s.tasks, q)| <= Limit(limits, q)
  }

  ghost predicate Inv(s: State, limits: map<QueueId, nat>) {
    && (forall id :: id in s.tasks ==> TaskOk(s.tasks[id], limits))
    && (forall q :: QueueOk(s, limits, q))
  }

  lemma PathsAreOrdered(client: string, provider: nat, limit: Option<nat>)
    ensures Ordered(PathOf(client, provider, limit))
    ensures !Ordered(FallbackPath(provider, limit))
  {
    assert Rank(FallbackPath(provider, limit)[0]) == Rank(FallbackPath(provider, limit)[1]);
  }

  lemma AddOk(s: State, limits: map<QueueId, nat>, id: nat, path: seq<QueueId>)
    requires Inv(s, limits) && id !in s.tasks && Ordered(path) && Limited(limits, path)
    ensures Inv(Next(s, limits, Add(id, path)), limits)
  {
    var t := Next(s, limits, Add(id, path));
    forall q
      ensures QueueOk(t, limits, q)
    {
      assert QueueOk(s, limits, q);
      assert SlotHolders(t.tasks, q) == SlotHolders(s.tasks, q);
      assert id !in Waiting(s, q);
    }
  }

  lemma SettleOk(s: State, limits: map<QueueId, nat>, id: nat)
    requires Inv(s, limits) && Enabled(s, limits, Settle(id))
    ensures Inv(Next(s, limits, Settle(id)), limits)
  {
    var t := Next(s, limits, Settle(id));
    forall q
      ensures QueueOk(t, limits, q)
    {
      assert QueueOk(s, limits, q);
      assert SlotHolders(t.tasks, q) == SlotHolders(s.tasks, q);
    }
  }

  /** Taking the next slot adds the task to the holders of that queue and of no other. */
  lemma HoldersAfterStart(tasks: map<nat, Task>, id: nat, q: QueueId)
    requires id in tasks && Ordered(tasks[id].path) && tasks[id].held < |tasks[id].path|
    ensures var taken := tasks[id].path[tasks[id].held];
            var after := tasks[id := tasks[id].(held := tasks[id].held + 1)];
            && (q == taken ==> id !in SlotHolders(tasks, q) && SlotHolders(after, q) == SlotHolders(tasks, q) + {id})
            && (q != taken ==> SlotHolders(after, q) == SlotHolders(tasks, q))
  {
    var task := tasks[id];
    var taken := task.path[task.held];
    assert task.path[..task.held + 1] == task.path[..task.held] + [taken];
    assert forall i :: 0 <= i < task.held ==> Rank(task.path[i]) < Rank(taken);
  }

  /** The head of a queue that can start is a task that waits there. */
  lemma HeadWaits(s: State, limits: map<QueueId, nat>, queue: QueueId)
    requires Inv(s, limits) && Enabled(s, limits, Start(queue))
    ensures WaitsIn(s.tasks, Waiting(s, queue)[0], queue) && TaskOk(s.tasks[Waiting(s, queue)[0]], limits)
  {
    assert QueueOk(s, limits, queue);
    assert Waiting(s, queue)[0] in Waiting(s, queue);
  }

  /** A start changes one task and the busy counter of one queue. */
  lemma StartEffect(s: State, limits: map<QueueId, nat>, queue: QueueId)
    requires Enabled(s, limits, Start(queue))
    ensures var t, id := Next(s, limits, Start(queue)), Waiting(s, queue)[0];
            && t.tasks == s.tasks[id := s.tasks[id].(held := s.tasks[id].held + 1)]
            && forall q :: Busy(t, q) == Busy(s, q) + if q == queue then 1 else 0
  {
  }

  lemma StartQueueOk(s: State, limits: map<QueueId, nat>, queue: QueueId, q: QueueId)
    requires Enabled(s, limits, Start(queue)) && QueueOk(s, limits, queue) && QueueOk(s, limits, q)
    requires WaitsIn(s.tasks, Waiting(s, queue)[0], queue) && Ordered(s.tasks[Waiting(s, queue)[0]].path)
    ensures QueueOk(Next(s, limits, Start(queue)), limits, q)
  {
    StartKeepsWaiting(s, limits, queue, q);
    StartEffect(s, limits, queue);
    HoldersAfterStart(s.tasks, Waiting(s, queue)[0], q);
    hide Next, SlotHolders, Ordered, NoDuplicates, Waiting, Busy;
  }

  lemma StartOk(s: State, limits: map<QueueId, nat>, queue: QueueId)
    requires Inv(s, limits) && Enabled(s, limits, Start(queue))
    ensures Inv(Next(s, limits, Start(queue)), limits)
  {
    HeadWaits(s, limits, queue);
    StartEffect(s, limits, queue);
    hide Next, Enabled, QueueOk, Ordered, Limited, Waiting, Busy;
    forall q
      ensures QueueOk(Next(s, limits, Start(queue)), limits, q)
    {
      StartQueueOk(s, limits, queue, q);
    }
  }

  lemma StartKeepsWaiting(s: State, limits: map<QueueId, nat>, queue: QueueId, q: QueueId)
    requires Enabled(s, limits, Start(queue)) && QueueOk(s, limits, queue) && QueueOk(s, limits, q)
    requires Ordered(s.tasks[Waiting(s, queue)[0]].path)
    ensures var t := Next(s, limits, Start(queue));
            && NoDuplicates(Waiting(t, q))
            && (forall id :: id in Waiting(t, q) ==> WaitsIn(t.tasks, id, q))
            && (forall id :: id in t.tasks && WaitsIn(t.tasks, id, q) ==> id in Waiting(t, q))
  {
    var t := Next(s, limits, Start(queue));
    var head := Waiting(s, queue)[0];
    var task := s.tasks[head];
    assert WaitsIn(s.tasks, head, queue);
    var rest := if q == queue then Waiting(s, q)[1..] else Waiting(s, q);
    var joins := task.held + 1 < |task.path| && task.path[task.held + 1] == q;
    if joins {
      assert Rank(task.path[task.held]) < Rank(task.path[task.held + 1]);
    }
    assert Waiting(t, q) == rest + if joins then [head] else [];
    assert head !in rest;
    forall id | id in Waiting(t, q)
      ensures WaitsIn(t.tasks, id, q)
    {
      if id in rest {
        assert id in Waiting(s, q) && WaitsIn(s.tasks, id, q);
      }
    }
    forall id | id in t.tasks && WaitsIn(t.tasks, id, q)
      ensures id in Waiting(t, q)
    {
      if id != head {
        assert id in Waiting(s, q);
      }
    }
  }

  /** Giving back the innermost slot removes the task from the holders of that queue and of no other. */
  lemma HoldersAfterLeave(tasks: map<nat, Task>, id: nat, q: QueueId)
    requires id in tasks && Ordered(tasks[id].path) && 0 < tasks[id].held <= |tasks[id].path|
    ensures var given := tasks[id].path[tasks[id].held - 1];
            var after := if tasks[id].held == 1 then tasks - {id} else tasks[id := tasks[id].(held := tasks[id].held - 1)];
            && (q == given ==> id in SlotHolders(tasks, q) && SlotHolders(after, q) == SlotHolders(tasks, q) - {id})
            && (q != given ==> SlotHolders(after, q) == SlotHolders(tasks, q))
  {
    var task := tasks[id];
    var given := task.path[task.held - 1];
    assert task.path[..task.held] == task.path[..task.held - 1] + [given];
    assert forall i :: 0 <= i < task.held - 1 ==> Rank(task.path[i]) < Rank(given);
  }

  lemma LeaveKeepsWaiting(s: State, limits: map<QueueId, nat>, id: nat, q: QueueId)
    requires Enabled(s, limits, Leave(id)) && QueueOk(s, limits, q)
    ensures var t := Next(s, limits, Leave(id));
            && Waiting(t, q) == Waiting(s, q)
            && forall i :: WaitsIn(t.tasks, i, q) <==> WaitsIn(s.tasks, i, q)
  {
  }

  /** A leave gives back one slot of one queue. */
  lemma LeaveEffect(s: State, limits: map<QueueId, nat>, id: nat)
    requires Enabled(s, limits, Leave(id))
    ensures var t, task := Next(s, limits, Leave(id)), s.tasks[id];
            && t.tasks == (if task.held == 1 then s.tasks - {id} else s.tasks[id := task.(held := task.held - 1)])
            && forall q :: Busy(t, q) ==
                 if q == task.path[task.held - 1] && Busy(s, q) > 0 then Busy(s, q) - 1 else Busy(s, q)
  {
  }

  lemma LeaveQueueOk(s: State, limits: map<QueueId, nat>, id: nat, q: QueueId)
    requires Enabled(s, limits, Leave(id)) && QueueOk(s, limits, q) && Ordered(s.tasks[id].path)
    ensures QueueOk(Next(s, limits, Leave(id)), limits, q)
  {
    LeaveKeepsWaiting(s, limits, id, q);
    LeaveEffect(s, limits, id);
    HoldersAfterLeave(s.tasks, id, q);
    LeftTasks(s, limits, id);
    hide Next, SlotHolders, Ordered, NoDuplicates, Waiting, Busy, WaitsIn;
  }

  lemma LeftTasks(s: State, limits: map<QueueId, nat>, id: nat)
    requires Enabled(s, limits, Leave(id))
    ensures Next(s, limits, Leave(id)).tasks.Keys <= s.tasks.Keys
  {
  }

  lemma LeaveOk(s: State, limits: map<QueueId, nat>, id: nat)
    requires Inv(s, limits) && Enabled(s, limits, Leave(id))
    ensures Inv(Next(s, limits, Leave(id)), limits)
  {
    LeaveEffect(s, limits, id);
    assert TaskOk(s.tasks[id], limits);
    hide Next, QueueOk, Ordered, Limited, Waiting, Busy;
    forall q
      ensures QueueOk(Next(s, limits, Leave(id)), limits, q)
    {
      LeaveQueueOk(s, limits, id, q);
    }
  }

  /** An arrival's path is in order and its queues have limits. */
  predicate Admissible(limits: map<QueueId, nat>, step: Step) {
    step.Add? ==> Ordered(step.path) && Limited(limits, step.path)
  }

  lemma StepOk(s: State, limits: map<QueueId, nat>, step: Step)
    requires Inv(s, limits) && Enabled(s, limits, step) && Admissible(limits, step)
    ensures Inv(Next(s, limits, step), limits)
  {
    match step {
      case Add(id, path) => AddOk(s, limits, id, path);
      case Start(q) => StartOk(s, limits, q);
      case Settle(id) => SettleOk(s, limits, id);
      case Leave(id) => LeaveOk(s, limits, id);
    }
  }

  lemma IdleOk(limits: map<QueueId, nat>)
    ensures Inv(IDLE, limits)
  {
    forall q
      ensures QueueOk(IDLE, limits, q)
    {
      assert SlotHolders(IDLE.tasks, q) == {};
    }
  }

  /** A task that waits where no one holds a slot can be started or has someone before it who can. */
  lemma FreeQueueStarts(s: State, limits: map<QueueId, nat>, id: nat, q: QueueId)
    requires Inv(s, limits) && WaitsIn(s.tasks, id, q) && SlotHolders(s.tasks, q) == {}
    ensures Enabled(s, limits, Start(q))
  {
    assert QueueOk(s, limits, q);
    assert TaskOk(s.tasks[id], limits);
    assert Waiting(s, q)[0] in Waiting(s, q);
    assert WaitsIn(s.tasks, Waiting(s, q)[0], q);
  }

  predicate AllWaitBelow(s: State, rank: nat) {
    forall id :: id in s.tasks ==>
      && !s.tasks[id].settled && s.tasks[id].held < |s.tasks[id].path|
      && Rank(s.tasks[id].path[s.tasks[id].held]) < rank
  }

  /** The task with the highest-ranked queue waits where no slot is taken. */
  lemma {:induction false} SomeoneStarts(s: State, limits: map<QueueId, nat>, rank: nat)
    requires Inv(s, limits) && AllWaitBelow(s, rank) && s.tasks != map[] && rank > 0
    ensures exists q :: Enabled(s, limits, Start(q))
    decreases rank
  {
    if id :| id in s.tasks && Rank(s.tasks[id].path[s.tasks[id].held]) + 1 == rank {
      var q := s.tasks[id].path[s.tasks[id].held];
      forall other | other in s.tasks
        ensures q !in s.tasks[other].path[..s.tasks[other].held]
      {
        var task := s.tasks[other];
        assert TaskOk(task, limits);
        assert forall i :: 0 <= i < task.held ==> Rank(task.path[i]) < Rank(task.path[task.held]);
      }
      assert SlotHolders(s.tasks, q) == {};
      FreeQueueStarts(s, limits, id, q);
    } else {
      SomeoneStarts(s, limits, rank - 1);
    }
  }

  /** No deadlock: as long as any task is in the system, some task can move on without a new arrival. */
  lemma NoDeadlock(s: State, limits: map<QueueId, nat>)
    requires Inv(s, limits) && s.tasks != map[]
    ensures exists step: Step :: !step.Add? && Enabled(s, limits, step)
  {
    if id :| id in s.tasks && s.tasks[id].settled {
      assert TaskOk(s.tasks[id], limits);
      assert Enabled(s, limits, Leave(id));
    } else if id :| id in s.tasks && s.tasks[id].held >= |s.tasks[id].path| {
      assert TaskOk(s.tasks[id], limits);
      assert Enabled(s, limits, Settle(id));
    } else {
      SomeoneStarts(s, limits, 3);
      var q :| Enabled(s, limits, Start(q));
      assert !Start(q).Add?;
    }
  }

  /** What a task still has to do: queues to enter, to run, slots to give back. */
  function TaskWork(task: Task): nat {
    if task.settled then task.held
    else 2 * |task.path| + 1 - if task.held <= |task.path| then task.held else |task.path|
  }

  ghost function Work(tasks: map<nat, Task>): nat
    decreases |tasks|
  {
    if tasks == map[] then 0
    else
      var id :| id in tasks;
      TaskWork(tasks[id]) + Work(tasks - {id})
  }

  lemma {:induction false} WorkSplit(tasks: map<nat, Task>, id: nat)
    requires id in tasks
    ensures Work(tasks) == TaskWork(tasks[id]) + Work(tasks - {id})
    decreases |tasks|
  {
    var first :| first in tasks && Work(tasks) == TaskWork(tasks[first]) + Work(tasks - {first});
    if first != id {
      WorkSplit(tasks - {first}, id);
      WorkSplit(tasks - {id}, first);
      assert tasks - {first} - {id} == tasks - {id} - {first};
    }
  }

  lemma WorkUpdate(tasks: map<nat, Task>, id: nat, task: Task)
    requires id in tasks
    ensures Work(tasks[id := task]) + TaskWork(tasks[id]) == Work(tasks) + TaskWork(task)
  {
    WorkSplit(tasks, id);
    WorkSplit(tasks[id := task], id);
    assert tasks[id := task] - {id} == tasks - {id};
  }

  lemma StartWorks(s: State, limits: map<QueueId, nat>, q: QueueId)
    requires Inv(s, limits) && Enabled(s, limits, Start(q))
    ensures Work(Next(s, limits, Start(q)).tasks) + 1 == Work(s.tasks)
  {
    var id := Waiting(s, q)[0];
    HeadWaits(s, limits, q);
    StartEffect(s, limits, q);
    hide Next, Inv, Work, Waiting;
    WorkUpdate(s.tasks, id, s.tasks[id].(held := s.tasks[id].held + 1));
  }

  lemma LeaveWorks(s: State, limits: map<QueueId, nat>, id: nat)
    requires Enabled(s, limits, Leave(id))
    ensures Work(Next(s, limits, Leave(id)).tasks) + 1 == Work(s.tasks)
  {
    LeaveEffect(s, limits, id);
    hide Next, Work;
    if s.tasks[id].held == 1 {
      WorkSplit(s.tasks, id);
    } else {
      WorkUpdate(s.tasks, id, s.tasks[id].(held := s.tasks[id].held - 1));
    }
  }

  lemma SettleWorks(s: State, limits: map<QueueId, nat>, id: nat)
    requires Enabled(s, limits, Settle(id))
    ensures Work(Next(s, limits, Settle(id)).tasks) + 1 == Work(s.tasks)
  {
    hide Work;
    WorkUpdate(s.tasks, id, s.tasks[id].(settled := true));
  }

  /** Every step but an arrival does one unit of work. */
  lemma StepWorks(s: State, limits: map<QueueId, nat>, step: Step)
    requires Inv(s, limits) && Enabled(s, limits, step) && !step.Add?
    ensures Work(Next(s, limits, step).tasks) + 1 == Work(s.tasks)
  {
    hide Next, Inv, Work, Enabled;
    match step {
      case Start(q) => StartWorks(s, limits, q);
      case Settle(id) => SettleWorks(s, limits, id);
      case Leave(id) => LeaveWorks(s, limits, id);
    }
  }

  /** trace[0], trace[1], ... is a run by the steps. */
  ghost predicate IsRun(limits: map<QueueId, nat>, trace: seq<State>, steps: seq<Step>) {
    && |trace| == |steps| + 1
    && forall i :: 0 <= i < |steps| ==>
         Enabled(trace[i], limits, steps[i]) && Admissible(limits, steps[i]) && trace[i + 1] == Next(trace[i], limits, steps[i])
  }

  lemma {:induction false} RunOk(limits: map<QueueId, nat>, trace: seq<State>, steps: seq<Step>, i: nat)
    requires IsRun(limits, trace, steps) && Inv(trace[0], limits) && i < |trace|
    ensures Inv(trace[i], limits)
  {
    hide Next, Inv;
    if i > 0 {
      RunOk(limits, trace, steps, i - 1);
      StepOk(trace[i - 1], limits, steps[i - 1]);
    }
  }

  lemma {:induction false} RunWorks(limits: map<QueueId, nat>, trace: seq<State>, steps: seq<Step>, i: nat)
    requires IsRun(limits, trace, steps) && Inv(trace[0], limits) && i < |trace|
    requires forall k :: 0 <= k < |steps| ==> !steps[k].Add?
    ensures Work(trace[i].tasks) + i == Work(trace[0].tasks)
  {
    hide Next, Inv;
    if i > 0 {
      RunWorks(limits, trace, steps, i - 1);
      RunOk(limits, trace, steps, i - 1);
      StepWorks(trace[i - 1], limits, steps[i - 1]);
    }
  }

  /**
   Every admitted request is served: without further arrivals a run cannot be longer than the work
   in the system, and when it cannot go on, no task is left.
   */
  lemma RunsDrain(limits: map<QueueId, nat>, trace: seq<State>, steps: seq<Step>)
    requires IsRun(limits, trace, steps) && Inv(trace[0], limits)
    requires forall k :: 0 <= k < |steps| ==> !steps[k].Add?
    ensures |steps| <= Work(trace[0].tasks)
    ensures (forall step: Step :: !step.Add? ==> !Enabled(trace[|steps|], limits, step)) <==> trace[|steps|].tasks == map[]
    ensures trace[|steps|].tasks == map[] ==> |steps| == Work(trace[0].tasks)
  {
    var last := trace[|steps|];
    RunWorks(limits, trace, steps, |steps|);
    RunOk(limits, trace, steps, |steps|);
    if last.tasks != map[] {
      NoDeadlock(last, limits);
    } else {
      forall step: Step | !step.Add?
        ensures !Enabled(last, limits, step)
      {
      }
    }
  }

  /** The tenant's tasks that are in or past the shared queue. */
  function InOrPast(tasks: map<nat, Task>, client: string): set<nat> {
    set id | id in tasks && |tasks[id].path| > 0 && tasks[id].path[0] == TenantQueue(client) && tasks[id].held > 0
  }

  /** A tenant never has more than its concurrency in or past the shared queue. */
  lemma TenantShare(s: State, limits: map<QueueId, nat>, client: string)
    requires Inv(s, limits)
    ensures |InOrPast(s.tasks, client)| <= Limit(limits, TenantQueue(client))
  {
    var q := TenantQueue(client);
    assert QueueOk(s, limits, q);
    forall id | id in s.tasks
      ensures id in InOrPast(s.tasks, client) <==> id in SlotHolders(s.tasks, q)
    {
      var task := s.tasks[id];
      assert TaskOk(task, limits);
      if task.held > 0 {
        assert task.path[..task.held][0] == task.path[0];
        assert forall i :: 0 < i < task.held ==> Rank(task.path[0]) < Rank(task.path[i]);
      }
    }
    assert InOrPast(s.tasks, client) == SlotHolders(s.tasks, q);
  }

  /** All tasks come from these tenants and go through their queue and the shared one. */
  predicate FromTenants(s: State, clients: set<string>) {
    forall id :: id in s.tasks ==>
      var path := s.tasks[id].path;
      |path| >= 2 && path[0].TenantQueue? && path[0].client in clients && path[1] == SharedQueue
  }

  ghost function LimitSum(limits: map<QueueId, nat>, clients: set<string>): nat {
    if clients == {} then 0
    else
      var c :| c in clients;
      Limit(limits, TenantQueue(c)) + LimitSum(limits, clients - {c})
  }

  function AllInOrPast(tasks: map<nat, Task>, clients: set<string>): set<nat> {
    set id | id in tasks && |tasks[id].path| > 0 && tasks[id].held > 0 &&
             tasks[id].path[0].TenantQueue? && tasks[id].path[0].client in clients
  }

  lemma OneClientMore(tasks: map<nat, Task>, clients: set<string>, c: string)
    requires c in clients
    ensures AllInOrPast(tasks, clients) == AllInOrPast(tasks, clients - {c}) + InOrPast(tasks, c)
  {
  }

  lemma {:induction false} AllTenantsShare(s: State, limits: map<QueueId, nat>, clients: set<string>)
    requires Inv(s, limits)
    ensures |AllInOrPast(s.tasks, clients)| <= LimitSum(limits, clients)
  {
    hide Inv;
    if clients == {} {
      assert AllInOrPast(s.tasks, clients) == {};
    } else {
      var c :| c in clients && LimitSum(limits, clients) == Limit(limits, TenantQueue(c)) + LimitSum(limits, clients - {c});
      AllTenantsShare(s, limits, clients - {c});
      TenantShare(s, limits, c);
      OneClientMore(s.tasks, clients, c);
      hide AllInOrPast, InOrPast;
      UnionSize(AllInOrPast(s.tasks, clients - {c}), InOrPast(s.tasks, c));
    }
  }

  function Elements(ids: seq<nat>): set<nat> {
    set i | 0 <= i < |ids| :: ids[i]
  }

  lemma {:induction false} ElementsSize(ids: seq<nat>)
    requires NoDuplicates(ids)
    ensures |Elements(ids)| == |ids|
  {
    if ids != [] {
      ElementsSize(ids[1..]);
      assert Elements(ids) == {ids[0]} + Elements(ids[1..]) by {
        assert forall i :: 0 < i < |ids| ==> ids[i] == ids[1..][i - 1];
      }
      assert ids[0] !in Elements(ids[1..]);
    }
  }

  /** The shared queue with its running tasks never exceeds the sum of the tenants' limits. */
  lemma SharedQueueIsBounded(s: State, limits: map<QueueId, nat>, clients: set<string>)
    requires Inv(s, limits) && FromTenants(s, clients)
    ensures |Waiting(s, SharedQueue)| + Busy(s, SharedQueue) <= LimitSum(limits, clients)
  {
    assert QueueOk(s, limits, SharedQueue);
    var waiting := Elements(Waiting(s, SharedQueue));
    var holders := SlotHolders(s.tasks, SharedQueue);
    ElementsSize(Waiting(s, SharedQueue));
    forall id | id in waiting
      ensures id in AllInOrPast(s.tasks, clients) && id !in holders
    {
      assert id in Waiting(s, SharedQueue) && WaitsIn(s.tasks, id, SharedQueue);
      var task := s.tasks[id];
      assert TaskOk(task, limits);
      assert forall i :: 0 <= i < task.held ==> Rank(task.path[i]) < Rank(SharedQueue);
    }
    assert holders <= AllInOrPast(s.tasks, clients);
    assert |waiting + holders| == |waiting| + |holders|;
    SubsetSize(waiting + holders, AllInOrPast(s.tasks, clients));
    AllTenantsShare(s, limits, clients);
  }

  /** The tasks before a task in a list. */
  function Ahead(ids: seq<nat>, id: nat): nat
    requires id in ids
  {
    if ids[0] == id then 0 else 1 + Ahead(ids[1..], id)
  }

  lemma {:induction false} AheadAppend(ids: seq<nat>, more: seq<nat>, id: nat)
    requires id in ids
    ensures Ahead(ids + more, id) == Ahead(ids, id) < |ids|
  {
    if ids[0] != id {
      assert (ids + more)[1..] == ids[1..] + more;
      AheadAppend(ids[1..], more, id);
    }
  }

  /** A step leaves a list alone, takes its head or appends to it. */
  lemma StepIsFifo(s: State, limits: map<QueueId, nat>, step: Step, q: QueueId)
    requires Inv(s, limits) && Enabled(s, limits, step)
    ensures var before, after := Waiting(s, q), Waiting(Next(s, limits, step), q);
            var rest := if step == Start(q) then before[1..] else before;
            exists more :: after == rest + more
  {
    var before, after := Waiting(s, q), Waiting(Next(s, limits, step), q);
    var rest := if step == Start(q) then before[1..] else before;
    if after == rest {
      assert after == rest + [];
    } else {
      assert after == rest + [after[|after| - 1]];
    }
  }

  /** A started task does not wait in the same queue again. */
  lemma HeadLeaves(s: State, limits: map<QueueId, nat>, q: QueueId)
    requires Inv(s, limits) && Enabled(s, limits, Start(q))
    ensures Waiting(s, q)[0] !in Waiting(Next(s, limits, Start(q)), q)
  {
    var head := Waiting(s, q)[0];
    assert QueueOk(s, limits, q) && head in Waiting(s, q);
    assert WaitsIn(s.tasks, head, q) && TaskOk(s.tasks[head], limits);
    StartKeepsWaiting(s, limits, q, q);
  }

  /** First come, first served: while a task waits, its rank never rises and every start of its queue lowers it. */
  lemma RankOnlyFalls(s: State, limits: map<QueueId, nat>, step: Step, id: nat, q: QueueId)
    requires Inv(s, limits) && Enabled(s, limits, step)
    requires id in Waiting(s, q) && id in Waiting(Next(s, limits, step), q)
    ensures Ahead(Waiting(Next(s, limits, step), q), id) == Ahead(Waiting(s, q), id) - if step == Start(q) then 1 else 0
  {
    hide Next, Inv;
    var before, after := Waiting(s, q), Waiting(Next(s, limits, step), q);
    if step == Start(q) {
      HeadLeaves(s, limits, q);
    }
    StepIsFifo(s, limits, step, q);
    var rest := if step == Start(q) then before[1..] else before;
    var more :| after == rest + more;
    AheadAppend(rest, more, id);
  }

  /** The limit that ProviderLimiter runs a provider with. */
  function ProviderLimit(limits: map<QueueId, nat>, provider: nat): Option<nat> {
    if ProviderQueue(provider) in limits then Some(limits[ProviderQueue(provider)]) else None
  }

  /** The arrivals are those of chat-handler for the given tenants. */
  ghost predicate ByHandler(step: Step, limits: map<QueueId, nat>, clients: set<string>) {
    step.Add? ==> exists client, provider ::
      client in clients && step.path == PathOf(client, provider, ProviderLimit(limits, provider))
  }

  /** Every limit is positive, and the shared queue and the tenants' queues have one. */
  predicate Configured(limits: map<QueueId, nat>, clients: set<string>) {
    && (forall q :: q in limits ==> limits[q] > 0) && SharedQueue in limits
    && (forall client :: client in clients ==> TenantQueue(client) in limits)
  }

  lemma HandlerIsAdmissible(step: Step, limits: map<QueueId, nat>, clients: set<string>)
    requires ByHandler(step, limits, clients) && Configured(limits, clients)
    ensures Admissible(limits, step)
  {
    if step.Add? {
      var client, provider :| client in clients && step.path == PathOf(client, provider, ProviderLimit(limits, provider));
      PathsAreOrdered(client, provider, ProviderLimit(limits, provider));
    }
  }

  lemma FromTenantsKept(s: State, limits: map<QueueId, nat>, step: Step, clients: set<string>)
    requires FromTenants(s, clients) && Enabled(s, limits, step) && ByHandler(step, limits, clients)
    ensures FromTenants(Next(s, limits, step), clients)
  {
  }

  /** A task waiting for the shared queue has fewer than the sum of the tenants' limits before it. */
  lemma SharedRankIsBounded(s: State, limits: map<QueueId, nat>, clients: set<string>, id: nat)
    requires Inv(s, limits) && FromTenants(s, clients) && WaitsIn(s.tasks, id, SharedQueue)
    ensures id in Waiting(s, SharedQueue)
    ensures Ahead(Waiting(s, SharedQueue), id) + Busy(s, SharedQueue) < LimitSum(limits, clients)
  {
    assert QueueOk(s, limits, SharedQueue);
    AheadAppend(Waiting(s, SharedQueue), [], id);
    assert Waiting(s, SharedQueue) + [] == Waiting(s, SharedQueue);
    SharedQueueIsBounded(s, limits, clients);
  }

  /** A run of the service: from no task at all, with the handler's arrivals. */
  ghost predicate HandlerRun(limits: map<QueueId, nat>, clients: set<string>, trace: seq<State>, steps: seq<Step>) {
    && |trace| == |steps| + 1 && trace[0] == IDLE
    && forall i :: 0 <= i < |steps| ==> HandlerStep(limits, clients, trace[i], steps[i], trace[i + 1])
  }

  ghost predicate HandlerStep(limits: map<QueueId, nat>, clients: set<string>, s: State, step: Step, t: State) {
    Enabled(s, limits, step) && ByHandler(step, limits, clients) && t == Next(s, limits, step)
  }

  lemma {:induction false} HandlerRunOk(limits: map<QueueId, nat>, clients: set<string>, trace: seq<State>, steps: seq<Step>, i: nat)
    requires Configured(limits, clients) && HandlerRun(limits, clients, trace, steps) && i < |trace|
    ensures Inv(trace[i], limits) && FromTenants(trace[i], clients)
  {
    hide Next, Inv, ByHandler, Configured, FromTenants, Enabled;
    if i == 0 {
      IdleOk(limits);
      IdleFromTenants(clients);
    } else {
      HandlerRunOk(limits, clients, trace, steps, i - 1);
      assert HandlerStep(limits, clients, trace[i - 1], steps[i - 1], trace[i - 1 + 1]);
      HandlerIsAdmissible(steps[i - 1], limits, clients);
      StepOk(trace[i - 1], limits, steps[i - 1]);
      FromTenantsKept(trace[i - 1], limits, steps[i - 1], clients);
    }
  }

  lemma IdleFromTenants(clients: set<string>)
    ensures FromTenants(IDLE, clients)
  {
  }

  /**
   Fairness in every state that the service reaches: no tenant has more than its concurrency in or past
   the shared queue, which therefore holds at most the sum of the tenants' limits, before any waiting
   task fewer than that; and while a task is in the system some task can move on.
   */
  lemma ServiceIsFair(limits: map<QueueId, nat>, clients: set<string>, trace: seq<State>, steps: seq<Step>, i: nat)
    requires Configured(limits, clients) && HandlerRun(limits, clients, trace, steps) && i < |trace|
    ensures var s := trace[i];
            && (forall client :: |InOrPast(s.tasks, client)| <= Limit(limits, TenantQueue(client)))
            && |Waiting(s, SharedQueue)| + Busy(s, SharedQueue) <= LimitSum(limits, clients)
            && (forall id :: WaitsIn(s.tasks, id, SharedQueue) ==>
                  && id in Waiting(s, SharedQueue)
                  && Ahead(Waiting(s, SharedQueue), id) + Busy(s, SharedQueue) < LimitSum(limits, clients))
            && (s.tasks != map[] ==> exists step: Step :: !step.Add? && Enabled(s, limits, step))
  {
    hide Inv, FromTenants, InOrPast, Configured, HandlerRun, Enabled;
    var s := trace[i];
    HandlerRunOk(limits, clients, trace, steps, i);
    forall client
      ensures |InOrPast(s.tasks, client)| <= Limit(limits, TenantQueue(client))
    {
      TenantShare(s, limits, client);
    }
    SharedQueueIsBounded(s, limits, clients);
    forall id | WaitsIn(s.tasks, id, SharedQueue)
      ensures id in Waiting(s, SharedQueue)
      ensures Ahead(Waiting(s, SharedQueue), id) + Busy(s, SharedQueue) < LimitSum(limits, clients)
    {
      SharedRankIsBounded(s, limits, clients, id);
    }
    if s.tasks != map[] {
      NoDeadlock(s, limits);
    }
  }

  /** How often a queue started a task between two states of a run. */
  function StartsOf(steps: seq<Step>, q: QueueId, i: nat, j: nat): nat
    requires i <= j <= |steps|
  {
    if i == j then 0 else StartsOf(steps, q, i, j - 1) + if steps[j - 1] == Start(q) then 1 else 0
  }

  /** First come, first served over the run: as long as a task waits, its rank falls by the queue's starts and never rises. */
  lemma {:induction false} RankFallsOverRun(limits: map<QueueId, nat>, clients: set<string>, trace: seq<State>, steps: seq<Step>,
                                           id: nat, q: QueueId, i: nat, j: nat)
    requires Configured(limits, clients) && HandlerRun(limits, clients, trace, steps) && i <= j < |trace|
    requires forall k :: i <= k <= j ==> id in Waiting(trace[k], q)
    ensures Ahead(Waiting(trace[j], q), id) + StartsOf(steps, q, i, j) == Ahead(Waiting(trace[i], q), id)
    decreases j
  {
    hide Next, Inv, ByHandler, Configured, Enabled, Ahead, Waiting;
    if i < j {
      RankFallsOverRun(limits, clients, trace, steps, id, q, i, j - 1);
      HandlerRunOk(limits, clients, trace, steps, j - 1);
      assert HandlerStep(limits, clients, trace[j - 1], steps[j - 1], trace[j - 1 + 1]);
      RankOnlyFalls(trace[j - 1], limits, steps[j - 1], id, q);
    }
  }

  /** `n` requests of the fallback arrive, then each of them is started once. */
  function FallbackSteps(n: nat, path: seq<QueueId>): (steps: seq<Step>)
    ensures |steps| == 2 * n
  {
    seq(2 * n, i requires 0 <= i < 2 * n => if i < n then Add(i, path) else Start(SharedQueue))
  }

  /** The tasks 0 to k - 1 in order, those before `i` behind the others. */
  function Turned(k: nat, i: nat): seq<nat>
    requires i <= k
  {
    seq(k, j requires 0 <= j < k => if i + j < k then i + j else i + j - k)
  }

  lemma TurnedIds(k: nat)
    ensures forall id: nat :: id in Turned(k, 0) <==> id < k
  {
    forall id: nat | id < k
      ensures id in Turned(k, 0)
    {
      assert Turned(k, 0)[id] == id;
    }
  }

  /** `k` requests have arrived, the first `started` of them hold a slot and wait again. */
  function Arrived(k: nat, started: nat, path: seq<QueueId>): State
    requires started <= k
  {
    State(map id | id in Turned(k, 0) :: Task(path, if id < started then 1 else 0, false),
          if k == 0 then map[] else map[SharedQueue := Turned(k, started)],
          if started == 0 then map[] else map[SharedQueue := started])
  }

  function FallbackTrace(n: nat, path: seq<QueueId>): (trace: seq<State>)
    ensures |trace| == 2 * n + 1
  {
    seq(2 * n + 1, i requires 0 <= i <= 2 * n => if i <= n then Arrived(i, 0, path) else Arrived(n, i - n, path))
  }

  lemma OneMoreArrived(limits: map<QueueId, nat>, k: nat, provider: nat, limit: Option<nat>)
    ensures var s, add := Arrived(k, 0, FallbackPath(provider, limit)), Add(k, FallbackPath(provider, limit));
            Enabled(s, limits, add) && Next(s, limits, add) == Arrived(k + 1, 0, FallbackPath(provider, limit))
  {
    var path := FallbackPath(provider, limit);
    var s := Arrived(k, 0, path);
    TurnedIds(k);
    TurnedIds(k + 1);
    assert Waiting(s, SharedQueue) + [k] == Turned(k + 1, 0);
    assert s.tasks[k := Task(path, 0, false)] == Arrived(k + 1, 0, path).tasks;
  }

  lemma OneMoreStarted(limits: map<QueueId, nat>, n: nat, i: nat, provider: nat, limit: Option<nat>)
    requires i < n == Limit(limits, SharedQueue)
    ensures var s := Arrived(n, i, FallbackPath(provider, limit));
            && Enabled(s, limits, Start(SharedQueue))
            && Next(s, limits, Start(SharedQueue)) == Arrived(n, i + 1, FallbackPath(provider, limit))
  {
    var path := FallbackPath(provider, limit);
    var s := Arrived(n, i, path);
    TurnedIds(n);
    assert Waiting(s, SharedQueue)[0] == i;
    assert s.tasks[i := Task(path, 1, false)] == Arrived(n, i + 1, path).tasks;
    assert Waiting(s, SharedQueue)[1..] + [i] == Turned(n, i + 1);
  }

  /** When as many tasks as there are slots hold one and wait for a second, nothing moves any more. */
  lemma AllStuck(limits: map<QueueId, nat>, n: nat, provider: nat, limit: Option<nat>)
    requires n == Limit(limits, SharedQueue) > 0
    ensures var stuck := Arrived(n, n, FallbackPath(provider, limit));
            stuck.tasks != map[] && forall step: Step :: !step.Add? ==> !Enabled(stuck, limits, step)
  {
    var stuck := Arrived(n, n, FallbackPath(provider, limit));
    TurnedIds(n);
    assert 0 in stuck.tasks;
    assert Busy(stuck, SharedQueue) == n;
    assert forall q :: q != SharedQueue ==> Waiting(stuck, q) == [];
  }

  lemma FallbackMoves(limits: map<QueueId, nat>, n: nat, i: nat, provider: nat, limit: Option<nat>)
    requires n == Limit(limits, SharedQueue) && i < 2 * n
    ensures var path := FallbackPath(provider, limit);
            var trace, step := FallbackTrace(n, path), FallbackSteps(n, path)[i];
            Enabled(trace[i], limits, step) && trace[i + 1] == Next(trace[i], limits, step)
  {
    hide Enabled, Next, Arrived, FallbackPath;
    if i < n {
      OneMoreArrived(limits, i, provider, limit);
    } else {
      OneMoreStarted(limits, n, i - n, provider, limit);
    }
  }

  /**
   The fallback nests the shared queue in itself. Whatever the queue's limit, as many of its requests,
   each started once, hold all the slots and wait for one another: none of them can ever move again.
   */
  lemma FallbackDeadlocks(limits: map<QueueId, nat>, provider: nat, limit: Option<nat>)
    requires Limit(limits, SharedQueue) > 0
    ensures var n, path := Limit(limits, SharedQueue), FallbackPath(provider, limit);
            var trace, steps := FallbackTrace(n, path), FallbackSteps(n, path);
            && trace[0] == IDLE && (forall id: nat :: id in trace[|steps|].tasks <==> id < n)
            && (forall i :: 0 <= i < |steps| ==> Enabled(trace[i], limits, steps[i]) && trace[i + 1] == Next(trace[i], limits, steps[i]))
            && forall step: Step :: !step.Add? ==> !Enabled(trace[|steps|], limits, step)
  {
    var n, path := Limit(limits, SharedQueue), FallbackPath(provider, limit);
    var trace, steps := FallbackTrace(n, path), FallbackSteps(n, path);
    AllStuck(limits, n, provider, limit);
    TurnedIds(n);
    assert Arrived(0, 0, path) == IDLE;
    assert trace[|steps|] == Arrived(n, n, path);
    hide Enabled, Next, Turned, FallbackPath, FallbackTrace, FallbackSteps;
    forall i | 0 <= i < |steps|
      ensures Enabled(trace[i], limits, steps[i]) && trace[i + 1] == Next(trace[i], limits, steps[i])
    {
      FallbackMoves(limits, n, i, provider, limit);
    }
  }
}
