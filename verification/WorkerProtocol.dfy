/** The driver, worker and result-handler protocol (multiproc_worker_utils.py) as a
    state machine: any number of enqueuers and workers and one handler, taking
    their atomic steps in any order. */
module WorkerProtocol {
  import opened Outcome

  type TaskId = nat
  type FutureId = nat

  datatype Call = Call(name: string, args: string)
  /** What running a call gave: a value or an exception. */
  datatype Answer = Value(value: string) | Raised(exception: string)

  datatype Task = Task(id: TaskId, call: Call) | StopWork
  datatype ResultMsg = ResultMsg(id: TaskId, answer: Answer) | StopHandling

  datatype Phase = Idle | Executing(id: TaskId, call: Call) | Reporting(id: TaskId, answer: Answer) | Exited
  datatype Worker = Worker(queue: seq<Task>, phase: Phase)

  /** A call on its way into a worker's queue: registered, not yet put. */
  datatype Entering = Entering(worker: nat, call: Call)
  /** A result the handler has taken and whose future it has popped. */
  datatype Handling = Handling(id: TaskId, future: FutureId, answer: Answer)
  datatype Handler = Running | Stopped | Crashed

  datatype Registration = Registration(future: FutureId, worker: nat, call: Call)
  datatype Run = Run(worker: nat, call: Call, answer: Answer)

  datatype State = State(
    tasks: map<TaskId, FutureId>,
    entering: map<TaskId, Entering>,
    workers: seq<Worker>,
    results: seq<ResultMsg>,
    handler: Handler,
    handling: Option<Handling>,
    resolved: map<FutureId, Answer>,
    // What happened so far: registrations, failed puts, completed runs, and the
    // tasks that a worker took with it when it exited.
    registered: map<TaskId, Registration>,
    failed: set<TaskId>,
    ran: map<TaskId, Run>,
    lost: set<TaskId>)

  datatype Step =
    | Register(id: TaskId, future: FutureId, worker: nat, call: Call)
    | Put(id: TaskId)
    | PutFails(id: TaskId)
    | Take(worker: nat)
    | Execute(worker: nat, answer: Answer)
    | Report(worker: nat)
    | Exit(worker: nat)
    | SendStop(worker: nat)
    | HandlerTake
    | HandlerResolve
    | Close

  /** Task ids are never reused, and each call gets a future of its own. */
  ghost predicate Fresh(s: State, id: TaskId, future: FutureId) {
    id !in s.registered && forall i :: i in s.registered ==> s.registered[i].future != future
  }

  ghost predicate Enabled(s: State, step: Step) {
    match step
    case Register(id, future, w, call) => Fresh(s, id, future) && w < |s.workers|
    case Put(id) => id in s.entering && s.entering[id].worker < |s.workers|
    case PutFails(id) => id in s.entering
    case Take(w) => w < |s.workers| && s.workers[w].phase.Idle? && |s.workers[w].queue| > 0
    case Execute(w, answer) => w < |s.workers| && s.workers[w].phase.Executing?
    case Report(w) => w < |s.workers| && s.workers[w].phase.Reporting?
    case Exit(w) => w < |s.workers| && !s.workers[w].phase.Exited?
    case SendStop(w) => w < |s.workers|
    case HandlerTake => s.handler.Running? && s.handling.None? && |s.results| > 0
    case HandlerResolve => s.handling.Some?
    case Close => true
  }

  function Without<V>(m: map<TaskId, V>, id: TaskId): (r: map<TaskId, V>)
    ensures forall i :: i in r <==> i in m && i != id
    ensures forall i :: i in r ==> r[i] == m[i]
  {
    m - {id}
  }

  function WithWorker(s: State, w: nat, worker: Worker): State
    requires w < |s.workers|
  {
    s.(workers := s.workers[w := worker])
  }

  // The atomic steps.

  /** The driver registers a future under a new id, before anything is queued. */
  function AfterRegister(s: State, id: TaskId, future: FutureId, w: nat, call: Call): State {
    s.(tasks := s.tasks[id := future],
       entering := s.entering[id := Entering(w, call)],
       registered := s.registered[id := Registration(future, w, call)])
  }

  function AfterPut(s: State, id: TaskId): State
    requires id in s.entering && s.entering[id].worker < |s.workers|
  {
    var e := s.entering[id];
    var worker := s.workers[e.worker];
    WithWorker(s, e.worker, worker.(queue := worker.queue + [Task(id, e.call)])).(entering := Without(s.entering, id))
  }

  function AfterPutFails(s: State, id: TaskId): State {
    s.(tasks := Without(s.tasks, id), entering := Without(s.entering, id), failed := s.failed + {id})
  }

  function AfterTake(s: State, w: nat): State
    requires w < |s.workers| && |s.workers[w].queue| > 0
  {
    var worker := s.workers[w];
    var phase := if worker.queue[0].StopWork? then Exited else Executing(worker.queue[0].id, worker.queue[0].call);
    WithWorker(s, w, Worker(worker.queue[1..], phase))
  }

  function AfterExecute(s: State, w: nat, answer: Answer): State
    requires w < |s.workers| && s.workers[w].phase.Executing?
  {
    var worker := s.workers[w];
    var id := worker.phase.id;
    WithWorker(s, w, worker.(phase := Reporting(id, answer))).(ran := s.ran[id := Run(w, worker.phase.call, answer)])
  }

  function AfterReport(s: State, w: nat): State
    requires w < |s.workers| && s.workers[w].phase.Reporting?
  {
    var worker := s.workers[w];
    WithWorker(s, w, worker.(phase := Idle)).(results := s.results + [ResultMsg(worker.phase.id, worker.phase.answer)])
  }

  /** An exiting worker takes the task it holds with it. */
  function AfterExit(s: State, w: nat): State
    requires w < |s.workers|
  {
    var worker := s.workers[w];
    var dropped := if worker.phase.Idle? || worker.phase.Exited? then {} else {worker.phase.id};
    WithWorker(s, w, worker.(phase := Exited)).(lost := s.lost + dropped)
  }

  function AfterSendStop(s: State, w: nat): State
    requires w < |s.workers|
  {
    var worker := s.workers[w];
    WithWorker(s, w, worker.(queue := worker.queue + [StopWork]))
  }

  /** The handler pops the future of the next result; a miss would end its thread. */
  function AfterHandlerTake(s: State): State
    requires |s.results| > 0
  {
    var rest := s.(results := s.results[1..]);
    if s.results[0].StopHandling? then rest.(handler := Stopped)
    else if s.results[0].id !in s.tasks then rest.(handler := Crashed)
    else
      var id := s.results[0].id;
      rest.(tasks := Without(s.tasks, id), handling := Some(Handling(id, s.tasks[id], s.results[0].answer)))
  }

  function AfterResolve(s: State): State
    requires s.handling.Some?
  {
    s.(resolved := s.resolved[s.handling.value.future := s.handling.value.answer], handling := None)
  }

  function AfterClose(s: State): State {
    s.(results := s.results + [StopHandling])
  }

  ghost function Next(s: State, step: Step): State
    requires Enabled(s, step)
  {
    match step
    case Register(id, future, w, call) => AfterRegister(s, id, future, w, call)
    case Put(id) => AfterPut(s, id)
    case PutFails(id) => AfterPutFails(s, id)
    case Take(w) => AfterTake(s, w)
    case Execute(w, answer) => AfterExecute(s, w, answer)
    case Report(w) => AfterReport(s, w)
    case Exit(w) => AfterExit(s, w)
    case SendStop(w) => AfterSendStop(s, w)
    case HandlerTake => AfterHandlerTake(s)
    case HandlerResolve => AfterResolve(s)
    case Close => AfterClose(s)
  }

  ghost predicate Initial(s: State) {
    && s.tasks == map[] && s.entering == map[] && s.results == [] && s.handler.Running? && s.handling.None?
    && s.resolved == map[] && s.registered == map[] && s.failed == {} && s.ran == map[] && s.lost == {}
    && forall w :: 0 <= w < |s.workers| ==> s.workers[w] == Worker([], Idle)
  }

  // ---------------------------------------------------------------------
  // Where a task id is
  // ---------------------------------------------------------------------

  function QueuedCount(queue: seq<Task>, id: TaskId): nat {
    if |queue| == 0 then 0
    else (if queue[0].Task? && queue[0].id == id then 1 else 0) + QueuedCount(queue[1..], id)
  }

  function PhaseCount(phase: Phase, id: TaskId): nat {
    if (phase.Executing? || phase.Reporting?) && phase.id == id then 1 else 0
  }

  function WorkerCount(worker: Worker, id: TaskId): nat {
    QueuedCount(worker.queue, id) + PhaseCount(worker.phase, id)
  }

  function WorkersCount(workers: seq<Worker>, id: TaskId): nat {
    if |workers| == 0 then 0
    else WorkersCount(workers[..|workers| - 1], id) + WorkerCount(workers[|workers| - 1], id)
  }

  function ResultCount(results: seq<ResultMsg>, id: TaskId): nat {
    if |results| == 0 then 0
    else (if results[0].ResultMsg? && results[0].id == id then 1 else 0) + ResultCount(results[1..], id)
  }

  /** In how many places the task is: entering, queued, executing or being
      reported, in the result queue, lost with a worker. */
  ghost function Places(s: State, id: TaskId): nat {
    (if id in s.entering then 1 else 0) + WorkersCount(s.workers, id) + ResultCount(s.results, id)
    + if id in s.lost then 1 else 0
  }

  /** An id is in exactly one place if it is registered, in none otherwise. */
  ghost predicate PlacedAt(s: State, id: TaskId) {
    Places(s, id) == if id in s.tasks then 1 else 0
  }

  /** A registered task is in exactly one place, and nothing else is anywhere. */
  ghost predicate Partitioned(s: State) {
    forall id :: PlacedAt(s, id)
  }

  lemma {:induction false} QueuedAppend(queue: seq<Task>, t: Task, id: TaskId)
    ensures QueuedCount(queue + [t], id) == QueuedCount(queue, id) + if t.Task? && t.id == id then 1 else 0
  {
    if |queue| == 0 {
      assert (queue + [t])[1..] == [];
    } else {
      QueuedAppend(queue[1..], t, id);
      assert (queue + [t])[1..] == queue[1..] + [t];
    }
  }

  lemma {:induction false} ResultAppend(results: seq<ResultMsg>, r: ResultMsg, id: TaskId)
    ensures ResultCount(results + [r], id) == ResultCount(results, id) + if r.ResultMsg? && r.id == id then 1 else 0
  {
    if |results| == 0 {
      assert (results + [r])[1..] == [];
    } else {
      ResultAppend(results[1..], r, id);
      assert (results + [r])[1..] == results[1..] + [r];
    }
  }

  lemma {:induction false} WorkerReplaced(workers: seq<Worker>, w: nat, worker: Worker, id: TaskId)
    requires w < |workers|
    ensures WorkersCount(workers, id) >= WorkerCount(workers[w], id)
    ensures WorkersCount(workers[w := worker], id) == WorkersCount(workers, id) - WorkerCount(workers[w], id) + WorkerCount(worker, id)
  {
    var n := |workers| - 1;
    if w < n {
      WorkerReplaced(workers[..n], w, worker, id);
      assert workers[w := worker][..n] == workers[..n][w := worker];
    } else {
      assert workers[w := worker][..n] == workers[..n];
    }
  }

  // ---------------------------------------------------------------------
  // The invariant
  // ---------------------------------------------------------------------

  /** The task belongs to worker w and has not run. */
  ghost predicate TaskOk(s: State, w: nat, t: Task) {
    t.Task? ==>
      t.id in s.registered && s.registered[t.id].worker == w && s.registered[t.id].call == t.call && t.id !in s.ran
  }

  ghost predicate AnswerOk(s: State, id: TaskId, answer: Answer) {
    id in s.registered && id in s.ran && s.ran[id] == Run(s.registered[id].worker, s.registered[id].call, answer)
  }

  ghost predicate WorkerOk(s: State, w: nat, worker: Worker) {
    && (forall i :: 0 <= i < |worker.queue| ==> TaskOk(s, w, worker.queue[i]))
    && (worker.phase.Executing? ==> TaskOk(s, w, Task(worker.phase.id, worker.phase.call)))
    && (worker.phase.Reporting? ==> AnswerOk(s, worker.phase.id, worker.phase.answer) && s.registered[worker.phase.id].worker == w)
  }

  /** Every message carries the call that was registered under its id, or the
      answer that running this call gave, and is with the worker it was
      registered for. */
  ghost predicate Carried(s: State) {
    && EnteringOk(s) && ResultsOk(s)
    && (forall id :: id in s.ran ==> id in s.registered)
    && (forall w :: 0 <= w < |s.workers| ==> WorkerOk(s, w, s.workers[w]))
  }

  ghost predicate EnteringOk(s: State) {
    forall id :: id in s.entering ==>
      && id in s.registered && s.registered[id].call == s.entering[id].call
      && s.registered[id].worker == s.entering[id].worker < |s.workers| && id !in s.ran
  }

  ghost predicate ResultsOk(s: State) {
    && (forall i :: 0 <= i < |s.results| && s.results[i].ResultMsg? ==> AnswerOk(s, s.results[i].id, s.results[i].answer))
    && (s.handling.Some? ==> AnswerOk(s, s.handling.value.id, s.handling.value.answer))
  }

  /** How the call registered under id stands. */
  ghost predicate Standing(s: State, id: TaskId)
    requires id in s.registered
  {
    var future := s.registered[id].future;
    if id in s.tasks then s.tasks[id] == future && future !in s.resolved && id !in s.failed
    else if id in s.failed then future !in s.resolved
    else if s.handling.Some? && s.handling.value.id == id then s.handling.value.future == future && future !in s.resolved
    else future in s.resolved && AnswerOk(s, id, s.resolved[future])
  }

  ghost predicate Owned(s: State, f: FutureId) {
    exists id :: id in s.registered && s.registered[id].future == f
  }

  ghost predicate Accounted(s: State) {
    && (forall id :: id in s.registered ==> Standing(s, id))
    && (forall id :: id in s.tasks || id in s.failed ==> id in s.registered)
    && (forall i, j :: i in s.registered && j in s.registered && i != j ==> s.registered[i].future != s.registered[j].future)
    && (forall f :: f in s.resolved ==> Owned(s, f))
    && (s.handling.Some? ==> s.handling.value.id in s.registered && s.handling.value.id !in s.tasks && s.handling.value.id !in s.failed)
  }

  ghost predicate Inv(s: State) {
    Partitioned(s) && Carried(s) && Accounted(s) && !s.handler.Crashed?
  }

  lemma {:induction false} IdleCount(workers: seq<Worker>, id: TaskId)
    requires forall w :: 0 <= w < |workers| ==> workers[w] == Worker([], Idle)
    ensures WorkersCount(workers, id) == 0
  {
    if |workers| > 0 {
      IdleCount(workers[..|workers| - 1], id);
    }
  }

  lemma InitialInv(s: State)
    requires Initial(s)
    ensures Inv(s)
  {
    forall id
      ensures Places(s, id) == 0
    {
      IdleCount(s.workers, id);
    }
  }

  // ---------------------------------------------------------------------
  // Each step keeps the partition
  // ---------------------------------------------------------------------

  /** A result at the head of the queue is in a place, so its task is registered. */
  lemma HeadMustBeRegistered(s: State)
    requires Partitioned(s) && |s.results| > 0
    ensures s.results[0].ResultMsg? ==> s.results[0].id in s.tasks
  {
    if s.results[0].ResultMsg? {
      assert PlacedAt(s, s.results[0].id);
    }
  }

  lemma EnteringIsRegistered(s: State, id: TaskId)
    requires Partitioned(s) && id in s.entering
    ensures id in s.tasks
  {
    assert PlacedAt(s, id);
  }

  /** Entering and leaving the driver's side. */
  lemma PlacesRegister(s: State, i: TaskId, future: FutureId, w: nat, call: Call, id: TaskId)
    requires PlacedAt(s, id) && Accounted(s) && i !in s.registered
    ensures PlacedAt(AfterRegister(s, i, future, w, call), id)
  {
    hide WorkersCount, ResultCount;
  }

  lemma PlacesPutFails(s: State, i: TaskId, id: TaskId)
    requires PlacedAt(s, id) && i in s.entering && i in s.tasks
    ensures PlacedAt(AfterPutFails(s, i), id)
  {
    hide WorkersCount, ResultCount;
  }

  lemma PlacesPut(s: State, i: TaskId, id: TaskId)
    requires PlacedAt(s, id) && i in s.entering && s.entering[i].worker < |s.workers|
    ensures PlacedAt(AfterPut(s, i), id)
  {
    hide WorkersCount, ResultCount, QueuedCount;
    var w, t := s.entering[i].worker, Task(i, s.entering[i].call);
    WorkerReplaced(s.workers, w, s.workers[w].(queue := s.workers[w].queue + [t]), id);
    QueuedAppend(s.workers[w].queue, t, id);
  }

  lemma PlacesSendStop(s: State, w: nat, id: TaskId)
    requires PlacedAt(s, id) && w < |s.workers|
    ensures PlacedAt(AfterSendStop(s, w), id)
  {
    hide WorkersCount, ResultCount, QueuedCount;
    WorkerReplaced(s.workers, w, s.workers[w].(queue := s.workers[w].queue + [StopWork]), id);
    QueuedAppend(s.workers[w].queue, StopWork, id);
  }

  lemma PlacesTake(s: State, w: nat, id: TaskId)
    requires PlacedAt(s, id) && w < |s.workers| && s.workers[w].phase.Idle? && |s.workers[w].queue| > 0
    ensures PlacedAt(AfterTake(s, w), id)
  {
    hide WorkersCount, ResultCount;
    WorkerReplaced(s.workers, w, AfterTake(s, w).workers[w], id);
  }

  lemma PlacesExecute(s: State, w: nat, answer: Answer, id: TaskId)
    requires PlacedAt(s, id) && w < |s.workers| && s.workers[w].phase.Executing?
    ensures PlacedAt(AfterExecute(s, w, answer), id)
  {
    hide WorkersCount, ResultCount, QueuedCount;
    WorkerReplaced(s.workers, w, AfterExecute(s, w, answer).workers[w], id);
  }

  lemma PlacesReport(s: State, w: nat, id: TaskId)
    requires PlacedAt(s, id) && w < |s.workers| && s.workers[w].phase.Reporting?
    ensures PlacedAt(AfterReport(s, w), id)
  {
    hide WorkersCount, ResultCount, QueuedCount;
    WorkerReplaced(s.workers, w, AfterReport(s, w).workers[w], id);
    ResultAppend(s.results, ResultMsg(s.workers[w].phase.id, s.workers[w].phase.answer), id);
  }

  /** A task that a worker holds is in no second place. */
  lemma HeldNotLost(s: State, w: nat, id: TaskId)
    requires Partitioned(s) && w < |s.workers| && PhaseCount(s.workers[w].phase, id) == 1
    ensures id !in s.lost && id !in s.entering
  {
    hide WorkersCount, ResultCount, QueuedCount;
    WorkerReplaced(s.workers, w, s.workers[w], id);
    assert PlacedAt(s, id);
  }

  lemma PlacesExit(s: State, w: nat, id: TaskId)
    requires Partitioned(s) && w < |s.workers| && !s.workers[w].phase.Exited?
    ensures PlacedAt(AfterExit(s, w), id)
  {
    hide WorkersCount, ResultCount, QueuedCount;
    assert PlacedAt(s, id);
    WorkerReplaced(s.workers, w, AfterExit(s, w).workers[w], id);
    if !s.workers[w].phase.Idle? {
      HeldNotLost(s, w, s.workers[w].phase.id);
    }
  }

  lemma PlacesHandlerTake(s: State, id: TaskId)
    requires Partitioned(s) && |s.results| > 0
    ensures PlacedAt(AfterHandlerTake(s), id)
  {
    hide WorkersCount;
    assert PlacedAt(s, id);
    HeadMustBeRegistered(s);
  }

  lemma PlacesClose(s: State, id: TaskId)
    requires PlacedAt(s, id)
    ensures PlacedAt(AfterClose(s), id)
  {
    hide WorkersCount, ResultCount;
    ResultAppend(s.results, StopHandling, id);
  }

  lemma PlacedNext(s: State, step: Step, id: TaskId)
    requires Partitioned(s) && Accounted(s) && Enabled(s, step)
    ensures PlacedAt(Next(s, step), id)
  {
    hide Accounted, Places;
    assert PlacedAt(s, id);
    match step
    case Register(i, future, w, call) => PlacesRegister(s, i, future, w, call, id);
    case Put(i) => PlacesPut(s, i, id);
    case PutFails(i) => EnteringIsRegistered(s, i); PlacesPutFails(s, i, id);
    case Take(w) => PlacesTake(s, w, id);
    case Execute(w, answer) => PlacesExecute(s, w, answer, id);
    case Report(w) => PlacesReport(s, w, id);
    case Exit(w) => PlacesExit(s, w, id);
    case SendStop(w) => PlacesSendStop(s, w, id);
    case HandlerTake => PlacesHandlerTake(s, id);
    case HandlerResolve => ResolvePlaces(s, id);
    case Close => PlacesClose(s, id);
  }

  lemma ResolvePlaces(s: State, id: TaskId)
    requires PlacedAt(s, id) && s.handling.Some?
    ensures PlacedAt(AfterResolve(s), id)
  {
    hide WorkersCount, ResultCount;
  }

  lemma PartitionNext(s: State, step: Step)
    requires Inv(s) && Enabled(s, step)
    ensures Partitioned(Next(s, step))
  {
    hide Carried, Accounted, Places, Enabled, Next;
    forall id
      ensures PlacedAt(Next(s, step), id)
    {
      PlacedNext(s, step, id);
    }
  }

  // ---------------------------------------------------------------------
  // Each step keeps the contents right
  // ---------------------------------------------------------------------

  lemma {:induction false} ResultCounted(results: seq<ResultMsg>, i: nat, id: TaskId)
    requires i < |results| && results[i].ResultMsg? && results[i].id == id
    ensures ResultCount(results, id) >= 1
  {
    if i > 0 {
      ResultCounted(results[1..], i - 1, id);
    }
  }

  lemma TwoHolders(workers: seq<Worker>, v: nat, w: nat, id: TaskId)
    requires v < |workers| && w < |workers| && v != w
    requires PhaseCount(workers[v].phase, id) == 1 && PhaseCount(workers[w].phase, id) == 1
    ensures WorkersCount(workers, id) >= 2
  {
    hide WorkersCount;
    var without := workers[v := Worker([], Idle)];
    WorkerReplaced(workers, v, Worker([], Idle), id);
    WorkerReplaced(without, w, without[w], id);
  }

  ghost predicate NoAnswerFor(s: State, id: TaskId) {
    && (forall v :: 0 <= v < |s.workers| && s.workers[v].phase.Reporting? ==> s.workers[v].phase.id != id)
    && (forall i :: 0 <= i < |s.results| && s.results[i].ResultMsg? ==> s.results[i].id != id)
    && (s.handling.Some? ==> s.handling.value.id != id)
  }

  /** While a task executes, no answer under its id is about. */
  lemma NoOtherAnswer(s: State, w: nat)
    requires Partitioned(s) && Accounted(s) && w < |s.workers| && s.workers[w].phase.Executing?
    ensures s.workers[w].phase.id in s.tasks && NoAnswerFor(s, s.workers[w].phase.id)
  {
    hide WorkersCount, ResultCount, Standing;
    var id := s.workers[w].phase.id;
    WorkerReplaced(s.workers, w, s.workers[w], id);
    assert PlacedAt(s, id);
    forall v | 0 <= v < |s.workers| && s.workers[v].phase.Reporting?
      ensures s.workers[v].phase.id != id
    {
      if s.workers[v].phase.id == id {
        TwoHolders(s.workers, v, w, id);
      }
    }
    forall i | 0 <= i < |s.results| && s.results[i].ResultMsg?
      ensures s.results[i].id != id
    {
      if s.results[i].id == id {
        ResultCounted(s.results, i, id);
      }
    }
  }

  /** No task under this id is waiting, nor executing on another worker. */
  ghost predicate NoTaskFor(s: State, w: nat, id: TaskId) {
    && id !in s.entering
    && (forall v, i :: 0 <= v < |s.workers| && 0 <= i < |s.workers[v].queue| && s.workers[v].queue[i].Task? ==>
          s.workers[v].queue[i].id != id)
    && forall v :: 0 <= v < |s.workers| && v != w && s.workers[v].phase.Executing? ==> s.workers[v].phase.id != id
  }

  lemma {:induction false} QueuedCounted(queue: seq<Task>, i: nat, id: TaskId)
    requires i < |queue| && queue[i].Task? && queue[i].id == id
    ensures QueuedCount(queue, id) >= 1
  {
    if i > 0 {
      QueuedCounted(queue[1..], i - 1, id);
    }
  }

  /** A waiting task and an executing one would be two places. */
  lemma QueuedAndHeld(workers: seq<Worker>, v: nat, i: nat, w: nat, id: TaskId)
    requires v < |workers| && w < |workers| && PhaseCount(workers[w].phase, id) == 1
    requires i < |workers[v].queue| && workers[v].queue[i].Task? && workers[v].queue[i].id == id
    ensures WorkersCount(workers, id) >= 2
  {
    hide WorkersCount, QueuedCount;
    QueuedCounted(workers[v].queue, i, id);
    WorkerReplaced(workers, w, Worker(workers[w].queue, Idle), id);
    var without := workers[w := Worker(workers[w].queue, Idle)];
    WorkerReplaced(without, v, without[v], id);
  }

  /** While a task executes, it is nowhere else. */
  lemma NoOtherTask(s: State, w: nat)
    requires Partitioned(s) && w < |s.workers| && s.workers[w].phase.Executing?
    ensures NoTaskFor(s, w, s.workers[w].phase.id)
  {
    hide WorkersCount, ResultCount, QueuedCount;
    var id := s.workers[w].phase.id;
    WorkerReplaced(s.workers, w, s.workers[w], id);
    assert PlacedAt(s, id);
    forall v, i | 0 <= v < |s.workers| && 0 <= i < |s.workers[v].queue| && s.workers[v].queue[i].Task?
      ensures s.workers[v].queue[i].id != id
    {
      if s.workers[v].queue[i].id == id {
        QueuedAndHeld(s.workers, v, i, w, id);
      }
    }
    forall v | 0 <= v < |s.workers| && v != w && s.workers[v].phase.Executing?
      ensures s.workers[v].phase.id != id
    {
      if s.workers[v].phase.id == id {
        TwoHolders(s.workers, v, w, id);
      }
    }
  }

  /** What is right about a worker stays right while nothing is forgotten. */
  lemma WorkerStaysOk(s: State, s': State, w: nat, worker: Worker)
    requires WorkerOk(s, w, worker)
    requires forall id :: id in s.registered ==> id in s'.registered && s'.registered[id] == s.registered[id]
    requires s'.ran == s.ran
    ensures WorkerOk(s', w, worker)
  {
  }

  lemma ResultsStayOk(s: State, s': State)
    requires ResultsOk(s) && s'.results == s.results && s'.handling == s.handling && s'.ran == s.ran
    requires forall id :: id in s.registered ==> id in s'.registered && s'.registered[id] == s.registered[id]
    ensures ResultsOk(s')
  {
  }

  lemma CarriedRegister(s: State, id: TaskId, future: FutureId, w: nat, call: Call)
    requires Carried(s) && id !in s.registered && w < |s.workers|
    ensures Carried(AfterRegister(s, id, future, w, call))
  {
    hide WorkerOk, ResultsOk;
    var s' := AfterRegister(s, id, future, w, call);
    ResultsStayOk(s, s');
    forall v | 0 <= v < |s'.workers|
      ensures WorkerOk(s', v, s'.workers[v])
    {
      WorkerStaysOk(s, s', v, s.workers[v]);
    }
  }

  lemma CarriedPut(s: State, id: TaskId)
    requires Carried(s) && id in s.entering && s.entering[id].worker < |s.workers|
    ensures Carried(AfterPut(s, id))
  {
    var s' := AfterPut(s, id);
    forall v | 0 <= v < |s'.workers|
      ensures WorkerOk(s', v, s'.workers[v])
    {
      WorkerStaysOk(s, s', v, s.workers[v]);
    }
  }

  lemma CarriedPutFails(s: State, id: TaskId)
    requires Carried(s)
    ensures Carried(AfterPutFails(s, id))
  {
    hide WorkerOk;
    var s' := AfterPutFails(s, id);
    WorkersUntouched(s, s');
  }

  lemma CarriedSendStop(s: State, w: nat)
    requires Carried(s) && w < |s.workers|
    ensures Carried(AfterSendStop(s, w))
  {
    var s' := AfterSendStop(s, w);
    forall v | 0 <= v < |s'.workers|
      ensures WorkerOk(s', v, s'.workers[v])
    {
      WorkerStaysOk(s, s', v, s.workers[v]);
    }
  }

  lemma CarriedTake(s: State, w: nat)
    requires Carried(s) && w < |s.workers| && |s.workers[w].queue| > 0
    ensures Carried(AfterTake(s, w))
  {
    var s' := AfterTake(s, w);
    assert WorkerOk(s, w, s.workers[w]);
    forall v | 0 <= v < |s'.workers|
      ensures WorkerOk(s', v, s'.workers[v])
    {
      WorkerStaysOk(s, s', v, s.workers[v]);
    }
  }

  lemma CarriedExit(s: State, w: nat)
    requires Carried(s) && w < |s.workers|
    ensures Carried(AfterExit(s, w))
  {
    var s' := AfterExit(s, w);
    assert WorkerOk(s, w, s.workers[w]);
    forall v | 0 <= v < |s'.workers|
      ensures WorkerOk(s', v, s'.workers[v])
    {
      WorkerStaysOk(s, s', v, s.workers[v]);
    }
  }

  lemma CarriedReport(s: State, w: nat)
    requires Carried(s) && w < |s.workers| && s.workers[w].phase.Reporting?
    ensures Carried(AfterReport(s, w))
  {
    hide TaskOk;
    var s' := AfterReport(s, w);
    assert WorkerOk(s, w, s.workers[w]);
    forall v | 0 <= v < |s'.workers|
      ensures WorkerOk(s', v, s'.workers[v])
    {
      WorkerStaysOk(s, s', v, s.workers[v]);
    }
  }

  lemma CarriedExecute(s: State, w: nat, answer: Answer)
    requires Carried(s) && w < |s.workers| && s.workers[w].phase.Executing?
    requires NoAnswerFor(s, s.workers[w].phase.id) && NoTaskFor(s, w, s.workers[w].phase.id)
    ensures Carried(AfterExecute(s, w, answer))
  {
    var s' := AfterExecute(s, w, answer);
    forall v | 0 <= v < |s'.workers|
      ensures WorkerOk(s', v, s'.workers[v])
    {
      assert WorkerOk(s, v, s.workers[v]);
    }
  }

  /** Steps that touch neither the workers nor the records of calls and answers. */
  lemma WorkersUntouched(s: State, s': State)
    requires Carried(s) && s'.registered == s.registered && s'.ran == s.ran && s'.workers == s.workers
    ensures forall w :: 0 <= w < |s'.workers| ==> WorkerOk(s', w, s'.workers[w])
  {
    forall w | 0 <= w < |s'.workers|
      ensures WorkerOk(s', w, s'.workers[w])
    {
      WorkerStaysOk(s, s', w, s.workers[w]);
    }
  }

  lemma EnteringStaysOk(s: State, s': State)
    requires EnteringOk(s) && s'.entering == s.entering && s'.registered == s.registered && s'.ran == s.ran
    requires |s'.workers| == |s.workers|
    ensures EnteringOk(s')
  {
  }

  lemma CarriedHandlerTake(s: State)
    requires Carried(s) && |s.results| > 0
    ensures Carried(AfterHandlerTake(s))
  {
    hide WorkerOk, EnteringOk;
    assert EnteringOk(AfterHandlerTake(s)) by { EnteringStaysOk(s, AfterHandlerTake(s)); }
    WorkersUntouched(s, AfterHandlerTake(s));
  }

  lemma CarriedResolve(s: State)
    requires Carried(s) && s.handling.Some?
    ensures Carried(AfterResolve(s))
  {
    hide WorkerOk;
    WorkersUntouched(s, AfterResolve(s));
  }

  lemma CarriedClose(s: State)
    requires Carried(s)
    ensures Carried(AfterClose(s))
  {
    hide WorkerOk;
    WorkersUntouched(s, AfterClose(s));
  }

  lemma CarriedNext(s: State, step: Step)
    requires Inv(s) && Enabled(s, step)
    ensures Carried(Next(s, step))
  {
    hide Partitioned, Accounted, Carried, NoAnswerFor, NoTaskFor;
    match step
    case Register(id, future, w, call) => CarriedRegister(s, id, future, w, call);
    case Put(id) => CarriedPut(s, id);
    case PutFails(id) => CarriedPutFails(s, id);
    case Take(w) => CarriedTake(s, w);
    case Execute(w, answer) => NoOtherAnswer(s, w); NoOtherTask(s, w); CarriedExecute(s, w, answer);
    case Report(w) => CarriedReport(s, w);
    case Exit(w) => CarriedExit(s, w);
    case SendStop(w) => CarriedSendStop(s, w);
    case HandlerTake => CarriedHandlerTake(s);
    case HandlerResolve => CarriedResolve(s);
    case Close => CarriedClose(s);
  }

  // ---------------------------------------------------------------------
  // Each step keeps the account of every future
  // ---------------------------------------------------------------------

  lemma AccountedRegister(s: State, id: TaskId, future: FutureId, w: nat, call: Call)
    requires Accounted(s) && Fresh(s, id, future)
    ensures Accounted(AfterRegister(s, id, future, w, call))
  {
    var s' := AfterRegister(s, id, future, w, call);
    forall f | f in s.resolved
      ensures f != future && Owned(s', f)
    {
      var i :| i in s.registered && s.registered[i].future == f;
      assert s'.registered[i].future == f;
    }
    forall i | i in s'.registered
      ensures Standing(s', i)
    {
      assert i != id ==> Standing(s, i);
    }
  }

  lemma AccountedPutFails(s: State, id: TaskId)
    requires Accounted(s) && id in s.tasks
    ensures Accounted(AfterPutFails(s, id))
  {
  }

  /** The account does not look at queues, workers and results. */
  lemma AccountedSame(s: State, s': State)
    requires Accounted(s) && s'.registered == s.registered && s'.ran == s.ran
    requires s'.tasks == s.tasks && s'.failed == s.failed && s'.resolved == s.resolved && s'.handling == s.handling
    ensures Accounted(s')
  {
    forall id | id in s'.registered
      ensures Standing(s', id)
    {
      assert Standing(s, id);
    }
    forall f | f in s.resolved
      ensures Owned(s', f)
    {
      assert Owned(s, f);
    }
  }

  lemma AccountedExecute(s: State, w: nat, answer: Answer)
    requires Accounted(s) && w < |s.workers| && s.workers[w].phase.Executing? && s.workers[w].phase.id in s.tasks
    ensures Accounted(AfterExecute(s, w, answer))
  {
    var s' := AfterExecute(s, w, answer);
    forall id | id in s'.registered
      ensures Standing(s', id)
    {
      assert Standing(s, id);
    }
  }

  lemma StandingTaken(s: State, id: TaskId)
    requires id in s.registered && Standing(s, id) && s.handling.None? && |s.results| > 0
    requires s.results[0].ResultMsg? ==> s.results[0].id in s.tasks
    ensures Standing(AfterHandlerTake(s), id)
  {
  }

  lemma AccountedHandlerTake(s: State)
    requires Accounted(s) && s.handling.None? && |s.results| > 0
    requires s.results[0].ResultMsg? ==> s.results[0].id in s.tasks
    ensures Accounted(AfterHandlerTake(s))
  {
    hide Standing;
    var s' := AfterHandlerTake(s);
    forall id | id in s'.registered
      ensures Standing(s', id)
    {
      StandingTaken(s, id);
    }
    forall f | f in s'.resolved
      ensures Owned(s', f)
    {
      SameOwner(s, s', f);
    }
    if s.results[0].ResultMsg? {
      RegisteredNotFailed(s, s.results[0].id);
    }
  }

  lemma SameOwner(s: State, s': State, f: FutureId)
    requires s'.registered == s.registered
    ensures Owned(s', f) <==> Owned(s, f)
  {
  }

  lemma RegisteredNotFailed(s: State, id: TaskId)
    requires id in s.registered && id in s.tasks && Standing(s, id)
    ensures id !in s.failed
  {
  }

  lemma AccountedResolve(s: State)
    requires Accounted(s) && s.handling.Some? && AnswerOk(s, s.handling.value.id, s.handling.value.answer)
    ensures Accounted(AfterResolve(s))
  {
    var s' := AfterResolve(s);
    assert Standing(s, s.handling.value.id);
    forall id | id in s'.registered
      ensures Standing(s', id)
    {
      assert Standing(s, id);
    }
  }

  lemma AccountedNext(s: State, step: Step)
    requires Inv(s) && Enabled(s, step)
    ensures Accounted(Next(s, step))
  {
    hide Partitioned, Accounted, WorkerOk, AnswerOk, NoAnswerFor;
    match step
    case Register(id, future, w, call) => AccountedRegister(s, id, future, w, call);
    case Put(id) => AccountedSame(s, AfterPut(s, id));
    case PutFails(id) => EnteringIsRegistered(s, id); AccountedPutFails(s, id);
    case Take(w) => AccountedSame(s, AfterTake(s, w));
    case Execute(w, answer) => NoOtherAnswer(s, w); AccountedExecute(s, w, answer);
    case Report(w) => AccountedSame(s, AfterReport(s, w));
    case Exit(w) => AccountedSame(s, AfterExit(s, w));
    case SendStop(w) => AccountedSame(s, AfterSendStop(s, w));
    case HandlerTake => HeadMustBeRegistered(s); AccountedHandlerTake(s);
    case HandlerResolve => AccountedResolve(s);
    case Close => AccountedSame(s, AfterClose(s));
  }

  /** Every step keeps the invariant; in particular the handler's lookup never
      misses. */
  lemma StepInv(s: State, step: Step)
    requires Inv(s) && Enabled(s, step)
    ensures Inv(Next(s, step))
  {
    PartitionNext(s, step);
    CarriedNext(s, step);
    AccountedNext(s, step);
    NoCrash(s, step);
  }

  lemma NoCrash(s: State, step: Step)
    requires Inv(s) && Enabled(s, step)
    ensures !Next(s, step).handler.Crashed?
  {
    hide Carried, Accounted, Places;
    if step.HandlerTake? {
      HeadMustBeRegistered(s);
    }
  }

  // ---------------------------------------------------------------------
  // Whole runs
  // ---------------------------------------------------------------------

  ghost predicate IsRun(states: seq<State>, steps: seq<Step>) {
    && |states| == |steps| + 1
    && forall i :: 0 <= i < |steps| ==> Enabled(states[i], steps[i]) && states[i + 1] == Next(states[i], steps[i])
  }

  lemma {:induction false} RunInv(states: seq<State>, steps: seq<Step>, i: nat)
    requires IsRun(states, steps) && Inv(states[0]) && i < |states|
    ensures Inv(states[i])
  {
    hide Inv, Enabled, Next;
    if i > 0 {
      RunInv(states, steps, i - 1);
      StepInv(states[i - 1], steps[i - 1]);
    }
  }

  /** Whatever the interleaving, the task of a result is still registered when the
      handler looks it up. */
  lemma HandlerNeverMisses(states: seq<State>, steps: seq<Step>, i: nat)
    requires IsRun(states, steps) && Initial(states[0]) && i < |states|
    ensures !states[i].handler.Crashed?
    ensures forall r :: r in states[i].results && r.ResultMsg? ==> r.id in states[i].tasks
  {
    hide Enabled, Next, Places;
    InitialInv(states[0]);
    RunInv(states, steps, i);
    var s := states[i];
    forall r | r in s.results && r.ResultMsg?
      ensures r.id in s.tasks
    {
      var k :| 0 <= k < |s.results| && s.results[k] == r;
      QueuedResultRegistered(s, k);
    }
  }

  lemma QueuedResultRegistered(s: State, k: nat)
    requires Partitioned(s) && k < |s.results| && s.results[k].ResultMsg?
    ensures s.results[k].id in s.tasks
  {
    ResultCounted(s.results, k, s.results[k].id);
    assert PlacedAt(s, s.results[k].id);
  }

  /** A step never changes the answer of a resolved future, and resolves only
      unresolved ones. */
  lemma ResolvedOnce(s: State, step: Step)
    requires Inv(s) && Enabled(s, step)
    ensures forall f :: f in s.resolved ==> f in Next(s, step).resolved && Next(s, step).resolved[f] == s.resolved[f]
    ensures step.HandlerResolve? ==> s.handling.value.future !in s.resolved
  {
    hide Partitioned, Carried, Accounted, Without, Inv;
    if step.HandlerResolve? {
      HandledIsOpen(s);
    }
  }

  lemma HandledIsOpen(s: State)
    requires Inv(s) && s.handling.Some?
    ensures s.handling.value.future !in s.resolved
  {
    assert Standing(s, s.handling.value.id);
  }

  lemma {:induction false} ResolvedForGood(states: seq<State>, steps: seq<Step>, i: nat, j: nat, f: FutureId)
    requires IsRun(states, steps) && Initial(states[0]) && i <= j < |states| && f in states[i].resolved
    ensures f in states[j].resolved && states[j].resolved[f] == states[i].resolved[f]
    decreases j
  {
    hide Inv, Enabled, Next;
    InitialInv(states[0]);
    if i < j {
      ResolvedForGood(states, steps, i, j - 1, f);
      RunInv(states, steps, j - 1);
      ResolvedOnce(states[j - 1], steps[j - 1]);
    }
  }

  /** The answer of the call that owns the future. */
  ghost predicate OwnAnswer(s: State, id: TaskId, f: FutureId)
    requires f in s.resolved
  {
    && id in s.registered && s.registered[id].future == f
    && id in s.ran && s.ran[id] == Run(s.registered[id].worker, s.registered[id].call, s.resolved[f])
  }

  /** A resolved future holds what running its own call gave. */
  lemma ResolvedWithOwnAnswer(states: seq<State>, steps: seq<Step>, i: nat, f: FutureId)
    requires IsRun(states, steps) && Initial(states[0]) && i < |states| && f in states[i].resolved
    ensures exists id :: OwnAnswer(states[i], id, f)
  {
    hide Enabled, Next, Partitioned, Carried;
    InitialInv(states[0]);
    RunInv(states, steps, i);
    var s := states[i];
    assert Owned(s, f);
    var id :| id in s.registered && s.registered[id].future == f;
    assert Standing(s, id);
    assert OwnAnswer(s, id, f);
  }

  // Tasks that nobody will answer.

  ghost predicate QueuedAtExited(s: State, w: nat, id: TaskId) {
    w < |s.workers| && s.workers[w].phase.Exited? && QueuedCount(s.workers[w].queue, id) > 0
  }

  /** Taken along by an exiting worker, or still in the queue of one that exited. */
  ghost predicate Stranded(s: State, id: TaskId) {
    id in s.lost || exists w: nat :: QueuedAtExited(s, w, id)
  }

  /** An exiting worker strands the task it holds and all that is queued for it. */
  lemma ExitStrands(s: State, w: nat, id: TaskId)
    requires Enabled(s, Exit(w)) && WorkerCount(s.workers[w], id) > 0
    ensures Stranded(Next(s, Exit(w)), id)
  {
    hide QueuedCount;
    assert QueuedCount(s.workers[w].queue, id) > 0 ==> QueuedAtExited(AfterExit(s, w), w, id);
  }

  /** What is stranded is in a place, so it is still registered and unresolved. */
  lemma StrandedIsOpen(s: State, id: TaskId)
    requires Inv(s) && Stranded(s, id)
    ensures id in s.tasks && id in s.registered && s.registered[id].future !in s.resolved
  {
    hide Carried, WorkersCount, ResultCount, QueuedCount;
    assert PlacedAt(s, id);
    if id !in s.lost {
      var w: nat :| QueuedAtExited(s, w, id);
      WorkerReplaced(s.workers, w, s.workers[w], id);
    }
    assert Standing(s, id);
  }

  /** Nobody takes from the queue of an exited worker; puts only make it longer. */
  lemma QueueOnlyGrows(s: State, step: Step, w: nat)
    requires Enabled(s, step) && w < |s.workers| && s.workers[w].phase.Exited?
    ensures var s' := Next(s, step);
      && w < |s'.workers| && s'.workers[w].phase.Exited?
      && (s'.workers[w].queue == s.workers[w].queue
          || exists t :: s'.workers[w].queue == s.workers[w].queue + [t])
  {
    var s' := Next(s, step);
    if step.Put? && s.entering[step.id].worker == w {
      assert s'.workers[w].queue == s.workers[w].queue + [Task(step.id, s.entering[step.id].call)];
    }
  }

  lemma QueuedStays(s: State, step: Step, w: nat, id: TaskId)
    requires Enabled(s, step) && QueuedAtExited(s, w, id)
    ensures QueuedAtExited(Next(s, step), w, id)
  {
    hide Enabled, Next, QueuedCount;
    QueueOnlyGrows(s, step, w);
    var before, after := s.workers[w].queue, Next(s, step).workers[w].queue;
    if after != before {
      var t :| after == before + [t];
      QueuedAppend(before, t, id);
    }
  }

  lemma LostStays(s: State, step: Step, id: TaskId)
    requires Enabled(s, step) && id in s.lost
    ensures id in Next(s, step).lost
  {
    hide Fresh;
    match step
    case Exit(w) =>
    case _ =>
  }

  lemma {:induction false} StaysStranded(states: seq<State>, steps: seq<Step>, i: nat, j: nat, id: TaskId)
    requires IsRun(states, steps) && i <= j < |states| && Stranded(states[i], id)
    ensures Stranded(states[j], id)
    decreases j
  {
    hide Enabled, Next, QueuedAtExited;
    if i < j {
      StaysStranded(states, steps, i, j - 1, id);
      if id in states[j - 1].lost {
        LostStays(states[j - 1], steps[j - 1], id);
      } else {
        var w: nat :| QueuedAtExited(states[j - 1], w, id);
        QueuedStays(states[j - 1], steps[j - 1], w, id);
      }
    }
  }

  /** A task that an exiting worker takes along, or that is queued for a worker
      that has exited, stays registered and is never resolved. */
  lemma LostNeverResolved(states: seq<State>, steps: seq<Step>, i: nat, j: nat, id: TaskId)
    requires IsRun(states, steps) && Initial(states[0]) && i <= j < |states| && Stranded(states[i], id)
    ensures id in states[j].tasks && id in states[j].registered
    ensures states[j].registered[id].future !in states[j].resolved
  {
    hide Enabled, Next, Inv, Stranded;
    InitialInv(states[0]);
    RunInv(states, steps, j);
    StaysStranded(states, steps, i, j, id);
    StrandedIsOpen(states[j], id);
  }

  // ---------------------------------------------------------------------
  // Draining
  // ---------------------------------------------------------------------

  /** Everything is up: the handler runs, no worker has exited or been told to. */
  ghost predicate Alive(s: State) {
    && s.handler.Running? && s.lost == {}
    && (forall w :: 0 <= w < |s.workers| ==> WorkerAlive(s.workers[w]))
    && forall i :: 0 <= i < |s.results| ==> s.results[i].ResultMsg?
  }

  ghost predicate WorkerAlive(worker: Worker) {
    !worker.phase.Exited? && forall i :: 0 <= i < |worker.queue| ==> worker.queue[i].Task?
  }

  /** The steps that move registered tasks along. */
  predicate Moves(step: Step) {
    step.Put? || step.Take? || step.Execute? || step.Report? || step.HandlerTake? || step.HandlerResolve?
  }

  ghost predicate Quiet(s: State) {
    && s.entering == map[] && s.results == [] && s.handling.None?
    && forall w :: 0 <= w < |s.workers| ==> s.workers[w] == Worker([], Idle)
  }

  function PhaseWork(phase: Phase): nat {
    if phase.Executing? then 4 else if phase.Reporting? then 3 else 0
  }

  function WorkersWork(workers: seq<Worker>): nat {
    if |workers| == 0 then 0
    else
      var last := workers[|workers| - 1];
      WorkersWork(workers[..|workers| - 1]) + 5 * |last.queue| + PhaseWork(last.phase)
  }

  /** Steps still to take for the tasks registered so far. */
  ghost function Work(s: State): nat {
    6 * |s.entering| + WorkersWork(s.workers) + 2 * |s.results| + if s.handling.Some? then 1 else 0
  }

  lemma {:induction false} WorkReplaced(workers: seq<Worker>, w: nat, worker: Worker)
    requires w < |workers|
    ensures WorkersWork(workers[w := worker])
      == WorkersWork(workers) - 5 * |workers[w].queue| - PhaseWork(workers[w].phase) + 5 * |worker.queue| + PhaseWork(worker.phase)
  {
    var n := |workers| - 1;
    if w < n {
      WorkReplaced(workers[..n], w, worker);
      assert workers[w := worker][..n] == workers[..n][w := worker];
    } else {
      assert workers[w := worker][..n] == workers[..n];
    }
  }

  lemma EnteringShrinks(m: map<TaskId, Entering>, id: TaskId)
    requires id in m
    ensures |Without(m, id)| == |m| - 1
  {
    assert Without(m, id).Keys == m.Keys - {id};
    assert |Without(m, id).Keys| == |m.Keys| - 1;
  }

  // One unit of work per move.

  lemma PutWorks(s: State, id: TaskId)
    requires id in s.entering && s.entering[id].worker < |s.workers|
    ensures Work(AfterPut(s, id)) == Work(s) - 1
  {
    hide WorkersWork;
    var w := s.entering[id].worker;
    WorkReplaced(s.workers, w, AfterPut(s, id).workers[w]);
    EnteringShrinks(s.entering, id);
  }

  lemma TakeWorks(s: State, w: nat)
    requires w < |s.workers| && s.workers[w].phase.Idle? && |s.workers[w].queue| > 0 && s.workers[w].queue[0].Task?
    ensures Work(AfterTake(s, w)) == Work(s) - 1
  {
    hide WorkersWork;
    WorkReplaced(s.workers, w, AfterTake(s, w).workers[w]);
  }

  lemma ExecuteWorks(s: State, w: nat, answer: Answer)
    requires w < |s.workers| && s.workers[w].phase.Executing?
    ensures Work(AfterExecute(s, w, answer)) == Work(s) - 1
  {
    hide WorkersWork;
    WorkReplaced(s.workers, w, AfterExecute(s, w, answer).workers[w]);
  }

  lemma ReportWorks(s: State, w: nat)
    requires w < |s.workers| && s.workers[w].phase.Reporting?
    ensures Work(AfterReport(s, w)) == Work(s) - 1
  {
    hide WorkersWork;
    WorkReplaced(s.workers, w, AfterReport(s, w).workers[w]);
  }

  lemma HandlerTakeWorks(s: State)
    requires s.handling.None? && |s.results| > 0 && s.results[0].ResultMsg? && s.results[0].id in s.tasks
    ensures Work(AfterHandlerTake(s)) == Work(s) - 1
  {
    hide WorkersWork;
  }

  lemma ResolveWorks(s: State)
    requires s.handling.Some?
    ensures Work(AfterResolve(s)) == Work(s) - 1
  {
    hide WorkersWork;
  }

  lemma MoveShrinksWork(s: State, step: Step)
    requires Inv(s) && Alive(s) && Enabled(s, step) && Moves(step)
    ensures Work(Next(s, step)) == Work(s) - 1
  {
    hide Partitioned, Carried, Accounted, Work, AfterPut, AfterTake, AfterExecute, AfterReport, AfterHandlerTake, AfterResolve;
    match step
    case Put(id) => PutWorks(s, id);
    case Take(w) => assert WorkerAlive(s.workers[w]); TakeWorks(s, w);
    case Execute(w, answer) => ExecuteWorks(s, w, answer);
    case Report(w) => ReportWorks(s, w);
    case HandlerTake => HeadMustBeRegistered(s); HandlerTakeWorks(s);
    case HandlerResolve => ResolveWorks(s);
    case _ =>
  }

  lemma MoveKeepsAlive(s: State, step: Step)
    requires Inv(s) && Alive(s) && Enabled(s, step) && Moves(step)
    ensures Alive(Next(s, step))
  {
    hide Partitioned, Carried, Accounted;
    var s' := Next(s, step);
    if step.HandlerTake? {
      HeadMustBeRegistered(s);
    }
    forall w | 0 <= w < |s'.workers|
      ensures WorkerAlive(s'.workers[w])
    {
      assert WorkerAlive(s.workers[w]);
    }
  }

  /** While anything is left to do, some step can be taken. */
  lemma QuietOrMoves(s: State)
    requires Inv(s) && Alive(s) && !Quiet(s)
    ensures exists step :: Moves(step) && Enabled(s, step)
  {
    hide Partitioned, Accounted, WorkerOk;
    if s.entering != map[] {
      assert (forall i :: i !in s.entering) ==> s.entering == map[];
      var id :| id in s.entering;
      assert Enabled(s, Put(id)) && Moves(Put(id));
    } else if s.handling.Some? {
      assert Enabled(s, HandlerResolve) && Moves(HandlerResolve);
    } else if s.results != [] {
      assert Enabled(s, HandlerTake) && Moves(HandlerTake);
    } else {
      var w :| 0 <= w < |s.workers| && s.workers[w] != Worker([], Idle);
      assert WorkerAlive(s.workers[w]);
      var phase := s.workers[w].phase;
      var step := if phase.Executing? then Execute(w, Value("")) else if phase.Reporting? then Report(w) else Take(w);
      assert Enabled(s, step) && Moves(step);
    }
  }

  /** When all is quiet nothing is registered any more, and every call whose put
      succeeded has its own answer. */
  lemma QuietIsResolved(s: State, id: TaskId)
    requires Inv(s) && Alive(s) && Quiet(s) && id in s.registered && id !in s.failed
    ensures s.tasks == map[]
    ensures var f := s.registered[id].future; f in s.resolved && OwnAnswer(s, id, f)
  {
    hide Carried, WorkersCount;
    forall i
      ensures i !in s.tasks
    {
      IdleCount(s.workers, i);
      assert PlacedAt(s, i);
    }
    assert Standing(s, id);
  }

  /** A run of moves from a live state is at most as long as the work, and when no
      move is left every future whose put succeeded is resolved. */
  lemma {:induction false} DrainResolvesAll(states: seq<State>, steps: seq<Step>)
    requires IsRun(states, steps) && Inv(states[0]) && Alive(states[0])
    requires forall i :: 0 <= i < |steps| ==> Moves(steps[i])
    ensures var last := states[|steps|];
      && Work(last) == Work(states[0]) - |steps| && Inv(last) && Alive(last)
      && ((forall step :: Moves(step) ==> !Enabled(last, step)) ==> AllResolved(last))
  {
    hide Inv, Alive, Enabled, Next, Work, AllResolved;
    var n := |steps|;
    var last := states[n];
    if n > 0 {
      DrainResolvesAll(states[..n], steps[..n - 1]);
      StepInv(states[n - 1], steps[n - 1]);
      MoveShrinksWork(states[n - 1], steps[n - 1]);
      MoveKeepsAlive(states[n - 1], steps[n - 1]);
    }
    if forall step :: Moves(step) ==> !Enabled(last, step) {
      StuckIsResolved(last);
    }
  }

  ghost predicate AllResolved(s: State) {
    && s.tasks == map[]
    && forall id :: id in s.registered && id !in s.failed ==>
        s.registered[id].future in s.resolved && OwnAnswer(s, id, s.registered[id].future)
  }

  lemma StuckIsResolved(s: State)
    requires Inv(s) && Alive(s) && forall step :: Moves(step) ==> !Enabled(s, step)
    ensures AllResolved(s)
  {
    hide Inv, Alive, Enabled, Moves, OwnAnswer;
    if !Quiet(s) {
      QuietOrMoves(s);
    }
    QuietIsEmpty(s);
    forall id | id in s.registered && id !in s.failed
      ensures s.registered[id].future in s.resolved && OwnAnswer(s, id, s.registered[id].future)
    {
      QuietIsResolved(s, id);
    }
  }

  lemma QuietIsEmpty(s: State)
    requires Inv(s) && Alive(s) && Quiet(s)
    ensures s.tasks == map[]
  {
    hide Carried, Accounted, WorkersCount;
    forall i
      ensures i !in s.tasks
    {
      IdleCount(s.workers, i);
      assert PlacedAt(s, i);
    }
  }
}
