/** What the worker protocol does, told by the steps of a run alone: which worker
    gets a call, in which order, how often it runs and whose answer a future
    gets. */
module WorkerRuns {
  import opened Outcome
  import opened WorkerProtocol

  // ---------------------------------------------------------------------
  // One step
  // ---------------------------------------------------------------------

  lemma RegisteredStep(s: State, step: Step)
    requires Enabled(s, step)
    ensures Next(s, step).registered
            == if step.Register? then s.registered[step.id := Registration(step.future, step.worker, step.call)] else s.registered
  {
    hide Fresh;
    match step
    case Register(id, future, w, call) =>
    case _ =>
  }

  lemma RanStep(s: State, step: Step)
    requires Enabled(s, step)
    ensures step.Execute? ==>
      var phase := s.workers[step.worker].phase;
      Next(s, step).ran == s.ran[phase.id := Run(step.worker, phase.call, step.answer)]
    ensures !step.Execute? ==> Next(s, step).ran == s.ran
  {
    hide Fresh;
    match step
    case Execute(w, answer) =>
    case _ =>
  }

  /** The tasks a step puts into the queue of worker w. */
  ghost function PutInto(s: State, step: Step, w: nat): seq<Task>
    requires Enabled(s, step)
  {
    if step.Put? && s.entering[step.id].worker == w then [Task(step.id, s.entering[step.id].call)]
    else if step == SendStop(w) then [StopWork]
    else []
  }

  lemma QueueStep(s: State, step: Step, w: nat)
    requires Enabled(s, step) && w < |s.workers|
    ensures |Next(s, step).workers| == |s.workers|
    ensures step == Take(w) ==>
      var before, after := s.workers[w].queue, Next(s, step).workers[w];
      && after.queue == before[1..]
      && (before[0].StopWork? ==> after.phase == Exited)
      && (before[0].Task? ==> after.phase == Executing(before[0].id, before[0].call))
    ensures step != Take(w) ==> Next(s, step).workers[w].queue == s.workers[w].queue + PutInto(s, step, w)
  {
    hide Fresh, Without;
    match step
    case Take(v) =>
    case Put(id) =>
    case SendStop(v) =>
    case _ =>
  }

  lemma {:induction false} InvAt(states: seq<State>, steps: seq<Step>, i: nat)
    requires IsRun(states, steps) && Initial(states[0]) && i < |states|
    ensures Inv(states[i]) && |states[i].workers| == |states[0].workers|
  {
    hide Inv, Enabled, Next;
    InitialInv(states[0]);
    RunInv(states, steps, i);
    SameWorkers(states, steps, i);
  }

  lemma {:induction false} SameWorkers(states: seq<State>, steps: seq<Step>, i: nat)
    requires IsRun(states, steps) && i < |states|
    ensures |states[i].workers| == |states[0].workers|
  {
    hide Enabled, Next;
    if i > 0 {
      SameWorkers(states, steps, i - 1);
      WorkersKept(states[i - 1], steps[i - 1]);
    }
  }

  lemma WorkersKept(s: State, step: Step)
    requires Enabled(s, step)
    ensures |Next(s, step).workers| == |s.workers|
  {
    hide Fresh, Without;
  }

  // ---------------------------------------------------------------------
  // Registrations and completed runs come from steps
  // ---------------------------------------------------------------------

  /** The step among the first n that registered this id. */
  function Lookup(steps: seq<Step>, n: nat, id: TaskId): (r: Option<Step>)
    requires n <= |steps|
    ensures r.Some? ==> r.value.Register? && r.value.id == id && exists k :: 0 <= k < n && steps[k] == r.value
  {
    if n == 0 then None
    else if steps[n - 1].Register? && steps[n - 1].id == id then Some(steps[n - 1])
    else Lookup(steps, n - 1, id)
  }

  lemma {:induction false} RegisteredByStep(states: seq<State>, steps: seq<Step>, n: nat, id: TaskId)
    requires IsRun(states, steps) && Initial(states[0]) && n <= |steps|
    ensures id in states[n].registered <==> Lookup(steps, n, id).Some?
    ensures id in states[n].registered ==>
      var r := Lookup(steps, n, id).value;
      states[n].registered[id] == Registration(r.future, r.worker, r.call)
  {
    hide Enabled, Next;
    if n > 0 {
      RegisteredByStep(states, steps, n - 1, id);
      RegisteredStep(states[n - 1], steps[n - 1]);
    }
  }

  lemma {:induction false} RegisteredForGood(states: seq<State>, steps: seq<Step>, i: nat, j: nat, id: TaskId)
    requires IsRun(states, steps) && i <= j < |states| && id in states[i].registered
    ensures id in states[j].registered && states[j].registered[id] == states[i].registered[id]
    decreases j
  {
    hide Enabled, Next;
    if i < j {
      RegisteredForGood(states, steps, i, j - 1, id);
      RegisteredStep(states[j - 1], steps[j - 1]);
      NotTwice(states[j - 1], steps[j - 1], id);
    }
  }

  lemma NotTwice(s: State, step: Step, id: TaskId)
    requires Enabled(s, step) && id in s.registered
    ensures step.Register? ==> step.id != id
  {
  }

  /** Worker w finishes the call with this answer in step e. */
  ghost predicate RunsAt(states: seq<State>, steps: seq<Step>, e: nat, id: TaskId, run: Run)
    requires |states| == |steps| + 1
  {
    && e < |steps| && steps[e] == Execute(run.worker, run.answer) && run.worker < |states[e].workers|
    && states[e].workers[run.worker].phase == Executing(id, run.call)
  }

  lemma {:induction false} RanByStep(states: seq<State>, steps: seq<Step>, n: nat, id: TaskId)
    requires IsRun(states, steps) && Initial(states[0]) && n <= |steps| && id in states[n].ran
    ensures exists e :: 0 <= e < n && RunsAt(states, steps, e, id, states[n].ran[id])
  {
    hide Enabled, Next;
    if n > 0 {
      var s, step := states[n - 1], steps[n - 1];
      RanStep(s, step);
      if step.Execute? {
        ExecutorExecutes(s, step);
      }
      if step.Execute? && s.workers[step.worker].phase.id == id {
        assert RunsAt(states, steps, n - 1, id, states[n].ran[id]);
      } else {
        RanByStep(states, steps, n - 1, id);
        var e :| 0 <= e < n - 1 && RunsAt(states, steps, e, id, states[n - 1].ran[id]);
        assert RunsAt(states, steps, e, id, states[n].ran[id]);
      }
    }
  }

  lemma ExecutorExecutes(s: State, step: Step)
    requires Enabled(s, step) && step.Execute?
    ensures step.worker < |s.workers| && s.workers[step.worker].phase.Executing?
  {
  }

  lemma {:induction false} RanForGood(states: seq<State>, steps: seq<Step>, i: nat, j: nat, id: TaskId)
    requires IsRun(states, steps) && i <= j < |states| && id in states[i].ran
    ensures id in states[j].ran
    decreases j
  {
    hide Enabled, Next;
    if i < j {
      RanForGood(states, steps, i, j - 1, id);
      RanStep(states[j - 1], steps[j - 1]);
    }
  }

  // ---------------------------------------------------------------------
  // A call goes to the worker it was made on
  // ---------------------------------------------------------------------

  /** A task in a worker's hands or queue is registered for this worker. */
  lemma HeldIsOwn(s: State, v: nat, id: TaskId)
    requires Carried(s) && v < |s.workers| && WorkerCount(s.workers[v], id) > 0
    ensures id in s.registered && s.registered[id].worker == v
  {
    hide EnteringOk, ResultsOk;
    assert WorkerOk(s, v, s.workers[v]);
    if QueuedCount(s.workers[v].queue, id) > 0 {
      var i := QueuedSomewhere(s.workers[v].queue, id);
      assert TaskOk(s, v, s.workers[v].queue[i]);
    }
  }

  lemma {:induction false} QueuedSomewhere(queue: seq<Task>, id: TaskId) returns (i: nat)
    requires QueuedCount(queue, id) > 0
    ensures i < |queue| && queue[i].Task? && queue[i].id == id
  {
    if queue[0].Task? && queue[0].id == id {
      i := 0;
    } else {
      i := QueuedSomewhere(queue[1..], id);
      i := i + 1;
    }
  }

  /** Registered by step k, the call is for the worker of that step. */
  lemma RegisteredFor(states: seq<State>, steps: seq<Step>, k: nat, i: nat)
    requires IsRun(states, steps) && k < |steps| && steps[k].Register? && i < |states|
    requires steps[k].id in states[i].registered
    ensures k < i && states[i].registered[steps[k].id] == Registration(steps[k].future, steps[k].worker, steps[k].call)
  {
    hide Enabled, Next;
    var id := steps[k].id;
    if i <= k {
      RegisteredForGood(states, steps, i, k, id);
      NotTwice(states[k], steps[k], id);
    } else {
      RegisteredStep(states[k], steps[k]);
      RegisteredForGood(states, steps, k + 1, i, id);
    }
  }

  /** A call made on one worker is never in the queue or the hands of another. */
  lemma RoutedToOwnWorker(states: seq<State>, steps: seq<Step>, k: nat, i: nat, v: nat)
    requires IsRun(states, steps) && Initial(states[0]) && k < |steps| && steps[k].Register?
    requires i < |states| && v < |states[i].workers| && v != steps[k].worker
    ensures WorkerCount(states[i].workers[v], steps[k].id) == 0
  {
    hide Enabled, Next, Partitioned, Accounted, Carried, WorkerCount;
    InvAt(states, steps, i);
    if WorkerCount(states[i].workers[v], steps[k].id) > 0 {
      HeldIsOwn(states[i], v, steps[k].id);
      RegisteredFor(states, steps, k, i);
    }
  }

  /** The worker that runs a call is the one it was made on, and it runs the
      function and the arguments that it was made with. */
  lemma RunByOwnWorker(states: seq<State>, steps: seq<Step>, k: nat, e: nat, id: TaskId, run: Run)
    requires IsRun(states, steps) && Initial(states[0]) && k < |steps| && steps[k].Register? && steps[k].id == id
    requires RunsAt(states, steps, e, id, run)
    ensures k < e && run.worker == steps[k].worker && run.call == steps[k].call
  {
    hide Enabled, Next, Partitioned, Accounted, EnteringOk, ResultsOk;
    InvAt(states, steps, e);
    assert WorkerOk(states[e], run.worker, states[e].workers[run.worker]);
    RegisteredFor(states, steps, k, e);
  }

  /** No call runs twice. */
  lemma RunsOnce(states: seq<State>, steps: seq<Step>, e: nat, d: nat, id: TaskId, first: Run, second: Run)
    requires IsRun(states, steps) && Initial(states[0])
    requires RunsAt(states, steps, e, id, first) && RunsAt(states, steps, d, id, second)
    ensures e == d && first == second
  {
    if e < d {
      NotAgain(states, steps, e, d, id, first, second);
    } else if d < e {
      NotAgain(states, steps, d, e, id, second, first);
    }
  }

  lemma NotAgain(states: seq<State>, steps: seq<Step>, e: nat, d: nat, id: TaskId, first: Run, second: Run)
    requires IsRun(states, steps) && Initial(states[0]) && e < d && RunsAt(states, steps, e, id, first)
    ensures !RunsAt(states, steps, d, id, second)
  {
    hide Enabled, Next, Partitioned, Accounted, EnteringOk, ResultsOk;
    RanStep(states[e], steps[e]);
    if d < |steps| {
      RanForGood(states, steps, e + 1, d, id);
      InvAt(states, steps, d);
      if second.worker < |states[d].workers| && states[d].workers[second.worker].phase.Executing? {
        ExecutingNotRan(states[d], second.worker);
      }
    }
  }

  lemma ExecutingNotRan(s: State, w: nat)
    requires Carried(s) && w < |s.workers| && s.workers[w].phase.Executing?
    ensures s.workers[w].phase.id !in s.ran
  {
    assert WorkerOk(s, w, s.workers[w]);
  }

  /** The future's own call, made in step k, was run in step e with this answer. */
  ghost predicate AnsweredBy(states: seq<State>, steps: seq<Step>, k: nat, e: nat, f: FutureId, answer: Answer)
    requires |states| == |steps| + 1
  {
    && k < e && k < |steps| && steps[k].Register? && steps[k].future == f
    && RunsAt(states, steps, e, steps[k].id, Run(steps[k].worker, steps[k].call, answer))
  }

  /** A resolved future holds the answer that the worker it was asked of gave when
      it ran the call it was made for. */
  lemma AnsweredByOwnWorker(states: seq<State>, steps: seq<Step>, i: nat, f: FutureId)
    requires IsRun(states, steps) && Initial(states[0]) && i < |states| && f in states[i].resolved
    ensures exists k, e :: 0 <= k < e < i && AnsweredBy(states, steps, k, e, f, states[i].resolved[f])
  {
    hide Enabled, Next, RunsAt;
    ResolvedWithOwnAnswer(states, steps, i, f);
    var id :| OwnAnswer(states[i], id, f);
    RegisteredByStep(states, steps, i, id);
    var k :| 0 <= k < i && steps[k] == Lookup(steps, i, id).value;
    RanByStep(states, steps, i, id);
    var run := states[i].ran[id];
    var e :| 0 <= e < i && RunsAt(states, steps, e, id, run);
    RunByOwnWorker(states, steps, k, e, id, run);
    assert AnsweredBy(states, steps, k, e, f, states[i].resolved[f]);
  }

  // ---------------------------------------------------------------------
  // Order
  // ---------------------------------------------------------------------

  /** What the first n steps send to worker w, told by the steps alone. */
  function Sent(steps: seq<Step>, w: nat, n: nat): seq<Task>
    requires n <= |steps|
  {
    if n == 0 then []
    else
      var step, before := steps[n - 1], Sent(steps, w, n - 1);
      if step == SendStop(w) then before + [StopWork]
      else if step.Put? then
        var made := Lookup(steps, n - 1, step.id);
        if made.Some? && made.value.worker == w then before + [Task(step.id, made.value.call)] else before
      else before
  }

  /** What worker w starts on in the first n steps: the task it holds after each
      take, or the stop that made it exit. */
  ghost function Started(states: seq<State>, steps: seq<Step>, w: nat, n: nat): seq<Task>
    requires IsRun(states, steps) && n <= |steps| && forall i :: 0 <= i < |states| ==> w < |states[i].workers|
  {
    if n == 0 then []
    else
      var before, phase := Started(states, steps, w, n - 1), states[n].workers[w].phase;
      if steps[n - 1] != Take(w) then before
      else if phase.Executing? then before + [Task(phase.id, phase.call)]
      else before + [StopWork]
  }

  /** Workers take what was sent to them, in the order it was sent; the rest is
      their queue. */
  lemma {:induction false} InOrderSent(states: seq<State>, steps: seq<Step>, w: nat, n: nat)
    requires IsRun(states, steps) && Initial(states[0]) && n <= |steps| && w < |states[0].workers|
    ensures forall i :: 0 <= i < |states| ==> w < |states[i].workers|
    ensures Sent(steps, w, n) == Started(states, steps, w, n) + states[n].workers[w].queue
  {
    hide Enabled, Next, Lookup;
    forall i | 0 <= i < |states| ensures w < |states[i].workers| {
      SameWorkers(states, steps, i);
    }
    if n > 0 {
      InOrderSent(states, steps, w, n - 1);
      var s, step := states[n - 1], steps[n - 1];
      QueueStep(s, step, w);
      if step == Take(w) {
        TakesTheHead(s, step, w);
      } else {
        SentNext(states, steps, w, n);
      }
    }
  }

  lemma TakesTheHead(s: State, step: Step, w: nat)
    requires Enabled(s, step) && step == Take(w)
    ensures w < |s.workers| && |s.workers[w].queue| > 0
    ensures s.workers[w].queue == [s.workers[w].queue[0]] + s.workers[w].queue[1..]
  {
  }

  /** The steps tell what is put into a queue. */
  lemma SentNext(states: seq<State>, steps: seq<Step>, w: nat, n: nat)
    requires IsRun(states, steps) && Initial(states[0]) && 0 < n <= |steps|
    ensures Enabled(states[n - 1], steps[n - 1])
    ensures Sent(steps, w, n) == Sent(steps, w, n - 1) + PutInto(states[n - 1], steps[n - 1], w)
  {
    hide Enabled, Next, Lookup, Inv;
    var s, step := states[n - 1], steps[n - 1];
    if step.Put? {
      InvAt(states, steps, n - 1);
      RegisteredByStep(states, steps, n - 1, step.id);
      PutIsRegistered(s, step);
    }
  }

  lemma PutIsRegistered(s: State, step: Step)
    requires Inv(s) && Enabled(s, step) && step.Put?
    ensures var e := s.entering[step.id];
      && step.id in s.registered
      && s.registered[step.id].worker == e.worker && s.registered[step.id].call == e.call
  {
    hide Partitioned, Accounted, ResultsOk, WorkerOk;
  }

  /** What the first n steps put into the result queue: the answer of the worker's
      latest run, under the id it holds. */
  ghost function Reported(states: seq<State>, steps: seq<Step>, n: nat): seq<ResultMsg>
    requires IsRun(states, steps) && n <= |steps|
  {
    if n == 0 then []
    else
      var s, step, before := states[n - 1], steps[n - 1], Reported(states, steps, n - 1);
      if step == Close then before + [StopHandling]
      else if step.Report? && step.worker < |s.workers| && s.workers[step.worker].phase.Reporting? then
        before + [ResultMsg(s.workers[step.worker].phase.id, s.workers[step.worker].phase.answer)]
      else before
  }

  /** What the handler deals with: the result in its hands after each take, or the
      signal that made it stop. */
  ghost function Handled(states: seq<State>, steps: seq<Step>, n: nat): seq<ResultMsg>
    requires IsRun(states, steps) && n <= |steps|
  {
    if n == 0 then []
    else
      var s, before := states[n], Handled(states, steps, n - 1);
      if !steps[n - 1].HandlerTake? then before
      else if s.handling.Some? then before + [ResultMsg(s.handling.value.id, s.handling.value.answer)]
      else before + [StopHandling]
  }

  /** The messages a step puts into the result queue. */
  ghost function ReportedBy(s: State, step: Step): seq<ResultMsg>
    requires Enabled(s, step)
  {
    if step == Close then [StopHandling]
    else if step.Report? then [ResultMsg(s.workers[step.worker].phase.id, s.workers[step.worker].phase.answer)]
    else []
  }

  lemma ResultsStep(s: State, step: Step)
    requires Enabled(s, step) && Inv(s)
    ensures step.HandlerTake? ==>
      && ReportedBy(s, step) == []
      && s.results == [s.results[0]] + Next(s, step).results
      && (s.results[0].ResultMsg? ==>
            && Next(s, step).handling.Some?
            && ResultMsg(Next(s, step).handling.value.id, Next(s, step).handling.value.answer) == s.results[0])
      && (s.results[0].StopHandling? ==> Next(s, step).handling.None? && Next(s, step).handler.Stopped?)
    ensures !step.HandlerTake? ==> Next(s, step).results == s.results + ReportedBy(s, step)
  {
    hide Fresh, Without, Carried, Accounted;
    match step
    case HandlerTake => HeadMustBeRegistered(s);
    case Report(w) =>
    case Close =>
    case _ =>
  }

  lemma NothingReported(states: seq<State>, steps: seq<Step>)
    requires IsRun(states, steps)
    ensures Reported(states, steps, 0) == []
  {
    hide Next, Enabled;
  }

  lemma ReportedNext(states: seq<State>, steps: seq<Step>, n: nat)
    requires IsRun(states, steps) && 0 < n <= |steps|
    ensures Enabled(states[n - 1], steps[n - 1])
    ensures Reported(states, steps, n) == Reported(states, steps, n - 1) + ReportedBy(states[n - 1], steps[n - 1])
  {
    hide Next, Fresh;
  }

  /** Results are handled in the order they were reported, and the handler stops
      only when everything reported before the stop has been handled. */
  lemma {:induction false} InOrderReported(states: seq<State>, steps: seq<Step>, n: nat)
    requires IsRun(states, steps) && Initial(states[0]) && n <= |steps|
    ensures Reported(states, steps, n) == Handled(states, steps, n) + states[n].results
  {
    hide Next, Inv, Enabled, Reported, ReportedBy;
    if n == 0 {
      NothingReported(states, steps);
    } else {
      InOrderReported(states, steps, n - 1);
      ReportedNext(states, steps, n);
      InvAt(states, steps, n - 1);
      ResultsStep(states[n - 1], steps[n - 1]);
    }
  }
}
