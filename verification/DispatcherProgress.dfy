/** No deadlock in any reachable state, and the end of every run after `stop`, whatever the scheduler does. */
module DispatcherProgress {
  import opened Dispatcher
  import opened DispatcherInvariant
  import opened Conservation

  // ---------------------------------------------------------------- who waits for whom

  predicate Finished(s: State, o: Owner) {
    match o
    case Free => true
    case ByCall(r) => r in s.calls ==> s.calls[r].Returned?
    case ByWorker(w) => w < |s.ws| ==> s.ws[w].pc.Exited?
  }

  function Thread(o: Owner): Action
    requires o != Free
  {
    if o.ByCall? then Call(o.r) else Work(o.w)
  }

  /** The thread that holds the mutex which this one is about to lock; `Free` if nothing keeps it. */
  function WaitsFor(s: State, o: Owner): Owner
    requires WellFormed(s)
  {
    if o.ByCall? && o.r in s.calls then
      var pc := s.calls[o.r];
      if pc.LockWorkers? then s.workersMutex
      else if pc.LockWorker? then s.mutexes[pc.w]
      else if pc.LockRequests? then s.requestsMutex
      else Free
    else if o.ByWorker? && o.w < |s.ws| then
      var pc := s.ws[o.w].pc;
      if pc.TakeRequestsLock? then s.requestsMutex
      else if pc.TakeWorkersLock? then s.workersMutex
      else if pc.TakeMutex? || pc.Waiting? then s.mutexes[o.w]
      else Free
    else Free
  }

  /** The last thread of the chain of those who wait for one another. */
  function EndOfChain(s: State, o: Owner): Owner
    requires WellFormed(s)
  {
    var next := WaitsFor(s, o);
    if next == Free then o
    else
      var last := WaitsFor(s, next);
      if last == Free then next else last
  }

  lemma FreeToGo(s: State, o: Owner)
    requires WellFormed(s) && o != Free && Exists(s, o) && !Finished(s, o) && WaitsFor(s, o) == Free
    ensures Enabled(s, Thread(o))
  {
  }

  /** Whoever holds the mutex of a worker, or `requestsMutex`, waits for nobody. */
  lemma HolderOfMutexGoesOn(s: State, w: WorkerId)
    requires Inv(s) && w < |s.ws| && s.mutexes[w] != Free
    ensures var o := s.mutexes[w]; Exists(s, o) && !Finished(s, o) && WaitsFor(s, o) == Free
  {
  }

  lemma HolderOfRequestsGoesOn(s: State)
    requires Inv(s) && s.requestsMutex != Free
    ensures var o := s.requestsMutex; Exists(s, o) && !Finished(s, o) && WaitsFor(s, o) == Free
  {
  }

  /** Whoever holds `workersMutex` waits for nobody, or is a producer that waits for the mutex of a worker. */
  lemma HolderOfWorkers(s: State)
    requires Inv(s) && s.workersMutex != Free
    ensures var o := s.workersMutex;
            && Exists(s, o) && !Finished(s, o)
            && (WaitsFor(s, o) != Free ==>
                  o.ByCall? && s.calls[o.r].LockWorker? && WaitsFor(s, o) == s.mutexes[s.calls[o.r].w])
  {
  }

  /** The wait-for relation has no cycle: two waits in a row lead to a thread that can step, and the middle one then
      holds `workersMutex` and waits for the mutex of a worker. */
  lemma WaitChain(s: State, o: Owner)
    requires Inv(s) && o != Free && Exists(s, o) && !Finished(s, o)
    ensures var e := EndOfChain(s, o);
            e != Free && Exists(s, e) && !Finished(s, e) && WaitsFor(s, e) == Free && Enabled(s, Thread(e))
    ensures var b := WaitsFor(s, o);
            WaitsFor(s, b) != Free ==> b == s.workersMutex && b.ByCall? && b.r in s.calls && s.calls[b.r].LockWorker?
  {
    var b := WaitsFor(s, o);
    WaitedForHolds(s, o);
    if b != Free {
      if b == s.requestsMutex {
        HolderOfRequestsGoesOn(s);
      } else if b == s.workersMutex {
        HolderOfWorkers(s);
        if WaitsFor(s, b) != Free {
          HolderOfMutexGoesOn(s, s.calls[b.r].w);
        }
      } else {
        var w :| 0 <= w < |s.ws| && b == s.mutexes[w];
        HolderOfMutexGoesOn(s, w);
      }
    }
    assert WellFormed(s);
    hide Inv;
    FreeToGo(s, EndOfChain(s, o));
  }

  lemma WaitedForHolds(s: State, o: Owner)
    requires WellFormed(s)
    ensures var b := WaitsFor(s, o);
            b == Free || b == s.requestsMutex || b == s.workersMutex || exists w :: 0 <= w < |s.ws| && b == s.mutexes[w]
  {
  }

  /** Deadlock freedom: in every reachable state, every thread that has not finished can step, or the end of its chain
      of at most two waits can. */
  lemma DeadlockFreedom(s: State, run: seq<Action>, o: Owner)
    requires Init(s) && WellFormed(s) && Feasible(s, run)
    requires var t := After(s, run); Exists(t, o) && !Finished(t, o)
    ensures var t := After(s, run);
            var e := EndOfChain(t, o);
            e != Free && Exists(t, e) && Enabled(t, Thread(e)) && WaitsFor(t, e) == Free
  {
    Reachable(s, run);
    WaitChain(After(s, run), o);
  }

  // ---------------------------------------------------------------- after stop

  /** The steps that a call has still to make, at most. */
  function CallSteps(pc: CallPc): nat {
    match pc
    case LockWorkers => 12
    case CheckWorkers => 11
    case SetRequest(_) => 9
    case SetReady(_) => 8
    case LockWorker(_) => 7
    case NotifyWorker(_) => 6
    case PopWorker(_) => 5
    case UnlockWorkersAfterPop(_) => 4
    case UnlockWorker(_) => 3
    case UnlockWorkersEmpty => 4
    case LockRequests => 3
    case PushRequest => 2
    case UnlockRequests => 1
    case Returned => 0
  }

  /** The steps that a stopped worker has still to make, at most. */
  function WorkerSteps(pc: WorkerPc): nat {
    match pc
    case TestReady => 13
    case ClearReady => 12
    case Processing => 11
    case Finishing => 10
    case TakeRequestsLock => 9
    case CheckRequests => 8
    case CopyRequest => 5
    case RaiseReady => 4
    case PopRequest => 3
    case DropRequestsLockHit => 2
    case DropRequestsLockMiss => 7
    case TakeWorkersLock => 6
    case Park => 5
    case DropWorkersLock => 4
    case TakeMutex => 7
    case StartWait => 6
    case Waiting => 5
    case Woken => 4
    case TestWait => 3
    case TestWaitRunning => 2
    case TestRunning => 1
    case Exited => 0
  }

  function StopperSteps(s: State): nat {
    match s.stopper
    case Joining(j) => if j <= |s.ws| then |s.ws| - j + 1 else 1
    case _ => 0
  }

  ghost function CallsSteps(calls: map<Request, CallPc>): nat {
    if calls == map[] then 0
    else
      var r :| r in calls;
      CallSteps(calls[r]) + CallsSteps(calls - {r})
  }

  function WorkersSteps(ws: seq<WorkerState>): nat {
    if ws == [] then 0 else WorkersSteps(ws[..|ws| - 1]) + WorkerSteps(ws[|ws| - 1].pc)
  }

  /** The steps that can still be made after `stop` has reached all workers, at most. */
  ghost function Potential(s: State): nat {
    CallsSteps(s.calls) + WorkersSteps(s.ws) + StopperSteps(s)
  }

  lemma {:induction false} CallsStepsWithout(calls: map<Request, CallPc>, r: Request)
    requires r in calls
    ensures CallsSteps(calls) == CallSteps(calls[r]) + CallsSteps(calls - {r})
    decreases calls
  {
    var q :| q in calls && CallsSteps(calls) == CallSteps(calls[q]) + CallsSteps(calls - {q});
    if q != r {
      CallsStepsWithout(calls - {q}, r);
      CallsStepsWithout(calls - {r}, q);
      assert calls - {q} - {r} == calls - {r} - {q};
    }
  }

  lemma CallsStepsUpdate(calls: map<Request, CallPc>, r: Request, pc: CallPc)
    requires r in calls
    ensures CallsSteps(calls[r := pc]) + CallSteps(calls[r]) == CallsSteps(calls) + CallSteps(pc)
  {
    CallsStepsWithout(calls, r);
    CallsStepsWithout(calls[r := pc], r);
    assert calls[r := pc] - {r} == calls - {r};
  }

  lemma {:induction false} WorkersStepsUpdate(ws: seq<WorkerState>, ws': seq<WorkerState>, w: nat)
    requires w < |ws| == |ws'| && forall v :: 0 <= v < |ws| && v != w ==> ws'[v].pc == ws[v].pc
    ensures WorkersSteps(ws') + WorkerSteps(ws[w].pc) == WorkersSteps(ws) + WorkerSteps(ws'[w].pc)
  {
    var n := |ws| - 1;
    if w < n {
      WorkersStepsUpdate(ws[..n], ws'[..n], w);
    } else {
      WorkersStepsSame(ws[..n], ws'[..n]);
    }
  }

  lemma {:induction false} WorkersStepsSame(ws: seq<WorkerState>, ws': seq<WorkerState>)
    requires |ws| == |ws'| && forall v :: 0 <= v < |ws| ==> ws'[v].pc == ws[v].pc
    ensures WorkersSteps(ws') == WorkersSteps(ws)
  {
    if ws == [] {
    } else {
      WorkersStepsSame(ws[..|ws| - 1], ws'[..|ws| - 1]);
    }
  }

  lemma CallStepCounts(s: State, r: Request)
    requires WellFormed(s) && Enabled(s, Call(r))
    ensures r in CallStep(s, r).calls && CallSteps(CallStep(s, r).calls[r]) < CallSteps(s.calls[r])
  {
  }

  lemma WorkStepCounts(s: State, w: WorkerId)
    requires WellFormed(s) && Enabled(s, Work(w)) && !s.ws[w].running
    ensures var t := WorkStep(s, w); |t.ws| == |s.ws| && WorkerSteps(t.ws[w].pc) < WorkerSteps(s.ws[w].pc)
  {
  }

  /** `stop` has reached every worker. */
  predicate Halting(s: State) {
    s.stopper.Joining? || s.stopper.Stopped?
  }

  /** From then on every step of every thread brings the end nearer, unless it is a new call. */
  lemma StepCounts(s: State, a: Action)
    requires Inv(s) && Halting(s) && Enabled(s, a) && !a.Submit?
    ensures Potential(Next(s, a)) < Potential(s) && Halting(Next(s, a))
  {
    assert WellFormed(s) && StopperFits(s);
    hide Inv, WellFormed, CallStep, WorkStep;
    match a
    case Call(r) =>
      CallStepCounts(s, r);
      CallEffect(s, r);
      CallEffectOnWorkers(s, r);
      CallsStepsUpdate(s.calls, r, CallStep(s, r).calls[r]);
      WorkersStepsSame(s.ws, CallStep(s, r).ws);
    case Work(w) =>
      WorkStepCounts(s, w);
      WorkEffect(s, w);
      WorkEffectOnOthers(s, w);
      WorkersStepsUpdate(s.ws, WorkStep(s, w).ws, w);
    case CallStop => assert false;
    case StopStep =>
  }

  /** No request is submitted. */
  ghost predicate Closed(run: seq<Action>) {
    forall i :: 0 <= i < |run| ==> !run[i].Submit?
  }

  /** So every run has a bounded length, whatever the scheduler does. */
  lemma {:induction false} EveryRunEnds(s: State, run: seq<Action>)
    requires Inv(s) && Halting(s) && Feasible(s, run) && Closed(run)
    ensures var t := After(s, run); |run| + Potential(t) <= Potential(s) && Inv(t) && Halting(t)
  {
    if run == [] {
    } else {
      var front, a := run[..|run| - 1], run[|run| - 1];
      EveryRunEnds(s, front);
      hide Inv, Next, Potential, Halting;
      NextKeepsInv(After(s, front), a);
      StepCounts(After(s, front), a);
    }
  }

  lemma {:induction false} CallsStepsBounded(calls: map<Request, CallPc>)
    ensures CallsSteps(calls) <= 12 * |calls|
    decreases calls
  {
    if calls == map[] {
    } else {
      var r :| r in calls && CallsSteps(calls) == CallSteps(calls[r]) + CallsSteps(calls - {r});
      var others := calls - {r};
      CallsStepsBounded(others);
      assert others.Keys == calls.Keys - {r} && |others.Keys| == |others| && |calls.Keys| == |calls|;
      assert CallSteps(calls[r]) <= 12;
    }
  }

  lemma {:induction false} WorkersStepsBounded(ws: seq<WorkerState>)
    ensures WorkersSteps(ws) <= 13 * |ws|
  {
    if ws == [] {
    } else {
      WorkersStepsBounded(ws[..|ws| - 1]);
    }
  }

  /** In numbers: at most 12 steps for each call and 14 for each worker, and one to return. */
  lemma StepsAfterStop(s: State, run: seq<Action>, more: seq<Action>)
    requires Init(s) && WellFormed(s) && Feasible(s, run) && Halting(After(s, run))
    requires Feasible(After(s, run), more) && Closed(more)
    ensures |more| <= 12 * |After(s, run).calls| + 14 * |s.ws| + 1
  {
    Reachable(s, run);
    var t := After(s, run);
    EveryRunEnds(t, more);
    CallsStepsBounded(t.calls);
    WorkersStepsBounded(t.ws);
  }

  ghost predicate NothingToDo(s: State)
    requires WellFormed(s)
  {
    forall a :: Enabled(s, a) ==> a.Submit?
  }

  /** A run can end only with every call returned, every worker gone and `stop` finished. */
  lemma EndsOnlyWhenDone(s: State)
    requires Inv(s) && Halting(s) && NothingToDo(s)
    ensures s.stopper == Stopped
    ensures forall r :: r in s.calls ==> s.calls[r] == Returned
    ensures forall w :: 0 <= w < |s.ws| ==> s.ws[w].pc == Exited
  {
    forall r | r in s.calls ensures s.calls[r] == Returned {
      if s.calls[r] != Returned {
        WaitChain(s, ByCall(r));
      }
    }
    forall w | 0 <= w < |s.ws| ensures s.ws[w].pc == Exited {
      if s.ws[w].pc != Exited {
        WaitChain(s, ByWorker(w));
      }
    }
    assert !Enabled(s, StopStep);
  }

  /** And there is such a run from every state in which `stop` has been called. */
  lemma {:induction false} Completes(s: State) returns (run: seq<Action>)
    requires Inv(s) && Halting(s)
    ensures Feasible(s, run) && Closed(run) && NothingToDo(After(s, run)) && Inv(After(s, run)) && Halting(After(s, run))
    decreases Potential(s)
  {
    assert WellFormed(s) && Feasible(s, []) && After(s, []) == s;
    hide Inv, WellFormed, Next, Enabled, Feasible, After, Potential, Halting;
    if NothingToDo(s) {
      run := [];
    } else {
      var a :| Enabled(s, a) && !a.Submit?;
      hide NothingToDo;
      NextKeepsInv(s, a);
      StepCounts(s, a);
      var rest := Completes(Next(s, a));
      Prepend(s, a, rest);
      run := [a] + rest;
    }
  }

  lemma {:induction false} ReachesAllWorkers(s: State) returns (run: seq<Action>)
    requires Inv(s) && s.stopper.Stopping?
    ensures Feasible(s, run) && Closed(run) && Inv(After(s, run)) && Halting(After(s, run))
    decreases |s.ws| - s.stopper.i
  {
    var t := Next(s, StopStep);
    NextKeepsInv(s, StopStep);
    var rest: seq<Action> := [];
    if t.stopper.Stopping? {
      rest := ReachesAllWorkers(t);
    }
    Prepend(s, StopStep, rest);
    run := [StopStep] + rest;
  }

  /** Stopping: from every reachable state in which `stop` has been called, the threads can go on until all workers
      have left `run` and `stop` returns; and once `stop` has reached all workers, they do so under every scheduler. */
  lemma StopCompletes(s: State, run: seq<Action>) returns (more: seq<Action>)
    requires Init(s) && WellFormed(s) && Feasible(s, run) && After(s, run).stopper != NotCalled
    ensures Feasible(s, run + more) && Closed(more)
    ensures var t := After(s, run + more);
            && t.stopper == Stopped && (forall w :: 0 <= w < |t.ws| ==> t.ws[w].pc == Exited)
            && (forall r :: r in t.calls ==> t.calls[r] == Returned)
  {
    Reachable(s, run);
    var t := After(s, run);
    var first: seq<Action> := [];
    if t.stopper.Stopping? {
      first := ReachesAllWorkers(t);
    }
    assert Inv(After(t, first)) && Halting(After(t, first));
    hide Inv, Potential;
    var rest := Completes(After(t, first));
    Join(t, first, rest);
    more := first + rest;
    Join(s, run, more);
    EndsOnlyWhenDone(After(s, run + more));
  }

  /** What stopping leaves of a submitted request: exactly one of processed, still queued, or abandoned with the one
      worker that was given it and has left. */
  lemma OutcomeAfterStop(s: State, run: seq<Action>, r: Request)
    requires Init(s) && WellFormed(s) && Feasible(s, run) && r in After(s, run).calls
    requires Halting(After(s, run)) && NothingToDo(After(s, run))
    ensures var t := After(s, run);
            exists p :: At(t, r, p) && (forall q :: At(t, r, q) ==> q == p)
                        && (p.Done? || p.Queued? || (p.Assigned? && p.w < |t.ws| && t.ws[p.w].pc.Exited?))
  {
    ExactlyOnce(s, run, r);
    Reachable(s, run);
    var t := After(s, run);
    EndsOnlyWhenDone(t);
    var p :| At(t, r, p) && forall q :: At(t, r, q) ==> q == p;
    hide Inv, NothingToDo, Feasible, After;
    assert !p.Held? && !p.InProcess? && !p.InFinish?;
  }

  // ---------------------------------------------------------------- before stop

  /** The steps from a place at which a worker can be ready to the end of `process`, at most. */
  function StepsToProcess(pc: WorkerPc): nat {
    match pc
    case TestWaitRunning => 10
    case TakeMutex => 9
    case StartWait => 8
    case Waiting => 7
    case Woken => 6
    case DropWorkersLock => 6
    case PopRequest => 6
    case DropRequestsLockHit => 5
    case TestWait => 5
    case TestRunning => 4
    case TestReady => 3
    case ClearReady => 2
    case Processing => 1
    case _ => 0
  }

  /** The steps that the call which holds a worker's mutex has still to make, at most. */
  function HolderSteps(s: State, w: WorkerId): nat
    requires WellFormed(s) && w < |s.ws|
  {
    if s.mutexes[w].ByCall? && s.mutexes[w].r in s.calls then CallSteps(s.calls[s.mutexes[w].r]) else 0
  }

  /** A worker that runs has this request and has not processed it. */
  predicate Has(s: State, w: WorkerId, r: Request) {
    w < |s.ws| && s.ws[w].running && s.ws[w].request == r && (s.ws[w].ready || s.ws[w].pc.Processing?)
  }

  lemma OwnStep(s: State, w: WorkerId, r: Request)
    requires Inv(s) && Has(s, w, r) && Enabled(s, Work(w))
    ensures var t := WorkStep(s, w);
            if s.ws[w].pc.Processing? then r in t.processed
            else Has(t, w, r) && StepsToProcess(t.ws[w].pc) < StepsToProcess(s.ws[w].pc)
  {
    assert WellFormed(s) && FlagsFit(s.ws[w]);
    hide Inv;
  }

  /** Who cannot step waits for its own mutex, and the call that holds it can. */
  lemma OthersStep(s: State, w: WorkerId, r: Request) returns (q: Request)
    requires Inv(s) && Has(s, w, r) && !Enabled(s, Work(w))
    ensures Enabled(s, Call(q))
    ensures var t := CallStep(s, q);
            WellFormed(t) && Has(t, w, r) && t.ws[w].pc == s.ws[w].pc && HolderSteps(t, w) < HolderSteps(s, w)
  {
    assert FlagsFit(s.ws[w]);
    HolderOfMutexGoesOn(s, w);
    assert WorkerHoldsMutex(s.ws[w].pc) <==> s.mutexes[w] == ByWorker(w);
    q := s.mutexes[w].r;
    assert CallHoldsMutex(s.calls[q], w);
    assert WellFormed(s);
    hide Inv;
    CallStepWellFormed(s, q);
    CallStepCounts(s, q);
    CallEffect(s, q);
    CallEffectOnWorkers(s, q);
    hide CallStep;
  }

  lemma {:induction false} Processes(s: State, w: WorkerId, r: Request) returns (run: seq<Action>)
    requires Inv(s) && Has(s, w, r)
    ensures Feasible(s, run) && OwnWork(run) && r in After(s, run).processed
    decreases StepsToProcess(s.ws[w].pc), HolderSteps(s, w)
  {
    assert WellFormed(s) && Feasible(s, []) && After(s, []) == s;
    var a := Work(w);
    if Enabled(s, Work(w)) {
      OwnStep(s, w, r);
    } else {
      var q := OthersStep(s, w, r);
      a := Call(q);
    }
    NextKeepsInv(s, a);
    var t := Next(s, a);
    assert WellFormed(t) && After(t, []) == t && Feasible(t, []);
    hide Inv, WellFormed, Next, WorkStep, CallStep, Feasible, After, Enabled;
    var rest: seq<Action> := [];
    if r !in t.processed {
      rest := Processes(t, w, r);
    }
    Prepend(s, a, rest);
    run := [a] + rest;
  }

  /** Steps of calls that are under way, and of workers. */
  ghost predicate OwnWork(run: seq<Action>) {
    forall i :: 0 <= i < |run| ==> run[i].Call? || run[i].Work?
  }

  /** Before `stop`, no request that has been given to a worker is stuck: from every reachable state there is a schedule
      of the threads under way, without a new call, in which it is processed. */
  lemma AssignedIsProcessed(s: State, run: seq<Action>, r: Request, w: WorkerId) returns (more: seq<Action>)
    requires Init(s) && WellFormed(s) && Feasible(s, run) && After(s, run).stopper == NotCalled
    requires At(After(s, run), r, Assigned(w))
    ensures Feasible(s, run + more) && OwnWork(more) && r in After(s, run + more).processed
  {
    Reachable(s, run);
    var t := After(s, run);
    more := Processes(t, w, r);
    Join(s, run, more);
  }
}
