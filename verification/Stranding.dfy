/** A request and a worker can wait for each other: a run that gets there, and that nothing the workers do ends it. */
module Stranding {
  import opened Dispatcher

  // ---------------------------------------------------------------- no way out

  predicate InWaitLoop(pc: WorkerPc) {
    pc.DropWorkersLock? || pc.TestWait? || pc.TestWaitRunning? || pc.TakeMutex? || pc.StartWait? || pc.Waiting?
    || pc.Woken?
  }

  /** No call of `addRequest` is under way, and every worker is in its wait loop without a request. */
  ghost predicate Idle(s: State) {
    && (forall r :: r in s.calls ==> s.calls[r].Returned?)
    && (forall w :: 0 <= w < |s.ws| ==> InWaitLoop(s.ws[w].pc) && !s.ws[w].ready && s.ws[w].running)
  }

  /** Nobody submits a request or calls `stop`. */
  ghost predicate Unaided(run: seq<Action>) {
    forall i :: 0 <= i < |run| ==> !run[i].Submit? && !run[i].CallStop?
  }

  lemma IdleStep(s: State, w: WorkerId)
    requires WellFormed(s) && Idle(s) && Enabled(s, Work(w))
    ensures var t := Next(s, Work(w));
            Idle(t) && t.requests == s.requests && t.workers == s.workers && t.processed == s.processed
  {
  }

  /** As long as nothing is submitted and `stop` is not called, idle workers stay idle, whatever lies in the queue of
      requests: they time out, wake up and wait again. */
  lemma {:induction false} IdleForever(s: State, run: seq<Action>)
    requires WellFormed(s) && Idle(s) && Feasible(s, run)
    requires Unaided(run)
    requires s.stopper == NotCalled
    ensures var t := After(s, run);
            Idle(t) && t.requests == s.requests && t.workers == s.workers && t.processed == s.processed
            && t.stopper == NotCalled
  {
    if run == [] {
    } else {
      var front, a := run[..|run| - 1], run[|run| - 1];
      IdleForever(s, front);
      var t := After(s, front);
      match a
      case Work(w) => IdleStep(t, w);
      case _ =>
    }
  }

  // ---------------------------------------------------------------- the way in

  /** One worker; its steps and those of one call. */
  function Small(call: map<Request, CallPc>, pc: WorkerPc, requests: seq<Request>, workers: seq<WorkerId>,
                 requestsMutex: Owner, workersMutex: Owner): State
  {
    State(call, [WorkerState(pc, 0, false, true)], requests, workers, requestsMutex, workersMutex, [Free], NotCalled,
          [], [])
  }

  lemma Go(s: State, before: seq<Action>, a: Action, t: State) returns (run: seq<Action>)
    requires WellFormed(s) && Feasible(s, before) && Enabled(After(s, before), a) && Next(After(s, before), a) == t
    ensures Feasible(s, run) && After(s, run) == t
  {
    Extend(s, before, a);
    run := before + [a];
  }

  lemma WorkerLooks(s: State) returns (run: seq<Action>)
    requires s == Small(map[], TestRunning, [], [], Free, Free) && WellFormed(s)
    ensures Feasible(s, run) && After(s, run) == Small(map[], CheckRequests, [], [], ByWorker(0), Free)
  {
    assert Feasible(s, []) && After(s, []) == s;
    hide Feasible, After;
    run := Go(s, [], Work(0), Small(map[], TestReady, [], [], Free, Free));
    run := Go(s, run, Work(0), Small(map[], TakeRequestsLock, [], [], Free, Free));
    run := Go(s, run, Work(0), Small(map[], CheckRequests, [], [], ByWorker(0), Free));
  }

  lemma WorkerFindsNothing(s: State) returns (run: seq<Action>)
    requires s == Small(map[], CheckRequests, [], [], ByWorker(0), Free) && WellFormed(s)
    ensures Feasible(s, run) && After(s, run) == Small(map[], TakeWorkersLock, [], [], Free, Free)
  {
    assert Feasible(s, []) && After(s, []) == s;
    hide Feasible, After;
    run := Go(s, [], Work(0), Small(map[], DropRequestsLockMiss, [], [], ByWorker(0), Free));
    run := Go(s, run, Work(0), Small(map[], TakeWorkersLock, [], [], Free, Free));
  }

  lemma WorkerMisses(s: State) returns (run: seq<Action>)
    requires s == Small(map[], TestRunning, [], [], Free, Free) && WellFormed(s)
    ensures Feasible(s, run) && After(s, run) == Small(map[], TakeWorkersLock, [], [], Free, Free)
  {
    hide WellFormed, Feasible, After;
    var first := WorkerLooks(s);
    var second := WorkerFindsNothing(After(s, first));
    Join(s, first, second);
    run := first + second;
  }

  lemma CallMisses(s: State) returns (run: seq<Action>)
    requires s == Small(map[], TakeWorkersLock, [], [], Free, Free) && WellFormed(s)
    ensures Feasible(s, run)
    ensures After(s, run) == Small(map[0 := UnlockWorkersEmpty], TakeWorkersLock, [], [], Free, ByCall(0))
  {
    assert Feasible(s, []) && After(s, []) == s;
    hide Feasible, After;
    run := Go(s, [], Submit(0), Small(map[0 := LockWorkers], TakeWorkersLock, [], [], Free, Free));
    run := Go(s, run, Call(0), Small(map[0 := CheckWorkers], TakeWorkersLock, [], [], Free, ByCall(0)));
    run := Go(s, run, Call(0), Small(map[0 := UnlockWorkersEmpty], TakeWorkersLock, [], [], Free, ByCall(0)));
  }

  lemma CallPushes(s: State) returns (run: seq<Action>)
    requires s == Small(map[0 := UnlockWorkersEmpty], TakeWorkersLock, [], [], Free, ByCall(0)) && WellFormed(s)
    ensures Feasible(s, run) && After(s, run) == Small(map[0 := Returned], TakeWorkersLock, [0], [], Free, Free)
  {
    assert Feasible(s, []) && After(s, []) == s;
    hide Feasible, After;
    run := Go(s, [], Call(0), Small(map[0 := LockRequests], TakeWorkersLock, [], [], Free, Free));
    run := Go(s, run, Call(0), Small(map[0 := PushRequest], TakeWorkersLock, [], [], ByCall(0), Free));
    run := Go(s, run, Call(0), Small(map[0 := UnlockRequests], TakeWorkersLock, [0], [], ByCall(0), Free));
    run := Go(s, run, Call(0), Small(map[0 := Returned], TakeWorkersLock, [0], [], Free, Free));
  }

  lemma WorkerParks(s: State) returns (run: seq<Action>)
    requires s == Small(map[0 := Returned], TakeWorkersLock, [0], [], Free, Free) && WellFormed(s)
    ensures Feasible(s, run) && After(s, run) == Small(map[0 := Returned], TestWait, [0], [0], Free, Free)
  {
    assert Feasible(s, []) && After(s, []) == s;
    hide Feasible, After;
    run := Go(s, [], Work(0), Small(map[0 := Returned], Park, [0], [], Free, ByWorker(0)));
    run := Go(s, run, Work(0), Small(map[0 := Returned], DropWorkersLock, [0], [0], Free, ByWorker(0)));
    run := Go(s, run, Work(0), Small(map[0 := Returned], TestWait, [0], [0], Free, Free));
  }

  lemma BothMiss(s: State) returns (run: seq<Action>)
    requires s == Small(map[], TestRunning, [], [], Free, Free) && WellFormed(s)
    ensures Feasible(s, run) && After(s, run) == Small(map[0 := Returned], TestWait, [0], [0], Free, Free)
  {
    hide WellFormed, Feasible, After;
    var first := WorkerMisses(s);
    var second := CallMisses(After(s, first));
    Join(s, first, second);
    var third := CallPushes(After(s, first + second));
    Join(s, first + second, third);
    var fourth := WorkerParks(After(s, first + second + third));
    Join(s, first + second + third, fourth);
    run := first + second + third + fourth;
  }

  /** The worker sees the queue of requests empty, the call sees the queue of workers empty, and both push. From then
      on the request stays where it is, however the workers go on. */
  lemma RequestStranded() returns (s: State, run: seq<Action>)
    ensures Init(s) && WellFormed(s) && Feasible(s, run)
    ensures After(s, run).requests == [0] && After(s, run).workers == [0] && Idle(After(s, run))
    ensures forall more: seq<Action> :: Feasible(After(s, run), more) && Unaided(more) ==>
              After(After(s, run), more).requests == [0] && After(After(s, run), more).processed == []
  {
    s := Small(map[], TestRunning, [], [], Free, Free);
    run := BothMiss(s);
    var t := After(s, run);
    assert Idle(t) && t.requests == [0] && t.processed == [] && t.stopper == NotCalled;
    hide Small, Idle, Unaided, WellFormed, Feasible, After;
    forall more: seq<Action> | Feasible(t, more) && Unaided(more)
      ensures After(t, more).requests == [0] && After(t, more).processed == []
    {
      IdleForever(t, more);
    }
  }
}
