/** `Dispatcher` and `Worker` as objects whose calls do not overlap, and that an uninterrupted call in the transition
    system does the same. */
module WorkerPool {
  import opened Queues
  import opened Dispatcher
  import opened DispatcherInvariant
  import opened DispatcherProgress

  // ---------------------------------------------------------------- what a call does

  datatype Slot = Slot(request: Request, ready: bool, running: bool)

  datatype Pool = Pool(requests: seq<Request>, workers: seq<WorkerId>, slots: seq<Slot>)

  /** What holds between calls: queued workers exist, occur once and are not ready, and one of the queues is empty. */
  ghost predicate Settled(p: Pool) {
    && (forall w :: w in p.workers ==> w < |p.slots| && !p.slots[w].ready)
    && NoDuplicates(p.workers)
    && (p.requests == [] || p.workers == [])
  }

  ghost predicate InRange(p: Pool) {
    forall w :: w in p.workers ==> w < |p.slots|
  }

  function Given(p: Pool, w: WorkerId, r: Request): Pool
    requires w < |p.slots|
  {
    p.(slots := p.slots[w := p.slots[w].(request := r, ready := true)])
  }

  /** `addRequest`: to the worker that has waited longest, or to the end of the queue. */
  function RequestAdded(p: Pool, r: Request): Pool
    requires InRange(p)
  {
    if p.workers == [] then p.(requests := p.requests + [r])
    else assert p.workers[0] in p.workers; Given(p, p.workers[0], r).(workers := p.workers[1..])
  }

  /** `addWorker`: to the request that has waited longest, or to the end of the queue. */
  function WorkerAdded(p: Pool, w: WorkerId): Pool
    requires w < |p.slots|
  {
    if p.requests == [] then p.(workers := p.workers + [w])
    else Given(p, w, p.requests[0]).(requests := p.requests[1..])
  }

  lemma RequestAddedSettles(p: Pool, r: Request)
    requires Settled(p)
    ensures Settled(RequestAdded(p, r))
  {
    var p' := RequestAdded(p, r);
    if p.workers != [] {
      forall w | w in p'.workers ensures w < |p'.slots| && !p'.slots[w].ready {
        var i :| 0 <= i < |p'.workers| && p'.workers[i] == w;
        assert p.workers[i + 1] == w && w in p.workers && w != p.workers[0];
      }
    }
  }

  lemma WorkerAddedSettles(p: Pool, w: WorkerId)
    requires Settled(p) && w < |p.slots| && w !in p.workers && !p.slots[w].ready
    ensures Settled(WorkerAdded(p, w))
  {
  }

  // ---------------------------------------------------------------- the objects

  class Worker {
    var request: Request
    var running: bool
    var ready: bool

    constructor ()
      ensures running && !ready
    {
      running, ready, request := true, false, 0;
    }

    function State(): Slot
      reads this
    {
      Slot(request, ready, running)
    }

    method SetRequest(r: Request)
      modifies this
      ensures State() == old(State()).(request := r, ready := true)
    {
      request := r;
      ready := true;
    }

    method Stop()
      modifies this
      ensures State() == old(State()).(running := false)
    {
      running := false;
    }
  }

  class WorkDispatcher {
    var allWorkers: seq<Worker>
    var requests: seq<Request>
    var workers: seq<WorkerId>

    constructor ()
      ensures Valid() && fresh(allWorkers) && Value() == Pool([], [], [])
    {
      allWorkers, requests, workers := [], [], [];
    }

    function Slots(): (slots: seq<Slot>)
      reads this, allWorkers
      ensures |slots| == |allWorkers| && forall w :: 0 <= w < |slots| ==> slots[w] == allWorkers[w].State()
    {
      seq(|allWorkers|, w requires 0 <= w < |allWorkers| reads this, allWorkers => allWorkers[w].State())
    }

    function Value(): Pool
      reads this, allWorkers
    {
      Pool(requests, workers, Slots())
    }

    ghost predicate Valid()
      reads this, allWorkers
    {
      NoDuplicates(allWorkers) && Settled(Value())
    }

    /** `init`: so many workers more, none of them ready, each new. */
    method Init(count: nat)
      requires Valid()
      modifies this
      ensures Valid() && requests == old(requests) && workers == old(workers)
      ensures |allWorkers| == |old(allWorkers)| + count && allWorkers[..|old(allWorkers)|] == old(allWorkers)
      ensures Slots()[..|old(allWorkers)|] == old(Slots())
      ensures forall w :: |old(allWorkers)| <= w < |allWorkers| ==>
                fresh(allWorkers[w]) && allWorkers[w].running && !allWorkers[w].ready
    {
      var i := 0;
      while i < count
        invariant i <= count
        invariant requests == old(requests) && workers == old(workers)
        invariant |allWorkers| == |old(allWorkers)| + i && allWorkers[..|old(allWorkers)|] == old(allWorkers)
        invariant forall w :: |old(allWorkers)| <= w < |allWorkers| ==>
                    fresh(allWorkers[w]) && allWorkers[w].running && !allWorkers[w].ready
        invariant NoDuplicates(allWorkers)
        invariant forall w :: 0 <= w < |old(allWorkers)| ==> allWorkers[w].State() == old(allWorkers[w].State())
      {
        var w := new Worker();
        allWorkers := allWorkers + [w];
        i := i + 1;
      }
      assert forall w :: 0 <= w < |old(allWorkers)| ==> Slots()[w] == old(Slots())[w];
    }

    /** `addRequest` */
    method AddRequest(r: Request)
      requires Valid()
      modifies this, allWorkers
      ensures Valid() && allWorkers == old(allWorkers) && Value() == RequestAdded(old(Value()), r)
    {
      ghost var p := Value();
      if workers != [] {
        assert workers[0] in workers;
        var worker := allWorkers[workers[0]];
        worker.SetRequest(r);
        workers := workers[1..];
        assert Slots() == Given(p, p.workers[0], r).slots;
      } else {
        requests := requests + [r];
        assert Slots() == p.slots;
      }
      RequestAddedSettles(p, r);
    }

    /** `addWorker`: whether the worker has to wait. */
    method AddWorker(w: WorkerId) returns (wait: bool)
      requires Valid() && w < |allWorkers| && w !in workers && !allWorkers[w].ready
      modifies this, allWorkers[w]
      ensures Valid() && allWorkers == old(allWorkers) && Value() == WorkerAdded(old(Value()), w)
      ensures wait == (old(requests) == [])
    {
      ghost var p := Value();
      wait := true;
      if requests != [] {
        allWorkers[w].SetRequest(requests[0]);
        requests := requests[1..];
        wait := false;
        assert Slots() == Given(p, w, p.requests[0]).slots;
      } else {
        workers := workers + [w];
        assert Slots() == p.slots;
      }
      WorkerAddedSettles(p, w);
    }

    /** The first half of a round of `run`, what the request does left out. */
    method Process(w: WorkerId)
      requires Valid() && w < |allWorkers| && w !in workers
      modifies allWorkers[w]
      ensures Valid() && allWorkers[w].State() == old(allWorkers[w].State()).(ready := false)
      ensures forall v :: 0 <= v < |allWorkers| && v != w ==> allWorkers[v].State() == old(allWorkers[v].State())
    {
      allWorkers[w].ready := false;
    }

    /** A worker's `run` until it waits or ends: it works off its own request and then the whole queue, in order. */
    method Run(w: WorkerId) returns (processed: seq<Request>)
      requires Valid() && w < |allWorkers| && w !in workers
      modifies this, allWorkers[w]
      ensures Valid() && allWorkers == old(allWorkers) && allWorkers[w].running == old(allWorkers[w].running)
      ensures forall v :: 0 <= v < |allWorkers| && v != w ==> allWorkers[v].State() == old(allWorkers[v].State())
      ensures !old(allWorkers[w].running) ==> processed == [] && Value() == old(Value())
      ensures old(allWorkers[w].running) ==>
                && processed == (if old(allWorkers[w].ready) then [old(allWorkers[w].request)] else []) + old(requests)
                && requests == [] && workers == old(workers) + [w] && !allWorkers[w].ready
    {
      processed := [];
      var waiting := false;
      while allWorkers[w].running && !waiting
        invariant Valid() && allWorkers == old(allWorkers)
        invariant allWorkers[w].running == old(allWorkers[w].running)
        invariant forall v :: 0 <= v < |allWorkers| && v != w ==> allWorkers[v].State() == old(allWorkers[v].State())
        invariant !waiting ==> workers == old(workers) && w !in workers
        invariant waiting ==> requests == [] && workers == old(workers) + [w] && !allWorkers[w].ready
        invariant processed + (if allWorkers[w].ready then [allWorkers[w].request] else []) + requests
                  == (if old(allWorkers[w].ready) then [old(allWorkers[w].request)] else []) + old(requests)
        invariant !old(allWorkers[w].running) ==> processed == [] && Value() == old(Value())
        decreases if waiting then 0 else 1, |requests|
      {
        if allWorkers[w].ready {
          Process(w);
          processed := processed + [allWorkers[w].request];
        }
        waiting := AddWorker(w);
      }
    }

    /** The first loop of `stop`. */
    method Stop()
      requires Valid()
      modifies allWorkers
      ensures Valid() && forall w :: 0 <= w < |allWorkers| ==>
                           allWorkers[w].State() == old(allWorkers[w].State()).(running := false)
    {
      var i := 0;
      while i < |allWorkers|
        invariant i <= |allWorkers|
        invariant forall w :: 0 <= w < |allWorkers| ==>
                    allWorkers[w].State() == old(allWorkers[w].State()).(running := w >= i && old(allWorkers[w].running))
      {
        allWorkers[i].Stop();
        i := i + 1;
      }
    }
  }

  // ---------------------------------------------------------------- the same as the transition system

  function PoolOf(s: State): Pool {
    Pool(s.requests, s.workers, seq(|s.ws|, w requires 0 <= w < |s.ws| => SlotOf(s.ws[w])))
  }

  function SlotOf(me: WorkerState): Slot {
    Slot(me.request, me.ready, me.running)
  }

  /** Nobody else holds a mutex. */
  predicate AloneAt(s: State, me: Owner) {
    && (s.requestsMutex == Free || s.requestsMutex == me)
    && (s.workersMutex == Free || s.workersMutex == me)
    && (forall w :: 0 <= w < |s.mutexes| ==> s.mutexes[w] == Free || s.mutexes[w] == me)
  }

  function Popped<T>(q: seq<T>): seq<T> {
    if q == [] then [] else q[1..]
  }

  /** What a call makes of the queues and workers from its present place on, if nobody interrupts it. */
  function CallOutcome(s: State, r: Request): Pool
    requires WellFormed(s) && r in s.calls
  {
    var p := PoolOf(s);
    match s.calls[r]
    case LockWorkers => RequestAdded(p, r)
    case CheckWorkers => RequestAdded(p, r)
    case SetRequest(w) => Given(p, w, r).(workers := Popped(p.workers))
    case SetReady(w) => p.(slots := p.slots[w := p.slots[w].(ready := true)], workers := Popped(p.workers))
    case LockWorker(_) => p.(workers := Popped(p.workers))
    case NotifyWorker(_) => p.(workers := Popped(p.workers))
    case PopWorker(_) => p.(workers := Popped(p.workers))
    case UnlockWorkersEmpty => p.(requests := p.requests + [r])
    case LockRequests => p.(requests := p.requests + [r])
    case PushRequest => p.(requests := p.requests + [r])
    case _ => p
  }

  lemma CallOutcomeKept(s: State, r: Request)
    requires WellFormed(s) && Enabled(s, Call(r)) && WellFormed(CallStep(s, r))
    ensures r in CallStep(s, r).calls && CallOutcome(CallStep(s, r), r) == CallOutcome(s, r)
  {
    var t := CallStep(s, r);
    match s.calls[r]
    case LockWorkers => assert PoolOf(t) == PoolOf(s);
    case CheckWorkers => assert PoolOf(t) == PoolOf(s);
    case SetRequest(w) =>
    case SetReady(w) =>
    case LockWorker(w) => assert PoolOf(t) == PoolOf(s);
    case NotifyWorker(w) => assert PoolOf(t) == PoolOf(s);
    case PopWorker(w) => assert PoolOf(t).slots == PoolOf(s).slots;
    case UnlockWorkersAfterPop(w) => assert PoolOf(t) == PoolOf(s);
    case UnlockWorker(w) => assert PoolOf(t) == PoolOf(s);
    case UnlockWorkersEmpty => assert PoolOf(t) == PoolOf(s);
    case LockRequests => assert PoolOf(t) == PoolOf(s);
    case PushRequest => assert PoolOf(t).slots == PoolOf(s).slots;
    case UnlockRequests => assert PoolOf(t) == PoolOf(s);
    case Returned =>
  }

  lemma AloneKept(s: State, a: Action, me: Owner)
    requires WellFormed(s) && Enabled(s, a) && AloneAt(s, me) && me != Free && a == Thread(me)
    requires WellFormed(Next(s, a))
    ensures AloneAt(Next(s, a), me)
  {
    hide CallStep, WorkStep;
    match a
    case Call(r) =>
      CallEffect(s, r);
      CallEffectOnWorkers(s, r);
    case Work(w) =>
      WorkEffect(s, w);
      WorkEffectOnRequests(s, w);
      WorkEffectOnMutex(s, w);
      WorkEffectOnOthers(s, w);
  }

  /** Nobody waits for himself, so who is alone can step. */
  lemma AloneSteps(s: State, me: Owner)
    requires Inv(s) && AloneAt(s, me) && me != Free && Exists(s, me) && !Finished(s, me)
    ensures Enabled(s, Thread(me))
  {
  }

  /** A call of `addRequest` that nobody interrupts does to the queues and workers what the method does. */
  lemma {:induction false} CallAlone(s: State, r: Request) returns (run: seq<Action>)
    requires Inv(s) && r in s.calls && AloneAt(s, ByCall(r))
    ensures Feasible(s, run) && forall i :: 0 <= i < |run| ==> run[i] == Call(r)
    ensures var t := After(s, run);
            r in t.calls && t.calls[r] == Returned && PoolOf(t) == CallOutcome(s, r) && AloneAt(t, ByCall(r))
    decreases CallSteps(s.calls[r])
  {
    assert WellFormed(s);
    if s.calls[r] == Returned {
      run := [];
    } else {
      AloneSteps(s, ByCall(r));
      var t := CallStep(s, r);
      NextKeepsInv(s, Call(r));
      AloneKept(s, Call(r), ByCall(r));
      CallStepCounts(s, r);
      CallOutcomeKept(s, r);
      assert t == Next(s, Call(r));
      hide Inv, CallStep, Next, Enabled, AloneAt, CallOutcome, Feasible, After;
      var rest := CallAlone(t, r);
      Prepend(s, Call(r), rest);
      run := [Call(r)] + rest;
    }
  }

  predicate InAddWorker(pc: WorkerPc) {
    pc.Finishing? || pc.TakeRequestsLock? || pc.CheckRequests? || pc.CopyRequest? || pc.RaiseReady? || pc.PopRequest?
    || pc.DropRequestsLockHit? || pc.DropRequestsLockMiss? || pc.TakeWorkersLock? || pc.Park? || pc.DropWorkersLock?
  }

  /** Whether `addWorker` returns true, if nobody interrupts it. */
  predicate WorkerWaits(s: State, w: WorkerId)
    requires w < |s.ws|
  {
    var pc := s.ws[w].pc;
    if pc.Finishing? || pc.TakeRequestsLock? || pc.CheckRequests? then s.requests == []
    else pc.DropRequestsLockMiss? || pc.TakeWorkersLock? || pc.Park? || pc.DropWorkersLock?
  }

  /** What `addWorker` makes of the queues and workers from the worker's present place on, if nobody interrupts it. */
  function WorkerOutcome(s: State, w: WorkerId): Pool
    requires WellFormed(s) && w < |s.ws|
  {
    var p := PoolOf(s);
    match s.ws[w].pc
    case Finishing => WorkerAdded(p, w)
    case TakeRequestsLock => WorkerAdded(p, w)
    case CheckRequests => WorkerAdded(p, w)
    case CopyRequest => WorkerAdded(p, w)
    case RaiseReady => p.(slots := p.slots[w := p.slots[w].(ready := true)], requests := Popped(p.requests))
    case PopRequest => p.(requests := Popped(p.requests))
    case DropRequestsLockMiss => p.(workers := p.workers + [w])
    case TakeWorkersLock => p.(workers := p.workers + [w])
    case Park => p.(workers := p.workers + [w])
    case _ => p
  }

  lemma AddWorkerGoesOn(s: State, w: WorkerId)
    requires WellFormed(s) && Enabled(s, Work(w)) && InAddWorker(s.ws[w].pc)
    ensures var t := WorkStep(s, w);
            && |t.ws| == |s.ws|
            && WorkerSteps(t.ws[w].pc) < WorkerSteps(s.ws[w].pc)
            && (InAddWorker(t.ws[w].pc) || t.ws[w].pc.TestRunning? || t.ws[w].pc.TestWait?)
            && (t.ws[w].pc.CopyRequest? ==> t.requests != [])
            && (InAddWorker(t.ws[w].pc) ==> (WorkerWaits(t, w) <==> WorkerWaits(s, w)))
            && (!InAddWorker(t.ws[w].pc) ==> (t.ws[w].pc.TestWait? <==> WorkerWaits(s, w)))
  {
    match s.ws[w].pc
    case Finishing => case TakeRequestsLock => case CheckRequests => case CopyRequest => case RaiseReady =>
    case PopRequest => case DropRequestsLockHit => case DropRequestsLockMiss => case TakeWorkersLock => case Park =>
    case DropWorkersLock => case _ =>
  }

  lemma WorkerOutcomeKept(s: State, w: WorkerId)
    requires WellFormed(s) && Enabled(s, Work(w)) && InAddWorker(s.ws[w].pc)
    requires s.ws[w].pc.CopyRequest? ==> s.requests != []
    ensures WellFormed(WorkStep(s, w)) && |WorkStep(s, w).ws| == |s.ws|
    ensures WorkerOutcome(WorkStep(s, w), w) == WorkerOutcome(s, w)
  {
    NextWellFormed(s, Work(w));
    if s.ws[w].pc.CopyRequest? || s.ws[w].pc.RaiseReady? {
      SetRequestKeepsOutcome(s, w);
    } else {
      QueueStepKeepsOutcome(s, w);
    }
  }

  lemma SetRequestKeepsOutcome(s: State, w: WorkerId)
    requires WellFormed(s) && w < |s.ws| && WellFormed(WorkStep(s, w))
    requires (s.ws[w].pc.CopyRequest? && s.requests != []) || s.ws[w].pc.RaiseReady?
    ensures |WorkStep(s, w).ws| == |s.ws| && WorkerOutcome(WorkStep(s, w), w) == WorkerOutcome(s, w)
  {
  }

  lemma QueueStepKeepsOutcome(s: State, w: WorkerId)
    requires WellFormed(s) && w < |s.ws| && WellFormed(WorkStep(s, w))
    requires InAddWorker(s.ws[w].pc) && !s.ws[w].pc.CopyRequest? && !s.ws[w].pc.RaiseReady?
    ensures |WorkStep(s, w).ws| == |s.ws| && WorkerOutcome(WorkStep(s, w), w) == WorkerOutcome(s, w)
  {
    hide WellFormed;
    var t := WorkStep(s, w);
    assert PoolOf(t).slots == PoolOf(s).slots;
    match s.ws[w].pc
    case Finishing => case TakeRequestsLock => case CheckRequests => case PopRequest => case DropRequestsLockHit =>
    case DropRequestsLockMiss => case TakeWorkersLock => case Park => case DropWorkersLock => case _ =>
  }

  /** A worker that is alone makes its next step, and is alone after it. */
  lemma AloneStep(s: State, w: WorkerId)
    requires Inv(s) && w < |s.ws| && !s.ws[w].pc.Exited? && AloneAt(s, ByWorker(w))
    ensures WellFormed(s) && Enabled(s, Work(w)) && Next(s, Work(w)) == WorkStep(s, w)
    ensures var t := WorkStep(s, w);
            Inv(t) && WellFormed(t) && AloneAt(t, ByWorker(w)) && Feasible(t, []) && After(t, []) == t
  {
    AloneSteps(s, ByWorker(w));
    NextKeepsInv(s, Work(w));
    AloneKept(s, Work(w), ByWorker(w));
  }

  /** The same for `addWorker`. */
  lemma {:induction false} WorkerAlone(s: State, w: WorkerId) returns (run: seq<Action>)
    requires Inv(s) && w < |s.ws| && InAddWorker(s.ws[w].pc) && AloneAt(s, ByWorker(w))
    requires s.ws[w].pc.CopyRequest? ==> s.requests != []
    ensures Feasible(s, run) && forall i :: 0 <= i < |run| ==> run[i] == Work(w)
    ensures var t := After(s, run);
            t.ws[w].pc == (if WorkerWaits(s, w) then TestWait else TestRunning) && PoolOf(t) == WorkerOutcome(s, w)
    decreases WorkerSteps(s.ws[w].pc)
  {
    hide Inv, AloneAt, WellFormed, Next, Enabled, Feasible, After;
    AloneStep(s, w);
    var t := WorkStep(s, w);
    AddWorkerGoesOn(s, w);
    WorkerOutcomeKept(s, w);
    assert InAddWorker(t.ws[w].pc) || WorkerOutcome(t, w) == PoolOf(t);
    hide WorkStep, WorkerOutcome, WorkerWaits, WorkerSteps;
    var rest: seq<Action> := [];
    if InAddWorker(t.ws[w].pc) {
      rest := WorkerAlone(t, w);
    }
    Prepend(s, Work(w), rest);
    run := [Work(w)] + rest;
  }

  /** Whole calls, with every mutex free: the queues change as those of the objects do. */
  lemma CallsRefine(s: State, r: Request, w: WorkerId) returns (call: seq<Action>, work: seq<Action>)
    requires Inv(s) && AloneAt(s, Free) && r in s.calls && s.calls[r] == LockWorkers
    requires w < |s.ws| && s.ws[w].pc == TakeRequestsLock
    ensures Feasible(s, call) && (forall i :: 0 <= i < |call| ==> call[i] == Call(r))
    ensures PoolOf(After(s, call)) == RequestAdded(PoolOf(s), r) && After(s, call).calls[r] == Returned
    ensures Feasible(s, work) && (forall i :: 0 <= i < |work| ==> work[i] == Work(w))
    ensures PoolOf(After(s, work)) == WorkerAdded(PoolOf(s), w)
    ensures After(s, work).ws[w].pc == if s.requests == [] then TestWait else TestRunning
  {
    call := CallAlone(s, r);
    work := WorkerAlone(s, w);
  }

  // ---------------------------------------------------------------- a worker's run on its own

  /** The places of the loop before it waits. */
  predicate InRun(pc: WorkerPc) {
    InAddWorker(pc) || pc.TestRunning? || pc.TestReady? || pc.ClearReady? || pc.Processing?
  }

  /** What the worker will process before it waits: the request it has, and those in the queue. */
  function ToDo(s: State, w: WorkerId): seq<Request>
    requires w < |s.ws|
  {
    var me := s.ws[w];
    if me.pc.ClearReady? || me.pc.Processing? then [me.request] + s.requests
    else if me.pc.RaiseReady? || me.pc.PopRequest? then [me.request] + Popped(s.requests)
    else if me.pc.TestRunning? || me.pc.TestReady? || me.pc.DropRequestsLockHit? then
      (if me.ready then [me.request] else []) + s.requests
    else s.requests
  }

  /** It has found the queue of requests empty. */
  predicate Missed(pc: WorkerPc) {
    pc.DropRequestsLockMiss? || pc.TakeWorkersLock? || pc.Park? || pc.DropWorkersLock? || pc.TestWait?
  }

  /** What holds at those places when nobody interrupts. */
  predicate OnItsOwn(s: State, w: WorkerId) {
    && w < |s.ws| && s.ws[w].running
    && var me := s.ws[w];
       && (me.pc.CopyRequest? || me.pc.RaiseReady? || me.pc.PopRequest? ==> s.requests != [])
       && (me.pc.RaiseReady? || me.pc.PopRequest? ==> me.request == s.requests[0])
       && (me.pc.ClearReady? || me.pc.PopRequest? || me.pc.DropRequestsLockHit? ==> me.ready)
       && (me.pc.Processing? || me.pc.Finishing? || me.pc.TakeRequestsLock? || me.pc.CheckRequests? ==> !me.ready)
       && (Missed(me.pc) ==> s.requests == [] && !me.ready)
  }

  function RunSteps(me: WorkerState): nat {
    match me.pc
    case TestRunning => if me.ready then 13 else 22
    case TestReady => if me.ready then 12 else 21
    case Finishing => 20
    case TakeRequestsLock => 19
    case CheckRequests => 18
    case CopyRequest => 17
    case RaiseReady => 16
    case PopRequest => 15
    case DropRequestsLockHit => 14
    case ClearReady => 11
    case Processing => 10
    case DropRequestsLockMiss => 4
    case TakeWorkersLock => 3
    case Park => 2
    case DropWorkersLock => 1
    case _ => 0
  }

  lemma RunStep(s: State, w: WorkerId)
    requires WellFormed(s) && OnItsOwn(s, w) && InRun(s.ws[w].pc)
    ensures var t := WorkStep(s, w);
            && OnItsOwn(t, w) && (InRun(t.ws[w].pc) || t.ws[w].pc.TestWait?)
            && t.workers == s.workers + (if s.ws[w].pc.Park? then [w] else [])
            && (t.ws[w].pc.DropWorkersLock? <==> s.ws[w].pc.Park?)
            && (t.ws[w].pc.TestWait? <==> s.ws[w].pc.DropWorkersLock?)
  {
  }

  lemma RunStepCounts(s: State, w: WorkerId)
    requires WellFormed(s) && OnItsOwn(s, w) && InRun(s.ws[w].pc)
    ensures var t := WorkStep(s, w);
            && |t.ws| == |s.ws|
            && |ToDo(t, w)| + (if s.ws[w].pc.Processing? then 1 else 0) == |ToDo(s, w)|
            && (!s.ws[w].pc.Processing? ==> RunSteps(t.ws[w]) < RunSteps(s.ws[w]))
  {
  }

  lemma RunStepProcesses(s: State, w: WorkerId)
    requires WellFormed(s) && OnItsOwn(s, w) && InRun(s.ws[w].pc)
    ensures var t := WorkStep(s, w);
            |t.ws| == |s.ws| && t.processed + ToDo(t, w) == s.processed + ToDo(s, w)
  {
    var t := WorkStep(s, w);
    if s.ws[w].pc.Processing? {
      assert s.processed + ([s.ws[w].request] + s.requests) == (s.processed + [s.ws[w].request]) + s.requests;
    } else {
      assert ToDo(t, w) == ToDo(s, w);
    }
  }

  /** A worker that nobody interrupts processes its own request and then the queue, in order, and parks, as the method
      `Run` does. */
  lemma {:induction false} RunAlone(s: State, w: WorkerId) returns (run: seq<Action>)
    requires Inv(s) && OnItsOwn(s, w) && InRun(s.ws[w].pc) && AloneAt(s, ByWorker(w))
    ensures Feasible(s, run) && forall i :: 0 <= i < |run| ==> run[i] == Work(w)
    ensures var t := After(s, run);
            && t.ws[w].pc.TestWait? && !t.ws[w].ready && t.requests == []
            && t.processed == s.processed + ToDo(s, w)
            && t.workers == s.workers + if s.ws[w].pc.DropWorkersLock? then [] else [w]
    decreases |ToDo(s, w)|, RunSteps(s.ws[w])
  {
    hide Inv, AloneAt, WellFormed, Next, Enabled, WorkStep, Feasible, After;
    AloneStep(s, w);
    var t := WorkStep(s, w);
    RunStep(s, w);
    RunStepCounts(s, w);
    RunStepProcesses(s, w);
    assert t.ws[w].pc.TestWait? ==> ToDo(t, w) == [] && t.requests == [] && !t.ws[w].ready;
    hide ToDo, OnItsOwn, RunSteps;
    var rest: seq<Action> := [];
    if !t.ws[w].pc.TestWait? {
      rest := RunAlone(t, w);
    }
    Prepend(s, Work(w), rest);
    run := [Work(w)] + rest;
  }
}
