/** What every reachable state of the dispatcher keeps: who holds which mutex, and in what condition the queued
    workers are, although a producer gives a worker its request before it takes the worker off the queue. */
module DispatcherInvariant {
  import opened Queues
  import opened Dispatcher

  // ---------------------------------------------------------------- mutexes

  predicate CallHoldsWorkers(pc: CallPc) {
    pc.CheckWorkers? || pc.SetRequest? || pc.SetReady? || pc.LockWorker? || pc.NotifyWorker? || pc.PopWorker?
    || pc.UnlockWorkersAfterPop? || pc.UnlockWorkersEmpty?
  }

  predicate CallHoldsRequests(pc: CallPc) {
    pc.PushRequest? || pc.UnlockRequests?
  }

  predicate CallHoldsMutex(pc: CallPc, w: WorkerId) {
    (pc.NotifyWorker? || pc.PopWorker? || pc.UnlockWorkersAfterPop? || pc.UnlockWorker?) && Target(pc) == w
  }

  predicate WorkerHoldsWorkers(pc: WorkerPc) {
    pc.Park? || pc.DropWorkersLock?
  }

  predicate WorkerHoldsRequests(pc: WorkerPc) {
    pc.CheckRequests? || pc.CopyRequest? || pc.RaiseReady? || pc.PopRequest? || pc.DropRequestsLockHit?
    || pc.DropRequestsLockMiss?
  }

  predicate WorkerHoldsMutex(pc: WorkerPc) {
    pc.StartWait? || pc.Woken?
  }

  /** A thread that exists. */
  predicate Exists(s: State, o: Owner) {
    match o
    case Free => true
    case ByCall(r) => r in s.calls
    case ByWorker(w) => w < |s.ws|
  }

  /** Each mutex is held by exactly the thread whose place in the code says so. */
  ghost predicate WorkersLock(s: State) {
    && Exists(s, s.workersMutex)
    && (forall r :: r in s.calls ==> (CallHoldsWorkers(s.calls[r]) <==> s.workersMutex == ByCall(r)))
    && (forall w :: 0 <= w < |s.ws| ==> (WorkerHoldsWorkers(s.ws[w].pc) <==> s.workersMutex == ByWorker(w)))
  }

  ghost predicate RequestsLock(s: State) {
    && Exists(s, s.requestsMutex)
    && (forall r :: r in s.calls ==> (CallHoldsRequests(s.calls[r]) <==> s.requestsMutex == ByCall(r)))
    && (forall w :: 0 <= w < |s.ws| ==> (WorkerHoldsRequests(s.ws[w].pc) <==> s.requestsMutex == ByWorker(w)))
  }

  ghost predicate WorkerLocks(s: State)
    requires WellFormed(s)
  {
    && (forall w :: 0 <= w < |s.ws| ==> Exists(s, s.mutexes[w]))
    && (forall r, w :: r in s.calls && 0 <= w < |s.ws| ==>
          (CallHoldsMutex(s.calls[r], w) <==> s.mutexes[w] == ByCall(r)))
    && (forall w :: 0 <= w < |s.ws| ==> (WorkerHoldsMutex(s.ws[w].pc) <==> s.mutexes[w] == ByWorker(w)))
    && (forall w :: 0 <= w < |s.ws| && s.mutexes[w].ByWorker? ==> s.mutexes[w].w == w)
  }

  // ---------------------------------------------------------------- the queue of workers

  /** A producer has given the worker at the head its request and has not taken it off the queue yet. */
  predicate Handed(s: State) {
    && s.workersMutex.ByCall? && s.workersMutex.r in s.calls
    && var pc := s.calls[s.workersMutex.r];
       pc.LockWorker? || pc.NotifyWorker? || pc.PopWorker?
  }

  /** The queued workers that nobody has given a request. */
  function IdleQueue(s: State): seq<WorkerId> {
    if Handed(s) && s.workers != [] then s.workers[1..] else s.workers
  }

  /** Not ready, and in its wait loop, or on its way out after `stop`. */
  predicate Parked(s: State, w: WorkerId)
    requires w < |s.ws|
  {
    var me := s.ws[w];
    && !me.ready
    && (me.pc.DropWorkersLock? || me.pc.TestWait? || me.pc.TestWaitRunning? || me.pc.TakeMutex? || me.pc.StartWait?
        || me.pc.Waiting? || me.pc.Woken? || me.pc.Exited? || (me.pc.TestRunning? && !me.running))
  }

  ghost predicate QueueOfParked(s: State)
    requires WellFormed(s)
  {
    && NoDuplicates(s.workers)
    && (forall w :: w in IdleQueue(s) ==> w < |s.ws| && Parked(s, w))
  }

  /** A producer between its check and its pop works on the head of the queue. */
  ghost predicate HeadIsTarget(s: State) {
    forall r :: r in s.calls ==>
      var pc := s.calls[r];
      (pc.SetRequest? || pc.SetReady? || pc.LockWorker? || pc.NotifyWorker? || pc.PopWorker?)
      ==> s.workers != [] && s.workers[0] == Target(pc)
  }

  /** From clearing `ready` to raising it again, or to the queue. */
  predicate AtWork(pc: WorkerPc) {
    pc.Processing? || pc.Finishing? || pc.TakeRequestsLock? || pc.CheckRequests? || pc.CopyRequest? || pc.RaiseReady?
    || pc.DropRequestsLockMiss? || pc.TakeWorkersLock? || pc.Park?
  }

  /** What a worker's place says of its `ready` and `running`. */
  predicate FlagsFit(me: WorkerState) {
    && (AtWork(me.pc) ==> !me.ready)
    && (me.pc.ClearReady? || me.pc.PopRequest? || me.pc.DropRequestsLockHit? ==> me.ready)
    && (me.pc.Exited? ==> !me.running)
  }

  /** `stop` has reached the workers before its index, and has joined those before its index. */
  ghost predicate StopperFits(s: State) {
    match s.stopper
    case NotCalled => forall w :: 0 <= w < |s.ws| ==> s.ws[w].running
    case Stopping(i) => i <= |s.ws| && forall w :: 0 <= w < i ==> !s.ws[w].running
    case Joining(j) =>
      j <= |s.ws| && forall w :: 0 <= w < |s.ws| ==> !s.ws[w].running && (w < j ==> s.ws[w].pc == Exited)
    case Stopped => forall w :: 0 <= w < |s.ws| ==> !s.ws[w].running && s.ws[w].pc == Exited
  }

  ghost predicate Inv(s: State) {
    && WellFormed(s)
    && WorkersLock(s) && RequestsLock(s) && WorkerLocks(s)
    && QueueOfParked(s) && HeadIsTarget(s)
    && (forall w :: 0 <= w < |s.ws| ==> FlagsFit(s.ws[w]))
    && StopperFits(s)
  }

  // ---------------------------------------------------------------- every step keeps it

  /** A step takes a free mutex, gives one back, or leaves it alone, as the thread's places say. */
  predicate Passes(before: Owner, after: Owner, me: Owner, held: bool, holds: bool) {
    if held == holds then after == before else if holds then before == Free && after == me else after == Free
  }

  /** What a step of `addRequest` leaves alone, and what it does to the mutexes. */
  lemma CallEffect(s: State, r: Request)
    requires WellFormed(s) && Enabled(s, Call(r))
    ensures var t := CallStep(s, r);
            var p, q := s.calls[r], t.calls[r];
            && t.calls == s.calls[r := q] && t.stopper == s.stopper
            && t.processed == s.processed && t.finished == s.finished
            && Passes(s.workersMutex, t.workersMutex, ByCall(r), CallHoldsWorkers(p), CallHoldsWorkers(q))
            && Passes(s.requestsMutex, t.requestsMutex, ByCall(r), CallHoldsRequests(p), CallHoldsRequests(q))
  {
  }

  lemma CallEffectOnWorkers(s: State, r: Request)
    requires WellFormed(s) && Enabled(s, Call(r))
    ensures var t := CallStep(s, r);
            var p, q := s.calls[r], t.calls[r];
            && |t.ws| == |s.ws| && |t.mutexes| == |s.mutexes|
            && (forall w :: 0 <= w < |s.ws| ==>
                  && t.ws[w].pc == s.ws[w].pc && t.ws[w].running == s.ws[w].running
                  && (t.ws[w] == s.ws[w] || (w == Target(p) && (p.SetRequest? || p.SetReady?))))
            && (forall w :: 0 <= w < |s.ws| ==>
                  Passes(s.mutexes[w], t.mutexes[w], ByCall(r), CallHoldsMutex(p, w), CallHoldsMutex(q, w)))
  {
  }

  /** The same for a step of a worker. */
  lemma WorkEffect(s: State, w: WorkerId)
    requires WellFormed(s) && Enabled(s, Work(w))
    ensures var t := WorkStep(s, w);
            && |t.ws| == |s.ws| && t.calls == s.calls && t.stopper == s.stopper
            && Passes(s.workersMutex, t.workersMutex, ByWorker(w),
                      WorkerHoldsWorkers(s.ws[w].pc), WorkerHoldsWorkers(t.ws[w].pc))
  {
  }

  lemma WorkEffectOnRequests(s: State, w: WorkerId)
    requires WellFormed(s) && Enabled(s, Work(w))
    ensures var t := WorkStep(s, w);
            && |t.ws| == |s.ws|
            && Passes(s.requestsMutex, t.requestsMutex, ByWorker(w),
                      WorkerHoldsRequests(s.ws[w].pc), WorkerHoldsRequests(t.ws[w].pc))
  {
  }

  lemma WorkEffectOnMutex(s: State, w: WorkerId)
    requires WellFormed(s) && Enabled(s, Work(w))
    ensures var t := WorkStep(s, w);
            && |t.ws| == |s.ws| && |t.mutexes| == |s.mutexes|
            && Passes(s.mutexes[w], t.mutexes[w], ByWorker(w),
                      WorkerHoldsMutex(s.ws[w].pc), WorkerHoldsMutex(t.ws[w].pc))
  {
  }

  lemma WorkEffectOnOthers(s: State, w: WorkerId)
    requires WellFormed(s) && Enabled(s, Work(w))
    ensures var t := WorkStep(s, w);
            && |t.ws| == |s.ws| && |t.mutexes| == |s.mutexes|
            && t.ws[w].running == s.ws[w].running
            && (forall v :: 0 <= v < |s.ws| && v != w ==> t.ws[v] == s.ws[v] && t.mutexes[v] == s.mutexes[v])
  {
  }

  /** What a step does to the queues. */
  lemma CallEffectOnQueues(s: State, r: Request)
    requires WellFormed(s) && Enabled(s, Call(r))
    ensures var t := CallStep(s, r);
            && t.workers == (if s.calls[r].PopWorker? && s.workers != [] then s.workers[1..] else s.workers)
            && t.requests == (if s.calls[r].PushRequest? then s.requests + [r] else s.requests)
  {
  }

  lemma WorkEffectOnQueues(s: State, w: WorkerId)
    requires WellFormed(s) && Enabled(s, Work(w))
    ensures var t := WorkStep(s, w);
            && t.workers == (if s.ws[w].pc.Park? then s.workers + [w] else s.workers)
            && t.requests == (if s.ws[w].pc.PopRequest? && s.requests != [] then s.requests[1..] else s.requests)
  {
  }

  lemma WorkersLockKept(s: State, a: Action)
    requires WellFormed(s) && Enabled(s, a) && WorkersLock(s)
    ensures WorkersLock(Next(s, a))
  {
    hide CallStep, WorkStep;
    match a
    case Submit(r) =>
    case Call(r) =>
      CallEffect(s, r);
      CallEffectOnWorkers(s, r);
    case Work(w) =>
      WorkEffect(s, w);
      WorkEffectOnOthers(s, w);
    case CallStop =>
    case StopStep =>
  }

  lemma RequestsLockKept(s: State, a: Action)
    requires WellFormed(s) && Enabled(s, a) && RequestsLock(s)
    ensures RequestsLock(Next(s, a))
  {
    hide CallStep, WorkStep;
    match a
    case Submit(r) =>
    case Call(r) =>
      CallEffect(s, r);
      CallEffectOnWorkers(s, r);
    case Work(w) =>
      WorkEffect(s, w);
      WorkEffectOnRequests(s, w);
      WorkEffectOnOthers(s, w);
    case CallStop =>
    case StopStep =>
  }

  lemma WorkerLocksKept(s: State, a: Action)
    requires WellFormed(s) && Enabled(s, a) && WorkerLocks(s)
    ensures WellFormed(Next(s, a)) && WorkerLocks(Next(s, a))
  {
    NextWellFormed(s, a);
    hide CallStep, WorkStep;
    match a
    case Submit(r) =>
    case Call(r) => CallKeepsWorkerLocks(s, r);
    case Work(w) => WorkKeepsWorkerLocks(s, w);
    case CallStop =>
    case StopStep =>
  }

  lemma CallKeepsWorkerLocks(s: State, r: Request)
    requires WellFormed(s) && Enabled(s, Call(r)) && WorkerLocks(s) && WellFormed(CallStep(s, r))
    ensures WorkerLocks(CallStep(s, r))
  {
    hide CallStep;
    CallEffect(s, r);
    CallEffectOnWorkers(s, r);
  }

  lemma WorkKeepsWorkerLocks(s: State, w: WorkerId)
    requires WellFormed(s) && Enabled(s, Work(w)) && WorkerLocks(s) && WellFormed(WorkStep(s, w))
    ensures WorkerLocks(WorkStep(s, w))
  {
    hide WorkStep;
    WorkEffect(s, w);
    WorkEffectOnMutex(s, w);
    WorkEffectOnOthers(s, w);
  }

  /** The head a producer works on is still idle until it raises the worker's flag. */
  lemma TargetIsIdle(s: State, r: Request)
    requires Inv(s) && r in s.calls && (s.calls[r].SetRequest? || s.calls[r].SetReady?)
    ensures var w := Target(s.calls[r]);
            && s.workersMutex == ByCall(r) && !Handed(s)
            && s.workers != [] && s.workers[0] == w && w in IdleQueue(s) && w < |s.ws| && Parked(s, w)
  {
  }

  lemma FlagsKept(s: State, a: Action)
    requires Inv(s) && Enabled(s, a)
    ensures var t := Next(s, a); forall w :: 0 <= w < |t.ws| ==> FlagsFit(t.ws[w])
  {
    match a
    case Submit(r) =>
    case Call(r) =>
      CallEffectOnWorkers(s, r);
      CallKeepsFlags(s, r);
    case Work(w) =>
      WorkEffectOnOthers(s, w);
      WorkKeepsFlags(s, w);
    case CallStop =>
    case StopStep =>
  }

  lemma CallKeepsFlags(s: State, r: Request)
    requires Inv(s) && Enabled(s, Call(r))
    ensures var t := CallStep(s, r); forall w :: 0 <= w < |t.ws| ==> FlagsFit(t.ws[w])
  {
    CallEffectOnWorkers(s, r);
    var p := s.calls[r];
    if p.SetRequest? || p.SetReady? {
      TargetIsIdle(s, r);
      assert FlagsFit(s.ws[Target(p)]);
    } else {
      hide CallStep;
    }
  }

  lemma WorkKeepsFlags(s: State, w: WorkerId)
    requires WellFormed(s) && Enabled(s, Work(w)) && FlagsFit(s.ws[w])
    ensures |WorkStep(s, w).ws| == |s.ws| && FlagsFit(WorkStep(s, w).ws[w])
  {
  }

  lemma HeadKept(s: State, a: Action)
    requires Inv(s) && Enabled(s, a)
    ensures HeadIsTarget(Next(s, a))
  {
    match a
    case Submit(r) =>
    case Call(r) => CallKeepsHead(s, r);
    case Work(w) => WorkKeepsHead(s, w);
    case CallStop =>
    case StopStep =>
  }

  lemma CallKeepsHead(s: State, r: Request)
    requires Inv(s) && Enabled(s, Call(r))
    ensures HeadIsTarget(CallStep(s, r))
  {
    CallEffect(s, r);
    CallEffectOnQueues(s, r);
    CallKeepsOwnHead(s, r);
    hide CallStep;
    var t := CallStep(s, r);
    assert s.calls[r].PopWorker? ==> s.workersMutex == ByCall(r) by {
      assert CallHoldsWorkers(s.calls[r]) <==> s.workersMutex == ByCall(r);
    }
    forall q | q in t.calls && q != r && OnHead(t.calls[q])
      ensures t.workers != [] && t.workers[0] == Target(t.calls[q])
    {
      assert CallHoldsWorkers(s.calls[q]);
    }
  }

  predicate OnHead(pc: CallPc) {
    pc.SetRequest? || pc.SetReady? || pc.LockWorker? || pc.NotifyWorker? || pc.PopWorker?
  }

  lemma CallKeepsOwnHead(s: State, r: Request)
    requires WellFormed(s) && Enabled(s, Call(r)) && HeadIsTarget(s)
    ensures var t := CallStep(s, r);
            OnHead(t.calls[r]) ==> t.workers != [] && t.workers[0] == Target(t.calls[r])
  {
  }

  lemma WorkKeepsHead(s: State, w: WorkerId)
    requires Inv(s) && Enabled(s, Work(w))
    ensures HeadIsTarget(WorkStep(s, w))
  {
    WorkEffect(s, w);
    WorkEffectOnQueues(s, w);
    hide WorkStep;
  }

  // the queue of idle workers

  lemma CallIdleQueue(s: State, r: Request)
    requires Inv(s) && Enabled(s, Call(r))
    ensures IdleQueue(CallStep(s, r))
         == if s.calls[r].SetReady? then s.workers[1..] else IdleQueue(s)
    ensures s.calls[r].SetReady? ==> IdleQueue(s) == s.workers && s.workers != []
  {
    CallEffect(s, r);
    CallEffectOnQueues(s, r);
    assert CallHoldsWorkers(s.calls[r]) <==> s.workersMutex == ByCall(r);
    match s.calls[r]
    case LockWorkers => case CheckWorkers => case SetRequest(w) => case SetReady(w) => case LockWorker(w) =>
    case NotifyWorker(w) => case PopWorker(w) => case UnlockWorkersAfterPop(w) => case UnlockWorker(w) =>
    case UnlockWorkersEmpty => case LockRequests => case PushRequest => case UnlockRequests => case Returned =>
  }

  lemma WorkIdleQueue(s: State, w: WorkerId)
    requires Inv(s) && Enabled(s, Work(w))
    ensures IdleQueue(WorkStep(s, w)) == IdleQueue(s) + if s.ws[w].pc.Park? then [w] else []
    ensures s.ws[w].pc.Park? ==> IdleQueue(s) == s.workers
  {
    WorkEffect(s, w);
    WorkEffectOnQueues(s, w);
    assert WorkerHoldsWorkers(s.ws[w].pc) <==> s.workersMutex == ByWorker(w);
    hide WorkStep;
  }

  lemma QueueKept(s: State, a: Action)
    requires Inv(s) && Enabled(s, a)
    ensures WellFormed(Next(s, a)) && QueueOfParked(Next(s, a))
  {
    NextWellFormed(s, a);
    match a
    case Submit(r) =>
      assert IdleQueue(Next(s, a)) == IdleQueue(s);
    case Call(r) => CallKeepsQueue(s, r);
    case Work(w) => WorkKeepsQueue(s, w);
    case CallStop =>
      assert IdleQueue(Next(s, a)) == IdleQueue(s);
    case StopStep =>
      var t := Next(s, a);
      forall v | v in IdleQueue(t) ensures v < |t.ws| && Parked(t, v) {
        assert v in t.workers && v in IdleQueue(s);
      }
  }

  lemma CallKeepsQueue(s: State, r: Request)
    requires Inv(s) && Enabled(s, Call(r)) && WellFormed(CallStep(s, r))
    ensures QueueOfParked(CallStep(s, r))
  {
    CallIdleQueue(s, r);
    CallEffectOnQueues(s, r);
    CallEffectOnWorkers(s, r);
    var t := CallStep(s, r);
    hide CallStep;
    forall v | v in IdleQueue(t) ensures v < |t.ws| && Parked(t, v) {
      assert v in IdleQueue(s) && v in t.workers;
      if s.calls[r].SetRequest? {
        SetRequestKeepsReady(s, r);
      }
    }
  }

  lemma SetRequestKeepsReady(s: State, r: Request)
    requires WellFormed(s) && r in s.calls && s.calls[r].SetRequest?
    ensures var t := CallStep(s, r);
            |t.ws| == |s.ws| && forall w :: 0 <= w < |s.ws| ==> t.ws[w].ready == s.ws[w].ready
  {
  }

  lemma WorkKeepsQueue(s: State, w: WorkerId)
    requires Inv(s) && Enabled(s, Work(w)) && WellFormed(WorkStep(s, w))
    ensures QueueOfParked(WorkStep(s, w))
  {
    WorkIdleQueue(s, w);
    WorkEffectOnQueues(s, w);
    WorkEffectOnOthers(s, w);
    ParkedStays(s, w);
    var t := WorkStep(s, w);
    hide WorkStep;
    assert FlagsFit(s.ws[w]);
    assert s.ws[w].pc.Park? ==> w !in s.workers;
    forall v | v in IdleQueue(t) ensures v < |t.ws| && Parked(t, v) {
      assert v in t.workers;
      assert v in IdleQueue(s) || (v == w && s.ws[w].pc.Park?);
    }
  }

  /** A parked worker stays parked by its own steps, and one that has put itself on the queue is. */
  lemma ParkedStays(s: State, w: WorkerId)
    requires WellFormed(s) && Enabled(s, Work(w)) && FlagsFit(s.ws[w])
    ensures |WorkStep(s, w).ws| == |s.ws|
    ensures Parked(s, w) || s.ws[w].pc.Park? ==> Parked(WorkStep(s, w), w)
  {
  }

  lemma StopperKept(s: State, a: Action)
    requires Inv(s) && Enabled(s, a)
    ensures StopperFits(Next(s, a))
  {
    match a
    case Submit(r) =>
    case Call(r) =>
      CallEffect(s, r);
      CallEffectOnWorkers(s, r);
      StopperFitsAfter(s, CallStep(s, r));
    case Work(w) =>
      WorkEffect(s, w);
      WorkEffectOnOthers(s, w);
      ExitedStays(s, w);
      StopperFitsAfter(s, WorkStep(s, w));
    case CallStop =>
    case StopStep =>
  }

  lemma StopperFitsAfter(s: State, t: State)
    requires StopperFits(s) && t.stopper == s.stopper && |t.ws| == |s.ws|
    requires forall w :: 0 <= w < |s.ws| ==>
               t.ws[w].running == s.ws[w].running && (s.ws[w].pc == Exited ==> t.ws[w].pc == Exited)
    ensures StopperFits(t)
  {
  }

  lemma ExitedStays(s: State, w: WorkerId)
    requires WellFormed(s) && Enabled(s, Work(w))
    ensures s.ws[w].pc != Exited
  {
  }

  lemma NextKeepsInv(s: State, a: Action)
    requires Inv(s) && Enabled(s, a)
    ensures Inv(Next(s, a))
  {
    WorkersLockKept(s, a);
    RequestsLockKept(s, a);
    WorkerLocksKept(s, a);
    FlagsKept(s, a);
    HeadKept(s, a);
    QueueKept(s, a);
    StopperKept(s, a);
  }

  lemma {:induction false} RunKeepsInv(s: State, run: seq<Action>)
    requires Inv(s) && Feasible(s, run)
    ensures Inv(After(s, run))
  {
    if run == [] {
    } else {
      RunKeepsInv(s, run[..|run| - 1]);
      NextKeepsInv(After(s, run[..|run| - 1]), run[|run| - 1]);
    }
  }

  /** `Inv` holds in every reachable state. */
  lemma Reachable(s: State, run: seq<Action>)
    requires Init(s) && WellFormed(s) && Feasible(s, run)
    ensures Inv(After(s, run))
  {
    RunKeepsInv(s, run);
  }

  // ---------------------------------------------------------------- no pending request is overwritten

  /** The next step of a thread is an assignment of `setRequest` to this worker. */
  predicate Writes(s: State, a: Action, w: WorkerId)
    requires WellFormed(s) && Enabled(s, a)
  {
    match a
    case Call(r) => (s.calls[r].SetRequest? || s.calls[r].SetReady?) && Target(s.calls[r]) == w
    case Work(v) => v == w && (s.ws[w].pc.CopyRequest? || s.ws[w].pc.RaiseReady?)
    case _ => false
  }

  /** In every reachable state: `setRequest` hits only workers that are not ready, no worker is queued twice, and
      whenever `workersMutex` is free every queued worker is un-ready and in its wait loop, or on its way out after
      `stop`. */
  lemma NoPendingRequestOverwritten(s: State, run: seq<Action>)
    requires Init(s) && WellFormed(s) && Feasible(s, run)
    ensures var t := After(s, run);
            && (forall a, w :: Enabled(t, a) && 0 <= w < |t.ws| && Writes(t, a, w) ==> !t.ws[w].ready)
            && NoDuplicates(t.workers)
            && (t.workersMutex == Free ==> forall w :: w in t.workers ==> Parked(t, w))
  {
    Reachable(s, run);
    var t := After(s, run);
    forall a, w | Enabled(t, a) && 0 <= w < |t.ws| && Writes(t, a, w) ensures !t.ws[w].ready {
      assert FlagsFit(t.ws[w]);
      if a.Call? {
        TargetIsIdle(t, a.r);
      }
    }
  }
}
