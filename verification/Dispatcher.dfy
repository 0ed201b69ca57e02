/** The hand-off between `Dispatcher::addRequest`, `Dispatcher::addWorker` and `Worker::run` as a transition system.
    Any number of calls of `addRequest` and of workers run at once; a step is one acquisition or release of a mutex,
    or one access to the shared state between two of them. `ready`, `request` and `running` are read and written
    without a lock, each access on its own and all of them sequentially consistent. */
module Dispatcher {

  /** A request object. It is submitted once, so that it also names its call of `addRequest`. */
  type Request = nat

  /** A worker, by its index in `allWorkers`. */
  type WorkerId = nat

  /** What a call of `addRequest` does next. */
  datatype CallPc =
    | LockWorkers                         // 72
    | CheckWorkers                        // 73, 74
    | SetRequest(w: WorkerId)             // 75, the first assignment of setRequest
    | SetReady(w: WorkerId)               // 75, the second one
    | LockWorker(w: WorkerId)             // 80
    | NotifyWorker(w: WorkerId)           // 81
    | PopWorker(w: WorkerId)              // 82
    | UnlockWorkersAfterPop(w: WorkerId)  // 83
    | UnlockWorker(w: WorkerId)           // 84, the destructor of the lock
    | UnlockWorkersEmpty                  // 86
    | LockRequests                        // 87
    | PushRequest                         // 88
    | UnlockRequests                      // 89
    | Returned

  /** What a worker does next: the loop of `run`, and `addWorker` in the middle of it. */
  datatype WorkerPc =
    | TestRunning                         // worker.cpp 40
    | TestReady                           // 41
    | ClearReady                          // 43
    | Processing                          // 44
    | Finishing                           // 45
    | TakeRequestsLock                    // dispatcher.cpp 103
    | CheckRequests                       // 104
    | CopyRequest                         // 105, 106, the first assignment of setRequest
    | RaiseReady                          // 106, the second one
    | PopRequest                          // 107
    | DropRequestsLockHit                 // 109
    | DropRequestsLockMiss                // 112
    | TakeWorkersLock                     // 113
    | Park                                // 114
    | DropWorkersLock                     // 115
    | TestWait                            // worker.cpp 51, reading ready
    | TestWaitRunning                     // 51, reading running
    | TakeMutex                           // 52
    | StartWait                           // 53, entering wait_for
    | Waiting                             // 53, until notified, timed out or woken for no reason
    | Woken                               // 57, the destructor of the lock
    | Exited

  datatype WorkerState = WorkerState(pc: WorkerPc, request: Request, ready: bool, running: bool)

  datatype Owner = Free | ByCall(r: Request) | ByWorker(w: WorkerId)

  /** `Dispatcher::stop`: it stops the workers one after the other and then joins them. */
  datatype Stopper = NotCalled | Stopping(i: nat) | Joining(j: nat) | Stopped

  datatype State = State(
    calls: map<Request, CallPc>,
    ws: seq<WorkerState>,
    requests: seq<Request>,
    workers: seq<WorkerId>,
    requestsMutex: Owner,
    workersMutex: Owner,
    mutexes: seq<Owner>,
    stopper: Stopper,
    processed: seq<Request>,
    finished: seq<Request>)

  /** A new call of `addRequest`, or the next step of a thread. */
  datatype Action = Submit(r: Request) | Call(r: Request) | Work(w: WorkerId) | CallStop | StopStep

  function Target(pc: CallPc): (t: nat) {
    match pc
    case SetRequest(w) => w
    case SetReady(w) => w
    case LockWorker(w) => w
    case NotifyWorker(w) => w
    case PopWorker(w) => w
    case UnlockWorkersAfterPop(w) => w
    case UnlockWorker(w) => w
    case _ => 0
  }

  predicate HasTarget(pc: CallPc) {
    pc.SetRequest? || pc.SetReady? || pc.LockWorker? || pc.NotifyWorker? || pc.PopWorker?
    || pc.UnlockWorkersAfterPop? || pc.UnlockWorker?
  }

  predicate WellFormed(s: State) {
    && |s.mutexes| == |s.ws|
    && (forall w :: w in s.workers ==> w < |s.ws|)
    && (forall r :: r in s.calls && HasTarget(s.calls[r]) ==> Target(s.calls[r]) < |s.ws|)
  }

  /** After `Dispatcher::init`: the worker threads are about to start, and `request` is not set. */
  predicate Init(s: State) {
    && s.calls == map[] && s.requests == [] && s.workers == [] && s.processed == [] && s.finished == []
    && s.requestsMutex == Free && s.workersMutex == Free && s.stopper == NotCalled
    && |s.mutexes| == |s.ws|
    && (forall w :: 0 <= w < |s.ws| ==> s.mutexes[w] == Free)
    && (forall w :: 0 <= w < |s.ws| ==> s.ws[w].pc == TestRunning && !s.ws[w].ready && s.ws[w].running)
  }

  predicate Enabled(s: State, a: Action)
    requires WellFormed(s)
  {
    match a
    case Submit(r) => r !in s.calls
    case Call(r) => r in s.calls && CallEnabled(s, s.calls[r])
    case Work(w) => w < |s.ws| && WorkEnabled(s, w)
    case CallStop => s.stopper == NotCalled
    case StopStep =>
      match s.stopper
      case NotCalled => false
      case Stopping(_) => true
      case Joining(j) => j < |s.ws| ==> s.ws[j].pc == Exited
      case Stopped => false
  }

  predicate CallEnabled(s: State, pc: CallPc)
    requires WellFormed(s) && (HasTarget(pc) ==> Target(pc) < |s.ws|)
  {
    match pc
    case LockWorkers => s.workersMutex == Free
    case LockWorker(w) => s.mutexes[w] == Free
    case LockRequests => s.requestsMutex == Free
    case Returned => false
    case _ => true
  }

  predicate WorkEnabled(s: State, w: WorkerId)
    requires WellFormed(s) && w < |s.ws|
  {
    match s.ws[w].pc
    case TakeRequestsLock => s.requestsMutex == Free
    case TakeWorkersLock => s.workersMutex == Free
    case TakeMutex => s.mutexes[w] == Free
    case Waiting => s.mutexes[w] == Free
    case Exited => false
    case _ => true
  }

  function Next(s: State, a: Action): State
    requires WellFormed(s) && Enabled(s, a)
  {
    match a
    case Submit(r) => s.(calls := s.calls[r := LockWorkers])
    case Call(r) => CallStep(s, r)
    case Work(w) => WorkStep(s, w)
    case CallStop => s.(stopper := Stopping(0))
    case StopStep => StopperStep(s)
  }

  function CallStep(s: State, r: Request): State
    requires WellFormed(s) && r in s.calls
  {
    match s.calls[r]
    case LockWorkers => s.(calls := s.calls[r := CheckWorkers], workersMutex := ByCall(r))
    case CheckWorkers =>
      s.(calls := s.calls[r := if s.workers != [] then SetRequest(s.workers[0]) else UnlockWorkersEmpty])
    case SetRequest(w) =>
      s.(calls := s.calls[r := SetReady(w)], ws := s.ws[w := s.ws[w].(request := r)])
    case SetReady(w) =>
      s.(calls := s.calls[r := LockWorker(w)], ws := s.ws[w := s.ws[w].(ready := true)])
    case LockWorker(w) => s.(calls := s.calls[r := NotifyWorker(w)], mutexes := s.mutexes[w := ByCall(r)])
    case NotifyWorker(w) => s.(calls := s.calls[r := PopWorker(w)])
    case PopWorker(w) =>
      s.(calls := s.calls[r := UnlockWorkersAfterPop(w)], workers := if s.workers == [] then [] else s.workers[1..])
    case UnlockWorkersAfterPop(w) => s.(calls := s.calls[r := UnlockWorker(w)], workersMutex := Free)
    case UnlockWorker(w) => s.(calls := s.calls[r := Returned], mutexes := s.mutexes[w := Free])
    case UnlockWorkersEmpty => s.(calls := s.calls[r := LockRequests], workersMutex := Free)
    case LockRequests => s.(calls := s.calls[r := PushRequest], requestsMutex := ByCall(r))
    case PushRequest => s.(calls := s.calls[r := UnlockRequests], requests := s.requests + [r])
    case UnlockRequests => s.(calls := s.calls[r := Returned], requestsMutex := Free)
    case Returned => s
  }

  /** Where a worker goes; `found` says that the queue of requests is not empty. */
  function WorkerGoes(me: WorkerState, found: bool): WorkerPc {
    match me.pc
    case TestRunning => if me.running then TestReady else Exited
    case TestReady => if me.ready then ClearReady else TakeRequestsLock
    case ClearReady => Processing
    case Processing => Finishing
    case Finishing => TakeRequestsLock
    case TakeRequestsLock => CheckRequests
    case CheckRequests => if found then CopyRequest else DropRequestsLockMiss
    case CopyRequest => RaiseReady
    case RaiseReady => PopRequest
    case PopRequest => DropRequestsLockHit
    case DropRequestsLockHit => TestRunning
    case DropRequestsLockMiss => TakeWorkersLock
    case TakeWorkersLock => Park
    case Park => DropWorkersLock
    case DropWorkersLock => TestWait
    case TestWait => if me.ready then TestRunning else TestWaitRunning
    case TestWaitRunning => if me.running then TakeMutex else TestRunning
    case TakeMutex => StartWait
    case StartWait => Waiting
    case Waiting => Woken
    case Woken => TestWait
    case Exited => Exited
  }

  /** A mutex after a step that takes it, gives it back or does neither. */
  function Held(before: Owner, me: Owner, takes: bool, drops: bool): Owner {
    if takes then me else if drops then Free else before
  }

  function WorkStep(s: State, w: WorkerId): State
    requires WellFormed(s) && w < |s.ws|
  {
    var me, o, found := s.ws[w], ByWorker(w), s.requests != [];
    var pc := me.pc;
    s.(ws := s.ws[w := me.(pc := WorkerGoes(me, found),
                           request := if pc.CopyRequest? && found then s.requests[0] else me.request,
                           ready := pc.RaiseReady? || (me.ready && !pc.ClearReady?))],
       requests := if pc.PopRequest? && found then s.requests[1..] else s.requests,
       workers := if pc.Park? then s.workers + [w] else s.workers,
       processed := if pc.Processing? then s.processed + [me.request] else s.processed,
       finished := if pc.Finishing? then s.finished + [me.request] else s.finished,
       requestsMutex :=
         Held(s.requestsMutex, o, pc.TakeRequestsLock?, pc.DropRequestsLockHit? || pc.DropRequestsLockMiss?),
       workersMutex := Held(s.workersMutex, o, pc.TakeWorkersLock?, pc.DropWorkersLock?),
       mutexes := s.mutexes[w := Held(s.mutexes[w], o, pc.TakeMutex? || pc.Waiting?, pc.StartWait? || pc.Woken?)])
  }

  function StopperStep(s: State): State {
    match s.stopper
    case Stopping(i) =>
      if i < |s.ws| then s.(ws := s.ws[i := s.ws[i].(running := false)], stopper := Stopping(i + 1))
      else s.(stopper := Joining(0))
    case Joining(j) => s.(stopper := if j < |s.ws| then Joining(j + 1) else Stopped)
    case _ => s
  }

  lemma CallStepWellFormed(s: State, r: Request)
    requires WellFormed(s) && Enabled(s, Call(r))
    ensures WellFormed(CallStep(s, r)) && |CallStep(s, r).ws| == |s.ws|
  {
    assert s.workers != [] ==> s.workers[0] in s.workers;
    assert forall w :: w in CallStep(s, r).workers ==> w in s.workers;
    match s.calls[r]
    case LockWorkers => case CheckWorkers => case SetRequest(w) => case SetReady(w) => case LockWorker(w) =>
    case NotifyWorker(w) => case PopWorker(w) => case UnlockWorkersAfterPop(w) => case UnlockWorker(w) =>
    case UnlockWorkersEmpty => case LockRequests => case PushRequest => case UnlockRequests => case Returned =>
  }

  lemma WorkStepWellFormed(s: State, w: WorkerId)
    requires WellFormed(s) && Enabled(s, Work(w))
    ensures WellFormed(WorkStep(s, w)) && |WorkStep(s, w).ws| == |s.ws|
  {
  }

  lemma NextWellFormed(s: State, a: Action)
    requires WellFormed(s) && Enabled(s, a)
    ensures WellFormed(Next(s, a)) && |Next(s, a).ws| == |s.ws|
  {
    hide CallStep, WorkStep;
    match a
    case Call(r) => CallStepWellFormed(s, r);
    case Work(w) => WorkStepWellFormed(s, w);
    case _ =>
  }

  // ---------------------------------------------------------------- runs

  /** The actions of a run are enabled one after the other. */
  predicate Feasible(s: State, run: seq<Action>)
    requires WellFormed(s)
    decreases |run|, 0
  {
    run == [] ||
    var front, a := run[..|run| - 1], run[|run| - 1];
    Feasible(s, front) && Enabled(After(s, front), a)
  }

  function After(s: State, run: seq<Action>): (t: State)
    requires WellFormed(s) && Feasible(s, run)
    ensures WellFormed(t) && |t.ws| == |s.ws|
    decreases |run|, 1
  {
    if run == [] then s
    else
      var before, a := After(s, run[..|run| - 1]), run[|run| - 1];
      NextWellFormed(before, a);
      Next(before, a)
  }

  /** The states that a run goes through. */
  function Trace(s: State, run: seq<Action>): (states: seq<State>)
    requires WellFormed(s) && Feasible(s, run)
    ensures |states| == |run| + 1 && states[|run|] == After(s, run)
  {
    if run == [] then [s] else Trace(s, run[..|run| - 1]) + [After(s, run)]
  }

  /** A run goes on by a step, or by a second run. */
  lemma Extend(s: State, run: seq<Action>, a: Action)
    requires WellFormed(s) && Feasible(s, run) && Enabled(After(s, run), a)
    ensures Feasible(s, run + [a]) && After(s, run + [a]) == Next(After(s, run), a)
  {
  }

  lemma {:induction false} Join(s: State, first: seq<Action>, second: seq<Action>)
    requires WellFormed(s) && Feasible(s, first) && Feasible(After(s, first), second)
    ensures Feasible(s, first + second) && After(s, first + second) == After(After(s, first), second)
    decreases |second|
  {
    hide WellFormed, Enabled, Next;
    if second == [] {
      assert first + second == first;
    } else {
      var front, a := second[..|second| - 1], second[|second| - 1];
      Join(s, first, front);
      Extend(s, first + front, a);
      assert first + second == first + front + [a];
    }
  }

  lemma Prepend(s: State, a: Action, rest: seq<Action>)
    requires WellFormed(s) && Enabled(s, a) && WellFormed(Next(s, a)) && Feasible(Next(s, a), rest)
    ensures Feasible(s, [a] + rest) && After(s, [a] + rest) == After(Next(s, a), rest)
  {
    hide WellFormed, Enabled, Next;
    Extend(s, [], a);
    assert [] + [a] == [a];
    Join(s, [a], rest);
  }
}
