/** The two queues over whole runs: their order, and how a request and a worker can come to wait for each other. */
module QueueOrder {
  import opened Dispatcher
  import opened DispatcherInvariant
  import opened Conservation

  // ---------------------------------------------------------------- first in, first out

  /** The request that a step pushes, or gives to a worker out of the queue, if it does so. */
  function PushedBy(t: State, a: Action): seq<Request>
    requires WellFormed(t) && Enabled(t, a)
  {
    if a.Call? && t.calls[a.r].PushRequest? then [a.r] else []
  }

  function TakenBy(t: State, a: Action): seq<Request>
    requires WellFormed(t) && Enabled(t, a)
  {
    if a.Work? && t.ws[a.w].pc.RaiseReady? then [t.ws[a.w].request] else []
  }

  /** The worker that a step parks, or gives a request while it is parked, if it does so. */
  function ParkedBy(t: State, a: Action): seq<WorkerId>
    requires WellFormed(t) && Enabled(t, a)
  {
    if a.Work? && t.ws[a.w].pc.Park? then [a.w] else []
  }

  function HandedBy(t: State, a: Action): seq<WorkerId>
    requires WellFormed(t) && Enabled(t, a)
  {
    if a.Call? && t.calls[a.r].SetReady? then [Target(t.calls[a.r])] else []
  }

  /** The same for all the steps of a run. */
  function Pushed(s: State, run: seq<Action>): seq<Request>
    requires WellFormed(s) && Feasible(s, run)
  {
    if run == [] then []
    else Pushed(s, run[..|run| - 1]) + PushedBy(After(s, run[..|run| - 1]), run[|run| - 1])
  }

  function Taken(s: State, run: seq<Action>): seq<Request>
    requires WellFormed(s) && Feasible(s, run)
  {
    if run == [] then []
    else Taken(s, run[..|run| - 1]) + TakenBy(After(s, run[..|run| - 1]), run[|run| - 1])
  }

  function ParkedLog(s: State, run: seq<Action>): seq<WorkerId>
    requires WellFormed(s) && Feasible(s, run)
  {
    if run == [] then []
    else ParkedLog(s, run[..|run| - 1]) + ParkedBy(After(s, run[..|run| - 1]), run[|run| - 1])
  }

  function HandedLog(s: State, run: seq<Action>): seq<WorkerId>
    requires WellFormed(s) && Feasible(s, run)
  {
    if run == [] then []
    else HandedLog(s, run[..|run| - 1]) + HandedBy(After(s, run[..|run| - 1]), run[|run| - 1])
  }

  /** What a step adds at the back and takes from the front keeps the whole history in order. */
  lemma InOrder<T>(log: seq<T>, gone: seq<T>, queue: seq<T>, added: seq<T>, taken: seq<T>, queue': seq<T>)
    requires log == gone + queue && queue + added == taken + queue'
    ensures log + added == (gone + taken) + queue'
  {
    assert (gone + queue) + added == gone + (queue + added);
    assert gone + (taken + queue') == (gone + taken) + queue';
  }

  /** Requests leave the queue in the order in which they were pushed. */
  lemma {:induction false} RequestsInOrder(s: State, run: seq<Action>)
    requires Init(s) && WellFormed(s) && Feasible(s, run)
    ensures Pushed(s, run) == Taken(s, run) + Pending(After(s, run))
  {
    hide Init, Inv, Fits, Next, Pending, PushedBy, TakenBy;
    if run == [] {
      NothingQueued(s);
    } else {
      var front, a := run[..|run| - 1], run[|run| - 1];
      RequestsInOrder(s, front);
      RunFits(s, front);
      var t := After(s, front);
      RequestsStep(t, a, Places(s, front));
      InOrder(Pushed(s, front), Taken(s, front), Pending(t), PushedBy(t, a), TakenBy(t, a), Pending(Next(t, a)));
    }
  }

  lemma NothingQueued(s: State)
    requires Init(s) && WellFormed(s)
    ensures Pending(s) == [] && IdleQueue(s) == []
  {
  }

  lemma RequestsStep(t: State, a: Action, places: map<Request, Place>)
    requires Fits(t, places) && Enabled(t, a)
    ensures Pending(t) + PushedBy(t, a) == TakenBy(t, a) + Pending(Next(t, a))
  {
    assert WellFormed(t) && Inv(t) && TakersFit(t);
    hide Inv, WellFormed, Pending, CallStep, WorkStep, TakersFit;
    match a
    case Call(r) => PendingAfterCall(t, r);
    case Work(w) =>
      PendingAfterWork(t, w);
      if t.ws[w].pc.RaiseReady? {
        RequestTaken(t, w);
      }
    case _ =>
      OthersKeepRequests(t, a);
      SamePending(t, Next(t, a));
  }

  lemma RequestTaken(t: State, w: WorkerId)
    requires TakersFit(t) && w < |t.ws| && t.ws[w].pc.RaiseReady?
    ensures t.requests != [] && t.requests == [t.ws[w].request] + t.requests[1..]
  {
  }

  lemma SamePending(t: State, u: State)
    requires SameRequests(t, u)
    ensures Pending(u) == Pending(t)
  {
  }

  /** Parked workers are given work in the order in which they parked. */
  lemma {:induction false} WorkersInOrder(s: State, run: seq<Action>)
    requires Init(s) && WellFormed(s) && Feasible(s, run)
    ensures ParkedLog(s, run) == HandedLog(s, run) + IdleQueue(After(s, run))
  {
    hide Init, Inv, Next, IdleQueue, ParkedBy, HandedBy;
    if run == [] {
      NothingQueued(s);
    } else {
      var front, a := run[..|run| - 1], run[|run| - 1];
      WorkersInOrder(s, front);
      Reachable(s, front);
      var t := After(s, front);
      WorkersStep(t, a);
      InOrder(ParkedLog(s, front), HandedLog(s, front), IdleQueue(t), ParkedBy(t, a), HandedBy(t, a),
              IdleQueue(Next(t, a)));
    }
  }

  lemma WorkersStep(t: State, a: Action)
    requires Inv(t) && Enabled(t, a)
    ensures IdleQueue(t) + ParkedBy(t, a) == HandedBy(t, a) + IdleQueue(Next(t, a))
  {
    match a
    case Call(r) =>
      CallIdleQueue(t, r);
      if t.calls[r].SetReady? {
        TargetIsIdle(t, r);
        hide Inv, CallStep;
        assert t.workers == [t.workers[0]] + t.workers[1..];
      }
    case Work(w) =>
      WorkIdleQueue(t, w);
      hide Inv, WorkStep;
    case _ => assert IdleQueue(Next(t, a)) == IdleQueue(t);
  }

  // ---------------------------------------------------------------- check-to-push windows

  /** The times of a check that found the other queue empty and of the push that followed it. */
  datatype Window = Window(check: nat, push: nat)

  predicate Overlap(a: Window, b: Window) {
    a.check < b.push && b.check < a.push
  }

  /** Step counts: pending checks, and the windows of the entries of the two queues. */
  datatype Stamps = Stamps(
    clock: nat,
    callCheck: map<Request, nat>,
    workerCheck: map<WorkerId, nat>,
    callWindow: map<Request, Window>,
    workerWindow: map<WorkerId, Window>)

  function Checked<K>(m: map<K, nat>, k: K): nat {
    if k in m then m[k] else 0
  }

  function Stamped(s: State, a: Action, h: Stamps): Stamps {
    var h' := h.(clock := h.clock + 1);
    match a
    case Call(r) =>
      if r !in s.calls then h'
      else if s.calls[r].CheckWorkers? && s.workers == [] then h'.(callCheck := h.callCheck[r := h.clock])
      else if s.calls[r].PushRequest? then
        h'.(callWindow := h.callWindow[r := Window(Checked(h.callCheck, r), h.clock)])
      else h'
    case Work(w) =>
      if w >= |s.ws| then h'
      else if s.ws[w].pc.CheckRequests? && s.requests == [] then h'.(workerCheck := h.workerCheck[w := h.clock])
      else if s.ws[w].pc.Park? then
        h'.(workerWindow := h.workerWindow[w := Window(Checked(h.workerCheck, w), h.clock)])
      else h'
    case _ => h'
  }

  function StampsOf(s: State, run: seq<Action>): Stamps
    requires WellFormed(s) && Feasible(s, run)
  {
    if run == [] then Stamps(0, map[], map[], map[], map[])
    else Stamped(After(s, run[..|run| - 1]), run[|run| - 1], StampsOf(s, run[..|run| - 1]))
  }

  predicate Missed(pc: CallPc) {
    pc.UnlockWorkersEmpty? || pc.LockRequests? || pc.PushRequest?
  }

  predicate MissedToo(pc: WorkerPc) {
    pc.DropRequestsLockMiss? || pc.TakeWorkersLock? || pc.Park?
  }

  /** The entries of both queues have windows in the past, and each pair of them overlaps; a pending check precedes
      every push to the queue it found empty. */
  ghost predicate EntriesStamped(s: State, h: Stamps) {
    && (forall r :: r in s.requests ==>
          r in h.callWindow && h.callWindow[r].check < h.clock && h.callWindow[r].push < h.clock)
    && (forall w :: w in s.workers ==>
          w in h.workerWindow && h.workerWindow[w].check < h.clock && h.workerWindow[w].push < h.clock)
    && (forall r, w :: r in s.requests && w in s.workers ==> Overlap(h.callWindow[r], h.workerWindow[w]))
  }

  ghost predicate ChecksStamped(s: State, h: Stamps)
    requires EntriesStamped(s, h)
  {
    CallChecksStamped(s, h) && WorkerChecksStamped(s, h)
  }

  ghost predicate CallChecksStamped(s: State, h: Stamps)
    requires EntriesStamped(s, h)
  {
    forall r :: r in s.calls && Missed(s.calls[r]) ==>
      && Checked(h.callCheck, r) < h.clock
      && forall w :: w in s.workers ==> Checked(h.callCheck, r) < h.workerWindow[w].push
  }

  ghost predicate WorkerChecksStamped(s: State, h: Stamps)
    requires EntriesStamped(s, h)
  {
    forall w :: 0 <= w < |s.ws| && MissedToo(s.ws[w].pc) ==>
      && Checked(h.workerCheck, w) < h.clock
      && forall r :: r in s.requests ==> Checked(h.workerCheck, w) < h.callWindow[r].push
  }

  lemma CallMisses(s: State, r: Request)
    requires WellFormed(s) && Enabled(s, Call(r))
    ensures var p, q := s.calls[r], CallStep(s, r).calls[r];
            Missed(q) <==> (p.CheckWorkers? && s.workers == []) || (Missed(p) && !p.PushRequest?)
  {
  }

  lemma WorkMisses(s: State, w: WorkerId)
    requires WellFormed(s) && Enabled(s, Work(w))
    ensures var p, t := s.ws[w].pc, WorkStep(s, w);
            && |t.ws| == |s.ws|
            && (MissedToo(t.ws[w].pc) <==> (p.CheckRequests? && s.requests == []) || (MissedToo(p) && !p.Park?))
  {
  }

  /** How a step of `addRequest` looks from the two queues. */
  ghost predicate CallSeen(s: State, t: State, r: Request) {
    && r in s.calls && r in t.calls && t.calls == s.calls[r := t.calls[r]]
    && |t.ws| == |s.ws| && (forall w :: 0 <= w < |s.ws| ==> t.ws[w].pc == s.ws[w].pc)
    && t.requests == (if s.calls[r].PushRequest? then s.requests + [r] else s.requests)
    && (forall w :: w in t.workers ==> w in s.workers)
    && (Missed(t.calls[r]) ==>
          (s.calls[r].CheckWorkers? && s.workers == []) || (Missed(s.calls[r]) && !s.calls[r].PushRequest?))
  }

  /** How a step of a worker does. */
  ghost predicate WorkSeen(s: State, t: State, w: WorkerId) {
    && w < |s.ws| && t.calls == s.calls
    && |t.ws| == |s.ws| && (forall v :: 0 <= v < |s.ws| && v != w ==> t.ws[v].pc == s.ws[v].pc)
    && t.workers == (if s.ws[w].pc.Park? then s.workers + [w] else s.workers)
    && (forall r :: r in t.requests ==> r in s.requests)
    && (MissedToo(t.ws[w].pc) ==>
          (s.ws[w].pc.CheckRequests? && s.requests == []) || (MissedToo(s.ws[w].pc) && !s.ws[w].pc.Park?))
  }

  lemma CallSees(s: State, r: Request)
    requires WellFormed(s) && Enabled(s, Call(r))
    ensures CallSeen(s, CallStep(s, r), r)
  {
    CallEffect(s, r);
    CallEffectOnWorkers(s, r);
    CallEffectOnQueues(s, r);
    CallMisses(s, r);
    hide CallStep;
  }

  lemma WorkSees(s: State, w: WorkerId)
    requires WellFormed(s) && Enabled(s, Work(w))
    ensures WorkSeen(s, WorkStep(s, w), w)
  {
    WorkEffect(s, w);
    WorkEffectOnOthers(s, w);
    WorkEffectOnQueues(s, w);
    WorkMisses(s, w);
    hide WorkStep;
  }

  lemma CallKeepsEntries(s: State, t: State, r: Request, h: Stamps)
    requires CallSeen(s, t, r) && EntriesStamped(s, h) && ChecksStamped(s, h)
    ensures EntriesStamped(t, Stamped(s, Call(r), h))
  {
    assert s.calls[r].PushRequest? ==> Missed(s.calls[r]);
  }

  lemma CallKeepsCallChecks(s: State, t: State, r: Request, h: Stamps)
    requires CallSeen(s, t, r) && EntriesStamped(s, h) && ChecksStamped(s, h)
    requires EntriesStamped(t, Stamped(s, Call(r), h))
    ensures CallChecksStamped(t, Stamped(s, Call(r), h))
  {
  }

  lemma CallKeepsWorkerChecks(s: State, t: State, r: Request, h: Stamps)
    requires CallSeen(s, t, r) && EntriesStamped(s, h) && ChecksStamped(s, h)
    requires EntriesStamped(t, Stamped(s, Call(r), h))
    ensures WorkerChecksStamped(t, Stamped(s, Call(r), h))
  {
    assert s.calls[r].PushRequest? ==> Missed(s.calls[r]);
  }

  lemma WorkKeepsEntries(s: State, t: State, w: WorkerId, h: Stamps)
    requires WorkSeen(s, t, w) && EntriesStamped(s, h) && ChecksStamped(s, h)
    ensures EntriesStamped(t, Stamped(s, Work(w), h))
  {
    hide CallChecksStamped;
    assert s.ws[w].pc.Park? ==> MissedToo(s.ws[w].pc);
  }

  lemma WorkKeepsCallChecks(s: State, t: State, w: WorkerId, h: Stamps)
    requires WorkSeen(s, t, w) && EntriesStamped(s, h) && ChecksStamped(s, h)
    requires EntriesStamped(t, Stamped(s, Work(w), h))
    ensures CallChecksStamped(t, Stamped(s, Work(w), h))
  {
  }

  lemma WorkKeepsWorkerChecks(s: State, t: State, w: WorkerId, h: Stamps)
    requires WorkSeen(s, t, w) && EntriesStamped(s, h) && ChecksStamped(s, h)
    requires EntriesStamped(t, Stamped(s, Work(w), h))
    ensures WorkerChecksStamped(t, Stamped(s, Work(w), h))
  {
    assert s.ws[w].pc.Park? ==> MissedToo(s.ws[w].pc);
  }

  lemma StepStamped(s: State, a: Action, h: Stamps)
    requires WellFormed(s) && Enabled(s, a) && EntriesStamped(s, h) && ChecksStamped(s, h)
    ensures EntriesStamped(Next(s, a), Stamped(s, a, h)) && ChecksStamped(Next(s, a), Stamped(s, a, h))
  {
    hide CallStep, WorkStep, CallSeen, WorkSeen;
    match a
    case Call(r) =>
      hide EntriesStamped, CallChecksStamped, WorkerChecksStamped, Stamped;
      CallSees(s, r);
      CallKeepsEntries(s, CallStep(s, r), r, h);
      CallKeepsCallChecks(s, CallStep(s, r), r, h);
      CallKeepsWorkerChecks(s, CallStep(s, r), r, h);
    case Work(w) =>
      hide EntriesStamped, CallChecksStamped, WorkerChecksStamped, Stamped;
      WorkSees(s, w);
      WorkKeepsEntries(s, WorkStep(s, w), w, h);
      WorkKeepsCallChecks(s, WorkStep(s, w), w, h);
      WorkKeepsWorkerChecks(s, WorkStep(s, w), w, h);
    case _ =>
  }

  lemma {:induction false} RunStamped(s: State, run: seq<Action>)
    requires Init(s) && WellFormed(s) && Feasible(s, run)
    ensures EntriesStamped(After(s, run), StampsOf(s, run))
    ensures ChecksStamped(After(s, run), StampsOf(s, run))
  {
    if run == [] {
    } else {
      var front, a := run[..|run| - 1], run[|run| - 1];
      RunStamped(s, front);
      StepStamped(After(s, front), a, StampsOf(s, front));
    }
  }

  // ---------------------------------------------------------------- stranding

  /** Step `check` of the run is the call's test of the queue of workers, which it finds empty, and from then to step
      `upTo` it is on its way to push. */
  ghost predicate CallMissed(states: seq<State>, run: seq<Action>, r: Request, check: nat, upTo: nat) {
    && check < upTo <= |run| < |states|
    && run[check] == Call(r)
    && r in states[check].calls && states[check].calls[r].CheckWorkers? && states[check].workers == []
    && forall k :: check < k <= upTo ==> r in states[k].calls && Missed(states[k].calls[r])
  }

  /** The same for a worker and the queue of requests. */
  ghost predicate WorkerMissed(states: seq<State>, run: seq<Action>, w: WorkerId, check: nat, upTo: nat) {
    && check < upTo <= |run| < |states|
    && run[check] == Work(w)
    && w < |states[check].ws| && states[check].ws[w].pc.CheckRequests? && states[check].requests == []
    && forall k :: check < k <= upTo ==> w < |states[k].ws| && MissedToo(states[k].ws[w].pc)
  }

  /** A window of the run: from a check that finds the other queue empty to the push that follows it. */
  ghost predicate CallWindow(states: seq<State>, run: seq<Action>, r: Request, win: Window) {
    && win.push < |run| && CallMissed(states, run, r, win.check, win.push)
    && run[win.push] == Call(r) && states[win.push].calls[r].PushRequest?
  }

  ghost predicate WorkerWindow(states: seq<State>, run: seq<Action>, w: WorkerId, win: Window) {
    && win.push < |run| && WorkerMissed(states, run, w, win.check, win.push)
    && run[win.push] == Work(w) && states[win.push].ws[w].pc.Park?
  }

  /** The stamps are the windows of the run, and its pending checks. */
  ghost predicate StampsReal(states: seq<State>, run: seq<Action>, h: Stamps) {
    && h.clock == |run| == |states| - 1
    && WindowsReal(states, run, h) && ChecksReal(states, run, h)
  }

  ghost predicate WindowsReal(states: seq<State>, run: seq<Action>, h: Stamps) {
    && (forall r :: r in h.callWindow ==> CallWindow(states, run, r, h.callWindow[r]))
    && (forall w :: w in h.workerWindow ==> WorkerWindow(states, run, w, h.workerWindow[w]))
  }

  ghost predicate ChecksReal(states: seq<State>, run: seq<Action>, h: Stamps)
    requires |states| == |run| + 1
  {
    var t := states[|run|];
    && (forall r :: r in t.calls && Missed(t.calls[r]) ==>
          r in h.callCheck && CallMissed(states, run, r, h.callCheck[r], |run|))
    && (forall w :: 0 <= w < |t.ws| && MissedToo(t.ws[w].pc) ==>
          w in h.workerCheck && WorkerMissed(states, run, w, h.workerCheck[w], |run|))
  }

  /** Windows stay when the run goes on. */
  lemma WindowsStay(states: seq<State>, run: seq<Action>, u: State, a: Action)
    requires |states| == |run| + 1
    ensures forall r, win :: CallWindow(states, run, r, win) ==> CallWindow(states + [u], run + [a], r, win)
    ensures forall w, win :: WorkerWindow(states, run, w, win) ==> WorkerWindow(states + [u], run + [a], w, win)
  {
  }

  /** A thread that misses after a step has checked in it, or had missed before it. */
  lemma CallMissesOn(states: seq<State>, run: seq<Action>, u: State, a: Action, r: Request, check: nat)
    requires |states| == |run| + 1 && r in u.calls && Missed(u.calls[r])
    requires var t := states[|run|];
             || CallMissed(states, run, r, check, |run|)
             || (check == |run| && a == Call(r) && r in t.calls && t.calls[r].CheckWorkers? && t.workers == [])
    ensures CallMissed(states + [u], run + [a], r, check, |run| + 1)
  {
  }

  lemma WorkerMissesOn(states: seq<State>, run: seq<Action>, u: State, a: Action, w: WorkerId, check: nat)
    requires |states| == |run| + 1 && w < |u.ws| && MissedToo(u.ws[w].pc)
    requires var t := states[|run|];
             || WorkerMissed(states, run, w, check, |run|)
             || (check == |run| && a == Work(w) && w < |t.ws| && t.ws[w].pc.CheckRequests? && t.requests == [])
    ensures WorkerMissed(states + [u], run + [a], w, check, |run| + 1)
  {
  }

  /** A push ends the window that the pending check has opened. */
  lemma CallPushes(states: seq<State>, run: seq<Action>, u: State, r: Request, check: nat)
    requires |states| == |run| + 1 && CallMissed(states, run, r, check, |run|)
    requires states[|run|].calls[r].PushRequest?
    ensures CallWindow(states + [u], run + [Call(r)], r, Window(check, |run|))
  {
  }

  lemma WorkerPushes(states: seq<State>, run: seq<Action>, u: State, w: WorkerId, check: nat)
    requires |states| == |run| + 1 && WorkerMissed(states, run, w, check, |run|)
    requires states[|run|].ws[w].pc.Park?
    ensures WorkerWindow(states + [u], run + [Work(w)], w, Window(check, |run|))
  {
  }

  /** Whoever misses after a step had missed before it, or has checked in it; the stamps say which. */
  ghost predicate ChecksGoOn(t: State, u: State, a: Action, h: Stamps, h': Stamps) {
    && (forall r :: r in u.calls && Missed(u.calls[r]) ==>
          || (r in t.calls && Missed(t.calls[r]) && Same(h.callCheck, h'.callCheck, r))
          || (a == Call(r) && r in t.calls && t.calls[r].CheckWorkers? && t.workers == []
              && r in h'.callCheck && h'.callCheck[r] == h.clock))
    && (forall w :: 0 <= w < |u.ws| && MissedToo(u.ws[w].pc) ==>
          || (w < |t.ws| && MissedToo(t.ws[w].pc) && Same(h.workerCheck, h'.workerCheck, w))
          || (a == Work(w) && w < |t.ws| && t.ws[w].pc.CheckRequests? && t.requests == []
              && w in h'.workerCheck && h'.workerCheck[w] == h.clock))
  }

  predicate Same<K>(m: map<K, nat>, m': map<K, nat>, k: K) {
    k in m ==> k in m' && m'[k] == m[k]
  }

  lemma ChecksOn(states: seq<State>, run: seq<Action>, u: State, a: Action, h: Stamps, h': Stamps)
    requires StampsReal(states, run, h) && ChecksGoOn(states[|run|], u, a, h, h')
    ensures ChecksReal(states + [u], run + [a], h')
  {
    hide CallMissed, WorkerMissed, WindowsReal;
    forall r | r in u.calls && Missed(u.calls[r])
      ensures r in h'.callCheck && CallMissed(states + [u], run + [a], r, h'.callCheck[r], |run| + 1)
    {
      CallMissesOn(states, run, u, a, r, h'.callCheck[r]);
    }
    forall w | 0 <= w < |u.ws| && MissedToo(u.ws[w].pc)
      ensures w in h'.workerCheck && WorkerMissed(states + [u], run + [a], w, h'.workerCheck[w], |run| + 1)
    {
      WorkerMissesOn(states, run, u, a, w, h'.workerCheck[w]);
    }
  }

  lemma CallGoesOn(t: State, u: State, r: Request, h: Stamps)
    requires CallSeen(t, u, r)
    ensures ChecksGoOn(t, u, Call(r), h, Stamped(t, Call(r), h))
  {
  }

  lemma CallWindowsReal(states: seq<State>, run: seq<Action>, u: State, r: Request, h: Stamps)
    requires StampsReal(states, run, h) && r in states[|run|].calls
    ensures WindowsReal(states + [u], run + [Call(r)], Stamped(states[|run|], Call(r), h))
  {
    hide CallMissed, WorkerMissed, CallWindow, WorkerWindow;
    var t := states[|run|];
    WindowsStay(states, run, u, Call(r));
    assert t.calls[r].PushRequest? ==> Missed(t.calls[r]);
    if t.calls[r].PushRequest? {
      CallPushes(states, run, u, r, h.callCheck[r]);
    }
  }

  lemma CallStampsReal(states: seq<State>, run: seq<Action>, r: Request, h: Stamps)
    requires StampsReal(states, run, h) && WellFormed(states[|run|]) && Enabled(states[|run|], Call(r))
    ensures var t := states[|run|];
            StampsReal(states + [CallStep(t, r)], run + [Call(r)], Stamped(t, Call(r), h))
  {
    var t := states[|run|];
    assert r in t.calls;
    hide WellFormed, CallStep, Enabled, WindowsReal, ChecksReal, ChecksGoOn;
    var u := CallStep(t, r);
    CallSees(t, r);
    hide CallSeen;
    CallWindowsReal(states, run, u, r, h);
    CallGoesOn(t, u, r, h);
    ChecksOn(states, run, u, Call(r), h, Stamped(t, Call(r), h));
  }

  lemma WorkGoesOn(t: State, u: State, w: WorkerId, h: Stamps)
    requires WorkSeen(t, u, w)
    ensures ChecksGoOn(t, u, Work(w), h, Stamped(t, Work(w), h))
  {
  }

  lemma WorkWindowsReal(states: seq<State>, run: seq<Action>, u: State, w: WorkerId, h: Stamps)
    requires StampsReal(states, run, h) && w < |states[|run|].ws|
    ensures WindowsReal(states + [u], run + [Work(w)], Stamped(states[|run|], Work(w), h))
  {
    hide CallMissed, WorkerMissed, CallWindow, WorkerWindow;
    var t := states[|run|];
    WindowsStay(states, run, u, Work(w));
    assert t.ws[w].pc.Park? ==> MissedToo(t.ws[w].pc);
    if t.ws[w].pc.Park? {
      WorkerPushes(states, run, u, w, h.workerCheck[w]);
    }
  }

  lemma WorkStampsReal(states: seq<State>, run: seq<Action>, w: WorkerId, h: Stamps)
    requires StampsReal(states, run, h) && WellFormed(states[|run|]) && Enabled(states[|run|], Work(w))
    ensures var t := states[|run|];
            StampsReal(states + [WorkStep(t, w)], run + [Work(w)], Stamped(t, Work(w), h))
  {
    var t := states[|run|];
    assert w < |t.ws|;
    hide WellFormed, WorkStep, Enabled, WindowsReal, ChecksReal, ChecksGoOn;
    var u := WorkStep(t, w);
    WorkSees(t, w);
    hide WorkSeen;
    WorkWindowsReal(states, run, u, w, h);
    WorkGoesOn(t, u, w, h);
    ChecksOn(states, run, u, Work(w), h, Stamped(t, Work(w), h));
  }

  lemma OtherStampsReal(states: seq<State>, run: seq<Action>, a: Action, h: Stamps)
    requires StampsReal(states, run, h) && WellFormed(states[|run|]) && Enabled(states[|run|], a)
    requires !a.Call? && !a.Work?
    ensures var t := states[|run|];
            StampsReal(states + [Next(t, a)], run + [a], Stamped(t, a, h))
  {
    var t := states[|run|];
    var u := Next(t, a);
    OthersKeepPlaces(t, a);
    WindowsStay(states, run, u, a);
    hide WellFormed, Next, Enabled, CallMissed, WorkerMissed, CallWindow, WorkerWindow;
    ChecksOn(states, run, u, a, h, Stamped(t, a, h));
  }

  lemma OthersKeepPlaces(t: State, a: Action)
    requires WellFormed(t) && Enabled(t, a) && !a.Call? && !a.Work?
    ensures var u := Next(t, a);
            && (forall q :: q in u.calls && Missed(u.calls[q]) ==> q in t.calls && u.calls[q] == t.calls[q])
            && |u.ws| == |t.ws| && (forall w :: 0 <= w < |t.ws| ==> u.ws[w].pc == t.ws[w].pc)
  {
  }

  lemma {:induction false} RunStampsReal(s: State, run: seq<Action>)
    requires Init(s) && WellFormed(s) && Feasible(s, run)
    ensures StampsReal(Trace(s, run), run, StampsOf(s, run))
  {
    hide Init, WellFormed, Enabled, Next, StampsReal, Stamped;
    if run == [] {
      NothingStamped(s);
    } else {
      var front, a := run[..|run| - 1], run[|run| - 1];
      RunStampsReal(s, front);
      var states, h := Trace(s, front), StampsOf(s, front);
      assert Trace(s, run) == states + [Next(states[|front|], a)] && front + [a] == run;
      StepStampsReal(states, front, a, h);
    }
  }

  lemma NothingStamped(s: State)
    requires Init(s)
    ensures StampsReal([s], [], Stamps(0, map[], map[], map[], map[]))
  {
  }

  lemma StepStampsReal(states: seq<State>, run: seq<Action>, a: Action, h: Stamps)
    requires |states| == |run| + 1 && StampsReal(states, run, h)
    requires WellFormed(states[|run|]) && Enabled(states[|run|], a)
    ensures StampsReal(states + [Next(states[|run|], a)], run + [a], Stamped(states[|run|], a, h))
  {
    var t := states[|run|];
    hide StampsReal, Stamped, CallStep, WorkStep;
    match a
    case Call(r) => CallStampsReal(states, run, r, h);
    case Work(w) => WorkStampsReal(states, run, w, h);
    case _ => OtherStampsReal(states, run, a, h);
  }

  /** No push of the same call, or of the same worker, comes after a window. */
  ghost predicate LastPush(states: seq<State>, run: seq<Action>, r: Request, win: Window) {
    forall k :: win.push < k < |run| < |states| && run[k] == Call(r) ==>
      r !in states[k].calls || !states[k].calls[r].PushRequest?
  }

  ghost predicate LastPark(states: seq<State>, run: seq<Action>, w: WorkerId, win: Window) {
    forall k :: win.push < k < |run| < |states| && run[k] == Work(w) ==> w >= |states[k].ws| || !states[k].ws[w].pc.Park?
  }

  /** The stamps are those of the last windows. */
  ghost predicate StampsLast(states: seq<State>, run: seq<Action>, h: Stamps) {
    && h.clock == |run| == |states| - 1
    && (forall r :: r in h.callWindow ==> LastPush(states, run, r, h.callWindow[r]))
    && (forall w :: w in h.workerWindow ==> LastPark(states, run, w, h.workerWindow[w]))
  }

  lemma StampsLastOn(states: seq<State>, run: seq<Action>, u: State, a: Action, h: Stamps)
    requires StampsLast(states, run, h)
    requires a.Call? ==> a.r in states[|run|].calls
    requires a.Work? ==> a.w < |states[|run|].ws|
    ensures StampsLast(states + [u], run + [a], Stamped(states[|run|], a, h))
  {
    hide LastPush, LastPark;
    LastStays(states, run, u, a);
    var t, h' := states[|run|], Stamped(states[|run|], a, h);
    forall r | r in h'.callWindow ensures LastPush(states + [u], run + [a], r, h'.callWindow[r]) {
      assert r in h.callWindow || (a == Call(r) && t.calls[r].PushRequest?);
    }
    forall w | w in h'.workerWindow ensures LastPark(states + [u], run + [a], w, h'.workerWindow[w]) {
      assert w in h.workerWindow || (a == Work(w) && t.ws[w].pc.Park?);
    }
  }

  /** A window stays the last one when the step is no push, and a window that ends in the step is the last one. */
  lemma LastStays(states: seq<State>, run: seq<Action>, u: State, a: Action)
    requires |states| == |run| + 1
    ensures forall r, win :: (a == Call(r) && r in states[|run|].calls ==> !states[|run|].calls[r].PushRequest?) ==>
              LastPush(states, run, r, win) ==> LastPush(states + [u], run + [a], r, win)
    ensures forall w: WorkerId, win :: (a == Work(w) && w < |states[|run|].ws| ==> !states[|run|].ws[w].pc.Park?) ==>
              LastPark(states, run, w, win) ==> LastPark(states + [u], run + [a], w, win)
    ensures forall r, win: Window :: win.push == |run| ==> LastPush(states + [u], run + [a], r, win)
    ensures forall w: WorkerId, win: Window :: win.push == |run| ==> LastPark(states + [u], run + [a], w, win)
  {
  }

  lemma {:induction false} RunStampsLast(s: State, run: seq<Action>)
    requires WellFormed(s) && Feasible(s, run)
    ensures StampsLast(Trace(s, run), run, StampsOf(s, run))
  {
    if run == [] {
    } else {
      var front, a := run[..|run| - 1], run[|run| - 1];
      RunStampsLast(s, front);
      var states := Trace(s, front);
      assert Trace(s, run) == states + [Next(states[|front|], a)] && front + [a] == run;
      hide Next, StampsLast, Stamped;
      StampsLastOn(states, front, Next(states[|front|], a), a, StampsOf(s, front));
    }
  }

  /** Stranding only through overlap: whenever a request and a worker are in the two queues at the same time, they got
      there through a window of that call and one of that worker, the last ones to end in a push, that overlapped. */
  lemma StrandedOnlyByOverlap(s: State, run: seq<Action>, r: Request, w: WorkerId)
    requires Init(s) && WellFormed(s) && Feasible(s, run)
    requires r in After(s, run).requests && w in After(s, run).workers
    ensures exists a, b ::
              && CallWindow(Trace(s, run), run, r, a) && LastPush(Trace(s, run), run, r, a)
              && WorkerWindow(Trace(s, run), run, w, b) && LastPark(Trace(s, run), run, w, b)
              && Overlap(a, b)
  {
    RunStamped(s, run);
    RunStampsReal(s, run);
    RunStampsLast(s, run);
    hide Init, WellFormed, Feasible, CallWindow, WorkerWindow, LastPush, LastPark, Overlap;
    var h := StampsOf(s, run);
    assert CallWindow(Trace(s, run), run, r, h.callWindow[r]) && LastPush(Trace(s, run), run, r, h.callWindow[r]);
    assert WorkerWindow(Trace(s, run), run, w, h.workerWindow[w]) && LastPark(Trace(s, run), run, w, h.workerWindow[w]);
    assert Overlap(h.callWindow[r], h.workerWindow[w]);
  }

  /** So if no window of a call ever overlaps one of a worker, one of the two queues is always empty. */
  lemma OneQueueEmpty(s: State, run: seq<Action>)
    requires Init(s) && WellFormed(s) && Feasible(s, run)
    requires forall r, w, a, b :: CallWindow(Trace(s, run), run, r, a) && WorkerWindow(Trace(s, run), run, w, b) ==>
               !Overlap(a, b)
    ensures After(s, run).requests == [] || After(s, run).workers == []
  {
    var t := After(s, run);
    if t.requests != [] && t.workers != [] {
      assert t.requests[0] in t.requests && t.workers[0] in t.workers;
      StrandedOnlyByOverlap(s, run, t.requests[0], t.workers[0]);
    }
  }
}
