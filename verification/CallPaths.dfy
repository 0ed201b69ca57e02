/** What a call of `addRequest` has done when it returns, whatever other threads did in between. */
module CallPaths {
  import opened Dispatcher
  import opened DispatcherInvariant

  /** The steps of a call in a run, in their order, by the place at which each was made. */
  function Steps(s: State, run: seq<Action>, r: Request): seq<CallPc>
    requires WellFormed(s) && Feasible(s, run)
  {
    if run == [] then []
    else
      var front, a := run[..|run| - 1], run[|run| - 1];
      Steps(s, front, r) + if a == Call(r) then [After(s, front).calls[r]] else []
  }

  /** Lines 72 to 84: fill in the worker, wake it up under its mutex, and take it off the queue. */
  function HandsOver(w: WorkerId): seq<CallPc> {
    [LockWorkers, CheckWorkers, SetRequest(w), SetReady(w), LockWorker(w), NotifyWorker(w), PopWorker(w),
     UnlockWorkersAfterPop(w), UnlockWorker(w)]
  }

  /** Lines 72 and 86 to 89. */
  const QUEUES := [LockWorkers, CheckWorkers, UnlockWorkersEmpty, LockRequests, PushRequest, UnlockRequests]

  /** The steps made lead to this place. */
  ghost predicate Leads(done: seq<CallPc>, pc: CallPc) {
    if pc.Returned? then done == QUEUES || exists w :: done == HandsOver(w)
    else if HasTarget(pc) then
      |done| < 9 && done == HandsOver(Target(pc))[..|done|] && pc == HandsOver(Target(pc))[|done|]
    else
      |done| < 6 && done == QUEUES[..|done|] && pc == QUEUES[|done|]
  }

  lemma HandingLeads(s: State, r: Request, done: seq<CallPc>)
    requires WellFormed(s) && Enabled(s, Call(r)) && Leads(done, s.calls[r]) && HasTarget(s.calls[r])
    ensures Leads(done + [s.calls[r]], CallStep(s, r).calls[r])
  {
    var pc, q, more := s.calls[r], CallStep(s, r).calls[r], done + [s.calls[r]];
    assert HasTarget(q) ==> Target(q) == Target(pc) && q == HandsOver(Target(pc))[|more|];
    assert more == HandsOver(Target(pc))[..|more|];
    hide CallStep, WellFormed, Enabled;
  }

  lemma QueueingLeads(s: State, r: Request, done: seq<CallPc>)
    requires WellFormed(s) && Enabled(s, Call(r)) && Leads(done, s.calls[r]) && !HasTarget(s.calls[r])
    ensures Leads(done + [s.calls[r]], CallStep(s, r).calls[r])
  {
    var pc, q, more := s.calls[r], CallStep(s, r).calls[r], done + [s.calls[r]];
    assert more == QUEUES[..|more|];
    if HasTarget(q) {
      assert more == HandsOver(Target(q))[..|more|];
    }
  }

  lemma OthersPass(s: State, a: Action, r: Request)
    requires WellFormed(s) && Enabled(s, a) && a != Call(r)
    ensures var t := Next(s, a);
            if r in s.calls then r in t.calls && t.calls[r] == s.calls[r]
            else r in t.calls ==> a == Submit(r) && t.calls[r] == LockWorkers
  {
    match a
    case Call(q) => CallEffect(s, q); hide CallStep;
    case Work(w) => WorkEffect(s, w); hide WorkStep;
    case _ =>
  }

  lemma {:induction false} StepsLead(s: State, run: seq<Action>, r: Request)
    requires Init(s) && WellFormed(s) && Feasible(s, run)
    ensures r in After(s, run).calls ==> Leads(Steps(s, run, r), After(s, run).calls[r])
    ensures r !in After(s, run).calls ==> Steps(s, run, r) == []
  {
    if run != [] {
      var front, a := run[..|run| - 1], run[|run| - 1];
      StepsLead(s, front, r);
      var t := After(s, front);
      if a == Call(r) {
        if HasTarget(t.calls[r]) {
          HandingLeads(t, r, Steps(s, front, r));
        } else {
          QueueingLeads(t, r, Steps(s, front, r));
        }
      } else {
        OthersPass(t, a, r);
      }
    }
  }

  /** A call that has returned has done one of two things, completely and once: handed its request to one worker and
      woken it up, or queued it. */
  lemma ReturnedAfter(s: State, run: seq<Action>, r: Request)
    requires Init(s) && WellFormed(s) && Feasible(s, run)
    requires r in After(s, run).calls && After(s, run).calls[r].Returned?
    ensures Steps(s, run, r) == QUEUES || exists w :: Steps(s, run, r) == HandsOver(w)
  {
    StepsLead(s, run, r);
  }
}
