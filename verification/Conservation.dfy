/** Exactly-once conservation: in every reachable state each submitted request is in exactly one place. */
module Conservation {
  import opened Queues
  import opened Dispatcher
  import opened DispatcherInvariant

  /** Where a request can be. A request assigned to a worker that has exited is abandoned. */
  datatype Place = Held | Queued | Assigned(w: WorkerId) | InProcess(w: WorkerId) | InFinish(w: WorkerId) | Done

  /** The call has not yet put the request anywhere. */
  predicate HeldPc(pc: CallPc) {
    pc.LockWorkers? || pc.CheckWorkers? || pc.SetRequest? || pc.SetReady? || pc.UnlockWorkersEmpty?
    || pc.LockRequests? || pc.PushRequest?
  }

  /** A worker has copied the request at the head of the queue and raised its flag, and has not popped it yet. */
  predicate Copied(s: State) {
    s.requestsMutex.ByWorker? && s.requestsMutex.w < |s.ws| && s.ws[s.requestsMutex.w].pc.PopRequest?
  }

  /** The requests that wait in the queue for a worker. */
  function Pending(s: State): seq<Request> {
    if Copied(s) && s.requests != [] then s.requests[1..] else s.requests
  }

  /** What the state itself says about where a request is. */
  predicate At(s: State, r: Request, p: Place) {
    match p
    case Held => r in s.calls && HeldPc(s.calls[r])
    case Queued => r in Pending(s)
    case Assigned(w) => w < |s.ws| && s.ws[w].ready && s.ws[w].request == r
    case InProcess(w) => w < |s.ws| && s.ws[w].pc.Processing? && s.ws[w].request == r
    case InFinish(w) => w < |s.ws| && s.ws[w].pc.Finishing? && s.ws[w].request == r
    case Done => r in s.finished
  }

  // ---------------------------------------------------------------- following the requests of a run

  /** How a step of `addRequest` moves its request, if it does. */
  function CallMoved(p: CallPc, r: Request, places: map<Request, Place>): map<Request, Place> {
    if p.PushRequest? then places[r := Queued] else if p.SetReady? then places[r := Assigned(Target(p))] else places
  }

  /** How a step of a worker moves the request it has. */
  function WorkMoved(me: WorkerState, w: WorkerId, places: map<Request, Place>): map<Request, Place> {
    if me.pc.RaiseReady? then places[me.request := Assigned(w)]
    else if me.pc.ClearReady? then places[me.request := InProcess(w)]
    else if me.pc.Processing? then places[me.request := InFinish(w)]
    else if me.pc.Finishing? then places[me.request := Done]
    else places
  }

  function Moved(s: State, a: Action, places: map<Request, Place>): map<Request, Place>
    requires WellFormed(s) && Enabled(s, a)
  {
    match a
    case Submit(r) => places[r := Held]
    case Call(r) => CallMoved(s.calls[r], r, places)
    case Work(w) => WorkMoved(s.ws[w], w, places)
    case _ => places
  }

  function Places(s: State, run: seq<Action>): map<Request, Place>
    requires WellFormed(s) && Feasible(s, run)
  {
    if run == [] then map[]
    else
      var front, a := run[..|run| - 1], run[|run| - 1];
      Moved(After(s, front), a, Places(s, front))
  }

  // ---------------------------------------------------------------- the places are right

  ghost predicate HeldFits(s: State, places: map<Request, Place>) {
    && places.Keys == s.calls.Keys
    && (forall r :: r in s.calls ==> (HeldPc(s.calls[r]) <==> places[r] == Held))
  }

  ghost predicate QueueFits(s: State, places: map<Request, Place>) {
    && NoDuplicates(s.requests)
    && (forall r :: r in Pending(s) <==> r in places && places[r] == Queued)
  }

  /** A worker that takes a request from the queue has its eyes on the head. */
  ghost predicate TakersFit(s: State) {
    forall w :: 0 <= w < |s.ws| ==> TakerFits(s, s.ws[w])
  }

  predicate TakerFits(s: State, me: WorkerState) {
    && (me.pc.CopyRequest? || me.pc.RaiseReady? || me.pc.PopRequest? ==> s.requests != [])
    && (me.pc.RaiseReady? || me.pc.PopRequest? ==> me.request == s.requests[0])
  }

  /** A ready worker has its request assigned to it, and a worker in `process` or `finish` has its request there. */
  ghost predicate ReadyFits(s: State, places: map<Request, Place>) {
    forall w :: 0 <= w < |s.ws| && s.ws[w].ready ==>
      s.ws[w].request in places && places[s.ws[w].request] == Assigned(w)
  }

  ghost predicate ProcessingFits(s: State, places: map<Request, Place>) {
    && (forall w :: 0 <= w < |s.ws| && s.ws[w].pc.Processing? ==>
          s.ws[w].request in places && places[s.ws[w].request] == InProcess(w))
    && (forall w :: 0 <= w < |s.ws| && s.ws[w].pc.Finishing? ==>
          s.ws[w].request in places && places[s.ws[w].request] == InFinish(w))
  }

  /** And the other way round. */
  ghost predicate PlacesReal(s: State, places: map<Request, Place>) {
    && (forall r :: r in places && places[r].Assigned? ==> At(s, r, places[r]))
    && (forall r :: r in places && places[r].InProcess? ==> At(s, r, places[r]))
    && (forall r :: r in places && places[r].InFinish? ==> At(s, r, places[r]))
  }

  /** Between its two assignments `setRequest` has stored the request. */
  ghost predicate TargetsFit(s: State) {
    forall r :: r in s.calls && s.calls[r].SetReady? ==>
      Target(s.calls[r]) < |s.ws| && s.ws[Target(s.calls[r])].request == r
  }

  ghost predicate DoneFits(s: State, places: map<Request, Place>) {
    && NoDuplicates(s.processed) && NoDuplicates(s.finished)
    && (forall r :: r in s.processed <==> r in places && (places[r].InFinish? || places[r].Done?))
    && (forall r :: r in s.finished <==> r in places && places[r].Done?)
  }

  ghost predicate Fits(s: State, places: map<Request, Place>) {
    && Inv(s) && HeldFits(s, places) && QueueFits(s, places) && TakersFit(s) && TargetsFit(s)
    && ReadyFits(s, places) && ProcessingFits(s, places) && PlacesReal(s, places) && DoneFits(s, places)
  }

  /** The place recorded is the one and only place. */
  lemma OnePlace(s: State, places: map<Request, Place>, r: Request, p: Place)
    requires Fits(s, places)
    ensures At(s, r, p) <==> r in places && places[r] == p
  {
  }

  // ---------------------------------------------------------------- a step of addRequest

  lemma CallHeld(s: State, r: Request)
    requires WellFormed(s) && Enabled(s, Call(r))
    ensures var p, q := s.calls[r], CallStep(s, r).calls[r];
            && (HeldPc(q) <==> HeldPc(p) && !p.SetReady? && !p.PushRequest?)
            && (q.SetReady? <==> p.SetRequest?) && (q.SetReady? ==> Target(q) == Target(p))
  {
  }

  /** The assignments of `setRequest`. */
  ghost predicate CallWrote(s: State, t: State, r: Request)
    requires r in s.calls
  {
    && |t.ws| == |s.ws|
    && var p := s.calls[r];
       forall w :: 0 <= w < |s.ws| ==>
         t.ws[w] == if p.SetRequest? && w == p.w then s.ws[w].(request := r)
                    else if p.SetReady? && w == p.w then s.ws[w].(ready := true)
                    else s.ws[w]
  }

  lemma CallWrites(s: State, r: Request)
    requires WellFormed(s) && Enabled(s, Call(r))
    ensures CallWrote(s, CallStep(s, r), r)
  {
  }

  /** What the call finds: a worker that has nothing pending and takes nothing, and the request in its hands. */
  ghost predicate CallFinds(s: State, r: Request, places: map<Request, Place>) {
    && r in s.calls && r in places
    && var p := s.calls[r];
       && (HeldPc(p) ==> places[r] == Held)
       && (p.SetRequest? || p.SetReady? ==>
             && Target(p) < |s.ws|
             && var me := s.ws[Target(p)];
                && !me.ready && !me.pc.Processing? && !me.pc.Finishing?
                && !me.pc.CopyRequest? && !me.pc.RaiseReady? && !me.pc.PopRequest?)
       && (p.SetRequest? ==> forall q :: q in s.calls ==> !s.calls[q].SetReady?)
  }

  lemma CallFindsThis(s: State, r: Request, places: map<Request, Place>)
    requires Inv(s) && HeldFits(s, places) && r in s.calls
    ensures CallFinds(s, r, places)
  {
    var p := s.calls[r];
    if p.SetRequest? || p.SetReady? {
      TargetIsIdle(s, r);
      assert FlagsFit(s.ws[Target(p)]);
    }
    if p.SetRequest? {
      forall q | q in s.calls ensures !s.calls[q].SetReady? {
        assert CallHoldsWorkers(s.calls[q]) <==> s.workersMutex == ByCall(q);
      }
    }
  }

  lemma CallKeepsReady(s: State, t: State, r: Request, places: map<Request, Place>)
    requires CallFinds(s, r, places) && CallWrote(s, t, r) && TargetsFit(s) && ReadyFits(s, places)
    ensures ReadyFits(t, CallMoved(s.calls[r], r, places))
  {
  }

  lemma CallKeepsProcessing(s: State, t: State, r: Request, places: map<Request, Place>)
    requires CallFinds(s, r, places) && CallWrote(s, t, r) && ProcessingFits(s, places)
    ensures ProcessingFits(t, CallMoved(s.calls[r], r, places))
  {
  }

  lemma CallKeepsReal(s: State, t: State, r: Request, places: map<Request, Place>)
    requires CallFinds(s, r, places) && CallWrote(s, t, r) && TargetsFit(s) && PlacesReal(s, places)
    ensures PlacesReal(t, CallMoved(s.calls[r], r, places))
  {
  }

  lemma CallKeepsTargets(s: State, r: Request, places: map<Request, Place>)
    requires Inv(s) && Enabled(s, Call(r)) && CallFinds(s, r, places) && TargetsFit(s)
    ensures TargetsFit(CallStep(s, r))
  {
  }

  lemma CallKeepsTakers(s: State, r: Request, places: map<Request, Place>)
    requires WellFormed(s) && Enabled(s, Call(r)) && CallFinds(s, r, places) && TakersFit(s)
    ensures TakersFit(CallStep(s, r))
  {
  }

  lemma PendingAfterCall(s: State, r: Request)
    requires Inv(s) && Enabled(s, Call(r))
    ensures Pending(CallStep(s, r)) == Pending(s) + if s.calls[r].PushRequest? then [r] else []
    ensures s.calls[r].PushRequest? ==> Pending(s) == s.requests
  {
  }

  lemma CallKeepsQueue(s: State, r: Request, places: map<Request, Place>)
    requires Inv(s) && Enabled(s, Call(r)) && CallFinds(s, r, places) && QueueFits(s, places)
    ensures QueueFits(CallStep(s, r), CallMoved(s.calls[r], r, places))
  {
    PendingAfterCall(s, r);
    CallEffectOnQueues(s, r);
    hide CallStep, Inv, Pending;
  }

  lemma CallKeepsHeldAndDone(s: State, r: Request, places: map<Request, Place>)
    requires WellFormed(s) && Enabled(s, Call(r)) && CallFinds(s, r, places) && HeldFits(s, places)
    requires DoneFits(s, places)
    ensures HeldFits(CallStep(s, r), CallMoved(s.calls[r], r, places))
    ensures DoneFits(CallStep(s, r), CallMoved(s.calls[r], r, places))
  {
    CallEffect(s, r);
    CallHeld(s, r);
    hide CallStep;
  }

  lemma CallKeepsFits(s: State, r: Request, places: map<Request, Place>)
    requires Fits(s, places) && Enabled(s, Call(r))
    ensures Fits(CallStep(s, r), Moved(s, Call(r), places))
  {
    assert WellFormed(s);
    hide CallStep, Inv, CallWrote, CallFinds, HeldFits, QueueFits, TakersFit, TargetsFit, ReadyFits, ProcessingFits,
         PlacesReal, DoneFits;
    NextKeepsInv(s, Call(r));
    CallFindsThis(s, r, places);
    CallWrites(s, r);
    var t := CallStep(s, r);
    CallKeepsReady(s, t, r, places);
    CallKeepsProcessing(s, t, r, places);
    CallKeepsReal(s, t, r, places);
    CallKeepsTargets(s, r, places);
    CallKeepsTakers(s, r, places);
    CallKeepsQueue(s, r, places);
    CallKeepsHeldAndDone(s, r, places);
  }

  // ---------------------------------------------------------------- a step of a worker

  /** The assignments of a worker to its own fields. */
  ghost predicate WorkWrote(s: State, t: State, w: WorkerId)
    requires w < |s.ws|
  {
    && |t.ws| == |s.ws|
    && (forall v :: 0 <= v < |s.ws| && v != w ==> t.ws[v] == s.ws[v])
    && var me, me' := s.ws[w], t.ws[w];
       && me'.request == (if me.pc.CopyRequest? && s.requests != [] then s.requests[0] else me.request)
       && me'.ready == (me.pc.RaiseReady? || (me.ready && !me.pc.ClearReady?))
       && (me'.pc.Processing? <==> me.pc.ClearReady?)
       && (me'.pc.Finishing? <==> me.pc.Processing?)
       && (me'.pc.PopRequest? <==> me.pc.RaiseReady?)
       && (me'.pc.RaiseReady? <==> me.pc.CopyRequest?)
       && (me'.pc.CopyRequest? ==> s.requests != [])
  }

  lemma WorkWrites(s: State, w: WorkerId)
    requires WellFormed(s) && Enabled(s, Work(w))
    ensures var t, me := WorkStep(s, w), s.ws[w];
            && |t.ws| == |s.ws|
            && t.ws[w].request == (if me.pc.CopyRequest? && s.requests != [] then s.requests[0] else me.request)
            && t.ws[w].ready == (me.pc.RaiseReady? || (me.ready && !me.pc.ClearReady?))
            && t.processed == (if me.pc.Processing? then s.processed + [me.request] else s.processed)
            && t.finished == (if me.pc.Finishing? then s.finished + [me.request] else s.finished)
  {
  }

  lemma WorkGoes(s: State, w: WorkerId)
    requires WellFormed(s) && Enabled(s, Work(w))
    ensures var t, pc := WorkStep(s, w), s.ws[w].pc;
            && |t.ws| == |s.ws|
            && (t.ws[w].pc.Processing? <==> pc.ClearReady?)
            && (t.ws[w].pc.Finishing? <==> pc.Processing?)
            && (t.ws[w].pc.PopRequest? <==> pc.RaiseReady?)
            && (t.ws[w].pc.RaiseReady? <==> pc.CopyRequest?)
            && (t.ws[w].pc.CopyRequest? ==> s.requests != [])
  {
  }

  lemma WorkWroteThis(s: State, w: WorkerId)
    requires WellFormed(s) && Enabled(s, Work(w))
    ensures WorkWrote(s, WorkStep(s, w), w)
  {
    WorkWrites(s, w);
    WorkGoes(s, w);
    WorkEffectOnOthers(s, w);
    hide WorkStep;
  }

  /** Where a request is when a worker moves it, and that nobody else is about to write the worker's fields. */
  ghost predicate WorkFinds(s: State, w: WorkerId, places: map<Request, Place>) {
    && w < |s.ws|
    && var me, r := s.ws[w], s.ws[w].request;
       && (me.pc.RaiseReady? ==> r in places && places[r] == Queued && !me.ready)
       && (me.pc.ClearReady? ==> r in places && places[r] == Assigned(w) && me.ready)
       && (me.pc.Processing? ==> r in places && places[r] == InProcess(w) && !me.ready)
       && (me.pc.Finishing? ==> r in places && places[r] == InFinish(w) && !me.ready)
       && (me.pc.CopyRequest? ==>
             !me.ready && forall q :: q in s.calls && s.calls[q].SetReady? ==> Target(s.calls[q]) != w)
  }

  lemma WorkFindsThis(s: State, w: WorkerId, places: map<Request, Place>)
    requires Fits(s, places) && w < |s.ws|
    ensures WorkFinds(s, w, places)
  {
    var me := s.ws[w];
    assert FlagsFit(me);
    assert TakerFits(s, me);
    if me.pc.RaiseReady? {
      assert s.requestsMutex == ByWorker(w) && !Copied(s);
      assert s.requests[0] in Pending(s);
    } else if me.pc.CopyRequest? {
      forall q | q in s.calls && s.calls[q].SetReady? ensures Target(s.calls[q]) != w {
        TargetIsIdle(s, q);
      }
    }
  }

  lemma WorkKeepsReady(s: State, t: State, w: WorkerId, places: map<Request, Place>)
    requires WorkFinds(s, w, places) && WorkWrote(s, t, w) && ReadyFits(s, places)
    ensures ReadyFits(t, WorkMoved(s.ws[w], w, places))
  {
  }

  lemma WorkKeepsProcessing(s: State, t: State, w: WorkerId, places: map<Request, Place>)
    requires WorkFinds(s, w, places) && WorkWrote(s, t, w) && ProcessingFits(s, places)
    ensures ProcessingFits(t, WorkMoved(s.ws[w], w, places))
  {
  }

  lemma WorkKeepsReal(s: State, t: State, w: WorkerId, places: map<Request, Place>)
    requires WorkFinds(s, w, places) && WorkWrote(s, t, w) && PlacesReal(s, places)
    ensures PlacesReal(t, WorkMoved(s.ws[w], w, places))
  {
  }

  lemma WorkKeepsTargets(s: State, w: WorkerId, places: map<Request, Place>)
    requires WellFormed(s) && Enabled(s, Work(w)) && WorkFinds(s, w, places) && TargetsFit(s)
    ensures TargetsFit(WorkStep(s, w))
  {
    WorkEffect(s, w);
    WorkWroteThis(s, w);
    hide WorkStep;
  }

  lemma WorkKeepsTakers(s: State, w: WorkerId)
    requires Inv(s) && Enabled(s, Work(w)) && TakersFit(s)
    ensures TakersFit(WorkStep(s, w))
  {
    WorkEffectOnQueues(s, w);
    WorkWroteThis(s, w);
    var t := WorkStep(s, w);
    hide WorkStep;
    forall v | 0 <= v < |t.ws| ensures TakerFits(t, t.ws[v]) {
      assert TakerFits(s, s.ws[v]) && TakerFits(s, s.ws[w]);
      assert WorkerHoldsRequests(s.ws[v].pc) <==> s.requestsMutex == ByWorker(v);
      assert WorkerHoldsRequests(s.ws[w].pc) <==> s.requestsMutex == ByWorker(w);
    }
  }

  lemma PendingAfterWork(s: State, w: WorkerId)
    requires Inv(s) && Enabled(s, Work(w)) && TakersFit(s)
    ensures Pending(WorkStep(s, w)) == if s.ws[w].pc.RaiseReady? then s.requests[1..] else Pending(s)
    ensures s.ws[w].pc.RaiseReady? ==> Pending(s) == s.requests
  {
    WorkEffectOnRequests(s, w);
    WorkEffectOnQueues(s, w);
    WorkWroteThis(s, w);
    assert TakerFits(s, s.ws[w]);
    assert WorkerHoldsRequests(s.ws[w].pc) <==> s.requestsMutex == ByWorker(w);
    hide WorkStep;
  }

  lemma WorkKeepsQueue(s: State, w: WorkerId, places: map<Request, Place>)
    requires Inv(s) && Enabled(s, Work(w)) && WorkFinds(s, w, places) && TakersFit(s) && QueueFits(s, places)
    ensures QueueFits(WorkStep(s, w), WorkMoved(s.ws[w], w, places))
  {
    assert WellFormed(s) && TakerFits(s, s.ws[w]);
    hide WellFormed, WorkStep, Inv, Pending, TakersFit;
    PendingAfterWork(s, w);
    WorkEffectOnQueues(s, w);
    assert s.ws[w].pc.RaiseReady? ==> s.requests == [s.requests[0]] + s.requests[1..];
  }

  lemma WorkKeepsDone(s: State, w: WorkerId, places: map<Request, Place>)
    requires WellFormed(s) && Enabled(s, Work(w)) && WorkFinds(s, w, places) && DoneFits(s, places)
    ensures DoneFits(WorkStep(s, w), WorkMoved(s.ws[w], w, places))
  {
  }

  lemma WorkKeepsHeld(s: State, w: WorkerId, places: map<Request, Place>)
    requires WellFormed(s) && Enabled(s, Work(w)) && WorkFinds(s, w, places) && HeldFits(s, places)
    ensures HeldFits(WorkStep(s, w), WorkMoved(s.ws[w], w, places))
  {
    WorkEffect(s, w);
    hide WorkStep;
  }

  lemma WorkKeepsFits(s: State, w: WorkerId, places: map<Request, Place>)
    requires Fits(s, places) && Enabled(s, Work(w))
    ensures Fits(WorkStep(s, w), Moved(s, Work(w), places))
  {
    WorkFindsThis(s, w, places);
    hide WorkStep, Inv, WorkWrote, WorkFinds, HeldFits, QueueFits, TakersFit, TargetsFit, ReadyFits, ProcessingFits,
         PlacesReal, DoneFits;
    NextKeepsInv(s, Work(w));
    WorkWroteThis(s, w);
    var t := WorkStep(s, w);
    WorkKeepsReady(s, t, w, places);
    WorkKeepsProcessing(s, t, w, places);
    WorkKeepsReal(s, t, w, places);
    WorkKeepsTargets(s, w, places);
    WorkKeepsTakers(s, w);
    WorkKeepsQueue(s, w, places);
    WorkKeepsDone(s, w, places);
    WorkKeepsHeld(s, w, places);
  }

  // ---------------------------------------------------------------- runs

  /** The same queues, and workers that differ in `running` at most. */
  ghost predicate SameRequests(s: State, t: State) {
    && t.requests == s.requests && t.processed == s.processed && t.finished == s.finished
    && t.requestsMutex == s.requestsMutex
    && |t.ws| == |s.ws|
    && forall w :: 0 <= w < |s.ws| ==> t.ws[w].(running := s.ws[w].running) == s.ws[w]
  }

  lemma OthersKeepRequests(s: State, a: Action)
    requires WellFormed(s) && Enabled(s, a) && !a.Call? && !a.Work?
    ensures var t := Next(s, a);
            SameRequests(s, t) && t.calls == if a.Submit? then s.calls[a.r := LockWorkers] else s.calls
  {
  }

  lemma SameRequestsFit(s: State, t: State, places: map<Request, Place>)
    requires SameRequests(s, t) && QueueFits(s, places) && TakersFit(s)
    requires ReadyFits(s, places) && ProcessingFits(s, places) && PlacesReal(s, places) && DoneFits(s, places)
    ensures QueueFits(t, places) && TakersFit(t)
    ensures ReadyFits(t, places) && ProcessingFits(t, places) && PlacesReal(t, places) && DoneFits(t, places)
  {
  }

  lemma SubmitKeepsFits(s: State, r: Request, places: map<Request, Place>)
    requires Fits(s, places) && r !in s.calls
    ensures Fits(Next(s, Submit(r)), places[r := Held])
  {
    assert WellFormed(s) && r !in places;
    hide Inv, HeldFits, TargetsFit, QueueFits, TakersFit, ReadyFits, ProcessingFits, PlacesReal, DoneFits;
    var t := Next(s, Submit(r));
    NextKeepsInv(s, Submit(r));
    OthersKeepRequests(s, Submit(r));
    SubmitHolds(s, t, r, places);
    SameRequestsFit(s, t, places);
    NewRequestFits(t, r, places);
  }

  lemma SubmitHolds(s: State, t: State, r: Request, places: map<Request, Place>)
    requires r !in s.calls && HeldFits(s, places) && TargetsFit(s)
    requires SameRequests(s, t) && t.calls == s.calls[r := LockWorkers]
    ensures HeldFits(t, places[r := Held]) && TargetsFit(t)
  {
  }

  /** A request that is nowhere else may be held. */
  lemma NewRequestFits(t: State, r: Request, places: map<Request, Place>)
    requires r !in places && QueueFits(t, places)
    requires ReadyFits(t, places) && ProcessingFits(t, places) && PlacesReal(t, places) && DoneFits(t, places)
    ensures var places' := places[r := Held];
            && QueueFits(t, places') && ReadyFits(t, places') && ProcessingFits(t, places')
            && PlacesReal(t, places') && DoneFits(t, places')
  {
  }

  lemma StopKeepsFits(s: State, a: Action, places: map<Request, Place>)
    requires Fits(s, places) && Enabled(s, a) && (a.CallStop? || a.StopStep?)
    ensures Fits(Next(s, a), places)
  {
    NextKeepsInv(s, a);
    OthersKeepRequests(s, a);
    SameRequestsFit(s, Next(s, a), places);
    hide Inv, Next, QueueFits, TakersFit, ReadyFits, ProcessingFits, PlacesReal, DoneFits;
  }

  lemma {:induction false} RunFits(s: State, run: seq<Action>)
    requires Init(s) && WellFormed(s) && Feasible(s, run)
    ensures Fits(After(s, run), Places(s, run))
  {
    if run == [] {
    } else {
      var front, a := run[..|run| - 1], run[|run| - 1];
      RunFits(s, front);
      var t, places := After(s, front), Places(s, front);
      match a
      case Call(r) => CallKeepsFits(t, r, places);
      case Work(w) => WorkKeepsFits(t, w, places);
      case Submit(r) => SubmitKeepsFits(t, r, places);
      case _ => StopKeepsFits(t, a, places);
    }
  }

  /** Exactly-once conservation, for every interleaving: a submitted request is in exactly one place, a request not
      submitted is in none, and neither the queue nor the lists of requests processed and finished hold one twice. So
      no request is lost, duplicated, processed twice or finished twice. */
  lemma ExactlyOnce(s: State, run: seq<Action>, r: Request)
    requires Init(s) && WellFormed(s) && Feasible(s, run)
    ensures var t := After(s, run);
            && (r in t.calls ==> exists p :: At(t, r, p) && forall q :: At(t, r, q) ==> q == p)
            && (r !in t.calls ==> forall q :: !At(t, r, q))
            && NoDuplicates(t.requests) && NoDuplicates(t.processed) && NoDuplicates(t.finished)
            && (r in t.processed <==> r in t.finished || exists w :: At(t, r, InFinish(w)))
  {
    RunFits(s, run);
    var t, places := After(s, run), Places(s, run);
    forall q ensures At(t, r, q) <==> r in places && places[r] == q {
      OnePlace(t, places, r, q);
    }
    if r in t.calls {
      assert At(t, r, places[r]);
    }
  }
}
