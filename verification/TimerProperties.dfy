/** What every run of the timer keeps: when a callback can be early, and when `stop` and `finish` take effect. */
module TimerProperties {
  import opened ChronoTriggers

  // ---------------------------------------------------------------- which callbacks are on time

  /** A callback that follows a full interval since its interval began and since the last restart that its check could
      see, and no more than the thread's latency after the interval's end. */
  predicate OnTime(c: Config, f: Fire) {
    && f.intervalStart + c.interval <= f.time <= f.intervalStart + c.interval + c.latency
    && f.lastRestart + c.interval <= f.time
  }

  /** The two stores of the call that ended the wait fell on different sides of a clearing, or of the check. For
      `restart`: the first one before 59, the second one after 58. For `stop`: the first one after 58, and the second one
      before 60, or not before the test at 64. */
  predicate Straddles(f: Fire) {
    Astride(f.ended, f.clears)
  }

  predicate Astride(ended: Ending, clears: Clears) {
    match ended
    case TimeUp => false
    case ByRestart(restarting, signaled) => restarting <= clears.restarting && clears.signaled < signaled
    case ByStop(signaled, stopping) =>
      clears.signaled < signaled && (stopping.NotYet? || stopping.step <= clears.stopping)
  }

  /** From the start of an interval to the first test of a flag. */
  predicate InWait(pc: Pc) {
    pc.TestTime? || pc.Waiting? || pc.TestSignaled? || pc.EndWait?
  }

  ghost predicate Timing(c: Config, s: Timer) {
    && (s.pc.Exited? || s.now <= s.due)
    && s.endTime == s.startTime + c.interval && s.startTime <= s.now
    && s.log.lastRestart <= s.now
    && s.due <= s.endTime + c.latency
    && (if InWait(s.pc) then s.due == s.endTime + c.latency else s.due <= s.now + c.latency || s.pc.Exited?)
    && ((s.pc.TestRestarting? || s.pc.TestStopping? || s.pc.CallBack?) && s.log.ended.TimeUp? ==> s.now >= s.endTime)
    && ((InWait(s.pc) || s.pc.TestRestarting?) && !s.restarting ==> s.log.lastRestart <= s.startTime)
    && (s.pc.TestStopping? || s.pc.CallBack? ==> s.log.seenRestart <= s.startTime)
  }

  /** The call behind a signal that the last clearing has not taken back. */
  ghost predicate CallFits(log: Log, e: Ending) {
    match e
    case TimeUp => false
    case ByRestart(restarting, signaled) => restarting <= log.lastRestarting && log.clears.signaled < signaled
    case ByStop(signaled, stopping) =>
      log.clears.signaled < signaled && stopping.NotYet? && (signaled in log.stops || signaled in log.stoppingAt)
  }

  /** A flag is up when its last store came after its last clearing. */
  ghost predicate Flags(s: Timer) {
    var log := s.log;
    && log.lastRestarting < log.clock && log.lastStopping < log.clock
    && log.clears.signaled < log.clock && log.clears.restarting < log.clock && log.clears.stopping < log.clock
    && (s.restarting <==> log.clears.restarting < log.lastRestarting)
    && (s.stopping <==> log.clears.stopping < log.lastStopping)
    && log.own <= log.lastRestarting && (forall n :: n in log.restarts ==> n <= log.lastRestarting)
    && (forall n :: n in log.stoppingAt ==> log.stoppingAt[n] <= log.lastStopping)
  }

  ghost predicate Signals(s: Timer) {
    var log := s.log;
    && (s.signaled ==> CallFits(log, log.signal))
    && (s.pc.EndWait? ==> s.signaled)
    && (s.pc.TestRestarting? || s.pc.TestStopping? ==> log.ended.TimeUp? || CallFits(log, log.ended))
    && (s.pc.TestStopping? && log.ended.ByRestart? ==> log.ended.restarting <= log.clears.restarting)
    && (s.pc.CallBack? ==> log.ended.TimeUp? || Astride(log.ended, log.clears))
  }

  ghost predicate FiresFit(c: Config, s: Timer) {
    forall f :: f in s.log.fires ==>
      && (if f.ended.TimeUp? then OnTime(c, f) else Straddles(f))
      && f.time <= f.intervalStart + c.interval + c.latency
  }

  ghost predicate Sound(c: Config, s: Timer) {
    Timing(c, s) && Flags(s) && Signals(s) && FiresFit(c, s)
  }

  lemma TimingKept(c: Config, s: Timer, e: Event)
    requires c.Valid() && Timing(c, s) && Signals(s) && Possible(c, s, e)
    ensures Timing(c, Step(c, s, e))
  {
    if e.Work? {
      TimingKeptByThread(c, s, e);
    } else {
      TimingKeptByOthers(c, s, e);
    }
  }

  lemma TimingKeptByThread(c: Config, s: Timer, e: Event)
    requires c.Valid() && Timing(c, s) && Signals(s) && Possible(c, s, e) && e.Work?
    ensures Timing(c, Step(c, s, e))
  {
    hide Other;
  }

  lemma TimingKeptByOthers(c: Config, s: Timer, e: Event)
    requires Timing(c, s) && Possible(c, s, e) && !e.Work?
    ensures Timing(c, Step(c, s, e))
  {
    hide Thread;
  }

  lemma FlagsKept(c: Config, s: Timer, e: Event)
    requires Flags(s)
    ensures Flags(Step(c, s, e))
  {
    if e.Work? {
      FlagsKeptByThread(c, s, e);
    } else {
      FlagsKeptByOthers(c, s, e);
    }
  }

  lemma FlagsKeptByThread(c: Config, s: Timer, e: Event)
    requires Flags(s) && e.Work?
    ensures Flags(Step(c, s, e))
  {
    hide Other;
  }

  lemma FlagsKeptByOthers(c: Config, s: Timer, e: Event)
    requires Flags(s) && !e.Work?
    ensures Flags(Step(c, s, e))
  {
  }

  lemma SignalsKept(c: Config, s: Timer, e: Event)
    requires Flags(s) && Signals(s) && Possible(c, s, e)
    ensures Signals(Step(c, s, e))
  {
    if e.Work? {
      SignalsKeptByThread(c, s, e);
    } else {
      SignalsKeptByOthers(c, s, e);
    }
  }

  lemma SignalsKeptByThread(c: Config, s: Timer, e: Event)
    requires Flags(s) && Signals(s) && Possible(c, s, e) && e.Work?
    ensures Signals(Step(c, s, e))
  {
    hide Other;
  }

  lemma SignalsKeptByOthers(c: Config, s: Timer, e: Event)
    requires Flags(s) && Signals(s) && Possible(c, s, e) && !e.Work?
    ensures Signals(Step(c, s, e))
  {
    hide Thread;
    assert e.SignaledStore? ==> s.log.restarts[e.i] in s.log.restarts;
  }

  lemma FiresFitKept(c: Config, s: Timer, e: Event)
    requires Timing(c, s) && Signals(s) && FiresFit(c, s)
    ensures FiresFit(c, Step(c, s, e))
  {
  }

  lemma SoundKept(c: Config, s: Timer, e: Event)
    requires c.Valid() && Sound(c, s) && Possible(c, s, e)
    ensures Sound(c, Step(c, s, e))
  {
    hide Timing, Flags, Signals, FiresFit, Step, Possible;
    TimingKept(c, s, e);
    FlagsKept(c, s, e);
    SignalsKept(c, s, e);
    FiresFitKept(c, s, e);
  }

  lemma {:induction false} RunKeepsSound(c: Config, s: Timer, run: seq<Event>)
    requires c.Valid() && Sound(c, s) && Feasible(c, s, run)
    ensures Sound(c, After(c, s, run))
  {
    hide Sound, Step, Possible;
    if run == [] {
    } else {
      RunKeepsSound(c, s, run[..|run| - 1]);
      SoundKept(c, After(c, s, run[..|run| - 1]), run[|run| - 1]);
    }
  }

  lemma StartedSound(c: Config, start: real)
    requires c.Valid()
    ensures Sound(c, Started(c, start))
  {
  }

  /** In any run, with spurious wake-ups and lost notifications, a callback whose wait was ended by the time is on time,
      and one whose wait was ended by a signal owes it to a call that straddled a clearing or the check. None is late.
      So every early callback has such a call behind it. */
  lemma EveryCallbackOnTime(c: Config, start: real, run: seq<Event>)
    requires c.Valid() && Feasible(c, Started(c, start), run)
    ensures forall f :: f in After(c, Started(c, start), run).log.fires ==>
              && (if f.ended.TimeUp? then OnTime(c, f) else Straddles(f))
              && f.time <= f.intervalStart + c.interval + c.latency
  {
    StartedSound(c, start);
    RunKeepsSound(c, Started(c, start), run);
  }

  // ---------------------------------------------------------------- when no call overlaps a check

  predicate InCheck(pc: Pc) {
    pc.TestRestarting? || pc.SetRunning? || pc.ClearSignaled? || pc.ClearRestarting? || pc.ClearStopping?
    || pc.TestStopping?
  }

  /** A call is between its two stores while the thread tests or clears the flags. */
  predicate Overlap(s: Timer) {
    InCheck(s.pc) && (s.log.restarts != [] || s.log.stops != [])
  }

  predicate NoOverlap(c: Config, s: Timer, run: seq<Event>) {
    !Overlap(After(c, s, run)) && (run == [] || NoOverlap(c, s, run[..|run| - 1]))
  }

  /** The flag of the call behind a signal is up, or will be. */
  ghost predicate Stands(log: Log, e: Ending) {
    match e
    case TimeUp => true
    case ByRestart(restarting, _) => log.clears.restarting < restarting
    case ByStop(signaled, _) =>
      signaled in log.stops || (signaled in log.stoppingAt && log.clears.stopping < log.stoppingAt[signaled])
  }

  ghost predicate Clean(s: Timer) {
    CleanSignals(s) && CleanCheck(s)
  }

  ghost predicate CleanSignals(s: Timer) {
    var log := s.log;
    && (forall n :: n in log.restarts ==> log.clears.restarting < n)
    && (s.signaled && !s.pc.SetRunning? && !s.pc.ClearSignaled? ==> Stands(log, log.signal))
    && (s.pc.ClearRestarting? || s.pc.ClearStopping? ==> !s.signaled)
    && (s.pc.OwnSignaled? ==> log.clears.restarting < log.own)
  }

  ghost predicate CleanCheck(s: Timer) {
    var log := s.log;
    && (s.pc.TestRestarting? ==> Stands(log, log.ended))
    && (s.pc.TestStopping? ==> log.ended.TimeUp? || (log.ended.ByStop? && Stands(log, log.ended)))
    && (s.pc.CallBack? ==> log.ended.TimeUp?)
    && (forall f :: f in log.fires ==> f.ended.TimeUp?)
  }

  lemma CleanKept(c: Config, s: Timer, e: Event)
    requires Flags(s) && Signals(s) && Clean(s) && Possible(c, s, e) && !Overlap(s) && !Overlap(Step(c, s, e))
    ensures Clean(Step(c, s, e))
  {
    if e.Work? {
      CleanKeptByThread(c, s, e);
    } else {
      CleanKeptByOthers(c, s, e);
    }
  }

  lemma CleanKeptByThread(c: Config, s: Timer, e: Event)
    requires Flags(s) && Signals(s) && Clean(s) && Possible(c, s, e) && !Overlap(s) && !Overlap(Step(c, s, e)) && e.Work?
    ensures Clean(Step(c, s, e))
  {
    CleanSignalsKept(c, s, e);
    CleanCheckKept(c, s, e);
  }

  lemma CleanSignalsKept(c: Config, s: Timer, e: Event)
    requires Flags(s) && Clean(s) && !Overlap(s) && e.Work?
    ensures CleanSignals(Step(c, s, e))
  {
  }

  lemma CleanCheckKept(c: Config, s: Timer, e: Event)
    requires Flags(s) && Signals(s) && Clean(s) && !Overlap(s) && e.Work?
    ensures CleanCheck(Step(c, s, e))
  {
  }

  lemma CleanKeptByOthers(c: Config, s: Timer, e: Event)
    requires Flags(s) && Signals(s) && Clean(s) && Possible(c, s, e) && !Overlap(s) && !Overlap(Step(c, s, e)) && !e.Work?
    ensures Clean(Step(c, s, e))
  {
    assert e.SignaledStore? ==> s.log.restarts[e.i] in s.log.restarts;
    assert e.RestartingStore? ==> Step(c, s, e).log.restarts != [];
    assert e.StopSignaled? ==> Step(c, s, e).log.stops != [];
  }

  lemma {:induction false} RunKeepsClean(c: Config, s: Timer, run: seq<Event>)
    requires c.Valid() && Sound(c, s) && Clean(s) && Feasible(c, s, run) && NoOverlap(c, s, run)
    ensures Clean(After(c, s, run))
  {
    hide Step, Possible, Clean, Overlap;
    if run == [] {
    } else {
      var front := run[..|run| - 1];
      assert !Overlap(After(c, s, front));
      RunKeepsClean(c, s, front);
      RunKeepsSound(c, s, front);
      CleanKept(c, After(c, s, front), run[|run| - 1]);
    }
  }

  /** No early callback at all in a run in which no call overlaps a check. */
  lemma OnTimeUnlessOverlap(c: Config, start: real, run: seq<Event>)
    requires c.Valid() && Feasible(c, Started(c, start), run) && NoOverlap(c, Started(c, start), run)
    ensures forall f :: f in After(c, Started(c, start), run).log.fires ==> OnTime(c, f)
  {
    StartedSound(c, start);
    assert Clean(Started(c, start));
    hide Started, NoOverlap, Sound;
    RunKeepsClean(c, Started(c, start), run);
    EveryCallbackOnTime(c, start, run);
  }

  // ---------------------------------------------------------------- stop

  /** Nobody else restarts, stops or finishes the timer; a restart begun before may still be completed. */
  predicate Quiet(run: seq<Event>) {
    forall e :: e in run ==> e.Tick? || e.Work? || e.SignaledStore?
  }

  predicate Clearing(pc: Pc) {
    pc.SetRunning? || pc.ClearSignaled? || pc.ClearRestarting? || pc.ClearStopping?
  }

  /** The next test at 55 will find `restarting` up, or the callback is about to raise it. */
  predicate RestartPending(c: Config, s: Timer) {
    s.restarting || s.pc.OwnRestarting? || (s.pc.CallBack? && c.restartsItself)
  }

  /** A store of `stopping` at this moment is cleared before anyone looks at it: the thread is about to clear the flags,
      or a pending restart will make it do so. A thread that has passed its test of `restarting` sees it. */
  predicate StopLost(c: Config, s: Timer) {
    Clearing(s.pc) || (!s.pc.TestStopping? && RestartPending(c, s))
  }

  /** From the start of an interval to the test at 55. */
  predicate BeforeTest(pc: Pc) {
    pc.StartInterval? || InWait(pc) || pc.TestRestarting?
  }

  predicate AfterCallback(pc: Pc) {
    pc.OwnRestarting? || pc.OwnSignaled? || pc.TestRunning?
  }

  /** A store of `running` as false at this moment is taken back at 57 before the test at 75. */
  predicate FinishLost(s: Timer) {
    s.pc.SetRunning? || ((s.pc.ClearStopping? || BeforeTest(s.pc)) && s.restarting)
  }

  /** A thread that does not exit by itself: neither the test at 64 nor those at 72 and 75 will let it out. */
  predicate GoesOn(c: Config, s: Timer) {
    !s.pc.Exited? && !c.single && (s.running || FinishLost(s)) && (s.stopping ==> StopLost(c, s))
  }

  lemma GoesOnKept(c: Config, s: Timer, e: Event)
    requires GoesOn(c, s) && !e.StoppingStore? && !e.Finish?
    ensures GoesOn(c, Step(c, s, e))
  {
  }

  lemma {:induction false} GoesOnForever(c: Config, s: Timer, run: seq<Event>)
    requires GoesOn(c, s) && forall e :: e in run ==> !e.StoppingStore? && !e.Finish?
    ensures GoesOn(c, After(c, s, run))
  {
    hide GoesOn, Step;
    if run == [] {
    } else {
      var front, e := run[..|run| - 1], run[|run| - 1];
      assert e in run && forall x :: x in front ==> x in run;
      GoesOnForever(c, s, front);
      GoesOnKept(c, After(c, s, front), e);
    }
  }

  /** The end of the interval after which the thread must have looked at `stopping`. */
  function Deadline(c: Config, s: Timer): real {
    if BetweenIntervals(s.pc) then s.due + c.interval + c.latency else s.endTime + c.latency
  }

  predicate BetweenIntervals(pc: Pc) {
    pc.StartInterval? || pc.CallBack? || pc.OwnRestarting? || pc.OwnSignaled? || pc.TestRunning?
  }

  /** `t` is on the way out after a stop that took effect in `s`, or out. */
  ghost predicate Leaving(c: Config, s: Timer, t: Timer) {
    && (t.pc.Exited? || (t.stopping && !StopLost(c, t)))
    && (!t.pc.Exited? ==>
          if BetweenIntervals(t.pc) then BetweenIntervals(s.pc) && t.due <= s.due else t.due <= Deadline(c, s))
    && (if t.pc.CallBack? then s.pc.CallBack? && t.log.fires == s.log.fires
        else if s.pc.CallBack?
        then |t.log.fires| == |s.log.fires| + 1 && t.log.fires[..|s.log.fires|] == s.log.fires
        else t.log.fires == s.log.fires)
  }

  lemma LeavingKept(c: Config, s: Timer, t: Timer, e: Event)
    requires c.Valid() && Timing(c, t) && Leaving(c, s, t) && Possible(c, t, e)
    requires e.Tick? || e.Work? || e.SignaledStore?
    ensures Leaving(c, s, Step(c, t, e))
  {
  }

  lemma {:induction false} RunLeaves(c: Config, s: Timer, run: seq<Event>)
    requires c.Valid() && Sound(c, s) && Leaving(c, s, s) && Feasible(c, s, run) && Quiet(run)
    ensures Leaving(c, s, After(c, s, run)) && Sound(c, After(c, s, run))
  {
    hide Leaving, Step, Possible;
    if run == [] {
    } else {
      var front, e := run[..|run| - 1], run[|run| - 1];
      assert e in run && forall x :: x in front ==> x in run;
      RunLeaves(c, s, front);
      RunKeepsSound(c, s, run);
      LeavingKept(c, s, After(c, s, front), e);
    }
  }

  /** A thread that will call back once more and then exit at 72 or 75, unless it has just called back. */
  predicate Concludes(c: Config, s: Timer) {
    !s.pc.Exited? && (c.single || !(s.running || FinishLost(s))) && (s.stopping ==> StopLost(c, s))
  }

  /** The intervals that it can still begin: a pending restart puts the callback off by one. */
  function Rounds(s: Timer): real {
    if (s.pc.StartInterval? || s.pc.ClearStopping?) && s.restarting then 2.0
    else if Clearing(s.pc) || s.pc.StartInterval? || (BeforeTest(s.pc) && s.restarting) then 1.0
    else 0.0
  }

  ghost predicate Concluding(c: Config, s: Timer, t: Timer) {
    && (t.pc.Exited? || Concludes(c, t))
    && (!t.pc.Exited? ==>
          t.due + Rounds(t) * (c.interval + c.latency) <= s.due + Rounds(s) * (c.interval + c.latency))
    && (AfterCallback(s.pc) ==> AfterCallback(t.pc) || t.pc.Exited?)
    && |t.log.fires| == |s.log.fires|
                        + (if AfterCallback(s.pc) || !(AfterCallback(t.pc) || t.pc.Exited?) then 0 else 1)
  }

  lemma ConcludingKept(c: Config, s: Timer, t: Timer, e: Event)
    requires c.Valid() && Timing(c, t) && Concluding(c, s, t) && Possible(c, t, e)
    requires e.Tick? || e.Work? || e.SignaledStore?
    ensures Concluding(c, s, Step(c, t, e))
  {
  }

  lemma {:induction false} RunConcludes(c: Config, s: Timer, run: seq<Event>)
    requires c.Valid() && Sound(c, s) && Concludes(c, s) && Feasible(c, s, run) && Quiet(run)
    ensures Concluding(c, s, After(c, s, run)) && Sound(c, After(c, s, run))
  {
    assert Concluding(c, s, s);
    hide Concluding, Concludes, Step, Possible;
    if run == [] {
    } else {
      var front, e := run[..|run| - 1], run[|run| - 1];
      assert e in run && forall x :: x in front ==> x in run;
      RunConcludes(c, s, front);
      RunKeepsSound(c, s, run);
      ConcludingKept(c, s, After(c, s, front), e);
    }
  }

  /** Of a timer that is left alone from `s` on, with `t` a state that follows: a stop takes effect, and the thread is out
      by the deadline, with no callback but one already begun. */
  ghost predicate Stops(c: Config, s: Timer, t: Timer) {
    && (t.pc.Exited? || (t.now <= Deadline(c, s) && !GoesOn(c, t)))
    && (t.log.fires == s.log.fires
        || (s.pc.CallBack? && |t.log.fires| == |s.log.fires| + 1 && t.log.fires[..|s.log.fires|] == s.log.fires))
  }

  /** Exactly one more callback, unless it has just been made, and out with the interval that it ends. */
  ghost predicate CallsOnce(c: Config, s: Timer, t: Timer) {
    && (t.pc.Exited? ==> |t.log.fires| == |s.log.fires| + if AfterCallback(s.pc) then 0 else 1)
    && (!t.pc.Exited? ==> t.now <= s.due + Rounds(s) * (c.interval + c.latency) && !GoesOn(c, t))
  }

  /** So a timer left alone has one of three fates. */
  lemma FateOf(c: Config, s: Timer, run: seq<Event>)
    requires c.Valid() && Sound(c, s) && !s.pc.Exited? && Feasible(c, s, run) && Quiet(run)
    ensures var t := After(c, s, run);
            if s.stopping && !StopLost(c, s) then Stops(c, s, t)
            else if !c.single && (s.running || FinishLost(s)) then GoesOn(c, t)
            else CallsOnce(c, s, t)
  {
    hide After, Feasible, Flags, Signals, FiresFit;
    if s.stopping && !StopLost(c, s) {
      RunLeaves(c, s, run);
    } else if !c.single && (s.running || FinishLost(s)) {
      GoesOnForever(c, s, run);
    } else {
      RunConcludes(c, s, run);
      RoundsNotNegative(After(c, s, run));
    }
  }

  lemma RoundsNotNegative(t: Timer)
    ensures Rounds(t) >= 0.0
  {
  }

  /** A store of `running` or `stopping` moves no bound. */
  lemma SameBounds(c: Config, s: Timer, s': Timer, t: Timer)
    requires s' == s.(running := s'.running, stopping := s'.stopping, log := s'.log) && s'.log.fires == s.log.fires
    ensures (Stops(c, s, t) <==> Stops(c, s', t)) && (CallsOnce(c, s, t) <==> CallsOnce(c, s', t))
  {
  }

  /** What becomes of a `stop` whose store of `stopping` is made in `s`, when nobody interferes any more. Unless it is
      lost, the thread exits by the deadline. If it is, the caller's join never ends, but for a timer that was about to
      end by itself, being single-shot or finished: that one calls back once more and exits. */
  lemma StopExact(c: Config, s: Timer, i: nat, run: seq<Event>)
    requires c.Valid() && Sound(c, s) && !s.pc.Exited?
    requires i < |s.log.stops| && Feasible(c, Step(c, s, StoppingStore(i)), run) && Quiet(run)
    ensures var t := After(c, Step(c, s, StoppingStore(i)), run);
            if !StopLost(c, s) then Stops(c, s, t)
            else if !c.single && (s.running || FinishLost(s)) then GoesOn(c, t)
            else CallsOnce(c, s, t)
  {
    var s' := Step(c, s, StoppingStore(i));
    assert s' == s.(stopping := true, log := s'.log) && s'.log.fires == s.log.fires;
    SoundKept(c, s, StoppingStore(i));
    hide Step, Sound, Stops, CallsOnce, After, Feasible, Quiet;
    FateOf(c, s', run);
    SameBounds(c, s, s', After(c, s', run));
  }

  /** While the thread waits, that is: lost exactly when a restart is pending. */
  lemma StopInTheWait(c: Config, s: Timer)
    requires InWait(s.pc)
    ensures StopLost(c, s) <==> s.restarting
  {
  }

  // ---------------------------------------------------------------- finish

  /** What becomes of a `finish` made in `s`, when nobody interferes any more. A stop that takes effect comes first. A
      finish that is lost leaves a thread that does not exit by itself, unless it is single-shot; otherwise the thread
      calls back once more and exits. */
  lemma FinishExact(c: Config, s: Timer, run: seq<Event>)
    requires c.Valid() && Sound(c, s) && !s.pc.Exited?
    requires Feasible(c, Step(c, s, Finish), run) && Quiet(run)
    ensures var t := After(c, Step(c, s, Finish), run);
            if s.stopping && !StopLost(c, s) then Stops(c, s, t)
            else if !c.single && FinishLost(s) then GoesOn(c, t)
            else CallsOnce(c, s, t)
  {
    var s' := Step(c, s, Finish);
    assert s' == s.(running := false, log := s'.log) && s'.log.fires == s.log.fires;
    SoundKept(c, s, Finish);
    hide Step, Sound, Stops, CallsOnce, After, Feasible, Quiet;
    FateOf(c, s', run);
    SameBounds(c, s, s', After(c, s', run));
  }

  // ---------------------------------------------------------------- the callback's own restart

  /** The thread has not come to its next test of `restarting`. */
  predicate NotChecked(c: Config, s: Timer, run: seq<Event>) {
    run == [] ||
    var front := run[..|run| - 1];
    NotChecked(c, s, front) && !(run[|run| - 1].Work? && After(c, s, front).pc.TestRestarting?)
  }

  lemma {:induction false} OwnRestartStands(c: Config, s: Timer, wait: seq<Event>)
    requires c.restartsItself && !c.single && s.pc.CallBack? && s.running && NotChecked(c, s, wait)
    requires forall e :: e in wait ==> !e.Finish?
    ensures var t := After(c, s, wait);
            t.running && RestartPending(c, t) && (t.pc.CallBack? || AfterCallback(t.pc) || BeforeTest(t.pc))
  {
    if wait == [] {
    } else {
      var front, e := wait[..|wait| - 1], wait[|wait| - 1];
      assert e in wait && forall x :: x in front ==> x in wait;
      OwnRestartStands(c, s, front);
    }
  }

  /** A callback that restarts its own timer leaves a restart pending until the next check, so that a `stop` at any
      moment before that is lost. */
  lemma StopAfterOwnRestartIsLost(c: Config, s: Timer, wait: seq<Event>, i: nat, later: seq<Event>)
    requires c.Valid() && !c.single && c.restartsItself && Sound(c, s) && s.pc.CallBack? && s.running
    requires Feasible(c, s, wait) && NotChecked(c, s, wait) && forall e :: e in wait ==> !e.Finish?
    requires i < |After(c, s, wait).log.stops|
    requires Feasible(c, Step(c, After(c, s, wait), StoppingStore(i)), later) && Quiet(later)
    ensures !After(c, Step(c, After(c, s, wait), StoppingStore(i)), later).pc.Exited?
  {
    OwnRestartStands(c, s, wait);
    RunKeepsSound(c, s, wait);
    StopExact(c, After(c, s, wait), i, later);
  }

  // ---------------------------------------------------------------- the exceptions happen

  /** A run goes on by a step of the thread. */
  lemma Own(c: Config, s: Timer, run: seq<Event>, t: Timer) returns (more: seq<Event>, u: Timer)
    requires Feasible(c, s, run) && After(c, s, run) == t && !t.pc.Exited?
    ensures more == run + [Work(false)] && Feasible(c, s, more) && After(c, s, more) == u
    ensures Stores(c, t, u, false)
    ensures t.pc.CallBack? ==> |u.log.fires| == |t.log.fires| + 1 && u.log.fires[|t.log.fires|].time == t.now
                               && u.log.fires[|t.log.fires|].intervalStart == t.startTime
    ensures !t.pc.CallBack? ==> u.log.fires == t.log.fires
    ensures u.log.restarts == t.log.restarts && u.log.stops == t.log.stops
  {
    more, u := run + [Work(false)], Step(c, t, Work(false));
    Extend(c, s, run, Work(false));
    ThreadStores(c, t, false);
  }

  /** And by both stores of a `restart` or a `stop`. */
  lemma BothStores(c: Config, s: Timer, run: seq<Event>, t: Timer, stop: bool) returns (more: seq<Event>, u: Timer)
    requires Feasible(c, s, run) && After(c, s, run) == t
    ensures Feasible(c, s, more) && After(c, s, more) == u && u.log.stops == t.log.stops && u.log.fires == t.log.fires
    ensures u == t.(signaled := true, restarting := t.restarting || !stop, stopping := t.stopping || stop, log := u.log)
  {
    var first, second := RestartingStore, SignaledStore(|t.log.restarts|);
    if stop {
      first, second := StopSignaled, StoppingStore(|t.log.stops|);
    }
    Extend(c, s, run, first);
    Extend(c, s, run + [first], second);
    more := run + [first] + [second];
    u := After(c, s, more);
  }

  /** The thread by itself ends a wait that has its signal. */
  lemma WakesUp(c: Config, s: Timer, run: seq<Event>, t: Timer) returns (more: seq<Event>, u: Timer)
    requires Feasible(c, s, run) && After(c, s, run) == t && t.pc.Waiting? && t.signaled
    ensures Feasible(c, s, more) && After(c, s, more) == u
    ensures u == t.(pc := TestRestarting, signaled := false, due := u.due, log := u.log)
    ensures u.log.fires == t.log.fires && u.log.stops == t.log.stops
    ensures (forall e :: e in run ==> e == Work(false)) ==> forall e :: e in more ==> e == Work(false)
  {
    hide After, Feasible, ThreadLog, Due;
    more, u := Own(c, s, run, t);
    more, u := Own(c, s, more, u);
    more, u := Own(c, s, more, u);
  }

  /** And from the last clearing to the next wait. */
  lemma WaitsAgain(c: Config, s: Timer, run: seq<Event>, t: Timer) returns (more: seq<Event>, u: Timer)
    requires c.Valid() && Feasible(c, s, run) && After(c, s, run) == t && t.pc.ClearStopping?
    ensures Feasible(c, s, more) && After(c, s, more) == u
    ensures u == t.(pc := Waiting, stopping := false, startTime := t.now, endTime := t.now + c.interval, due := u.due,
                    log := u.log)
    ensures u.log.fires == t.log.fires && u.log.stops == t.log.stops
    ensures (forall e :: e in run ==> e == Work(false)) ==> forall e :: e in more ==> e == Work(false)
  {
    hide After, Feasible, ThreadLog, Due;
    more, u := Own(c, s, run, t);
    more, u := Own(c, s, more, u);
    more, u := Own(c, s, more, u);
  }

  /** A signal without its flag, in a wait that is not over: the thread by itself calls back, at once and early. */
  lemma OrphanSignalFires(c: Config, s: Timer, run: seq<Event>, t: Timer) returns (more: seq<Event>, u: Timer)
    requires Feasible(c, s, run) && After(c, s, run) == t
    requires t.pc.Waiting? && t.signaled && !t.restarting && !t.stopping && t.now < t.endTime
    ensures Feasible(c, s, more) && After(c, s, more) == u && FiredEarly(t, u) && u.log.stops == t.log.stops
    ensures u.endTime == t.endTime && u.running == t.running && !u.stopping && !u.pc.Exited?
  {
    hide After, Feasible, ThreadLog, Due;
    more, u := WakesUp(c, s, run, t);
    more, u := Own(c, s, more, u);
    more, u := Own(c, s, more, u);
    more, u := Own(c, s, more, u);
  }

  /** One callback more, before the end of the interval. */
  predicate FiredEarly(s: Timer, t: Timer) {
    |t.log.fires| == |s.log.fires| + 1 && t.log.fires[|s.log.fires|].time < s.endTime
  }

  /** A `restart` between the stores at 58 and 59: the next interval ends in an early callback. */
  lemma RestartWhileClearing(c: Config, s: Timer) returns (run: seq<Event>, t: Timer)
    requires c.Valid() && s.pc.ClearRestarting?
    ensures Feasible(c, s, run) && After(c, s, run) == t
    ensures |t.log.fires| == |s.log.fires| + 1 && t.log.fires[|s.log.fires|].time < t.endTime
  {
    assert After(c, s, []) == s;
    hide After, Feasible, ThreadLog, Due, Step, Possible;
    run, t := BothStores(c, s, [], s, false);
    run, t := Own(c, s, run, t);
    run, t := WaitsAgain(c, s, run, t);
    run, t := OrphanSignalFires(c, s, run, t);
  }

  /** A `stop` between the stores at 59 and 60: it is lost, with no restart pending, and so early callbacks come. */
  lemma StopWhileClearing(c: Config, s: Timer) returns (run: seq<Event>, t: Timer)
    requires c.Valid() && s.pc.ClearStopping? && !s.restarting && s.running
    ensures StopLost(c, s)
    ensures Feasible(c, s, run) && After(c, s, run) == t && (!c.single ==> GoesOn(c, t)) && t.log.stops == s.log.stops
    ensures |t.log.fires| == |s.log.fires| + 1 && t.log.fires[|s.log.fires|].time < t.endTime
  {
    assert After(c, s, []) == s;
    hide After, Feasible, ThreadLog, Due, Step, Possible;
    run, t := BothStores(c, s, [], s, true);
    run, t := WaitsAgain(c, s, run, t);
    run, t := OrphanSignalFires(c, s, run, t);
  }

  /** A `stop` whose store of `signaled` alone precedes the check: one more callback, and an early one. */
  lemma StopAcrossCheck(c: Config, s: Timer) returns (run: seq<Event>, t: Timer)
    requires s.pc.Waiting? && !s.restarting && !s.stopping && s.now < s.endTime
    ensures Feasible(c, s, run) && After(c, s, run) == t && FiredEarly(s, t)
    ensures |t.log.stops| == |s.log.stops| + 1
  {
    Extend(c, s, [], StopSignaled);
    run, t := [] + [StopSignaled], Step(c, s, StopSignaled);
    run, t := OrphanSignalFires(c, s, run, t);
  }

  /** A `restart` whose first store has been cleared and whose second one comes in the wait that follows: early too. */
  lemma RestartAcrossClearing(c: Config, s: Timer, i: nat) returns (run: seq<Event>, t: Timer)
    requires s.pc.Waiting? && i < |s.log.restarts| && !s.restarting && !s.stopping && s.now < s.endTime
    ensures Feasible(c, s, run) && After(c, s, run) == t && FiredEarly(s, t)
  {
    Extend(c, s, [], SignaledStore(i));
    run, t := [] + [SignaledStore(i)], Step(c, s, SignaledStore(i));
    run, t := OrphanSignalFires(c, s, run, t);
  }

  /** A `stop` in the wait, with no restart pending, whose notification arrives: the thread by itself exits at once. */
  lemma StopWakes(c: Config, s: Timer) returns (run: seq<Event>, t: Timer)
    requires s.pc.Waiting? && !s.restarting
    ensures Feasible(c, s, run) && After(c, s, run) == t && t.pc.Exited? && t.now == s.now && t.log.fires == s.log.fires
  {
    assert After(c, s, []) == s;
    hide After, Feasible, ThreadLog, Due, Step, Possible;
    run, t := BothStores(c, s, [], s, true);
    run, t := WakesUp(c, s, run, t);
    run, t := ExitsAtCheck(c, s, run, t);
  }

  lemma ExitsAtCheck(c: Config, s: Timer, run: seq<Event>, t: Timer) returns (more: seq<Event>, u: Timer)
    requires Feasible(c, s, run) && After(c, s, run) == t
    requires t.pc.TestRestarting? && !t.restarting && t.stopping
    ensures Feasible(c, s, more) && After(c, s, more) == u
    ensures u.pc.Exited? && u.now == t.now && u.log.fires == t.log.fires
  {
    hide After, Feasible, ThreadLog, Due;
    more, u := Own(c, s, run, t);
    more, u := Own(c, s, more, u);
  }

  // ---------------------------------------------------------------- signals arrive

  /** The thread does not come to its stores of `signaled` as false, at 51 and 58. */
  predicate SignalKept(c: Config, s: Timer, run: seq<Event>) {
    run == [] ||
    var front := run[..|run| - 1];
    var pc := After(c, s, front).pc;
    SignalKept(c, s, front) && !(run[|run| - 1].Work? && (pc.EndWait? || pc.ClearSignaled?))
  }

  /** A signal stands until then, whatever happens. */
  lemma {:induction false} SignalStands(c: Config, s: Timer, run: seq<Event>)
    requires s.signaled && SignalKept(c, s, run)
    ensures After(c, s, run).signaled
  {
    if run == [] {
    } else {
      SignalStands(c, s, run[..|run| - 1]);
    }
  }

  /** The callback's own restart leaves both flags up, whatever other threads do between its steps: the first one from
      its store to the next check, the second one from its store to the next clearing. */
  lemma OwnRestartSignals(c: Config, s: Timer, timeout: bool, run: seq<Event>)
    requires s.pc.OwnSignaled? && SignalKept(c, Step(c, s, Work(timeout)), run)
    ensures After(c, Step(c, s, Work(timeout)), run).signaled
  {
    SignalStands(c, Step(c, s, Work(timeout)), run);
  }

  /** Left alone, the callback with its restart takes three steps and no time. */
  lemma CallbackRestarts(c: Config, s: Timer) returns (run: seq<Event>, t: Timer)
    requires c.restartsItself && s.pc.CallBack?
    ensures Feasible(c, s, run) && run == [Work(false), Work(false), Work(false)] && After(c, s, run) == t
    ensures t == s.(pc := TestRunning, restarting := true, signaled := true, log := t.log)
    ensures |t.log.fires| == |s.log.fires| + 1
  {
    assert After(c, s, []) == s;
    hide After, Feasible, ThreadLog;
    run, t := Own(c, s, [], s);
    assert t == s.(pc := OwnRestarting, log := t.log);
    run, t := OwnStores(c, s, run, t);
  }

  lemma OwnStores(c: Config, s: Timer, run: seq<Event>, t: Timer) returns (more: seq<Event>, u: Timer)
    requires Feasible(c, s, run) && After(c, s, run) == t && t.pc.OwnRestarting?
    ensures more == run + [Work(false)] + [Work(false)] && Feasible(c, s, more) && After(c, s, more) == u
    ensures u == t.(pc := TestRunning, restarting := true, signaled := true, log := u.log) && u.log.fires == t.log.fires
  {
    hide After, Feasible, ThreadLog;
    more, u := Own(c, s, run, t);
    more, u := Own(c, s, more, u);
  }

  /** A restart whose signal is up ends a wait at the first wake-up: the thread by itself comes to the clearing at 57
      and to the start of a new interval, with no time passing and no callback. */
  lemma RestartWakes(c: Config, s: Timer) returns (run: seq<Event>, t: Timer)
    requires c.Valid() && s.pc.Waiting? && s.restarting && s.signaled
    ensures Feasible(c, s, run) && After(c, s, run) == t && forall e :: e in run ==> e == Work(false)
    ensures t.pc.Waiting? && t.now == t.startTime == s.now && t.endTime == s.now + c.interval
    ensures t.running && !t.restarting && !t.signaled && !t.stopping && t.log.fires == s.log.fires
  {
    assert After(c, s, []) == s;
    hide After, Feasible, ThreadLog, Due, Step, Possible;
    run, t := WakesUp(c, s, [], s);
    run, t := ClearsAll(c, s, run, t);
    run, t := WaitsAgain(c, s, run, t);
  }

  lemma ClearsAll(c: Config, s: Timer, run: seq<Event>, t: Timer) returns (more: seq<Event>, u: Timer)
    requires Feasible(c, s, run) && After(c, s, run) == t && t.pc.TestRestarting? && t.restarting
    requires forall e :: e in run ==> e == Work(false)
    ensures Feasible(c, s, more) && After(c, s, more) == u && forall e :: e in more ==> e == Work(false)
    ensures u == t.(pc := ClearStopping, running := true, signaled := false, restarting := false, due := u.due,
                    log := u.log)
    ensures u.log.fires == t.log.fires
  {
    hide After, Feasible, ThreadLog, Due;
    more, u := Own(c, s, run, t);
    more, u := Own(c, s, more, u);
    more, u := Own(c, s, more, u);
    more, u := Own(c, s, more, u);
  }

  /** Both together, for a periodic timer: left alone from a callback that restarts it on, the thread comes to the next
      wait with both flags up, and at its first wake-up there to the clearing and to a new interval: no time passes, and
      there is no callback but this one. */
  lemma OwnRestartWakes(c: Config, s: Timer) returns (run: seq<Event>, t: Timer)
    requires c.Valid() && c.restartsItself && !c.single && s.pc.CallBack? && s.running
    ensures Feasible(c, s, run) && After(c, s, run) == t && forall e :: e in run ==> e == Work(false)
    ensures t.pc.Waiting? && t.now == t.startTime == s.now && t.endTime == s.now + c.interval
    ensures t.running && !t.restarting && !t.signaled && !t.stopping && |t.log.fires| == |s.log.fires| + 1
  {
    hide After, Feasible, ThreadLog, Due, Step, Possible;
    run, t := CallbackRestarts(c, s);
    run, t := NextWait(c, s, run, t);
    run, t := WakesUp(c, s, run, t);
    run, t := ClearsAll(c, s, run, t);
    run, t := WaitsAgain(c, s, run, t);
  }

  lemma NextWait(c: Config, s: Timer, run: seq<Event>, t: Timer) returns (more: seq<Event>, u: Timer)
    requires c.Valid() && !c.single && Feasible(c, s, run) && After(c, s, run) == t && t.pc.TestRunning? && t.running
    ensures Feasible(c, s, more) && After(c, s, more) == u
    ensures u == t.(pc := Waiting, startTime := t.now, endTime := t.now + c.interval, due := u.due, log := u.log)
    ensures u.log.fires == t.log.fires
    ensures (forall e :: e in run ==> e == Work(false)) ==> forall e :: e in more ==> e == Work(false)
  {
    hide After, Feasible, ThreadLog, Due;
    more, u := Own(c, s, run, t);
    more, u := Own(c, s, more, u);
    more, u := Own(c, s, more, u);
  }

  /** A wake-up without a signal ends the wait if the interval is over, and goes on with it otherwise. */
  lemma SpuriousWake(c: Config, s: Timer) returns (run: seq<Event>, t: Timer)
    requires s.pc.Waiting? && !s.signaled
    ensures Feasible(c, s, run) && After(c, s, run) == t && forall e :: e in run ==> e == Work(false)
    ensures t == s.(pc := if s.now < s.endTime then Waiting else TestRestarting, due := t.due, log := t.log)
    ensures |run| == 3
  {
    assert After(c, s, []) == s;
    hide After, Feasible, ThreadLog, Due;
    run, t := Own(c, s, [], s);
    run, t := Own(c, s, run, t);
    run, t := Own(c, s, run, t);
  }
}
