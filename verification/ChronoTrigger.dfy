/** The resettable timer of `chronotrigger.cpp`, over a logical clock. The flags are atomic and stored without a lock,
    so that each access of the timer's thread and each store of `restart`, `stop` and `finish` is a step of its own.
    Notifications may be lost and wake-ups may be spurious. */
module ChronoTriggers {

  /** `interval` and `single` are the arguments of `start`; `restartsItself` says that the callback calls `restart`;
      `latency` bounds how long the thread takes from the moment its wait can end to its next interval. */
  datatype Config = Config(interval: real, latency: real, single: bool, restartsItself: bool) {
    predicate Valid() {
      interval > 0.0 && latency >= 0.0
    }
  }

  /** What the timer's thread does next in `run`. */
  datatype Pc =
    | SetRunning       // 39, and 57
    | ClearSignaled    // 40, and 58
    | ClearRestarting  // 41, and 59
    | ClearStopping    // 42, and 60
    | StartInterval    // 45, 46
    | TestTime         // 47
    | Waiting          // 50, until notified, timed out or woken for no reason
    | TestSignaled     // 51, the test
    | EndWait          // 51, the store
    | TestRestarting   // 55
    | TestStopping     // 64
    | CallBack         // 69
    | OwnRestarting    // 82, called by the callback
    | OwnSignaled      // 83, called by the callback
    | TestRunning      // 72, 75
    | Exited

  /** The step of a store that may not have been made yet. */
  datatype Stored = NotYet | AtStep(step: nat)

  /** What ended a wait: the time, or the signal of a call, given by the steps of its two stores. `restart` stores
      `restarting` before `signaled`, and `stop` stores `signaled` before `stopping`. */
  datatype Ending = TimeUp | ByRestart(restarting: nat, signaled: nat) | ByStop(signaled: nat, stopping: Stored)

  /** The steps at which the thread last cleared the flags at 58 to 60, or 40 to 42. */
  datatype Clears = Clears(signaled: nat, restarting: nat, stopping: nat)

  /** A call of the callback, with the start of its interval and the last restart that its check could see, what ended
      its wait, and the last clearing before it. */
  datatype Fire = Fire(time: real, intervalStart: real, lastRestart: real, ended: Ending, clears: Clears)

  /** Steps are counted from 1. `restarts` and `stops` are the calls between their two stores, by the step of the
      first one, and `own` is the first store of the callback's own restart. */
  datatype Log = Log(
    clock: nat,
    restarts: seq<nat>,
    stops: seq<nat>,
    own: nat,
    lastRestarting: nat,
    lastStopping: nat,
    stoppingAt: map<nat, nat>,
    signal: Ending,
    ended: Ending,
    clears: Clears,
    lastRestart: real,
    seenRestart: real,
    fires: seq<Fire>)

  /** `due` is when the thread must have begun its next interval. */
  datatype Timer = Timer(
    now: real,
    pc: Pc,
    running: bool,
    restarting: bool,
    signaled: bool,
    stopping: bool,
    startTime: real,
    endTime: real,
    due: real,
    log: Log)

  /** What can happen next. `Work` is a step of the timer's thread; if it waits, a timeout or another wake-up. The
      stores are those of other threads: 82, 83, 98, 99 and 91. */
  datatype Event =
    | Tick(d: real) | Work(timeout: bool)
    | RestartingStore | SignaledStore(i: nat) | StopSignaled | StoppingStore(i: nat) | Finish

  /** The thread has just been started. Whatever the flags held is cleared before it is read. */
  function Started(c: Config, now: real): Timer {
    Timer(now, SetRunning, false, false, false, false, now, now + c.interval, now + c.latency,
          Log(1, [], [], 0, 0, 0, map[], TimeUp, TimeUp, Clears(0, 0, 0), now, now, []))
  }

  /** Time passes up to the moment the thread must have acted; a timeout is reported at the deadline at the
      earliest; a second store follows a first one. */
  predicate Possible(c: Config, s: Timer, e: Event) {
    match e
    case Tick(d) => d >= 0.0 && (s.pc != Exited ==> s.now + d <= s.due)
    case Work(timeout) => s.pc != Exited && (s.pc.Waiting? && timeout ==> s.now >= s.endTime)
    case SignaledStore(i) => i < |s.log.restarts|
    case StoppingStore(i) => i < |s.log.stops|
    case _ => true
  }

  function Without(q: seq<nat>, i: nat): (r: seq<nat>)
    requires i < |q|
    ensures forall n :: n in r ==> n in q
    ensures forall n :: n in q ==> n in r || n == q[i]
  {
    assert q == q[..i] + [q[i]] + q[i + 1..];
    q[..i] + q[i + 1..]
  }

  function Counted(s: Timer): Timer {
    s.(log := s.log.(clock := s.log.clock + 1))
  }

  /** A step of another thread, or of the clock. */
  function Other(s: Timer, e: Event): Timer {
    var n := s.log.clock;
    match e
    case Tick(d) => s.(now := s.now + d)
    case RestartingStore =>
      s.(restarting := true,
         log := s.log.(restarts := s.log.restarts + [n], lastRestarting := n, lastRestart := s.now))
    case SignaledStore(i) =>
      if i >= |s.log.restarts| then s
      else
        s.(signaled := true,
           log := s.log.(restarts := Without(s.log.restarts, i), signal := ByRestart(s.log.restarts[i], n)))
    case StopSignaled => s.(signaled := true, log := s.log.(stops := s.log.stops + [n], signal := ByStop(n, NotYet)))
    case StoppingStore(i) =>
      if i >= |s.log.stops| then s
      else
        s.(stopping := true,
           log := s.log.(stops := Without(s.log.stops, i), lastStopping := n,
                         stoppingAt := s.log.stoppingAt[s.log.stops[i] := n]))
    case Finish => s.(running := false)
    case Work(_) => s
  }

  /** What ended the wait, as known when the check is over. */
  function Resolved(log: Log): Ending {
    if log.ended.ByStop? && log.ended.signaled in log.stoppingAt
    then ByStop(log.ended.signaled, AtStep(log.stoppingAt[log.ended.signaled]))
    else log.ended
  }

  /** Where the thread goes. */
  function NextPc(c: Config, s: Timer, timeout: bool): Pc {
    match s.pc
    case SetRunning => ClearSignaled
    case ClearSignaled => ClearRestarting
    case ClearRestarting => ClearStopping
    case ClearStopping => StartInterval
    case StartInterval => TestTime
    case TestTime => if s.now < s.endTime then Waiting else TestRestarting
    case Waiting => if timeout then TestRestarting else TestSignaled
    case TestSignaled => if s.signaled then EndWait else TestTime
    case EndWait => TestRestarting
    case TestRestarting => if s.restarting then SetRunning else TestStopping
    case TestStopping => if s.stopping then Exited else CallBack
    case CallBack => if c.restartsItself then OwnRestarting else TestRunning
    case OwnRestarting => OwnSignaled
    case OwnSignaled => TestRunning
    case TestRunning => if c.single || !s.running then Exited else StartInterval
    case Exited => Exited
  }

  /** What the record keeps of the thread's step. */
  function ThreadLog(s: Timer, timeout: bool): Log {
    var log, n := s.log, s.log.clock;
    match s.pc
    case ClearSignaled => log.(clears := log.clears.(signaled := n))
    case ClearRestarting => log.(clears := log.clears.(restarting := n))
    case ClearStopping => log.(clears := log.clears.(stopping := n))
    case TestTime => log.(ended := TimeUp)
    case Waiting => log.(ended := TimeUp)
    case EndWait => log.(ended := log.signal)
    case TestRestarting => log.(seenRestart := log.lastRestart)
    case TestStopping => log.(ended := Resolved(log))
    case CallBack => log.(fires := log.fires + [Fire(s.now, s.startTime, log.seenRestart, log.ended, log.clears)])
    case OwnRestarting => log.(own := n, lastRestarting := n, lastRestart := s.now)
    case OwnSignaled => log.(signal := ByRestart(log.own, n))
    case _ => log
  }

  function Due(c: Config, s: Timer): real {
    if s.pc.StartInterval? then s.now + c.interval + c.latency
    else if s.pc.EndWait? then (if s.now < s.endTime then s.now else s.endTime) + c.latency
    else s.due
  }

  /** A step of the timer's thread. */
  function Thread(c: Config, s: Timer, timeout: bool): Timer {
    s.(pc := NextPc(c, s, timeout),
       running := s.running || s.pc.SetRunning?,
       restarting := (s.restarting && !s.pc.ClearRestarting?) || s.pc.OwnRestarting?,
       signaled := (s.signaled && !s.pc.ClearSignaled? && !s.pc.EndWait?) || s.pc.OwnSignaled?,
       stopping := s.stopping && !s.pc.ClearStopping?,
       startTime := if s.pc.StartInterval? then s.now else s.startTime,
       endTime := if s.pc.StartInterval? then s.now + c.interval else s.endTime,
       due := Due(c, s),
       log := ThreadLog(s, timeout))
  }

  /** `t` is the state after it, whatever the record. */
  predicate Stores(c: Config, s: Timer, t: Timer, timeout: bool) {
    t.(log := s.log) == Thread(c, s, timeout).(log := s.log)
  }

  function Step(c: Config, s: Timer, e: Event): Timer {
    Counted(if e.Work? then Thread(c, s, e.timeout) else Other(s, e))
  }

  lemma ThreadStores(c: Config, s: Timer, timeout: bool)
    ensures Stores(c, s, Step(c, s, Work(timeout)), timeout)
  {
  }

  function After(c: Config, s: Timer, run: seq<Event>): Timer {
    if run == [] then s else Step(c, After(c, s, run[..|run| - 1]), run[|run| - 1])
  }

  predicate Feasible(c: Config, s: Timer, run: seq<Event>) {
    run == [] ||
    (Feasible(c, s, run[..|run| - 1]) && Possible(c, After(c, s, run[..|run| - 1]), run[|run| - 1]))
  }

  lemma PrefixStep(c: Config, s: Timer, run: seq<Event>, i: nat)
    requires i < |run| && Feasible(c, s, run)
    ensures After(c, s, run[..i + 1]) == Step(c, After(c, s, run[..i]), run[i])
    ensures Possible(c, After(c, s, run[..i]), run[i])
  {
    assert run[..i + 1][..i] == run[..i];
    FeasiblePrefix(c, s, run, i + 1);
  }

  lemma {:induction false} FeasiblePrefix(c: Config, s: Timer, run: seq<Event>, i: nat)
    requires i <= |run| && Feasible(c, s, run)
    ensures Feasible(c, s, run[..i])
  {
    if i == |run| {
      assert run[..i] == run;
    } else {
      FeasiblePrefix(c, s, run[..|run| - 1], i);
      assert run[..|run| - 1][..i] == run[..i];
    }
  }

  /** A run goes on by a step. */
  lemma Extend(c: Config, s: Timer, run: seq<Event>, e: Event)
    ensures After(c, s, run + [e]) == Step(c, After(c, s, run), e)
    ensures Feasible(c, s, run + [e]) <==> Feasible(c, s, run) && Possible(c, After(c, s, run), e)
  {
    assert (run + [e])[..|run|] == run;
  }

  // ---------------------------------------------------------------- the class

  class ChronoTrigger {
    const config: Config
    var running: bool
    var restarting: bool
    var signaled: bool
    var stopping: bool
    var startTime: real
    var endTime: real
    var now: real

    constructor (config: Config)
      ensures this.config == config
    {
      this.config := config;
    }

    /** The flags and times of the object. */
    predicate Matches(s: Timer)
      reads this
    {
      && now == s.now && startTime == s.startTime && endTime == s.endTime
      && running == s.running && restarting == s.restarting && signaled == s.signaled && stopping == s.stopping
    }

    /** `restart`, if nothing comes between its stores. */
    method Restart()
      modifies this`restarting, this`signaled
      ensures forall s :: old(Matches(s)) ==>
                Matches(Step(config, Step(config, s, RestartingStore), SignaledStore(|s.log.restarts|)))
    {
      restarting := true;
      signaled := true;
    }

    /** `finish`. */
    method Finish()
      modifies this`running
      ensures forall s :: old(Matches(s)) ==> Matches(Step(config, s, Event.Finish))
    {
      running := false;
    }

    /** `stop`, up to the join, if nothing comes between its stores. */
    method Stop()
      modifies this`signaled, this`stopping
      ensures forall s :: old(Matches(s)) ==>
                Matches(Step(config, Step(config, s, StopSignaled), StoppingStore(|s.log.stops|)))
    {
      signaled := true;
      stopping := true;
    }

    /** A step of the clock or of another thread. */
    method Apply(e: Event, ghost s: Timer)
      requires !e.Work? && Possible(config, s, e) && Matches(s)
      modifies this
      ensures Matches(Step(config, s, e))
    {
      match e {
        case Tick(d) => now := now + d;
        case RestartingStore => restarting := true;
        case SignaledStore(_) => signaled := true;
        case StopSignaled => signaled := true;
        case StoppingStore(_) => stopping := true;
        case Finish => running := false;
      }
    }

    /** What the clock and the other threads do until the thread's next step. `s` is the state before, and `t` the
        one after that step. */
    method Others(ghost s0: Timer, events: seq<Event>, i: nat) returns (j: nat, ghost s: Timer, ghost t: Timer)
      requires i <= |events| && Feasible(config, s0, events)
      requires Matches(After(config, s0, events[..i]))
      modifies this
      ensures i <= j <= |events| && s == After(config, s0, events[..j]) && Matches(s)
      ensures s.pc == After(config, s0, events[..i]).pc
      ensures j < |events| ==> events[j].Work? && t == After(config, s0, events[..j + 1])
      ensures j < |events| ==> Possible(config, s, events[j]) && Stores(config, s, t, events[j].timeout)
    {
      hide After, Feasible;
      j, s := i, After(config, s0, events[..i]);
      while j < |events| && !events[j].Work?
        invariant i <= j <= |events| && s == After(config, s0, events[..j]) && Matches(s)
        invariant s.pc == After(config, s0, events[..i]).pc
      {
        PrefixStep(config, s0, events, j);
        Apply(events[j], s);
        s := Step(config, s, events[j]);
        j := j + 1;
      }
      t := s;
      if j < |events| {
        PrefixStep(config, s0, events, j);
        t := Step(config, s, events[j]);
        ThreadStores(config, s, events[j].timeout);
      }
    }

    /** The four stores before an interval, 39 to 42 and 57 to 60. */
    method ClearFlags(ghost s0: Timer, events: seq<Event>, i: nat) returns (j: nat)
      requires i <= |events| && Feasible(config, s0, events)
      requires Matches(After(config, s0, events[..i])) && After(config, s0, events[..i]).pc == SetRunning
      modifies this
      ensures i <= j <= |events| && Matches(After(config, s0, events[..j]))
      ensures j < |events| ==> After(config, s0, events[..j]).pc == StartInterval
    {
      hide After, Feasible, Possible, Step, ThreadLog, Due;
      ghost var s, t;
      j, s, t := Others(s0, events, i);
      if j == |events| { return; }
      running := true;

      j, s, t := Others(s0, events, j + 1);
      if j == |events| { return; }
      signaled := false;
      j := ForgetCalls(s0, events, j + 1);
    }

    /** The last two of them. */
    method ForgetCalls(ghost s0: Timer, events: seq<Event>, i: nat) returns (j: nat)
      requires i <= |events| && Feasible(config, s0, events)
      requires Matches(After(config, s0, events[..i])) && After(config, s0, events[..i]).pc == ClearRestarting
      modifies this
      ensures i <= j <= |events| && Matches(After(config, s0, events[..j]))
      ensures j < |events| ==> After(config, s0, events[..j]).pc == StartInterval
    {
      hide After, Feasible, Possible, Step, ThreadLog, Due;
      ghost var s, t;
      j, s, t := Others(s0, events, i);
      if j == |events| { return; }
      restarting := false;

      j, s, t := Others(s0, events, j + 1);
      if j == |events| { return; }
      stopping := false;
      j := j + 1;
    }

    /** The start of an interval, and the inner loop. */
    method Wait(ghost s0: Timer, events: seq<Event>, i: nat) returns (j: nat)
      requires i <= |events| && Feasible(config, s0, events)
      requires Matches(After(config, s0, events[..i])) && After(config, s0, events[..i]).pc == StartInterval
      modifies this
      ensures i <= j <= |events| && Matches(After(config, s0, events[..j])) && (i < |events| ==> i < j)
      ensures j < |events| ==> After(config, s0, events[..j]).pc == TestRestarting
    {
      hide After, Feasible, Possible, Step, ThreadLog, Due;
      ghost var s, t;
      j, s, t := Others(s0, events, i);
      if j == |events| { return; }
      startTime := now;
      endTime := startTime + config.interval;
      j := j + 1;

      var over := false;
      while j < |events| && !over
        invariant i < j <= |events| && Matches(After(config, s0, events[..j]))
        invariant j < |events| ==> After(config, s0, events[..j]).pc == if over then TestRestarting else TestTime
        decreases |events| - j
      {
        j, s, t := Others(s0, events, j);
        if j == |events| { return; }
        if now < endTime {
          j, over := WaitOnce(s0, events, j + 1);
        } else {
          j, over := j + 1, true;
        }
      }
    }

    /** The body of the inner loop, and whether it breaks out of it. */
    method WaitOnce(ghost s0: Timer, events: seq<Event>, i: nat) returns (j: nat, over: bool)
      requires i <= |events| && Feasible(config, s0, events)
      requires Matches(After(config, s0, events[..i])) && After(config, s0, events[..i]).pc == Waiting
      modifies this
      ensures i <= j <= |events| && Matches(After(config, s0, events[..j]))
      ensures j < |events| ==> After(config, s0, events[..j]).pc == if over then TestRestarting else TestTime
    {
      hide After, Feasible, Possible, Step, ThreadLog, Due;
      over := false;
      ghost var s, t;
      j, s, t := Others(s0, events, i);
      if j == |events| { return; }
      if events[j].timeout {
        return j + 1, true;
      }
      j, s, t := Others(s0, events, j + 1);
      if j == |events| { return; }
      if signaled {
        j, s, t := Others(s0, events, j + 1);
        if j == |events| { return; }
        signaled := false;
        return j + 1, true;
      }
      j := j + 1;
    }

    /** The callback, with the `restart` it may make. */
    method Callback(ghost s0: Timer, events: seq<Event>, i: nat) returns (j: nat)
      requires i <= |events| && Feasible(config, s0, events)
      requires Matches(After(config, s0, events[..i])) && After(config, s0, events[..i]).pc == CallBack
      modifies this
      ensures i <= j <= |events| && Matches(After(config, s0, events[..j]))
      ensures j < |events| ==> After(config, s0, events[..j]).pc == TestRunning
    {
      hide After, Feasible, Possible, Step, ThreadLog, Due;
      ghost var s, t;
      j, s, t := Others(s0, events, i);
      if j == |events| { return; }
      j := j + 1;
      if config.restartsItself {
        j := OwnRestart(s0, events, j);
      }
    }

    method OwnRestart(ghost s0: Timer, events: seq<Event>, i: nat) returns (j: nat)
      requires i <= |events| && Feasible(config, s0, events)
      requires Matches(After(config, s0, events[..i])) && After(config, s0, events[..i]).pc == OwnRestarting
      modifies this
      ensures i <= j <= |events| && Matches(After(config, s0, events[..j]))
      ensures j < |events| ==> After(config, s0, events[..j]).pc == TestRunning
    {
      hide After, Feasible, Possible, Step, ThreadLog, Due;
      ghost var s, t;
      j, s, t := Others(s0, events, i);
      if j == |events| { return; }
      restarting := true;

      j, s, t := Others(s0, events, j + 1);
      if j == |events| { return; }
      signaled := true;
      j := j + 1;
    }

    /** The outer loop of `run` after the wait. */
    method CheckFlags(ghost s0: Timer, events: seq<Event>, i: nat) returns (j: nat, over: bool)
      requires i <= |events| && Feasible(config, s0, events)
      requires Matches(After(config, s0, events[..i])) && After(config, s0, events[..i]).pc == TestRestarting
      modifies this
      ensures i <= j <= |events| && Matches(After(config, s0, events[..j]))
      ensures over ==> After(config, s0, events[..j]).pc == Exited
      ensures !over && j < |events| ==> After(config, s0, events[..j]).pc == StartInterval
    {
      hide After, Feasible, Possible, Step, ThreadLog, Due;
      over := false;
      ghost var s, t;
      j, s, t := Others(s0, events, i);
      if j == |events| { return; }
      if restarting {
        j := ClearFlags(s0, events, j + 1);
        return;
      }
      j, s, t := Others(s0, events, j + 1);
      if j == |events| { return; }
      if stopping {
        return j + 1, true;
      }
      j := Callback(s0, events, j + 1);
      if j == |events| { return; }
      j, s, t := Others(s0, events, j);
      if j == |events| { return; }
      if config.single {
        return j + 1, true;
      }
      if !running {
        return j + 1, true;
      }
      j := j + 1;
    }

    /** `run`, among whatever the clock and the other threads do. The events are used up, or the thread exits after
        some of them. */
    method Run(start: real, events: seq<Event>) returns (used: nat)
      requires Feasible(config, Started(config, start), events)
      modifies this
      ensures used <= |events| && Matches(After(config, Started(config, start), events[..used]))
      ensures used < |events| ==> After(config, Started(config, start), events[..used]).pc == Exited
    {
      ghost var s0 := Started(config, start);
      running, restarting, signaled, stopping := false, false, false, false;
      now, startTime, endTime := start, start, start + config.interval;
      assert After(config, s0, events[..0]) == s0;
      hide After, Feasible;
      used := ClearFlags(s0, events, 0);
      var over := false;
      while used < |events| && !over
        invariant used <= |events| && Matches(After(config, s0, events[..used]))
        invariant over ==> After(config, s0, events[..used]).pc == Exited
        invariant used < |events| && !over ==> After(config, s0, events[..used]).pc == StartInterval
        decreases |events| - used
      {
        used := Wait(s0, events, used);
        if used < |events| {
          used, over := CheckFlags(s0, events, used);
        }
      }
    }
  }
}
