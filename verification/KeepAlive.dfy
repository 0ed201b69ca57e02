/** The keep-alive of `client.cpp`: every packet sent restarts the ping timer, and the timer's callback sends a
    PINGREQ. Every send succeeds; the restart that follows a send stores its first flag within a delay. The client has
    one connection: the one timer serves all of a client's connections, while the Keep Alive is promised to each. */
module KeepAlive {
  import opened ChronoTriggers
  import opened TimerProperties
  import Messages

  /** The ping timer, the times at which packets were sent, and those whose restart has not stored `restarting` yet. */
  datatype Client = Client(timer: Timer, sent: seq<real>, unstored: seq<real>)

  /** The application sends a packet, the restart after a packet begins, or something else happens to the timer. */
  datatype Act = Send | Begin(i: nat) | Happens(e: Event)

  /** The timer of a client: periodic, with a callback that restarts it. */
  predicate Pings(c: Config) {
    c.Valid() && !c.single && c.restartsItself
  }

  /** The longest silence: two intervals, the latencies of their ends and of the start of the first one, and the delay
      of the restart that puts the first one off. */
  function Silence(c: Config, delay: real): real {
    2.0 * c.interval + 3.0 * c.latency + delay
  }

  /** `connect`: the CONNECT packet went out at `sent`, and the timer starts when its answer is there. */
  function Connected(c: Config, sent: real, start: real): Client {
    Client(Started(c, start), [sent], [])
  }

  /** Time does not pass a restart by for longer than the delay. */
  predicate CanAct(c: Config, delay: real, k: Client, a: Act) {
    match a
    case Send => !k.timer.pc.Exited?
    case Begin(i) => i < |k.unstored|
    case Happens(e) =>
      && !e.RestartingStore? && Possible(c, k.timer, e)
      && (e.Tick? ==> forall t :: t in k.unstored ==> k.timer.now + e.d <= t + delay)
  }

  /** The callback sends a packet as it is called. */
  function Acted(c: Config, k: Client, a: Act): Client {
    match a
    case Send => k.(sent := k.sent + [k.timer.now], unstored := k.unstored + [k.timer.now])
    case Begin(i) =>
      if i >= |k.unstored| then k
      else Client(Step(c, k.timer, RestartingStore), k.sent, k.unstored[..i] + k.unstored[i + 1..])
    case Happens(e) =>
      k.(timer := Step(c, k.timer, e),
         sent := if e.Work? && k.timer.pc.CallBack? then k.sent + [k.timer.now] else k.sent)
  }

  function AfterActs(c: Config, k: Client, run: seq<Act>): Client {
    if run == [] then k else Acted(c, AfterActs(c, k, run[..|run| - 1]), run[|run| - 1])
  }

  predicate CanRun(c: Config, delay: real, k: Client, run: seq<Act>) {
    run == [] ||
    var front := run[..|run| - 1];
    CanRun(c, delay, k, front) && CanAct(c, delay, AfterActs(c, k, front), run[|run| - 1])
  }

  /** Consecutive packets are never further apart than the longest silence. */
  predicate Spaced(sent: seq<real>, silence: real) {
    forall i :: 0 < i < |sent| ==> sent[i] - sent[i - 1] <= silence
  }

  /** How old the last packet can be: a restart pending since the last clearing came from a packet of the current
      interval or of its beginning; otherwise the last packet belongs to the interval before. */
  predicate Recent(c: Config, delay: real, s: Timer, last: real) {
    var before := c.latency + delay;
    if s.pc.Exited? then true
    else if InWait(s.pc) || s.pc.TestRestarting? then
      last >= s.startTime - before - if s.restarting then 0.0 else c.interval + c.latency
    else if s.pc.TestStopping? || s.pc.CallBack? then last >= s.startTime - before - (c.interval + c.latency)
    else
      && last >= s.due - before - (c.interval + c.latency)
      && (!Clearing(s.pc) || s.pc.ClearStopping? ==> s.restarting ==> last >= s.due - before)
      && (AfterCallback(s.pc) ==> last >= s.due - before)
  }

  ghost predicate Kept(c: Config, delay: real, k: Client) {
    && Sound(c, k.timer)
    && k.sent != [] && Spaced(k.sent, Silence(c, delay))
    && (forall t :: t in k.unstored ==> t <= k.sent[|k.sent| - 1] && k.timer.now <= t + delay)
    && k.sent[|k.sent| - 1] <= k.timer.now
    && Recent(c, delay, k.timer, k.sent[|k.sent| - 1])
  }

  lemma NotSilent(c: Config, delay: real, k: Client)
    requires c.Valid() && delay >= 0.0 && Kept(c, delay, k) && !k.timer.pc.Exited?
    ensures k.timer.now - k.sent[|k.sent| - 1] <= Silence(c, delay)
  {
  }

  /** A packet resets the age of the last one. */
  lemma SentRecent(c: Config, delay: real, s: Timer)
    requires c.Valid() && delay >= 0.0 && Timing(c, s)
    ensures Recent(c, delay, s, s.now)
  {
  }

  lemma StepRecent(c: Config, delay: real, s: Timer, e: Event, last: real)
    requires Pings(c) && delay >= 0.0 && Sound(c, s) && Possible(c, s, e) && !e.RestartingStore?
    requires Recent(c, delay, s, last) && last <= s.now && !(e.Work? && s.pc.CallBack?)
    ensures Recent(c, delay, Step(c, s, e), last)
  {
  }

  lemma BeginRecent(c: Config, delay: real, s: Timer, last: real)
    requires c.Valid() && delay >= 0.0 && Timing(c, s) && Recent(c, delay, s, last) && s.now <= last + delay
    ensures Recent(c, delay, Step(c, s, RestartingStore), last)
  {
  }

  lemma CallRecent(c: Config, delay: real, s: Timer, e: Event)
    requires Pings(c) && delay >= 0.0 && Timing(c, s) && e.Work? && s.pc.CallBack?
    ensures Recent(c, delay, Step(c, s, e), s.now) && Step(c, s, e).now == s.now
  {
  }

  lemma SendKeeps(c: Config, delay: real, k: Client)
    requires Pings(c) && delay >= 0.0 && Kept(c, delay, k) && CanAct(c, delay, k, Send)
    ensures Kept(c, delay, Acted(c, k, Send))
  {
    NotSilent(c, delay, k);
    SentRecent(c, delay, k.timer);
    hide Sound, Recent, Silence;
  }

  lemma BeginKeeps(c: Config, delay: real, k: Client, i: nat)
    requires Pings(c) && delay >= 0.0 && Kept(c, delay, k) && i < |k.unstored|
    ensures Kept(c, delay, Acted(c, k, Begin(i)))
  {
    var rest := k.unstored[..i] + k.unstored[i + 1..];
    assert k.unstored == k.unstored[..i] + [k.unstored[i]] + k.unstored[i + 1..];
    assert forall t :: t in rest ==> t in k.unstored;
    var t := k.unstored[i];
    assert t in k.unstored && t <= k.sent[|k.sent| - 1] && k.timer.now <= t + delay;
    SoundKept(c, k.timer, RestartingStore);
    BeginRecent(c, delay, k.timer, k.sent[|k.sent| - 1]);
    assert Step(c, k.timer, RestartingStore).now == k.timer.now;
    hide Sound, Recent, Silence, Step;
  }

  lemma CallKeeps(c: Config, delay: real, k: Client, e: Event)
    requires Pings(c) && delay >= 0.0 && Kept(c, delay, k) && CanAct(c, delay, k, Happens(e))
    requires e.Work? && k.timer.pc.CallBack?
    ensures Kept(c, delay, Acted(c, k, Happens(e)))
  {
    NotSilent(c, delay, k);
    SoundKept(c, k.timer, e);
    CallRecent(c, delay, k.timer, e);
    hide Sound, Recent, Silence, Step, Possible;
  }

  lemma HappeningKeeps(c: Config, delay: real, k: Client, e: Event)
    requires Pings(c) && delay >= 0.0 && Kept(c, delay, k) && CanAct(c, delay, k, Happens(e))
    requires !(e.Work? && k.timer.pc.CallBack?)
    ensures Kept(c, delay, Acted(c, k, Happens(e)))
  {
    SoundKept(c, k.timer, e);
    StepRecent(c, delay, k.timer, e, k.sent[|k.sent| - 1]);
    assert Step(c, k.timer, e).now == if e.Tick? then k.timer.now + e.d else k.timer.now;
    assert e.Tick? ==> e.d >= 0.0;
    hide Sound, Recent, Silence, Step, Possible;
  }

  lemma ActKeeps(c: Config, delay: real, k: Client, a: Act)
    requires Pings(c) && delay >= 0.0 && Kept(c, delay, k) && CanAct(c, delay, k, a)
    ensures Kept(c, delay, Acted(c, k, a))
  {
    hide Kept, Acted;
    match a
    case Send => SendKeeps(c, delay, k);
    case Begin(i) => BeginKeeps(c, delay, k, i);
    case Happens(e) =>
      if e.Work? && k.timer.pc.CallBack? {
        CallKeeps(c, delay, k, e);
      } else {
        HappeningKeeps(c, delay, k, e);
      }
  }

  lemma {:induction false} RunKeeps(c: Config, delay: real, k: Client, run: seq<Act>)
    requires Pings(c) && delay >= 0.0 && Kept(c, delay, k) && CanRun(c, delay, k, run)
    ensures Kept(c, delay, AfterActs(c, k, run))
  {
    hide Kept, Acted, CanAct;
    if run == [] {
    } else {
      RunKeeps(c, delay, k, run[..|run| - 1]);
      ActKeeps(c, delay, AfterActs(c, k, run[..|run| - 1]), run[|run| - 1]);
    }
  }

  /** The keep-alive bound over whole runs, whatever stores fall between whatever tests: while the timer's thread runs,
      no two consecutive packets and no current silence exceed it. */
  lemma NeverSilentTooLong(c: Config, delay: real, sent: real, start: real, run: seq<Act>)
    requires Pings(c) && delay >= 0.0 && sent <= start <= sent + c.interval + c.latency + delay
    requires CanRun(c, delay, Connected(c, sent, start), run)
    ensures var k := AfterActs(c, Connected(c, sent, start), run);
            && k.sent != [] && Spaced(k.sent, Silence(c, delay))
            && (!k.timer.pc.Exited? ==> k.timer.now - k.sent[|k.sent| - 1] <= Silence(c, delay))
  {
    StartedSound(c, start);
    assert Kept(c, delay, Connected(c, sent, start));
    hide CanRun, AfterActs, Connected, Sound, Recent;
    RunKeeps(c, delay, Connected(c, sent, start), run);
    var k := AfterActs(c, Connected(c, sent, start), run);
    if !k.timer.pc.Exited? {
      NotSilent(c, delay, k);
    }
  }

  // ---------------------------------------------------------------- every packet restarts the timer

  /** How many packets the application has sent in a run, and how many restarts have begun. */
  function Sends(run: seq<Act>): nat {
    if run == [] then 0 else Sends(run[..|run| - 1]) + if run[|run| - 1].Send? then 1 else 0
  }

  function Begins(run: seq<Act>): nat {
    if run == [] then 0 else Begins(run[..|run| - 1]) + if run[|run| - 1].Begin? then 1 else 0
  }

  /** Each packet is accounted for: the first one, those of the application, and one for each callback; and each one of
      the application is followed by one restart, or is waiting for it. */
  lemma {:induction false} PacketsAccounted(c: Config, delay: real, sent: real, start: real, run: seq<Act>)
    requires CanRun(c, delay, Connected(c, sent, start), run)
    ensures var k := AfterActs(c, Connected(c, sent, start), run);
            && |k.sent| == 1 + Sends(run) + |k.timer.log.fires|
            && |k.unstored| + Begins(run) == Sends(run)
  {
    if run == [] {
    } else {
      var front, a := run[..|run| - 1], run[|run| - 1];
      PacketsAccounted(c, delay, sent, start, front);
      ActAccounted(c, delay, AfterActs(c, Connected(c, sent, start), front), a);
    }
  }

  lemma ActAccounted(c: Config, delay: real, k: Client, a: Act)
    requires CanAct(c, delay, k, a)
    ensures var l := Acted(c, k, a);
            && |l.sent| - |l.timer.log.fires| == |k.sent| - |k.timer.log.fires| + (if a.Send? then 1 else 0)
            && |l.unstored| == |k.unstored| + (if a.Send? then 1 else 0) - if a.Begin? then 1 else 0
  {
    match a
    case Send =>
    case Begin(_) =>
      FiresGrow(c, k.timer, RestartingStore);
      hide Step, Possible;
    case Happens(e) =>
      FiresGrow(c, k.timer, e);
      hide Step, Possible;
  }

  lemma FiresGrow(c: Config, s: Timer, e: Event)
    ensures |Step(c, s, e).log.fires| == |s.log.fires| + if e.Work? && s.pc.CallBack? then 1 else 0
  {
  }

  /** The restart of a packet is that of the timer: its first store raises `restarting`. */
  lemma BeginRestarts(c: Config, k: Client, i: nat)
    requires i < |k.unstored|
    ensures Acted(c, k, Begin(i)).timer.restarting
    ensures |Acted(c, k, Begin(i)).timer.log.restarts| == |k.timer.log.restarts| + 1
  {
  }

  // ---------------------------------------------------------------- the numbers of the client

  /** The Keep Alive that a CONNECT packet announces, in milliseconds: the two bytes after its flags. */
  function Announced(m: Messages.Message): real
    requires m.command.CONNECT?
  {
    var h := Messages.VariableHeader(m);
    (0x100 * h[8] as int + h[9] as int) as real * 1000.0
  }

  /** Milliseconds: the interval that `connect` starts the timer with, and how long it waits for the answer. */
  const PING_INTERVAL := (60.0 - 2.0) * 400.0
  const ANSWER_WAIT := 3000.0

  lemma AnnouncedIs(m: Messages.Message)
    requires m.command.CONNECT?
    ensures Announced(m) == 60000.0
  {
  }

  /** The client keeps the promise that its CONNECT packet makes, section 3.1.2.10 of MQTT 3.1.1, as long as the
      latencies and the delay leave the 13.6 seconds between the bound and the promise. */
  lemma KeepAliveHonoured(m: Messages.Message, latency: real, delay: real, sent: real, start: real, run: seq<Act>)
    requires m.command.CONNECT?
    requires 0.0 <= latency && 0.0 <= delay && 3.0 * latency + delay < 13600.0
    requires sent <= start <= sent + ANSWER_WAIT
    requires var c := Config(PING_INTERVAL, latency, false, true); CanRun(c, delay, Connected(c, sent, start), run)
    ensures var c := Config(PING_INTERVAL, latency, false, true);
            var k := AfterActs(c, Connected(c, sent, start), run);
            && k.sent != [] && (forall i :: 0 < i < |k.sent| ==> k.sent[i] - k.sent[i - 1] < Announced(m))
            && (!k.timer.pc.Exited? ==> k.timer.now - k.sent[|k.sent| - 1] < Announced(m))
  {
    AnnouncedIs(m);
    var c := Config(PING_INTERVAL, latency, false, true);
    assert Silence(c, delay) == 46400.0 + 3.0 * latency + delay < 60000.0;
    hide Announced, CanRun, AfterActs, Connected, Silence;
    NeverSilentTooLong(c, delay, sent, start, run);
  }

  // ---------------------------------------------------------------- the bound is attained

  lemma GoOn(c: Config, delay: real, k: Client, run: seq<Act>, a: Act)
    ensures AfterActs(c, k, run + [a]) == Acted(c, AfterActs(c, k, run), a)
    ensures CanRun(c, delay, k, run + [a]) <==> CanRun(c, delay, k, run) && CanAct(c, delay, AfterActs(c, k, run), a)
  {
    assert (run + [a])[..|run|] == run;
  }

  /** A client that nobody uses, at the start of an interval. */
  predicate Idle(c: Config, k: Client, restarting: bool) {
    && k.unstored == [] && k.timer.pc.StartInterval? && k.timer.running && !k.timer.stopping
    && k.timer.restarting == restarting && k.timer.now <= k.timer.due
  }

  /** Time passes, or the thread makes a step that is not a callback. */
  lemma Quietly(c: Config, delay: real, k: Client, run: seq<Act>, j: Client, e: Event)
    returns (more: seq<Act>, l: Client)
    requires CanRun(c, delay, k, run) && AfterActs(c, k, run) == j && j.unstored == []
    requires (e.Tick? || (e.Work? && !j.timer.pc.CallBack?)) && Possible(c, j.timer, e)
    ensures more == run + [Happens(e)] && CanRun(c, delay, k, more) && AfterActs(c, k, more) == l
    ensures l == Client(l.timer, j.sent, [])
    ensures e.Tick? ==> l.timer == j.timer.(now := j.timer.now + e.d, log := l.timer.log)
    ensures e.Work? ==> Stores(c, j.timer, l.timer, e.timeout)
  {
    GoOn(c, delay, k, run, Happens(e));
    more, l := run + [Happens(e)], Acted(c, j, Happens(e));
    if e.Work? {
      ThreadStores(c, j.timer, e.timeout);
    }
  }

  /** One interval of an idle client whose timeout comes late by `late`: to the test of `restarting`. */
  lemma Interval(c: Config, delay: real, k: Client, run: seq<Act>, j: Client, restarting: bool, late: real)
    returns (more: seq<Act>, l: Client)
    requires c.Valid() && CanRun(c, delay, k, run) && AfterActs(c, k, run) == j && Idle(c, j, restarting)
    requires 0.0 <= late <= c.latency
    ensures CanRun(c, delay, k, more) && AfterActs(c, k, more) == l && l.sent == j.sent && l.unstored == []
    ensures l.timer.pc.TestRestarting? && l.timer.running && !l.timer.stopping && l.timer.restarting == restarting
    ensures l.timer.now == j.timer.now + c.interval + late
    ensures l.timer.due == j.timer.now + c.interval + c.latency
  {
    hide CanRun, AfterActs;
    more, l := Quietly(c, delay, k, run, j, Work(false));
    more, l := Quietly(c, delay, k, more, l, Work(false));
    more, l := Quietly(c, delay, k, more, l, Tick(c.interval + late));
    more, l := Quietly(c, delay, k, more, l, Work(true));
  }

  /** The callback of an idle client, and its own restart, with some time before the next interval. */
  lemma Ping(c: Config, delay: real, k: Client, run: seq<Act>, j: Client, slack: real)
    returns (more: seq<Act>, l: Client)
    requires Pings(c) && CanRun(c, delay, k, run) && AfterActs(c, k, run) == j && j.unstored == []
    requires j.timer.pc.TestRestarting? && j.timer.running && !j.timer.stopping && !j.timer.restarting
    requires 0.0 <= slack && j.timer.now + slack <= j.timer.due
    ensures CanRun(c, delay, k, more) && AfterActs(c, k, more) == l && l.sent == j.sent + [j.timer.now]
    ensures Idle(c, l, true) && l.timer.now == j.timer.now + slack
  {
    hide CanRun, AfterActs;
    more, l := Quietly(c, delay, k, run, j, Work(false));
    more, l := Quietly(c, delay, k, more, l, Work(false));
    more, l := Called(c, delay, k, more, l);
    more, l := RestartsItself(c, delay, k, more, l, slack);
  }

  lemma RestartsItself(c: Config, delay: real, k: Client, run: seq<Act>, j: Client, slack: real)
    returns (more: seq<Act>, l: Client)
    requires Pings(c) && CanRun(c, delay, k, run) && AfterActs(c, k, run) == j && j.unstored == []
    requires j.timer.pc.OwnRestarting? && j.timer.running && !j.timer.stopping
    requires 0.0 <= slack && j.timer.now + slack <= j.timer.due
    ensures CanRun(c, delay, k, more) && AfterActs(c, k, more) == l && l.sent == j.sent
    ensures Idle(c, l, true) && l.timer.now == j.timer.now + slack
  {
    hide CanRun, AfterActs;
    more, l := Quietly(c, delay, k, run, j, Work(false));
    more, l := Quietly(c, delay, k, more, l, Work(false));
    more, l := Quietly(c, delay, k, more, l, Tick(slack));
    more, l := Quietly(c, delay, k, more, l, Work(false));
  }

  lemma Called(c: Config, delay: real, k: Client, run: seq<Act>, j: Client) returns (more: seq<Act>, l: Client)
    requires CanRun(c, delay, k, run) && AfterActs(c, k, run) == j && j.unstored == [] && j.timer.pc.CallBack?
    ensures CanRun(c, delay, k, more) && AfterActs(c, k, more) == l
    ensures l == Client(l.timer, j.sent + [j.timer.now], [])
    ensures Stores(c, j.timer, l.timer, false)
  {
    GoOn(c, delay, k, run, Happens(Work(false)));
    more, l := run + [Happens(Work(false))], Acted(c, j, Happens(Work(false)));
    ThreadStores(c, j.timer, false);
  }

  /** A check that finds the restart: the flags are cleared, and nothing is sent. */
  lemma Cleared(c: Config, delay: real, k: Client, run: seq<Act>, j: Client) returns (more: seq<Act>, l: Client)
    requires CanRun(c, delay, k, run) && AfterActs(c, k, run) == j && j.unstored == []
    requires j.timer.pc.TestRestarting? && j.timer.restarting && j.timer.now <= j.timer.due
    ensures CanRun(c, delay, k, more) && AfterActs(c, k, more) == l && l.sent == j.sent
    ensures Idle(c, l, false) && l.timer.now == j.timer.now
  {
    hide CanRun, AfterActs;
    more, l := Quietly(c, delay, k, run, j, Work(false));
    more, l := Quietly(c, delay, k, more, l, Work(false));
    more, l := Quietly(c, delay, k, more, l, Work(false));
    more, l := Quietly(c, delay, k, more, l, Work(false));
    more, l := Quietly(c, delay, k, more, l, Work(false));
  }

  /** Two intervals: one that ends in a ping, `late` after its end and `slack` before the next one, and one that ends,
      as late as can be, in the restart that the ping left behind. */
  lemma IdleRound(c: Config, delay: real, k: Client, run: seq<Act>, j: Client, late: real, slack: real)
    returns (more: seq<Act>, l: Client)
    requires Pings(c) && CanRun(c, delay, k, run) && AfterActs(c, k, run) == j && Idle(c, j, false)
    requires 0.0 <= late && 0.0 <= slack && late + slack <= c.latency
    ensures CanRun(c, delay, k, more) && AfterActs(c, k, more) == l && Idle(c, l, false)
    ensures l.sent == j.sent + [j.timer.now + c.interval + late]
    ensures l.timer.now == j.timer.now + c.interval + late + slack + c.interval + c.latency
  {
    hide CanRun, AfterActs;
    more, l := Interval(c, delay, k, run, j, false, late);
    more, l := Ping(c, delay, k, more, l, slack);
    more, l := Interval(c, delay, k, more, l, true, c.latency);
    more, l := Cleared(c, delay, k, more, l);
  }

  lemma FirstInterval(c: Config, sent: real, start: real) returns (run: seq<Act>, l: Client)
    requires Pings(c)
    ensures CanRun(c, 0.0, Connected(c, sent, start), run) && AfterActs(c, Connected(c, sent, start), run) == l
    ensures Idle(c, l, false) && l.sent == [sent]
  {
    var k := Connected(c, sent, start);
    assert CanRun(c, 0.0, k, []) && AfterActs(c, k, []) == k;
    hide CanRun, AfterActs;
    run, l := Quietly(c, 0.0, k, [], k, Work(false));
    run, l := Quietly(c, 0.0, k, run, l, Work(false));
    run, l := Quietly(c, 0.0, k, run, l, Work(false));
    run, l := Quietly(c, 0.0, k, run, l, Work(false));
  }

  /** An idle client pings every second interval, and every second silence can be the longest there is without a delay:
      the bound is attained, by arbitrarily long runs. */
  lemma {:induction false} IdleClientPings(c: Config, sent: real, start: real, n: nat)
    returns (run: seq<Act>, l: Client)
    requires Pings(c) && sent <= start
    ensures CanRun(c, 0.0, Connected(c, sent, start), run) && AfterActs(c, Connected(c, sent, start), run) == l
    ensures Idle(c, l, false) && |l.sent| == 2 * n + 1
    ensures forall i :: 0 < i <= n ==> l.sent[2 * i] - l.sent[2 * i - 1] == Silence(c, 0.0)
  {
    hide CanRun, AfterActs, Idle, Connected;
    var k := Connected(c, sent, start);
    if n == 0 {
      run, l := FirstInterval(c, sent, start);
    } else {
      var j;
      run, j := IdleClientPings(c, sent, start, n - 1);
      run, l := IdleRound(c, 0.0, k, run, j, 0.0, c.latency);
      run, l := IdleRound(c, 0.0, k, run, l, c.latency, 0.0);
      assert forall i :: 0 <= i < |j.sent| ==> l.sent[i] == j.sent[i];
    }
  }
}
