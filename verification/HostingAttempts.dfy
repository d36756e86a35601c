// The refresh attempts of a channel as a machine over the events of a run: what was read, which
// timers fired and which nudges failed (src/runHosting/credentialChannel.ts).
module HostingAttempts {
  import opened Collections
  import opened CredentialChannels
  import opened ChannelSteps
  import opened Gateways
  import opened HostingLoop
  import opened HostingTheorems
  import opened HostingRuns
  import opened HostingReads

  /** The expiry last seen, whether an outcome is awaited, the failures counted, and how many are allowed. */
  datatype Attempts = Attempts(seen: Option<int>, awaiting: bool, failures: nat, limit: nat)

  function AttemptsOf(c: Channel): Attempts {
    Attempts(c.tokens.seenExpiresAt, c.nudging.awaiting, c.nudging.failures, c.config.maxAttempts)
  }

  /** A later expiry than the one last seen ends the awaiting and the count; any other is only noted. */
  function AfterRead(a: Attempts, read: Read): Attempts {
    if read.creds.None? then a
    else if a.seen.Some? && read.creds.value.expiresAt > a.seen.value
    then a.(seen := Some(read.creds.value.expiresAt), awaiting := false, failures := 0)
    else a.(seen := Some(read.creds.value.expiresAt))
  }

  /** A timer that fires finds the outcome overdue, or starts to await one. */
  function AfterTimer(a: Attempts): Attempts {
    if a.awaiting then a.(failures := a.failures + 1) else a.(awaiting := true)
  }

  /** A nudge that fails counts while its outcome is awaited. */
  function AfterNudge(a: Attempts, ok: bool): Attempts {
    if a.awaiting && !ok then a.(failures := a.failures + 1) else a
  }

  predicate Before(files: seq<Read>, c: nat) {
    forall i :: 0 <= i < c && i < |files| ==> files[i].creds.Some?
  }

  /** One step of a run, for one channel. */
  function AfterStep(a: Attempts, s: State, e: Event, read: seq<Source>, c: nat): Attempts {
    match e
    case TimerFires(i, _, _) => if i == c && !s.life.settled then AfterTimer(a) else a
    case NudgeReturns(i, ok, _) => if i == c && !s.life.settled then AfterNudge(a, ok) else a
    case FileChanged(_, input) => if Credential(c) in read && c < |input.files| then AfterRead(a, input.files[c]) else a
    case Resumes(i, _, input) =>
      if i < |s.tasks| && s.tasks[i].Starting? && c < |input.files| && Before(input.files, c) && input.files[c].creds.Some?
      then a.(seen := Some(input.files[c].creds.value.expiresAt))
      else if Credential(c) in read && c < |input.files| then AfterRead(a, input.files[c])
      else a
    case _ => a
  }

  ghost predicate SameAttempts(a: seq<Channel>, b: seq<Channel>) {
    |a| == |b| && forall c :: 0 <= c < |a| ==> AttemptsOf(a[c]) == AttemptsOf(b[c])
  }

  lemma ArmKeeps(channels: seq<Channel>, which: set<nat>, now: int)
    ensures SameAttempts(channels, ArmEach(channels, which, now))
  {
  }

  lemma ActivationKeeps(channels: seq<Channel>, now: int)
    ensures SameAttempts(channels, ArmAll(CommitAll(channels), now))
  {
  }

  lemma ClearKeeps(channels: seq<Channel>)
    ensures SameAttempts(channels, ClearAll(channels))
  {
  }

  lemma CommitKeeps(channels: seq<Channel>, which: set<nat>)
    ensures SameAttempts(channels, CommitEach(channels, which))
  {
  }

  lemma PrepareCounts(channels: seq<Channel>, which: set<nat>, files: seq<Read>, c: nat)
    requires |files| == |channels| && c < |channels|
    ensures AttemptsOf(PrepareEach(channels, which, files)[c]) ==
            if c in which then AfterRead(AttemptsOf(channels[c]), files[c]) else AttemptsOf(channels[c])
  {
    PrepareMeans(channels[c], files[c]);
    hide Prepare;
  }

  lemma HeadCounts(s: State, input: Input, c: nat)
    requires KnownDirty(s) && |input.files| == |s.channels| && c < |s.channels|
    ensures var after := Head(s, input);
      && |after.channels| == |s.channels|
      && AttemptsOf(after.channels[c]) ==
         if Credential(c) in Reading(s, after) then AfterRead(AttemptsOf(s.channels[c]), input.files[c]) else AttemptsOf(s.channels[c])
  {
    hide PrepareEach, ArmEach, ClearAll, Sources, Applied, AttemptsOf, AfterRead;
    if !s.life.settled && s.work.Pending() {
      ClearKeeps(s.channels);
      SourcesAre(s);
      PrepareCounts(s.channels, s.work.dirty, input.files, c);
      var prepared := PrepareEach(s.channels, s.work.dirty, input.files);
      ArmKeeps(prepared, Readable(s.work.dirty, input.files), input.now);
      if !(s.work.policy && input.policy == Rejected) {
        assert Reading(s, Head(s, input)) == Sources(s.work, |s.channels|);
      } else {
        assert Reading(s, Head(s, input)) == [Policy];
      }
    }
  }

  lemma TailCounts(s: State, pass: Pass, input: Input, c: nat)
    requires KnownDirty(s) && |input.files| == |s.channels| && c < |s.channels|
    ensures var after := Tail(s, pass, input);
      && |after.channels| == |s.channels|
      && AttemptsOf(after.channels[c]) ==
         if Credential(c) in Reading(s, after) then AfterRead(AttemptsOf(s.channels[c]), input.files[c]) else AttemptsOf(s.channels[c])
  {
    hide Head, AttemptsOf, AfterRead;
    ArmKeeps(s.channels, pass.readable, input.now);
    HeadCounts(Rearmed(s, pass, input), input, c);
  }

  lemma StartCounts(s: State, input: Input, c: nat)
    requires |input.files| == |s.channels| && c < |s.channels|
    ensures var after := Start(s, input);
      && |after.channels| == |s.channels|
      && AttemptsOf(after.channels[c]) ==
         if Before(input.files, c) && input.files[c].creds.Some?
         then AttemptsOf(s.channels[c]).(seen := Some(input.files[c].creds.value.expiresAt)) else AttemptsOf(s.channels[c])
  {
    hide ClearAll;
    ClearKeeps(StartEach(s.channels, input.files));
    StartupReadMeans(s.channels[c], input.files[c]);
    assert AllReadable(input.files[..c]) <==> Before(input.files, c) by { EarlierFiles(input.files, c); }
  }

  lemma EarlierFiles(files: seq<Read>, c: nat)
    requires c <= |files|
    ensures AllReadable(files[..c]) <==> Before(files, c)
  {
    assert forall i :: 0 <= i < c ==> files[..c][i] == files[i];
  }

  lemma ActivateCounts(s: State, ports: Ports, input: Input, c: nat)
    requires KnownDirty(s) && |input.files| == |s.channels| && c < |s.channels|
    ensures var after := Activate(s, ports, input);
      && |after.channels| == |s.channels|
      && AttemptsOf(after.channels[c]) ==
         if Credential(c) in Reading(s, after) then AfterRead(AttemptsOf(s.channels[c]), input.files[c]) else AttemptsOf(s.channels[c])
  {
    hide Head, AttemptsOf, AfterRead, ArmAll, CommitAll;
    ActivationKeeps(s.channels, input.now);
    var serving := s.(
      active := Active(Blue, Some(ports)),
      gateway := SetTarget(s.gateway, ports.Front()),
      effects := s.effects + [ReportedReady(Blue, ports)],
      channels := ArmAll(CommitAll(s.channels), input.now),
      work := s.work.(restarting := true));
    HeadCounts(serving, input, c);
  }

  lemma ResumeCounts(s: State, i: nat, outcome: Outcome, input: Input, c: nat)
    requires Control(s) && Enabled(s, Resumes(i, outcome, input)) && c < |s.channels|
    ensures var e := Resumes(i, outcome, input);
      var after := Step(s, e);
      && |after.channels| == |s.channels|
      && AttemptsOf(after.channels[c]) == AfterStep(AttemptsOf(s.channels[c]), s, e, Reading(s, after), c)
  {
    hide Head, Tail, Start, StartPolicy, Activate, ClearAll, CommitEach, Secrets, SetTarget, AttemptsOf, AfterRead;
    var rest := s.(tasks := Without(s.tasks, i));
    ClearKeeps(s.channels);
    match s.tasks[i]
    case Starting =>
      StartCounts(rest, input, c);
      NothingRead(rest, input);
    case AllocatingMcp => PolicyCounts(rest, input);
    case WaitingFirst(ports) => ActivateCounts(rest, ports, input, c);
    case BringingUp(pass, _) => TailCounts(Did(rest, FailedToStart(pass.idle)), pass, input, c);
    case StoppingIdle(pass) => TailCounts(rest, pass, input, c);
    case StoppingOld(pass) => TailCounts(rest, pass, input, c);
    case Switching(pass, _) => CommitKeeps(s.channels, pass.applied);
    case _ =>
  }

  lemma PolicyCounts(s: State, input: Input)
    ensures SameAttempts(s.channels, StartPolicy(s, input).channels) && StartPolicy(s, input).readLog == s.readLog
  {
    ClearKeeps(s.channels);
    hide ClearAll, AttemptsOf;
  }

  lemma NothingRead(s: State, input: Input)
    requires |input.files| == |s.channels|
    ensures Start(s, input).readLog == s.readLog
  {
    hide ClearAll, StartEach;
  }

  lemma SignalCounts(s: State, e: Event, c: nat)
    requires Counting(s) && Enabled(s, e) && (e.TimerFires? || e.NudgeReturns?) && c < |s.channels|
    ensures var after := Step(s, e);
      && |after.channels| == |s.channels| && after.readLog == s.readLog
      && AttemptsOf(after.channels[c]) == AfterStep(AttemptsOf(s.channels[c]), s, e, [], c)
  {
    var i := e.channel;
    var ch := s.channels[i];
    QuietAtStartup(s, e);
    assert OneTimer(ch);
    match e {
      case TimerFires(_, handle, now) =>
        FiredCounts(ch, handle, s.life.settled, now);
        ClearKeeps(s.channels[i := OnTimer(ch, handle, s.life.settled, now)]);
      case NudgeReturns(_, ok, now) =>
        EndedCounts(ch, ok, s.life.settled, now);
        ClearKeeps(s.channels[i := NudgeEnds(ch, ok, s.life.settled, now)]);
    }
    hide OnTimer, NudgeEnds, ClearAll, AttemptsOf, Counting;
  }

  lemma FiredCounts(c: Channel, handle: nat, settled: bool, now: int)
    requires OneTimer(c)
    ensures AttemptsOf(OnTimer(c, handle, settled, now)) == if settled then AttemptsOf(c) else AfterTimer(AttemptsOf(c))
  {
    TimerMeans(c, handle, settled, now);
    var fired := c.(nudging := c.nudging.(armed := c.nudging.armed - {handle}));
    NudgeMeans(fired, now);
    FailedAttemptMeans(fired, now);
    TimerKeepsTokens(c, handle, settled, now);
    hide OnTimer, FailedAttempt, Nudge;
  }

  lemma EndedCounts(c: Channel, ok: bool, settled: bool, now: int)
    requires OneTimer(c) && c.nudging.inFlight > 0
    ensures AttemptsOf(NudgeEnds(c, ok, settled, now)) == if settled then AttemptsOf(c) else AfterNudge(AttemptsOf(c), ok)
  {
    NudgeEndMeans(c, ok, settled, now);
    FailedAttemptMeans(c.(nudging := c.nudging.(inFlight := c.nudging.inFlight - 1)), now);
    NudgeKeepsTokens(c, ok, settled, now);
    hide NudgeEnds, FailedAttempt;
  }

  lemma StepCounts(s: State, e: Event, c: nat)
    requires Control(s) && Counting(s) && Enabled(s, e) && c < |s.channels|
    ensures var after := Step(s, e);
      && |after.channels| == |s.channels|
      && AttemptsOf(after.channels[c]) == AfterStep(AttemptsOf(s.channels[c]), s, e, Reading(s, after), c)
  {
    hide Head, Resume, OnTimer, NudgeEnds, ClearAll, AttemptsOf, AfterRead, Counting;
    ClearKeeps(s.channels);
    match e
    case Resumes(i, outcome, input) => ResumeCounts(s, i, outcome, input, c);
    case FileChanged(source, input) =>
      if !s.life.settled && !s.work.restarting {
        HeadCounts(s.(work := Mark(s.work, source).(restarting := true)), input, c);
      }
    case TimerFires(_, _, _) => SignalCounts(s, e, c);
    case NudgeReturns(_, _, _) => SignalCounts(s, e, c);
    case _ =>
  }

  // --- Timers after a read ---------------------------------------------------------------------------

  /** The channel's only timer is set by what was read: the deadline awaited, or the refresh window before the expiry. */
  ghost predicate TimedBy(c: Channel, creds: Credentials, now: int) {
    var at := if c.nudging.awaiting && c.nudging.lastNudgeAt.Some? then c.nudging.lastNudgeAt.value + c.config.retryInterval
              else creds.expiresAt - c.config.refreshWindow;
    if c.config.refreshEnabled then exists h :: c.nudging.armed == map[h := Max(now, at)] else c.nudging.armed == map[]
  }

  lemma ArmedIsTimed(c: Channel, now: int)
    requires OneTimer(c) && c.tokens.lastRead.Some?
    ensures TimedBy(ArmTimer(c, now), c.tokens.lastRead.value, now)
  {
    ArmMeans(c, now);
    var after := ArmTimer(c, now);
    assert after.nudging.awaiting == c.nudging.awaiting && after.nudging.lastNudgeAt == c.nudging.lastNudgeAt && after.config == c.config;
    hide ArmTimer;
    assert c.config.refreshEnabled ==> c.nudging.nextHandle in after.nudging.armed;
  }

  lemma PreparedIsTimed(c: Channel, read: Read, now: int)
    requires Live(c) && read.creds.Some?
    ensures TimedBy(ArmTimer(Prepare(c, read), now), read.creds.value, now)
  {
    PrepareIs(c, read);
    PrepareMeans(c, read);
    hide Prepare, ArmTimer, TimedBy;
    ArmedIsTimed(Prepare(c, read), now);
  }

  lemma HeadTimes(s: State, input: Input, c: nat)
    requires Between(s) && Counting(s) && !s.life.settled && |input.files| == |s.channels| && c < |s.channels|
    requires Credential(c) in Reading(s, Head(s, input)) && input.files[c].creds.Some?
    ensures !Head(s, input).life.settled && Head(s, input).tasks == [] ==>
              c < |Head(s, input).channels| && TimedBy(Head(s, input).channels[c], input.files[c].creds.value, input.now)
  {
    hide ClearAll, Sources, Applied, TimedBy, Prepare, ArmTimer, Live, OneTimer;
    assert Live(s.channels[c]);
    SourcesAre(s);
    PreparedIsTimed(s.channels[c], input.files[c], input.now);
  }

  // --- Over whole runs -------------------------------------------------------------------------------

  /** The attempts of a channel after `n` steps, from the events alone. */
  function AttemptsAt(configs: seq<Config>, states: seq<State>, events: seq<Event>, n: nat, c: nat): (a: Attempts)
    requires n < |states| && |states| == |events| + 1 && c < |configs|
    ensures a.limit == configs[c].maxAttempts
  {
    if n == 0 then Attempts(None, false, 0, configs[c].maxAttempts)
    else AfterStep(AttemptsAt(configs, states, events, n - 1, c), states[n - 1], events[n - 1], Reading(states[n - 1], states[n]), c)
  }

  /** Every channel counts its attempts as the events of the run say. */
  lemma {:induction false} AttemptsFollowEvents(mcp: bool, configs: seq<Config>, states: seq<State>, events: seq<Event>, n: nat, c: nat)
    requires History(mcp, configs, states, events) && n < |states| && c < |configs|
    ensures |states[n].channels| == |configs|
    ensures AttemptsOf(states[n].channels[c]) == AttemptsAt(configs, states, events, n, c)
  {
    hide Safe, Step, Enabled, AfterStep, AttemptsOf;
    if n > 0 {
      AttemptsFollowEvents(mcp, configs, states, events, n - 1, c);
      RunIsSafe(mcp, configs, states, events, n - 1);
      SafeParts(states[n - 1]);
      StepCounts(states[n - 1], events[n - 1], c);
    } else {
      InitialAttempts(mcp, configs, c);
    }
  }

  lemma InitialAttempts(mcp: bool, configs: seq<Config>, c: nat)
    requires c < |configs|
    ensures AttemptsOf(Initial(mcp, configs).channels[c]) == Attempts(None, false, 0, configs[c].maxAttempts)
  {
  }

  /**
   * A channel gives up, and the loop ends, exactly when an awaited outcome fails, by its deadline or
   * by a failing nudge, as the `maxAttempts`th failure since a read last found a later expiry.
   */
  lemma GivesUpExactly(mcp: bool, configs: seq<Config>, states: seq<State>, events: seq<Event>, n: nat, c: nat)
    requires History(mcp, configs, states, events) && n < |events| && c < |configs| && !states[n].life.settled
    requires (events[n].TimerFires? && events[n].channel == c) || (events[n].NudgeReturns? && events[n].channel == c)
    ensures var a := AttemptsAt(configs, states, events, n, c);
      var failed := a.awaiting && (events[n].TimerFires? || !events[n].ok);
      && (states[n + 1].life.settled <==> failed && a.failures + 1 >= configs[c].maxAttempts)
      && a.failures < configs[c].maxAttempts
  {
    hide Safe, Step, Enabled, AttemptsAt, Counting, Control, Lone, Exits;
    AttemptsFollowEvents(mcp, configs, states, events, n, c);
    RunIsSafe(mcp, configs, states, events, n);
    SafeParts(states[n]);
    SignalSettles(states[n], events[n]);
    assert states[n + 1] == Step(states[n], events[n]);
    assert AttemptsOf(states[n].channels[c]) == AttemptsAt(configs, states, events, n, c);
  }

  lemma SignalSettles(s: State, e: Event)
    requires Counting(s) && Enabled(s, e) && (e.TimerFires? || e.NudgeReturns?) && !s.life.settled
    ensures var c := s.channels[e.channel];
      && c.nudging.failures < c.config.maxAttempts
      && (Step(s, e).life.settled <==>
            c.nudging.awaiting && (e.TimerFires? || !e.ok) && c.nudging.failures + 1 >= c.config.maxAttempts)
  {
    QuietAtStartup(s, e);
    var c := s.channels[e.channel];
    assert Trying(c);
    match e {
      case TimerFires(_, handle, now) => TimerMeans(c, handle, false, now);
      case NudgeReturns(_, ok, now) => NudgeEndMeans(c, ok, false, now);
    }
    hide OnTimer, NudgeEnds, ClearAll, Counting;
  }

  /** The step reads a later expiry than the channel last saw. */
  predicate Refreshes(configs: seq<Config>, states: seq<State>, events: seq<Event>, m: nat, c: nat)
    requires m < |events| && |states| == |events| + 1 && c < |configs|
  {
    var seen := AttemptsAt(configs, states, events, m, c).seen;
    && HasInput(events[m]) && Credential(c) in Reading(states[m], states[m + 1])
    && c < |events[m].input.files| && events[m].input.files[c].creds.Some?
    && seen.Some? && events[m].input.files[c].creds.value.expiresAt > seen.value
  }

  /** The step is a failure signal: an awaited outcome is overdue, or its nudge fails. */
  predicate FailsAt(configs: seq<Config>, states: seq<State>, events: seq<Event>, m: nat, c: nat)
    requires m < |events| && |states| == |events| + 1 && c < |configs|
  {
    && !states[m].life.settled && AttemptsAt(configs, states, events, m, c).awaiting
    && ((events[m].TimerFires? && events[m].channel == c) || (events[m].NudgeReturns? && events[m].channel == c && !events[m].ok))
  }

  /** How many of the steps from `k` to `n` are failure signals. */
  function Failures(configs: seq<Config>, states: seq<State>, events: seq<Event>, k: nat, n: nat, c: nat): nat
    requires k <= n <= |events| && |states| == |events| + 1 && c < |configs|
    decreases n
  {
    if n == k then 0
    else Failures(configs, states, events, k, n - 1, c) + (if FailsAt(configs, states, events, n - 1, c) then 1 else 0)
  }

  /** The failures counted are the signals since the last refresh. */
  lemma {:induction false} FailuresSinceRefresh(mcp: bool, configs: seq<Config>, states: seq<State>, events: seq<Event>, n: nat, c: nat)
    returns (k: nat)
    requires History(mcp, configs, states, events) && n < |states| && c < |configs|
    ensures k <= n && AttemptsAt(configs, states, events, n, c).failures == Failures(configs, states, events, k, n, c)
    ensures forall m :: k <= m < n ==> !Refreshes(configs, states, events, m, c)
  {
    hide Enabled, Step, Initial;
    k := 0;
    if n > 0 {
      k := FailuresSinceRefresh(mcp, configs, states, events, n - 1, c);
      if Refreshes(configs, states, events, n - 1, c) {
        NotStarting(mcp, configs, states, events, n - 1, c);
        k := n;
      } else if events[n - 1].Resumes? && Credential(c) in Reading(states[n - 1], states[n]) {
        NotStarting(mcp, configs, states, events, n - 1, c);
      }
    }
  }

  /** What the startup reads is not in the log. */
  lemma NotStarting(mcp: bool, configs: seq<Config>, states: seq<State>, events: seq<Event>, n: nat, c: nat)
    requires History(mcp, configs, states, events) && n < |events| && Credential(c) in Reading(states[n], states[n + 1])
    ensures events[n].Resumes? ==> events[n].task >= |states[n].tasks| || !states[n].tasks[events[n].task].Starting?
  {
    if events[n].Resumes? && events[n].task < |states[n].tasks| && states[n].tasks[events[n].task].Starting? {
      NothingRead(states[n].(tasks := Without(states[n].tasks, events[n].task)), events[n].input);
    }
  }

  /**
   * When a channel gives up, exactly `maxAttempts` failure signals lie behind it, with no read of a
   * later expiry among them.
   */
  lemma NoRefreshBeforeGivingUp(mcp: bool, configs: seq<Config>, states: seq<State>, events: seq<Event>, n: nat, c: nat)
    returns (k: nat)
    requires History(mcp, configs, states, events) && n < |events| && c < |configs|
    requires !states[n].life.settled && states[n + 1].life.settled
    requires (events[n].TimerFires? && events[n].channel == c) || (events[n].NudgeReturns? && events[n].channel == c)
    ensures k <= n && Failures(configs, states, events, k, n + 1, c) == configs[c].maxAttempts
    ensures forall m :: k <= m <= n ==> !Refreshes(configs, states, events, m, c)
  {
    hide Enabled, Step, Initial, AttemptsAt;
    GivesUpExactly(mcp, configs, states, events, n, c);
    k := FailuresSinceRefresh(mcp, configs, states, events, n, c);
    assert !Refreshes(configs, states, events, n, c);
  }

  /**
   * A read without a swap sets the timer of each channel read: the deadline of the nudge awaited, or
   * the refresh window before the expiry just read, never before now; none when refreshing is off.
   */
  lemma ReadSetsTimer(mcp: bool, configs: seq<Config>, states: seq<State>, events: seq<Event>, n: nat, c: nat)
    requires History(mcp, configs, states, events) && n < |events| && events[n].FileChanged?
    requires Credential(c) in Reading(states[n], states[n + 1]) && c < |events[n].input.files| && events[n].input.files[c].creds.Some?
    requires !states[n + 1].life.settled && states[n + 1].tasks == []
    ensures c < |states[n + 1].channels|
    ensures TimedBy(states[n + 1].channels[c], events[n].input.files[c].creds.value, events[n].input.now)
  {
    RunIsSafe(mcp, configs, states, events, n);
    SafeParts(states[n]);
    hide Safe, Counting, TimedBy, Head;
    var s, source, input := states[n], events[n].source, events[n].input;
    HeadTimes(s.(work := Mark(s.work, source).(restarting := true)), input, c);
  }
}
