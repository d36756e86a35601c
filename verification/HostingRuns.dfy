// The hosting loop over whole runs: what is committed, what is read, how it ends, and the
// invariants of HostingTheorems as statements about every reachable state.
module HostingRuns {
  import opened Collections
  import opened CredentialChannels
  import opened Gateways
  import opened HostingLoop
  import opened HostingTheorems

  // --- The exit code -----------------------------------------------------------------------------------

  /** The promise resolves once, after one teardown; a stop signal heeded has settled the loop. */
  ghost predicate Exits(s: State) {
    && (s.life.stopSignalSeen ==> s.life.settled)
    && if s.life.settled then |s.life.teardowns| + |s.life.exits| == 1 else s.life.teardowns == [] && s.life.exits == []
  }

  function CodeOf(e: Event): int {
    if e.StopSignal? then 0 else 1
  }

  /** A stretch of code settles the loop at most once, with code 1, and resolves nothing. */
  ghost predicate EndsAs(s: State, after: State) {
    && after.life.exits == s.life.exits && after.life.stopSignalSeen == s.life.stopSignalSeen
    && after.life.teardowns == (if after.life.settled && !s.life.settled then s.life.teardowns + [1] else s.life.teardowns)
    && (s.life.settled ==> after.life.settled)
  }

  lemma HeadEnds(s: State, input: Input)
    requires |input.files| == |s.channels|
    ensures EndsAs(s, Head(s, input))
  {
    hide PrepareEach, ArmEach, ClearAll;
  }

  lemma TailEnds(s: State, pass: Pass, input: Input)
    requires |input.files| == |s.channels|
    ensures EndsAs(s, Tail(s, pass, input))
  {
    hide Head, ArmEach;
    HeadEnds(Rearmed(s, pass, input), input);
  }

  lemma ActivateEnds(s: State, ports: Ports, input: Input)
    requires |input.files| == |s.channels|
    ensures EndsAs(s, Activate(s, ports, input))
  {
    hide Head, CommitAll, ArmAll;
    var serving := s.(
      active := Active(Blue, Some(ports)),
      gateway := SetTarget(s.gateway, ports.Front()),
      effects := s.effects + [ReportedReady(Blue, ports)],
      channels := ArmAll(CommitAll(s.channels), input.now),
      work := s.work.(restarting := true));
    HeadEnds(serving, input);
  }

  lemma BootEnds(s: State, task: Task, outcome: Outcome, input: Input)
    requires |input.files| == |s.channels| && Fits(s, task, outcome) && Booting(task)
    ensures EndsAs(s, Resume(s, task, outcome, input))
  {
    hide Start, StartPolicy, Tail, Activate, ClearAll, CommitEach, Secrets;
    match task
    case Starting => StartEnds(s, input);
    case AllocatingMcp => StartEnds(s, input);
    case WaitingFirst(ports) => ActivateEnds(s, ports, input);
    case _ =>
  }

  lemma StartEnds(s: State, input: Input)
    requires |input.files| == |s.channels|
    ensures EndsAs(s, StartPolicy(s, input)) && EndsAs(s, Start(s, input))
  {
    hide ClearAll, StartEach;
  }

  lemma ResumeEnds(s: State, task: Task, outcome: Outcome, input: Input)
    requires |input.files| == |s.channels| && Fits(s, task, outcome)
    ensures EndsAs(s, Resume(s, task, outcome, input))
  {
    hide Tail, Start, StartPolicy, Activate, ClearAll, StartEach, CommitEach, Secrets;
    match task
    case BringingUp(pass, _) => TailEnds(Did(s, FailedToStart(pass.idle)), pass, input);
    case StoppingIdle(pass) => TailEnds(s, pass, input);
    case StoppingOld(pass) => TailEnds(s, pass, input);
    case _ =>
      if Booting(task) { BootEnds(s, task, outcome, input); }
  }

  /** The end of a pass, before the next round. */
  function Rearmed(s: State, pass: Pass, input: Input): State {
    if s.life.settled then s else s.(channels := ArmEach(s.channels, pass.readable, input.now))
  }

  /** The first event that settles the loop decides its exit code; nothing later changes it. */
  lemma StepEnds(s: State, e: Event)
    requires Exits(s) && Enabled(s, e)
    ensures var after := Step(s, e);
      && Exits(after)
      && (s.life.settled ==> after.life.settled && after.life.teardowns + after.life.exits == s.life.teardowns + s.life.exits)
      && (after.life.settled && !s.life.settled ==> after.life.teardowns + after.life.exits == [CodeOf(e)])
      && after.life.exits == (if e.TornDown? then s.life.exits + s.life.teardowns else s.life.exits)
  {
    hide Head, Resume, OnTimer, NudgeEnds, ClearAll;
    match e
    case Resumes(i, outcome, input) => ResumeEnds(s.(tasks := Without(s.tasks, i)), s.tasks[i], outcome, input);
    case FileChanged(source, input) =>
      if !s.life.settled && !s.work.restarting {
        HeadEnds(s.(work := Mark(s.work, source).(restarting := true)), input);
      }
    case _ =>
  }

  // --- What is committed ---------------------------------------------------------------------------------

  /** The secrets the color's container was last started with. */
  function Loaded(effects: seq<Effect>, color: Color): Option<seq<Option<Credentials>>> {
    if effects == [] then None
    else
      var last := effects[|effects| - 1];
      if last.BringUp? && last.color == color then Some(last.secrets) else Loaded(effects[..|effects| - 1], color)
  }

  lemma LoadedSnoc(effects: seq<Effect>, effect: Effect, color: Color)
    ensures Loaded(effects + [effect], color) ==
            if effect.BringUp? && effect.color == color then Some(effect.secrets) else Loaded(effects, color)
  {
    assert (effects + [effect])[..|effects|] == effects;
  }

  /** What the channel will commit is what its secret file holds. */
  predicate PendingIsSecret(t: Tokens) {
    && t.secret.Some? && t.pendingToken == Some(t.secret.value.accessToken)
    && t.pendingAccount == t.secret.value.accountId
  }

  ghost predicate AllPending(channels: seq<Channel>) {
    forall i :: 0 <= i < |channels| ==> PendingIsSecret(channels[i].tokens)
  }

  ghost predicate AppliedPending(channels: seq<Channel>, applied: set<nat>) {
    forall i :: i in applied ==> i < |channels| && PendingIsSecret(channels[i].tokens)
  }

  ghost predicate LoadedNow(s: State, color: Color) {
    Loaded(s.effects, color) == Some(Secrets(s.channels))
  }

  /** A container being brought up started with the secrets that are about to be committed. */
  ghost predicate Loading(s: State) {
    s.tasks != [] ==>
      var t := s.tasks[0];
      && (Booting(t) && !t.Starting? ==> AllPending(s.channels))
      && (t.StartingFirst? || t.WaitingFirst? ==> LoadedNow(s, Blue))
      && (InPass(t) && BeforeFlip(t) ==> AppliedPending(s.channels, t.pass.applied))
      && (HasPorts(t) ==> LoadedNow(s, t.pass.idle))
  }

  ghost predicate SameTokens(a: seq<Channel>, b: seq<Channel>) {
    |a| == |b| && forall i :: 0 <= i < |a| ==> a[i].tokens == b[i].tokens
  }

  lemma SameTokensSame(a: seq<Channel>, b: seq<Channel>)
    requires SameTokens(a, b)
    ensures Secrets(a) == Secrets(b)
    ensures AllPending(a) ==> AllPending(b)
    ensures forall applied :: AppliedPending(a, applied) ==> AppliedPending(b, applied)
  {
    assert forall i :: 0 <= i < |a| ==> Secrets(a)[i] == Secrets(b)[i];
  }

  /** Steps that leave the tokens and the suspended call alone, and bring no color up. */
  lemma LoadingKept(s: State, after: State)
    requires Loading(s) && SameTokens(s.channels, after.channels) && after.tasks == s.tasks
    requires forall color :: Loaded(after.effects, color) == Loaded(s.effects, color)
    ensures Loading(after)
  {
    hide Loaded, Secrets, AllPending, AppliedPending, SameTokens;
    SameTokensSame(s.channels, after.channels);
  }

  lemma HeadLoading(s: State, input: Input)
    requires s.tasks == [] && KnownDirty(s) && |input.files| == |s.channels|
    ensures Loading(Head(s, input))
  {
    hide ArmEach, ClearAll;
  }

  lemma TailLoading(s: State, pass: Pass, input: Input)
    requires s.tasks == [] && KnownDirty(s) && |input.files| == |s.channels|
    ensures Loading(Tail(s, pass, input))
  {
    hide Head, Loading;
    HeadLoading(Rearmed(s, pass, input), input);
  }

  lemma BootLoading(s: State, i: nat, outcome: Outcome, input: Input)
    requires Control(s) && Loading(s) && Enabled(s, Resumes(i, outcome, input)) && Booting(s.tasks[i])
    ensures Loading(Step(s, Resumes(i, outcome, input)))
  {
    hide Head, Tail, ClearAll, ArmAll, CommitAll, Secrets, Loaded;
    var rest := s.(tasks := Without(s.tasks, i));
    assert rest.tasks == [];
    match s.tasks[i]
    case AllocatingFirst => LoadedSnoc(s.effects, BringUp(Blue, outcome.ports, Secrets(s.channels)), Blue);
    case WaitingFirst(ports) =>
      if !s.life.settled && outcome.ready {
        var serving := s.(
          tasks := [],
          active := Active(Blue, Some(ports)),
          gateway := SetTarget(s.gateway, ports.Front()),
          effects := s.effects + [ReportedReady(Blue, ports)],
          channels := ArmAll(CommitAll(s.channels), input.now),
          work := s.work.(restarting := true));
        HeadLoading(serving, input);
      }
    case _ =>
  }

  lemma PassLoading(s: State, i: nat, outcome: Outcome, input: Input)
    requires Control(s) && Loading(s) && Enabled(s, Resumes(i, outcome, input)) && InPass(s.tasks[i])
    ensures Loading(Step(s, Resumes(i, outcome, input)))
  {
    hide Head, Tail, Activate, Start, StartPolicy, Secrets, CommitEach, Loaded, AppliedPending;
    var rest := s.(tasks := Without(s.tasks, i));
    assert rest.tasks == [];
    match s.tasks[i]
    case Allocating(pass) =>
      LoadedSnoc(s.effects, BringUp(pass.idle, outcome.ports, Secrets(s.channels)), pass.idle);
    case Waiting(pass, ports) => LoadedSnoc(s.effects, ReportedReady(pass.idle, ports), pass.idle);
    case BringingUp(pass, _) => TailLoading(Did(rest, FailedToStart(pass.idle)), pass, input);
    case StoppingIdle(pass) => TailLoading(rest, pass, input);
    case StoppingOld(pass) => TailLoading(rest, pass, input);
    case _ =>
  }

  lemma StopsLoadNothing(effects: seq<Effect>)
    ensures forall color :: Loaded(effects + [Stop(Blue)] + [Stop(Green)], color) == Loaded(effects, color)
  {
    forall color ensures Loaded(effects + [Stop(Blue)] + [Stop(Green)], color) == Loaded(effects, color) {
      LoadedSnoc(effects, Stop(Blue), color);
      LoadedSnoc(effects + [Stop(Blue)], Stop(Green), color);
    }
  }

  lemma ShutdownLoading(s: State, code: int, stopColors: bool)
    requires Loading(s)
    ensures Loading(Shutdown(s, code, stopColors))
  {
    hide Loaded, Loading;
    StopsLoadNothing(s.effects);
    LoadingKept(s, Shutdown(s, code, stopColors));
  }

  lemma SignalLoading(s: State, e: Event)
    requires Loading(s) && Enabled(s, e) && (e.TimerFires? || e.NudgeReturns?)
    ensures Loading(Step(s, e))
  {
    hide Loading, Loaded, ClearAll;
    var c := s.channels[e.channel];
    var after := s.(channels := s.channels[e.channel :=
                    if e.TimerFires? then OnTimer(c, e.handle, s.life.settled, e.now)
                    else NudgeEnds(c, e.ok, s.life.settled, e.now)]);
    LoadingKept(s, after);
    ShutdownLoading(after, 1, false);
  }

  lemma StepLoading(s: State, e: Event)
    requires Control(s) && Loading(s) && Enabled(s, e)
    ensures Loading(Step(s, e))
  {
    hide Head, Resume, Loading, OnTimer, NudgeEnds, ClearAll, Loaded;
    match e
    case Resumes(i, outcome, input) =>
      if Booting(s.tasks[i]) { BootLoading(s, i, outcome, input); } else { PassLoading(s, i, outcome, input); }
    case FileChanged(source, input) =>
      if s.life.settled {
      } else if !s.work.restarting {
        HeadLoading(s.(work := Mark(s.work, source).(restarting := true)), input);
      } else {
        LoadingKept(s, s.(work := Mark(s.work, source)));
      }
    case TimerFires(_, _, _) => SignalLoading(s, e);
    case NudgeReturns(_, _, _) => SignalLoading(s, e);
    case StopSignal =>
      LoadingKept(s, s.(life := s.life.(stopSignalSeen := true)));
      ShutdownLoading(s.(life := s.life.(stopSignalSeen := true)), 0, false);
    case McpFails => ShutdownLoading(s, 1, true);
    case DrainSweeps(i) => SweepLoading(s, i);
    case _ => LoadingKept(s, Step(s, e));
  }

  lemma SweepLoading(s: State, i: nat)
    requires Control(s) && Loading(s) && Enabled(s, DrainSweeps(i))
    ensures Loading(Step(s, DrainSweeps(i)))
  {
  }

  // --- No color is left running beside the active one ----------------------------------------------------

  /** The loop last stopped the color, or could not start it, or never tried to. */
  predicate Resting(effects: seq<Effect>, color: Color) {
    effects == []
    || (if effects[|effects| - 1].color == color then effects[|effects| - 1].Stop? || effects[|effects| - 1].FailedToStart?
        else Resting(effects[..|effects| - 1], color))
  }

  lemma RestingSnoc(effects: seq<Effect>, effect: Effect, color: Color)
    ensures Resting(effects + [effect], color) <==>
            if effect.color == color then effect.Stop? || effect.FailedToStart? else Resting(effects, color)
  {
    assert (effects + [effect])[..|effects|] == effects;
  }

  /** The stretches of a pass in which both colors may run. */
  predicate Overlapping(t: Task) {
    t.BringingUp? || t.Waiting? || t.Switching? || t.Draining?
  }

  ghost predicate Lone(s: State) {
    !s.life.settled ==>
      && (s.tasks != [] && Booting(s.tasks[0]) ==> s.active.color == Blue)
      && (s.tasks == [] || !Overlapping(s.tasks[0]) ==> Resting(s.effects, Other(s.active.color)))
  }

  lemma HeadLone(s: State, input: Input)
    requires s.tasks == [] && Lone(s) && |input.files| == |s.channels|
    ensures Lone(Head(s, input))
  {
    hide Resting, PrepareEach, ArmEach, ClearAll;
  }

  lemma TailLone(s: State, pass: Pass, input: Input)
    requires s.tasks == [] && Lone(s) && |input.files| == |s.channels|
    ensures Lone(Tail(s, pass, input))
  {
    hide Head, Resting, ArmEach;
    HeadLone(Rearmed(s, pass, input), input);
  }

  lemma ActivateLone(s: State, ports: Ports, input: Input)
    requires s.tasks == [] && |input.files| == |s.channels| && Resting(s.effects, Green)
    ensures Lone(Activate(s, ports, input))
  {
    hide Head, Resting, CommitAll, ArmAll;
    RestingSnoc(s.effects, ReportedReady(Blue, ports), Green);
    var serving := s.(
      active := Active(Blue, Some(ports)),
      gateway := SetTarget(s.gateway, ports.Front()),
      effects := s.effects + [ReportedReady(Blue, ports)],
      channels := ArmAll(CommitAll(s.channels), input.now),
      work := s.work.(restarting := false));
    if serving.work.Pending() {
      HeadLone(serving.(work := serving.work.(restarting := true)), input);
    }
  }

  lemma BootLone(s: State, i: nat, outcome: Outcome, input: Input)
    requires Control(s) && Lone(s) && Enabled(s, Resumes(i, outcome, input)) && Booting(s.tasks[i])
    ensures Lone(Step(s, Resumes(i, outcome, input)))
  {
    hide Head, Tail, Activate, StartEach, Secrets, ClearAll, Resting;
    var rest := s.(tasks := Without(s.tasks, i));
    assert rest.tasks == [];
    match s.tasks[i]
    case AllocatingFirst => RestingSnoc(s.effects, BringUp(Blue, outcome.ports, Secrets(s.channels)), Green);
    case WaitingFirst(ports) =>
      if !s.life.settled { ActivateLone(rest, ports, input); }
    case _ =>
  }

  lemma PassLone(s: State, i: nat, outcome: Outcome, input: Input)
    requires Control(s) && Serving(s) && Lone(s) && Enabled(s, Resumes(i, outcome, input)) && InPass(s.tasks[i])
    ensures Lone(Step(s, Resumes(i, outcome, input)))
  {
    hide Head, Tail, Activate, Start, StartPolicy, Secrets, CommitEach, Resting, Serves;
    var rest := s.(tasks := Without(s.tasks, i));
    assert rest.tasks == [];
    match s.tasks[i]
    case BringingUp(pass, _) =>
      if !s.life.settled { RestingSnoc(s.effects, FailedToStart(pass.idle), pass.idle); }
      TailLone(Did(rest, FailedToStart(pass.idle)), pass, input);
    case Waiting(pass, _) => RestingSnoc(s.effects, Stop(pass.idle), pass.idle);
    case Draining(pass, _) => RestingSnoc(s.effects, Stop(pass.oldColor), pass.oldColor);
    case StoppingIdle(pass) => TailLone(rest, pass, input);
    case StoppingOld(pass) => TailLone(rest, pass, input);
    case _ =>
  }

  lemma StepLone(s: State, e: Event)
    requires Control(s) && Serving(s) && Lone(s) && Enabled(s, e)
    ensures Lone(Step(s, e))
  {
    hide Head, Resume, Serves, Resting, OnTimer, NudgeEnds, ClearAll;
    match e
    case Resumes(i, outcome, input) =>
      if Booting(s.tasks[i]) { BootLone(s, i, outcome, input); } else { PassLone(s, i, outcome, input); }
    case FileChanged(source, input) =>
      if !s.life.settled && !s.work.restarting {
        HeadLone(s.(work := Mark(s.work, source).(restarting := true)), input);
      }
    case _ =>
  }

  // --- Every reachable state ---------------------------------------------------------------------------

  ghost predicate Safe(s: State) {
    Control(s) && Counting(s) && Serving(s) && Connected(s) && Loading(s) && Lone(s) && Exits(s)
  }

  /** A run of the loop from its start, every channel allowed at least one attempt. */
  ghost predicate History(mcp: bool, configs: seq<Config>, states: seq<State>, events: seq<Event>) {
    && Run(states, events) && states[0] == Initial(mcp, configs)
    && forall i :: 0 <= i < |configs| ==> configs[i].maxAttempts >= 1
  }

  lemma StepIsSafe(s: State, e: Event)
    requires Safe(s) && Enabled(s, e)
    ensures Safe(Step(s, e))
  {
    StepControl(s, e);
    StepCounting(s, e);
    StepServing(s, e);
    StepConnected(s, e);
    StepLoading(s, e);
    StepLone(s, e);
    StepEnds(s, e);
  }

  lemma {:induction false} RunIsSafe(mcp: bool, configs: seq<Config>, states: seq<State>, events: seq<Event>, n: nat)
    requires History(mcp, configs, states, events) && n < |states|
    ensures Safe(states[n])
  {
    hide Safe, Step, Enabled;
    if n == 0 {
      InitialIsSafe(mcp, configs);
    } else {
      RunIsSafe(mcp, configs, states, events, n - 1);
      StepIsSafe(states[n - 1], events[n - 1]);
    }
  }

  lemma InitialIsSafe(mcp: bool, configs: seq<Config>)
    requires forall i :: 0 <= i < |configs| ==> configs[i].maxAttempts >= 1
    ensures Safe(Initial(mcp, configs))
  {
  }

  // --- The main theorems -------------------------------------------------------------------------------

  /**
   * Blue-green safety: until the loop settles, once started, new clients go to the ports of the
   * active color, which reported ready on them and was neither recreated nor stopped since.
   */
  lemma ServesUntilSettled(mcp: bool, configs: seq<Config>, states: seq<State>, events: seq<Event>, n: nat, isHttps: bool)
    requires History(mcp, configs, states, events) && n < |states|
    requires !states[n].life.settled && states[n].active.ports.Some?
    ensures var s := states[n];
      var ports := s.active.ports.value;
      && Serves(s.effects, s.active.color, ports)
      && Step(s, ClientArrives(isHttps)).gateway.conns ==
         s.gateway.conns[s.gateway.nextConn := if isHttps then ports.https else ports.http]
  {
    hide Control, Counting, Connected, Loading, Exits;
    RunIsSafe(mcp, configs, states, events, n);
  }

  lemma HeadTouchesNothing(s: State, input: Input)
    requires |input.files| == |s.channels|
    ensures Head(s, input).effects == s.effects && SameApplied(s.channels, Head(s, input).channels)
  {
    hide ArmEach, PrepareEach, ClearAll;
    ClearAllCommitsNothing(s.channels);
    PrepareCommitsNothing(s.channels, s.work.dirty, input.files);
    var prepared := PrepareEach(s.channels, s.work.dirty, input.files);
    ArmCommitsNothing(prepared, Readable(s.work.dirty, input.files), input.now);
  }

  lemma ClearAllCommitsNothing(channels: seq<Channel>)
    ensures SameApplied(channels, ClearAll(channels))
  {
  }

  lemma ArmCommitsNothing(channels: seq<Channel>, which: set<nat>, now: int)
    ensures SameApplied(channels, ArmEach(channels, which, now))
  {
  }

  lemma StartCommitsNothing(channels: seq<Channel>, files: seq<Read>)
    requires |files| == |channels|
    ensures SameApplied(channels, StartEach(channels, files))
  {
  }

  lemma PrepareCommitsNothing(channels: seq<Channel>, which: set<nat>, files: seq<Read>)
    requires |files| == |channels|
    ensures SameApplied(channels, PrepareEach(channels, which, files))
  {
  }

  /** What the proxy was last restarted with, channel by channel. */
  ghost predicate SameApplied(a: seq<Channel>, b: seq<Channel>) {
    && |a| == |b|
    && forall i :: 0 <= i < |a| ==>
         a[i].tokens.appliedToken == b[i].tokens.appliedToken && a[i].tokens.appliedAccount == b[i].tokens.appliedAccount
  }

  /** Until the loop settles, a pass only brings up, reports and stops the color that does not serve. */
  lemma ResumeTouchesOther(s: State, i: nat, outcome: Outcome, input: Input)
    requires Safe(s) && Enabled(s, Resumes(i, outcome, input)) && !s.life.settled && InPass(s.tasks[i])
    ensures var after := Step(s, Resumes(i, outcome, input)).effects;
      after == s.effects
      || (|after| == |s.effects| + 1 && after[..|s.effects|] == s.effects && after[|s.effects|].color == Other(s.active.color))
  {
    hide Head, Connected, Counting, Loading, Exits, Serves, Start, StartPolicy, Activate, Secrets, CommitEach, ArmEach;
    var rest := s.(tasks := Without(s.tasks, i));
    match s.tasks[i]
    case BringingUp(pass, _) => HeadTouchesNothing(Rearmed(Did(rest, FailedToStart(pass.idle)), pass, input), input);
    case StoppingIdle(pass) => HeadTouchesNothing(Rearmed(rest, pass, input), input);
    case StoppingOld(pass) => HeadTouchesNothing(Rearmed(rest, pass, input), input);
    case _ =>
  }

  /**
   * The old color is stopped with no connection left on it, unless the drain was aborted by the end
   * of the loop; nothing new reaches it, since the gateway no longer targets its ports.
   */
  lemma StopLeavesNone(s: State, i: nat, input: Input)
    requires Safe(s) && Enabled(s, Resumes(i, Done, input)) && s.tasks[i].Draining? && !s.life.settled
    ensures var retired := s.tasks[i].pass.oldPorts.Front();
      && NoneOn(s.gateway, retired) && Retired(s.gateway, retired)
      && Step(s, Resumes(i, Done, input)).effects == s.effects + [Stop(Other(s.active.color))]
  {
    hide Counting, Loading, Exits, Serves, Head;
    var pass := s.tasks[i].pass;
    assert OnOtherColor(s, s.tasks[i]);
    forall c | c in s.gateway.conns ensures !pass.oldPorts.Front().Has(s.gateway.conns[c]) {
      assert s.active.ports.value.Front().Has(s.gateway.conns[c]);
    }
  }

  /** At the flip, each committed token is the one the new color's container started with. */
  lemma FlipCommitsLoaded(s: State, i: nat, input: Input)
    requires Safe(s) && Enabled(s, Resumes(i, Done, input)) && s.tasks[i].Switching?
    ensures var after := Step(s, Resumes(i, Done, input));
      && Loaded(after.effects, after.active.color).Some?
      && var secrets := Loaded(after.effects, after.active.color).value;
      && |secrets| == |after.channels|
      && (forall c :: c in s.tasks[i].pass.applied ==>
            && c < |secrets| && secrets[c].Some?
            && after.channels[c].tokens.appliedToken == Some(secrets[c].value.accessToken)
            && after.channels[c].tokens.appliedAccount == secrets[c].value.accountId)
      && (forall c :: 0 <= c < |after.channels| && c !in s.tasks[i].pass.applied ==>
            after.channels[c].tokens == s.channels[c].tokens)
  {
    hide Head, Counting, Connected, Exits, Serves, Loaded;
  }

  /** The steps at which tokens are committed: the first color serves, or a pass flips. */
  predicate IsFlip(s: State, e: Event) {
    e.Resumes? && e.task < |s.tasks| && (s.tasks[e.task].Switching? || s.tasks[e.task].WaitingFirst?)
  }

  lemma ResumeCommitsNothing(s: State, i: nat, outcome: Outcome, input: Input)
    requires Enabled(s, Resumes(i, outcome, input)) && !IsFlip(s, Resumes(i, outcome, input))
    ensures SameApplied(s.channels, Step(s, Resumes(i, outcome, input)).channels)
  {
    hide Head, Tail, ClearAll, Activate, Secrets, StartEach, CommitEach;
    ClearAllCommitsNothing(s.channels);
    var rest := s.(tasks := Without(s.tasks, i));
    match s.tasks[i]
    case Starting =>
      StartCommitsNothing(s.channels, input.files);
      ClearAllCommitsNothing(StartEach(s.channels, input.files));
    case BringingUp(pass, _) => TailCommitsNothing(Did(rest, FailedToStart(pass.idle)), pass, input);
    case StoppingIdle(pass) => TailCommitsNothing(rest, pass, input);
    case StoppingOld(pass) => TailCommitsNothing(rest, pass, input);
    case _ =>
  }

  lemma OnlyFlipsCommit(s: State, e: Event)
    requires Enabled(s, e) && !IsFlip(s, e)
    ensures SameApplied(s.channels, Step(s, e).channels)
  {
    hide Head, Resume, OnTimer, NudgeEnds, ClearAll;
    ClearAllCommitsNothing(s.channels);
    match e
    case Resumes(i, outcome, input) => ResumeCommitsNothing(s, i, outcome, input);
    case FileChanged(source, input) =>
      HeadTouchesNothing(s.(work := Mark(s.work, source).(restarting := true)), input);
    case TimerFires(i, handle, now) =>
      TimerKeepsTokens(s.channels[i], handle, s.life.settled, now);
      ClearAllCommitsNothing(s.channels[i := OnTimer(s.channels[i], handle, s.life.settled, now)]);
    case NudgeReturns(i, ok, now) =>
      NudgeKeepsTokens(s.channels[i], ok, s.life.settled, now);
      ClearAllCommitsNothing(s.channels[i := NudgeEnds(s.channels[i], ok, s.life.settled, now)]);
    case _ =>
  }

  lemma TailCommitsNothing(s: State, pass: Pass, input: Input)
    requires |input.files| == |s.channels|
    ensures SameApplied(s.channels, Tail(s, pass, input).channels)
  {
    hide Head;
    HeadTouchesNothing(Rearmed(s, pass, input), input);
  }

  ghost predicate NoFlip(states: seq<State>, events: seq<Event>, k: nat, n: nat)
    requires Run(states, events) && n < |states|
  {
    forall m :: k <= m < n ==> !IsFlip(states[m], events[m])
  }

  lemma {:induction false} AppliedUntilFlip(states: seq<State>, events: seq<Event>, k: nat, n: nat)
    requires Run(states, events) && k <= n < |states| && NoFlip(states, events, k, n)
    ensures SameApplied(states[k].channels, states[n].channels)
  {
    hide Step, Enabled, IsFlip;
    if k < n {
      AppliedUntilFlip(states, events, k, n - 1);
      OnlyFlipsCommit(states[n - 1], events[n - 1]);
    }
  }

  /** A swap that fails commits nothing: until some later flip, the same credentials ask again. */
  lemma FailedSwapAsksAgain(states: seq<State>, events: seq<Event>, k: nat, n: nat, i: nat, read: Read, again: Read)
    requires Run(states, events) && k <= n < |states| && NoFlip(states, events, k, n)
    requires i < |states[k].channels| && PrepareResult(states[k].channels[i], read).restartNeeded
    requires again.creds == read.creds
    ensures |states[n].channels| == |states[k].channels|
    ensures PrepareResult(states[n].channels[i], again).restartNeeded
  {
    AppliedUntilFlip(states, events, k, n);
    AsksAgain(states[k].channels[i], read, states[n].channels[i], again);
  }

  // --- No update is lost ---------------------------------------------------------------------------------

  lemma {:induction false} DirtySourcesHas(dirty: set<nat>, n: nat, i: nat)
    ensures Credential(i) in DirtySources(dirty, n) <==> i in dirty && i < n
  {
    if n > 0 { DirtySourcesHas(dirty, n - 1, i); }
  }

  /** The change is still to be read, or has been read since `from`, or the loop is ending. */
  predicate Answered(s: State, source: Source, from: nat) {
    s.life.settled || s.work.Has(source) || (from <= |s.readLog| && source in s.readLog[from..])
  }

  lemma HeadAnswers(s: State, input: Input, source: Source, from: nat)
    requires KnownDirty(s) && |input.files| == |s.channels| && from <= |s.readLog| && Answered(s, source, from)
    ensures Answered(Head(s, input), source, from) && |s.readLog| <= |Head(s, input).readLog|
  {
    hide ArmEach, PrepareEach, ClearAll, DirtySources;
    if source.Credential? { DirtySourcesHas(s.work.dirty, |s.channels|, source.channel); }
    assert !s.life.settled && s.work.Has(source) ==> source in Sources(s.work, |s.channels|);
    ReadSince(s.readLog, Sources(s.work, |s.channels|), from, source);
    ReadSince(s.readLog, [Policy], from, source);
  }

  lemma ReadSince(log: seq<Source>, more: seq<Source>, from: nat, source: Source)
    requires from <= |log|
    ensures source in (log + more)[from..] <==> source in log[from..] || source in more
  {
    assert (log + more)[from..] == log[from..] + more;
  }

  lemma TailAnswers(s: State, pass: Pass, input: Input, source: Source, from: nat)
    requires KnownDirty(s) && |input.files| == |s.channels| && from <= |s.readLog| && Answered(s, source, from)
    ensures Answered(Tail(s, pass, input), source, from) && |s.readLog| <= |Tail(s, pass, input).readLog|
  {
    hide Head;
    HeadAnswers(Rearmed(s, pass, input), input, source, from);
  }

  lemma ActivateAnswers(s: State, ports: Ports, input: Input, source: Source, from: nat)
    requires KnownDirty(s) && |input.files| == |s.channels| && from <= |s.readLog| && Answered(s, source, from)
    ensures Answered(Activate(s, ports, input), source, from) && |s.readLog| <= |Activate(s, ports, input).readLog|
  {
    hide Head, ArmAll, CommitAll;
    var serving := s.(
      active := Active(Blue, Some(ports)),
      gateway := SetTarget(s.gateway, ports.Front()),
      effects := s.effects + [ReportedReady(Blue, ports)],
      channels := ArmAll(CommitAll(s.channels), input.now),
      work := s.work.(restarting := true));
    HeadAnswers(serving, input, source, from);
  }

  lemma ResumeAnswers(s: State, i: nat, outcome: Outcome, input: Input, source: Source, from: nat)
    requires Control(s) && Enabled(s, Resumes(i, outcome, input)) && from <= |s.readLog| && Answered(s, source, from)
    ensures var after := Step(s, Resumes(i, outcome, input));
      Answered(after, source, from) && |s.readLog| <= |after.readLog|
  {
    hide Head, Tail, Activate, ClearAll, StartEach, CommitEach, Secrets, SetTarget;
    var rest := s.(tasks := Without(s.tasks, i));
    assert KnownDirty(rest);
    match s.tasks[i]
    case WaitingFirst(ports) => ActivateAnswers(rest, ports, input, source, from);
    case BringingUp(pass, _) => TailAnswers(Did(rest, FailedToStart(pass.idle)), pass, input, source, from);
    case StoppingIdle(pass) => TailAnswers(rest, pass, input, source, from);
    case StoppingOld(pass) => TailAnswers(rest, pass, input, source, from);
    case _ =>
  }

  lemma StepAnswers(s: State, e: Event, source: Source, from: nat)
    requires Control(s) && Enabled(s, e) && from <= |s.readLog|
    requires Answered(s, source, from) || (e.FileChanged? && e.source == source)
    ensures Answered(Step(s, e), source, from) && |s.readLog| <= |Step(s, e).readLog|
  {
    hide Head, Resume, OnTimer, NudgeEnds, ClearAll;
    match e
    case Resumes(i, outcome, input) => ResumeAnswers(s, i, outcome, input, source, from);
    case FileChanged(_, input) =>
      if !s.life.settled && !s.work.restarting {
        HeadAnswers(s.(work := Mark(s.work, e.source).(restarting := true)), input, source, from);
      }
    case _ =>
  }

  lemma {:induction false} ChangeIsAnswered(mcp: bool, configs: seq<Config>, states: seq<State>, events: seq<Event>, k: nat, n: nat)
    requires History(mcp, configs, states, events) && k < n < |states| && events[k].FileChanged?
    ensures |states[k].readLog| <= |states[n].readLog|
    ensures Answered(states[n], events[k].source, |states[k].readLog|)
  {
    hide Safe, Step, Enabled, Answered;
    RunIsSafe(mcp, configs, states, events, n - 1);
    SafeParts(states[n - 1]);
    if n > k + 1 { ChangeIsAnswered(mcp, configs, states, events, k, n - 1); }
    StepAnswers(states[n - 1], events[n - 1], events[k].source, |states[k].readLog|);
  }

  lemma SafeParts(s: State)
    requires Safe(s)
    ensures Control(s) && Counting(s) && Lone(s) && Exits(s)
  {
  }

  /**
   * Single flight and no lost update: at most one call is suspended, and when a loop that has not
   * settled is idle, every change of a watched file has been followed by a read of that file.
   */
  lemma NoUpdateIsLost(mcp: bool, configs: seq<Config>, states: seq<State>, events: seq<Event>, k: nat, n: nat)
    requires History(mcp, configs, states, events) && k < n < |states| && events[k].FileChanged?
    ensures |states[n].tasks| <= 1
    ensures !states[n].life.settled && states[n].tasks == [] ==>
              && |states[k].readLog| <= |states[n].readLog|
              && events[k].source in states[n].readLog[|states[k].readLog|..]
  {
    RunIsSafe(mcp, configs, states, events, n);
    SafeParts(states[n]);
    hide Safe, Enabled, Step;
    ChangeIsAnswered(mcp, configs, states, events, k, n);
  }

  // --- Timers, attempts and the end ------------------------------------------------------------------------

  /**
   * A channel has at most one armed timer, none once the loop has settled, and exactly one while a
   * started loop refreshes it.
   */
  lemma TimersAreSingle(mcp: bool, configs: seq<Config>, states: seq<State>, events: seq<Event>, n: nat, i: nat)
    requires History(mcp, configs, states, events) && n < |states| && i < |states[n].channels|
    ensures var s := states[n];
      var armed := s.channels[i].nudging.armed;
      && |armed| <= 1
      && (s.life.settled ==> |armed| == 0)
      && (!s.life.settled && s.active.ports.Some? && s.channels[i].config.refreshEnabled ==> |armed| == 1)
  {
    RunIsSafe(mcp, configs, states, events, n);
    var s := states[n];
    SafeParts(s);
    hide Safe, Step, Enabled;
    var c := s.channels[i];
    assert OneTimer(c);
    if c.nudging.armed.Keys != {} {
      assert c.nudging.armed.Keys == {c.nudging.timer.value};
      assert |c.nudging.armed| == |c.nudging.armed.Keys|;
    }
  }

  /**
   * A channel that reports exhaustion does so once, as the last thing it does, at exactly
   * `maxAttempts` failure signals since the last observed advance; the loop has then settled, and no
   * other channel reports it.
   */
  lemma ExhaustionOnce(mcp: bool, configs: seq<Config>, states: seq<State>, events: seq<Event>, n: nat, i: nat, k: nat)
    requires History(mcp, configs, states, events) && n < |states| && i < |states[n].channels|
    requires k < |states[n].channels[i].nudging.history| && states[n].channels[i].nudging.history[k] == Exhausted
    ensures var s := states[n];
      var c := s.channels[i];
      && s.life.settled
      && k == |c.nudging.history| - 1
      && Signals(c.nudging.history[..k]) == c.config.maxAttempts
      && (forall j :: 0 <= j < |s.channels| && j != i ==> Exhausted !in s.channels[j].nudging.history)
  {
    RunIsSafe(mcp, configs, states, events, n);
    var s := states[n];
    SafeParts(s);
    hide Safe, Step, Enabled, OneTimer, Watched;
    var c := s.channels[i];
    assert HasGivenUp(c);
    var earlier := c.nudging.history[..|c.nudging.history| - 1];
    forall m | 0 <= m < |earlier| ensures c.nudging.history[m] != Exhausted { assert earlier[m] in earlier; }
  }

  /** The loop resolves at most once, when its teardown ends, with the code of the first event that settled it. */
  lemma {:induction false} ExitCodeIsTheFirst(mcp: bool, configs: seq<Config>, states: seq<State>, events: seq<Event>, k: nat, n: nat)
    requires History(mcp, configs, states, events) && k < n < |states|
    requires !states[k].life.settled && states[k + 1].life.settled
    ensures states[n].life.settled
    ensures states[n].life.exits == [] || states[n].life.exits == [CodeOf(events[k])]
    ensures states[n].life.teardowns + states[n].life.exits == [CodeOf(events[k])]
    ensures states[n].life.exits != [] <==> exists j :: k < j < n && events[j].TornDown?
  {
    hide Safe, Step, Enabled;
    RunIsSafe(mcp, configs, states, events, n - 1);
    SafeParts(states[n - 1]);
    StepEnds(states[n - 1], events[n - 1]);
    if n > k + 1 { ExitCodeIsTheFirst(mcp, configs, states, events, k, n - 1); }
  }

  lemma ResumeRearms(s: State, i: nat, input: Input, c: nat)
    requires Safe(s) && Enabled(s, Resumes(i, Done, input)) && !s.life.settled && !s.work.Pending()
    requires s.tasks[i].StoppingIdle? || s.tasks[i].StoppingOld?
    requires c < |s.channels|
    ensures Live(s.channels[c])
    ensures var after := Step(s, Resumes(i, Done, input));
      && after.tasks == [] && !after.work.restarting
      && (c !in s.tasks[i].pass.readable ==> after.channels[c].nudging.armed == s.channels[c].nudging.armed)
      && (c in s.tasks[i].pass.readable && s.channels[c].config.refreshEnabled ==>
            after.channels[c].nudging.armed ==
            map[s.channels[c].nudging.nextHandle := Due(s.channels[c], s.channels[c].tokens.lastRead.value, input.now)])
  {
    hide Connected, Serving, Loading, Exits, ArmTimer;
    assert Live(s.channels[c]);
    ArmTimerIs(s.channels[c], input.now);
  }

  // --- After the end -----------------------------------------------------------------------------------

  /**
   * An MCP failure stops both colors, but a pass that was waiting for its ports then brings one up
   * again, and nothing stops it.
   */
  lemma StoppedColorComesBack(s: State, ports: Ports, ok: bool, input: Input)
    requires Safe(s) && !s.life.settled && s.life.supervised
    requires s.tasks != [] && s.tasks[0].Allocating? && |input.files| == |s.channels|
    requires Disjoint(ports, s.active.ports.value)
    ensures var failed := Step(s, McpFails);
      var pass := s.tasks[0].pass;
      && Enabled(failed, Resumes(0, Allocated(ports), input))
      && var started := Step(failed, Resumes(0, Allocated(ports), input));
      && Enabled(started, Resumes(0, Started(ok), input))
      && var ended := Step(started, Resumes(0, Started(ok), input));
      && ended.tasks == []
      && ended.effects == s.effects + [Stop(Blue)] + [Stop(Green)] + [BringUp(pass.idle, ports, Secrets(s.channels))]
  {
    hide Counting, Connected, Loading, Exits, Serves;
    var failed := Step(s, McpFails);
    SameTokensSame(s.channels, failed.channels);
    var started := Step(failed, Resumes(0, Allocated(ports), input));
    assert started.tasks == [BringingUp(s.tasks[0].pass, ports)];
    HeadTouchesNothing(Rearmed(started.(tasks := []), s.tasks[0].pass, input), input);
  }

  // --- Over whole runs -------------------------------------------------------------------------------------

  /** Until the loop settles, a pass only brings up, reports and stops the color that does not serve. */
  lemma PassTouchesOtherColor(mcp: bool, configs: seq<Config>, states: seq<State>, events: seq<Event>, n: nat)
    requires History(mcp, configs, states, events) && n < |events| && !states[n].life.settled
    requires events[n].Resumes? && InPass(states[n].tasks[events[n].task])
    ensures var before, after := states[n].effects, states[n + 1].effects;
      after == before
      || (|after| == |before| + 1 && after[..|before|] == before && after[|before|].color == Other(states[n].active.color))
  {
    RunIsSafe(mcp, configs, states, events, n);
    hide Safe, Step;
    ResumeTouchesOther(states[n], events[n].task, events[n].outcome, events[n].input);
  }

  /**
   * The old color is stopped with no connection left on it, unless the drain was aborted by the end
   * of the loop; nothing new reaches it, since the gateway no longer targets its ports.
   */
  lemma OldColorStopsEmpty(mcp: bool, configs: seq<Config>, states: seq<State>, events: seq<Event>, n: nat)
    requires History(mcp, configs, states, events) && n < |events| && !states[n].life.settled
    requires events[n].Resumes? && states[n].tasks[events[n].task].Draining?
    ensures var s, retired := states[n], states[n].tasks[events[n].task].pass.oldPorts.Front();
      && NoneOn(s.gateway, retired) && Retired(s.gateway, retired)
      && states[n + 1].effects == s.effects + [Stop(Other(s.active.color))]
  {
    RunIsSafe(mcp, configs, states, events, n);
    hide Safe, Step;
    StopLeavesNone(states[n], events[n].task, events[n].input);
  }

  /**
   * Whenever an unsettled loop is idle or about to start a swap, the color that does not serve is
   * not left running: it was last stopped, or could not be started.
   */
  lemma NoColorIsLeftRunning(mcp: bool, configs: seq<Config>, states: seq<State>, events: seq<Event>, n: nat)
    requires History(mcp, configs, states, events) && n < |states| && !states[n].life.settled
    requires states[n].tasks == [] || states[n].tasks[0].Allocating?
    ensures Resting(states[n].effects, Other(states[n].active.color))
  {
    RunIsSafe(mcp, configs, states, events, n);
    SafeParts(states[n]);
    hide Safe, Resting;
  }

  /** At the flip, each committed token is the one the new color's container started with. */
  lemma FlipCommitsWhatItLoaded(mcp: bool, configs: seq<Config>, states: seq<State>, events: seq<Event>, n: nat)
    requires History(mcp, configs, states, events) && n < |events|
    requires events[n].Resumes? && states[n].tasks[events[n].task].Switching?
    ensures var after, applied := states[n + 1], states[n].tasks[events[n].task].pass.applied;
      && Loaded(after.effects, after.active.color).Some?
      && var secrets := Loaded(after.effects, after.active.color).value;
      && |secrets| == |after.channels|
      && (forall c :: c in applied ==>
            && c < |secrets| && secrets[c].Some?
            && after.channels[c].tokens.appliedToken == Some(secrets[c].value.accessToken)
            && after.channels[c].tokens.appliedAccount == secrets[c].value.accountId)
      && |after.channels| == |states[n].channels|
      && (forall c :: 0 <= c < |after.channels| && c !in applied ==> after.channels[c].tokens == states[n].channels[c].tokens)
  {
    RunIsSafe(mcp, configs, states, events, n);
    hide Safe, Loaded;
    FlipCommitsLoaded(states[n], events[n].task, events[n].input);
  }

  /**
   * Until the next flip, a channel committed at a flip asks for another restart exactly when it
   * reads a token or an account other than the one the new color's container started with.
   */
  lemma AsksOnlyForChanges(mcp: bool, configs: seq<Config>, states: seq<State>, events: seq<Event>,
                           k: nat, n: nat, c: nat, read: Read)
    requires History(mcp, configs, states, events) && k < n < |states| && NoFlip(states, events, k + 1, n)
    requires events[k].Resumes? && states[k].tasks[events[k].task].Switching?
    requires c in states[k].tasks[events[k].task].pass.applied
    ensures var swapped := states[k + 1];
      && Loaded(swapped.effects, swapped.active.color).Some?
      && var secrets := Loaded(swapped.effects, swapped.active.color).value;
      && c < |secrets| && secrets[c].Some? && c < |states[n].channels|
      && (PrepareResult(states[n].channels[c], read).restartNeeded <==>
            read.creds.Some? && (read.creds.value.accessToken != secrets[c].value.accessToken
                                 || read.creds.value.accountId != secrets[c].value.accountId))
  {
    FlipCommitsWhatItLoaded(mcp, configs, states, events, k);
    AppliedUntilFlip(states, events, k + 1, n);
    hide Loaded, Step, Enabled, IsFlip, NoFlip;
  }

  /**
   * A pass that ends with nothing more to do has set each freshly read channel's timer by that read,
   * and left the timers of the other channels alone.
   */
  lemma PassRearms(mcp: bool, configs: seq<Config>, states: seq<State>, events: seq<Event>, n: nat, c: nat)
    requires History(mcp, configs, states, events) && n < |events| && !states[n].life.settled && !states[n].work.Pending()
    requires events[n].Resumes? && events[n].task < |states[n].tasks|
    requires states[n].tasks[events[n].task].StoppingIdle? || states[n].tasks[events[n].task].StoppingOld?
    requires c < |states[n].channels|
    ensures var before, after := states[n].channels[c], states[n + 1];
      && after.tasks == [] && !after.work.restarting && c < |after.channels|
      && before.tokens.lastRead.Some?
      && (c !in states[n].tasks[events[n].task].pass.readable ==> after.channels[c].nudging.armed == before.nudging.armed)
      && (c in states[n].tasks[events[n].task].pass.readable && before.config.refreshEnabled ==>
            after.channels[c].nudging.armed ==
            map[before.nudging.nextHandle := Due(before, before.tokens.lastRead.value, events[n].input.now)])
  {
    RunIsSafe(mcp, configs, states, events, n);
    hide Safe;
    ResumeRearms(states[n], events[n].task, events[n].input, c);
  }

  /** One more event of a run. */
  lemma Extend(states: seq<State>, events: seq<Event>, e: Event, next: State) returns (more: seq<State>, also: seq<Event>)
    requires Run(states, events) && Enabled(states[|events|], e) && next == Step(states[|events|], e)
    ensures Run(more, also) && more[0] == states[0] && |also| == |events| + 1 && more[|also|] == next
  {
    hide Step, Enabled;
    more, also := states + [next], events + [e];
    forall k | 0 <= k < |also| ensures Enabled(more[k], also[k]) && more[k + 1] == Step(more[k], also[k]) {
      if k < |events| { assert more[k] == states[k] && also[k] == events[k] && more[k + 1] == states[k + 1]; }
    }
  }

  /** A loop with an MCP server and no channels, started on blue, its policy just changed. */
  function AwaitingPorts(): State {
    var live := Ports(1, 2, 3);
    State(true, Life(false, false, true, true, [], []), Work(true, false, {}), Active(Blue, Some(live)), [],
          [Allocating(Pass(Green, Blue, live, {}, {}))], Gate(Some(live.Front()), map[], 0),
          [BringUp(Blue, live, []), ReportedReady(Blue, live)], [Policy])
  }

  function Idle(): State {
    AwaitingPorts().(tasks := [], work := Work(false, false, {}), readLog := [])
  }

  /** Read, its policy found usable, and about to allocate ports for blue. */
  function Booted(): State {
    Initial(true, []).(
      tasks := [AllocatingFirst], life := Life(false, false, true, true, [], []), work := Work(true, false, {}))
  }

  lemma Boots(input: Input) returns (states: seq<State>, events: seq<Event>)
    requires input == Input(Usable, [], 0)
    ensures History(true, [], states, events) && |events| == 2 && states[2] == Booted()
  {
    hide Run, Head, Tail, Activate, Flip, Shutdown;
    var s0 := Initial(true, []);
    states, events := [s0], [];
    assert Run(states, events) by { NothingHappened(s0); }
    var s1 := s0.(tasks := [AllocatingMcp]);
    states, events := Extend(states, events, Resumes(0, Done, input), s1);
    states, events := Extend(states, events, Resumes(0, Done, input), Booted());
  }

  lemma BootsTo(ports: Ports, input: Input) returns (states: seq<State>, events: seq<Event>)
    requires input == Input(Usable, [], 0)
    ensures History(true, [], states, events) && |events| == 4
    ensures states[4] == Booted().(tasks := [WaitingFirst(ports)], effects := [BringUp(Blue, ports, [])])
  {
    hide Run, Head, Tail, Activate, Flip, Shutdown;
    states, events := Boots(input);
    var s2 := Booted();
    var s3 := s2.(tasks := [StartingFirst(ports)], effects := [BringUp(Blue, ports, [])]);
    states, events := Extend(states, events, Resumes(0, Allocated(ports), input), s3);
    states, events := Extend(states, events, Resumes(0, Started(true), input), s3.(tasks := [WaitingFirst(ports)]));
  }

  lemma RunToAwaitingPorts() returns (states: seq<State>, events: seq<Event>)
    ensures History(true, [], states, events) && |events| == 6 && states[6] == AwaitingPorts()
  {
    hide Run;
    var input := Input(Usable, [], 0);
    states, events := BootsTo(Ports(1, 2, 3), input);
    states, events := Extend(states, events, Resumes(0, Waited(true), input), Idle());
    IdleTakesPolicy(input);
    states, events := Extend(states, events, FileChanged(Policy, input), AwaitingPorts());
  }

  lemma IdleTakesPolicy(input: Input)
    requires input == Input(Usable, [], 0)
    ensures Enabled(Idle(), FileChanged(Policy, input)) && Step(Idle(), FileChanged(Policy, input)) == AwaitingPorts()
  {
    var none: seq<Channel> := [];
    assert Applied(none, {}, []) == {} && Readable({}, []) == {} && PrepareEach(none, {}, []) == none;
    assert DirtySources({}, 0) == [];
    assert Sources(Work(true, true, {}), 0) == [Policy];
  }

  lemma NothingHappened(s: State)
    ensures Run([s], [])
  {
  }

  /** A run of the loop in which an MCP failure stops both colors and green is brought up afterwards. */
  lemma StoppedColorComesBackInARun() returns (states: seq<State>, events: seq<Event>)
    ensures History(true, [], states, events)
    ensures states[|events|].life.settled && states[|events|].tasks == []
    ensures states[|events|].effects == AwaitingPorts().effects + [Stop(Blue)] + [Stop(Green)] + [BringUp(Green, Ports(4, 5, 6), [])]
  {
    states, events := RunToAwaitingPorts();
    RunIsSafe(true, [], states, events, 6);
    var input, ports := Input(Usable, [], 0), Ports(4, 5, 6);
    StoppedColorComesBack(AwaitingPorts(), ports, true, input);
    hide Safe;
    var failed := Step(AwaitingPorts(), McpFails);
    states, events := Extend(states, events, McpFails, failed);
    var started := Step(failed, Resumes(0, Allocated(ports), input));
    states, events := Extend(states, events, Resumes(0, Allocated(ports), input), started);
    var ended := Step(started, Resumes(0, Started(true), input));
    states, events := Extend(states, events, Resumes(0, Started(true), input), ended);
  }
}
