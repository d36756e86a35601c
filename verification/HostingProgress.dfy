// Which way a start or a swap goes from each of its awaits, and what ends the loop
// (src/runHosting/runHostingLoop.ts).
module HostingProgress {
  import opened Collections
  import opened CredentialChannels
  import opened ChannelSteps
  import opened Gateways
  import opened HostingLoop
  import opened HostingTheorems
  import opened HostingRuns
  import opened HostingReads
  import opened HostingAttempts

  // --- What ends the loop ----------------------------------------------------------------------------

  /** The first color could not be started, or what it needs could not be read. */
  ghost predicate StartFails(s: State, e: Event) {
    && e.Resumes? && e.task < |s.tasks|
    && match s.tasks[e.task]
       case Starting => (exists c: nat :: c < |e.input.files| && e.input.files[c].creds.None?) || (!s.mcp && e.input.policy != Usable)
       case AllocatingMcp => e.input.policy != Usable
       case StartingFirst(_) => e.outcome == Started(false)
       case WaitingFirst(_) => e.outcome == Waited(false)
       case _ => false
  }

  /** A channel fails for the last time it may. */
  ghost predicate LastAttemptFails(s: State, e: Event) {
    && ((e.TimerFires? && e.channel < |s.channels|) || (e.NudgeReturns? && !e.ok && e.channel < |s.channels|))
    && s.channels[e.channel].nudging.awaiting
    && s.channels[e.channel].nudging.failures + 1 >= s.channels[e.channel].config.maxAttempts
  }

  ghost predicate RejectsPolicy(s: State, e: Event, after: State) {
    HasInput(e) && Policy in Reading(s, after) && e.input.policy == Rejected
  }

  lemma BootSettles(s: State, i: nat, outcome: Outcome, input: Input)
    requires Control(s) && Enabled(s, Resumes(i, outcome, input)) && !s.life.settled && Booting(s.tasks[i])
    ensures var e := Resumes(i, outcome, input);
      Step(s, e).life.settled <==> StartFails(s, e) || RejectsPolicy(s, e, Step(s, e))
  {
    hide Head, Tail, StartEach, Secrets, ClearAll, ArmAll, CommitAll, SetTarget;
    ResumeFollows(s, i, outcome, input);
    var rest := s.(tasks := Without(s.tasks, i));
    match s.tasks[i]
    case WaitingFirst(ports) =>
      if outcome.ready {
        var serving := rest.(
          active := Active(Blue, Some(ports)),
          gateway := SetTarget(s.gateway, ports.Front()),
          effects := s.effects + [ReportedReady(Blue, ports)],
          channels := ArmAll(CommitAll(s.channels), input.now),
          work := s.work.(restarting := true));
        HeadFollows(serving, input);
      }
    case _ =>
  }

  lemma PassSettles(s: State, i: nat, outcome: Outcome, input: Input)
    requires Control(s) && Enabled(s, Resumes(i, outcome, input)) && !s.life.settled && InPass(s.tasks[i])
    ensures var e := Resumes(i, outcome, input);
      Step(s, e).life.settled <==> RejectsPolicy(s, e, Step(s, e))
  {
    hide Head, Activate, Start, StartPolicy, Secrets, CommitEach, ArmEach, SetTarget;
    ResumeFollows(s, i, outcome, input);
    var rest := s.(tasks := Without(s.tasks, i));
    assert rest.tasks == [];
    match s.tasks[i]
    case BringingUp(pass, _) => HeadFollows(Rearmed(Did(rest, FailedToStart(pass.idle)), pass, input), input);
    case StoppingIdle(pass) => HeadFollows(Rearmed(rest, pass, input), input);
    case StoppingOld(pass) => HeadFollows(Rearmed(rest, pass, input), input);
    case _ =>
  }

  lemma FileSettles(s: State, source: Source, input: Input)
    requires Control(s) && Enabled(s, FileChanged(source, input)) && !s.life.settled
    ensures var e := FileChanged(source, input);
      Step(s, e).life.settled <==> RejectsPolicy(s, e, Step(s, e))
  {
    hide Head;
    if !s.work.restarting {
      HeadFollows(s.(work := Mark(s.work, source).(restarting := true)), input);
    }
  }

  /**
   * A running loop ends exactly with a stop signal, a failed MCP server, a channel's last allowed
   * failure, a rejected policy, or a start that fails.
   */
  lemma EndsExactly(mcp: bool, configs: seq<Config>, states: seq<State>, events: seq<Event>, n: nat)
    requires History(mcp, configs, states, events) && n < |events| && !states[n].life.settled
    ensures var s, e, after := states[n], events[n], states[n + 1];
      after.life.settled <==>
        e.StopSignal? || e.McpFails? || LastAttemptFails(s, e) || RejectsPolicy(s, e, after) || StartFails(s, e)
  {
    hide Safe, Step, Enabled, Initial, StartFails, LastAttemptFails, RejectsPolicy;
    RunIsSafe(mcp, configs, states, events, n);
    SafeParts(states[n]);
    StepSettles(states[n], events[n]);
  }

  lemma StepSettles(s: State, e: Event)
    requires Control(s) && Counting(s) && Exits(s) && Enabled(s, e) && !s.life.settled
    ensures Step(s, e).life.settled <==>
              e.StopSignal? || e.McpFails? || LastAttemptFails(s, e) || RejectsPolicy(s, e, Step(s, e)) || StartFails(s, e)
  {
    hide Head, Resume, OnTimer, NudgeEnds, ClearAll;
    match e
    case Resumes(i, outcome, input) =>
      if Booting(s.tasks[i]) { BootSettles(s, i, outcome, input); } else { PassSettles(s, i, outcome, input); }
    case FileChanged(source, input) => FileSettles(s, source, input);
    case TimerFires(_, _, _) => SignalSettles(s, e);
    case NudgeReturns(_, _, _) => SignalSettles(s, e);
    case _ =>
  }

  // --- Where a swap goes -----------------------------------------------------------------------------

  /**
   * From its ports a swap brings its color up with the secrets as they are; up, it waits until the
   * color is ready; ready, it switches to it, drains the old one, and stops that. A color that does
   * not start is given up, one that does not get ready is stopped. Once the loop has settled, a
   * swap before its switch ends where it is.
   */
  ghost predicate SwapGoesOn(s: State, t: Task, outcome: Outcome, after: State)
    requires InPass(t)
  {
    && (t.Allocating? && outcome.Allocated? ==>
          && |after.effects| == |s.effects| + 1 && after.effects[..|s.effects|] == s.effects
          && after.effects[|s.effects|].BringUp? && after.effects[|s.effects|].color == t.pass.idle
          && after.effects[|s.effects|].ports == outcome.ports
          && |after.effects[|s.effects|].secrets| == |s.channels|
          && (forall c :: 0 <= c < |s.channels| ==> after.effects[|s.effects|].secrets[c] == s.channels[c].tokens.secret)
          && after.tasks == [BringingUp(t.pass, outcome.ports)])
    && (s.life.settled && (t.BringingUp? || t.Waiting?) ==> after.tasks == [] && after.effects == s.effects)
    && (!s.life.settled && t.BringingUp? && outcome == Started(true) ==>
          after.tasks == [Waiting(t.pass, t.ports)] && after.effects == s.effects)
    && (!s.life.settled && t.BringingUp? && outcome == Started(false) ==>
          after.effects == s.effects + [FailedToStart(t.pass.idle)])
    && (!s.life.settled && t.Waiting? && outcome == Waited(true) ==>
          after.tasks == [Switching(t.pass, t.ports)] && after.effects == s.effects + [ReportedReady(t.pass.idle, t.ports)])
    && (!s.life.settled && t.Waiting? && outcome == Waited(false) ==>
          after.tasks == [StoppingIdle(t.pass)] && after.effects == s.effects + [Stop(t.pass.idle)])
    && (t.Switching? ==>
          && after.active == Active(t.pass.idle, Some(t.ports)) && after.effects == s.effects
          && after.gateway.target == Some(Target(t.ports.https, t.ports.http)) && after.tasks == [Draining(t.pass, false)])
    && (t.Draining? ==> after.tasks == [StoppingOld(t.pass)] && after.effects == s.effects + [Stop(t.pass.oldColor)])
    && (!t.Switching? ==> after.active == s.active && after.gateway == s.gateway)
  }

  lemma ResumeGoesOn(s: State, i: nat, outcome: Outcome, input: Input)
    requires Control(s) && Enabled(s, Resumes(i, outcome, input)) && InPass(s.tasks[i])
    ensures SwapGoesOn(s, s.tasks[i], outcome, Step(s, Resumes(i, outcome, input)))
  {
    hide Head, Activate, Start, StartPolicy, CommitEach, ArmEach;
    var rest := s.(tasks := Without(s.tasks, i));
    assert rest.tasks == [];
    match s.tasks[i]
    case BringingUp(pass, _) => HeadTouchesActive(Rearmed(Did(rest, FailedToStart(pass.idle)), pass, input), input);
    case StoppingIdle(pass) => HeadTouchesActive(Rearmed(rest, pass, input), input);
    case StoppingOld(pass) => HeadTouchesActive(Rearmed(rest, pass, input), input);
    case _ =>
  }

  lemma HeadTouchesActive(s: State, input: Input)
    requires |input.files| == |s.channels|
    ensures Head(s, input).effects == s.effects && Head(s, input).active == s.active && Head(s, input).gateway == s.gateway
  {
    hide PrepareEach, ArmEach, ClearAll, Applied, Readable, Sources;
  }

  /** Over any run, every await of a swap is followed by what that await's outcome calls for. */
  lemma SwapProceeds(mcp: bool, configs: seq<Config>, states: seq<State>, events: seq<Event>, n: nat)
    requires History(mcp, configs, states, events) && n < |events|
    requires events[n].Resumes? && InPass(states[n].tasks[events[n].task])
    ensures SwapGoesOn(states[n], states[n].tasks[events[n].task], events[n].outcome, states[n + 1])
  {
    RunIsSafe(mcp, configs, states, events, n);
    SafeParts(states[n]);
    hide Safe, Step, SwapGoesOn;
    ResumeGoesOn(states[n], events[n].task, events[n].outcome, events[n].input);
  }

  // --- Where the start goes --------------------------------------------------------------------------

  /**
   * The start reads the channels, then the policy, then brings blue up; once blue is ready new
   * clients go to it, and what each channel had staged is what is applied.
   */
  ghost predicate StartGoesOn(s: State, t: Task, outcome: Outcome, input: Input, after: State) {
    && (t.Starting? && !after.life.settled ==> after.tasks == [if s.mcp then AllocatingMcp else AllocatingFirst])
    && (t.AllocatingMcp? && !after.life.settled ==> after.tasks == [AllocatingFirst])
    && (Early(t) && after.tasks != [] && after.tasks[0].AllocatingFirst? ==> after.life.watching && after.life.supervised == s.mcp)
    && (t.AllocatingFirst? && outcome.Allocated? && !s.life.settled ==>
          && after.tasks == [StartingFirst(outcome.ports)]
          && |after.effects| == |s.effects| + 1 && after.effects[..|s.effects|] == s.effects
          && after.effects[|s.effects|].BringUp? && after.effects[|s.effects|].color == Blue
          && after.effects[|s.effects|].ports == outcome.ports)
    && (t.StartingFirst? && outcome == Started(true) && !s.life.settled ==> after.tasks == [WaitingFirst(t.ports)])
    && (t.WaitingFirst? && outcome == Waited(true) && !s.life.settled ==>
          && after.active == Active(Blue, Some(t.ports)) && after.gateway.target == Some(Target(t.ports.https, t.ports.http))
          && after.effects == s.effects + [ReportedReady(Blue, t.ports)]
          && |after.channels| == |s.channels|
          && forall c :: 0 <= c < |s.channels| && s.channels[c].tokens.pendingToken.Some? ==>
               && after.channels[c].tokens.appliedToken == s.channels[c].tokens.pendingToken
               && after.channels[c].tokens.appliedAccount == s.channels[c].tokens.pendingAccount)
    && (s.life.settled && Booting(t) ==> after.tasks == [] && after.effects == s.effects && after.active == s.active)
  }

  lemma BootGoesOn(s: State, i: nat, outcome: Outcome, input: Input)
    requires Control(s) && Enabled(s, Resumes(i, outcome, input)) && Booting(s.tasks[i])
    ensures StartGoesOn(s, s.tasks[i], outcome, input, Step(s, Resumes(i, outcome, input)))
  {
    hide Head, Tail, StartEach, Secrets, ClearAll, ArmAll, CommitAll;
    var rest := s.(tasks := Without(s.tasks, i));
    assert rest.tasks == [];
    match s.tasks[i]
    case WaitingFirst(ports) =>
      if !s.life.settled && outcome.ready { ActivateGoesOn(rest, ports, input); }
    case _ =>
  }

  lemma ActivateGoesOn(s: State, ports: Ports, input: Input)
    requires s.tasks == [] && |input.files| == |s.channels|
    ensures var after := Activate(s, ports, input);
      && after.active == Active(Blue, Some(ports)) && after.gateway.target == Some(Target(ports.https, ports.http))
      && after.effects == s.effects + [ReportedReady(Blue, ports)]
      && |after.channels| == |s.channels|
      && forall c :: 0 <= c < |s.channels| && s.channels[c].tokens.pendingToken.Some? ==>
           && after.channels[c].tokens.appliedToken == s.channels[c].tokens.pendingToken
           && after.channels[c].tokens.appliedAccount == s.channels[c].tokens.pendingAccount
  {
    hide Head;
    var serving := s.(
      active := Active(Blue, Some(ports)),
      gateway := SetTarget(s.gateway, ports.Front()),
      effects := s.effects + [ReportedReady(Blue, ports)],
      channels := ArmAll(CommitAll(s.channels), input.now),
      work := s.work.(restarting := false));
    AllCommitted(s.channels, input.now);
    HeadTouchesActive(serving.(work := serving.work.(restarting := true)), input);
    HeadTouchesNothing(serving.(work := serving.work.(restarting := true)), input);
    hide ArmAll, CommitAll;
  }

  lemma AllCommitted(channels: seq<Channel>, now: int)
    ensures var after := ArmAll(CommitAll(channels), now);
      forall c :: 0 <= c < |channels| && channels[c].tokens.pendingToken.Some? ==>
        && after[c].tokens.appliedToken == channels[c].tokens.pendingToken
        && after[c].tokens.appliedAccount == channels[c].tokens.pendingAccount
  {
    forall c | 0 <= c < |channels| { CommitMeans(channels[c]); }
  }

  /** Over any run, every await of the start is followed by what its outcome calls for. */
  lemma StartProceeds(mcp: bool, configs: seq<Config>, states: seq<State>, events: seq<Event>, n: nat)
    requires History(mcp, configs, states, events) && n < |events|
    requires events[n].Resumes? && Booting(states[n].tasks[events[n].task])
    ensures StartGoesOn(states[n], states[n].tasks[events[n].task], events[n].outcome, events[n].input, states[n + 1])
  {
    RunIsSafe(mcp, configs, states, events, n);
    SafeParts(states[n]);
    hide Safe, Step, StartGoesOn;
    BootGoesOn(states[n], events[n].task, events[n].outcome, events[n].input);
  }

  // --- Never stuck -----------------------------------------------------------------------------------

  /** Every file unreadable: nothing read then starts a swap. */
  function Unchanging(s: State): Input {
    Input(PolicyFiles.Unreadable, seq(|s.channels|, _ => Read(None, true)), 0)
  }

  function Elsewhere(s: State): Ports {
    if s.active.ports.None? then Ports(1, 2, 3)
    else
      var p := s.active.ports.value;
      var top := p.https + p.http + p.admin;
      Ports(top + 1, top + 2, top + 3)
  }

  /** What the suspended call is waiting for. */
  function Awaited(s: State): Event
    requires s.tasks != []
  {
    var outcome := match s.tasks[0]
      case AllocatingFirst => Allocated(Elsewhere(s))
      case Allocating(_) => Allocated(Elsewhere(s))
      case StartingFirst(_) => Started(true)
      case BringingUp(_, _) => Started(true)
      case WaitingFirst(_) => Waited(true)
      case Waiting(_, _) => Waited(true)
      case _ => Done;
    if s.tasks[0].Draining? && !s.tasks[0].swept && !s.life.settled then DrainSweeps(0)
    else Resumes(0, outcome, Unchanging(s))
  }

  function Distance(s: State): nat {
    if s.tasks == [] then 0
    else match s.tasks[0]
      case Starting => 5
      case AllocatingMcp => 4
      case AllocatingFirst => 3
      case StartingFirst(_) => 2
      case WaitingFirst(_) => 1
      case Allocating(_) => 7
      case BringingUp(_, _) => 6
      case Waiting(_, _) => 5
      case Switching(_, _) => 4
      case Draining(_, swept) => if swept then 2 else 3
      case StoppingOld(_) => 1
      case StoppingIdle(_) => 1
  }

  lemma NothingApplies(s: State)
    ensures Applied(s.channels, s.work.dirty, Unchanging(s).files) == {}
    ensures s.tasks == [] ==> Head(s, Unchanging(s)).tasks == []
  {
  }

  lemma AwaitedIsCloser(s: State)
    requires Control(s) && s.tasks != []
    ensures Enabled(s, Awaited(s)) && Distance(Step(s, Awaited(s))) < Distance(s)
  {
    hide Head, PrepareEach, ArmEach, CommitEach, StartEach, Applied;
    var input := Unchanging(s);
    var rest := s.(tasks := Without(s.tasks, 0));
    assert rest.tasks == [];
    match s.tasks[0]
    case StoppingIdle(pass) => NothingApplies(Rearmed(rest, pass, input));
    case StoppingOld(pass) => NothingApplies(Rearmed(rest, pass, input));
    case WaitingFirst(ports) =>
      if !s.life.settled {
        var serving := rest.(
          active := Active(Blue, Some(ports)),
          gateway := SetTarget(s.gateway, ports.Front()),
          effects := s.effects + [ReportedReady(Blue, ports)],
          channels := ArmAll(CommitAll(s.channels), input.now),
          work := s.work.(restarting := true));
        assert Unchanging(serving) == input;
        NothingApplies(serving);
      }
    case _ =>
  }

  /** The suspended call can end within so many awaits, with nothing else happening. */
  ghost predicate Rests(s: State, awaits: nat)
    decreases awaits
  {
    s.tasks == []
    || (awaits > 0 && exists e: Event :: (e.Resumes? || e.DrainSweeps?) && Enabled(s, e) && Rests(Step(s, e), awaits - 1))
  }

  lemma {:induction false} DistanceSuffices(s: State, awaits: nat)
    requires Safe(s) && Distance(s) <= awaits
    ensures Rests(s, awaits)
    decreases awaits
  {
    hide Safe, Step, Enabled, Awaited;
    if s.tasks != [] {
      SafeParts(s);
      AwaitedIsCloser(s);
      assert Awaited(s).Resumes? || Awaited(s).DrainSweeps? by { AwaitedIsResumption(s); }
      StepIsSafe(s, Awaited(s));
      DistanceSuffices(Step(s, Awaited(s)), awaits - 1);
    }
  }

  lemma AwaitedIsResumption(s: State)
    requires s.tasks != []
    ensures Awaited(s).Resumes? || Awaited(s).DrainSweeps?
  {
  }

  /** No reachable state is stuck: within seven awaits the suspended call can end. */
  lemma NeverStuck(mcp: bool, configs: seq<Config>, states: seq<State>, events: seq<Event>, n: nat)
    requires History(mcp, configs, states, events) && n < |states|
    ensures Rests(states[n], 7)
  {
    RunIsSafe(mcp, configs, states, events, n);
    DistanceSuffices(states[n], 7);
  }
}
