// What the hosting loop keeps over every interleaving of its steps.
module HostingTheorems {
  import opened Collections
  import opened CredentialChannels
  import opened Gateways
  import opened HostingLoop

  // --- Single flight and nothing lost --------------------------------------------------------------

  ghost predicate KnownDirty(s: State) {
    forall i :: i in s.work.dirty ==> i < |s.channels|
  }

  /** At most one call is suspended, and an idle, started, unsettled loop has nothing pending. */
  ghost predicate Control(s: State) {
    && |s.tasks| <= 1
    && (s.tasks == [] ==> !s.work.restarting)
    && (s.tasks != [] ==> (s.work.restarting <==> !Early(s.tasks[0])))
    && (s.tasks != [] ==> (s.life.watching <==> !Early(s.tasks[0])))
    && (s.tasks != [] && Early(s.tasks[0]) ==> !s.life.settled)
    && (!s.life.watching ==> (s.life.settled || (s.tasks != [] && Early(s.tasks[0]))))
    && (!s.life.watching ==> !s.life.supervised && !s.work.Pending())
    && (!s.life.settled ==> (s.active.ports.None? <==> s.tasks != [] && Booting(s.tasks[0])))
    && (!s.life.settled && s.tasks == [] ==> !s.work.Pending())
    && KnownDirty(s)
  }

  /** Where `drainRestarts` looks for work. */
  ghost predicate Between(s: State) {
    && s.tasks == [] && s.life.watching && KnownDirty(s)
    && (!s.life.settled ==> s.active.ports.Some?)
  }

  lemma HeadControl(s: State, input: Input)
    requires Between(s) && s.work.restarting && |input.files| == |s.channels|
    ensures Control(Head(s, input))
  {
  }

  lemma TailControl(s: State, pass: Pass, input: Input)
    requires Between(s) && s.work.restarting && |input.files| == |s.channels|
    ensures Control(Tail(s, pass, input))
  {
    hide Head;
    HeadControl(if s.life.settled then s else s.(channels := ArmEach(s.channels, pass.readable, input.now)), input);
  }

  lemma ActivateControl(s: State, ports: Ports, input: Input)
    requires s.tasks == [] && s.life.watching && KnownDirty(s) && !s.life.settled && |input.files| == |s.channels|
    ensures Control(Activate(s, ports, input))
  {
    hide Head;
    var serving := s.(
      active := Active(Blue, Some(ports)),
      gateway := SetTarget(s.gateway, ports.Front()),
      effects := s.effects + [ReportedReady(Blue, ports)],
      channels := ArmAll(CommitAll(s.channels), input.now),
      work := s.work.(restarting := false));
    if serving.work.Pending() {
      HeadControl(serving.(work := serving.work.(restarting := true)), input);
    }
  }

  lemma BootControl(s: State, i: nat, outcome: Outcome, input: Input)
    requires Control(s) && Enabled(s, Resumes(i, outcome, input)) && Booting(s.tasks[i])
    ensures Control(Step(s, Resumes(i, outcome, input)))
  {
    hide Head, Tail, Activate, StartEach, Secrets, ClearAll;
    var rest := s.(tasks := Without(s.tasks, i));
    assert rest.tasks == [];
    match s.tasks[i]
    case WaitingFirst(ports) =>
      if !s.life.settled { ActivateControl(rest, ports, input); }
    case _ =>
  }

  lemma PassControl(s: State, i: nat, outcome: Outcome, input: Input)
    requires Control(s) && Enabled(s, Resumes(i, outcome, input)) && !Booting(s.tasks[i])
    ensures Control(Step(s, Resumes(i, outcome, input)))
  {
    hide Head, Tail, Activate, Start, StartPolicy, Secrets, CommitEach;
    var rest := s.(tasks := Without(s.tasks, i));
    assert rest.tasks == [];
    match s.tasks[i]
    case BringingUp(pass, _) => TailControl(Did(rest, FailedToStart(pass.idle)), pass, input);
    case StoppingIdle(pass) => TailControl(rest, pass, input);
    case StoppingOld(pass) => TailControl(rest, pass, input);
    case _ =>
  }

  lemma StepControl(s: State, e: Event)
    requires Control(s) && Counting(s) && Enabled(s, e)
    ensures Control(Step(s, e))
  {
    match e
    case Resumes(i, outcome, input) =>
      if Booting(s.tasks[i]) { BootControl(s, i, outcome, input); } else { PassControl(s, i, outcome, input); }
    case FileChanged(source, input) =>
      hide Head;
      if !s.life.settled && !s.work.restarting {
        HeadControl(s.(work := Mark(s.work, source).(restarting := true)), input);
      }
    case _ =>
      hide Counting, OnTimer, NudgeEnds, ClearAll;
      if e.TimerFires? || e.NudgeReturns? { QuietAtStartup(s, e); }
  }

  // --- Timers and attempts ---------------------------------------------------------------------------

  /** Nothing is armed or running before the loop has started. */
  ghost predicate Quiet(c: Channel) {
    c.nudging.armed == map[] && c.nudging.inFlight == 0
  }

  /** What holds of a channel of a loop that has started and not settled. */
  ghost predicate Live(c: Channel) {
    OneTimer(c) && Trying(c) && Watched(c) && c.tokens.lastRead.Some?
  }

  ghost predicate Unstarted(c: Channel) {
    OneTimer(c) && Trying(c) && Quiet(c)
  }

  /** What holds of a channel after the loop has settled: no timer, and exhausted at most once. */
  ghost predicate Over(c: Channel) {
    OneTimer(c) && c.nudging.armed == map[] && (Exhausted !in c.nudging.history || GaveUp(c))
  }

  predicate HasGivenUp(c: Channel) {
    Exhausted in c.nudging.history
  }

  ghost predicate AllLive(channels: seq<Channel>) {
    forall i :: 0 <= i < |channels| ==> Live(channels[i])
  }

  ghost predicate AllUnstarted(channels: seq<Channel>, read: bool) {
    forall i :: 0 <= i < |channels| ==> Unstarted(channels[i]) && (read ==> channels[i].tokens.lastRead.Some?)
  }

  ghost predicate AtMostOneGaveUp(channels: seq<Channel>) {
    forall i, j :: 0 <= i < j < |channels| ==> !(HasGivenUp(channels[i]) && HasGivenUp(channels[j]))
  }

  ghost predicate AllOver(channels: seq<Channel>) {
    (forall i :: 0 <= i < |channels| ==> Over(channels[i])) && AtMostOneGaveUp(channels)
  }

  /** Each channel still tries or has given up, one of them at most. */
  ghost predicate Ending(channels: seq<Channel>) {
    && (forall i :: 0 <= i < |channels| ==> OneTimer(channels[i]) && (Trying(channels[i]) || GaveUp(channels[i])))
    && AtMostOneGaveUp(channels)
  }

  ghost predicate Counting(s: State) {
    if s.life.settled then AllOver(s.channels)
    else if s.active.ports.Some? then AllLive(s.channels)
    else AllUnstarted(s.channels, s.tasks != [] && !s.tasks[0].Starting?)
  }

  lemma QuietAtStartup(s: State, e: Event)
    requires Counting(s) && Enabled(s, e) && (e.TimerFires? || e.NudgeReturns?)
    ensures s.life.settled || s.active.ports.Some?
  {
  }

  lemma ClearedIsOver(channels: seq<Channel>)
    requires Ending(channels)
    ensures AllOver(ClearAll(channels))
  {
    forall i | 0 <= i < |channels|
      ensures Over(ClearAll(channels)[i]) && ClearAll(channels)[i].nudging.history == channels[i].nudging.history
    {
      ClearTimerIs(channels[i]);
    }
  }

  /** A settled loop has only channels that are over. */
  lemma ShutdownCounting(s: State, code: int, stopColors: bool)
    requires !s.life.settled && Ending(s.channels)
    ensures Counting(Shutdown(s, code, stopColors))
  {
    ClearedIsOver(s.channels);
  }

  lemma TryingIsEnding(s: State)
    requires Counting(s) && !s.life.settled
    ensures Ending(s.channels)
  {
  }

  lemma LiveArms(c: Channel, now: int)
    requires OneTimer(c) && Trying(c) && c.tokens.lastRead.Some?
    ensures Live(ArmTimer(c, now))
  {
    ArmTimerIs(c, now);
  }

  lemma ArmEachLive(channels: seq<Channel>, which: set<nat>, now: int)
    requires AllLive(channels)
    ensures AllLive(ArmEach(channels, which, now))
  {
    hide Live, ArmTimer;
    forall i | 0 <= i < |channels| ensures Live(ArmEach(channels, which, now)[i]) {
      assert Live(channels[i]);
      LiveAgain(channels[i], now);
    }
  }

  lemma LiveAgain(c: Channel, now: int)
    requires Live(c)
    ensures Live(ArmTimer(c, now))
  {
    LiveArms(c, now);
  }

  lemma PrepareEachLive(channels: seq<Channel>, which: set<nat>, files: seq<Read>)
    requires AllLive(channels) && |files| == |channels|
    ensures AllLive(PrepareEach(channels, which, files))
  {
    hide Live, Prepare;
    forall i | 0 <= i < |channels| ensures Live(PrepareEach(channels, which, files)[i]) {
      assert Live(channels[i]);
      LivePrepares(channels[i], files[i]);
    }
  }

  lemma LivePrepares(c: Channel, read: Read)
    requires Live(c)
    ensures Live(Prepare(c, read))
  {
    PrepareIs(c, read);
  }

  lemma CommitEachKeeps(channels: seq<Channel>, which: set<nat>)
    ensures AllLive(channels) ==> AllLive(CommitEach(channels, which))
    ensures AllOver(channels) ==> AllOver(CommitEach(channels, which))
  {
    forall i | 0 <= i < |channels|
      ensures CommitEach(channels, which)[i].nudging == channels[i].nudging
      ensures CommitEach(channels, which)[i].config == channels[i].config
      ensures CommitEach(channels, which)[i].tokens.lastRead == channels[i].tokens.lastRead
    {
    }
  }

  lemma StartedIsLive(channels: seq<Channel>, now: int)
    requires AllUnstarted(channels, true)
    ensures AllLive(ArmAll(CommitAll(channels), now))
  {
    forall i | 0 <= i < |channels| ensures Live(ArmAll(CommitAll(channels), now)[i]) {
      assert Unstarted(channels[i]);
      LiveArms(Commit(channels[i]), now);
    }
  }

  lemma LiveIsEnding(channels: seq<Channel>)
    requires AllLive(channels)
    ensures Ending(channels)
  {
  }

  lemma HeadCounting(s: State, input: Input)
    requires Between(s) && Counting(s) && |input.files| == |s.channels|
    ensures Counting(Head(s, input))
  {
    hide AllLive, AllOver, AllUnstarted, Ending, ArmEach, PrepareEach, ClearAll;
    if !s.life.settled && s.work.Pending() {
      LiveIsEnding(s.channels);
      if s.work.policy && input.policy == Rejected {
        ShutdownCounting(Taken(s, [Policy]), 1, false);
      } else {
        PrepareEachLive(s.channels, s.work.dirty, input.files);
        ArmEachLive(PrepareEach(s.channels, s.work.dirty, input.files), Readable(s.work.dirty, input.files), input.now);
      }
    }
  }

  lemma TailCounting(s: State, pass: Pass, input: Input)
    requires Between(s) && Counting(s) && |input.files| == |s.channels|
    ensures Counting(Tail(s, pass, input))
  {
    hide Head, AllLive, AllOver;
    if !s.life.settled { ArmEachLive(s.channels, pass.readable, input.now); }
    HeadCounting(if s.life.settled then s else s.(channels := ArmEach(s.channels, pass.readable, input.now)), input);
  }

  lemma BootCounting(s: State, i: nat, outcome: Outcome, input: Input)
    requires Control(s) && Counting(s) && Enabled(s, Resumes(i, outcome, input)) && Booting(s.tasks[i])
    ensures Counting(Step(s, Resumes(i, outcome, input)))
  {
    hide Head, AllLive, AllOver, Ending, ClearAll;
    var rest := s.(tasks := Without(s.tasks, i));
    assert rest.tasks == [];
    if !s.life.settled {
      TryingIsEnding(s);
      match s.tasks[i]
      case Starting => StartCounting(s, i, input);
      case AllocatingMcp => StartPolicyCounting(rest, input);
      case WaitingFirst(ports) =>
        if outcome.ready {
          StartedIsLive(s.channels, input.now);
          ActivateCounting(rest, ports, input);
        } else {
          ShutdownCounting(rest, 1, false);
        }
      case _ =>
        ShutdownCounting(rest, 1, false);
    }
  }

  lemma ActivateCounting(s: State, ports: Ports, input: Input)
    requires s.tasks == [] && s.life.watching && KnownDirty(s) && !s.life.settled && |input.files| == |s.channels|
    requires AllLive(ArmAll(CommitAll(s.channels), input.now))
    ensures Counting(Activate(s, ports, input))
  {
    hide Head, AllLive, AllOver;
    var serving := s.(
      active := Active(Blue, Some(ports)),
      gateway := SetTarget(s.gateway, ports.Front()),
      effects := s.effects + [ReportedReady(Blue, ports)],
      channels := ArmAll(CommitAll(s.channels), input.now),
      work := s.work.(restarting := false));
    if serving.work.Pending() {
      HeadCounting(serving.(work := serving.work.(restarting := true)), input);
    }
  }

  lemma StartPolicyCounting(s: State, input: Input)
    requires s.tasks == [] && !s.life.settled && s.active.ports.None? && AllUnstarted(s.channels, true)
    ensures Counting(StartPolicy(s, input))
  {
    hide ClearAll, AllOver;
    assert Ending(s.channels);
    if input.policy == Unreadable {
      ShutdownCounting(s, 1, false);
    } else if input.policy == Rejected {
      ShutdownCounting(s.(life := s.life.(watching := true)), 1, false);
    }
  }

  lemma StartCounting(s: State, i: nat, input: Input)
    requires Control(s) && Counting(s) && Enabled(s, Resumes(i, Done, input)) && s.tasks[i] == Starting
    ensures Counting(Step(s, Resumes(i, Done, input)))
  {
    hide ClearAll, AllOver;
    var rest := s.(tasks := Without(s.tasks, i));
    assert rest.tasks == [];
    var read := rest.(channels := StartEach(s.channels, input.files));
    assert forall k :: 0 <= k < |s.channels| ==> Unstarted(read.channels[k]);
    if AllReadable(input.files) {
      assert AllUnstarted(read.channels, true);
      StartPolicyCounting(read, input);
    } else {
      assert Ending(read.channels);
      ShutdownCounting(read, 1, false);
    }
  }

  lemma PassCounting(s: State, i: nat, outcome: Outcome, input: Input)
    requires Control(s) && Counting(s) && Enabled(s, Resumes(i, outcome, input)) && !Booting(s.tasks[i])
    ensures Counting(Step(s, Resumes(i, outcome, input)))
  {
    hide Head, Tail, Activate, Start, StartPolicy, Secrets, CommitEach, AllLive, AllOver;
    var rest := s.(tasks := Without(s.tasks, i));
    assert rest.tasks == [];
    match s.tasks[i]
    case BringingUp(pass, _) => TailCounting(Did(rest, FailedToStart(pass.idle)), pass, input);
    case StoppingIdle(pass) => TailCounting(rest, pass, input);
    case StoppingOld(pass) => TailCounting(rest, pass, input);
    case Switching(pass, _) => CommitEachKeeps(s.channels, pass.applied);
    case _ =>
  }

  /** Channel `i` changed, still live or given up; the others are live. */
  lemma ChangedIsEnding(channels: seq<Channel>, i: nat, c: Channel)
    requires i < |channels| && AllLive(channels) && OneTimer(c) && (Trying(c) || GaveUp(c))
    ensures Ending(channels[i := c])
  {
    hide OneTimer, Watched, GaveUp;
    forall k | 0 <= k < |channels| && k != i ensures !HasGivenUp(channels[k]) { assert Live(channels[k]); }
  }

  lemma SignalCounting(s: State, e: Event)
    requires Control(s) && Counting(s) && Enabled(s, e) && (e.TimerFires? || e.NudgeReturns?)
    ensures Counting(Step(s, e))
  {
    hide OnTimer, NudgeEnds, ClearAll, Control, Ending;
    var i := e.channel;
    var c := s.channels[i];
    QuietAtStartup(s, e);
    if s.life.settled {
      assert Over(c);
      match e
      case TimerFires(_, handle, now) =>
      case NudgeReturns(_, ok, now) => NudgeAfterSettling(c, ok, now);
    } else {
      assert Live(c);
      hide AllOver, GaveUp, OneTimer, Watched, Trying;
      match e
      case TimerFires(_, handle, now) =>
        OnTimerIs(c, handle, now);
        TimerKeepsTokens(c, handle, false, now);
        var after := OnTimer(c, handle, false, now);
        ChangedIsEnding(s.channels, i, after);
        if TimerExhausts(c, false) { ShutdownCounting(s.(channels := s.channels[i := after]), 1, false); }
      case NudgeReturns(_, ok, now) =>
        NudgeEndsIs(c, ok, now);
        NudgeKeepsTokens(c, ok, false, now);
        var after := NudgeEnds(c, ok, false, now);
        ChangedIsEnding(s.channels, i, after);
        if NudgeExhausts(c, ok, false) { ShutdownCounting(s.(channels := s.channels[i := after]), 1, false); }
    }
  }

  lemma TimerKeepsTokens(c: Channel, handle: nat, settled: bool, now: int)
    ensures OnTimer(c, handle, settled, now).tokens == c.tokens
  {
  }

  lemma NudgeKeepsTokens(c: Channel, ok: bool, settled: bool, now: int)
    requires c.nudging.inFlight > 0
    ensures NudgeEnds(c, ok, settled, now).tokens == c.tokens
  {
  }

  lemma NudgeAfterSettling(c: Channel, ok: bool, now: int)
    requires Over(c) && c.nudging.inFlight > 0
    ensures var after := NudgeEnds(c, ok, true, now);
      Over(after) && after.nudging.history == c.nudging.history
  {
  }

  lemma StepCounting(s: State, e: Event)
    requires Control(s) && Counting(s) && Enabled(s, e)
    ensures Counting(Step(s, e))
  {
    hide Head, AllLive, AllOver, AllUnstarted, Resume, OnTimer, NudgeEnds;
    if !s.life.settled { TryingIsEnding(s); }
    match e
    case Resumes(i, outcome, input) =>
      if Booting(s.tasks[i]) { BootCounting(s, i, outcome, input); } else { PassCounting(s, i, outcome, input); }
    case FileChanged(source, input) =>
      if !s.life.settled && !s.work.restarting {
        HeadCounting(s.(work := Mark(s.work, source).(restarting := true)), input);
      }
    case TimerFires(_, _, _) => SignalCounting(s, e);
    case NudgeReturns(_, _, _) => SignalCounting(s, e);
    case StopSignal =>
      if !s.life.settled { ShutdownCounting(s.(life := s.life.(stopSignalSeen := true)), 0, false); }
    case McpFails =>
      if !s.life.settled { ShutdownCounting(s, 1, true); }
    case DrainSweeps(i) =>
    case _ =>
  }

  // --- Blue-green safety -------------------------------------------------------------------------------

  /** The color last reported ready on these ports, and was neither recreated nor stopped since. */
  predicate Serves(effects: seq<Effect>, color: Color, ports: Ports) {
    if effects == [] then false
    else
      var earlier := effects[..|effects| - 1];
      match effects[|effects| - 1]
      case ReportedReady(c, p) => if c == color then p == ports else Serves(earlier, color, ports)
      case BringUp(c, _, _) => c != color && Serves(earlier, color, ports)
      case FailedToStart(c) => c != color && Serves(earlier, color, ports)
      case Stop(c) => c != color && Serves(earlier, color, ports)
  }

  lemma ServesSnoc(effects: seq<Effect>, effect: Effect, color: Color, ports: Ports)
    ensures Serves(effects + [effect], color, ports) <==>
            (effect == ReportedReady(color, ports) || (effect.color != color && Serves(effects, color, ports)))
  {
    assert (effects + [effect])[..|effects|] == effects;
  }

  predicate InPass(t: Task) {
    !Booting(t)
  }

  predicate BeforeFlip(t: Task) {
    t.Allocating? || t.BringingUp? || t.Waiting? || t.StoppingIdle? || t.Switching?
  }

  predicate HasPorts(t: Task) {
    t.BringingUp? || t.Waiting? || t.Switching?
  }

  /** The pass works on the color that does not serve, on ports of its own. */
  ghost predicate OnOtherColor(s: State, t: Task)
    requires InPass(t)
  {
    var p := t.pass;
    && s.active.ports.Some?
    && (BeforeFlip(t) ==> p.oldColor == s.active.color && p.idle == Other(s.active.color) && p.oldPorts == s.active.ports.value)
    && (!BeforeFlip(t) ==> p.idle == s.active.color && p.oldColor == Other(s.active.color) && Disjoint(p.oldPorts, s.active.ports.value))
    && (HasPorts(t) ==> Disjoint(t.ports, p.oldPorts))
    && (t.Switching? ==> Serves(s.effects, p.idle, t.ports))
  }

  /**
   * Until the loop settles, the gateway targets the ports of the active color, which reported ready
   * on them and was not stopped since.
   */
  ghost predicate Serving(s: State) {
    !s.life.settled ==>
      && (s.active.ports.None? ==> s.gateway.target.None?)
      && (s.active.ports.Some? ==>
            && s.gateway.target == Some(s.active.ports.value.Front())
            && Serves(s.effects, s.active.color, s.active.ports.value))
      && (s.tasks != [] && InPass(s.tasks[0]) ==> OnOtherColor(s, s.tasks[0]))
  }

  lemma HeadServing(s: State, input: Input)
    requires Between(s) && Serving(s) && |input.files| == |s.channels|
    ensures Serving(Head(s, input))
  {
    hide Serves;
  }

  lemma TailServing(s: State, pass: Pass, input: Input)
    requires Between(s) && Serving(s) && |input.files| == |s.channels|
    ensures Serving(Tail(s, pass, input))
  {
    hide Head, Serves;
    HeadServing(if s.life.settled then s else s.(channels := ArmEach(s.channels, pass.readable, input.now)), input);
  }

  lemma ActivateServing(s: State, ports: Ports, input: Input)
    requires s.tasks == [] && s.life.watching && KnownDirty(s) && !s.life.settled && |input.files| == |s.channels|
    ensures Serving(Activate(s, ports, input))
  {
    hide Head;
    ServesSnoc(s.effects, ReportedReady(Blue, ports), Blue, ports);
    var serving := s.(
      active := Active(Blue, Some(ports)),
      gateway := SetTarget(s.gateway, ports.Front()),
      effects := s.effects + [ReportedReady(Blue, ports)],
      channels := ArmAll(CommitAll(s.channels), input.now),
      work := s.work.(restarting := false));
    if serving.work.Pending() {
      HeadServing(serving.(work := serving.work.(restarting := true)), input);
    }
  }

  lemma BootServing(s: State, i: nat, outcome: Outcome, input: Input)
    requires Control(s) && Serving(s) && Enabled(s, Resumes(i, outcome, input)) && Booting(s.tasks[i])
    ensures Serving(Step(s, Resumes(i, outcome, input)))
  {
    hide Head, Tail, Activate, StartEach, Secrets, ClearAll, Serves;
    var rest := s.(tasks := Without(s.tasks, i));
    assert rest.tasks == [];
    match s.tasks[i]
    case WaitingFirst(ports) =>
      if !s.life.settled { ActivateServing(rest, ports, input); }
    case _ =>
  }

  lemma PassServing(s: State, i: nat, outcome: Outcome, input: Input)
    requires Control(s) && Serving(s) && Enabled(s, Resumes(i, outcome, input)) && InPass(s.tasks[i])
    ensures Serving(Step(s, Resumes(i, outcome, input)))
  {
    hide Head, Tail, Activate, Start, StartPolicy, Secrets, CommitEach, Serves;
    var rest := s.(tasks := Without(s.tasks, i));
    assert rest.tasks == [];
    match s.tasks[i]
    case Allocating(pass) =>
      if !s.life.settled {
        ServesSnoc(s.effects, BringUp(pass.idle, outcome.ports, Secrets(s.channels)), s.active.color, s.active.ports.value);
      }
    case Waiting(pass, ports) =>
      if !s.life.settled {
        ServesSnoc(s.effects, Stop(pass.idle), s.active.color, s.active.ports.value);
        ServesSnoc(s.effects, ReportedReady(pass.idle, ports), s.active.color, s.active.ports.value);
        ServesSnoc(s.effects, ReportedReady(pass.idle, ports), pass.idle, ports);
      }
    case Draining(pass, _) =>
      if !s.life.settled {
        ServesSnoc(s.effects, Stop(pass.oldColor), s.active.color, s.active.ports.value);
      }
    case BringingUp(pass, _) =>
      if !s.life.settled {
        ServesSnoc(s.effects, FailedToStart(pass.idle), s.active.color, s.active.ports.value);
      }
      TailServing(Did(rest, FailedToStart(pass.idle)), pass, input);
    case StoppingIdle(pass) => TailServing(rest, pass, input);
    case StoppingOld(pass) => TailServing(rest, pass, input);
    case _ =>
  }

  lemma StepServing(s: State, e: Event)
    requires Control(s) && Serving(s) && Enabled(s, e)
    ensures Serving(Step(s, e))
  {
    hide Head, Resume, Serves, OnTimer, NudgeEnds, ClearAll;
    match e
    case Resumes(i, outcome, input) =>
      if Booting(s.tasks[i]) { BootServing(s, i, outcome, input); } else { PassServing(s, i, outcome, input); }
    case FileChanged(source, input) =>
      if !s.life.settled && !s.work.restarting {
        HeadServing(s.(work := Mark(s.work, source).(restarting := true)), input);
      }
    case _ =>
  }

  // --- Connections -----------------------------------------------------------------------------------

  /** The old color's connections may still flow. */
  predicate StillDraining(s: State) {
    s.tasks != [] && s.tasks[0].Draining? && !s.tasks[0].swept
  }

  /** Until the loop settles, every connection is on the active color, or on the one being drained. */
  ghost predicate Connected(s: State) {
    !s.life.settled ==> forall c :: c in s.gateway.conns ==>
      && s.active.ports.Some?
      && (s.active.ports.value.Front().Has(s.gateway.conns[c])
          || (StillDraining(s) && s.tasks[0].pass.oldPorts.Front().Has(s.gateway.conns[c])))
  }

  lemma HeadConnected(s: State, input: Input)
    requires Between(s) && Connected(s) && |input.files| == |s.channels|
    ensures Connected(Head(s, input))
  {
  }

  lemma TailConnected(s: State, pass: Pass, input: Input)
    requires Between(s) && Connected(s) && |input.files| == |s.channels|
    ensures Connected(Tail(s, pass, input))
  {
    hide Head;
    HeadConnected(if s.life.settled then s else s.(channels := ArmEach(s.channels, pass.readable, input.now)), input);
  }

  lemma BootConnected(s: State, i: nat, outcome: Outcome, input: Input)
    requires Control(s) && Connected(s) && Enabled(s, Resumes(i, outcome, input)) && Booting(s.tasks[i])
    ensures Connected(Step(s, Resumes(i, outcome, input)))
  {
    hide Head, Tail, StartEach, Secrets, ClearAll;
    var rest := s.(tasks := Without(s.tasks, i));
    assert rest.tasks == [];
    match s.tasks[i]
    case WaitingFirst(ports) =>
      if !s.life.settled && outcome.ready {
        var serving := s.(
          tasks := [],
          active := Active(Blue, Some(ports)),
          gateway := SetTarget(s.gateway, ports.Front()),
          effects := s.effects + [ReportedReady(Blue, ports)],
          channels := ArmAll(CommitAll(s.channels), input.now),
          work := s.work.(restarting := true));
        HeadConnected(serving, input);
      }
    case _ =>
  }

  lemma PassConnected(s: State, i: nat, outcome: Outcome, input: Input)
    requires Control(s) && Serving(s) && Connected(s) && Enabled(s, Resumes(i, outcome, input)) && InPass(s.tasks[i])
    ensures Connected(Step(s, Resumes(i, outcome, input)))
  {
    hide Head, Tail, Activate, Start, StartPolicy, Secrets, CommitEach, Serves;
    var rest := s.(tasks := Without(s.tasks, i));
    assert rest.tasks == [];
    match s.tasks[i]
    case BringingUp(pass, _) => TailConnected(Did(rest, FailedToStart(pass.idle)), pass, input);
    case StoppingIdle(pass) => TailConnected(rest, pass, input);
    case StoppingOld(pass) => TailConnected(rest, pass, input);
    case _ =>
  }

  lemma StepConnected(s: State, e: Event)
    requires Control(s) && Serving(s) && Connected(s) && Enabled(s, e)
    ensures Connected(Step(s, e))
  {
    hide Head, Resume, Serves, OnTimer, NudgeEnds, ClearAll;
    match e
    case Resumes(i, outcome, input) =>
      if Booting(s.tasks[i]) { BootConnected(s, i, outcome, input); } else { PassConnected(s, i, outcome, input); }
    case FileChanged(source, input) =>
      if !s.life.settled && !s.work.restarting {
        HeadConnected(s.(work := Mark(s.work, source).(restarting := true)), input);
      }
    case DrainSweeps(i) => SweepIs(s.gateway, s.tasks[i].pass.oldPorts.Front());
    case _ =>
  }
}
