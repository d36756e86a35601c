// The handlers of the hosting loop as the source runs them: closures over shared variables, each
// up to its next await, proved against the steps of HostingLoop (src/runHosting/runHostingLoop.ts).
module HostingMachine {
  import opened Collections
  import opened CredentialChannels
  import opened Gateways
  import opened HostingLoop

  function Values(channels: seq<CredentialChannel>): (values: seq<Channel>)
    reads channels
    ensures |values| == |channels|
    ensures forall i :: 0 <= i < |channels| ==> values[i] == channels[i].Value()
  {
    seq(|channels|, i requires 0 <= i < |channels| reads channels => channels[i].Value())
  }

  class Loop {
    const mcp: bool
    const channels: seq<CredentialChannel>
    const gateway: Gateway
    var settled: bool
    var stopSignalSeen: bool
    var watching: bool
    var supervised: bool
    var teardowns: seq<int>
    var exits: seq<int>
    var restarting: bool
    var pendingPolicy: bool
    var dirty: set<nat>
    var activeColor: Color
    var activePorts: Option<Ports>
    var tasks: seq<Task>
    var effects: seq<Effect>
    var readLog: seq<Source>

    constructor (mcp: bool, channels: seq<CredentialChannel>, gateway: Gateway)
      ensures this.mcp == mcp && this.channels == channels && this.gateway == gateway
      ensures State() == HostingLoop.State(mcp, Life(false, false, false, false, [], []), Work(false, false, {}),
                                           Active(Blue, None), Values(channels), [Starting], gateway.Value(), [], [])
    {
      this.mcp, this.channels, this.gateway := mcp, channels, gateway;
      settled, stopSignalSeen, watching, supervised, teardowns, exits := false, false, false, false, [], [];
      restarting, pendingPolicy, dirty := false, false, {};
      activeColor, activePorts := Blue, None;
      tasks, effects, readLog := [Starting], [], [];
    }

    ghost predicate Valid() {
      NoDuplicates(channels)
    }

    function State(): State
      reads this, channels, gateway
    {
      HostingLoop.State(mcp, Life(settled, stopSignalSeen, watching, supervised, teardowns, exits),
                        Work(restarting, pendingPolicy, dirty), Active(activeColor, activePorts),
                        Values(channels), tasks, gateway.Value(), effects, readLog)
    }

    method ClearTimers()
      requires Valid()
      modifies channels
      ensures Values(channels) == ClearAll(old(Values(channels)))
    {
      for i := 0 to |channels|
        invariant forall k :: 0 <= k < i ==> channels[k].Value() == ClearTimer(old(channels[k].Value()))
        invariant forall k :: i <= k < |channels| ==> channels[k].Value() == old(channels[k].Value())
      {
        channels[i].Clear();
      }
    }

    method Shutdown(code: int, stopColors: bool)
      requires Valid()
      modifies this, channels
      ensures State() == HostingLoop.Shutdown(old(State()), code, stopColors)
    {
      hide ClearAll;
      if settled { return; }
      settled := true;
      ClearTimers();
      if stopColors { effects := effects + [Stop(Blue)] + [Stop(Green)]; }
      teardowns := teardowns + [code];
    }

    method Fatal()
      requires Valid()
      modifies this, channels
      ensures State() == HostingLoop.Fatal(old(State()))
    {
      if settled { return; }
      Shutdown(1, false);
    }

    method OnStopSignal()
      requires Valid()
      modifies this, channels
      ensures State() == HostingLoop.OnStopSignal(old(State()))
    {
      if stopSignalSeen || settled { return; }
      stopSignalSeen := true;
      Shutdown(0, false);
    }

    /** The restart reads of one pass: which channels could be read, and which ask for a restart. */
    method PrepareAll(which: set<nat>, files: seq<Read>, now: int) returns (applied: set<nat>, readable: set<nat>)
      requires Valid() && |files| == |channels|
      modifies channels
      ensures Values(channels) == PrepareEach(old(Values(channels)), which, files)
      ensures applied == Applied(old(Values(channels)), which, files)
      ensures readable == Readable(which, files)
    {
      hide Prepare, PrepareResult;
      applied, readable := {}, {};
      for i := 0 to |channels|
        invariant forall k :: 0 <= k < i && k in which ==> channels[k].Value() == Prepare(old(channels[k].Value()), files[k])
        invariant forall k :: 0 <= k < |channels| && (i <= k || k !in which) ==> channels[k].Value() == old(channels[k].Value())
        invariant forall k :: k in applied <==>
                    0 <= k < i && k in which && PrepareResult(old(channels[k].Value()), files[k]).restartNeeded
        invariant forall k :: k in readable <==> 0 <= k < i && k in which && files[k].creds.Some?
      {
        if i in which {
          ReadableExactly(channels[i].Value(), files[i]);
          var result := channels[i].PrepareRestart(files[i], now);
          if result.readable { readable := readable + {i}; }
          if result.restartNeeded { applied := applied + {i}; }
        }
      }
    }

    method ArmTimers(which: set<nat>, now: int)
      requires Valid()
      modifies channels
      ensures Values(channels) == ArmEach(old(Values(channels)), which, now)
    {
      hide ArmTimer;
      for i := 0 to |channels|
        invariant forall k :: 0 <= k < i && k in which ==> channels[k].Value() == ArmTimer(old(channels[k].Value()), now)
        invariant forall k :: 0 <= k < |channels| && (i <= k || k !in which) ==> channels[k].Value() == old(channels[k].Value())
      {
        if i in which { channels[i].Arm(now); }
      }
    }

    method CommitTokens(which: set<nat>)
      requires Valid()
      modifies channels
      ensures Values(channels) == CommitEach(old(Values(channels)), which)
    {
      hide Commit;
      for i := 0 to |channels|
        invariant forall k :: 0 <= k < i && k in which ==> channels[k].Value() == Commit(old(channels[k].Value()))
        invariant forall k :: 0 <= k < |channels| && (i <= k || k !in which) ==> channels[k].Value() == old(channels[k].Value())
      {
        if i in which { channels[i].CommitToken(); }
      }
    }

    /** Takes the pending sources into a pass, noting what it reads. */
    method TakeWork(read: seq<Source>)
      modifies this`pendingPolicy, this`dirty, this`readLog
      ensures State() == Taken(old(State()), read)
    {
      pendingPolicy := false;
      dirty := {};
      readLog := readLog + read;
    }

    /** One round of the loop in `drainRestarts`, up to its next await if it has one. */
    method OnePass(input: Input) returns (suspended: bool)
      requires Valid() && |input.files| == |channels|
      requires !settled && (dirty != {} || pendingPolicy)
      modifies this, channels
      ensures Head(old(State()), input) == if suspended then State() else Finish(State())
      ensures !suspended ==> settled || (dirty == {} && !pendingPolicy)
    {
      hide Head, PrepareEach, ArmEach, Applied, Readable, ClearAll, Sources, Values, HostingLoop.Fatal, Finish;
      ghost var s := State();
      HeadCases(s, input);
      var policyDirty, channelsThisPass := pendingPolicy, dirty;
      if policyDirty && input.policy == Rejected {
        TakeWork([Policy]);
        FatalKeepsWork(State());
        Fatal();
        return false;
      }
      TakeWork(Sources(Work(restarting, pendingPolicy, dirty), |channels|));
      var restartNeeded := policyDirty && input.policy == Usable;
      var applied, readable := PrepareAll(channelsThisPass, input.files, input.now);
      assert State() == AfterReads(s, input);
      if applied != {} { restartNeeded := true; }
      if restartNeeded && activePorts.Some? {
        tasks := tasks + [Allocating(Pass(Other(activeColor), activeColor, activePorts.value, applied, readable))];
        return true;
      }
      ArmTimers(readable, input.now);
      return false;
    }

    /** `drainRestarts` from its loop's head to its next await or its end. */
    method NextPass(input: Input)
      requires Valid() && |input.files| == |channels|
      modifies this, channels
      ensures State() == Head(old(State()), input)
    {
      hide Head, Values;
      HeadWhenIdle(State(), input);
      while !settled && (dirty != {} || pendingPolicy)
        invariant !settled && (dirty != {} || pendingPolicy) ==> State() == old(State())
        invariant settled || (dirty == {} && !pendingPolicy) ==> Finish(State()) == Head(old(State()), input)
        decreases !settled && (dirty != {} || pendingPolicy)
      {
        var suspended := OnePass(input);
        if suspended { return; }
      }
      restarting := false;
    }

    method RequestRestart(source: Source, input: Input)
      requires Valid() && |input.files| == |channels|
      modifies this, channels
      ensures State() == HostingLoop.RequestRestart(old(State()), source, input)
    {
      hide Head;
      if settled { return; }
      match source {
        case Policy => pendingPolicy := true;
        case Credential(i) => dirty := dirty + {i};
      }
      if !restarting { DrainAll(input); }
    }

    /** The end of a pass: re-arm what was read, and look for more work. */
    method EndPass(pass: Pass, input: Input)
      requires Valid() && |input.files| == |channels|
      modifies this, channels
      ensures State() == Tail(old(State()), pass, input)
    {
      hide Head, ArmEach;
      if !settled { ArmTimers(pass.readable, input.now); }
      NextPass(input);
    }

    /** The flip to the freshly ready color, up to the drain of the old one. */
    method SwitchTo(pass: Pass, ports: Ports)
      requires Valid()
      modifies this, channels, gateway
      ensures State() == Suspend(Flip(old(State()), pass, ports), Draining(pass, false))
    {
      hide CommitEach, Values;
      ghost var s := State();
      gateway.Point(ports.Front());
      activeColor := pass.idle;
      activePorts := Some(ports);
      assert Values(channels) == s.channels;
      CommitTokens(pass.applied);
      assert State() == Flip(s, pass, ports);
      tasks := tasks + [Draining(pass, false)];
    }

    // --- Startup ---------------------------------------------------------------------------------------

    /** The startup reads, up to the first channel that cannot be read. */
    method ReadAll(files: seq<Read>) returns (ok: bool)
      requires Valid() && |files| == |channels|
      modifies channels
      ensures Values(channels) == StartEach(old(Values(channels)), files)
      ensures ok == AllReadable(files)
    {
      hide StartupRead;
      for i := 0 to |channels|
        invariant forall k :: 0 <= k < i ==> files[k].creds.Some? && channels[k].Value() == StartupRead(old(channels[k].Value()), files[k])
        invariant forall k :: i <= k < |channels| ==> channels[k].Value() == old(channels[k].Value())
      {
        var creds := channels[i].StartRead(files[i]);
        if creds.None? { return false; }
      }
      return true;
    }

    method Start(input: Input)
      requires Valid() && |input.files| == |channels|
      modifies this, channels
      ensures State() == HostingLoop.Start(old(State()), input)
    {
      hide StartEach, Values, HostingLoop.Fatal, HostingLoop.StartPolicy;
      ghost var s := State();
      var ok := ReadAll(input.files);
      assert State() == s.(channels := StartEach(s.channels, input.files));
      if !ok {
        Fatal();
      } else if mcp {
        tasks := tasks + [AllocatingMcp];
      } else {
        StartPolicy(input);
      }
    }

    method StartPolicy(input: Input)
      requires Valid()
      modifies this, channels
      ensures State() == HostingLoop.StartPolicy(old(State()), input)
    {
      hide Values, HostingLoop.Fatal;
      if input.policy == Unreadable {
        Fatal();
        return;
      }
      watching := true;
      if input.policy == Rejected {
        Fatal();
        return;
      }
      supervised := mcp;
      restarting := true;
      tasks := tasks + [AllocatingFirst];
    }

    method CommitAndArmAll(now: int)
      requires Valid()
      modifies channels
      ensures Values(channels) == ArmAll(CommitAll(old(Values(channels))), now)
    {
      hide Commit, ArmTimer;
      for i := 0 to |channels|
        invariant forall k :: 0 <= k < i ==> channels[k].Value() == Commit(old(channels[k].Value()))
        invariant forall k :: i <= k < |channels| ==> channels[k].Value() == old(channels[k].Value())
      {
        channels[i].CommitToken();
      }
      for i := 0 to |channels|
        invariant forall k :: 0 <= k < i ==> channels[k].Value() == ArmTimer(Commit(old(channels[k].Value())), now)
        invariant forall k :: i <= k < |channels| ==> channels[k].Value() == Commit(old(channels[k].Value()))
      {
        channels[i].Arm(now);
      }
    }

    /** The first color serves. */
    method Activate(ports: Ports, input: Input)
      requires Valid() && |input.files| == |channels|
      modifies this, channels, gateway
      ensures State() == HostingLoop.Activate(old(State()), ports, input)
    {
      hide Head, ArmAll, CommitAll, Values;
      ServeFirst(ports);
      ArmEverything(input.now);
      if dirty != {} || pendingPolicy { DrainAll(input); }
    }

    method ServeFirst(ports: Ports)
      modifies this, gateway
      ensures State() == old(State()).(
          active := Active(Blue, Some(ports)),
          gateway := SetTarget(old(State()).gateway, ports.Front()),
          effects := old(State()).effects + [ReportedReady(Blue, ports)])
    {
      hide Values;
      effects := effects + [ReportedReady(Blue, ports)];
      activeColor, activePorts := Blue, Some(ports);
      gateway.Point(ports.Front());
    }

    method ArmEverything(now: int)
      requires Valid()
      modifies this`restarting, channels
      ensures State() == old(State()).(
          channels := ArmAll(CommitAll(old(State()).channels), now),
          work := old(State()).work.(restarting := false))
    {
      hide ArmAll, CommitAll, Values;
      CommitAndArmAll(now);
      restarting := false;
    }

    method DrainAll(input: Input)
      requires Valid() && |input.files| == |channels|
      modifies this, channels
      ensures State() == DrainRestarts(old(State()), input)
    {
      hide Head, Values;
      restarting := true;
      NextPass(input);
    }

    // --- Every step --------------------------------------------------------------------------------------

    /** The rest of a call of `start`. */
    method ContinueStart(task: Task, outcome: Outcome, input: Input)
      requires Valid() && |input.files| == |channels| && Fits(State(), task, outcome)
      requires Booting(task)
      modifies this, channels, gateway
      ensures State() == Resume(old(State()), task, outcome, input)
    {
      hide Values, Head, Tail, HostingLoop.Start, HostingLoop.StartPolicy, HostingLoop.Activate, Flip, HostingLoop.Fatal, Secrets;
      match task
      case Starting => Start(input);
      case AllocatingMcp => StartPolicy(input);
      case AllocatingFirst =>
        if settled {
          restarting := false;
        } else {
          effects := effects + [BringUp(Blue, outcome.ports, Secrets(Values(channels)))];
          tasks := tasks + [StartingFirst(outcome.ports)];
        }
      case StartingFirst(ports) =>
        if !outcome.ok {
          Fatal();
          restarting := false;
        } else if settled {
          restarting := false;
        } else {
          tasks := tasks + [WaitingFirst(ports)];
        }
      case WaitingFirst(ports) =>
        if settled {
          restarting := false;
        } else if !outcome.ready {
          Fatal();
          restarting := false;
        } else {
          Activate(ports, input);
        }
    }

    /** The rest of a call of `drainRestarts`. */
    method ContinuePass(task: Task, outcome: Outcome, input: Input)
      requires Valid() && |input.files| == |channels| && Fits(State(), task, outcome)
      requires !Booting(task)
      modifies this, channels, gateway
      ensures State() == Resume(old(State()), task, outcome, input)
    {
      hide Values, Head, Tail, HostingLoop.Start, HostingLoop.StartPolicy, HostingLoop.Activate, Flip, HostingLoop.Fatal, Secrets;
      match task
      case Allocating(pass) =>
        effects := effects + [BringUp(pass.idle, outcome.ports, Secrets(Values(channels)))];
        tasks := tasks + [BringingUp(pass, outcome.ports)];
      case BringingUp(pass, ports) =>
        if settled {
          restarting := false;
        } else if outcome.ok {
          tasks := tasks + [Waiting(pass, ports)];
        } else {
          effects := effects + [FailedToStart(pass.idle)];
          EndPass(pass, input);
        }
      case Waiting(pass, ports) =>
        if settled {
          restarting := false;
        } else if outcome.ready {
          effects := effects + [ReportedReady(pass.idle, ports)];
          tasks := tasks + [Switching(pass, ports)];
        } else {
          effects := effects + [Stop(pass.idle)];
          tasks := tasks + [StoppingIdle(pass)];
        }
      case StoppingIdle(pass) => EndPass(pass, input);
      case Switching(pass, ports) => SwitchTo(pass, ports);
      case Draining(pass, _) =>
        effects := effects + [Stop(pass.oldColor)];
        tasks := tasks + [StoppingOld(pass)];
      case StoppingOld(pass) => EndPass(pass, input);
    }

    /** The rest of a suspended call; it is no longer listed. */
    method Continue(task: Task, outcome: Outcome, input: Input)
      requires Valid() && |input.files| == |channels| && Fits(State(), task, outcome)
      modifies this, channels, gateway
      ensures State() == Resume(old(State()), task, outcome, input)
    {
      hide Resume, Values, Fits;
      if Booting(task) {
        ContinueStart(task, outcome, input);
      } else {
        ContinuePass(task, outcome, input);
      }
    }

    method OnTimer(i: nat, handle: nat, now: int)
      requires Valid() && Enabled(State(), TimerFires(i, handle, now))
      modifies this, channels
      ensures State() == Step(old(State()), TimerFires(i, handle, now))
    {
      hide CredentialChannels.OnTimer, HostingLoop.Fatal;
      ghost var s := State();
      var exhausted := channels[i].TimerFires(handle, settled, now);
      assert Values(channels) == s.channels[i := CredentialChannels.OnTimer(s.channels[i], handle, settled, now)];
      if exhausted { Fatal(); }
    }

    method OnNudge(i: nat, ok: bool, now: int)
      requires Valid() && Enabled(State(), NudgeReturns(i, ok, now))
      modifies this, channels
      ensures State() == Step(old(State()), NudgeReturns(i, ok, now))
    {
      hide NudgeEnds, HostingLoop.Fatal;
      ghost var s := State();
      var exhausted := channels[i].NudgeReturns(ok, settled, now);
      assert Values(channels) == s.channels[i := NudgeEnds(s.channels[i], ok, settled, now)];
      if exhausted { Fatal(); }
    }

    /** Whatever happens, the loop's variables move as the transition system says. */
    method Handle(e: Event)
      requires Valid() && Enabled(State(), e)
      modifies this, channels, gateway
      ensures State() == Step(old(State()), e)
    {
      hide Values, Resume, HostingLoop.RequestRestart, HostingLoop.OnStopSignal, HostingLoop.Shutdown;
      match e
      case FileChanged(source, input) => RequestRestart(source, input);
      case TimerFires(i, handle, now) => OnTimer(i, handle, now);
      case NudgeReturns(i, ok, now) => OnNudge(i, ok, now);
      case StopSignal => OnStopSignal();
      case McpFails => Shutdown(1, true);
      case ClientArrives(isHttps) => gateway.Accept(isHttps);
      case ConnectionCloses(conn) => gateway.Forget(conn);
      case DrainSweeps(i) =>
        var pass := tasks[i].pass;
        gateway.SweepAway(pass.oldPorts.Front());
        tasks := tasks[i := Draining(pass, true)];
      case Resumes(i, outcome, input) =>
        var task := tasks[i];
        tasks := HostingLoop.Without(tasks, i);
        Continue(task, outcome, input);
      case TornDown(i) =>
        exits := exits + [teardowns[i]];
        teardowns := HostingLoop.Without(teardowns, i);
    }
  }

  /** The state once a pass has read its sources. */
  function AfterReads(s: State, input: Input): State
    requires |input.files| == |s.channels|
  {
    Taken(s, Sources(s.work, |s.channels|)).(channels := PrepareEach(s.channels, s.work.dirty, input.files))
  }

  lemma HeadCases(s: State, input: Input)
    requires |input.files| == |s.channels| && !s.life.settled && s.work.Pending()
    ensures var applied := Applied(s.channels, s.work.dirty, input.files);
      var readable := Readable(s.work.dirty, input.files);
      var needed := (s.work.policy && input.policy == Usable) || applied != {};
      var prepared := AfterReads(s, input);
      Head(s, input) ==
        if s.work.policy && input.policy == Rejected then Finish(Fatal(Taken(s, [Policy])))
        else if needed && s.active.ports.Some? then
          Suspend(prepared, Allocating(Pass(Other(s.active.color), s.active.color, s.active.ports.value, applied, readable)))
        else Finish(prepared.(channels := ArmEach(prepared.channels, readable, input.now)))
  {
  }

  lemma FatalKeepsWork(s: State)
    ensures HostingLoop.Fatal(s).work == s.work
  {
  }

  lemma HeadWhenIdle(s: State, input: Input)
    requires |input.files| == |s.channels|
    ensures s.life.settled || !s.work.Pending() ==> Head(s, input) == Finish(s)
  {
  }

  lemma ReadableExactly(c: Channel, read: Read)
    ensures PrepareResult(c, read).readable <==> read.creds.Some?
  {
  }
}
