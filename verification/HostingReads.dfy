// What the hosting loop does with what it reads: when a swap starts and for which channels, and
// when a policy ends the loop, over whole runs (src/runHosting/runHostingLoop.ts).
module HostingReads {
  import opened Collections
  import opened CredentialChannels
  import opened Gateways
  import opened HostingLoop
  import opened HostingTheorems
  import opened HostingRuns

  /** What a step read: the part of the log it added. */
  function Reading(s: State, after: State): seq<Source> {
    if |s.readLog| <= |after.readLog| then after.readLog[|s.readLog|..] else []
  }

  predicate HasInput(e: Event) {
    e.FileChanged? || e.Resumes?
  }

  /** The channel was read, and what it holds is another token or account than the proxy was last restarted with. */
  predicate Changed(read: seq<Source>, files: seq<Read>, channels: seq<Channel>, c: nat) {
    && Credential(c) in read && c < |files| && c < |channels| && files[c].creds.Some?
    && (channels[c].tokens.appliedToken != Some(files[c].creds.value.accessToken)
        || channels[c].tokens.appliedAccount != files[c].creds.value.accountId)
  }

  /**
   * A step that reads its pending sources ends the loop exactly when the policy is among them and
   * is rejected. Otherwise it starts a swap exactly when the policy is among them and usable, or
   * some channel changed; the swap applies exactly the channels that changed, and without one
   * the loop goes idle.
   */
  ghost predicate Follows(read: seq<Source>, input: Input, after: State) {
    && (after.life.settled <==> Policy in read && input.policy == Rejected)
    && (!after.life.settled ==>
          && |after.tasks| <= 1
          && (after.tasks != [] <==>
                (Policy in read && input.policy == Usable) || exists c: nat :: Changed(read, input.files, after.channels, c))
          && (after.tasks != [] ==>
                && after.tasks[0].Allocating?
                && (forall c: nat :: c in after.tasks[0].pass.applied <==> Changed(read, input.files, after.channels, c))
                && (forall c: nat :: c in after.tasks[0].pass.readable <==>
                      Credential(c) in read && c < |input.files| && input.files[c].creds.Some?)))
  }

  lemma SourcesAre(s: State)
    ensures Policy in Sources(s.work, |s.channels|) <==> s.work.policy
    ensures forall c: nat :: Credential(c) in Sources(s.work, |s.channels|) <==> c in s.work.dirty && c < |s.channels|
  {
    NoPolicyAmong(s.work.dirty, |s.channels|);
    forall c: nat { DirtySourcesHas(s.work.dirty, |s.channels|, c); }
  }

  lemma {:induction false} NoPolicyAmong(dirty: set<nat>, n: nat)
    ensures Policy !in DirtySources(dirty, n)
  {
    if n > 0 { NoPolicyAmong(dirty, n - 1); }
  }

  lemma SourcesNotEmpty(s: State)
    requires KnownDirty(s) && s.work.Pending()
    ensures Sources(s.work, |s.channels|) != []
  {
    if !s.work.policy {
      var i :| i in s.work.dirty;
      DirtySourcesHas(s.work.dirty, |s.channels|, i);
    }
  }

  /** Preparing and arming leave alone what is applied. */
  lemma HeadKeepsApplied(s: State, input: Input, c: nat)
    requires |input.files| == |s.channels| && c < |s.channels|
    ensures |Head(s, input).channels| == |s.channels|
    ensures var before, after := s.channels[c].tokens, Head(s, input).channels[c].tokens;
      after.appliedToken == before.appliedToken && after.appliedAccount == before.appliedAccount
  {
    HeadTouchesNothing(s, input);
    hide Head;
  }

  lemma AppliedAreChanged(s: State, input: Input)
    requires KnownDirty(s) && |input.files| == |s.channels|
    ensures var read := Sources(s.work, |s.channels|);
      forall c: nat :: c in Applied(s.channels, s.work.dirty, input.files) <==> Changed(read, input.files, s.channels, c)
  {
    SourcesAre(s);
  }

  lemma HeadFollows(s: State, input: Input)
    requires Between(s) && !s.life.settled && |input.files| == |s.channels|
    ensures var read := Reading(s, Head(s, input));
      && s.readLog <= Head(s, input).readLog
      && (read == [] <==> !s.work.Pending())
      && (read == [] ==> !Head(s, input).life.settled && Head(s, input).tasks == [])
      && (read != [] ==> Follows(read, input, Head(s, input)))
  {
    hide PrepareEach, ArmEach, ClearAll, Sources, Applied, Changed;
    var read, after := Reading(s, Head(s, input)), Head(s, input);
    if s.work.Pending() {
      SourcesNotEmpty(s);
      SourcesAre(s);
      if !(s.work.policy && input.policy == Rejected) {
        assert read == Sources(s.work, |s.channels|);
        AppliedAreChanged(s, input);
        forall c: nat ensures Changed(read, input.files, after.channels, c) <==> Changed(read, input.files, s.channels, c) {
          if c < |s.channels| { HeadKeepsApplied(s, input, c); }
          ChangedByApplied(read, input.files, s.channels, after.channels, c);
        }
      }
    }
  }

  lemma ChangedByApplied(read: seq<Source>, files: seq<Read>, a: seq<Channel>, b: seq<Channel>, c: nat)
    requires |a| == |b|
    requires c < |a| ==> a[c].tokens.appliedToken == b[c].tokens.appliedToken && a[c].tokens.appliedAccount == b[c].tokens.appliedAccount
    ensures Changed(read, files, a, c) <==> Changed(read, files, b, c)
  {
  }

  /** The step read nothing, or reads and follows what it read. */
  ghost predicate ReadsRight(s: State, e: Event, after: State) {
    var read := Reading(s, after);
    && s.readLog <= after.readLog
    && (read != [] ==> HasInput(e) && !s.life.settled && Follows(read, e.input, after))
  }

  lemma ResumeFollows(s: State, i: nat, outcome: Outcome, input: Input)
    requires Control(s) && Enabled(s, Resumes(i, outcome, input))
    ensures ReadsRight(s, Resumes(i, outcome, input), Step(s, Resumes(i, outcome, input)))
  {
    hide Head, Follows, ClearAll, StartEach, CommitEach, ArmEach, ArmAll, CommitAll, Secrets, SetTarget;
    var rest := s.(tasks := Without(s.tasks, i));
    assert rest.tasks == [];
    match s.tasks[i]
    case WaitingFirst(ports) =>
      if !s.life.settled && outcome.ready {
        var serving := rest.(
          active := Active(Blue, Some(ports)),
          gateway := SetTarget(s.gateway, ports.Front()),
          effects := s.effects + [ReportedReady(Blue, ports)],
          channels := ArmAll(CommitAll(s.channels), input.now),
          work := s.work.(restarting := true));
        HeadFollows(serving, input);
      }
    case BringingUp(pass, _) => TailFollows(Did(rest, FailedToStart(pass.idle)), pass, input);
    case StoppingIdle(pass) => TailFollows(rest, pass, input);
    case StoppingOld(pass) => TailFollows(rest, pass, input);
    case _ =>
  }

  lemma TailFollows(s: State, pass: Pass, input: Input)
    requires Between(s) && |input.files| == |s.channels|
    ensures var after := Tail(s, pass, input);
      s.readLog <= after.readLog
      && (Reading(s, after) != [] ==> !s.life.settled && Follows(Reading(s, after), input, after))
  {
    hide Head, Follows, ArmEach;
    if s.life.settled {
      HeadWhenSettled(s, input);
    } else {
      HeadFollows(Rearmed(s, pass, input), input);
    }
  }

  lemma HeadWhenSettled(s: State, input: Input)
    requires s.life.settled && |input.files| == |s.channels|
    ensures Head(s, input).readLog == s.readLog
  {
  }

  lemma StepFollows(s: State, e: Event)
    requires Control(s) && Enabled(s, e)
    ensures ReadsRight(s, e, Step(s, e))
  {
    hide Head, Follows, Resume, OnTimer, NudgeEnds, ClearAll;
    match e
    case Resumes(i, outcome, input) => ResumeFollows(s, i, outcome, input);
    case FileChanged(source, input) =>
      if !s.life.settled && !s.work.restarting {
        HeadFollows(s.(work := Mark(s.work, source).(restarting := true)), input);
      }
    case _ =>
  }

  /**
   * Whenever a running loop reads its pending sources, it ends exactly when a rejected policy is
   * among them, and otherwise starts a swap exactly when a usable policy is, or some channel holds
   * another token or account than the applied one; the swap applies exactly those channels.
   */
  lemma SwapStartsExactly(mcp: bool, configs: seq<Config>, states: seq<State>, events: seq<Event>, n: nat)
    requires History(mcp, configs, states, events) && n < |events|
    requires Reading(states[n], states[n + 1]) != []
    ensures HasInput(events[n]) && !states[n].life.settled
    ensures Follows(Reading(states[n], states[n + 1]), events[n].input, states[n + 1])
  {
    RunIsSafe(mcp, configs, states, events, n);
    SafeParts(states[n]);
    hide Safe, Step, Enabled, Follows;
    StepFollows(states[n], events[n]);
  }

  lemma IdleReads(s: State, source: Source, input: Input)
    requires Control(s) && Enabled(s, FileChanged(source, input)) && !s.life.settled && s.tasks == []
    ensures Reading(s, Step(s, FileChanged(source, input))) == [source]
  {
    hide Head;
    if source.Credential? {
      OneDirty(source.channel, |s.channels|);
      assert s.work.dirty + {source.channel} == {source.channel};
    } else {
      NoneDirty(|s.channels|);
    }
    var marked := s.(work := Mark(s.work, source).(restarting := true));
    assert Sources(marked.work, |s.channels|) == [source];
    HeadReads(marked, input);
  }

  /** A change of policy alone reads the policy alone, whatever it holds. */
  lemma HeadReads(s: State, input: Input)
    requires |input.files| == |s.channels| && !s.life.settled && s.work.Pending()
    requires s.work.policy ==> s.work.dirty == {}
    ensures Head(s, input).readLog == s.readLog + Sources(s.work, |s.channels|)
  {
    hide PrepareEach, ArmEach, ClearAll, Applied, Readable;
    NoneDirty(|s.channels|);
    assert s.work.policy ==> Sources(s.work, |s.channels|) == [Policy];
  }

  /**
   * An idle, started loop whose credential file changes reads it at once, and starts a swap exactly
   * when it holds another token or account than the proxy was last restarted with.
   */
  lemma ChangedTokenSwaps(mcp: bool, configs: seq<Config>, states: seq<State>, events: seq<Event>, n: nat, c: nat)
    requires History(mcp, configs, states, events) && n < |events| && events[n].FileChanged?
    requires events[n].source == Credential(c) && !states[n].life.settled && states[n].tasks == []
    ensures var s, after, read := states[n], states[n + 1], events[n].input.files[c].creds;
      && c < |s.channels|
      && var t := s.channels[c].tokens;
      && (after.tasks != [] <==>
            read.Some? && (t.appliedToken != Some(read.value.accessToken) || t.appliedAccount != read.value.accountId))
      && (after.tasks != [] ==> after.tasks[0].Allocating? && forall k: nat :: k in after.tasks[0].pass.applied <==> k == c)
      && !after.life.settled
  {
    RunIsSafe(mcp, configs, states, events, n);
    SafeParts(states[n]);
    SwapStartsWith(states[n], c, events[n].input);
    hide Safe, Step, Enabled;
  }

  lemma SwapStartsWith(s: State, c: nat, input: Input)
    requires Control(s) && Enabled(s, FileChanged(Credential(c), input)) && !s.life.settled && s.tasks == []
    ensures var after, t, read := Step(s, FileChanged(Credential(c), input)), s.channels[c].tokens, input.files[c].creds;
      && (after.tasks != [] <==>
            read.Some? && (t.appliedToken != Some(read.value.accessToken) || t.appliedAccount != read.value.accountId))
      && (after.tasks != [] ==> after.tasks[0].Allocating? && forall k: nat :: k in after.tasks[0].pass.applied <==> k == c)
      && !after.life.settled
  {
    hide Head;
    IdleReads(s, Credential(c), input);
    StepFollows(s, FileChanged(Credential(c), input));
    HeadKeepsApplied(s.(work := Mark(s.work, Credential(c)).(restarting := true)), input, c);
    var after := Step(s, FileChanged(Credential(c), input));
    assert Changed([Credential(c)], input.files, after.channels, c) <==> exists k: nat :: Changed([Credential(c)], input.files, after.channels, k);
  }

  lemma {:induction false} NoneDirty(n: nat)
    ensures DirtySources({}, n) == []
  {
    if n > 0 { NoneDirty(n - 1); }
  }

  lemma {:induction false} OneDirty(c: nat, n: nat)
    ensures DirtySources({c}, n) == if c < n then [Credential(c)] else []
  {
    if n > 0 { OneDirty(c, n - 1); }
  }
}
