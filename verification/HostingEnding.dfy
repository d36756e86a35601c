// What still happens to the containers after the hosting loop has settled: exactly the color whose
// ports were being allocated at that moment comes up, and nothing else does.
module HostingEnding {
  import opened Collections
  import opened CredentialChannels
  import opened HostingLoop
  import opened HostingTheorems
  import opened HostingRuns

  /** How often a color was brought up. */
  function Launches(effects: seq<Effect>): nat {
    if effects == [] then 0
    else Launches(effects[..|effects| - 1]) + (if effects[|effects| - 1].BringUp? then 1 else 0)
  }

  lemma LaunchesSnoc(effects: seq<Effect>, effect: Effect)
    ensures Launches(effects + [effect]) == Launches(effects) + (if effect.BringUp? then 1 else 0)
  {
    assert (effects + [effect])[..|effects|] == effects;
  }

  /** A restart pass is suspended at its port allocation: the one call that is not looked at again. */
  predicate Owes(s: State) {
    s.tasks != [] && s.tasks[0].Allocating?
  }

  function Owed(s: State): nat {
    if Owes(s) then 1 else 0
  }

  /** No suspended call has anything left to do to the containers. */
  predicate Spent(s: State) {
    s.tasks == [] || s.tasks[0].BringingUp?
  }

  ghost predicate BothRest(effects: seq<Effect>) {
    Resting(effects, Blue) && Resting(effects, Green)
  }

  /** What a step does to the containers once the loop has settled. */
  ghost predicate Winds(s: State, after: State) {
    && after.life.settled
    && (Owes(s) && !Owes(after) ==>
          && Spent(after) && |after.effects| == |s.effects| + 1 && after.effects[..|s.effects|] == s.effects
          && after.effects[|s.effects|].BringUp?)
    && (Owes(after) ==> Owes(s) && after.effects == s.effects)
    && (!Owes(s) ==> after.effects == s.effects || exists c :: after.effects == s.effects + [Stop(c)])
    && (Spent(s) ==> Spent(after) && after.effects == s.effects)
  }

  lemma ResumeWinds(s: State, i: nat, outcome: Outcome, input: Input)
    requires Control(s) && s.life.settled && Enabled(s, Resumes(i, outcome, input))
    ensures Winds(s, Step(s, Resumes(i, outcome, input)))
  {
    hide Head, Secrets, CommitEach, ArmEach, Start, StartPolicy, Activate;
    var rest := s.(tasks := Without(s.tasks, i));
    assert rest.tasks == [];
    match s.tasks[i]
    case StoppingIdle(pass) => SettledTail(rest, pass, input);
    case StoppingOld(pass) => SettledTail(rest, pass, input);
    case Draining(pass, _) =>
      assert Step(s, Resumes(i, outcome, input)).effects == s.effects + [Stop(pass.oldColor)];
    case _ =>
  }

  lemma SettledTail(s: State, pass: Pass, input: Input)
    requires s.life.settled && |input.files| == |s.channels|
    ensures Tail(s, pass, input) == Finish(s)
  {
  }

  lemma StepWinds(s: State, e: Event)
    requires Control(s) && s.life.settled && Enabled(s, e)
    ensures Winds(s, Step(s, e))
  {
    match e
    case Resumes(i, outcome, input) => ResumeWinds(s, i, outcome, input);
    case _ =>
      hide OnTimer, NudgeEnds, Resume, Head;
  }

  lemma {:induction false} ContinuationIsSafe(states: seq<State>, events: seq<Event>, n: nat)
    requires Run(states, events) && Safe(states[0]) && n < |states|
    ensures Safe(states[n])
  {
    hide Safe, Step, Enabled;
    if n > 0 {
      ContinuationIsSafe(states, events, n - 1);
      StepIsSafe(states[n - 1], events[n - 1]);
    }
  }

  /**
   * From the moment the loop settles the colors brought up and the one still owed add up to the
   * same number: a color comes up exactly when the pass that owes it resumes, and no other does.
   */
  lemma {:induction false} LaunchesAreOwed(states: seq<State>, events: seq<Event>, n: nat)
    requires Run(states, events) && Safe(states[0]) && states[0].life.settled && n < |states|
    ensures states[n].life.settled && Owed(states[n]) <= Owed(states[0])
    ensures Launches(states[n].effects) + Owed(states[n]) == Launches(states[0].effects) + Owed(states[0])
  {
    hide Safe, Step, Enabled, Launches, Spent;
    if n > 0 {
      LaunchesAreOwed(states, events, n - 1);
      ContinuationIsSafe(states, events, n - 1);
      SafeParts(states[n - 1]);
      StepWinds(states[n - 1], events[n - 1]);
      WindsKeepSum(states[n - 1], states[n]);
    }
  }

  lemma WindsKeepSum(s: State, after: State)
    requires Winds(s, after)
    ensures Owed(after) <= Owed(s) && Launches(after.effects) + Owed(after) == Launches(s.effects) + Owed(s)
  {
    hide Launches;
    if after.effects != s.effects {
      var last := after.effects[|after.effects| - 1];
      assert after.effects == s.effects + [last];
      LaunchesSnoc(s.effects, last);
    }
  }

  /** Whatever follows, no color is brought up any more. */
  ghost predicate NothingStarts(s: State) {
    forall states: seq<State>, events: seq<Event> ::
      Run(states, events) && states[0] == s ==> Launches(states[|events|].effects) == Launches(s.effects)
  }

  /** The exact condition, on the state in which the loop has settled, for the containers to stay down. */
  lemma NothingStartsExactly(s: State)
    requires Safe(s) && s.life.settled
    ensures NothingStarts(s) <==> !Owes(s)
  {
    hide Safe, Launches, Step, Enabled;
    if Owes(s) {
      var states, events := OwedColorStarts(s);
      LaunchesAreOwed(states, events, 1);
    } else {
      forall states: seq<State>, events: seq<Event> | Run(states, events) && states[0] == s
        ensures Launches(states[|events|].effects) == Launches(s.effects)
      {
        LaunchesAreOwed(states, events, |events|);
      }
    }
  }

  lemma OwedColorStarts(s: State) returns (states: seq<State>, events: seq<Event>)
    requires Safe(s) && s.life.settled && Owes(s)
    ensures Run(states, events) && |events| == 1 && states[0] == s && !Owes(states[1])
  {
    hide Counting, Serving, Connected, Loading, Lone, Exits;
    var live := if s.active.ports.Some? then s.active.ports.value else Ports(0, 0, 0);
    var above := live.https + live.http + live.admin + 1;
    var ports := Ports(above, above + 1, above + 2);
    var e := Resumes(0, Allocated(ports), Input(Unreadable, seq(|s.channels|, _ => Read(None, false)), 0));
    assert Disjoint(ports, live);
    states, events := [s, Step(s, e)], [e];
  }

  // --- After an MCP failure --------------------------------------------------------------------------------

  /** Both colors rest while nothing owed has started, and the one that has started does not. */
  ghost predicate RestsAsOwed(s: State, owed: nat) {
    && s.life.settled && Owed(s) <= owed
    && (Owed(s) == owed ==> BothRest(s.effects))
    && (Owed(s) < owed ==> Spent(s) && !BothRest(s.effects))
  }

  lemma StoppedBothRest(effects: seq<Effect>)
    ensures BothRest(effects + [Stop(Blue)] + [Stop(Green)])
  {
    RestingSnoc(effects, Stop(Blue), Blue);
    RestingSnoc(effects + [Stop(Blue)], Stop(Green), Blue);
    RestingSnoc(effects + [Stop(Blue)], Stop(Green), Green);
  }

  lemma WindsRestAsOwed(s: State, after: State, owed: nat)
    requires Winds(s, after) && RestsAsOwed(s, owed)
    ensures RestsAsOwed(after, owed)
  {
    hide Resting;
    if after.effects != s.effects {
      var last := after.effects[|after.effects| - 1];
      assert after.effects == s.effects + [last];
      RestingSnoc(s.effects, last, Blue);
      RestingSnoc(s.effects, last, Green);
    }
  }

  lemma McpFailureRests(s: State)
    requires Safe(s) && !s.life.settled && Enabled(s, McpFails)
    ensures RestsAsOwed(Step(s, McpFails), Owed(s))
  {
    hide Resting, ClearAll;
    StoppedBothRest(s.effects);
  }

  /**
   * After an MCP failure has settled the loop both colors stay down, unless a restart pass was
   * waiting for its ports at that moment: then they do until that pass resumes, and not afterwards.
   */
  lemma BothStayDownExactly(mcp: bool, configs: seq<Config>, states: seq<State>, events: seq<Event>, k: nat, n: nat)
    requires History(mcp, configs, states, events) && k < n < |states|
    requires events[k].McpFails? && !states[k].life.settled
    ensures BothRest(states[n].effects) <==> Owed(states[n]) == Owed(states[k])
    ensures !Owes(states[k]) ==> BothRest(states[n].effects)
  {
    RestsAsOwedFrom(mcp, configs, states, events, k, n);
  }

  lemma {:induction false} RestsAsOwedFrom(mcp: bool, configs: seq<Config>, states: seq<State>, events: seq<Event>, k: nat, n: nat)
    requires History(mcp, configs, states, events) && k < n < |states|
    requires events[k].McpFails? && !states[k].life.settled
    ensures RestsAsOwed(states[n], Owed(states[k]))
  {
    RunIsSafe(mcp, configs, states, events, n - 1);
    hide Safe, Step, Enabled, RestsAsOwed, Winds;
    if n == k + 1 {
      McpFailureRests(states[k]);
    } else {
      RestsAsOwedFrom(mcp, configs, states, events, k, n - 1);
      SafeParts(states[n - 1]);
      assert states[n - 1].life.settled by { RestsSettled(states[n - 1], Owed(states[k])); }
      StepWinds(states[n - 1], events[n - 1]);
      WindsRestAsOwed(states[n - 1], states[n], Owed(states[k]));
    }
  }

  lemma RestsSettled(s: State, owed: nat)
    requires RestsAsOwed(s, owed)
    ensures s.life.settled
  {
  }
}
