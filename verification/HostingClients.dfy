// The clients of the gateway over whole runs of the hosting loop: whom a new one reaches, and how
// long its connection lives (src/runHosting/gateway.ts, src/runHosting/runHostingLoop.ts).
module HostingClients {
  import opened Collections
  import opened CredentialChannels
  import opened Gateways
  import opened HostingLoop
  import opened HostingRuns

  ghost predicate Numbered(g: Gate) {
    forall c :: c in g.conns ==> c < g.nextConn
  }

  /** The connection closes, or a drain closes what is left on the ports it is for. */
  predicate Closes(s: State, e: Event, conn: nat, port: nat) {
    || e == ConnectionCloses(conn)
    || (e.DrainSweeps? && e.task < |s.tasks| && s.tasks[e.task].Draining?
        && (port == s.tasks[e.task].pass.oldPorts.https || port == s.tasks[e.task].pass.oldPorts.http))
  }

  /** What a step leaves alone at the front door. */
  ghost predicate SameClients(a: State, b: State) {
    a.gateway.conns == b.gateway.conns && a.gateway.nextConn == b.gateway.nextConn
  }

  lemma HeadKeepsClients(s: State, input: Input)
    requires |input.files| == |s.channels|
    ensures SameClients(s, Head(s, input))
  {
    hide PrepareEach, ArmEach, ClearAll, Applied, Readable, Sources;
  }

  lemma ResumeKeepsClients(s: State, task: Task, outcome: Outcome, input: Input)
    requires |input.files| == |s.channels| && Fits(s, task, outcome)
    ensures SameClients(s, Resume(s, task, outcome, input))
  {
    hide Head, ClearAll, StartEach, CommitEach, CommitAll, ArmAll, Secrets;
    match task
    case BringingUp(pass, _) => HeadKeepsClients(Rearmed(Did(s, FailedToStart(pass.idle)), pass, input), input);
    case StoppingIdle(pass) => HeadKeepsClients(Rearmed(s, pass, input), input);
    case StoppingOld(pass) => HeadKeepsClients(Rearmed(s, pass, input), input);
    case WaitingFirst(ports) =>
      HeadKeepsClients(
        s.(active := Active(Blue, Some(ports)),
           gateway := SetTarget(s.gateway, ports.Front()),
           effects := s.effects + [ReportedReady(Blue, ports)],
           channels := ArmAll(CommitAll(s.channels), input.now),
           work := s.work.(restarting := true)), input);
    case _ =>
  }

  lemma StepClients(s: State, e: Event)
    requires Enabled(s, e) && Numbered(s.gateway)
    ensures var before, after := s.gateway, Step(s, e).gateway;
      && Numbered(after) && before.nextConn <= after.nextConn
      && (forall c :: c in before.conns ==>
            && (c in after.conns <==> !Closes(s, e, c, before.conns[c]))
            && (c in after.conns ==> after.conns[c] == before.conns[c]))
      && (forall c :: c in after.conns && c !in before.conns ==> c == before.nextConn && e.ClientArrives?)
  {
    hide Head, Resume, OnTimer, NudgeEnds, ClearAll;
    match e
    case Resumes(i, outcome, input) => ResumeKeepsClients(s.(tasks := Without(s.tasks, i)), s.tasks[i], outcome, input);
    case FileChanged(source, input) =>
      if !s.life.settled && !s.work.restarting {
        HeadKeepsClients(s.(work := Mark(s.work, source).(restarting := true)), input);
      }
    case DrainSweeps(i) => SweepIs(s.gateway, s.tasks[i].pass.oldPorts.Front());
    case _ =>
  }

  lemma {:induction false} AllNumbered(states: seq<State>, events: seq<Event>, n: nat)
    requires Run(states, events) && n < |states| && Numbered(states[0].gateway)
    ensures Numbered(states[n].gateway)
  {
    hide Step, Enabled, Numbered;
    if n > 0 {
      AllNumbered(states, events, n - 1);
      StepClients(states[n - 1], events[n - 1]);
    }
  }

  /**
   * Until the loop settles, a client that arrives once it has started gets a connection of its own
   * to the active color.
   */
  lemma ArrivalIsServed(mcp: bool, configs: seq<Config>, states: seq<State>, events: seq<Event>, n: nat)
    requires History(mcp, configs, states, events) && n < |events| && events[n].ClientArrives?
    requires !states[n].life.settled && states[n].active.ports.Some?
    ensures var s := states[n];
      var ports := s.active.ports.value;
      && s.gateway.nextConn !in s.gateway.conns
      && states[n + 1].gateway.conns ==
         s.gateway.conns[s.gateway.nextConn := if events[n].isHttps then ports.https else ports.http]
  {
    ServesUntilSettled(mcp, configs, states, events, n, events[n].isHttps);
    AllNumbered(states, events, n);
  }

  /**
   * Old connections keep flowing: whatever else happens, flips and settlement included, a
   * connection stays where it is until it closes or a drain of its own port ends it, and then it is gone.
   */
  lemma {:induction false} ConnectionsKeepFlowing(mcp: bool, configs: seq<Config>, states: seq<State>, events: seq<Event>,
                                                  k: nat, n: nat, conn: nat)
    requires History(mcp, configs, states, events) && k <= n < |states| && conn in states[k].gateway.conns
    ensures conn < states[n].gateway.nextConn
    ensures var port := states[k].gateway.conns[conn];
      && (conn in states[n].gateway.conns <==> forall j :: k <= j < n ==> !Closes(states[j], events[j], conn, port))
      && (conn in states[n].gateway.conns ==> states[n].gateway.conns[conn] == port)
  {
    hide Step, Enabled, Closes;
    AllNumbered(states, events, n);
    if k < n {
      ConnectionsKeepFlowing(mcp, configs, states, events, k, n - 1, conn);
      AllNumbered(states, events, n - 1);
      StepClients(states[n - 1], events[n - 1]);
    }
  }
}
