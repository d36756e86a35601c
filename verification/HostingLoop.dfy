// The blue-green hosting loop as a transition system (src/runHosting/runHostingLoop.ts). Every
// stretch of code between two awaits is one atomic step; file events, timers, finished nudges,
// signals, failing MCP servers, client connections and the results of awaited calls interleave freely.
module HostingLoop {
  import opened Collections
  import opened CredentialChannels
  import opened Gateways

  datatype Color = Blue | Green

  function Other(color: Color): Color {
    if color == Blue then Green else Blue
  }

  datatype Ports = Ports(https: nat, http: nat, admin: nat) {
    function Front(): Target { Target(https, http) }
  }

  predicate Disjoint(a: Ports, b: Ports) {
    {a.https, a.http, a.admin} !! {b.https, b.http, b.admin}
  }

  datatype Source = Policy | Credential(channel: nat)

  /** What the policy files hold: unreadable, readable but no configuration can be built, or fine. */
  datatype PolicyFiles = Unreadable | Rejected | Usable

  /** What a step finds if it reads, and the time it runs at. */
  datatype Input = Input(policy: PolicyFiles, files: seq<Read>, now: int)

  /** One swap in progress: the channels whose new token it applies, and those it read afresh. */
  datatype Pass = Pass(idle: Color, oldColor: Color, oldPorts: Ports, applied: set<nat>, readable: set<nat>)

  /** A suspended call of `start` or `drainRestarts`, by the await it is suspended at. */
  datatype Task =
    | Starting
    | AllocatingMcp
    | AllocatingFirst
    | StartingFirst(ports: Ports)
    | WaitingFirst(ports: Ports)
    | Allocating(pass: Pass)
    | BringingUp(pass: Pass, ports: Ports)
    | Waiting(pass: Pass, ports: Ports)
    | StoppingIdle(pass: Pass)
    | Switching(pass: Pass, ports: Ports)
    | Draining(pass: Pass, swept: bool)
    | StoppingOld(pass: Pass)

  /** Suspended in `start` before the watchers are armed. */
  predicate Early(t: Task) {
    t.Starting? || t.AllocatingMcp?
  }

  /** Suspended in `start`. */
  predicate Booting(t: Task) {
    Early(t) || t.AllocatingFirst? || t.StartingFirst? || t.WaitingFirst?
  }

  /** What the loop did to the containers; a container starts with the secrets as they are then. */
  datatype Effect =
    | BringUp(color: Color, ports: Ports, secrets: seq<Option<Credentials>>)
    | FailedToStart(color: Color)
    | ReportedReady(color: Color, ports: Ports)
    | Stop(color: Color)

  datatype Life = Life(settled: bool, stopSignalSeen: bool, watching: bool, supervised: bool,
                       teardowns: seq<int>, exits: seq<int>)

  datatype Work = Work(restarting: bool, policy: bool, dirty: set<nat>) {
    predicate Pending() { policy || dirty != {} }

    predicate Has(source: Source) {
      match source case Policy => policy case Credential(i) => i in dirty
    }
  }

  datatype Active = Active(color: Color, ports: Option<Ports>)

  /** `readLog` lists the sources read by restart passes so far. */
  datatype State = State(
    mcp: bool,
    life: Life,
    work: Work,
    active: Active,
    channels: seq<Channel>,
    tasks: seq<Task>,
    gateway: Gate,
    effects: seq<Effect>,
    readLog: seq<Source>)

  function Initial(mcp: bool, configs: seq<Config>): State {
    State(mcp, Life(false, false, false, false, [], []), Work(false, false, {}), Active(Blue, None),
          seq(|configs|, i requires 0 <= i < |configs| => Fresh(configs[i])), [Starting], Gate(None, map[], 0), [], [])
  }

  // --- Every channel at once -----------------------------------------------------------------------

  function Secrets(channels: seq<Channel>): (r: seq<Option<Credentials>>)
    ensures |r| == |channels|
  {
    seq(|channels|, i requires 0 <= i < |channels| => channels[i].tokens.secret)
  }

  function ClearAll(channels: seq<Channel>): (r: seq<Channel>)
    ensures |r| == |channels|
  {
    seq(|channels|, i requires 0 <= i < |channels| => ClearTimer(channels[i]))
  }

  function ArmEach(channels: seq<Channel>, which: set<nat>, now: int): (r: seq<Channel>)
    ensures |r| == |channels|
  {
    seq(|channels|, i requires 0 <= i < |channels| => if i in which then ArmTimer(channels[i], now) else channels[i])
  }

  function CommitEach(channels: seq<Channel>, which: set<nat>): (r: seq<Channel>)
    ensures |r| == |channels|
  {
    seq(|channels|, i requires 0 <= i < |channels| => if i in which then Commit(channels[i]) else channels[i])
  }

  function PrepareEach(channels: seq<Channel>, which: set<nat>, files: seq<Read>): (r: seq<Channel>)
    requires |files| == |channels|
    ensures |r| == |channels|
  {
    seq(|channels|, i requires 0 <= i < |channels| => if i in which then Prepare(channels[i], files[i]) else channels[i])
  }

  function ArmAll(channels: seq<Channel>, now: int): (r: seq<Channel>)
    ensures |r| == |channels|
  {
    seq(|channels|, i requires 0 <= i < |channels| => ArmTimer(channels[i], now))
  }

  function CommitAll(channels: seq<Channel>): (r: seq<Channel>)
    ensures |r| == |channels|
  {
    seq(|channels|, i requires 0 <= i < |channels| => Commit(channels[i]))
  }

  predicate AllReadable(files: seq<Read>) {
    forall i :: 0 <= i < |files| ==> files[i].creds.Some?
  }

  /** The startup reads in order, up to the first channel that cannot be read. */
  function StartEach(channels: seq<Channel>, files: seq<Read>): (r: seq<Channel>)
    requires |files| == |channels|
    ensures |r| == |channels|
  {
    seq(|channels|, i requires 0 <= i < |channels| =>
      if AllReadable(files[..i]) then StartupRead(channels[i], files[i]) else channels[i])
  }

  // --- Ending --------------------------------------------------------------------------------------

  /** The first caller decides the exit code; an MCP failure also stops both colors. */
  function Shutdown(s: State, code: int, stopColors: bool): State {
    if s.life.settled then s
    else
      s.(life := s.life.(settled := true, teardowns := s.life.teardowns + [code]),
         channels := ClearAll(s.channels),
         effects := if stopColors then s.effects + [Stop(Blue)] + [Stop(Green)] else s.effects)
  }

  function Fatal(s: State): State {
    Shutdown(s, 1, false)
  }

  function OnStopSignal(s: State): State {
    if s.life.stopSignalSeen || s.life.settled then s
    else Shutdown(s.(life := s.life.(stopSignalSeen := true)), 0, false)
  }

  // --- Restart passes ------------------------------------------------------------------------------

  function Suspend(s: State, task: Task): State {
    s.(tasks := s.tasks + [task])
  }

  /** The call ends: `finally { restarting = false }`. */
  function Finish(s: State): State {
    s.(work := s.work.(restarting := false))
  }

  /** The pending sources become this pass's; `read` are read. */
  function Taken(s: State, read: seq<Source>): State {
    s.(work := s.work.(policy := false, dirty := {}), readLog := s.readLog + read)
  }

  function Sources(work: Work, n: nat): seq<Source> {
    (if work.policy then [Policy] else []) + DirtySources(work.dirty, n)
  }

  function DirtySources(dirty: set<nat>, n: nat): seq<Source> {
    if n == 0 then [] else DirtySources(dirty, n - 1) + (if n - 1 in dirty then [Credential(n - 1)] else [])
  }

  function Readable(which: set<nat>, files: seq<Read>): set<nat> {
    set i | i in which && i < |files| && files[i].creds.Some?
  }

  function Applied(channels: seq<Channel>, which: set<nat>, files: seq<Read>): set<nat>
    requires |files| == |channels|
  {
    set i | i in which && i < |files| && PrepareResult(channels[i], files[i]).restartNeeded
  }

  /** The head of the loop in `drainRestarts`, up to its next await or its end. */
  function Head(s: State, input: Input): State
    requires |input.files| == |s.channels|
  {
    if s.life.settled || !s.work.Pending() then Finish(s)
    else if s.work.policy && input.policy == Rejected then Finish(Fatal(Taken(s, [Policy])))
    else
      var which := s.work.dirty;
      var applied := Applied(s.channels, which, input.files);
      var readable := Readable(which, input.files);
      var prepared := Taken(s, Sources(s.work, |s.channels|)).(channels := PrepareEach(s.channels, which, input.files));
      if ((s.work.policy && input.policy == Usable) || applied != {}) && s.active.ports.Some? then
        var pass := Pass(Other(s.active.color), s.active.color, s.active.ports.value, applied, readable);
        Suspend(prepared, Allocating(pass))
      else
        // Nothing becomes pending without an await, so the loop ends here.
        Finish(prepared.(channels := ArmEach(prepared.channels, readable, input.now)))
  }

  /** The end of a pass, and the next round of the loop. */
  function Tail(s: State, pass: Pass, input: Input): State
    requires |input.files| == |s.channels|
  {
    Head(if s.life.settled then s else s.(channels := ArmEach(s.channels, pass.readable, input.now)), input)
  }

  function DrainRestarts(s: State, input: Input): State
    requires |input.files| == |s.channels|
  {
    Head(s.(work := s.work.(restarting := true)), input)
  }

  function Mark(work: Work, source: Source): Work {
    match source
    case Policy => work.(policy := true)
    case Credential(i) => work.(dirty := work.dirty + {i})
  }

  function RequestRestart(s: State, source: Source, input: Input): State
    requires |input.files| == |s.channels|
  {
    if s.life.settled then s
    else
      var marked := s.(work := Mark(s.work, source));
      if s.work.restarting then marked else DrainRestarts(marked, input)
  }

  // --- Startup -------------------------------------------------------------------------------------

  function Start(s: State, input: Input): State
    requires |input.files| == |s.channels|
  {
    var read := s.(channels := StartEach(s.channels, input.files));
    if !AllReadable(input.files) then Fatal(read)
    else if s.mcp then Suspend(read, AllocatingMcp)
    else StartPolicy(read, input)
  }

  function StartPolicy(s: State, input: Input): State {
    if input.policy == Unreadable then Fatal(s)
    else
      var watching := s.(life := s.life.(watching := true));
      if input.policy == Rejected then Fatal(watching)
      else
        Suspend(watching.(life := watching.life.(supervised := s.mcp), work := s.work.(restarting := true)), AllocatingFirst)
  }

  /** The first color serves: the loop has started. */
  function Activate(s: State, ports: Ports, input: Input): State
    requires |input.files| == |s.channels|
  {
    var serving := s.(
      active := Active(Blue, Some(ports)),
      gateway := SetTarget(s.gateway, ports.Front()),
      effects := s.effects + [ReportedReady(Blue, ports)],
      channels := ArmAll(CommitAll(s.channels), input.now),
      work := s.work.(restarting := false));
    if serving.work.Pending() then DrainRestarts(serving, input) else serving
  }

  /** The flip: new connections go to the other color from here on. */
  function Flip(s: State, pass: Pass, ports: Ports): State {
    s.(active := Active(pass.idle, Some(ports)),
       gateway := SetTarget(s.gateway, ports.Front()),
       channels := CommitEach(s.channels, pass.applied))
  }

  // --- Resuming an await ---------------------------------------------------------------------------

  datatype Outcome = Allocated(ports: Ports) | Started(ok: bool) | Waited(ready: bool) | Done

  /** The outcomes an await can have: new ports are not live, a drain ends swept or aborted. */
  predicate Fits(s: State, task: Task, outcome: Outcome) {
    match task
    case AllocatingFirst => outcome.Allocated?
    case Allocating(_) => outcome.Allocated? && (s.active.ports.Some? ==> Disjoint(outcome.ports, s.active.ports.value))
    case StartingFirst(_) => outcome.Started?
    case BringingUp(_, _) => outcome.Started?
    case WaitingFirst(_) => outcome.Waited?
    case Waiting(_, _) => outcome.Waited?
    case Draining(_, swept) => outcome.Done? && (swept || s.life.settled)
    case _ => outcome.Done?
  }

  function Did(s: State, effect: Effect): State {
    s.(effects := s.effects + [effect])
  }

  function BringUpColor(s: State, color: Color, ports: Ports): State {
    Did(s, BringUp(color, ports, Secrets(s.channels)))
  }

  /** The rest of a suspended call up to its next await or its end; `s` no longer lists it. */
  function Resume(s: State, task: Task, outcome: Outcome, input: Input): State
    requires |input.files| == |s.channels| && Fits(s, task, outcome)
  {
    match task
    case Starting => Start(s, input)
    case AllocatingMcp => StartPolicy(s, input)
    case AllocatingFirst =>
      if s.life.settled then Finish(s)
      else Suspend(BringUpColor(s, Blue, outcome.ports), StartingFirst(outcome.ports))
    case StartingFirst(ports) =>
      if !outcome.ok then Finish(Fatal(s))
      else if s.life.settled then Finish(s)
      else Suspend(s, WaitingFirst(ports))
    case WaitingFirst(ports) =>
      if s.life.settled then Finish(s)
      else if !outcome.ready then Finish(Fatal(s))
      else Activate(s, ports, input)
    // Not looked at here: whether the loop has settled while the ports were being allocated.
    case Allocating(pass) => Suspend(BringUpColor(s, pass.idle, outcome.ports), BringingUp(pass, outcome.ports))
    case BringingUp(pass, ports) =>
      if s.life.settled then Finish(s)
      else if outcome.ok then Suspend(s, Waiting(pass, ports))
      else Tail(Did(s, FailedToStart(pass.idle)), pass, input)
    case Waiting(pass, ports) =>
      if s.life.settled then Finish(s)
      else if outcome.ready then Suspend(Did(s, ReportedReady(pass.idle, ports)), Switching(pass, ports))
      else Suspend(Did(s, Stop(pass.idle)), StoppingIdle(pass))
    case StoppingIdle(pass) => Tail(s, pass, input)
    case Switching(pass, ports) => Suspend(Flip(s, pass, ports), Draining(pass, false))
    case Draining(pass, _) => Suspend(Did(s, Stop(pass.oldColor)), StoppingOld(pass))
    case StoppingOld(pass) => Tail(s, pass, input)
  }

  // --- Steps ---------------------------------------------------------------------------------------

  datatype Event =
    | FileChanged(source: Source, input: Input)
    | TimerFires(channel: nat, handle: nat, now: int)
    | NudgeReturns(channel: nat, ok: bool, now: int)
    | StopSignal
    | McpFails
    | ClientArrives(isHttps: bool)
    | ConnectionCloses(conn: nat)
    | DrainSweeps(task: nat)
    | Resumes(task: nat, outcome: Outcome, input: Input)
    | TornDown(teardown: nat)

  function Without<T>(s: seq<T>, i: nat): seq<T>
    requires i < |s|
  {
    s[..i] + s[i + 1..]
  }

  predicate Enabled(s: State, e: Event) {
    match e
    case FileChanged(source, input) =>
      && s.life.watching && |input.files| == |s.channels|
      && (source.Credential? ==> source.channel < |s.channels|)
    case TimerFires(i, handle, _) => i < |s.channels| && handle in s.channels[i].nudging.armed
    case NudgeReturns(i, _, _) => i < |s.channels| && s.channels[i].nudging.inFlight > 0
    case StopSignal => s.life.watching
    case McpFails => s.life.supervised
    case ClientArrives(_) => true
    case ConnectionCloses(_) => true
    case DrainSweeps(i) => i < |s.tasks| && s.tasks[i].Draining? && !s.tasks[i].swept && !s.life.settled
    case Resumes(i, outcome, input) => i < |s.tasks| && Fits(s, s.tasks[i], outcome) && |input.files| == |s.channels|
    case TornDown(i) => i < |s.life.teardowns|
  }

  function Step(s: State, e: Event): State
    requires Enabled(s, e)
  {
    match e
    case FileChanged(source, input) => RequestRestart(s, source, input)
    case TimerFires(i, handle, now) =>
      var c := s.channels[i];
      var after := s.(channels := s.channels[i := OnTimer(c, handle, s.life.settled, now)]);
      if TimerExhausts(c, s.life.settled) then Fatal(after) else after
    case NudgeReturns(i, ok, now) =>
      var c := s.channels[i];
      var after := s.(channels := s.channels[i := NudgeEnds(c, ok, s.life.settled, now)]);
      if NudgeExhausts(c, ok, s.life.settled) then Fatal(after) else after
    case StopSignal => OnStopSignal(s)
    case McpFails => Shutdown(s, 1, true)
    case ClientArrives(isHttps) => s.(gateway := OnClient(s.gateway, isHttps))
    case ConnectionCloses(conn) => s.(gateway := Teardown(s.gateway, conn))
    case DrainSweeps(i) =>
      var pass := s.tasks[i].pass;
      s.(gateway := Sweep(s.gateway, pass.oldPorts.Front()), tasks := s.tasks[i := Draining(pass, true)])
    case Resumes(i, outcome, input) => Resume(s.(tasks := Without(s.tasks, i)), s.tasks[i], outcome, input)
    case TornDown(i) =>
      s.(life := s.life.(teardowns := Without(s.life.teardowns, i), exits := s.life.exits + [s.life.teardowns[i]]))
  }

  ghost predicate Run(states: seq<State>, events: seq<Event>) {
    && |states| == |events| + 1
    && (forall k :: 0 <= k < |events| ==> Enabled(states[k], events[k]))
    && (forall k :: 0 <= k < |events| ==> states[k + 1] == Step(states[k], events[k]))
  }
}
