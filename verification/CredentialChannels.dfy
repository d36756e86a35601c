// One credential source: the watched file, the secret it is written to, the token the proxy runs
// with, and the nudge timer (src/runHosting/credentialChannel.ts, src/runHosting/planNextActions.ts).
module CredentialChannels {
  import opened Collections

  datatype Credentials = Credentials(accessToken: string, expiresAt: int, accountId: Option<string>)

  /** `maxAttempts` counts the failed nudges after which the channel gives up. */
  datatype Config = Config(refreshWindow: int, retryInterval: int, maxAttempts: nat, refreshEnabled: bool)

  /** What a channel observed, in order: it is what its failure count is judged by. */
  datatype Note = Advanced | Failed | Exhausted

  /** What the channel read, wrote and committed. */
  datatype Tokens = Tokens(
    appliedToken: Option<string>,
    appliedAccount: Option<string>,
    pendingToken: Option<string>,
    pendingAccount: Option<string>,
    syncedAccount: Option<string>,
    seenExpiresAt: Option<int>,
    lastRead: Option<Credentials>,
    secret: Option<Credentials>)

  /**
   * The refresh machine: besides the channel's own fields, the timers it has armed (handle to due
   * time; a handle stays in `timer` after it fired), the nudges still running, and its history.
   */
  datatype Nudging = Nudging(
    awaiting: bool,
    failures: nat,
    lastNudgeAt: Option<int>,
    timer: Option<nat>,
    armed: map<nat, int>,
    nextHandle: nat,
    inFlight: nat,
    history: seq<Note>)

  datatype Channel = Channel(config: Config, tokens: Tokens, nudging: Nudging)

  /** What one read finds: the credentials, and whether an account sync, if one is made, succeeds. */
  datatype Read = Read(creds: Option<Credentials>, synced: bool)

  datatype Prepared = Prepared(restartNeeded: bool, readable: bool)

  datatype Plan = Plan(propagate: bool, nudgeAt: Option<int>)

  function PlanNextActions(c: Channel, creds: Credentials, now: int): Plan {
    var propagate := Some(creds.accessToken) != c.tokens.appliedToken;
    var target := creds.expiresAt - c.config.refreshWindow;
    if !c.config.refreshEnabled then Plan(propagate, None)
    else if c.nudging.awaiting && c.nudging.lastNudgeAt.Some? then Plan(propagate, Some(c.nudging.lastNudgeAt.value + c.config.retryInterval))
    else Plan(propagate, Some(if target <= now then now else target))
  }

  // --- Each operation as a function of the channel -------------------------------------------

  function Fresh(config: Config): Channel {
    Channel(config, Tokens(None, None, None, None, None, None, None, None), Nudging(false, 0, None, None, map[], 0, 0, []))
  }

  function Staged(c: Channel, creds: Credentials): Channel {
    var t := c.tokens;
    c.(tokens := t.(secret := Some(creds), pendingToken := Some(creds.accessToken), pendingAccount := creds.accountId))
  }

  function Synced(c: Channel, accountId: Option<string>, synced: bool): Channel {
    if synced then c.(tokens := c.tokens.(syncedAccount := accountId)) else c
  }

  function Seen(c: Channel, creds: Credentials): Channel {
    c.(tokens := c.tokens.(lastRead := Some(creds), seenExpiresAt := Some(creds.expiresAt)))
  }

  /** The startup read; the channel stays as it is when the file cannot be read. */
  function StartupRead(c: Channel, read: Read): Channel {
    if read.creds.None? then c
    else Synced(Seen(Staged(c, read.creds.value), read.creds.value), read.creds.value.accountId, read.synced)
  }

  /** The credentials are not the ones the proxy was last restarted with. */
  predicate NeedsRestart(c: Channel, creds: Credentials) {
    Some(creds.accessToken) != c.tokens.appliedToken || creds.accountId != c.tokens.appliedAccount
  }

  predicate HasAdvanced(c: Channel, creds: Credentials) {
    c.tokens.seenExpiresAt.Some? && creds.expiresAt > c.tokens.seenExpiresAt.value
  }

  function Settle(n: Nudging): Nudging {
    n.(failures := 0, awaiting := false, history := n.history + [Advanced])
  }

  function PreparedTokens(c: Channel, creds: Credentials, synced: bool): Tokens {
    var staged := if NeedsRestart(c, creds) then Staged(c, creds) else c;
    var after := if creds.accountId != c.tokens.syncedAccount then Synced(staged, creds.accountId, synced) else staged;
    Seen(after, creds).tokens
  }

  function Prepare(c: Channel, read: Read): Channel {
    if read.creds.None? then c
    else
      var creds := read.creds.value;
      var nudging := if HasAdvanced(c, creds) then Settle(c.nudging) else c.nudging;
      Channel(c.config, PreparedTokens(c, creds, read.synced), nudging)
  }

  function PrepareResult(c: Channel, read: Read): Prepared {
    if read.creds.None? then Prepared(false, false) else Prepared(NeedsRestart(c, read.creds.value), true)
  }

  function Commit(c: Channel): Channel {
    var t := c.tokens;
    if t.pendingToken.None? then c
    else
      c.(tokens := t.(appliedToken := t.pendingToken, pendingToken := None,
                      appliedAccount := t.pendingAccount, pendingAccount := None))
  }

  function ClearTimer(c: Channel): Channel {
    var n := c.nudging;
    if n.timer.None? then c else c.(nudging := n.(timer := None, armed := n.armed - {n.timer.value}))
  }

  function ArmAt(c: Channel, nudgeAt: Option<int>, now: int): Channel {
    var cleared := ClearTimer(c);
    if nudgeAt.None? then cleared
    else
      var due := if nudgeAt.value >= now then nudgeAt.value else now;
      var n := cleared.nudging;
      c.(nudging := n.(timer := Some(n.nextHandle), armed := n.armed[n.nextHandle := due], nextHandle := n.nextHandle + 1))
  }

  function ArmTimer(c: Channel, now: int): Channel {
    if c.tokens.lastRead.None? then c else ArmAt(c, PlanNextActions(c, c.tokens.lastRead.value, now).nudgeAt, now)
  }

  function Asking(c: Channel, now: int): Channel {
    c.(nudging := c.nudging.(awaiting := true, lastNudgeAt := Some(now)))
  }

  /** The part of a nudge before its outcome is awaited. */
  function Nudge(c: Channel, now: int): Channel {
    var asked := ArmAt(Asking(c, now), Some(now + c.config.retryInterval), now);
    asked.(nudging := asked.nudging.(inFlight := c.nudging.inFlight + 1))
  }

  function Counted(c: Channel): Channel {
    var n := ClearTimer(c).nudging;
    c.(nudging := n.(failures := n.failures + 1, history := n.history + [Failed]))
  }

  function GiveUp(c: Channel): Channel {
    c.(nudging := c.nudging.(history := c.nudging.history + [Exhausted]))
  }

  function FailedAttempt(c: Channel, now: int): Channel {
    var counted := Counted(c);
    if counted.nudging.failures >= c.config.maxAttempts then GiveUp(counted) else Nudge(counted, now)
  }

  /** A failed attempt exhausts the channel: it tells the loop, which ends. */
  predicate Exhausts(c: Channel) {
    c.nudging.failures + 1 >= c.config.maxAttempts
  }

  /** An armed timer fires. */
  function Fired(c: Channel, handle: nat): Channel {
    c.(nudging := c.nudging.(armed := c.nudging.armed - {handle}))
  }

  function OnTimer(c: Channel, handle: nat, settled: bool, now: int): Channel {
    var fired := Fired(c, handle);
    if settled then fired
    else if c.nudging.awaiting then FailedAttempt(fired, now)
    else Nudge(fired, now)
  }

  predicate TimerExhausts(c: Channel, settled: bool) {
    !settled && c.nudging.awaiting && Exhausts(c)
  }

  function Ended(c: Channel): Channel
    requires c.nudging.inFlight > 0
  {
    c.(nudging := c.nudging.(inFlight := c.nudging.inFlight - 1))
  }

  /** A running nudge ends. */
  function NudgeEnds(c: Channel, ok: bool, settled: bool, now: int): Channel
    requires c.nudging.inFlight > 0
  {
    var ended := Ended(c);
    if settled || !c.nudging.awaiting || ok then ended else FailedAttempt(ended, now)
  }

  predicate NudgeExhausts(c: Channel, ok: bool, settled: bool) {
    !settled && c.nudging.awaiting && !ok && Exhausts(c)
  }

  // --- What every operation keeps --------------------------------------------------------------

  /** The failure signals since the last observed advance. */
  function Signals(history: seq<Note>): nat {
    if history == [] then 0
    else
      var earlier := history[..|history| - 1];
      match history[|history| - 1]
      case Advanced => 0
      case Failed => Signals(earlier) + 1
      case Exhausted => Signals(earlier)
  }

  lemma SignalsSnoc(history: seq<Note>, note: Note)
    ensures Signals(history + [note]) ==
            match note case Advanced => 0 case Failed => Signals(history) + 1 case Exhausted => Signals(history)
  {
    assert (history + [note])[..|history|] == history;
  }

  /** At most the timer last armed is armed. */
  ghost predicate OneTimer(c: Channel) {
    && (forall h :: h in c.nudging.armed ==> c.nudging.timer == Some(h))
    && (c.nudging.timer.Some? ==> c.nudging.timer.value < c.nudging.nextHandle)
  }

  /** The channel counts the failure signals since the last advance, and has not given up. */
  ghost predicate Trying(c: Channel) {
    && c.nudging.failures == Signals(c.nudging.history) < c.config.maxAttempts
    && Exhausted !in c.nudging.history
  }

  /** The channel gave up once, at exactly `maxAttempts` failure signals since the last advance. */
  ghost predicate GaveUp(c: Channel) {
    && c.nudging.history != []
    && var earlier := c.nudging.history[..|c.nudging.history| - 1];
    c.nudging.history[|c.nudging.history| - 1] == Exhausted && Exhausted !in earlier && Signals(earlier) == c.config.maxAttempts
  }

  /** Refreshing, and watched: exactly one timer is armed. */
  ghost predicate Watched(c: Channel) {
    c.config.refreshEnabled ==> exists h :: c.nudging.armed.Keys == {h}
  }

  /** When the next nudge, or the deadline of the running one, is due; never before now. */
  function Due(c: Channel, creds: Credentials, now: int): int {
    var n := c.nudging;
    var at := if n.awaiting && n.lastNudgeAt.Some? then n.lastNudgeAt.value + c.config.retryInterval
              else creds.expiresAt - c.config.refreshWindow;
    if at >= now then at else now
  }

  lemma ClearTimerIs(c: Channel)
    requires OneTimer(c)
    ensures OneTimer(ClearTimer(c)) && ClearTimer(c).nudging.armed == map[]
  {
  }

  lemma ArmAtIs(c: Channel, nudgeAt: Option<int>, now: int)
    requires OneTimer(c)
    ensures OneTimer(ArmAt(c, nudgeAt, now))
    ensures ArmAt(c, nudgeAt, now).nudging.armed.Keys == if nudgeAt.Some? then {c.nudging.nextHandle} else {}
  {
    ClearTimerIs(c);
  }

  lemma ArmTimerIs(c: Channel, now: int)
    requires OneTimer(c)
    ensures OneTimer(ArmTimer(c, now))
    ensures c.tokens.lastRead.Some? || Watched(c) ==> Watched(ArmTimer(c, now))
    ensures c.tokens.lastRead.Some? && c.config.refreshEnabled ==>
              ArmTimer(c, now).nudging.armed == map[c.nudging.nextHandle := Due(c, c.tokens.lastRead.value, now)]
  {
    if c.tokens.lastRead.Some? {
      ArmAtIs(c, PlanNextActions(c, c.tokens.lastRead.value, now).nudgeAt, now);
    }
  }

  lemma NudgeIs(c: Channel, now: int)
    requires OneTimer(c)
    ensures OneTimer(Nudge(c, now)) && Watched(Nudge(c, now))
  {
    ArmAtIs(Asking(c, now), Some(now + c.config.retryInterval), now);
    assert Nudge(c, now).nudging.armed.Keys == {c.nudging.nextHandle};
  }

  /** A failure signal counts one, and the channel gives up exactly at the last allowed one. */
  lemma FailedAttemptIs(c: Channel, now: int)
    requires OneTimer(c) && Trying(c)
    ensures var after := FailedAttempt(c, now);
      && OneTimer(after)
      && (Exhausts(c) ==> GaveUp(after) && after.nudging.armed == map[])
      && (!Exhausts(c) ==> Trying(after) && Watched(after))
      && (Exhausts(c) <==> Signals(c.nudging.history) + 1 == c.config.maxAttempts)
  {
    ClearTimerIs(c);
    SignalsSnoc(c.nudging.history, Failed);
    var counted := Counted(c);
    if Exhausts(c) {
      assert FailedAttempt(c, now).nudging.history[..|counted.nudging.history|] == counted.nudging.history;
    } else {
      NudgeIs(counted, now);
    }
  }

  lemma OnTimerIs(c: Channel, handle: nat, now: int)
    requires OneTimer(c) && Trying(c) && handle in c.nudging.armed
    ensures var after := OnTimer(c, handle, false, now);
      && OneTimer(after)
      && (TimerExhausts(c, false) ==> GaveUp(after) && after.nudging.armed == map[])
      && (!TimerExhausts(c, false) ==> Trying(after) && Watched(after))
  {
    hide FailedAttempt, Nudge;
    if c.nudging.awaiting {
      FailedAttemptIs(Fired(c, handle), now);
    } else {
      NudgeIs(Fired(c, handle), now);
      NudgeCountsNothing(Fired(c, handle), now);
    }
  }

  lemma NudgeCountsNothing(c: Channel, now: int)
    ensures var after := Nudge(c, now);
      after.nudging.history == c.nudging.history && after.nudging.failures == c.nudging.failures && after.config == c.config
  {
  }

  lemma NudgeEndsIs(c: Channel, ok: bool, now: int)
    requires OneTimer(c) && Trying(c) && c.nudging.inFlight > 0
    ensures var after := NudgeEnds(c, ok, false, now);
      && OneTimer(after)
      && (NudgeExhausts(c, ok, false) ==> GaveUp(after) && after.nudging.armed == map[])
      && (!NudgeExhausts(c, ok, false) ==> Trying(after) && (Watched(c) ==> Watched(after)))
  {
    hide FailedAttempt;
    if c.nudging.awaiting && !ok {
      FailedAttemptIs(Ended(c), now);
    }
  }

  lemma PrepareIs(c: Channel, read: Read)
    requires OneTimer(c) && Trying(c)
    ensures var after := Prepare(c, read);
      && OneTimer(after) && Trying(after) && after.nudging.armed == c.nudging.armed && after.config == c.config
      && (var seen := c.tokens.seenExpiresAt;
          if read.creds.Some? && seen.Some? && read.creds.value.expiresAt > seen.value
          then Signals(after.nudging.history) == 0 && !after.nudging.awaiting
          else after.nudging == c.nudging)
  {
    hide PreparedTokens;
    SignalsSnoc(c.nudging.history, Advanced);
  }

  /** Until the next commit, the credentials that asked for a restart ask for it again. */
  lemma AsksAgain(c: Channel, read: Read, later: Channel, again: Read)
    requires PrepareResult(c, read).restartNeeded
    requires later.tokens.appliedToken == c.tokens.appliedToken && later.tokens.appliedAccount == c.tokens.appliedAccount
    requires again.creds == read.creds
    ensures PrepareResult(later, again).restartNeeded
    ensures Prepare(later, again).tokens.secret == read.creds
  {
  }

  // --- The channel as the source runs it ---------------------------------------------------------

  class CredentialChannel {
    const config: Config
    var appliedToken: Option<string>
    var appliedAccount: Option<string>
    var syncedAccount: Option<string>
    var seenExpiresAt: Option<int>
    var lastRead: Option<Credentials>
    var pendingToken: Option<string>
    var pendingAccount: Option<string>
    var awaiting: bool
    var failures: nat
    var lastNudgeAt: Option<int>
    var timer: Option<nat>
    // What the channel has set going outside, and what it has observed.
    var secret: Option<Credentials>
    var armed: map<nat, int>
    var nextHandle: nat
    var inFlight: nat
    var history: seq<Note>

    constructor (config: Config)
      ensures Value() == Fresh(config)
    {
      this.config := config;
      appliedToken, appliedAccount, syncedAccount := None, None, None;
      seenExpiresAt, lastRead, pendingToken, pendingAccount := None, None, None, None;
      awaiting, failures, lastNudgeAt, timer := false, 0, None, None;
      secret, armed, nextHandle, inFlight, history := None, map[], 0, 0, [];
    }

    function Value(): Channel
      reads this
    {
      Channel(config,
              Tokens(appliedToken, appliedAccount, pendingToken, pendingAccount, syncedAccount, seenExpiresAt, lastRead, secret),
              Nudging(awaiting, failures, lastNudgeAt, timer, armed, nextHandle, inFlight, history))
    }

    method Stage(creds: Credentials)
      modifies this`secret, this`pendingToken, this`pendingAccount
      ensures Value() == Staged(old(Value()), creds)
    {
      secret := Some(creds);
      pendingToken := Some(creds.accessToken);
      pendingAccount := creds.accountId;
    }

    method SyncAccountId(accountId: Option<string>, synced: bool)
      modifies this`syncedAccount
      ensures Value() == Synced(old(Value()), accountId, synced)
    {
      if synced { syncedAccount := accountId; }
    }

    method StartRead(read: Read) returns (creds: Option<Credentials>)
      modifies this
      ensures creds == read.creds
      ensures Value() == StartupRead(old(Value()), read)
    {
      creds := read.creds;
      if creds.None? { return; }
      Stage(creds.value);
      lastRead := creds;
      seenExpiresAt := Some(creds.value.expiresAt);
      SyncAccountId(creds.value.accountId, read.synced);
    }

    method PrepareRestart(read: Read, now: int) returns (result: Prepared)
      modifies this
      ensures result == PrepareResult(old(Value()), read)
      ensures Value() == Prepare(old(Value()), read)
    {
      if read.creds.None? { return Prepared(false, false); }
      var creds := read.creds.value;
      var advanced := seenExpiresAt.Some? && creds.expiresAt > seenExpiresAt.value;
      var plan := PlanNextActions(Value(), creds, now);
      var restartNeeded := false;
      var accountIdChanged := creds.accountId != appliedAccount;
      if plan.propagate || accountIdChanged {
        Stage(creds);
        restartNeeded := true;
      }
      if creds.accountId != syncedAccount { SyncAccountId(creds.accountId, read.synced); }
      ghost var synced := Value();
      assert synced.nudging == old(Value()).nudging;
      assert Seen(synced, creds).tokens == PreparedTokens(old(Value()), creds, read.synced);
      if advanced { RefreshLanded(); }
      assert Value().tokens == synced.tokens;
      lastRead := Some(creds);
      seenExpiresAt := Some(creds.expiresAt);
      return Prepared(restartNeeded, true);
    }

    /** Reset failure tracking and stop awaiting an outcome. */
    method RefreshLanded()
      modifies this`failures, this`awaiting, this`history
      ensures Value().nudging == Settle(old(Value()).nudging)
    {
      failures := 0;
      awaiting := false;
      history := history + [Advanced];
    }

    method CommitToken()
      modifies this
      ensures Value() == Commit(old(Value()))
    {
      if pendingToken.Some? {
        appliedToken := pendingToken;
        pendingToken := None;
        appliedAccount := pendingAccount;
        pendingAccount := None;
      }
    }

    method Clear()
      modifies this
      ensures Value() == ClearTimer(old(Value()))
    {
      if timer.Some? {
        armed := armed - {timer.value};
        timer := None;
      }
    }

    method ArmAtTime(nudgeAt: Option<int>, now: int)
      modifies this
      ensures Value() == ArmAt(old(Value()), nudgeAt, now)
    {
      Clear();
      if nudgeAt.None? { return; }
      var delay := if nudgeAt.value - now > 0 then nudgeAt.value - now else 0;
      armed := armed[nextHandle := now + delay];
      timer := Some(nextHandle);
      nextHandle := nextHandle + 1;
    }

    method Arm(now: int)
      modifies this
      ensures Value() == ArmTimer(old(Value()), now)
    {
      if lastRead.None? { return; }
      var plan := PlanNextActions(Value(), lastRead.value, now);
      ArmAtTime(plan.nudgeAt, now);
    }

    /** The part of a nudge before its outcome is awaited. */
    method DoNudge(now: int)
      modifies this
      ensures Value() == Nudge(old(Value()), now)
    {
      awaiting := true;
      lastNudgeAt := Some(now);
      ArmAtTime(Some(now + config.retryInterval), now);
      inFlight := inFlight + 1;
    }

    method HandleFailedAttempt(now: int) returns (exhausted: bool)
      modifies this
      ensures exhausted == Exhausts(old(Value()))
      ensures Value() == FailedAttempt(old(Value()), now)
    {
      Clear();
      failures := failures + 1;
      history := history + [Failed];
      if failures >= config.maxAttempts {
        history := history + [Exhausted];
        return true;
      }
      DoNudge(now);
      return false;
    }

    method TimerFires(handle: nat, settled: bool, now: int) returns (exhausted: bool)
      modifies this
      ensures exhausted == TimerExhausts(old(Value()), settled)
      ensures Value() == OnTimer(old(Value()), handle, settled, now)
    {
      armed := armed - {handle};
      if settled { return false; }
      if awaiting {
        exhausted := HandleFailedAttempt(now);
      } else {
        DoNudge(now);
        exhausted := false;
      }
    }

    /** The rest of a nudge, once its outcome is known. */
    method NudgeReturns(ok: bool, settled: bool, now: int) returns (exhausted: bool)
      requires inFlight > 0
      modifies this
      ensures exhausted == NudgeExhausts(old(Value()), ok, settled)
      ensures Value() == NudgeEnds(old(Value()), ok, settled, now)
    {
      inFlight := inFlight - 1;
      if settled || !awaiting { return false; }
      if ok { return false; }
      exhausted := HandleFailedAttempt(now);
    }
  }
}
