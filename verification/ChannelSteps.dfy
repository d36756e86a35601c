// What each operation of a credential channel does, told by the fields it reads and the numbers it
// compares (src/runHosting/credentialChannel.ts, src/runHosting/planNextActions.ts).
module ChannelSteps {
  import opened Collections
  import opened CredentialChannels

  /** The read credentials are not those the proxy was last restarted with: another token or another account. */
  predicate Differs(t: Tokens, creds: Credentials) {
    t.appliedToken != Some(creds.accessToken) || t.appliedAccount != creds.accountId
  }

  /** The channel had seen an expiry, and the one read now is strictly later: the refresh has landed. */
  predicate Later(t: Tokens, creds: Credentials) {
    t.seenExpiresAt.Some? && creds.expiresAt > t.seenExpiresAt.value
  }

  /**
   * A read restarts nothing and changes nothing without credentials. With them it asks for a restart
   * exactly when they differ from the applied ones, and then stages them; it resets the failure
   * count and stops awaiting exactly when the expiry is later than the last one seen.
   */
  lemma PrepareMeans(c: Channel, read: Read)
    ensures read.creds.None? ==> Prepare(c, read) == c && PrepareResult(c, read) == Prepared(false, false)
    ensures read.creds.Some? ==>
              var creds, t, after := read.creds.value, c.tokens, Prepare(c, read);
              && PrepareResult(c, read) == Prepared(Differs(t, creds), true)
              && after.config == c.config
              && after.nudging == (if Later(t, creds)
                                   then c.nudging.(failures := 0, awaiting := false, history := c.nudging.history + [Advanced])
                                   else c.nudging)
              && after.tokens == Tokens(
                   t.appliedToken, t.appliedAccount,
                   if Differs(t, creds) then Some(creds.accessToken) else t.pendingToken,
                   if Differs(t, creds) then creds.accountId else t.pendingAccount,
                   if creds.accountId != t.syncedAccount && read.synced then creds.accountId else t.syncedAccount,
                   Some(creds.expiresAt), Some(creds), if Differs(t, creds) then Some(creds) else t.secret)
  {
  }

  /** The plan for a read: to propagate another token, and to nudge at the deadline awaited, else the refresh window before expiry. */
  lemma PlanMeans(c: Channel, creds: Credentials, now: int)
    ensures var plan, n := PlanNextActions(c, creds, now), c.nudging;
      && (plan.propagate <==> c.tokens.appliedToken != Some(creds.accessToken))
      && (plan.nudgeAt.None? <==> !c.config.refreshEnabled)
      && (c.config.refreshEnabled ==>
            plan.nudgeAt == Some(
              if n.awaiting && n.lastNudgeAt.Some? then n.lastNudgeAt.value + c.config.retryInterval
              else Max(now, creds.expiresAt - c.config.refreshWindow)))
  {
  }

  /** The startup read stages whatever it finds. */
  lemma StartupReadMeans(c: Channel, read: Read)
    ensures read.creds.None? ==> StartupRead(c, read) == c
    ensures read.creds.Some? ==>
              var creds, t, after := read.creds.value, c.tokens, StartupRead(c, read);
              && after.config == c.config && after.nudging == c.nudging
              && after.tokens == Tokens(
                   t.appliedToken, t.appliedAccount, Some(creds.accessToken), creds.accountId,
                   if read.synced then creds.accountId else t.syncedAccount,
                   Some(creds.expiresAt), Some(creds), Some(creds))
  {
  }

  /** Whatever is staged becomes what is applied. */
  lemma CommitMeans(c: Channel)
    ensures var t, after := c.tokens, Commit(c);
      && after.config == c.config && after.nudging == c.nudging
      && after.tokens == (if t.pendingToken.Some?
                          then t.(appliedToken := t.pendingToken, appliedAccount := t.pendingAccount,
                                  pendingToken := None, pendingAccount := None)
                          else t)
  {
  }

  function Max(a: int, b: int): int {
    if a >= b then a else b
  }

  /**
   * A nudge awaits its outcome, and the only timer left is its deadline: the retry interval from
   * now. Counting is not its business.
   */
  lemma NudgeMeans(c: Channel, now: int)
    requires OneTimer(c)
    ensures var n, after := c.nudging, Nudge(c, now).nudging;
      && after.awaiting && after.lastNudgeAt == Some(now) && after.inFlight == n.inFlight + 1
      && after.armed == map[n.nextHandle := Max(now, now + c.config.retryInterval)]
      && after.failures == n.failures && after.history == n.history
  {
    ClearTimerIs(c);
  }

  /** A failed attempt counts one; at `maxAttempts` it gives up and arms nothing, before that it nudges again. */
  lemma FailedAttemptMeans(c: Channel, now: int)
    requires OneTimer(c)
    ensures var n, after := c.nudging, FailedAttempt(c, now).nudging;
      && after.failures == n.failures + 1
      && after.history == n.history + (if n.failures + 1 >= c.config.maxAttempts then [Failed, Exhausted] else [Failed])
      && (n.failures + 1 >= c.config.maxAttempts ==>
            after.armed == map[] && after.inFlight == n.inFlight && after.awaiting == n.awaiting)
      && (n.failures + 1 < c.config.maxAttempts ==>
            && after.awaiting && after.inFlight == n.inFlight + 1 && after.lastNudgeAt == Some(now)
            && after.armed == map[n.nextHandle := Max(now, now + c.config.retryInterval)])
  {
    ClearTimerIs(c);
    NudgeMeans(Counted(c), now);
  }

  /** A firing timer does nothing once the loop has settled; an awaited outcome has failed, and else it nudges. */
  lemma TimerMeans(c: Channel, handle: nat, settled: bool, now: int)
    ensures var fired, after := c.(nudging := c.nudging.(armed := c.nudging.armed - {handle})), OnTimer(c, handle, settled, now);
      && (settled ==> after == fired)
      && (!settled && c.nudging.awaiting ==> after == FailedAttempt(fired, now))
      && (!settled && !c.nudging.awaiting ==> after == Nudge(fired, now))
      && (TimerExhausts(c, settled) <==> !settled && c.nudging.awaiting && c.nudging.failures + 1 >= c.config.maxAttempts)
  {
  }

  /** A nudge that ends counts as failed exactly when it failed while still awaited. */
  lemma NudgeEndMeans(c: Channel, ok: bool, settled: bool, now: int)
    requires c.nudging.inFlight > 0
    ensures var ended, after := c.(nudging := c.nudging.(inFlight := c.nudging.inFlight - 1)), NudgeEnds(c, ok, settled, now);
      && after == (if !settled && c.nudging.awaiting && !ok then FailedAttempt(ended, now) else ended)
      && (NudgeExhausts(c, ok, settled) <==>
            !settled && c.nudging.awaiting && !ok && c.nudging.failures + 1 >= c.config.maxAttempts)
  {
  }

  /**
   * Arming replaces the timer: by none when refreshing is off; else by the deadline of the nudge
   * awaited, or by the refresh window before the expiry last read, and never before now.
   */
  lemma ArmMeans(c: Channel, now: int)
    requires OneTimer(c) && c.tokens.lastRead.Some?
    ensures var n := c.nudging;
      var at := if n.awaiting && n.lastNudgeAt.Some? then n.lastNudgeAt.value + c.config.retryInterval
                else c.tokens.lastRead.value.expiresAt - c.config.refreshWindow;
      && ArmTimer(c, now).nudging.armed == (if c.config.refreshEnabled then map[n.nextHandle := Max(now, at)] else map[])
      && ArmTimer(c, now).nudging.timer == (if c.config.refreshEnabled then Some(n.nextHandle) else None)
  {
    ClearTimerIs(c);
  }
}
