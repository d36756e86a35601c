// One setup run from the share prompt to its end, with the cleanup of every ending
// (src/guestSetup/windows/setupFlow.ts). Each phase may succeed, fail or be interrupted; an
// abandoned guest call marks nothing in the ledger any more.
module SetupFlow {
  import opened Collections
  import opened ShareCredentials

  /** One round of the share prompt at G4. */
  datatype Attempt =
    | PromptEnded
    | HostCheckFails
    | Tried(secret: Secret, replace: ScriptRun, verify: ScriptRun, repromptable: bool)

  /** How everything a run waits for goes; a `false` is a failure or an interrupt. */
  datatype Course = Course(
    reachesG4: bool,
    attempts: seq<Attempt>,
    trustReconciled: bool,
    preSteps: ScriptRun,
    closeDefault: ScriptRun,
    gateOpen: bool,
    replaceInternal: ScriptRun,
    isolated: bool,
    guestReady: bool,
    networkReady: bool,
    verifyInternal: ScriptRun,
    postSteps: ScriptRun,
    closeInternal: ScriptRun,
    cleanup: CleanupRun)

  datatype Phase = Before | G4 | G5 | G6 | G7 | G8 | G9 | G10 | G11 | G12 | G13

  datatype Outcome = Success | Ended(phase: Phase)

  /** The secret of the attempt that is reached and authenticates, every earlier one having only failed to authenticate. */
  function Authenticated(attempts: seq<Attempt>): Option<Secret> {
    if attempts == [] || !attempts[0].Tried? || !Done(attempts[0].replace, 3) then None
    else if attempts[0].verify.answered then Some(attempts[0].secret)
    else if attempts[0].repromptable then Authenticated(attempts[1..])
    else None
  }

  /** The first phase in which something fails or is interrupted is where a run ends. */
  function Ending(course: Course): Outcome {
    if !course.reachesG4 then Ended(Before)
    else if Authenticated(course.attempts).None? then Ended(G4)
    else if !course.trustReconciled then Ended(G5)
    else if !course.preSteps.answered || !Done(course.closeDefault, 1) then Ended(G6)
    else if !course.gateOpen then Ended(G7)
    else EndingInside(course)
  }

  function EndingInside(course: Course): Outcome {
    if !Done(course.replaceInternal, 3) then Ended(G8)
    else if !course.isolated then Ended(G9)
    else if !course.guestReady then Ended(G10)
    else if !course.networkReady then Ended(G11)
    else if !course.verifyInternal.answered then Ended(G12)
    else if !course.postSteps.answered || !Done(course.closeInternal, 1) then Ended(G13)
    else Success
  }

  /** Nothing fails in the phase and nobody interrupts it. */
  predicate Passes(course: Course, phase: Phase) {
    match phase
    case Before => course.reachesG4
    case G4 => Authenticated(course.attempts).Some?
    case G5 => course.trustReconciled
    case G6 => course.preSteps.answered && course.closeDefault.answered && course.closeDefault.effects >= 1
    case G7 => course.gateOpen
    case G8 => course.replaceInternal.answered && course.replaceInternal.effects >= 3
    case G9 => course.isolated
    case G10 => course.guestReady
    case G11 => course.networkReady
    case G12 => course.verifyInternal.answered
    case G13 => course.postSteps.answered && course.closeInternal.answered && course.closeInternal.effects >= 1
  }

  const PHASES := [Before, G4, G5, G6, G7, G8, G9, G10, G11, G12, G13]

  /** A run succeeds exactly when it passes every phase, and otherwise ends in the first it does not pass. */
  lemma EndsInFirst(course: Course, i: nat)
    requires i < |PHASES|
    ensures Ending(course) == Success <==> forall k :: 0 <= k < |PHASES| ==> Passes(course, PHASES[k])
    ensures Ending(course) == Ended(PHASES[i]) <==>
              !Passes(course, PHASES[i]) && forall k :: 0 <= k < i ==> Passes(course, PHASES[k])
  {
    assert PHASES[0] == Before && PHASES[1] == G4 && PHASES[2] == G5 && PHASES[3] == G6 && PHASES[4] == G7 && PHASES[5] == G8;
    assert PHASES[6] == G9 && PHASES[7] == G10 && PHASES[8] == G11 && PHASES[9] == G12 && PHASES[10] == G13;
  }

  /** The attempt's secret was stored by all three effects of the script. */
  predicate Replaced(attempt: Attempt) {
    attempt.Tried? && attempt.replace.effects >= 3 && attempt.replace.answered
  }

  /** The attempt whose secret it is. */
  lemma {:induction false} AuthenticatedIs(attempts: seq<Attempt>)
    ensures forall secret :: Authenticated(attempts) == Some(secret) <==>
              exists i :: 0 <= i < |attempts| && attempts[i].Tried? && attempts[i].secret == secret
                && Replaced(attempts[i]) && attempts[i].verify.answered
                && forall j :: 0 <= j < i ==> Replaced(attempts[j]) && !attempts[j].verify.answered && attempts[j].repromptable
  {
    if attempts != [] {
      var rest := attempts[1..];
      AuthenticatedIs(rest);
      assert forall i :: 0 <= i < |rest| ==> rest[i] == attempts[i + 1];
      forall secret
        ensures Authenticated(attempts) == Some(secret) ==>
              exists i :: 0 <= i < |attempts| && attempts[i].Tried? && attempts[i].secret == secret
                && Replaced(attempts[i]) && attempts[i].verify.answered
                && forall j :: 0 <= j < i ==> Replaced(attempts[j]) && !attempts[j].verify.answered && attempts[j].repromptable
      {
        if Authenticated(attempts) == Some(secret) && !attempts[0].verify.answered {
          var i :| 0 <= i < |rest| && rest[i].Tried? && rest[i].secret == secret && Replaced(rest[i]) && rest[i].verify.answered
            && forall j :: 0 <= j < i ==> Replaced(rest[j]) && !rest[j].verify.answered && rest[j].repromptable;
          assert attempts[i + 1] == rest[i];
        }
      }
    }
  }

  /** G4: asks again only when the guest could not authenticate; `None` when the run ends here. */
  method ShareCredential(sharing: VmShareCredentials, target: Target, attempts: seq<Attempt>) returns (secret: Option<Secret>)
    requires sharing.Valid() && sharing.ledger.byAddress.Keys <= {target.hostIp} && sharing.ledger.open <= {target.hostIp}
    modifies sharing.ledger, sharing.guest
    ensures sharing.Valid()
    ensures sharing.ledger.byAddress.Keys <= {target.hostIp} && sharing.ledger.open <= {target.hostIp}
    ensures secret.Some? ==> Has(sharing.ledger.byAddress, target.hostIp, Verified) && target.hostIp in sharing.ledger.open
    ensures secret.Some? ==> sharing.guest.credentials[target.hostIp] == secret.value
    ensures secret == Authenticated(attempts)
  {
    for i := 0 to |attempts|
      invariant Authenticated(attempts) == Authenticated(attempts[i..])
      invariant sharing.Valid()
      invariant sharing.ledger.byAddress.Keys <= {target.hostIp} && sharing.ledger.open <= {target.hostIp}
    {
      assert attempts[i..][0] == attempts[i] && attempts[i..][1..] == attempts[i + 1..];
      if !attempts[i].Tried? { return None; }
      var ok := sharing.Replace(target, attempts[i].secret, attempts[i].replace);
      if !ok { return None; }
      ok := sharing.Verify(target, attempts[i].verify);
      if ok { return Some(attempts[i].secret); }
      if !attempts[i].repromptable { return None; }
    }
    return None;
  }

  method Proceed(sharing: VmShareCredentials, defaultTarget: Target, internal: Target, course: Course) returns (outcome: Outcome)
    requires sharing.Valid() && sharing.ledger.byAddress == map[] && sharing.ledger.open == {}
    modifies sharing.ledger, sharing.guest
    ensures sharing.Valid()
    ensures course.reachesG4 ==> outcome == Ending(course)
    ensures outcome == Success ==>
              && sharing.ledger.byAddress.Keys == {defaultTarget.hostIp, internal.hostIp}
              && Has(sharing.ledger.byAddress, defaultTarget.hostIp, Verified)
              && Has(sharing.ledger.byAddress, internal.hostIp, Verified)
              && sharing.ledger.open == {}
              && Some(sharing.guest.credentials[defaultTarget.hostIp]) == Authenticated(course.attempts)
              && Some(sharing.guest.credentials[internal.hostIp]) == Authenticated(course.attempts)
  {
    var secret := ShareCredential(sharing, defaultTarget, course.attempts);
    if secret.None? { return Ended(G4); }
    if !course.trustReconciled { return Ended(G5); }
    var ok := sharing.RunSteps(defaultTarget, course.preSteps);
    if !ok { return Ended(G6); }
    ok := sharing.Close(defaultTarget, course.closeDefault);
    if !ok { return Ended(G6); }
    if !course.gateOpen { return Ended(G7); }
    outcome := InternalShare(sharing, internal, secret.value, course);
  }

  /** G8 to G13: the same secret at the Internal-switch address, verified once the guest is isolated. */
  method InternalShare(sharing: VmShareCredentials, internal: Target, secret: Secret, course: Course) returns (outcome: Outcome)
    requires sharing.Valid()
    modifies sharing.ledger, sharing.guest
    ensures sharing.Valid()
    ensures outcome == EndingInside(course)
    ensures outcome == Success ==>
              && sharing.ledger.byAddress == old(sharing.ledger.byAddress)[internal.hostIp := Entry(internal.role, Verified)]
              && sharing.ledger.open == old(sharing.ledger.open) - {internal.hostIp}
              && sharing.guest.credentials[internal.hostIp] == secret
              && forall ip :: ip != internal.hostIp && ip in sharing.guest.credentials ==>
                   ip in old(sharing.guest.credentials) && sharing.guest.credentials[ip] == old(sharing.guest.credentials)[ip]
  {
    var ok := sharing.Replace(internal, secret, course.replaceInternal);
    if !ok { return Ended(G8); }
    if !course.isolated { return Ended(G9); }
    if !course.guestReady { return Ended(G10); }
    if !course.networkReady { return Ended(G11); }
    ok := sharing.Verify(internal, course.verifyInternal);
    if !ok { return Ended(G12); }
    ok := sharing.RunSteps(internal, course.postSteps);
    if !ok { return Ended(G13); }
    ok := sharing.Close(internal, course.closeInternal);
    if !ok { return Ended(G13); }
    return Success;
  }

  /**
   * A successful run ends with both entries verified, the authenticated account and password behind both,
   * nothing open, and a cleanup that did nothing; every other run ends with no entry merely written,
   * and with every entry that was verified when it ended still verified and in the guest; an entry merely
   * written then is gone from the guest when the cleanup got through its item and said so in time.
   */
  method RunWindowsSetup(sharing: VmShareCredentials, defaultTarget: Target, internal: Target, course: Course)
    returns (outcome: Outcome, ghost atEnd: map<HostIp, Entry>, ghost stored: map<HostIp, Secret>)
    requires sharing.Valid() && sharing.ledger.byAddress == map[] && sharing.ledger.open == {}
    modifies sharing.ledger, sharing.guest
    ensures sharing.Valid()
    ensures outcome == Ending(course)
    ensures outcome == Success ==>
              && sharing.ledger.byAddress == atEnd && sharing.guest.credentials == stored
              && sharing.ledger.open == {} && sharing.guest.connections == {}
              && Has(atEnd, defaultTarget.hostIp, Verified) && Has(atEnd, internal.hostIp, Verified)
              && Some(stored[defaultTarget.hostIp]) == Authenticated(course.attempts)
              && Some(stored[internal.hostIp]) == Authenticated(course.attempts)
    ensures Unverified(sharing.ledger.byAddress) == {}
    ensures forall ip :: Has(atEnd, ip, Verified) ==>
              Has(sharing.ledger.byAddress, ip, Verified) && ip in stored
              && ip in sharing.guest.credentials && sharing.guest.credentials[ip] == stored[ip]
    ensures forall ip :: ip in stored && ip !in sharing.guest.credentials ==> Has(atEnd, ip, Written)
    ensures forall ip :: Has(atEnd, ip, Written) && course.cleanup.arrived && ip in course.cleanup.results
                         && course.cleanup.results[ip].effects >= 2 && course.cleanup.results[ip].answered ==>
              ip !in sharing.guest.credentials && ip !in sharing.guest.connections
    ensures forall ip :: ip !in atEnd && ip in sharing.initial ==>
              ip in sharing.guest.credentials && sharing.guest.credentials[ip] == sharing.initial[ip]
  {
    if !course.reachesG4 {
      atEnd, stored := sharing.ledger.byAddress, sharing.guest.credentials;
      return Ended(Before), atEnd, stored;
    }
    outcome := Proceed(sharing, defaultTarget, internal, course);
    atEnd, stored := sharing.ledger.byAddress, sharing.guest.credentials;
    sharing.Cleanup(course.cleanup);
  }
}
