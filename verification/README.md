# Susentorno: verified protocols and compilers

This project models the parts of susentorno that carry its guarantees and proves them: what the
Windows guest's trust store goes through over interrupted setup runs, what the policy files compile
to, how the proxy is swapped blue-green under a running gateway, what the DHCP server promises, and
six smaller algorithms. The statements are for all inputs, all runs or all reachable states; a few are
concrete runs that show how such a statement fails, each beside its exact condition.

## How it is laid out

- **Guest trust** (`TrustPlanner`, `TrustPlans`, `TrustReconciler`, `TrustTheorems`). A planner reads a snapshot of
  the guest and emits operations; each operation is a sequence of atomic effects that may stop
  anywhere. A history is any sequence of complete or cut runs with foreign store changes between them.
- **Policy compiler** (`Allowlist`, `McpServers`, `EnvoyConfig`, `RoutingTheorems`, `PlainHttp`,
  `UniqueMatchers`, `LeafCertificate`). Lists become filter chains and virtual hosts; Envoy's matching is
  a specification; routing on port 443 and on port 80 is compared with a decision list each, and the
  chains that end TLS with the names on the leaf certificate.
- **Hosting loop** (`CredentialChannels`, `ChannelSteps`, `Gateways`, `HostingLoop`, `HostingMachine`,
  `HostingTheorems`, `HostingRuns`, `HostingReads`, `HostingAttempts`, `HostingProgress`,
  `HostingClients`, `HostingEnding`). `HostingLoop` is a transition system whose steps are the
  stretches of code between awaits; `HostingMachine` is the same code over mutable variables, proved
  to take exactly those steps; the others hold the invariants and what they mean for whole runs, what
  the loop does with what it reads, how a channel counts its attempts, where each await leads, what
  becomes of the clients, and what still happens after the loop has settled.
- **DHCP** (`Ip`, `DhcpMessage`, `DhcpReply`, `DhcpWire`, `DhcpLeases`, `DhcpHandler`, `DhcpAnswers`,
  `DhcpTheorems`). Bytes in, lease table, bytes out, every answer by the fields of its packet, and the
  promises over a run under a monotone clock.
- **Smaller cores**: `WeaveShares` (stage, swap, roll back), `Collisions`, `ShareCredentials` with
  `SetupFlow`, `StepOutput` (UTF-8 truncation), `GithubGate` (Base64), `Cidr`.

`Collections` is the shared vocabulary. Certificates are their fingerprints, numbered so that numeric
order is the order of the fixed-length hexadecimal text.

## What the proofs found

- A proxy rotation cut right after the new proxy PEM is written leaves a guest that refuses both a
  third CA and the CA the manifest still names; only the rotation itself can be rerun
  (`TrustTheorems.InterruptedRotationRefusesThirdCa`). The exact condition for planning is
  `TrustTheorems.PlansExactlyWhenExplained`.
- `runHostingLoop` says an MCP failure stops both colors, and startup rechecks `settled` after its
  port allocation for that reason; the restart path does not, so a pass waiting for ports brings a
  stopped color up again (`HostingRuns.StoppedColorComesBack`, a whole run in
  `HostingRuns.StoppedColorComesBackInARun`). The exact condition, on the state in which the loop
  settles, is that such a pass is waiting (`HostingEnding.NothingStartsExactly`,
  `HostingEnding.BothStayDownExactly`).
- A DHCP pool that passes 255.255.255.255 offers addresses it then refuses
  (`DhcpTheorems.WrappedPoolOffersThenRefuses`); not wrapping is the exact condition
  (`DhcpTheorems.HonoursExactlyWhenUnwrapped`), per address `DhcpTheorems.PromiseHonoured`.
- Declaring an MCP server for a host on the block list also takes the host off the block list of
  port 80, where the server has nothing (`PlainHttp.McpUnblocksPort80`).
- A GitHub entry without an injection gets no chain of its own but still displaces an equal
  allow-list entry, so that host falls through to the allow list's wildcards or to the default; the
  decision list of `RoutingTheorems` says so. Such hosts are the only ones named on the leaf that no
  chain ends TLS for (`LeafCertificate.TlsIsAnsweredUnderItsName`).

## Assumptions

- Guest trust: fingerprints are injective; a snapshot is what the guest holds; nobody else changes the
  managed directory, and the root store changes only between runs.
- Policy: entries have exactly one colon, auth entries no `*`, block entries no colon.
- Hosting loop: awaited dependencies do not reject except where the code catches it, `maxAttempts` is
  at least 1, newly allocated ports are not those of the active color, one clock reading per step.
  List text that the parsers reject throws out of `readParsedPolicy`, outside every `try` that
  handles it; the process-level handler of src/commands/runHosting.ts:94-103 then ends the process
  with code 1, and the model has no such step.
- Containers: an effect is the call that starts, reports or stops a color, and calls on one color take
  effect in the order they are made; an MCP failure makes both stop calls at once.
- DHCP: one clock reading per packet; the lease time fits its 32-bit option.
- Swap: at most one filesystem call fails, so rollback succeeds; a rename is atomic; the phase
  directories are distinct, not nested, and not named like a staging or backup of one another.
- Setup: an aborted guest call marks nothing afterwards; nobody else changes the share credentials.

## Model

| member | source | states |
|---|---|---|
| `TrustPlanner.PlanTrustReconciliation` | src/guestSetup/windows/trustPlanner.ts:137-278 | the loops over files, manifest and roots compute the plan (operations and their order, or which of the five failures) that the specification `Plan` gives for the snapshot |
| `TrustPlanner.UnderstandFiles` | src/guestSetup/windows/trustPlanner.ts:142-185 | which managed PEM, proxy PEM or manifest is reported malformed first, and what the readable ones mean |
| `TrustPlanner.RetainAll` | src/guestSetup/windows/trustPlanner.ts:187-204 | the retained roots are manifest, managed PEMs and selection in fingerprint order, or the first one without a PEM |
| `TrustPlans.RefusedExactly` | src/guestSetup/windows/trustPlanner.ts:142-229 | each of the five refusals happens if and only if its own cause is the first in order: the first malformed ambient PEM, a malformed proxy PEM, a malformed manifest, the least root with an ambient role and no PEM, a manifest and proxy PEM that disagree; a plan exists if and only if none of them does |
| `TrustPlans.PlannedExactly` | src/guestSetup/windows/trustPlanner.ts:238-277 | every operation of every plan from the snapshot alone: which PEMs are written, which roots and whether the proxy CA is imported, what is verified and published, whether ownership is recorded, and that a root is removed and checked to be gone if and only if it is installed, recorded as owned, superseded and without an ambient role |
| `TrustReconciler.GuestMachine.Invoke` | src/guestSetup/windows/trustReconciler.ts:173-220 | an invocation applies a prefix of its script's atomic effects, all of them exactly when it reports success |
| `TrustReconciler.RunOperations` | src/guestSetup/windows/trustReconciler.ts:259-321 | operations run in order and stop at the first failure; the guest and the summary are those of the executed prefix |
| `TrustReconciler.ReconcileWindowsGuestTrust` | src/guestSetup/windows/trustReconciler.ts:146-330 | one run is inspect, plan and execute, cut anywhere: the guest, completion and summary of `Reconcile` |
| `TrustReconciler.PlanShape` | src/guestSetup/windows/trustPlanner.ts:239-277 | every plan is ambient PEMs, ambient imports, proxy import, store check, publication with the manifest last, environment, and only then a removal with its own check |
| `TrustReconciler.HistoryKeepsInvariant` | src/guestSetup/windows/trustScripts.ts:164-186 | over any history of complete or cut runs and foreign store changes, every root a manifest retains has its managed PEM, and an owned proxy was imported by some run |
| `TrustReconciler.ReachableInvariant` | src/guestSetup/windows/trustScripts.ts:164-186 | the same, for every reachable world |
| `TrustReconciler.ReconcileKeepsInvariant` | src/guestSetup/windows/trustScripts.ts:120-186 | one run keeps it wherever it is cut, because each manifest write follows the PEM writes it depends on |
| `TrustTheorems.PlansExactlyWhenExplained` | src/guestSetup/windows/trustPlanner.ts:211-229 | in every reachable world planning succeeds if and only if the managed proxy PEM is absent, is the current CA, or agrees with the manifest or there is none |
| `TrustTheorems.CrashSafeConvergence` | src/guestSetup/windows/trustPlanner.ts:137-278 | from every reachable world with an explained proxy PEM a full run completes: all required roots installed, bundle exactly the required fingerprints once each, manifest naming them |
| `TrustTheorems.SecondRunChangesNothing` | src/guestSetup/windows/trustPlanner.ts:239-277 | an immediate second run plans no write, import or removal, republishes the same manifest and bundle, and changes nothing wherever it is cut |
| `TrustTheorems.InterruptedRunCanBeReplayed` | src/guestSetup/windows/trustPlanner.ts:211-214 | whatever a run could plan, the same proxy CA can be planned again after that run was cut anywhere, with any new host selection |
| `TrustTheorems.InterruptedRotationRefusesThirdCa` | src/guestSetup/windows/trustPlanner.ts:214-222 | a concrete history (publish CA 1, rotate to CA 2 cut after its PEM) after which neither a third CA nor CA 1 can be planned, only CA 2 |
| `TrustTheorems.DeletionSafety` | src/guestSetup/windows/trustPlanner.ts:206-276 | a certificate about to be removed in any history was imported by an earlier run as its proxy CA, is not the current proxy, has no ambient role, and every required root is present after the removal |
| `TrustTheorems.RootsSurviveHistory` | src/guestSetup/windows/trustPlanner.ts:230-237 | a root with an ambient PEM, or never imported as a proxy CA, stays installed over every history in which nobody else removes it |
| `TrustTheorems.RemovalFollowsCommit` | src/guestSetup/windows/trustPlanner.ts:273-276 | the only removal in a plan is the superseded proxy, right after the publication and environment steps |
| `TrustTheorems.RetiredExactly` | src/guestSetup/windows/trustPlanner.ts:230-237 | after a complete run of any history a root that was there is gone if and only if the manifest recorded it as the proxy CA setup owned, it is no longer the proxy CA, and it has no ambient role; and exactly the required roots have come |
| `TrustTheorems.RotationRetiresOldProxy` | src/guestSetup/windows/trustPlanner.ts:249-276 | a proxy CA that one complete run installed is removed by a later complete run for another proxy CA |
| `TrustTheorems.CompletesExactlyWhenExplained` | src/guestSetup/windows/trustReconciler.ts:173-220 | an uncut run completes if and only if the managed proxy PEM is explained, and otherwise touches nothing |
| `TrustTheorems.ManifestIsWrittenLast` | src/guestSetup/windows/trustPlanner.ts:255-272 | a run cut anywhere after its manifest was written has all its roots installed, PEMs stored, and bundle and proxy PEM published |
| `TrustTheorems.NothingPublishedUnchecked` | src/guestSetup/windows/trustPlanner.ts:252-276 | even when anyone changes the root store during the run, nothing is published or removed before a check has met every required root, and a run that completes with a removal has last met them all and the removed one gone |
| `TrustTheorems.SummaryIsHonest` | src/guestSetup/windows/trustReconciler.ts:259-330 | a complete run reports exactly the roots it found missing, and a replacement exactly when a root went away |
| `Allowlist.PrunePassthrough` | src/allowlist.ts:18-33 | the two passes over a map of wildcard suffixes by port keep exactly the entries no wildcard of the list covers |
| `Allowlist.PruningPreservesMeaning` | src/allowlist.ts:18-33 | pruning changes no concrete host and port's admission |
| `Allowlist.PruningIsIdempotent` | src/allowlist.ts:18-33 | pruning twice is pruning once |
| `Allowlist.BlockedWildcardBlocksCovered` | src/allowlist.ts:125-129 | a pattern that blocks a wildcard blocks every entry the wildcard covers |
| `Allowlist.PruningCommutesWithBlocking` | src/allowlist.ts:149-159 | pruning before or after block-list removal gives the same passthrough list |
| `Allowlist.RemoveBlocked` | src/allowlist.ts:149-157 | deleting blocked entries while iterating leaves exactly the unblocked ones, in order |
| `Allowlist.ResolveCollisions` | src/allowlist.ts:160-187 | the pass over all entries leaves each in its highest-priority section only |
| `Allowlist.CombinePolicy` | src/allowlist.ts:131-198 | the combined policy is blocking, then pruning, then priority, section by section |
| `Allowlist.SplitJoin` | src/allowlist.ts:13-16 | splitting at the last colon and joining gives the entry back |
| `McpServers.CheckUnique` | src/mcpServers.ts:76-87 | the first repeated name or hostname is reported; none exactly when both are distinct |
| `McpServers.ResolveMcpAllowlistCollisions` | src/mcpServers.ts:112-151 | the splicing loops compute the resolution specified per server |
| `McpServers.ResolveMcpIs` | src/mcpServers.ts:126-148 | from duplicate-free lists, each section loses exactly the MCP entries and the block list exactly the MCP hostnames |
| `EnvoyConfig.ChainsServe` | src/envoyConfig.ts:932-1040 | what each generated chain serves and under which names, from the lists alone |
| `EnvoyConfig.LastChainsServe` | src/envoyConfig.ts:990-1040 | the passthrough and block-list chains exist exactly when they have names |
| `RoutingTheorems.CompiledSectionIs` | src/allowlist.ts:159-197 | after combining and MCP resolution the sections are disjoint and each entry sits in its highest-priority section, MCP above all |
| `RoutingTheorems.ClaimsAreUnique` | src/envoyConfig.ts:984-1040 | no name is claimed by two chains |
| `RoutingTheorems.ServesExactlyClaims` | src/envoyConfig.ts:932-1040 | a chain serves a name exactly when the lists give that name to it |
| `RoutingTheorems.RoutingFollowsDecisionList` | src/envoyConfig.ts:932-1082 | for every host, Envoy's exact-then-longest-wildcard-then-default matching over the compiled chains reaches a target if and only if the decision list (MCP, blocked, highest auth section with injection, admitted, default) names it; skip-allow-list changes only the default |
| `RoutingTheorems.DecisionMeans` | src/envoyConfig.ts:984-1082 | the exact conditions on the original lists under which a host goes to its MCP server, is blocked, or passes through; some decision is always made |
| `RoutingTheorems.TerminationMeans` | src/envoyConfig.ts:932-950 | a section terminates a host if and only if it is the first auth section to list it, gets it a chain, and the host is neither an MCP server nor blocked |
| `RoutingTheorems.DefaultMeans` | src/envoyConfig.ts:1041-1082 | the default gets a host if and only if no other decision's condition holds of it |
| `RoutingTheorems.ClosedByDefault` | src/envoyConfig.ts:1041-1082 | a host is denied by default if and only if nothing decides it and the allow list is not skipped, and let through by default if and only if nothing decides it and the allow list is skipped |
| `RoutingTheorems.BlockedMeans` | src/allowlist.ts:125-129 | a host is blocked if and only if some pattern is its text, or is `*` and a tail from a dot on that ends it |
| `RoutingTheorems.AdmitsMeans` | src/allowlist.ts:18-34 | the allow list admits a host on a port if and only if it has the text of an entry for that port whose pattern fits the host |
| `RoutingTheorems.AdmittedByWildcardMeans` | src/allowlist.ts:18-34 | the same for the wildcards among the entries |
| `UniqueMatchers.ServerNamesAreDistinct` | src/envoyConfig.ts:984-1040 | all server names over every listener_443 chain, MCP and block list included, are pairwise distinct |
| `UniqueMatchers.DomainsAreDistinct` | src/envoyConfig.ts:1098-1107 | all domains over the port-80 virtual hosts are pairwise distinct |
| `LeafCertificate.ChainNamesAreOnLeaf` | src/runHosting/runHostingLoop.ts:216-221 | every server name of every terminating or MCP chain generated from any policy is among the names on the leaf reissued with it |
| `LeafCertificate.TlsNamesExactly` | src/runHosting/runHostingLoop.ts:216-221 | for the compiled configuration, the names on the leaf are the server names of the terminating and MCP chains and those the GitHub section displaced without a chain, and no others |
| `LeafCertificate.LeafNamesExactly` | src/allowlist.ts:200-213 | the leaf names a host if and only if it is an MCP hostname, or some auth section lists it on port 443 and it is not blocked |
| `LeafCertificate.TlsIsAnsweredUnderItsName` | src/runHosting/runHostingLoop.ts:216-221 | for every host, the leaf has its name if and only if the chain that matching picks for it ends its TLS, or the GitHub section displaced it without a chain |
| `LeafCertificate.LeafNamesAreDistinct` | src/runHosting/runHostingLoop.ts:218-218 | no name is on the leaf twice, over all auth sections and MCP servers |
| `LeafCertificate.TlsHostsAreHostsOn` | src/allowlist.ts:211-212 | cutting the entries at the last colon, as for the leaf, and at the first, as for the chains, gives the same hosts |
| `PlainHttp.ServesExactlyAnswers` | src/envoyConfig.ts:955-962 | a virtual host of listener_80 answers for a domain exactly when the original lists give that domain to it |
| `PlainHttp.VirtualHostsHaveDomains` | src/envoyConfig.ts:1098-1107 | the domains of these virtual hosts, and the catch-all, are the ones proved distinct |
| `PlainHttp.PlainHttpFollowsDecisionList` | src/envoyConfig.ts:1098-1125 | for every host, exact-then-longest-wildcard-then-catch-all matching over the listener_80 virtual hosts reaches a target if and only if the port-80 decision list (refused, covered by an allow-list wildcard, named by the allow list, default) names it |
| `PlainHttp.ClosedByDefault80` | src/envoyConfig.ts:1105-1125 | what nothing decides is refused on port 80 if and only if the allow list is not skipped, and let through if and only if it is |
| `PlainHttp.ListTests80` | src/envoyConfig.ts:955-963 | the tests of the port-80 decision list as text of the three lists |
| `PlainHttp.McpUnblocksPort80` | src/mcpServers.ts:138-147 | an MCP server for a host the block list names is refused on port 80 only if a wildcard still covers it; otherwise the allow list's wildcards or the default decide, where without the server it was refused |
| `CredentialChannels.FailedAttemptIs` | src/runHosting/credentialChannel.ts:200-211 | a failure signal counts one; the channel gives up exactly when signals since the last advance reach maxAttempts, otherwise it stays within them with its timer armed |
| `CredentialChannels.OnTimerIs` | src/runHosting/credentialChannel.ts:175-183 | a firing timer nudges, or counts as a failure when an outcome was awaited; one timer is armed afterwards unless the channel gave up |
| `CredentialChannels.NudgeEndsIs` | src/runHosting/credentialChannel.ts:190-197 | a finished nudge counts only when it failed while awaited |
| `CredentialChannels.ArmTimerIs` | src/runHosting/credentialChannel.ts:128-173 | arming replaces the armed timer by one due at the planned time, never before now |
| `CredentialChannels.PrepareIs` | src/runHosting/credentialChannel.ts:84-117 | a read keeps the counting invariants and the timer; failures and awaiting are reset if and only if the read expiry is later than the one last seen |
| `ChannelSteps.PrepareMeans` | src/runHosting/credentialChannel.ts:84-117 | a read asks for a restart and stages what it read if and only if token or account differ from the applied ones, and resets failures and awaiting if and only if an expiry had been seen and the read one is strictly later; every field after it |
| `ChannelSteps.StartupReadMeans` | src/runHosting/credentialChannel.ts:72-82 | every field after the startup read |
| `ChannelSteps.CommitMeans` | src/runHosting/credentialChannel.ts:119-126 | what was staged is what is applied |
| `ChannelSteps.PlanMeans` | src/runHosting/planNextActions.ts:8-35 | when a token is to be propagated and when the next nudge or deadline is due |
| `ChannelSteps.NudgeMeans` | src/runHosting/credentialChannel.ts:184-191 | a nudge awaits its outcome until the retry interval from now and leaves the count alone |
| `ChannelSteps.FailedAttemptMeans` | src/runHosting/credentialChannel.ts:200-211 | a failed attempt counts one; at maxAttempts it gives up with no timer, before that it nudges again with the deadline it sets |
| `ChannelSteps.ArmMeans` | src/runHosting/credentialChannel.ts:128-138 | the time the one timer is set to, from the expiry last read, the window, the retry interval and now |
| `CredentialChannels.CredentialChannel.PrepareRestart` | src/runHosting/credentialChannel.ts:84-117 | the method's field updates are the specified read of the channel |
| `CredentialChannels.CredentialChannel.HandleFailedAttempt` | src/runHosting/credentialChannel.ts:200-211 | the field updates of a failed attempt, and whether it exhausts |
| `CredentialChannels.CredentialChannel.TimerFires` | src/runHosting/credentialChannel.ts:175-183 | the field updates of a firing timer |
| `CredentialChannels.CredentialChannel.NudgeReturns` | src/runHosting/credentialChannel.ts:185-198 | the field updates when a nudge ends |
| `CredentialChannels.CredentialChannel.Arm` | src/runHosting/credentialChannel.ts:128-173 | the field updates of arming, by `planNextActions` |
| `Gateways.DrainLeavesNone` | src/runHosting/gateway.ts:96-114 | once the target has moved, whatever arrives and closes during a drain, no new connection reaches the old ports, and an un-aborted drain leaves none on them |
| `Gateways.DrainWaits` | src/runHosting/gateway.ts:96-112 | a drain force-closes nothing while connections are left, time is left and it is not aborted; then it closes what is left on the retired ports and nothing else, or nothing at all when aborted |
| `Gateways.ArrivalsJoin` | src/runHosting/gateway.ts:40-70 | new clients are tracked under fresh numbers and no connection is lost by them; without a target they are dropped |
| `Gateways.ArrivalIsConnected` | src/runHosting/gateway.ts:40-70 | each new client is connected to the target port of its kind |
| `Gateways.ClosedLeave` | src/runHosting/gateway.ts:54-60 | a close drops that connection and no other |
| `Gateways.Gateway.Drain` | src/runHosting/gateway.ts:96-114 | the polling loop with its timeout and abort checks computes the specified drain |
| `Gateways.Gateway.Accept` | src/runHosting/gateway.ts:46-66 | a client is connected to the current target's port, or dropped without one |
| `HostingMachine.Loop.Handle` | src/runHosting/runHostingLoop.ts:93-466 | whatever event arrives, the closures over shared variables, channel objects and gateway move the loop exactly as the transition system steps |
| `HostingMachine.Loop.NextPass` | src/runHosting/runHostingLoop.ts:238-331 | the restart loop up to its next await, over channel objects |
| `HostingMachine.Loop.Shutdown` | src/runHosting/runHostingLoop.ts:122-161 | settling clears every channel's timer, records one teardown, and is ignored after the first |
| `HostingMachine.Loop.RequestRestart` | src/runHosting/runHostingLoop.ts:223-228 | an event marks its source, and starts a pass only when none runs |
| `HostingMachine.Loop.Activate` | src/runHosting/runHostingLoop.ts:447-462 | the end of startup: serve, commit and arm every channel, then apply what landed meanwhile |
| `HostingTheorems.StepControl` | src/runHosting/runHostingLoop.ts:223-335 | every step keeps: at most one call suspended, `restarting` set exactly while a pass or the guarded part of startup is, and an idle started unsettled loop has nothing pending |
| `HostingTheorems.StepCounting` | src/runHosting/credentialChannel.ts:166-211 | every step keeps: live channels within their attempts with one timer each, settled ones with none and at most one exhausted |
| `HostingTheorems.StepServing` | src/runHosting/runHostingLoop.ts:279-326 | every step keeps: the gateway targets the active color's ready ports, and a pass works on the other color and other ports |
| `HostingTheorems.StepConnected` | src/runHosting/gateway.ts:46-66 | every step keeps: until settlement each tracked connection is on the active ports, or on the old ones while they drain |
| `HostingRuns.StepLoading` | src/runHosting/runHostingLoop.ts:263-318 | every step keeps: a container being brought up started with the secrets that are about to be committed |
| `HostingRuns.RunIsSafe` | src/runHosting/runHostingLoop.ts:91-467 | all these invariants hold in every state of every run |
| `HostingRuns.ServesUntilSettled` | src/runHosting/runHostingLoop.ts:279-326 | until settlement a new client is connected to the active color's ports, which reported ready and were neither recreated nor stopped since |
| `HostingRuns.PassTouchesOtherColor` | src/runHosting/runHostingLoop.ts:281-323 | until settlement a pass brings up, reports and stops only the color that does not serve |
| `HostingRuns.OldColorStopsEmpty` | src/runHosting/runHostingLoop.ts:321-323 | when the old color is stopped before settlement no tracked connection is on its ports and none can be added |
| `HostingRuns.NoColorIsLeftRunning` | src/runHosting/runHostingLoop.ts:286-326 | whenever an unsettled loop is idle or about to swap, the other color was last stopped or could not be started |
| `HostingRuns.FlipCommitsWhatItLoaded` | src/runHosting/runHostingLoop.ts:313-318 | each token committed at the flip is the one the newly active container was started with; other channels keep theirs |
| `HostingRuns.OnlyFlipsCommit` | src/runHosting/runHostingLoop.ts:318-318 | no other step changes an applied token or account |
| `HostingRuns.FailedSwapAsksAgain` | src/runHosting/runHostingLoop.ts:286-312 | until a flip, the credentials that asked for a restart ask for it again, however many swaps fail |
| `HostingRuns.AsksOnlyForChanges` | src/runHosting/credentialChannel.ts:97-104 | after a flip and until the next one, a committed channel asks for another restart if and only if it reads a token or account other than the one the new color's container started with |
| `HostingRuns.ChangeIsAnswered` | src/runHosting/runHostingLoop.ts:223-277 | after a watch event, at every later point, the source is pending, or was read since the event, or the loop has settled |
| `HostingRuns.NoUpdateIsLost` | src/runHosting/runHostingLoop.ts:223-335 | single flight, and an idle unsettled loop has read every changed source after its change |
| `HostingReads.SwapStartsExactly` | src/runHosting/runHostingLoop.ts:238-285 | whenever a running loop reads its pending sources it ends if and only if a rejected policy is among them, and else starts a swap if and only if a usable policy is or some channel reads a token or account other than the applied one; the swap applies exactly those channels |
| `HostingReads.ChangedTokenSwaps` | src/runHosting/runHostingLoop.ts:223-285 | an idle loop whose credential file changes starts a swap for that channel if and only if it holds another token or account than the proxy was last restarted with |
| `HostingAttempts.AttemptsFollowEvents` | src/runHosting/credentialChannel.ts:84-211 | over every run a channel has seen, awaits and counts exactly what a machine over the events says: the expiries read, the timers fired, the nudges failed |
| `HostingAttempts.GivesUpExactly` | src/runHosting/credentialChannel.ts:200-209 | a channel ends the loop if and only if an awaited outcome fails as the maxAttempts-th since a read last found a later expiry |
| `HostingAttempts.NoRefreshBeforeGivingUp` | src/runHosting/credentialChannel.ts:109-113 | a channel that gives up has exactly maxAttempts failure signals behind it with no read of a later expiry among them |
| `HostingAttempts.ReadSetsTimer` | src/runHosting/runHostingLoop.ts:329-331 | a read without a swap sets the only timer of each channel read by what was read |
| `HostingProgress.SwapProceeds` | src/runHosting/runHostingLoop.ts:285-326 | over every run, from each await of a swap: what is done to which color on which ports with which secrets, and when it switches, drains, stops or gives up |
| `HostingProgress.StartProceeds` | src/runHosting/runHostingLoop.ts:346-463 | over every run, from each await of the start: what comes next, what serves, and that what each channel staged is applied |
| `HostingProgress.EndsExactly` | src/runHosting/runHostingLoop.ts:122-161 | a running loop ends if and only if a stop signal or an MCP failure comes, a channel fails for the last time allowed, a rejected policy is read, or the start fails |
| `HostingProgress.NeverStuck` | src/runHosting/runHostingLoop.ts:234-463 | in no reachable state is a suspended start or swap stuck: within seven awaits it can end, with nothing else happening |
| `HostingClients.ArrivalIsServed` | src/runHosting/gateway.ts:43-66 | over every run, a client that arrives at a started, unsettled loop gets a connection of its own to the active color |
| `HostingClients.ConnectionsKeepFlowing` | src/runHosting/gateway.ts:33-39 | a connection stays on its port, through flips and settlement, if and only if neither it closes nor a drain of that port ends it |
| `HostingRuns.TimersAreSingle` | src/runHosting/credentialChannel.ts:166-173 | in every reachable state a channel has at most one armed timer, none after settlement, exactly one while a started loop refreshes it |
| `HostingRuns.ExhaustionOnce` | src/runHosting/credentialChannel.ts:200-209 | exhaustion is reported once over all channels, at exactly maxAttempts failure signals since the last advance, and the loop has then settled |
| `HostingRuns.ExitCodeIsTheFirst` | src/runHosting/runHostingLoop.ts:122-161 | the loop resolves at most once, exactly when its teardown ends, with the code of the first event that settled it |
| `HostingRuns.PassRearms` | src/runHosting/runHostingLoop.ts:329-331 | a pass that ends idle has set each freshly read channel's timer by that read, and left the other channels' timers alone |
| `HostingRuns.StoppedColorComesBack` | src/runHosting/runHostingLoop.ts:285-295 | from every state at that await, an MCP failure stops both colors and the pass then brings one up again, which nothing stops |
| `HostingRuns.StoppedColorComesBackInARun` | src/runHosting/runHostingLoop.ts:279-295 | a concrete run from the start of the loop that ends so |
| `HostingEnding.LaunchesAreOwed` | src/runHosting/runHostingLoop.ts:285-335 | from a settled state on, colors brought up plus the one owed by a pass waiting for its ports is constant over every run |
| `HostingEnding.NothingStartsExactly` | src/runHosting/runHostingLoop.ts:285-295 | in a settled state no continuation whatever brings a color up if and only if no pass is waiting for its ports |
| `HostingEnding.BothStayDownExactly` | src/runHosting/runHostingLoop.ts:155-161 | at every point after an MCP failure has settled the loop both colors are down if and only if a pass that was waiting for its ports then is still waiting; with no such pass they stay down for good |
| `DhcpMessage.ParsePacket` | src/runHosting/dhcpMessage.ts:38-70 | the parsing loop never reads out of bounds, terminates, and returns the specified packet or nothing |
| `DhcpMessage.ParseEncoded` | src/runHosting/dhcpMessage.ts:43-57 | every encoded option list parses to its last-wins meaning |
| `DhcpMessage.ParsedIsEncoded` | src/runHosting/dhcpMessage.ts:43-57 | every option area that parses is an encoded option list with that meaning |
| `DhcpMessage.HexInjective` | src/runHosting/dhcpMessage.ts:71-73 | different identifiers print to different identities |
| `DhcpMessage.WritesNumber` | src/runHosting/dhcpMessage.ts:107-112 | numbers are written most significant byte first |
| `DhcpMessage.ReadsNumber` | src/runHosting/dhcpMessage.ts:36-36 | and read so |
| `DhcpWire.ParsedExactly` | src/runHosting/dhcpMessage.ts:38-70 | for a packet of 240 bytes or more whose options area is well formed: it parses if and only if the cookie, the hardware address length and the message type are right, and each field is the number at its offset |
| `DhcpWire.ParsedHasArea` | src/runHosting/dhcpMessage.ts:43-57 | whatever parses has such an area |
| `DhcpWire.MeaningIs` | src/runHosting/dhcpMessage.ts:43-57 | an option has the data of its last occurrence, and no other option is there |
| `DhcpReply.BuildReply` | src/runHosting/dhcpMessage.ts:90-128 | writing into the 300-byte buffer in place stays inside it and yields the specified reply |
| `DhcpReply.ReplyFits` | src/runHosting/dhcpMessage.ts:90-128 | every reply is at most 300 bytes |
| `DhcpReply.NetworkOptionsAdd` | src/runHosting/dhcpMessage.ts:118-125 | the options that follow type and server identifier are exactly the six network ones |
| `DhcpReply.ReplyRoundTrip` | src/runHosting/dhcpMessage.ts:38-128 | parsing a built reply succeeds and gives the same xid, flags, addresses, hardware address, message type and exactly the written options |
| `DhcpWire.ReplyFields` | src/runHosting/dhcpMessage.ts:90-128 | every field of a reply is the number at its offset, the bytes between are zero, and the last is 255 |
| `DhcpWire.ReplyOptionsAre` | src/runHosting/dhcpMessage.ts:114-127 | type and server always; unless the reply is a refusal also the netmask, the host as router and name server, the lease time, and half and seven eighths of it as renewal and rebinding times |
| `DhcpLeases.ComputeHash` | src/runHosting/dhcpLeases.ts:20-27 | the loop over the characters is 32-bit FNV-1a with wrap-around |
| `DhcpLeases.HashVectors` | src/runHosting/dhcpLeases.ts:20-27 | published test vectors of 32-bit FNV-1a |
| `DhcpLeases.LeaseTable.AcquireAddress` | src/runHosting/dhcpLeases.ts:43-59 | the running lease is renewed, else the first free slot from the hashed one is assigned |
| `DhcpLeases.LeaseTable.RequestAddress` | src/runHosting/dhcpLeases.ts:60-69 | acknowledged and assigned, or refused and nothing changed |
| `DhcpLeases.LeaseTable.ReleaseLease` | src/runHosting/dhcpLeases.ts:70-73 | the client's first running lease is deleted |
| `DhcpLeases.LeaseTable.DeclineAddress` | src/runHosting/dhcpLeases.ts:74-78 | the address is declined and its lease deleted |
| `DhcpHandler.HandleDhcp` | src/runHosting/dhcpHandler.ts:23-77 | the table and the answer after a packet, by message type |
| `DhcpHandler.OnMessage` | src/runHosting/dhcpServer.ts:27-42 | from datagram bytes to reply bytes: the sent reply parses to the handler's answer and echoes the client |
| `DhcpAnswers.DiscoverMeans` | src/runHosting/dhcpHandler.ts:43-50 | a discovery is offered what the client acquires, which it then holds for the lease time; without an offer nothing changes |
| `DhcpAnswers.AcquireMeans` | src/runHosting/dhcpLeases.ts:43-59 | the address of the first running lease, or else the first vacant address from the hashed slot on; nothing only when none is |
| `DhcpAnswers.RequestMeans` | src/runHosting/dhcpHandler.ts:51-62 | a request for an address, in option 50 or else the client's own, is acknowledged if and only if that address is the client's to have, and then held for the lease time from now; any other is refused and changes nothing |
| `DhcpAnswers.RenewalIsAcknowledged` | src/runHosting/dhcpHandler.ts:57-61 | section 4.3.2 of RFC 2131: a client that asks from its leased address with no option is acknowledged and its lease extended |
| `DhcpAnswers.NothingAskedIsRefused` | src/runHosting/dhcpHandler.ts:57-58 | a request that names no address is refused |
| `DhcpAnswers.ReleaseMeans` | src/runHosting/dhcpHandler.ts:52-66 | a release, or a request for another server, deletes exactly the client's first running lease |
| `DhcpAnswers.DeclineMeans` | src/runHosting/dhcpHandler.ts:67-72 | a decline marks its address and deletes exactly the lease on it |
| `DhcpAnswers.OthersMean` | src/runHosting/dhcpHandler.ts:23-77 | an inform is acknowledged without an address; relayed packets and other types are ignored |
| `DhcpAnswers.IdentityMeans` | src/runHosting/dhcpMessage.ts:71-73 | two packets are one client's if and only if option 61, or else the hardware address, is the same |
| `DhcpTheorems.HandlingKeepsValid` | src/runHosting/dhcpHandler.ts:42-76 | one lease per address, none on the host or a declined address, after every packet |
| `DhcpTheorems.ExhaustedExactlyWhenNothingFree` | src/runHosting/dhcpLeases.ts:43-59 | nothing is acquired if and only if the client holds no running lease and every slot is the host, declined, or actively leased to another client |
| `DhcpTheorems.LeaseEndsExactly` | src/runHosting/dhcpLeases.ts:60-78 | a running lease outlasts a packet if and only if the packet neither gives up that very lease nor declines its address |
| `DhcpTheorems.PromiseStands` | src/runHosting/dhcpLeases.ts:37-79 | a promised lease stays in the table until it expires, its client gives up that address, or the address is declined, whatever else arrives, releases of other leases included |
| `DhcpTheorems.NoDoublePromise` | src/runHosting/dhcpLeases.ts:43-73 | under a monotone clock two clients are never promised one address with overlapping periods unless the first gave up that very address in between |
| `DhcpTheorems.DeclinedIsNeverGranted` | src/runHosting/dhcpLeases.ts:74-78 | a declined address is never promised again |
| `DhcpTheorems.PromiseHonoured` | src/runHosting/dhcpHandler.ts:51-62 | a promise whose address was not given up, declined or expired is acknowledged to a client that asks for it, by option 50 or from the address itself, if and only if the address is between the pool's first and last |
| `DhcpTheorems.OfferHonoured` | src/runHosting/dhcpHandler.ts:42-62 | section 3.1 of RFC 2131: with a pool that does not wrap, such a promise is always acknowledged |
| `DhcpTheorems.HonoursExactlyWhenUnwrapped` | src/runHosting/dhcpLeases.ts:60-64 | a pool honours every outstanding promise of every run if and only if its first address does not come after its last |
| `DhcpTheorems.WrappedPoolOffersThenRefuses` | src/runHosting/dhcpLeases.ts:37-64 | the run that shows it: whoever comes first to a wrapped pool is offered an address, asks for it at once, and is refused it |
| `Ip.PrintedReadsBack` | src/runHosting/ip.ts:1-14 | reading a printed address gives it back |
| `Ip.ReadPrintsBack` | src/runHosting/ip.ts:1-14 | printing a read address gives its four parts back |
| `WeaveShares.ExecutePlans` | src/weaveShares.ts:169-211 | when any call of staging or swapping fails (leaving anything at its own path) every live directory is as before; otherwise each holds its plan's files; it succeeds if and only if no call fails, fails in staging if and only if one of the staging calls does, and leaves no staging behind but one that could not be made; nothing else is touched |
| `WeaveShares.SwapAll` | src/weaveShares.ts:192-210 | the swap loop with its rollback |
| `WeaveShares.LastWriteIsHeld` | src/weaveShares.ts:178-187 | a staged directory holds each file as the last action to copy it wrote it |
| `WeaveShares.HeldIsLastWrite` | src/weaveShares.ts:178-187 | and holds no other file |
| `WeaveShares.NamesDiffer` | src/weaveShares.ts:174-196 | staging and backup names of any two directories differ |
| `Collisions.DetectCollisions` | src/collisions.ts:20-83 | the nested loops report nothing if and only if every two items can live side by side, and otherwise the specified collisions in order |
| `Collisions.CollisionsAreExact` | src/collisions.ts:28-80 | the claim-by-claim detector is sound and complete for pairwise compatibility |
| `Collisions.ReportedExactly` | src/collisions.ts:28-80 | exactly these collisions are reported: each claim that disagrees with the first on its folded path, with both origins and the reason |
| `Collisions.ItemsAgreeExactly` | src/collisions.ts:28-80 | two items agree if and only if, wherever their paths fold to the same one, both spell it the same and an item whose whole path it is is a directory |
| `Collisions.OrderDoesNotMatter` | src/collisions.ts:28-80 | whether anything collides is the same for every order of the items |
| `ShareCredentials.VmShareCredentials.Replace` | src/guestSetup/windows/shareCredential.ts:652-675 | the entry is recorded as written before the script runs; the ledger accounts for the guest however far the script got |
| `ShareCredentials.VmShareCredentials.Verify` | src/guestSetup/windows/shareCredential.ts:676-688 | the connection is tracked before it can open; only a good answer verifies |
| `ShareCredentials.VmShareCredentials.Close` | src/guestSetup/windows/shareCredential.ts:695-712 | only a reported close stops the tracking |
| `ShareCredentials.VmShareCredentials.Cleanup` | src/guestSetup/windows/shareCredential.ts:713-778 | deletes only entries written and never verified, keeps the rest, marks each removed exactly when its item was done and reported in time, leaves none merely written, and does nothing when there is nothing to do |
| `SetupFlow.ShareCredential` | src/guestSetup/windows/setupFlow.ts:375-398 | the prompt loop ends with a verified entry exactly when some reached attempt authenticates |
| `SetupFlow.AuthenticatedIs` | src/guestSetup/windows/setupFlow.ts:375-398 | which attempt's secret is kept |
| `SetupFlow.RunWindowsSetup` | src/guestSetup/windows/setupFlow.ts:358-585 | a run ends in the first phase that fails; a success ends with both entries verified under the authenticated secret, nothing open and an idle cleanup; every other ending keeps verified entries, deletes only unverified ones, and leaves none written |
| `SetupFlow.EndsInFirst` | src/guestSetup/windows/setupFlow.ts:358-520 | a run succeeds if and only if nothing fails or is interrupted in any phase, and otherwise ends in the first phase in which something is |
| `StepOutput.BoundStepOutput` | src/guestSetup/windows/stepRunner.ts:105-124 | head and tail are a prefix and suffix, valid UTF-8, disjoint, between the ceiling minus 7 and the ceiling in all; the lengths add up |
| `StepOutput.CutAtBoundary` | src/guestSetup/windows/stepRunner.ts:111-113 | a valid UTF-8 text cut where no continuation byte starts gives two valid texts |
| `StepOutput.BoundaryWithinFour` | src/guestSetup/windows/stepRunner.ts:111-113 | in valid UTF-8 no four bytes in a row are continuation bytes |
| `StepOutput.EncodedIsValid` | src/guestSetup/windows/stepRunner.ts:106 | the encoding of any characters (section 3 of RFC 3629) is valid UTF-8 |
| `StepOutput.ValidIsEncoded` | src/guestSetup/windows/stepRunner.ts:106 | and any valid UTF-8 is the encoding of characters, so a kept head or tail is whole characters |
| `GithubGate.DecodesEncoded` | src/envoyConfig.ts:280-303 | the bit-string decoder returns the original bytes for every encoding of section 4 of RFC 4648 |
| `GithubGate.B64Decode` | src/envoyConfig.ts:280-303 | the string loops (padding, six bits per letter, eight bits per byte) compute the specified decoding |
| `GithubGate.AlphabetIs` | src/envoyConfig.ts:278 | the 64 letters and their order |
| `GithubGate.EncodeVectors` | src/envoyConfig.ts:280-303 | the encoder the decoder inverts gives the test vectors of section 10 of RFC 4648 |
| `GithubGate.DecodesExactly` | src/envoyConfig.ts:281-283 | which strings decode at all: a multiple of four characters, each in the alphabet or a padding sign anywhere |
| `GithubGate.DecodedIs` | src/envoyConfig.ts:284-302 | what they decode to: without the padding signs, the six bits of each letter in a row, every full eight a byte and the rest dropped |
| `GithubGate.GateStripsPlaceholder` | src/envoyConfig.ts:315-326 | an encoded `user:password` yields exactly its password, whatever the user name |
| `GithubGate.PasswordExactly` | src/envoyConfig.ts:315-323 | a header carries a password if and only if it is `Basic ` and more that decodes to a user name without a colon, a colon, and that password |
| `GithubGate.GateKeepsOthers` | src/envoyConfig.ts:319-326 | encoded bytes without a colon yield no password |
| `GithubGate.Headers.OnRequest` | src/envoyConfig.ts:305-327 | the client's markers never survive; no authorization is marked; authorization is stripped exactly for the placeholder password |
| `Cidr.OverlapIsSharing` | src/hostNetwork/subnetSelection.ts:44-47 | two blocks overlap exactly when they share an address |
| `Cidr.IsSubnetTaken` | src/hostNetwork/subnetSelection.ts:55-58 | taken exactly when some range has an address in the candidate /24 |
| `Cidr.CandidateIs` | src/hostNetwork/subnetSelection.ts:56 | the candidate is the 256 addresses from 192.168.n.0 on |
| `Cidr.FindFreeSubnet` | src/hostNetwork/subnetSelection.ts:61-66 | the least free /24, none exactly when all 256 are taken |
| `Cidr.ValidateSubnet` | src/hostNetwork/subnetSelection.ts:68-77 | which of the two errors, if any |
| `Cidr.DetectTakenRanges` | src/hostNetwork/subnetSelection.ts:29-42 | the prefix length is the number of ones in the netmask, whatever netmask, and for a contiguous one the prefix it spells; the range holds the adapter's address |
| `Cidr.MaskIs` | src/hostNetwork/subnetSelection.ts:14-16 | the shifted mask has its ones on top |
| `Cidr.PrefixLength` | src/runHosting/ip.ts:18-26 | the shifting loop counts the leading ones of any netmask |
| `Cidr.Ipv4ToInt` | src/guestSetup/windows/isolatedReadiness.ts:90-99 | four parts up to 255 give the same number as the other readers; anything else gives none |
| `Cidr.SameSubnetByMask` | src/guestSetup/windows/isolatedReadiness.ts:101-107 | the division form equals the mask form for prefixes 1 to 32, and nothing else is in the same subnet |
| `Cidr.AddressIs` | src/runHosting/dhcpLeases.ts:29-37 | the addresses of a pool: the host's block from its start, and on by host number and slot |
| `Cidr.PoolPassesReadiness` | src/runHosting/dhcpLeases.ts:29-37 | every address of a pool that fits the host's subnet passes the readiness test |
| `Cidr.PoolPassesExactly` | src/runHosting/dhcpLeases.ts:29-37 | every address of a pool passes the readiness test if and only if the pool's last host number stays inside the host's block |

## Left out

- X.509, PEM text, SHA-256, JSON and YAML: certificates and manifests are values, malformed ones a case of their own.
- PowerShell, C#, SSH, Docker, sockets and file watchers: only their effects are modelled, as steps and results.
- Line parsing, pragmas and formatting of the policy list files; warnings and all message texts.
- Issuing the leaf, and reusing one whose names are unchanged: the model stops at the names it is issued for.
- The rest of the Envoy object: clusters, filters, access logs, TLS contexts; cluster names (`sanitizeName` is not injective).
- `GITHUB_INJECTION` lookups of names every JavaScript object inherits; the two real entries are modelled.
- The api.github.com gate and the Claude and Codex gates: exact comparisons of a header.
- Envoy's matching order is a specification here, not something the repository implements.
- The log stream, the unique-line tracker, MCP supervision and its ports: only that an MCP failure can come at any time.
- PlainHttp.PlainHttpFollowsDecisionList: the host is the authority without its port, and in lower case.
- HostingMachine.Loop.Handle: how the two stop calls of an MCP failure overlap with a start in flight is not represented; the drain of the gateway is one sweep step here; its polling loop is `Gateways.Gateway.Drain`.
- TrustReconciler.GuestMachine.Invoke: a failure reported after the script's last effect, a timeout say, is the same guest as a cut before the next operation.
- The nudge's error text, which only changes a message, and the account-sync command itself.
- The removal of a superseded proxy CA after a run cut between publication and removal: it stays installed.
- WeaveShares.ExecutePlans: empty directories are not represented, and reading the sources is part of an action.
- Collisions.DetectCollisions: paths are given as segments, so splitting at slashes is not modelled; folding is per segment.
- ShareCredentials.VmShareCredentials.Cleanup: a cleanup script abandoned at its time budget may still finish in the guest later.
- SetupFlow.RunWindowsSetup: what the phases before the share prompt do; they hold no share credentials.
- Cidr.Ipv4ToInt: the three-digit text of a part is given as its number.
- Ip.PrintedReadsBack: decimal text is not modelled; an address is its four parts.
- Of the isolated-network readiness facts only the subnet test; of share weaving not the numbering of scripts (`planPhase`).
- The DNS responder, preflight checks, version comparison, log classification and name derivation: easy members.
