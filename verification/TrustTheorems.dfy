// What whole histories of Windows trust reconciliations guarantee.
module TrustTheorems {
  import opened Collections
  import opened TrustPlanner
  import opened TrustReconciler

  // --- Executing a plan -----------------------------------------------------------

  lemma {:induction false} ExecuteWrites(w: World, roots: seq<Sha>, budget: nat)
    requires budget >= |Writes(roots)|
    ensures Execute(w, Writes(roots), budget)
            == Outcome(w.(guest := w.guest.(pems := w.guest.pems + Elems(roots))), true, budget - |Writes(roots)|)
    decreases roots
  {
    if roots == [] {
      assert w.guest.pems + Elems(roots) == w.guest.pems;
    } else {
      var w' := Apply(w, WritePem(roots[0]));
      assert Writes(roots)[1..] == Writes(roots[1..]);
      ExecuteWrites(w', roots[1..], budget - 1);
      assert forall x :: x in roots <==> x == roots[0] || x in roots[1..];
      assert w.guest.pems + Elems(roots) == w'.guest.pems + Elems(roots[1..]);
    }
  }

  lemma {:induction false} ExecuteAdds(w: World, roots: seq<Sha>, budget: nat)
    requires budget >= |Adds(roots)|
    ensures Execute(w, Adds(roots), budget)
            == Outcome(w.(guest := w.guest.(roots := w.guest.roots + Elems(roots))), true, budget - |Adds(roots)|)
    decreases roots
  {
    if roots == [] {
      assert w.guest.roots + Elems(roots) == w.guest.roots;
    } else {
      var w' := Apply(w, AddRoot(roots[0]));
      assert Adds(roots)[1..] == Adds(roots[1..]);
      ExecuteAdds(w', roots[1..], budget - 1);
      assert forall x :: x in roots <==> x == roots[0] || x in roots[1..];
      assert w.guest.roots + Elems(roots) == w'.guest.roots + Elems(roots[1..]);
    }
  }

  function Prepared(w: World, u: Understood): World {
    World(
      w.guest.(roots := w.guest.roots + u.Required(), pems := w.guest.pems + u.hosts),
      if u.ImportsProxy() then w.importedAsProxy + {u.proxy} else w.importedAsProxy)
  }

  function Committed(w: World, u: Understood): World {
    var p := Prepared(w, u);
    p.(guest := p.guest.(
      proxyFile := Some(u.proxy),
      bundle := Some(u.Bundle()),
      manifest := Some(u.NextManifest()),
      environmentSet := true))
  }

  lemma ExecutePreparation(w: World, u: Understood, budget: nat)
    requires u.guest == w.guest.roots && u.files == w.guest.pems
    requires budget >= |PreparationSteps(u)|
    ensures Execute(w, PreparationSteps(u), budget) == Outcome(Prepared(w, u), true, budget - |PreparationSteps(u)|)
  {
    var a, b, c := Writes(u.ToWrite()), Adds(u.ToImport()), ProxySteps(u);
    ExecuteAppend(w, a + b, c, budget);
    ExecuteAppend(w, a, b, budget);
    ExecuteWrites(w, u.ToWrite(), budget);
    var w1 := Execute(w, a, budget);
    ExecuteAdds(w1.world, u.ToImport(), w1.left);
    SortSetMembers(u.Retained());
    KeepMembers(SortSet(u.Retained()), u.hosts - u.files);
    KeepMembers(SortSet(u.Retained()), u.Retained() - u.guest);
    assert w.guest.pems + Elems(u.ToWrite()) == w.guest.pems + u.hosts;
    var w2 := Execute(w1.world, b, w1.left);
    assert w2.world.guest.roots == w.guest.roots + u.Retained();
    ExecuteProxy(w2.world, u, w2.left);
    assert w2.world.guest.roots + u.Required() == w.guest.roots + u.Required();
  }

  lemma ExecuteProxy(w: World, u: Understood, budget: nat)
    requires u.Retained() <= w.guest.roots && u.guest <= w.guest.roots && budget >= |ProxySteps(u)|
    ensures Execute(w, ProxySteps(u), budget) ==
            Outcome(World(w.guest.(roots := w.guest.roots + u.Required()),
                          if u.ImportsProxy() then w.importedAsProxy + {u.proxy} else w.importedAsProxy),
                    true, budget - |ProxySteps(u)|)
  {
    var c := ProxySteps(u);
    if u.ImportsProxy() {
      assert c[1..] == [];
      assert Execute(w, c, budget) == Outcome(Apply(w, c[0]), true, budget - 1);
      assert w.guest.roots + {u.proxy} == w.guest.roots + u.Required();
    } else {
      assert w.guest.roots == w.guest.roots + u.Required();
    }
  }

  lemma BundleIsExact(u: Understood)
    ensures NoDuplicates(u.Bundle()) && Elems(u.Bundle()) == u.Required()
  {
    SortSetSorted(u.Retained());
    SortSetMembers(u.Retained());
  }

  function CommitSteps(u: Understood): seq<Step> {
    StagingSteps(u) + [WriteManifest(u.NextManifest())] + [CheckBundleAndSetEnvironment(SortSet(u.Required()))]
  }

  lemma {:induction false} ExecuteOne(w: World, step: Step, rest: seq<Step>, budget: nat)
    requires budget > 0 && Accepts(w, step)
    ensures Execute(w, [step] + rest, budget) == Execute(Apply(w, step), rest, budget - 1)
  {
    assert ([step] + rest)[1..] == rest;
  }

  lemma ExecuteCommit(w: World, u: Understood, rest: seq<Step>, budget: nat)
    requires u.guest == w.guest.roots && u.files == w.guest.pems
    requires budget >= 5
    ensures Execute(Prepared(w, u), CommitSteps(u) + rest, budget) == Execute(Committed(w, u), rest, budget - 5)
  {
    var c := CommitSteps(u);
    SortSetMembers(u.Required());
    BundleIsExact(u);
    var w0 := Prepared(w, u);
    assert c + rest == [c[0]] + ([c[1]] + ([c[2]] + ([c[3]] + ([c[4]] + rest))));
    ExecuteOne(w0, c[0], [c[1]] + ([c[2]] + ([c[3]] + ([c[4]] + rest))), budget);
    ExecuteOne(w0, c[1], [c[2]] + ([c[3]] + ([c[4]] + rest)), budget - 1);
    var w2 := Apply(w0, c[1]);
    ExecuteOne(w2, c[2], [c[3]] + ([c[4]] + rest), budget - 2);
    var w3 := Apply(w2, c[2]);
    ExecuteOne(w3, c[3], [c[4]] + rest, budget - 3);
    var w4 := Apply(w3, c[3]);
    ExecuteOne(w4, c[4], rest, budget - 4);
  }

  function UpToCommit(u: Understood): seq<Step> {
    PreparationSteps(u) + CommitSteps(u)
  }

  /** A run that is not cut before the commit reaches the committed state. */
  lemma ExecuteUpToCommit(w: World, u: Understood, rest: seq<Step>, budget: nat)
    requires u.guest == w.guest.roots && u.files == w.guest.pems
    requires budget >= |UpToCommit(u)|
    ensures Execute(w, UpToCommit(u) + rest, budget) == Execute(Committed(w, u), rest, budget - |UpToCommit(u)|)
  {
    var a, b := PreparationSteps(u), CommitSteps(u);
    Associative(a, b, rest);
    ExecutePreparation(w, u, budget);
    ExecuteAppend(w, a, b + rest, budget);
    ExecuteCommit(w, u, rest, budget - |a|);
  }

  lemma PlanIsCommitThenRetire(u: Understood)
    ensures AllSteps(u.Operations()) == UpToCommit(u) + RetireSteps(u)
  {
    PlanShape(u);
    var a, b, c := PreparationSteps(u), StagingSteps(u), [WriteManifest(u.NextManifest())];
    var d, e := [CheckBundleAndSetEnvironment(SortSet(u.Required()))], RetireSteps(u);
    assert a + b + c + (d + e) == a + (b + c + d) + e by { Regroup(a, b, c, d, e); }
  }

  function Retired(w: World, u: Understood): World {
    var c := Committed(w, u);
    if u.Superseded().Some? then Apply(c, RemoveRoot(u.Superseded().value)) else c
  }

  /** A run that is not cut completes: no check it makes can fail. */
  lemma ExecuteWholePlan(w: World, u: Understood, budget: nat)
    requires u.guest == w.guest.roots && u.files == w.guest.pems
    requires budget >= |AllSteps(u.Operations())|
    ensures Execute(w, AllSteps(u.Operations()), budget).done
    ensures Execute(w, AllSteps(u.Operations()), budget).world == Retired(w, u)
  {
    PlanIsCommitThenRetire(u);
    var r := RetireSteps(u);
    var c, left := Committed(w, u), budget - |UpToCommit(u)|;
    ExecuteUpToCommit(w, u, r, budget);
    if u.Superseded().Some? {
      SortSetMembers(u.Required());
      ExecuteOne(c, r[0], [r[1]], left);
      assert r == [r[0]] + [r[1]];
      ExecuteOne(Apply(c, r[0]), r[1], [], left - 1);
      assert [r[1]] + [] == [r[1]];
    }
  }

  // --- When planning succeeds -------------------------------------------------------

  /** What a caller can check on the guest: the managed proxy PEM is not of a third CA. */
  ghost predicate ProxyFileExplained(g: Guest, proxy: Sha) {
    || g.manifest.None?
    || g.proxyFile.None?
    || g.proxyFile == g.manifest.value.proxy
    || g.proxyFile == Some(proxy)
  }

  /** In every state a history can leave, planning is refused only for an unexplained proxy PEM. */
  lemma PlansExactlyWhenExplained(w: World, hostRoots: seq<Sha>, proxy: Sha)
    requires Reachable(w)
    ensures var plan := Plan(Inspect(w.guest, hostRoots, proxy));
      && (plan.Planned? <==> ProxyFileExplained(w.guest, proxy))
      && (plan.Refused? ==> plan.failure.OwnershipAmbiguity?)
  {
    var u := Meaning(w.guest, hostRoots, proxy);
    ReachableInvariant(w);
    InspectMeans(w.guest, hostRoots, proxy);
    SortSetMembers(u.Retained());
    NothingMissing(SortSet(u.Retained()), u.hosts + u.files);
  }

  /** A guest whose only trust is the proxy CA 1 that setup imported and published. */
  const PUBLISHED := World(
    Guest({1}, {}, Some(1), Some([1]), Some(Manifest([], Some(1), true)), true), {1})

  /** The same guest after a rotation to CA 2 that was cut right after the proxy PEM was written. */
  const HALF_ROTATED := World(
    Guest({1, 2}, {}, Some(2), Some([1]), Some(Manifest([], Some(1), true)), true), {1, 2})

  lemma NoAmbientRoots(g: Guest, proxy: Sha)
    requires g.pems == {} && (g.manifest.Some? ==> g.manifest.value.ambient == [])
    requires ProxyFileExplained(g, proxy)
    requires proxy !in g.roots
    ensures var u := Meaning(g, [], proxy);
      && u.Retained() == {} && u.Required() == {proxy}
      && PreparationSteps(u) == [AddProxyRoot(proxy)]
      && Plan(Inspect(g, [], proxy)) == Planned(u.Operations())
  {
    var u := Meaning(g, [], proxy);
    InspectMeans(g, [], proxy);
    assert u.Retained() == {};
    SortSetMembers(u.Retained());
    assert u.ToWrite() == [] && u.ToImport() == [];
  }

  lemma FirstPublication()
    ensures After(Untouched({}), Run([], 1, 100)) == PUBLISHED
  {
    var w := Untouched({});
    var u := Meaning(w.guest, [], 1);
    NoAmbientRoots(w.guest, 1);
    PlanIsCommitThenRetire(u);
    assert |AllSteps(u.Operations())| == 6;
    ExecuteWholePlan(w, u, 100);
    assert w.guest.roots + u.Required() == {1} && w.guest.pems + u.hosts == {};
    assert w.importedAsProxy + {1} == {1};
    assert u.Bundle() == [1] && u.NextManifest() == Manifest([], Some(1), true);
  }

  lemma HalfRotation()
    ensures After(PUBLISHED, Run([], 2, 3)) == HALF_ROTATED
  {
    var w := PUBLISHED;
    var u := Meaning(w.guest, [], 2);
    NoAmbientRoots(w.guest, 2);
    ReconcileIsExecute(w, [], 2, 3);
    PlanShape(u);
    CutAfterProxyFile(u);
  }

  /** The same world, told by the three effects that led to it. */
  lemma CutAfterProxyFile(u: Understood)
    requires u.Required() == {2} && u.proxy == 2 && PreparationSteps(u) == [AddProxyRoot(2)]
    ensures Execute(PUBLISHED, PreparationSteps(u) + StagingSteps(u) + [WriteManifest(u.NextManifest())]
                               + FinishingSteps(u), 3).world == HALF_ROTATED
  {
    hide FinishingSteps, Understood.NextManifest, Understood.Bundle;
    SortSetMembers(u.Required());
    var check := CheckStore(SortSet(u.Required()), []);
    var bundle, finish := [WriteBundle(u.Bundle())], [WriteManifest(u.NextManifest())] + FinishingSteps(u);
    var w1 := Apply(PUBLISHED, AddProxyRoot(2));
    FromThird(AddProxyRoot(2), check, WriteProxyFile(2), bundle, [WriteManifest(u.NextManifest())], FinishingSteps(u));
    assert StagingSteps(u) == [check] + [WriteProxyFile(2)] + bundle;
    hide Execute;
    ExecuteOne(PUBLISHED, AddProxyRoot(2), [check] + ([WriteProxyFile(2)] + (bundle + finish)), 3);
    ExecuteOne(w1, check, [WriteProxyFile(2)] + (bundle + finish), 2);
    ExecuteOne(w1, WriteProxyFile(2), bundle + finish, 1);
    CutHere(Apply(w1, WriteProxyFile(2)), bundle + finish);
  }

  lemma FromThird<T>(a: T, b: T, c: T, d: seq<T>, e: seq<T>, f: seq<T>)
    ensures [a] + ([b] + [c] + d) + e + f == [a] + ([b] + ([c] + (d + (e + f))))
  {
  }

  lemma CutHere(w: World, rest: seq<Step>)
    ensures Execute(w, rest, 0).world == w
  {
  }

  /**
   * The refused states are reachable: after a rotation cut at that point neither a third CA
   * nor the CA the manifest still names (its PEM is gone) is planned; only the new one is.
   */
  lemma InterruptedRotationRefusesThirdCa()
    ensures Reachable(HALF_ROTATED)
    ensures !ProxyFileExplained(HALF_ROTATED.guest, 3) && !ProxyFileExplained(HALF_ROTATED.guest, 1)
    ensures ProxyFileExplained(HALF_ROTATED.guest, 2)
  {
    var events := [Run([], 1, 100), Run([], 2, 3)];
    FirstPublication();
    HalfRotation();
    assert events[1..] == [events[1]] && [events[1]][1..] == [];
    assert History(PUBLISHED, [events[1]]) == History(HALF_ROTATED, []);
    assert HALF_ROTATED == History(Untouched({}), events);
  }

  // --- Convergence --------------------------------------------------------------------

  /** Every root with an ambient role: what the manifest lists, what has a managed PEM, what the host selects. */
  ghost function AmbientRole(g: Guest, hostRoots: seq<Sha>): set<Sha> {
    (if g.manifest.Some? then (set x | x in g.manifest.value.ambient) else {}) + g.pems + (set x | x in hostRoots)
  }

  /** The manifest proves that setup installed `x` as its proxy CA. */
  ghost predicate ProvenOwned(g: Guest, x: Sha) {
    g.manifest.Some? && g.manifest.value.proxyOwned && g.manifest.value.proxy == Some(x)
  }

  /** What a run publishes, and the roots it has installed by then. */
  ghost predicate Converged(before: Guest, hostRoots: seq<Sha>, proxy: Sha, after: Guest) {
    var role := AmbientRole(before, hostRoots);
    && role + {proxy} <= after.roots
    && after.pems == before.pems + (set x | x in hostRoots) && role <= after.pems
    && after.proxyFile == Some(proxy)
    && after.manifest.Some? && after.manifest.value.proxy == Some(proxy)
    && Sorted(after.manifest.value.ambient) && Elems(after.manifest.value.ambient) == role
    && (after.manifest.value.proxyOwned <==> ProvenOwned(before, proxy) || (proxy !in before.roots && proxy !in role))
    && after.bundle == Some(after.manifest.value.ambient + (if proxy in role then [] else [proxy]))
    && NoDuplicates(after.bundle.value) && Elems(after.bundle.value) == role + {proxy}
    && after.environmentSet
  }

  lemma RoleIs(g: Guest, hostRoots: seq<Sha>, proxy: Sha)
    ensures Meaning(g, hostRoots, proxy).Retained() == AmbientRole(g, hostRoots)
    ensures Meaning(g, hostRoots, proxy).Required() == AmbientRole(g, hostRoots) + {proxy}
  {
  }

  lemma CrashSafeConvergence(w: World, hostRoots: seq<Sha>, proxy: Sha, budget: nat)
    requires Reachable(w) && ProxyFileExplained(w.guest, proxy)
    requires budget >= |PlannedSteps(w.guest, hostRoots, proxy)|
    ensures Reconcile(w, hostRoots, proxy, budget).done
    ensures Converged(w.guest, hostRoots, proxy, Reconcile(w, hostRoots, proxy, budget).world.guest)
  {
    hide Execute, Retired, Converged, Reconcile, TrustPlanner.Plan, Inspect, AllSteps, History, SortSet;
    hide Understood.Operations, Understood.Retained, Understood.Plan;
    var u := Meaning(w.guest, hostRoots, proxy);
    PlansExactlyWhenExplained(w, hostRoots, proxy);
    ReconcileIsExecute(w, hostRoots, proxy, budget);
    ExecuteWholePlan(w, u, budget);
    ReachableInvariant(w);
    CommittedIsConverged(w, hostRoots, proxy);
    RetiredIsConverged(w, hostRoots, proxy);
  }

  lemma {:induction false} KeepsNone(shas: seq<Sha>, keep: set<Sha>)
    requires forall x :: x in shas ==> x !in keep
    ensures Keep(shas, keep) == []
  {
    if shas != [] {
      KeepsNone(shas[1..], keep);
    }
  }

  /** Steps that rewrite what is there, at any cut. */
  lemma {:induction false} IdleSteps(w: World, steps: seq<Step>, budget: nat)
    requires forall s :: s in steps ==> Apply(w, s) == w
    ensures Execute(w, steps, budget).world == w
    decreases steps
  {
    if steps != [] && budget > 0 && Accepts(w, steps[0]) {
      IdleSteps(w, steps[1..], budget - 1);
    }
  }

  /** The step writes what is already there, or only checks. */
  predicate Idle(g: Guest, s: Step) {
    match s
    case CheckStore(_, _) => true
    case WriteProxyFile(sha) => g.proxyFile == Some(sha)
    case WriteBundle(bundle) => g.bundle == Some(bundle)
    case WriteManifest(manifest) => g.manifest == Some(manifest)
    case CheckBundleAndSetEnvironment(_) => g.environmentSet
    case _ => false
  }

  lemma CommitIsIdle(w: World, u: Understood)
    requires w.guest.proxyFile == Some(u.proxy) && w.guest.bundle == Some(u.Bundle())
    requires w.guest.manifest == Some(u.NextManifest()) && w.guest.environmentSet
    ensures forall s :: s in CommitSteps(u) ==> Apply(w, s) == w
  {
    var c := CommitSteps(u);
    assert forall i :: 0 <= i < |c| ==> Idle(w.guest, c[i]);
    assert forall s :: s in c ==> Idle(w.guest, s);
  }

  lemma RepublishChangesNothing(w: World, u: Understood, budget: nat)
    requires u.Preparation() == [] && u.Retirement() == []
    requires w.guest.proxyFile == Some(u.proxy) && w.guest.bundle == Some(u.Bundle())
    requires w.guest.manifest == Some(u.NextManifest()) && w.guest.environmentSet
    ensures Execute(w, AllSteps(u.Operations()), budget).world == w
  {
    PreparationShape(u);
    RetirementShape(u);
    PlanIsCommitThenRetire(u);
    CommitIsIdle(w, u);
    NoFrame(CommitSteps(u));
    IdleSteps(w, CommitSteps(u), budget);
  }

  lemma NoFrame(c: seq<Step>)
    ensures [] + c + [] == c
  {
  }

  lemma PlannedMeansAvailable(u: Understood)
    requires u.Plan().Planned?
    ensures u.Retained() <= u.hosts + u.files
  {
    SortSetMembers(u.Retained());
    NothingMissing(SortSet(u.Retained()), u.hosts + u.files);
  }

  /** `u'` is what the guest left by a complete run planned from `u` means to a run with the same inputs. */
  ghost predicate Follows(u: Understood, u': Understood) {
    && u'.hosts == u.hosts && u'.proxy == u.proxy
    && u.Required() <= u'.guest
    && u'.files == u.files + u.hosts
    && u'.proxyFile == Some(u.proxy)
    && u'.manifest == Some(u.NextManifest())
  }

  lemma RetiredFollows(w: World, hostRoots: seq<Sha>, proxy: Sha)
    requires Meaning(w.guest, hostRoots, proxy).Plan().Planned?
    ensures var u := Meaning(w.guest, hostRoots, proxy);
      var done := Retired(w, u).guest;
      && Follows(u, Meaning(done, hostRoots, proxy))
      && done.bundle == Some(u.Bundle()) && done.environmentSet
  {
  }

  lemma SameRetained(u: Understood, u': Understood)
    requires u.Plan().Planned? && Follows(u, u')
    ensures u'.Retained() == u.Retained()
  {
    SortSetMembers(u.Retained());
    PlannedMeansAvailable(u);
    assert Elems(u'.manifest.value.ambient) == u.Retained();
  }

  lemma SamePublication(u: Understood, u': Understood)
    requires u.Plan().Planned? && Follows(u, u')
    ensures u'.NextManifest() == u.NextManifest() && u'.Bundle() == u.Bundle()
  {
    SameRetained(u, u');
  }

  lemma NothingToPrepare(u: Understood, u': Understood)
    requires u.Plan().Planned? && Follows(u, u')
    ensures u'.Preparation() == []
  {
    SameRetained(u, u');
    SortSetMembers(u.Retained());
    KeepsNone(SortSet(u.Retained()), u'.hosts - u'.files);
    KeepsNone(SortSet(u.Retained()), u.Retained() - u'.guest);
  }

  lemma PlansToRepublish(u: Understood, u': Understood)
    requires u.Plan().Planned? && Follows(u, u')
    ensures u'.Retirement() == []
    ensures u'.Plan() == Planned(u'.Commit()) && u'.Operations() == u'.Commit()
  {
    hide Understood.Bundle;
    SameRetained(u, u');
    NothingToPrepare(u, u');
    PlannedMeansAvailable(u);
    SortSetMembers(u.Retained());
    NothingMissing(SortSet(u.Retained()), u'.hosts + u'.files);
    assert u'.Operations() == u'.Commit();
  }

  /**
   * Right after a complete run the same inputs plan no write, import or removal, republish the
   * very same manifest and bundle, and running that plan (cut anywhere) changes nothing.
   */
  lemma SecondRunChangesNothing(w: World, hostRoots: seq<Sha>, proxy: Sha, budget: nat)
    requires Reachable(w) && ProxyFileExplained(w.guest, proxy)
    requires budget >= |PlannedSteps(w.guest, hostRoots, proxy)|
    ensures var done := Reconcile(w, hostRoots, proxy, budget).world;
      && done.guest.manifest.Some? && done.guest.bundle.Some?
      && Plan(Inspect(done.guest, hostRoots, proxy)) == Planned(
           [VerifyStore(SortSet(Elems(done.guest.bundle.value)), []),
            Publish(done.guest.manifest.value, done.guest.bundle.value, proxy),
            SetEnvironment(SortSet(Elems(done.guest.bundle.value)))])
      && forall again: nat :: Reconcile(done, hostRoots, proxy, again).world == done
  {
    hide Execute, Retired, Reconcile, TrustPlanner.Plan, Inspect, SortSet, AllSteps, History;
    hide Understood.Bundle, Understood.NextManifest, Understood.Operations, Understood.Retained, Understood.Plan;
    var u := Meaning(w.guest, hostRoots, proxy);
    PlansExactlyWhenExplained(w, hostRoots, proxy);
    ReconcileIsExecute(w, hostRoots, proxy, budget);
    ExecuteWholePlan(w, u, budget);
    RetiredFollows(w, hostRoots, proxy);
    var done := Retired(w, u);
    var u' := Meaning(done.guest, hostRoots, proxy);
    SameRetained(u, u');
    SamePublication(u, u');
    NothingToPrepare(u, u');
    PlansToRepublish(u, u');
    BundleIsExact(u);
    assert u'.Required() == Elems(done.guest.bundle.value);
    ReconcileIsExecute(done, hostRoots, proxy, budget);
    forall again: nat ensures Reconcile(done, hostRoots, proxy, again).world == done {
      ReconcileIsExecute(done, hostRoots, proxy, again);
      RepublishChangesNothing(done, u', again);
    }
  }

  lemma ReconcileIsExecute(w: World, hostRoots: seq<Sha>, proxy: Sha, budget: nat)
    ensures var u := Meaning(w.guest, hostRoots, proxy);
      && Plan(Inspect(w.guest, hostRoots, proxy)) == u.Plan()
      && (u.Plan().Planned? ==>
           && u.Plan() == Planned(u.Operations())
           && Reconcile(w, hostRoots, proxy, budget) == Execute(w, AllSteps(u.Operations()), budget))
  {
    InspectMeans(w.guest, hostRoots, proxy);
  }

  // --- An interrupted run can always be replayed -----------------------------------------

  /** Every manifest in `steps` names `proxy` and follows the write of that proxy's PEM. */
  ghost predicate Replayable(g: Guest, steps: seq<Step>, proxy: Sha) {
    && (forall s :: s in steps && s.WriteProxyFile? ==> s.sha == proxy)
    && forall i :: 0 <= i < |steps| && steps[i].WriteManifest? ==>
         g.proxyFile == Some(proxy) || WriteProxyFile(proxy) in steps[..i]
  }

  lemma {:induction false} ExecuteStaysExplained(w: World, steps: seq<Step>, proxy: Sha, budget: nat)
    requires ProxyFileExplained(w.guest, proxy) && Replayable(w.guest, steps, proxy)
    ensures ProxyFileExplained(Execute(w, steps, budget).world.guest, proxy)
    decreases steps
  {
    if steps != [] && budget > 0 && Accepts(w, steps[0]) {
      var w', rest := Apply(w, steps[0]), steps[1..];
      assert steps[..0] == [];
      forall i | 0 <= i < |rest| && rest[i].WriteManifest?
        ensures w'.guest.proxyFile == Some(proxy) || WriteProxyFile(proxy) in rest[..i]
      {
        assert steps[i + 1] == rest[i];
        assert steps[..i + 1] == [steps[0]] + rest[..i];
      }
      ExecuteStaysExplained(w', rest, proxy, budget - 1);
    }
  }

  lemma PlanIsReplayable(g: Guest, u: Understood)
    ensures Replayable(g, AllSteps(u.Operations()), u.proxy)
  {
    hide AllSteps, Understood.Operations, Understood.NextManifest, Understood.Bundle;
    PlanShape(u);
    PreparationIs(u);
    OneManifest(u);
    var a, b, c := PreparationSteps(u), StagingSteps(u), FinishingSteps(u);
    var m := WriteManifest(u.NextManifest());
    var steps := a + b + [m] + c;
    var n := |a| + |b|;
    assert forall s :: s in steps ==> s in a || s in b || s == m || s in c;
    assert forall i :: 0 <= i < |steps| && i != n ==> steps[i] in a + b + c;
    assert steps[..n] == a + b;
    assert (a + b)[|a| + 1] == WriteProxyFile(u.proxy);
  }

  /**
   * Whatever a run was able to plan, the same proxy CA can be planned again after that run was
   * cut anywhere, with any host selection: interrupted runs never need a manual repair.
   */
  lemma InterruptedRunCanBeReplayed(w: World, hostRoots: seq<Sha>, proxy: Sha, budget: nat, nextRoots: seq<Sha>)
    requires Reachable(w) && ProxyFileExplained(w.guest, proxy)
    ensures Reachable(Reconcile(w, hostRoots, proxy, budget).world)
    ensures Plan(Inspect(Reconcile(w, hostRoots, proxy, budget).world.guest, nextRoots, proxy)).Planned?
  {
    var u := Meaning(w.guest, hostRoots, proxy);
    PlansExactlyWhenExplained(w, hostRoots, proxy);
    ReconcileIsExecute(w, hostRoots, proxy, budget);
    PlanIsReplayable(w.guest, u);
    ExecuteStaysExplained(w, AllSteps(u.Operations()), proxy, budget);
    var w' := Reconcile(w, hostRoots, proxy, budget).world;
    ReachableAfter(w, Run(hostRoots, proxy, budget));
    PlansExactlyWhenExplained(w', nextRoots, proxy);
  }

  lemma {:induction false} HistoryAppend(w: World, events: seq<Event>, e: Event)
    ensures History(w, events + [e]) == After(History(w, events), e)
    decreases events
  {
    if events == [] {
      assert events + [e] == [e] && [e][1..] == [];
      assert History(w, [e]) == History(After(w, e), []);
    } else {
      assert (events + [e])[0] == events[0] && (events + [e])[1..] == events[1..] + [e];
      HistoryAppend(After(w, events[0]), events[1..], e);
    }
  }

  lemma ReachableAfter(w: World, e: Event)
    requires Reachable(w)
    ensures Reachable(After(w, e))
  {
    var roots: set<Sha>, events: seq<Event> :| w == History(Untouched(roots), events);
    HistoryAppend(Untouched(roots), events, e);
  }

  // --- The superseded proxy CA goes ---------------------------------------------------------------

  /**
   * After a complete run exactly these roots are gone: one the manifest recorded as the proxy CA
   * that setup installed, which is no longer the proxy CA and has no ambient role; and exactly the
   * required ones have come.
   */
  lemma RetiredExactly(w: World, hostRoots: seq<Sha>, proxy: Sha, budget: nat, x: Sha)
    requires Reachable(w) && ProxyFileExplained(w.guest, proxy)
    requires budget >= |PlannedSteps(w.guest, hostRoots, proxy)|
    ensures var after := Reconcile(w, hostRoots, proxy, budget).world.guest;
      var role := AmbientRole(w.guest, hostRoots);
      && (x in w.guest.roots ==> (x !in after.roots <==> ProvenOwned(w.guest, x) && x != proxy && x !in role))
      && (x !in w.guest.roots ==> (x in after.roots <==> x in role || x == proxy))
  {
    var u := Meaning(w.guest, hostRoots, proxy);
    PlansExactlyWhenExplained(w, hostRoots, proxy);
    ReconcileIsExecute(w, hostRoots, proxy, budget);
    ExecuteWholePlan(w, u, budget);
    RootsAfter(w, hostRoots, proxy, x);
    hide Execute, Reconcile, Retired, TrustPlanner.Plan, Inspect, AllSteps, History, AmbientRole, ProvenOwned;
    hide Understood.Operations, Understood.Plan;
  }

  lemma RootsAfter(w: World, hostRoots: seq<Sha>, proxy: Sha, x: Sha)
    ensures var after := Retired(w, Meaning(w.guest, hostRoots, proxy)).guest;
      var role := AmbientRole(w.guest, hostRoots);
      && (x in w.guest.roots ==> (x !in after.roots <==> ProvenOwned(w.guest, x) && x != proxy && x !in role))
      && (x !in w.guest.roots ==> (x in after.roots <==> x in role || x == proxy))
  {
    RoleIs(w.guest, hostRoots, proxy);
    hide Understood.Bundle, Understood.NextManifest, Understood.Retained, AmbientRole;
  }

  /**
   * A rotation leaves no trace of the old proxy CA: once a complete run has installed `earlier`, which
   * nobody had installed and which has no ambient role, a complete run for another proxy CA removes it.
   */
  lemma RotationRetiresOldProxy(w: World, firstRoots: seq<Sha>, earlier: Sha, first: nat, hostRoots: seq<Sha>, proxy: Sha, second: nat)
    requires Reachable(w) && ProxyFileExplained(w.guest, earlier) && earlier !in w.guest.roots && earlier != proxy
    requires earlier !in AmbientRole(w.guest, firstRoots) && earlier !in hostRoots
    requires first >= |PlannedSteps(w.guest, firstRoots, earlier)|
    requires second >= |PlannedSteps(Reconcile(w, firstRoots, earlier, first).world.guest, hostRoots, proxy)|
    ensures var between := Reconcile(w, firstRoots, earlier, first).world;
      var after := Reconcile(between, hostRoots, proxy, second);
      && earlier in between.guest.roots
      && after.done && earlier !in after.world.guest.roots && proxy in after.world.guest.roots
  {
    var between := Reconcile(w, firstRoots, earlier, first).world;
    CrashSafeConvergence(w, firstRoots, earlier, first);
    ReachableAfter(w, Run(firstRoots, earlier, first));
    assert between == After(w, Run(firstRoots, earlier, first));
    hide Reconcile, Plan, PlannedSteps;
    RotationStep(w.guest, firstRoots, earlier, between.guest, hostRoots);
    CrashSafeConvergence(between, hostRoots, proxy, second);
    RetiredExactly(between, hostRoots, proxy, second, earlier);
  }

  lemma RotationStep(g: Guest, firstRoots: seq<Sha>, earlier: Sha, after: Guest, hostRoots: seq<Sha>)
    requires Converged(g, firstRoots, earlier, after) && earlier !in g.roots
    requires earlier !in AmbientRole(g, firstRoots) && earlier !in hostRoots
    ensures earlier in after.roots && ProvenOwned(after, earlier) && after.proxyFile == after.manifest.value.proxy
    ensures earlier !in AmbientRole(after, hostRoots)
  {
    assert forall x :: x in after.manifest.value.ambient ==> x in Elems(after.manifest.value.ambient);
  }

  /** A run that is not cut completes exactly when the proxy PEM is explained, and else touches nothing. */
  lemma CompletesExactlyWhenExplained(w: World, hostRoots: seq<Sha>, proxy: Sha, budget: nat)
    requires Reachable(w) && budget >= |PlannedSteps(w.guest, hostRoots, proxy)|
    ensures Reconcile(w, hostRoots, proxy, budget).done <==> ProxyFileExplained(w.guest, proxy)
    ensures !ProxyFileExplained(w.guest, proxy) ==> Reconcile(w, hostRoots, proxy, budget).world == w
  {
    PlansExactlyWhenExplained(w, hostRoots, proxy);
    if ProxyFileExplained(w.guest, proxy) {
      CrashSafeConvergence(w, hostRoots, proxy, budget);
    }
    hide Execute, History, TrustPlanner.Plan, Inspect;
  }

  /** What the publication writes, the manifest last. */
  function Announced(w: World, u: Understood): World {
    var p := Prepared(w, u);
    p.(guest := p.guest.(proxyFile := Some(u.proxy), bundle := Some(u.Bundle()), manifest := Some(u.NextManifest())))
  }

  lemma ExecuteUpToManifest(w: World, u: Understood, rest: seq<Step>, budget: nat)
    requires u.guest == w.guest.roots && u.files == w.guest.pems
    requires budget >= |PreparationSteps(u)| + 4
    ensures var steps := PreparationSteps(u) + StagingSteps(u) + [WriteManifest(u.NextManifest())] + rest;
      Execute(w, steps, budget) == Execute(Announced(w, u), rest, budget - |PreparationSteps(u)| - 4)
  {
    hide Execute, PreparationSteps, Understood.Bundle, Understood.NextManifest, Understood.Required, SortSet;
    var a, c, m := PreparationSteps(u), StagingSteps(u), WriteManifest(u.NextManifest());
    assert a + c + [m] + rest == a + (c + ([m] + rest));
    ExecutePreparation(w, u, budget);
    ExecuteAppend(w, a, c + ([m] + rest), budget);
    ExecuteStaging(w, u, rest, budget - |a|);
  }

  lemma ExecuteStaging(w: World, u: Understood, rest: seq<Step>, budget: nat)
    requires budget >= 4
    ensures Execute(Prepared(w, u), StagingSteps(u) + ([WriteManifest(u.NextManifest())] + rest), budget)
            == Execute(Announced(w, u), rest, budget - 4)
  {
    hide Execute, Understood.Bundle, Understood.NextManifest, Understood.Required, SortSet;
    var c, m := StagingSteps(u), WriteManifest(u.NextManifest());
    var w0 := Prepared(w, u);
    SortSetMembers(u.Required());
    assert c + ([m] + rest) == [c[0]] + ([c[1]] + ([c[2]] + ([m] + rest)));
    ExecuteOne(w0, c[0], [c[1]] + ([c[2]] + ([m] + rest)), budget);
    ExecuteOne(w0, c[1], [c[2]] + ([m] + rest), budget - 1);
    var w2 := Apply(w0, c[1]);
    ExecuteOne(w2, c[2], [m] + rest, budget - 2);
    ExecuteOne(Apply(w2, c[2]), m, rest, budget - 3);
  }

  /** A run that got as far as writing its manifest has installed, stored and published all that the manifest stands for. */
  lemma ManifestIsWrittenLast(w: World, hostRoots: seq<Sha>, proxy: Sha, budget: nat, k: nat)
    requires Reachable(w) && ProxyFileExplained(w.guest, proxy)
    requires k < budget && k < |PlannedSteps(w.guest, hostRoots, proxy)| && PlannedSteps(w.guest, hostRoots, proxy)[k].WriteManifest?
    ensures var before, after := w.guest, Reconcile(w, hostRoots, proxy, budget).world.guest;
      var role := AmbientRole(before, hostRoots);
      && after.manifest == Some(PlannedSteps(before, hostRoots, proxy)[k].manifest)
      && after.proxyFile == Some(proxy) && role <= after.pems && role + {proxy} <= after.roots
      && after.bundle.Some? && Elems(after.bundle.value) == role + {proxy}
  {
    hide Execute, AllSteps, History, TrustPlanner.Plan, Inspect, Understood.Operations, Understood.NextManifest, Understood.Bundle;
    hide Understood.Retained, Understood.Required, AmbientRole, FinishingSteps, PreparationSteps, Reconcile, Understood.Plan;
    var u := Meaning(w.guest, hostRoots, proxy);
    var a, c, m, f := PreparationSteps(u), StagingSteps(u), WriteManifest(u.NextManifest()), FinishingSteps(u);
    PlansExactlyWhenExplained(w, hostRoots, proxy);
    ReconcileIsExecute(w, hostRoots, proxy, budget);
    PlanShape(u);
    OneManifest(u);
    OnlyOneManifest(a, c, m, f, k);
    RoleIs(w.guest, hostRoots, proxy);
    ExecuteUpToManifest(w, u, f, budget);
    FinishingKeeps(Announced(w, u), u, budget - |a| - 4);
    AnnouncedIs(w, hostRoots, proxy);
  }

  lemma OnlyOneManifest(a: seq<Step>, c: seq<Step>, m: Step, f: seq<Step>, k: nat)
    requires forall s :: s in a + c + f ==> !s.WriteManifest?
    requires k < |a + c + [m] + f| && (a + c + [m] + f)[k].WriteManifest? && |c| == 3
    ensures k == |a| + 3 && (a + c + [m] + f)[k] == m
  {
    var steps := a + c + [m] + f;
    assert forall i :: 0 <= i < |steps| && i != |a| + 3 ==> steps[i] in a + c + f;
  }

  lemma FinishingKeeps(w: World, u: Understood, budget: nat)
    requires u.Required() <= w.guest.roots
    ensures var after := Execute(w, FinishingSteps(u), budget).world.guest;
      && after.manifest == w.guest.manifest && after.bundle == w.guest.bundle && after.proxyFile == w.guest.proxyFile
      && after.pems == w.guest.pems && u.Required() <= after.roots
  {
    var f := FinishingSteps(u);
    assert forall i :: 0 <= i < |f| ==> f[i].CheckBundleAndSetEnvironment? || f[i].CheckStore? || f[i].RemoveRoot?;
    assert forall s :: s in f && s.RemoveRoot? ==> s.sha !in u.Required();
    StepsKeep(w, f, u.Required(), budget);
  }

  lemma {:induction false} StepsKeep(w: World, steps: seq<Step>, required: set<Sha>, budget: nat)
    requires forall s :: s in steps ==> s.CheckBundleAndSetEnvironment? || s.CheckStore? || (s.RemoveRoot? && s.sha !in required)
    requires required <= w.guest.roots
    ensures var after := Execute(w, steps, budget).world.guest;
      && after.manifest == w.guest.manifest && after.bundle == w.guest.bundle && after.proxyFile == w.guest.proxyFile
      && after.pems == w.guest.pems && required <= after.roots
    decreases steps
  {
    if steps != [] && budget > 0 && Accepts(w, steps[0]) {
      StepsKeep(Apply(w, steps[0]), steps[1..], required, budget - 1);
    }
  }

  lemma AnnouncedIs(w: World, hostRoots: seq<Sha>, proxy: Sha)
    requires Meaning(w.guest, hostRoots, proxy).Plan().Planned?
    ensures var g, role := Announced(w, Meaning(w.guest, hostRoots, proxy)).guest, AmbientRole(w.guest, hostRoots);
      && g.proxyFile == Some(proxy) && role <= g.pems && role + {proxy} <= g.roots
      && g.bundle.Some? && Elems(g.bundle.value) == role + {proxy}
  {
    var u := Meaning(w.guest, hostRoots, proxy);
    BundleIsExact(u);
    PlannedMeansAvailable(u);
    RoleIs(w.guest, hostRoots, proxy);
  }

  // --- When the store changes under a run ------------------------------------------------------------

  /**
   * `steps` as far as they ran, while anyone may change the root store between two of them: each
   * step was accepted in the world it met and left what it does.
   */
  ghost predicate Disturbed(steps: seq<Step>, met: seq<World>) {
    && |met| <= |steps|
    && (forall k :: 0 <= k < |met| ==> Accepts(met[k], steps[k]))
    && forall k :: 0 < k < |met| ==>
         met[k] == (var left := Apply(met[k - 1], steps[k - 1]); left.(guest := left.guest.(roots := met[k].guest.roots)))
  }

  lemma CheckPrecedes(u: Understood) returns (at: nat)
    ensures at == |PreparationSteps(u)| && at < |AllSteps(u.Operations())|
    ensures AllSteps(u.Operations())[at] == CheckStore(SortSet(u.Required()), [])
    ensures forall k :: 0 <= k <= at ==> var step := AllSteps(u.Operations())[k];
              !step.WriteProxyFile? && !step.WriteBundle? && !step.WriteManifest? && !step.CheckBundleAndSetEnvironment? && !step.RemoveRoot?
  {
    hide AllSteps, Understood.Operations, FinishingSteps, Understood.NextManifest, Understood.Bundle, PreparationSteps;
    PlanShape(u);
    PreparationIs(u);
    at := |PreparationSteps(u)|;
    var a, steps := PreparationSteps(u), AllSteps(u.Operations());
    assert steps[..at] == a && steps[at] == StagingSteps(u)[0];
    assert forall k :: 0 <= k < at ==> steps[k] == a[k] && a[k] in a;
  }

  /**
   * Whoever changes the root store while a run goes on: nothing is published, removed or announced
   * before a check has met every required root; and a run that completes with a removal has last
   * met every required root, and the removed one gone.
   */
  lemma NothingPublishedUnchecked(g: Guest, hostRoots: seq<Sha>, proxy: Sha, met: seq<World>, k: nat)
    requires Disturbed(PlannedSteps(g, hostRoots, proxy), met) && k < |met|
    ensures var steps, required := PlannedSteps(g, hostRoots, proxy), AmbientRole(g, hostRoots) + {proxy};
      && (!steps[k].WritePem? && !steps[k].AddRoot? && !steps[k].AddProxyRoot? ==>
            exists j :: 0 <= j <= k && required <= met[j].guest.roots)
      && (steps[k].RemoveRoot? && |met| == |steps| ==>
            required <= met[|met| - 1].guest.roots && steps[k].sha !in met[|met| - 1].guest.roots)
  {
    var u := Meaning(g, hostRoots, proxy);
    var steps := AllSteps(u.Operations());
    RoleIs(g, hostRoots, proxy);
    SortSetMembers(u.Required());
    var at := CheckPrecedes(u);
    PreparationIs(u);
    PlanShape(u);
    assert k < at ==> steps[k] == PreparationSteps(u)[k];
    hide AllSteps, Understood.Operations, Understood.Required, AmbientRole, SortSet;
    if at <= k { assert Accepts(met[at], steps[at]); }
    if steps[k].RemoveRoot? {
      RemovalFollowsCommit(u, k);
      PlanIsCommitThenRetire(u);
      assert steps[|steps| - 1] == RetireSteps(u)[1];
      assert |met| == |steps| ==> Accepts(met[|met| - 1], steps[|steps| - 1]);
    }
  }

  // --- Deletion safety ----------------------------------------------------------------------

  lemma ExecuteNothing(w: World, budget: nat)
    ensures Execute(w, [], budget) == Outcome(w, true, budget)
  {
  }

  lemma OnlyRetirementRemoves(u: Understood)
    ensures forall s :: s in UpToCommit(u) ==> !s.RemoveRoot?
  {
    PreparationIs(u);
    var b := CommitSteps(u);
    assert forall i :: 0 <= i < |b| ==> !b[i].RemoveRoot?;
    assert forall s :: s in UpToCommit(u) ==> s in PreparationSteps(u) || s in b;
  }

  /** A planned removal can only be the step right after the commit. */
  lemma RemovalFollowsCommit(u: Understood, k: nat)
    requires k < |AllSteps(u.Operations())| && AllSteps(u.Operations())[k].RemoveRoot?
    ensures k == |UpToCommit(u)| && AllSteps(u.Operations())[..k] == UpToCommit(u)
    ensures u.Superseded() == Some(AllSteps(u.Operations())[k].sha)
  {
    PlanIsCommitThenRetire(u);
    OnlyRetirementRemoves(u);
    var a, r := UpToCommit(u), RetireSteps(u);
    var steps := a + r;
    assert forall i :: 0 <= i < |a| ==> !steps[i].RemoveRoot?;
    assert (a + r)[k] == r[k - |a|];
  }

  /** The `k`th step of the planned run removes a certificate. */
  ghost predicate RemovesAt(w: World, hostRoots: seq<Sha>, proxy: Sha, k: nat) {
    && Plan(Inspect(w.guest, hostRoots, proxy)).Planned?
    && k < |PlannedSteps(w.guest, hostRoots, proxy)| && PlannedSteps(w.guest, hostRoots, proxy)[k].RemoveRoot?
  }

  /**
   * Whenever a run of any history is about to remove a certificate: an earlier run imported that
   * certificate as its proxy CA, it is neither the current proxy nor a root with an ambient role,
   * the new state is already published, and every required root is there after the removal.
   */
  lemma DeletionSafety(w: World, hostRoots: seq<Sha>, proxy: Sha, k: nat)
    requires Reachable(w)
    ensures RemovesAt(w, hostRoots, proxy, k) ==>
      var removed := PlannedSteps(w.guest, hostRoots, proxy)[k].sha;
      var reached := Execute(w, PlannedSteps(w.guest, hostRoots, proxy)[..k], k);
      && reached.done
      && removed in w.importedAsProxy
      && removed in w.guest.roots && ProvenOwned(w.guest, removed)
      && removed != proxy && removed !in AmbientRole(w.guest, hostRoots)
      && Converged(w.guest, hostRoots, proxy, reached.world.guest)
      && AmbientRole(w.guest, hostRoots) + {proxy} <= Apply(reached.world, RemoveRoot(removed)).guest.roots
  {
    hide Execute, AllSteps, TrustPlanner.Plan, Inspect, UpToCommit, Committed, Understood.Plan, Understood.Operations;
    if RemovesAt(w, hostRoots, proxy, k) {
      var u := Meaning(w.guest, hostRoots, proxy);
      ReconcileIsExecute(w, hostRoots, proxy, k);
      RemovalFollowsCommit(u, k);
      var a := UpToCommit(u);
      assert a + [] == a;
      ExecuteUpToCommit(w, u, [], k);
      ExecuteNothing(Committed(w, u), 0);
      ReachableInvariant(w);
      CommittedIsConverged(w, hostRoots, proxy);
    }
  }

  lemma CommittedIsConverged(w: World, hostRoots: seq<Sha>, proxy: Sha)
    requires Invariant(w) && Meaning(w.guest, hostRoots, proxy).Plan().Planned?
    ensures AmbientRole(w.guest, hostRoots) == Meaning(w.guest, hostRoots, proxy).Retained()
    ensures Converged(w.guest, hostRoots, proxy, Committed(w, Meaning(w.guest, hostRoots, proxy)).guest)
  {
    var u := Meaning(w.guest, hostRoots, proxy);
    BundleIsExact(u);
    SortSetSorted(u.Retained());
    SortSetMembers(u.Retained());
    PlannedMeansAvailable(u);
  }

  lemma RetiredIsConverged(w: World, hostRoots: seq<Sha>, proxy: Sha)
    requires Converged(w.guest, hostRoots, proxy, Committed(w, Meaning(w.guest, hostRoots, proxy)).guest)
    ensures Converged(w.guest, hostRoots, proxy, Retired(w, Meaning(w.guest, hostRoots, proxy)).guest)
  {
    hide Committed;
  }

  lemma {:induction false} ExecuteKeepsRoot(w: World, steps: seq<Step>, x: Sha, budget: nat)
    requires x in w.guest.roots && RemoveRoot(x) !in steps
    ensures x in Execute(w, steps, budget).world.guest.roots
    decreases steps
  {
    if steps != [] && budget > 0 && Accepts(w, steps[0]) {
      ExecuteKeepsRoot(Apply(w, steps[0]), steps[1..], x, budget - 1);
    }
  }

  lemma {:induction false} ExecuteGrows(w: World, steps: seq<Step>, budget: nat)
    ensures w.guest.pems <= Execute(w, steps, budget).world.guest.pems
    ensures w.importedAsProxy <= Execute(w, steps, budget).world.importedAsProxy
    decreases steps
  {
    if steps != [] && budget > 0 && Accepts(w, steps[0]) {
      ExecuteGrows(Apply(w, steps[0]), steps[1..], budget - 1);
    }
  }

  lemma {:induction false} HistoryGrows(w: World, events: seq<Event>)
    ensures w.guest.pems <= History(w, events).guest.pems
    ensures w.importedAsProxy <= History(w, events).importedAsProxy
    decreases events
  {
    if events != [] {
      AfterGrows(w, events[0]);
      HistoryGrows(After(w, events[0]), events[1..]);
    }
  }

  lemma AfterGrows(w: World, e: Event)
    ensures w.guest.pems <= After(w, e).guest.pems
    ensures w.importedAsProxy <= After(w, e).importedAsProxy
  {
    if e.Run? {
      ReconcileIsExecute(w, e.hostRoots, e.proxy, e.budget);
      ExecuteGrows(w, PlannedSteps(w.guest, e.hostRoots, e.proxy), e.budget);
    }
  }

  lemma RunKeepsRoot(w: World, hostRoots: seq<Sha>, proxy: Sha, budget: nat, x: Sha)
    requires Invariant(w) && x in w.guest.roots
    requires x in w.guest.pems || x !in w.importedAsProxy
    ensures x in Reconcile(w, hostRoots, proxy, budget).world.guest.roots
  {
    var u := Meaning(w.guest, hostRoots, proxy);
    var steps := PlannedSteps(w.guest, hostRoots, proxy);
    ReconcileIsExecute(w, hostRoots, proxy, budget);
    if u.Plan().Planned? {
      if RemoveRoot(x) in steps {
        var k :| 0 <= k < |steps| && steps[k] == RemoveRoot(x);
        RemovalFollowsCommit(u, k);
        assert false;
      }
      ExecuteKeepsRoot(w, steps, x, budget);
    }
  }

  /**
   * Setup never takes away a root that has a managed ambient PEM, nor one no run ever imported
   * as its proxy CA: over any history that no one else removes it in, it stays installed.
   */
  lemma {:induction false} RootsSurviveHistory(w: World, events: seq<Event>, x: Sha)
    requires Invariant(w) && x in w.guest.roots
    requires x in w.guest.pems || x !in History(w, events).importedAsProxy
    requires forall i :: 0 <= i < |events| && events[i].RootStoreChanged? ==> x in events[i].roots
    ensures x in History(w, events).guest.roots
    decreases events
  {
    if events != [] {
      var e, w' := events[0], After(w, events[0]);
      HistoryGrows(w, events);
      AfterGrows(w, e);
      HistoryKeepsInvariant(w, [e]);
      assert [e][1..] == [];
      assert History(w, [e]) == History(w', []);
      if e.Run? {
        RunKeepsRoot(w, e.hostRoots, e.proxy, e.budget, x);
      }
      RootsSurviveHistory(w', events[1..], x);
    }
  }

  // --- What a complete run reports --------------------------------------------------------------

  lemma {:induction false} SummaryAppend(s: Summary, a: seq<Operation>, b: seq<Operation>)
    ensures SummaryOf(s, a + b) == SummaryOf(SummaryOf(s, a), b)
    decreases a
  {
    if a == [] {
      assert a + b == b;
    } else {
      assert (a + b)[0] == a[0] && (a + b)[1..] == a[1..] + b;
      SummaryAppend(Count(s, a[0]), a[1..], b);
    }
  }

  lemma SummaryOfOne(s: Summary, op: Operation)
    ensures SummaryOf(s, [op]) == Count(s, op)
  {
    assert SummaryOf(s, [op]) == SummaryOf(Count(s, op), [op][1..]);
  }

  lemma {:induction false} KeepCounts(s: set<Sha>, keep: set<Sha>)
    ensures |Keep(SortSet(s), keep)| == |s * keep|
  {
    if s != {} {
      var m := Minimum(s);
      var rest := SortSet(s - {m});
      KeepCounts(s - {m}, keep);
      assert SortSet(s)[0] == m && SortSet(s)[1..] == rest;
      hide SortSet, Minimum;
      if m in keep {
        assert s * keep == (s - {m}) * keep + {m};
      } else {
        assert s * keep == (s - {m}) * keep;
      }
    } else {
      assert s * keep == {};
    }
  }

  lemma SummaryOfPlan(u: Understood)
    ensures SummaryOf(Summary(0, 0, false), u.Operations())
            == Summary(|u.Retained()|, |u.Required() - u.guest|, u.Superseded().Some?)
  {
    hide Understood.Bundle;
    var zero := Summary(0, 0, false);
    SummaryAppend(zero, u.Preparation() + u.Commit(), u.Retirement());
    SummaryAppend(zero, u.Preparation(), u.Commit());
    PreparationCounts(u);
    KeepCounts(u.Retained(), u.Retained());
    SortSetLength(u.Retained());
    var s := SummaryOf(zero, u.Preparation());
    var c := u.Commit();
    assert c == [c[0]] + ([c[1]] + [c[2]]);
    SummaryAppend(s, [c[0]], [c[1]] + [c[2]]);
    SummaryAppend(s, [c[1]], [c[2]]);
    SummaryOfOne(s, c[0]);
    SummaryOfOne(s, c[1]);
    SummaryOfOne(Count(s, c[1]), c[2]);
    if u.Superseded().Some? {
      var r, t := u.Retirement(), Count(s, c[1]);
      assert r == [r[0]] + [r[1]];
      SummaryAppend(t, [r[0]], [r[1]]);
      SummaryOfOne(t, r[0]);
      SummaryOfOne(Count(t, r[0]), r[1]);
    }
  }

  lemma {:induction false} SortSetLength(s: set<Sha>)
    ensures |SortSet(s)| == |s|
  {
    if s != {} {
      SortSetLength(s - {Minimum(s)});
    }
  }

  lemma PreparationCounts(u: Understood)
    ensures SummaryOf(Summary(0, 0, false), u.Preparation()) == Summary(0, |u.Required() - u.guest|, false)
  {
    hide Keep, SortSet;
    var zero := Summary(0, 0, false);
    var a := if u.ToWrite() != [] then [WriteAmbientPems(u.ToWrite())] else [];
    var b := if u.ToImport() != [] then [ImportAmbient(u.ToImport())] else [];
    var c := if u.ImportsProxy() then [ImportProxy(u.proxy)] else [];
    SummaryAppend(zero, a + b, c);
    SummaryAppend(zero, a, b);
    SummaryOfOne(zero, WriteAmbientPems(u.ToWrite()));
    SummaryOfOne(zero, ImportAmbient(u.ToImport()));
    var s := Summary(0, |u.ToImport()|, false);
    SummaryOfOne(s, ImportProxy(u.proxy));
    KeepCounts(u.Retained(), u.Retained() - u.guest);
    assert u.Retained() * (u.Retained() - u.guest) == u.Retained() - u.guest;
    assert u.Required() - u.guest == (u.Retained() - u.guest) + (if u.ImportsProxy() then {u.proxy} else {});
  }

  /** A complete run reports exactly the roots it found missing, and a replacement exactly when a root went away. */
  lemma SummaryIsHonest(w: World, hostRoots: seq<Sha>, proxy: Sha, budget: nat)
    requires Reachable(w) && ProxyFileExplained(w.guest, proxy)
    requires budget >= |PlannedSteps(w.guest, hostRoots, proxy)|
    ensures var u := Meaning(w.guest, hostRoots, proxy);
      var after := Reconcile(w, hostRoots, proxy, budget).world.guest;
      && Plan(Inspect(w.guest, hostRoots, proxy)) == Planned(u.Operations())
      && SummaryOf(Summary(0, 0, false), u.Operations())
        == Summary(|AmbientRole(w.guest, hostRoots)|, |after.roots - w.guest.roots|, !(w.guest.roots <= after.roots))
  {
    var u := Meaning(w.guest, hostRoots, proxy);
    PlansExactlyWhenExplained(w, hostRoots, proxy);
    ReconcileIsExecute(w, hostRoots, proxy, budget);
    ExecuteWholePlan(w, u, budget);
    SummaryOfPlan(u);
    RetiredRoots(w, u);
    RoleIs(w.guest, hostRoots, proxy);
    hide Execute, Retired, Reconcile, TrustPlanner.Plan, Inspect, AllSteps, History, SummaryOf;
  }

  lemma RetiredRoots(w: World, u: Understood)
    requires u.guest == w.guest.roots
    ensures Retired(w, u).guest.roots - w.guest.roots == u.Required() - u.guest
    ensures w.guest.roots <= Retired(w, u).guest.roots <==> u.Superseded().None?
  {
  }
}
