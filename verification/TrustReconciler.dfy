// Windows guest trust reconciliation over whole histories: the guest as a state, each planned
// operation as the atomic effects of its script, and runs that may stop between any two of them
// (src/guestSetup/windows/trustReconciler.ts, src/guestSetup/windows/trustScripts.ts).
module TrustReconciler {
  import opened Collections
  import opened TrustPlanner

  /** The guest's root store and managed trust directory. */
  datatype Guest = Guest(
    roots: set<Sha>,
    pems: set<Sha>,
    proxyFile: Option<Sha>,
    bundle: Option<seq<Sha>>,
    manifest: Option<Manifest>,
    environmentSet: bool)

  /** A guest together with every fingerprint that some run so far imported as its proxy CA. */
  datatype World = World(guest: Guest, importedAsProxy: set<Sha>)

  /** One atomic effect of a guest script, or one check that stops the run when it fails. */
  datatype Step =
    | WritePem(sha: Sha)
    | AddRoot(sha: Sha)
    | AddProxyRoot(sha: Sha)
    | CheckStore(present: seq<Sha>, absent: seq<Sha>)
    | WriteProxyFile(sha: Sha)
    | WriteBundle(bundle: seq<Sha>)
    | WriteManifest(manifest: Manifest)
    | CheckBundleAndSetEnvironment(expected: seq<Sha>)
    | RemoveRoot(sha: Sha)

  function Writes(roots: seq<Sha>): seq<Step> {
    if roots == [] then [] else [WritePem(roots[0])] + Writes(roots[1..])
  }

  function Adds(roots: seq<Sha>): seq<Step> {
    if roots == [] then [] else [AddRoot(roots[0])] + Adds(roots[1..])
  }

  function OperationSteps(op: Operation): seq<Step> {
    match op
    case WriteAmbientPems(roots) => Writes(roots)
    case ImportAmbient(roots) => Adds(roots)
    case ImportProxy(root) => [AddProxyRoot(root)]
    case VerifyStore(present, absent) => [CheckStore(present, absent)]
    case Publish(manifest, bundle, proxy) => [WriteProxyFile(proxy), WriteBundle(bundle), WriteManifest(manifest)]
    case SetEnvironment(expected) => [CheckBundleAndSetEnvironment(expected)]
    case RemoveProxy(sha) => [RemoveRoot(sha)]
  }

  function AllSteps(ops: seq<Operation>): seq<Step> {
    if ops == [] then [] else OperationSteps(ops[0]) + AllSteps(ops[1..])
  }

  predicate Accepts(w: World, step: Step) {
    match step
    case CheckStore(present, absent) =>
      (forall x :: x in present ==> x in w.guest.roots) && (forall x :: x in absent ==> x !in w.guest.roots)
    case CheckBundleAndSetEnvironment(expected) =>
      && w.guest.bundle.Some?
      && NoDuplicates(w.guest.bundle.value)
      && Elems(w.guest.bundle.value) == Elems(expected)
    case _ => true
  }

  function Apply(w: World, step: Step): World {
    var g := w.guest;
    match step
    case WritePem(sha) => w.(guest := g.(pems := g.pems + {sha}))
    case AddRoot(sha) => w.(guest := g.(roots := g.roots + {sha}))
    case AddProxyRoot(sha) => World(g.(roots := g.roots + {sha}), w.importedAsProxy + {sha})
    case CheckStore(_, _) => w
    case WriteProxyFile(sha) => w.(guest := g.(proxyFile := Some(sha)))
    case WriteBundle(bundle) => w.(guest := g.(bundle := Some(bundle)))
    case WriteManifest(manifest) => w.(guest := g.(manifest := Some(manifest)))
    case CheckBundleAndSetEnvironment(_) => w.(guest := g.(environmentSet := true))
    case RemoveRoot(sha) => w.(guest := g.(roots := g.roots - {sha}))
  }

  /** `done` says that every step ran and no check failed; `left` is the budget not used. */
  datatype Outcome = Outcome(world: World, done: bool, left: nat)

  /** Runs `steps` until one is refused or `budget` of them have run: an interruption at any point. */
  function Execute(w: World, steps: seq<Step>, budget: nat): Outcome
    decreases steps
  {
    if steps == [] then Outcome(w, true, budget)
    else if budget == 0 || !Accepts(w, steps[0]) then Outcome(w, false, budget)
    else Execute(Apply(w, steps[0]), steps[1..], budget - 1)
  }

  function FileOf(sha: Sha): AmbientFile {
    AmbientFile(Some(sha), SingleCertificate(sha))
  }

  function FilesOf(shas: seq<Sha>): seq<AmbientFile> {
    if shas == [] then [] else [FileOf(shas[0])] + FilesOf(shas[1..])
  }

  /** What inspecting the guest returns. */
  function Inspect(g: Guest, hostRoots: seq<Sha>, proxy: Sha): Snapshot {
    Snapshot(hostRoots, proxy, g.roots, ManagedState(
      if g.manifest.Some? then Some(ParsedManifest(g.manifest.value)) else None,
      if g.proxyFile.Some? then Some(SingleCertificate(g.proxyFile.value)) else None,
      FilesOf(SortSet(g.pems))))
  }

  function Meaning(g: Guest, hostRoots: seq<Sha>, proxy: Sha): Understood {
    Understood(Elems(hostRoots), proxy, g.roots, g.pems, g.proxyFile, g.manifest)
  }

  function PlannedSteps(g: Guest, hostRoots: seq<Sha>, proxy: Sha): seq<Step> {
    AllSteps(Meaning(g, hostRoots, proxy).Operations())
  }

  /** One reconciliation of the guest, cut after at most `budget` atomic effects. */
  function Reconcile(w: World, hostRoots: seq<Sha>, proxy: Sha, budget: nat): Outcome {
    var plan := Plan(Inspect(w.guest, hostRoots, proxy));
    if plan.Refused? then Outcome(w, false, budget) else Execute(w, AllSteps(plan.operations), budget)
  }

  /** What can happen to a guest: a run, anyone changing the root store, the manifest being deleted. */
  datatype Event =
    | Run(hostRoots: seq<Sha>, proxy: Sha, budget: nat)
    | RootStoreChanged(roots: set<Sha>)
    | ManifestDeleted

  function After(w: World, e: Event): World {
    match e
    case Run(hostRoots, proxy, budget) => Reconcile(w, hostRoots, proxy, budget).world
    case RootStoreChanged(roots) => w.(guest := w.guest.(roots := roots))
    case ManifestDeleted => w.(guest := w.guest.(manifest := None))
  }

  function History(w: World, events: seq<Event>): World
    decreases events
  {
    if events == [] then w else History(After(w, events[0]), events[1..])
  }

  /** A guest no run has touched: any root store, no managed directory. */
  function Untouched(roots: set<Sha>): World {
    World(Guest(roots, {}, None, None, None, false), {})
  }

  ghost predicate Reachable(w: World) {
    exists roots: set<Sha>, events: seq<Event> :: w == History(Untouched(roots), events)
  }

  // --- Inspecting a guest loses nothing --------------------------------------------

  lemma {:induction false} FilesOfWellFormed(shas: seq<Sha>)
    ensures FirstMalformed(FilesOf(shas)).None?
    ensures FileShas(FilesOf(shas)) == Elems(shas)
  {
    if shas != [] {
      FilesOfWellFormed(shas[1..]);
      var rest := FilesOf(shas[1..]);
      assert FilesOf(shas) == [FileOf(shas[0])] + rest;
      assert forall f :: f in FilesOf(shas) <==> f == FileOf(shas[0]) || f in rest;
      assert FileShas(FilesOf(shas)) == {shas[0]} + FileShas(rest);
      assert forall x :: x in shas <==> x == shas[0] || x in shas[1..];
    }
  }

  lemma InspectMeans(g: Guest, hostRoots: seq<Sha>, proxy: Sha)
    ensures Understand(Inspect(g, hostRoots, proxy)) == Ok(Meaning(g, hostRoots, proxy))
  {
    FilesOfWellFormed(SortSet(g.pems));
    SortSetMembers(g.pems);
  }

  // --- The invariant of every history -----------------------------------------------

  /** Every manifest ambient root has its PEM, and ownership is only recorded of an import some run made. */
  ghost predicate Invariant(w: World) {
    w.guest.manifest.Some? ==>
      var m := w.guest.manifest.value;
      && Elems(m.ambient) <= w.guest.pems
      && m.proxy.Some?
      && (m.proxyOwned ==> m.proxy.value in w.importedAsProxy)
  }

  /** Every manifest written in `steps` is backed by files and imports that precede it. */
  ghost predicate Backed(w: World, steps: seq<Step>) {
    forall i :: 0 <= i < |steps| && steps[i].WriteManifest? ==>
      var m := steps[i].manifest;
      && (forall x :: x in m.ambient ==> x in w.guest.pems || WritePem(x) in steps[..i])
      && m.proxy.Some?
      && (m.proxyOwned ==> m.proxy.value in w.importedAsProxy || AddProxyRoot(m.proxy.value) in steps[..i])
  }

  lemma BackedStep(w: World, steps: seq<Step>)
    requires steps != [] && Backed(w, steps)
    ensures Backed(Apply(w, steps[0]), steps[1..])
  {
    var rest := steps[1..];
    var w' := Apply(w, steps[0]);
    assert w.guest.pems <= w'.guest.pems && w.importedAsProxy <= w'.importedAsProxy;
    forall i | 0 <= i < |rest| && rest[i].WriteManifest?
      ensures var m := rest[i].manifest;
        && (forall x :: x in m.ambient ==> x in w'.guest.pems || WritePem(x) in rest[..i])
        && m.proxy.Some?
        && (m.proxyOwned ==> m.proxy.value in w'.importedAsProxy || AddProxyRoot(m.proxy.value) in rest[..i])
    {
      assert steps[i + 1] == rest[i];
      assert steps[..i + 1] == [steps[0]] + rest[..i];
    }
  }

  lemma {:induction false} ExecuteKeepsInvariant(w: World, steps: seq<Step>, budget: nat)
    requires Invariant(w) && Backed(w, steps)
    ensures Invariant(Execute(w, steps, budget).world)
    decreases steps
  {
    if steps != [] && budget > 0 && Accepts(w, steps[0]) {
      BackedStep(w, steps);
      assert steps[..0] == [];
      assert steps[0].WriteManifest? ==> forall x :: x in steps[0].manifest.ambient ==> x in w.guest.pems;
      ExecuteKeepsInvariant(Apply(w, steps[0]), steps[1..], budget - 1);
    }
  }

  // --- The shape of a plan ------------------------------------------------------------

  /** From the end of the imports to the commit point. */
  function StagingSteps(u: Understood): seq<Step> {
    [CheckStore(SortSet(u.Required()), []), WriteProxyFile(u.proxy), WriteBundle(u.Bundle())]
  }

  function FinishingSteps(u: Understood): seq<Step> {
    [CheckBundleAndSetEnvironment(SortSet(u.Required()))] + RetireSteps(u)
  }

  function ProxySteps(u: Understood): seq<Step> {
    if u.ImportsProxy() then [AddProxyRoot(u.proxy)] else []
  }

  function RetireSteps(u: Understood): seq<Step> {
    if u.Superseded().Some?
    then [RemoveRoot(u.Superseded().value), CheckStore(SortSet(u.Required()), [u.Superseded().value])]
    else []
  }

  lemma Regroup<T>(a: seq<T>, b: seq<T>, c: seq<T>, d: seq<T>, e: seq<T>)
    ensures a + (b + c + d) + e == a + b + c + (d + e)
  {
  }

  lemma {:induction false} AllStepsAppend(a: seq<Operation>, b: seq<Operation>)
    ensures AllSteps(a + b) == AllSteps(a) + AllSteps(b)
  {
    hide OperationSteps;
    if a == [] {
      assert a + b == b;
    } else {
      AllStepsAppend(a[1..], b);
      calc {
        AllSteps(a + b);
        { assert (a + b)[0] == a[0] && (a + b)[1..] == a[1..] + b; }
        OperationSteps(a[0]) + AllSteps(a[1..] + b);
        OperationSteps(a[0]) + (AllSteps(a[1..]) + AllSteps(b));
        { Associative(OperationSteps(a[0]), AllSteps(a[1..]), AllSteps(b)); }
        OperationSteps(a[0]) + AllSteps(a[1..]) + AllSteps(b);
        AllSteps(a) + AllSteps(b);
      }
    }
  }

  lemma AllStepsOne(op: Operation)
    ensures AllSteps([op]) == OperationSteps(op)
  {
    assert AllSteps([op]) == OperationSteps(op) + AllSteps([op][1..]);
  }

  lemma PreparationShape(u: Understood)
    ensures AllSteps(u.Preparation()) == Writes(u.ToWrite()) + Adds(u.ToImport()) + ProxySteps(u)
  {
    var a := if u.ToWrite() != [] then [WriteAmbientPems(u.ToWrite())] else [];
    var b := if u.ToImport() != [] then [ImportAmbient(u.ToImport())] else [];
    var c := if u.ImportsProxy() then [ImportProxy(u.proxy)] else [];
    AllStepsAppend(a + b, c);
    AllStepsAppend(a, b);
    AllStepsOne(WriteAmbientPems(u.ToWrite()));
    AllStepsOne(ImportAmbient(u.ToImport()));
    AllStepsOne(ImportProxy(u.proxy));
  }

  lemma CommitShape(u: Understood)
    ensures AllSteps(u.Commit())
            == StagingSteps(u) + [WriteManifest(u.NextManifest())]
               + [CheckBundleAndSetEnvironment(SortSet(u.Required()))]
  {
    var c := u.Commit();
    AllStepsOne(c[0]);
    AllStepsOne(c[1]);
    AllStepsOne(c[2]);
    AllStepsAppend([c[0]], [c[1]]);
    AllStepsAppend([c[0]] + [c[1]], [c[2]]);
    assert c == [c[0]] + [c[1]] + [c[2]];
  }

  lemma RetirementShape(u: Understood)
    ensures AllSteps(u.Retirement()) == RetireSteps(u)
  {
    var r := u.Retirement();
    if r != [] {
      AllStepsOne(r[0]);
      AllStepsOne(r[1]);
      AllStepsAppend([r[0]], [r[1]]);
      assert r == [r[0]] + [r[1]];
    }
  }

  lemma PlanShape(u: Understood)
    ensures AllSteps(u.Operations())
            == PreparationSteps(u) + StagingSteps(u) + [WriteManifest(u.NextManifest())] + FinishingSteps(u)
  {
    AllStepsAppend(u.Preparation() + u.Commit(), u.Retirement());
    AllStepsAppend(u.Preparation(), u.Commit());
    PreparationShape(u);
    CommitShape(u);
    RetirementShape(u);
    var a, b, c := PreparationSteps(u), StagingSteps(u), [WriteManifest(u.NextManifest())];
    var d, e := [CheckBundleAndSetEnvironment(SortSet(u.Required()))], RetireSteps(u);
    assert AllSteps(u.Operations()) == a + (b + c + d) + e;
    Regroup(a, b, c, d, e);
  }

  lemma {:induction false} KeepMembers(shas: seq<Sha>, keep: set<Sha>)
    ensures forall x :: x in Keep(shas, keep) <==> x in shas && x in keep
  {
    if shas != [] {
      KeepMembers(shas[1..], keep);
      assert forall x :: x in shas <==> x == shas[0] || x in shas[1..];
    }
  }

  lemma {:induction false} WritesAre(roots: seq<Sha>)
    ensures forall s :: s in Writes(roots) <==> s.WritePem? && s.sha in roots
  {
    if roots != [] {
      WritesAre(roots[1..]);
      assert forall x :: x in roots <==> x == roots[0] || x in roots[1..];
    }
  }

  lemma {:induction false} AddsAre(roots: seq<Sha>)
    ensures forall s :: s in Adds(roots) <==> s.AddRoot? && s.sha in roots
  {
    if roots != [] {
      AddsAre(roots[1..]);
      assert forall x :: x in roots <==> x == roots[0] || x in roots[1..];
    }
  }

  /** When a plan exists, every retained root has its PEM already or is written by the plan. */
  lemma {:induction false} NothingMissing(shas: seq<Sha>, available: set<Sha>)
    ensures FirstMissing(shas, available).None? <==> forall x :: x in shas ==> x in available
    ensures FirstMissing(shas, available).Some?
            ==> FirstMissing(shas, available).value in shas && FirstMissing(shas, available).value !in available
  {
    if shas != [] {
      NothingMissing(shas[1..], available);
      assert forall x :: x in shas <==> x == shas[0] || x in shas[1..];
    }
  }

  function PreparationSteps(u: Understood): seq<Step> {
    Writes(u.ToWrite()) + Adds(u.ToImport()) + ProxySteps(u)
  }

  lemma PreparationIs(u: Understood)
    ensures forall s :: s in PreparationSteps(u) <==>
      || (s.WritePem? && s.sha in u.Retained() && s.sha in u.hosts && s.sha !in u.files)
      || (s.AddRoot? && s.sha in u.Retained() && s.sha !in u.guest)
      || (s == AddProxyRoot(u.proxy) && u.ImportsProxy())
  {
    WritesAre(u.ToWrite());
    AddsAre(u.ToImport());
    SortSetMembers(u.Retained());
    KeepMembers(SortSet(u.Retained()), u.hosts - u.files);
    KeepMembers(SortSet(u.Retained()), u.Retained() - u.guest);
  }

  /** `before` writes no manifest and earns the one that follows it. */
  lemma BackedConcat(w: World, before: seq<Step>, middle: seq<Step>, m: Manifest, rest: seq<Step>)
    requires forall s :: s in before + middle + rest ==> !s.WriteManifest?
    requires forall x :: x in m.ambient ==> x in w.guest.pems || WritePem(x) in before
    requires m.proxy.Some?
    requires m.proxyOwned ==> m.proxy.value in w.importedAsProxy || AddProxyRoot(m.proxy.value) in before
    ensures Backed(w, before + middle + [WriteManifest(m)] + rest)
  {
    var steps := before + middle + [WriteManifest(m)] + rest;
    var n := |before + middle|;
    assert forall i :: 0 <= i < n ==> steps[i] in before + middle + rest;
    assert forall i :: n < i < |steps| ==> steps[i] in before + middle + rest;
    assert steps[..n] == before + middle;
    assert steps[n] == WriteManifest(m);
  }

  lemma OneManifest(u: Understood)
    ensures forall s :: s in PreparationSteps(u) + StagingSteps(u) + FinishingSteps(u) ==> !s.WriteManifest?
  {
    PreparationIs(u);
    var a, b, c := PreparationSteps(u), StagingSteps(u), FinishingSteps(u);
    assert forall i :: 0 <= i < |b| ==> !b[i].WriteManifest?;
    assert forall i :: 0 <= i < |c| ==> !c[i].WriteManifest?;
    assert forall s :: s in a + b + c ==> s in a || s in b || s in c;
  }

  lemma PlanIsBacked(w: World, hostRoots: seq<Sha>, proxy: Sha)
    requires Invariant(w)
    requires Meaning(w.guest, hostRoots, proxy).Plan().Planned?
    ensures Backed(w, PlannedSteps(w.guest, hostRoots, proxy))
  {
    var u := Meaning(w.guest, hostRoots, proxy);
    var before, middle, tail := PreparationSteps(u), StagingSteps(u), FinishingSteps(u);
    PlanShape(u);
    PreparationIs(u);
    SortSetMembers(u.Retained());
    NothingMissing(SortSet(u.Retained()), u.hosts + u.files);
    OneManifest(u);
    BackedConcat(w, before, middle, u.NextManifest(), tail);
  }

  lemma ReconcileKeepsInvariant(w: World, hostRoots: seq<Sha>, proxy: Sha, budget: nat)
    requires Invariant(w)
    ensures Invariant(Reconcile(w, hostRoots, proxy, budget).world)
  {
    InspectMeans(w.guest, hostRoots, proxy);
    if Plan(Inspect(w.guest, hostRoots, proxy)).Planned? {
      PlanIsBacked(w, hostRoots, proxy);
      ExecuteKeepsInvariant(w, PlannedSteps(w.guest, hostRoots, proxy), budget);
    }
  }

  lemma {:induction false} HistoryKeepsInvariant(w: World, events: seq<Event>)
    requires Invariant(w)
    ensures Invariant(History(w, events))
    decreases events
  {
    if events != [] {
      if events[0].Run? {
        ReconcileKeepsInvariant(w, events[0].hostRoots, events[0].proxy, events[0].budget);
      }
      HistoryKeepsInvariant(After(w, events[0]), events[1..]);
    }
  }

  lemma ReachableInvariant(w: World)
    requires Reachable(w)
    ensures Invariant(w)
  {
    var roots: set<Sha>, events: seq<Event> :| w == History(Untouched(roots), events);
    HistoryKeepsInvariant(Untouched(roots), events);
  }

  // --- The reconciler as the source runs it -------------------------------------------

  datatype Summary = Summary(ambientRetained: nat, imported: nat, proxyReplaced: bool)

  function Count(s: Summary, op: Operation): Summary {
    match op
    case ImportAmbient(roots) => s.(imported := s.imported + |roots|)
    case ImportProxy(_) => s.(imported := s.imported + 1)
    case Publish(manifest, _, _) => s.(ambientRetained := |manifest.ambient|)
    case RemoveProxy(_) => s.(proxyReplaced := true)
    case _ => s
  }

  /** What a complete run reports, read off its plan. */
  function SummaryOf(s: Summary, ops: seq<Operation>): Summary
    decreases ops
  {
    if ops == [] then s else SummaryOf(Count(s, ops[0]), ops[1..])
  }

  lemma {:induction false} ExecuteAppend(w: World, a: seq<Step>, b: seq<Step>, budget: nat)
    ensures var first := Execute(w, a, budget);
      Execute(w, a + b, budget) == if first.done then Execute(first.world, b, first.left) else first
    decreases a
  {
    if a == [] {
      assert a + b == b;
    } else {
      assert (a + b)[0] == a[0] && (a + b)[1..] == a[1..] + b;
      if budget > 0 && Accepts(w, a[0]) {
        ExecuteAppend(Apply(w, a[0]), a[1..], b, budget - 1);
      }
    }
  }

  /** The guest behind its executor, which can be cut off after any atomic effect. */
  class GuestMachine {
    var world: World
    var budget: nat

    constructor (world: World, budget: nat)
      ensures this.world == world && this.budget == budget
    {
      this.world := world;
      this.budget := budget;
    }

    /** One script of the guest: its loop over items, stopping at a failed check or a cut. */
    method Invoke(op: Operation) returns (ok: bool)
      modifies this
      ensures Outcome(world, ok, budget) == Execute(old(world), OperationSteps(op), old(budget))
    {
      var steps := OperationSteps(op);
      var i := 0;
      while i < |steps|
        invariant 0 <= i <= |steps|
        invariant Execute(old(world), steps, old(budget)) == Execute(world, steps[i..], budget)
      {
        assert steps[i..][0] == steps[i] && steps[i..][1..] == steps[i + 1..];
        if budget == 0 || !Accepts(world, steps[i]) {
          return false;
        }
        world := Apply(world, steps[i]);
        budget := budget - 1;
        i := i + 1;
      }
      return true;
    }
  }

  method RunOperations(guest: GuestMachine, operations: seq<Operation>) returns (result: Option<Summary>)
    modifies guest
    ensures Outcome(guest.world, result.Some?, guest.budget)
            == Execute(old(guest.world), AllSteps(operations), old(guest.budget))
    ensures result.Some? ==> result.value == SummaryOf(Summary(0, 0, false), operations)
  {
    hide Apply, Accepts, OperationSteps;
    var summary := Summary(0, 0, false);
    var i := 0;
    while i < |operations|
      invariant 0 <= i <= |operations|
      invariant Execute(old(guest.world), AllSteps(operations), old(guest.budget))
                == Execute(guest.world, AllSteps(operations[i..]), guest.budget)
      invariant SummaryOf(Summary(0, 0, false), operations) == SummaryOf(summary, operations[i..])
    {
      var op := operations[i];
      assert operations[i..][0] == op && operations[i..][1..] == operations[i + 1..];
      ExecuteAppend(guest.world, OperationSteps(op), AllSteps(operations[i + 1..]), guest.budget);
      var ok := guest.Invoke(op);
      if !ok { return None; }
      summary := Count(summary, op);
      i := i + 1;
    }
    return Some(summary);
  }

  method ReconcileWindowsGuestTrust(guest: GuestMachine, hostRoots: seq<Sha>, proxy: Sha)
    returns (result: Option<Summary>)
    modifies guest
    ensures Outcome(guest.world, result.Some?, guest.budget)
            == Reconcile(old(guest.world), hostRoots, proxy, old(guest.budget))
    ensures result.Some? ==>
              result.value == SummaryOf(Summary(0, 0, false), Plan(Inspect(old(guest.world).guest, hostRoots, proxy)).operations)
  {
    hide Execute, AllSteps, SummaryOf;
    var plan := PlanTrustReconciliation(Inspect(guest.world.guest, hostRoots, proxy));
    if plan.Refused? { return None; }
    result := RunOperations(guest, plan.operations);
  }
}
