// The Windows guest trust planner (src/guestSetup/windows/trustPlanner.ts).
//
// A certificate is identified by the SHA-256 of its DER, and the PEM is a function of the
// DER, so a certificate is modelled by its fingerprint alone. Fingerprints are 64 lowercase
// hex digits, whose string order is the numeric order of the value they denote.
module TrustPlanner {
  import opened Collections

  type Sha = nat

  /** What reading one PEM file yields: exactly one certificate, or anything else. */
  datatype PemText = SingleCertificate(sha: Sha) | MalformedPemText

  /** `nameSha` is the fingerprint in the file name, when the name has one. */
  datatype AmbientFile = AmbientFile(nameSha: Option<Sha>, text: PemText)

  datatype Manifest = Manifest(ambient: seq<Sha>, proxy: Option<Sha>, proxyOwned: bool)

  datatype ManifestText = ParsedManifest(manifest: Manifest) | MalformedManifestText

  datatype ManagedState = ManagedState(
    manifestText: Option<ManifestText>,
    proxyFileText: Option<PemText>,
    ambientFiles: seq<AmbientFile>)

  datatype Snapshot = Snapshot(hostRoots: seq<Sha>, proxy: Sha, guestRoots: set<Sha>, managed: ManagedState)

  datatype Operation =
    | WriteAmbientPems(roots: seq<Sha>)
    | ImportAmbient(roots: seq<Sha>)
    | ImportProxy(root: Sha)
    | VerifyStore(present: seq<Sha>, absent: seq<Sha>)
    | Publish(manifest: Manifest, bundle: seq<Sha>, proxy: Sha)
    | SetEnvironment(expectedBundle: seq<Sha>)
    | RemoveProxy(sha: Sha)

  datatype Failure =
    | MalformedAmbientPem(named: Option<Sha>)
    | MalformedProxyPem
    | MalformedManifest
    | MissingPem(fingerprint: Sha)
    | OwnershipAmbiguity(fingerprint: Sha)

  datatype TrustPlan = Planned(operations: seq<Operation>) | Refused(failure: Failure)

  // --- The specification --------------------------------------------------------

  predicate WellFormedFile(f: AmbientFile) {
    f.nameSha.Some? && f.text.SingleCertificate? && f.text.sha == f.nameSha.value
  }

  /** The first managed ambient PEM that is not one certificate named for its own fingerprint. */
  function FirstMalformed(files: seq<AmbientFile>): Option<AmbientFile> {
    if files == [] then None
    else if !WellFormedFile(files[0]) then Some(files[0])
    else FirstMalformed(files[1..])
  }

  function FileShas(files: seq<AmbientFile>): set<Sha> {
    set f | f in files && f.text.SingleCertificate? :: f.text.sha
  }

  /** The first fingerprint of `shas` that neither `a` nor `b` can supply a PEM for. */
  function FirstMissing(shas: seq<Sha>, available: set<Sha>): Option<Sha> {
    if shas == [] then None
    else if shas[0] !in available then Some(shas[0])
    else FirstMissing(shas[1..], available)
  }

  /** The members of `shas` that are in `keep`, in order. */
  function Keep(shas: seq<Sha>, keep: set<Sha>): seq<Sha> {
    if shas == [] then []
    else (if shas[0] in keep then [shas[0]] else []) + Keep(shas[1..], keep)
  }

  /** The managed state after every file of it has been understood. */
  datatype Understood = Understood(
    hosts: set<Sha>,
    proxy: Sha,
    guest: set<Sha>,
    files: set<Sha>,
    proxyFile: Option<Sha>,
    manifest: Option<Manifest>)
  {
    /** Every root that has an ambient role: the manifest's, the managed PEMs', the host selection's. */
    function Retained(): set<Sha> {
      (if manifest.Some? then Elems(manifest.value.ambient) else {}) + files + hosts
    }

    function Required(): set<Sha> {
      Retained() + {proxy}
    }

    function PreviousProxy(): Option<Sha> {
      if manifest.Some? then manifest.value.proxy else proxyFile
    }

    predicate PreviousOwned() {
      manifest.Some? && manifest.value.proxyOwned
    }

    /** The managed proxy PEM names neither the manifest's proxy nor the current one. */
    predicate Ambiguous() {
      && manifest.Some?
      && proxyFile.Some?
      && proxyFile != manifest.value.proxy
      && proxyFile.value != proxy
    }

    /** The proxy CA to remove: proven owned, superseded, without an ambient role, and installed. */
    function Superseded(): Option<Sha> {
      var p := PreviousProxy();
      if PreviousOwned() && p.Some? && p.value != proxy && p.value !in Retained() && p.value in guest
      then p else None
    }

    predicate ImportsProxy() {
      proxy !in guest && proxy !in Retained()
    }

    predicate OwnsProxy() {
      ImportsProxy() || (manifest.Some? && manifest.value.proxy == Some(proxy) && manifest.value.proxyOwned)
    }

    function NextManifest(): Manifest {
      Manifest(SortSet(Retained()), Some(proxy), OwnsProxy())
    }

    function Bundle(): seq<Sha> {
      SortSet(Retained()) + (if proxy in Retained() then [] else [proxy])
    }

    function ToWrite(): seq<Sha> {
      Keep(SortSet(Retained()), hosts - files)
    }

    function ToImport(): seq<Sha> {
      Keep(SortSet(Retained()), Retained() - guest)
    }

    /** What is written and imported before anything is published. */
    function Preparation(): seq<Operation> {
      (if ToWrite() != [] then [WriteAmbientPems(ToWrite())] else [])
      + (if ToImport() != [] then [ImportAmbient(ToImport())] else [])
      + (if ImportsProxy() then [ImportProxy(proxy)] else [])
    }

    function Commit(): seq<Operation> {
      [VerifyStore(SortSet(Required()), []),
       Publish(NextManifest(), Bundle(), proxy),
       SetEnvironment(SortSet(Required()))]
    }

    function Retirement(): seq<Operation> {
      if Superseded().Some?
      then [RemoveProxy(Superseded().value), VerifyStore(SortSet(Required()), [Superseded().value])]
      else []
    }

    function Operations(): seq<Operation> {
      Preparation() + Commit() + Retirement()
    }

    function Plan(): TrustPlan {
      var missing := FirstMissing(SortSet(Retained()), hosts + files);
      if missing.Some? then Refused(MissingPem(missing.value))
      else if Ambiguous() then
        Refused(OwnershipAmbiguity(if manifest.value.proxy.Some? then manifest.value.proxy.value else proxyFile.value))
      else Planned(Operations())
    }
  }

  /** What the snapshot means, or the first reason it cannot be understood. */
  function Understand(s: Snapshot): Result<Understood, Failure> {
    var bad := FirstMalformed(s.managed.ambientFiles);
    if bad.Some? then Err(MalformedAmbientPem(bad.value.nameSha))
    else if s.managed.proxyFileText == Some(MalformedPemText) then Err(MalformedProxyPem)
    else if s.managed.manifestText == Some(MalformedManifestText) then Err(MalformedManifest)
    else Ok(Understood(
      Elems(s.hostRoots), s.proxy, s.guestRoots, FileShas(s.managed.ambientFiles),
      if s.managed.proxyFileText.Some? then Some(s.managed.proxyFileText.value.sha) else None,
      if s.managed.manifestText.Some? then Some(s.managed.manifestText.value.manifest) else None))
  }

  function Plan(s: Snapshot): TrustPlan {
    var u := Understand(s);
    if u.Err? then Refused(u.error) else u.value.Plan()
  }

  // --- The planner as the source runs it ------------------------------------------

  method UnderstandFiles(files: seq<AmbientFile>) returns (r: Result<set<Sha>, Option<Sha>>)
    ensures FirstMalformed(files).None? ==> r == Ok(FileShas(files))
    ensures FirstMalformed(files).Some? ==> r == Err(FirstMalformed(files).value.nameSha)
  {
    var found: set<Sha> := {};
    for i := 0 to |files|
      invariant FirstMalformed(files) == FirstMalformed(files[i..])
      invariant found == FileShas(files[..i])
    {
      var file := files[i];
      assert files[i..][0] == file && files[i..][1..] == files[i + 1..];
      if file.nameSha.None? || file.text.MalformedPemText? || file.text.sha != file.nameSha.value {
        return Err(file.nameSha);
      }
      assert files[..i + 1] == files[..i] + [file];
      found := found + {file.text.sha};
    }
    assert files[..|files|] == files;
    return Ok(found);
  }

  method RetainAll(shas: seq<Sha>, selected: set<Sha>, ambientFiles: set<Sha>) returns (r: Result<seq<Sha>, Sha>)
    ensures FirstMissing(shas, selected + ambientFiles).None? ==> r == Ok(shas)
    ensures FirstMissing(shas, selected + ambientFiles).Some?
            ==> r == Err(FirstMissing(shas, selected + ambientFiles).value)
  {
    var retained := [];
    for i := 0 to |shas|
      invariant FirstMissing(shas, selected + ambientFiles) == FirstMissing(shas[i..], selected + ambientFiles)
      invariant retained == shas[..i]
    {
      assert shas[i..][0] == shas[i] && shas[i..][1..] == shas[i + 1..];
      if shas[i] !in selected && shas[i] !in ambientFiles {
        return Err(shas[i]);
      }
      retained := retained + [shas[i]];
    }
    assert shas[..|shas|] == shas;
    return Ok(retained);
  }

  method Interpret(s: Snapshot) returns (r: Result<Understood, Failure>)
    ensures r == Understand(s)
  {
    var files := UnderstandFiles(s.managed.ambientFiles);
    if files.Err? { return Err(MalformedAmbientPem(files.error)); }
    var proxyFile: Option<Sha> := None;
    if s.managed.proxyFileText.Some? {
      if s.managed.proxyFileText.value.MalformedPemText? { return Err(MalformedProxyPem); }
      proxyFile := Some(s.managed.proxyFileText.value.sha);
    }
    var manifest: Option<Manifest> := None;
    if s.managed.manifestText.Some? {
      if s.managed.manifestText.value.MalformedManifestText? { return Err(MalformedManifest); }
      manifest := Some(s.managed.manifestText.value.manifest);
    }
    return Ok(Understood(Elems(s.hostRoots), s.proxy, s.guestRoots, files.value, proxyFile, manifest));
  }

  /** The previous proxy CA and whether managed state proves setup installed it. */
  method PreviousProxyOf(u: Understood) returns (r: Result<(Option<Sha>, bool), Sha>)
    ensures r.Err? <==> u.Ambiguous()
    ensures r.Err? ==> r.error == if u.manifest.value.proxy.Some? then u.manifest.value.proxy.value else u.proxyFile.value
    ensures r.Ok? ==> r.value == (u.PreviousProxy(), u.PreviousOwned())
  {
    if u.manifest.Some? {
      var claimed := u.manifest.value.proxy;
      if u.proxyFile.Some? && u.proxyFile != claimed && u.proxyFile.value != u.proxy {
        return Err(if claimed.Some? then claimed.value else u.proxyFile.value);
      }
      return Ok((claimed, u.manifest.value.proxyOwned));
    }
    return Ok((u.proxyFile, false));
  }

  method Prepare(u: Understood, retained: seq<Sha>) returns (operations: seq<Operation>, importsProxy: bool)
    requires retained == SortSet(u.Retained())
    ensures operations == u.Preparation()
    ensures importsProxy == u.ImportsProxy()
  {
    SortSetMembers(u.Retained());
    var retainedShas := Elems(retained);
    operations := [];
    var toWrite := Keep(retained, u.hosts - u.files);
    if toWrite != [] { operations := operations + [WriteAmbientPems(toWrite)]; }
    var toImport := Keep(retained, retainedShas - u.guest);
    if toImport != [] { operations := operations + [ImportAmbient(toImport)]; }
    importsProxy := u.proxy !in u.guest && u.proxy !in retainedShas;
    if importsProxy { operations := operations + [ImportProxy(u.proxy)]; }
  }

  method CollectOperations(u: Understood, retained: seq<Sha>, superseded: Option<Sha>) returns (operations: seq<Operation>)
    requires retained == SortSet(u.Retained())
    requires superseded == u.Superseded()
    ensures operations == u.Operations()
  {
    SortSetMembers(u.Retained());
    var importsProxy;
    operations, importsProxy := Prepare(u, retained);
    var proxyOwned := importsProxy
      || (u.manifest.Some? && u.manifest.value.proxy == Some(u.proxy) && u.manifest.value.proxyOwned);
    var required := SortSet(Elems(retained) + {u.proxy});
    var bundle := retained + (if u.proxy in Elems(retained) then [] else [u.proxy]);
    var manifest := Manifest(retained, Some(u.proxy), proxyOwned);
    operations := operations + [VerifyStore(required, []), Publish(manifest, bundle, u.proxy), SetEnvironment(required)];
    if superseded.Some? {
      operations := operations + [RemoveProxy(superseded.value), VerifyStore(required, [superseded.value])];
    }
  }

  method PlanTrustReconciliation(s: Snapshot) returns (plan: TrustPlan)
    ensures plan == Plan(s)
  {
    var read := Interpret(s);
    if read.Err? { return Refused(read.error); }
    var u := read.value;
    var retainedShas := (if u.manifest.Some? then Elems(u.manifest.value.ambient) else {}) + u.files;
    retainedShas := retainedShas + u.hosts;
    var kept := RetainAll(SortSet(retainedShas), u.hosts, u.files);
    if kept.Err? { return Refused(MissingPem(kept.error)); }
    var previous := PreviousProxyOf(u);
    if previous.Err? { return Refused(OwnershipAmbiguity(previous.error)); }
    var (previousProxy, previousOwned) := previous.value;
    var superseded: Option<Sha> := None;
    if previousOwned && previousProxy.Some? && previousProxy.value != u.proxy
       && previousProxy.value !in retainedShas && previousProxy.value in u.guest {
      superseded := previousProxy;
    }
    var operations := CollectOperations(u, kept.value, superseded);
    return Planned(operations);
  }
}
