// What the Windows trust planner decides for every snapshot, malformed ones included, told by the
// snapshot alone (src/guestSetup/windows/trustPlanner.ts).
module TrustPlans {
  import opened Collections
  import opened TrustPlanner

  /** The file is one certificate, named for its own fingerprint. */
  predicate Sound(f: AmbientFile) {
    f.nameSha.Some? && f.text == SingleCertificate(f.nameSha.value)
  }

  ghost predicate AllSound(files: seq<AmbientFile>) {
    forall i :: 0 <= i < |files| ==> Sound(files[i])
  }

  /** Nothing in the managed directory is malformed. */
  ghost predicate Readable(m: ManagedState) {
    AllSound(m.ambientFiles) && m.proxyFileText != Some(MalformedPemText) && m.manifestText != Some(MalformedManifestText)
  }

  function Stored(s: Snapshot): set<Sha> {
    set f | f in s.managed.ambientFiles && f.text.SingleCertificate? :: f.text.sha
  }

  function Selected(s: Snapshot): set<Sha> {
    set x | x in s.hostRoots
  }

  /** The roots a PEM is at hand for: the managed ambient files and this run's host selection. */
  function Available(s: Snapshot): set<Sha> {
    Stored(s) + Selected(s)
  }

  /** Every root with an ambient role: those at hand, and what the manifest lists. */
  function Role(s: Snapshot): set<Sha> {
    var text := s.managed.manifestText;
    Available(s)
    + (if text.Some? && text.value.ParsedManifest? then (set x | x in text.value.manifest.ambient) else {})
  }

  /** The manifest and the managed proxy PEM name different CAs, and the PEM is not the current one. */
  ghost predicate Disagree(s: Snapshot) {
    var text, file := s.managed.manifestText, s.managed.proxyFileText;
    && text.Some? && text.value.ParsedManifest? && file.Some? && file.value.SingleCertificate?
    && text.value.manifest.proxy != Some(file.value.sha) && file.value.sha != s.proxy
  }

  lemma {:induction false} FirstMalformedIs(files: seq<AmbientFile>)
    ensures FirstMalformed(files).None? <==> AllSound(files)
    ensures FirstMalformed(files).Some? ==>
              exists i :: 0 <= i < |files| && !Sound(files[i]) && FirstMalformed(files) == Some(files[i]) && AllSound(files[..i])
  {
    if files != [] {
      var rest := files[1..];
      FirstMalformedIs(rest);
      assert forall i :: 0 <= i < |rest| ==> rest[i] == files[i + 1];
      if !Sound(files[0]) {
        assert files[..0] == [];
      } else if FirstMalformed(rest).Some? {
        var i :| 0 <= i < |rest| && !Sound(rest[i]) && FirstMalformed(rest) == Some(rest[i]) && AllSound(rest[..i]);
        assert files[i + 1] == rest[i];
        assert files[..i + 1] == [files[0]] + rest[..i];
      }
    }
  }

  lemma {:induction false} FirstMissingIs(s: set<Sha>, available: set<Sha>)
    ensures FirstMissing(SortSet(s), available).None? <==> s <= available
    ensures FirstMissing(SortSet(s), available).Some? ==> IsMinimum(FirstMissing(SortSet(s), available).value, s - available)
  {
    if s != {} {
      var m := Minimum(s);
      FirstMissingIs(s - {m}, available);
      assert SortSet(s)[0] == m && SortSet(s)[1..] == SortSet(s - {m});
      if m in available {
        assert (s - {m}) - available == s - available;
      }
    }
  }

  /** The two malformed cases that come after the ambient files, and none. */
  lemma UnderstandIs(s: Snapshot)
    ensures AllSound(s.managed.ambientFiles) && s.managed.proxyFileText == Some(MalformedPemText) ==>
              Understand(s) == Err(MalformedProxyPem)
    ensures (AllSound(s.managed.ambientFiles) && s.managed.proxyFileText != Some(MalformedPemText)
             && s.managed.manifestText == Some(MalformedManifestText)) ==> Understand(s) == Err(MalformedManifest)
    ensures Readable(s.managed) <==> Understand(s).Ok?
    ensures Readable(s.managed) ==>
              var u := Understand(s).value;
              && u.Retained() == Role(s) && u.hosts == Selected(s) && u.files == Stored(s) && u.proxy == s.proxy && u.guest == s.guestRoots
              && (u.Ambiguous() <==> Disagree(s))
  {
    FirstMalformedIs(s.managed.ambientFiles);
  }

  /**
   * Each refusal has its own cause, looked for in this order: a malformed ambient PEM (the first
   * one), a malformed proxy PEM, a malformed manifest, a root with an ambient role but no PEM at
   * hand (the least one), and a manifest and proxy PEM that disagree.
   */
  lemma RefusedExactly(s: Snapshot)
    ensures forall named :: Plan(s) == Refused(MalformedAmbientPem(named)) <==>
              exists i :: 0 <= i < |s.managed.ambientFiles| && !Sound(s.managed.ambientFiles[i])
                && s.managed.ambientFiles[i].nameSha == named && AllSound(s.managed.ambientFiles[..i])
    ensures Plan(s) == Refused(MalformedProxyPem) <==>
            AllSound(s.managed.ambientFiles) && s.managed.proxyFileText == Some(MalformedPemText)
    ensures Plan(s) == Refused(MalformedManifest) <==>
            AllSound(s.managed.ambientFiles) && s.managed.proxyFileText != Some(MalformedPemText)
            && s.managed.manifestText == Some(MalformedManifestText)
    ensures forall x :: Plan(s) == Refused(MissingPem(x)) <==> Readable(s.managed) && IsMinimum(x, Role(s) - Available(s))
    ensures forall x :: Plan(s) == Refused(OwnershipAmbiguity(x)) <==>
              && Readable(s.managed) && Role(s) <= Available(s) && Disagree(s)
              && x == (var claimed := s.managed.manifestText.value.manifest.proxy;
                       if claimed.Some? then claimed.value else s.managed.proxyFileText.value.sha)
    ensures Plan(s).Planned? <==> Readable(s.managed) && Role(s) <= Available(s) && !Disagree(s)
  {
    hide SortSet, Understood.Operations, Understood.Retained, Understood.Ambiguous;
    UnderstandIs(s);
    FirstMalformedIs(s.managed.ambientFiles);
    FirstMissingIs(Role(s), Available(s));
    FirstUnsoundIsUnique(s.managed.ambientFiles);
    assert Readable(s.managed) ==> Understand(s).value.hosts + Understand(s).value.files == Available(s);
  }

  lemma FirstUnsoundIsUnique(files: seq<AmbientFile>)
    ensures forall i, j :: (0 <= i < |files| && 0 <= j < |files| && !Sound(files[i]) && !Sound(files[j])
                            && AllSound(files[..i]) && AllSound(files[..j])) ==> i == j
  {
    forall i, j | 0 <= i < j < |files| && !Sound(files[i]) ensures !AllSound(files[..j]) {
      assert files[..j][i] == files[i];
    }
  }

  // --- What is planned -------------------------------------------------------------------------------

  /** The manifest proves that setup installed `x` as its proxy CA. */
  ghost predicate Proven(s: Snapshot, x: Sha) {
    var text := s.managed.manifestText;
    text.Some? && text.value.ParsedManifest? && text.value.manifest.proxyOwned && text.value.manifest.proxy == Some(x)
  }

  /** `x` is to be removed: installed, proven to be setup's, not the current proxy CA, without an ambient role. */
  ghost predicate Retires(s: Snapshot, x: Sha) {
    x in s.guestRoots && Proven(s, x) && x != s.proxy && x !in Role(s)
  }

  ghost predicate Lists(shas: seq<Sha>, s: set<Sha>) {
    Sorted(shas) && forall x :: x in shas <==> x in s
  }

  lemma SortSetLists(s: set<Sha>)
    ensures Lists(SortSet(s), s)
  {
    SortSetMembers(s);
    SortSetSorted(s);
  }

  lemma {:induction false} KeepLists(shas: seq<Sha>, keep: set<Sha>)
    requires Sorted(shas)
    ensures Lists(Keep(shas, keep), Elems(shas) * keep)
  {
    if shas != [] {
      var rest := shas[1..];
      assert forall i :: 0 <= i < |rest| ==> rest[i] == shas[i + 1];
      KeepLists(rest, keep);
      hide Keep;
      ListsMore(shas[0], Keep(rest, keep), Elems(rest) * keep);
      assert Elems(shas) * keep == Elems(rest) * keep + (if shas[0] in keep then {shas[0]} else {});
    }
  }

  lemma ListsMore(x: Sha, shas: seq<Sha>, those: set<Sha>)
    requires Lists(shas, those) && forall y :: y in those ==> x < y
    ensures Lists([x] + shas, those + {x})
  {
    assert forall i :: 0 <= i < |shas| ==> shas[i] in shas;
  }

  /**
   * Every plan, operation by operation: the missing PEMs, the missing roots, the proxy CA unless it
   * is installed or imported already; then the check of the whole store, the publication, the check
   * of the bundle; and last, for a root to retire, its removal and the check that it is gone.
   */
  lemma PlannedExactly(s: Snapshot)
    returns (toWrite: seq<Sha>, toImport: seq<Sha>, required: seq<Sha>, manifest: Manifest, retired: Option<Sha>)
    requires Plan(s).Planned?
    ensures Plan(s).operations ==
            (if toWrite != [] then [WriteAmbientPems(toWrite)] else [])
            + (if toImport != [] then [ImportAmbient(toImport)] else [])
            + (if s.proxy !in s.guestRoots && s.proxy !in Role(s) then [ImportProxy(s.proxy)] else [])
            + [VerifyStore(required, []),
               Publish(manifest, manifest.ambient + (if s.proxy in Role(s) then [] else [s.proxy]), s.proxy),
               SetEnvironment(required)]
            + (if retired.Some? then [RemoveProxy(retired.value), VerifyStore(required, [retired.value])] else [])
    ensures Lists(toWrite, Selected(s) - Stored(s))
    ensures Lists(toImport, Role(s) - s.guestRoots) && Lists(required, Role(s) + {s.proxy})
    ensures Lists(manifest.ambient, Role(s)) && manifest.proxy == Some(s.proxy)
    ensures manifest.proxyOwned <==> (s.proxy !in s.guestRoots && s.proxy !in Role(s)) || Proven(s, s.proxy)
    ensures forall x: Sha :: retired == Some(x) <==> Retires(s, x)
  {
    UnderstandIs(s);
    var u := Understand(s).value;
    toWrite, toImport, required, manifest := u.ToWrite(), u.ToImport(), SortSet(u.Required()), u.NextManifest();
    retired := u.Superseded();
    ListsAreExact(u);
    OwnershipIs(s, u);
    hide SortSet, Keep, Lists, Role, Retires, Proven, Understood.ToWrite, Understood.ToImport, Understood.Retained;
  }

  lemma ListsAreExact(u: Understood)
    ensures Lists(u.ToWrite(), u.hosts - u.files) && Lists(u.ToImport(), u.Retained() - u.guest)
    ensures Lists(SortSet(u.Required()), u.Required()) && Lists(u.NextManifest().ambient, u.Retained())
  {
    SortSetLists(u.Retained());
    SortSetLists(u.Required());
    SortSetMembers(u.Retained());
    KeepLists(SortSet(u.Retained()), u.hosts - u.files);
    KeepLists(SortSet(u.Retained()), u.Retained() - u.guest);
    assert u.Retained() * (u.hosts - u.files) == u.hosts - u.files;
    assert u.Retained() * (u.Retained() - u.guest) == u.Retained() - u.guest;
  }

  lemma OwnershipIs(s: Snapshot, u: Understood)
    requires Understand(s) == Ok(u) && u.Retained() == Role(s)
    ensures forall x: Sha :: u.Superseded() == Some(x) <==> Retires(s, x)
    ensures u.OwnsProxy() <==> (s.proxy !in s.guestRoots && s.proxy !in Role(s)) || Proven(s, s.proxy)
  {
    hide Role, Understood.Retained;
  }
}
