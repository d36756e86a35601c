// Replacing the phase directories of the VM shares: stage every one, swap them in, and roll back
// when a filesystem call fails (src/weaveShares.ts).
module WeaveShares {
  import opened Collections

  /** The files of a directory, by relative path. */
  type Tree = map<seq<string>, string>

  /** One copy: `source` is what is read, a single file being at the empty path. */
  datatype Action = Action(destRel: seq<string>, source: Tree)

  datatype PhasePlan = PhasePlan(livePhaseDir: string, actions: seq<Action>)

  function Under(destRel: seq<string>, source: Tree): Tree {
    map full | full in Prefixed(destRel, source.Keys) :: source[full[|destRel|..]]
  }

  function Prefixed(destRel: seq<string>, paths: set<seq<string>>): (r: set<seq<string>>)
    ensures forall full :: full in r ==> |destRel| <= |full| && full[|destRel|..] in paths
  {
    set path | path in paths :: destRel + path
  }

  /** Later copies overwrite earlier ones. */
  function Contents(actions: seq<Action>): Tree {
    if actions == [] then map[]
    else
      var last := actions[|actions| - 1];
      Contents(actions[..|actions| - 1]) + Under(last.destRel, last.source)
  }

  lemma NoContents()
    ensures Contents([]) == map[]
  {
  }

  lemma ContentsNext(actions: seq<Action>, i: nat)
    requires i < |actions|
    ensures Contents(actions[..i + 1]) == Contents(actions[..i]) + Under(actions[i].destRel, actions[i].source)
  {
    assert actions[..i + 1][..i] == actions[..i];
  }

  /** Action `i` is the last one to write `path`. */
  ghost predicate LastWriter(actions: seq<Action>, i: nat, path: seq<string>) {
    && i < |actions| && path in Under(actions[i].destRel, actions[i].source)
    && forall j :: i < j < |actions| ==> path !in Under(actions[j].destRel, actions[j].source)
  }

  /** A staged directory holds each file as some action last wrote it... */
  lemma {:induction false} LastWriteIsHeld(actions: seq<Action>, i: nat, path: seq<string>)
    requires LastWriter(actions, i, path)
    ensures path in Contents(actions)
    ensures Contents(actions)[path] == actions[i].source[path[|actions[i].destRel|..]]
  {
    var n := |actions| - 1;
    if i < n {
      assert actions[..n][i] == actions[i];
      LastWriteIsHeld(actions[..n], i, path);
    }
  }

  /** ...and no other file. */
  lemma {:induction false} HeldIsLastWrite(actions: seq<Action>, path: seq<string>) returns (i: nat)
    requires path in Contents(actions)
    ensures LastWriter(actions, i, path)
  {
    hide Under;
    var n := |actions| - 1;
    if path in Under(actions[n].destRel, actions[n].source) {
      i := n;
    } else {
      var earlier := actions[..n];
      i := HeldIsLastWrite(earlier, path);
      forall j | i < j < |actions| ensures path !in Under(actions[j].destRel, actions[j].source) {
        if j < n { assert earlier[j] == actions[j]; }
      }
    }
  }

  // --- Names ---------------------------------------------------------------------------------------

  function StagingName(live: string, pid: string): string {
    live + ".staging-" + pid
  }

  function BackupName(live: string, pid: string): string {
    live + ".backup-" + pid
  }

  lemma NamesDiffer(a: string, b: string, pid: string)
    ensures StagingName(a, pid) != BackupName(b, pid)
    ensures a != b ==> StagingName(a, pid) != StagingName(b, pid) && BackupName(a, pid) != BackupName(b, pid)
  {
    var staging, backup := StagingName(a, pid), BackupName(b, pid);
    assert staging[|staging| - |pid| - 2] == 'g';
    assert backup[|backup| - |pid| - 2] == 'p';
    assert StagingName(a, pid)[..|a|] == a && StagingName(b, pid)[..|b|] == b;
    assert BackupName(a, pid)[..|a|] == a && BackupName(b, pid)[..|b|] == b;
  }

  // --- The filesystem ------------------------------------------------------------------------------

  /** The call that will fail, counted from now, and what it leaves at the path it works on. */
  datatype Fault = Fault(countdown: nat, residue: Option<Tree>)

  function At(dirs: map<string, Tree>, path: string): Option<Tree> {
    if path in dirs then Some(dirs[path]) else None
  }

  function Set(dirs: map<string, Tree>, path: string, tree: Option<Tree>): (r: map<string, Tree>)
    ensures At(r, path) == tree
    ensures forall p :: p != path ==> At(r, p) == At(dirs, p)
  {
    if tree.Some? then dirs[path := tree.value] else dirs - {path}
  }

  class Disk {
    var dirs: map<string, Tree>
    var fault: Option<Fault>

    constructor (dirs: map<string, Tree>, fault: Option<Fault>)
      ensures this.dirs == dirs && this.fault == fault
    {
      this.dirs := dirs;
      this.fault := fault;
    }

    /** One call working on `path`: at most one ever fails. */
    method Call(path: string, result: Option<Tree>) returns (ok: bool)
      modifies this
      ensures ok ==> At(dirs, path) == result
      ensures forall p :: p != path ==> At(dirs, p) == old(At(dirs, p))
      ensures !ok ==> fault.None? && old(fault).Some? && At(dirs, path) == old(fault).value.residue
      ensures old(fault).Some? ==> (ok <==> old(fault).value.countdown > 0)
      ensures ok && old(fault).Some? ==> fault == Some(Fault(old(fault).value.countdown - 1, old(fault).value.residue))
      ensures old(fault).None? ==> ok && fault.None?
    {
      if fault.Some? && fault.value.countdown == 0 {
        dirs := Set(dirs, path, fault.value.residue);
        fault := None;
        return false;
      }
      if fault.Some? { fault := Some(Fault(fault.value.countdown - 1, fault.value.residue)); }
      dirs := Set(dirs, path, result);
      return true;
    }

    /** A rename is atomic: when it fails, nothing moved. */
    method Rename(source: string, target: string) returns (ok: bool)
      requires source in dirs && source != target
      modifies this
      ensures ok ==> At(dirs, source) == None && At(dirs, target) == old(At(dirs, source))
      ensures !ok ==> dirs == old(dirs) && fault.None? && old(fault).Some?
      ensures old(fault).Some? ==> (ok <==> old(fault).value.countdown > 0)
      ensures ok && old(fault).Some? ==> fault == Some(Fault(old(fault).value.countdown - 1, old(fault).value.residue))
      ensures forall p :: p != source && p != target ==> At(dirs, p) == old(At(dirs, p))
      ensures old(fault).None? ==> ok && fault.None?
    {
      if fault.Some? && fault.value.countdown == 0 {
        fault := None;
        return false;
      }
      if fault.Some? { fault := Some(Fault(fault.value.countdown - 1, fault.value.residue)); }
      dirs := Set(dirs - {source}, target, Some(dirs[source]));
      return true;
    }
  }

  /** The fault after `calls` more calls, none of which it hits. */
  function Later(fault: Option<Fault>, calls: nat): Option<Fault>
    requires fault.Some? ==> calls <= fault.value.countdown
  {
    if fault.Some? then Some(Fault(fault.value.countdown - calls, fault.value.residue)) else None
  }

  /** The fault hits one of the next `calls` calls. */
  predicate Hits(fault: Option<Fault>, calls: nat) {
    fault.Some? && fault.value.countdown < calls
  }

  /** Staging a plan removes and makes its directory, and makes two calls for each copy. */
  function StagingCalls(plan: PhasePlan): nat {
    2 + 2 * |plan.actions|
  }

  function AllStagingCalls(plans: seq<PhasePlan>, n: nat): nat
    requires n <= |plans|
  {
    if n == 0 then 0 else AllStagingCalls(plans, n - 1) + StagingCalls(plans[n - 1])
  }

  // --- Stage, swap, roll back ------------------------------------------------------------------------

  datatype Outcome = Swapped | StagingFailed | SwapFailed | CleanupFailed

  /** A swap begun: where the old directory went, if there was one. */
  datatype Moved = Moved(live: string, backup: string, hadLive: bool)

  method Stage(disk: Disk, plan: PhasePlan, pid: string) returns (ok: bool, pushed: bool)
    modifies disk
    ensures ok <==> !Hits(old(disk.fault), StagingCalls(plan))
    ensures ok ==> disk.fault == Later(old(disk.fault), StagingCalls(plan))
    ensures pushed <==> !Hits(old(disk.fault), 2)
    ensures ok ==> pushed && At(disk.dirs, StagingName(plan.livePhaseDir, pid)) == Some(Contents(plan.actions))
    ensures !ok ==> disk.fault.None?
    ensures forall p :: p != StagingName(plan.livePhaseDir, pid) ==> At(disk.dirs, p) == old(At(disk.dirs, p))
  {
    hide Contents, Under, StagingName;
    var staging := StagingName(plan.livePhaseDir, pid);
    assert Contents(plan.actions[..0]) == map[] by { NoContents(); }
    ok := disk.Call(staging, None);
    if !ok { return false, false; }
    ok := disk.Call(staging, Some(map[]));
    if !ok { return false, false; }
    for i := 0 to |plan.actions|
      invariant At(disk.dirs, staging) == Some(Contents(plan.actions[..i]))
      invariant forall p :: p != staging ==> At(disk.dirs, p) == old(At(disk.dirs, p))
      invariant !Hits(old(disk.fault), 2 + 2 * i) && disk.fault == Later(old(disk.fault), 2 + 2 * i)
    {
      ContentsNext(plan.actions, i);
      // The directories above the destination, which hold no file yet.
      ok := disk.Call(staging, At(disk.dirs, staging));
      if !ok { return false, true; }
      var action := plan.actions[i];
      ok := disk.Call(staging, Some(disk.dirs[staging] + Under(action.destRel, action.source)));
      if !ok { return false, true; }
    }
    assert plan.actions[..|plan.actions|] == plan.actions;
    return true, true;
  }

  function Live(plans: seq<PhasePlan>, i: nat): string
    requires i < |plans|
  {
    plans[i].livePhaseDir
  }

  function Staging(plans: seq<PhasePlan>, pid: string, i: nat): string
    requires i < |plans|
  {
    StagingName(plans[i].livePhaseDir, pid)
  }

  function Backup(plans: seq<PhasePlan>, pid: string, i: nat): string
    requires i < |plans|
  {
    BackupName(plans[i].livePhaseDir, pid)
  }

  /** The phase directories differ, and none is named like the staging or backup of one. */
  ghost predicate Unmixed(plans: seq<PhasePlan>, pid: string) {
    && (forall i, j :: 0 <= i < j < |plans| ==> Live(plans, i) != Live(plans, j))
    && (forall i, j :: 0 <= i < |plans| && 0 <= j < |plans| ==>
          Live(plans, i) != Staging(plans, pid, j) && Live(plans, i) != Backup(plans, pid, j))
  }

  /** The names of two plans have nothing in common. */
  ghost predicate Different(plans: seq<PhasePlan>, pid: string, n: nat, k: nat)
    requires n < |plans| && k < |plans|
  {
    && Live(plans, n) != Staging(plans, pid, k) && Live(plans, n) != Backup(plans, pid, k)
    && Staging(plans, pid, n) != Live(plans, k) && Staging(plans, pid, n) != Backup(plans, pid, k)
    && Backup(plans, pid, n) != Live(plans, k) && Backup(plans, pid, n) != Staging(plans, pid, k)
    && (k != n ==> Live(plans, n) != Live(plans, k) && Staging(plans, pid, n) != Staging(plans, pid, k)
                   && Backup(plans, pid, n) != Backup(plans, pid, k))
  }

  lemma AreDifferent(plans: seq<PhasePlan>, pid: string, n: nat, k: nat)
    requires Unmixed(plans, pid) && n < |plans| && k < |plans|
    ensures Different(plans, pid, n, k)
  {
    hide StagingName, BackupName;
    NamesDiffer(Live(plans, n), Live(plans, k), pid);
    NamesDiffer(Live(plans, k), Live(plans, n), pid);
  }

  lemma Apart(plans: seq<PhasePlan>, pid: string, n: nat)
    requires Unmixed(plans, pid) && n < |plans|
    ensures forall k :: 0 <= k < |plans| ==>
              && Live(plans, n) != Staging(plans, pid, k) && Live(plans, n) != Backup(plans, pid, k)
              && Staging(plans, pid, n) != Live(plans, k) && Staging(plans, pid, n) != Backup(plans, pid, k)
              && Backup(plans, pid, n) != Live(plans, k) && Backup(plans, pid, n) != Staging(plans, pid, k)
    ensures forall k :: 0 <= k < |plans| && k != n ==>
              && Live(plans, n) != Live(plans, k) && Staging(plans, pid, n) != Staging(plans, pid, k)
              && Backup(plans, pid, n) != Backup(plans, pid, k)
  {
    hide Live, Staging, Backup, Unmixed;
    forall k | 0 <= k < |plans|
      ensures
              && Live(plans, n) != Staging(plans, pid, k) && Live(plans, n) != Backup(plans, pid, k)
              && Staging(plans, pid, n) != Live(plans, k) && Staging(plans, pid, n) != Backup(plans, pid, k)
              && Backup(plans, pid, n) != Live(plans, k) && Backup(plans, pid, n) != Staging(plans, pid, k)
      ensures k != n ==>
              && Live(plans, n) != Live(plans, k) && Staging(plans, pid, n) != Staging(plans, pid, k)
              && Backup(plans, pid, n) != Backup(plans, pid, k)
    {
      AreDifferent(plans, pid, n, k);
    }
  }

  /** A path of none of the plans. */
  predicate Foreign(plans: seq<PhasePlan>, pid: string, path: string) {
    forall k :: 0 <= k < |plans| ==>
      path != Live(plans, k) && path != Staging(plans, pid, k) && path != Backup(plans, pid, k)
  }

  ghost predicate OthersKept(plans: seq<PhasePlan>, pid: string, before: map<string, Tree>, after: map<string, Tree>) {
    forall p :: Foreign(plans, pid, p) ==> At(after, p) == At(before, p)
  }

  ghost predicate LivesKept(plans: seq<PhasePlan>, before: map<string, Tree>, after: map<string, Tree>) {
    forall k :: 0 <= k < |plans| ==> At(after, Live(plans, k)) == At(before, Live(plans, k))
  }

  ghost predicate LivesNew(plans: seq<PhasePlan>, after: map<string, Tree>) {
    forall k :: 0 <= k < |plans| ==> At(after, Live(plans, k)) == Some(Contents(plans[k].actions))
  }

  /** The first `n` directories are staged, and nothing else has changed. */
  ghost predicate StagedUpTo(plans: seq<PhasePlan>, pid: string, before: map<string, Tree>, dirs: map<string, Tree>, n: nat)
    requires n <= |plans|
  {
    && LivesKept(plans, before, dirs) && OthersKept(plans, pid, before, dirs)
    && forall k :: 0 <= k < n ==> At(dirs, Staging(plans, pid, k)) == Some(Contents(plans[k].actions))
  }

  /** The first `n` directories are swapped: the old one is the backup, the staged one is live. */
  ghost predicate SwappedUpTo(plans: seq<PhasePlan>, pid: string, before: map<string, Tree>, dirs: map<string, Tree>, n: nat)
    requires n <= |plans|
  {
    && OthersKept(plans, pid, before, dirs)
    && (forall k :: 0 <= k < n ==>
          && At(dirs, Live(plans, k)) == Some(Contents(plans[k].actions))
          && At(dirs, Staging(plans, pid, k)) == None
          && At(dirs, Backup(plans, pid, k)) == At(before, Live(plans, k)))
    && (forall k :: n <= k < |plans| ==>
          && At(dirs, Live(plans, k)) == At(before, Live(plans, k))
          && At(dirs, Staging(plans, pid, k)) == Some(Contents(plans[k].actions)))
  }

  /** Of the `m` directories that were moved away, the first `r` are back; the others never moved. */
  ghost predicate RolledBackTo(plans: seq<PhasePlan>, pid: string, before: map<string, Tree>, dirs: map<string, Tree>, m: nat, r: nat)
    requires r <= m <= |plans|
  {
    && OthersKept(plans, pid, before, dirs)
    && (forall k :: 0 <= k < r ==>
          At(dirs, Live(plans, k)) == At(before, Live(plans, k)) && At(dirs, Backup(plans, pid, k)) == None)
    && (forall k :: r <= k < m ==> At(dirs, Backup(plans, pid, k)) == At(before, Live(plans, k)))
    && (forall k :: m <= k < |plans| ==> At(dirs, Live(plans, k)) == At(before, Live(plans, k)))
  }

  ghost predicate Records(plans: seq<PhasePlan>, pid: string, before: map<string, Tree>, swapped: seq<Moved>) {
    && |swapped| <= |plans|
    && forall k :: 0 <= k < |swapped| ==>
         swapped[k] == Moved(Live(plans, k), Backup(plans, pid, k), At(before, Live(plans, k)).Some?)
  }

  /** The body of the swap loop; `moved` when the old directory is out of the way. */
  method SwapOne(disk: Disk, plans: seq<PhasePlan>, pid: string, n: nat, ghost before: map<string, Tree>)
    returns (ok: bool, moved: seq<Moved>)
    requires n < |plans| && Unmixed(plans, pid) && SwappedUpTo(plans, pid, before, disk.dirs, n)
    modifies disk
    ensures ok ==> |moved| == 1 && SwappedUpTo(plans, pid, before, disk.dirs, n + 1)
    ensures !ok ==> |moved| <= 1 && disk.fault.None? && RolledBackTo(plans, pid, before, disk.dirs, n + |moved|, 0)
    ensures |moved| == 1 ==>
              moved[0] == Moved(Live(plans, n), Backup(plans, pid, n), At(before, Live(plans, n)).Some?)
    ensures ok ==> (disk.fault.Some? <==> old(disk.fault).Some?)
    ensures !ok ==> old(disk.fault).Some?
  {
    hide Contents, Live, Staging, Backup, Unmixed;
    Apart(plans, pid, n);
    var live, staging, backup := Live(plans, n), Staging(plans, pid, n), Backup(plans, pid, n);
    ok := disk.Call(backup, None);
    if !ok { return false, []; }
    var hadLive := live in disk.dirs;
    if hadLive {
      ok := disk.Rename(live, backup);
      if !ok { return false, []; }
    }
    moved := [Moved(live, backup, hadLive)];
    ok := disk.Rename(staging, live);
  }

  /** The rollback of one moved directory. */
  method RollBackOne(disk: Disk, plans: seq<PhasePlan>, pid: string, m: nat, r: nat, moved: Moved, ghost before: map<string, Tree>)
    requires r < m <= |plans| && Unmixed(plans, pid) && disk.fault.None?
    requires moved == Moved(Live(plans, r), Backup(plans, pid, r), At(before, Live(plans, r)).Some?)
    requires RolledBackTo(plans, pid, before, disk.dirs, m, r)
    modifies disk
    ensures disk.fault.None? && RolledBackTo(plans, pid, before, disk.dirs, m, r + 1)
  {
    hide Live, Staging, Backup, Unmixed;
    Apart(plans, pid, r);
    var _ := disk.Call(moved.live, None);
    if moved.hadLive && moved.backup in disk.dirs {
      var _ := disk.Rename(moved.backup, moved.live);
    }
  }

  /** Clears the stagings of the first `n` plans, no call failing any more. */
  method RemoveStagings(disk: Disk, plans: seq<PhasePlan>, pid: string, n: nat)
    requires n <= |plans| && Unmixed(plans, pid) && disk.fault.None?
    modifies disk
    ensures disk.fault.None?
    ensures forall k :: 0 <= k < n ==> At(disk.dirs, Staging(plans, pid, k)) == None
    ensures forall p :: (forall k :: 0 <= k < n ==> p != Staging(plans, pid, k)) ==> At(disk.dirs, p) == old(At(disk.dirs, p))
  {
    hide StagingName;
    for i := 0 to n
      invariant disk.fault.None?
      invariant forall k :: 0 <= k < i ==> At(disk.dirs, Staging(plans, pid, k)) == None
      invariant forall p :: (forall k :: 0 <= k < n ==> p != Staging(plans, pid, k)) ==> At(disk.dirs, p) == old(At(disk.dirs, p))
    {
      var _ := disk.Call(Staging(plans, pid, i), None);
    }
  }

  ghost predicate NoStagings(plans: seq<PhasePlan>, pid: string, dirs: map<string, Tree>) {
    forall k :: 0 <= k < |plans| ==> At(dirs, Staging(plans, pid, k)) == None
  }

  ghost predicate NoBackups(plans: seq<PhasePlan>, pid: string, dirs: map<string, Tree>) {
    forall k :: 0 <= k < |plans| ==> At(dirs, Backup(plans, pid, k)) == None
  }

  /** Removes the stagings made so far. */
  method Abandon(disk: Disk, plans: seq<PhasePlan>, pid: string, n: nat, ghost before: map<string, Tree>)
    requires n <= |plans| && Unmixed(plans, pid) && disk.fault.None?
    requires LivesKept(plans, before, disk.dirs) && OthersKept(plans, pid, before, disk.dirs)
    modifies disk
    ensures disk.fault.None? && LivesKept(plans, before, disk.dirs) && OthersKept(plans, pid, before, disk.dirs)
    ensures forall k :: 0 <= k < n ==> At(disk.dirs, Staging(plans, pid, k)) == None
  {
    hide Live, Staging, Backup, Unmixed;
    RemoveStagings(disk, plans, pid, n);
    AllApart(plans, pid);
  }

  /** Stages the next plan. */
  method StageNext(disk: Disk, plans: seq<PhasePlan>, pid: string, i: nat, ghost before: map<string, Tree>)
    returns (ok: bool, pushed: bool)
    requires i < |plans| && Unmixed(plans, pid) && StagedUpTo(plans, pid, before, disk.dirs, i)
    modifies disk
    ensures ok ==> StagedUpTo(plans, pid, before, disk.dirs, i + 1)
    ensures !ok ==> disk.fault.None? && LivesKept(plans, before, disk.dirs) && OthersKept(plans, pid, before, disk.dirs)
    ensures ok <==> !Hits(old(disk.fault), StagingCalls(plans[i]))
    ensures ok ==> disk.fault == Later(old(disk.fault), StagingCalls(plans[i]))
    ensures pushed <==> !Hits(old(disk.fault), 2)
  {
    hide Contents, Live, Staging, Backup, Unmixed, StagingCalls, Hits, Later;
    Apart(plans, pid, i);
    assert Staging(plans, pid, i) == StagingName(plans[i].livePhaseDir, pid) by { StagingIs(plans, pid, i); }
    ok, pushed := Stage(disk, plans[i], pid);
  }

  /** No staging is left of a plan whose directory was made before the fault hit. */
  ghost predicate Unstaged(plans: seq<PhasePlan>, pid: string, dirs: map<string, Tree>, fault: Option<Fault>) {
    forall k :: 0 <= k < |plans| && !Hits(fault, AllStagingCalls(plans, k) + 2) ==> At(dirs, Staging(plans, pid, k)) == None
  }

  /** Stages every plan; on a failure the stagings made so far are removed. */
  method StageAll(disk: Disk, plans: seq<PhasePlan>, pid: string) returns (ok: bool)
    requires Unmixed(plans, pid)
    modifies disk
    ensures ok ==> StagedUpTo(plans, pid, old(disk.dirs), disk.dirs, |plans|)
    ensures !ok ==> LivesKept(plans, old(disk.dirs), disk.dirs) && OthersKept(plans, pid, old(disk.dirs), disk.dirs)
    ensures ok <==> !Hits(old(disk.fault), AllStagingCalls(plans, |plans|))
    ensures ok ==> disk.fault == Later(old(disk.fault), AllStagingCalls(plans, |plans|))
    ensures !ok ==> disk.fault.None? && Unstaged(plans, pid, disk.dirs, old(disk.fault))
  {
    hide Staging, Unmixed, StagingCalls, StagedUpTo, LivesKept, OthersKept;
    StagedNone(plans, pid, disk.dirs);
    for i := 0 to |plans|
      invariant StagedUpTo(plans, pid, old(disk.dirs), disk.dirs, i)
      invariant !Hits(old(disk.fault), AllStagingCalls(plans, i))
      invariant disk.fault == Later(old(disk.fault), AllStagingCalls(plans, i))
    {
      var staged, pushed := StageNext(disk, plans, pid, i, old(disk.dirs));
      if !staged {
        CallsGrow(plans, i);
        Abandon(disk, plans, pid, if pushed then i + 1 else i, old(disk.dirs));
        return false;
      }
    }
    return true;
  }

  lemma StagedNone(plans: seq<PhasePlan>, pid: string, dirs: map<string, Tree>)
    ensures StagedUpTo(plans, pid, dirs, dirs, 0)
  {
  }

  lemma {:induction false} CallsGrow(plans: seq<PhasePlan>, i: nat)
    requires i < |plans|
    ensures forall k :: i < k <= |plans| ==> AllStagingCalls(plans, k) >= AllStagingCalls(plans, i) + StagingCalls(plans[i])
    decreases |plans| - i
  {
    assert AllStagingCalls(plans, i + 1) == AllStagingCalls(plans, i) + StagingCalls(plans[i]);
    if i + 1 < |plans| { CallsGrow(plans, i + 1); }
  }

  method RollBack(disk: Disk, plans: seq<PhasePlan>, pid: string, swapped: seq<Moved>, ghost before: map<string, Tree>)
    requires Unmixed(plans, pid) && disk.fault.None? && Records(plans, pid, before, swapped)
    requires RolledBackTo(plans, pid, before, disk.dirs, |swapped|, 0)
    modifies disk
    ensures LivesKept(plans, before, disk.dirs) && OthersKept(plans, pid, before, disk.dirs)
    ensures disk.fault.None?
    ensures NoStagings(plans, pid, disk.dirs)
  {
    hide Contents, Live, Staging, Backup, Unmixed;
    for r := 0 to |swapped|
      invariant disk.fault.None? && RolledBackTo(plans, pid, before, disk.dirs, |swapped|, r)
    {
      RollBackOne(disk, plans, pid, |swapped|, r, swapped[r], before);
    }
    RemoveStagings(disk, plans, pid, |plans|);
    AllApart(plans, pid);
  }

  /** Swaps every staged directory in; on a failure those moved away are moved back. */
  method SwapAll(disk: Disk, plans: seq<PhasePlan>, pid: string, ghost before: map<string, Tree>)
    returns (ok: bool, swapped: seq<Moved>)
    requires Unmixed(plans, pid) && SwappedUpTo(plans, pid, before, disk.dirs, 0)
    modifies disk
    ensures ok ==> SwappedUpTo(plans, pid, before, disk.dirs, |plans|)
    ensures ok ==> |swapped| == |plans| && Records(plans, pid, before, swapped)
    ensures !ok ==> LivesKept(plans, before, disk.dirs) && OthersKept(plans, pid, before, disk.dirs)
    ensures !ok ==> NoStagings(plans, pid, disk.dirs)
    ensures ok ==> (disk.fault.Some? <==> old(disk.fault).Some?)
    ensures !ok ==> old(disk.fault).Some? && disk.fault.None?
  {
    hide Live, Staging, Backup, Unmixed, SwappedUpTo, RolledBackTo, LivesKept, OthersKept, NoStagings;
    swapped := [];
    for i := 0 to |plans|
      invariant SwappedUpTo(plans, pid, before, disk.dirs, i)
      invariant |swapped| == i && Records(plans, pid, before, swapped)
      invariant disk.fault.Some? <==> old(disk.fault).Some?
    {
      var moved;
      ok, moved := SwapOne(disk, plans, pid, i, before);
      swapped := swapped + moved;
      if !ok {
        RollBack(disk, plans, pid, swapped, before);
        return;
      }
    }
    return true, swapped;
  }

  method RemoveBackups(disk: Disk, plans: seq<PhasePlan>, pid: string, swapped: seq<Moved>, ghost before: map<string, Tree>)
    returns (ok: bool)
    requires Unmixed(plans, pid) && |swapped| == |plans| && Records(plans, pid, before, swapped)
    requires SwappedUpTo(plans, pid, before, disk.dirs, |plans|)
    modifies disk
    ensures LivesNew(plans, disk.dirs) && OthersKept(plans, pid, before, disk.dirs) && NoStagings(plans, pid, disk.dirs)
    ensures ok ==> NoBackups(plans, pid, disk.dirs)
    ensures ok ==> (disk.fault.Some? <==> old(disk.fault).Some?)
    ensures !ok ==> old(disk.fault).Some? && disk.fault.None?
  {
    hide Contents, Live, Staging, Backup, Unmixed;
    for i := 0 to |swapped|
      invariant LivesNew(plans, disk.dirs) && OthersKept(plans, pid, before, disk.dirs) && NoStagings(plans, pid, disk.dirs)
      invariant forall k :: 0 <= k < i ==> At(disk.dirs, Backup(plans, pid, k)) == None
      invariant disk.fault.Some? <==> old(disk.fault).Some?
    {
      Apart(plans, pid, i);
      ok := disk.Call(swapped[i].backup, None);
      if !ok { return; }
    }
    return true;
  }

  /**
   * All or nothing: when a call fails while staging or swapping, every live directory is as it was;
   * otherwise every one holds its plan's files. It succeeds exactly when no call fails. No staging is
   * left, but for one that could not even be made, and no backup after a success.
   */
  method ExecutePlans(disk: Disk, plans: seq<PhasePlan>, pid: string) returns (outcome: Outcome)
    requires Unmixed(plans, pid)
    modifies disk
    ensures outcome in {StagingFailed, SwapFailed} ==> LivesKept(plans, old(disk.dirs), disk.dirs)
    ensures outcome in {Swapped, CleanupFailed} ==> LivesNew(plans, disk.dirs)
    ensures outcome != StagingFailed ==> NoStagings(plans, pid, disk.dirs)
    ensures outcome == Swapped ==> NoBackups(plans, pid, disk.dirs)
    ensures OthersKept(plans, pid, old(disk.dirs), disk.dirs)
    ensures outcome == StagingFailed <==> Hits(old(disk.fault), AllStagingCalls(plans, |plans|))
    ensures outcome == StagingFailed ==> Unstaged(plans, pid, disk.dirs, old(disk.fault))
    ensures outcome == Swapped <==> (old(disk.fault).Some? ==> disk.fault.Some?)
  {
    hide Contents, Live, Staging, Backup, Unmixed;
    var staged := StageAll(disk, plans, pid);
    if !staged { return StagingFailed; }
    var ok, swapped := SwapAll(disk, plans, pid, old(disk.dirs));
    if !ok { return SwapFailed; }
    ok := RemoveBackups(disk, plans, pid, swapped, old(disk.dirs));
    return if ok then Swapped else CleanupFailed;
  }

  lemma StagingIs(plans: seq<PhasePlan>, pid: string, i: nat)
    requires i < |plans|
    ensures Staging(plans, pid, i) == StagingName(plans[i].livePhaseDir, pid)
  {
  }

  lemma AllApart(plans: seq<PhasePlan>, pid: string)
    requires Unmixed(plans, pid)
    ensures forall j, k :: 0 <= j < |plans| && 0 <= k < |plans| ==>
              Live(plans, j) != Staging(plans, pid, k) && Backup(plans, pid, j) != Staging(plans, pid, k)
  {
    hide Live, Staging, Backup, Unmixed;
    forall j, k | 0 <= j < |plans| && 0 <= k < |plans|
      ensures Live(plans, j) != Staging(plans, pid, k) && Backup(plans, pid, j) != Staging(plans, pid, k)
    {
      AreDifferent(plans, pid, j, k);
    }
  }
}
