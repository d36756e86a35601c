// The compiled filter chains route every host as a simple decision list over the original
// lists says, and no two of them claim the same name.
module RoutingTheorems {
  import opened Collections
  import opened Allowlist
  import opened McpServers
  import opened EnvoyConfig

  /** The lists as parsed. `raw` holds the allow-list entries before any pruning. */
  datatype Lists = Lists(raw: seq<Entry>, auth: AuthList, block: seq<string>, mcp: seq<string>)

  ghost predicate HostPattern(host: string) {
    '*' !in host || (IsWildcard(host) && '*' !in host[1..])
  }

  ghost predicate AuthEntries(entries: seq<Entry>) {
    forall e :: e in entries ==> OneColon(e) && '*' !in Host(e)
  }

  /** What the parsers of the four files leave. */
  ghost predicate Parsed(l: Lists) {
    && (forall e :: e in l.raw ==> OneColon(e) && HostPattern(Host(e)))
    && AuthEntries(l.auth.claude) && AuthEntries(l.auth.github)
    && AuthEntries(l.auth.codex) && AuthEntries(l.auth.candidate)
    && (forall p :: p in l.block ==> ':' !in p && HostPattern(p)) && NoDuplicates(l.block)
    && (forall h :: h in l.mcp ==> ':' !in h && '*' !in h) && NoDuplicates(l.mcp)
  }

  /** The policy the configuration is generated from. */
  function Compiled(l: Lists): Policy {
    ResolveMcp(Combine(Prune(l.raw), l.auth, l.block), l.mcp)
  }

  // --- What survives compilation -----------------------------------------------------------

  function AuthSection(l: Lists, k: nat): seq<Entry>
    requires k < 4
  {
    if k == 0 then l.auth.candidate
    else if k == 1 then l.auth.github
    else if k == 2 then l.auth.codex
    else l.auth.claude
  }

  /** Some auth section of priority above `k` lists `e`. */
  predicate ListedAbove(l: Lists, e: Entry, k: nat)
    requires k <= 4
  {
    exists j | 0 <= j < k :: e in AuthSection(l, j)
  }

  function CompiledSection(p: Policy, k: nat): seq<Entry>
    requires k < 5
  {
    if k == 0 then p.candidate else if k == 1 then p.github
    else if k == 2 then p.codex else if k == 3 then p.claude else p.passthrough
  }

  lemma UnblockedDistinct(s: seq<Entry>, block: seq<string>)
    ensures NoDuplicates(Unblocked(Distinct(s), block))
    ensures forall e :: e in Unblocked(Distinct(s), block) <==> e in s && !IsBlocked(Host(e), block)
  {
    DistinctIs(s);
    UnblockedMembers(Distinct(s), block);
    UnblockedNoDuplicates(Distinct(s), block);
  }

  lemma {:induction false} UnblockedNoDuplicates(s: seq<Entry>, block: seq<string>)
    requires NoDuplicates(s)
    ensures NoDuplicates(Unblocked(s, block))
  {
    if s != [] {
      UnblockedNoDuplicates(s[1..], block);
      UnblockedMembers(s[1..], block);
      var rest := Unblocked(s[1..], block);
      assert forall i :: 0 <= i < |rest| ==> rest[i] in rest;
    }
  }

  lemma {:induction false} SurvivorsNoDuplicates(s: seq<Entry>, all: seq<Entry>)
    requires NoDuplicates(s)
    ensures NoDuplicates(KeepSurvivors(s, all))
  {
    if s != [] {
      SurvivorsNoDuplicates(s[1..], all);
      KeepSurvivorsMembers(s[1..], all);
      var rest := KeepSurvivors(s[1..], all);
      assert forall i :: 0 <= i < |rest| ==> rest[i] in rest;
    }
  }

  /** The pass-through section holds the unblocked survivors of the original list: pruning twice changes nothing. */
  lemma PassthroughSection(l: Lists)
    ensures var s := Prune(Unblocked(Distinct(Prune(l.raw)), l.block));
      NoDuplicates(s) && forall e :: e in s <==> e in l.raw && !IsBlocked(Host(e), l.block) && Survives(e, l.raw)
  {
    hide IsBlocked, Host, Port, Unblocked, Distinct;
    var u := Unblocked(Distinct(Prune(l.raw)), l.block);
    UnblockedDistinct(Prune(l.raw), l.block);
    KeepSurvivorsMembers(l.raw, l.raw);
    KeepSurvivorsMembers(u, u);
    SurvivorsNoDuplicates(u, u);
  }

  lemma SectionsAre(l: Lists, k: nat)
    requires k < 5
    ensures var s := Sections(Prune(l.raw), l.auth, l.block);
      && NoDuplicates(s[k])
      && (k < 4 ==> forall e :: e in s[k] <==> e in AuthSection(l, k) && !IsBlocked(Host(e), l.block))
      && (k == 4 ==> forall e :: e in s[k] <==> e in l.raw && !IsBlocked(Host(e), l.block) && Survives(e, l.raw))
  {
    if k < 4 {
      UnblockedDistinct(AuthSection(l, k), l.block);
    } else {
      PassthroughSection(l);
    }
  }

  /** Each entry that is not blocked nor an MCP server's stays in its highest-priority section only. */
  lemma CompiledSectionIs(l: Lists, k: nat, e: Entry)
    requires k < 5 && NoDuplicates(l.block)
    ensures e in CompiledSection(Compiled(l), k) <==>
            && !IsBlocked(Host(e), l.block) && e !in McpEntries(l.mcp) && !ListedAbove(l, e, k)
            && (if k < 4 then e in AuthSection(l, k) else e in l.raw && Survives(e, l.raw))
  {
    hide IsBlocked, Host, Survives, Above;
    var s := Sections(Prune(l.raw), l.auth, l.block);
    CombinedLists(l);
    ResolveMcpIs(Combine(Prune(l.raw), l.auth, l.block), l.mcp);
    WithoutMembers(Resolved(s, k), McpEntries(l.mcp));
    WithoutMembers(s[k], Above(s, k));
    SectionsAre(l, k);
    AboveIs(s, k);
    forall j | 0 <= j < k ensures e in s[j] && j < 4 ==> e in AuthSection(l, j) && !IsBlocked(Host(e), l.block) {
      SectionsAre(l, j);
    }
    forall j | 0 <= j < 4 && j < k && e in AuthSection(l, j) && !IsBlocked(Host(e), l.block) ensures e in s[j] {
      SectionsAre(l, j);
    }
  }

  lemma CombinedLists(l: Lists)
    requires NoDuplicates(l.block)
    ensures DistinctLists(Combine(Prune(l.raw), l.auth, l.block))
  {
    var s := Sections(Prune(l.raw), l.auth, l.block);
    forall k | 0 <= k < 5 ensures NoDuplicates(Resolved(s, k)) {
      SectionsAre(l, k);
      WithoutNoDuplicates(s[k], Above(s, k));
    }
  }

  lemma CompiledLists(l: Lists)
    requires NoDuplicates(l.block)
    ensures DistinctLists(Compiled(l))
    ensures forall n :: n in Compiled(l).blocked <==> n in l.block && n !in l.mcp
  {
    CombinedLists(l);
    ResolveMcpIs(Combine(Prune(l.raw), l.auth, l.block), l.mcp);
    WithoutMembers(l.block, Elems(l.mcp));
  }

  // --- What each server name leads to, told by the original lists ------------------------------

  function KindIndex(kind: AuthKind): nat {
    match kind case Candidate => 0 case Github => 1 case Codex => 2 case Claude => 3
  }

  function On443(name: string): Entry {
    name + ":443"
  }

  ghost predicate Claims(l: Lists, name: string, target: Target) {
    match target
    case Terminate(kind, host) =>
      && host == name && ':' !in name && (kind == Github ==> name in GITHUB_INJECTION)
      && !IsBlocked(name, l.block) && name !in l.mcp
      && On443(name) in AuthSection(l, KindIndex(kind)) && !ListedAbove(l, On443(name), KindIndex(kind))
    case Mcp(hostname) => hostname == name && name in l.mcp
    case Passthrough =>
      && ':' !in name && !IsBlocked(name, l.block) && name !in l.mcp
      && On443(name) in l.raw && Survives(On443(name), l.raw) && !ListedAbove(l, On443(name), 4)
    case BlockList => name in l.block && name !in l.mcp
    case _ => false
  }

  lemma McpEntry(l: Lists, name: string)
    ensures On443(name) in McpEntries(l.mcp) <==> name in l.mcp
  {
    forall m | m in l.mcp && On443(m) == On443(name) ensures m == name {
      assert On443(m)[..|On443(m)| - 4] == m && On443(name)[..|On443(name)| - 4] == name;
    }
  }

  lemma On443Is(name: string)
    requires ':' !in name
    ensures OneColon(On443(name)) && Host(On443(name)) == name && Port(On443(name)) == "443"
  {
    assert name + ":" + "443" == On443(name);
    SplitJoin(name, "443");
  }

  lemma CompiledOneColon(l: Lists)
    requires Parsed(l)
    ensures OneColonEach(Compiled(l))
  {
    hide Compiled, OneColon;
    forall e, k | 0 <= k < 5 && e in CompiledSection(Compiled(l), k) ensures OneColon(e) {
      CompiledEntry(l, k, e);
    }
    var p := Compiled(l);
    assert CompiledSection(p, 0) == p.candidate && CompiledSection(p, 1) == p.github;
    assert CompiledSection(p, 2) == p.codex && CompiledSection(p, 3) == p.claude && CompiledSection(p, 4) == p.passthrough;
  }

  lemma CompiledEntry(l: Lists, k: nat, e: Entry)
    requires Parsed(l) && k < 5 && e in CompiledSection(Compiled(l), k)
    ensures OneColon(e) && HostPattern(Host(e))
  {
    hide Compiled, OneColon, Host, Survives, IsBlocked, ListedAbove;
    CompiledSectionIs(l, k, e);
  }

  lemma NamesLead(l: Lists, name: string, target: Target)
    requires Parsed(l)
    ensures Leads(Compiled(l), l.mcp, name, target) <==> Claims(l, name, target)
  {
    hide Compiled, Survives, IsBlocked, ListedAbove, Host, Port, OneColon;
    CompiledLists(l);
    McpEntry(l, name);
    match target {
      case Terminate(kind, _) =>
        if ':' !in name {
          On443Is(name);
          CompiledSectionIs(l, KindIndex(kind), On443(name));
          assert SectionOf(Compiled(l), kind) == CompiledSection(Compiled(l), KindIndex(kind));
        }
      case Passthrough =>
        CompiledOneColon(l);
        if Leads(Compiled(l), l.mcp, name, Passthrough) {
          var e :| e in Compiled(l).passthrough && Port(e) == "443" && Host(e) == name;
          JoinSplit(e);
          assert e == On443(name);
          CompiledSectionIs(l, 4, e);
        }
        if Claims(l, name, Passthrough) {
          On443Is(name);
          CompiledSectionIs(l, 4, On443(name));
        }
      case _ =>
    }
  }

  lemma ServesExactlyClaims(l: Lists, name: string, target: Target)
    requires Parsed(l)
    ensures Serves(Chains(Compiled(l), l.mcp), name, target) <==> Claims(l, name, target)
  {
    hide Compiled, Serves, Chains;
    CompiledOneColon(l);
    ChainsServe(Compiled(l), l.mcp, name, target);
    NamesLead(l, name, target);
  }

  /** No name leads to two places. */
  lemma ClaimsAreUnique(l: Lists, name: string, s: Target, t: Target)
    requires Parsed(l)
    requires Claims(l, name, s) && Claims(l, name, t)
    ensures s == t
  {
    if name in l.block {
      assert IsBlocked(name, l.block);
    }
  }

  // --- Routing ------------------------------------------------------------------------------------

  /** Some wildcard of the allow list admits the host on port 443. */
  ghost predicate AdmittedByWildcard(l: Lists, host: string) {
    exists w :: w in l.raw && Port(w) == "443" && IsWildcard(Host(w)) && EndsWith(host, Host(w)[1..])
  }

  /** The GitHub hosts whose requests are given credentials. */
  predicate HasInjection(host: string) {
    host == "github.com" || host == "api.github.com"
  }

  /**
   * The decision list. A GitHub entry for a host without an injection gets no chain, yet it has
   * already displaced the lower sections, so only an allow-list wildcard can still admit the host.
   */
  ghost function Decide(l: Lists, skipAllowList: bool, host: string): Target {
    var e, unlisted := On443(host), if skipAllowList then OpenByDefault else DenyByDefault;
    if host in l.mcp then Mcp(host)
    else if IsBlocked(host, l.block) then BlockList
    else if e in l.auth.candidate then Terminate(Candidate, host)
    else if e in l.auth.github then
      if HasInjection(host) then Terminate(Github, host)
      else if AdmittedByWildcard(l, host) then Passthrough else unlisted
    else if e in l.auth.codex then Terminate(Codex, host)
    else if e in l.auth.claude then Terminate(Claude, host)
    else if Admits(l.raw, host, "443") then Passthrough
    else unlisted
  }

  /** The compiled chains as one relation, independent of how they are laid out. */
  ghost predicate Picks(l: Lists, fallback: Target, host: string, target: Target) {
    if exists t :: Claims(l, host, t) then Claims(l, host, target)
    else if exists name, t :: Claims(l, name, t) && Matches(name, host) then
      exists name :: Longest(l, name, host) && Claims(l, name, target)
    else target == fallback
  }

  ghost predicate Longest(l: Lists, name: string, host: string) {
    && Matches(name, host)
    && (exists t :: Claims(l, name, t))
    && forall other, t :: Claims(l, other, t) && Matches(other, host) ==> |other| <= |name|
  }

  lemma RoutesToIsPicks(l: Lists, fallback: Target, host: string, target: Target)
    requires Parsed(l)
    ensures RoutesTo(Chains(Compiled(l), l.mcp), fallback, host, target) <==> Picks(l, fallback, host, target)
  {
    hide Compiled, Chains, Serves, Claims, Matches;
    forall name, t { ServesExactlyClaims(l, name, t); }
  }

  ghost predicate Concrete(host: string) {
    '*' !in host && ':' !in host
  }

  lemma ExactClaimDecides(l: Lists, skip: bool, host: string, t: Target)
    requires Parsed(l) && Concrete(host) && Claims(l, host, t)
    ensures t == Decide(l, skip, host)
  {
    On443Is(host);
    assert host in l.block ==> IsBlocked(host, l.block);
    assert On443(host) in l.raw ==> Admits(l.raw, host, "443");
    assert !ListedAbove(l, On443(host), 4) ==> forall j :: 0 <= j < 4 ==> On443(host) !in AuthSection(l, j);
    assert AuthSection(l, 0) == l.auth.candidate && AuthSection(l, 1) == l.auth.github;
    assert AuthSection(l, 2) == l.auth.codex && AuthSection(l, 3) == l.auth.claude;
  }

  lemma TerminalDecisionIsClaimed(l: Lists, skip: bool, host: string)
    requires Parsed(l) && Concrete(host)
    requires Decide(l, skip, host).Terminate? || Decide(l, skip, host).Mcp?
    ensures Claims(l, host, Decide(l, skip, host))
  {
    hide IsBlocked, EndsWith, Host, Port, OneColon, Survives;
  }

  /** A wildcard name is the block list's or an unblocked wildcard of the allow list. */
  lemma WildcardClaims(l: Lists, name: string, t: Target)
    requires Parsed(l) && IsWildcard(name) && Claims(l, name, t)
    ensures t == BlockList || t == Passthrough
    ensures t == BlockList ==> name in l.block
    ensures t == Passthrough ==> !IsBlocked(name, l.block) && On443(name) in l.raw && ':' !in name
  {
    if t.Terminate? {
      On443Is(name);
    }
  }

  /** An allow-list wildcard that is not blocked keeps its name. */
  lemma AllowedWildcardClaims(l: Lists, w: Entry)
    requires Parsed(l) && w in l.raw && Port(w) == "443" && IsWildcard(Host(w)) && !IsBlocked(Host(w), l.block)
    ensures Claims(l, Host(w), Passthrough)
  {
    JoinSplit(w);
    assert w == On443(Host(w));
  }

  lemma {:induction false} LongestExists(l: Lists, name: string, t: Target, host: string)
    requires Claims(l, name, t) && Matches(name, host)
    ensures exists n :: Longest(l, n, host)
    decreases |host| + 1 - |name|
  {
    if !Longest(l, name, host) {
      var other, t' :| Claims(l, other, t') && Matches(other, host) && |other| > |name|;
      LongestExists(l, other, t', host);
    }
  }

  lemma BlockedWildcardWins(l: Lists, host: string, n: string, t: Target)
    requires Parsed(l) && Concrete(host) && IsBlocked(host, l.block) && host !in l.block
    requires Longest(l, n, host) && Claims(l, n, t)
    ensures t == BlockList
  {
    WildcardClaims(l, n, t);
    var p :| p in l.block && (p == host || (IsWildcard(p) && EndsWith(host, p[1..])));
    assert p in l.block && p !in l.mcp;
    assert Claims(l, p, BlockList) && Matches(p, host);
    if t == Passthrough {
      EndsWithComparable(host, n[1..], p[1..]);
      EndsWithTransitive(n, n[1..], p[1..]);
    }
  }

  lemma BlockedHostHasName(l: Lists, host: string)
    requires Parsed(l) && Concrete(host) && IsBlocked(host, l.block) && host !in l.mcp
    ensures Claims(l, host, BlockList) || exists p :: Claims(l, p, BlockList) && Matches(p, host)
  {
    var p :| p in l.block && (p == host || (IsWildcard(p) && EndsWith(host, p[1..])));
    assert p == host || (p !in l.mcp && Matches(p, host));
  }

  lemma UnblockedWildcardWins(l: Lists, host: string, n: string, t: Target)
    requires Parsed(l) && !IsBlocked(host, l.block)
    requires Matches(n, host) && Claims(l, n, t)
    ensures t == Passthrough && AdmittedByWildcard(l, host)
  {
    WildcardClaims(l, n, t);
    if t == Passthrough {
      On443Is(n);
    }
  }

  lemma AdmittedByWildcardHasName(l: Lists, host: string)
    requires Parsed(l) && !IsBlocked(host, l.block) && AdmittedByWildcard(l, host)
    ensures exists n :: Claims(l, n, Passthrough) && Matches(n, host)
  {
    var w :| w in l.raw && Port(w) == "443" && IsWildcard(Host(w)) && EndsWith(host, Host(w)[1..]);
    if IsBlocked(Host(w), l.block) {
      BlockedWildcardBlocksCovered(Host(w), host, l.block);
    }
    AllowedWildcardClaims(l, w);
    assert Matches(Host(w), host);
  }

  lemma ExactEntryHasName(l: Lists, host: string)
    requires Concrete(host) && host !in l.mcp && !IsBlocked(host, l.block)
    requires !ListedAbove(l, On443(host), 4) && On443(host) in l.raw
    ensures Claims(l, host, Passthrough) || AdmittedByWildcard(l, host)
  {
    On443Is(host);
    hide IsBlocked, Host, Port, ListedAbove, OneColon, On443, EndsWith;
    if !Survives(On443(host), l.raw) {
      var w :| w in l.raw && IsWildcard(Host(w)) && Port(w) == "443" && EndsWith(host, Host(w)[1..]);
    }
  }

  /** An admitted host that is nobody else's keeps its own name or is covered by a wildcard. */
  lemma AdmittedHostHasName(l: Lists, host: string)
    requires Parsed(l) && Concrete(host) && host !in l.mcp && !IsBlocked(host, l.block)
    requires !ListedAbove(l, On443(host), 4) && Admits(l.raw, host, "443")
    ensures Claims(l, host, Passthrough) || AdmittedByWildcard(l, host)
  {
    hide IsBlocked, Host, Port, ListedAbove, OneColon, EndsWith, Claims;
    var e :| e in l.raw && Port(e) == "443"
      && (Host(e) == host || (IsWildcard(Host(e)) && EndsWith(host, Host(e)[1..])));
    if Host(e) == host {
      JoinSplit(e);
      assert host + ":" + "443" == On443(host);
      ExactEntryHasName(l, host);
    }
  }

  /** The section of `kind` is the first auth section to list the host, and gets it a chain. */
  ghost predicate Terminates(l: Lists, kind: AuthKind, host: string) {
    && On443(host) in AuthSection(l, KindIndex(kind)) && !ListedAbove(l, On443(host), KindIndex(kind))
    && (kind == Github ==> HasInjection(host))
  }

  /** The GitHub section is the first to list the host, and gets it no chain. */
  ghost predicate Displaced(l: Lists, host: string) {
    On443(host) in l.auth.github && On443(host) !in l.auth.candidate && !HasInjection(host)
  }

  ghost predicate Passes(l: Lists, host: string) {
    if Displaced(l, host) then AdmittedByWildcard(l, host)
    else !ListedAbove(l, On443(host), 4) && Admits(l.raw, host, "443")
  }

  /** An auth section decides exactly when it is the first to list the host, and gets it a chain. */
  lemma TerminationMeans(l: Lists, skip: bool, host: string, kind: AuthKind)
    ensures Decide(l, skip, host) == Terminate(kind, host) <==>
            host !in l.mcp && !IsBlocked(host, l.block) && Terminates(l, kind, host)
  {
    hide IsBlocked, EndsWith, Host, Port, OneColon, Admits, AdmittedByWildcard;
    assert AuthSection(l, 0) == l.auth.candidate && AuthSection(l, 1) == l.auth.github;
    assert AuthSection(l, 2) == l.auth.codex && AuthSection(l, 3) == l.auth.claude;
  }

  /** When each other decision is made, told by the lists; one of them always is. */
  lemma DecisionMeans(l: Lists, skip: bool, host: string)
    ensures var d := Decide(l, skip, host);
      && (d == Mcp(host) <==> host in l.mcp)
      && (d == BlockList <==> host !in l.mcp && IsBlocked(host, l.block))
      && (d == Passthrough <==> host !in l.mcp && !IsBlocked(host, l.block) && Passes(l, host))
      && (d == DenyByDefault || d == OpenByDefault <==>
            host !in l.mcp && !IsBlocked(host, l.block) && !Passes(l, host) && !d.Terminate?)
      && (d == OpenByDefault ==> skip) && (d == DenyByDefault ==> !skip)
      && (d == Mcp(host) || d == BlockList || d == Passthrough || d == DenyByDefault || d == OpenByDefault
          || (d.Terminate? && d.host == host))
  {
    hide IsBlocked, EndsWith, Host, Port, OneColon, Admits, AdmittedByWildcard;
    assert AuthSection(l, 0) == l.auth.candidate && AuthSection(l, 1) == l.auth.github;
    assert AuthSection(l, 2) == l.auth.codex && AuthSection(l, 3) == l.auth.claude;
  }

  /** The default gets what is no MCP server's, not blocked, first listed by no chain's section, and not passed. */
  lemma DefaultMeans(l: Lists, skip: bool, host: string)
    ensures Decide(l, skip, host) == (if skip then OpenByDefault else DenyByDefault) <==>
            && host !in l.mcp && !IsBlocked(host, l.block) && !Passes(l, host)
            && forall kind :: !Terminates(l, kind, host)
  {
    hide IsBlocked, Terminates, Passes, Decide;
    DecisionMeans(l, skip, host);
    forall kind { TerminationMeans(l, skip, host, kind); }
    var d := Decide(l, skip, host);
    if d.Terminate? { TerminationMeans(l, skip, host, d.kind); }
  }

  /** A host that falls to the default is covered by no wildcard of the allow list. */
  lemma DefaultIsUncovered(l: Lists, skip: bool, host: string)
    requires Decide(l, skip, host) == DenyByDefault || Decide(l, skip, host) == OpenByDefault
    ensures !IsBlocked(host, l.block) && !AdmittedByWildcard(l, host)
  {
    hide IsBlocked, EndsWith, Host, Port, OneColon;
    if AdmittedByWildcard(l, host) {
      AdmittedByWildcardAdmits(l, host);
    }
  }

  lemma BlockedDecisionIsPicked(l: Lists, fallback: Target, host: string)
    requires Parsed(l) && Concrete(host) && IsBlocked(host, l.block) && host !in l.mcp
    requires forall t :: !Claims(l, host, t)
    ensures Picks(l, fallback, host, BlockList)
  {
    assert !Claims(l, host, BlockList);
    hide Claims, Matches, IsBlocked;
    BlockedHostHasName(l, host);
    var p :| Claims(l, p, BlockList) && Matches(p, host);
    LongestExists(l, p, BlockList, host);
    var n :| Longest(l, n, host);
    var t :| Claims(l, n, t);
    BlockedWildcardWins(l, host, n, t);
  }

  lemma WildcardDecisionIsPicked(l: Lists, fallback: Target, host: string)
    requires Parsed(l) && !IsBlocked(host, l.block) && AdmittedByWildcard(l, host)
    requires forall t :: !Claims(l, host, t)
    ensures Picks(l, fallback, host, Passthrough)
  {
    hide Claims, Matches, IsBlocked, AdmittedByWildcard;
    AdmittedByWildcardHasName(l, host);
    var w :| Claims(l, w, Passthrough) && Matches(w, host);
    LongestExists(l, w, Passthrough, host);
    var n :| Longest(l, n, host);
    var t :| Claims(l, n, t);
    UnblockedWildcardWins(l, host, n, t);
  }

  lemma FallbackIsPicked(l: Lists, fallback: Target, host: string)
    requires Parsed(l) && !IsBlocked(host, l.block) && !AdmittedByWildcard(l, host)
    requires forall t :: !Claims(l, host, t)
    ensures Picks(l, fallback, host, fallback)
  {
    hide Claims, Matches, IsBlocked, AdmittedByWildcard;
    if n, t :| Claims(l, n, t) && Matches(n, host) {
      UnblockedWildcardWins(l, host, n, t);
      assert false;
    }
  }

  lemma DecisionIsPicked(l: Lists, skip: bool, host: string)
    requires Parsed(l) && Concrete(host)
    ensures Picks(l, DefaultTarget(skip), host, Decide(l, skip, host))
  {
    hide Claims, Decide, IsBlocked, AdmittedByWildcard, Admits, ListedAbove, Terminates;
    var d := Decide(l, skip, host);
    DecisionMeans(l, skip, host);
    if t :| Claims(l, host, t) {
      ExactClaimDecides(l, skip, host, t);
    } else if d.Terminate? || d.Mcp? {
      TerminalDecisionIsClaimed(l, skip, host);
    } else if d == BlockList {
      BlockedDecisionIsPicked(l, DefaultTarget(skip), host);
    } else if d == Passthrough {
      if !AdmittedByWildcard(l, host) {
        AdmittedHostHasName(l, host);
      }
      WildcardDecisionIsPicked(l, DefaultTarget(skip), host);
    } else {
      DefaultIsUncovered(l, skip, host);
      FallbackIsPicked(l, DefaultTarget(skip), host);
    }
  }

  lemma AdmittedByWildcardAdmits(l: Lists, host: string)
    requires AdmittedByWildcard(l, host)
    ensures Admits(l.raw, host, "443")
  {
  }

  lemma SameLengthSameName(m: string, n: string, host: string)
    requires Matches(m, host) && Matches(n, host) && |m| == |n|
    ensures m == n
  {
    assert m == [m[0], m[1]] + m[2..] && n == [n[0], n[1]] + n[2..];
    assert m[1..] == n[1..];
    assert m[2..] == m[1..][1..] && n[2..] == n[1..][1..];
  }

  lemma PickIsUnique(l: Lists, fallback: Target, host: string, s: Target, t: Target)
    requires Parsed(l) && Picks(l, fallback, host, s) && Picks(l, fallback, host, t)
    ensures s == t
  {
    hide Claims, Matches;
    if u :| Claims(l, host, u) {
      ClaimsAreUnique(l, host, s, t);
    } else if name, u :| Claims(l, name, u) && Matches(name, host) {
      var m :| Longest(l, m, host) && Claims(l, m, s);
      var n :| Longest(l, n, host) && Claims(l, n, t);
      SameLengthSameName(m, n, host);
      ClaimsAreUnique(l, m, s, t);
    }
  }

  /**
   * Most-specific matching over the generated chains sends each host exactly where the decision
   * list over the original lists says.
   */
  lemma RoutingFollowsDecisionList(l: Lists, skipAllowList: bool, host: string, target: Target)
    requires Parsed(l) && Concrete(host)
    ensures RoutesTo(Chains(Compiled(l), l.mcp), DefaultTarget(skipAllowList), host, target)
            <==> target == Decide(l, skipAllowList, host)
  {
    hide Compiled, Chains, RoutesTo, Picks, Decide;
    RoutesToIsPicks(l, DefaultTarget(skipAllowList), host, target);
    DecisionIsPicked(l, skipAllowList, host);
    if Picks(l, DefaultTarget(skipAllowList), host, target) {
      PickIsUnique(l, DefaultTarget(skipAllowList), host, target, Decide(l, skipAllowList, host));
    }
  }

  // --- The default, and what the list tests mean as text --------------------------------------------

  /** What nothing else decides. */
  ghost predicate Unlisted(l: Lists, host: string) {
    && host !in l.mcp && !IsBlocked(host, l.block) && !Passes(l, host)
    && forall kind :: !Terminates(l, kind, host)
  }

  /**
   * Closed by default: an unlisted host is denied without the option to skip the allow list and let
   * through with it, and no other host ever meets either default.
   */
  lemma ClosedByDefault(l: Lists, skipAllowList: bool, host: string)
    requires Parsed(l) && Concrete(host)
    ensures RoutesTo(Chains(Compiled(l), l.mcp), DefaultTarget(skipAllowList), host, DenyByDefault)
            <==> !skipAllowList && Unlisted(l, host)
    ensures RoutesTo(Chains(Compiled(l), l.mcp), DefaultTarget(skipAllowList), host, OpenByDefault)
            <==> skipAllowList && Unlisted(l, host)
  {
    hide Compiled, Chains, RoutesTo, Decide, IsBlocked, Passes, Terminates;
    RoutingFollowsDecisionList(l, skipAllowList, host, DenyByDefault);
    RoutingFollowsDecisionList(l, skipAllowList, host, OpenByDefault);
    DefaultMeans(l, skipAllowList, host);
    DecisionMeans(l, skipAllowList, host);
  }

  /** The host is the pattern, or the pattern is `*` and a tail from a dot on, and the host ends with that tail. */
  ghost predicate Fits(pattern: string, host: string) {
    || pattern == host
    || (|pattern| >= 2 && pattern[0] == '*' && pattern[1] == '.' && exists front: string :: host == front + pattern[1..])
  }

  lemma FitsIs(pattern: string, host: string)
    ensures Fits(pattern, host) <==> pattern == host || Matches(pattern, host)
  {
    if Matches(pattern, host) {
      assert host == host[..|host| - |pattern[1..]|] + pattern[1..];
    }
    if front: string :| |pattern| >= 2 && host == front + pattern[1..] {
      assert host[|host| - |pattern[1..]|..] == pattern[1..];
    }
  }

  lemma BlockedMeans(host: string, patterns: seq<string>)
    ensures IsBlocked(host, patterns) <==> exists p :: p in patterns && Fits(p, host)
  {
    hide Fits;
    forall p { FitsIs(p, host); }
    assert IsBlocked(host, patterns) <==> exists p :: p in patterns && (p == host || Matches(p, host));
  }

  /** The allow list admits a host on a port exactly when it has the text of an entry that fits. */
  lemma AdmitsMeans(l: Lists, host: string, port: string)
    requires Parsed(l) && ':' !in port
    ensures Admits(l.raw, host, port) <==> exists p :: p + ":" + port in l.raw && ':' !in p && Fits(p, host)
  {
    hide Fits, Host, Port, OneColon;
    if Admits(l.raw, host, port) {
      var e :| e in l.raw && Port(e) == port && (Host(e) == host || (IsWildcard(Host(e)) && EndsWith(host, Host(e)[1..])));
      FitsIs(Host(e), host);
      JoinSplit(e);
      assert ':' !in Host(e) by { HostHasNoColon(e); }
    }
    if p :| p + ":" + port in l.raw && ':' !in p && Fits(p, host) {
      FitsIs(p, host);
      SplitJoin(p, port);
    }
  }

  lemma HostHasNoColon(e: Entry)
    requires OneColon(e)
    ensures ':' !in Host(e)
  {
  }

  /** The wildcards among them. */
  lemma AdmittedByWildcardMeans(l: Lists, host: string)
    requires Parsed(l) && '*' !in host
    ensures AdmittedByWildcard(l, host) <==> exists p :: p + ":443" in l.raw && ':' !in p && p != host && Fits(p, host)
  {
    hide Fits, Host, Port, OneColon;
    if AdmittedByWildcard(l, host) {
      var w :| w in l.raw && Port(w) == "443" && IsWildcard(Host(w)) && EndsWith(host, Host(w)[1..]);
      FitsIs(Host(w), host);
      JoinSplit(w);
      assert w == Host(w) + ":443";
      assert ':' !in Host(w) by { HostHasNoColon(w); }
    }
    if p :| p + ":443" in l.raw && ':' !in p && p != host && Fits(p, host) {
      FitsIs(p, host);
      SplitJoin(p, "443");
      assert p + ":" + "443" == p + ":443";
    }
  }
}
