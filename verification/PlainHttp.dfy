// Plain HTTP: the virtual hosts of listener_80 answer every host as a decision list of their own
// over the original lists says (src/envoyConfig.ts, src/mcpServers.ts).
module PlainHttp {
  import opened Allowlist
  import opened McpServers
  import opened EnvoyConfig
  import opened RoutingTheorems
  import opened UniqueMatchers

  function On80(name: string): Entry {
    name + ":80"
  }

  /** What each domain leads to, told by the original lists. */
  ghost predicate Answers(l: Lists, name: string, target: Target) {
    match target
    case Direct(host) => host == name && !IsWildcard(name) && Open80(l, name)
    case Passthrough => IsWildcard(name) && Open80(l, name)
    case BlockList => name in l.block && name !in l.mcp
    case _ => false
  }

  /** The allow list's entry for the name on port 80 survives compilation. */
  ghost predicate Open80(l: Lists, name: string) {
    && ':' !in name && !IsBlocked(name, l.block) && On80(name) in l.raw
    && Survives(On80(name), l.raw) && !ListedAbove(l, On80(name), 4)
  }

  lemma On80Is(name: string)
    requires ':' !in name
    ensures OneColon(On80(name)) && Host(On80(name)) == name && Port(On80(name)) == "80"
  {
    assert name + ":" + "80" == On80(name);
    SplitJoin(name, "80");
  }

  /** MCP servers claim entries on port 443 only. */
  lemma NotMcp(l: Lists, name: string)
    ensures On80(name) !in McpEntries(l.mcp)
  {
    forall h | h in l.mcp ensures h + ":443" != On80(name) {
      assert (h + ":443")[|h + ":443"| - 1] == '3' && On80(name)[|On80(name)| - 1] == '0';
    }
  }

  lemma Compiled80(l: Lists, name: string)
    requires Parsed(l)
    ensures name in HostsOn(Compiled(l).passthrough, ":80") <==> Open80(l, name)
  {
    hide Compiled, Survives, IsBlocked, ListedAbove, Host, Port, OneColon, HostsOn;
    var p := Compiled(l);
    CompiledOneColon(l);
    HostsOnIs(p.passthrough, "80", name);
    assert ":" + "80" == ":80";
    NotMcp(l, name);
    CompiledSectionIs(l, 4, On80(name));
    if name in HostsOn(p.passthrough, ":80") {
      var e :| e in p.passthrough && Port(e) == "80" && Host(e) == name;
      JoinSplit(e);
      assert e == On80(name);
    }
    if ':' !in name { On80Is(name); }
  }

  lemma {:induction false} DirectHostsServe(hosts: seq<string>, name: string, target: Target)
    ensures Serves(DirectHosts(hosts), name, target) <==> target == Direct(name) && name in hosts
  {
    if hosts != [] {
      DirectHostsServe(hosts[1..], name, target);
      ServesConcat([Chain([hosts[0]], Direct(hosts[0]))], DirectHosts(hosts[1..]), name, target);
      ServesOne([hosts[0]], Direct(hosts[0]), name, target);
      assert forall x :: x in hosts <==> x == hosts[0] || x in hosts[1..];
    }
  }

  lemma NamedServes(names: seq<string>, t: Target, name: string, target: Target)
    ensures Serves(Named(names, t), name, target) <==> name in names && target == t
  {
    ServesOne(names, t, name, target);
  }

  lemma ServesExactlyAnswers(l: Lists, name: string, target: Target)
    requires Parsed(l)
    ensures Serves(VirtualHosts(Compiled(l)), name, target) <==> Answers(l, name, target)
  {
    hide Compiled, Serves, DirectHosts, Named, ExactHosts, WildcardHosts, HostsOn, Open80, IsWildcard;
    var p := Compiled(l);
    var hosts := HostsOn(p.passthrough, ":80");
    var a, b, c := DirectHosts(ExactHosts(hosts)), Named(WildcardHosts(hosts), Passthrough), Named(p.blocked, BlockList);
    Compiled80(l, name);
    CompiledLists(l);
    HostSplit(hosts);
    DirectHostsServe(ExactHosts(hosts), name, target);
    NamedServes(WildcardHosts(hosts), Passthrough, name, target);
    NamedServes(p.blocked, BlockList, name, target);
    ServesConcat(a + b, c, name, target);
    ServesConcat(a, b, name, target);
  }

  /** The domains of these virtual hosts are the ones known to be distinct. */
  lemma {:induction false} DirectNames(hosts: seq<string>)
    ensures Names(DirectHosts(hosts)) == hosts
  {
    if hosts != [] {
      DirectNames(hosts[1..]);
      assert hosts == [hosts[0]] + hosts[1..];
    }
  }

  lemma VirtualHostsHaveDomains(p: Policy)
    ensures Names(VirtualHosts(p)) + ["*"] == Domains(p)
  {
    hide HostsOn, ExactHosts, WildcardHosts;
    var hosts := HostsOn(p.passthrough, ":80");
    var a, b, c := DirectHosts(ExactHosts(hosts)), Named(WildcardHosts(hosts), Passthrough), Named(p.blocked, BlockList);
    DirectNames(ExactHosts(hosts));
    if WildcardHosts(hosts) != [] { OneChain(WildcardHosts(hosts), Passthrough); }
    if p.blocked != [] { OneChain(p.blocked, BlockList); }
    NamesConcat(a + b, c);
    NamesConcat(a, b);
  }

  // --- The decision list ---------------------------------------------------------------------------

  /** Some pattern still on the block list once the MCP hostnames are off it covers the host. */
  ghost predicate Refused(l: Lists, host: string) {
    exists p :: p in l.block && p !in l.mcp && (p == host || Matches(p, host))
  }

  /** Some wildcard of the allow list admits the host on port 80. */
  ghost predicate Admitted(l: Lists, host: string) {
    exists w :: w in l.raw && Port(w) == "80" && Matches(Host(w), host)
  }

  /** The allow list names the host on port 80, no auth section does, and no pattern blocks it. */
  ghost predicate Named80(l: Lists, host: string) {
    On80(host) in l.raw && !ListedAbove(l, On80(host), 4) && !IsBlocked(host, l.block)
  }

  /** MCP servers and auth sections get no virtual host; what they take off the lists still counts. */
  ghost function Decide80(l: Lists, skipAllowList: bool, host: string): Target {
    if Refused(l, host) then BlockList
    else if Admitted(l, host) then Passthrough
    else if Named80(l, host) then Direct(host)
    else if skipAllowList then OpenByDefault
    else DenyByDefault
  }

  lemma RefusedIsBlocked(l: Lists, host: string)
    requires Refused(l, host)
    ensures IsBlocked(host, l.block)
  {
    var p :| p in l.block && p !in l.mcp && (p == host || Matches(p, host));
    assert p == host || (IsWildcard(p) && EndsWith(host, p[1..]));
  }

  /** What blocks a wildcard over the host refuses the host: it is a wildcard, and no MCP hostname. */
  lemma BlockedWildcardRefuses(l: Lists, name: string, host: string)
    requires Parsed(l) && Matches(name, host) && IsBlocked(name, l.block)
    ensures Refused(l, host)
  {
    hide Host, Port, OneColon;
    var p :| p in l.block && (p == name || (IsWildcard(p) && EndsWith(name, p[1..])));
    BlockedWildcardBlocksCovered(name, host, [p]);
    assert [p][0] == p;
    assert p[0] == '*' && p !in l.mcp;
  }

  /** A wildcard of the allow list that covers a host not refused keeps its domain. */
  lemma AdmittedHasDomain(l: Lists, host: string) returns (name: string)
    requires Parsed(l) && !Refused(l, host) && Admitted(l, host)
    ensures Answers(l, name, Passthrough) && Matches(name, host)
  {
    var w :| w in l.raw && Port(w) == "80" && Matches(Host(w), host);
    name := Host(w);
    WildcardEntryIsOpen(l, w, host);
  }

  lemma WildcardEntryIsOpen(l: Lists, w: Entry, host: string)
    requires Parsed(l) && !Refused(l, host) && w in l.raw && Port(w) == "80" && Matches(Host(w), host)
    ensures Open80(l, Host(w))
  {
    hide EndsWith, IsBlocked, Refused;
    if IsBlocked(Host(w), l.block) { BlockedWildcardRefuses(l, Host(w), host); }
    JoinSplit(w);
    assert w == On80(Host(w));
  }

  /** What a domain answering for the host makes of it. */
  lemma AnswerMeans(l: Lists, name: string, host: string, t: Target)
    requires Parsed(l) && Concrete(host) && Answers(l, name, t) && (name == host || Matches(name, host))
    ensures t == BlockList ==> Refused(l, host)
    ensures t == Passthrough ==> Admitted(l, host) && name != host
    ensures t.Direct? ==> t == Direct(host) && Named80(l, host) && !Admitted(l, host)
  {
    if t == Passthrough {
      On80Is(name);
    } else if t.Direct? {
      On80Is(host);
      assert !IsWildcard(name) && name == host;
      assert Survives(On80(host), l.raw) && !Covered(On80(host), l.raw);
    }
  }

  lemma NamedHasDomain(l: Lists, host: string)
    requires Parsed(l) && Concrete(host) && Named80(l, host) && !Admitted(l, host)
    ensures Answers(l, host, Direct(host))
  {
    On80Is(host);
    assert !Covered(On80(host), l.raw);
  }

  /** Of two wildcards over the host, the shorter covers the longer. */
  lemma ShorterCovers(l: Lists, host: string, n: string, p: string)
    requires Matches(n, host) && Matches(p, host) && |p| <= |n| && p in l.block
    ensures IsBlocked(n, l.block)
  {
    EndsWithComparable(host, n[1..], p[1..]);
    EndsWithTransitive(n, n[1..], p[1..]);
  }

  /** The longest wildcard over a refused host is the block list's. */
  lemma RefusingWildcardWins(l: Lists, host: string, n: string, t: Target, p: string)
    requires Parsed(l) && Concrete(host) && Answers(l, n, t) && Matches(n, host)
    requires p in l.block && Matches(p, host) && |p| <= |n|
    ensures t == BlockList
  {
    ShorterCovers(l, host, n, p);
  }

  /** Two answers for one name are the same. */
  lemma AnswersAreUnique(l: Lists, name: string, s: Target, t: Target)
    requires Parsed(l) && Answers(l, name, s) && Answers(l, name, t)
    ensures s == t
  {
    if name in l.block { assert IsBlocked(name, l.block); }
  }

  ghost predicate LongestDomain(l: Lists, name: string, host: string) {
    && Matches(name, host) && (exists t :: Answers(l, name, t))
    && forall other, t :: Answers(l, other, t) && Matches(other, host) ==> |other| <= |name|
  }

  lemma {:induction false} LongestDomainExists(l: Lists, name: string, t: Target, host: string) returns (n: string)
    requires Answers(l, name, t) && Matches(name, host)
    ensures LongestDomain(l, n, host) && |name| <= |n|
    decreases |host| + 1 - |name|
  {
    n := name;
    if !LongestDomain(l, name, host) {
      var other, t' :| Answers(l, other, t') && Matches(other, host) && |other| > |name|;
      n := LongestDomainExists(l, other, t', host);
    }
  }

  /** Envoy's choice among the domains, independent of how the virtual hosts are laid out. */
  ghost predicate Chooses(l: Lists, fallback: Target, host: string, target: Target) {
    if exists t :: Answers(l, host, t) then Answers(l, host, target)
    else if exists name, t :: Answers(l, name, t) && Matches(name, host) then
      exists name :: LongestDomain(l, name, host) && Answers(l, name, target)
    else target == fallback
  }

  lemma RoutesToIsChooses(l: Lists, fallback: Target, host: string, target: Target)
    requires Parsed(l)
    ensures RoutesTo(VirtualHosts(Compiled(l)), fallback, host, target) <==> Chooses(l, fallback, host, target)
  {
    hide Compiled, VirtualHosts, Serves, Answers, Matches;
    forall name, t { ServesExactlyAnswers(l, name, t); }
  }

  /** A domain of the host's own decides. */
  lemma OwnDomainDecides(l: Lists, skip: bool, host: string, t: Target)
    requires Parsed(l) && Concrete(host) && Answers(l, host, t)
    ensures t == Decide80(l, skip, host)
  {
    AnswerMeans(l, host, host, t);
    if t.Direct? && Refused(l, host) { RefusedIsBlocked(l, host); }
  }

  /** Without one, the longest wildcard over the host does. */
  lemma LongestDomainDecides(l: Lists, skip: bool, host: string, n: string, t: Target)
    requires Parsed(l) && Concrete(host) && LongestDomain(l, n, host) && Answers(l, n, t)
    requires forall u :: !Answers(l, host, u)
    ensures t == Decide80(l, skip, host)
  {
    AnswerMeans(l, n, host, t);
    if Refused(l, host) {
      var p :| p in l.block && p !in l.mcp && (p == host || Matches(p, host));
      assert Answers(l, p, BlockList) && p != host;
      RefusingWildcardWins(l, host, n, t, p);
    }
  }

  lemma NoDomainFallsBack(l: Lists, skip: bool, host: string)
    requires Parsed(l) && Concrete(host) && forall u :: !Answers(l, host, u)
    requires forall name, u :: Answers(l, name, u) ==> !Matches(name, host)
    ensures Decide80(l, skip, host) == DefaultTarget(skip)
  {
    forall p | p in l.block && p !in l.mcp ensures p != host && !Matches(p, host) {
      assert Answers(l, p, BlockList);
    }
    if Admitted(l, host) {
      var name := AdmittedHasDomain(l, host);
    } else if Named80(l, host) {
      NamedHasDomain(l, host);
    }
  }

  lemma DecisionIsChosen(l: Lists, skip: bool, host: string)
    requires Parsed(l) && Concrete(host)
    ensures Chooses(l, DefaultTarget(skip), host, Decide80(l, skip, host))
  {
    hide Answers, Matches, Decide80;
    if t :| Answers(l, host, t) {
      OwnDomainDecides(l, skip, host, t);
    } else if name, t :| Answers(l, name, t) && Matches(name, host) {
      var n := LongestDomainExists(l, name, t, host);
      var u :| Answers(l, n, u);
      LongestDomainDecides(l, skip, host, n, u);
    } else {
      NoDomainFallsBack(l, skip, host);
    }
  }

  lemma ChoiceIsUnique(l: Lists, fallback: Target, host: string, s: Target, t: Target)
    requires Parsed(l) && Chooses(l, fallback, host, s) && Chooses(l, fallback, host, t)
    ensures s == t
  {
    hide Answers, Matches;
    if u :| Answers(l, host, u) {
      AnswersAreUnique(l, host, s, t);
    } else if name, u :| Answers(l, name, u) && Matches(name, host) {
      var m :| LongestDomain(l, m, host) && Answers(l, m, s);
      var n :| LongestDomain(l, n, host) && Answers(l, n, t);
      SameLengthSameName(m, n, host);
      AnswersAreUnique(l, m, s, t);
    }
  }

  /** Most-specific matching over the virtual hosts sends each host exactly where the list says. */
  lemma PlainHttpFollowsDecisionList(l: Lists, skipAllowList: bool, host: string, target: Target)
    requires Parsed(l) && Concrete(host)
    ensures RoutesTo(VirtualHosts(Compiled(l)), DefaultTarget(skipAllowList), host, target)
            <==> target == Decide80(l, skipAllowList, host)
  {
    hide Compiled, VirtualHosts, RoutesTo, Chooses, Decide80;
    RoutesToIsChooses(l, DefaultTarget(skipAllowList), host, target);
    DecisionIsChosen(l, skipAllowList, host);
    if Chooses(l, DefaultTarget(skipAllowList), host, target) {
      ChoiceIsUnique(l, DefaultTarget(skipAllowList), host, target, Decide80(l, skipAllowList, host));
    }
  }

  /** Closed by default on port 80 as well: what no list names is answered 403, or let through when the allow list is skipped. */
  lemma ClosedByDefault80(l: Lists, skipAllowList: bool, host: string)
    requires Parsed(l) && Concrete(host)
    ensures var unlisted := !Refused(l, host) && !Admitted(l, host) && !Named80(l, host);
      && (RoutesTo(VirtualHosts(Compiled(l)), DefaultTarget(skipAllowList), host, DenyByDefault) <==> !skipAllowList && unlisted)
      && (RoutesTo(VirtualHosts(Compiled(l)), DefaultTarget(skipAllowList), host, OpenByDefault) <==> skipAllowList && unlisted)
  {
    hide Compiled, VirtualHosts, RoutesTo;
    PlainHttpFollowsDecisionList(l, skipAllowList, host, DenyByDefault);
    PlainHttpFollowsDecisionList(l, skipAllowList, host, OpenByDefault);
  }

  /** The list tests of port 80 as text. */
  lemma ListTests80(l: Lists, host: string)
    requires Parsed(l) && Concrete(host)
    ensures Refused(l, host) <==> exists p :: p in l.block && p !in l.mcp && Fits(p, host)
    ensures Admitted(l, host) <==> exists p :: p + ":80" in l.raw && ':' !in p && p != host && Fits(p, host)
    ensures Named80(l, host) <==>
            && host + ":80" in l.raw && !(exists p :: p in l.block && Fits(p, host))
            && host + ":80" !in l.auth.candidate + l.auth.github + l.auth.codex + l.auth.claude
  {
    hide Fits, Host, Port, OneColon;
    BlockedMeans(host, l.block);
    forall p { FitsIs(p, host); }
    if Admitted(l, host) {
      var w :| w in l.raw && Port(w) == "80" && Matches(Host(w), host);
      JoinSplit(w);
      assert w == Host(w) + ":80";
      assert ':' !in Host(w) by { HostHasNoColon(w); }
    }
    if p :| p + ":80" in l.raw && ':' !in p && p != host && Fits(p, host) {
      SplitJoin(p, "80");
      assert p + ":" + "80" == p + ":80";
    }
    assert AuthSection(l, 0) == l.auth.candidate && AuthSection(l, 1) == l.auth.github;
    assert AuthSection(l, 2) == l.auth.codex && AuthSection(l, 3) == l.auth.claude;
  }

  /**
   * An MCP server for a blocked host takes the host's own pattern off the block list, and that
   * reaches port 80, where the server has nothing: the host is refused there exactly when a wildcard
   * of the block list still covers it, and otherwise goes where the allow list's wildcards send it.
   */
  lemma McpUnblocksPort80(l: Lists, skipAllowList: bool, host: string)
    requires Parsed(l) && Concrete(host) && host in l.block
    ensures Decide80(l.(mcp := []), skipAllowList, host) == BlockList
    ensures host in l.mcp ==>
              Decide80(l, skipAllowList, host) ==
                if exists p :: p in l.block && Matches(p, host) then BlockList
                else if Admitted(l, host) then Passthrough
                else if skipAllowList then OpenByDefault
                else DenyByDefault
  {
    assert IsBlocked(host, l.block);
    if p :| p in l.block && Matches(p, host) {
      assert p !in l.mcp;
    }
  }
}
