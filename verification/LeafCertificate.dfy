// The names on the leaf certificate that the proxy presents (src/allowlist.ts, and the reissue in
// src/runHosting/runHostingLoop.ts): whichever chain ends a client's TLS finds its name there.
module LeafCertificate {
  import opened Collections
  import opened Allowlist
  import opened McpServers
  import opened EnvoyConfig
  import opened RoutingTheorems
  import opened UniqueMatchers

  /** The entries on port 443, each cut at its last colon. */
  function TlsHosts(entries: seq<Entry>): seq<string> {
    if entries == [] then []
    else (if EndsWith(entries[0], ":443") then [Host(entries[0])] else []) + TlsHosts(entries[1..])
  }

  function TerminateTlsHosts(p: Policy): seq<string> {
    TlsHosts(p.claude + p.github + p.codex + p.candidate)
  }

  /** The subject alternative names the leaf is reissued for. */
  function LeafNames(p: Policy, mcp: seq<string>): seq<string> {
    TerminateTlsHosts(p) + mcp
  }

  predicate EndsTls(t: Target) {
    t.Terminate? || t.Mcp?
  }

  // --- Any policy ------------------------------------------------------------------------------------

  /** Cutting at the last colon, as here, and at the first, as for the chains, give the same names. */
  lemma {:induction false} TlsHostsAreHostsOn(entries: seq<Entry>)
    requires forall e :: e in entries ==> OneColon(e)
    ensures TlsHosts(entries) == HostsOn(entries, ":443")
  {
    hide OneColon, Host, BeforeColon, EndsWith;
    if entries != [] {
      TlsHostsAreHostsOn(entries[1..]);
      EntryText(entries[0], "");
    }
  }

  /** The leaf carries the MCP hostnames and what the four auth sections list on port 443. */
  lemma LeafNamesAre(p: Policy, mcp: seq<string>, name: string)
    requires OneColonEach(p)
    ensures name in LeafNames(p, mcp) <==>
            name in mcp || (':' !in name && exists kind :: On443(name) in SectionOf(p, kind))
  {
    hide OneColon, Host, Port;
    var entries := p.claude + p.github + p.codex + p.candidate;
    assert forall e :: e in entries <==> e in p.claude || e in p.github || e in p.codex || e in p.candidate;
    assert ":" + "443" == ":443";
    TlsHostsAreHostsOn(entries);
    HostsOnIs(entries, "443", name);
    if e :| e in entries && Port(e) == "443" && Host(e) == name {
      EntryText(e, name);
      SectionLists(p, On443(name));
    }
    if ':' !in name && exists kind :: On443(name) in SectionOf(p, kind) {
      SectionLists(p, On443(name));
      On443Is(name);
    }
  }

  lemma SectionLists(p: Policy, e: Entry)
    ensures (exists kind :: e in SectionOf(p, kind)) <==> e in p.claude || e in p.github || e in p.codex || e in p.candidate
  {
    assert SectionOf(p, Claude) == p.claude && SectionOf(p, Github) == p.github;
    assert SectionOf(p, Codex) == p.codex && SectionOf(p, Candidate) == p.candidate;
  }

  /** The name of a chain that ends TLS, or one for which the GitHub section gets no chain. */
  lemma LeafServes(p: Policy, mcp: seq<string>, name: string)
    requires OneColonEach(p)
    ensures name in LeafNames(p, mcp) <==>
            || (exists t :: Serves(Chains(p, mcp), name, t) && EndsTls(t))
            || (':' !in name && name !in GITHUB_INJECTION && On443(name) in p.github)
  {
    hide OneColonEach, LeafNames, Serves, Chains;
    LeafNamesAre(p, mcp, name);
    forall t { ChainsServe(p, mcp, name, t); }
    assert SectionOf(p, Github) == p.github;
    if name in mcp {
      assert Serves(Chains(p, mcp), name, Mcp(name));
    }
    if kind :| ':' !in name && On443(name) in SectionOf(p, kind) {
      assert (kind == Github && name !in GITHUB_INJECTION) || Serves(Chains(p, mcp), name, Terminate(kind, name));
    }
  }

  /** Whatever chain ends the client's TLS, all its server names are on the leaf. */
  lemma ChainNamesAreOnLeaf(p: Policy, mcp: seq<string>, c: Chain, name: string)
    requires OneColonEach(p)
    ensures c in Chains(p, mcp) && EndsTls(c.target) && name in c.serverNames ==> name in LeafNames(p, mcp)
  {
    hide LeafNames, Chains, OneColonEach;
    if c in Chains(p, mcp) && EndsTls(c.target) && name in c.serverNames {
      assert Serves(Chains(p, mcp), name, c.target);
      LeafServes(p, mcp, name);
    }
  }

  // --- The compiled policy ---------------------------------------------------------------------------

  /** The compiled auth sections keep, each once, the entries that are neither blocked nor an MCP server's. */
  lemma CompiledAuthEntries(l: Lists, e: Entry)
    requires NoDuplicates(l.block)
    ensures (exists kind :: e in SectionOf(Compiled(l), kind)) <==>
            !IsBlocked(Host(e), l.block) && e !in McpEntries(l.mcp) && ListedAbove(l, e, 4)
  {
    hide Compiled, IsBlocked, Host, Survives;
    var p := Compiled(l);
    SectionLists(p, e);
    assert CompiledSection(p, 0) == p.candidate && CompiledSection(p, 1) == p.github;
    assert CompiledSection(p, 2) == p.codex && CompiledSection(p, 3) == p.claude;
    forall k | 0 <= k < 4 { CompiledSectionIs(l, k, e); }
    if ListedAbove(l, e, 4) {
      var k := FirstListing(l, e);
      assert e in CompiledSection(p, k) <==> !IsBlocked(Host(e), l.block) && e !in McpEntries(l.mcp);
    }
  }

  lemma FirstListing(l: Lists, e: Entry) returns (k: nat)
    requires ListedAbove(l, e, 4)
    ensures k < 4 && e in AuthSection(l, k) && !ListedAbove(l, e, k)
  {
    k := if e in AuthSection(l, 0) then 0 else if e in AuthSection(l, 1) then 1 else if e in AuthSection(l, 2) then 2 else 3;
  }

  /** The leaf names the MCP hostnames and the unblocked hosts of the auth sections, nothing else. */
  lemma LeafNamesExactly(l: Lists, name: string)
    requires Parsed(l)
    ensures name in LeafNames(Compiled(l), l.mcp) <==>
            name in l.mcp || (!IsBlocked(name, l.block) && ListedAbove(l, On443(name), 4))
  {
    hide Compiled, LeafNames, OneColonEach, OneColon, IsBlocked, Survives, Host, Port, ListedAbove;
    CompiledOneColon(l);
    LeafNamesAre(Compiled(l), l.mcp, name);
    McpEntry(l, name);
    CompiledAuthEntries(l, On443(name));
    if ':' !in name {
      On443Is(name);
    } else if ListedAbove(l, On443(name), 4) {
      ListedHasNoColon(l, name);
    }
  }

  lemma ListedHasNoColon(l: Lists, name: string)
    requires Parsed(l) && ListedAbove(l, On443(name), 4)
    ensures ':' !in name
  {
    hide BeforeColon;
    var e := On443(name);
    assert OneColon(e);
    LastColonOf(name, "443");
    assert name + ":" + "443" == e && e[..|name|] == name;
  }

  /**
   * The names on the leaf are those of the chains that end TLS, and those that the GitHub section
   * displaced without a chain.
   */
  lemma TlsNamesExactly(l: Lists, name: string)
    requires Parsed(l)
    ensures name in LeafNames(Compiled(l), l.mcp) <==>
            || (exists t :: Serves(Chains(Compiled(l), l.mcp), name, t) && EndsTls(t))
            || (name !in l.mcp && !IsBlocked(name, l.block) && Displaced(l, name))
  {
    hide Compiled, LeafNames, Serves, Chains, OneColonEach, IsBlocked, Host, Survives, OneColon;
    CompiledOneColon(l);
    LeafServes(Compiled(l), l.mcp, name);
    McpEntry(l, name);
    assert AuthSection(l, 0) == l.auth.candidate && AuthSection(l, 1) == l.auth.github;
    if ':' !in name {
      On443Is(name);
      CompiledSectionIs(l, 1, On443(name));
    } else if Displaced(l, name) {
      ListedHasNoColon(l, name);
    }
  }

  /**
   * A host's name is on the leaf exactly when the chain that most-specific matching picks ends its
   * TLS, or the GitHub section displaced it without a chain.
   */
  lemma TlsIsAnsweredUnderItsName(l: Lists, skipAllowList: bool, host: string)
    requires Parsed(l) && Concrete(host)
    ensures host in LeafNames(Compiled(l), l.mcp) <==>
            || (exists t :: EndsTls(t) && RoutesTo(Chains(Compiled(l), l.mcp), DefaultTarget(skipAllowList), host, t))
            || (host !in l.mcp && !IsBlocked(host, l.block) && Displaced(l, host))
  {
    hide Compiled, LeafNames, RoutesTo, IsBlocked, AdmittedByWildcard, Admits, Chains;
    forall t { RoutingFollowsDecisionList(l, skipAllowList, host, t); }
    LeafNamesExactly(l, host);
    assert AuthSection(l, 0) == l.auth.candidate && AuthSection(l, 1) == l.auth.github;
    assert AuthSection(l, 2) == l.auth.codex && AuthSection(l, 3) == l.auth.claude;
  }

  // --- No name twice -----------------------------------------------------------------------------------

  lemma SectionsDisjoint(l: Lists, j: nat, k: nat, e: Entry)
    requires NoDuplicates(l.block) && j < k < 4 && e in CompiledSection(Compiled(l), j)
    ensures e !in CompiledSection(Compiled(l), k)
  {
    hide Compiled, IsBlocked, Host, Survives;
    CompiledSectionIs(l, j, e);
    CompiledSectionIs(l, k, e);
  }

  /** Each name is on the leaf once. */
  lemma LeafNamesAreDistinct(l: Lists)
    requires Parsed(l)
    ensures NoDuplicates(LeafNames(Compiled(l), l.mcp))
  {
    hide Compiled, OneColon, Host, Port;
    var p := Compiled(l);
    var entries := p.claude + p.github + p.codex + p.candidate;
    CompiledOneColon(l);
    assert NoDuplicates(entries) by {
      CompiledLists(l);
      assert CompiledSection(p, 0) == p.candidate && CompiledSection(p, 1) == p.github;
      assert CompiledSection(p, 2) == p.codex && CompiledSection(p, 3) == p.claude;
      forall j, k, e | 0 <= j < k < 4 && e in CompiledSection(p, j) ensures e !in CompiledSection(p, k) {
        SectionsDisjoint(l, j, k, e);
      }
      FlattenNoDuplicates([p.claude, p.github, p.codex, p.candidate]);
      FlattenFour(p.claude, p.github, p.codex, p.candidate);
    }
    assert ":" + "443" == ":443";
    HostsOnNoDuplicates(entries, "443");
    TlsHostsAreHostsOn(entries);
    var a, b := TerminateTlsHosts(p), l.mcp;
    assert NoDuplicates(a);
    assert forall i :: 0 <= i < |a| ==> a[i] in a;
    assert forall i :: 0 <= i < |b| ==> b[i] in b;
    forall h | h in a ensures h !in b {
      HostsOnIs(entries, "443", h);
      var e :| e in entries && Port(e) == "443" && Host(e) == h;
      JoinSplit(e);
      assert e == On443(h);
      SectionLists(p, e);
      CompiledAuthEntries(l, e);
      McpEntry(l, h);
    }
  }
}
