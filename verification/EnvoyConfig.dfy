// The filter chains of the generated Envoy configuration (src/envoyConfig.ts): which server
// names each chain of listener_443 matches and where it leads, and the domains of listener_80.
module EnvoyConfig {
  import opened Allowlist

  datatype AuthKind = Claude | Codex | Candidate | Github

  datatype Target =
    | Terminate(kind: AuthKind, host: string)
    | Mcp(hostname: string)
    | Direct(host: string)
    | Passthrough
    | BlockList
    | DenyByDefault
    | OpenByDefault

  datatype Chain = Chain(serverNames: seq<string>, target: Target)

  const GITHUB_INJECTION: set<string> := {"github.com", "api.github.com"}

  /** One terminating chain per `:443` entry, in order. */
  function AuthChains(entries: seq<Entry>, kind: AuthKind): seq<Chain> {
    if entries == [] then []
    else
      var host := BeforeColon(entries[0]);
      (if EndsWith(entries[0], ":443") && (kind != Github || host in GITHUB_INJECTION)
       then [Chain([host], Terminate(kind, host))] else [])
      + AuthChains(entries[1..], kind)
  }

  function McpChains(hostnames: seq<string>): seq<Chain> {
    if hostnames == [] then [] else [Chain([hostnames[0]], Mcp(hostnames[0]))] + McpChains(hostnames[1..])
  }

  function HostsOn(entries: seq<Entry>, suffix: string): seq<string> {
    if entries == [] then []
    else (if EndsWith(entries[0], suffix) then [BeforeColon(entries[0])] else []) + HostsOn(entries[1..], suffix)
  }

  function PassthroughChains(entries: seq<Entry>): seq<Chain> {
    var names := HostsOn(entries, ":443");
    if names == [] then [] else [Chain(names, Passthrough)]
  }

  function BlockListChains(blocked: seq<string>): seq<Chain> {
    if blocked == [] then [] else [Chain(blocked, BlockList)]
  }

  /** The filter chains of listener_443, in the order they are emitted. */
  function Chains(p: Policy, mcp: seq<string>): seq<Chain> {
    AuthChains(p.claude, Claude) + AuthChains(p.codex, Codex) + AuthChains(p.candidate, Candidate)
    + AuthChains(p.github, Github) + McpChains(mcp) + PassthroughChains(p.passthrough) + BlockListChains(p.blocked)
  }

  function DefaultTarget(skipAllowList: bool): Target {
    if skipAllowList then OpenByDefault else DenyByDefault
  }

  /** One virtual host per exact entry of listener_80, with a cluster of its own. */
  function DirectHosts(hosts: seq<string>): seq<Chain> {
    if hosts == [] then [] else [Chain([hosts[0]], Direct(hosts[0]))] + DirectHosts(hosts[1..])
  }

  function Named(names: seq<string>, target: Target): seq<Chain> {
    if names == [] then [] else [Chain(names, target)]
  }

  /** The virtual hosts of listener_80 before the one for `*`, with the domains each answers for. */
  function VirtualHosts(p: Policy): seq<Chain> {
    var hosts := HostsOn(p.passthrough, ":80");
    DirectHosts(ExactHosts(hosts)) + Named(WildcardHosts(hosts), Passthrough) + Named(p.blocked, BlockList)
  }

  /** The domains of the listener_80 virtual hosts, in the order they are emitted. */
  function Domains(p: Policy): seq<string> {
    var hosts := HostsOn(p.passthrough, ":80");
    ExactHosts(hosts) + WildcardHosts(hosts) + p.blocked + ["*"]
  }

  function ExactHosts(hosts: seq<string>): seq<string> {
    if hosts == [] then []
    else (if IsWildcard(hosts[0]) then [] else [hosts[0]]) + ExactHosts(hosts[1..])
  }

  function WildcardHosts(hosts: seq<string>): seq<string> {
    if hosts == [] then []
    else (if IsWildcard(hosts[0]) then [hosts[0]] else []) + WildcardHosts(hosts[1..])
  }

  // --- How Envoy picks a chain: exact name, else longest wildcard suffix, else the default -------

  ghost predicate Serves(chains: seq<Chain>, name: string, target: Target) {
    exists c :: c in chains && name in c.serverNames && c.target == target
  }

  predicate Matches(name: string, host: string) {
    IsWildcard(name) && EndsWith(host, name[1..])
  }

  ghost predicate RoutesTo(chains: seq<Chain>, fallback: Target, host: string, target: Target) {
    if exists t :: Serves(chains, host, t) then Serves(chains, host, target)
    else if exists name, t :: Serves(chains, name, t) && Matches(name, host) then
      exists name :: Serves(chains, name, target) && Matches(name, host)
        && forall other, t :: Serves(chains, other, t) && Matches(other, host) ==> |other| <= |name|
    else target == fallback
  }

  // --- Which names lead where -----------------------------------------------------------------

  lemma ServesConcat(a: seq<Chain>, b: seq<Chain>, name: string, target: Target)
    ensures Serves(a + b, name, target) <==> Serves(a, name, target) || Serves(b, name, target)
  {
    assert forall c :: c in a + b <==> c in a || c in b;
  }

  lemma ServesOne(names: seq<string>, t: Target, name: string, target: Target)
    ensures Serves([Chain(names, t)], name, target) <==> name in names && t == target
  {
    assert Chain(names, t) in [Chain(names, t)];
  }

  lemma {:induction false} AuthChainsServe(entries: seq<Entry>, kind: AuthKind, name: string, target: Target)
    requires forall e :: e in entries ==> OneColon(e)
    ensures Serves(AuthChains(entries, kind), name, target) <==>
            && target == Terminate(kind, name)
            && (kind == Github ==> name in GITHUB_INJECTION)
            && ':' !in name && name + ":443" in entries
  {
    if entries != [] {
      var e, rest := entries[0], entries[1..];
      AuthChainsServe(rest, kind, name, target);
      var host := BeforeColon(e);
      var first := if EndsWith(e, ":443") && (kind != Github || host in GITHUB_INJECTION)
                   then [Chain([host], Terminate(kind, host))] else [];
      ServesConcat(first, AuthChains(rest, kind), name, target);
      ServesOne([host], Terminate(kind, host), name, target);
      EntryText(e, name);
      assert forall x :: x in entries <==> x == e || x in rest;
    }
  }

  /** An entry on port 443 for `name` is exactly the text `name:443`. */
  lemma EntryText(e: Entry, name: string)
    requires OneColon(e)
    ensures BeforeColon(e) == Host(e)
    ensures EndsWith(e, ":443") <==> Port(e) == "443"
    ensures (EndsWith(e, ":443") && BeforeColon(e) == name) <==> (':' !in name && e == name + ":443")
  {
    hide EndsWith, BeforeColon, Host, Port, OneColon;
    JoinSplit(e);
    PortSuffix(e, "443");
    assert ":" + "443" == ":443";
    if EndsWith(e, ":443") && BeforeColon(e) == name {
      assert e == name + ":443";
    }
    if ':' !in name && e == name + ":443" {
      assert name + ":443" == name + ":" + "443";
      SplitJoin(name, "443");
    }
  }

  lemma {:induction false} McpChainsServe(hostnames: seq<string>, name: string, target: Target)
    ensures Serves(McpChains(hostnames), name, target) <==> target == Mcp(name) && name in hostnames
  {
    if hostnames != [] {
      McpChainsServe(hostnames[1..], name, target);
      ServesConcat([Chain([hostnames[0]], Mcp(hostnames[0]))], McpChains(hostnames[1..]), name, target);
      ServesOne([hostnames[0]], Mcp(hostnames[0]), name, target);
      assert forall x :: x in hostnames <==> x == hostnames[0] || x in hostnames[1..];
    }
  }

  lemma {:induction false} HostsOnIs(entries: seq<Entry>, port: string, name: string)
    requires forall e :: e in entries ==> OneColon(e)
    requires ':' !in port
    ensures name in HostsOn(entries, ":" + port) <==> exists e :: e in entries && Port(e) == port && Host(e) == name
  {
    if entries != [] {
      HostsOnIs(entries[1..], port, name);
      PortSuffix(entries[0], port);
      JoinSplit(entries[0]);
      assert forall x :: x in entries <==> x == entries[0] || x in entries[1..];
    }
  }

  ghost predicate OneColonEach(p: Policy) {
    && (forall e :: e in p.passthrough ==> OneColon(e)) && (forall e :: e in p.claude ==> OneColon(e))
    && (forall e :: e in p.github ==> OneColon(e)) && (forall e :: e in p.codex ==> OneColon(e))
    && (forall e :: e in p.candidate ==> OneColon(e))
  }

  function SectionOf(p: Policy, kind: AuthKind): seq<Entry> {
    match kind
    case Claude => p.claude
    case Codex => p.codex
    case Candidate => p.candidate
    case Github => p.github
  }

  /** What a server name leads to, section by section. */
  ghost predicate Leads(p: Policy, mcp: seq<string>, name: string, target: Target) {
    match target
    case Terminate(kind, host) =>
      && host == name && (kind == Github ==> name in GITHUB_INJECTION)
      && ':' !in name && name + ":443" in SectionOf(p, kind)
    case Mcp(hostname) => hostname == name && name in mcp
    case Passthrough => exists e :: e in p.passthrough && Port(e) == "443" && Host(e) == name
    case BlockList => name in p.blocked
    case _ => false
  }

  lemma ChainsServe(p: Policy, mcp: seq<string>, name: string, target: Target)
    requires OneColonEach(p)
    ensures Serves(Chains(p, mcp), name, target) <==> Leads(p, mcp, name, target)
  {
    var a, b, c := AuthChains(p.claude, Claude), AuthChains(p.codex, Codex), AuthChains(p.candidate, Candidate);
    var d, e, f, g := AuthChains(p.github, Github), McpChains(mcp), PassthroughChains(p.passthrough), BlockListChains(p.blocked);
    hide Serves, AuthChains, McpChains, Port, Host;
    AuthChainsServe(p.claude, Claude, name, target);
    AuthChainsServe(p.codex, Codex, name, target);
    AuthChainsServe(p.candidate, Candidate, name, target);
    AuthChainsServe(p.github, Github, name, target);
    McpChainsServe(mcp, name, target);
    LastChainsServe(p, name, target);
    ServesConcat(a + b + c + d + e + f, g, name, target);
    ServesConcat(a + b + c + d + e, f, name, target);
    ServesConcat(a + b + c + d, e, name, target);
    ServesConcat(a + b + c, d, name, target);
    ServesConcat(a + b, c, name, target);
    ServesConcat(a, b, name, target);
  }

  lemma LastChainsServe(p: Policy, name: string, target: Target)
    requires OneColonEach(p)
    ensures Serves(PassthroughChains(p.passthrough), name, target)
            <==> target == Passthrough && exists e :: e in p.passthrough && Port(e) == "443" && Host(e) == name
    ensures Serves(BlockListChains(p.blocked), name, target) <==> target == BlockList && name in p.blocked
  {
    HostsOnIs(p.passthrough, "443", name);
    assert ":" + "443" == ":443";
    var names := HostsOn(p.passthrough, ":443");
    ServesOne(names, Passthrough, name, target);
    ServesOne(p.blocked, BlockList, name, target);
  }
}
