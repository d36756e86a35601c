// Envoy refuses a configuration in which two filter chains, or two virtual hosts, match the
// same name. The compiled configuration never contains one.
module UniqueMatchers {
  import opened Collections
  import opened Allowlist
  import opened EnvoyConfig
  import opened RoutingTheorems

  function Names(chains: seq<Chain>): seq<string> {
    if chains == [] then [] else chains[0].serverNames + Names(chains[1..])
  }

  function Flatten(parts: seq<seq<string>>): seq<string> {
    if parts == [] then [] else parts[0] + Flatten(parts[1..])
  }

  ghost predicate Disjoint(parts: seq<seq<string>>) {
    forall i, j, x :: 0 <= i < j < |parts| && x in parts[i] ==> x !in parts[j]
  }

  lemma {:induction false} FlattenMembers(parts: seq<seq<string>>)
    ensures forall x :: x in Flatten(parts) <==> exists i :: 0 <= i < |parts| && x in parts[i]
  {
    if parts != [] {
      FlattenMembers(parts[1..]);
      forall x ensures x in Flatten(parts) <==> exists i :: 0 <= i < |parts| && x in parts[i] {
        if i :| 0 <= i < |parts| && x in parts[i] {
          assert i == 0 || parts[i] == parts[1..][i - 1];
        }
      }
    }
  }

  lemma {:induction false} FlattenNoDuplicates(parts: seq<seq<string>>)
    requires forall i :: 0 <= i < |parts| ==> NoDuplicates(parts[i])
    requires Disjoint(parts)
    ensures NoDuplicates(Flatten(parts))
  {
    if parts != [] {
      var a, b := parts[0], Flatten(parts[1..]);
      FlattenNoDuplicates(parts[1..]);
      FlattenMembers(parts[1..]);
      assert forall i :: 0 <= i < |parts[1..]| ==> parts[1..][i] == parts[i + 1];
      assert forall x :: x in a ==> x !in b;
      assert forall i :: 0 <= i < |a| ==> a[i] in a;
      assert forall i :: 0 <= i < |b| ==> b[i] in b;
    }
  }

  lemma {:induction false} NamesConcat(a: seq<Chain>, b: seq<Chain>)
    ensures Names(a + b) == Names(a) + Names(b)
  {
    if a == [] {
      assert a + b == b;
    } else {
      calc {
        Names(a + b);
        { assert (a + b)[0] == a[0] && (a + b)[1..] == a[1..] + b; }
        a[0].serverNames + Names(a[1..] + b);
        { NamesConcat(a[1..], b); }
        a[0].serverNames + (Names(a[1..]) + Names(b));
        { Associative(a[0].serverNames, Names(a[1..]), Names(b)); }
        a[0].serverNames + Names(a[1..]) + Names(b);
        Names(a) + Names(b);
      }
    }
  }

  lemma {:induction false} NamesAre(chains: seq<Chain>, name: string)
    ensures name in Names(chains) <==> exists c :: c in chains && name in c.serverNames
  {
    if chains != [] {
      NamesAre(chains[1..], name);
      assert forall c :: c in chains <==> c == chains[0] || c in chains[1..];
    }
  }

  lemma NamesServe(chains: seq<Chain>, name: string)
    ensures name in Names(chains) <==> exists t :: Serves(chains, name, t)
  {
    NamesAre(chains, name);
    if name in Names(chains) {
      var c :| c in chains && name in c.serverNames;
      assert Serves(chains, name, c.target);
    }
  }

  lemma {:induction false} AuthNamesNoDuplicates(entries: seq<Entry>, kind: AuthKind)
    requires NoDuplicates(entries) && forall e :: e in entries ==> OneColon(e)
    ensures NoDuplicates(Names(AuthChains(entries, kind)))
  {
    hide Serves, OneColon, BeforeColon, EndsWith;
    if entries != [] {
      var e, rest := entries[0], entries[1..];
      AuthNamesNoDuplicates(rest, kind);
      var host := BeforeColon(e);
      var names := Names(AuthChains(rest, kind));
      var first := if EndsWith(e, ":443") && (kind != Github || host in GITHUB_INJECTION)
                   then [Chain([host], Terminate(kind, host))] else [];
      NamesConcat(first, AuthChains(rest, kind));
      assert Names(first) == (if first == [] then [] else [host] + Names(first[1..]));
      if first != [] {
        EntryText(e, host);
        NamesServe(AuthChains(rest, kind), host);
        forall t ensures !Serves(AuthChains(rest, kind), host, t) {
          AuthChainsServe(rest, kind, host, t);
        }
        assert host !in names;
      }
      assert forall i :: 0 <= i < |names| ==> names[i] in names;
    }
  }

  lemma {:induction false} McpNames(hostnames: seq<string>)
    ensures Names(McpChains(hostnames)) == hostnames
  {
    if hostnames != [] {
      McpNames(hostnames[1..]);
      assert hostnames == [hostnames[0]] + hostnames[1..];
      assert McpChains(hostnames)[1..] == McpChains(hostnames[1..]);
    }
  }

  lemma {:induction false} HostsOnNoDuplicates(entries: seq<Entry>, port: string)
    requires NoDuplicates(entries) && (forall e :: e in entries ==> OneColon(e)) && ':' !in port
    ensures NoDuplicates(HostsOn(entries, ":" + port))
  {
    hide OneColon, BeforeColon, EndsWith, Host, Port;
    if entries != [] {
      var e, rest := entries[0], entries[1..];
      HostsOnNoDuplicates(rest, port);
      var hosts := HostsOn(rest, ":" + port);
      HostsOnIs(rest, port, BeforeColon(e));
      JoinSplit(e);
      PortSuffix(e, port);
      if EndsWith(e, ":" + port) && BeforeColon(e) in hosts {
        var e' :| e' in rest && Port(e') == port && Host(e') == Host(e);
        JoinSplit(e');
        assert false;
      }
      assert forall i :: 0 <= i < |hosts| ==> hosts[i] in hosts;
    }
  }

  function NameParts(p: Policy, mcp: seq<string>): seq<seq<string>> {
    [Names(AuthChains(p.claude, Claude)), Names(AuthChains(p.codex, Codex)), Names(AuthChains(p.candidate, Candidate)),
     Names(AuthChains(p.github, Github)), Names(McpChains(mcp)), Names(PassthroughChains(p.passthrough)),
     Names(BlockListChains(p.blocked))]
  }

  lemma NamesAreParts(p: Policy, mcp: seq<string>)
    ensures Names(Chains(p, mcp)) == Flatten(NameParts(p, mcp))
  {
    var a, b, c := AuthChains(p.claude, Claude), AuthChains(p.codex, Codex), AuthChains(p.candidate, Candidate);
    var d, e, f, g := AuthChains(p.github, Github), McpChains(mcp), PassthroughChains(p.passthrough), BlockListChains(p.blocked);
    hide AuthChains, McpChains, PassthroughChains, BlockListChains, Names;
    NamesConcat(a + b + c + d + e + f, g);
    NamesConcat(a + b + c + d + e, f);
    NamesConcat(a + b + c + d, e);
    NamesConcat(a + b + c, d);
    NamesConcat(a + b, c);
    NamesConcat(a, b);
    FlattenSeven(Names(a), Names(b), Names(c), Names(d), Names(e), Names(f), Names(g));
  }

  lemma FlattenSeven(a: seq<string>, b: seq<string>, c: seq<string>, d: seq<string>, e: seq<string>,
                     f: seq<string>, g: seq<string>)
    ensures Flatten([a, b, c, d, e, f, g]) == a + b + c + d + e + f + g
  {
    assert Flatten([g]) == g + Flatten([]);
    assert Flatten([f, g]) == f + Flatten([f, g][1..]) && [f, g][1..] == [g];
    assert [e, f, g][1..] == [f, g] && [d, e, f, g][1..] == [e, f, g];
    assert Flatten([e, f, g]) == e + Flatten([f, g]);
    assert Flatten([d, e, f, g]) == d + Flatten([e, f, g]);
    assert [c, d, e, f, g][1..] == [d, e, f, g] && [b, c, d, e, f, g][1..] == [c, d, e, f, g];
    assert Flatten([c, d, e, f, g]) == c + Flatten([d, e, f, g]);
    assert Flatten([b, c, d, e, f, g]) == b + Flatten([c, d, e, f, g]);
    assert [a, b, c, d, e, f, g][1..] == [b, c, d, e, f, g];
  }

  /** Which part a target belongs to. */
  function PartOf(t: Target): nat {
    match t
    case Terminate(Claude, _) => 0
    case Terminate(Codex, _) => 1
    case Terminate(Candidate, _) => 2
    case Terminate(Github, _) => 3
    case Mcp(_) => 4
    case Passthrough => 5
    case _ => 6
  }

  lemma PartServes(p: Policy, mcp: seq<string>, i: nat, name: string)
    requires OneColonEach(p) && i < 7 && name in NameParts(p, mcp)[i]
    ensures exists t :: Serves(Chains(p, mcp), name, t) && PartOf(t) == i
  {
    hide Serves, Names, Chains, AuthChains, McpChains, PassthroughChains, BlockListChains;
    var part := if i == 0 then AuthChains(p.claude, Claude) else if i == 1 then AuthChains(p.codex, Codex)
      else if i == 2 then AuthChains(p.candidate, Candidate) else if i == 3 then AuthChains(p.github, Github)
      else if i == 4 then McpChains(mcp) else if i == 5 then PassthroughChains(p.passthrough)
      else BlockListChains(p.blocked);
    NamesServe(part, name);
    var t :| Serves(part, name, t);
    AuthChainsServe(p.claude, Claude, name, t);
    AuthChainsServe(p.codex, Codex, name, t);
    AuthChainsServe(p.candidate, Candidate, name, t);
    AuthChainsServe(p.github, Github, name, t);
    McpChainsServe(mcp, name, t);
    LastChainsServe(p, name, t);
    ChainsServe(p, mcp, name, t);
  }

  lemma PartsDisjoint(l: Lists)
    requires Parsed(l)
    ensures Disjoint(NameParts(Compiled(l), l.mcp))
  {
    hide Compiled, Serves, Names, Chains, Claims, NameParts;
    var p := Compiled(l);
    CompiledOneColon(l);
    SevenParts(p, l.mcp);
    forall i, j, x | 0 <= i < j < 7 && x in NameParts(p, l.mcp)[i] ensures x !in NameParts(p, l.mcp)[j] {
      if x in NameParts(p, l.mcp)[j] {
        PartServes(p, l.mcp, i, x);
        PartServes(p, l.mcp, j, x);
        var s :| Serves(Chains(p, l.mcp), x, s) && PartOf(s) == i;
        var t :| Serves(Chains(p, l.mcp), x, t) && PartOf(t) == j;
        ServesExactlyClaims(l, x, s);
        ServesExactlyClaims(l, x, t);
        ClaimsAreUnique(l, x, s, t);
      }
    }
  }

  lemma SevenParts(p: Policy, mcp: seq<string>)
    ensures |NameParts(p, mcp)| == 7
  {
  }

  /** All server names over every chain of listener_443 are pairwise distinct. */
  lemma ServerNamesAreDistinct(l: Lists)
    requires Parsed(l)
    ensures NoDuplicates(Names(Chains(Compiled(l), l.mcp)))
  {
    hide Compiled, AuthChains, McpChains, HostsOn, Chains;
    var p := Compiled(l);
    CompiledLists(l);
    CompiledOneColon(l);
    PartsDisjoint(l);
    AuthNamesNoDuplicates(p.claude, Claude);
    AuthNamesNoDuplicates(p.codex, Codex);
    AuthNamesNoDuplicates(p.candidate, Candidate);
    AuthNamesNoDuplicates(p.github, Github);
    McpNames(l.mcp);
    HostsOnNoDuplicates(p.passthrough, "443");
    assert ":" + "443" == ":443";
    OneChain(HostsOn(p.passthrough, ":443"), Passthrough);
    OneChain(p.blocked, BlockList);
    FlattenNoDuplicates(NameParts(p, l.mcp));
    NamesAreParts(p, l.mcp);
  }

  lemma OneChain(names: seq<string>, t: Target)
    ensures Names([Chain(names, t)]) == names
  {
    assert Names([Chain(names, t)]) == names + Names([]);
  }

  lemma {:induction false} HostSplit(hosts: seq<string>)
    ensures forall h :: h in ExactHosts(hosts) <==> h in hosts && !IsWildcard(h)
    ensures forall h :: h in WildcardHosts(hosts) <==> h in hosts && IsWildcard(h)
  {
    if hosts != [] {
      HostSplit(hosts[1..]);
      assert forall h :: h in hosts <==> h == hosts[0] || h in hosts[1..];
    }
  }

  lemma {:induction false} HostSplitNoDuplicates(hosts: seq<string>)
    requires NoDuplicates(hosts)
    ensures NoDuplicates(ExactHosts(hosts)) && NoDuplicates(WildcardHosts(hosts))
  {
    if hosts != [] {
      var rest := hosts[1..];
      assert forall i :: 0 <= i < |rest| ==> rest[i] == hosts[i + 1];
      HostSplitNoDuplicates(rest);
      HostSplit(rest);
      var a, b := ExactHosts(rest), WildcardHosts(rest);
      hide ExactHosts, WildcardHosts, IsWildcard;
      assert forall i :: 0 <= i < |a| ==> a[i] in a;
      assert forall i :: 0 <= i < |b| ==> b[i] in b;
      assert NoDuplicates([hosts[0]] + a) && NoDuplicates([hosts[0]] + b);
      assert [] + a == a && [] + b == b;
      SplitStep(hosts);
    }
  }

  lemma SplitStep(hosts: seq<string>)
    requires hosts != []
    ensures ExactHosts(hosts) == (if IsWildcard(hosts[0]) then [] else [hosts[0]]) + ExactHosts(hosts[1..])
    ensures WildcardHosts(hosts) == (if IsWildcard(hosts[0]) then [hosts[0]] else []) + WildcardHosts(hosts[1..])
  {
  }

  /** All domains over the virtual hosts of listener_80 are pairwise distinct. */
  lemma DomainsAreDistinct(l: Lists)
    requires Parsed(l)
    ensures NoDuplicates(Domains(Compiled(l)))
  {
    hide Compiled, HostsOn, Host, Port, OneColon, EndsWith;
    var p := Compiled(l);
    CompiledLists(l);
    CompiledOneColon(l);
    HostsOnNoDuplicates(p.passthrough, "80");
    assert ":" + "80" == ":80";
    var hosts := HostsOn(p.passthrough, ":80");
    HostSplit(hosts);
    HostSplitNoDuplicates(hosts);
    forall h | h in hosts ensures h !in p.blocked && h != "*" {
      HostsOnIs(p.passthrough, "80", h);
      var e :| e in p.passthrough && Port(e) == "80" && Host(e) == h;
      CompiledSectionIs(l, 4, e);
      CompiledEntry(l, 4, e);
    }
    var parts := [ExactHosts(hosts), WildcardHosts(hosts), p.blocked, ["*"]];
    FlattenNoDuplicates(parts);
    FlattenFour(ExactHosts(hosts), WildcardHosts(hosts), p.blocked, ["*"]);
  }

  lemma FlattenFour(a: seq<string>, b: seq<string>, c: seq<string>, d: seq<string>)
    ensures Flatten([a, b, c, d]) == a + b + c + d
  {
    assert Flatten([d]) == d + Flatten([]);
    assert Flatten([c, d]) == c + Flatten([c, d][1..]) && [c, d][1..] == [d];
    assert [b, c, d][1..] == [c, d] && [a, b, c, d][1..] == [b, c, d];
    assert Flatten([b, c, d]) == b + Flatten([c, d]);
  }
}
