// Host-run MCP servers and the policy lists (src/mcpServers.ts).
module McpServers {
  import opened Collections
  import opened Allowlist

  datatype Server = Server(name: string, hostname: string)

  function ServerNames(servers: seq<Server>): seq<string> {
    seq(|servers|, i requires 0 <= i < |servers| => servers[i].name)
  }

  function Hostnames(servers: seq<Server>): seq<string> {
    seq(|servers|, i requires 0 <= i < |servers| => servers[i].hostname)
  }

  /** The uniqueness checks of the parser; a server is refused for its name before its hostname. */
  method CheckUnique(servers: seq<Server>) returns (duplicate: Option<nat>)
    ensures duplicate.None? <==> NoDuplicates(ServerNames(servers)) && NoDuplicates(Hostnames(servers))
    ensures duplicate.Some? ==>
              && duplicate.value < |servers|
              && NoDuplicates(ServerNames(servers)[..duplicate.value])
              && NoDuplicates(Hostnames(servers)[..duplicate.value])
              && (servers[duplicate.value].name in ServerNames(servers)[..duplicate.value]
                  || servers[duplicate.value].hostname in Hostnames(servers)[..duplicate.value])
  {
    var names: set<string>, hostnames: set<string> := {}, {};
    for i := 0 to |servers|
      invariant names == Elems(ServerNames(servers)[..i]) && hostnames == Elems(Hostnames(servers)[..i])
      invariant NoDuplicates(ServerNames(servers)[..i]) && NoDuplicates(Hostnames(servers)[..i])
    {
      if servers[i].name in names {
        assert exists j :: 0 <= j < i && ServerNames(servers)[j] == ServerNames(servers)[i];
        return Some(i);
      }
      if servers[i].hostname in hostnames {
        assert exists j :: 0 <= j < i && Hostnames(servers)[j] == Hostnames(servers)[i];
        return Some(i);
      }
      names := names + {servers[i].name};
      hostnames := hostnames + {servers[i].hostname};
      assert ServerNames(servers)[..i + 1] == ServerNames(servers)[..i] + [servers[i].name];
      assert Hostnames(servers)[..i + 1] == Hostnames(servers)[..i] + [servers[i].hostname];
    }
    assert ServerNames(servers)[..|servers|] == ServerNames(servers) && Hostnames(servers)[..|servers|] == Hostnames(servers);
    return None;
  }

  /** `indexOf` followed by `splice`. */
  function RemoveFirst(s: seq<string>, x: string): seq<string> {
    if s == [] then [] else if s[0] == x then s[1..] else [s[0]] + RemoveFirst(s[1..], x)
  }

  /** What one server takes out of the lists. */
  function Claim(p: Policy, hostname: string): Policy {
    var entry := hostname + ":443";
    Policy(RemoveFirst(p.passthrough, entry), RemoveFirst(p.claude, entry), RemoveFirst(p.github, entry),
           RemoveFirst(p.codex, entry), RemoveFirst(p.candidate, entry), RemoveFirst(p.blocked, hostname))
  }

  function ResolveMcp(p: Policy, hostnames: seq<string>): Policy
    decreases hostnames
  {
    if hostnames == [] then p else ResolveMcp(Claim(p, hostnames[0]), hostnames[1..])
  }

  method Splice(s: seq<string>, x: string) returns (r: seq<string>)
    ensures r == RemoveFirst(s, x)
  {
    for i := 0 to |s|
      invariant x !in s[..i]
      invariant RemoveFirst(s, x) == s[..i] + RemoveFirst(s[i..], x)
    {
      assert s[i..][0] == s[i] && s[i..][1..] == s[i + 1..];
      if s[i] == x {
        return s[..i] + s[i + 1..];
      }
      assert s[..i + 1] == s[..i] + [s[i]];
    }
    return s;
  }

  method ResolveMcpAllowlistCollisions(p: Policy, hostnames: seq<string>) returns (resolved: Policy)
    ensures resolved == ResolveMcp(p, hostnames)
  {
    resolved := p;
    for i := 0 to |hostnames|
      invariant ResolveMcp(p, hostnames) == ResolveMcp(resolved, hostnames[i..])
    {
      var entry := hostnames[i] + ":443";
      assert hostnames[i..][0] == hostnames[i] && hostnames[i..][1..] == hostnames[i + 1..];
      var passthrough := Splice(resolved.passthrough, entry);
      var claude := Splice(resolved.claude, entry);
      var github := Splice(resolved.github, entry);
      var codex := Splice(resolved.codex, entry);
      var candidate := Splice(resolved.candidate, entry);
      var blocked := Splice(resolved.blocked, hostnames[i]);
      resolved := Policy(passthrough, claude, github, codex, candidate, blocked);
    }
  }

  function McpEntries(hostnames: seq<string>): set<Entry> {
    set h | h in hostnames :: h + ":443"
  }

  lemma {:induction false} RemoveFirstIsWithout(s: seq<string>, x: string)
    requires NoDuplicates(s)
    ensures RemoveFirst(s, x) == Without(s, {x})
  {
    if s != [] {
      if s[0] == x {
        assert forall i :: 0 <= i < |s[1..]| ==> s[1..][i] == s[i + 1];
        WithoutNothing(s[1..], {x});
      } else {
        RemoveFirstIsWithout(s[1..], x);
      }
    }
  }

  ghost predicate DistinctLists(p: Policy) {
    && NoDuplicates(p.passthrough) && NoDuplicates(p.claude) && NoDuplicates(p.github)
    && NoDuplicates(p.codex) && NoDuplicates(p.candidate) && NoDuplicates(p.blocked)
  }

  lemma ClaimIs(p: Policy, hostname: string)
    requires DistinctLists(p)
    ensures var e := hostname + ":443";
      && Claim(p, hostname) == Policy(Without(p.passthrough, {e}), Without(p.claude, {e}), Without(p.github, {e}),
                                      Without(p.codex, {e}), Without(p.candidate, {e}), Without(p.blocked, {hostname}))
      && DistinctLists(Claim(p, hostname))
  {
    var e := hostname + ":443";
    hide RemoveFirst, Without;
    RemoveFirstIsWithout(p.passthrough, e);
    RemoveFirstIsWithout(p.claude, e);
    RemoveFirstIsWithout(p.github, e);
    RemoveFirstIsWithout(p.codex, e);
    RemoveFirstIsWithout(p.candidate, e);
    RemoveFirstIsWithout(p.blocked, hostname);
    WithoutNoDuplicates(p.passthrough, {e});
    WithoutNoDuplicates(p.claude, {e});
    WithoutNoDuplicates(p.github, {e});
    WithoutNoDuplicates(p.codex, {e});
    WithoutNoDuplicates(p.candidate, {e});
    WithoutNoDuplicates(p.blocked, {hostname});
  }

  /** On lists without duplicates, every server's entry and hostname is gone and nothing else. */
  lemma {:induction false} ResolveMcpIs(p: Policy, hostnames: seq<string>)
    requires DistinctLists(p)
    ensures var drop := McpEntries(hostnames);
      && ResolveMcp(p, hostnames) == Policy(
           Without(p.passthrough, drop), Without(p.claude, drop), Without(p.github, drop),
           Without(p.codex, drop), Without(p.candidate, drop), Without(p.blocked, Elems(hostnames)))
      && DistinctLists(ResolveMcp(p, hostnames))
    decreases hostnames
  {
    hide RemoveFirst, Without, NoDuplicates, Claim;
    if hostnames == [] {
      assert McpEntries([]) == {} && Elems<string>([]) == {};
      WithoutNothing(p.passthrough, {});
      WithoutNothing(p.claude, {});
      WithoutNothing(p.github, {});
      WithoutNothing(p.codex, {});
      WithoutNothing(p.candidate, {});
      WithoutNothing(p.blocked, {});
    } else {
      var h, rest := hostnames[0], hostnames[1..];
      var e := h + ":443";
      ClaimIs(p, h);
      ResolveMcpIs(Claim(p, h), rest);
      assert forall x :: x in hostnames <==> x == h || x in rest;
      assert McpEntries(hostnames) == {e} + McpEntries(rest);
      assert Elems(hostnames) == {h} + Elems(rest);
      WithoutTwice(p.passthrough, {e}, McpEntries(rest));
      WithoutTwice(p.claude, {e}, McpEntries(rest));
      WithoutTwice(p.github, {e}, McpEntries(rest));
      WithoutTwice(p.codex, {e}, McpEntries(rest));
      WithoutTwice(p.candidate, {e}, McpEntries(rest));
      WithoutTwice(p.blocked, {h}, Elems(rest));
    }
  }
}
