// Combining the allow, auth and block lists into one policy (src/allowlist.ts).
//
// An entry is the text `host:port`. A JavaScript Set or array of distinct strings is a
// sequence in insertion order.
module Allowlist {
  import opened Collections

  type Entry = string

  // --- Text -----------------------------------------------------------------------

  predicate EndsWith(s: string, suffix: string) {
    |suffix| <= |s| && s[|s| - |suffix|..] == suffix
  }

  predicate IsWildcard(host: string) {
    |host| >= 2 && host[0] == '*' && host[1] == '.'
  }

  /** The last position below `n` that holds a colon, or -1. */
  function LastColonBelow(e: Entry, n: nat): (i: int)
    requires n <= |e|
    ensures -1 <= i < n
    ensures i >= 0 ==> e[i] == ':'
    ensures forall j :: i < j < n ==> e[j] != ':'
  {
    if n == 0 then -1 else if e[n - 1] == ':' then n - 1 else LastColonBelow(e, n - 1)
  }

  function LastColon(e: Entry): int {
    LastColonBelow(e, |e|)
  }

  /** `slice(0, -1)` and `slice(0)` when there is no colon, as the source computes them. */
  function Host(e: Entry): string {
    var i := LastColon(e);
    if i >= 0 then e[..i] else if e == "" then "" else e[..|e| - 1]
  }

  function Port(e: Entry): string {
    e[LastColon(e) + 1..]
  }

  /** The host part up to the first colon, as `split(':')[0]` gives it. */
  function BeforeColon(e: Entry): string {
    if e == "" || e[0] == ':' then "" else [e[0]] + BeforeColon(e[1..])
  }

  ghost predicate OneColon(e: Entry) {
    LastColon(e) >= 0 && ':' !in Host(e)
  }

  lemma {:induction false} BeforeColonIs(host: string, rest: string)
    requires ':' !in host
    ensures BeforeColon(host + ":" + rest) == host
  {
    if host == "" {
      assert (host + ":" + rest)[0] == ':';
    } else {
      BeforeColonIs(host[1..], rest);
      assert (host + ":" + rest)[1..] == host[1..] + ":" + rest;
    }
  }

  lemma LastColonOf(host: string, port: string)
    requires ':' !in port
    ensures LastColon(host + ":" + port) == |host|
  {
    var e := host + ":" + port;
    assert e[|host|] == ':';
    assert forall j :: |host| < j < |e| ==> e[j] == port[j - |host| - 1];
  }

  /** The two ways the source takes an entry apart agree, and lose nothing. */
  lemma SplitJoin(host: string, port: string)
    requires ':' !in host && ':' !in port
    ensures var e := host + ":" + port;
      OneColon(e) && Host(e) == host && Port(e) == port && BeforeColon(e) == host
  {
    LastColonOf(host, port);
    BeforeColonIs(host, port);
  }

  lemma JoinSplit(e: Entry)
    requires OneColon(e)
    ensures e == Host(e) + ":" + Port(e) && ':' !in Host(e) && ':' !in Port(e) && BeforeColon(e) == Host(e)
  {
    BeforeColonIs(Host(e), Port(e));
    assert e == Host(e) + ":" + Port(e);
  }

  /** With one colon, the text suffix test is the port test. */
  lemma PortSuffix(e: Entry, port: string)
    requires OneColon(e) && ':' !in port
    ensures EndsWith(e, ":" + port) <==> Port(e) == port
  {
    JoinSplit(e);
    if EndsWith(e, ":" + port) {
      var i := |e| - |port| - 1;
      assert e[i..] == ":" + port;
      assert e[i] == ':' && e[i + 1..] == port;
      var host := e[..i];
      assert e == host + ":" + port;
      LastColonOf(host, port);
    }
  }

  // --- Filters over lists --------------------------------------------------------------

  /** `s` without the members of `drop`, in order. */
  function Without(s: seq<string>, drop: set<string>): seq<string> {
    if s == [] then []
    else (if s[0] in drop then [] else [s[0]]) + Without(s[1..], drop)
  }

  /** What a Set built from `s` holds, in insertion order. */
  function Distinct(s: seq<string>): seq<string> {
    if s == [] then [] else [s[0]] + Without(Distinct(s[1..]), {s[0]})
  }

  lemma {:induction false} WithoutMembers(s: seq<string>, drop: set<string>)
    ensures forall x :: x in Without(s, drop) <==> x in s && x !in drop
  {
    if s != [] {
      WithoutMembers(s[1..], drop);
      assert forall x :: x in s <==> x == s[0] || x in s[1..];
    }
  }

  lemma {:induction false} WithoutNoDuplicates(s: seq<string>, drop: set<string>)
    requires NoDuplicates(s)
    ensures NoDuplicates(Without(s, drop))
  {
    if s != [] {
      WithoutNoDuplicates(s[1..], drop);
      WithoutMembers(s[1..], drop);
      var rest := Without(s[1..], drop);
      assert s[0] !in rest;
      assert forall i :: 0 <= i < |rest| ==> rest[i] in rest;
    }
  }

  lemma {:induction false} WithoutTwice(s: seq<string>, a: set<string>, b: set<string>)
    ensures Without(Without(s, a), b) == Without(s, a + b)
  {
    if s != [] {
      WithoutTwice(s[1..], a, b);
      var rest := Without(s[1..], a);
      assert Without(s, a) == (if s[0] in a then [] else [s[0]]) + rest;
      assert ([s[0]] + rest)[1..] == rest && [] + rest == rest;
    }
  }

  lemma {:induction false} WithoutNothing(s: seq<string>, drop: set<string>)
    requires forall x :: x in s ==> x !in drop
    ensures Without(s, drop) == s
  {
    if s != [] {
      WithoutNothing(s[1..], drop);
      assert s == [s[0]] + s[1..];
    }
  }

  lemma {:induction false} DistinctIs(s: seq<string>)
    ensures NoDuplicates(Distinct(s))
    ensures forall x :: x in Distinct(s) <==> x in s
  {
    if s != [] {
      DistinctIs(s[1..]);
      WithoutMembers(Distinct(s[1..]), {s[0]});
      WithoutNoDuplicates(Distinct(s[1..]), {s[0]});
      var rest := Without(Distinct(s[1..]), {s[0]});
      assert forall i :: 0 <= i < |rest| ==> rest[i] in rest;
      assert forall x :: x in s <==> x == s[0] || x in s[1..];
    }
  }

  // --- Pruning --------------------------------------------------------------------------

  /** Some wildcard of `all` on the same port covers the host of `e`. */
  predicate Covered(e: Entry, all: seq<Entry>) {
    exists w | w in all :: IsWildcard(Host(w)) && Port(w) == Port(e) && EndsWith(Host(e), Host(w)[1..])
  }

  predicate Survives(e: Entry, all: seq<Entry>) {
    IsWildcard(Host(e)) || !Covered(e, all)
  }

  function KeepSurvivors(entries: seq<Entry>, all: seq<Entry>): seq<Entry> {
    if entries == [] then []
    else (if Survives(entries[0], all) then [entries[0]] else []) + KeepSurvivors(entries[1..], all)
  }

  function Prune(entries: seq<Entry>): seq<Entry> {
    KeepSurvivors(entries, entries)
  }

  /** The suffixes of the wildcards of `entries` on `port`. */
  ghost function Suffixes(entries: seq<Entry>, port: string): set<string> {
    set w | w in entries && IsWildcard(Host(w)) && Port(w) == port :: Host(w)[1..]
  }

  lemma SuffixesGrow(entries: seq<Entry>, e: Entry, port: string)
    ensures Suffixes(entries + [e], port)
            == Suffixes(entries, port) + (if IsWildcard(Host(e)) && Port(e) == port then {Host(e)[1..]} else {})
  {
    assert forall w :: w in entries + [e] <==> w in entries || w == e;
  }

  ghost predicate Indexes(m: map<string, seq<string>>, entries: seq<Entry>) {
    forall port: string :: (if port in m then Elems(m[port]) else {}) == Suffixes(entries, port)
  }

  /** The index after one more entry. */
  function Indexed(m: map<string, seq<string>>, e: Entry): map<string, seq<string>> {
    if IsWildcard(Host(e))
    then m[Port(e) := (if Port(e) in m then m[Port(e)] else []) + [Host(e)[1..]]]
    else m
  }

  lemma IndexStep(m: map<string, seq<string>>, entries: seq<Entry>, e: Entry)
    requires Indexes(m, entries)
    ensures Indexes(Indexed(m, e), entries + [e])
  {
    hide Host, Port, Suffixes;
    forall port: string
      ensures (if port in Indexed(m, e) then Elems(Indexed(m, e)[port]) else {}) == Suffixes(entries + [e], port)
    {
      SuffixesGrow(entries, e, port);
      if IsWildcard(Host(e)) && Port(e) == port {
        var before := if port in m then m[port] else [];
        assert Elems(before + [Host(e)[1..]]) == Elems(before) + {Host(e)[1..]};
      }
    }
  }

  method IndexWildcards(entries: seq<Entry>) returns (suffixesByPort: map<string, seq<string>>)
    ensures Indexes(suffixesByPort, entries)
  {
    suffixesByPort := map[];
    assert Indexes(suffixesByPort, []);
    hide Indexes, Host, Port;
    for i := 0 to |entries|
      invariant Indexes(suffixesByPort, entries[..i])
    {
      var host, port := Host(entries[i]), Port(entries[i]);
      assert entries[..i + 1] == entries[..i] + [entries[i]];
      IndexStep(suffixesByPort, entries[..i], entries[i]);
      if IsWildcard(host) {
        var suffixes := if port in suffixesByPort then suffixesByPort[port] else [];
        suffixesByPort := suffixesByPort[port := suffixes + [host[1..]]];
      }
    }
    assert entries[..|entries|] == entries;
  }

  predicate EndsWithAny(host: string, suffixes: seq<string>) {
    exists suffix | suffix in suffixes :: EndsWith(host, suffix)
  }

  lemma IndexDecidesCoverage(m: map<string, seq<string>>, entries: seq<Entry>, e: Entry)
    requires Indexes(m, entries)
    ensures Covered(e, entries) <==> Port(e) in m && EndsWithAny(Host(e), m[Port(e)])
  {
    var port := Port(e);
    assert (if port in m then Elems(m[port]) else {}) == Suffixes(entries, port);
    assert Covered(e, entries) <==> exists suffix :: suffix in Suffixes(entries, port) && EndsWith(Host(e), suffix);
  }

  lemma KeepStep(kept: seq<Entry>, entries: seq<Entry>, i: nat)
    requires i < |entries|
    ensures kept + KeepSurvivors(entries[i..], entries) ==
            (if Survives(entries[i], entries) then kept + [entries[i]] else kept) + KeepSurvivors(entries[i + 1..], entries)
  {
    hide Survives;
    var rest := KeepSurvivors(entries[i + 1..], entries);
    var first := if Survives(entries[i], entries) then [entries[i]] else [];
    KeepFirst(entries[i..], entries);
    hide KeepSurvivors;
    assert entries[i..][0] == entries[i] && entries[i..][1..] == entries[i + 1..];
    Associative(kept, first, rest);
  }

  lemma KeepFirst(entries: seq<Entry>, all: seq<Entry>)
    requires entries != []
    ensures KeepSurvivors(entries, all) ==
            (if Survives(entries[0], all) then [entries[0]] else []) + KeepSurvivors(entries[1..], all)
  {
  }

  lemma KeptAll(kept: seq<Entry>, entries: seq<Entry>)
    ensures kept + KeepSurvivors(entries[|entries|..], entries) == kept
  {
  }

  method PrunePassthrough(entries: seq<Entry>) returns (kept: seq<Entry>)
    ensures kept == Prune(entries)
  {
    hide Covered, Indexes, EndsWithAny, Host, Port, IsWildcard, KeepSurvivors;
    var suffixesByPort := IndexWildcards(entries);
    kept := [];
    assert entries[0..] == entries;
    for i := 0 to |entries|
      invariant Prune(entries) == kept + KeepSurvivors(entries[i..], entries)
    {
      var e := entries[i];
      KeepStep(kept, entries, i);
      IndexDecidesCoverage(suffixesByPort, entries, e);
      if IsWildcard(Host(e)) || !(Port(e) in suffixesByPort && EndsWithAny(Host(e), suffixesByPort[Port(e)])) {
        kept := kept + [e];
      }
    }
    KeptAll(kept, entries);
  }

  lemma {:induction false} KeepSurvivorsMembers(entries: seq<Entry>, all: seq<Entry>)
    ensures forall e :: e in KeepSurvivors(entries, all) <==> e in entries && Survives(e, all)
  {
    if entries != [] {
      KeepSurvivorsMembers(entries[1..], all);
      assert forall x :: x in entries <==> x == entries[0] || x in entries[1..];
    }
  }

  /** A concrete host on a port is admitted by a list of entries, exactly or by a wildcard. */
  ghost predicate Admits(entries: seq<Entry>, host: string, port: string) {
    exists e :: e in entries && Port(e) == port
      && (Host(e) == host || (IsWildcard(Host(e)) && EndsWith(host, Host(e)[1..])))
  }

  lemma CoverageSurvivesPruning(e: Entry, entries: seq<Entry>)
    ensures Covered(e, Prune(entries)) <==> Covered(e, entries)
  {
    KeepSurvivorsMembers(entries, entries);
  }

  lemma PruningPreservesMeaning(entries: seq<Entry>, host: string, port: string)
    ensures Admits(Prune(entries), host, port) <==> Admits(entries, host, port)
  {
    KeepSurvivorsMembers(entries, entries);
    if Admits(entries, host, port) {
      var e :| e in entries && Port(e) == port
        && (Host(e) == host || (IsWildcard(Host(e)) && EndsWith(host, Host(e)[1..])));
      if !Survives(e, entries) {
        var w :| w in entries && IsWildcard(Host(w)) && Port(w) == Port(e) && EndsWith(Host(e), Host(w)[1..]);
        assert w in Prune(entries);
      }
    }
  }

  lemma {:induction false} KeepAll(entries: seq<Entry>, all: seq<Entry>)
    requires forall e :: e in entries ==> Survives(e, all)
    ensures KeepSurvivors(entries, all) == entries
  {
    if entries != [] {
      KeepAll(entries[1..], all);
      assert entries == [entries[0]] + entries[1..];
    }
  }

  lemma PruningIsIdempotent(entries: seq<Entry>)
    ensures Prune(Prune(entries)) == Prune(entries)
  {
    KeepSurvivorsMembers(entries, entries);
    forall e | e in Prune(entries) ensures Survives(e, Prune(entries)) {
      CoverageSurvivesPruning(e, entries);
    }
    KeepAll(Prune(entries), Prune(entries));
  }

  // --- Blocking -------------------------------------------------------------------------

  predicate IsBlocked(host: string, patterns: seq<string>) {
    exists p | p in patterns :: p == host || (IsWildcard(p) && EndsWith(host, p[1..]))
  }

  function Unblocked(entries: seq<Entry>, patterns: seq<string>): seq<Entry> {
    if entries == [] then []
    else (if IsBlocked(Host(entries[0]), patterns) then [] else [entries[0]]) + Unblocked(entries[1..], patterns)
  }

  lemma {:induction false} UnblockedMembers(entries: seq<Entry>, patterns: seq<string>)
    ensures forall e :: e in Unblocked(entries, patterns) <==> e in entries && !IsBlocked(Host(e), patterns)
  {
    if entries != [] {
      UnblockedMembers(entries[1..], patterns);
      assert forall x :: x in entries <==> x == entries[0] || x in entries[1..];
    }
  }

  lemma EndsWithTransitive(a: string, b: string, c: string)
    requires EndsWith(a, b) && EndsWith(b, c)
    ensures EndsWith(a, c)
  {
    assert a[|a| - |c|..] == a[|a| - |b|..][|b| - |c|..];
  }

  /** Both `b` and `c` end `a`: the shorter ends the longer. */
  lemma EndsWithComparable(a: string, b: string, c: string)
    requires EndsWith(a, b) && EndsWith(a, c) && |c| <= |b|
    ensures EndsWith(b, c)
  {
    assert b == a[|a| - |b|..] && c == a[|a| - |c|..];
    assert b[|b| - |c|..] == a[|a| - |c|..];
  }

  /** Whatever blocks a wildcard blocks every host the wildcard covers. */
  lemma BlockedWildcardBlocksCovered(wildcard: string, host: string, patterns: seq<string>)
    requires IsWildcard(wildcard) && EndsWith(host, wildcard[1..])
    requires IsBlocked(wildcard, patterns)
    ensures IsBlocked(host, patterns)
  {
    var p :| p in patterns && (p == wildcard || (IsWildcard(p) && EndsWith(wildcard, p[1..])));
    if p != wildcard {
      assert wildcard[0] == '*' && p[1] == '.';
      assert |p[1..]| <= |wildcard[1..]|;
      assert EndsWith(wildcard, wildcard[1..]);
      EndsWithComparable(wildcard, wildcard[1..], p[1..]);
      EndsWithTransitive(host, wildcard[1..], p[1..]);
    }
  }

  /** Removing blocked entries never uncovers an entry that stays. */
  lemma BlockingKeepsCoverage(e: Entry, all: seq<Entry>, patterns: seq<string>)
    requires !IsBlocked(Host(e), patterns)
    ensures Covered(e, all) <==> Covered(e, Unblocked(all, patterns))
  {
    UnblockedMembers(all, patterns);
    if Covered(e, all) {
      var w :| w in all && IsWildcard(Host(w)) && Port(w) == Port(e) && EndsWith(Host(e), Host(w)[1..]);
      if IsBlocked(Host(w), patterns) {
        BlockedWildcardBlocksCovered(Host(w), Host(e), patterns);
      }
      assert w in Unblocked(all, patterns);
    }
  }

  lemma {:induction false} PruneThenBlock(entries: seq<Entry>, all: seq<Entry>, patterns: seq<string>)
    ensures Unblocked(KeepSurvivors(entries, all), patterns)
            == KeepSurvivors(Unblocked(entries, patterns), Unblocked(all, patterns))
  {
    hide Covered, IsBlocked, Host, IsWildcard;
    if entries != [] {
      PruneThenBlock(entries[1..], all, patterns);
      var e := entries[0];
      if !IsBlocked(Host(e), patterns) {
        BlockingKeepsCoverage(e, all, patterns);
      }
      var kept, open := KeepSurvivors(entries[1..], all), Unblocked(entries[1..], patterns);
      assert ([e] + kept)[1..] == kept && [] + kept == kept;
      assert ([e] + open)[1..] == open && [] + open == open;
    }
  }

  /** Pruning before or after removing blocked entries gives the same list. */
  lemma PruningCommutesWithBlocking(entries: seq<Entry>, patterns: seq<string>)
    ensures Prune(Unblocked(entries, patterns)) == Unblocked(Prune(entries), patterns)
  {
    PruneThenBlock(entries, entries, patterns);
  }

  // --- Combining the lists -----------------------------------------------------------------

  datatype AuthList = AuthList(claude: seq<Entry>, github: seq<Entry>, codex: seq<Entry>, candidate: seq<Entry>)

  datatype Policy = Policy(
    passthrough: seq<Entry>,
    claude: seq<Entry>,
    github: seq<Entry>,
    codex: seq<Entry>,
    candidate: seq<Entry>,
    blocked: seq<string>)

  /** The five sections after blocking and pruning, highest priority first. */
  function Sections(allow: seq<Entry>, auth: AuthList, block: seq<string>): seq<seq<Entry>> {
    [Unblocked(Distinct(auth.candidate), block),
     Unblocked(Distinct(auth.github), block),
     Unblocked(Distinct(auth.codex), block),
     Unblocked(Distinct(auth.claude), block),
     Prune(Unblocked(Distinct(allow), block))]
  }

  /** Every entry of a section of higher priority than the `k`th. */
  function Above(sections: seq<seq<Entry>>, k: nat): set<Entry>
    requires k <= |sections|
  {
    if k == 0 then {} else Above(sections, k - 1) + Elems(sections[k - 1])
  }

  /** The `k`th section keeps what no section of higher priority lists. */
  function Resolved(sections: seq<seq<Entry>>, k: nat): seq<Entry>
    requires k < |sections|
  {
    Without(sections[k], Above(sections, k))
  }

  function Combine(allow: seq<Entry>, auth: AuthList, block: seq<string>): Policy {
    var s := Sections(allow, auth, block);
    Policy(Resolved(s, 4), Resolved(s, 3), Resolved(s, 1), Resolved(s, 2), Resolved(s, 0), block)
  }

  lemma {:induction false} AboveIs(sections: seq<seq<Entry>>, k: nat)
    requires k <= |sections|
    ensures forall e :: e in Above(sections, k) <==> exists j :: 0 <= j < k && e in sections[j]
  {
    if k > 0 {
      AboveIs(sections, k - 1);
    }
  }

  lemma {:induction false} UnblockedIsWithout(entries: seq<Entry>, patterns: seq<string>, drop: set<Entry>)
    requires forall e :: e in entries ==> (e in drop <==> IsBlocked(Host(e), patterns))
    ensures Unblocked(entries, patterns) == Without(entries, drop)
  {
    if entries != [] {
      UnblockedIsWithout(entries[1..], patterns, drop);
    }
  }

  /** The source's deletion loop over one section. */
  method RemoveBlocked(section: seq<Entry>, block: seq<string>) returns (kept: seq<Entry>)
    ensures kept == Unblocked(section, block)
  {
    hide IsBlocked, Host;
    kept := section;
    ghost var drop: set<Entry> := {};
    WithoutNothing(section, {});
    for i := 0 to |section|
      invariant kept == Without(section, drop)
      invariant forall e :: e in drop ==> IsBlocked(Host(e), block)
      invariant forall e :: e in section[..i] && IsBlocked(Host(e), block) ==> e in drop
    {
      assert section[..i + 1] == section[..i] + [section[i]];
      if IsBlocked(Host(section[i]), block) {
        WithoutTwice(section, drop, {section[i]});
        kept := Without(kept, {section[i]});
        drop := drop + {section[i]};
      }
    }
    assert section[..|section|] == section;
    UnblockedIsWithout(section, block, drop);
  }

  ghost predicate ResolvedFor(sections: seq<seq<Entry>>, r: seq<seq<Entry>>, seen: set<Entry>) {
    |r| == |sections| && forall k :: 0 <= k < |r| ==> r[k] == Without(sections[k], Above(sections, k) * seen)
  }

  /** Deletes `e` from every section but the first that lists it. */
  method DeleteFromLosers(sections: seq<seq<Entry>>, e: Entry) returns (r: seq<seq<Entry>>)
    ensures |r| == |sections|
    ensures forall k :: 0 <= k < |r| ==>
      r[k] == if exists j :: 0 <= j < k && e in sections[j] then Without(sections[k], {e}) else sections[k]
  {
    r := sections;
    var won := false;
    for k := 0 to |sections|
      invariant |r| == |sections|
      invariant won <==> exists j :: 0 <= j < k && e in sections[j]
      invariant forall i :: k <= i < |r| ==> r[i] == sections[i]
      invariant forall i :: 0 <= i < k ==>
        r[i] == if exists j :: 0 <= j < i && e in sections[j] then Without(sections[i], {e}) else sections[i]
    {
      if e in sections[k] {
        if won {
          r := r[k := Without(sections[k], {e})];
        } else {
          won := true;
        }
      } else {
        WithoutNothing(sections[k], {e});
      }
    }
  }

  /** An entry still listed above section `k` is one that was listed above it from the start. */
  lemma WinnerStays(sections: seq<seq<Entry>>, r: seq<seq<Entry>>, seen: set<Entry>, e: Entry, k: nat)
    requires ResolvedFor(sections, r, seen) && k < |r|
    ensures (exists j :: 0 <= j < k && e in r[j]) <==> e in Above(sections, k)
  {
    AboveIs(sections, k);
    forall j | 0 <= j < k { WithoutMembers(sections[j], Above(sections, j) * seen); }
    if e in Above(sections, k) {
      FirstLists(sections, k, e);
      var j :| 0 <= j < k && e in sections[j] && e !in Above(sections, j);
      assert e in r[j];
    }
  }

  lemma {:induction false} FirstLists(sections: seq<seq<Entry>>, k: nat, e: Entry)
    requires k <= |sections| && e in Above(sections, k)
    ensures exists j :: 0 <= j < k && e in sections[j] && e !in Above(sections, j)
  {
    if e in Above(sections, k - 1) {
      FirstLists(sections, k - 1, e);
    }
  }

  lemma OneMore(section: seq<Entry>, above: set<Entry>, seen: set<Entry>, e: Entry)
    ensures e in above ==> Without(section, above * (seen + {e})) == Without(Without(section, above * seen), {e})
    ensures e !in above ==> Without(section, above * (seen + {e})) == Without(section, above * seen)
  {
    WithoutTwice(section, above * seen, {e});
    assert e in above ==> above * (seen + {e}) == above * seen + {e};
    assert e !in above ==> above * (seen + {e}) == above * seen;
  }

  method ResolveCollisions(sections: seq<seq<Entry>>, union: seq<Entry>) returns (r: seq<seq<Entry>>)
    requires forall k, e :: 0 <= k < |sections| && e in sections[k] ==> e in union
    ensures |r| == |sections| && forall k :: 0 <= k < |r| ==> r[k] == Resolved(sections, k)
  {
    hide Above;
    r := sections;
    forall k | 0 <= k < |sections| ensures r[k] == Without(sections[k], Above(sections, k) * {}) {
      WithoutNothing(sections[k], Above(sections, k) * {});
    }
    assert Elems(union[..0]) == {};
    for i := 0 to |union|
      invariant ResolvedFor(sections, r, Elems(union[..i]))
    {
      var e, seen := union[i], Elems(union[..i]);
      assert union[..i + 1] == union[..i] + [e];
      assert Elems(union[..i + 1]) == seen + {e};
      ghost var before := r;
      r := DeleteFromLosers(r, e);
      forall k | 0 <= k < |r| ensures r[k] == Without(sections[k], Above(sections, k) * (seen + {e})) {
        WinnerStays(sections, before, seen, e, k);
        OneMore(sections[k], Above(sections, k), seen, e);
      }
    }
    assert union[..|union|] == union;
    forall k | 0 <= k < |r| ensures r[k] == Resolved(sections, k) {
      AboveIs(sections, k);
      assert Above(sections, k) * Elems(union) == Above(sections, k);
    }
  }

  method CombinePolicy(allow: seq<Entry>, auth: AuthList, block: seq<string>) returns (policy: Policy)
    ensures policy == Combine(allow, auth, block)
  {
    var passthrough := RemoveBlocked(Distinct(allow), block);
    var claude := RemoveBlocked(Distinct(auth.claude), block);
    var github := RemoveBlocked(Distinct(auth.github), block);
    var codex := RemoveBlocked(Distinct(auth.codex), block);
    var candidate := RemoveBlocked(Distinct(auth.candidate), block);
    passthrough := PrunePassthrough(passthrough);
    var byPriority := [candidate, github, codex, claude, passthrough];
    var union := Distinct(passthrough + claude + github + codex + candidate);
    DistinctIs(passthrough + claude + github + codex + candidate);
    var r := ResolveCollisions(byPriority, union);
    policy := Policy(r[4], r[3], r[1], r[2], r[0], block);
  }
}
