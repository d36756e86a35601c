// Which files and directories of a share cannot live side by side (src/collisions.ts). A path is
// its non-empty segments; `fold` is the identity, or lower-casing where case does not count.
module Collisions {
  import opened Collections

  type Path = seq<string>
  type Fold = string -> string

  datatype Kind = File | Directory

  datatype WeaveItem = WeaveItem(destPath: Path, kind: Kind, origin: string)

  datatype Reason = AncestorConflict | CaseClash | TwoFiles | FileVersusDirectory

  datatype Collision = Collision(destPath: Path, a: string, b: string, reason: Reason)

  /** What an item needs its path, or an ancestor of its path, to be. */
  datatype Claim = Claim(path: Path, kind: Kind, origin: string, ancestor: bool)

  function Key(fold: Fold, path: Path): (key: Path)
    ensures |key| == |path|
  {
    if path == [] then [] else [fold(path[0])] + Key(fold, path[1..])
  }

  // --- The specification ---------------------------------------------------------------------------

  /** The claims of the item on its ancestors up to length `n`, shortest first. */
  function Ancestors(item: WeaveItem, n: nat): seq<Claim>
    requires n <= |item.destPath|
  {
    if n == 0 then [] else Ancestors(item, n - 1) + [Claim(item.destPath[..n], Directory, item.origin, true)]
  }

  function Above(item: WeaveItem): nat {
    if item.destPath == [] then 0 else |item.destPath| - 1
  }

  function Own(item: WeaveItem): Claim {
    Claim(item.destPath, item.kind, item.origin, false)
  }

  function ClaimsOf(item: WeaveItem): seq<Claim> {
    Ancestors(item, Above(item)) + [Own(item)]
  }

  function AllClaims(items: seq<WeaveItem>): seq<Claim> {
    if items == [] then [] else AllClaims(items[..|items| - 1]) + ClaimsOf(items[|items| - 1])
  }

  /** Two claims whose paths fold to the same one agree only as directories spelled the same. */
  predicate Agree(fold: Fold, c: Claim, d: Claim) {
    Key(fold, c.path) == Key(fold, d.path) ==> c.kind == Directory && d.kind == Directory && c.path == d.path
  }

  ghost predicate ItemsAgree(fold: Fold, a: WeaveItem, b: WeaveItem) {
    forall c, d :: c in ClaimsOf(a) && d in ClaimsOf(b) ==> Agree(fold, c, d)
  }

  /** Every two of the items can live side by side. */
  ghost predicate Compatible(fold: Fold, items: seq<WeaveItem>) {
    forall i, j :: 0 <= i < j < |items| ==> ItemsAgree(fold, items[i], items[j])
  }

  // --- The detector, claim by claim ------------------------------------------------------------------

  /** `nodes` holds the first claim on each folded path. */
  datatype Found = Found(nodes: map<Path, Claim>, collisions: seq<Collision>)

  function ReasonFor(existing: Claim, claim: Claim): Reason
    requires existing.kind == File || claim.kind == File || existing.path != claim.path
  {
    if existing.kind == Directory && claim.kind == Directory then CaseClash
    else if claim.ancestor then AncestorConflict
    else if existing.kind == File && claim.kind == File then TwoFiles
    else FileVersusDirectory
  }

  function Meet(fold: Fold, found: Found, claim: Claim): Found {
    var key := Key(fold, claim.path);
    if key !in found.nodes then found.(nodes := found.nodes[key := claim])
    else
      var existing := found.nodes[key];
      if existing.kind == Directory && claim.kind == Directory && existing.path == claim.path then found
      else
        var reason := ReasonFor(existing, claim);
        found.(collisions := found.collisions + [Collision(claim.path, existing.origin, claim.origin, reason)])
  }

  function MeetAll(fold: Fold, claims: seq<Claim>): Found {
    if claims == [] then Found(map[], []) else Meet(fold, MeetAll(fold, claims[..|claims| - 1]), claims[|claims| - 1])
  }

  lemma MeetNext(fold: Fold, claims: seq<Claim>, claim: Claim)
    ensures MeetAll(fold, claims + [claim]) == Meet(fold, MeetAll(fold, claims), claim)
  {
    assert (claims + [claim])[..|claims|] == claims;
  }

  /** `nodes[key]` is the first claim with that key. */
  ghost predicate FirstFor(fold: Fold, claims: seq<Claim>, key: Path, i: nat) {
    i < |claims| && Key(fold, claims[i].path) == key && forall j :: 0 <= j < i ==> Key(fold, claims[j].path) != key
  }

  ghost predicate HoldsFirsts(fold: Fold, claims: seq<Claim>, nodes: map<Path, Claim>) {
    && (forall k :: 0 <= k < |claims| ==> Key(fold, claims[k].path) in nodes)
    && (forall key :: key in nodes ==> exists i: nat :: FirstFor(fold, claims, key, i) && claims[i] == nodes[key])
  }

  ghost predicate AllAgree(fold: Fold, claims: seq<Claim>) {
    forall i, j :: 0 <= i < j < |claims| ==> Agree(fold, claims[i], claims[j])
  }

  lemma MeetCollides(fold: Fold, earlier: seq<Claim>, found: Found, claim: Claim)
    requires HoldsFirsts(fold, earlier, found.nodes)
    ensures var key := Key(fold, claim.path);
      Meet(fold, found, claim).collisions == []
      <==> found.collisions == [] && (key in found.nodes ==> Agree(fold, found.nodes[key], claim))
  {
    hide Key;
    var key := Key(fold, claim.path);
    if key in found.nodes {
      var i: nat :| FirstFor(fold, earlier, key, i) && earlier[i] == found.nodes[key];
    }
  }

  lemma {:induction false} MeetAllIs(fold: Fold, claims: seq<Claim>)
    ensures HoldsFirsts(fold, claims, MeetAll(fold, claims).nodes)
    ensures MeetAll(fold, claims).collisions == [] <==> AllAgree(fold, claims)
  {
    hide Key, HoldsFirsts, AllAgree, Agree;
    if claims == [] {
      assert HoldsFirsts(fold, [], map[]) && AllAgree(fold, []) by { NothingDisagrees(fold); }
    } else {
      var n := |claims| - 1;
      var earlier, claim := claims[..n], claims[n];
      MeetAllIs(fold, earlier);
      var found := MeetAll(fold, earlier);
      FirstsExtend(fold, earlier, claim, found.nodes);
      AgreeExtends(fold, earlier, claim, found.nodes);
      MeetCollides(fold, earlier, found, claim);
      assert claims == earlier + [claim];
    }
  }

  lemma FirstsExtend(fold: Fold, earlier: seq<Claim>, claim: Claim, nodes: map<Path, Claim>)
    requires HoldsFirsts(fold, earlier, nodes)
    ensures var key := Key(fold, claim.path);
      HoldsFirsts(fold, earlier + [claim], if key in nodes then nodes else nodes[key := claim])
  {
    hide Key;
    var key := Key(fold, claim.path);
    var claims := earlier + [claim];
    var after := if key in nodes then nodes else nodes[key := claim];
    forall k | k in after ensures exists i: nat :: FirstFor(fold, claims, k, i) && claims[i] == after[k] {
      if k in nodes {
        var i: nat :| FirstFor(fold, earlier, k, i) && earlier[i] == nodes[k];
        assert FirstFor(fold, claims, k, i);
      } else {
        assert FirstFor(fold, claims, k, |earlier|);
      }
    }
  }

  /** A new claim agrees with all the agreeing earlier ones when it agrees with the first on its path. */
  lemma AgreeExtends(fold: Fold, earlier: seq<Claim>, claim: Claim, nodes: map<Path, Claim>)
    requires HoldsFirsts(fold, earlier, nodes)
    ensures var key := Key(fold, claim.path);
      AllAgree(fold, earlier + [claim])
      <==> AllAgree(fold, earlier) && (key in nodes ==> Agree(fold, nodes[key], claim))
  {
    hide Key;
    var key := Key(fold, claim.path);
    var claims := earlier + [claim];
    if AllAgree(fold, claims) {
      assert forall i :: 0 <= i < |earlier| ==> claims[i] == earlier[i];
      if key in nodes {
        var i: nat :| FirstFor(fold, earlier, key, i) && earlier[i] == nodes[key];
        assert Agree(fold, claims[i], claims[|earlier|]);
      }
    }
    if AllAgree(fold, earlier) && (key in nodes ==> Agree(fold, nodes[key], claim)) {
      forall j | 0 <= j < |earlier| ensures Agree(fold, earlier[j], claim) {
        if Key(fold, earlier[j].path) == key {
          var i: nat :| FirstFor(fold, earlier, key, i) && earlier[i] == nodes[key];
          assert i < j ==> Agree(fold, earlier[i], earlier[j]);
        }
      }
      assert forall i, j :: 0 <= i < j < |claims| ==> Agree(fold, claims[i], claims[j]);
    }
  }

  // --- From claims to items --------------------------------------------------------------------------

  lemma {:induction false} AncestorsAre(item: WeaveItem, n: nat)
    requires n <= |item.destPath|
    ensures |Ancestors(item, n)| == n
    ensures forall k :: 0 <= k < n ==>
              Ancestors(item, n)[k] == Claim(item.destPath[..k + 1], Directory, item.origin, true)
  {
    if n > 0 { AncestorsAre(item, n - 1); }
  }

  /** The claims of one item are on paths of different lengths, so they never collide. */
  lemma OneItemAgrees(fold: Fold, item: WeaveItem)
    ensures AllAgree(fold, ClaimsOf(item))
  {
    AncestorsAre(item, Above(item));
    var claims := ClaimsOf(item);
    forall i, j | 0 <= i < j < |claims| ensures Agree(fold, claims[i], claims[j]) {
      assert |claims[i].path| < |claims[j].path|;
    }
  }

  lemma {:induction false} ClaimOwner(items: seq<WeaveItem>, c: Claim)
    ensures c in AllClaims(items) <==> exists k :: 0 <= k < |items| && c in ClaimsOf(items[k])
  {
    hide ClaimsOf;
    if items != [] {
      var n := |items| - 1;
      ClaimOwner(items[..n], c);
      assert forall k :: 0 <= k < n ==> items[..n][k] == items[k];
      assert c in ClaimsOf(items[n]) ==> 0 <= n < |items|;
    }
  }

  lemma AgreeSplits(fold: Fold, a: seq<Claim>, b: seq<Claim>)
    ensures AllAgree(fold, a + b) <==>
            && AllAgree(fold, a) && AllAgree(fold, b)
            && forall c, d :: c in a && d in b ==> Agree(fold, c, d)
  {
    hide Agree;
    var s := a + b;
    if AllAgree(fold, s) {
      assert forall i :: 0 <= i < |a| ==> a[i] == s[i];
      assert forall i :: 0 <= i < |b| ==> b[i] == s[|a| + i];
    }
  }

  lemma {:induction false} ClaimsAgreeAsItems(fold: Fold, items: seq<WeaveItem>)
    ensures AllAgree(fold, AllClaims(items)) <==> Compatible(fold, items)
  {
    hide Agree, ClaimsOf, ItemsAgree, AllAgree;
    if items == [] {
      assert AllAgree(fold, []) by { NothingDisagrees(fold); }
    } else {
      var n := |items| - 1;
      var earlier, item := items[..n], items[n];
      ClaimsAgreeAsItems(fold, earlier);
      AgreeSplits(fold, AllClaims(earlier), ClaimsOf(item));
      OneItemAgrees(fold, item);
      CrossAgree(fold, earlier, item);
      assert forall k :: 0 <= k < n ==> earlier[k] == items[k];
    }
  }

  lemma NothingDisagrees(fold: Fold)
    ensures AllAgree(fold, []) && HoldsFirsts(fold, [], map[])
  {
  }

  lemma CrossAgree(fold: Fold, earlier: seq<WeaveItem>, item: WeaveItem)
    ensures (forall c, d :: c in AllClaims(earlier) && d in ClaimsOf(item) ==> Agree(fold, c, d))
            <==> forall k :: 0 <= k < |earlier| ==> ItemsAgree(fold, earlier[k], item)
  {
    hide Agree, ClaimsOf, AllClaims;
    forall c ensures c in AllClaims(earlier) <==> exists k :: 0 <= k < |earlier| && c in ClaimsOf(earlier[k]) {
      ClaimOwner(earlier, c);
    }
  }

  // --- Order does not matter ---------------------------------------------------------------------------

  /** Every two different members agree, and so does a member that occurs twice with itself. */
  ghost predicate CompatibleBag(fold: Fold, bag: multiset<WeaveItem>) {
    forall a, b :: a in bag && b in bag && (a != b || bag[a] >= 2) ==> ItemsAgree(fold, a, b)
  }

  lemma AgreeIsSymmetric(fold: Fold, a: WeaveItem, b: WeaveItem)
    ensures ItemsAgree(fold, a, b) <==> ItemsAgree(fold, b, a)
  {
  }

  lemma {:induction false} TwoPlaces(items: seq<WeaveItem>, a: WeaveItem) returns (i: nat, j: nat)
    requires multiset(items)[a] >= 2
    ensures i < j < |items| && items[i] == a && items[j] == a
  {
    var n := |items| - 1;
    assert items == items[..n] + [items[n]];
    if items[n] == a {
      assert multiset(items[..n])[a] >= 1;
      i :| 0 <= i < n && items[..n][i] == a;
      j := n;
    } else {
      i, j := TwoPlaces(items[..n], a);
    }
  }

  lemma {:induction false} TwiceCounted(items: seq<WeaveItem>, i: nat, j: nat)
    requires i < j < |items| && items[i] == items[j]
    ensures multiset(items)[items[i]] >= 2
  {
    assert items == items[..j] + [items[j]] + items[j + 1..];
    assert items[..j][i] in multiset(items[..j]);
  }

  lemma CompatibleAsBag(fold: Fold, items: seq<WeaveItem>)
    ensures Compatible(fold, items) <==> CompatibleBag(fold, multiset(items))
  {
    hide ItemsAgree;
    var bag := multiset(items);
    if Compatible(fold, items) {
      forall a, b | a in bag && b in bag && (a != b || bag[a] >= 2) ensures ItemsAgree(fold, a, b) {
        var i, j;
        if a != b {
          i :| 0 <= i < |items| && items[i] == a;
          j :| 0 <= j < |items| && items[j] == b;
        } else {
          i, j := TwoPlaces(items, a);
        }
        AgreeIsSymmetric(fold, a, b);
      }
    }
    if CompatibleBag(fold, bag) {
      forall i, j | 0 <= i < j < |items| ensures ItemsAgree(fold, items[i], items[j]) {
        if items[i] == items[j] { TwiceCounted(items, i, j); }
        assert items[i] in bag && items[j] in bag;
      }
    }
  }

  /** Whether anything collides does not depend on the order of the items. */
  lemma OrderDoesNotMatter(fold: Fold, items: seq<WeaveItem>, shuffled: seq<WeaveItem>)
    requires multiset(items) == multiset(shuffled)
    ensures MeetAll(fold, AllClaims(items)).collisions == [] <==> MeetAll(fold, AllClaims(shuffled)).collisions == []
  {
    CollisionsAreExact(fold, items);
    CollisionsAreExact(fold, shuffled);
    CompatibleAsBag(fold, items);
    CompatibleAsBag(fold, shuffled);
  }

  lemma CollisionsAreExact(fold: Fold, items: seq<WeaveItem>)
    ensures MeetAll(fold, AllClaims(items)).collisions == [] <==> Compatible(fold, items)
  {
    MeetAllIs(fold, AllClaims(items));
    ClaimsAgreeAsItems(fold, items);
  }

  // --- What is reported, and what it means ---------------------------------------------------------------

  /**
   * A claim `d` is reported against an earlier `c` on the same folded path: two directories spelled
   * differently, an ancestor that is a file, two files, or a file and a directory.
   */
  ghost predicate Describes(x: Collision, c: Claim, d: Claim) {
    && x.destPath == d.path && x.a == c.origin && x.b == d.origin
    && (if c.kind == Directory && d.kind == Directory then c.path != d.path && x.reason == CaseClash
        else if d.ancestor then x.reason == AncestorConflict
        else if c.kind == File && d.kind == File then x.reason == TwoFiles
        else x.reason == FileVersusDirectory)
  }

  /** The `k`th claim is reported against the `i`th, the first on its folded path. */
  ghost predicate Reports(fold: Fold, claims: seq<Claim>, i: nat, k: nat, x: Collision) {
    i < k < |claims| && FirstFor(fold, claims, Key(fold, claims[k].path), i) && Describes(x, claims[i], claims[k])
  }

  lemma FirstForGrows(fold: Fold, claims: seq<Claim>, claim: Claim, key: Path, i: nat)
    ensures i < |claims| ==> (FirstFor(fold, claims + [claim], key, i) <==> FirstFor(fold, claims, key, i))
  {
    hide Key;
    assert forall j :: 0 <= j < |claims| ==> (claims + [claim])[j] == claims[j];
  }

  lemma ReportsGrow(fold: Fold, claims: seq<Claim>, claim: Claim, i: nat, k: nat, x: Collision)
    requires k < |claims|
    ensures Reports(fold, claims + [claim], i, k, x) <==> Reports(fold, claims, i, k, x)
  {
    hide Key, FirstFor;
    assert (claims + [claim])[k] == claims[k];
    if i < |claims| {
      assert (claims + [claim])[i] == claims[i];
      FirstForGrows(fold, claims, claim, Key(fold, claims[k].path), i);
    }
  }

  /** Of the claims on one folded path exactly one is the first. */
  lemma FirstIsUnique(fold: Fold, claims: seq<Claim>, key: Path, i: nat, j: nat)
    requires FirstFor(fold, claims, key, i) && FirstFor(fold, claims, key, j)
    ensures i == j
  {
    hide Key;
  }

  /** Meeting a claim reports it against the one its path has, if they disagree. */
  lemma MeetReports(fold: Fold, found: Found, claim: Claim)
    ensures var key, after := Key(fold, claim.path), Meet(fold, found, claim).collisions;
      && (key !in found.nodes ==> after == found.collisions)
      && (key in found.nodes ==>
            && (forall x :: Describes(x, found.nodes[key], claim) ==> after == found.collisions + [x])
            && ((forall x :: !Describes(x, found.nodes[key], claim)) ==> after == found.collisions)
            && (after == found.collisions || exists x :: Describes(x, found.nodes[key], claim) && after == found.collisions + [x]))
  {
    hide Key;
    var key := Key(fold, claim.path);
    if key in found.nodes {
      var c := found.nodes[key];
      if !(c.kind == Directory && claim.kind == Directory && c.path == claim.path) {
        assert Describes(Collision(claim.path, c.origin, claim.origin, ReasonFor(c, claim)), c, claim);
      }
    }
  }

  lemma FirstOf(fold: Fold, claims: seq<Claim>, nodes: map<Path, Claim>, key: Path) returns (i: nat)
    requires HoldsFirsts(fold, claims, nodes) && key in nodes
    ensures FirstFor(fold, claims, key, i) && claims[i] == nodes[key]
  {
    i :| FirstFor(fold, claims, key, i) && claims[i] == nodes[key];
  }

  lemma NoFirst(fold: Fold, claims: seq<Claim>, nodes: map<Path, Claim>, key: Path, i: nat)
    requires HoldsFirsts(fold, claims, nodes) && key !in nodes
    ensures !FirstFor(fold, claims, key, i)
  {
  }

  lemma NewIs(fold: Fold, earlier: seq<Claim>, claim: Claim, i: nat, x: Collision)
    ensures Reports(fold, earlier + [claim], i, |earlier|, x) <==>
            FirstFor(fold, earlier, Key(fold, claim.path), i) && Describes(x, earlier[i], claim)
  {
    hide Key, Describes, FirstFor;
    FirstInside(fold, earlier, Key(fold, claim.path), i);
    if i < |earlier| {
      FirstForGrows(fold, earlier, claim, Key(fold, claim.path), i);
      assert (earlier + [claim])[i] == earlier[i];
    }
  }

  lemma FirstInside(fold: Fold, claims: seq<Claim>, key: Path, i: nat)
    ensures FirstFor(fold, claims, key, i) ==> i < |claims|
  {
  }

  /** What the newest claim is reported as. */
  lemma NewReport(fold: Fold, earlier: seq<Claim>, claim: Claim, x: Collision)
    requires HoldsFirsts(fold, earlier, MeetAll(fold, earlier).nodes)
    ensures x in Meet(fold, MeetAll(fold, earlier), claim).collisions <==>
            x in MeetAll(fold, earlier).collisions || exists i: nat :: Reports(fold, earlier + [claim], i, |earlier|, x)
  {
    hide Key, MeetAll, Describes, Meet, FirstFor, HoldsFirsts, Reports;
    var found, key := MeetAll(fold, earlier), Key(fold, claim.path);
    MeetReports(fold, found, claim);
    forall i: nat { NewIs(fold, earlier, claim, i, x); }
    if key in found.nodes {
      var i := FirstOf(fold, earlier, found.nodes, key);
      forall j: nat | FirstFor(fold, earlier, key, j) ensures j == i { FirstIsUnique(fold, earlier, key, i, j); }
    } else {
      forall i: nat { NoFirst(fold, earlier, found.nodes, key, i); }
    }
  }

  /** Exactly these collisions are reported: each claim that disagrees with the first on its folded path. */
  lemma {:induction false} ReportedExactly(fold: Fold, claims: seq<Claim>, x: Collision)
    ensures x in MeetAll(fold, claims).collisions <==> exists i: nat, k: nat :: Reports(fold, claims, i, k, x)
  {
    hide Key, Meet, Reports, HoldsFirsts;
    if claims == [] {
      forall i: nat, k: nat ensures !Reports(fold, claims, i, k, x) { NothingReports(fold, i, k, x); }
    } else {
      var n := |claims| - 1;
      var earlier, claim := claims[..n], claims[n];
      assert claims == earlier + [claim];
      ReportedExactly(fold, earlier, x);
      MeetAllIs(fold, earlier);
      NewReport(fold, earlier, claim, x);
      forall i: nat, k: nat | k < n { ReportsGrow(fold, earlier, claim, i, k, x); }
      forall i: nat, k: nat | Reports(fold, claims, i, k, x) ensures k <= n { ReportsInside(fold, claims, i, k, x); }
      forall i: nat, k: nat | Reports(fold, earlier, i, k, x) ensures k < n { ReportsInside(fold, earlier, i, k, x); }
    }
  }

  lemma NothingReports(fold: Fold, i: nat, k: nat, x: Collision)
    ensures !Reports(fold, [], i, k, x)
  {
  }

  lemma ReportsInside(fold: Fold, claims: seq<Claim>, i: nat, k: nat, x: Collision)
    requires Reports(fold, claims, i, k, x)
    ensures i < k < |claims|
  {
  }

  /**
   * Two items can live side by side exactly when, wherever their paths fold to the same one, both
   * spell it the same, and an item whose whole path it is is a directory there.
   */
  ghost predicate SideBySide(fold: Fold, a: WeaveItem, b: WeaveItem) {
    forall n :: (0 <= n <= |a.destPath| && n <= |b.destPath| && (n > 0 || (a.destPath == [] && b.destPath == []))
                 && Key(fold, a.destPath[..n]) == Key(fold, b.destPath[..n])) ==>
        && a.destPath[..n] == b.destPath[..n]
        && (n == |a.destPath| ==> a.kind == Directory) && (n == |b.destPath| ==> b.kind == Directory)
  }

  /** The claims of an item, by the length of their paths. */
  lemma ClaimsAre(item: WeaveItem, c: Claim)
    ensures c in ClaimsOf(item) <==>
            || (c == Claim(item.destPath, item.kind, item.origin, false))
            || (exists n :: 0 < n < |item.destPath| && c == Claim(item.destPath[..n], Directory, item.origin, true))
  {
    AncestorsAre(item, Above(item));
    var above := Ancestors(item, Above(item));
    if c in above {
      var k :| 0 <= k < |above| && above[k] == c;
      assert 0 < k + 1 < |item.destPath| && c == Claim(item.destPath[..k + 1], Directory, item.origin, true);
    }
    if n :| 0 < n < |item.destPath| && c == Claim(item.destPath[..n], Directory, item.origin, true) {
      assert above[n - 1] == c;
    }
  }

  lemma ItemsAgreeExactly(fold: Fold, a: WeaveItem, b: WeaveItem)
    ensures ItemsAgree(fold, a, b) <==> SideBySide(fold, a, b)
  {
    hide Key, ClaimsOf;
    forall c { ClaimsAre(a, c); }
    forall c { ClaimsAre(b, c); }
    if ItemsAgree(fold, a, b) {
      forall n | 0 <= n <= |a.destPath| && n <= |b.destPath| && (n > 0 || (a.destPath == [] && b.destPath == []))
        && Key(fold, a.destPath[..n]) == Key(fold, b.destPath[..n])
        ensures a.destPath[..n] == b.destPath[..n]
        ensures (n == |a.destPath| ==> a.kind == Directory) && (n == |b.destPath| ==> b.kind == Directory)
      {
        var c := ClaimAt(a, n);
        var d := ClaimAt(b, n);
        assert Agree(fold, c, d);
      }
    }
    if SideBySide(fold, a, b) {
      forall c, d | c in ClaimsOf(a) && d in ClaimsOf(b) ensures Agree(fold, c, d) {
        assert c.path == a.destPath[..|c.path|] && d.path == b.destPath[..|d.path|];
        assert |Key(fold, c.path)| == |c.path| && |Key(fold, d.path)| == |d.path|;
      }
    }
  }

  /** The claim of an item on the first `n` segments of its path. */
  lemma ClaimAt(item: WeaveItem, n: nat) returns (c: Claim)
    requires n <= |item.destPath| && (n > 0 || item.destPath == [])
    ensures c in ClaimsOf(item) && c.path == item.destPath[..n]
    ensures n == |item.destPath| ==> c.kind == item.kind
    ensures n < |item.destPath| ==> c.kind == Directory
  {
    c := if n == |item.destPath| then Claim(item.destPath, item.kind, item.origin, false)
         else Claim(item.destPath[..n], Directory, item.origin, true);
    ClaimsAre(item, c);
    assert n == |item.destPath| ==> item.destPath[..n] == item.destPath;
  }

  // --- The detector as the source runs it ----------------------------------------------------------------

  /** No collision is reported exactly when every two items can live side by side. */
  method DetectCollisions(items: seq<WeaveItem>, fold: Fold) returns (collisions: seq<Collision>)
    ensures collisions == [] <==> Compatible(fold, items)
    ensures collisions == MeetAll(fold, AllClaims(items)).collisions
  {
    hide Meet, Key, Compatible;
    var nodes: map<Path, Claim> := map[];
    collisions := [];
    for i := 0 to |items|
      invariant Found(nodes, collisions) == MeetAll(fold, AllClaims(items[..i]))
    {
      var item := items[i];
      var before := AllClaims(items[..i]);
      nodes, collisions := MeetAncestors(fold, before, item, nodes, collisions);
      MeetNext(fold, before + Ancestors(item, Above(item)), Own(item));
      assert items[..i + 1][..i] == items[..i];
      Associative(before, Ancestors(item, Above(item)), [Own(item)]);
      nodes, collisions := MeetOwn(fold, item, nodes, collisions);
    }
    assert items[..|items|] == items;
    CollisionsAreExact(fold, items);
  }

  method MeetAncestors(fold: Fold, ghost before: seq<Claim>, item: WeaveItem, nodesIn: map<Path, Claim>, collisionsIn: seq<Collision>)
    returns (nodes: map<Path, Claim>, collisions: seq<Collision>)
    requires Found(nodesIn, collisionsIn) == MeetAll(fold, before)
    ensures Found(nodes, collisions) == MeetAll(fold, before + Ancestors(item, Above(item)))
  {
    hide MeetAll, Key;
    nodes, collisions := nodesIn, collisionsIn;
    assert before + Ancestors(item, 0) == before;
    for index := 1 to Above(item) + 1
      invariant Found(nodes, collisions) == MeetAll(fold, before + Ancestors(item, index - 1))
    {
      var ancestor := item.destPath[..index];
      MeetNext(fold, before + Ancestors(item, index - 1), Claim(ancestor, Directory, item.origin, true));
      Associative(before, Ancestors(item, index - 1), [Claim(ancestor, Directory, item.origin, true)]);
      var key := Key(fold, ancestor);
      if key !in nodes {
        nodes := nodes[key := Claim(ancestor, Directory, item.origin, true)];
      } else if nodes[key].kind == File {
        collisions := collisions + [Collision(ancestor, nodes[key].origin, item.origin, AncestorConflict)];
      } else if nodes[key].path != ancestor {
        collisions := collisions + [Collision(ancestor, nodes[key].origin, item.origin, CaseClash)];
      }
    }
  }

  method MeetOwn(fold: Fold, item: WeaveItem, nodesIn: map<Path, Claim>, collisionsIn: seq<Collision>)
    returns (nodes: map<Path, Claim>, collisions: seq<Collision>)
    ensures Found(nodes, collisions) == Meet(fold, Found(nodesIn, collisionsIn), Own(item))
  {
    nodes, collisions := nodesIn, collisionsIn;
    var full := item.destPath;
    var key := Key(fold, full);
    if key !in nodes {
      nodes := nodes[key := Own(item)];
    } else if nodes[key].kind == Directory && item.kind == Directory {
      if nodes[key].path != full {
        collisions := collisions + [Collision(full, nodes[key].origin, item.origin, CaseClash)];
      }
    } else if nodes[key].kind == File && item.kind == File {
      collisions := collisions + [Collision(full, nodes[key].origin, item.origin, TwoFiles)];
    } else {
      collisions := collisions + [Collision(full, nodes[key].origin, item.origin, FileVersusDirectory)];
    }
  }
}
