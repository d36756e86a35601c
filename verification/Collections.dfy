// Small vocabulary shared by every module.
module Collections {
  datatype Option<+T> = None | Some(value: T)

  datatype Result<+R, +E> = Ok(value: R) | Err(error: E)

  function Elems<T>(s: seq<T>): set<T> {
    set x | x in s
  }

  predicate NoDuplicates<T(==)>(s: seq<T>) {
    forall i, j :: 0 <= i < j < |s| ==> s[i] != s[j]
  }

  predicate Sorted(s: seq<nat>) {
    forall i, j :: 0 <= i < j < |s| ==> s[i] < s[j]
  }

  ghost predicate IsMinimum(m: nat, s: set<nat>) {
    m in s && forall x :: x in s ==> m <= x
  }

  lemma {:induction false} MinimumExists(s: set<nat>)
    requires s != {}
    ensures exists m :: IsMinimum(m, s)
  {
    var y :| y in s;
    var rest := s - {y};
    assert s == rest + {y};
    if rest == {} {
      assert IsMinimum(y, s);
    } else {
      MinimumExists(rest);
      var m :| IsMinimum(m, rest);
      assert IsMinimum(if m <= y then m else y, s);
    }
  }

  function Minimum(s: set<nat>): (m: nat)
    requires s != {}
    ensures IsMinimum(m, s)
  {
    MinimumExists(s);
    var m :| m in s && forall x :: x in s ==> m <= x;
    m
  }

  /** The members of `s` in increasing order, once each. */
  function SortSet(s: set<nat>): seq<nat> {
    if s == {} then [] else [Minimum(s)] + SortSet(s - {Minimum(s)})
  }

  lemma {:induction false} SortSetMembers(s: set<nat>)
    ensures forall x :: x in SortSet(s) <==> x in s
    ensures Elems(SortSet(s)) == s
  {
    if s != {} {
      var m := Minimum(s);
      SortSetMembers(s - {m});
      assert forall x :: x in s <==> x == m || x in s - {m};
    }
  }

  lemma {:induction false} SortSetSorted(s: set<nat>)
    ensures Sorted(SortSet(s))
    ensures NoDuplicates(SortSet(s))
  {
    if s != {} {
      var m := Minimum(s);
      SortSetSorted(s - {m});
      SortSetMembers(s - {m});
      var rest := SortSet(s - {m});
      assert forall i :: 0 <= i < |rest| ==> rest[i] in s - {m};
      assert SortSet(s) == [m] + rest;
    }
  }

  lemma Associative<T>(a: seq<T>, b: seq<T>, c: seq<T>)
    ensures a + (b + c) == a + b + c
  {
  }
}
