/** Sequences without repetition, their sizes, and the keys of a map in order. */
module Collections {

  ghost predicate Distinct<T>(s: seq<T>) {
    forall i, j :: 0 <= i < j < |s| ==> s[i] != s[j]
  }

  lemma JoinDistinct<T>(a: seq<T>, b: seq<T>)
    requires Distinct(a) && Distinct(b) && forall x :: x in b ==> x !in a
    ensures Distinct(a + b)
  {
    assert forall i :: 0 <= i < |a| ==> a[i] in a;
    assert forall i :: 0 <= i < |b| ==> b[i] in b;
  }

  lemma SubsetSize<T>(a: set<T>, b: set<T>)
    requires a <= b
    ensures |a| <= |b|
  {
    assert b == a + (b - a);
  }

  lemma AtMostOneMore<T>(a: set<T>, b: set<T>, x: T)
    requires a <= b + {x}
    ensures |a| <= |b| + 1
  {
    SubsetSize(a, b + {x});
  }

  /** A sequence without repetition has as many elements as the set of them. */
  lemma {:induction false} SizeOfElements<T>(s: seq<T>, elements: set<T>)
    requires Distinct(s) && forall x :: x in elements <==> x in s
    ensures |elements| == |s|
    decreases |s|
  {
    if s == [] {
      assert forall x :: x !in elements;
      assert elements == {};
    } else {
      var last := s[|s| - 1];
      assert s == s[..|s| - 1] + [last];
      SizeOfElements(s[..|s| - 1], elements - {last});
    }
  }

  /** So it has no more elements than any set that contains them. */
  lemma DistinctFit<T>(s: seq<T>, within: set<T>)
    requires Distinct(s) && forall x :: x in s ==> x in within
    ensures |s| <= |within|
  {
    var elements := set x | x in s;
    SizeOfElements(s, elements);
    SubsetSize(elements, within);
  }

  /** Some element of the sequence has the property. */
  ghost predicate Any<T>(s: seq<T>, p: T -> bool) {
    exists i :: 0 <= i < |s| && p(s[i])
  }

  /** It is the last, or one of the others. */
  lemma AnyLast<T>(s: seq<T>, p: T -> bool)
    requires s != []
    ensures Any(s, p) <==> Any(s[..|s| - 1], p) || p(s[|s| - 1])
  {
    var n := |s| - 1;
    assert forall i :: 0 <= i < n ==> s[..n][i] == s[i];
  }

  lemma {:induction false} LeastExists(s: set<int>)
    requires s != {}
    ensures exists least :: least in s && forall x :: x in s ==> least <= x
    decreases |s|
  {
    if forall x: int :: x !in s { assert false; }
    var x :| x in s;
    var rest := s - {x};
    if rest == {} {
      assert s == {x};
    } else {
      assert |rest| < |s|;
      LeastExists(rest);
      var y :| y in rest && forall z :: z in rest ==> y <= z;
      var least := if x < y then x else y;
      assert forall z :: z in s ==> z == x || z in rest;
      assert least in s && forall z :: z in s ==> least <= z;
    }
  }

  ghost predicate Ascending(xs: seq<int>) {
    forall i, j :: 0 <= i < j < |xs| ==> xs[i] < xs[j]
  }

  /** The keys of a map, sorted. */
  method SortedKeys(tiers: set<int>) returns (keys: seq<int>)
    ensures Ascending(keys) && forall t :: t in keys <==> t in tiers
  {
    keys := [];
    var rest := tiers;
    while rest != {}
      invariant Ascending(keys) && forall t :: t in tiers <==> t in keys || t in rest
      invariant forall i, t :: 0 <= i < |keys| && t in rest ==> keys[i] < t
      decreases |rest|
    {
      LeastExists(rest);
      var least :| least in rest && forall x :: x in rest ==> least <= x;
      keys := keys + [least];
      rest := rest - {least};
    }
  }
}
