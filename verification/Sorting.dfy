/** Sorting natural numbers. */
module Sorting {
  function Insert(s: seq<nat>, x: nat): (v: seq<nat>)
    ensures |v| == |s| + 1
  {
    if s == [] || x <= s[0] then [x] + s else [s[0]] + Insert(s[1..], x)
  }

  function Sort(s: seq<nat>): (v: seq<nat>)
    ensures |v| == |s|
  {
    if s == [] then [] else Insert(Sort(s[..|s| - 1]), s[|s| - 1])
  }

  ghost predicate Sorted(s: seq<nat>) {
    forall i, j :: 0 <= i < j < |s| ==> s[i] <= s[j]
  }

  ghost predicate StrictlySorted(s: seq<nat>) {
    forall i, j :: 0 <= i < j < |s| ==> s[i] < s[j]
  }

  function Elements(s: seq<nat>): set<nat> {
    set x | x in s
  }

  lemma {:induction false} InsertIsPermutation(s: seq<nat>, x: nat)
    ensures multiset(Insert(s, x)) == multiset(s) + multiset{x}
  {
    if s != [] && x > s[0] {
      InsertIsPermutation(s[1..], x);
      assert s == [s[0]] + s[1..];
    }
  }

  lemma {:induction false} InsertKeepsSorted(s: seq<nat>, x: nat)
    requires Sorted(s)
    ensures Sorted(Insert(s, x))
  {
    if s != [] && x > s[0] {
      InsertKeepsSorted(s[1..], x);
      InsertIsPermutation(s[1..], x);
      var t := Insert(s[1..], x);
      forall i | 0 <= i < |t| ensures s[0] <= t[i] {
        assert t[i] in multiset(t);
        assert t[i] != x ==> t[i] in s[1..];
      }
    }
  }

  lemma {:induction false} SortFacts(s: seq<nat>)
    ensures Sorted(Sort(s)) && multiset(Sort(s)) == multiset(s)
  {
    if s != [] {
      var n := |s| - 1;
      SortFacts(s[..n]);
      InsertIsPermutation(Sort(s[..n]), s[n]);
      InsertKeepsSorted(Sort(s[..n]), s[n]);
      assert s == s[..n] + [s[n]];
    }
  }

  // How many of `s` are less than x.
  function CountBelow(s: seq<nat>, x: nat): (n: nat)
    ensures n <= |s|
  {
    if s == [] then 0 else CountBelow(s[1..], x) + if s[0] < x then 1 else 0
  }

  lemma {:induction false} CountBelowConcat(s: seq<nat>, t: seq<nat>, x: nat)
    ensures CountBelow(s + t, x) == CountBelow(s, x) + CountBelow(t, x)
  {
    if s == [] {
      assert s + t == t;
    } else {
      CountBelowConcat(s[1..], t, x);
      assert (s + t)[1..] == s[1..] + t;
    }
  }

  lemma {:induction false} InsertCounts(s: seq<nat>, y: nat, x: nat)
    ensures CountBelow(Insert(s, y), x) == CountBelow(s, x) + CountBelow([y], x)
  {
    if s == [] || y <= s[0] {
      CountBelowConcat([y], s, x);
    } else {
      InsertCounts(s[1..], y, x);
      assert Insert(s, y)[1..] == Insert(s[1..], y);
    }
  }

  lemma {:induction false} SortCounts(s: seq<nat>, x: nat)
    ensures CountBelow(Sort(s), x) == CountBelow(s, x)
  {
    if s != [] {
      var n := |s| - 1;
      SortCounts(s[..n], x);
      InsertCounts(Sort(s[..n]), s[n], x);
      CountBelowConcat(s[..n], [s[n]], x);
      assert s == s[..n] + [s[n]];
    }
  }

  lemma {:induction false} NoneBelow(s: seq<nat>, x: nat)
    requires forall i :: 0 <= i < |s| ==> x <= s[i]
    ensures CountBelow(s, x) == 0
  {
    if s != [] {
      NoneBelow(s[1..], x);
    }
  }

  lemma {:induction false} AllBelow(s: seq<nat>, x: nat)
    requires forall i :: 0 <= i < |s| ==> s[i] < x
    ensures CountBelow(s, x) == |s|
  {
    if s != [] {
      AllBelow(s[1..], x);
    }
  }

  // The element at place i of a sorted list has at most i elements below it, and
  // more than i at or below it.
  lemma RankOfPlace(v: seq<nat>, i: nat)
    requires Sorted(v) && i < |v|
    ensures CountBelow(v, v[i]) <= i < CountBelow(v, v[i] + 1)
  {
    hide CountBelow;
    assert v == v[..i] + v[i..];
    CountBelowConcat(v[..i], v[i..], v[i]);
    NoneBelow(v[i..], v[i]);
    assert v == v[..i + 1] + v[i + 1..];
    CountBelowConcat(v[..i + 1], v[i + 1..], v[i] + 1);
    AllBelow(v[..i + 1], v[i] + 1);
  }

  ghost predicate HasRank(s: seq<nat>, x: nat, i: nat) {
    CountBelow(s, x) <= i < CountBelow(s, x + 1)
  }

  lemma {:induction false} CountBelowGrows(s: seq<nat>, x: nat, y: nat)
    requires x <= y
    ensures CountBelow(s, x) <= CountBelow(s, y)
  {
    if s != [] {
      CountBelowGrows(s[1..], x, y);
    }
  }

  // Sorting puts at place i the one value of rank i.
  lemma SortRanks(s: seq<nat>, i: nat)
    requires i < |s|
    ensures Sort(s)[i] in s && forall x: nat :: x == Sort(s)[i] <==> HasRank(s, x, i)
  {
    hide CountBelow, Sort;
    var y := Sort(s)[i];
    SortFacts(s);
    assert y in multiset(Sort(s));
    RankOfPlace(Sort(s), i);
    SortCounts(s, y);
    SortCounts(s, y + 1);
    forall x: nat | HasRank(s, x, i) ensures x == y {
      if x < y {
        CountBelowGrows(s, x + 1, y);
      } else if y < x {
        CountBelowGrows(s, y + 1, x);
      }
    }
  }

  // Adding a new number to a strictly sorted list and sorting again.
  lemma SortAddsOne(s: seq<nat>, x: nat)
    requires StrictlySorted(s) && x !in s
    ensures StrictlySorted(Sort(s + [x])) && Elements(Sort(s + [x])) == Elements(s) + {x}
  {
    var v := Sort(s + [x]);
    SortFacts(s + [x]);
    forall y ensures y in v <==> y in s || y == x {
      assert y in multiset(v) <==> y in multiset(s + [x]);
    }
    assert x !in multiset(s) && multiset(s + [x]) == multiset(s) + multiset{x};
    forall y ensures multiset(v)[y] <= 1 {
      OnceCounts(s, y);
    }
    forall i, j | 0 <= i < j < |v| ensures v[i] < v[j] {
      if v[i] == v[j] {
        TwiceCounts(v, i, j);
      }
    }
  }

  lemma TwiceCounts(v: seq<nat>, i: nat, j: nat)
    requires i < j < |v| && v[i] == v[j]
    ensures multiset(v)[v[i]] >= 2
  {
    assert v == v[..j] + [v[j]] + v[j + 1..];
    assert v[i] in v[..j];
  }

  lemma {:induction false} OnceCounts(s: seq<nat>, y: nat)
    requires StrictlySorted(s)
    ensures multiset(s)[y] <= 1
  {
    if s != [] {
      var n := |s| - 1;
      OnceCounts(s[..n], y);
      assert s == s[..n] + [s[n]];
      if y == s[n] {
        assert y !in multiset(s[..n]);
      }
    }
  }

  // A strictly sorted list is determined by its elements.
  lemma {:induction false} SortedIsUnique(a: seq<nat>, b: seq<nat>)
    requires StrictlySorted(a) && StrictlySorted(b) && Elements(a) == Elements(b)
    ensures a == b
  {
    assert b != [] ==> b[0] in Elements(b);
    if a != [] {
      assert a[0] in Elements(b);
      assert b[0] in Elements(a);
      var a', b' := a[1..], b[1..];
      assert Elements(a') == Elements(a) - {a[0]} && Elements(b') == Elements(b) - {b[0]} by {
        assert forall x :: x in a' ==> x in a && x != a[0];
        assert forall x :: x in b' ==> x in b && x != b[0];
      }
      SortedIsUnique(a', b');
      assert a == [a[0]] + a' && b == [b[0]] + b';
    }
  }
}
