// What libc qsort leaves behind: the ascending rearrangement of the input,
// which is unique, so no property depends on how qsort works inside.
module Sorting {

  ghost predicate Ascending(s: seq<int>) {
    forall i, j :: 0 <= i < j < |s| ==> s[i] <= s[j]
  }

  function Insert(s: seq<int>, x: int): (r: seq<int>)
    ensures |r| == |s| + 1
  {
    if s == [] || x <= s[0] then [x] + s else [s[0]] + Insert(s[1..], x)
  }

  function SortAscending(s: seq<int>): (r: seq<int>)
    ensures |r| == |s|
  {
    if s == [] then [] else Insert(SortAscending(s[1..]), s[0])
  }

  lemma {:induction false} InsertElements(s: seq<int>, x: int)
    ensures multiset(Insert(s, x)) == multiset(s) + multiset{x}
  {
    if s != [] && s[0] < x {
      InsertElements(s[1..], x);
      assert s == [s[0]] + s[1..];
    }
  }

  lemma {:induction false} AscendingCons(x: int, s: seq<int>)
    requires Ascending(s) && forall i :: 0 <= i < |s| ==> x <= s[i]
    ensures Ascending([x] + s)
  {
  }

  lemma {:induction false} InsertSorts(s: seq<int>, x: int)
    requires Ascending(s)
    ensures Ascending(Insert(s, x))
    ensures forall i :: 0 <= i <= |s| ==> Insert(s, x)[i] == x || Insert(s, x)[i] in s
  {
    if s == [] || x <= s[0] {
      AscendingCons(x, s);
    } else {
      InsertSorts(s[1..], x);
      AscendingCons(s[0], Insert(s[1..], x));
    }
  }

  /** The result is ascending and has exactly the input's elements, each as often. */
  lemma {:induction false} SortSorts(s: seq<int>)
    ensures Ascending(SortAscending(s)) && multiset(SortAscending(s)) == multiset(s)
  {
    if s != [] {
      SortSorts(s[1..]);
      InsertSorts(SortAscending(s[1..]), s[0]);
      InsertElements(SortAscending(s[1..]), s[0]);
      assert s == [s[0]] + s[1..];
    }
  }

  lemma {:induction false} FirstIsLeast(s: seq<int>, x: int)
    requires Ascending(s) && x in multiset(s)
    ensures s != [] && s[0] <= x
  {
    assert x in s;
  }

  lemma {:induction false} DropFirst(s: seq<int>)
    requires s != []
    ensures multiset(s[1..]) == multiset(s) - multiset{s[0]}
    ensures Ascending(s) ==> Ascending(s[1..])
  {
    assert s == [s[0]] + s[1..];
  }

  lemma {:induction false} SameFirst(a: seq<int>, b: seq<int>)
    requires Ascending(a) && Ascending(b) && multiset(a) == multiset(b)
    ensures |a| == |b| && (a != [] ==> a[0] == b[0])
  {
    assert |a| == |multiset(a)| == |multiset(b)| == |b|;
    if a != [] {
      FirstIsLeast(b, a[0]);
      FirstIsLeast(a, b[0]);
    }
  }

  lemma {:induction false} SameFirstAndRest(a: seq<int>, b: seq<int>)
    requires a != [] && b != [] && a[0] == b[0] && a[1..] == b[1..]
    ensures a == b
  {
    assert a == [a[0]] + a[1..] && b == [b[0]] + b[1..];
  }

  /** Two ascending sequences with the same elements are equal: qsort has one possible result. */
  lemma {:induction false} AscendingUnique(a: seq<int>, b: seq<int>)
    requires Ascending(a) && Ascending(b) && multiset(a) == multiset(b)
    ensures a == b
  {
    SameFirst(a, b);
    hide Ascending;
    if a != [] {
      DropFirst(a);
      DropFirst(b);
      assert multiset(a[1..]) == multiset(b[1..]);
      AscendingUnique(a[1..], b[1..]);
      SameFirstAndRest(a, b);
    }
  }

  /** `qsort(a, n, ...)` with an ascending comparison, on the first n elements. */
  method Qsort(a: array<int>, n: nat)
    requires n <= a.Length
    modifies a
    ensures a[..n] == SortAscending(old(a[..n])) && a[n..] == old(a[n..])
  {
    var sorted := SortAscending(a[..n]);
    for i := 0 to n
      invariant a[..i] == sorted[..i] && a[n..] == old(a[n..])
    {
      a[i] := sorted[i];
    }
  }
}
