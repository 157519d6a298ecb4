/** The stable sort behind Go's sort.SliceStable, as a function, with the fact
    every caller relies on: on elements no two of which tie, the sorted list is
    determined by the elements alone, whatever order they arrived in. */
module Sorting {

  ghost predicate WeakOrder<T(!new)>(less: (T, T) -> bool) {
    && (forall a, b :: less(a, b) ==> !less(b, a))
    && (forall a, b, c :: less(a, b) && !less(c, b) ==> less(a, c))
  }

  ghost predicate Sorted<T>(s: seq<T>, less: (T, T) -> bool) {
    forall i, j :: 0 <= i < j < |s| ==> !less(s[j], s[i])
  }

  /** No two different elements tie. */
  ghost predicate Tieless<T>(s: seq<T>, less: (T, T) -> bool) {
    forall a, b :: a in s && b in s && a != b ==> less(a, b) || less(b, a)
  }

  function Insert<T>(x: T, s: seq<T>, less: (T, T) -> bool): (r: seq<T>)
    ensures multiset(r) == multiset{x} + multiset(s)
  {
    if s == [] || !less(s[0], x) then [x] + s
    else
      assert s == [s[0]] + s[1..];
      [s[0]] + Insert(x, s[1..], less)
  }

  function Sort<T>(s: seq<T>, less: (T, T) -> bool): (r: seq<T>)
    ensures multiset(r) == multiset(s)
  {
    if s == [] then []
    else
      assert s == [s[0]] + s[1..];
      Insert(s[0], Sort(s[1..], less), less)
  }

  lemma SameElements<T>(a: seq<T>, b: seq<T>)
    requires multiset(a) == multiset(b)
    ensures |a| == |b|
    ensures forall x :: x in a <==> x in b
  {
    assert |multiset(a)| == |a| && |multiset(b)| == |b|;
    forall x ensures x in a <==> x in b {
      assert x in a <==> x in multiset(a);
      assert x in b <==> x in multiset(b);
    }
  }

  lemma SortElements<T>(s: seq<T>, less: (T, T) -> bool)
    ensures |Sort(s, less)| == |s|
    ensures forall x :: x in Sort(s, less) <==> x in s
  {
    SameElements(Sort(s, less), s);
  }

  lemma {:induction false} InsertSorted<T(!new)>(x: T, s: seq<T>, less: (T, T) -> bool)
    requires WeakOrder(less) && Sorted(s, less)
    ensures Sorted(Insert(x, s, less), less)
  {
    var r := Insert(x, s, less);
    if s == [] {
    } else if !less(s[0], x) {
      forall i, j | 0 <= i < j < |r| ensures !less(r[j], r[i]) {
        if i == 0 && j > 1 {
          assert !less(s[j - 1], s[0]);
        }
      }
    } else {
      var t := Insert(x, s[1..], less);
      InsertSorted(x, s[1..], less);
      forall j | 0 <= j < |t| ensures !less(t[j], s[0]) {
        assert t[j] in multiset{x} + multiset(s[1..]);
        if t[j] != x {
          assert t[j] in s[1..];
        }
      }
    }
  }

  lemma {:induction false} SortSorted<T(!new)>(s: seq<T>, less: (T, T) -> bool)
    requires WeakOrder(less)
    ensures Sorted(Sort(s, less), less)
  {
    if s != [] {
      SortSorted(s[1..], less);
      InsertSorted(s[0], Sort(s[1..], less), less);
    }
  }

  lemma SortedHead<T(!new)>(a: seq<T>, b: seq<T>, less: (T, T) -> bool)
    requires Sorted(a, less) && Sorted(b, less) && Tieless(a, less)
    requires |a| == |b| > 0 && forall x :: x in a <==> x in b
    ensures a[0] == b[0]
  {
    assert a[0] in a && b[0] in b;
    var i :| 0 <= i < |a| && a[i] == b[0];
    var j :| 0 <= j < |b| && b[j] == a[0];
    assert i == 0 || !less(b[0], a[0]);
    assert j == 0 || !less(a[0], b[0]);
  }

  lemma TailMultiset<T>(a: seq<T>)
    requires a != []
    ensures multiset(a[1..]) == multiset(a) - multiset{a[0]}
  {
    assert a == [a[0]] + a[1..];
  }

  lemma TailSorted<T(!new)>(a: seq<T>, less: (T, T) -> bool)
    requires a != [] && Sorted(a, less)
    ensures Sorted(a[1..], less)
  {
    forall i, j | 0 <= i < j < |a[1..]| ensures !less(a[1..][j], a[1..][i]) {
      assert !less(a[j + 1], a[i + 1]);
    }
  }

  lemma TailTieless<T(!new)>(a: seq<T>, less: (T, T) -> bool)
    requires a != [] && Tieless(a, less)
    ensures Tieless(a[1..], less)
  {
    assert forall x :: x in a[1..] ==> x in a;
  }

  /** Two sorted lists of the same elements are equal when nothing ties. */
  lemma {:induction false} SortedUnique<T(!new)>(a: seq<T>, b: seq<T>, less: (T, T) -> bool)
    requires Sorted(a, less) && Sorted(b, less) && Tieless(a, less)
    requires multiset(a) == multiset(b)
    ensures a == b
  {
    SameElements(a, b);
    if a != [] {
      SortedHead(a, b, less);
      TailMultiset(a);
      TailMultiset(b);
      TailSorted(a, less);
      TailSorted(b, less);
      TailTieless(a, less);
      SortedUnique(a[1..], b[1..], less);
      assert a == [a[0]] + a[1..] && b == [b[0]] + b[1..];
    }
  }

  /** Sorting forgets the order of arrival when nothing ties. */
  lemma SortForgetsOrder<T(!new)>(s: seq<T>, t: seq<T>, less: (T, T) -> bool)
    requires WeakOrder(less) && Tieless(s, less)
    requires multiset(s) == multiset(t)
    ensures Sort(s, less) == Sort(t, less)
  {
    SortSorted(s, less);
    SortSorted(t, less);
    SortElements(s, less);
    SortedUnique(Sort(s, less), Sort(t, less), less);
  }

  /** A sorted list is left as it is, so sorting twice is sorting once. */
  lemma {:induction false} SortOfSorted<T(!new)>(s: seq<T>, less: (T, T) -> bool)
    requires Sorted(s, less)
    ensures Sort(s, less) == s
  {
    if s != [] {
      SortOfSorted(s[1..], less);
      if |s| > 1 { assert !less(s[1], s[0]); }
    }
  }

  // ----- lists without repetitions ------------------------------------------

  ghost predicate NoRepeats<T>(s: seq<T>) {
    forall i, j :: 0 <= i < j < |s| ==> s[i] != s[j]
  }

  lemma AppendNoRepeats<T>(s: seq<T>, x: T)
    requires NoRepeats(s) && x !in s
    ensures NoRepeats(s + [x])
  {
  }

  lemma {:induction false} OnceEach<T>(s: seq<T>)
    requires NoRepeats(s)
    ensures forall x :: multiset(s)[x] == if x in s then 1 else 0
  {
    if s != [] {
      assert s == [s[0]] + s[1..];
      assert s[0] !in s[1..];
      OnceEach(s[1..]);
    }
  }

  lemma TwiceIsTwo<T>(s: seq<T>, i: nat, j: nat)
    requires i < j < |s| && s[i] == s[j]
    ensures multiset(s)[s[i]] >= 2
  {
    assert s == s[..j] + s[j..];
    assert s[i] == s[..j][i] && s[j] == s[j..][0];
    assert s[i] in multiset(s[..j]) && s[i] in multiset(s[j..]);
  }

  lemma NoRepeatsByMultiset<T>(a: seq<T>, b: seq<T>)
    requires NoRepeats(a) && multiset(a) == multiset(b)
    ensures NoRepeats(b)
  {
    OnceEach(a);
    forall i, j | 0 <= i < j < |b| ensures b[i] != b[j] {
      if b[i] == b[j] { TwiceIsTwo(b, i, j); }
    }
  }

  /** Lists without repetitions over the same elements are permutations of each other. */
  lemma SameSetSameMultiset<T>(a: seq<T>, b: seq<T>)
    requires NoRepeats(a) && NoRepeats(b) && forall x :: x in a <==> x in b
    ensures multiset(a) == multiset(b)
  {
    OnceEach(a);
    OnceEach(b);
  }

  /** Without ties or repetitions the sorted list is strictly increasing. */
  lemma SortStrict<T(!new)>(s: seq<T>, less: (T, T) -> bool)
    requires WeakOrder(less) && Tieless(s, less) && NoRepeats(s)
    ensures forall i, j :: 0 <= i < j < |Sort(s, less)| ==> less(Sort(s, less)[i], Sort(s, less)[j])
  {
    var t := Sort(s, less);
    SortSorted(s, less);
    SortElements(s, less);
    NoRepeatsByMultiset(s, t);
    forall i, j | 0 <= i < j < |t| ensures less(t[i], t[j]) {
      assert t[i] in s && t[j] in s;
    }
  }

  lemma EmptyOrInhabited<T>(s: seq<T>)
    ensures s == [] || exists x :: x in s
  {
    if s != [] { assert s[0] in s; }
  }

  /** Every finite set can be gone through in some order. */
  lemma Enumerate<T>(elements: set<T>) returns (order: seq<T>)
    ensures NoRepeats(order) && forall x :: x in order <==> x in elements
  {
    order := [];
    var todo := elements;
    while todo != {}
      invariant todo <= elements && NoRepeats(order) && forall x :: x in order <==> x in elements && x !in todo
      decreases todo
    {
      var x :| x in todo;
      order := order + [x];
      todo := todo - {x};
    }
  }
}
