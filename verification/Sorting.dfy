/** Sorting by a comparator: the result is the strictly ordered arrangement, and there is only one. */
module Sorting {

  /** `less` is a strict order that ranks any two different elements of `s`. */
  ghost predicate Ranks<T(!new)>(less: (T, T) -> bool, s: seq<T>) {
    && (forall x :: !less(x, x))
    && (forall x, y, z :: less(x, y) && less(y, z) ==> less(x, z))
    && (forall x, y :: x in s && y in s && x != y ==> less(x, y) || less(y, x))
  }

  ghost predicate Sorted<T>(s: seq<T>, less: (T, T) -> bool) {
    forall i, j :: 0 <= i < j < |s| ==> less(s[i], s[j])
  }

  ghost predicate NoRepeats<T>(s: seq<T>) {
    forall i, j :: 0 <= i < j < |s| ==> s[i] != s[j]
  }

  function Insert<T(==)>(x: T, s: seq<T>, less: (T, T) -> bool): seq<T> {
    if s == [] then [x]
    else if less(x, s[0]) then [x] + s
    else [s[0]] + Insert(x, s[1..], less)
  }

  function Sort<T(==)>(s: seq<T>, less: (T, T) -> bool): seq<T> {
    if s == [] then [] else Insert(s[0], Sort(s[1..], less), less)
  }

  lemma {:induction false} InsertKeeps<T(!new)>(x: T, s: seq<T>, less: (T, T) -> bool)
    ensures multiset(Insert(x, s, less)) == multiset(s) + multiset{x}
    ensures |Insert(x, s, less)| == |s| + 1
  {
    if s != [] {
      assert s == [s[0]] + s[1..];
      InsertKeeps(x, s[1..], less);
    }
  }

  lemma {:induction false} InsertSorts<T(!new)>(x: T, s: seq<T>, less: (T, T) -> bool)
    requires Ranks(less, [x] + s) && Sorted(s, less) && x !in s
    ensures Sorted(Insert(x, s, less), less)
  {
    if s == [] {
    } else if less(x, s[0]) {
    } else {
      var r := Insert(x, s[1..], less);
      assert s[0] in [x] + s && x in [x] + s;
      assert less(s[0], x);
      forall y, z | y in [x] + s[1..] && z in [x] + s[1..] && y != z
        ensures less(y, z) || less(z, y)
      {
        assert y in [x] + s && z in [x] + s;
      }
      InsertSorts(x, s[1..], less);
      InsertKeeps(x, s[1..], less);
      forall y | y in r
        ensures less(s[0], y)
      {
        assert y in multiset(r);
        assert y in multiset(s[1..]) || y == x;
      }
    }
  }

  lemma {:induction false} SortCorrect<T(!new)>(s: seq<T>, less: (T, T) -> bool)
    ensures multiset(Sort(s, less)) == multiset(s) && |Sort(s, less)| == |s|
    ensures forall x :: x in Sort(s, less) <==> x in s
    ensures Ranks(less, s) && NoRepeats(s) ==> Sorted(Sort(s, less), less)
  {
    if s != [] {
      assert s == [s[0]] + s[1..];
      var r := Sort(s[1..], less);
      SortCorrect(s[1..], less);
      InsertKeeps(s[0], r, less);
      if Ranks(less, s) && NoRepeats(s) {
        assert s[0] !in r;
        assert forall y :: y in [s[0]] + r ==> y in s;
        InsertSorts(s[0], r, less);
      }
    }
    forall x
      ensures x in Sort(s, less) <==> x in s
    {
      assert x in Sort(s, less) <==> x in multiset(Sort(s, less));
      assert x in s <==> x in multiset(s);
    }
  }

  lemma SortedHasNoRepeats<T(!new)>(s: seq<T>, less: (T, T) -> bool)
    requires Sorted(s, less) && forall x :: !less(x, x)
    ensures NoRepeats(s)
  {
  }

  lemma HasElement<T>(s: seq<T>)
    ensures s != [] <==> exists x :: x in s
  {
    if s != [] {
      assert s[0] in s;
    }
  }

  /** Two strictly sorted arrangements of the same elements are one and the same. */
  lemma {:induction false} SortedUnique<T(!new)>(s: seq<T>, t: seq<T>, less: (T, T) -> bool)
    requires Ranks(less, []) && Sorted(s, less) && Sorted(t, less)
    requires forall x :: x in s <==> x in t
    ensures s == t
  {
    HasElement(s);
    HasElement(t);
    if s != [] {
      assert s[0] in t && t[0] in s;
      assert s[0] == t[0];
      forall x
        ensures x in s[1..] <==> x in t[1..]
      {
        assert x in s[1..] ==> x in s && x != s[0];
        assert x in t[1..] ==> x in t && x != t[0];
      }
      SortedUnique(s[1..], t[1..], less);
      assert s == [s[0]] + s[1..] && t == [t[0]] + t[1..];
    }
  }

  /** One element the fewer on both sides. */
  lemma WithoutOne<T>(s: seq<T>, x: T, l: seq<T>, r: seq<T>)
    requires multiset(s) + multiset{x} == multiset(l + [x] + r)
    ensures multiset(s) == multiset(l + r)
  {
    assert multiset(l + [x] + r) == multiset(l) + multiset{x} + multiset(r);
    assert multiset(l + r) == multiset(l) + multiset(r);
    forall y
      ensures multiset(s)[y] == multiset(l + r)[y]
    {
      assert (multiset(s) + multiset{x})[y] == (multiset(l) + multiset{x} + multiset(r))[y];
    }
  }

  /** An element of the one is somewhere in the other. */
  lemma Around<T>(a: seq<T>, b: seq<T>, x: T) returns (l: seq<T>, r: seq<T>)
    requires multiset(a) == multiset(b) && x in a
    ensures b == l + [x] + r
  {
    assert x in multiset(a);
    var j :| 0 <= j < |b| && b[j] == x;
    l, r := b[..j], b[j + 1..];
  }

  /** What the tails have in common when the heads are the same. */
  lemma TailsAgree<T>(s: seq<T>, t: seq<T>)
    requires s != [] && t != [] && s[0] == t[0] && multiset(s) == multiset(t)
    ensures multiset(s[1..]) == multiset(t[1..])
  {
    assert t == [] + [t[0]] + t[1..] && s == [s[0]] + s[1..];
    WithoutOne(s[1..], s[0], [], t[1..]);
    assert [] + t[1..] == t[1..];
  }
}
