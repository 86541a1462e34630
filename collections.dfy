/** Sequence helpers shared by the models: Python's list comprehension with a
    condition, duplicate-freedom, and `sorted()` over lists and sets for an
    order given as a function `lt` (Python's `<`). */
module Collections {

  /** `[x for x in s if keep(x)]`. */
  function Filter<T(!new)>(s: seq<T>, keep: T -> bool): (r: seq<T>)
    ensures |r| <= |s|
    ensures forall x :: x in r <==> x in s && keep(x)
  {
    if |s| == 0 then [] else (if keep(s[0]) then [s[0]] else []) + Filter(s[1..], keep)
  }

  /** Filtering works piece by piece, so it keeps the order of what it keeps. */
  lemma {:induction false} FilterConcat<T(!new)>(a: seq<T>, b: seq<T>, keep: T -> bool)
    ensures Filter(a + b, keep) == Filter(a, keep) + Filter(b, keep)
  {
    if |a| > 0 {
      assert (a + b)[1..] == a[1..] + b;
      FilterConcat(a[1..], b, keep);
    } else {
      assert a + b == b;
    }
  }

  /** A filter that no element passes keeps nothing. */
  lemma {:induction false} FilterNone<T(!new)>(s: seq<T>, keep: T -> bool)
    requires forall x :: x in s ==> !keep(x)
    ensures Filter(s, keep) == []
  {
    if |s| > 0 {
      assert forall x :: x in s[1..] ==> x in s;
      FilterNone(s[1..], keep);
    }
  }

  /** No element occurs twice. */
  predicate NoDup<T(==)>(s: seq<T>)
  {
    forall i, j :: 0 <= i < j < |s| ==> s[i] != s[j]
  }

  ghost predicate Irreflexive<T(!new)>(lt: (T, T) -> bool)
  {
    forall a :: !lt(a, a)
  }

  ghost predicate Transitive<T(!new)>(lt: (T, T) -> bool)
  {
    forall a, b, c :: lt(a, b) && lt(b, c) ==> lt(a, c)
  }

  /** `lt` is a strict partial order, which is all a stable insertion sort needs. */
  ghost predicate StrictOrder<T(!new)>(lt: (T, T) -> bool)
  {
    Irreflexive(lt) && Transitive(lt)
  }

  /** Any two different values are ordered one way or the other. */
  ghost predicate Total<T(!new)>(lt: (T, T) -> bool)
  {
    forall a, b :: a != b ==> lt(a, b) || lt(b, a)
  }

  /** No later element is strictly smaller than an earlier one. */
  ghost predicate Sorted<T(!new)>(lt: (T, T) -> bool, s: seq<T>)
  {
    forall i, j :: 0 <= i < j < |s| ==> !lt(s[j], s[i])
  }

  /** Every element is strictly smaller than every later one. */
  ghost predicate StrictlySorted<T(!new)>(lt: (T, T) -> bool, s: seq<T>)
  {
    forall i, j :: 0 <= i < j < |s| ==> lt(s[i], s[j])
  }

  /** Puts `x` before the first element strictly greater than it, that is,
      after every element it is not smaller than (so equal keys keep their order). */
  function Insert<T(!new)>(lt: (T, T) -> bool, s: seq<T>, x: T): (r: seq<T>)
    ensures multiset(r) == multiset(s) + multiset{x}
  {
    if |s| == 0 then [x]
    else if lt(x, s[0]) then [x] + s
    else
      assert s == [s[0]] + s[1..];
      [s[0]] + Insert(lt, s[1..], x)
  }

  lemma SortedCons<T(!new)>(lt: (T, T) -> bool, a: T, t: seq<T>)
    requires Sorted(lt, t)
    requires forall y :: y in multiset(t) ==> !lt(y, a)
    ensures Sorted(lt, [a] + t)
  {
    var s := [a] + t;
    forall i, j | 0 <= i < j < |s| ensures !lt(s[j], s[i]) {
      if i == 0 {
        assert s[j] == t[j - 1] && s[j] in multiset(t);
      } else {
        assert s[i] == t[i - 1] && s[j] == t[j - 1];
      }
    }
  }

  /** Inserting into a sorted list keeps it sorted. */
  lemma {:induction false} InsertSorted<T(!new)>(lt: (T, T) -> bool, s: seq<T>, x: T)
    requires StrictOrder(lt)
    requires Sorted(lt, s)
    ensures Sorted(lt, Insert(lt, s, x))
  {
    if |s| == 0 {
    } else if lt(x, s[0]) {
      forall y | y in multiset(s) ensures !lt(y, x) {
        var k :| 0 <= k < |s| && s[k] == y;
      }
      SortedCons(lt, x, s);
    } else {
      assert Sorted(lt, s[1..]) by {
        forall i, j | 0 <= i < j < |s[1..]| ensures !lt(s[1..][j], s[1..][i]) {
          assert s[1..][j] == s[j + 1] && s[1..][i] == s[i + 1];
        }
      }
      InsertSorted(lt, s[1..], x);
      var t := Insert(lt, s[1..], x);
      forall y | y in multiset(t) ensures !lt(y, s[0]) {
        if y != x {
          assert y in multiset(s[1..]);
          var k :| 0 <= k < |s[1..]| && s[1..][k] == y;
          assert s[k + 1] == y;
        }
      }
      SortedCons(lt, s[0], t);
    }
  }

  /** Python's stable `sorted(s)` for the order `lt`: insertion of the
      elements in their original order. */
  function InsertionSort<T(!new)>(lt: (T, T) -> bool, s: seq<T>): (r: seq<T>)
    ensures multiset(r) == multiset(s)
  {
    if |s| == 0 then []
    else
      assert s == s[..|s| - 1] + [s[|s| - 1]];
      Insert(lt, InsertionSort(lt, s[..|s| - 1]), s[|s| - 1])
  }

  /** The sort's result is sorted. */
  lemma {:induction false} InsertionSortSorted<T(!new)>(lt: (T, T) -> bool, s: seq<T>)
    requires StrictOrder(lt)
    ensures Sorted(lt, InsertionSort(lt, s))
  {
    if |s| > 0 {
      InsertionSortSorted(lt, s[..|s| - 1]);
      InsertSorted(lt, InsertionSort(lt, s[..|s| - 1]), s[|s| - 1]);
    }
  }

  /** `same` picks out elements of equal key for the order `lt`: none of
      them is below another, and each compares with other elements alike. */
  ghost predicate EqualKeys<T(!new)>(lt: (T, T) -> bool, same: T -> bool)
  {
    && (forall a, b :: same(a) && same(b) ==> !lt(a, b))
    && (forall a, b, c :: same(a) && same(b) && lt(a, c) ==> lt(b, c))
  }

  /** Inserting into a sorted list puts the new element after all elements
      of its key: the elements of one key keep their order. */
  lemma {:induction false} InsertStable<T(!new)>(lt: (T, T) -> bool, same: T -> bool, t: seq<T>, x: T)
    requires StrictOrder(lt) && EqualKeys(lt, same) && Sorted(lt, t)
    ensures Filter(Insert(lt, t, x), same) == Filter(t, same) + (if same(x) then [x] else [])
    decreases |t|, 1
  {
    if |t| == 0 {
      assert Filter([x], same) == (if same(x) then [x] else []) + Filter([x][1..], same);
    } else if lt(x, t[0]) {
      InsertFrontStable(lt, same, t, x);
    } else {
      InsertLaterStable(lt, same, t, x);
    }
  }

  lemma InsertFrontStable<T(!new)>(lt: (T, T) -> bool, same: T -> bool, t: seq<T>, x: T)
    requires StrictOrder(lt) && EqualKeys(lt, same) && Sorted(lt, t)
    requires |t| > 0 && lt(x, t[0])
    ensures Filter([x] + t, same) == Filter(t, same) + (if same(x) then [x] else [])
  {
      assert ([x] + t)[1..] == t;
      if same(x) {
        forall y | y in t ensures !same(y) {
          var j :| 0 <= j < |t| && t[j] == y;
        }
        FilterNone(t, same);
      }
  }

  lemma {:induction false} InsertLaterStable<T(!new)>(lt: (T, T) -> bool, same: T -> bool, t: seq<T>, x: T)
    requires StrictOrder(lt) && EqualKeys(lt, same) && Sorted(lt, t)
    requires |t| > 0 && !lt(x, t[0])
    ensures Filter([t[0]] + Insert(lt, t[1..], x), same) == Filter(t, same) + (if same(x) then [x] else [])
    decreases |t|, 0
  {
      var rest := t[1..];
      assert Sorted(lt, rest) by {
        forall i, j | 0 <= i < j < |rest| ensures !lt(rest[j], rest[i]) {
          assert rest[j] == t[j + 1] && rest[i] == t[i + 1];
        }
      }
      InsertStable(lt, same, rest, x);
      assert ([t[0]] + Insert(lt, rest, x))[1..] == Insert(lt, rest, x);
  }

  /** The sort is stable: the elements of each key keep their order. */
  lemma {:induction false} InsertionSortStable<T(!new)>(lt: (T, T) -> bool, same: T -> bool, s: seq<T>)
    requires StrictOrder(lt) && EqualKeys(lt, same)
    ensures Filter(InsertionSort(lt, s), same) == Filter(s, same)
  {
    if |s| > 0 {
      var init, last := s[..|s| - 1], s[|s| - 1];
      InsertionSortStable(lt, same, init);
      InsertionSortSorted(lt, init);
      InsertStable(lt, same, InsertionSort(lt, init), last);
      FilterLast(s, same);
    }
  }

  /** Filtering a non-empty list filters all but its last element, then the last. */
  lemma FilterLast<T(!new)>(s: seq<T>, keep: T -> bool)
    requires |s| > 0
    ensures Filter(s, keep) == Filter(s[..|s| - 1], keep) + (if keep(s[|s| - 1]) then [s[|s| - 1]] else [])
  {
    var last := s[|s| - 1];
    assert s == s[..|s| - 1] + [last];
    FilterConcat(s[..|s| - 1], [last], keep);
    assert Filter([last], keep) == (if keep(last) then [last] else []) + Filter([last][1..], keep);
  }

  /** A sorted list without duplicates is strictly sorted when `lt` is total. */
  lemma SortedDistinctIsStrict<T(!new)>(lt: (T, T) -> bool, s: seq<T>)
    requires Total(lt) && Sorted(lt, s) && NoDup(s)
    ensures StrictlySorted(lt, s)
  {
  }

  /** The head of a strictly sorted list is below every other element. */
  lemma HeadIsLeast<T(!new)>(lt: (T, T) -> bool, s: seq<T>, x: T)
    requires StrictlySorted(lt, s) && x in s
    ensures x == s[0] || lt(s[0], x)
  {
  }

  /** Strictly sorted lists are determined by their elements. */
  lemma {:induction false} StrictlySortedUnique<T(!new)>(lt: (T, T) -> bool, a: seq<T>, b: seq<T>)
    requires StrictOrder(lt)
    requires StrictlySorted(lt, a) && StrictlySorted(lt, b)
    requires forall x :: x in a <==> x in b
    ensures a == b
  {
    assert |a| > 0 ==> a[0] in b;
    assert |b| > 0 ==> b[0] in a;
    if |a| > 0 && |b| > 0 {
      HeadIsLeast(lt, b, a[0]);
      HeadIsLeast(lt, a, b[0]);
      assert a[0] == b[0];
      forall x ensures x in a[1..] <==> x in b[1..] {
        if x in a[1..] {
          var k :| 0 < k < |a| && a[k] == x;
          assert x != a[0];
          assert x in b;
        }
        if x in b[1..] {
          var k :| 0 < k < |b| && b[k] == x;
          assert x != b[0];
          assert x in a;
        }
      }
      StrictlySortedUnique(lt, a[1..], b[1..]);
      assert a == [a[0]] + a[1..] && b == [b[0]] + b[1..];
    }
  }

  /** The elements of a set in some order, each once. */
  ghost function SetToSeq<T(!new)>(s: set<T>): (r: seq<T>)
    ensures NoDup(r) && forall x :: x in r <==> x in s
    decreases |s|
  {
    if s == {} then []
    else
      var x :| x in s;
      var rest := SetToSeq(s - {x});
      assert forall j :: 1 <= j < |[x] + rest| ==> ([x] + rest)[j] == rest[j - 1];
      [x] + rest
  }

  /** Python's `sorted(s)` for a set: its elements in increasing order. */
  ghost function SortedSet<T(!new)>(lt: (T, T) -> bool, s: set<T>): (r: seq<T>)
    requires StrictOrder(lt) && Total(lt)
    ensures StrictlySorted(lt, r)
    ensures forall x :: x in r <==> x in s
  {
    var items := SetToSeq(s);
    var r := InsertionSort(lt, items);
    assert forall x :: x in r <==> x in multiset(items);
    InsertionSortSorted(lt, items);
    NoDupPermutation(items, r);
    SortedDistinctIsStrict(lt, r);
    r
  }

  /** `sorted(s)` for a set, computed by inserting its elements one by one
      into a sorted list. */
  method SortSet<T(!new)>(lt: (T, T) -> bool, s: set<T>) returns (r: seq<T>)
    requires StrictOrder(lt) && Total(lt)
    ensures r == SortedSet(lt, s)
  {
    r := [];
    var rest := s;
    while rest != {}
      invariant rest <= s
      invariant StrictlySorted(lt, r)
      invariant forall x :: x in r <==> x in s && x !in rest
      decreases |rest|
    {
      var x :| x in rest;
      InsertStrictlySorted(lt, r, x);
      r := Insert(lt, r, x);
      rest := rest - {x};
    }
    StrictlySortedUnique(lt, r, SortedSet(lt, s));
  }

  /** Inserting a new element into a strictly sorted list keeps it strictly
      sorted and adds exactly that element. */
  lemma InsertStrictlySorted<T(!new)>(lt: (T, T) -> bool, s: seq<T>, x: T)
    requires StrictOrder(lt) && Total(lt)
    requires StrictlySorted(lt, s) && x !in s
    ensures StrictlySorted(lt, Insert(lt, s, x))
    ensures forall y :: y in Insert(lt, s, x) <==> y in s || y == x
  {
    var r := Insert(lt, s, x);
    assert forall y :: y in r <==> y in multiset(r);
    InsertSorted(lt, s, x);
    var t := s + [x];
    assert multiset(t) == multiset(s) + multiset{x};
    assert NoDup(t) by {
      forall i, j | 0 <= i < j < |t| ensures t[i] != t[j] {
        if j == |s| { assert t[i] == s[i]; }
      }
    }
    NoDupPermutation(t, r);
    SortedDistinctIsStrict(lt, r);
  }

  /** A rearrangement of a duplicate-free list is duplicate-free. */
  lemma NoDupPermutation<T(!new)>(t: seq<T>, r: seq<T>)
    requires NoDup(t)
    requires multiset(r) == multiset(t)
    ensures NoDup(r)
  {
    forall i, j | 0 <= i < j < |r| ensures r[i] != r[j] {
      if r[i] == r[j] {
        TwoOccurrences(r, i, j);
        MultisetOfNoDup(t, r[i]);
        assert false;
      }
    }
  }

  lemma {:induction false} MultisetOfNoDup<T(!new)>(s: seq<T>, y: T)
    requires NoDup(s)
    ensures multiset(s)[y] <= 1
  {
    if |s| > 0 {
      assert s == [s[0]] + s[1..];
      assert NoDup(s[1..]) by {
        forall i, j | 0 <= i < j < |s[1..]| ensures s[1..][i] != s[1..][j] {
          assert s[1..][i] == s[i + 1] && s[1..][j] == s[j + 1];
        }
      }
      MultisetOfNoDup(s[1..], y);
      if y == s[0] {
        assert y !in s[1..];
        assert multiset(s[1..])[y] == 0;
      }
    }
  }

  lemma TwoOccurrences<T(!new)>(r: seq<T>, i: nat, j: nat)
    requires i < j < |r| && r[i] == r[j]
    ensures multiset(r)[r[i]] >= 2
  {
    var y := r[i];
    assert r == r[..j] + [r[j]] + r[j + 1..];
    assert r[i] in r[..j];
    assert multiset(r[..j])[y] >= 1;
    assert multiset(r) == multiset(r[..j]) + multiset{y} + multiset(r[j + 1..]);
  }
}
