/** Stable sorting by an order given as a function, and what determines a sorted list. */
module Sorting {
  function Insert<T(!new)>(less: (T, T) -> bool, e: T, s: seq<T>): (r: seq<T>)
    ensures multiset(r) == multiset{e} + multiset(s)
    ensures forall x :: x in r <==> x == e || x in s
  {
    if s != [] && less(s[0], e) then
      assert s == [s[0]] + s[1..];
      [s[0]] + Insert(less, e, s[1..])
    else [e] + s
  }

  function Sort<T(!new)>(less: (T, T) -> bool, s: seq<T>): (r: seq<T>)
    ensures multiset(r) == multiset(s)
    ensures forall x :: x in r <==> x in s
  {
    if s == [] then []
    else
      assert s == [s[0]] + s[1..];
      Insert(less, s[0], Sort(less, s[1..]))
  }

  /** One element may stand before another: what sorting needs of an order. */
  ghost predicate IsOrder<T(!new)>(less: (T, T) -> bool) {
    && (forall a, b :: less(a, b) ==> !less(b, a))
    && (forall a, b, c :: !less(b, a) && !less(c, b) ==> !less(c, a))
  }

  /** And only equal elements are unordered. */
  ghost predicate IsTotal<T(!new)>(less: (T, T) -> bool) {
    forall a, b :: less(a, b) || less(b, a) || a == b
  }

  ghost predicate Sorted<T>(less: (T, T) -> bool, s: seq<T>) {
    forall i, j :: 0 <= i < j < |s| ==> !less(s[j], s[i])
  }

  ghost predicate StrictlySorted<T>(less: (T, T) -> bool, s: seq<T>) {
    forall i, j :: 0 <= i < j < |s| ==> less(s[i], s[j])
  }

  lemma {:induction false} InsertSorts<T(!new)>(less: (T, T) -> bool, e: T, s: seq<T>)
    requires IsOrder(less) && Sorted(less, s)
    ensures Sorted(less, Insert(less, e, s))
  {
    var r := Insert(less, e, s);
    if s != [] && less(s[0], e) {
      InsertSorts(less, e, s[1..]);
      forall j | 1 <= j < |r| ensures !less(r[j], r[0]) {
        assert r[j] in Insert(less, e, s[1..]);
        assert r[j] == e || r[j] in s[1..];
      }
    } else if s != [] {
      forall j | 1 <= j < |r| ensures !less(r[j], e) {
        assert j > 1 ==> !less(r[j], s[0]);
      }
    }
  }

  lemma {:induction false} SortSorts<T(!new)>(less: (T, T) -> bool, s: seq<T>)
    requires IsOrder(less)
    ensures Sorted(less, Sort(less, s))
  {
    if s != [] {
      SortSorts(less, s[1..]);
      InsertSorts(less, s[0], Sort(less, s[1..]));
    }
  }

  /** A sorted list is left as it is. */
  lemma {:induction false} SortOfSorted<T(!new)>(less: (T, T) -> bool, s: seq<T>)
    requires Sorted(less, s)
    ensures Sort(less, s) == s
  {
    if s != [] {
      SortOfSorted(less, s[1..]);
    }
  }

  /** Elements of which one always stands before the other are sorted strictly. */
  lemma {:induction false} InsertStrictly<T(!new)>(less: (T, T) -> bool, e: T, s: seq<T>)
    requires IsOrder(less) && StrictlySorted(less, s) && forall x :: x in s ==> less(x, e) || less(e, x)
    ensures StrictlySorted(less, Insert(less, e, s))
  {
    var r := Insert(less, e, s);
    if s != [] && less(s[0], e) {
      InsertStrictly(less, e, s[1..]);
      forall j | 1 <= j < |r| ensures less(r[0], r[j]) {
        assert r[j] in Insert(less, e, s[1..]);
        assert r[j] == e || r[j] in s[1..];
      }
    } else if s != [] {
      assert s[0] in s;
      forall j | 1 <= j < |r| ensures less(e, r[j]) {
        if j > 1 {
          LessThrough(less, e, s[0], r[j]);
        }
      }
    }
  }

  lemma LessThrough<T(!new)>(less: (T, T) -> bool, a: T, b: T, c: T)
    requires IsOrder(less) && less(a, b) && less(b, c)
    ensures less(a, c)
  {
    assert !less(c, b);
  }

  /** A strictly sorted list is determined by its members. */
  lemma {:induction false} StrictListsAgree<T(!new)>(less: (T, T) -> bool, s: seq<T>, t: seq<T>)
    requires IsOrder(less) && StrictlySorted(less, s) && StrictlySorted(less, t) && forall x :: x in s <==> x in t
    ensures s == t
  {
    if s == [] {
      FirstIsMember(t);
    } else {
      FirstIsMember(s);
      FirstIsMember(t);
      FirstIsLeast(less, s, t[0]);
      FirstIsLeast(less, t, s[0]);
      assert s[0] == t[0];
      forall x ensures x in s[1..] <==> x in t[1..] {
        InTail(less, s, x);
        InTail(less, t, x);
      }
      StrictListsAgree(less, s[1..], t[1..]);
    }
  }

  lemma FirstIsMember<T>(s: seq<T>)
    ensures s != [] ==> s[0] in s
  {
  }

  lemma FirstIsLeast<T>(less: (T, T) -> bool, s: seq<T>, x: T)
    requires StrictlySorted(less, s) && x in s
    ensures x == s[0] || less(s[0], x)
  {
  }

  lemma InTail<T(!new)>(less: (T, T) -> bool, s: seq<T>, x: T)
    requires IsOrder(less) && StrictlySorted(less, s) && s != []
    ensures x in s[1..] <==> x in s && x != s[0]
  {
    assert s == [s[0]] + s[1..];
  }

  /** Under a total order a sorted list is determined by how often each element is in it. */
  lemma {:induction false} SortedListsAgree<T(!new)>(less: (T, T) -> bool, s: seq<T>, t: seq<T>)
    requires IsOrder(less) && IsTotal(less) && Sorted(less, s) && Sorted(less, t) && multiset(s) == multiset(t)
    ensures s == t
  {
    if s == [] {
      assert |multiset(t)| == 0;
    } else {
      assert |multiset(t)| == |s|;
      assert s[0] in multiset(s) && t[0] in multiset(t);
      NoneBefore(less, s, t[0]);
      NoneBefore(less, t, s[0]);
      TailCounts(s);
      TailCounts(t);
      SortedListsAgree(less, s[1..], t[1..]);
    }
  }

  lemma NoneBefore<T(!new)>(less: (T, T) -> bool, s: seq<T>, x: T)
    requires IsOrder(less) && Sorted(less, s) && x in multiset(s)
    ensures !less(x, s[0])
  {
    assert x in s;
  }

  lemma TailCounts<T>(s: seq<T>)
    requires s != []
    ensures multiset(s[1..]) == multiset(s) - multiset{s[0]}
  {
    assert s == [s[0]] + s[1..];
  }
}
