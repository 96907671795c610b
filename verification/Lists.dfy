/** Filtering, mapping and ordering of sequences, as comprehensions, WHERE and ORDER BY need them. */
module Lists {

  function Filter<T>(s: seq<T>, keep: T -> bool): (r: seq<T>)
    ensures |r| <= |s|
  {
    if s == [] then []
    else Filter(s[..|s| - 1], keep) + (if keep(s[|s| - 1]) then [s[|s| - 1]] else [])
  }

  function Apply<S, T>(f: S -> T, s: seq<S>): (r: seq<T>)
    ensures |r| == |s|
    ensures forall i :: 0 <= i < |s| ==> r[i] == f(s[i])
  {
    seq(|s|, i requires 0 <= i < |s| => f(s[i]))
  }

  lemma {:induction false} FilterMembers<T>(s: seq<T>, keep: T -> bool, x: T)
    ensures x in Filter(s, keep) <==> x in s && keep(x)
  {
    if s != [] {
      FilterMembers(s[..|s| - 1], keep, x);
      assert s == s[..|s| - 1] + [s[|s| - 1]];
    }
  }

  lemma {:induction false} FilterTwice<T>(s: seq<T>, p: T -> bool, q: T -> bool, both: T -> bool)
    requires forall x :: x in s ==> both(x) == (p(x) && q(x))
    ensures Filter(Filter(s, p), q) == Filter(s, both)
  {
    if s != [] {
      var (front, last) := (s[..|s| - 1], s[|s| - 1]);
      assert last in s && forall x :: x in front ==> x in s;
      FilterTwice(front, p, q, both);
      if p(last) {
        var f := Filter(front, p) + [last];
        assert f[..|f| - 1] == Filter(front, p);
      } else {
        assert Filter(s, p) == Filter(front, p);
      }
    }
  }

  /** Filtering by a property of the image is filtering the images. */
  lemma {:induction false} FilterOfApply<S, T>(s: seq<S>, f: S -> T, p: S -> bool, q: T -> bool)
    requires forall x :: x in s ==> p(x) == q(f(x))
    ensures Apply(f, Filter(s, p)) == Filter(Apply(f, s), q)
  {
    if s != [] {
      var (front, last) := (s[..|s| - 1], s[|s| - 1]);
      assert last in s && forall x :: x in front ==> x in s;
      FilterOfApply(front, f, p, q);
      assert Apply(f, s)[..|s| - 1] == Apply(f, front);
      var kept := Filter(front, p);
      assert Apply(f, kept + [last]) == Apply(f, kept) + [f(last)];
    }
  }

  lemma {:induction false} FilterSame<T>(s: seq<T>, p: T -> bool, q: T -> bool)
    requires forall x :: x in s ==> p(x) == q(x)
    ensures Filter(s, p) == Filter(s, q)
  {
    if s != [] {
      assert s[|s| - 1] in s && forall x :: x in s[..|s| - 1] ==> x in s;
      FilterSame(s[..|s| - 1], p, q);
    }
  }

  lemma {:induction false} FilterAll<T>(s: seq<T>, p: T -> bool)
    requires forall x :: x in s ==> p(x)
    ensures Filter(s, p) == s
  {
    if s != [] {
      assert s[|s| - 1] in s && forall x :: x in s[..|s| - 1] ==> x in s;
      FilterAll(s[..|s| - 1], p);
      assert s == s[..|s| - 1] + [s[|s| - 1]];
    }
  }

  lemma {:induction false} FilterConcat<T>(s: seq<T>, t: seq<T>, p: T -> bool)
    ensures Filter(s + t, p) == Filter(s, p) + Filter(t, p)
  {
    if t == [] {
      assert s + t == s;
    } else {
      FilterConcat(s, t[..|t| - 1], p);
      assert (s + t)[..|s + t| - 1] == s + t[..|t| - 1];
    }
  }

  // ---- Order ----

  /** `a` may stand before `b`. */
  predicate InOrder(a: int, b: int, descending: bool) {
    if descending then a >= b else a <= b
  }

  ghost predicate Sorted<T>(s: seq<T>, key: T -> int, descending: bool) {
    forall i, j :: 0 <= i < j < |s| ==> InOrder(key(s[i]), key(s[j]), descending)
  }

  /** Some way ORDER BY may arrange the rows; among equal keys any order is possible. */
  ghost predicate IsOrdering<T>(full: seq<T>, rows: seq<T>, key: T -> int, descending: bool) {
    multiset(full) == multiset(rows) && Sorted(full, key, descending)
  }

  /** Python's stable sort: each element goes behind those it may not precede, equals included. */
  function Insert<T>(s: seq<T>, x: T, key: T -> int, descending: bool): (r: seq<T>) {
    if s == [] || InOrder(key(s[|s| - 1]), key(x), descending) then s + [x]
    else Insert(s[..|s| - 1], x, key, descending) + [s[|s| - 1]]
  }

  function StableSort<T>(s: seq<T>, key: T -> int, descending: bool): (r: seq<T>) {
    if s == [] then [] else Insert(StableSort(s[..|s| - 1], key, descending), s[|s| - 1], key, descending)
  }

  lemma {:induction false} InsertKeepsElements<T>(s: seq<T>, x: T, key: T -> int, descending: bool)
    ensures multiset(Insert(s, x, key, descending)) == multiset(s) + multiset{x}
  {
    if s != [] {
      InsertKeepsElements(s[..|s| - 1], x, key, descending);
      assert s == s[..|s| - 1] + [s[|s| - 1]];
    }
  }

  lemma SortedAppend<T>(s: seq<T>, x: T, key: T -> int, descending: bool)
    requires Sorted(s, key, descending) && forall y :: y in s ==> InOrder(key(y), key(x), descending)
    ensures Sorted(s + [x], key, descending)
  {
    assert forall i :: 0 <= i < |s| ==> s[i] in s;
  }

  lemma {:induction false} InsertSorts<T>(s: seq<T>, x: T, key: T -> int, descending: bool)
    requires Sorted(s, key, descending)
    ensures Sorted(Insert(s, x, key, descending), key, descending)
  {
    if s == [] || InOrder(key(s[|s| - 1]), key(x), descending) {
      SortedAppend(s, x, key, descending);
    } else {
      var (front, last) := (s[..|s| - 1], s[|s| - 1]);
      InsertSorts(front, x, key, descending);
      InsertKeepsElements(front, x, key, descending);
      forall y | y in Insert(front, x, key, descending)
        ensures InOrder(key(y), key(last), descending)
      {
        assert y in multiset(Insert(front, x, key, descending));
      }
      SortedAppend(Insert(front, x, key, descending), last, key, descending);
    }
  }

  lemma {:induction false} StableSortIsOrdering<T>(s: seq<T>, key: T -> int, descending: bool)
    ensures IsOrdering(StableSort(s, key, descending), s, key, descending)
  {
    if s != [] {
      var (front, last) := (s[..|s| - 1], s[|s| - 1]);
      StableSortIsOrdering(front, key, descending);
      InsertSorts(StableSort(front, key, descending), last, key, descending);
      InsertKeepsElements(StableSort(front, key, descending), last, key, descending);
      assert s == front + [last];
    }
  }

  lemma {:induction false} InsertIsStable<T>(s: seq<T>, x: T, key: T -> int, descending: bool, same: T -> bool)
    requires Sorted(s, key, descending) && forall y, z :: same(y) && same(z) ==> key(y) == key(z)
    ensures Filter(Insert(s, x, key, descending), same) == if same(x) then Filter(s, same) + [x] else Filter(s, same)
  {
    if s == [] || InOrder(key(s[|s| - 1]), key(x), descending) {
      FilterSnoc(s, x, same);
    } else {
      var (front, last) := (s[..|s| - 1], s[|s| - 1]);
      assert same(x) ==> !same(last);
      InsertIsStable(front, x, key, descending, same);
      var t := Insert(front, x, key, descending);
      assert Insert(s, x, key, descending) == t + [last] && s == front + [last];
      hide *;
      FilterSnoc(t, last, same);
      FilterSnoc(front, last, same);
    }
  }

  lemma FilterSnoc<T>(s: seq<T>, x: T, keep: T -> bool)
    ensures Filter(s + [x], keep) == if keep(x) then Filter(s, keep) + [x] else Filter(s, keep)
  {
    assert (s + [x])[..|s|] == s;
  }

  /** Elements with equal keys keep the order they had. */
  lemma {:induction false} StableSortIsStable<T>(s: seq<T>, key: T -> int, descending: bool, same: T -> bool)
    requires forall y, z :: same(y) && same(z) ==> key(y) == key(z)
    ensures Filter(StableSort(s, key, descending), same) == Filter(s, same)
  {
    if s != [] {
      var (front, last) := (s[..|s| - 1], s[|s| - 1]);
      StableSortIsStable(front, key, descending, same);
      StableSortIsOrdering(front, key, descending);
      InsertIsStable(StableSort(front, key, descending), last, key, descending, same);
    }
  }

  /** `OFFSET`/`LIMIT`, and Python's slice with non-negative bounds. */
  function Page<T>(s: seq<T>, offset: nat, limit: nat): (r: seq<T>)
    ensures |r| == if |s| <= offset then 0 else if |s| - offset <= limit then |s| - offset else limit
    ensures forall i :: 0 <= i < |r| ==> r[i] == s[offset + i]
  {
    var low := if offset <= |s| then offset else |s|;
    var high := if offset + limit <= |s| then offset + limit else |s|;
    s[low..high]
  }

  lemma PageOfApply<S, T>(f: S -> T, s: seq<S>, offset: nat, limit: nat)
    ensures Apply(f, Page(s, offset, limit)) == Page(Apply(f, s), offset, limit)
  {
  }

  function Without<T>(s: seq<T>, i: nat): seq<T>
    requires i < |s|
  {
    s[..i] + s[i + 1..]
  }

  lemma WithoutOne<T>(s: seq<T>, i: nat)
    requires i < |s|
    ensures multiset(s) == multiset(Without(s, i)) + multiset{s[i]}
  {
    assert s == s[..i] + [s[i]] + s[i + 1..];
  }

  lemma ApplyWithout<S, T>(f: S -> T, s: seq<S>, i: nat)
    requires i < |s|
    ensures Apply(f, Without(s, i)) == Without(Apply(f, s), i)
  {
  }

  lemma {:induction false} ApplyKeepsMultisets<S, T>(f: S -> T, s: seq<S>, t: seq<S>)
    requires multiset(s) == multiset(t)
    ensures multiset(Apply(f, s)) == multiset(Apply(f, t))
    decreases |s|
  {
    if s == [] {
      assert |multiset(t)| == 0;
    } else {
      assert s[0] in multiset(t);
      var i :| 0 <= i < |t| && t[i] == s[0];
      WithoutOne(s, 0);
      WithoutOne(t, i);
      assert multiset(Without(s, 0)) == multiset(s) - multiset{s[0]};
      assert multiset(Without(t, i)) == multiset(t) - multiset{s[0]};
      ApplyKeepsMultisets(f, Without(s, 0), Without(t, i));
      ApplyWithout(f, s, 0);
      ApplyWithout(f, t, i);
      WithoutOne(Apply(f, s), 0);
      WithoutOne(Apply(f, t), i);
    }
  }

  /** Orderings survive a map that keeps the key. */
  lemma OrderingOfApply<S, T>(f: S -> T, full: seq<S>, rows: seq<S>, key: S -> int, key': T -> int, descending: bool)
    requires IsOrdering(full, rows, key, descending)
    requires forall x :: x in full ==> key(x) == key'(f(x))
    ensures IsOrdering(Apply(f, full), Apply(f, rows), key', descending)
  {
    ApplyKeepsMultisets(f, full, rows);
  }

  /** Two sorted lists of the same numbers are the same list. */
  lemma {:induction false} SortedIsUnique(s: seq<int>, t: seq<int>, descending: bool)
    requires multiset(s) == multiset(t)
    requires forall i, j :: 0 <= i < j < |s| ==> InOrder(s[i], s[j], descending)
    requires forall i, j :: 0 <= i < j < |t| ==> InOrder(t[i], t[j], descending)
    ensures s == t
  {
    assert |s| == |multiset(s)| == |multiset(t)| == |t|;
    if s != [] {
      assert s[0] in multiset(t) && t[0] in multiset(s);
      assert s[0] in t && t[0] in s;
      assert s[0] == t[0];
      assert s == [s[0]] + s[1..] && t == [t[0]] + t[1..];
      assert multiset(s[1..]) == multiset(s) - multiset{s[0]};
      assert multiset(t[1..]) == multiset(t) - multiset{t[0]};
      SortedIsUnique(s[1..], t[1..], descending);
    }
  }

  /** All orderings of the same rows agree on the keys, position by position. */
  lemma OrderingsAgreeOnKeys<T>(a: seq<T>, b: seq<T>, rows: seq<T>, key: T -> int, descending: bool)
    requires IsOrdering(a, rows, key, descending) && IsOrdering(b, rows, key, descending)
    ensures Apply(key, a) == Apply(key, b)
  {
    ApplyKeepsMultisets(key, a, b);
    SortedIsUnique(Apply(key, a), Apply(key, b), descending);
  }

  ghost predicate DistinctKeys<T>(rows: seq<T>, key: T -> int) {
    forall x, y :: x in rows && y in rows && key(x) == key(y) ==> x == y
  }

  /** Without ties there is only one ordering. */
  lemma OrderingIsUniqueWithoutTies<T>(a: seq<T>, b: seq<T>, rows: seq<T>, key: T -> int, descending: bool)
    requires IsOrdering(a, rows, key, descending) && IsOrdering(b, rows, key, descending)
    requires DistinctKeys(rows, key)
    ensures a == b
  {
    OrderingsAgreeOnKeys(a, b, rows, key, descending);
    forall i | 0 <= i < |a|
      ensures a[i] == b[i]
    {
      assert a[i] in multiset(rows) && b[i] in multiset(rows);
      assert Apply(key, a)[i] == Apply(key, b)[i];
    }
  }
}
