/** Stable sorting by a comparator, the orders the source sorts by, and
    filtering. Rust's `sort`, `sort_by` and itertools' `sorted`/`sorted_by`
    are stable sorts; the model uses one stable insertion sort for all of them. */
module Sorting {

  ghost predicate TotalPreorder<T(!new)>(le: (T, T) -> bool) {
    && (forall a, b :: le(a, b) || le(b, a))
    && (forall a, b, c :: le(a, b) && le(b, c) ==> le(a, c))
  }

  ghost predicate SortedBy<T>(le: (T, T) -> bool, s: seq<T>) {
    forall i, j :: 0 <= i < j < |s| ==> le(s[i], s[j])
  }

  /** Insert x in front of the first element it is `le` to. */
  function InsertBy<T>(x: T, s: seq<T>, le: (T, T) -> bool): (r: seq<T>)
    ensures multiset(r) == multiset(s) + multiset{x}
    ensures |r| == |s| + 1
    decreases |s|
  {
    if s == [] then [x]
    else if le(x, s[0]) then [x] + s
    else
      assert s == [s[0]] + s[1..];
      [s[0]] + InsertBy(x, s[1..], le)
  }

  /** Insertion sort; the result is a permutation of the input. */
  function SortBy<T>(s: seq<T>, le: (T, T) -> bool): (r: seq<T>)
    ensures multiset(r) == multiset(s)
    ensures |r| == |s|
    decreases |s|
  {
    if s == [] then []
    else
      assert s == [s[0]] + s[1..];
      InsertBy(s[0], SortBy(s[1..], le), le)
  }

  lemma {:induction false} InsertBySorted<T(!new)>(x: T, s: seq<T>, le: (T, T) -> bool)
    requires TotalPreorder(le) && SortedBy(le, s)
    ensures SortedBy(le, InsertBy(x, s, le))
    decreases |s|
  {
    if s != [] && !le(x, s[0]) {
      InsertBySorted(x, s[1..], le);
      var t := InsertBy(x, s[1..], le);
      forall j | 0 <= j < |t|
        ensures le(s[0], t[j])
      {
        assert t[j] in multiset(t);
        assert t[j] in multiset(s[1..]) + multiset{x};
        if t[j] != x {
          var k :| 0 <= k < |s[1..]| && s[1..][k] == t[j];
          assert s[k + 1] == t[j];
        }
      }
    }
  }

  /** With a total preorder the result of the sort is sorted. */
  lemma {:induction false} SortBySorted<T(!new)>(s: seq<T>, le: (T, T) -> bool)
    requires TotalPreorder(le)
    ensures SortedBy(le, SortBy(s, le))
    decreases |s|
  {
    if s != [] {
      SortBySorted(s[1..], le);
      InsertBySorted(s[0], SortBy(s[1..], le), le);
    }
  }

  /** A non-empty finite set has a least element under a total preorder. */
  lemma {:induction false} MinimumExists<T(!new)>(s: set<T>, le: (T, T) -> bool)
    requires s != {} && TotalPreorder(le)
    ensures exists m :: m in s && forall u | u in s :: le(m, u)
    decreases |s|
  {
    var x :| x in s;
    assert le(x, x);
    if s == {x} {
      assert forall u | u in s :: le(x, u);
    } else {
      MinimumExists(s - {x}, le);
      var m :| m in s - {x} && forall u | u in s - {x} :: le(m, u);
      if le(m, x) {
        assert forall u | u in s :: le(m, u);
      } else {
        assert le(x, m);
        forall u | u in s
          ensures le(x, u)
        {
          if u != x {
            assert le(m, u);
          }
        }
      }
    }
  }

  /** Appending a least element of what remains keeps a selection sort's
      output sorted and below everything still to be picked. */
  lemma PickLeastStep<T>(order: seq<T>, rest: set<T>, t: T, le: (T, T) -> bool)
    requires SortedBy(le, order)
    requires forall i, u | 0 <= i < |order| && u in rest :: le(order[i], u)
    requires t in rest && forall u | u in rest :: le(t, u)
    ensures SortedBy(le, order + [t])
    ensures forall i, u | 0 <= i < |order| + 1 && u in rest - {t} :: le((order + [t])[i], u)
  {
  }

  /** The elements of a finite set in ascending order, each once: how the
      model iterates over a `BTreeSet`. */
  method SortedElements<T(!new)>(s: set<T>, le: (T, T) -> bool) returns (order: seq<T>)
    requires TotalPreorder(le)
    ensures forall i, j | 0 <= i < j < |order| :: order[i] != order[j]
    ensures forall t :: t in order <==> t in s
    ensures SortedBy(le, order)
  {
    var rest := s;
    order := [];
    while rest != {}
      invariant rest <= s
      invariant forall t | t in order :: t in s && t !in rest
      invariant forall t | t in s :: t in rest || t in order
      invariant forall i, j | 0 <= i < j < |order| :: order[i] != order[j]
      invariant SortedBy(le, order)
      invariant forall i, u | 0 <= i < |order| && u in rest :: le(order[i], u)
      decreases |rest|
    {
      MinimumExists(rest, le);
      var t :| t in rest && forall u | u in rest :: le(t, u);
      PickLeastStep(order, rest, t, le);
      order := order + [t];
      rest := rest - {t};
    }
  }

  ghost predicate Antisymmetric<T(!new)>(le: (T, T) -> bool) {
    forall a, b :: le(a, b) && le(b, a) ==> a == b
  }

  /** The head of an ascending listing is below every other element of it. */
  lemma HeadIsLeast<T>(s: seq<T>, x: T, le: (T, T) -> bool)
    requires SortedBy(le, s) && x in s
    ensures x == s[0] || le(s[0], x)
  {
    var i :| 0 <= i < |s| && s[i] == x;
    if i > 0 {
      assert le(s[0], s[i]);
    }
  }

  /** Under an antisymmetric order a set has only one ascending listing
      without repetitions: the order a `BTreeSet` iterates in is determined. */
  lemma {:induction false} SortedListingUnique<T(!new)>(a: seq<T>, b: seq<T>, le: (T, T) -> bool)
    requires Antisymmetric(le)
    requires SortedBy(le, a) && SortedBy(le, b)
    requires forall i, j | 0 <= i < j < |a| :: a[i] != a[j]
    requires forall i, j | 0 <= i < j < |b| :: b[i] != b[j]
    requires forall t :: t in a <==> t in b
    ensures a == b
    decreases |a|
  {
    assert |b| == 0 || b[0] in a;
    if a != [] {
      assert a[0] in b && b[0] in a;
      HeadIsLeast(a, b[0], le);
      HeadIsLeast(b, a[0], le);
      assert a[0] == b[0];
      forall t
        ensures t in a[1..] <==> t in b[1..]
      {
        if t in a[1..] {
          var i :| 0 <= i < |a[1..]| && a[1..][i] == t;
          assert a[i + 1] == t && t != a[0];
          assert t in b;
          var m :| 0 <= m < |b| && b[m] == t;
          assert m != 0;
          assert b[1..][m - 1] == t;
        }
        if t in b[1..] {
          var i :| 0 <= i < |b[1..]| && b[1..][i] == t;
          assert b[i + 1] == t && t != b[0];
          assert t in a;
          var m :| 0 <= m < |a| && a[m] == t;
          assert m != 0;
          assert a[1..][m - 1] == t;
        }
      }
      SortedListingUnique(a[1..], b[1..], le);
      assert a == [a[0]] + a[1..] && b == [b[0]] + b[1..];
    }
  }

  /** The elements of s that satisfy p, in their order in s. */
  function Filter<T>(s: seq<T>, p: T -> bool): (r: seq<T>)
    ensures |r| <= |s|
    decreases |s|
  {
    if s == [] then [] else (if p(s[0]) then [s[0]] else []) + Filter(s[1..], p)
  }

  lemma {:induction false} FilterInsert<T>(x: T, s: seq<T>, le: (T, T) -> bool, p: T -> bool)
    requires forall a, b :: p(a) && p(b) ==> le(a, b)
    ensures Filter(InsertBy(x, s, le), p) == (if p(x) then [x] else []) + Filter(s, p)
    decreases |s|
  {
    if s == [] {
      FilterCons(x, s, p);
      assert [x] + s == [x];
    } else if le(x, s[0]) {
      FilterCons(x, s, p);
    } else {
      var t := InsertBy(x, s[1..], le);
      FilterInsert(x, s[1..], le, p);
      FilterCons(s[0], t, p);
      FilterCons(s[0], s[1..], p);
      assert s == [s[0]] + s[1..];
      assert InsertBy(x, s, le) == [s[0]] + t;
      if p(x) {
        assert !p(s[0]);
      }
    }
  }

  /** Filtering a sequence with a first element keeps that element exactly when it satisfies p. */
  lemma FilterCons<T>(y: T, t: seq<T>, p: T -> bool)
    ensures Filter([y] + t, p) == (if p(y) then [y] else []) + Filter(t, p)
  {
    assert ([y] + t)[1..] == t;
  }

  /** Stability: elements that the comparator cannot tell apart (one class p)
      keep their relative order. */
  lemma {:induction false} SortByStable<T>(s: seq<T>, le: (T, T) -> bool, p: T -> bool)
    requires forall a, b :: p(a) && p(b) ==> le(a, b)
    ensures Filter(SortBy(s, le), p) == Filter(s, p)
    decreases |s|
  {
    if s != [] {
      SortByStable(s[1..], le, p);
      FilterInsert(s[0], SortBy(s[1..], le), le, p);
    }
  }

  /** `Ord for str`: lexicographic by code point (the same order as UTF-8 bytes). */
  function StrLe(a: string, b: string): bool
    decreases |a|
  {
    if a == [] then true
    else if b == [] then false
    else if a[0] != b[0] then a[0] < b[0]
    else StrLe(a[1..], b[1..])
  }

  lemma {:induction false} StrLeTotal(a: string, b: string)
    ensures StrLe(a, b) || StrLe(b, a)
    decreases |a|
  {
    if a != [] && b != [] && a[0] == b[0] {
      StrLeTotal(a[1..], b[1..]);
    }
  }

  lemma {:induction false} StrLeTransitive(a: string, b: string, c: string)
    requires StrLe(a, b) && StrLe(b, c)
    ensures StrLe(a, c)
    decreases |a|
  {
    if a != [] && b != [] && c != [] && a[0] == b[0] && b[0] == c[0] {
      StrLeTransitive(a[1..], b[1..], c[1..]);
    }
  }

  lemma {:induction false} StrLeAntisymmetric(a: string, b: string)
    requires StrLe(a, b) && StrLe(b, a)
    ensures a == b
    decreases |a|
  {
    if a != [] && b != [] {
      StrLeAntisymmetric(a[1..], b[1..]);
      assert a == [a[0]] + a[1..] && b == [b[0]] + b[1..];
    }
  }

  lemma StrLeTotalPreorder()
    ensures TotalPreorder(StrLe)
  {
    forall a, b ensures StrLe(a, b) || StrLe(b, a) { StrLeTotal(a, b); }
    forall a, b, c | StrLe(a, b) && StrLe(b, c) ensures StrLe(a, c) { StrLeTransitive(a, b, c); }
  }

  /** `Ord for Path`: component by component, each component as a string. */
  function PathLe(a: seq<string>, b: seq<string>): bool
    decreases |a|
  {
    if a == [] then true
    else if b == [] then false
    else if a[0] != b[0] then StrLe(a[0], b[0])
    else PathLe(a[1..], b[1..])
  }

  lemma {:induction false} PathLeTotal(a: seq<string>, b: seq<string>)
    ensures PathLe(a, b) || PathLe(b, a)
    decreases |a|
  {
    if a != [] && b != [] {
      if a[0] == b[0] { PathLeTotal(a[1..], b[1..]); } else { StrLeTotal(a[0], b[0]); }
    }
  }

  lemma {:induction false} PathLeTransitive(a: seq<string>, b: seq<string>, c: seq<string>)
    requires PathLe(a, b) && PathLe(b, c)
    ensures PathLe(a, c)
    decreases |a|
  {
    if a != [] && b != [] && c != [] {
      if a[0] == b[0] && b[0] == c[0] {
        PathLeTransitive(a[1..], b[1..], c[1..]);
      } else if a[0] == b[0] {
        assert StrLe(a[0], c[0]);
      } else if b[0] == c[0] {
        assert StrLe(a[0], c[0]);
      } else {
        StrLeTransitive(a[0], b[0], c[0]);
        if a[0] == c[0] { StrLeAntisymmetric(a[0], b[0]); }
      }
    }
  }

  lemma PathLeTotalPreorder()
    ensures TotalPreorder(PathLe)
  {
    forall a, b ensures PathLe(a, b) || PathLe(b, a) { PathLeTotal(a, b); }
    forall a, b, c | PathLe(a, b) && PathLe(b, c) ensures PathLe(a, c) { PathLeTransitive(a, b, c); }
  }
}
