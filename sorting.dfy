/**
 * Stable sorting by a comparison, as `Array.prototype.sort` does since
 * ECMAScript 2019: the result is sorted, is a permutation of the input,
 * and elements the comparison ranks equal keep their input order.
 * `le(a, b)` means that `a` may come before `b` (the comparator is <= 0).
 */
module Sorting {

  /** A comparison that ranks every pair and is transitive. */
  ghost predicate TotalPreorder<T(!new)>(le: (T, T) -> bool)
  {
    (forall a, b :: le(a, b) || le(b, a))
    && (forall a, b, c :: le(a, b) && le(b, c) ==> le(a, c))
  }

  predicate Sorted<T>(s: seq<T>, le: (T, T) -> bool)
  {
    forall i, j :: 0 <= i < j < |s| ==> le(s[i], s[j])
  }

  /** `x` goes after every element ranked no later than it. */
  function Insert<T>(x: T, r: seq<T>, le: (T, T) -> bool): seq<T>
    decreases |r|
  {
    if |r| == 0 then [x]
    else if le(r[0], x) then [r[0]] + Insert(x, r[1..], le)
    else [x] + r
  }

  /** Insertion sort: each element, left to right, is inserted into the sorted prefix. */
  function SortBy<T>(s: seq<T>, le: (T, T) -> bool): seq<T>
    decreases |s|
  {
    if |s| == 0 then [] else Insert(s[|s| - 1], SortBy(s[..|s| - 1], le), le)
  }

  /** The elements of `s` that `le` ranks equal to `y`, in the order of `s`. */
  function Ties<T>(s: seq<T>, y: T, le: (T, T) -> bool): seq<T>
    decreases |s|
  {
    if |s| == 0 then []
    else (if le(s[0], y) && le(y, s[0]) then [s[0]] else []) + Ties(s[1..], y, le)
  }

  lemma {:induction false} InsertPermutes<T>(x: T, r: seq<T>, le: (T, T) -> bool)
    ensures multiset(Insert(x, r, le)) == multiset(r) + multiset{x}
    decreases |r|
  {
    if |r| > 0 {
      if le(r[0], x) {
        InsertPermutes(x, r[1..], le);
        assert r == [r[0]] + r[1..];
      }
    }
  }

  lemma {:induction false} InsertSorted<T(!new)>(x: T, r: seq<T>, le: (T, T) -> bool)
    requires TotalPreorder(le) && Sorted(r, le)
    ensures Sorted(Insert(x, r, le), le)
    decreases |r|
  {
    if |r| > 0 && le(r[0], x) {
      InsertSorted(x, r[1..], le);
      InsertPermutes(x, r[1..], le);
      var tail := Insert(x, r[1..], le);
      forall j | 0 <= j < |tail| ensures le(r[0], tail[j]) {
        assert tail[j] in multiset(tail);
        assert tail[j] == x || tail[j] in multiset(r[1..]);
        if tail[j] != x {
          var k :| 0 <= k < |r[1..]| && r[1..][k] == tail[j];
          assert r[k + 1] == tail[j];
        }
      }
    } else if |r| > 0 {
      forall j | 0 <= j < |r| ensures le(x, r[j]) {
        assert le(r[0], r[j]) || j == 0;
      }
    }
  }

  /** Sorting permutes its input. */
  lemma {:induction false} SortByPermutes<T>(s: seq<T>, le: (T, T) -> bool)
    ensures multiset(SortBy(s, le)) == multiset(s)
    decreases |s|
  {
    if |s| > 0 {
      var n := |s|;
      SortByPermutes(s[..n - 1], le);
      InsertPermutes(s[n - 1], SortBy(s[..n - 1], le), le);
      assert s == s[..n - 1] + [s[n - 1]];
    }
  }

  /** Sorting yields a sorted sequence. */
  lemma {:induction false} SortBySorted<T(!new)>(s: seq<T>, le: (T, T) -> bool)
    requires TotalPreorder(le)
    ensures Sorted(SortBy(s, le), le)
    decreases |s|
  {
    if |s| > 0 {
      SortBySorted(s[..|s| - 1], le);
      InsertSorted(s[|s| - 1], SortBy(s[..|s| - 1], le), le);
    }
  }

  lemma {:induction false} TiesAppend<T>(a: seq<T>, b: seq<T>, y: T, le: (T, T) -> bool)
    ensures Ties(a + b, y, le) == Ties(a, y, le) + Ties(b, y, le)
    decreases |a|
  {
    if |a| > 0 {
      assert (a + b)[1..] == a[1..] + b;
      TiesAppend(a[1..], b, y, le);
    } else {
      assert a + b == b;
    }
  }

  /** Nothing in a sorted tail that starts after `x` ties with `x`. */
  lemma {:induction false} NoTiesAfter<T(!new)>(x: T, r: seq<T>, le: (T, T) -> bool)
    requires TotalPreorder(le) && Sorted(r, le)
    requires |r| > 0 && !le(r[0], x)
    ensures Ties(r, x, le) == []
    decreases |r|
  {
    if |r| > 1 {
      assert le(r[0], r[1]);
      NoTiesAfter(x, r[1..], le);
    }
  }

  lemma {:induction false} InsertTies<T(!new)>(x: T, r: seq<T>, y: T, le: (T, T) -> bool)
    requires TotalPreorder(le) && Sorted(r, le)
    ensures Ties(Insert(x, r, le), y, le)
            == Ties(r, y, le) + (if le(x, y) && le(y, x) then [x] else [])
    decreases |r|
  {
    if |r| > 0 {
      var rest := r[1..];
      var tx := if le(x, y) && le(y, x) then [x] else [];
      if le(r[0], x) {
        var t0 := if le(r[0], y) && le(y, r[0]) then [r[0]] else [];
        var ins := Insert(x, rest, le);
        assert Ties(ins, y, le) == Ties(rest, y, le) + tx by {
          assert Sorted(rest, le);
          InsertTies(x, rest, y, le);
        }
        assert Ties(Insert(x, r, le), y, le) == t0 + Ties(ins, y, le) by {
          assert Insert(x, r, le) == [r[0]] + ins;
          assert ([r[0]] + ins)[1..] == ins;
        }
        assert Ties(r, y, le) == t0 + Ties(rest, y, le);
        assert t0 + (Ties(rest, y, le) + tx) == (t0 + Ties(rest, y, le)) + tx;
      } else {
        InsertTiesFront(x, r, y, le);
      }
    }
  }

  /** The case of `InsertTies` where `x` goes in front of `r`. */
  lemma InsertTiesFront<T(!new)>(x: T, r: seq<T>, y: T, le: (T, T) -> bool)
    requires TotalPreorder(le) && Sorted(r, le)
    requires |r| > 0 && !le(r[0], x)
    ensures Ties(Insert(x, r, le), y, le)
            == Ties(r, y, le) + (if le(x, y) && le(y, x) then [x] else [])
  {
    assert Insert(x, r, le) == [x] + r;
    assert ([x] + r)[1..] == r;
    if le(x, y) && le(y, x) {
      assert Ties(r, y, le) == [] by {
        NoTiesAfter(x, r, le);
        TiesSameClass(r, x, y, le);
      }
    }
  }

  /** Elements tying with `x` are those tying with `y` when `x` and `y` tie. */
  lemma {:induction false} TiesSameClass<T(!new)>(s: seq<T>, x: T, y: T, le: (T, T) -> bool)
    requires TotalPreorder(le) && le(x, y) && le(y, x)
    ensures Ties(s, x, le) == Ties(s, y, le)
    decreases |s|
  {
    if |s| > 0 {
      TiesSameClass(s[1..], x, y, le);
    }
  }

  /**
   * Stability: for every element `y`, the elements ranked equal to `y`
   * come out in the same order as they went in.
   */
  lemma {:induction false} SortByStable<T(!new)>(s: seq<T>, y: T, le: (T, T) -> bool)
    requires TotalPreorder(le)
    ensures Ties(SortBy(s, le), y, le) == Ties(s, y, le)
    decreases |s|
  {
    if |s| > 0 {
      var n := |s|;
      SortByStable(s[..n - 1], y, le);
      SortBySorted(s[..n - 1], le);
      InsertTies(s[n - 1], SortBy(s[..n - 1], le), y, le);
      assert s == s[..n - 1] + [s[n - 1]];
      TiesAppend(s[..n - 1], [s[n - 1]], y, le);
    }
  }

  /**
   * Lexicographic order of strings, character by character: the default
   * order of `sort()` on text within the Basic Multilingual Plane.
   */
  predicate StrLe(a: string, b: string)
    decreases |a|
  {
    |a| == 0 || (|b| > 0 && (a[0] < b[0] || (a[0] == b[0] && StrLe(a[1..], b[1..]))))
  }

  lemma {:induction false} StrLeTotal(a: string, b: string)
    ensures StrLe(a, b) || StrLe(b, a)
    decreases |a|
  {
    if |a| > 0 && |b| > 0 && a[0] == b[0] {
      StrLeTotal(a[1..], b[1..]);
    }
  }

  lemma {:induction false} StrLeTrans(a: string, b: string, c: string)
    requires StrLe(a, b) && StrLe(b, c)
    ensures StrLe(a, c)
    decreases |a|
  {
    if |a| > 0 && a[0] == b[0] && b[0] == c[0] {
      StrLeTrans(a[1..], b[1..], c[1..]);
    }
  }

  lemma {:induction false} StrLeAntisymmetric(a: string, b: string)
    requires StrLe(a, b) && StrLe(b, a)
    ensures a == b
    decreases |a|
  {
    if |a| > 0 {
      StrLeAntisymmetric(a[1..], b[1..]);
      assert a == [a[0]] + a[1..] && b == [b[0]] + b[1..];
    }
  }

  /** The character order ranks every pair of strings and is transitive. */
  lemma StrLeIsTotalPreorder()
    ensures TotalPreorder((a: string, b: string) => StrLe(a, b))
  {
    forall a: string, b: string ensures StrLe(a, b) || StrLe(b, a) {
      StrLeTotal(a, b);
    }
    forall a: string, b: string, c: string | StrLe(a, b) && StrLe(b, c) ensures StrLe(a, c) {
      StrLeTrans(a, b, c);
    }
  }

  /** The elements of `s` that satisfy `p`, in order (`Array.prototype.filter`). */
  function Filter<T(!new)>(s: seq<T>, p: T -> bool): (r: seq<T>)
    ensures forall x :: x in r <==> x in s && p(x)
    ensures |r| <= |s|
    decreases |s|
  {
    if |s| == 0 then []
    else if p(s[0]) then [s[0]] + Filter(s[1..], p)
    else Filter(s[1..], p)
  }

  lemma {:induction false} FilterAppend<T(!new)>(a: seq<T>, b: seq<T>, p: T -> bool)
    ensures Filter(a + b, p) == Filter(a, p) + Filter(b, p)
    decreases |a|
  {
    if |a| > 0 {
      assert (a + b)[1..] == a[1..] + b;
      FilterAppend(a[1..], b, p);
    } else {
      assert a + b == b;
    }
  }

  /** Filtering twice by compatible tests is filtering once by both. */
  lemma {:induction false} FilterFilter<T(!new)>(s: seq<T>, p: T -> bool, q: T -> bool)
    ensures Filter(Filter(s, p), q) == Filter(s, x => p(x) && q(x))
    decreases |s|
  {
    if |s| > 0 {
      FilterFilter(s[1..], p, q);
    }
  }

  /** Filtering keeps the multiplicity of the kept elements and drops the others. */
  lemma {:induction false} FilterCount<T(!new)>(s: seq<T>, p: T -> bool, x: T)
    ensures multiset(Filter(s, p))[x] == if p(x) then multiset(s)[x] else 0
    decreases |s|
  {
    if |s| > 0 {
      FilterCount(s[1..], p, x);
      assert s == [s[0]] + s[1..];
    }
  }

  lemma FilterCons<T(!new)>(x: T, s: seq<T>, p: T -> bool)
    ensures Filter([x] + s, p) == (if p(x) then [x] else []) + Filter(s, p)
  {
    assert ([x] + s)[1..] == s;
  }

  /** Nothing of `s` passes the test: the filter is empty. */
  lemma {:induction false} FilterNone<T(!new)>(s: seq<T>, p: T -> bool)
    requires forall x :: x in s ==> !p(x)
    ensures Filter(s, p) == []
    decreases |s|
  {
    if |s| > 0 {
      FilterNone(s[1..], p);
    }
  }

  /** Everything of `s` passes the test: the filter keeps `s`. */
  lemma {:induction false} FilterAll<T(!new)>(s: seq<T>, p: T -> bool)
    requires forall x :: x in s ==> p(x)
    ensures Filter(s, p) == s
    decreases |s|
  {
    if |s| > 0 {
      FilterAll(s[1..], p);
    }
  }

  /**
   * The elements passing `p`, then those passing the opposite test `q`:
   * the same elements, every `p` one first, each part in its order.
   */
  lemma Partition<T(!new)>(s: seq<T>, p: T -> bool, q: T -> bool)
    requires forall x :: q(x) == !p(x)
    ensures var r := Filter(s, p) + Filter(s, q);
      && multiset(r) == multiset(s)
      && (forall i, j :: 0 <= i < |r| && 0 <= j < |r| && p(r[j]) && !p(r[i]) ==> j < i)
      && Filter(r, p) == Filter(s, p)
      && Filter(r, q) == Filter(s, q)
  {
    var ps, qs := Filter(s, p), Filter(s, q);
    var r := ps + qs;
    forall x ensures multiset(r)[x] == multiset(s)[x] {
      FilterCount(s, p, x);
      FilterCount(s, q, x);
    }
    assert multiset(r) == multiset(s);
    SplitOrder(ps, qs, p);
    assert Filter(r, p) == ps by {
      FilterAppend(ps, qs, p);
      FilterAll(ps, p);
      FilterNone(qs, p);
      assert ps + [] == ps;
    }
    assert Filter(r, q) == qs by {
      FilterAppend(ps, qs, q);
      FilterNone(ps, q);
      FilterAll(qs, q);
      assert [] + qs == qs;
    }
  }

  /** Elements that pass, then elements that fail: every passing one comes first. */
  lemma SplitOrder<T>(ps: seq<T>, qs: seq<T>, p: T -> bool)
    requires forall x :: x in ps ==> p(x)
    requires forall x :: x in qs ==> !p(x)
    ensures forall i, j :: 0 <= i < |ps + qs| && 0 <= j < |ps + qs| && p((ps + qs)[j]) && !p((ps + qs)[i]) ==> j < i
  {
    var r := ps + qs;
    forall k | 0 <= k < |ps| ensures p(r[k]) {
      assert r[k] == ps[k];
    }
    forall k | |ps| <= k < |r| ensures !p(r[k]) {
      assert r[k] == qs[k - |ps|];
    }
  }
}
