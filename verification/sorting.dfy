/** A stable sort over a total preorder, the behaviour `Array.prototype.sort` guarantees
    since section 22.1.3.27 of ECMA-262 (2019 edition): elements the comparator calls
    equal keep their relative order. */
module Sorting {

  /** `le(a, b)` holds when `a` may come before `b`: the comparator `cmp(a, b) <= 0`. */
  ghost predicate TotalPreorder<T(!new)>(le: (T, T) -> bool) {
    && (forall a, b :: le(a, b) || le(b, a))
    && (forall a, b, c :: le(a, b) && le(b, c) ==> le(a, c))
  }

  /** Every earlier element may precede every later one. */
  ghost predicate SortedBy<T>(s: seq<T>, le: (T, T) -> bool) {
    forall i, j :: 0 <= i < j < |s| ==> le(s[i], s[j])
  }

  /** The comparator calls `a` and `b` equal. */
  predicate Tied<T>(le: (T, T) -> bool, a: T, b: T) {
    le(a, b) && le(b, a)
  }

  /** The elements of `s` tied with `x`, in their order in `s`. */
  function Ties<T>(s: seq<T>, x: T, le: (T, T) -> bool): (r: seq<T>)
    ensures |r| <= |s|
  {
    if |s| == 0 then []
    else (if Tied(le, s[0], x) then [s[0]] else []) + Ties(s[1..], x, le)
  }

  /** Places `x` before the first element it may precede; everything skipped is strictly
      smaller than `x`. */
  function InsertStable<T>(x: T, s: seq<T>, le: (T, T) -> bool): (r: seq<T>)
    ensures |r| == |s| + 1
    ensures multiset(r) == multiset(s) + multiset{x}
  {
    if |s| == 0 || le(x, s[0]) then [x] + s
    else
      assert s == [s[0]] + s[1..];
      [s[0]] + InsertStable(x, s[1..], le)
  }

  /** Insertion sort from the back: the head is inserted in front of every element it ties with,
      so ties keep their original order. */
  function StableSort<T>(s: seq<T>, le: (T, T) -> bool): (r: seq<T>)
    ensures |r| == |s|
    ensures multiset(r) == multiset(s)
  {
    if |s| == 0 then []
    else
      assert s == [s[0]] + s[1..];
      InsertStable(s[0], StableSort(s[1..], le), le)
  }

  lemma {:induction false} InsertStableSorted<T(!new)>(x: T, s: seq<T>, le: (T, T) -> bool)
    requires TotalPreorder(le)
    requires SortedBy(s, le)
    ensures SortedBy(InsertStable(x, s, le), le)
  {
    if |s| > 0 && !le(x, s[0]) {
      InsertStableSorted(x, s[1..], le);
      var r := InsertStable(x, s[1..], le);
      assert forall y :: y in r ==> y == x || y in s[1..] by {
        assert multiset(r) == multiset(s[1..]) + multiset{x};
        forall y | y in r ensures y == x || y in s[1..] {
          assert y in multiset(r);
        }
      }
      forall j | 0 <= j < |r| ensures le(s[0], r[j]) {
        assert r[j] in r;
        if r[j] != x {
          var k :| 0 <= k < |s[1..]| && s[1..][k] == r[j];
          assert s[k + 1] == r[j];
        }
      }
    }
  }

  /** The result is ordered by `le` whenever `le` is a total preorder. */
  lemma {:induction false} StableSortSorted<T(!new)>(s: seq<T>, le: (T, T) -> bool)
    requires TotalPreorder(le)
    ensures SortedBy(StableSort(s, le), le)
  {
    if |s| > 0 {
      StableSortSorted(s[1..], le);
      InsertStableSorted(s[0], StableSort(s[1..], le), le);
    }
  }

  lemma {:induction false} TiesAppend<T>(a: seq<T>, b: seq<T>, x: T, le: (T, T) -> bool)
    ensures Ties(a + b, x, le) == Ties(a, x, le) + Ties(b, x, le)
  {
    if |a| == 0 {
      assert a + b == b;
    } else {
      var h := if Tied(le, a[0], x) then [a[0]] else [];
      assert (a + b)[0] == a[0];
      assert (a + b)[1..] == a[1..] + b;
      calc {
        Ties(a + b, x, le);
        h + Ties(a[1..] + b, x, le);
        { TiesAppend(a[1..], b, x, le); }
        h + (Ties(a[1..], x, le) + Ties(b, x, le));
        (h + Ties(a[1..], x, le)) + Ties(b, x, le);
      }
    }
  }

  lemma TiesCons<T>(h: T, t: seq<T>, x: T, le: (T, T) -> bool)
    ensures Ties([h] + t, x, le) == (if Tied(le, h, x) then [h] else []) + Ties(t, x, le)
  {
    assert ([h] + t)[0] == h && ([h] + t)[1..] == t;
  }

  /** An element strictly below `y` is not in `y`'s tie class. */
  lemma BelowNotTied<T(!new)>(y: T, z: T, x: T, le: (T, T) -> bool)
    requires TotalPreorder(le)
    requires !le(y, z)
    ensures !(Tied(le, z, x) && Tied(le, y, x))
  {
  }

  /** Inserting `y` into a sorted sequence adds `y` to its own tie class at the FRONT and
      changes no other tie class. */
  lemma TiesInsertStable<T(!new)>(y: T, s: seq<T>, x: T, le: (T, T) -> bool)
    requires TotalPreorder(le)
    requires SortedBy(s, le)
    ensures Ties(InsertStable(y, s, le), x, le) == (if Tied(le, y, x) then [y] else []) + Ties(s, x, le)
  {
    forall i | 0 <= i < |s| && !le(y, s[i]) ensures !(Tied(le, s[i], x) && Tied(le, y, x)) {
      BelowNotTied(y, s[i], x, le);
    }
    TiesInsert(y, s, x, le);
  }

  /** The insertion only skips elements strictly below `y`; when none of them shares `x`'s
      tie class with `y`, the insertion adds `y` at the front of that class. */
  lemma {:induction false} TiesInsert<T>(y: T, s: seq<T>, x: T, le: (T, T) -> bool)
    requires forall i :: 0 <= i < |s| && !le(y, s[i]) ==> !(Tied(le, s[i], x) && Tied(le, y, x))
    ensures Ties(InsertStable(y, s, le), x, le) == (if Tied(le, y, x) then [y] else []) + Ties(s, x, le)
  {
    if |s| == 0 || le(y, s[0]) {
      TiesCons(y, s, x, le);
    } else {
      var rest := InsertStable(y, s[1..], le);
      forall i | 0 <= i < |s[1..]| && !le(y, s[1..][i])
        ensures !(Tied(le, s[1..][i], x) && Tied(le, y, x))
      {
        assert s[1..][i] == s[i + 1];
      }
      TiesInsert(y, s[1..], x, le);
      TiesCons(s[0], rest, x, le);
      TiesCons(s[0], s[1..], x, le);
      assert [s[0]] + s[1..] == s;
      if Tied(le, y, x) {
        assert Ties(s, x, le) == Ties(s[1..], x, le);
      } else {
        assert Ties(rest, x, le) == Ties(s[1..], x, le);
      }
    }
  }

  /** Stability: every tie class appears in the output in exactly its input order. */
  lemma {:induction false} StableSortStable<T(!new)>(s: seq<T>, x: T, le: (T, T) -> bool)
    requires TotalPreorder(le)
    ensures Ties(StableSort(s, le), x, le) == Ties(s, x, le)
  {
    if |s| > 0 {
      StableSortStable(s[1..], x, le);
      StableSortSorted(s[1..], le);
      TiesInsertStable(s[0], StableSort(s[1..], le), x, le);
    }
  }

  lemma {:induction false} TiesHead<T(!new)>(s: seq<T>, le: (T, T) -> bool)
    requires TotalPreorder(le)
    requires |s| > 0
    ensures Ties(s, s[0], le) == [s[0]] + Ties(s[1..], s[0], le)
  {
  }

  lemma {:induction false} TiesMembers<T>(s: seq<T>, x: T, le: (T, T) -> bool)
    ensures forall y :: y in Ties(s, x, le) <==> y in s && Tied(le, y, x)
  {
    if |s| > 0 {
      TiesMembers(s[1..], x, le);
      assert s == [s[0]] + s[1..];
    }
  }

  /** Uniqueness: a sorted sequence with the same tie classes, each in the same order, as `s`
      IS the stable sort of `s`. So `StableSort` is the only stable sort. */
  lemma {:induction false} StableSortUnique<T(!new)>(s: seq<T>, t: seq<T>, le: (T, T) -> bool)
    requires TotalPreorder(le)
    requires SortedBy(t, le)
    requires forall x :: Ties(t, x, le) == Ties(s, x, le)
    ensures t == StableSort(s, le)
  {
    var u := StableSort(s, le);
    StableSortSorted(s, le);
    forall x ensures Ties(t, x, le) == Ties(u, x, le) {
      StableSortStable(s, x, le);
    }
    SortedSameTiesEqual(t, u, le);
  }

  lemma {:induction false} SortedSameTiesEqual<T(!new)>(t: seq<T>, u: seq<T>, le: (T, T) -> bool)
    requires TotalPreorder(le)
    requires SortedBy(t, le) && SortedBy(u, le)
    requires forall x :: Ties(t, x, le) == Ties(u, x, le)
    ensures t == u
    decreases |t|
  {
    if |t| == 0 {
      if |u| > 0 {
        TiesHead(u, le);
        assert false;
      }
    } else if |u| == 0 {
      TiesHead(t, le);
      assert false;
    } else {
      // the heads are minimal, hence tied with each other
      TiesMembers(t, u[0], le);
      TiesMembers(u, u[0], le);
      TiesMembers(t, t[0], le);
      TiesMembers(u, t[0], le);
      assert u[0] in Ties(u, u[0], le);
      assert u[0] in t;
      assert t[0] in Ties(t, t[0], le);
      assert t[0] in u;
      assert le(t[0], u[0]) by {
        var k :| 0 <= k < |t| && t[k] == u[0];
        if k > 0 { assert le(t[0], t[k]); }
      }
      assert le(u[0], t[0]) by {
        var k :| 0 <= k < |u| && u[k] == t[0];
        if k > 0 { assert le(u[0], u[k]); }
      }
      // the first element of the head's tie class is the head itself
      TiesHead(t, le);
      assert Ties(u, t[0], le) == [u[0]] + Ties(u[1..], t[0], le);
      assert t[0] == Ties(t, t[0], le)[0] == Ties(u, t[0], le)[0] == u[0];
      forall x ensures Ties(t[1..], x, le) == Ties(u[1..], x, le) {
        var h := if Tied(le, t[0], x) then [t[0]] else [];
        assert Ties(t, x, le) == h + Ties(t[1..], x, le);
        assert Ties(u, x, le) == h + Ties(u[1..], x, le);
        assert Ties(t[1..], x, le) == Ties(t, x, le)[|h|..];
        assert Ties(u[1..], x, le) == Ties(u, x, le)[|h|..];
      }
      SortedSameTiesEqual(t[1..], u[1..], le);
      assert t == [t[0]] + t[1..] && u == [u[0]] + u[1..];
    }
  }
}
