/**
 * The engine's stable `Array.prototype.sort` with a comparator, on values:
 * each element, taken in input order, goes before the first element already
 * placed that it precedes, and after all the others.
 */
module Sorting {

  /** `x` placed before the first element of `s` it precedes. */
  function InsertBefore<T>(x: T, s: seq<T>, precedes: (T, T) -> bool): (r: seq<T>)
    ensures |r| == |s| + 1
    decreases |s|
  {
    if |s| == 0 then [x]
    else if precedes(x, s[0]) then [x] + s
    else
      assert s == [s[0]] + s[1..];
      [s[0]] + InsertBefore(x, s[1..], precedes)
  }

  /** The stable sort of `s`. */
  function SortBy<T>(s: seq<T>, precedes: (T, T) -> bool): (r: seq<T>)
    ensures multiset(r) == multiset(s)
    ensures |r| == |s|
    decreases |s|
  {
    if |s| == 0 then []
    else
      assert s == s[..|s| - 1] + [s[|s| - 1]];
      InsertPermutes(s[|s| - 1], SortBy(s[..|s| - 1], precedes), precedes);
      InsertBefore(s[|s| - 1], SortBy(s[..|s| - 1], precedes), precedes)
  }

  /** Insertion adds `x` and loses nothing. */
  lemma {:induction false} InsertPermutes<T>(x: T, s: seq<T>, precedes: (T, T) -> bool)
    ensures multiset(InsertBefore(x, s, precedes)) == multiset(s) + multiset{x}
    decreases |s|
  {
    if |s| > 0 && !precedes(x, s[0]) {
      InsertPermutes(x, s[1..], precedes);
      assert s == [s[0]] + s[1..];
    }
  }

  /** Elements that no comparison can move keep their input order. */
  lemma {:induction false} SortByUnmoved<T>(s: seq<T>, precedes: (T, T) -> bool)
    requires forall a, b :: !precedes(a, b)
    ensures SortBy(s, precedes) == s
    decreases |s|
  {
    if |s| > 0 {
      var init, last := s[..|s| - 1], s[|s| - 1];
      assert SortBy(s, precedes) == InsertBefore(last, SortBy(init, precedes), precedes);
      SortByUnmoved(init, precedes);
      AppendsLast(last, init, precedes);
      assert init + [last] == s;
    }
  }

  lemma {:induction false} AppendsLast<T>(x: T, s: seq<T>, precedes: (T, T) -> bool)
    requires forall a, b :: !precedes(a, b)
    ensures InsertBefore(x, s, precedes) == s + [x]
    decreases |s|
  {
    if |s| > 0 {
      AppendsLast(x, s[1..], precedes);
      assert s == [s[0]] + s[1..];
    }
  }

  /** Neither of `a` and `b` precedes the other. */
  predicate Tied<T>(precedes: (T, T) -> bool, a: T, b: T)
  {
    !precedes(a, b) && !precedes(b, a)
  }

  /**
   * A consistent comparator: `precedes` is irreflexive and transitive, and
   * being tied is transitive too (a strict weak order).
   */
  ghost predicate WeakOrder<T(!new)>(precedes: (T, T) -> bool)
  {
    && (forall a :: !precedes(a, a))
    && (forall a, b, c :: precedes(a, b) && precedes(b, c) ==> precedes(a, c))
    && (forall a, b, c :: Tied(precedes, a, b) && Tied(precedes, b, c) ==> Tied(precedes, a, c))
  }

  /** No later element precedes an earlier one. */
  predicate Sorted<T>(r: seq<T>, precedes: (T, T) -> bool)
  {
    forall i, j :: 0 <= i < j < |r| ==> !precedes(r[j], r[i])
  }

  /** The elements of `s` tied with `x`, in the order of `s`. */
  function Ties<T>(s: seq<T>, x: T, precedes: (T, T) -> bool): seq<T>
    decreases |s|
  {
    if |s| == 0 then []
    else (if Tied(precedes, x, s[0]) then [s[0]] else []) + Ties(s[1..], x, precedes)
  }

  /** Whatever lies between `a` and `c` is after `a` or before `c`. */
  lemma Cotransitive<T(!new)>(precedes: (T, T) -> bool, a: T, b: T, c: T)
    requires WeakOrder(precedes)
    requires precedes(a, c)
    ensures precedes(a, b) || precedes(b, c)
  {
    if !precedes(a, b) && !precedes(b, c) {
      assert !precedes(b, a);
      assert !precedes(c, b);
      assert Tied(precedes, a, b) && Tied(precedes, b, c);
    }
  }

  lemma {:induction false} TiesAppend<T>(a: seq<T>, b: seq<T>, x: T, precedes: (T, T) -> bool)
    ensures Ties(a + b, x, precedes) == Ties(a, x, precedes) + Ties(b, x, precedes)
    decreases |a|
  {
    if |a| > 0 {
      assert (a + b)[1..] == a[1..] + b;
      TiesAppend(a[1..], b, x, precedes);
    } else {
      assert a + b == b;
    }
  }

  lemma {:induction false} InsertSorted<T(!new)>(x: T, s: seq<T>, precedes: (T, T) -> bool)
    requires WeakOrder(precedes)
    requires Sorted(s, precedes)
    ensures Sorted(InsertBefore(x, s, precedes), precedes)
    decreases |s|
  {
    if |s| > 0 {
      if precedes(x, s[0]) {
        var r := [x] + s;
        forall i, j | 0 <= i < j < |r| ensures !precedes(r[j], r[i])
        {
          if i == 0 {
            assert r[j] == s[j - 1];
          }
        }
      } else {
        var t := InsertBefore(x, s[1..], precedes);
        InsertSorted(x, s[1..], precedes);
        InsertPermutes(x, s[1..], precedes);
        var r := [s[0]] + t;
        forall i, j | 0 <= i < j < |r| ensures !precedes(r[j], r[i])
        {
          if i == 0 {
            assert r[j] in multiset(t);
            assert r[j] == x || r[j] in multiset(s[1..]);
            if r[j] != x {
              var k :| 0 <= k < |s[1..]| && s[1..][k] == r[j];
              assert s[k + 1] == r[j];
            }
          }
        }
      }
    }
  }

  /** Under a consistent comparator the sort orders its result. */
  lemma {:induction false} SortByOrdered<T(!new)>(s: seq<T>, precedes: (T, T) -> bool)
    requires WeakOrder(precedes)
    ensures Sorted(SortBy(s, precedes), precedes)
    decreases |s|
  {
    if |s| > 0 {
      SortByOrdered(s[..|s| - 1], precedes);
      InsertSorted(s[|s| - 1], SortBy(s[..|s| - 1], precedes), precedes);
    }
  }

  /** The position at which `InsertBefore` places `y`: the first element it precedes. */
  function InsertPosition<T>(y: T, t: seq<T>, precedes: (T, T) -> bool): (k: nat)
    ensures k <= |t|
    decreases |t|
  {
    if |t| == 0 || precedes(y, t[0]) then 0 else 1 + InsertPosition(y, t[1..], precedes)
  }

  /** `InsertBefore` splits `t` at the first element `y` precedes and puts `y` there. */
  lemma {:induction false} InsertSplit<T>(y: T, t: seq<T>, precedes: (T, T) -> bool)
    ensures var k := InsertPosition(y, t, precedes);
      && InsertBefore(y, t, precedes) == t[..k] + [y] + t[k..]
      && (k < |t| ==> precedes(y, t[k]))
    decreases |t|
  {
    if |t| > 0 && !precedes(y, t[0]) {
      var rest := t[1..];
      InsertSplit(y, rest, precedes);
      var k := InsertPosition(y, rest, precedes);
      assert InsertPosition(y, t, precedes) == k + 1;
      assert InsertBefore(y, t, precedes) == [t[0]] + (rest[..k] + [y] + rest[k..]);
      assert t[..k + 1] == [t[0]] + rest[..k];
      assert t[k + 1..] == rest[k..];
      assert [t[0]] + (rest[..k] + [y] + rest[k..]) == [t[0]] + rest[..k] + [y] + rest[k..];
      assert k < |rest| ==> t[k + 1] == rest[k];
    } else {
      assert t[..0] + [y] + t[0..] == [y] + t;
    }
  }

  /** Inserting into a sorted list puts `y` after every element tied with it. */
  lemma InsertTies<T(!new)>(y: T, t: seq<T>, x: T, precedes: (T, T) -> bool)
    requires WeakOrder(precedes)
    requires Sorted(t, precedes)
    ensures Ties(InsertBefore(y, t, precedes), x, precedes) ==
      Ties(t, x, precedes) + (if Tied(precedes, x, y) then [y] else [])
  {
    var k := InsertPosition(y, t, precedes);
    InsertSplit(y, t, precedes);
    InsertSplitTies(y, t, x, precedes);
    TiesSplit(t, k, x, precedes);
    var before, after := Ties(t[..k], x, precedes), Ties(t[k..], x, precedes);
    if Tied(precedes, x, y) {
      if k < |t| {
        NoTies(y, t, k, x, precedes);
      } else {
        assert t[k..] == [];
      }
      assert after == [];
      assert before + [y] + after == before + [y];
      assert before + after == before;
    } else {
      assert before + [] + after == before + after;
    }
  }

  /** The ties of the insertion, split where `y` goes. */
  lemma InsertSplitTies<T>(y: T, t: seq<T>, x: T, precedes: (T, T) -> bool)
    ensures var k := InsertPosition(y, t, precedes);
      Ties(InsertBefore(y, t, precedes), x, precedes) ==
        Ties(t[..k], x, precedes) + (if Tied(precedes, x, y) then [y] else []) + Ties(t[k..], x, precedes)
  {
    var k := InsertPosition(y, t, precedes);
    InsertSplit(y, t, precedes);
    TiesAppend(t[..k] + [y], t[k..], x, precedes);
    TiesSnoc(t[..k], y, x, precedes);
  }

  /** The ties of `t`, split at `k`. */
  lemma TiesSplit<T>(t: seq<T>, k: nat, x: T, precedes: (T, T) -> bool)
    requires k <= |t|
    ensures Ties(t, x, precedes) == Ties(t[..k], x, precedes) + Ties(t[k..], x, precedes)
  {
    TiesAppend(t[..k], t[k..], x, precedes);
    assert t[..k] + t[k..] == t;
  }

  /** No element from the first one `y` precedes on is tied with `y`'s ties. */
  lemma NoTies<T(!new)>(y: T, t: seq<T>, k: nat, x: T, precedes: (T, T) -> bool)
    requires WeakOrder(precedes)
    requires Sorted(t, precedes)
    requires k < |t| && precedes(y, t[k]) && Tied(precedes, x, y)
    ensures Ties(t[k..], x, precedes) == []
  {
    forall m | 0 <= m < |t[k..]| ensures !Tied(precedes, x, t[k..][m])
    {
      assert t[k..][m] == t[k + m];
      Cotransitive(precedes, y, t[k + m], t[k]);
      assert Tied(precedes, y, x);
    }
    TiesNone(t[k..], x, precedes);
  }

  lemma {:induction false} TiesNone<T>(t: seq<T>, x: T, precedes: (T, T) -> bool)
    requires forall k :: 0 <= k < |t| ==> !Tied(precedes, x, t[k])
    ensures Ties(t, x, precedes) == []
    decreases |t|
  {
    if |t| > 0 {
      TiesNone(t[1..], x, precedes);
    }
  }

  /**
   * The sort is stable: under a consistent comparator, the elements tied
   * with any `x` appear in the result in the order they have in the input.
   */
  lemma {:induction false} SortByStable<T(!new)>(s: seq<T>, x: T, precedes: (T, T) -> bool)
    requires WeakOrder(precedes)
    ensures Ties(SortBy(s, precedes), x, precedes) == Ties(s, x, precedes)
    decreases |s|
  {
    if |s| > 0 {
      var init := s[..|s| - 1];
      SortStep(s, precedes);
      TiesLast(s, x, precedes);
      SortByStable(init, x, precedes);
      SortedInsertTies(s[|s| - 1], init, x, precedes);
    }
  }

  /** The sort of a non-empty list inserts its last element into the sort of the rest. */
  lemma SortStep<T>(s: seq<T>, precedes: (T, T) -> bool)
    requires |s| > 0
    ensures SortBy(s, precedes) == InsertBefore(s[|s| - 1], SortBy(s[..|s| - 1], precedes), precedes)
  {
  }

  /** The ties of a non-empty list, split at its last element. */
  lemma TiesLast<T>(s: seq<T>, x: T, precedes: (T, T) -> bool)
    requires |s| > 0
    ensures Ties(s, x, precedes) ==
      Ties(s[..|s| - 1], x, precedes) + (if Tied(precedes, x, s[|s| - 1]) then [s[|s| - 1]] else [])
  {
    assert s[..|s| - 1] + [s[|s| - 1]] == s;
    TiesSnoc(s[..|s| - 1], s[|s| - 1], x, precedes);
  }

  /** The step of the sort: inserting the last element into the sorted rest. */
  lemma SortedInsertTies<T(!new)>(y: T, init: seq<T>, x: T, precedes: (T, T) -> bool)
    requires WeakOrder(precedes)
    ensures Ties(InsertBefore(y, SortBy(init, precedes), precedes), x, precedes) ==
      Ties(SortBy(init, precedes), x, precedes) + (if Tied(precedes, x, y) then [y] else [])
  {
    SortByOrdered(init, precedes);
    InsertTies(y, SortBy(init, precedes), x, precedes);
  }

  lemma TiesCons<T>(a: T, s: seq<T>, x: T, precedes: (T, T) -> bool)
    ensures Ties([a] + s, x, precedes) == (if Tied(precedes, x, a) then [a] else []) + Ties(s, x, precedes)
  {
    assert ([a] + s)[1..] == s;
  }

  lemma TiesSnoc<T>(a: seq<T>, y: T, x: T, precedes: (T, T) -> bool)
    ensures Ties(a + [y], x, precedes) == Ties(a, x, precedes) + (if Tied(precedes, x, y) then [y] else [])
  {
    TiesAppend(a, [y], x, precedes);
    TiesCons(y, [], x, precedes);
    assert [y] + [] == [y];
  }
}
