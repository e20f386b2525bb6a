/**
 * Python's ordering of `str` values and the behaviour of `sorted()` on a
 * collection of distinct values under a strict total order.
 */
module Ordering {

  /** Python's `a < b` on `str`: the first differing code point decides, and a proper prefix is smaller. */
  predicate StrLt(a: string, b: string)
    decreases |a|
  {
    if |a| == 0 then |b| > 0
    else if |b| == 0 then false
    else if a[0] != b[0] then a[0] < b[0]
    else StrLt(a[1..], b[1..])
  }

  lemma {:induction false} StrLtIrreflexive(a: string)
    ensures !StrLt(a, a)
    decreases |a|
  {
    if |a| > 0 {
      StrLtIrreflexive(a[1..]);
    }
  }

  lemma {:induction false} StrLtTransitive(a: string, b: string, c: string)
    requires StrLt(a, b) && StrLt(b, c)
    ensures StrLt(a, c)
    decreases |a|
  {
    if |a| > 0 && |b| > 0 && |c| > 0 && a[0] == b[0] && b[0] == c[0] {
      StrLtTransitive(a[1..], b[1..], c[1..]);
    }
  }

  lemma {:induction false} StrLtTotal(a: string, b: string)
    requires a != b
    ensures StrLt(a, b) || StrLt(b, a)
    decreases |a|
  {
    if |a| > 0 && |b| > 0 && a[0] == b[0] {
      assert a == [a[0]] + a[1..] && b == [b[0]] + b[1..];
      StrLtTotal(a[1..], b[1..]);
    }
  }

  /** `lt` is irreflexive, transitive and relates any two distinct values. */
  ghost predicate StrictTotalOrder<T(!new)>(lt: (T, T) -> bool) {
    && (forall x :: !lt(x, x))
    && (forall x, y, z :: lt(x, y) && lt(y, z) ==> lt(x, z))
    && (forall x, y :: x != y ==> lt(x, y) || lt(y, x))
  }

  lemma StrLtIsStrictTotalOrder()
    ensures StrictTotalOrder(StrLt)
  {
    forall x: string {
      StrLtIrreflexive(x);
    }
    forall x: string, y: string, z: string | StrLt(x, y) && StrLt(y, z)
      ensures StrLt(x, z)
    {
      StrLtTransitive(x, y, z);
    }
    forall x: string, y: string | x != y
      ensures StrLt(x, y) || StrLt(y, x)
    {
      StrLtTotal(x, y);
    }
  }

  predicate StrictlyIncreasing<T>(s: seq<T>, lt: (T, T) -> bool) {
    forall i, j :: 0 <= i < j < |s| ==> lt(s[i], s[j])
  }

  /** The least element of a non-empty set: one pass that keeps the smallest value seen so far. */
  method Least<T(==,!new)>(s: set<T>, lt: (T, T) -> bool) returns (m: T)
    requires s != {} && StrictTotalOrder(lt)
    ensures m in s
    ensures forall y :: y in s && y != m ==> lt(m, y)
  {
    m :| m in s;
    var unseen := s - {m};
    while unseen != {}
      invariant unseen <= s && m in s && m !in unseen
      invariant forall y :: y in s && y !in unseen && y != m ==> lt(m, y)
      decreases unseen
    {
      var y :| y in unseen;
      if lt(y, m) {
        m := y;
      }
      unseen := unseen - {y};
    }
  }

  /**
   * `sorted(s)` for a collection of distinct values: repeatedly moves the least
   * remaining value to the end of the result.
   */
  method SortSet<T(==,!new)>(s: set<T>, lt: (T, T) -> bool) returns (r: seq<T>)
    requires StrictTotalOrder(lt)
    ensures StrictlyIncreasing(r, lt)
    ensures forall x :: x in r <==> x in s
    ensures |r| == |s|
  {
    r := [];
    var rest := s;
    while rest != {}
      invariant rest <= s
      invariant forall x :: x in s <==> x in r || x in rest
      invariant forall x :: x in r ==> x !in rest
      invariant |r| + |rest| == |s|
      invariant StrictlyIncreasing(r, lt)
      invariant forall i, y :: 0 <= i < |r| && y in rest ==> lt(r[i], y)
      decreases rest
    {
      var m := Least(rest, lt);
      r := r + [m];
      rest := rest - {m};
    }
  }

  lemma {:induction false} TailMembers<T(!new)>(s: seq<T>, lt: (T, T) -> bool, x: T)
    requires StrictTotalOrder(lt) && StrictlyIncreasing(s, lt) && s != []
    ensures x in s[1..] <==> x in s && x != s[0]
  {
    if x in s[1..] {
      var k :| 0 <= k < |s[1..]| && s[1..][k] == x;
      assert lt(s[0], s[k + 1]);
    }
    if x in s && x != s[0] {
      var k :| 0 <= k < |s| && s[k] == x;
      assert s[1..][k - 1] == x;
    }
  }

  lemma {:induction false} HeadIsLeast<T(!new)>(s: seq<T>, lt: (T, T) -> bool, x: T)
    requires StrictlyIncreasing(s, lt) && x in s
    ensures x == s[0] || lt(s[0], x)
  {
    var k :| 0 <= k < |s| && s[k] == x;
    if k > 0 {
      assert lt(s[0], s[k]);
    }
  }

  /**
   * Two strictly increasing sequences with the same elements are equal: the
   * result of sorting a set of distinct values is determined by the set.
   */
  lemma {:induction false} IncreasingUnique<T(!new)>(a: seq<T>, b: seq<T>, lt: (T, T) -> bool)
    requires StrictTotalOrder(lt)
    requires StrictlyIncreasing(a, lt) && StrictlyIncreasing(b, lt)
    requires forall x :: x in a <==> x in b
    ensures a == b
    decreases |a|
  {
    // The head of b is in a, so b is empty whenever a is.
    assert b != [] ==> b[0] in a;
    assert a == [] ==> |b| == 0;
    if a != [] {
      assert a[0] in b;
      assert b != [];
      assert b[0] in a;
      HeadIsLeast(b, lt, a[0]);
      HeadIsLeast(a, lt, b[0]);
      assert a[0] == b[0];
      forall x
        ensures x in a[1..] <==> x in b[1..]
      {
        TailMembers(a, lt, x);
        TailMembers(b, lt, x);
      }
      assert StrictlyIncreasing(a[1..], lt) by {
        forall i, j | 0 <= i < j < |a[1..]| ensures lt(a[1..][i], a[1..][j]) {
          assert lt(a[i + 1], a[j + 1]);
        }
      }
      assert StrictlyIncreasing(b[1..], lt) by {
        forall i, j | 0 <= i < j < |b[1..]| ensures lt(b[1..][i], b[1..][j]) {
          assert lt(b[i + 1], b[j + 1]);
        }
      }
      IncreasingUnique(a[1..], b[1..], lt);
      assert a == [a[0]] + a[1..] && b == [b[0]] + b[1..];
    }
  }
}
