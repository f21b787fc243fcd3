/**
 * Insertion sort over an arbitrary total preorder. The application sorts
 * three things: slot instants (`slots.sort()`), availability blocks by start
 * (`orderBy: { startAt: "asc" }`) and services by name (`orderBy: { name: "asc" }`).
 */
module Sorting {

  /** `le` is total and transitive, so sorting by it is meaningful. */
  ghost predicate TotalPreorder<T(!new)>(le: (T, T) -> bool)
  {
    && (forall x, y :: le(x, y) || le(y, x))
    && (forall x, y, z :: le(x, y) && le(y, z) ==> le(x, z))
  }

  predicate SortedBy<T>(s: seq<T>, le: (T, T) -> bool)
  {
    forall i, j :: 0 <= i < j < |s| ==> le(s[i], s[j])
  }

  lemma PrependSorted<T>(a: T, s: seq<T>, le: (T, T) -> bool)
    requires SortedBy(s, le)
    requires forall y :: y in s ==> le(a, y)
    ensures SortedBy([a] + s, le)
  {
    var t := [a] + s;
    forall i, j | 0 <= i < j < |t| ensures le(t[i], t[j]) {
      if i > 0 {
        assert t[i] == s[i - 1] && t[j] == s[j - 1];
      } else {
        assert t[j] == s[j - 1] && t[j] in s;
      }
    }
  }

  /** Places `x` in front of the first element it does not follow. */
  function Insert<T(!new)>(x: T, s: seq<T>, le: (T, T) -> bool): (r: seq<T>)
    requires TotalPreorder(le)
    requires SortedBy(s, le)
    ensures SortedBy(r, le)
    ensures multiset(r) == multiset(s) + multiset{x}
    ensures forall y :: y in r ==> y == x || y in s
  {
    if |s| == 0 then [x]
    else if le(x, s[0]) then
      assert forall y :: y in s ==> le(s[0], y) by {
        forall y | y in s ensures le(s[0], y) {
          var k :| 0 <= k < |s| && s[k] == y;
          if k > 0 { assert le(s[0], s[k]); }
        }
      }
      PrependSorted(x, s, le);
      [x] + s
    else
      var rest := Insert(x, s[1..], le);
      assert s == [s[0]] + s[1..];
      assert le(s[0], x);
      assert forall y :: y in s[1..] ==> le(s[0], y) by {
        forall y | y in s[1..] ensures le(s[0], y) {
          var k :| 0 <= k < |s[1..]| && s[1..][k] == y;
          assert s[k + 1] == y;
        }
      }
      PrependSorted(s[0], rest, le);
      [s[0]] + rest
  }

  /** Sorts `s` by `le`, keeping every element with its multiplicity. */
  function Sort<T(!new)>(s: seq<T>, le: (T, T) -> bool): (r: seq<T>)
    requires TotalPreorder(le)
    ensures SortedBy(r, le)
    ensures multiset(r) == multiset(s)
    ensures |r| == |s|
  {
    if |s| == 0 then []
    else
      assert s == [s[0]] + s[1..];
      var r := Insert(s[0], Sort(s[1..], le), le);
      assert |r| == |multiset(r)|;
      r
  }

  predicate IntLe(a: int, b: int)
  {
    a <= b
  }

  lemma IntLeIsTotalPreorder()
    ensures TotalPreorder(IntLe)
  {
  }

  /** Sorting integers: the result is ascending and a permutation of the input. */
  function SortInts(s: seq<int>): (r: seq<int>)
    ensures forall i, j :: 0 <= i < j < |r| ==> r[i] <= r[j]
    ensures multiset(r) == multiset(s)
  {
    IntLeIsTotalPreorder();
    var r := Sort(s, IntLe);
    assert forall i, j :: 0 <= i < j < |r| ==> IntLe(r[i], r[j]);
    r
  }

  /** Lexicographic order on strings by character code, as `<=` on JavaScript strings. */
  predicate LexLe(a: string, b: string)
  {
    if |a| == 0 then true
    else if |b| == 0 then false
    else if a[0] != b[0] then a[0] < b[0]
    else LexLe(a[1..], b[1..])
  }

  lemma {:induction false} LexLeTotal(a: string, b: string)
    ensures LexLe(a, b) || LexLe(b, a)
  {
    if |a| > 0 && |b| > 0 && a[0] == b[0] {
      LexLeTotal(a[1..], b[1..]);
    }
  }

  lemma {:induction false} LexLeTransitive(a: string, b: string, c: string)
    requires LexLe(a, b) && LexLe(b, c)
    ensures LexLe(a, c)
  {
    if |a| > 0 && |b| > 0 && |c| > 0 && a[0] == b[0] && b[0] == c[0] {
      LexLeTransitive(a[1..], b[1..], c[1..]);
    }
  }
}
