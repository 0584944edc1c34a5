/** Stable sorting by a comparison, as `Array.prototype.sort` and `ORDER BY` provide it. */
module Sorting {
  /** Any two elements compare, and comparisons chain; ties between different elements are allowed. */
  ghost predicate TotalPreorder<T(!new)>(leq: (T, T) -> bool) {
    && (forall x, y :: leq(x, y) || leq(y, x))
    && (forall x, y, z :: leq(x, y) && leq(y, z) ==> leq(x, z))
  }

  function Insert<T>(leq: (T, T) -> bool, x: T, s: seq<T>): seq<T> {
    if s == [] then [x]
    else if leq(x, s[0]) then [x] + s
    else [s[0]] + Insert(leq, x, s[1..])
  }

  function Sort<T>(leq: (T, T) -> bool, s: seq<T>): seq<T> {
    if s == [] then [] else Insert(leq, s[0], Sort(leq, s[1..]))
  }

  ghost predicate Sorted<T>(leq: (T, T) -> bool, s: seq<T>) {
    forall i, j :: 0 <= i < j < |s| ==> leq(s[i], s[j])
  }

  ghost predicate Distinct<T>(s: seq<T>) {
    forall i, j :: 0 <= i < j < |s| ==> s[i] != s[j]
  }

  /** `x` stands somewhere before `y` in `s`. */
  ghost predicate Before<T>(s: seq<T>, x: T, y: T) {
    exists i, j :: 0 <= i < j < |s| && s[i] == x && s[j] == y
  }

  lemma {:induction false} InsertElements<T>(leq: (T, T) -> bool, x: T, s: seq<T>)
    ensures multiset(Insert(leq, x, s)) == multiset{x} + multiset(s)
    ensures |Insert(leq, x, s)| == |s| + 1
  {
    if s != [] && !leq(x, s[0]) {
      InsertElements(leq, x, s[1..]);
      assert s == [s[0]] + s[1..];
    }
  }

  lemma {:induction false} SortElements<T>(leq: (T, T) -> bool, s: seq<T>)
    ensures multiset(Sort(leq, s)) == multiset(s)
    ensures |Sort(leq, s)| == |s|
    ensures forall x :: x in s <==> x in Sort(leq, s)
  {
    if s != [] {
      SortElements(leq, s[1..]);
      InsertElements(leq, s[0], Sort(leq, s[1..]));
      assert s == [s[0]] + s[1..];
    }
    assert forall x :: x in s <==> x in multiset(s);
    assert forall x :: x in Sort(leq, s) <==> x in multiset(Sort(leq, s));
  }

  lemma {:induction false} InsertSorted<T(!new)>(leq: (T, T) -> bool, x: T, s: seq<T>)
    requires TotalPreorder(leq) && Sorted(leq, s)
    ensures Sorted(leq, Insert(leq, x, s))
  {
    if s != [] && !leq(x, s[0]) {
      InsertSorted(leq, x, s[1..]);
      InsertElements(leq, x, s[1..]);
      var t := Insert(leq, x, s[1..]);
      forall j | 0 <= j < |t| ensures leq(s[0], t[j]) {
        assert t[j] in multiset(t);
        assert t[j] == x || t[j] in s[1..];
      }
    }
  }

  lemma {:induction false} SortSorted<T(!new)>(leq: (T, T) -> bool, s: seq<T>)
    requires TotalPreorder(leq)
    ensures Sorted(leq, Sort(leq, s))
  {
    if s != [] {
      SortSorted(leq, s[1..]);
      InsertSorted(leq, s[0], Sort(leq, s[1..]));
    }
  }

  lemma {:induction false} DistinctByMultiset<T>(s: seq<T>, t: seq<T>)
    requires Distinct(s) && multiset(s) == multiset(t)
    ensures Distinct(t)
  {
    forall i, j | 0 <= i < j < |t| ensures t[i] != t[j] {
      if t[i] == t[j] {
        assert t == t[..i] + [t[i]] + t[i + 1..j] + [t[j]] + t[j + 1..];
        assert multiset(t)[t[i]] >= 2;
        DistinctCount(s, t[i]);
        assert false;
      }
    }
  }

  lemma {:induction false} DistinctCount<T>(s: seq<T>, x: T)
    requires Distinct(s)
    ensures multiset(s)[x] <= 1
  {
    if s != [] {
      DistinctCount(s[1..], x);
      assert s == [s[0]] + s[1..];
      if s[0] == x {
        assert x !in s[1..];
        assert multiset(s[1..])[x] == 0;
      }
    }
  }

  /** A distinct sequence is determined by its elements once no two of them tie. */
  lemma {:induction false} SortedUnique<T(!new)>(leq: (T, T) -> bool, s: seq<T>, t: seq<T>)
    requires Sorted(leq, s) && Sorted(leq, t) && Distinct(s) && Distinct(t)
    requires forall x :: x in s <==> x in t
    requires forall x, y :: x in s && y in s && leq(x, y) && leq(y, x) ==> x == y
    ensures s == t
  {
    if s == [] {
      assert forall i :: 0 <= i < |t| ==> t[i] in s;
    } else {
      assert s[0] in t;
      assert t[0] in s;
      var i :| 0 <= i < |t| && t[i] == s[0];
      var j :| 0 <= j < |s| && s[j] == t[0];
      assert s[0] == t[0];
      forall x ensures x in s[1..] <==> x in t[1..] {
        assert x in s[1..] ==> x in s && x != s[0];
        assert x in t[1..] ==> x in t && x != t[0];
      }
      SortedUnique(leq, s[1..], t[1..]);
      assert s == [s[0]] + s[1..] && t == [t[0]] + t[1..];
    }
  }

  lemma {:induction false} InsertKeepsBefore<T>(leq: (T, T) -> bool, z: T, s: seq<T>, x: T, y: T)
    requires Before(s, x, y)
    ensures Before(Insert(leq, z, s), x, y)
  {
    var i, j :| 0 <= i < j < |s| && s[i] == x && s[j] == y;
    var r := Insert(leq, z, s);
    if leq(z, s[0]) {
      assert r[i + 1] == x && r[j + 1] == y;
    } else {
      InsertElements(leq, z, s[1..]);
      var t := Insert(leq, z, s[1..]);
      if i == 0 {
        assert y in multiset(s[1..]) by { assert s[1..][j - 1] == y; }
        assert y in multiset(t);
        var k :| 0 <= k < |t| && t[k] == y;
        assert r[0] == x && r[k + 1] == y;
      } else {
        assert s[1..][i - 1] == x && s[1..][j - 1] == y;
        InsertKeepsBefore(leq, z, s[1..], x, y);
        var k, l :| 0 <= k < l < |t| && t[k] == x && t[l] == y;
        assert r[k + 1] == x && r[l + 1] == y;
      }
    }
  }

  lemma {:induction false} InsertBefore<T>(leq: (T, T) -> bool, x: T, s: seq<T>, y: T)
    requires y in s && leq(x, y)
    ensures Before(Insert(leq, x, s), x, y)
  {
    var j :| 0 <= j < |s| && s[j] == y;
    var r := Insert(leq, x, s);
    if leq(x, s[0]) {
      assert r[0] == x && r[j + 1] == y;
    } else {
      assert s[1..][j - 1] == y;
      InsertBefore(leq, x, s[1..], y);
      var t := Insert(leq, x, s[1..]);
      var k, l :| 0 <= k < l < |t| && t[k] == x && t[l] == y;
      assert r[k + 1] == x && r[l + 1] == y;
    }
  }

  /** Stability: what stood first and does not compare greater still stands first. */
  lemma {:induction false} SortStable<T>(leq: (T, T) -> bool, s: seq<T>, x: T, y: T)
    requires Before(s, x, y) && leq(x, y)
    ensures Before(Sort(leq, s), x, y)
  {
    var i, j :| 0 <= i < j < |s| && s[i] == x && s[j] == y;
    SortElements(leq, s[1..]);
    assert s[1..][j - 1] == y;
    if i == 0 {
      InsertBefore(leq, x, Sort(leq, s[1..]), y);
    } else {
      assert s[1..][i - 1] == x;
      SortStable(leq, s[1..], x, y);
      InsertKeepsBefore(leq, s[0], Sort(leq, s[1..]), x, y);
    }
  }
}
