/** Finite sets of ids read in order: what `ORDER BY message_id` and `LIMIT` mean. */
module Ordering {
  import opened Types

  function Take<T>(s: seq<T>, n: nat): seq<T> {
    if |s| <= n then s else s[..n]
  }

  ghost predicate Ascending(s: seq<nat>) {
    forall i, j :: 0 <= i < j < |s| ==> s[i] < s[j]
  }

  lemma {:induction false} LeastExists(s: set<nat>)
    requires s != {}
    ensures exists m :: m in s && forall x :: x in s ==> m <= x
    decreases |s|
  {
    var y :| y in s;
    var smaller := set x | x in s && x < y;
    if smaller == {} {
      assert forall x :: x in s ==> x !in smaller;
      assert forall x :: x in s ==> y <= x;
    } else {
      assert smaller <= s - {y};
      SubsetSize(smaller, s - {y});
      LeastExists(smaller);
      var m :| m in smaller && forall x :: x in smaller ==> m <= x;
      assert forall x :: x in s ==> x in smaller || y <= x;
      assert m in s && forall x :: x in s ==> m <= x;
    }
  }

  lemma SubsetSize<T>(a: set<T>, b: set<T>)
    requires a <= b
    ensures |a| <= |b| && (|a| == |b| ==> a == b)
  {
    assert |b| == |a| + |b - a| by {
      assert b == a + (b - a);
    }
  }

  function Least(s: set<nat>): (m: nat)
    requires s != {}
    ensures m in s && forall x :: x in s ==> m <= x
  {
    LeastExists(s);
    var m :| m in s && forall x :: x in s ==> m <= x;
    m
  }

  function Enumerate(s: set<nat>): seq<nat> {
    if s == {} then []
    else
      var m := Least(s);
      [m] + Enumerate(s - {m})
  }

  lemma {:induction false} EnumerateSorted(s: set<nat>)
    ensures |Enumerate(s)| == |s| && Ascending(Enumerate(s))
    ensures forall x :: x in Enumerate(s) <==> x in s
  {
    if s != {} {
      var m := Least(s);
      EnumerateSorted(s - {m});
      LeastFirst(m, Enumerate(s - {m}));
    }
  }

  lemma LeastFirst(m: nat, rest: seq<nat>)
    requires Ascending(rest) && forall x :: x in rest ==> m < x
    ensures Ascending([m] + rest)
  {
    var r := [m] + rest;
    forall i, j | 0 <= i < j < |r| ensures r[i] < r[j] {
      assert r[j] == rest[j - 1] && rest[j - 1] in rest;
    }
  }

  /** The elements in ascending order. */
  function Sorted(s: set<nat>): (r: seq<nat>)
    ensures |r| == |s| && Ascending(r)
    ensures forall x :: x in r <==> x in s
  {
    EnumerateSorted(s);
    Enumerate(s)
  }

  /** The greatest element, as `ORDER BY message_id DESC LIMIT 1` finds it. */
  function Highest(s: set<nat>): (h: Option<nat>)
    ensures h.None? <==> s == {}
    ensures h.Some? ==> h.value in s && forall x :: x in s ==> x <= h.value
  {
    if s == {} then None
    else
      assert forall x :: x in s ==> x in Sorted(s);
      Some(Sorted(s)[|s| - 1])
  }

  /** The elements above a mark, all of them when there is no mark. */
  function Above(s: set<nat>, mark: Option<nat>): set<nat> {
    set x | x in s && (mark.Some? ==> x > mark.value)
  }

  /** There is only one ascending sequence with given elements. */
  lemma {:induction false} SortedUnique(s: set<nat>, r: seq<nat>)
    requires Ascending(r) && forall x :: x in r <==> x in s
    ensures r == Sorted(s)
    decreases |r|
  {
    if r == [] {
      assert forall x :: x !in s;
    } else {
      assert r[0] in s;
      var m := Least(s);
      assert m in r;
      assert r[0] == m;
      var rest := r[1..];
      forall x ensures x in rest <==> x in s - {m} {
        if x in s - {m} {
          assert x in r && x != r[0];
        }
        if x in rest {
          assert x in r;
        }
      }
      SortedUnique(s - {m}, rest);
    }
  }

  /** Reading on from the last element of a page continues exactly where the page ended. */
  lemma AboveLast(s: set<nat>, mark: Option<nat>, n: nat)
    requires 0 < n <= |Above(s, mark)|
    ensures var all := Sorted(Above(s, mark)); Sorted(Above(s, Some(all[n - 1]))) == all[n..]
  {
    var all := Sorted(Above(s, mark));
    var rest := all[n..];
    forall x ensures x in rest <==> x in Above(s, Some(all[n - 1])) {
      if x in Above(s, Some(all[n - 1])) {
        assert x in s && x > all[n - 1];
        assert all[n - 1] in Above(s, mark);
        assert x in Above(s, mark);
        assert x in all;
        var i :| 0 <= i < |all| && all[i] == x;
        assert i >= n;
        assert rest[i - n] == x;
      }
      if x in rest {
        var i :| 0 <= i < |rest| && rest[i] == x;
        assert all[n + i] == x && all[n - 1] < all[n + i];
        assert x in Above(s, mark);
      }
    }
    SortedUnique(Above(s, Some(all[n - 1])), rest);
  }

  /** Appending larger elements to a log leaves the order of the earlier ones alone. */
  lemma SortedAppend(s: set<nat>, more: set<nat>)
    requires forall x, y :: x in s && y in more ==> x < y
    ensures Sorted(s + more) == Sorted(s) + Sorted(more)
  {
    var r := Sorted(s) + Sorted(more);
    forall i, j | 0 <= i < j < |r| ensures r[i] < r[j] {
      if i < |s| <= j {
        assert r[i] == Sorted(s)[i] && r[i] in Sorted(s);
        assert r[j] == Sorted(more)[j - |s|] && r[j] in Sorted(more);
      }
    }
    SortedUnique(s + more, r);
  }

  /** A log that only grew by larger elements: what was above the mark still comes first, in the same order. */
  lemma GrownOrder(s: set<nat>, s': set<nat>, mark: Option<nat>)
    requires s <= s' && forall x, y :: x in s && y in s' - s ==> x < y
    ensures Sorted(Above(s, mark)) <= Sorted(Above(s', mark))
  {
    var before, after := Above(s, mark), Above(s', mark);
    var more := after - before;
    forall x, y | x in before && y in more ensures x < y {
      assert x in s && y in s' - s;
    }
    SortedAppend(before, more);
    assert before <= after;
    assert before + more == after;
    assert Sorted(after) == Sorted(before) + Sorted(more);
  }
}
