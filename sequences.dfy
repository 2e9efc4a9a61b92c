/** The LINQ operators the evaluator uses (Where, Count, Take, Distinct,
    Except, OrderBy/OrderByDescending), written out on sequences. */
module Sequences {

  /** Enumerable.Where: the elements satisfying p, in their original order. */
  function Where<T(!new)>(s: seq<T>, p: T -> bool): (r: seq<T>)
    ensures |r| <= |s|
    ensures forall x :: x in r <==> x in s && p(x)
  {
    if |s| == 0 then []
    else
      assert s == [s[0]] + s[1..];
      (if p(s[0]) then [s[0]] else []) + Where(s[1..], p)
  }

  /** Where keeps each element at most as often as s has it. */
  lemma {:induction false} WhereMultiset<T(!new)>(s: seq<T>, p: T -> bool)
    ensures multiset(Where(s, p)) <= multiset(s)
  {
    if |s| > 0 {
      WhereMultiset(s[1..], p);
      assert s == [s[0]] + s[1..];
    }
  }

  /** Where with p and with its negation split s between them. */
  lemma {:induction false} WherePartition<T(!new)>(s: seq<T>, p: T -> bool, q: T -> bool)
    requires forall x :: q(x) == !p(x)
    ensures multiset(Where(s, p)) + multiset(Where(s, q)) == multiset(s)
  {
    if |s| > 0 {
      WherePartition(s[1..], p, q);
      assert s == [s[0]] + s[1..];
      assert multiset(s) == multiset{s[0]} + multiset(s[1..]);
    }
  }

  lemma {:induction false} WhereAppend<T(!new)>(a: seq<T>, b: seq<T>, p: T -> bool)
    ensures Where(a + b, p) == Where(a, p) + Where(b, p)
  {
    if |a| > 0 {
      assert (a + b)[0] == a[0] && (a + b)[1..] == a[1..] + b;
      WhereAppend(a[1..], b, p);
    } else {
      assert a + b == b;
    }
  }

  /** Where keeps everything when p holds throughout, and nothing when p
      holds nowhere. */
  lemma {:induction false} WhereAllOrNone<T(!new)>(s: seq<T>, p: T -> bool)
    ensures (forall x :: x in s ==> p(x)) ==> Where(s, p) == s
    ensures (forall x :: x in s ==> !p(x)) ==> Where(s, p) == []
  {
    if |s| > 0 {
      assert forall x :: x in s[1..] ==> x in s;
      WhereAllOrNone(s[1..], p);
      assert s == [s[0]] + s[1..];
    }
  }

  /** Enumerable.Take: at most n leading elements; nothing when n <= 0. */
  function Take<T>(s: seq<T>, n: int): (r: seq<T>)
    ensures |r| == if n <= 0 then 0 else if n < |s| then n else |s|
    ensures r <= s
  {
    if n <= 0 then [] else if n < |s| then s[..n] else s
  }

  predicate NoDuplicates<T(==)>(s: seq<T>) {
    forall i, j :: 0 <= i < j < |s| ==> s[i] != s[j]
  }

  /** Enumerable.Distinct: each element once, at the place it first occurs. */
  function Distinct<T(==,!new)>(s: seq<T>): (r: seq<T>)
    ensures forall x :: x in r <==> x in s
    ensures NoDuplicates(r)
    ensures |r| <= |s|
  {
    if |s| == 0 then []
    else
      var r := Distinct(s[..|s| - 1]);
      assert forall x :: x in s <==> x in s[..|s| - 1] || x == s[|s| - 1];
      if s[|s| - 1] in r then r else r + [s[|s| - 1]]
  }

  /** List.Remove: drops the first occurrence of x, if any. */
  function RemoveFirst<T(==,!new)>(s: seq<T>, x: T): (r: seq<T>)
    ensures NoDuplicates(s) ==> NoDuplicates(r) && forall y :: y in r <==> y in s && y != x
    ensures x !in s ==> r == s
  {
    if |s| == 0 then []
    else if s[0] == x then s[1..]
    else
      var t := RemoveFirst(s[1..], x);
      assert NoDuplicates(s) ==> forall i :: 0 <= i < |t| ==> t[i] != s[0] by {
        if NoDuplicates(s) {
          forall i | 0 <= i < |t| ensures t[i] != s[0] {
            assert t[i] in t;
            var k :| 0 <= k < |s[1..]| && s[1..][k] == t[i];
            assert s[k + 1] == t[i];
          }
        }
      }
      [s[0]] + t
  }

  /** Where keeps a strictly increasing list strictly increasing. */
  lemma {:induction false} WhereIncreasing(s: seq<int>, p: int -> bool)
    requires Increasing(s)
    ensures Increasing(Where(s, p))
  {
    if |s| > 0 {
      WhereIncreasing(s[1..], p);
      var t := Where(s[1..], p);
      assert forall i :: 0 <= i < |t| ==> s[0] < t[i] by {
        forall i | 0 <= i < |t| ensures s[0] < t[i] {
          assert t[i] in s[1..];
        }
      }
    }
  }

  /** RemoveFirst keeps a strictly increasing list strictly increasing. */
  lemma {:induction false} RemoveFirstIncreasing(s: seq<int>, x: int)
    requires Increasing(s)
    ensures Increasing(RemoveFirst(s, x))
  {
    if |s| > 0 && s[0] != x {
      RemoveFirstIncreasing(s[1..], x);
      var t := RemoveFirst(s[1..], x);
      assert NoDuplicates(s[1..]);
      assert forall i :: 0 <= i < |t| ==> s[0] < t[i] by {
        forall i | 0 <= i < |t| ensures s[0] < t[i] {
          assert t[i] in s[1..];
        }
      }
    }
  }

  /** A sequence without duplicates has as many elements as its set. */
  lemma {:induction false} DistinctCardinality<T>(s: seq<T>)
    requires NoDuplicates(s)
    ensures |set x | x in s| == |s|
  {
    if |s| > 0 {
      DistinctCardinality(s[1..]);
      assert (set x | x in s) == (set x | x in s[1..]) + {s[0]};
    }
  }

  /** A list without duplicates holds each element at most once. */
  lemma {:induction false} NoDuplicatesOnce<T>(s: seq<T>, x: T)
    requires NoDuplicates(s)
    ensures multiset(s)[x] <= 1
  {
    if |s| > 0 {
      assert s == [s[0]] + s[1..];
      assert NoDuplicates(s[1..]) by {
        forall i, j | 0 <= i < j < |s[1..]| ensures s[1..][i] != s[1..][j] {
          assert s[1..][i] == s[i + 1] && s[1..][j] == s[j + 1];
        }
      }
      NoDuplicatesOnce(s[1..], x);
      if s[0] == x {
        assert x !in s[1..] by {
          forall k | 0 <= k < |s[1..]| ensures s[1..][k] != x {
            assert s[1..][k] == s[k + 1];
          }
        }
      }
    }
  }

  /** Enumerable.Except: the distinct elements of s that do not occur in t. */
  function Except<T(==,!new)>(s: seq<T>, t: seq<T>): (r: seq<T>)
    ensures forall x :: x in r <==> x in s && x !in t
    ensures NoDuplicates(r)
  {
    Distinct(Where(s, x => x !in t))
  }

  predicate Sorted<T>(s: seq<T>, key: T -> int) {
    forall i, j :: 0 <= i < j < |s| ==> key(s[i]) <= key(s[j])
  }

  /** Places x in front of the first element whose key is not smaller, so
      that of two equal keys the one inserted later (earlier in the input)
      comes first. */
  function InsertBy<T>(x: T, s: seq<T>, key: T -> int): seq<T> {
    if |s| == 0 || key(x) <= key(s[0]) then [x] + s
    else [s[0]] + InsertBy(x, s[1..], key)
  }

  /** Inserting adds x and keeps everything else. */
  lemma {:induction false} InsertByKeeps<T>(x: T, s: seq<T>, key: T -> int)
    ensures multiset(InsertBy(x, s, key)) == multiset(s) + multiset{x}
    ensures |InsertBy(x, s, key)| == |s| + 1
  {
    if |s| > 0 && key(x) > key(s[0]) {
      InsertByKeeps(x, s[1..], key);
      assert s == [s[0]] + s[1..];
    }
  }

  /** Inserting into a sorted list keeps it sorted, and every key is at least
      that of x or of the old head. */
  lemma {:induction false} InsertBySorted<T>(x: T, s: seq<T>, key: T -> int)
    requires Sorted(s, key)
    ensures Sorted(InsertBy(x, s, key), key)
    ensures forall i :: 0 <= i < |InsertBy(x, s, key)| ==>
      key(x) <= key(InsertBy(x, s, key)[i]) || (|s| > 0 && key(s[0]) <= key(InsertBy(x, s, key)[i]))
  {
    if |s| > 0 && key(x) > key(s[0]) {
      var t := InsertBy(x, s[1..], key);
      InsertBySorted(x, s[1..], key);
      assert forall i :: 0 <= i < |t| ==> key(s[0]) <= key(t[i]);
    }
  }

  /** Enumerable.OrderBy on an integer key: a stable sort. */
  function SortBy<T>(s: seq<T>, key: T -> int): (r: seq<T>)
    ensures Sorted(r, key)
    ensures multiset(r) == multiset(s)
    ensures |r| == |s|
  {
    if |s| == 0 then []
    else
      var t := SortBy(s[1..], key);
      SortByStep(s, t, key);
      InsertBy(s[0], t, key)
  }

  /** Inserting the head of s into the sorted rest keeps SortBy's promises. */
  lemma SortByStep<T>(s: seq<T>, t: seq<T>, key: T -> int)
    requires |s| > 0 && Sorted(t, key) && multiset(t) == multiset(s[1..])
    ensures Sorted(InsertBy(s[0], t, key), key)
    ensures multiset(InsertBy(s[0], t, key)) == multiset(s)
    ensures |InsertBy(s[0], t, key)| == |s|
  {
    InsertByKeeps(s[0], t, key);
    InsertBySorted(s[0], t, key);
    assert s == [s[0]] + s[1..];
    assert |t| == |s[1..]| by { assert |multiset(t)| == |multiset(s[1..])|; }
  }

  /** A list sorted by key starts with the element of least key. */
  lemma SortedHead<T>(p: seq<T>, q: seq<T>, key: T -> int)
    requires forall i, j :: 0 <= i < j < |p| ==> key(p[i]) < key(p[j])
    requires Sorted(q, key) && multiset(q) == multiset(p) && |p| > 0
    ensures |q| > 0 && q[0] == p[0]
  {
    assert |q| == |multiset(q)| == |p|;
    assert q[0] in multiset(p) && p[0] in multiset(q);
    var j :| 0 <= j < |p| && p[j] == q[0];
    var k :| 0 <= k < |q| && q[k] == p[0];
    assert key(q[0]) <= key(q[k]);
  }

  /** Dropping equal heads keeps equal multisets. */
  lemma MultisetTails<T>(p: seq<T>, q: seq<T>)
    requires |p| > 0 && |q| > 0 && p[0] == q[0] && multiset(q) == multiset(p)
    ensures multiset(q[1..]) == multiset(p[1..])
  {
    assert p == [p[0]] + p[1..] && q == [q[0]] + q[1..];
    assert multiset(q[1..]) == multiset(q) - multiset{q[0]};
    assert multiset(p[1..]) == multiset(p) - multiset{p[0]};
  }

  lemma SortedTail<T>(q: seq<T>, key: T -> int)
    requires Sorted(q, key) && |q| > 0
    ensures Sorted(q[1..], key)
  {
    forall i, j | 0 <= i < j < |q| - 1 ensures key(q[1..][i]) <= key(q[1..][j]) {
      assert q[1..][i] == q[i + 1] && q[1..][j] == q[j + 1];
    }
  }

  lemma StrictTail<T>(p: seq<T>, key: T -> int)
    requires forall i, j :: 0 <= i < j < |p| ==> key(p[i]) < key(p[j])
    requires |p| > 0
    ensures forall i, j :: 0 <= i < j < |p[1..]| ==> key(p[1..][i]) < key(p[1..][j])
  {
    forall i, j | 0 <= i < j < |p| - 1 ensures key(p[1..][i]) < key(p[1..][j]) {
      assert p[1..][i] == p[i + 1] && p[1..][j] == p[j + 1];
    }
  }

  /** When p's keys strictly increase, the only list sorted by that key with
      the same elements as p is p. */
  lemma {:induction false} SortedUnique<T>(p: seq<T>, q: seq<T>, key: T -> int)
    requires forall i, j :: 0 <= i < j < |p| ==> key(p[i]) < key(p[j])
    requires Sorted(q, key) && multiset(q) == multiset(p)
    ensures q == p
    decreases |p|
  {
    assert |q| == |multiset(q)| == |p|;
    if |p| > 0 {
      SortedHead(p, q, key);
      MultisetTails(p, q);
      SortedTail(q, key);
      StrictTail(p, key);
      SortedUnique(p[1..], q[1..], key);
      assert p == [p[0]] + p[1..] && q == [q[0]] + q[1..];
    }
  }

  /** Enumerable.OrderByDescending: a stable sort on the negated key. */
  function SortByDescending<T>(s: seq<T>, key: T -> int): (r: seq<T>)
    ensures forall i, j :: 0 <= i < j < |r| ==> key(r[i]) >= key(r[j])
    ensures multiset(r) == multiset(s)
    ensures |r| == |s|
  {
    SortBy(s, x => -key(x))
  }

  /** OrderByDescending(key).Take(k): at most k elements, highest key first. */
  function Top<T>(s: seq<T>, key: T -> int, k: int): (r: seq<T>)
    ensures |r| == if k <= 0 then 0 else if k < |s| then k else |s|
    ensures forall i, j :: 0 <= i < j < |r| ==> key(r[i]) >= key(r[j])
    ensures multiset(r) <= multiset(s)
  {
    var sorted := SortByDescending(s, key);
    var r := Take(sorted, k);
    assert forall i :: 0 <= i < |r| ==> r[i] == sorted[i];
    assert sorted == r + sorted[|r|..];
    assert multiset(sorted) == multiset(r) + multiset(sorted[|r|..]);
    r
  }

  /** Every element Top leaves out ranks no higher than every one it keeps. */
  lemma TopIsHighest<T>(s: seq<T>, key: T -> int, k: int, x: T, i: int)
    requires x in multiset(s) - multiset(Top(s, key, k))
    requires 0 <= i < |Top(s, key, k)|
    ensures key(x) <= key(Top(s, key, k)[i])
  {
    var sorted := SortByDescending(s, key);
    var r := Top(s, key, k);
    var rest := sorted[|r|..];
    assert sorted == r + rest;
    assert multiset(sorted) == multiset(r) + multiset(rest);
    assert x in multiset(rest);
    var j :| 0 <= j < |rest| && rest[j] == x;
    assert sorted[|r| + j] == x && sorted[i] == r[i];
  }

  predicate Increasing(s: seq<int>) {
    forall i, j :: 0 <= i < j < |s| ==> s[i] < s[j]
  }

  function InsertDistinct(x: int, s: seq<int>): (r: seq<int>)
    requires Increasing(s)
    ensures Increasing(r)
    ensures forall y :: y in r <==> y in s || y == x
    ensures |r| <= |s| + 1
  {
    if |s| == 0 || x < s[0] then [x] + s
    else if x == s[0] then s
    else
      var t := InsertDistinct(x, s[1..]);
      assert forall i :: 0 <= i < |t| ==> s[0] < t[i] by {
        forall i | 0 <= i < |t| ensures s[0] < t[i] {
          assert t[i] in t;
        }
      }
      [s[0]] + t
  }

  /** Distinct().OrderBy(v => v) on integers: the distinct values in
      strictly increasing order. */
  function Ascending(s: seq<int>): (r: seq<int>)
    ensures Increasing(r)
    ensures forall y :: y in r <==> y in s
    ensures |r| <= |s|
  {
    if |s| == 0 then []
    else
      assert forall y :: y in s <==> y == s[0] || y in s[1..];
      InsertDistinct(s[0], Ascending(s[1..]))
  }

  /** Two strictly increasing lists with the same members are the same list. */
  lemma {:induction false} IncreasingUnique(a: seq<int>, b: seq<int>)
    requires Increasing(a) && Increasing(b)
    requires forall y :: y in a <==> y in b
    ensures a == b
    decreases |a|
  {
    assert |a| > 0 ==> a[0] in a && a[0] in b;
    assert |b| > 0 ==> b[0] in b && b[0] in a;
    if |a| > 0 && |b| > 0 {
      assert a[0] == b[0] by {
        assert b[0] in a && a[0] in b;
      }
      assert forall y :: y in a[1..] <==> y in b[1..] by {
        forall y ensures y in a[1..] <==> y in b[1..] {
          assert y in a[1..] <==> y in a && y != a[0];
          assert y in b[1..] <==> y in b && y != b[0];
        }
      }
      IncreasingUnique(a[1..], b[1..]);
      assert a == [a[0]] + a[1..] && b == [b[0]] + b[1..];
    }
  }

  /** Distinct().OrderByDescending(v => v) on integers. */
  function Descending(s: seq<int>): (r: seq<int>)
    ensures forall i, j :: 0 <= i < j < |r| ==> r[i] > r[j]
    ensures forall y :: y in r <==> y in s
  {
    var a := Ascending(s);
    var r := seq(|a|, i requires 0 <= i < |a| => a[|a| - 1 - i]);
    assert forall k :: 0 <= k < |a| ==> r[|a| - 1 - k] == a[k];
    r
  }

  /** Enumerable.Min on a non-empty list of integers. */
  function Min(s: seq<int>): (m: int)
    requires |s| > 0
    ensures m in s
    ensures forall x :: x in s ==> m <= x
  {
    if |s| == 1 then s[0]
    else
      assert forall x :: x in s ==> x == s[0] || x in s[1..];
      var m := Min(s[1..]);
      if s[0] <= m then s[0] else m
  }

  function Sum(s: seq<int>): int {
    if |s| == 0 then 0 else s[0] + Sum(s[1..])
  }

  /** Changing one entry of a sequence changes its sum by the difference. */
  lemma {:induction false} SumUpdate(s: seq<int>, i: nat, x: int)
    requires i < |s|
    ensures Sum(s[i := x]) == Sum(s) - s[i] + x
  {
    if i > 0 {
      assert s[i := x][1..] == s[1..][i - 1 := x];
      SumUpdate(s[1..], i - 1, x);
    }
  }

  /** A sequence of zeros sums to zero. */
  lemma {:induction false} SumZeros(s: seq<int>)
    requires forall i :: 0 <= i < |s| ==> s[i] == 0
    ensures Sum(s) == 0
  {
    if |s| > 0 {
      SumZeros(s[1..]);
    }
  }
}
