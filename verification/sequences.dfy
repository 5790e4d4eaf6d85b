/** Ordering, distinctness and mapping over sequences, and the sort the replay
    loop applies to the version numbers (Python's `list.sort` on integers). */
module Sequences {

  predicate Sorted(s: seq<int>) {
    forall i, j :: 0 <= i < j < |s| ==> s[i] <= s[j]
  }

  predicate StrictlyIncreasing(s: seq<int>) {
    forall i, j :: 0 <= i < j < |s| ==> s[i] < s[j]
  }

  predicate Distinct<T(==)>(s: seq<T>) {
    forall i, j :: 0 <= i < j < |s| ==> s[i] != s[j]
  }

  predicate IsPrefix<T(==)>(p: seq<T>, s: seq<T>) {
    |p| <= |s| && s[..|p|] == p
  }

  function Last<T>(s: seq<T>): T
    requires |s| > 0
  {
    s[|s| - 1]
  }

  /** Putting back the head of `s` in front of a prefix of its tail gives a
      prefix of `s`, the whole of `s` exactly when the prefix was the whole tail. */
  lemma PrefixCons<T>(s: seq<T>, p: seq<T>)
    requires |s| > 0 && IsPrefix(p, s[1..])
    ensures IsPrefix([s[0]] + p, s)
    ensures [s[0]] + p == s <==> p == s[1..]
    ensures |p| < |s| - 1 ==> s[|p| + 1] == s[1..][|p|] && s[..|p| + 2] == [s[0]] + s[1..][..|p| + 1]
    ensures p != [] ==> Last([s[0]] + p) == Last(p)
  {
    assert s == [s[0]] + s[1..];
    if |p| < |s| - 1 {
      assert s[..|p| + 2] == [s[0]] + s[1..][..|p| + 1];
    }
  }

  /** A prefix holds only elements of the whole and keeps its strict order. */
  lemma PrefixKeeps(p: seq<int>, s: seq<int>)
    requires IsPrefix(p, s)
    ensures forall x :: x in p ==> x in s
    ensures StrictlyIncreasing(s) ==> StrictlyIncreasing(p)
  {
    forall x | x in p
      ensures x in s
    {
      var i :| 0 <= i < |p| && p[i] == x;
      assert s[i] == x;
    }
  }

  /** The last element of a sorted rearrangement of `t` is the largest of `t`. */
  lemma SortedLastIsMaximum(s: seq<int>, t: seq<int>)
    requires Sorted(s) && multiset(s) == multiset(t) && |t| > 0
    ensures |s| > 0
    ensures forall i :: 0 <= i < |t| ==> t[i] <= Last(s)
    ensures Last(s) in t
  {
    assert |s| == |multiset(s)| == |multiset(t)| == |t|;
    forall i | 0 <= i < |t|
      ensures t[i] <= Last(s)
    {
      assert t[i] in multiset(s);
    }
    assert Last(s) in multiset(t);
  }

  function MapSeq<A, B>(f: A -> B, s: seq<A>): (r: seq<B>)
    ensures |r| == |s| && forall i :: 0 <= i < |s| ==> r[i] == f(s[i])
  {
    seq(|s|, i requires 0 <= i < |s| => f(s[i]))
  }

  /** Places `x` into a sorted sequence, before the first element not smaller than it. */
  function Insert(x: int, s: seq<int>): (r: seq<int>)
    requires Sorted(s)
    ensures Sorted(r)
    ensures multiset(r) == multiset(s) + multiset{x}
    ensures r[0] == x || (|s| > 0 && r[0] == s[0])
  {
    if |s| == 0 || x <= s[0] then
      SortedCons(x, s);
      [x] + s
    else
      var tail := Insert(x, s[1..]);
      assert s == [s[0]] + s[1..];
      SortedCons(s[0], tail);
      [s[0]] + tail
  }

  /** An element no greater than the head of a sorted sequence can go in front. */
  lemma SortedCons(h: int, t: seq<int>)
    requires Sorted(t) && (|t| > 0 ==> h <= t[0])
    ensures Sorted([h] + t)
  {
  }

  /** Ascending sort of a sequence of integers. */
  function Sort(s: seq<int>): (r: seq<int>)
    ensures Sorted(r)
    ensures multiset(r) == multiset(s)
  {
    if |s| == 0 then []
    else
      assert s == [s[0]] + s[1..];
      Insert(s[0], Sort(s[1..]))
  }

  lemma HeadIsMinimum(s: seq<int>, x: int)
    requires Sorted(s) && x in s
    ensures s[0] <= x
  {
    var k :| 0 <= k < |s| && s[k] == x;
    assert s[0] <= s[k];
  }

  lemma TailPermutation(a: seq<int>, b: seq<int>)
    requires |a| > 0 && |b| > 0 && a[0] == b[0]
    requires multiset(a) == multiset(b)
    ensures multiset(a[1..]) == multiset(b[1..])
  {
    assert a == [a[0]] + a[1..];
    assert b == [b[0]] + b[1..];
    assert multiset(a[1..]) == multiset(a) - multiset{a[0]};
    assert multiset(b[1..]) == multiset(b) - multiset{b[0]};
  }

  /** There is only one sorted arrangement of a multiset: whichever algorithm
      sorts the versions, the result is the one `Sort` computes. */
  lemma {:induction false} SortedPermutationUnique(a: seq<int>, b: seq<int>)
    requires Sorted(a) && Sorted(b)
    requires multiset(a) == multiset(b)
    ensures a == b
  {
    assert |a| == |multiset(a)| == |multiset(b)| == |b|;
    if |a| > 0 {
      assert a[0] in multiset(b) && b[0] in multiset(a);
      HeadIsMinimum(a, b[0]);
      HeadIsMinimum(b, a[0]);
      TailPermutation(a, b);
      SortedPermutationUnique(a[1..], b[1..]);
      assert a == [a[0]] + a[1..];
      assert b == [b[0]] + b[1..];
    }
  }

  lemma SortUnique(s: seq<int>, r: seq<int>)
    requires Sorted(r) && multiset(r) == multiset(s)
    ensures r == Sort(s)
  {
    SortedPermutationUnique(r, Sort(s));
  }

  /** A sequence is free of repeats exactly when each element occurs once in its multiset. */
  lemma {:induction false} DistinctCounts<T>(s: seq<T>)
    ensures Distinct(s) <==> forall x :: x in multiset(s) ==> multiset(s)[x] == 1
  {
    if Distinct(s) {
      if |s| > 0 {
        var init := s[..|s| - 1];
        assert s == init + [Last(s)];
        assert Distinct(init);
        DistinctCounts(init);
        assert Last(s) !in multiset(init);
      }
    }
    if forall x :: x in multiset(s) ==> multiset(s)[x] == 1 {
      forall i, j | 0 <= i < j < |s|
        ensures s[i] != s[j]
      {
        if s[i] == s[j] {
          RepeatCounted(s, i, j);
          assert false;
        }
      }
    }
  }

  lemma RepeatCounted<T>(s: seq<T>, i: int, j: int)
    requires 0 <= i < j < |s| && s[i] == s[j]
    ensures multiset(s)[s[i]] >= 2
  {
    assert s == s[..j] + s[j..];
    assert s[i] in multiset(s[..j]);
    assert s[j..][0] == s[j];
    assert s[j] in multiset(s[j..]);
  }

  lemma DistinctPermutation<T>(a: seq<T>, b: seq<T>)
    requires Distinct(a) && multiset(a) == multiset(b)
    ensures Distinct(b)
  {
    DistinctCounts(a);
    DistinctCounts(b);
  }

  lemma SortedDistinctIsStrict(s: seq<int>)
    requires Sorted(s) && Distinct(s)
    ensures StrictlyIncreasing(s)
  {
  }

  /** Applying a function to each element of two permutations of each other
      gives two permutations of each other. */
  lemma {:induction false} MapPermutation<A, B>(f: A -> B, a: seq<A>, b: seq<A>)
    requires multiset(a) == multiset(b)
    ensures multiset(MapSeq(f, a)) == multiset(MapSeq(f, b))
  {
    if |a| > 0 {
      assert a[0] in multiset(b);
      var j :| 0 <= j < |b| && b[j] == a[0];
      var rest := b[..j] + b[j + 1..];
      assert multiset(a[1..]) == multiset(rest) by {
        RemoveAt(b, j);
        var ma := multiset(a[1..]);
        assert multiset(a) == ma + multiset{a[0]} by {
          assert a == [a[0]] + a[1..];
        }
        MultisetCancel(ma, multiset(rest), a[0]);
      }
      MapPermutation(f, a[1..], rest);
      assert multiset(MapSeq(f, a)) == multiset(MapSeq(f, a[1..])) + multiset{f(a[0])} by {
        MapRemoveAt(f, a, 0);
        assert a[..0] + a[1..] == a[1..];
      }
      assert multiset(MapSeq(f, b)) == multiset(MapSeq(f, rest)) + multiset{f(a[0])} by {
        MapRemoveAt(f, b, j);
      }
    } else {
      assert |b| == |multiset(b)| == 0;
      assert MapSeq(f, a) == [] == MapSeq(f, b);
    }
  }

  lemma MultisetCancel<T>(x: multiset<T>, y: multiset<T>, z: T)
    requires x + multiset{z} == y + multiset{z}
    ensures x == y
  {
    assert x == x + multiset{z} - multiset{z};
  }

  lemma RemoveAt<T>(s: seq<T>, j: int)
    requires 0 <= j < |s|
    ensures multiset(s) == multiset(s[..j] + s[j + 1..]) + multiset{s[j]}
  {
    assert s == s[..j] + [s[j]] + s[j + 1..];
  }

  lemma MapRemoveAt<A, B>(f: A -> B, s: seq<A>, j: int)
    requires 0 <= j < |s|
    ensures multiset(MapSeq(f, s)) == multiset(MapSeq(f, s[..j] + s[j + 1..])) + multiset{f(s[j])}
  {
    var m := MapSeq(f, s);
    RemoveAt(m, j);
    assert m[..j] + m[j + 1..] == MapSeq(f, s[..j] + s[j + 1..]);
  }
}
