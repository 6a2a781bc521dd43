/**
 * The array built-ins the application composes: `filter`, `slice(0, n)`, and
 * the result of `sort` with a comparator that only tells a 0/1 key apart,
 * which for a stable sort is a stable partition.
 */
module Seqs {

  /** `s.filter(p)`: the elements satisfying `p`, in their original order. */
  function Filter<T>(p: T -> bool, s: seq<T>): (r: seq<T>)
    ensures |r| <= |s|
  {
    if s == [] then []
    else (if p(s[0]) then [s[0]] else []) + Filter(p, s[1..])
  }

  /** The complement of a predicate. */
  function Not<T>(p: T -> bool): T -> bool
  {
    x => !p(x)
  }

  /** Elements with the key first, then those without it, each group in
      input order: what a stable sort descending on a 0/1 key yields. */
  function StablePartition<T>(p: T -> bool, s: seq<T>): seq<T>
  {
    Filter(p, s) + Filter(Not(p), s)
  }

  /** `s.slice(0, n)`. */
  function Take<T>(s: seq<T>, n: nat): (r: seq<T>)
    ensures |r| == if |s| < n then |s| else n
    ensures r == s[..|r|]
  {
    if |s| < n then s else s[..n]
  }

  /** Every element with the key comes before every element without it. */
  ghost predicate KeyedFirst<T>(p: T -> bool, s: seq<T>)
  {
    forall i, j :: 0 <= i < j < |s| && p(s[j]) ==> p(s[i])
  }

  lemma {:induction false} FilterConcat<T>(p: T -> bool, a: seq<T>, b: seq<T>)
    ensures Filter(p, a + b) == Filter(p, a) + Filter(p, b)
  {
    if a == [] {
      assert a + b == b;
    } else {
      var h := if p(a[0]) then [a[0]] else [];
      FilterConcat(p, a[1..], b);
      assert (a + b)[0] == a[0];
      assert (a + b)[1..] == a[1..] + b;
      calc {
        Filter(p, a + b);
        h + Filter(p, a[1..] + b);
        h + (Filter(p, a[1..]) + Filter(p, b));
        (h + Filter(p, a[1..])) + Filter(p, b);
      }
    }
  }

  /** Filtering a prefix gives a prefix of the filtered whole. */
  lemma FilterPrefix<T>(p: T -> bool, a: seq<T>, b: seq<T>)
    requires a <= b
    ensures Filter(p, a) <= Filter(p, b)
  {
    assert b == a + b[|a|..];
    FilterConcat(p, a, b[|a|..]);
  }

  /** Filtering with a predicate every element satisfies changes nothing. */
  lemma {:induction false} FilterAll<T>(p: T -> bool, s: seq<T>)
    requires forall i :: 0 <= i < |s| ==> p(s[i])
    ensures Filter(p, s) == s
  {
    if s != [] {
      FilterAll(p, s[1..]);
      assert [s[0]] + s[1..] == s;
    }
  }

  /** Filtering with a predicate no element satisfies leaves nothing. */
  lemma {:induction false} FilterNone<T>(p: T -> bool, s: seq<T>)
    requires forall i :: 0 <= i < |s| ==> !p(s[i])
    ensures Filter(p, s) == []
  {
    if s != [] {
      FilterNone(p, s[1..]);
    }
  }

  /** Filtering twice with the same predicate is filtering once. */
  lemma {:induction false} FilterIdempotent<T>(p: T -> bool, s: seq<T>)
    ensures Filter(p, Filter(p, s)) == Filter(p, s)
  {
    var r := Filter(p, s);
    forall i | 0 <= i < |r|
      ensures p(r[i])
    {
      FilterMember(p, s, r[i]);
    }
    FilterAll(p, r);
  }

  /** An element is kept exactly when it occurs and satisfies the predicate. */
  lemma {:induction false} FilterMember<T>(p: T -> bool, s: seq<T>, x: T)
    ensures x in Filter(p, s) <==> x in s && p(x)
  {
    if s != [] {
      FilterMember(p, s[1..], x);
      assert s == [s[0]] + s[1..];
    }
  }

  /** Filtering keeps every element the predicate accepts: the two halves of
      a partition add up to the whole, with multiplicities. */
  lemma {:induction false} FilterSplitsMultiset<T>(p: T -> bool, s: seq<T>)
    ensures multiset(Filter(p, s)) + multiset(Filter(Not(p), s)) == multiset(s)
  {
    if s != [] {
      var t := s[1..];
      FilterSplitsMultiset(p, t);
      assert s == [s[0]] + t;
      if p(s[0]) {
        assert Filter(p, s) == [s[0]] + Filter(p, t);
        assert Filter(Not(p), s) == Filter(Not(p), t);
      } else {
        assert Filter(p, s) == Filter(p, t);
        assert Filter(Not(p), s) == [s[0]] + Filter(Not(p), t);
      }
      assert multiset(s) == multiset([s[0]]) + multiset(t);
    }
  }

  /** The stable partition is a permutation of its input. */
  lemma StablePartitionPermutes<T>(p: T -> bool, s: seq<T>)
    ensures multiset(StablePartition(p, s)) == multiset(s)
    ensures |StablePartition(p, s)| == |s|
  {
    FilterSplitsMultiset(p, s);
    assert |multiset(StablePartition(p, s))| == |multiset(s)|;
  }

  /** The stable partition puts every keyed element before every unkeyed one. */
  lemma StablePartitionKeyedFirst<T>(p: T -> bool, s: seq<T>)
    ensures KeyedFirst(p, StablePartition(p, s))
  {
    var a, b := Filter(p, s), Filter(Not(p), s);
    var r := a + b;
    forall k | |a| <= k < |r|
      ensures !p(r[k])
    {
      assert r[k] == b[k - |a|];
      FilterMember(Not(p), s, r[k]);
    }
    forall i, j | 0 <= i < j < |r| && p(r[j])
      ensures p(r[i])
    {
      if i < |a| {
        assert r[i] == a[i];
        FilterMember(p, s, r[i]);
      }
    }
  }

  /** Restricted to either key value, the stable partition lists the elements
      in input order: the sort is stable. */
  lemma StablePartitionStable<T>(p: T -> bool, s: seq<T>)
    ensures Filter(p, StablePartition(p, s)) == Filter(p, s)
    ensures Filter(Not(p), StablePartition(p, s)) == Filter(Not(p), s)
  {
    var a, b := Filter(p, s), Filter(Not(p), s);
    FilterConcat(p, a, b);
    FilterConcat(Not(p), a, b);
    FilterIdempotent(p, s);
    FilterIdempotent(Not(p), s);
    forall i | 0 <= i < |b|
      ensures !p(b[i])
    {
      FilterMember(Not(p), s, b[i]);
    }
    FilterNone(p, b);
    forall i | 0 <= i < |a|
      ensures !Not(p)(a[i])
    {
      FilterMember(p, s, a[i]);
    }
    FilterNone(Not(p), a);
  }

  /** A sequence with the keyed elements first is its own stable partition. */
  lemma {:induction false} KeyedFirstIsPartitioned<T>(p: T -> bool, r: seq<T>)
    requires KeyedFirst(p, r)
    ensures r == StablePartition(p, r)
  {
    if r != [] && !p(r[0]) {
      assert forall i :: 0 <= i < |r| ==> !p(r[i]);
      FilterNone(p, r);
      FilterAll(Not(p), r);
    } else if r != [] {
      var t := r[1..];
      assert KeyedFirst(p, t);
      KeyedFirstIsPartitioned(p, t);
      assert r == [r[0]] + t;
    }
  }

  /** The stable partition is the only arrangement of `s` that puts keyed
      elements first and keeps input order within each key value. */
  lemma StablePartitionUnique<T>(p: T -> bool, s: seq<T>, r: seq<T>)
    requires KeyedFirst(p, r)
    requires Filter(p, r) == Filter(p, s)
    requires Filter(Not(p), r) == Filter(Not(p), s)
    ensures r == StablePartition(p, s)
  {
    KeyedFirstIsPartitioned(p, r);
  }
}
