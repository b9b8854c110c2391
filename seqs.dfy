/** Sequence operations shared by the pages: `Array.prototype.filter`, removal
    of one index, subsequences and ordering by a key. */
module Seqs {

  /** `a` is obtained from `b` by deleting some elements, keeping the order of
      the rest. */
  predicate IsSubseq<T(==)>(a: seq<T>, b: seq<T>)
    decreases |b|
  {
    if a == [] then true
    else if b == [] then false
    else (a[0] == b[0] && IsSubseq(a[1..], b[1..])) || IsSubseq(a, b[1..])
  }

  /** `s.filter(p)`: the elements satisfying `p`, in their original order. */
  function Filter<T>(s: seq<T>, p: T -> bool): (r: seq<T>)
    ensures |r| <= |s|
    ensures forall k :: 0 <= k < |r| ==> r[k] in s && p(r[k])
    ensures forall k :: 0 <= k < |s| && p(s[k]) ==> s[k] in r
    decreases |s|
  {
    if s == [] then []
    else if p(s[0]) then [s[0]] + Filter(s[1..], p)
    else Filter(s[1..], p)
  }

  /** What `Filter` keeps is a subsequence of the input. */
  lemma {:induction false} FilterIsSubseq<T>(s: seq<T>, p: T -> bool)
    ensures IsSubseq(Filter(s, p), s)
    decreases |s|
  {
    if s != [] {
      FilterIsSubseq(s[1..], p);
      if p(s[0]) {
        assert Filter(s, p)[1..] == Filter(s[1..], p);
      } else if Filter(s, p) != [] {
        assert IsSubseq(Filter(s, p), s[1..]);
      }
    }
  }

  /** Filtering with a predicate every element meets keeps everything. */
  lemma {:induction false} FilterAll<T>(s: seq<T>, p: T -> bool)
    requires forall k :: 0 <= k < |s| ==> p(s[k])
    ensures Filter(s, p) == s
    decreases |s|
  {
    if s != [] {
      assert forall k :: 0 <= k < |s| - 1 ==> s[1..][k] == s[k + 1];
      FilterAll(s[1..], p);
    }
  }

  /** Filtering distributes over concatenation. */
  lemma {:induction false} FilterAppend<T>(a: seq<T>, b: seq<T>, p: T -> bool)
    ensures Filter(a + b, p) == Filter(a, p) + Filter(b, p)
    decreases |a|
  {
    if a == [] {
      assert a + b == b;
    } else {
      assert (a + b)[1..] == a[1..] + b;
      FilterAppend(a[1..], b, p);
    }
  }

  /** What a test keeps and what its negation keeps add up to the whole. */
  lemma {:induction false} FilterCount<T>(s: seq<T>, p: T -> bool, q: T -> bool)
    requires forall x :: q(x) <==> !p(x)
    ensures |Filter(s, p)| + |Filter(s, q)| == |s|
    decreases |s|
  {
    if s != [] {
      FilterCount(s[1..], p, q);
    }
  }

  /** Filtering with a predicate no element meets keeps nothing. */
  lemma {:induction false} FilterNone<T>(s: seq<T>, p: T -> bool)
    requires forall k :: 0 <= k < |s| ==> !p(s[k])
    ensures Filter(s, p) == []
    decreases |s|
  {
    if s != [] {
      assert forall k :: 0 <= k < |s| - 1 ==> s[1..][k] == s[k + 1];
      FilterNone(s[1..], p);
    }
  }

  /** When index `k` is the only one meeting `p`, the filter keeps exactly
      that element. */
  lemma FilterOnly<T>(s: seq<T>, p: T -> bool, k: int)
    requires 0 <= k < |s| && p(s[k])
    requires forall i :: 0 <= i < |s| && i != k ==> !p(s[i])
    ensures Filter(s, p) == [s[k]]
  {
    var before, after := s[..k], s[k + 1..];
    assert s == before + ([s[k]] + after);
    assert forall i :: 0 <= i < |before| ==> before[i] == s[i];
    assert forall i :: 0 <= i < |after| ==> after[i] == s[k + 1 + i];
    FilterNone(before, p);
    FilterNone(after, p);
    FilterAppend([s[k]], after, p);
    FilterAppend(before, [s[k]] + after, p);
  }

  /** Two indexes meeting `p` leave at least two elements after filtering. */
  lemma FilterTwo<T>(s: seq<T>, p: T -> bool, i: int, j: int)
    requires 0 <= i < j < |s| && p(s[i]) && p(s[j])
    ensures |Filter(s, p)| >= 2
  {
    var before, after := s[..j], s[j..];
    assert s == before + after;
    assert before[i] == s[i];
    assert after[0] == s[j];
    FilterAppend(before, after, p);
  }

  /** `key` does not increase along `s`. */
  predicate SortedDesc<T>(s: seq<T>, key: T -> int) {
    forall i, j :: 0 <= i < j < |s| ==> key(s[i]) >= key(s[j])
  }

  /** A filtered list that was sorted stays sorted. */
  lemma {:induction false} FilterKeepsSortedDesc<T>(s: seq<T>, p: T -> bool, key: T -> int)
    requires SortedDesc(s, key)
    ensures SortedDesc(Filter(s, p), key)
    decreases |s|
  {
    if s != [] {
      var t := s[1..];
      SortedDescTail(s, key);
      FilterKeepsSortedDesc(t, p, key);
      if p(s[0]) {
        FilterBelow(t, p, key, key(s[0]));
        SortedDescCons(s[0], Filter(t, p), key);
      }
    }
  }

  /** The tail of a sorted list is sorted, and bounded by the head. */
  lemma SortedDescTail<T>(s: seq<T>, key: T -> int)
    requires s != [] && SortedDesc(s, key)
    ensures SortedDesc(s[1..], key)
    ensures forall k :: 0 <= k < |s| - 1 ==> key(s[1..][k]) <= key(s[0])
  {
    assert forall k :: 0 <= k < |s| - 1 ==> s[1..][k] == s[k + 1];
  }

  /** What `Filter` keeps of a list bounded by `v` is bounded by `v`. */
  lemma FilterBelow<T>(s: seq<T>, p: T -> bool, key: T -> int, v: int)
    requires forall k :: 0 <= k < |s| ==> key(s[k]) <= v
    ensures forall k :: 0 <= k < |Filter(s, p)| ==> key(Filter(s, p)[k]) <= v
  {
    var r := Filter(s, p);
    forall k | 0 <= k < |r| ensures key(r[k]) <= v {
      var m :| 0 <= m < |s| && s[m] == r[k];
    }
  }

  /** A head no smaller than a sorted tail gives a sorted list. */
  lemma SortedDescCons<T>(x: T, s: seq<T>, key: T -> int)
    requires SortedDesc(s, key)
    requires forall k :: 0 <= k < |s| ==> key(s[k]) <= key(x)
    ensures SortedDesc([x] + s, key)
  {
    var r := [x] + s;
    forall i, j | 0 <= i < j < |r| ensures key(r[i]) >= key(r[j]) {
      assert r[j] == s[j - 1];
      if i > 0 {
        assert r[i] == s[i - 1];
      }
    }
  }

  /** `s` without its element at index `i`: `s.filter((_, idx) => idx !== i)`.
      An index outside `s` removes nothing. */
  function RemoveAt<T>(s: seq<T>, i: int): (r: seq<T>)
    ensures 0 <= i < |s| ==> |r| == |s| - 1
    ensures 0 <= i < |s| ==> forall k :: 0 <= k < i ==> r[k] == s[k]
    ensures 0 <= i < |s| ==> forall k :: i <= k < |r| ==> r[k] == s[k + 1]
    ensures !(0 <= i < |s|) ==> r == s
  {
    if 0 <= i < |s| then s[..i] + s[i + 1..] else s
  }

  /** Removing an index keeps every other element in the same order. */
  lemma RemoveAtIsSubseq<T>(s: seq<T>, i: int)
    ensures IsSubseq(RemoveAt(s, i), s)
  {
    SubseqRefl(s[..0]);
    if 0 <= i < |s| {
      SubseqOfConcat(s[..i], s[i + 1..], [s[i]]);
      assert s[..i] + [s[i]] + s[i + 1..] == s;
    } else {
      SubseqRefl(s);
    }
  }

  lemma {:induction false} SubseqRefl<T>(s: seq<T>)
    ensures IsSubseq(s, s)
    decreases |s|
  {
    if s != [] {
      SubseqRefl(s[1..]);
    }
  }

  /** Dropping a middle block leaves a subsequence. */
  lemma {:induction false} SubseqOfConcat<T>(a: seq<T>, c: seq<T>, b: seq<T>)
    ensures IsSubseq(a + c, a + b + c)
    decreases |a|
  {
    if a != [] {
      assert (a + c)[0] == (a + b + c)[0] == a[0];
      assert (a + c)[1..] == a[1..] + c;
      assert (a + b + c)[1..] == a[1..] + b + c;
      SubseqOfConcat(a[1..], c, b);
    } else {
      assert a + c == c && a + b + c == b + c;
      SubseqOfSuffix(b, c);
    }
  }

  /** A suffix is a subsequence. */
  lemma {:induction false} SubseqOfSuffix<T>(b: seq<T>, c: seq<T>)
    ensures IsSubseq(c, b + c)
    decreases |b|
  {
    if b == [] {
      assert b + c == c;
      SubseqRefl(c);
    } else {
      assert (b + c)[1..] == b[1..] + c;
      SubseqOfSuffix(b[1..], c);
    }
  }

  /** `s.findIndex(p)`: the lowest index whose element satisfies `p`, or -1
      when none does. */
  function FindIndex<T>(s: seq<T>, p: T -> bool): (k: int)
    ensures -1 <= k < |s|
    ensures k >= 0 ==> p(s[k]) && forall j :: 0 <= j < k ==> !p(s[j])
    ensures k == -1 ==> forall j :: 0 <= j < |s| ==> !p(s[j])
    decreases |s|
  {
    if s == [] then -1
    else if p(s[0]) then 0
    else
      var k := FindIndex(s[1..], p);
      assert forall j :: 0 < j < |s| ==> s[j] == s[1..][j - 1];
      if k == -1 then -1 else k + 1
  }

  /** Filtering first with a test that every element passing `p` also passes
      does not change which element `findIndex(p)` picks. */
  lemma {:induction false} FindIndexAfterFilter<T>(s: seq<T>, q: T -> bool, p: T -> bool)
    requires forall k :: 0 <= k < |s| && p(s[k]) ==> q(s[k])
    ensures (FindIndex(Filter(s, q), p) == -1) == (FindIndex(s, p) == -1)
    ensures FindIndex(s, p) != -1 ==> Filter(s, q)[FindIndex(Filter(s, q), p)] == s[FindIndex(s, p)]
    decreases |s|
  {
    if s != [] {
      var t := s[1..];
      var rest := Filter(t, q);
      assert s == [s[0]] + t;
      if p(s[0]) {
        assert Filter(s, q) == [s[0]] + rest;
      } else {
        assert forall k :: 0 <= k < |t| && p(t[k]) ==> q(t[k]) by {
          forall k | 0 <= k < |t| && p(t[k]) ensures q(t[k]) {
            assert t[k] == s[k + 1];
          }
        }
        FindIndexAfterFilter(t, q, p);
        FindIndexCons(s[0], t, p);
        if q(s[0]) {
          assert Filter(s, q) == [s[0]] + rest;
          FindIndexCons(s[0], rest, p);
        } else {
          assert Filter(s, q) == rest;
        }
      }
    }
  }

  /** `findIndex` on a list with a failing element in front. */
  lemma FindIndexCons<T>(x: T, s: seq<T>, p: T -> bool)
    requires !p(x)
    ensures FindIndex([x] + s, p) == (if FindIndex(s, p) == -1 then -1 else FindIndex(s, p) + 1)
  {
    assert ([x] + s)[1..] == s;
  }
}
