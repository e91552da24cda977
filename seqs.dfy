/** Small, reusable facts about sequences: the `Array.prototype.filter` that every
    panel uses, the subsequence relation it produces, and the insertion-ordered
    de-duplication that `Array.from(new Set(xs))` performs. */
module Seqs {

  /** `xs.filter(p)`: the elements satisfying `p`, in their original order. */
  function Filter<T>(s: seq<T>, p: T -> bool): (r: seq<T>)
    ensures |r| <= |s|
    ensures forall i :: 0 <= i < |r| ==> r[i] in s && p(r[i])
    ensures forall i :: 0 <= i < |s| && p(s[i]) ==> s[i] in r
  {
    if s == [] then []
    else if p(s[0]) then [s[0]] + Filter(s[1..], p)
    else Filter(s[1..], p)
  }

  /** `a` can be obtained from `b` by deleting elements (order is kept). */
  ghost predicate Subsequence<T>(a: seq<T>, b: seq<T>)
    decreases |b|
  {
    a == [] || (b != [] && ((a[0] == b[0] && Subsequence(a[1..], b[1..])) || Subsequence(a, b[1..])))
  }

  lemma {:induction false} FilterIsSubsequence<T>(s: seq<T>, p: T -> bool)
    ensures Subsequence(Filter(s, p), s)
  {
    if s != [] {
      FilterIsSubsequence(s[1..], p);
      if p(s[0]) {
        assert Filter(s, p) == [s[0]] + Filter(s[1..], p);
        assert Filter(s, p)[1..] == Filter(s[1..], p);
      }
    }
  }

  /** When every element passes, filtering is the identity. */
  lemma {:induction false} FilterAll<T>(s: seq<T>, p: T -> bool)
    requires forall i :: 0 <= i < |s| ==> p(s[i])
    ensures Filter(s, p) == s
  {
    if s != [] {
      FilterAll(s[1..], p);
    }
  }

  /** Filtering distributes over concatenation. */
  lemma {:induction false} FilterAppend<T>(a: seq<T>, b: seq<T>, p: T -> bool)
    ensures Filter(a + b, p) == Filter(a, p) + Filter(b, p)
  {
    if a == [] {
      assert a + b == b;
    } else {
      assert (a + b)[0] == a[0];
      assert (a + b)[1..] == a[1..] + b;
      FilterAppend(a[1..], b, p);
    }
  }

  /** Every element is different from every other one. */
  predicate NoDuplicates<T(==)>(s: seq<T>) {
    forall i, j :: 0 <= i < j < |s| ==> s[i] != s[j]
  }

  /** The distinct elements of `s`, each once, in order of first appearance:
      what `Array.from(new Set(s))` yields, since a JavaScript `Set` iterates in
      insertion order. `seen` holds the elements already emitted. */
  function DistinctFrom<T(==)>(s: seq<T>, seen: seq<T>): (r: seq<T>)
    ensures forall i :: 0 <= i < |r| ==> r[i] in s && r[i] !in seen
  {
    if s == [] then []
    else if s[0] in seen then DistinctFrom(s[1..], seen)
    else [s[0]] + DistinctFrom(s[1..], seen + [s[0]])
  }

  /** An element not seen yet is emitted and remembered. */
  lemma DistinctFromKeep<T>(x: T, rest: seq<T>, seen: seq<T>)
    requires x !in seen
    ensures DistinctFrom([x] + rest, seen) == [x] + DistinctFrom(rest, seen + [x])
  {
    assert ([x] + rest)[1..] == rest;
  }

  /** An element seen already is dropped. */
  lemma DistinctFromSkip<T>(x: T, rest: seq<T>, seen: seq<T>)
    requires x in seen
    ensures DistinctFrom([x] + rest, seen) == DistinctFrom(rest, seen)
  {
    assert ([x] + rest)[1..] == rest;
  }

  function Distinct<T(==)>(s: seq<T>): seq<T> {
    DistinctFrom(s, [])
  }

  lemma {:induction false} DistinctFromProperties<T>(s: seq<T>, seen: seq<T>)
    ensures NoDuplicates(DistinctFrom(s, seen))
    ensures forall i :: 0 <= i < |s| && s[i] !in seen ==> s[i] in DistinctFrom(s, seen)
    ensures Subsequence(DistinctFrom(s, seen), s)
  {
    if s != [] {
      var r := DistinctFrom(s, seen);
      if s[0] in seen {
        DistinctFromProperties(s[1..], seen);
      } else {
        var tail := DistinctFrom(s[1..], seen + [s[0]]);
        DistinctFromProperties(s[1..], seen + [s[0]]);
        assert r == [s[0]] + tail && r[1..] == tail;
        forall i, j | 0 <= i < j < |r| ensures r[i] != r[j] {
          if i == 0 {
            assert r[j] == tail[j - 1] && r[j] in tail;
          } else {
            assert r[i] == tail[i - 1] && r[j] == tail[j - 1];
          }
        }
      }
    }
  }

  /** The position of the first occurrence of `x` in `s`. */
  function FirstIndex<T(==)>(s: seq<T>, x: T): (i: nat)
    requires x in s
    ensures i < |s| && s[i] == x && x !in s[..i]
  {
    if s[0] == x then 0 else 1 + FirstIndex(s[1..], x)
  }

  /** The emitted elements are listed in the order of their first occurrence
      in `s`. */
  lemma {:induction false} DistinctFromOrder<T>(s: seq<T>, seen: seq<T>)
    ensures forall k, l :: 0 <= k < l < |DistinctFrom(s, seen)| ==>
      FirstIndex(s, DistinctFrom(s, seen)[k]) < FirstIndex(s, DistinctFrom(s, seen)[l])
  {
    if s != [] {
      var r := DistinctFrom(s, seen);
      if s[0] in seen {
        DistinctFromOrder(s[1..], seen);
        forall k | 0 <= k < |r| ensures FirstIndex(s, r[k]) == 1 + FirstIndex(s[1..], r[k]) {
          assert r[k] != s[0];
        }
      } else {
        var tail := DistinctFrom(s[1..], seen + [s[0]]);
        DistinctFromOrder(s[1..], seen + [s[0]]);
        assert r == [s[0]] + tail;
        forall k | 0 <= k < |tail| ensures FirstIndex(s, tail[k]) == 1 + FirstIndex(s[1..], tail[k]) {
          assert tail[k] != s[0];
        }
        forall k, l | 0 <= k < l < |r| ensures FirstIndex(s, r[k]) < FirstIndex(s, r[l]) {
          assert r[l] == tail[l - 1];
          if k > 0 {
            assert r[k] == tail[k - 1];
          }
        }
      }
    }
  }

  /** `Distinct` keeps each element exactly once and in first-appearance order:
      an element listed earlier first occurs earlier in `s`. */
  lemma DistinctProperties<T>(s: seq<T>)
    ensures NoDuplicates(Distinct(s))
    ensures forall i :: 0 <= i < |s| ==> s[i] in Distinct(s)
    ensures forall i :: 0 <= i < |Distinct(s)| ==> Distinct(s)[i] in s
    ensures Subsequence(Distinct(s), s)
    ensures forall k, l :: 0 <= k < l < |Distinct(s)| ==>
      FirstIndex(s, Distinct(s)[k]) < FirstIndex(s, Distinct(s)[l])
  {
    DistinctFromProperties(s, []);
    DistinctFromOrder(s, []);
  }
}
