/**
 Sequence helpers shared by the aggregator and the summary builder:
 duplicate freedom, first occurrence, and the order-preserving deduplication
 that `Array.from(new Set(xs))` performs in JavaScript.
 */
module Seqs {

  /** No element occurs twice. */
  predicate NoDups<T(==)>(s: seq<T>)
  {
    forall i, j :: 0 <= i < j < |s| ==> s[i] != s[j]
  }

  /** Index of the first occurrence of `x` in `s`, or `|s|` when `x` is absent. */
  function FirstIndex<T(==)>(s: seq<T>, x: T): (i: nat)
    ensures i <= |s|
    ensures i < |s| <==> x in s
    ensures i < |s| ==> s[i] == x
    ensures x !in s[..i]
  {
    if s == [] then 0
    else if s[0] == x then 0
    else
      var i := 1 + FirstIndex(s[1..], x);
      assert s[..i] == [s[0]] + s[1..][..i - 1];
      i
  }

  /** No position before the first occurrence holds `x`. */
  lemma NothingBeforeFirst<T>(s: seq<T>, x: T, j: int)
    requires 0 <= j < FirstIndex(s, x)
    ensures s[j] != x
  {
    assert s[..FirstIndex(s, x)][j] == s[j];
  }

  /** Any occurrence of `x` is at or after the first one. */
  lemma {:induction false} FirstIndexAtMost<T>(s: seq<T>, x: T, j: int)
    requires 0 <= j < |s| && s[j] == x
    ensures FirstIndex(s, x) <= j
  {
    if s[0] != x {
      assert s[1..][j - 1] == s[j];
      FirstIndexAtMost(s[1..], x, j - 1);
    }
  }

  /** `r` lists its elements in the order in which they first occur in `s`. */
  predicate InFirstSeenOrder<T(==)>(r: seq<T>, s: seq<T>)
  {
    forall i, j :: 0 <= i < j < |r| ==> FirstIndex(s, r[i]) < FirstIndex(s, r[j])
  }

  /** Keeps the first occurrence of every element, in order. */
  function Dedup<T(==,!new)>(s: seq<T>): (r: seq<T>)
    ensures NoDups(r)
    ensures forall x :: x in r <==> x in s
    ensures |r| <= |s|
  {
    if s == [] then []
    else
      var p := s[..|s| - 1];
      var x := s[|s| - 1];
      assert s == p + [x];
      var d := Dedup(p);
      if x in d then d else d + [x]
  }

  /** First occurrences in a concatenation: the left part is searched first. */
  lemma {:induction false} FirstIndexAppend<T>(p: seq<T>, q: seq<T>, x: T)
    ensures FirstIndex(p + q, x) == if x in p then FirstIndex(p, x) else |p| + FirstIndex(q, x)
  {
    if p == [] {
      assert p + q == q;
    } else {
      assert (p + q)[1..] == p[1..] + q;
      if p[0] != x {
        FirstIndexAppend(p[1..], q, x);
      }
    }
  }

  /** Extending the source sequence keeps the order of elements that were already there. */
  lemma FirstSeenExtend<T>(r: seq<T>, s: seq<T>, x: T)
    requires InFirstSeenOrder(r, s)
    requires forall y :: y in r ==> y in s
    ensures InFirstSeenOrder(r, s + [x])
  {
    forall y | y in r
      ensures FirstIndex(s + [x], y) == FirstIndex(s, y)
    {
      FirstIndexAppend(s, [x], y);
    }
  }

  /** An element new to the source goes after everything already listed. */
  lemma FirstSeenAppendNew<T>(r: seq<T>, s: seq<T>, x: T)
    requires InFirstSeenOrder(r, s)
    requires forall y :: y in r ==> y in s
    requires x !in s
    ensures InFirstSeenOrder(r + [x], s + [x])
  {
    FirstSeenExtend(r, s, x);
    FirstIndexAppend(s, [x], x);
    var r' := r + [x];
    forall i, j | 0 <= i < j < |r'|
      ensures FirstIndex(s + [x], r'[i]) < FirstIndex(s + [x], r'[j])
    {
      assert r'[i] in r;
      FirstIndexAppend(s, [x], r'[i]);
      if j < |r| {
        assert r'[j] in r;
      }
    }
  }

  /** Deduplication lists the survivors in first-seen order. */
  lemma {:induction false} DedupFirstSeen<T(!new)>(s: seq<T>)
    ensures InFirstSeenOrder(Dedup(s), s)
  {
    if s != [] {
      var p := s[..|s| - 1];
      var x := s[|s| - 1];
      assert s == p + [x];
      DedupFirstSeen(p);
      if x in Dedup(p) {
        FirstSeenExtend(Dedup(p), p, x);
      } else {
        FirstSeenAppendNew(Dedup(p), p, x);
      }
    }
  }

  /** Order-preserving deduplication leaves a duplicate-free sequence unchanged. */
  lemma {:induction false} DedupNoDups<T(!new)>(s: seq<T>)
    requires NoDups(s)
    ensures Dedup(s) == s
  {
    if s != [] {
      var p := s[..|s| - 1];
      assert s == p + [s[|s| - 1]];
      DedupNoDups(p);
      assert s[|s| - 1] !in p;
    }
  }
}
