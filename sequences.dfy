/**
 * The list comprehension `[x for x in s if p(x)]` and what it promises:
 * it keeps exactly the elements satisfying `p`, in their original order,
 * and comprehensions with different predicates can be applied in any order.
 */
module Sequences {

  /** `[x for x in s if p(x)]`, built the way Python builds it: by appending
      each kept element in turn. */
  function Select<T>(s: seq<T>, p: T -> bool): (r: seq<T>)
    ensures |r| <= |s|
    ensures forall i :: 0 <= i < |r| ==> r[i] in s && p(r[i])
    ensures forall i :: 0 <= i < |s| && p(s[i]) ==> s[i] in r
  {
    if s == [] then []
    else
      var init := Select(s[..|s| - 1], p);
      assert forall i :: 0 <= i < |s| - 1 ==> s[..|s| - 1][i] == s[i];
      if p(s[|s| - 1]) then init + [s[|s| - 1]] else init
  }

  /** The positions of `s` whose elements satisfy `p`, in increasing order. */
  ghost function Positions<T>(s: seq<T>, p: T -> bool): seq<int>
  {
    if s == [] then []
    else
      var init := Positions(s[..|s| - 1], p);
      if p(s[|s| - 1]) then init + [|s| - 1] else init
  }

  /** `idx` is a strictly increasing list of positions of `b` at which the
      elements of `a` occur, one for one. */
  ghost predicate Embedding<T>(a: seq<T>, b: seq<T>, idx: seq<int>)
  {
    && |idx| == |a|
    && (forall i :: 0 <= i < |idx| ==> 0 <= idx[i] < |b| && a[i] == b[idx[i]])
    && (forall i, j :: 0 <= i < j < |idx| ==> idx[i] < idx[j])
  }

  /** `a` is `b` with some elements deleted and the rest in their order. */
  ghost predicate IsSubsequence<T>(a: seq<T>, b: seq<T>)
  {
    exists idx :: Embedding(a, b, idx)
  }

  /** Appending one element extends the comprehension by at most that element. */
  lemma SelectSnoc<T>(s: seq<T>, x: T, p: T -> bool)
    ensures Select(s + [x], p) == if p(x) then Select(s, p) + [x] else Select(s, p)
  {
    assert (s + [x])[..|s + [x]| - 1] == s;
  }

  lemma {:induction false} PositionsBounded<T>(s: seq<T>, p: T -> bool)
    ensures |Positions(s, p)| == |Select(s, p)|
    ensures forall i :: 0 <= i < |Positions(s, p)| ==> 0 <= Positions(s, p)[i] < |s|
    ensures forall j :: 0 <= j < |s| ==> (j in Positions(s, p) <==> p(s[j]))
  {
    if s != [] {
      var n := |s| - 1;
      var init := s[..n];
      PositionsBounded(init, p);
      var idx := Positions(init, p);
      assert n !in idx;
      assert forall j :: 0 <= j < n ==> init[j] == s[j];
      if p(s[n]) {
        assert Positions(s, p) == idx + [n];
        assert forall j :: j in idx + [n] <==> j in idx || j == n;
      } else {
        assert Positions(s, p) == idx;
      }
    }
  }

  /** An embedding survives appending an element to the larger sequence,
      whether or not the smaller one takes it too. */
  lemma EmbeddingSnoc<T>(a: seq<T>, b: seq<T>, idx: seq<int>, x: T)
    requires Embedding(a, b, idx)
    ensures Embedding(a, b + [x], idx)
    ensures Embedding(a + [x], b + [x], idx + [|b|])
  {
    var a', b', idx' := a + [x], b + [x], idx + [|b|];
    assert forall i :: 0 <= i < |idx| ==> idx'[i] == idx[i] && a'[i] == a[i] && b'[idx[i]] == b[idx[i]];
  }

  /** The comprehension keeps exactly the positions whose element satisfies
      `p`, in increasing order. */
  lemma {:induction false} SelectEmbedding<T>(s: seq<T>, p: T -> bool)
    ensures Embedding(Select(s, p), s, Positions(s, p))
    ensures forall j :: 0 <= j < |s| ==> (j in Positions(s, p) <==> p(s[j]))
  {
    PositionsBounded(s, p);
    if s != [] {
      var n := |s| - 1;
      var init := s[..n];
      SelectEmbedding(init, p);
      assert init + [s[n]] == s;
      EmbeddingSnoc(Select(init, p), init, Positions(init, p), s[n]);
    }
  }

  /** The comprehension's result is a subsequence of its input. */
  lemma SelectIsSubsequence<T>(s: seq<T>, p: T -> bool)
    ensures IsSubsequence(Select(s, p), s)
  {
    SelectEmbedding(s, p);
  }

  /** A predicate every element satisfies keeps the whole sequence. */
  lemma {:induction false} SelectAll<T>(s: seq<T>, p: T -> bool)
    requires forall x :: x in s ==> p(x)
    ensures Select(s, p) == s
  {
    if s != [] {
      SelectAll(s[..|s| - 1], p);
      assert s[..|s| - 1] + [s[|s| - 1]] == s;
    }
  }

  /** Only the verdicts of the predicate matter, not how it is written. */
  lemma {:induction false} SelectCongruent<T>(s: seq<T>, p: T -> bool, q: T -> bool)
    requires forall x :: p(x) == q(x)
    ensures Select(s, p) == Select(s, q)
  {
    if s != [] {
      SelectCongruent(s[..|s| - 1], p, q);
    }
  }

  /** Filtering by `p` and then by `q` is filtering once by their conjunction. */
  lemma {:induction false} SelectConjunction<T>(s: seq<T>, p: T -> bool, q: T -> bool, pq: T -> bool)
    requires forall x :: pq(x) == (p(x) && q(x))
    ensures Select(Select(s, p), q) == Select(s, pq)
  {
    if s != [] {
      var init, last := s[..|s| - 1], s[|s| - 1];
      SelectConjunction(init, p, q, pq);
      if p(last) {
        SelectSnoc(Select(init, p), last, q);
      }
    }
  }

  /** Two comprehensions may be applied in either order. */
  lemma SelectCommutes<T>(s: seq<T>, p: T -> bool, q: T -> bool)
    ensures Select(Select(s, p), q) == Select(Select(s, q), p)
  {
    var both := (x: T) => p(x) && q(x);
    SelectConjunction(s, p, q, both);
    SelectConjunction(s, q, p, both);
  }
}
