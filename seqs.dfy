/** Order-preserving selection and de-duplication on sequences, the two list
    operations every stage of the pipeline is built from. */
module Seqs {

  /** The elements of `s` that satisfy `p`, in their original order: what a loop that
      appends each accepted element to a fresh `ArrayList` produces. */
  function Select<T>(p: T -> bool, s: seq<T>): (r: seq<T>)
    ensures |r| <= |s|
  {
    if s == [] then []
    else if p(s[|s| - 1]) then Select(p, s[..|s| - 1]) + [s[|s| - 1]]
    else Select(p, s[..|s| - 1])
  }

  /** `a` is obtained from `b` by deleting elements. */
  ghost predicate IsSubsequence<T>(a: seq<T>, b: seq<T>)
    decreases |b|
  {
    a == [] ||
    (b != [] &&
     ((a[|a| - 1] == b[|b| - 1] && IsSubsequence(a[..|a| - 1], b[..|b| - 1])) ||
      IsSubsequence(a, b[..|b| - 1])))
  }

  predicate NoDuplicates<T(==)>(s: seq<T>) {
    forall i, j :: 0 <= i < j < |s| ==> s[i] != s[j]
  }

  /** An element is selected exactly when it is in `s` and satisfies `p`. */
  lemma {:induction false} SelectMembership<T>(p: T -> bool, s: seq<T>, x: T)
    ensures x in Select(p, s) <==> x in s && p(x)
  {
    if s != [] {
      SelectMembership(p, s[..|s| - 1], x);
      assert s == s[..|s| - 1] + [s[|s| - 1]];
    }
  }

  /** Selection keeps the surviving elements in their original relative order. */
  lemma {:induction false} SelectIsSubsequence<T>(p: T -> bool, s: seq<T>)
    ensures IsSubsequence(Select(p, s), s)
  {
    if s != [] {
      var init := s[..|s| - 1];
      SelectIsSubsequence(p, init);
      var r := Select(p, s);
      if p(s[|s| - 1]) {
        assert r[..|r| - 1] == Select(p, init);
      }
    }
  }

  /** Selecting from a list extended by one element: the step of an appending loop. */
  lemma SelectSnoc<T>(p: T -> bool, s: seq<T>, x: T)
    ensures Select(p, s + [x]) == if p(x) then Select(p, s) + [x] else Select(p, s)
  {
    assert (s + [x])[..|s + [x]| - 1] == s;
  }

  /** When every element passes, selection is the identity. */
  lemma {:induction false} SelectAll<T>(p: T -> bool, s: seq<T>)
    requires forall k :: 0 <= k < |s| ==> p(s[k])
    ensures Select(p, s) == s
  {
    if s != [] {
      SelectAll(p, s[..|s| - 1]);
    }
  }

  /** When no element passes, nothing is selected. */
  lemma {:induction false} SelectNone<T>(p: T -> bool, s: seq<T>)
    requires forall k :: 0 <= k < |s| ==> !p(s[k])
    ensures Select(p, s) == []
  {
    if s != [] {
      SelectNone(p, s[..|s| - 1]);
    }
  }

  /** Two tests that agree on the elements of `s` select the same elements. */
  lemma {:induction false} SelectCongruent<T>(p: T -> bool, q: T -> bool, s: seq<T>)
    requires forall k :: 0 <= k < |s| ==> p(s[k]) == q(s[k])
    ensures Select(p, s) == Select(q, s)
  {
    if s != [] {
      SelectCongruent(p, q, s[..|s| - 1]);
    }
  }

  /** Selecting by `q` and then by `p` is selecting once by their conjunction `r`. */
  lemma {:induction false} SelectSelect<T>(p: T -> bool, q: T -> bool, r: T -> bool, s: seq<T>)
    requires forall x :: r(x) == (q(x) && p(x))
    ensures Select(p, Select(q, s)) == Select(r, s)
  {
    if s != [] {
      var init, last := s[..|s| - 1], s[|s| - 1];
      SelectSelect(p, q, r, init);
      if q(last) {
        assert (Select(q, init) + [last])[..|Select(q, init)|] == Select(q, init);
      }
    }
  }

  /** Selecting twice by the same test changes nothing the second time. */
  lemma SelectIdempotent<T>(p: T -> bool, s: seq<T>)
    ensures Select(p, Select(p, s)) == Select(p, s)
  {
    SelectSelect(p, p, p, s);
  }

  /** `s` without repeats, each value kept where it is first seen: what iterating a
      `LinkedHashSet` filled from `s` yields. */
  function Dedup<T(==)>(s: seq<T>): (r: seq<T>)
  {
    if s == [] then []
    else
      var d := Dedup(s[..|s| - 1]);
      if s[|s| - 1] in d then d else d + [s[|s| - 1]]
  }

  /** De-duplicating a list extended by one element: the step of a loop adding to a
      `LinkedHashSet`. */
  lemma DedupSnoc<T>(s: seq<T>, x: T)
    ensures Dedup(s + [x]) == if x in Dedup(s) then Dedup(s) else Dedup(s) + [x]
  {
    assert (s + [x])[..|s + [x]| - 1] == s;
  }

  /** The position of the first occurrence of `x` in `s`. */
  function FirstIndex<T(==)>(s: seq<T>, x: T): (k: nat)
    requires x in s
    ensures k < |s| && s[k] == x && x !in s[..k]
  {
    if s[0] == x then 0 else 1 + FirstIndex(s[1..], x)
  }

  /** De-duplication keeps exactly the values of `s`. */
  lemma {:induction false} DedupMembership<T>(s: seq<T>, x: T)
    ensures x in Dedup(s) <==> x in s
  {
    if s != [] {
      DedupMembership(s[..|s| - 1], x);
      assert s == s[..|s| - 1] + [s[|s| - 1]];
    }
  }

  lemma {:induction false} DedupNoDuplicates<T>(s: seq<T>)
    ensures NoDuplicates(Dedup(s))
  {
    if s != [] {
      DedupNoDuplicates(s[..|s| - 1]);
    }
  }

  /** The values come out in the order of their first occurrence in `s`. */
  lemma {:induction false} DedupFirstSeenOrder<T>(s: seq<T>, i: nat, j: nat)
    requires i < j < |Dedup(s)|
    ensures Dedup(s)[i] in s && Dedup(s)[j] in s
    ensures FirstIndex(s, Dedup(s)[i]) < FirstIndex(s, Dedup(s)[j])
  {
    var init, last := s[..|s| - 1], s[|s| - 1];
    assert s == init + [last];
    var di := Dedup(init);
    DedupSnoc(init, last);
    assert Dedup(s)[i] == di[i];
    DedupMembership(init, di[i]);
    FirstIndexOfPrefix(init, last, di[i]);
    if j < |di| {
      assert Dedup(s)[j] == di[j];
      DedupMembership(init, di[j]);
      FirstIndexOfPrefix(init, last, di[j]);
      DedupFirstSeenOrder(init, i, j);
    } else {
      NewLastFirstIndex(init, last);
    }
  }

  /** A last element not seen before is first found at the end. */
  lemma NewLastFirstIndex<T>(init: seq<T>, last: T)
    requires last !in Dedup(init)
    ensures last in init + [last] && FirstIndex(init + [last], last) == |init|
  {
    DedupMembership(init, last);
    var k := FirstIndex(init + [last], last);
    assert (init + [last])[..k] == init[..k] || k == |init|;
  }

  lemma {:induction false} FirstIndexOfPrefix<T>(init: seq<T>, last: T, x: T)
    requires x in init
    ensures x in init + [last] && FirstIndex(init + [last], x) == FirstIndex(init, x)
  {
    if init[0] != x {
      assert (init + [last])[1..] == init[1..] + [last];
      FirstIndexOfPrefix(init[1..], last, x);
    }
  }
}
