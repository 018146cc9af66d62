/** Facts about sequence concatenation and slicing shared by the proofs. */
module Seqs {

  lemma AppendAssoc<T>(a: seq<T>, b: seq<T>, c: seq<T>)
    ensures (a + b) + c == a + (b + c)
  {
  }

  lemma SliceOfSum<T>(a: seq<T>, b: seq<T>)
    ensures (a + b)[|a|..|a| + |b|] == b
  {
  }

  lemma {:induction false} SliceOfSlice<T>(s: seq<T>, lo: nat, hi: nat, a: nat, b: nat)
    requires lo <= hi <= |s| && a <= b <= hi - lo
    ensures s[lo..hi][a..b] == s[lo + a..lo + b]
  {
    var x := s[lo..hi][a..b];
    var y := s[lo + a..lo + b];
    assert |x| == |y|;
    forall k | 0 <= k < |x|
      ensures x[k] == y[k]
    {
    }
  }

  lemma SliceOfPrefix<T>(x: seq<T>, y: seq<T>, lo: nat, hi: nat)
    requires x <= y && lo <= hi <= |x|
    ensures y[lo..hi] == x[lo..hi]
  {
  }

  /** The concatenation of the first `n` parts, in order. */
  function Concat<T>(parts: seq<seq<T>>, n: nat): seq<T>
    requires n <= |parts|
  {
    if n == 0 then [] else Concat(parts, n - 1) + parts[n - 1]
  }

  /** One more part: what a loop that appends the parts in turn relies on. */
  lemma ConcatStep<T>(parts: seq<seq<T>>, i: nat, acc: seq<T>, part: seq<T>)
    requires i < |parts| && acc == Concat(parts, i) && part == parts[i]
    ensures acc + part == Concat(parts, i + 1)
  {
  }

  lemma {:induction false} ConcatPrefix<T>(parts: seq<seq<T>>, m: nat, n: nat)
    requires m <= n <= |parts|
    ensures Concat(parts, m) <= Concat(parts, n)
  {
    if m < n {
      ConcatPrefix(parts, m, n - 1);
    }
  }

  /** Part `j` sits in the concatenation right after the parts before it. */
  lemma {:induction false} ConcatPlacesPart<T>(parts: seq<seq<T>>, j: nat, n: nat)
    requires j < n <= |parts|
    ensures |Concat(parts, j)| + |parts[j]| <= |Concat(parts, n)|
    ensures Concat(parts, n)[|Concat(parts, j)|..|Concat(parts, j)| + |parts[j]|] == parts[j]
  {
    var a := Concat(parts, j);
    var b := parts[j];
    assert Concat(parts, j + 1) == a + b;
    ConcatPrefix(parts, j + 1, n);
    SliceOfSum(a, b);
    SliceOfPrefix(a + b, Concat(parts, n), |a|, |a| + |b|);
  }

  /** Every element of the concatenation is an element of one of the parts. */
  lemma {:induction false} ConcatElement<T>(parts: seq<seq<T>>, n: nat, e: nat)
    requires n <= |parts|
    requires e < |Concat(parts, n)|
    ensures exists j, c :: 0 <= j < n && 0 <= c < |parts[j]| && Concat(parts, n)[e] == parts[j][c]
  {
    var prefix := Concat(parts, n - 1);
    if e < |prefix| {
      ConcatElement(parts, n - 1, e);
    } else {
      assert Concat(parts, n)[e] == parts[n - 1][e - |prefix|];
    }
  }

  /** A part of a part: when part `i` of `outer` is itself the concatenation
      of `inner`, part `j` of `inner` sits in the whole concatenation after
      the parts before `i` and the inner parts before `j`. */
  lemma {:induction false} ConcatPlacesNestedPart<T>(outer: seq<seq<T>>, n: nat, i: nat, inner: seq<seq<T>>, m: nat, j: nat,
                                                    all: seq<T>, lo: nat, block: seq<T>)
    requires i < n <= |outer| && j < m <= |inner|
    requires outer[i] == Concat(inner, m) && inner[j] == block
    requires all == Concat(outer, n) && lo == |Concat(outer, i)| + |Concat(inner, j)|
    ensures lo + |block| <= |all| && all[lo..lo + |block|] == block
  {
    var part := outer[i];
    var base := |Concat(outer, i)|;
    var a := |Concat(inner, j)|;
    ConcatPlacesPart(inner, j, m);
    assert part[a..a + |block|] == block;
    ConcatPlacesPart(outer, i, n);
    assert all[base..base + |part|] == part;
    SliceOfSlice(all, base, base + |part|, a, a + |block|);
  }

  /** A prefix `lead + block` of the part `mine` that follows `before` at the
      start of `all` extends `before` to a prefix of `all`. */
  lemma PrefixOfPrefix<T>(all: seq<T>, before: seq<T>, mine: seq<T>, lead: seq<T>, block: seq<T>)
    requires before + mine <= all && lead + block <= mine
    ensures before + lead + block <= all
  {
    var p := before + lead + block;
    forall k | 0 <= k < |p|
      ensures p[k] == all[k]
    {
      if k >= |before| {
        assert p[k] == (lead + block)[k - |before|] == mine[k - |before|];
        assert all[k] == (before + mine)[k];
      }
    }
  }

  /** A block that follows `pre` at the start of `all` sits in `all` right
      after `pre`. */
  lemma PrefixPlaces<T>(all: seq<T>, pre: seq<T>, block: seq<T>, lo: nat)
    requires pre + block <= all && lo == |pre|
    ensures lo + |block| <= |all| && all[lo..lo + |block|] == block
    ensures all[..lo] == pre
  {
    assert all[..lo + |block|] == pre + block;
    assert (pre + block)[lo..] == block;
    assert (pre + block)[..lo] == pre;
  }

}
