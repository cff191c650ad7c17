/** Index combinations in the order the combination generator produces
    them: all combinations of size r of positions 0..n-1, in lexicographic
    order of positions, and the whole enumeration grouped by size 1..n. */
module Combinatorics {

  /** `c` lists positions of a sequence of length `n`, strictly increasing:
      it selects a sub-sequence that keeps the original order. */
  predicate IsCombination(c: seq<nat>, n: nat) {
    && (forall k :: 0 <= k < |c| ==> c[k] < n)
    && (forall j, k :: 0 <= j < k < |c| ==> c[j] < c[k])
  }

  predicate AtLeast(c: seq<nat>, lo: nat) {
    forall k :: 0 <= k < |c| ==> lo <= c[k]
  }

  /** The elements of `s` at the positions `c`, in the order of `c`. */
  function Pick<T>(s: seq<T>, c: seq<nat>): seq<T>
    requires forall k :: 0 <= k < |c| ==> c[k] < |s|
  {
    seq(|c|, k requires 0 <= k < |c| => s[c[k]])
  }

  /** Each combination of `cs` with `x` put in front. */
  function Prepend(x: nat, cs: seq<seq<nat>>): seq<seq<nat>> {
    seq(|cs|, k requires 0 <= k < |cs| => [x] + cs[k])
  }

  /** The combinations of size `r` drawn from positions lo..n-1, in
      lexicographic order: first those that take `lo`, then those that
      do not. */
  function Combs(lo: nat, n: nat, r: nat): seq<seq<nat>>
    decreases n - lo
  {
    if r == 0 then [[]]
    else if lo >= n then []
    else Prepend(lo, Combs(lo + 1, n, r - 1)) + Combs(lo + 1, n, r)
  }

  /** The combinations of size `r` of positions 0..n-1, in the order of
      the combination generator. */
  function Combinations(n: nat, r: nat): seq<seq<nat>> {
    Combs(0, n, r)
  }

  /** All combinations of sizes 1..r, smaller sizes first. */
  function SizesUpTo(n: nat, r: nat): seq<seq<nat>> {
    if r == 0 then [] else SizesUpTo(n, r - 1) + Combinations(n, r)
  }

  /** Every non-empty combination of positions 0..n-1, grouped by size and
      lexicographic within a size: the order in which they are tried. */
  function Enumeration(n: nat): seq<seq<nat>> {
    SizesUpTo(n, n)
  }

  predicate AllCombinations(cs: seq<seq<nat>>, n: nat) {
    forall j :: 0 <= j < |cs| ==> IsCombination(cs[j], n)
  }

  /** Soundness: what is generated from lo..n-1 with size `r` is a
      combination of that size, all of whose positions are at least `lo`. */
  lemma {:induction false} CombsSound(lo: nat, n: nat, r: nat)
    ensures forall j :: 0 <= j < |Combs(lo, n, r)| ==>
      |Combs(lo, n, r)[j]| == r && IsCombination(Combs(lo, n, r)[j], n) && AtLeast(Combs(lo, n, r)[j], lo)
    decreases n - lo
  {
    if r > 0 && lo < n {
      var taking := Combs(lo + 1, n, r - 1);
      var skipping := Combs(lo + 1, n, r);
      var front := Prepend(lo, taking);
      var cs := front + skipping;
      assert cs == Combs(lo, n, r);
      CombsSound(lo + 1, n, r - 1);
      CombsSound(lo + 1, n, r);
      forall j | 0 <= j < |cs|
        ensures |cs[j]| == r && IsCombination(cs[j], n) && AtLeast(cs[j], lo)
      {
        if j < |front| {
          ConsCombination(lo, taking[j], n);
        } else {
          assert cs[j] == skipping[j - |front|];
        }
      }
    }
  }

  lemma ConsCombination(x: nat, c: seq<nat>, n: nat)
    requires x < n && IsCombination(c, n) && AtLeast(c, x + 1)
    ensures IsCombination([x] + c, n) && AtLeast([x] + c, x)
  {
    var d := [x] + c;
    forall j, k | 0 <= j < k < |d| ensures d[j] < d[k] {
      if j > 0 {
        assert d[j] == c[j - 1] && d[k] == c[k - 1];
      } else {
        assert d[k] == c[k - 1];
      }
    }
  }

  lemma CombinationsSound(n: nat, r: nat)
    ensures AllCombinations(Combinations(n, r), n)
  {
    CombsSound(0, n, r);
  }

  /** Every member of the enumeration up to size `r` is a combination of
      size 1..r. */
  lemma {:induction false} SizesUpToSound(n: nat, r: nat)
    ensures AllCombinations(SizesUpTo(n, r), n)
    ensures forall j :: 0 <= j < |SizesUpTo(n, r)| ==> 1 <= |SizesUpTo(n, r)[j]| <= r
  {
    if r > 0 {
      SizesUpToSound(n, r - 1);
      CombsSound(0, n, r);
    }
  }

  /** Every member of the enumeration is a non-empty combination of
      positions 0..n-1. */
  lemma EnumerationSound(n: nat)
    ensures AllCombinations(Enumeration(n), n)
    ensures forall j :: 0 <= j < |Enumeration(n)| ==> 1 <= |Enumeration(n)[j]| <= n
  {
    SizesUpToSound(n, n);
  }

  /** A strictly increasing sequence of positions below `n` is at most `n`
      long. */
  lemma {:induction false} CombinationLength(c: seq<nat>, n: nat)
    requires IsCombination(c, n)
    ensures |c| <= n
  {
    if c != [] {
      var init := c[..|c| - 1];
      var last := c[|c| - 1];
      assert IsCombination(init, last);
      CombinationLength(init, last);
    }
  }

  /** Completeness: every combination of size `r` drawn from lo..n-1 is
      generated. */
  lemma {:induction false} CombsComplete(lo: nat, n: nat, r: nat, c: seq<nat>)
    requires IsCombination(c, n) && AtLeast(c, lo) && |c| == r
    ensures c in Combs(lo, n, r)
    decreases n - lo
  {
    if r == 0 {
      assert c == [];
    } else {
      assert lo <= c[0] < n;
      if c[0] == lo {
        var tail := c[1..];
        assert IsCombination(tail, n) && AtLeast(tail, lo + 1) by {
          forall k | 0 <= k < |tail| ensures lo + 1 <= tail[k] {
            assert tail[k] == c[k + 1];
          }
        }
        CombsComplete(lo + 1, n, r - 1, tail);
        var taking := Combs(lo + 1, n, r - 1);
        var j :| 0 <= j < |taking| && taking[j] == tail;
        assert Prepend(lo, taking)[j] == c;
        assert c in Prepend(lo, taking);
      } else {
        assert AtLeast(c, lo + 1) by {
          forall k | 0 <= k < |c| ensures lo + 1 <= c[k] {
            if k > 0 {
              assert c[0] < c[k];
            }
          }
        }
        CombsComplete(lo + 1, n, r, c);
      }
    }
  }

  /** Every non-empty combination of positions 0..n-1 appears in the
      enumeration. */
  lemma EnumerationComplete(n: nat, c: seq<nat>)
    requires IsCombination(c, n) && c != []
    ensures c in Enumeration(n)
  {
    CombinationLength(c, n);
    CombsComplete(0, n, |c|, c);
    SizesUpToContains(n, n, c);
  }

  lemma {:induction false} SizesUpToContains(n: nat, r: nat, c: seq<nat>)
    requires 1 <= |c| <= r && c in Combinations(n, |c|)
    ensures c in SizesUpTo(n, r)
  {
    if |c| < r {
      SizesUpToContains(n, r - 1, c);
    }
    assert SizesUpTo(n, r) == SizesUpTo(n, r - 1) + Combinations(n, r);
  }

  // ---------------------------------------------------------------------
  // Order of the enumeration

  /** Lexicographic order on position sequences. */
  predicate LexLess(a: seq<nat>, b: seq<nat>) {
    && a != [] && b != []
    && (a[0] < b[0] || (a[0] == b[0] && LexLess(a[1..], b[1..])))
  }

  /** `a` is tried before `b`: a smaller size, or the same size and
      lexicographically smaller. */
  predicate TriedBefore(a: seq<nat>, b: seq<nat>) {
    |a| < |b| || (|a| == |b| && LexLess(a, b))
  }

  predicate Ordered(cs: seq<seq<nat>>) {
    forall i, j :: 0 <= i < j < |cs| ==> TriedBefore(cs[i], cs[j])
  }

  lemma {:induction false} LexLessAsymmetric(a: seq<nat>, b: seq<nat>)
    requires LexLess(a, b)
    ensures !LexLess(b, a)
  {
    if a[0] == b[0] {
      LexLessAsymmetric(a[1..], b[1..]);
    }
  }

  /** `TriedBefore` is a strict order: never both ways, never reflexive. */
  lemma TriedBeforeAsymmetric(a: seq<nat>, b: seq<nat>)
    requires TriedBefore(a, b)
    ensures !TriedBefore(b, a) && a != b
  {
    if |a| == |b| {
      LexLessAsymmetric(a, b);
    }
  }

  lemma {:induction false} CombsSorted(lo: nat, n: nat, r: nat)
    ensures forall i, j :: 0 <= i < j < |Combs(lo, n, r)| ==> LexLess(Combs(lo, n, r)[i], Combs(lo, n, r)[j])
    decreases n - lo
  {
    if r > 0 && lo < n {
      var taking := Combs(lo + 1, n, r - 1);
      var skipping := Combs(lo + 1, n, r);
      var front := Prepend(lo, taking);
      var cs := front + skipping;
      assert cs == Combs(lo, n, r);
      CombsSound(lo + 1, n, r);
      CombsSorted(lo + 1, n, r - 1);
      CombsSorted(lo + 1, n, r);
      forall i, j | 0 <= i < j < |cs| ensures LexLess(cs[i], cs[j]) {
        if j < |front| {
          assert cs[i] == [lo] + taking[i] && cs[j] == [lo] + taking[j];
          assert cs[i][1..] == taking[i] && cs[j][1..] == taking[j];
        } else if i < |front| {
          assert cs[i] == [lo] + taking[i];
          assert cs[j] == skipping[j - |front|];
          assert lo + 1 <= cs[j][0];
        } else {
          assert cs[i] == skipping[i - |front|] && cs[j] == skipping[j - |front|];
        }
      }
    }
  }

  lemma {:induction false} SizesUpToOrdered(n: nat, r: nat)
    ensures Ordered(SizesUpTo(n, r))
  {
    if r > 0 {
      SizesUpToOrdered(n, r - 1);
      CombsSorted(0, n, r);
      SizesUpToSound(n, r - 1);
      CombsSound(0, n, r);
      var small := SizesUpTo(n, r - 1);
      var big := Combinations(n, r);
      var cs := small + big;
      forall i, j | 0 <= i < j < |cs| ensures TriedBefore(cs[i], cs[j]) {
        if j < |small| {
          assert cs[i] == small[i] && cs[j] == small[j];
        } else if i < |small| {
          assert |cs[i]| <= r - 1 && |cs[j]| == r;
        } else {
          assert cs[i] == big[i - |small|] && cs[j] == big[j - |small|];
        }
      }
    }
  }

  /** The enumeration tries smaller combinations first and, within a size,
      goes in lexicographic order of positions; in particular no combination
      is tried twice. */
  lemma EnumerationOrdered(n: nat)
    ensures Ordered(Enumeration(n))
  {
    SizesUpToOrdered(n, n);
  }
}
