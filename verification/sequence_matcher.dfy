/**
  Exact rationals for the scores that the source keeps as floats.
 */
module Fractions {

  /** The value num / den; `den` is positive for every fraction the model builds. */
  datatype Fraction = Fraction(num: nat, den: nat)

  predicate WellFormed(x: Fraction) { x.den > 0 }

  /** x >= y, for fractions with positive denominators. */
  predicate AtLeast(x: Fraction, y: Fraction) { x.num * y.den >= y.num * x.den }

  /** x > y, for fractions with positive denominators. */
  predicate Exceeds(x: Fraction, y: Fraction) { x.num * y.den > y.num * x.den }

  /** The value lies in [0, 1]. */
  predicate InUnitInterval(x: Fraction) { x.den > 0 && x.num <= x.den }
}

/**
  Python's `difflib.SequenceMatcher(None, a, b).ratio()` as a recursive
  specification: find the longest common block (ties broken by the
  smallest start in `a`, then in `b`), recurse on what lies to its left
  and to its right, and sum the matched lengths M; the ratio is
  2M / (|a| + |b|), or 1 when both strings are empty. With `isjunk=None`
  difflib only junks "popular" characters of `b` when `b` has 200 or more
  characters; callers of `Ratio` keep `b` shorter than that.
 */
module SequenceMatcher {
  import opened Fractions

  /** difflib's autojunk threshold on the length of the second string. */
  const AutojunkLength := 200

  /** A matching block `a[i..i+size] == b[j..j+size]`. */
  datatype Block = Block(i: nat, j: nat, size: nat)

  /** `a[i..i+k] == b[j..j+k]`, both slices lying inside their strings. */
  predicate Matches(a: string, b: string, i: nat, j: nat, k: nat)
  {
    i + k <= |a| && j + k <= |b| && a[i..i + k] == b[j..j + k]
  }

  /** The block lies inside the window `a[alo..ahi]`, `b[blo..bhi]`. */
  predicate InWindow(i: nat, j: nat, k: nat, alo: nat, ahi: nat, blo: nat, bhi: nat)
  {
    alo <= i && i + k <= ahi && blo <= j && j + k <= bhi
  }

  /** (i, j) comes no later than (i', j') in difflib's tie-breaking order. */
  predicate NoLater(i: nat, j: nat, i': nat, j': nat)
  {
    i < i' || (i == i' && j <= j')
  }

  /** The length of the longest matching run starting at (i, j), inside the window's upper bounds. */
  function RunLength(a: string, b: string, ahi: nat, bhi: nat, i: nat, j: nat): (r: nat)
    requires ahi <= |a| && bhi <= |b|
    ensures i <= ahi ==> i + r <= ahi
    ensures j <= bhi ==> j + r <= bhi
    ensures r > 0 ==> i < ahi && j < bhi
    ensures r > 0 ==> Matches(a, b, i, j, r)
    decreases ahi - i
  {
    if i < ahi && j < bhi && a[i] == b[j] then 1 + RunLength(a, b, ahi, bhi, i + 1, j + 1) else 0
  }

  /** No matching run starting at (i, j) is longer than RunLength. */
  lemma {:induction false} RunLengthMaximal(a: string, b: string, ahi: nat, bhi: nat, i: nat, j: nat, k: nat)
    requires ahi <= |a| && bhi <= |b|
    requires i + k <= ahi && j + k <= bhi
    requires Matches(a, b, i, j, k)
    ensures k <= RunLength(a, b, ahi, bhi, i, j)
    decreases k
  {
    if k > 0 {
      assert a[i] == a[i..i + k][0] == b[j..j + k][0] == b[j];
      assert a[i + 1..i + k] == a[i..i + k][1..] == b[j..j + k][1..] == b[j + 1..j + k];
      RunLengthMaximal(a, b, ahi, bhi, i + 1, j + 1, k - 1);
    }
  }

  /**
    Scans row `i` from column `j` up to `bhi`, replacing `best` only by a
    strictly longer run, so the earliest column wins a tie.
   */
  function ScanRow(a: string, b: string, ahi: nat, bhi: nat, i: nat, j: nat, best: Block): (r: Block)
    requires i < ahi <= |a| && j <= bhi <= |b|
    ensures r.size >= best.size
    ensures r == best || (r.i == i && j <= r.j < bhi && r.size == RunLength(a, b, ahi, bhi, i, r.j) && r.size > best.size)
    ensures forall j' :: j <= j' < bhi ==> RunLength(a, b, ahi, bhi, i, j') <= r.size
    ensures forall j' :: j <= j' < bhi && r != best && RunLength(a, b, ahi, bhi, i, j') == r.size ==> r.j <= j'
    decreases bhi - j
  {
    if j == bhi then best
    else
      var k := RunLength(a, b, ahi, bhi, i, j);
      ScanRow(a, b, ahi, bhi, i, j + 1, if k > best.size then Block(i, j, k) else best)
  }

  /** Scans rows `i` up to `ahi`, each from column `blo`. */
  function ScanRows(a: string, b: string, ahi: nat, blo: nat, bhi: nat, i: nat, best: Block): (r: Block)
    requires i <= ahi <= |a| && blo <= bhi <= |b|
    ensures r.size >= best.size
    ensures r == best || (i <= r.i < ahi && blo <= r.j < bhi && r.size == RunLength(a, b, ahi, bhi, r.i, r.j) && r.size > best.size)
    ensures forall i', j' :: i <= i' < ahi && blo <= j' < bhi ==> RunLength(a, b, ahi, bhi, i', j') <= r.size
    ensures forall i', j' :: i <= i' < ahi && blo <= j' < bhi && r != best && RunLength(a, b, ahi, bhi, i', j') == r.size ==> NoLater(r.i, r.j, i', j')
    decreases ahi - i
  {
    if i == ahi then best
    else
      var inner := ScanRow(a, b, ahi, bhi, i, blo, best);
      var r := ScanRows(a, b, ahi, blo, bhi, i + 1, inner);
      assert r == inner || (i < r.i && r.size > inner.size);
      forall i', j' | i <= i' < ahi && blo <= j' < bhi
        ensures RunLength(a, b, ahi, bhi, i', j') <= r.size
        ensures r != best && RunLength(a, b, ahi, bhi, i', j') == r.size ==> NoLater(r.i, r.j, i', j')
      {
        if i' == i {
          assert RunLength(a, b, ahi, bhi, i', j') <= inner.size;
        }
      }
      r
  }

  /**
    difflib's `find_longest_match(alo, ahi, blo, bhi)` without junk: the
    longest block in the window; among the longest, the one starting
    earliest in `a`, then earliest in `b`; `(alo, blo, 0)` when nothing
    matches.
   */
  function LongestMatch(a: string, b: string, alo: nat, ahi: nat, blo: nat, bhi: nat): (r: Block)
    requires alo <= ahi <= |a| && blo <= bhi <= |b|
    ensures InWindow(r.i, r.j, r.size, alo, ahi, blo, bhi)
    ensures Matches(a, b, r.i, r.j, r.size)
    ensures r.size == 0 ==> r.i == alo && r.j == blo
    ensures forall i': nat, j': nat, k': nat ::
      InWindow(i', j', k', alo, ahi, blo, bhi) && Matches(a, b, i', j', k') ==>
        k' <= r.size && (k' == r.size ==> NoLater(r.i, r.j, i', j'))
  {
    var best := Block(alo, blo, 0);
    var r := ScanRows(a, b, ahi, blo, bhi, alo, best);
    forall i': nat, j': nat, k': nat | InWindow(i', j', k', alo, ahi, blo, bhi) && Matches(a, b, i', j', k')
      ensures k' <= r.size && (k' == r.size ==> NoLater(r.i, r.j, i', j'))
    {
      if k' > 0 {
        RunLengthMaximal(a, b, ahi, bhi, i', j', k');
      }
    }
    r
  }

  /**
    The total size M of difflib's `get_matching_blocks` on the window:
    the longest block plus what the left and right remainders match.
   */
  function MatchedLength(a: string, b: string, alo: nat, ahi: nat, blo: nat, bhi: nat): (m: nat)
    requires alo <= ahi <= |a| && blo <= bhi <= |b|
    ensures m <= ahi - alo && m <= bhi - blo
    decreases (ahi - alo) + (bhi - blo)
  {
    var x := LongestMatch(a, b, alo, ahi, blo, bhi);
    if x.size == 0 then 0
    else
      x.size
      + (if alo < x.i && blo < x.j then MatchedLength(a, b, alo, x.i, blo, x.j) else 0)
      + (if x.i + x.size < ahi && x.j + x.size < bhi
         then MatchedLength(a, b, x.i + x.size, ahi, x.j + x.size, bhi) else 0)
  }

  /** M for the whole of both strings. */
  function Matched(a: string, b: string): (m: nat)
    ensures m <= |a| && m <= |b|
  {
    MatchedLength(a, b, 0, |a|, 0, |b|)
  }

  /** `SequenceMatcher(None, a, b).ratio()`: 2M / (|a| + |b|), or 1 when both are empty. */
  function Ratio(a: string, b: string): (r: Fraction)
    requires |b| < AutojunkLength
    ensures InUnitInterval(r)
  {
    if |a| + |b| == 0 then Fraction(1, 1) else Fraction(2 * Matched(a, b), |a| + |b|)
  }

  /** A non-empty string matches itself entirely, so its ratio with itself is 1. */
  lemma IdenticalRatioIsOne(s: string)
    requires |s| < AutojunkLength
    ensures Matched(s, s) == |s|
    ensures Ratio(s, s).num == Ratio(s, s).den
  {
    if |s| > 0 {
      var x := LongestMatch(s, s, 0, |s|, 0, |s|);
      assert Matches(s, s, 0, 0, |s|);
      assert InWindow(0, 0, |s|, 0, |s|, 0, |s|);
      assert x.size == |s|;
    }
  }

  /** A matching block agrees character by character. */
  lemma MatchesPointwise(a: string, b: string, i: nat, j: nat, k: nat)
    requires Matches(a, b, i, j, k)
    ensures forall t :: i <= t < i + k ==> a[t] == b[j + (t - i)]
  {
    forall t | i <= t < i + k ensures a[t] == b[j + (t - i)] {
      assert a[t] == a[i..i + k][t - i] && b[j + (t - i)] == b[j..j + k][t - i];
    }
  }

  lemma FirstBlockOfAbInBacb()
    ensures LongestMatch("ab", "bacb", 0, 2, 0, 4) == Block(0, 1, 1)
  {
    var a, b := "ab", "bacb";
    var x := LongestMatch(a, b, 0, 2, 0, 4);
    assert Matches(a, b, 0, 1, 1) && InWindow(0, 1, 1, 0, 2, 0, 4);
    MatchesPointwise(a, b, x.i, x.j, x.size);
    assert x.i + x.size <= 2 && x.j + x.size <= 4;
    assert x.size == 1;
  }

  lemma SecondBlockOfAbInBacb()
    ensures LongestMatch("ab", "bacb", 1, 2, 2, 4) == Block(1, 3, 1)
  {
    var a, b := "ab", "bacb";
    var y := LongestMatch(a, b, 1, 2, 2, 4);
    assert Matches(a, b, 1, 3, 1) && InWindow(1, 3, 1, 1, 2, 2, 4);
    MatchesPointwise(a, b, y.i, y.j, y.size);
    assert y.size == 1;
  }

  lemma FirstBlockOfBacbInAb()
    ensures LongestMatch("bacb", "ab", 0, 4, 0, 2) == Block(0, 1, 1)
  {
    var a, b := "bacb", "ab";
    var z := LongestMatch(a, b, 0, 4, 0, 2);
    assert Matches(a, b, 0, 1, 1) && InWindow(0, 1, 1, 0, 4, 0, 2);
    MatchesPointwise(a, b, z.i, z.j, z.size);
    assert z.i + z.size <= 4 && z.j + z.size <= 2;
    assert z.size == 1;
  }

  lemma MatchedAbBacb()
    ensures Matched("ab", "bacb") == 2
  {
    SecondBlockOfAbInBacb();
    var right := MatchedLength("ab", "bacb", 1, 2, 2, 4);
    assert right == 1;
    FirstBlockOfAbInBacb();
  }

  lemma MatchedBacbAb()
    ensures Matched("bacb", "ab") == 1
  {
    FirstBlockOfBacbInAb();
  }

  /**
    The ratio depends on the order of its arguments: the tie-breaking
    rule picks blocks that leave a second match for "ab" against "bacb"
    but not for "bacb" against "ab".
   */
  lemma RatioNotSymmetric()
    ensures Ratio("ab", "bacb") == Fraction(4, 6)
    ensures Ratio("bacb", "ab") == Fraction(2, 6)
  {
    MatchedAbBacb();
    MatchedBacbAb();
  }
}
