/**
  The personal-history matcher of `guess_factor.py`: 3-gram sets, their
  Jaccard similarity, and the first-match-wins scan of a user's previous
  passwords. Loading the history from CSV is not part of this model; the
  history arrives as a parameter.
 */
module GuessFactor {
  import opened Chars
  import opened Fractions
  import opened SequenceMatcher

  datatype Option<T> = None | Some(value: T)

  /** `LEVENSHTEIN_THRESHOLD = 0.75`. */
  const LevenshteinThreshold := Fraction(3, 4)

  /** `NGRAM_SIZE = 3`. */
  const NgramSize: nat := 3

  /** `JACCARD_THRESHOLD = 0.5`. */
  const JaccardThreshold := Fraction(1, 2)

  /** `is_levenshtein_similar`: the difflib ratio reaches the threshold. */
  predicate IsLevenshteinSimilar(pw1: string, pw2: string, threshold: Fraction)
    requires |pw2| < AutojunkLength && WellFormed(threshold)
    ensures IsLevenshteinSimilar(pw1, pw2, threshold) <==>
      if |pw1| + |pw2| == 0 then threshold.num <= threshold.den
      else 2 * Matched(pw1, pw2) * threshold.den >= threshold.num * (|pw1| + |pw2|)
  {
    AtLeast(Ratio(pw1, pw2), threshold)
  }

  /** The n-gram `s[i:i+n]`. */
  function Gram(s: string, n: nat, i: nat): (g: string)
    requires i + n <= |s|
    ensures |g| == n
  {
    s[i..i + n]
  }

  /** `ngrams(s, n)`: the set of length-n substrings of `s`. */
  function Ngrams(s: string, n: nat): (r: set<string>)
    ensures r == {} <==> |s| < n
    ensures forall g :: g in r ==> |g| == n
  {
    var r := set i: nat | i <= |s| - n :: Gram(s, n, i);
    assert |s| >= n ==> Gram(s, n, 0) in r;
    r
  }

  /** A string of length at least n has at most |s| - n + 1 distinct n-grams. */
  lemma {:induction false} NgramsCount(s: string, n: nat)
    requires |s| >= n
    ensures |Ngrams(s, n)| <= |s| - n + 1
    decreases |s|
  {
    if |s| == n {
      assert Ngrams(s, n) == {Gram(s, n, 0)};
    } else {
      var t := s[..|s| - 1];
      NgramsCount(t, n);
      var last := Gram(s, n, |s| - n);
      forall g | g in Ngrams(s, n) ensures g in Ngrams(t, n) + {last} {
        var i: nat :| i <= |s| - n && g == Gram(s, n, i);
        if i < |s| - n {
          assert Gram(t, n, i) == g;
        }
      }
      SubsetCard(Ngrams(s, n), Ngrams(t, n) + {last});
    }
  }

  lemma SubsetCard<T>(a: set<T>, b: set<T>)
    requires a <= b
    ensures |a| <= |b|
  {
    assert b == a + (b - a);
  }

  /** `jaccard_similarity`: |n1 ∩ n2| / |n1 ∪ n2| over 3-grams, 0 when either set is empty. */
  function Jaccard(s1: string, s2: string): (r: Fraction)
    ensures InUnitInterval(r)
    ensures |s1| < NgramSize || |s2| < NgramSize ==> r == Fraction(0, 1)
  {
    var n1, n2 := Ngrams(s1, NgramSize), Ngrams(s2, NgramSize);
    if n1 == {} || n2 == {} then Fraction(0, 1)
    else
      assert |n1 + n2| == |n1 - n2| + |n2 - n1| + |n1 * n2|;
      assert |n1 + n2| > 0 by { var g :| g in n1; assert g in n1 + n2; }
      Fraction(|n1 * n2|, |n1 + n2|)
  }

  lemma JaccardSymmetric(s1: string, s2: string)
    ensures Jaccard(s1, s2) == Jaccard(s2, s1)
  {
    var n1, n2 := Ngrams(s1, NgramSize), Ngrams(s2, NgramSize);
    assert n1 * n2 == n2 * n1 && n1 + n2 == n2 + n1;
  }

  lemma JaccardOfItself(s: string)
    requires |s| >= NgramSize
    ensures Jaccard(s, s).num == Jaccard(s, s).den
  {
    var n := Ngrams(s, NgramSize);
    assert n * n == n && n + n == n;
  }

  /** The guessability bands, `HIGH (...)`, `MEDIUM (...)` and `LOW (...)` in the source. */
  datatype Band = High | Medium | Low

  /** The pair `(guessability, matched_pw)` returned by the source. */
  datatype Verdict = Verdict(band: Band, matched: Option<string>)

  /** One history comparison on lower-cased strings: HIGH before MEDIUM before LOW. */
  function Classify(newLower: string, oldLower: string): (b: Band)
    requires |oldLower| < AutojunkLength
    ensures b == High <==> IsLevenshteinSimilar(newLower, oldLower, LevenshteinThreshold)
    ensures b == High <==>
      |newLower| + |oldLower| == 0 || 8 * Matched(newLower, oldLower) >= 3 * (|newLower| + |oldLower|)
    ensures b == Medium <==>
      b != High && |newLower| >= NgramSize && |oldLower| >= NgramSize &&
      var n1, n2 := Ngrams(newLower, NgramSize), Ngrams(oldLower, NgramSize);
      2 * |n1 * n2| > |n1 + n2|
  {
    if AtLeast(Ratio(newLower, oldLower), LevenshteinThreshold) then High
    else if Exceeds(Jaccard(newLower, oldLower), JaccardThreshold) then Medium
    else Low
  }

  /** Every history entry is short enough that difflib's autojunk stays off. */
  predicate ShortEntries(history: seq<string>)
  {
    forall k :: 0 <= k < |history| ==> |history[k]| < AutojunkLength
  }

  /** The `for` loop of `guessability_from_personal_history`: the first entry that classifies HIGH or MEDIUM wins. */
  function Scan(newLower: string, history: seq<string>): (v: Verdict)
    requires ShortEntries(history)
    ensures v.band == Low <==> v.matched == None
    ensures v.matched.Some? ==> v.matched.value in history
  {
    if history == [] then Verdict(Low, None)
    else
      var band := Classify(newLower, Lower(history[0]));
      if band != Low then Verdict(band, Some(history[0]))
      else Scan(newLower, history[1..])
  }

  /** `guessability_from_personal_history(new_pw, past_pw_list)`. */
  function Guessability(newPw: string, history: seq<string>): (v: Verdict)
    requires ShortEntries(history)
    ensures v.band == Low <==> v.matched == None
    ensures v.matched.Some? ==> v.matched.value in history
    ensures history == [] ==> v == Verdict(Low, None)
  {
    Scan(Lower(newPw), history)
  }

  /** How one history entry compares with the candidate, both lower-cased. */
  function EntryBand(newPw: string, previous: string): Band
    requires |previous| < AutojunkLength
  {
    Classify(Lower(newPw), Lower(previous))
  }

  /** The scan returns LOW exactly when no entry classifies HIGH or MEDIUM. */
  lemma {:induction false} ScanLow(newPw: string, history: seq<string>)
    requires ShortEntries(history)
    ensures Scan(Lower(newPw), history).band == Low <==>
      forall k :: 0 <= k < |history| ==> EntryBand(newPw, history[k]) == Low
  {
    if history != [] {
      var tail := history[1..];
      ScanLow(newPw, tail);
      assert Scan(Lower(newPw), history).band == Low <==>
        EntryBand(newPw, history[0]) == Low && Scan(Lower(newPw), tail).band == Low;
      AllLowSplit(newPw, history);
    }
  }

  /** Every entry is LOW exactly when the first is and every later one is. */
  lemma AllLowSplit(newPw: string, history: seq<string>)
    requires ShortEntries(history) && history != []
    ensures (forall k :: 0 <= k < |history| ==> EntryBand(newPw, history[k]) == Low) <==>
      EntryBand(newPw, history[0]) == Low &&
      forall k :: 0 <= k < |history| - 1 ==> EntryBand(newPw, history[1..][k]) == Low
  {
    var tail := history[1..];
    assert forall k :: 0 <= k < |tail| ==> tail[k] == history[k + 1];
  }

  /** A non-LOW scan names the earliest entry that classifies HIGH or MEDIUM, with its band. */
  lemma {:induction false} ScanMatch(newPw: string, history: seq<string>)
    requires ShortEntries(history)
    requires Scan(Lower(newPw), history).band != Low
    ensures exists k :: 0 <= k < |history| && FirstHitAt(newPw, history, k, Scan(Lower(newPw), history))
  {
    var v := Scan(Lower(newPw), history);
    if EntryBand(newPw, history[0]) != Low {
      assert v == Verdict(EntryBand(newPw, history[0]), Some(history[0]));
      assert FirstHitAt(newPw, history, 0, v);
    } else {
      var tail := history[1..];
      assert v == Scan(Lower(newPw), tail);
      ScanMatch(newPw, tail);
      var k :| 0 <= k < |tail| && FirstHitAt(newPw, tail, k, v);
      ShiftHit(newPw, history, k, v);
    }
  }

  /** A first hit in the tail, behind a LOW first entry, is a first hit of the whole history. */
  lemma ShiftHit(newPw: string, history: seq<string>, k: nat, v: Verdict)
    requires ShortEntries(history) && k + 1 < |history|
    requires EntryBand(newPw, history[0]) == Low
    requires FirstHitAt(newPw, history[1..], k, v)
    ensures FirstHitAt(newPw, history, k + 1, v)
  {
    var tail := history[1..];
    assert forall j :: 1 <= j <= k + 1 ==> history[j] == tail[j - 1];
  }

  /** Entry k is the first that classifies HIGH or MEDIUM, and the verdict names it with its band. */
  predicate FirstHitAt(newPw: string, history: seq<string>, k: nat, v: Verdict)
    requires ShortEntries(history) && k < |history|
  {
    && v.matched == Some(history[k])
    && v.band == EntryBand(newPw, history[k])
    && v.band != Low
    && forall j :: 0 <= j < k ==> EntryBand(newPw, history[j]) == Low
  }

  /**
    First match wins: the verdict is LOW exactly when no entry classifies
    HIGH or MEDIUM; otherwise it names the earliest entry that does, as
    it appears in the history (not lower-cased), with that entry's band.
   */
  lemma FirstMatchWins(newPw: string, history: seq<string>)
    requires ShortEntries(history)
    ensures var v := Guessability(newPw, history);
      && (v.band == Low <==> forall k :: 0 <= k < |history| ==> EntryBand(newPw, history[k]) == Low)
      && (v.band != Low ==> exists k :: 0 <= k < |history| && FirstHitAt(newPw, history, k, v))
  {
    ScanLow(newPw, history);
    if Guessability(newPw, history).band != Low {
      ScanMatch(newPw, history);
    }
  }

  /** The candidate is compared case-insensitively. */
  lemma CandidateCaseInsensitive(p: string, q: string, history: seq<string>)
    requires ShortEntries(history)
    requires Lower(p) == Lower(q)
    ensures Guessability(p, history) == Guessability(q, history)
  {
  }

  /**
    The history entries are compared case-insensitively: two histories
    that agree entry by entry up to case give the same band, and both
    name a match or neither does.
   */
  lemma {:induction false} HistoryCaseInsensitive(newPw: string, h1: seq<string>, h2: seq<string>)
    requires ShortEntries(h1) && ShortEntries(h2) && |h1| == |h2|
    requires forall k :: 0 <= k < |h1| ==> Lower(h1[k]) == Lower(h2[k])
    ensures Guessability(newPw, h1).band == Guessability(newPw, h2).band
    ensures Guessability(newPw, h1).matched.None? == Guessability(newPw, h2).matched.None?
  {
    if h1 != [] {
      HistoryCaseInsensitive(newPw, h1[1..], h2[1..]);
    }
  }
}
