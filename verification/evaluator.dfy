/**
  The strength evaluation engine of `password_evaluater_score5.py`: the
  entropy proxy, the three heuristic checks and the six-check composite
  score. Scores are kept in half-points (0 to 12) so that the history
  check's half credit stays exact. The dictionary, the password history
  and the password-to-site map arrive as parameters instead of being
  loaded from files; printing is not modelled.
 */
module Evaluator {
  import opened Chars
  import opened SequenceMatcher
  import opened GuessFactor

  /** `MAX_LENGTH`, `MIN_LENGTH` and `MIN_ENTROPY`. */
  const MaxLength: nat := 15
  const MinLength: nat := 10
  const MinEntropy: nat := 60

  // ---------------------------------------------------------------- entropy

  function Pow(b: nat, e: nat): nat
  {
    if e == 0 then 1 else b * Pow(b, e - 1)
  }

  /** Products of naturals grow with their factors. */
  lemma MulMonotone(x: nat, y: nat, u: nat, v: nat)
    requires x <= y && u <= v
    ensures x * u <= y * v
  {
    assert x * u <= y * u;
    assert y * u <= y * v;
  }

  lemma {:induction false} PowExponentMonotone(b: nat, m: nat, n: nat)
    requires b >= 1 && m <= n
    ensures Pow(b, m) <= Pow(b, n)
    decreases n
  {
    if m < n {
      PowExponentMonotone(b, m, n - 1);
      var p := Pow(b, n - 1);
      assert Pow(b, n) == b * p;
      MulMonotone(1, b, p, p);
    }
  }

  lemma {:induction false} PowBaseMonotone(a: nat, b: nat, n: nat)
    requires a <= b
    ensures Pow(a, n) <= Pow(b, n)
  {
    if n > 0 {
      PowBaseMonotone(a, b, n - 1);
      var pa, pb := Pow(a, n - 1), Pow(b, n - 1);
      assert Pow(a, n) == a * pa && Pow(b, n) == b * pb;
      MulMonotone(a, b, pa, pb);
    }
  }

  /**
    The value of `calculate_entropy`: `length * log2(alphabet)` bits, or
    zero when the password has at most one distinct character. The
    logarithm is kept symbolic; `AtLeastBits` compares it exactly.
   */
  datatype Entropy = Zero | Bits(length: nat, alphabet: nat)

  /** `calculate_entropy(password)`. */
  function CalculateEntropy(pw: string): (e: Entropy)
    ensures e.Zero? <==> |Distinct(pw)| <= 1
    ensures e.Bits? ==> e.alphabet == |Distinct(pw)| && e.length == |pw|
    ensures e.Bits? ==> 2 <= e.alphabet <= e.length == |pw|
  {
    DistinctAtMostLength(pw);
    var unique := |Distinct(pw)|;
    if unique > 1 then Bits(|pw|, unique) else Zero
  }

  /** The entropy is at least `bits`: n * log2(u) >= bits exactly when u^n >= 2^bits. */
  predicate AtLeastBits(e: Entropy, bits: nat)
  {
    match e
    case Zero => bits == 0
    case Bits(n, u) => Pow(2, bits) <= Pow(u, n)
  }

  /** `entropy >= MIN_ENTROPY`. */
  predicate MeetsMinEntropy(pw: string)
    ensures MeetsMinEntropy(pw) <==>
      |Distinct(pw)| > 1 && Pow(2, MinEntropy) <= Pow(|Distinct(pw)|, |pw|)
  {
    AtLeastBits(CalculateEntropy(pw), MinEntropy)
  }

  /** For a fixed number of distinct characters, a longer password never has less entropy. */
  lemma EntropyNonDecreasingInLength(p: string, q: string, bits: nat)
    requires |Distinct(p)| == |Distinct(q)| > 1 && |p| <= |q|
    ensures AtLeastBits(CalculateEntropy(p), bits) ==> AtLeastBits(CalculateEntropy(q), bits)
  {
    PowExponentMonotone(|Distinct(p)|, |p|, |q|);
  }

  lemma {:induction false} PowAdd(b: nat, m: nat, n: nat)
    ensures Pow(b, m + n) == Pow(b, m) * Pow(b, n)
    decreases m
  {
    if m > 0 {
      PowAdd(b, m - 1, n);
      var x, y := Pow(b, m - 1), Pow(b, n);
      assert Pow(b, m + n) == b * Pow(b, m - 1 + n);
      assert b * (x * y) == (b * x) * y;
    }
  }

  lemma {:induction false} PowPositive(b: nat, n: nat)
    requires b >= 1
    ensures Pow(b, n) >= 1
  {
    if n > 0 {
      PowPositive(b, n - 1);
      MulMonotone(1, b, 1, Pow(b, n - 1));
    }
  }

  lemma {:induction false} PowBaseStrict(a: nat, b: nat, n: nat)
    requires a < b && n > 0
    ensures Pow(a, n) < Pow(b, n)
  {
    if n > 1 {
      PowBaseStrict(a, b, n - 1);
      PowPositive(b, n - 1);
      var pa, pb := Pow(a, n - 1), Pow(b, n - 1);
      assert Pow(a, n) == a * pa && Pow(b, n) == b * pb;
      MulMonotone(a, a, pa, pb);
      MulStrict(a, b, pb);
    }
  }

  /** x < y and z > 0 give x * z < y * z. */
  lemma MulStrict(x: nat, y: nat, z: nat)
    requires x < y && z > 0
    ensures x * z < y * z
  {
    assert y * z == x * z + (y - x) * z;
  }

  /** 16^n == 2^(4n). */
  lemma {:induction false} SixteenIsTwoToTheFour(n: nat)
    ensures Pow(16, n) == Pow(2, 4 * n)
  {
    if n > 0 {
      SixteenIsTwoToTheFour(n - 1);
      PowAdd(2, 4, 4 * (n - 1));
      assert Pow(2, 4) == 16;
    }
  }

  /** 15 * log2(15) < 60, that is 15^15 < 2^60 = 16^15. */
  lemma FifteenCharactersFallShort()
    ensures Pow(15, 15) < Pow(2, MinEntropy)
  {
    PowBaseStrict(15, 16, 15);
    SixteenIsTwoToTheFour(15);
  }

  /**
    No password of at most `MAX_LENGTH` characters reaches `MIN_ENTROPY`:
    its alphabet has at most 15 characters, and 15 * log2(15) < 60.
   */
  lemma EntropyNeedsMoreThanMaxLength(pw: string)
    ensures MeetsMinEntropy(pw) ==> |pw| > MaxLength
  {
    var e := CalculateEntropy(pw);
    if e.Bits? && |pw| <= MaxLength {
      var n, u := e.length, e.alphabet;
      PowBaseMonotone(u, 15, n);
      PowExponentMonotone(15, n, 15);
      FifteenCharactersFallShort();
    }
  }

  // ---------------------------------------------------------------- checks

  /** Python's `sum` over booleans. */
  function CountTrue(s: seq<bool>): nat
  {
    if s == [] then 0 else (if s[0] then 1 else 0) + CountTrue(s[1..])
  }

  lemma CountFour(l: bool, u: bool, d: bool, p: bool)
    ensures CountTrue([l, u, d, p]) == CountTrue([l]) + CountTrue([u]) + CountTrue([d]) + CountTrue([p])
  {
    assert [l, u, d, p][1..] == [u, d, p] && [u, d, p][1..] == [d, p] && [d, p][1..] == [p];
    assert [l][1..] == [u][1..] == [d][1..] == [p][1..] == [];
    assert CountTrue([d, p]) == CountTrue([d]) + CountTrue([p]);
    assert CountTrue([u, d, p]) == CountTrue([u]) + CountTrue([d, p]);
  }

  /** `has_variety`: at least 3 of {lowercase, uppercase, digit, punctuation} occur. */
  function HasVariety(pw: string): (r: bool)
    ensures r <==>
      var (l, u, d, p) := (HasLower(pw), HasUpper(pw), HasDigit(pw), HasPunctuation(pw));
      (l && u && d) || (l && u && p) || (l && d && p) || (u && d && p)
    ensures (forall i :: 0 <= i < |pw| ==> IsLower(pw[i])) ==> !r
  {
    var (l, u, d, p) := (HasLower(pw), HasUpper(pw), HasDigit(pw), HasPunctuation(pw));
    CountFour(l, u, d, p);
    CountTrue([l, u, d, p]) >= 3
  }

  /** The literal patterns of `has_predictable_pattern`. */
  const Patterns: seq<string> := ["123", "abc", "000", "111", "aaa", "qwerty"]

  /** `re.search(r'(.)\1{2,}', password)`: a non-newline character repeated three times in a row. */
  predicate HasTripleRun(pw: string)
    ensures HasTripleRun(pw) ==> |pw| >= 3
    ensures HasTripleRun(pw) <==> exists c :: c != '\n' && Contains(pw, [c, c, c])
  {
    TripleRunIsRepeatedChar(pw);
    exists i :: 0 <= i < |pw| - 2 && pw[i] != '\n' && pw[i] == pw[i + 1] && pw[i + 1] == pw[i + 2]
  }

  /** A run of three equal characters at some index is the text `ccc` occurring in the password. */
  lemma TripleRunIsRepeatedChar(pw: string)
    ensures (exists i :: 0 <= i < |pw| - 2 && pw[i] != '\n' && pw[i] == pw[i + 1] && pw[i + 1] == pw[i + 2])
      <==> exists c :: c != '\n' && Contains(pw, [c, c, c])
  {
    if i :| 0 <= i < |pw| - 2 && pw[i] != '\n' && pw[i] == pw[i + 1] && pw[i + 1] == pw[i + 2] {
      assert OccursAt(pw, [pw[i], pw[i], pw[i]], i);
    }
    if c :| c != '\n' && Contains(pw, [c, c, c]) {
      var i :| 0 <= i <= |pw| - 3 && OccursAt(pw, [c, c, c], i);
      assert pw[i..i + 3][0] == pw[i] && pw[i..i + 3][1] == pw[i + 1] && pw[i..i + 3][2] == pw[i + 2];
    }
  }

  /** The property `has_predictable_pattern` decides. */
  predicate Predictable(pw: string)
  {
    (exists k :: 0 <= k < |Patterns| && Contains(Lower(pw), Patterns[k])) || HasTripleRun(pw)
  }

  /** `has_predictable_pattern`: the literal patterns in order, then the repetition search. */
  method HasPredictablePattern(pw: string) returns (r: bool)
    ensures r <==> Predictable(pw)
  {
    var lower := Lower(pw);
    var k := 0;
    while k < |Patterns|
      invariant 0 <= k <= |Patterns|
      invariant forall m :: 0 <= m < k ==> !Contains(lower, Patterns[m])
    {
      if Contains(lower, Patterns[k]) {
        return true;
      }
      k := k + 1;
    }
    r := HasTripleRun(pw);
  }

  /** A predictable password stays predictable whatever is put before or after it. */
  lemma PredictableInExtension(pw: string, x: string, y: string)
    requires Predictable(pw)
    ensures Predictable(x + pw + y)
  {
    var w := x + pw + y;
    LowerAppend(x, pw);
    LowerAppend(x + pw, y);
    if k :| 0 <= k < |Patterns| && Contains(Lower(pw), Patterns[k]) {
      ContainsInExtension(Lower(pw), Patterns[k], Lower(x), Lower(y));
    } else {
      var i :| 0 <= i < |pw| - 2 && pw[i] != '\n' && pw[i] == pw[i + 1] && pw[i + 1] == pw[i + 2];
      assert w[|x| + i] == pw[i] && w[|x| + i + 1] == pw[i + 1] && w[|x| + i + 2] == pw[i + 2];
    }
  }

  /**
    `is_dictionary_resistant`: an exact (lower-cased) dictionary hit fails;
    otherwise at least two of {punctuation, digit, more than 8 distinct
    characters} are needed.
   */
  function IsDictionaryResistant(pw: string, dictionary: set<string>): (r: bool)
    ensures Lower(pw) in dictionary ==> !r
    ensures Lower(pw) !in dictionary ==>
      (r <==> var (p, d, m) := (HasPunctuation(pw), HasDigit(pw), |Distinct(pw)| > 8);
              (p && d) || (p && m) || (d && m))
    ensures Lower(pw) !in dictionary && HasPunctuation(pw) && HasDigit(pw) ==> r
    ensures !HasPunctuation(pw) && !HasDigit(pw) ==> !r
  {
    if Lower(pw) in dictionary then false
    else
      var score := (if HasPunctuation(pw) then 1 else 0)
                 + (if HasDigit(pw) then 1 else 0)
                 + (if |Distinct(pw)| > 8 then 1 else 0);
      score >= 2
  }

  /** `MIN_LENGTH <= len(password) <= MAX_LENGTH`. */
  predicate LengthInRange(pw: string)
    ensures LengthInRange(pw) ==> !MeetsMinEntropy(pw)
  {
    EntropyNeedsMoreThanMaxLength(pw);
    MinLength <= |pw| <= MaxLength
  }

  /** The entropy check and the length check never both pass. */
  lemma EntropyAndLengthExclusive(pw: string)
    ensures !(MeetsMinEntropy(pw) && LengthInRange(pw))
  {
    EntropyNeedsMoreThanMaxLength(pw);
  }

  // ---------------------------------------------------------------- score

  /** The remediation reasons `evaluate_password` appends, in check order. */
  datatype Reason =
    | EntropyTooLow
    | LacksVariety
    | TooLongOrTooShort
    | TooBasic
    | TooSimilar(site: string)
    | PredictablePattern

  /**
    The suggestion text the source appends for each reason. The model's
    reasons are `Reason` values; this function only records their wording.
   */
  function Message(r: Reason): string
  {
    match r
    case EntropyTooLow => "Entropy too low"
    case LacksVariety => "Lacks variety (upper/lower/digits/symbols)"
    case TooLongOrTooShort => "Too long or too short"
    case TooBasic => "Too basic, likely guessable"
    case TooSimilar(site) => "Too similar to password used on " + site
    case PredictablePattern => "Has predictable pattern"
  }

  /** The position of each check in the evaluation order. */
  function Rank(r: Reason): nat
  {
    match r
    case EntropyTooLow => 0
    case LacksVariety => 1
    case TooLongOrTooShort => 2
    case TooBasic => 3
    case TooSimilar(_) => 4
    case PredictablePattern => 5
  }

  /** Reasons appear in check order, each check at most once. */
  predicate InCheckOrder(reasons: seq<Reason>)
  {
    forall i, j :: 0 <= i < j < |reasons| ==> Rank(reasons[i]) < Rank(reasons[j])
  }

  /** The qualitative label printed at the end of `evaluate_password`. */
  datatype Strength = Excellent | Good | Moderate | Weak

  /** The label for a score given in half-points. */
  function StrengthOf(halfPoints: nat): (s: Strength)
    requires halfPoints <= 12
    ensures s == Excellent <==> halfPoints == 12
    ensures s == Good <==> 10 <= halfPoints < 12
    ensures s == Moderate <==> 6 <= halfPoints < 10
    ensures s == Weak <==> halfPoints < 6
  {
    if halfPoints == 12 then Excellent
    else if halfPoints >= 10 then Good
    else if halfPoints >= 6 then Moderate
    else Weak
  }

  /** `pw_to_site.get(matched_pw, "unknown site")`. */
  function SiteLabel(siteOf: map<string, string>, matched: Option<string>): (site: string)
    ensures matched.Some? && matched.value in siteOf ==> site == siteOf[matched.value]
    ensures matched.None? || matched.value !in siteOf ==> site == "unknown site"
    ensures site == "unknown site" || site in siteOf.Values
  {
    match matched
    case Some(m) => if m in siteOf then siteOf[m] else "unknown site"
    case None => "unknown site"
  }

  /** The outcome of the six checks, in the order `evaluate_password` runs them. */
  datatype Checks = Checks(
    entropyOk: bool,
    varietyOk: bool,
    lengthOk: bool,
    dictionaryOk: bool,
    verdict: Verdict,
    patternFree: bool)

  function RunChecks(pw: string, dictionary: set<string>, history: seq<string>): Checks
    requires ShortEntries(history)
  {
    Checks(
      MeetsMinEntropy(pw),
      HasVariety(pw),
      LengthInRange(pw),
      IsDictionaryResistant(pw, dictionary),
      Guessability(pw, history),
      !Predictable(pw))
  }

  function Credit(ok: bool): nat { if ok then 2 else 0 }

  /**
    The score in half-points: two for each passed check; the history
    check gives two for LOW, one for MEDIUM and none for HIGH.
   */
  function HalfPointsOf(c: Checks): (h: nat)
    ensures h <= 12
    ensures h % 2 == 1 <==> c.verdict.band == Medium
    ensures h == 12 <==>
      c.entropyOk && c.varietyOk && c.lengthOk && c.dictionaryOk && c.verdict.band == Low && c.patternFree
  {
    Credit(c.entropyOk) + Credit(c.varietyOk) + Credit(c.lengthOk) + Credit(c.dictionaryOk)
    + BandCredit(c.verdict.band) + Credit(c.patternFree)
  }

  /** The history check's credit: full for LOW, half for MEDIUM, none for HIGH. */
  function BandCredit(b: Band): nat
  {
    match b
    case Low => 2
    case Medium => 1
    case High => 0
  }

  /** The reason a failed check appends, or nothing. */
  function ReasonIf(ok: bool, r: Reason): seq<Reason> { if ok then [] else [r] }

  /** The reasons the six checks append, in check order. */
  function ReasonsOf(c: Checks, siteOf: map<string, string>): (rs: seq<Reason>)
    ensures |rs| <= 6
  {
    ReasonIf(c.entropyOk, EntropyTooLow)
    + ReasonIf(c.varietyOk, LacksVariety)
    + ReasonIf(c.lengthOk, TooLongOrTooShort)
    + ReasonIf(c.dictionaryOk, TooBasic)
    + ReasonIf(c.verdict.band == Low, TooSimilar(SiteLabel(siteOf, c.verdict.matched)))
    + ReasonIf(c.patternFree, PredictablePattern)
  }

  /** Every reason in `rs` belongs to a check that runs before check `n`. */
  predicate RanksBelow(rs: seq<Reason>, n: nat)
  {
    forall k :: 0 <= k < |rs| ==> Rank(rs[k]) < n
  }

  lemma AppendInOrder(rs: seq<Reason>, ok: bool, r: Reason)
    requires InCheckOrder(rs) && RanksBelow(rs, Rank(r))
    ensures InCheckOrder(rs + ReasonIf(ok, r)) && RanksBelow(rs + ReasonIf(ok, r), Rank(r) + 1)
  {
  }

  /** The reasons of the first four checks come out in check order. */
  lemma FrontInCheckOrder(c: Checks)
    ensures var front := ReasonIf(c.entropyOk, EntropyTooLow) + ReasonIf(c.varietyOk, LacksVariety)
                       + ReasonIf(c.lengthOk, TooLongOrTooShort) + ReasonIf(c.dictionaryOk, TooBasic);
      InCheckOrder(front) && RanksBelow(front, 4)
  {
    var r1 := ReasonIf(c.entropyOk, EntropyTooLow);
    var r2 := r1 + ReasonIf(c.varietyOk, LacksVariety);
    assert InCheckOrder(r2) && RanksBelow(r2, 2) by { AppendInOrder(r1, c.varietyOk, LacksVariety); }
    var r3 := r2 + ReasonIf(c.lengthOk, TooLongOrTooShort);
    assert InCheckOrder(r3) && RanksBelow(r3, 3) by { AppendInOrder(r2, c.lengthOk, TooLongOrTooShort); }
    AppendInOrder(r3, c.dictionaryOk, TooBasic);
  }

  /** Reasons come out in check order, each check at most once. */
  lemma ReasonsInCheckOrder(c: Checks, siteOf: map<string, string>)
    ensures InCheckOrder(ReasonsOf(c, siteOf))
  {
    var similar := TooSimilar(SiteLabel(siteOf, c.verdict.matched));
    var r4 := ReasonIf(c.entropyOk, EntropyTooLow) + ReasonIf(c.varietyOk, LacksVariety)
            + ReasonIf(c.lengthOk, TooLongOrTooShort) + ReasonIf(c.dictionaryOk, TooBasic);
    FrontInCheckOrder(c);
    var r5 := r4 + ReasonIf(c.verdict.band == Low, similar);
    assert InCheckOrder(r5) && RanksBelow(r5, 5) by { AppendInOrder(r4, c.verdict.band == Low, similar); }
    AppendInOrder(r5, c.patternFree, PredictablePattern);
  }

  /** What can appear among the reasons, and when. */
  lemma ReasonMembership(c: Checks, siteOf: map<string, string>, x: Reason)
    ensures x in ReasonsOf(c, siteOf) <==>
      || (x == EntropyTooLow && !c.entropyOk)
      || (x == LacksVariety && !c.varietyOk)
      || (x == TooLongOrTooShort && !c.lengthOk)
      || (x == TooBasic && !c.dictionaryOk)
      || (x == TooSimilar(SiteLabel(siteOf, c.verdict.matched)) && c.verdict.band != Low)
      || (x == PredictablePattern && !c.patternFree)
  {
    var similar := TooSimilar(SiteLabel(siteOf, c.verdict.matched));
    var r1, r2, r3 := ReasonIf(c.entropyOk, EntropyTooLow), ReasonIf(c.varietyOk, LacksVariety), ReasonIf(c.lengthOk, TooLongOrTooShort);
    var r4, r5, r6 := ReasonIf(c.dictionaryOk, TooBasic), ReasonIf(c.verdict.band == Low, similar), ReasonIf(c.patternFree, PredictablePattern);
    assert ReasonsOf(c, siteOf) == r1 + r2 + r3 + r4 + r5 + r6;
    assert x in r1 + r2 + r3 + r4 + r5 + r6 <==>
      x in r1 || x in r2 || x in r3 || x in r4 || x in r5 || x in r6;
  }

  /** A reason appears exactly when its check fails; a HIGH or MEDIUM match names the matched password's site. */
  lemma ReasonsMatchFailures(c: Checks, siteOf: map<string, string>)
    ensures var rs := ReasonsOf(c, siteOf);
      && (EntropyTooLow in rs <==> !c.entropyOk)
      && (LacksVariety in rs <==> !c.varietyOk)
      && (TooLongOrTooShort in rs <==> !c.lengthOk)
      && (TooBasic in rs <==> !c.dictionaryOk)
      && ((exists k :: 0 <= k < |rs| && rs[k].TooSimilar?) <==> c.verdict.band != Low)
      && (c.verdict.band != Low ==> TooSimilar(SiteLabel(siteOf, c.verdict.matched)) in rs)
      && (PredictablePattern in rs <==> !c.patternFree)
  {
    var rs := ReasonsOf(c, siteOf);
    var similar := TooSimilar(SiteLabel(siteOf, c.verdict.matched));
    ReasonMembership(c, siteOf, EntropyTooLow);
    ReasonMembership(c, siteOf, LacksVariety);
    ReasonMembership(c, siteOf, TooLongOrTooShort);
    ReasonMembership(c, siteOf, TooBasic);
    ReasonMembership(c, siteOf, similar);
    ReasonMembership(c, siteOf, PredictablePattern);
    if k :| 0 <= k < |rs| && rs[k].TooSimilar? {
      ReasonMembership(c, siteOf, rs[k]);
    }
    if c.verdict.band != Low {
      var k :| 0 <= k < |rs| && rs[k] == similar;
      assert rs[k].TooSimilar?;
    }
  }

  /**
    The score is 6 minus one point per reason, plus the half point a
    MEDIUM history match keeps; so it is 6 exactly when there are no
    reasons.
   */
  lemma ScoreAccounting(c: Checks, siteOf: map<string, string>)
    ensures HalfPointsOf(c) + 2 * |ReasonsOf(c, siteOf)| == 12 + (if c.verdict.band == Medium then 1 else 0)
    ensures HalfPointsOf(c) == 12 <==> ReasonsOf(c, siteOf) == []
  {
  }

  /**
    `evaluate_password`: six checks in a fixed order, each adding to the
    score or appending a reason; the history check gives half credit for
    MEDIUM. The score is returned in half-points.
   */
  method EvaluatePassword(pw: string, dictionary: set<string>, history: seq<string>, siteOf: map<string, string>)
    returns (halfPoints: nat, reasons: seq<Reason>, strength: Strength)
    requires ShortEntries(history)
    ensures halfPoints == HalfPointsOf(RunChecks(pw, dictionary, history))
    ensures reasons == ReasonsOf(RunChecks(pw, dictionary, history), siteOf)
    ensures strength == StrengthOf(halfPoints)
    ensures halfPoints < 12 && strength != Excellent
  {
    halfPoints, reasons := 0, [];

    var entropy := CalculateEntropy(pw);
    var entropyOk := AtLeastBits(entropy, MinEntropy);
    halfPoints, reasons := Record(entropyOk, EntropyTooLow, halfPoints, reasons);
    assert halfPoints == Credit(entropyOk) && reasons == ReasonIf(entropyOk, EntropyTooLow);

    var varietyOk := HasVariety(pw);
    halfPoints, reasons := Record(varietyOk, LacksVariety, halfPoints, reasons);

    var lengthOk := MinLength <= |pw| <= MaxLength;
    halfPoints, reasons := Record(lengthOk, TooLongOrTooShort, halfPoints, reasons);

    var dictionaryOk := IsDictionaryResistant(pw, dictionary);
    halfPoints, reasons := Record(dictionaryOk, TooBasic, halfPoints, reasons);

    var verdict := Guessability(pw, history);
    halfPoints, reasons := RecordHistory(verdict, siteOf, halfPoints, reasons);

    var predictable := HasPredictablePattern(pw);
    halfPoints, reasons := Record(!predictable, PredictablePattern, halfPoints, reasons);

    ghost var c := Checks(entropyOk, varietyOk, lengthOk, dictionaryOk, verdict, !predictable);
    assert c == RunChecks(pw, dictionary, history) by {
      assert entropyOk == MeetsMinEntropy(pw) && lengthOk == LengthInRange(pw);
    }
    Tally(c, siteOf, halfPoints, reasons);
    EntropyAndLengthExclusive(pw);
    strength := StrengthOf(halfPoints);
  }

  /** One pass/fail check: a pass adds a point, a failure appends its reason. */
  method Record(ok: bool, reason: Reason, halfPoints: nat, reasons: seq<Reason>)
    returns (halfPoints': nat, reasons': seq<Reason>)
    ensures halfPoints' == halfPoints + Credit(ok)
    ensures reasons' == reasons + ReasonIf(ok, reason)
  {
    if ok {
      halfPoints', reasons' := halfPoints + 2, reasons;
    } else {
      halfPoints', reasons' := halfPoints, reasons + [reason];
    }
  }

  /**
    The history check: a point for LOW, half a point for MEDIUM; HIGH or
    MEDIUM appends the site of the matched password.
   */
  method RecordHistory(verdict: Verdict, siteOf: map<string, string>, halfPoints: nat, reasons: seq<Reason>)
    returns (halfPoints': nat, reasons': seq<Reason>)
    ensures halfPoints' == halfPoints + BandCredit(verdict.band)
    ensures reasons' == reasons + ReasonIf(verdict.band == Low, TooSimilar(SiteLabel(siteOf, verdict.matched)))
  {
    halfPoints', reasons' := halfPoints, reasons;
    if verdict.band == Low {
      halfPoints' := halfPoints' + 2;
    } else if verdict.band == Medium {
      halfPoints' := halfPoints' + 1;
    }
    if verdict.band == High || verdict.band == Medium {
      reasons' := reasons' + [TooSimilar(SiteLabel(siteOf, verdict.matched))];
    }
  }

  /** A running tally built check by check adds up to the score and the reasons of the checks. */
  lemma Tally(c: Checks, siteOf: map<string, string>, halfPoints: nat, reasons: seq<Reason>)
    requires halfPoints == Credit(c.entropyOk) + Credit(c.varietyOk) + Credit(c.lengthOk) + Credit(c.dictionaryOk)
                         + BandCredit(c.verdict.band) + Credit(c.patternFree)
    requires reasons == ReasonIf(c.entropyOk, EntropyTooLow) + ReasonIf(c.varietyOk, LacksVariety)
                      + ReasonIf(c.lengthOk, TooLongOrTooShort) + ReasonIf(c.dictionaryOk, TooBasic)
                      + ReasonIf(c.verdict.band == Low, TooSimilar(SiteLabel(siteOf, c.verdict.matched)))
                      + ReasonIf(c.patternFree, PredictablePattern)
    ensures halfPoints == HalfPointsOf(c) && reasons == ReasonsOf(c, siteOf)
  {
  }

  /** Whatever the inputs, no password scores 6 ("Excellent"): the entropy and length checks exclude each other. */
  lemma ExcellentUnreachable(pw: string, dictionary: set<string>, history: seq<string>)
    requires ShortEntries(history)
    ensures HalfPointsOf(RunChecks(pw, dictionary, history)) < 12
    ensures StrengthOf(HalfPointsOf(RunChecks(pw, dictionary, history))) != Excellent
  {
    EntropyAndLengthExclusive(pw);
  }
}
