# Password strength checker — a Dafny model

This project models the core of a small password-strength tool. It has three parts:

- **The strength evaluator** (`password_evaluater_score5.py`). It runs six checks in a fixed order: entropy, character variety, length, dictionary resistance, similarity to the user's earlier passwords, and predictable patterns. Each check that passes adds one point, and each that fails appends a suggestion. A MEDIUM similarity match gets half a point and still adds a suggestion. The score out of 6 then maps to Excellent, Good, Moderate or Weak.
- **The personal-history matcher** (`guess_factor.py`). It compares a candidate, lower-cased, with each earlier password in order. An entry gives HIGH when difflib's `SequenceMatcher` ratio reaches 0.75. Otherwise it gives MEDIUM when the Jaccard similarity of the two 3-gram sets exceeds 0.5. The first entry that gives HIGH or MEDIUM wins; if none does, the result is LOW.
- **The memorable-password mangler** (`password_modifier.py`). It rewrites common letters through a fixed table, inserts an uppercase letter, and appends a symbol and a two-digit number.

Modules, one file each:

- `chars.dfy`: `Chars` holds ASCII character classes, lower-casing, substring search and distinct characters.
- `sequence_matcher.dfy`: `Fractions` holds exact rationals. `SequenceMatcher` is difflib's `ratio()` written as a recursive specification.
- `guess_factor.dfy`: `GuessFactor` holds n-grams, Jaccard similarity and the history scan.
- `evaluator.dfy`: `Evaluator` holds entropy, the three heuristic checks and the scorer.
- `modifier.dfy`: `PasswordModifier` holds the substitution table and `ModifyPassword`.

How the source's values appear in the model:

- Scores are kept in half-points, a natural number from 0 to 12.
- Floating-point values are replaced by exact integer comparisons. The entropy `n * log2(u)` is kept as the pair `(n, u)`, and "entropy >= 60" becomes `2^60 <= u^n`. The ratio and the Jaccard similarity are fractions, so "ratio >= 0.75" becomes `8M >= 3(|a| + |b|)` and "Jaccard > 0.5" becomes `2|n1 ∩ n2| > |n1 ∪ n2|`.
- The dictionary, the history list and the password-to-site map are parameters.
- The mangler's random draws are parameters too: the insert position, the letter index, the symbol index and the value behind the number suffix.

Two consequences of the code that are easy to miss:

- **`ratio()` is not symmetric.** difflib's tie-breaking makes the ratio depend on argument order. `SequenceMatcher.RatioNotSymmetric` proves that ratio("ab", "bacb") = 4/6 while ratio("bacb", "ab") = 2/6. The matcher calls it as (candidate, history entry), and so does the model.
- **No password can score 6.** The entropy check needs `n * log2(u) >= 60`. The length check needs at most 15 characters. At most 15 characters also means at most 15 distinct characters, and 15 * log2(15) < 60, so the two checks never both pass. `Evaluator.EntropyAndLengthExclusive` and `Evaluator.ExcellentUnreachable` prove it.

## Model

| member | source | states |
|---|---|---|
| Chars.DistinctAtMostLength | password_evaluater_score5.py:32 | A password has no more distinct characters than characters. |
| Chars.LowerAppend | guess_factor.py:26 | Lower-casing distributes over concatenation. |
| Chars.ContainsInExtension | password_evaluater_score5.py:48 | A substring of `s` stays a substring of `x + s + y`. |
| SequenceMatcher.RunLength | guess_factor.py:29 | The run of equal characters from (i, j) stays inside the window, and a positive run is a real match. |
| SequenceMatcher.RunLengthMaximal | guess_factor.py:29 | No match starting at (i, j) is longer than the run found there. |
| SequenceMatcher.LongestMatch | guess_factor.py:29 | `find_longest_match`: the block lies in the window and matches. No block in the window is longer. Among blocks of equal length it starts earliest in `a`, then earliest in `b`. It is (alo, blo, 0) when nothing matches. |
| SequenceMatcher.MatchedLength | guess_factor.py:29 | The total M of the matching blocks in a window is at most the length of either side of the window. |
| SequenceMatcher.Matched | guess_factor.py:29 | M <= min(\|a\|, \|b\|). |
| SequenceMatcher.Ratio | guess_factor.py:29 | `ratio()` is 2M / (\|a\| + \|b\|), or 1 for two empty strings, and lies in [0, 1]. |
| SequenceMatcher.IdenticalRatioIsOne | guess_factor.py:29 | A string matches itself entirely, so its ratio with itself is 1. |
| SequenceMatcher.FirstBlockOfAbInBacb | guess_factor.py:29 | The longest block of "ab" in "bacb" is the "a" at (0, 1). |
| SequenceMatcher.SecondBlockOfAbInBacb | guess_factor.py:29 | To its right, the "b" at (1, 3) matches too. |
| SequenceMatcher.FirstBlockOfBacbInAb | guess_factor.py:29 | The longest block of "bacb" in "ab" is the "b" at (0, 1); nothing then lies to the left of it in both strings or to the right of it in both. |
| SequenceMatcher.MatchedAbBacb | guess_factor.py:29 | M("ab", "bacb") = 2. |
| SequenceMatcher.MatchedBacbAb | guess_factor.py:29 | M("bacb", "ab") = 1. |
| SequenceMatcher.RatioNotSymmetric | guess_factor.py:29 | ratio("ab", "bacb") = 4/6 but ratio("bacb", "ab") = 2/6. |
| GuessFactor.IsLevenshteinSimilar | guess_factor.py:11-12 | The ratio reaches the threshold exactly when 2M·den >= num·(\|a\| + \|b\|), or, for two empty strings, when the threshold is at most 1. |
| GuessFactor.Gram | guess_factor.py:15 | Each slice `s[i:i+n]` has length n. |
| GuessFactor.Ngrams | guess_factor.py:14-15 | The n-gram set is empty exactly when \|s\| < n, and every element has length n. |
| GuessFactor.NgramsCount | guess_factor.py:14-15 | There are at most \|s\| − n + 1 distinct n-grams. |
| GuessFactor.Jaccard | guess_factor.py:17-22 | The similarity lies in [0, 1], and it is 0 when either string is shorter than 3. |
| GuessFactor.JaccardSymmetric | guess_factor.py:22 | The similarity does not depend on argument order. |
| GuessFactor.JaccardOfItself | guess_factor.py:22 | A string of length at least 3 has similarity 1 with itself. |
| GuessFactor.Classify | guess_factor.py:36-39 | An entry is HIGH exactly when the ratio is at least 0.75, that is 8M >= 3(\|a\| + \|b\|). It is MEDIUM exactly when it is not HIGH, both strings have 3-grams, and 2\|∩\| > \|∪\|. HIGH takes precedence over MEDIUM. |
| GuessFactor.Scan | guess_factor.py:27-41 | The verdict is LOW exactly when it names no match, and any match it names is a history entry. |
| GuessFactor.Guessability | guess_factor.py:25-41 | Same as `Scan`, on the lower-cased candidate. An empty history gives LOW with no match. |
| GuessFactor.ScanLow | guess_factor.py:27-41 | The scan is LOW exactly when every entry classifies LOW. |
| GuessFactor.ScanMatch | guess_factor.py:36-39 | A non-LOW scan stops at some entry k that is its first HIGH or MEDIUM entry. |
| GuessFactor.FirstMatchWins | guess_factor.py:27-41 | The result is LOW exactly when no entry classifies HIGH or MEDIUM. Otherwise it names the earliest entry that does, un-lowered, with that entry's own band, and every earlier entry is LOW. |
| GuessFactor.CandidateCaseInsensitive | guess_factor.py:26 | Candidates equal up to case get the same verdict. |
| GuessFactor.HistoryCaseInsensitive | guess_factor.py:28 | Histories equal entry by entry up to case give the same band, and both name a match or neither does. |
| Evaluator.CalculateEntropy | password_evaluater_score5.py:31-33 | The entropy is 0 exactly when there is at most one distinct character. Otherwise it is n·log2(u) with u = \|set(pw)\|, n = \|pw\| and 2 <= u <= n. |
| Evaluator.MeetsMinEntropy | password_evaluater_score5.py:79 | `entropy >= MIN_ENTROPY` holds exactly when \|set(pw)\| > 1 and 2^60 <= \|set(pw)\|^\|pw\|. |
| Evaluator.EntropyNonDecreasingInLength | password_evaluater_score5.py:33 | With the same number (> 1) of distinct characters, a longer password has at least as much entropy. |
| Evaluator.FifteenCharactersFallShort | password_evaluater_score5.py:6-8 | 15^15 < 2^60, that is 15·log2(15) < MIN_ENTROPY. |
| Evaluator.EntropyNeedsMoreThanMaxLength | password_evaluater_score5.py:79 | Passing the entropy check takes more than MAX_LENGTH characters. |
| Evaluator.EntropyAndLengthExclusive | password_evaluater_score5.py:79-94 | The entropy and length checks never both pass. |
| Evaluator.HasVariety | password_evaluater_score5.py:36-43 | True exactly when at least 3 of {lowercase, uppercase, digit, punctuation} occur, so an all-lowercase password fails. |
| Evaluator.HasTripleRun | password_evaluater_score5.py:50 | `re.search(r'(.)\1{2,}')` matches exactly when some character c other than a newline has the text ccc occurring in the password; such a password has at least 3 characters. |
| Evaluator.TripleRunIsRepeatedChar | password_evaluater_score5.py:50 | Three equal characters at consecutive indices are the same thing as the substring ccc, in both directions. |
| Evaluator.HasPredictablePattern | password_evaluater_score5.py:45-52 | True exactly when the lower-cased password contains one of the six literal patterns, or the password has a non-newline character three times in a row. |
| Evaluator.PredictableInExtension | password_evaluater_score5.py:45-52 | A predictable password stays predictable with anything added before or after it. |
| Evaluator.IsDictionaryResistant | password_evaluater_score5.py:54-66 | A lower-cased dictionary hit always fails. Otherwise the password passes exactly when two of {punctuation, digit, more than 8 distinct characters} hold. So it always passes with a digit and punctuation, and always fails with neither. |
| Evaluator.LengthInRange | password_evaluater_score5.py:91 | `MIN_LENGTH <= len(password) <= MAX_LENGTH`; a password that passes it cannot also pass the entropy check. |
| Evaluator.StrengthOf | password_evaluater_score5.py:127-134 | Excellent exactly at score 6, Good for 5 <= score < 6, Moderate for 3 <= score < 5, and Weak below 3. |
| Evaluator.SiteLabel | password_evaluater_score5.py:112 | `pw_to_site.get(matched_pw, "unknown site")`: the matched password's site when the map has it, and "unknown site" when there is no match or the map lacks the matched password. |
| Evaluator.HalfPointsOf | password_evaluater_score5.py:78-119 | The score is a multiple of 0.5 in [0, 6]. It has a half point exactly when the history band is MEDIUM. It is 6 exactly when every check passes and the history is LOW. |
| Evaluator.ReasonsOf | password_evaluater_score5.py:78-119 | At most six suggestions are appended. |
| Evaluator.ReasonMembership | password_evaluater_score5.py:78-119 | A reason is among the suggestions exactly when it is the reason of a failed check. For the history check, it is the "too similar" reason with the matched site, and the band is HIGH or MEDIUM. |
| Evaluator.AppendInOrder | password_evaluater_score5.py:78-119 | Appending a later check's reason keeps the suggestions in check order. |
| Evaluator.ReasonsInCheckOrder | password_evaluater_score5.py:78-119 | Suggestions appear in the order entropy, variety, length, dictionary, history, pattern, each at most once. |
| Evaluator.ReasonsMatchFailures | password_evaluater_score5.py:78-119 | Each suggestion appears exactly when its check fails. A HIGH or MEDIUM match adds the "too similar" suggestion naming the matched password's site, or "unknown site". |
| Evaluator.ScoreAccounting | password_evaluater_score5.py:71-119 | score = 6 − \|reasons\| + 0.5 when the history band is MEDIUM, so the score is 6 exactly when there are no reasons. |
| Evaluator.Record | password_evaluater_score5.py:79-100 | One pass/fail check adds a point on a pass, and appends its reason, and nothing else, on a failure. |
| Evaluator.RecordHistory | password_evaluater_score5.py:105-113 | The history check adds a point for LOW and half a point for MEDIUM. On HIGH or MEDIUM it appends the "too similar" reason with the matched site. |
| Evaluator.EvaluatePassword | password_evaluater_score5.py:70-134 | Running the six checks step by step gives the score, suggestions and label of the specification functions. The score is always below 6, so the label is never Excellent. |
| Evaluator.ExcellentUnreachable | password_evaluater_score5.py:127-128 | For every password, dictionary and history, the score is below 6 and the label is not Excellent. |
| PasswordModifier.SubChar | password_modifier.py:13-19 | A table replacement is never itself a table key, and a character that is not a key is kept. |
| PasswordModifier.Substitute | password_modifier.py:31 | Substitution keeps the length, keeps every non-key character, and leaves none of a, A, e, E, i, I, o, O, s, S. |
| PasswordModifier.SubstituteIdempotent | password_modifier.py:13-19 | Substituting twice is the same as substituting once. |
| PasswordModifier.SymbolsArePunctuation | password_modifier.py:20 | Every character of `SYMBOLS` is ASCII punctuation. |
| PasswordModifier.UppercaseIsUpper | password_modifier.py:37 | Every letter of `ascii_uppercase` is uppercase. |
| PasswordModifier.Assembled | password_modifier.py:37-47 | After inserting a letter at `pos` and appending a symbol and two digits, deleting position `pos` gives back the base followed by the symbol and digits. |
| PasswordModifier.NumberText | password_modifier.py:45 | `str(n)` for 10..99 is two digits whose value is n, and the first is not '0'. |
| PasswordModifier.ModifyPassword | password_modifier.py:26-53 | The output is 4 longer than the base. The drawn uppercase letter sits at `pos`. Deleting it leaves the substituted base, the drawn symbol and the number. No other base position holds a table key. The last two characters are the digits of draw + 10, the first not '0', with a `SYMBOLS` character before them. The output has an uppercase letter, a digit and punctuation, so it always passes `has_variety`. |

## Left out

- File loading is not part of this model: `load_dictionary` and the dictionary loaded at import (password_evaluater_score5.py:16-25), and `load_personal_passwords` with pandas (guess_factor.py:46-57). The dictionary (already lower-cased), the history list and the password-to-site map are parameters.
- Console I/O is left out: every `print` and `input`, and the `__main__` blocks. The source's `evaluate_password` only prints; the model returns the score, the suggestions and the label instead.
- The entropy `print` in the mangler (password_modifier.py:48-51) is output only. Its `calculate_entropy` (password_modifier.py:22-24) is the same definition as the evaluator's and is modelled once, by `Evaluator.CalculateEntropy`.
- The mangler's configuration flags (password_modifier.py:6-10) are all `True`, so every step always runs; the model does not cover other flag settings.
- `password_batch.py`, `passkey.py` and `password_generator.py` are not part of this model. They are subprocess plumbing, an interactive menu and random sampling.
- Randomness: `secrets.randbelow` and `secrets.choice` become parameters of `ModifyPassword`. Their distribution is not modelled.
- Python's `islower`, `isupper`, `isdigit` and `lower()` are Unicode-aware; the model uses their ASCII restrictions. Characters outside ASCII, such as accented letters, fall into none of the four variety classes here.
- SequenceMatcher.Ratio: requires the second string to be shorter than 200 characters. difflib's autojunk heuristic, which applies to longer strings, is not modelled.
- GuessFactor.Guessability: requires every history entry to be shorter than 200 characters, for the same reason. `EvaluatePassword` inherits that requirement.
- Floating point: entropy, ratio and Jaccard values are compared exactly. Where a float rounding error would flip a comparison right at a threshold, the model gives the exact answer.
- Evaluator.CalculateEntropy: returns the pair (length, alphabet size) rather than the number n·log2(u). Only comparisons against a bit count are modelled.
