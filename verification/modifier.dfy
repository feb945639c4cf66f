/**
  The memorable-password mangler of `password_modifier.py`. The source's
  configuration flags (`REPLACE_LETTERS`, `INSERT_RANDOM_UPPERCASE`,
  `APPEND_SYMBOL`, `ADD_NUMBER_SUFFIX`) are all on, so every step runs.
  Its draws from `secrets` become parameters: the insert position, the
  index of the uppercase letter, the index of the symbol, and the value
  `randbelow(90)` behind the two-digit suffix.
 */
module PasswordModifier {
  import opened Chars
  import Evaluator

  /** `LETTER_SUBS`. */
  const LetterSubs: map<char, char> := map[
    'a' := '@', 'A' := '4',
    'e' := '3', 'E' := '3',
    'i' := '1', 'I' := '!',
    'o' := '0', 'O' := '0',
    's' := '$', 'S' := '5']

  /** `SYMBOLS`. */
  const Symbols: string := "!@#$%^&*()_+-=[]{}"

  /** Python's `string.ascii_uppercase`. */
  const AsciiUppercase: string := "ABCDEFGHIJKLMNOPQRSTUVWXYZ"

  /** `LETTER_SUBS.get(c, c)`; no replacement is itself a key. */
  function SubChar(c: char): (r: char)
    ensures r !in LetterSubs
    ensures c !in LetterSubs ==> r == c
  {
    if c in LetterSubs then LetterSubs[c] else c
  }

  /** `[LETTER_SUBS.get(c, c) for c in modified]`. */
  function Substitute(s: string): (r: string)
    ensures |r| == |s|
    ensures forall i :: 0 <= i < |s| && s[i] !in LetterSubs ==> r[i] == s[i]
    ensures forall i :: 0 <= i < |r| ==> r[i] !in LetterSubs
  {
    seq(|s|, i requires 0 <= i < |s| => SubChar(s[i]))
  }

  /** Substituting twice is substituting once. */
  lemma SubstituteIdempotent(s: string)
    ensures Substitute(Substitute(s)) == Substitute(s)
  {
  }

  /** Every symbol the modifier appends is in `string.punctuation`. */
  lemma SymbolsArePunctuation(k: nat)
    requires k < |Symbols|
    ensures IsPunctuation(Symbols[k])
  {
    assert Symbols[k] in {'!', '@', '#', '$', '%', '^', '&', '*', '(', ')', '_', '+', '-', '=', '[', ']', '{', '}'};
  }

  lemma UppercaseIsUpper(k: nat)
    requires k < |AsciiUppercase|
    ensures IsUpper(AsciiUppercase[k])
  {
  }

  /** Where each piece lands when `letter` is inserted at `pos` and `symbol` and `number` are appended. */
  lemma Assembled(s: string, pos: nat, letter: char, symbol: char, number: string)
    requires pos <= |s| && |number| == 2
    ensures var m := s[..pos] + [letter] + s[pos..] + [symbol] + number;
      && |m| == |s| + 4
      && m[pos] == letter
      && m[..pos] + m[pos + 1..] == s + [symbol] + number
      && (forall k :: 0 <= k < pos ==> m[k] == s[k])
      && (forall k :: pos < k <= |s| ==> m[k] == s[k - 1])
      && m[|m| - 3] == symbol && m[|m| - 2] == number[0] && m[|m| - 1] == number[1]
  {
    var m := s[..pos] + [letter] + s[pos..] + [symbol] + number;
    assert m[..pos] == s[..pos];
    assert m[pos + 1..] == s[pos..] + [symbol] + number;
    assert s[..pos] + s[pos..] == s;
  }

  function Digit(d: nat): (c: char)
    requires d < 10
    ensures IsDigit(c) && DigitValue(c) == d
  {
    ('0' as int + d) as char
  }

  function DigitValue(c: char): nat
    requires IsDigit(c)
  {
    c as int - '0' as int
  }

  /** `str(n)` for a two-digit number. */
  function NumberText(n: nat): (t: string)
    requires 10 <= n <= 99
    ensures |t| == 2 && IsDigit(t[0]) && IsDigit(t[1]) && t[0] != '0'
    ensures DigitValue(t[0]) * 10 + DigitValue(t[1]) == n
  {
    [Digit(n / 10), Digit(n % 10)]
  }

  /**
    `modify_password(base)`: substitute letters, insert an uppercase
    letter at `pos`, append a symbol, append `randbelow(90) + 10`.
   */
  method ModifyPassword(base: string, pos: nat, letterIndex: nat, symbolIndex: nat, numberDraw: nat)
    returns (modified: string)
    requires pos <= |base|
    requires letterIndex < |AsciiUppercase| && symbolIndex < |Symbols| && numberDraw < 90
    ensures |modified| == |base| + 4
    ensures modified[pos] == AsciiUppercase[letterIndex] && IsUpper(modified[pos])
    ensures modified[..pos] + modified[pos + 1..] == Substitute(base) + [Symbols[symbolIndex]] + NumberText(numberDraw + 10)
    ensures forall k :: 0 <= k <= |base| && k != pos ==> modified[k] !in LetterSubs
    ensures modified[|modified| - 3] in Symbols
    ensures IsDigit(modified[|modified| - 2]) && IsDigit(modified[|modified| - 1]) && modified[|modified| - 2] != '0'
    ensures DigitValue(modified[|modified| - 2]) * 10 + DigitValue(modified[|modified| - 1]) == numberDraw + 10
    ensures HasUpper(modified) && HasDigit(modified) && HasPunctuation(modified)
    ensures Evaluator.HasVariety(modified)
  {
    modified := base;
    modified := Substitute(modified);
    ghost var substituted := modified;
    var letter := AsciiUppercase[letterIndex];
    modified := modified[..pos] + [letter] + modified[pos..];
    var symbol := Symbols[symbolIndex];
    modified := modified + [symbol];
    var number := NumberText(numberDraw + 10);
    modified := modified + number;

    Assembled(substituted, pos, letter, symbol, number);
    UppercaseIsUpper(letterIndex);
    SymbolsArePunctuation(symbolIndex);
    ghost var n := |modified|;
    assert IsUpper(modified[pos]);
    assert IsDigit(modified[n - 1]);
    assert IsPunctuation(modified[n - 3]);
  }
}
