/**
 The slice of JavaScript string semantics the pages depend on:
 - truthiness of an optional string (`if (album._uniqueId && ...)`),
 - `String.prototype.trim` (blank search queries and blank review texts),
 - `parseInt(s, 10)` and its NaN result (the album page's numeric id test),
 - whether `Number(s)` is NaN (the album fetch route).
 Numbers are mathematical integers here; the NaN outcome is `None`.
 */
module JsText {
  import opened Options

  /** `undefined`, `null` and `""` are falsy; every other string is truthy. */
  predicate Truthy(s: Option<string>) {
    s.Some? && s.value != ""
  }

  /** The ECMAScript WhiteSpace and LineTerminator code points: what `trim` strips
      and what `Number` ignores around a literal. */
  predicate IsTrimmable(c: char) {
    || c == ' ' || c == '\t' || c == '\n' || c == '\r'
    || c == '\U{000B}' || c == '\U{000C}' || c == '\U{00A0}' || c == '\U{1680}'
    || ('\U{2000}' <= c <= '\U{200A}')
    || c == '\U{2028}' || c == '\U{2029}' || c == '\U{202F}' || c == '\U{205F}'
    || c == '\U{3000}' || c == '\U{FEFF}'
  }

  /** Every character is white space (the empty string included). */
  predicate IsBlank(s: string) {
    forall i :: 0 <= i < |s| ==> IsTrimmable(s[i])
  }

  /** Number of white-space characters at the start of `s`. */
  function LeadingBlankCount(s: string): (n: nat)
    ensures n <= |s|
    ensures forall i :: 0 <= i < n ==> IsTrimmable(s[i])
    ensures n < |s| ==> !IsTrimmable(s[n])
  {
    if s != [] && IsTrimmable(s[0]) then 1 + LeadingBlankCount(s[1..]) else 0
  }

  /** Drops the longest white-space prefix. */
  function TrimStart(s: string): (r: string)
    ensures |r| <= |s| && r == s[|s| - |r|..]
    ensures IsBlank(s[..|s| - |r|])
    ensures r != [] ==> !IsTrimmable(r[0])
  {
    var n := LeadingBlankCount(s);
    assert |s| - |s[n..]| == n;
    s[n..]
  }

  /** Number of white-space characters at the end of `s`. */
  function TrailingBlankCount(s: string): (n: nat)
    ensures n <= |s|
    ensures forall i :: |s| - n <= i < |s| ==> IsTrimmable(s[i])
    ensures n < |s| ==> !IsTrimmable(s[|s| - 1 - n])
  {
    if s != [] && IsTrimmable(s[|s| - 1]) then 1 + TrailingBlankCount(s[..|s| - 1]) else 0
  }

  /** Drops the longest white-space suffix. */
  function TrimEnd(s: string): (r: string)
    ensures |r| <= |s| && r == s[..|r|]
    ensures IsBlank(s[|r|..])
    ensures r != [] ==> !IsTrimmable(r[|r| - 1])
  {
    var n := TrailingBlankCount(s);
    s[..|s| - n]
  }

  /** `s.trim()`: empty exactly when `s` is blank, and otherwise neither
      starts nor ends with white space. */
  function Trim(s: string): (r: string)
    ensures r == [] <==> IsBlank(s)
    ensures r != [] ==> !IsTrimmable(r[0]) && !IsTrimmable(r[|r| - 1])
  {
    var t := TrimStart(s);
    var r := TrimEnd(t);
    if r == [] then
      assert s == s[..|s| - |t|] + t;
      r
    else
      assert r[0] == t[0];
      r
  }

  /** `trim` cuts a blank prefix and a blank suffix off `s` and keeps the
      text between them untouched. */
  lemma TrimCutsBlankEnds(s: string)
    ensures exists i, j :: 0 <= i <= j <= |s| && Trim(s) == s[i..j] && IsBlank(s[..i]) && IsBlank(s[j..])
  {
    var t := TrimStart(s);
    TrimIsInfix(s, t, TrimEnd(t));
  }

  lemma TrimIsInfix(s: string, t: string, r: string)
    requires |t| <= |s| && t == s[|s| - |t|..] && IsBlank(s[..|s| - |t|])
    requires |r| <= |t| && r == t[..|r|] && IsBlank(t[|r|..])
    ensures var i, j := |s| - |t|, |s| - |t| + |r|;
            0 <= i <= j <= |s| && r == s[i..j] && IsBlank(s[..i]) && IsBlank(s[j..])
  {
    var j := |s| - |t| + |r|;
    assert s[j..] == t[|r|..];
  }

  predicate IsDecimalDigit(c: char) {
    '0' <= c <= '9'
  }

  /** A non-empty run of decimal digits and nothing else. */
  predicate IsNumeral(s: string) {
    s != [] && forall i :: 0 <= i < |s| ==> IsDecimalDigit(s[i])
  }

  /** Length of the longest prefix made of decimal digits. */
  function DigitRunLength(s: string): (n: nat)
    ensures n <= |s|
    ensures forall i :: 0 <= i < n ==> IsDecimalDigit(s[i])
    ensures n < |s| ==> !IsDecimalDigit(s[n])
  {
    if s != [] && IsDecimalDigit(s[0]) then 1 + DigitRunLength(s[1..]) else 0
  }

  function DigitValue(c: char): nat
    requires IsDecimalDigit(c)
  {
    c as int - '0' as int
  }

  /** The value of a run of decimal digits, most significant first. */
  function DecimalValue(digits: string): nat
    requires forall i :: 0 <= i < |digits| ==> IsDecimalDigit(digits[i])
  {
    if digits == [] then 0
    else 10 * DecimalValue(digits[..|digits| - 1]) + DigitValue(digits[|digits| - 1])
  }

  /** Removes one leading `+` or `-`. */
  function DropSign(s: string): string {
    if s != [] && (s[0] == '+' || s[0] == '-') then s[1..] else s
  }

  /** `parseInt(s, 10)`: skip leading white space, read an optional sign, then
      the longest run of decimal digits; anything after it is ignored. No digit
      at all gives NaN (`None`). */
  function ParseInt10(s: string): (r: Option<int>)
    ensures r.None? <==> DigitRunLength(DropSign(TrimStart(s))) == 0
  {
    var t := TrimStart(s);
    var u := DropSign(t);
    var n := DigitRunLength(u);
    var magnitude: int := DecimalValue(u[..n]);
    if n == 0 then None
    else if t[0] == '-' then Some(-magnitude)
    else Some(magnitude)
  }

  /** A numeral with at most one leading `+` or `-`. */
  predicate IsSignedNumeral(s: string) {
    IsNumeral(DropSign(s))
  }

  /** `parseInt` reads an optionally signed numeral whole, sign included. */
  lemma ParseIntOfSignedNumeral(s: string)
    requires IsSignedNumeral(s)
    ensures ParseInt10(s) == Some(if s[0] == '-' then 0 - DecimalValue(DropSign(s)) else DecimalValue(DropSign(s)) as int)
  {
    var u := DropSign(s);
    assert u[0] in u;
    TrimStartKeeps(s);
    DigitRunOfNumeral(u, []);
    assert u + [] == u && u[..|u|] == u;
  }

  lemma TrimStartKeeps(s: string)
    requires s == [] || !IsTrimmable(s[0])
    ensures TrimStart(s) == s
  {
  }

  lemma TrimEndKeeps(s: string)
    requires s == [] || !IsTrimmable(s[|s| - 1])
    ensures TrimEnd(s) == s
  {
  }

  /** A numeral followed by anything that does not start with a digit parses to
      the numeral's value: `parseInt` reads a prefix. */
  lemma ParseIntReadsPrefix(digits: string, rest: string)
    requires IsNumeral(digits)
    requires rest == [] || !IsDecimalDigit(rest[0])
    ensures ParseInt10(digits + rest) == Some(DecimalValue(digits))
  {
    var s := digits + rest;
    assert IsDecimalDigit(s[0]);
    TrimStartKeeps(s);
    assert DropSign(s) == s;
    DigitRunOfNumeral(digits, rest);
    assert s[..|digits|] == digits;
  }

  lemma {:induction false} DigitRunOfNumeral(digits: string, rest: string)
    requires forall i :: 0 <= i < |digits| ==> IsDecimalDigit(digits[i])
    requires rest == [] || !IsDecimalDigit(rest[0])
    ensures DigitRunLength(digits + rest) == |digits|
  {
    if digits != [] {
      assert (digits + rest)[1..] == digits[1..] + rest;
      DigitRunOfNumeral(digits[1..], rest);
    } else {
      assert digits + rest == rest;
    }
  }

  // ---------------------------------------------------------------------------
  // Number(s): NaN unless the trimmed text is empty or a StringNumericLiteral.

  predicate AllMatch(s: string, kind: char -> bool) {
    forall i :: 0 <= i < |s| ==> kind(s[i])
  }

  predicate IsHexDigit(c: char) {
    IsDecimalDigit(c) || 'a' <= c <= 'f' || 'A' <= c <= 'F'
  }

  predicate IsOctalDigit(c: char) {
    '0' <= c <= '7'
  }

  predicate IsBinaryDigit(c: char) {
    c == '0' || c == '1'
  }

  /** `0x…`, `0o…` or `0b…` with at least one digit of that base, unsigned. */
  predicate IsNonDecimalIntegerLiteral(s: string) {
    && |s| >= 3 && s[0] == '0'
    && (|| ((s[1] == 'x' || s[1] == 'X') && AllMatch(s[2..], IsHexDigit))
        || ((s[1] == 'o' || s[1] == 'O') && AllMatch(s[2..], IsOctalDigit))
        || ((s[1] == 'b' || s[1] == 'B') && AllMatch(s[2..], IsBinaryDigit)))
  }

  /** `e` or `E`, an optional sign, then at least one digit. */
  predicate IsExponentPart(s: string) {
    && s != [] && (s[0] == 'e' || s[0] == 'E')
    && IsNumeral(DropSign(s[1..]))
  }

  /** `Infinity`, or digits with an optional fraction (at least one digit in
      all) and an optional exponent. */
  predicate IsUnsignedDecimalLiteral(s: string) {
    || s == "Infinity"
    || (var whole := DigitRunLength(s);
        var rest := s[whole..];
        if rest != [] && rest[0] == '.' then
          var fraction := DigitRunLength(rest[1..]);
          var tail := rest[1 + fraction..];
          whole + fraction > 0 && (tail == [] || IsExponentPart(tail))
        else
          whole > 0 && (rest == [] || IsExponentPart(rest)))
  }

  predicate IsDecimalLiteral(s: string) {
    IsUnsignedDecimalLiteral(DropSign(s))
  }

  /** `isNaN(Number(s))` for a string `s`: the empty or blank string is 0. */
  predicate NumberIsNaN(s: string) {
    var t := Trim(s);
    !(t == [] || IsDecimalLiteral(t) || IsNonDecimalIntegerLiteral(t))
  }

  /** Every optionally signed numeral is a number to `Number`. */
  lemma NumberAcceptsNumerals(s: string)
    requires IsSignedNumeral(s)
    ensures !NumberIsNaN(s)
  {
    var u := DropSign(s);
    assert u[0] in u && u[|u| - 1] in u;
    assert s[|s| - 1] == u[|u| - 1];
    TrimStartKeeps(s);
    TrimEndKeeps(s);
    DigitRunOfNumeral(u, []);
    assert u + [] == u && u[|u|..] == [];
  }

  /** A text that does not start with white space keeps its first character
      through `trim`. */
  lemma TrimKeepsFirst(s: string)
    requires s != [] && !IsTrimmable(s[0])
    ensures Trim(s) != [] && Trim(s)[0] == s[0]
  {
    TrimStartKeeps(s);
  }

  /** A text whose first character is a letter other than `I` (the start of
      `Infinity`) is NaN to `Number`. */
  lemma NumberRejectsLeadingLetter(s: string)
    requires s != [] && ('a' <= s[0] <= 'z' || ('A' <= s[0] <= 'Z' && s[0] != 'I'))
    ensures NumberIsNaN(s)
  {
    TrimKeepsFirst(s);
    NoLiteralStartsWithLetter(Trim(s));
  }

  /** No numeric literal starts with a letter other than the `I` of `Infinity`. */
  lemma NoLiteralStartsWithLetter(t: string)
    requires t != [] && ('a' <= t[0] <= 'z' || ('A' <= t[0] <= 'Z' && t[0] != 'I'))
    ensures !IsDecimalLiteral(t) && !IsNonDecimalIntegerLiteral(t)
  {
    assert DropSign(t) == t && t != "Infinity";
    assert DigitRunLength(t) == 0 && t[0..] == t;
  }

  /** A numeral followed by letters (`"12abc"`) is NaN to `Number`. */
  lemma NumberRejectsTrailingLetters(digits: string, letters: string)
    requires IsNumeral(digits) && digits[0] != '0'
    requires letters != [] && 'a' <= letters[0] <= 'z' && letters[0] != 'e'
    requires !IsTrimmable(letters[|letters| - 1])
    ensures NumberIsNaN(digits + letters)
  {
    var s := digits + letters;
    assert IsDecimalDigit(s[0]) && s[|s| - 1] == letters[|letters| - 1];
    TrimStartKeeps(s);
    TrimEndKeeps(s);
    assert Trim(s) == s;
    assert DropSign(s) == s;
    DigitRunOfNumeral(digits, letters);
    assert s[|digits|..] == letters;
    NoLiteralBeforeLetter(s, |digits|);
    assert !IsNonDecimalIntegerLiteral(s);
  }

  /** A run of digits not starting with `I` and followed by a letter that
      cannot start an exponent is no decimal literal. */
  lemma NoLiteralBeforeLetter(s: string, n: nat)
    requires n < |s| && DigitRunLength(s) == n && s[0] != 'I'
    requires 'a' <= s[n] <= 'z' && s[n] != 'e'
    ensures !IsUnsignedDecimalLiteral(s)
  {
    assert s != "Infinity";
    assert !IsExponentPart(s[n..]);
  }

  /** The two numeric tests disagree: a numeral followed by letters (`"12abc"`)
      is a number to `parseInt` and NaN to `Number`. */
  lemma ParseIntAndNumberDisagree(digits: string, letters: string)
    requires IsNumeral(digits) && digits[0] != '0'
    requires letters != [] && 'a' <= letters[0] <= 'z' && letters[0] != 'e'
    requires !IsTrimmable(letters[|letters| - 1])
    ensures ParseInt10(digits + letters) == Some(DecimalValue(digits))
    ensures NumberIsNaN(digits + letters)
  {
    ParseIntReadsPrefix(digits, letters);
    NumberRejectsTrailingLetters(digits, letters);
  }
}
