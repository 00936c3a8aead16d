/**
 * The JavaScript string built-ins the script tools rely on, given concrete definitions:
 * `String.prototype.trim`, `toUpperCase`, `includes`, case-insensitive word-boundary
 * regular expressions, `parseInt`, the sign of `ToNumber` (used by `s > 0` and `s == 0`),
 * `String(n)` for integers and `padStart`.
 */
module JsText {
  import opened Common

  // ---------------------------------------------------------------- whitespace and trim

  /** WhiteSpace and LineTerminator code points (ECMAScript, sections 12.2 and 12.3), which `trim` removes. */
  predicate IsJsSpace(c: char) {
    c == '\t' || c == '\n' || c == '\U{000B}' || c == '\U{000C}' || c == '\r' || c == ' '
    || c == '\U{00A0}' || c == '\U{1680}' || ('\U{2000}' <= c <= '\U{200A}')
    || c == '\U{2028}' || c == '\U{2029}' || c == '\U{202F}' || c == '\U{205F}'
    || c == '\U{3000}' || c == '\U{FEFF}'
  }

  /** No whitespace at either end. */
  predicate Trimmed(s: string) {
    s == [] || (!IsJsSpace(s[0]) && !IsJsSpace(s[|s| - 1]))
  }

  /** `trimStart`: drops the leading whitespace, nothing else. */
  function TrimStart(s: string): string {
    if |s| > 0 && IsJsSpace(s[0]) then TrimStart(s[1..]) else s
  }

  /** `trimStart` keeps a suffix that does not start with whitespace and drops only whitespace. */
  lemma {:induction false} TrimStartShape(s: string)
    ensures var r := TrimStart(s);
      |r| <= |s| && r == s[|s| - |r|..]
      && (r == [] || !IsJsSpace(r[0]))
      && forall i | 0 <= i < |s| - |r| :: IsJsSpace(s[i])
  {
    if |s| > 0 && IsJsSpace(s[0]) {
      TrimStartShape(s[1..]);
    }
  }

  /** `trimEnd`: drops the trailing whitespace, nothing else. */
  function TrimEnd(s: string): string {
    if |s| > 0 && IsJsSpace(s[|s| - 1]) then TrimEnd(s[..|s| - 1]) else s
  }

  /** `trimEnd` keeps a prefix that does not end with whitespace and drops only whitespace. */
  lemma {:induction false} TrimEndShape(s: string)
    ensures var r := TrimEnd(s);
      |r| <= |s| && r == s[..|r|]
      && (r == [] || !IsJsSpace(r[|r| - 1]))
      && forall i | |r| <= i < |s| :: IsJsSpace(s[i])
  {
    if |s| > 0 && IsJsSpace(s[|s| - 1]) {
      TrimEndShape(s[..|s| - 1]);
    }
  }

  /** `trim`: the longest middle part of `s` with whitespace on neither end. */
  function Trim(s: string): (r: string)
  {
    TrimEnd(TrimStart(s))
  }

  /** `r` is `s[a..a + |r|]` and everything of `s` outside that slice is whitespace. */
  ghost predicate SliceBetweenSpaces(s: string, r: string, a: int) {
    0 <= a <= |s| - |r| && s[a..a + |r|] == r
    && (forall i | 0 <= i < a :: IsJsSpace(s[i]))
    && (forall i | a + |r| <= i < |s| :: IsJsSpace(s[i]))
  }

  /** `trim` removes exactly a run of whitespace at each end. */
  lemma {:induction false} TrimShape(s: string)
    ensures Trimmed(Trim(s))
    ensures exists a :: SliceBetweenSpaces(s, Trim(s), a)
  {
    var t := TrimStart(s);
    var r := TrimEnd(t);
    TrimStartShape(s);
    TrimEndShape(t);
    TrimmedEnds(t, r);
    SliceOfSuffix(s, t, r);
  }

  lemma {:induction false} TrimmedEnds(t: string, r: string)
    requires t == [] || !IsJsSpace(t[0])
    requires r == TrimEnd(t)
    ensures Trimmed(r)
  {
    TrimEndShape(t);
    if r != [] {
      assert r[0] == t[0];
    }
  }

  /** A whitespace-free head trimmed from the end keeps both whitespace runs outside it. */
  lemma {:induction false} SliceOfSuffix(s: string, t: string, r: string)
    requires |t| <= |s| && t == s[|s| - |t|..]
    requires forall i | 0 <= i < |s| - |t| :: IsJsSpace(s[i])
    requires |r| <= |t| && r == t[..|r|]
    requires forall i | |r| <= i < |t| :: IsJsSpace(t[i])
    ensures SliceBetweenSpaces(s, r, |s| - |t|)
  {
    var a := |s| - |t|;
    assert s[a..a + |r|] == t[..|r|];
    forall i | a + |r| <= i < |s| ensures IsJsSpace(s[i]) {
      assert s[i] == t[i - a];
    }
  }

  lemma {:induction false} TrimOfTrimmed(s: string)
    requires Trimmed(s)
    ensures Trim(s) == s
  {
  }

  lemma {:induction false} TrimIdempotent(s: string)
    ensures Trim(Trim(s)) == Trim(s)
  {
    TrimShape(s);
    TrimOfTrimmed(Trim(s));
  }

  // ---------------------------------------------------------------- upper case

  /**
   * `toUpperCase` of one character, for Basic Latin and Latin-1 (which covers German text):
   * a-z, à-þ (except ÷), ÿ, µ and ß (which becomes "SS"); other characters map to themselves.
   */
  function UpperChar(c: char): (r: string)
    ensures 1 <= |r| <= 2
  {
    if 'a' <= c <= 'z' || ('\U{00E0}' <= c <= '\U{00FE}' && c != '\U{00F7}') then [(c as int - 32) as char]
    else if c == '\U{00FF}' then ['\U{0178}']
    else if c == '\U{00B5}' then ['\U{039C}']
    else if c == '\U{00DF}' then "SS"
    else [c]
  }

  /** The concatenation of `f` applied to each character of `s`, in order. */
  function ConcatMap(s: string, f: char -> string): string {
    if s == [] then [] else ConcatMap(s[..|s| - 1], f) + f(s[|s| - 1])
  }

  lemma {:induction false} ConcatMapAppend(a: string, b: string, f: char -> string)
    ensures ConcatMap(a + b, f) == ConcatMap(a, f) + ConcatMap(b, f)
  {
    if b == [] {
      assert a + b == a;
    } else {
      var ab, b', c := a + b, b[..|b| - 1], b[|b| - 1];
      assert ab[..|ab| - 1] == a + b' && ab[|ab| - 1] == c;
      ConcatMapAppend(a, b', f);
      assert ConcatMap(ab, f) == (ConcatMap(a, f) + ConcatMap(b', f)) + f(c);
    }
  }

  /** `toUpperCase` of a string, character by character. */
  function ToUpper(s: string): string {
    ConcatMap(s, UpperChar)
  }

  lemma {:induction false} ToUpperAppend(a: string, b: string)
    ensures ToUpper(a + b) == ToUpper(a) + ToUpper(b)
  {
    ConcatMapAppend(a, b, UpperChar);
  }

  lemma {:induction false} ToUpperSingle(c: char)
    ensures ToUpper([c]) == UpperChar(c)
  {
    assert [c][..0] == [];
    assert ConcatMap([c], UpperChar) == ConcatMap([], UpperChar) + UpperChar(c);
  }

  /** An upper-cased character is its own upper case. */
  lemma {:induction false} UpperCharIdempotent(c: char)
    ensures ToUpper(UpperChar(c)) == UpperChar(c)
  {
    var u := UpperChar(c);
    if |u| == 2 {
      assert u == ['S'] + ['S'];
      ToUpperAppend(['S'], ['S']);
      ToUpperSingle('S');
    } else {
      ToUpperSingle(u[0]);
      assert [u[0]] == u;
      if 'a' <= c <= 'z' {
        assert 'A' <= u[0] <= 'Z';
      } else if '\U{00E0}' <= c <= '\U{00FE}' && c != '\U{00F7}' {
        assert '\U{00C0}' <= u[0] <= '\U{00DE}' && u[0] != '\U{00D7}';
      }
    }
  }

  /** Upper-casing an upper-cased string changes nothing. */
  lemma {:induction false} ToUpperIdempotent(s: string)
    ensures ToUpper(ToUpper(s)) == ToUpper(s)
  {
    if s != [] {
      var init, c := s[..|s| - 1], s[|s| - 1];
      assert ToUpper(s) == ToUpper(init) + UpperChar(c);
      ToUpperIdempotent(init);
      ToUpperAppend(ToUpper(init), UpperChar(c));
      UpperCharIdempotent(c);
    }
  }

  /** Upper case of a character is whitespace exactly when the character is. */
  lemma {:induction false} UpperCharSpace(c: char)
    ensures IsJsSpace(UpperChar(c)[0]) == IsJsSpace(c)
    ensures IsJsSpace(UpperChar(c)[|UpperChar(c)| - 1]) == IsJsSpace(c)
  {
    if 'a' <= c <= 'z' {
      assert 'A' <= UpperChar(c)[0] <= 'Z';
    } else if '\U{00E0}' <= c <= '\U{00FE}' && c != '\U{00F7}' {
      assert '\U{00C0}' <= UpperChar(c)[0] <= '\U{00DE}';
    }
  }

  lemma {:induction false} ToUpperEnds(s: string)
    requires s != []
    ensures ToUpper(s) != []
    ensures ToUpper(s)[0] == UpperChar(s[0])[0]
    ensures ToUpper(s)[|ToUpper(s)| - 1] == UpperChar(s[|s| - 1])[|UpperChar(s[|s| - 1])| - 1]
  {
    var u, uc := ToUpper(s), UpperChar(s[|s| - 1]);
    assert u == ToUpper(s[..|s| - 1]) + uc;
    assert u[|u| - 1] == uc[|uc| - 1];
    var h, t := [s[0]], s[1..];
    assert s == h + t;
    ToUpperAppend(h, t);
    ToUpperSingle(s[0]);
    assert u == UpperChar(s[0]) + ToUpper(t);
  }

  /** Upper-casing neither adds nor removes whitespace at the ends. */
  lemma {:induction false} ToUpperKeepsTrimmed(s: string)
    requires Trimmed(s)
    ensures Trimmed(ToUpper(s))
  {
    if s != [] {
      ToUpperEnds(s);
      UpperCharSpace(s[0]);
      UpperCharSpace(s[|s| - 1]);
    }
  }

  // ---------------------------------------------------------------- substring search

  /** `sub` occurs in `text` starting at position `i`. */
  predicate OccursAt(text: string, sub: string, i: int) {
    0 <= i && i + |sub| <= |text| && text[i..i + |sub|] == sub
  }

  /** `String.prototype.includes`. */
  predicate Includes(text: string, sub: string) {
    exists i | 0 <= i <= |text| - |sub| :: OccursAt(text, sub, i)
  }

  /** Every string includes the empty string. */
  lemma {:induction false} IncludesEmpty(text: string)
    ensures Includes(text, "")
  {
    assert OccursAt(text, "", 0);
  }

  // ---------------------------------------------------------------- case-insensitive word match

  /** Characters that `\w` and `\b` treat as word characters (without the `u` flag). */
  predicate IsWordChar(c: char) {
    'a' <= c <= 'z' || 'A' <= c <= 'Z' || '0' <= c <= '9' || c == '_'
  }

  /** Canonicalize for an `i` regular expression without `u` (ECMAScript, section 22.2.2.7.3). */
  function Canonical(c: char): char {
    var u := UpperChar(c);
    if |u| == 1 && !(c as int >= 128 && u[0] as int < 128) then u[0] else c
  }

  /** Position `p` is a word boundary `\b` of `text`. */
  predicate IsBoundary(text: string, p: int)
    requires 0 <= p <= |text|
  {
    (p > 0 && IsWordChar(text[p - 1])) != (p < |text| && IsWordChar(text[p]))
  }

  /** The regular expression `\b<name>\b` with flag `i` matches `text` at position `i`. */
  predicate WordMatchAt(text: string, name: string, i: int) {
    0 <= i && i + |name| <= |text|
    && (forall k | 0 <= k < |name| :: Canonical(text[i + k]) == Canonical(name[k]))
    && IsBoundary(text, i) && IsBoundary(text, i + |name|)
  }

  /** `new RegExp('\\b' + escapeRegExp(name) + '\\b', 'i').test(text)`. */
  predicate WordMatch(text: string, name: string) {
    exists i | 0 <= i <= |text| - |name| :: WordMatchAt(text, name, i)
  }

  // ---------------------------------------------------------------- digits and parseInt

  /** Value of a digit character in the given radix (10 or 16), if it is one. */
  function DigitValue(c: char, radix: nat): Option<nat> {
    if '0' <= c <= '9' && (c as int - '0' as int) < radix then Some(c as int - '0' as int)
    else if radix == 16 && 'a' <= c <= 'f' then Some(c as int - 'a' as int + 10)
    else if radix == 16 && 'A' <= c <= 'F' then Some(c as int - 'A' as int + 10)
    else None
  }

  predicate AllDigits(s: string, radix: nat) {
    forall i | 0 <= i < |s| :: DigitValue(s[i], radix).Some?
  }

  /** The longest prefix of `s` made of digits of the radix. */
  function DigitPrefix(s: string, radix: nat): (r: string)
    ensures |r| <= |s| && r == s[..|r|] && AllDigits(r, radix)
    ensures |r| < |s| ==> DigitValue(s[|r|], radix).None?
  {
    if s != [] && DigitValue(s[0], radix).Some? then [s[0]] + DigitPrefix(s[1..], radix) else []
  }

  /** Mathematical value of a digit string, most significant digit first. */
  function DigitsValue(s: string, radix: nat): nat
    requires AllDigits(s, radix)
  {
    if s == [] then 0 else DigitsValue(s[..|s| - 1], radix) * radix + DigitValue(s[|s| - 1], radix).value
  }

  /**
   * `parseInt(s)` with no radix: leading whitespace and one sign are skipped, a `0x`/`0X`
   * prefix selects radix 16, and the longest run of digits is read; `None` is NaN.
   */
  function ParseInt(s: string): (r: Option<int>)
  {
    var t := TrimStart(s);
    var negative := |t| > 0 && t[0] == '-';
    var body := if |t| > 0 && (t[0] == '-' || t[0] == '+') then t[1..] else t;
    var hex := |body| >= 2 && body[0] == '0' && (body[1] == 'x' || body[1] == 'X');
    var radix := if hex then 16 else 10;
    var digits := DigitPrefix(if hex then body[2..] else body, radix);
    if digits == [] then None
    else
      var v: int := DigitsValue(digits, radix);
      Some(if negative then -v else v)
  }

  /** `parseInt(s) || 0`: NaN (and zero) become 0. */
  function ParseIntOrZero(s: string): int {
    ParseInt(s).GetOr(0)
  }

  // ---------------------------------------------------------------- String(n) and padStart

  function DigitChar(d: nat): (c: char)
    requires d < 10
    ensures DigitValue(c, 10) == Some(d)
  {
    ('0' as int + d) as char
  }

  /** Decimal digits of a natural number, without leading zeros (`String(n)` for n >= 0). */
  function Decimal(n: nat): (r: string)
    ensures |r| >= 1 && AllDigits(r, 10)
    ensures |r| > 1 ==> r[0] != '0'
  {
    if n < 10 then [DigitChar(n)] else Decimal(n / 10) + [DigitChar(n % 10)]
  }

  /** `String(i)` for an integer `i`. */
  function IntToString(i: int): (r: string) {
    if i < 0 then "-" + Decimal(-i) else Decimal(i)
  }

  /** `s.padStart(width, c)`: `s` preceded by as many `c` as it takes to reach `width`; never truncates. */
  function PadStart(s: string, width: nat, c: char): (r: string)
    ensures |r| == if |s| < width then width else |s|
    ensures r[|r| - |s|..] == s
    ensures forall i | 0 <= i < |r| - |s| :: r[i] == c
  {
    if |s| >= width then s else seq(width - |s|, _ => c) + s
  }

  lemma {:induction false} AllDigitsAppend(a: string, b: string, radix: nat)
    requires AllDigits(a, radix) && AllDigits(b, radix)
    ensures AllDigits(a + b, radix)
  {
    forall i | 0 <= i < |a + b| ensures DigitValue((a + b)[i], radix).Some? {
      if i < |a| { assert (a + b)[i] == a[i]; } else { assert (a + b)[i] == b[i - |a|]; }
    }
  }

  lemma {:induction false} DigitsValueAppend(a: string, b: string, radix: nat)
    requires AllDigits(a, radix) && AllDigits(b, radix)
    ensures AllDigits(a + b, radix)
    ensures DigitsValue(a + b, radix) == DigitsValue(a, radix) * Power(radix, |b|) + DigitsValue(b, radix)
  {
    AllDigitsAppend(a, b, radix);
    if b == [] {
      assert a + b == a;
    } else {
      var b' := b[..|b| - 1];
      var d := DigitValue(b[|b| - 1], radix).value;
      assert (a + b)[..|a + b| - 1] == a + b';
      assert AllDigits(b', radix);
      DigitsValueAppend(a, b', radix);
      assert DigitsValue(a + b, radix) == DigitsValue(a + b', radix) * radix + d;
      assert DigitsValue(b, radix) == DigitsValue(b', radix) * radix + d;
      ShiftDigit(DigitsValue(a, radix), Power(radix, |b'|), DigitsValue(b', radix), radix, d);
    }
  }

  lemma {:induction false} ShiftDigit(x: nat, p: nat, y: nat, r: nat, d: nat)
    ensures (x * p + y) * r + d == x * (p * r) + (y * r + d)
  {
  }

  function Power(b: nat, e: nat): nat {
    if e == 0 then 1 else Power(b, e - 1) * b
  }

  lemma {:induction false} ZerosValue(z: string, radix: nat)
    requires forall i | 0 <= i < |z| :: z[i] == '0'
    requires radix == 10 || radix == 16
    ensures AllDigits(z, radix) && DigitsValue(z, radix) == 0
  {
    if z != [] {
      ZerosValue(z[..|z| - 1], radix);
    }
  }

  lemma {:induction false} DecimalValue(n: nat)
    ensures DigitsValue(Decimal(n), 10) == n
  {
    if n >= 10 {
      DecimalValue(n / 10);
      var d := Decimal(n / 10) + [DigitChar(n % 10)];
      assert d[..|d| - 1] == Decimal(n / 10);
    }
  }

  /** `parseInt` reads back a decimal string padded on the left with zeros. */
  lemma {:induction false} ParseIntOfPaddedDecimal(n: nat, width: nat)
    ensures ParseInt(PadStart(Decimal(n), width, '0')) == Some(n)
  {
    var d := Decimal(n);
    var s := PadStart(d, width, '0');
    var z := s[..|s| - |d|];
    assert s == z + d;
    ZerosValue(z, 10);
    DigitsValueAppend(z, d, 10);
    DecimalValue(n);
    assert DigitsValue(s, 10) == n;
    ParseIntOfDigits(s);
  }

  /** `parseInt` of a non-empty decimal digit string is its value. */
  lemma {:induction false} ParseIntOfDigits(s: string)
    requires |s| >= 1 && AllDigits(s, 10)
    ensures ParseInt(s) == Some(DigitsValue(s, 10))
  {
    assert DigitValue(s[0], 10).Some?;
    assert !IsJsSpace(s[0]) && s[0] != '-' && s[0] != '+';
    assert TrimStart(s) == s;
    var hex := |s| >= 2 && s[0] == '0' && (s[1] == 'x' || s[1] == 'X');
    assert !hex by {
      if |s| >= 2 { assert DigitValue(s[1], 10).Some?; }
    }
    DigitPrefixAll(s, 10);
  }

  lemma {:induction false} DigitPrefixAll(s: string, radix: nat)
    requires AllDigits(s, radix)
    ensures DigitPrefix(s, radix) == s
  {
    if s != [] {
      DigitPrefixAll(s[1..], radix);
    }
  }

  // ---------------------------------------------------------------- sign of ToNumber

  /** How `ToNumber(s)` compares with zero. */
  datatype NumberSign = NaN | Negative | Zero | Positive

  predicate AllZeroDigits(s: string) {
    forall i | 0 <= i < |s| :: s[i] == '0' || s[i] == '.'
  }

  /** Index of the first `e` or `E` in `s` (where an exponent would start), or `|s|`. */
  function ExponentStart(s: string): (e: nat)
    ensures e <= |s|
    ensures e < |s| ==> s[e] == 'e' || s[e] == 'E'
    ensures forall i | 0 <= i < e :: s[i] != 'e' && s[i] != 'E'
  {
    if s == [] || s[0] == 'e' || s[0] == 'E' then 0 else 1 + ExponentStart(s[1..])
  }

  /** Digits with at most one `.` and at least one digit: the mantissa of a decimal literal. */
  predicate IsMantissa(m: string) {
    (forall i | 0 <= i < |m| :: m[i] == '.' || DigitValue(m[i], 10).Some?)
    && Count(m, c => c == '.') <= 1
    && Count(m, c => c != '.') >= 1
  }

  predicate IsExponent(x: string) {
    |x| >= 2 && (x[0] == 'e' || x[0] == 'E')
    && var ds := if x[1] == '+' || x[1] == '-' then x[2..] else x[1..];
       ds != [] && AllDigits(ds, 10)
  }

  /** A `0x`, `0o` or `0b` literal; the result says whether its value is zero. */
  function NonDecimalInteger(s: string): Option<bool> {
    if |s| >= 3 && s[0] == '0' then
      var radix := if s[1] == 'x' || s[1] == 'X' then 16 else if s[1] == 'o' || s[1] == 'O' then 8
                   else if s[1] == 'b' || s[1] == 'B' then 2 else 0;
      var ds := s[2..];
      if radix != 0 && (forall i | 0 <= i < |ds| :: DigitValue(ds[i], 16).Some? && DigitValue(ds[i], 16).value < radix)
      then Some(forall i | 0 <= i < |ds| :: ds[i] == '0')
      else None
    else None
  }

  /**
   * The sign of `ToNumber(s)` for a string (ECMAScript, section 7.1.4.1.1): surrounding whitespace is
   * ignored, the empty string is zero, a signed decimal literal or `Infinity` has the sign of its
   * digits, a non-decimal integer literal is unsigned, anything else is NaN.
   */
  function SignOfNumber(s: string): NumberSign {
    var t := Trim(s);
    if t == [] then Zero
    else
      var negative := t[0] == '-';
      var body := if t[0] == '-' || t[0] == '+' then t[1..] else t;
      if body == "Infinity" then (if negative then Negative else Positive)
      else if IsMantissa(body[..ExponentStart(body)])
        && (ExponentStart(body) == |body| || IsExponent(body[ExponentStart(body)..])) then
        if AllZeroDigits(body[..ExponentStart(body)]) then Zero else if negative then Negative else Positive
      else
        match NonDecimalInteger(t)
        case Some(isZero) => if isZero then Zero else Positive
        case None => NaN
  }

  /** `s > 0` for a string `s` (the comparison converts `s` with ToNumber). */
  predicate GreaterThanZero(s: string) {
    SignOfNumber(s) == Positive
  }

  /** `s == 0` for a string `s` (loose equality converts `s` with ToNumber). */
  predicate LooselyZero(s: string) {
    SignOfNumber(s) == Zero
  }
}
