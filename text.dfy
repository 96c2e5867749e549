/** String primitives the pages rely on, with the JavaScript meaning they
    stand for: `String.prototype.includes`, `trim`, ASCII case folding as a
    non-unicode `/i` regular expression performs it, and `Number.prototype.toFixed`
    on fixed-point values held as integers. */
module Text {

  datatype Option<T> = None | Some(value: T)

  function Min(a: int, b: int): int { if a <= b then a else b }
  function Max(a: int, b: int): int { if a <= b then b else a }

  // ---------------------------------------------------------------------------
  // Substring search (`s.includes(p)`, and an unanchored literal regex)

  /** `p` occurs in `s` starting at index `i`. */
  ghost predicate OccursAt(s: string, p: string, i: int) {
    0 <= i && i + |p| <= |s| && s[i..i + |p|] == p
  }

  /** `s.includes(p)`: some position of `s` starts a copy of `p`. */
  function Contains(s: string, p: string): (b: bool)
    ensures b <==> exists i :: OccursAt(s, p, i)
    decreases |s|
  {
    if |p| > |s| then
      assert forall i :: !OccursAt(s, p, i);
      false
    else if s[..|p|] == p then
      assert OccursAt(s, p, 0);
      true
    else
      var r := Contains(s[1..], p);
      ShiftOccurrence(s, p);
      r
  }

  /** Occurrences in `s` past index 0 are the occurrences in `s[1..]`, shifted. */
  lemma ShiftOccurrence(s: string, p: string)
    requires |s| > 0 && !OccursAt(s, p, 0)
    ensures (exists i :: OccursAt(s, p, i)) <==> (exists i :: OccursAt(s[1..], p, i))
  {
    if i :| OccursAt(s, p, i) {
      assert i > 0;
      assert s[1..][i - 1..i - 1 + |p|] == s[i..i + |p|];
      assert OccursAt(s[1..], p, i - 1);
    }
    if i :| OccursAt(s[1..], p, i) {
      assert s[1..][i..i + |p|] == s[i + 1..i + 1 + |p|];
      assert OccursAt(s, p, i + 1);
    }
  }

  /** Searching for a one-character string is membership of that character. */
  lemma {:induction false} ContainsChar(s: string, c: char)
    ensures Contains(s, [c]) <==> c in s
  {
    if c in s {
      var i :| 0 <= i < |s| && s[i] == c;
      assert s[i..i + 1] == [c];
      assert OccursAt(s, [c], i);
    }
    if i :| OccursAt(s, [c], i) {
      assert s[i] == s[i..i + 1][0];
    }
  }

  /** Every string contains the empty string. */
  lemma ContainsEmpty(s: string)
    ensures Contains(s, "")
  {
    assert OccursAt(s, "", 0);
  }

  // ---------------------------------------------------------------------------
  // Case folding. A non-unicode `/i` regex folds a character by upper-casing it
  // and never folds a non-ASCII character onto an ASCII one, so for the ASCII
  // patterns used here folding the ASCII letters is exact.

  function LowerChar(c: char): char {
    if 'A' <= c <= 'Z' then (c as int + 32) as char else c
  }

  function UpperChar(c: char): char {
    if 'a' <= c <= 'z' then (c as int - 32) as char else c
  }

  function Lower(s: string): (r: string)
    ensures |r| == |s|
    ensures forall i :: 0 <= i < |s| ==> r[i] == LowerChar(s[i])
  {
    seq(|s|, i requires 0 <= i < |s| => LowerChar(s[i]))
  }

  function Upper(s: string): (r: string)
    ensures |r| == |s|
    ensures forall i :: 0 <= i < |s| ==> r[i] == UpperChar(s[i])
  {
    seq(|s|, i requires 0 <= i < |s| => UpperChar(s[i]))
  }

  /** Upper-casing first changes nothing once the text is lower-cased. */
  lemma LowerOfUpper(s: string)
    ensures Lower(Upper(s)) == Lower(s)
  {
    assert forall i :: 0 <= i < |s| ==> LowerChar(UpperChar(s[i])) == LowerChar(s[i]);
  }

  /** Case-insensitive substring test. */
  function ContainsIgnoringCase(s: string, p: string): bool {
    Contains(Lower(s), Lower(p))
  }

  // ---------------------------------------------------------------------------
  // `String.prototype.trim`: the characters ECMAScript calls WhiteSpace or
  // LineTerminator.

  predicate IsLineTerminator(c: char) {
    c == '\n' || c == '\r' || c == '\U{2028}' || c == '\U{2029}'
  }

  predicate IsWhitespace(c: char) {
    || c == '\t' || c == '\U{000B}' || c == '\U{000C}' || c == ' '
    || c == '\U{00A0}' || c == '\U{FEFF}' || c == '\U{1680}'
    || ('\U{2000}' <= c <= '\U{200A}') || c == '\U{202F}' || c == '\U{205F}'
    || c == '\U{3000}' || IsLineTerminator(c)
  }

  /** Every character is white space (vacuously true of ""). */
  predicate IsBlank(s: string) {
    forall i :: 0 <= i < |s| ==> IsWhitespace(s[i])
  }

  function TrimStart(s: string): string {
    if s != [] && IsWhitespace(s[0]) then TrimStart(s[1..]) else s
  }

  function TrimEnd(s: string): string {
    if s != [] && IsWhitespace(s[|s| - 1]) then TrimEnd(s[..|s| - 1]) else s
  }

  function Trim(s: string): string {
    TrimEnd(TrimStart(s))
  }

  /** `!s.trim()` holds exactly when `s` is blank. */
  lemma {:induction false} TrimEmptyIffBlank(s: string)
    ensures Trim(s) == "" <==> IsBlank(s)
  {
    TrimStartEmptyIffBlank(s);
    var t := TrimStart(s);
    if t != [] {
      TrimStartNotBlank(s);
      TrimEndNonEmpty(t);
    }
  }

  lemma {:induction false} TrimStartEmptyIffBlank(s: string)
    ensures TrimStart(s) == "" <==> IsBlank(s)
  {
    if s != [] && IsWhitespace(s[0]) {
      TrimStartEmptyIffBlank(s[1..]);
      assert IsBlank(s[1..]) ==> IsBlank(s) by {
        if IsBlank(s[1..]) {
          forall i | 0 <= i < |s| ensures IsWhitespace(s[i]) {
            if i > 0 { assert s[i] == s[1..][i - 1]; }
          }
        }
      }
    }
  }

  lemma {:induction false} TrimStartNotBlank(s: string)
    requires TrimStart(s) != ""
    ensures !IsWhitespace(TrimStart(s)[0])
  {
    if s != [] && IsWhitespace(s[0]) {
      TrimStartNotBlank(s[1..]);
    }
  }

  lemma {:induction false} TrimEndNonEmpty(t: string)
    requires t != [] && !IsWhitespace(t[0])
    ensures TrimEnd(t) != ""
  {
    if IsWhitespace(t[|t| - 1]) {
      assert |t| > 1;
      TrimEndNonEmpty(t[..|t| - 1]);
    }
  }

  // ---------------------------------------------------------------------------
  // Decimal digits

  function Pow10(d: nat): (p: nat)
    ensures p >= 1
  {
    if d == 0 then 1 else 10 * Pow10(d - 1)
  }

  function DigitChar(n: nat): char
    requires n < 10
  {
    "0123456789"[n]
  }

  predicate IsDigit(c: char) { '0' <= c <= '9' }

  function DigitValue(c: char): nat
    requires IsDigit(c)
  {
    c as int - '0' as int
  }

  lemma DigitRoundTrip(n: nat)
    requires n < 10
    ensures IsDigit(DigitChar(n)) && DigitValue(DigitChar(n)) == n
  {
  }

  predicate AllDigits(s: string) {
    forall i :: 0 <= i < |s| ==> IsDigit(s[i])
  }

  /** The number a string of decimal digits denotes. */
  function ParseDigits(s: string): nat
    requires AllDigits(s)
  {
    if s == [] then 0 else 10 * ParseDigits(s[..|s| - 1]) + DigitValue(s[|s| - 1])
  }

  /** The shortest decimal numeral of `n` (`String(n)` for a non-negative integer). */
  function NatToDecimal(n: nat): (r: string)
    ensures |r| >= 1 && AllDigits(r)
    ensures ParseDigits(r) == n
    ensures |r| > 1 ==> r[0] != '0'
  {
    if n < 10 then
      DigitRoundTrip(n);
      [DigitChar(n)]
    else
      var r := NatToDecimal(n / 10) + [DigitChar(n % 10)];
      DigitRoundTrip(n % 10);
      assert r[..|r| - 1] == NatToDecimal(n / 10);
      r
  }

  /** The `d` low-order decimal digits of `n`, with leading zeros. */
  function PadDigits(n: nat, d: nat): (r: string)
    ensures |r| == d && AllDigits(r)
    ensures ParseDigits(r) == n % Pow10(d)
  {
    if d == 0 then
      ""
    else
      var r := PadDigits(n / 10, d - 1) + [DigitChar(n % 10)];
      DigitRoundTrip(n % 10);
      assert r[..|r| - 1] == PadDigits(n / 10, d - 1);
      ModPow10Step(n, d);
      r
  }

  lemma ModPow10Step(n: nat, d: nat)
    requires d >= 1
    ensures n % Pow10(d) == 10 * ((n / 10) % Pow10(d - 1)) + n % 10
  {
    var p := Pow10(d - 1);
    var q := (n / 10) / p;
    var m := (n / 10) % p;
    assert n / 10 == q * p + m;
    assert n == 10 * (q * p) + 10 * m + n % 10;
    assert n == q * (10 * p) + (10 * m + n % 10);
    assert 0 <= 10 * m + n % 10 < 10 * p;
    DivModUnique(n, 10 * p, q, 10 * m + n % 10);
  }

  lemma DivModUnique(n: int, d: int, q: int, r: int)
    requires d > 0 && 0 <= r < d && n == q * d + r
    ensures n % d == r && n / d == q
  {
    var q0, r0 := n / d, n % d;
    assert q0 * d + r0 == n;
    if q0 > q {
      MulAtLeast(q0 - q, d);
    } else if q > q0 {
      MulAtLeast(q - q0, d);
    }
  }

  lemma {:induction false} MulAtLeast(k: int, d: int)
    requires k >= 1 && d >= 0
    ensures k * d >= d
  {
    if k > 1 {
      MulAtLeast(k - 1, d);
      assert k * d == (k - 1) * d + d;
    }
  }

  /** Parsing a concatenation: the left part is scaled by the right part's width. */
  lemma {:induction false} ParseConcat(a: string, b: string)
    requires AllDigits(a) && AllDigits(b)
    ensures AllDigits(a + b)
    ensures ParseDigits(a + b) == ParseDigits(a) * Pow10(|b|) + ParseDigits(b)
  {
    assert AllDigits(a + b);
    if b == [] {
      assert a + b == a;
    } else {
      var b' := b[..|b| - 1];
      var last := DigitValue(b[|b| - 1]);
      assert (a + b)[..|a + b| - 1] == a + b';
      assert (a + b)[|a + b| - 1] == b[|b| - 1];
      ParseConcat(a, b');
      var x, p, y := ParseDigits(a), Pow10(|b'|), ParseDigits(b');
      assert ParseDigits(a + b) == 10 * ParseDigits(a + b') + last;
      assert ParseDigits(b) == 10 * y + last;
      assert Pow10(|b|) == 10 * p;
      ScaleStep(x, p, y, last);
    }
  }

  lemma ScaleStep(x: int, p: int, y: int, last: int)
    ensures 10 * (x * p + y) + last == x * (10 * p) + (10 * y + last)
  {
  }

  // ---------------------------------------------------------------------------
  // `x.toFixed(d)` where `x` is held as an integer count of thousandths.

  function Abs(v: int): nat { if v < 0 then -v else v }

  /** `|v|` thousandths expressed in units of 10^-d, rounded to nearest, halves up. */
  function RoundedUnits(v: int, d: nat): (u: nat)
    requires d <= 3
    ensures 2 * Abs(u * Pow10(3 - d) - Abs(v)) <= Pow10(3 - d)
  {
    var step := Pow10(3 - d);
    var u := (Abs(v) + step / 2) / step;
    RoundingBound(Abs(v), step);
    u
  }

  lemma RoundingBound(a: nat, step: nat)
    requires step >= 1
    ensures 2 * Abs((a + step / 2) / step * step - a) <= step
  {
    var q := (a + step / 2) / step;
    var r := (a + step / 2) % step;
    assert q * step + r == a + step / 2;
  }

  /** The digits of the fixed-point text, read with the point and sign dropped. */
  function DigitsOf(s: string): string {
    if s == [] then []
    else (if IsDigit(s[0]) then [s[0]] else []) + DigitsOf(s[1..])
  }

  /** The signed number of 10^-d units that a `toFixed` string denotes. */
  function FixedValue(s: string): int {
    var digits := DigitsOf(s);
    DigitsOfAllDigits(s);
    (if s != [] && s[0] == '-' then -1 else 1) * ParseDigits(digits)
  }

  lemma {:induction false} DigitsOfAllDigits(s: string)
    ensures AllDigits(DigitsOf(s))
  {
    if s != [] { DigitsOfAllDigits(s[1..]); }
  }

  lemma {:induction false} DigitsOfConcat(a: string, b: string)
    ensures DigitsOf(a + b) == DigitsOf(a) + DigitsOf(b)
  {
    if a == [] {
      assert a + b == b;
    } else {
      assert (a + b)[1..] == a[1..] + b;
      DigitsOfConcat(a[1..], b);
    }
  }

  lemma {:induction false} DigitsOfDigits(s: string)
    requires AllDigits(s)
    ensures DigitsOf(s) == s
  {
    if s != [] { DigitsOfDigits(s[1..]); }
  }

  /** `(v / 1000).toFixed(d)`: optional "-", the integer part, ".", then exactly `d`
      fraction digits, rounded half away from zero. */
  function ToFixed(v: int, d: nat): string
    requires 1 <= d <= 3
  {
    var u := RoundedUnits(v, d);
    (if v < 0 then "-" else "") + NatToDecimal(u / Pow10(d)) + "." + PadDigits(u % Pow10(d), d)
  }

  /** What `ToFixed` produces: a "-" exactly for a negative value, then the
      integer part as digits with no leading zero, the point, and `d` fraction
      digits; the digits read back as the rounded value, signed. */
  lemma ToFixedMeaning(v: int, d: nat)
    requires 1 <= d <= 3
    ensures var s := ToFixed(v, d);
      var sg := if v < 0 then 1 else 0;
      && |s| >= d + 2 + sg
      && s[|s| - d - 1] == '.'
      && AllDigits(s[|s| - d..])
      && (s[0] == '-' <==> v < 0)
      && AllDigits(s[sg..|s| - d - 1])
      && (|s| - d - 1 - sg > 1 ==> s[sg] != '0')
      && FixedValue(s) == (if v < 0 then -1 else 1) * RoundedUnits(v, d)
  {
    var u := RoundedUnits(v, d);
    var p := Pow10(d);
    var sign: string := if v < 0 then "-" else "";
    var whole := NatToDecimal(u / p);
    var frac := PadDigits(u % p, d);
    var s := ToFixed(v, d);
    assert s == sign + whole + "." + frac;
    FixedShape(sign, whole, frac, d);
    DigitsOfParts(sign, whole, frac);
    DigitsOfDigits(whole);
    DigitsOfDigits(frac);
    assert DigitsOf(s) == whole + frac;
    ParseConcat(whole, frac);
    DivModPow(u, p);
    assert ParseDigits(frac) == u % p;
    assert ParseDigits(whole + frac) == u;
  }

  /** The layout of a sign, an integer numeral, a point and `d` fraction digits. */
  lemma FixedShape(sign: string, whole: string, frac: string, d: nat)
    requires sign == "" || sign == "-"
    requires |whole| >= 1 && AllDigits(whole) && (|whole| > 1 ==> whole[0] != '0')
    requires |frac| == d && AllDigits(frac)
    ensures var s, sg := sign + whole + "." + frac, |sign|;
      && |s| >= d + 2 + sg
      && s[|s| - d - 1] == '.'
      && AllDigits(s[|s| - d..])
      && (s[0] == '-' <==> sign == "-")
      && AllDigits(s[sg..|s| - d - 1])
      && (|s| - d - 1 - sg > 1 ==> s[sg] != '0')
  {
    var s := sign + whole + "." + frac;
    assert s[|s| - d..] == frac;
    assert s[|sign|..|s| - d - 1] == whole;
    assert s[|s| - d - 1] == '.';
    assert sign == "" ==> s[0] == whole[0];
  }

  lemma DivModPow(u: nat, p: nat)
    requires p >= 1
    ensures (u / p) * p + u % p == u
    ensures (u % p) % p == u % p
  {
    DivModUnique(u % p, p, 0, u % p);
  }

  lemma DigitsOfParts(sign: string, whole: string, frac: string)
    requires sign == "" || sign == "-"
    ensures DigitsOf(sign + whole + "." + frac) == DigitsOf(whole) + DigitsOf(frac)
  {
    DigitsOfConcat(sign + whole + ".", frac);
    DigitsOfConcat(sign + whole, ".");
    DigitsOfConcat(sign, whole);
    assert DigitsOf(".") == [];
    assert DigitsOf(sign) == [];
  }
}
