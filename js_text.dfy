/**
 * The pieces of the JavaScript runtime that the timing engine leans on, stated over
 * `string` (a sequence of characters): white space and `trim`, ASCII case mapping,
 * splitting, padding, decimal text of numbers and `Number(text)`.
 */
module JsText {
  import opened Wrappers

  // ---------------------------------------------------------------------------
  // White space
  // ---------------------------------------------------------------------------

  /** The characters that `String.prototype.trim` removes and that the regex class `\s` matches. */
  predicate IsSpace(c: char) {
    || c == ' ' || c == '\t' || c == '\n' || c == '\r' || c == '\U{B}' || c == '\U{C}'
    || c == '\U{A0}' || c == '\U{FEFF}' || c == '\U{1680}' || ('\U{2000}' <= c <= '\U{200A}')
    || c == '\U{2028}' || c == '\U{2029}' || c == '\U{202F}' || c == '\U{205F}' || c == '\U{3000}'
  }

  predicate NoSpace(s: string) {
    forall i :: 0 <= i < |s| ==> !IsSpace(s[i])
  }

  /** Neither the first nor the last character is white space. */
  predicate IsTrimmed(s: string) {
    s == [] || (!IsSpace(s[0]) && !IsSpace(s[|s| - 1]))
  }

  function TrimStart(s: string): (r: string)
    ensures |r| <= |s|
    ensures r == [] || !IsSpace(r[0])
  {
    if s == [] || !IsSpace(s[0]) then s else TrimStart(s[1..])
  }

  /** `TrimStart` drops a run of white space from the front and keeps the rest. */
  lemma {:induction false} TrimStartSuffix(s: string)
    ensures TrimStart(s) == s[|s| - |TrimStart(s)|..]
    ensures forall i :: 0 <= i < |s| - |TrimStart(s)| ==> IsSpace(s[i])
  {
    if s != [] && IsSpace(s[0]) {
      TrimStartSuffix(s[1..]);
    }
  }

  function TrimEnd(s: string): (r: string)
    ensures |r| <= |s|
    ensures r == [] || !IsSpace(r[|r| - 1])
  {
    if s == [] || !IsSpace(s[|s| - 1]) then s else TrimEnd(s[..|s| - 1])
  }

  /** `TrimEnd` drops a run of white space from the back and keeps the rest. */
  lemma {:induction false} TrimEndPrefix(s: string)
    ensures TrimEnd(s) == s[..|TrimEnd(s)|]
    ensures forall i :: |TrimEnd(s)| <= i < |s| ==> IsSpace(s[i])
  {
    if s != [] && IsSpace(s[|s| - 1]) {
      TrimEndPrefix(s[..|s| - 1]);
    }
  }

  /** `String.prototype.trim`. */
  function Trim(s: string): (r: string)
    ensures IsTrimmed(r)
  {
    var t := TrimStart(s);
    var r := TrimEnd(t);
    TrimEndPrefix(t);
    assert r != [] ==> r[0] == t[0];
    r
  }

  lemma TrimOfTrimmed(s: string)
    requires IsTrimmed(s)
    ensures Trim(s) == s
  {
  }

  lemma TrimOfNoSpace(s: string)
    requires NoSpace(s)
    ensures Trim(s) == s
  {
  }

  /** Every character of the trimmed text comes from the original text. */
  lemma TrimIsInfix(s: string)
    ensures exists a, b :: 0 <= a <= b <= |s| && Trim(s) == s[a..b]
  {
    var t := TrimStart(s);
    var a := |s| - |t|;
    var r := TrimEnd(t);
    TrimStartSuffix(s);
    TrimEndPrefix(t);
    assert r == s[a..a + |r|];
  }

  // ---------------------------------------------------------------------------
  // Case mapping (ASCII letters only)
  // ---------------------------------------------------------------------------

  function LowerChar(c: char): char {
    if 'A' <= c <= 'Z' then (c as int + 32) as char else c
  }

  function UpperChar(c: char): char {
    if 'a' <= c <= 'z' then (c as int - 32) as char else c
  }

  /** `String.prototype.toLowerCase` restricted to ASCII letters. */
  function ToLower(s: string): (r: string)
    ensures |r| == |s| && forall i :: 0 <= i < |s| ==> r[i] == LowerChar(s[i])
  {
    seq(|s|, i requires 0 <= i < |s| => LowerChar(s[i]))
  }

  // ---------------------------------------------------------------------------
  // Searching, splitting, joining, padding
  // ---------------------------------------------------------------------------

  predicate StartsWith(s: string, prefix: string) {
    |prefix| <= |s| && s[..|prefix|] == prefix
  }

  /** `String.prototype.includes`. */
  predicate Contains(s: string, part: string)
    decreases |s|
  {
    StartsWith(s, part) || (s != [] && Contains(s[1..], part))
  }

  lemma ContainsAt(s: string, part: string, i: nat)
    requires i + |part| <= |s| && s[i..i + |part|] == part
    ensures Contains(s, part)
    decreases i
  {
    if i > 0 {
      assert s[1..][i - 1..i - 1 + |part|] == s[i..i + |part|];
      ContainsAt(s[1..], part, i - 1);
    }
  }

  /** The number of leading characters that are not white space. */
  function WordLength(s: string): (n: nat)
    ensures n <= |s| && NoSpace(s[..n]) && (n < |s| ==> IsSpace(s[n]))
    ensures n == 0 <==> s == [] || IsSpace(s[0])
  {
    if s == [] || IsSpace(s[0]) then 0 else 1 + WordLength(s[1..])
  }

  /** `s.split(/\s+/).filter(Boolean)`: the maximal runs of non-white-space characters, in order. */
  function Words(s: string): (ws: seq<string>)
    ensures forall i :: 0 <= i < |ws| ==> ws[i] != [] && NoSpace(ws[i])
    decreases |s|
  {
    var t := TrimStart(s);
    if t == [] then []
    else
      var n := WordLength(t);
      var word, rest := t[..n], Words(t[n..]);
      assert word != [] && NoSpace(word);
      ConsWord(word, rest);
      [word] + rest
  }

  lemma ConsWord(word: string, rest: seq<string>)
    requires word != [] && NoSpace(word)
    requires forall i :: 0 <= i < |rest| ==> rest[i] != [] && NoSpace(rest[i])
    ensures forall i :: 0 <= i < |rest| + 1 ==> ([word] + rest)[i] != [] && NoSpace(([word] + rest)[i])
  {
  }

  lemma WordsOfNoSpace(s: string)
    requires s != [] && NoSpace(s)
    ensures Words(s) == [s]
  {
    assert TrimStart(s) == s;
    assert WordLength(s) == |s| by { WordLengthOfNoSpace(s); }
    assert s[..|s|] == s && s[|s|..] == [];
    assert Words([]) == [];
  }

  lemma WordLengthOfNoSpace(s: string)
    requires NoSpace(s)
    ensures WordLength(s) == |s|
  {
    if s != [] {
      WordLengthOfNoSpace(s[1..]);
    }
  }

  /** A trimmed non-empty text always has at least one word. */
  lemma WordsOfTrimmedNonEmpty(s: string)
    requires s != [] && IsTrimmed(s)
    ensures |Words(s)| >= 1
  {
    assert TrimStart(s) == s;
  }

  /** `s.split(sep)` for a one-character separator. */
  function SplitOn(s: string, sep: char): (parts: seq<string>)
    ensures |parts| >= 1
    ensures forall i :: 0 <= i < |parts| ==> sep !in parts[i]
  {
    if s == [] then [""]
    else
      var rest := SplitOn(s[1..], sep);
      if s[0] == sep then [""] + rest else [[s[0]] + rest[0]] + rest[1..]
  }

  /** Splitting `a + [sep] + b` where `a` has no separator gives `a` first and then the parts of `b`. */
  lemma SplitOnAppend(a: string, b: string, sep: char)
    requires sep !in a
    ensures SplitOn(a + [sep] + b, sep) == [a] + SplitOn(b, sep)
  {
    if a == [] {
      assert (a + [sep] + b)[1..] == b;
    } else {
      assert (a + [sep] + b)[1..] == a[1..] + [sep] + b;
      assert a[0] != sep && (a + [sep] + b)[0] == a[0];
      SplitOnAppend(a[1..], b, sep);
      assert [a[0]] + a[1..] == a;
    }
  }

  lemma SplitOnNoSep(a: string, sep: char)
    requires sep !in a
    ensures SplitOn(a, sep) == [a]
  {
    if a != [] {
      assert a[0] != sep;
      SplitOnNoSep(a[1..], sep);
      assert [a[0]] + a[1..] == a;
    }
  }

  /** `parts.join(sep)`. */
  function Join(parts: seq<string>, sep: string): string {
    if parts == [] then ""
    else if |parts| == 1 then parts[0]
    else parts[0] + sep + Join(parts[1..], sep)
  }

  function Repeat(c: char, n: nat): (r: string)
    ensures |r| == n && forall i :: 0 <= i < n ==> r[i] == c
  {
    if n == 0 then [] else [c] + Repeat(c, n - 1)
  }

  /** `s.padStart(width, fill)` with a one-character fill. */
  function PadStart(s: string, width: nat, fill: char): (r: string)
    ensures |r| == if |s| >= width then |s| else width
    ensures r == Repeat(fill, |r| - |s|) + s
  {
    if |s| >= width then s else Repeat(fill, width - |s|) + s
  }

  /** Padding a trimmed, non-empty text with a character that is not white space keeps it trimmed. */
  lemma PadStartTrimmed(s: string, width: nat, fill: char)
    requires s != [] && IsTrimmed(s) && !IsSpace(fill)
    ensures IsTrimmed(PadStart(s, width, fill))
  {
    var r := PadStart(s, width, fill);
    assert r[|r| - 1] == s[|s| - 1];
    if |s| < width {
      assert r[0] == fill;
    }
  }

  // ---------------------------------------------------------------------------
  // Decimal digits
  // ---------------------------------------------------------------------------

  predicate IsDigit(c: char) {
    '0' <= c <= '9'
  }

  predicate AllDigits(s: string) {
    forall i :: 0 <= i < |s| ==> IsDigit(s[i])
  }

  function DigitChar(d: nat): (c: char)
    requires d < 10
    ensures IsDigit(c)
  {
    ('0' as int + d) as char
  }

  function DigitValue(c: char): (d: nat)
    requires IsDigit(c)
    ensures d < 10 && DigitChar(d) == c
  {
    c as int - '0' as int
  }

  function Pow10(n: nat): (p: nat)
    ensures p >= 1
  {
    if n == 0 then 1 else 10 * Pow10(n - 1)
  }

  /** Decimal text of a natural number, without leading zeros. */
  function NatText(n: nat): (r: string)
    ensures r != [] && AllDigits(r)
    ensures r[0] == '0' ==> n == 0
  {
    if n < 10 then [DigitChar(n)] else NatText(n / 10) + [DigitChar(n % 10)]
  }

  /** `String(n)` for an integer-valued number. */
  function IntText(n: int): (r: string)
    ensures r != [] && (r[0] == '-' || IsDigit(r[0])) && IsDigit(r[|r| - 1])
    ensures n >= 0 ==> r == NatText(n)
  {
    if n < 0 then "-" + NatText(-n) else NatText(n)
  }

  /** The value of a run of decimal digits (leading zeros allowed). */
  function DigitsValue(s: string): nat
    requires AllDigits(s)
  {
    if s == [] then 0 else DigitsValue(s[..|s| - 1]) * 10 + DigitValue(s[|s| - 1])
  }

  lemma {:induction false} DigitsValueOfNatText(n: nat)
    ensures DigitsValue(NatText(n)) == n
  {
    if n >= 10 {
      var r := NatText(n);
      assert r[..|r| - 1] == NatText(n / 10);
      DigitsValueOfNatText(n / 10);
    }
  }

  /** Leading zeros do not change the value of a digit run. */
  lemma {:induction false} DigitsValueLeadingZeros(k: nat, s: string)
    requires AllDigits(s)
    ensures AllDigits(Repeat('0', k) + s) && DigitsValue(Repeat('0', k) + s) == DigitsValue(s)
    decreases |s|
  {
    var z := Repeat('0', k);
    if s == [] {
      assert z + s == z;
      ZerosValue(k);
    } else {
      assert (z + s)[..|z + s| - 1] == z + s[..|s| - 1];
      DigitsValueLeadingZeros(k, s[..|s| - 1]);
    }
  }

  lemma {:induction false} ZerosValue(k: nat)
    ensures AllDigits(Repeat('0', k)) && DigitsValue(Repeat('0', k)) == 0
  {
    if k > 0 {
      var z := Repeat('0', k);
      assert z[..|z| - 1] == Repeat('0', k - 1);
      ZerosValue(k - 1);
    }
  }

  /** Different naturals have different decimal text. */
  lemma NatTextInjective(m: nat, n: nat)
    requires NatText(m) == NatText(n)
    ensures m == n
  {
    DigitsValueOfNatText(m);
    DigitsValueOfNatText(n);
  }

  function LeadingDigits(s: string): (n: nat)
    ensures n <= |s| && AllDigits(s[..n]) && (n < |s| ==> !IsDigit(s[n]))
  {
    if s == [] || !IsDigit(s[0]) then 0 else 1 + LeadingDigits(s[1..])
  }

  lemma LeadingDigitsOfAllDigits(s: string)
    requires AllDigits(s)
    ensures LeadingDigits(s) == |s|
  {
    if s != [] {
      LeadingDigitsOfAllDigits(s[1..]);
    }
  }

  // ---------------------------------------------------------------------------
  // Number(text)
  // ---------------------------------------------------------------------------

  /** An unsigned decimal literal: digits, optionally a point and more digits, at least one digit in all. */
  function ParseUnsigned(s: string): (r: Option<real>)
    ensures r.Some? ==> r.value >= 0.0
  {
    var i := LeadingDigits(s);
    var rest := s[i..];
    if rest == [] then
      if i > 0 then Some(DigitsValue(s[..i]) as real) else None
    else if rest[0] == '.' && AllDigits(rest[1..]) && (i > 0 || |rest| > 1) then
      Some(DecimalValue(s[..i], rest[1..]))
    else None
  }

  /** The value of the decimal `whole.fraction`. */
  function DecimalValue(whole: string, fraction: string): (v: real)
    requires AllDigits(whole) && AllDigits(fraction)
    ensures v >= 0.0
  {
    DigitsValue(whole) as real + DigitsValue(fraction) as real / Pow10(|fraction|) as real
  }

  /**
   * `Number(text)`: the blank text is 0, a decimal literal with an optional sign is its value,
   * and anything else is NaN (`None`).
   */
  function JsNumber(text: string): (r: Option<real>)
    ensures Trim(text) == [] ==> r == Some(0.0)
  {
    var t := Trim(text);
    if t == [] then Some(0.0)
    else if t[0] == '-' then
      match ParseUnsigned(t[1..])
      case Some(v) => Some(-v)
      case None => None
    else if t[0] == '+' then ParseUnsigned(t[1..])
    else ParseUnsigned(t)
  }

  lemma {:induction false} ParseUnsignedOfDigits(s: string)
    requires s != [] && AllDigits(s)
    ensures ParseUnsigned(s) == Some(DigitsValue(s) as real)
  {
    LeadingDigitsOfAllDigits(s);
    assert s[..|s|] == s;
  }

  /** `Number(String(n)) == n` for every integer `n`. */
  lemma {:induction false} JsNumberOfIntText(n: int)
    ensures JsNumber(IntText(n)) == Some(n as real)
  {
    var t := IntText(n);
    assert NoSpace(t) by {
      forall i | 0 <= i < |t| ensures !IsSpace(t[i]) {
        if n < 0 { assert i == 0 || IsDigit(NatText(-n)[i - 1]); }
      }
    }
    TrimOfNoSpace(t);
    if n < 0 {
      assert t[1..] == NatText(-n);
      ParseUnsignedOfDigits(NatText(-n));
      DigitsValueOfNatText(-n);
    } else {
      ParseUnsignedOfDigits(NatText(n));
      DigitsValueOfNatText(n);
    }
  }

  // ---------------------------------------------------------------------------
  // String(number) and number.toFixed(digits)
  // ---------------------------------------------------------------------------

  /** Up to `places` decimal digits of a fraction in [0, 1), stopping when nothing is left. */
  function FractionDigits(f: real, places: nat): (r: string)
    requires 0.0 <= f < 1.0
    ensures AllDigits(r) && |r| <= places
    decreases places
  {
    if f == 0.0 || places == 0 then []
    else
      var d := (f * 10.0).Floor;
      [DigitChar(d)] + FractionDigits(f * 10.0 - d as real, places - 1)
  }

  function UnsignedText(x: real): (r: string)
    requires x >= 0.0
    ensures r != [] && IsDigit(r[0])
    ensures forall i :: 0 <= i < |r| ==> IsDigit(r[i]) || r[i] == '.'
  {
    var w := x.Floor;
    var f := x - w as real;
    NatText(w) + (if f == 0.0 then "" else "." + FractionDigits(f, 20))
  }

  /** `String(x)` for a finite number: its decimal expansion (up to 20 places). */
  function NumberText(x: real): (r: string)
    ensures r != [] && NoSpace(r) && IsTrimmed(r)
  {
    var r := if x < 0.0 then "-" + UnsignedText(-x) else UnsignedText(x);
    assert forall i :: 0 <= i < |r| ==> IsDigit(r[i]) || r[i] == '.' || r[i] == '-';
    r
  }

  lemma NumberTextOfInt(n: int)
    ensures NumberText(n as real) == IntText(n)
  {
    if n < 0 {
      assert -(n as real) == (-n) as real;
      UnsignedTextOfNat(-n);
    } else {
      UnsignedTextOfNat(n);
    }
  }

  /** A whole number has no fraction part. */
  lemma UnsignedTextOfNat(n: nat)
    ensures UnsignedText(n as real) == NatText(n)
  {
    assert (n as real).Floor == n;
  }

  /** `x.toFixed(digits)` for a finite `x` below 1e21: round half up on the magnitude. */
  function ToFixed(x: real, digits: nat): string {
    if x < 0.0 then "-" + FixedUnsigned(-x, digits) else FixedUnsigned(x, digits)
  }

  function FixedUnsigned(x: real, digits: nat): string
    requires x >= 0.0
  {
    ScaledText(RoundHalfUp(Scale(x, Pow10(digits))), digits)
  }

  /** The text of `n / 10^digits` with exactly `digits` places after the point. */
  function ScaledText(n: nat, digits: nat): string {
    var p := Pow10(digits);
    DivModBounds(n, p);
    if digits == 0 then NatText(n)
    else NatText(n / p) + "." + PadStart(NatText(n % p), digits, '0')
  }

  function Scale(x: real, p: nat): (y: real)
    requires x >= 0.0
    ensures y >= 0.0
  {
    NonNegativeProduct(x, p as real);
    x * p as real
  }

  /** The integer nearest to `y`, the larger one on a tie. */
  function RoundHalfUp(y: real): (n: nat)
    requires y >= 0.0
  {
    (y + 0.5).Floor
  }

  lemma NonNegativeProduct(a: real, b: real)
    requires a >= 0.0 && b >= 0.0
    ensures a * b >= 0.0
  {
  }

  lemma DivModBounds(n: nat, p: nat)
    requires p >= 1
    ensures n / p >= 0 && 0 <= n % p < p && n == (n / p) * p + n % p
  {
  }

  /** A natural below `10^d` has at most `d` digits. */
  lemma {:induction false} NatTextLength(m: nat, d: nat)
    requires d >= 1 && m < Pow10(d)
    ensures |NatText(m)| <= d
  {
    if m >= 10 {
      assert d >= 2;
      NatTextLength(m / 10, d - 1);
    }
  }

  /** The leading digit run of `a + b` is `a` when `b` starts with a non-digit. */
  lemma {:induction false} LeadingDigitsOfConcat(a: string, b: string)
    requires AllDigits(a) && b != [] && !IsDigit(b[0])
    ensures LeadingDigits(a + b) == |a|
  {
    if a != [] {
      assert (a + b)[1..] == a[1..] + b;
      LeadingDigitsOfConcat(a[1..], b);
    } else {
      assert a + b == b;
    }
  }

  /** `n` units of `10^-d`. */
  function Units(n: nat, d: nat): real {
    n as real / Pow10(d) as real
  }

  /** `a` (not negative) rounded half up to `d` places. */
  function Rounded(a: real, d: nat): real
    requires a >= 0.0
  {
    Units(RoundHalfUp(Scale(a, Pow10(d))), d)
  }

  /** The text of `n` units of `10^-d` (d at least 1) reads back as that value. */
  lemma ScaledTextValue(n: nat, d: nat)
    requires d >= 1
    ensures ParseUnsigned(ScaledText(n, d)) == Some(Units(n, d))
  {
    var p := Pow10(d);
    DivModRange(n, p);
    var q, m := n / p, n % p;
    var head := NatText(q);
    var tail := PadStart(NatText(m), d, '0');
    assert ScaledText(n, d) == head + "." + tail;
    PaddedFractionDigits(m, d, tail);
    DigitsValueOfNatText(q);
    ParseUnsignedOfDecimal(head, tail);
    DecimalValueOfParts(head, tail, q, m, p);
    UnitsOfParts(n, d, p, q, m);
  }

  lemma DivModRange(n: nat, p: nat)
    requires p >= 1
    ensures n / p >= 0 && 0 <= n % p < p
  {
  }

  /** Whole part plus fraction part is the scaled value. */
  lemma UnitsOfParts(n: nat, d: nat, p: nat, q: nat, m: nat)
    requires p == Pow10(d) && q == n / p && m == n % p
    ensures q as real + m as real / p as real == Units(n, d)
  {
    FractionValue(n, p);
  }

  lemma DecimalValueOfParts(head: string, tail: string, q: nat, m: nat, p: nat)
    requires AllDigits(head) && AllDigits(tail) && DigitsValue(head) == q && DigitsValue(tail) == m
    requires p == Pow10(|tail|)
    ensures DecimalValue(head, tail) == q as real + m as real / p as real
  {
  }

  /** The fraction digits, padded to `d` places, spell the remainder. */
  lemma PaddedFractionDigits(m: nat, d: nat, tail: string)
    requires d >= 1 && m < Pow10(d) && tail == PadStart(NatText(m), d, '0')
    ensures |tail| == d && AllDigits(tail) && DigitsValue(tail) == m
  {
    NatTextLength(m, d);
    DigitsValueLeadingZeros(d - |NatText(m)|, NatText(m));
    DigitsValueOfNatText(m);
  }

  /** A digit run, a point and a non-empty digit run read as the decimal they spell. */
  lemma ParseUnsignedOfDecimal(head: string, tail: string)
    requires AllDigits(head) && AllDigits(tail) && tail != []
    ensures ParseUnsigned(head + "." + tail) == Some(DecimalValue(head, tail))
  {
    var s := head + "." + tail;
    assert s == head + ("." + tail);
    LeadingDigitsOfConcat(head, "." + tail);
    assert s[..|head|] == head;
    assert s[|head|..][1..] == tail;
  }

  lemma FractionValue(n: nat, p: nat)
    requires p >= 1
    ensures (n / p) as real + (n % p) as real / p as real == n as real / p as real
  {
    DivModBounds(n, p);
    var q, m := n / p, n % p;
    assert (q * p + m) as real == q as real * p as real + m as real;
  }

  lemma ScaledTextShape(n: nat, d: nat)
    ensures ScaledText(n, d) != [] && IsDigit(ScaledText(n, d)[0])
    ensures forall i :: 0 <= i < |ScaledText(n, d)| ==> IsDigit(ScaledText(n, d)[i]) || ScaledText(n, d)[i] == '.'
  {
    var p := Pow10(d);
    DivModBounds(n, p);
    if d > 0 {
      var tail := PadStart(NatText(n % p), d, '0');
      DigitsValueLeadingZeros(|tail| - |NatText(n % p)|, NatText(n % p));
    }
  }

  lemma ScaledTextDecimal(n: nat, d: nat, u: string)
    requires u == ScaledText(n, d)
    ensures DecimalShape(u)
  {
    ScaledTextShape(n, d);
    DecimalCharsOf(u);
  }

  /** Zeros in front of an unsigned literal leave an unsigned literal. */
  lemma ZeroPaddedShape(z: nat, u: string)
    requires DecimalShape(u)
    ensures DecimalShape(Repeat('0', z) + u)
  {
    var zeros := Repeat('0', z);
    ZerosDecimal(z);
    DecimalCharsAppend(zeros, u);
    if z == 0 {
      assert zeros + u == u;
    } else {
      assert (zeros + u)[0] == '0';
    }
  }

  lemma {:induction false} ZerosDecimal(z: nat)
    ensures DecimalChars(Repeat('0', z))
  {
    if z > 0 {
      ZerosDecimal(z - 1);
      assert Repeat('0', z)[1..] == Repeat('0', z - 1);
    }
  }

  lemma {:induction false} DecimalCharsAppend(a: string, b: string)
    requires DecimalChars(a) && DecimalChars(b)
    ensures DecimalChars(a + b)
  {
    if a == [] {
      assert a + b == b;
    } else {
      assert (a + b)[1..] == a[1..] + b;
      DecimalCharsAppend(a[1..], b);
    }
  }

  /** A value that is already a whole number of `10^-d` units is its own rounding. */
  lemma RoundedOfUnits(k: nat, d: nat)
    ensures Rounded(Units(k, d), d) == Units(k, d)
  {
    var p := Pow10(d);
    var q := p as real;
    assert Units(k, d) == k as real / q;
    assert k as real / q * q == k as real;
    assert Scale(Units(k, d), p) == k as real;
    assert RoundHalfUp(k as real) == k;
  }

  /** Rounding to `d` places moves a value by at most half a unit of the last place. */
  lemma RoundedBound(a: real, d: nat)
    requires a >= 0.0
    ensures a - 0.5 / Pow10(d) as real <= Rounded(a, d) <= a + 0.5 / Pow10(d) as real
  {
    var y := Scale(a, Pow10(d));
    var n := RoundHalfUp(y);
    RoundHalfUpBound(y);
    RoundedOf(a, d, y, n);
    HalfUnitBound(a, Pow10(d) as real, y, n as real);
  }

  lemma RoundHalfUpBound(y: real)
    requires y >= 0.0
    ensures y - 0.5 <= RoundHalfUp(y) as real <= y + 0.5
  {
  }

  lemma RoundedOf(a: real, d: nat, y: real, n: nat)
    requires a >= 0.0 && y == Scale(a, Pow10(d)) && n == RoundHalfUp(y)
    ensures y == a * Pow10(d) as real
    ensures Rounded(a, d) == n as real / Pow10(d) as real
  {
  }

  lemma HalfUnitBound(a: real, q: real, y: real, n: real)
    requires q >= 1.0 && y == a * q && y - 0.5 <= n <= y + 0.5
    ensures a - 0.5 / q <= n / q <= a + 0.5 / q
  {
    assert (y - 0.5) / q == a - 0.5 / q;
    assert (y + 0.5) / q == a + 0.5 / q;
    DivideMonotone(y - 0.5, n, q);
    DivideMonotone(n, y + 0.5, q);
  }

  lemma DivideMonotone(u: real, v: real, q: real)
    requires u <= v && q > 0.0
    ensures u / q <= v / q
  {
  }

  /** `Number(x.toFixed(d))` (d at least 1) is the sign of `x` times its magnitude rounded to `d` places. */
  lemma ToFixedText(x: real, d: nat)
    requires d >= 1
    ensures JsNumber(ToFixed(x, d)) == Some(if x < 0.0 then -Rounded(-x, d) else Rounded(x, d))
  {
    if x < 0.0 {
      ToFixedNegative(x, d, ToFixed(x, d));
    } else {
      ToFixedNonNegative(x, d, ToFixed(x, d));
    }
  }

  lemma ToFixedNegative(x: real, d: nat, t: string)
    requires d >= 1 && x < 0.0 && t == ToFixed(x, d)
    ensures JsNumber(t) == Some(-Rounded(-x, d))
  {
    var u := FixedUnsigned(-x, d);
    NegativeFixedText(x, d, t, u);
    FixedUnsignedRead(-x, d, u, Rounded(-x, d));
    NegatedReads(u, t, Rounded(-x, d));
  }

  /** Digits and points, starting with a digit: the unsigned text `toFixed` prints. */
  predicate DecimalShape(u: string) {
    u != [] && IsDigit(u[0]) && DecimalChars(u)
  }

  /** Every character is a digit or a point. */
  predicate DecimalChars(s: string) {
    s == [] || ((IsDigit(s[0]) || s[0] == '.') && DecimalChars(s[1..]))
  }

  lemma {:induction false} DecimalCharsOf(s: string)
    requires forall i :: 0 <= i < |s| ==> IsDigit(s[i]) || s[i] == '.'
    ensures DecimalChars(s)
  {
    if s != [] {
      assert forall i :: 0 <= i < |s| - 1 ==> s[1..][i] == s[i + 1];
      DecimalCharsOf(s[1..]);
    }
  }

  lemma {:induction false} DecimalCharsAt(s: string)
    requires DecimalChars(s)
    ensures forall i :: 0 <= i < |s| ==> IsDigit(s[i]) || s[i] == '.'
  {
    if s != [] {
      DecimalCharsAt(s[1..]);
      assert forall i :: 1 <= i < |s| ==> s[i] == s[1..][i - 1];
    }
  }

  lemma NegatedReads(u: string, t: string, v: real)
    requires DecimalShape(u)
    requires ParseUnsigned(u) == Some(v)
    requires t == "-" + u
    ensures JsNumber(t) == Some(-v)
  {
    DecimalCharsAt(u);
    assert t[0] == '-' && t[1..] == u;
    assert NoSpace(t) by {
      forall i | 0 <= i < |t| ensures !IsSpace(t[i]) {
        if i > 0 { assert t[i] == u[i - 1]; }
      }
    }
    TrimOfNoSpace(t);
    JsNumberOfMinus(t, v);
  }

  lemma NegativeFixedText(x: real, d: nat, t: string, u: string)
    requires x < 0.0 && t == ToFixed(x, d) && u == FixedUnsigned(-x, d)
    ensures t == "-" + u
  {
  }

  /** The unsigned text of `a` to `d` places reads back as `a` rounded to `d` places. */
  lemma FixedUnsignedRead(a: real, d: nat, u: string, v: real)
    requires d >= 1 && a >= 0.0 && u == FixedUnsigned(a, d) && v == Rounded(a, d)
    ensures DecimalShape(u) && ParseUnsigned(u) == Some(v)
  {
    var n := RoundHalfUp(Scale(a, Pow10(d)));
    FixedUnsignedValue(n, d, u);
  }

  lemma ToFixedNonNegative(x: real, d: nat, t: string)
    requires d >= 1 && x >= 0.0 && t == ToFixed(x, d)
    ensures JsNumber(t) == Some(Rounded(x, d))
  {
    var n := RoundHalfUp(Scale(x, Pow10(d)));
    FixedUnsignedValue(n, d, t);
    assert Rounded(x, d) == Units(n, d);
    JsNumberOfUnsigned(t);
  }

  lemma FixedUnsignedValue(n: nat, d: nat, u: string)
    requires d >= 1 && u == ScaledText(n, d)
    ensures DecimalShape(u) && ParseUnsigned(u) == Some(Units(n, d))
  {
    ScaledTextValue(n, d);
    ScaledTextDecimal(n, d, u);
  }

  /** `Number(x.toFixed(d))` (d at least 1) is within half a unit of the last place of `x`. */
  lemma ToFixedValue(x: real, d: nat)
    requires d >= 1
    ensures JsNumber(ToFixed(x, d)).Some?
    ensures x - 0.5 / Pow10(d) as real <= JsNumber(ToFixed(x, d)).value <= x + 0.5 / Pow10(d) as real
  {
    ToFixedText(x, d);
    RoundedBound(if x < 0.0 then -x else x, d);
  }

  /** An unsigned literal reads as its unsigned value. */
  lemma JsNumberOfUnsigned(u: string)
    requires DecimalShape(u)
    ensures JsNumber(u) == ParseUnsigned(u)
  {
    DecimalCharsAt(u);
    assert NoSpace(u);
    TrimOfNoSpace(u);
  }

  /** `t` is `u` behind a minus sign. */
  lemma JsNumberOfNegated(u: string, t: string)
    requires DecimalShape(u) && ParseUnsigned(u).Some?
    requires t != [] && t[0] == '-' && t[1..] == u
    ensures JsNumber(t) == Some(-ParseUnsigned(u).value)
  {
    assert t == "-" + u;
    NegatedReads(u, t, ParseUnsigned(u).value);
  }

  /** A trimmed text that starts with a minus sign reads as the negated value of the rest. */
  lemma JsNumberOfMinus(t: string, v: real)
    requires Trim(t) == t && t != [] && t[0] == '-'
    requires ParseUnsigned(t[1..]) == Some(v)
    ensures JsNumber(t) == Some(-v)
  {
  }
}
