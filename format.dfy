/**
 * Display formatting of session types, pit-stop durations and lap times (src/lib/format.ts).
 */
module Format {
  import opened Wrappers
  import opened JsText
  import opened JsValues
  import opened Lists

  // ---------------------------------------------------------------------------
  // formatSessionType
  // ---------------------------------------------------------------------------

  /** `value.charAt(0).toUpperCase() + value.slice(1)`. */
  function FormatSessionType(value: string): (r: string)
    ensures |r| == |value|
    ensures value != [] ==> r[0] == UpperChar(value[0]) && r[1..] == value[1..]
  {
    if value == [] then "" else [UpperChar(value[0])] + value[1..]
  }

  /** Formatting a formatted session type changes nothing. */
  lemma FormatSessionTypeIdempotent(value: string)
    ensures FormatSessionType(FormatSessionType(value)) == FormatSessionType(value)
  {
    if value != [] {
      var c := value[0];
      assert UpperChar(UpperChar(c)) == UpperChar(c);
    }
  }

  // ---------------------------------------------------------------------------
  // formatPitDuration
  // ---------------------------------------------------------------------------

  /** `n.toFixed(digits)` for any number: NaN and the infinities print as `String(n)`. */
  function FixedString(n: Number, digits: nat): string {
    match n
    case Finite(x) => ToFixed(x, digits)
    case _ => NumberString(n)
  }

  /** `s[i..k]` is all zeros. */
  predicate ZerosBetween(s: string, i: int, k: int)
    requires 0 <= i <= k <= |s|
  {
    forall j :: i <= j < k ==> s[j] == '0'
  }

  /** `s[i..k]` is all digits. */
  predicate DigitsBetween(s: string, i: int, k: int)
    requires 0 <= i <= k <= |s|
  {
    forall j :: i <= j < k ==> IsDigit(s[j])
  }

  /** The length of the run of zeros that ends `s[..k]`. */
  function ZerosBefore(s: string, k: nat): (z: nat)
    requires k <= |s|
    ensures z <= k && ZerosBetween(s, k - z, k)
    ensures z < k ==> s[k - z - 1] != '0'
  {
    if k == 0 || s[k - 1] != '0' then 0 else 1 + ZerosBefore(s, k - 1)
  }

  /** The length of the run of digits that ends `s[..k]`. */
  function DigitsBefore(s: string, k: nat): (n: nat)
    requires k <= |s|
    ensures n <= k && DigitsBetween(s, k - n, k)
    ensures n < k ==> !IsDigit(s[k - n - 1])
  {
    if k == 0 || !IsDigit(s[k - 1]) then 0 else 1 + DigitsBefore(s, k - 1)
  }

  /** A non-zero character followed by nothing but zeros up to `k` is where the zero run starts. */
  lemma ZerosBeforeAfter(s: string, p: int, k: nat)
    requires 0 <= p < k <= |s| && s[p] != '0' && ZerosBetween(s, p + 1, k)
    ensures ZerosBefore(s, k) == k - p - 1
  {
  }

  /** A non-digit followed by nothing but digits up to `k` is where the digit run starts. */
  lemma DigitsBeforeAfter(s: string, p: int, k: nat)
    requires 0 <= p < k <= |s| && !IsDigit(s[p]) && DigitsBetween(s, p + 1, k)
    ensures DigitsBefore(s, k) == k - p - 1
  {
  }

  /** `s.replace(/\.0+$/, "")`. */
  function DropPointZeros(s: string): string {
    var z := ZerosBefore(s, |s|);
    if 1 <= z < |s| && s[|s| - z - 1] == '.' then s[..|s| - z - 1] else s
  }

  /**
   * What the pattern `\.0+$` means: wherever a point is followed by one or more zeros and
   * nothing else, the text is cut at the point; and the text changes only at such a point.
   */
  lemma DropPointZerosMatch(s: string)
    ensures forall p :: 0 <= p < |s| - 1 && s[p] == '.' && ZerosBetween(s, p + 1, |s|) ==> DropPointZeros(s) == s[..p]
    ensures DropPointZeros(s) != s ==>
      var r := DropPointZeros(s);
      |r| < |s| - 1 && r == s[..|r|] && s[|r|] == '.' && ZerosBetween(s, |r| + 1, |s|)
  {
    forall p | 0 <= p < |s| - 1 && s[p] == '.' && ZerosBetween(s, p + 1, |s|)
      ensures DropPointZeros(s) == s[..p]
    {
      ZerosBeforeAfter(s, p, |s|);
    }
  }

  /** `s.replace(/(\.\d*[1-9])0+$/, "$1")`. */
  function DropTrailingZeros(s: string): string {
    var z := ZerosBefore(s, |s|);
    if 1 <= z < |s| && '1' <= s[|s| - z - 1] <= '9' then
      var q := |s| - z - 1;
      var n := DigitsBefore(s, q + 1);
      if n <= q && s[q - n] == '.' then s[..q + 1] else s
    else s
  }

  /**
   * What the pattern `(\.\d*[1-9])0+$` means: wherever a point, some digits and a non-zero
   * digit are followed by one or more zeros and nothing else, the zeros are dropped; and the
   * text changes only by dropping such zeros after a point and digits.
   */
  lemma DropTrailingZerosMatch(s: string)
    ensures forall p, q ::
      (0 <= p < q < |s| - 1 && s[p] == '.' && DigitsBetween(s, p + 1, q) && '1' <= s[q] <= '9' && ZerosBetween(s, q + 1, |s|))
      ==> DropTrailingZeros(s) == s[..q + 1]
    ensures DropTrailingZeros(s) != s ==>
      var r := DropTrailingZeros(s);
      1 <= |r| < |s| && r == s[..|r|] && ZerosBetween(s, |r|, |s|) && '1' <= r[|r| - 1] <= '9'
      && exists p :: 0 <= p < |r| - 1 && r[p] == '.' && DigitsBetween(r, p + 1, |r|)
  {
    forall p, q | 0 <= p < q < |s| - 1 && s[p] == '.' && DigitsBetween(s, p + 1, q)
      && '1' <= s[q] <= '9' && ZerosBetween(s, q + 1, |s|)
      ensures DropTrailingZeros(s) == s[..q + 1]
    {
      DropTrailingZerosAt(s, p, q);
    }
    if DropTrailingZeros(s) != s {
      DropTrailingZerosChanged(s, DropTrailingZeros(s));
    }
  }

  lemma DropTrailingZerosAt(s: string, p: int, q: int)
    requires 0 <= p < q < |s| - 1 && s[p] == '.' && DigitsBetween(s, p + 1, q)
    requires '1' <= s[q] <= '9' && ZerosBetween(s, q + 1, |s|)
    ensures DropTrailingZeros(s) == s[..q + 1]
  {
    ZerosBeforeAfter(s, q, |s|);
    DigitsBeforeAfter(s, p, q + 1);
  }

  lemma DropTrailingZerosChanged(s: string, r: string)
    requires r == DropTrailingZeros(s) && r != s
    ensures 1 <= |r| < |s| && r == s[..|r|] && ZerosBetween(s, |r|, |s|) && '1' <= r[|r| - 1] <= '9'
    ensures exists p :: 0 <= p < |r| - 1 && r[p] == '.' && DigitsBetween(r, p + 1, |r|)
  {
    var z := ZerosBefore(s, |s|);
    var q := |s| - z - 1;
    var n := DigitsBefore(s, q + 1);
    assert r == s[..q + 1];
    assert r[q - n] == '.' && DigitsBetween(r, q - n + 1, |r|);
  }

  /** `formatPitDuration`: two decimals, then zeros at the end of the fraction dropped, then `s`. */
  function FormatPitDuration(seconds: Number): string {
    DropTrailingZeros(DropPointZeros(FixedString(seconds, 2))) + "s"
  }

  /** The fraction `formatPitDuration` keeps of `f` hundredths: none, one digit, or two. */
  function PitFraction(f: nat): string
    requires f < 100
  {
    if f == 0 then ""
    else if f % 10 == 0 then "." + [DigitChar(f / 10)]
    else "." + [DigitChar(f / 10), DigitChar(f % 10)]
  }

  /**
   * The text of a finite duration: its sign, its whole seconds and its hundredths rounded
   * half up, without zeros at the end of the fraction and without a bare point.
   */
  lemma PitDurationOfFinite(x: real)
    ensures
      var n := RoundHalfUp(Scale(if x < 0.0 then -x else x, 100));
      FormatPitDuration(Finite(x)) == (if x < 0.0 then "-" else "") + NatText(n / 100) + PitFraction(n % 100) + "s"
  {
    var n := RoundHalfUp(Scale(if x < 0.0 then -x else x, 100));
    var f := n % 100;
    var head := (if x < 0.0 then "-" else "") + NatText(n / 100);
    var digits := [DigitChar(f / 10), DigitChar(f % 10)];
    FixedHundredths(x, n, head, digits);
    assert '.' !in head by {
      assert forall i :: 0 <= i < |head| ==> head[i] == '-' || IsDigit(head[i]);
    }
    PitOfHundredths(head, f, digits);
  }

  /** Dropping the zeros from `head.dd` leaves `head` and the fraction `formatPitDuration` keeps. */
  lemma PitOfHundredths(head: string, f: nat, digits: string)
    requires '.' !in head && f < 100 && digits == [DigitChar(f / 10), DigitChar(f % 10)]
    ensures DropTrailingZeros(DropPointZeros(head + "." + digits)) == head + PitFraction(f)
  {
    if f == 0 {
      assert head + "." + digits == head + ".00";
      PitWhole(head);
    } else if f % 10 == 0 {
      assert digits == [digits[0], '0'];
      PitTenths(head, digits[0]);
      AppendAssoc(head, ".", [digits[0]]);
    } else {
      var s := head + "." + digits;
      assert s[|s| - 1] == DigitChar(f % 10);
      PitHundredths(s);
      AppendAssoc(head, ".", digits);
    }
  }

  /**
   * Dropping zeros changes the text of a finite duration but not the number it reads as:
   * the text before `s` reads as `Number(x.toFixed(2))`.
   */
  lemma PitDurationValue(x: real)
    ensures var r := FormatPitDuration(Finite(x));
      r != [] && r[|r| - 1] == 's' && JsNumber(r[..|r| - 1]) == JsNumber(ToFixed(x, 2))
  {
    var n := RoundHalfUp(Scale(if x < 0.0 then -x else x, 100));
    var f := n % 100;
    var w := NatText(n / 100);
    var head := (if x < 0.0 then "-" else "") + w;
    var digits := [DigitChar(f / 10), DigitChar(f % 10)];
    FixedHundredths(x, n, head, digits);
    assert '.' !in head by {
      assert forall i :: 0 <= i < |head| ==> head[i] == '-' || IsDigit(head[i]);
    }
    PitOfHundredths(head, f, digits);
    var r := FormatPitDuration(Finite(x));
    var trimmed := head + PitFraction(f);
    assert r == trimmed + "s";
    assert r[..|r| - 1] == trimmed;
    TrimmedSameValue(x < 0.0, w, f, head, trimmed, ToFixed(x, 2));
  }

  /** `head` followed by the kept fraction reads as `head` followed by both places. */
  lemma TrimmedSameValue(negative: bool, w: string, f: nat, head: string, trimmed: string, fixed: string)
    requires w != [] && AllDigits(w) && f < 100
    requires head == (if negative then "-" else "") + w
    requires trimmed == head + PitFraction(f)
    requires fixed == head + "." + [DigitChar(f / 10), DigitChar(f % 10)]
    ensures JsNumber(trimmed) == JsNumber(fixed)
  {
    var two := "." + [DigitChar(f / 10), DigitChar(f % 10)];
    AppendAssoc(head, ".", [DigitChar(f / 10), DigitChar(f % 10)]);
    PitFractionValue(w, f, two);
    var u1, u2 := w + PitFraction(f), w + two;
    SignSplit(negative, w, PitFraction(f), head, trimmed);
    SignSplit(negative, w, two, head, fixed);
    SameValueSigned(negative, u1, u2, trimmed, fixed);
  }

  /** Two texts with the same sign in front of unsigned literals of the same value read the same. */
  lemma SameValueSigned(negative: bool, u1: string, u2: string, t1: string, t2: string)
    requires DecimalShape(u1) && DecimalShape(u2)
    requires ParseUnsigned(u1).Some? && ParseUnsigned(u1) == ParseUnsigned(u2)
    requires negative ==> t1 != [] && t1[0] == '-' && t1[1..] == u1 && t2 != [] && t2[0] == '-' && t2[1..] == u2
    requires !negative ==> t1 == u1 && t2 == u2
    ensures JsNumber(t1) == JsNumber(t2)
  {
    if negative {
      JsNumberOfNegated(u1, t1);
      JsNumberOfNegated(u2, t2);
    } else {
      JsNumberOfUnsigned(u1);
      JsNumberOfUnsigned(u2);
    }
  }

  /** A text made of an optional minus sign, `w` and a tail is the sign in front of `w + tail`. */
  lemma SignSplit(negative: bool, w: string, tail: string, head: string, t: string)
    requires head == (if negative then "-" else "") + w && t == head + tail
    ensures negative ==> t != [] && t[0] == '-' && t[1..] == w + tail
    ensures !negative ==> t == w + tail
  {
    if negative {
      AppendAssoc("-", w, tail);
    } else {
      assert head == w;
    }
  }

  /** The kept fraction and the two printed places give the same value. */
  lemma PitFractionValue(w: string, f: nat, two: string)
    requires w != [] && AllDigits(w) && f < 100 && two == "." + [DigitChar(f / 10), DigitChar(f % 10)]
    ensures DecimalShape(w + PitFraction(f)) && DecimalShape(w + two)
    ensures ParseUnsigned(w + PitFraction(f)).Some?
    ensures ParseUnsigned(w + PitFraction(f)) == ParseUnsigned(w + two)
  {
    var c0, c1 := DigitChar(f / 10), DigitChar(f % 10);
    DecimalShapeOf(w, two);
    if f == 0 {
      assert c0 == '0' && c1 == '0';
      PitValueWhole(w, two);
    } else if f % 10 == 0 {
      assert c1 == '0';
      PitValueTenths(w, c0, PitFraction(f), two);
    } else {
      PointDigits(w, [c0, c1], two);
    }
  }

  lemma PitValueWhole(w: string, two: string)
    requires w != [] && AllDigits(w) && two == ".00"
    ensures w + "" == w && DecimalShape(w)
    ensures ParseUnsigned(w).Some? && ParseUnsigned(w) == ParseUnsigned(w + two)
  {
    ParseUnsignedOfDigits(w);
    DecimalCharsOf(w);
    PointDigits(w, "00", two);
    assert DigitsValue("00") == 0 by {
      assert "00"[..1] == "0";
    }
  }

  lemma PitValueTenths(w: string, c: char, one: string, two: string)
    requires w != [] && AllDigits(w) && '1' <= c <= '9' && one == "." + [c] && two == "." + [c, '0']
    ensures DecimalShape(w + one)
    ensures ParseUnsigned(w + one).Some? && ParseUnsigned(w + one) == ParseUnsigned(w + two)
  {
    DecimalShapeOf(w, one);
    PointDigits(w, [c], one);
    PointDigits(w, [c, '0'], two);
    TrailingZeroValue(w, c);
  }

  /** A trailing zero after the point does not change the value. */
  lemma TrailingZeroValue(w: string, c: char)
    requires AllDigits(w) && '0' <= c <= '9'
    ensures DecimalValue(w, [c]) == DecimalValue(w, [c, '0'])
  {
    assert [c, '0'][..1] == [c];
    var d := DigitsValue([c]);
    assert DigitsValue([c, '0']) == d * 10;
    assert Pow10(1) == 10 && Pow10(2) == 100;
    assert (d * 10) as real / 100.0 == d as real / 10.0;
  }

  /** Digits, a point and more digits read as the decimal they spell. */
  lemma PointDigits(w: string, digits: string, tail: string)
    requires w != [] && AllDigits(w) && digits != [] && AllDigits(digits) && tail == "." + digits
    ensures ParseUnsigned(w + tail) == Some(DecimalValue(w, digits))
  {
    AppendAssoc(w, ".", digits);
    ParseUnsignedOfDecimal(w, digits);
  }

  lemma DecimalShapeOf(w: string, tail: string)
    requires w != [] && AllDigits(w)
    requires forall i :: 0 <= i < |tail| ==> IsDigit(tail[i]) || tail[i] == '.'
    ensures DecimalShape(w + tail)
  {
    var u := w + tail;
    assert forall i :: 0 <= i < |u| ==> u[i] == (if i < |w| then w[i] else tail[i - |w|]);
    DecimalCharsOf(u);
  }

  /** `x.toFixed(2)` is the sign, the whole part, a point and two digits of hundredths. */
  lemma FixedHundredths(x: real, n: nat, head: string, digits: string)
    requires n == RoundHalfUp(Scale(if x < 0.0 then -x else x, 100))
    requires head == (if x < 0.0 then "-" else "") + NatText(n / 100)
    requires digits == [DigitChar(n % 100 / 10), DigitChar(n % 100 % 10)]
    ensures FixedString(Finite(x), 2) == head + "." + digits
  {
    assert Pow10(2) == 100;
    HundredthsText(n % 100);
    assert ScaledText(n, 2) == NatText(n / 100) + "." + digits;
  }

  /** Two places of a number of hundredths below 100, with a leading zero when needed. */
  lemma HundredthsText(f: nat)
    requires f < 100
    ensures PadStart(NatText(f), 2, '0') == [DigitChar(f / 10), DigitChar(f % 10)]
  {
    if f >= 10 {
      assert NatText(f) == NatText(f / 10) + [DigitChar(f % 10)];
    }
  }

  /** A text without a point keeps its zeros. */
  lemma NoPointKept(s: string)
    requires '.' !in s
    ensures DropTrailingZeros(s) == s
  {
    if DropTrailingZeros(s) != s {
      DropTrailingZerosChanged(s, DropTrailingZeros(s));
    }
  }

  /** `w.00` loses the point and both zeros. */
  lemma PitWhole(head: string)
    requires '.' !in head
    ensures DropTrailingZeros(DropPointZeros(head + ".00")) == head
  {
    var s := head + ".00";
    DropPointZerosMatch(s);
    assert s[|head|] == '.' && ZerosBetween(s, |head| + 1, |s|);
    assert s[..|head|] == head;
    NoPointKept(head);
  }

  /** `w.d0` with a non-zero `d` loses its last zero only. */
  lemma PitTenths(head: string, c: char)
    requires '.' !in head && '1' <= c <= '9'
    ensures DropTrailingZeros(DropPointZeros(head + "." + [c, '0'])) == head + "." + [c]
  {
    var s := head + "." + [c, '0'];
    assert s[|head|] == '.' && s[|head| + 1] == c;
    assert forall i :: 0 <= i < |head| ==> s[i] == head[i];
    DropPointZerosMatch(s);
    DropTrailingZerosAt(s, |head|, |head| + 1);
    assert s[..|head| + 2] == head + "." + [c];
  }

  /** A text that ends in a non-zero digit is left as it is. */
  lemma PitHundredths(s: string)
    requires s != [] && s[|s| - 1] != '0'
    ensures DropTrailingZeros(DropPointZeros(s)) == s
  {
  }

  /** NaN and the infinities print as their names followed by `s`. */
  lemma PitDurationNotFinite(seconds: Number)
    requires !seconds.Finite?
    ensures FormatPitDuration(seconds) == NumberString(seconds) + "s"
  {
    var t := NumberString(seconds);
    assert t[|t| - 1] != '0';
    PitHundredths(t);
  }

  // ---------------------------------------------------------------------------
  // parseLapTime
  // ---------------------------------------------------------------------------

  /** `Number(parts[i])`, where a part past the end is `undefined` and reads as NaN. */
  function PartNumber(parts: seq<string>, i: nat): (n: Number)
    ensures n.NaN? || n.Finite?
  {
    if i < |parts| then ParseNumber(parts[i]) else NaN
  }

  /**
   * `parseLapTime`: the text before the first colon as minutes and the text between the first
   * and the second colon as seconds; NaN when either does not read as a number.
   */
  function ParseLapTime(lapTime: string): (r: Number)
    ensures r.NaN? || r.Finite?
  {
    var parts := SplitOn(lapTime, ':');
    MinutesAndSeconds(PartNumber(parts, 0), PartNumber(parts, 1))
  }

  /** `minutesNumber * 60 + secondsNumber`, NaN when either is NaN. */
  function MinutesAndSeconds(minutes: Number, seconds: Number): Number
    requires minutes.NaN? || minutes.Finite?
    requires seconds.NaN? || seconds.Finite?
  {
    if minutes.NaN? || seconds.NaN? then NaN else Finite(minutes.value * 60.0 + seconds.value)
  }

  /** Splitting `m:s` on colons, where neither side holds one, gives the two sides. */
  lemma SplitAtColon(minutes: string, seconds: string)
    requires ':' !in minutes && ':' !in seconds
    ensures SplitOn(minutes + ":" + seconds, ':') == [minutes, seconds]
  {
    assert minutes + ":" + seconds == minutes + [':'] + seconds;
    SplitOnAppend(minutes, seconds, ':');
    SplitOnNoSep(seconds, ':');
  }

  /** `m:s` reads as `m * 60 + s`, and as NaN when either side is not a number. */
  lemma ParseLapTimeOfParts(minutes: string, seconds: string)
    requires ':' !in minutes && ':' !in seconds
    ensures ParseLapTime(minutes + ":" + seconds) == MinutesAndSeconds(ParseNumber(minutes), ParseNumber(seconds))
  {
    SplitAtColon(minutes, seconds);
  }

  /** Text without a colon has no seconds part, so it reads as NaN. */
  lemma ParseLapTimeWithoutColon(lapTime: string)
    requires ':' !in lapTime
    ensures ParseLapTime(lapTime).NaN?
  {
    SplitOnNoSep(lapTime, ':');
    NoSecondsPart(SplitOn(lapTime, ':'));
  }

  lemma NoSecondsPart(parts: seq<string>)
    requires |parts| == 1
    ensures MinutesAndSeconds(PartNumber(parts, 0), PartNumber(parts, 1)).NaN?
  {
    assert PartNumber(parts, 1) == NaN;
  }

  // ---------------------------------------------------------------------------
  // formatLapTimeFromSeconds
  // ---------------------------------------------------------------------------

  /** The placeholder the file holds for a missing lap time (an em dash mis-decoded as three characters). */
  const Placeholder: string := "\U{E2}\U{20AC}\U{201D}"

  /** `Math.floor(totalSeconds / 60)`. */
  function LapMinutes(t: real): int {
    (t / 60.0).Floor
  }

  /** `totalSeconds - minutes * 60`: what is left of a whole minute. */
  function LapSeconds(t: real): (s: real)
    ensures 0.0 <= s < 60.0 && LapMinutes(t) as real * 60.0 + s == t
  {
    t - LapMinutes(t) as real * 60.0
  }

  /** `seconds.toFixed(3).padStart(6, "0")`. */
  function SecondsText(seconds: real): string {
    PadStart(ToFixed(seconds, 3), 6, '0')
  }

  /** `formatLapTimeFromSeconds`: `minutes:ss.sss`, or the placeholder for a number that is not finite. */
  function FormatLapTimeFromSeconds(totalSeconds: Number): string {
    match totalSeconds
    case Finite(t) => IntText(LapMinutes(t)) + ":" + SecondsText(LapSeconds(t))
    case _ => Placeholder
  }

  /** The placeholder stands for exactly the numbers that are not finite: every other text has a colon. */
  lemma PlaceholderOnlyForNonFinite(totalSeconds: Number)
    ensures !totalSeconds.Finite? ==> FormatLapTimeFromSeconds(totalSeconds) == Placeholder
    ensures totalSeconds.Finite? ==> ':' in FormatLapTimeFromSeconds(totalSeconds) && FormatLapTimeFromSeconds(totalSeconds) != Placeholder
  {
    if totalSeconds.Finite? {
      var head := IntText(LapMinutes(totalSeconds.value));
      var r := FormatLapTimeFromSeconds(totalSeconds);
      assert r[|head|] == ':';
      assert ':' !in Placeholder;
    }
  }

  /** Zero padding in front of the text of `n` units of `10^-d` keeps its value. */
  lemma PaddedScaledText(padded: string, z: nat, n: nat, d: nat)
    requires d >= 1 && padded == Repeat('0', z) + ScaledText(n, d)
    ensures DecimalShape(padded)
    ensures JsNumber(padded) == Some(Units(n, d))
  {
    PaddedScaledShape(z, n, d);
    PaddedScaledValue(z, n, d);
    JsNumberOfUnsigned(padded);
  }

  lemma PaddedScaledShape(z: nat, n: nat, d: nat)
    ensures DecimalShape(Repeat('0', z) + ScaledText(n, d))
  {
    var u := ScaledText(n, d);
    ScaledTextDecimal(n, d, u);
    ZeroPaddedShape(z, u);
  }

  lemma PaddedScaledValue(z: nat, n: nat, d: nat)
    requires d >= 1
    ensures ParseUnsigned(Repeat('0', z) + ScaledText(n, d)) == Some(Units(n, d))
  {
    var p := Pow10(d);
    DivModBounds(n, p);
    var head := NatText(n / p);
    var tail := PadStart(NatText(n % p), d, '0');
    var zeros := Repeat('0', z);
    assert ScaledText(n, d) == head + "." + tail;
    ScaledTextValue(n, d);
    NatTextLength(n % p, d);
    DigitsValueLeadingZeros(d - |NatText(n % p)|, NatText(n % p));
    DigitsValueLeadingZeros(z, head);
    ParseUnsignedOfDecimal(head, tail);
    ParseUnsignedOfDecimal(zeros + head, tail);
    AppendAssoc(zeros, head, "." + tail);
    AppendAssoc(head, ".", tail);
    AppendAssoc(zeros + head, ".", tail);
    assert zeros + ScaledText(n, d) == (zeros + head) + "." + tail;
    assert DecimalValue(zeros + head, tail) == DecimalValue(head, tail);
  }

  /** `Math.floor(k / 60000)` for a whole number of milliseconds. */
  lemma MinutesOfMillis(k: nat)
    ensures k / 60000 >= 0 && k % 60000 >= 0
    ensures LapMinutes(k as real / 1000.0) == k / 60000
    ensures LapSeconds(k as real / 1000.0) == (k % 60000) as real / 1000.0
  {
    var m, rem := k / 60000, k % 60000;
    assert k == m * 60000 + rem && 0 <= rem < 60000;
    var t := k as real / 1000.0;
    assert t / 60.0 == k as real / 60000.0;
    assert (m * 60000) as real <= k as real < ((m + 1) * 60000) as real;
    assert m as real <= t / 60.0 < (m + 1) as real;
  }

  /** `toFixed(3)` of a whole number of milliseconds below a minute is exact. */
  lemma FixedOfMillis(rem: nat)
    ensures ToFixed(rem as real / 1000.0, 3) == ScaledText(rem, 3)
  {
    assert Pow10(3) == 1000;
    var x := rem as real / 1000.0;
    assert Scale(x, 1000) == rem as real;
    assert RoundHalfUp(rem as real) == rem;
  }

  /** The seconds text of a whole number of milliseconds has no colon and reads back exactly. */
  lemma SecondsTextOfMillis(rem: nat, padded: string)
    requires padded == SecondsText(rem as real / 1000.0)
    ensures ':' !in padded
    ensures ParseNumber(padded) == Finite(rem as real / 1000.0)
  {
    FixedOfMillis(rem);
    PaddedMillis(rem, padded);
  }

  lemma PaddedMillis(rem: nat, padded: string)
    requires padded == PadStart(ScaledText(rem, 3), 6, '0')
    ensures ':' !in padded
    ensures ParseNumber(padded) == Finite(rem as real / 1000.0)
  {
    var u := ScaledText(rem, 3);
    var z := |padded| - |u|;
    assert padded == Repeat('0', z) + u;
    PaddedScaledShape(z, rem, 3);
    assert ':' !in padded by {
      DecimalCharsAt(padded);
    }
    PaddedMillisValue(rem, z, padded);
  }

  lemma PaddedMillisValue(rem: nat, z: nat, padded: string)
    requires padded == Repeat('0', z) + ScaledText(rem, 3)
    ensures ParseNumber(padded) == Finite(rem as real / 1000.0)
  {
    PaddedScaledText(padded, z, rem, 3);
    UnitsOfMillis(rem);
  }

  lemma UnitsOfMillis(rem: nat)
    ensures Units(rem, 3) == rem as real / 1000.0
  {
    assert Pow10(3) == 1000;
  }

  /** The text of a whole number of minutes has no colon and reads back exactly. */
  lemma MinutesTextOfInt(m: int)
    ensures ':' !in IntText(m)
    ensures ParseNumber(IntText(m)) == Finite(m as real)
  {
    var t := IntText(m);
    if m < 0 {
      assert forall i :: 0 < i < |t| ==> t[i] == NatText(-m)[i - 1];
    }
    JsNumberOfIntText(m);
  }

  /**
   * A lap time of a whole number of milliseconds, not negative, reads back from its text
   * unchanged: `parseLapTime(formatLapTimeFromSeconds(t)) == t`.
   */
  lemma LapTimeRoundTrip(t: real, k: nat)
    requires t == k as real / 1000.0
    ensures ParseLapTime(FormatLapTimeFromSeconds(Finite(t))) == Finite(t)
  {
    MinutesOfMillis(k);
    FormatReadsBack(t, k / 60000, k % 60000);
  }

  /** A time whose seconds part is a whole number of milliseconds reads back from its text. */
  lemma FormatReadsBack(t: real, m: nat, rem: nat)
    requires LapMinutes(t) == m && LapSeconds(t) == rem as real / 1000.0
    ensures ParseLapTime(FormatLapTimeFromSeconds(Finite(t))) == Finite(t)
  {
    var head, padded := FormatParts(t, m, rem);
    NumbersReadBack(FormatLapTimeFromSeconds(Finite(t)), head, padded, m as real, rem as real / 1000.0, t);
  }

  /** The text of the time is its minutes, a colon and its padded seconds, each read back as a number. */
  lemma FormatParts(t: real, m: int, rem: nat) returns (head: string, padded: string)
    requires LapMinutes(t) == m && LapSeconds(t) == rem as real / 1000.0
    ensures FormatLapTimeFromSeconds(Finite(t)) == head + ":" + padded
    ensures ':' !in head && ParseNumber(head) == Finite(m as real)
    ensures ':' !in padded && ParseNumber(padded) == Finite(rem as real / 1000.0)
  {
    head, padded := IntText(m), SecondsText(rem as real / 1000.0);
    FormatOfParts(t, m, rem as real / 1000.0, head, padded);
    MillisPartsRead(m, rem, head, padded);
  }

  lemma FormatOfParts(t: real, m: int, s: real, head: string, padded: string)
    requires LapMinutes(t) == m && LapSeconds(t) == s && head == IntText(m) && padded == SecondsText(s)
    ensures FormatLapTimeFromSeconds(Finite(t)) == head + ":" + padded
  {
  }

  /** The minutes and the padded seconds each read back as a number, and neither holds a colon. */
  lemma MillisPartsRead(m: int, rem: nat, head: string, padded: string)
    requires head == IntText(m) && padded == SecondsText(rem as real / 1000.0)
    ensures ':' !in head && ParseNumber(head) == Finite(m as real)
    ensures ':' !in padded && ParseNumber(padded) == Finite(rem as real / 1000.0)
  {
    SecondsTextOfMillis(rem, padded);
    MinutesTextOfInt(m);
  }

  /** `m:s` where both sides read as numbers reads as `m * 60 + s`. */
  lemma NumbersReadBack(text: string, minutes: string, seconds: string, m: real, s: real, v: real)
    requires ':' !in minutes && ':' !in seconds
    requires text == minutes + ":" + seconds
    requires ParseNumber(minutes) == Finite(m) && ParseNumber(seconds) == Finite(s) && m * 60.0 + s == v
    ensures ParseLapTime(text) == Finite(v)
  {
    ParseLapTimeOfParts(minutes, seconds);
    FiniteParts(minutes, seconds, m, s, v);
  }

  lemma FiniteParts(minutes: string, seconds: string, m: real, s: real, v: real)
    requires ParseNumber(minutes) == Finite(m) && ParseNumber(seconds) == Finite(s) && m * 60.0 + s == v
    ensures MinutesAndSeconds(ParseNumber(minutes), ParseNumber(seconds)) == Finite(v)
  {
  }

  // ---------------------------------------------------------------------------
  // Seconds that round up to a whole minute
  // ---------------------------------------------------------------------------

  /**
   * As written, the seconds are split off before they are rounded to milliseconds, so a time
   * just short of a whole minute prints the rounded-up seconds as `60.000`.
   */
  lemma SixtySecondsAsWritten()
    ensures FormatLapTimeFromSeconds(Finite(59.9996)) == "0:60.000"
  {
    SixtySecondsFixed();
    SixtySecondsLiteral();
  }

  /** The seconds field of that text reads as 60. */
  lemma SixtySecondsFieldAsWritten()
    ensures ParseNumber(SplitOn(FormatLapTimeFromSeconds(Finite(59.9996)), ':')[1]) == Finite(60.0)
  {
    SixtySecondsFixed();
    SixtySecondsParts(FormatLapTimeFromSeconds(Finite(59.9996)), PadStart(ScaledText(60000, 3), 6, '0'));
  }

  lemma SixtySecondsFixed()
    ensures IntText(LapMinutes(59.9996)) == "0" && LapSeconds(59.9996) == 59.9996
    ensures SecondsText(59.9996) == PadStart(ScaledText(60000, 3), 6, '0')
  {
    assert Pow10(3) == 1000;
    assert RoundHalfUp(Scale(59.9996, 1000)) == 60000;
  }

  lemma SixtySecondsLiteral()
    ensures PadStart(ScaledText(60000, 3), 6, '0') == "60.000"
  {
    assert Pow10(3) == 1000;
    assert NatText(60) == "60" by {
      assert NatText(6) == "6";
    }
    assert PadStart(NatText(0), 3, '0') == "000";
    assert ScaledText(60000, 3) == "60.000";
  }

  lemma SixtySecondsParts(text: string, padded: string)
    requires padded == PadStart(ScaledText(60000, 3), 6, '0')
    requires text == "0" + ":" + padded
    ensures SplitOn(text, ':') == ["0", padded] && ParseNumber(padded) == Finite(60.0)
  {
    PaddedMillis(60000, padded);
    SplitAtColon("0", padded);
  }

  /** Whole milliseconds of a time, rounded half up: the precision the lap time is printed with. */
  function Millis(t: real): int {
    (t * 1000.0 + 0.5).Floor
  }

  /** `k` milliseconds as whole minutes, a colon and the seconds left, padded to `ss.sss`. */
  function MillisText(k: int): string {
    IntText(k / 60000) + ":" + SecondsText((k % 60000) as real / 1000.0)
  }

  /**
   * `formatLapTimeFromSeconds` as evidently intended: round to whole milliseconds first, then
   * split into minutes and the milliseconds left, so the seconds always stay below 60.
   */
  function FormatLapTimeRounded(totalSeconds: Number): string {
    match totalSeconds
    case Finite(t) => MillisText(Millis(t))
    case _ => Placeholder
  }

  /** The text has one colon, and the seconds after it read as a number in [0, 60). */
  predicate SecondsFieldBelowMinute(text: string) {
    var parts := SplitOn(text, ':');
    |parts| == 2 && ParseNumber(parts[1]).Finite? && 0.0 <= ParseNumber(parts[1]).value < 60.0
  }

  /**
   * The corrected text of every finite time has a seconds field that reads below 60, and the
   * whole text reads back as the time rounded to milliseconds.
   */
  lemma LapTimeRoundedReadsBack(t: real)
    ensures SecondsFieldBelowMinute(FormatLapTimeRounded(Finite(t)))
    ensures ParseLapTime(FormatLapTimeRounded(Finite(t))) == Finite(Millis(t) as real / 1000.0)
  {
    var k := Millis(t);
    RoundedOfMillis(t, k);
    MillisTextReadsBack(k, k as real / 1000.0);
  }

  /** The text of `k` milliseconds has a seconds field below 60 and reads back as `k / 1000`. */
  lemma MillisTextReadsBack(k: int, v: real)
    requires v == k as real / 1000.0
    ensures SecondsFieldBelowMinute(MillisText(k))
    ensures ParseLapTime(MillisText(k)) == Finite(v)
  {
    var minutes, rem := k / 60000, k % 60000;
    MillisOfParts(k, minutes, rem);
    var s := rem as real / 1000.0;
    var head, padded := IntText(minutes), SecondsText(s);
    MillisTextOfParts(k, minutes, s, head, padded);
    MillisPartsRead(minutes, rem, head, padded);
    var text := MillisText(k);
    assert text == head + ":" + padded;
    ColonTextFacts(text, head, padded, minutes as real, s, v);
  }

  /** `m:s` with seconds below 60 splits into its two numbers and reads back as `m * 60 + s`. */
  lemma ColonTextFacts(r: string, head: string, padded: string, m: real, s: real, v: real)
    requires r == head + ":" + padded && ':' !in head && ':' !in padded
    requires ParseNumber(head) == Finite(m) && ParseNumber(padded) == Finite(s)
    requires m * 60.0 + s == v && 0.0 <= s < 60.0
    ensures SecondsFieldBelowMinute(r)
    ensures ParseLapTime(r) == Finite(v)
  {
    ColonSecondsField(r, head, padded, s);
    NumbersReadBack(r, head, padded, m, s, v);
  }

  /** `m:s` with seconds below 60 has a seconds field that reads below 60. */
  lemma ColonSecondsField(r: string, head: string, padded: string, s: real)
    requires r == head + ":" + padded && ':' !in head && ':' !in padded
    requires ParseNumber(padded) == Finite(s) && 0.0 <= s < 60.0
    ensures SecondsFieldBelowMinute(r)
  {
    SplitAtColon(head, padded);
    var parts := SplitOn(r, ':');
    assert parts == [head, padded];
    assert |parts| == 2 && parts[1] == padded;
    assert ParseNumber(parts[1]) == Finite(s);
  }

  lemma MillisTextOfParts(k: int, m: int, s: real, head: string, padded: string)
    requires m == k / 60000 && s == (k % 60000) as real / 1000.0 && head == IntText(m) && padded == SecondsText(s)
    ensures MillisText(k) == head + ":" + padded
  {
  }

  lemma MillisOfParts(k: int, m: int, rem: int)
    requires m == k / 60000 && rem == k % 60000
    ensures m as real * 60.0 + rem as real / 1000.0 == k as real / 1000.0
    ensures 0.0 <= rem as real / 1000.0 < 60.0
  {
    assert k == m * 60000 + rem;
    assert k as real == m as real * 60000.0 + rem as real;
  }

  /** For a time that is already a whole number of milliseconds, the correction prints the same text. */
  lemma LapTimeRoundedAgrees(t: real, k: nat)
    requires t == k as real / 1000.0
    ensures FormatLapTimeRounded(Finite(t)) == FormatLapTimeFromSeconds(Finite(t))
  {
    MinutesOfMillis(k);
    MillisOfWhole(t, k);
    var m, seconds := k / 60000, (k % 60000) as real / 1000.0;
    var head, padded := IntText(m), SecondsText(seconds);
    FormatOfParts(t, m, seconds, head, padded);
    MillisTextOfParts(k, m, seconds, head, padded);
    RoundedOfMillis(t, k);
  }

  lemma RoundedOfMillis(t: real, k: int)
    requires Millis(t) == k
    ensures FormatLapTimeRounded(Finite(t)) == MillisText(k)
  {
  }

  lemma MillisOfWhole(t: real, k: int)
    requires t == k as real / 1000.0
    ensures Millis(t) == k
  {
    assert t * 1000.0 == k as real;
  }
}
