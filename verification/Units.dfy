/** Frontend/src/chain/units.js: SOL amounts between text and lamports. */
module Units {

  const LAMPORTS_PER_SOL: nat := 1_000_000_000

  datatype Parsed = Lamports(value: nat) | Malformed | TooManyDecimals

  // ----- decimal text -----

  predicate IsDigit(c: char) { '0' <= c <= '9' }

  predicate AllDigits(s: string) { forall i :: 0 <= i < |s| ==> IsDigit(s[i]) }

  function DigitChar(d: nat): char
    requires d < 10
  {
    '0' + d as char
  }

  /** `BigInt(text)` for a string of digits; the empty string is zero. */
  function Value(s: string): nat
    requires AllDigits(s)
  {
    if s == "" then 0 else 10 * Value(s[..|s| - 1]) + (s[|s| - 1] as int - '0' as int)
  }

  /** `BigInt.prototype.toString`. */
  function Digits(n: nat): string {
    if n < 10 then [DigitChar(n)] else Digits(n / 10) + [DigitChar(n % 10)]
  }

  function Zeros(n: nat): string { seq(n, _ => '0') }

  /** `padStart(9, '0')`. */
  function PadStart(s: string): string { if |s| < 9 then Zeros(9 - |s|) + s else s }

  /** `replace(/0+$/, '')`. */
  function StripZeros(s: string): string {
    if s != "" && s[|s| - 1] == '0' then StripZeros(s[..|s| - 1]) else s
  }

  predicate IsSpace(c: char) { c == ' ' || c == '\t' || c == '\n' || c == '\r' }

  /** `trim`. */
  function Trim(s: string): string
    decreases |s|
  {
    if s == "" then s
    else if IsSpace(s[0]) then Trim(s[1..])
    else if IsSpace(s[|s| - 1]) then Trim(s[..|s| - 1])
    else s
  }

  function DotIndex(s: string): nat {
    if s == "" || s[0] == '.' then 0 else 1 + DotIndex(s[1..])
  }

  // ----- the two conversions -----

  /** `(fraction + '000000000').slice(0, 9)`. */
  function NineDecimals(fraction: string): string { (fraction + Zeros(9))[..9] }

  function ParseTrimmed(text: string): Parsed {
    var at := DotIndex(text);
    DotIndexBound(text);
    ParseSplit(text[..at], if at < |text| then text[at + 1..] else "")
  }

  /** The checks and the sum, after `split('.')`. */
  function ParseSplit(whole: string, fraction: string): Parsed {
    if !AllDigits(whole) || !AllDigits(fraction) then Malformed
    else if |fraction| > 9 then TooManyDecimals
    else
      Lamports(Value(whole) * LAMPORTS_PER_SOL + Value(NineDecimals(fraction)))
  }

  /** `parseSol`. */
  function ParseSol(text: string): Parsed { ParseTrimmed(Trim(text)) }

  /** `formatSol`. */
  function FormatSol(lamports: int): string {
    if lamports < 0 then "-" + FormatAbsolute(-lamports) else FormatAbsolute(lamports)
  }

  function FormatAbsolute(absolute: nat): string {
    var fraction := StripZeros(PadStart(Digits(absolute % LAMPORTS_PER_SOL)));
    Text(Digits(absolute / LAMPORTS_PER_SOL), fraction)
  }

  function Text(whole: string, fraction: string): string { whole + if fraction != "" then "." + fraction else "" }

  // ----- digits -----

  lemma {:induction false} DotIndexBound(s: string)
    ensures DotIndex(s) <= |s|
    ensures DotIndex(s) < |s| ==> s[DotIndex(s)] == '.'
    ensures forall i :: 0 <= i < DotIndex(s) ==> s[i] != '.'
  {
    if s != "" && s[0] != '.' { DotIndexBound(s[1..]); }
  }

  lemma {:induction false} DigitsCorrect(n: nat)
    ensures Digits(n) != "" && AllDigits(Digits(n)) && Value(Digits(n)) == n
  {
    if n < 10 {
      assert Digits(n)[..0] == "" && Value("") == 0;
    } else {
      DigitsCorrect(n / 10);
      assert Digits(n)[..|Digits(n)| - 1] == Digits(n / 10);
    }
  }

  function Pow10(k: nat): nat { if k == 0 then 1 else 10 * Pow10(k - 1) }

  lemma {:induction false} DigitsLength(n: nat, k: nat)
    requires n < Pow10(k) && k > 0
    ensures |Digits(n)| <= k
  {
    if n >= 10 {
      assert Pow10(k) == 10 * Pow10(k - 1) && Pow10(0) == 1;
      DigitsLength(n / 10, k - 1);
    }
  }

  lemma {:induction false} LeadingZeros(k: nat, s: string)
    requires AllDigits(s)
    ensures AllDigits(Zeros(k) + s) && Value(Zeros(k) + s) == Value(s)
    decreases k + |s|
  {
    if s != "" {
      LeadingZeros(k, s[..|s| - 1]);
      assert (Zeros(k) + s)[..k + |s| - 1] == Zeros(k) + s[..|s| - 1];
    } else if k > 0 {
      LeadingZeros(k - 1, "");
      assert Zeros(k) + s == Zeros(k);
      assert Zeros(k)[..k - 1] == Zeros(k - 1) == Zeros(k - 1) + "";
    } else {
      assert Zeros(0) + s == "";
    }
  }

  /** Trailing zeros stripped and put back. */
  lemma {:induction false} StripRestores(s: string)
    ensures |StripZeros(s)| <= |s| && s == StripZeros(s) + Zeros(|s| - |StripZeros(s)|)
  {
    if s != "" && s[|s| - 1] == '0' {
      var rest := s[..|s| - 1];
      StripRestores(rest);
      var k := |rest| - |StripZeros(rest)|;
      assert s == rest + "0" && Zeros(k) + "0" == Zeros(k + 1);
      assert s == StripZeros(rest) + (Zeros(k) + "0");
    } else {
      assert Zeros(0) == "";
    }
  }

  lemma {:induction false} StripPadInverse(s: string)
    requires |s| == 9
    ensures NineDecimals(StripZeros(s)) == s
  {
    StripRestores(s);
    var t := StripZeros(s);
    assert (t + Zeros(9))[..9] == t + Zeros(9 - |t|);
  }

  lemma {:induction false} DotAfterDigits(whole: string, rest: string)
    requires AllDigits(whole)
    ensures DotIndex(whole + rest) == |whole| + DotIndex(rest)
  {
    if whole == "" {
      assert whole + rest == rest;
    } else {
      assert (whole + rest)[1..] == whole[1..] + rest;
      DotAfterDigits(whole[1..], rest);
    }
  }

  lemma {:induction false} FractionDigits(f: nat)
    requires f < LAMPORTS_PER_SOL
    ensures var padded := PadStart(Digits(f)); |padded| == 9 && AllDigits(padded) && Value(padded) == f
  {
    DigitsCorrect(f);
    assert Pow10(9) == 1_000_000_000 by {
      assert Pow10(3) == 1000 && Pow10(6) == 1000 * Pow10(3) && Pow10(9) == 1000 * Pow10(6);
    }
    DigitsLength(f, 9);
    LeadingZeros(9 - |Digits(f)|, Digits(f));
  }

  lemma {:induction false} StripDigits(s: string)
    requires AllDigits(s)
    ensures AllDigits(StripZeros(s)) && |StripZeros(s)| <= |s|
  {
    if s != "" && s[|s| - 1] == '0' { StripDigits(s[..|s| - 1]); }
  }

  lemma {:induction false} SplitText(whole: string, fraction: string)
    requires AllDigits(whole)
    ensures var text := Text(whole, fraction);
      && DotIndex(text) == |whole| && text[..|whole|] == whole
      && (fraction == "" ==> |text| == |whole|)
      && (fraction != "" ==> |text| > |whole| && text[|whole| + 1..] == fraction)
  {
    if fraction == "" {
      DotAfterDigits(whole, "");
      assert Text(whole, fraction) == whole + "";
    } else {
      DotAfterDigits(whole, "." + fraction);
      assert Text(whole, fraction) == whole + ("." + fraction);
    }
  }

  lemma {:induction false} TextHasNoSpace(whole: string, fraction: string)
    requires whole != "" && AllDigits(whole) && AllDigits(fraction)
    ensures Trim(Text(whole, fraction)) == Text(whole, fraction)
  {
    var text := Text(whole, fraction);
    assert text[0] == whole[0];
    assert text[|text| - 1] == (if fraction != "" then fraction[|fraction| - 1] else whole[|whole| - 1]);
  }

  /** A whole part and at most nine decimals read back as written. */
  lemma {:induction false} ParseParts(whole: string, fraction: string)
    requires whole != "" && AllDigits(whole) && AllDigits(fraction)
    ensures ParseSol(Text(whole, fraction)) == ParseSplit(whole, fraction)
  {
    SplitText(whole, fraction);
    TextHasNoSpace(whole, fraction);
  }

  lemma {:induction false} SplitValue(whole: string, fraction: string, w: nat, f: nat)
    requires AllDigits(whole) && AllDigits(fraction) && |fraction| <= 9
    requires Value(whole) == w && Value(NineDecimals(fraction)) == f
    ensures ParseSplit(whole, fraction) == Lamports(w * LAMPORTS_PER_SOL + f)
  {
  }

  /** Every non-negative amount survives the trip through text. */
  lemma {:induction false} FormatParseRoundTrip(lamports: nat)
    ensures ParseSol(FormatSol(lamports)) == Lamports(lamports)
  {
    var w, f := lamports / LAMPORTS_PER_SOL, lamports % LAMPORTS_PER_SOL;
    var padded := PadStart(Digits(f));
    DigitsCorrect(w);
    FractionDigits(f);
    StripDigits(padded);
    StripPadInverse(padded);
    ParseParts(Digits(w), StripZeros(padded));
    SplitValue(Digits(w), StripZeros(padded), w, f);
    PrintsText(lamports);
  }

  /** A printed amount is accepted back exactly when it is not negative. */
  lemma {:induction false} ParsesBackIff(lamports: int)
    ensures ParseSol(FormatSol(lamports)).Lamports? <==> lamports >= 0
  {
    if lamports >= 0 {
      FormatParseRoundTrip(lamports);
    } else {
      NegativeRejected(lamports);
    }
  }

  lemma {:induction false} NegativeRejected(lamports: int)
    requires lamports < 0
    ensures ParseSol(FormatSol(lamports)) == Malformed
  {
    assert FormatSol(lamports)[0] == '-';
    MinusRejected(FormatSol(lamports));
  }

  lemma {:induction false} MinusRejected(text: string)
    requires text != "" && text[0] == '-'
    ensures ParseSol(text) == Malformed
  {
    TrimKeepsHead(text);
    var t := Trim(text);
    DotIndexBound(t);
    assert t[..DotIndex(t)][0] == '-';
  }

  lemma {:induction false} TrimKeepsHead(s: string)
    requires s != "" && !IsSpace(s[0])
    ensures Trim(s) != "" && Trim(s)[0] == s[0]
    decreases |s|
  {
    if IsSpace(s[|s| - 1]) { TrimKeepsHead(s[..|s| - 1]); }
  }

  /** Different amounts, of either sign, never print alike. */
  lemma FormatInjective(a: int, b: int)
    requires FormatSol(a) == FormatSol(b)
    ensures a == b
  {
    ParsesBackIff(a);
    ParsesBackIff(b);
    if a >= 0 {
      FormatParseRoundTrip(a);
      FormatParseRoundTrip(b);
    } else {
      MinusPrefix(a);
      MinusPrefix(b);
      FormatParseRoundTrip(-a);
      FormatParseRoundTrip(-b);
    }
  }

  /** A negative amount prints as its opposite behind a minus sign. */
  lemma {:induction false} MinusPrefix(lamports: int)
    requires lamports < 0
    ensures FormatSol(lamports)[1..] == FormatSol(-lamports)
  {
    assert FormatSol(lamports) == "-" + FormatSol(-lamports);
  }

  // ----- the scale, in plain numbers -----

  /** Whole SOL amounts print as their digits. */
  lemma {:induction false} WholeAmountsPrint(k: nat)
    ensures FormatSol(1_000_000_000 * k) == Digits(k)
  {
    assert (1_000_000_000 * k) % LAMPORTS_PER_SOL == 0 && (1_000_000_000 * k) / LAMPORTS_PER_SOL == k;
    ZeroFraction();
    assert Text(Digits(k), "") == Digits(k);
  }

  lemma {:induction false} ZeroFraction()
    ensures StripZeros(PadStart(Digits(0))) == ""
  {
    assert Digits(0) == "0" && PadStart("0") == Zeros(8) + "0" == Zeros(9);
    StripAllZeros(9);
  }

  lemma {:induction false} StripAllZeros(n: nat)
    ensures StripZeros(Zeros(n)) == ""
  {
    if n > 0 {
      assert Zeros(n)[..n - 1] == Zeros(n - 1);
      StripAllZeros(n - 1);
    }
  }

  lemma {:induction false} ZerosValue(n: nat)
    ensures AllDigits(Zeros(n)) && Value(Zeros(n)) == 0
  {
    LeadingZeros(n, "");
    assert Zeros(n) + "" == Zeros(n);
  }

  lemma TimesTen(a: nat, b: nat)
    ensures a * (10 * b) == 10 * (a * b)
  {
  }

  lemma {:induction false} TrailingZeros(d: string, n: nat)
    requires AllDigits(d)
    ensures AllDigits(d + Zeros(n)) && Value(d + Zeros(n)) == Value(d) * Pow10(n)
  {
    if n == 0 {
      assert d + Zeros(0) == d;
    } else {
      TrailingZeros(d, n - 1);
      assert (d + Zeros(n))[..|d| + n - 1] == d + Zeros(n - 1);
      assert (d + Zeros(n))[|d| + n - 1] == '0';
      TimesTen(Value(d), Pow10(n - 1));
    }
  }

  lemma {:induction false} NineDecimalsValue(d: string)
    requires AllDigits(d) && |d| <= 9
    ensures AllDigits(NineDecimals(d)) && Value(NineDecimals(d)) == Value(d) * Pow10(9 - |d|)
  {
    TrailingZeros(d, 9 - |d|);
    assert NineDecimals(d) == d + Zeros(9 - |d|);
  }

  lemma {:induction false} PointSplits(whole: string, d: string)
    requires AllDigits(whole) && AllDigits(d)
    ensures ParseSol(whole + "." + d) == ParseSplit(whole, d)
  {
    var text := whole + "." + d;
    DotAfterDigits(whole, "." + d);
    assert text == whole + ("." + d);
    assert text[..|whole|] == whole && text[|whole| + 1..] == d;
    NothingToTrim(text);
  }

  lemma {:induction false} NothingToTrim(text: string)
    requires text != "" && !IsSpace(text[0]) && !IsSpace(text[|text| - 1])
    ensures Trim(text) == text
  {
  }

  /** Digits, a point and digits: billions of lamports for what precedes the point, nothing for nothing, and the
      decimals scaled to nine digits. More than nine decimals are refused. */
  lemma {:induction false} PointParses(whole: string, d: string)
    requires AllDigits(whole) && AllDigits(d)
    ensures |d| <= 9 ==>
      ParseSol(whole + "." + d) == Lamports(Value(whole) * 1_000_000_000 + Value(d) * Pow10(9 - |d|))
    ensures |d| > 9 ==> ParseSol(whole + "." + d) == TooManyDecimals
  {
    PointSplits(whole, d);
    if |d| <= 9 {
      NineDecimalsValue(d);
      SplitValue(whole, d, Value(whole), Value(d) * Pow10(9 - |d|));
    }
  }

  /** The same for the text of a number. */
  lemma {:induction false} DecimalsParse(w: nat, d: string)
    requires AllDigits(d) && d != ""
    ensures |d| <= 9 ==>
      ParseSol(Text(Digits(w), d)) == Lamports(w * 1_000_000_000 + Value(d) * Pow10(9 - |d|))
    ensures |d| > 9 ==> ParseSol(Text(Digits(w), d)) == TooManyDecimals
  {
    DigitsCorrect(w);
    PointParses(Digits(w), d);
    assert Text(Digits(w), d) == Digits(w) + "." + d;
  }

  lemma {:induction false} SplitMalformedIff(whole: string, fraction: string)
    ensures ParseSplit(whole, fraction) == Malformed <==> !(AllDigits(whole) && AllDigits(fraction))
  {
  }

  /** Digits, then nothing or a point and more digits. */
  predicate Numeric(t: string, at: nat) {
    at <= |t| && AllDigits(t[..at]) && (at < |t| ==> t[at] == '.' && AllDigits(t[at + 1..]))
  }

  ghost predicate IsNumeric(t: string) { exists at :: Numeric(t, at) }

  lemma {:induction false} PointOfNumeric(t: string, at: nat)
    requires Numeric(t, at)
    ensures DotIndex(t) == at
  {
    DotIndexBound(t);
    assert forall i :: 0 <= i < at ==> t[..at][i] == t[i] && t[i] != '.';
  }

  /** Accepted or over-long is exactly what has digits, at most one point, and nothing else but blanks around. */
  lemma {:induction false} MalformedIff(text: string)
    ensures ParseSol(text) != Malformed <==> IsNumeric(Trim(text))
  {
    var t := Trim(text);
    var dot := DotIndex(t);
    DotIndexBound(t);
    var fraction := if dot < |t| then t[dot + 1..] else "";
    assert ParseSol(text) == ParseSplit(t[..dot], fraction);
    assert Numeric(t, dot) <==> AllDigits(t[..dot]) && AllDigits(fraction);
    SplitMalformedIff(t[..dot], fraction);
    if ParseSol(text) != Malformed {
      assert Numeric(t, dot);
    } else if at: nat :| Numeric(t, at) {
      PointOfNumeric(t, at);
      assert false;
    }
  }

  lemma {:induction false} NoDecimals()
    ensures AllDigits(NineDecimals("")) && Value(NineDecimals("")) == 0
  {
    ZerosValue(9);
    assert NineDecimals("") == Zeros(9);
  }

  /** A whole number is that many SOL. */
  lemma {:induction false} WholeNumbersParse(k: nat)
    ensures ParseSol(Digits(k)) == Lamports(1_000_000_000 * k)
  {
    DigitsCorrect(k);
    assert Text(Digits(k), "") == Digits(k);
    ParseParts(Digits(k), "");
    NoDecimals();
    SplitValue(Digits(k), "", k, 0);
  }

  /** Printed amounts are in lowest terms: no point without decimals, no decimal zero at the end, at most nine
      decimals. */
  lemma {:induction false} CanonicalText(lamports: nat)
    ensures var text := FormatSol(lamports);
      && text != "" && text[|text| - 1] != '.'
      && (DotIndex(text) < |text| ==> text[|text| - 1] != '0' && |text| - DotIndex(text) <= 10)
      && (DotIndex(text) < |text| <==> lamports % 1_000_000_000 != 0)
  {
    var w, f := lamports / 1_000_000_000, lamports % 1_000_000_000;
    var padded := PadStart(Digits(f));
    var fraction := StripZeros(padded);
    DigitsCorrect(w);
    FractionDigits(f);
    StripDigits(padded);
    StripsAll(padded);
    SplitText(Digits(w), fraction);
    StripRestores(padded);
    if fraction == "" {
      assert padded == Zeros(9);
      ZerosValue(9);
    } else if f == 0 {
      ZeroFraction();
      assert false;
    }
    PrintsText(lamports);
  }

  lemma {:induction false} PrintsText(lamports: nat)
    ensures var w, f := lamports / 1_000_000_000, lamports % 1_000_000_000;
      FormatSol(lamports) == Text(Digits(w), StripZeros(PadStart(Digits(f))))
  {
  }

  lemma {:induction false} StripsAll(s: string)
    ensures StripZeros(s) != "" ==> StripZeros(s)[|StripZeros(s)| - 1] != '0'
  {
    if s != "" && s[|s| - 1] == '0' { StripsAll(s[..|s| - 1]); }
  }

  /** Blanks around the text do not matter. */
  lemma {:induction false} SpacesIgnored(text: string, c: char)
    requires c == ' ' || c == '\t' || c == '\n' || c == '\r'
    ensures ParseSol([c] + text) == ParseSol(text)
    ensures ParseSol(text + [c]) == ParseSol(text)
  {
    assert ([c] + text)[1..] == text;
    TrimRight(text, c);
  }

  lemma {:induction false} TrimRight(text: string, c: char)
    requires IsSpace(c)
    ensures Trim(text + [c]) == Trim(text)
    decreases |text|
  {
    var all := text + [c];
    if text == "" {
      assert all[1..] == "";
    } else if IsSpace(text[0]) {
      assert all[1..] == text[1..] + [c];
      TrimRight(text[1..], c);
    } else {
      assert all[..|all| - 1] == text;
    }
  }

  /** Anything but digits around one point is refused. */
  lemma {:induction false} NonDigitsRefused(whole: string, fraction: string)
    ensures ParseSplit(whole, fraction) == Malformed <==>
      (exists i :: 0 <= i < |whole| && !('0' <= whole[i] <= '9'))
      || (exists i :: 0 <= i < |fraction| && !('0' <= fraction[i] <= '9'))
  {
  }

  /** Digits are decimal digits. */
  lemma {:induction false} DigitsAreDecimal(n: nat)
    ensures n < 10 ==> Digits(n) == ["0123456789"[n]]
    ensures n >= 10 ==> Digits(n) == Digits(n / 10) + ["0123456789"[n % 10]]
  {
    assert forall d :: 0 <= d < 10 ==> DigitChar(d) == "0123456789"[d];
  }
}
