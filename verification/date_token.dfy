/** The parsing half of `fmtDate` in js/utils.js: a `"YYYY-MM"` token, or
    nothing, becomes either "Present" or a (year, month index) pair. The
    last step, rendering the pair with the viewer's locale, is a parameter
    of `FormatDate`. */
module DateToken {
  import opened Wrappers
  import opened JsText

  /** What a token denotes: the open end of a range, or a month. The month
      index counts from 0 (January), as JavaScript's `Date` does; it is not
      clamped, because `Date` rolls values outside 0..11 into neighbouring
      years. */
  datatype Period = Present | Month(year: int, monthIndex: int)

  /** The `i`-th `-`-separated part of the token, absent when there are
      fewer parts (`parts[i]` is then `undefined`). */
  function Part(token: string, i: nat): Option<string> {
    var parts := Split(token, '-');
    if i < |parts| then Some(parts[i]) else None
  }

  /** `parseInt(parts[i], 10)`; an absent part reads as the text
      "undefined", which is not a number. */
  function PartNumber(token: string, i: nat): Option<int> {
    ParseInt(ToText(Part(token, i)))
  }

  /** The year and month `fmtDate` derives from a token. An empty or
      absent token is "Present"; otherwise the year is the first part's
      number unless that is missing, not a number or 0, when it is 1970;
      the month index is the second part's number minus one, or 0 when that
      part is missing, not a number or 0. */
  function ParseDate(ym: Option<string>): (d: Period)
    ensures d.Present? <==> !Truthy(ym)
  {
    if !Truthy(ym) then Present
    else
      var y := NumberOr(PartNumber(ym.value, 0), 1970);
      var m := NumberOr(PartNumber(ym.value, 1), 1) - 1;
      Month(y, m)
  }

  /** The fallbacks of `ParseDate` case by case, for the proofs below. */
  lemma ParseDateSpec(ym: string)
    requires |ym| > 0
    ensures var d := ParseDate(Some(ym));
      var y := PartNumber(ym, 0);
      var m := PartNumber(ym, 1);
      && d.Month?
      && (y.Some? && y.value != 0 ==> d.year == y.value)
      && (y.None? || y.value == 0 ==> d.year == 1970)
      && (m.Some? && m.value != 0 ==> d.monthIndex == m.value - 1)
      && (m.None? || m.value == 0 ==> d.monthIndex == 0)
  {
  }

  /** `fmtDate(ym)`, with the locale-dependent month label supplied by the
      caller. */
  function FormatDate(ym: Option<string>, monthLabel: (int, int) -> string): string {
    match ParseDate(ym)
    case Present => "Present"
    case Month(y, m) => monthLabel(y, m)
  }

  /** The two cases of `FormatDate`, for the proofs that use it. */
  lemma FormatDateSpec(ym: Option<string>, monthLabel: (int, int) -> string)
    ensures !Truthy(ym) ==> FormatDate(ym, monthLabel) == "Present"
    ensures Truthy(ym) ==>
      FormatDate(ym, monthLabel) == monthLabel(ParseDate(ym).year, ParseDate(ym).monthIndex)
  {
  }

  /** Two-digit month numeral, as in the `"YYYY-MM"` tokens of the data. */
  function Pad2(m: nat): (r: string)
    requires m < 100
    ensures |r| > 0
  {
    if m < 10 then "0" + Decimal(m) else Decimal(m)
  }

  lemma Pad2Digits(m: nat)
    requires m < 100
    ensures AllDigits(Pad2(m))
  {
    DecimalDigits(m);
  }

  /** The token for a year and a 1-based month. */
  function Token(year: nat, month: nat): string
    requires month < 100
  {
    Decimal(year) + "-" + Pad2(month)
  }

  /** Round trip: the token of a real year and month parses back to that
      year and the 0-based index of that month. */
  lemma TokenRoundTrip(year: nat, month: nat)
    requires 1 <= year < ExactBound && 1 <= month <= 12
    ensures ParseDate(Some(Token(year, month))) == Month(year, month - 1)
  {
    YearNumber(year, month);
    MonthNumber(year, month);
    ParseDateOfNumbers(Token(year, month), year, month);
  }

  lemma ParseDateOfNumbers(t: string, year: int, month: int)
    requires |t| > 0 && year != 0 && month != 0
    requires PartNumber(t, 0) == Some(year) && PartNumber(t, 1) == Some(month)
    ensures ParseDate(Some(t)) == Month(year, month - 1)
  {
    ParseDateSpec(t);
  }

  lemma YearNumber(year: nat, month: nat)
    requires year < ExactBound && month < 100
    ensures PartNumber(Token(year, month), 0) == Some(year)
  {
    TokenParts(year, month);
    ParseIntDecimal(year, "");
    assert Decimal(year) + "" == Decimal(year);
  }

  lemma MonthNumber(year: nat, month: nat)
    requires month < 100
    ensures PartNumber(Token(year, month), 1) == Some(month)
  {
    TokenParts(year, month);
    ParseIntPad2(month);
  }

  lemma TokenParts(year: nat, month: nat)
    requires month < 100
    ensures Part(Token(year, month), 0) == Some(Decimal(year))
    ensures Part(Token(year, month), 1) == Some(Pad2(month))
  {
    DecimalDigits(year);
    NumeralParts(Decimal(year), month);
  }

  /** The parts of a token whose year is any numeral. */
  lemma NumeralParts(y: string, month: nat)
    requires AllDigits(y) && month < 100
    ensures Part(y + "-" + Pad2(month), 0) == Some(y)
    ensures Part(y + "-" + Pad2(month), 1) == Some(Pad2(month))
  {
    var m := Pad2(month);
    Pad2Digits(month);
    assert '-' !in y by {
      assert forall i :: 0 <= i < |y| ==> IsDigit(y[i]);
    }
    assert '-' !in m by {
      assert forall i :: 0 <= i < |m| ==> IsDigit(m[i]);
    }
    SplitNoSep(m, '-');
    SplitAfter(y, m, '-');
  }

  lemma ParseIntPad2(month: nat)
    requires month < 100
    ensures ParseInt(Pad2(month)) == Some(month)
  {
    var m := Pad2(month);
    assert m + "" == m;
    Pad2Digits(month);
    if month < 10 {
      LeadingZeroValue(Decimal(month));
      DecimalValue(month);
      ParseIntDigits(m, "");
    } else {
      ParseIntDecimal(month, "");
    }
  }

  /** A token with no `-` has no month part: the month falls back to
      January. */
  lemma YearOnlyIsJanuary(ym: string)
    requires |ym| > 0 && '-' !in ym
    ensures ParseDate(Some(ym)).monthIndex == 0
  {
    SplitNoSep(ym, '-');
    assert Part(ym, 1) == None;
    UndefinedIsNaN();
    assert PartNumber(ym, 1) == None;
  }

  /** A text that starts with a character that is neither white space, a
      sign nor a digit is not a number. */
  lemma LetterIsNaN(s: string)
    requires |s| > 0 && !IsJsSpace(s[0]) && !IsDigit(s[0]) && s[0] != '-' && s[0] != '+'
    ensures ParseInt(s) == None
  {
    assert TrimStart(s) == s;
    assert Unsigned(s) == s;
  }

  /** `parseInt(undefined, 10)` is `NaN`. */
  lemma UndefinedIsNaN()
    ensures ParseInt(ToText(None)) == None
  {
    LetterIsNaN("undefined");
  }

  /** A token without `-` whose first character is a letter (neither white
      space, a sign nor a digit) denotes January 1970. */
  lemma WordIsJanuary1970(w: string)
    requires |w| > 0 && '-' !in w
    requires !IsJsSpace(w[0]) && !IsDigit(w[0]) && w[0] != '-' && w[0] != '+'
    ensures ParseDate(Some(w)) == Month(1970, 0)
  {
    SplitNoSep(w, '-');
    assert Part(w, 0) == Some(w);
    assert Part(w, 1) == None;
    LetterIsNaN(w);
    UndefinedIsNaN();
    ParseDateSpec(w);
  }

  /** The word "present" is not special-cased: it has no digits, so it
      denotes January 1970 rather than the open end of a range. */
  lemma PresentWordIsJanuary1970()
    ensures ParseDate(Some("present")) == Month(1970, 0)
  {
    WordIsJanuary1970("present");
  }

  /** A token of a real year and month is shown by the month label of that
      year and the month's 0-based index. */
  lemma FormatToken(year: nat, month: nat, monthLabel: (int, int) -> string)
    requires 1 <= year < ExactBound && 1 <= month <= 12
    ensures FormatDate(Some(Token(year, month)), monthLabel) == monthLabel(year, month - 1)
  {
    TokenRoundTrip(year, month);
  }

  /** A year part that reads as 0 (such as "0000") is falsy, so the year
      falls back to 1970 while the month is kept. */
  lemma ZeroYearIs1970(zeros: string, month: nat)
    requires |zeros| > 0 && AllDigits(zeros) && DigitsValue(zeros) == 0
    requires 1 <= month <= 12
    ensures ParseDate(Some(zeros + "-" + Pad2(month))) == Month(1970, month - 1)
  {
    var t := zeros + "-" + Pad2(month);
    NumeralParts(zeros, month);
    assert zeros + "" == zeros;
    ParseIntDigits(zeros, "");
    ParseIntPad2(month);
    ParseDateSpec(t);
  }
}
