/** The JavaScript string operations the page relies on: truthiness of an
    optional string and `x || default`, `String(undefined)` and
    `String(null)`, `trim`,
    `split` on one separator character, and `parseInt(s, 10)`.
    Characters are Unicode code points; `parseInt` returns `None` where
    JavaScript returns `NaN`. */
module JsText {
  import opened Wrappers

  /** A string value is truthy exactly when it is present and non-empty. */
  predicate Truthy(v: Option<string>) {
    v.Some? && |v.value| > 0
  }

  /** `v || fallback` on a possibly absent string. */
  function Or(v: Option<string>, fallback: string): string {
    if Truthy(v) then v.value else fallback
  }

  /** A JSON field that the page converts to a string or uses as a property
      key. Here a missing key and `null` differ: `String(undefined)` is
      "undefined" while `String(null)` is "null". */
  datatype Field = Undefined | Null | Str(text: string)

  /** `String(f)`. */
  function FieldText(f: Field): string {
    match f
    case Undefined => "undefined"
    case Null => "null"
    case Str(s) => s
  }

  /** `String(v)` of an array element that may lie past the end, as the
      parts of `split` are read: such an element is `undefined`, never
      `null`, so the lookup returns an `Option` and this maps it onto a
      `Field`. */
  function ToText(v: Option<string>): string {
    FieldText(if v.Some? then Str(v.value) else Undefined)
  }

  /** The WhiteSpace and LineTerminator code points of ECMAScript
      (sections 12.2 and 12.3 of ECMA-262): what `trim` removes and what
      `parseInt` skips. */
  predicate IsJsSpace(c: char) {
    || c == '\t' || c == '\n' || c == '\U{000B}' || c == '\U{000C}' || c == '\r'
    || c == ' ' || c == '\U{00A0}' || c == '\U{1680}'
    || ('\U{2000}' <= c <= '\U{200A}')
    || c == '\U{2028}' || c == '\U{2029}' || c == '\U{202F}' || c == '\U{205F}'
    || c == '\U{3000}' || c == '\U{FEFF}'
  }

  predicate AllSpace(s: string) {
    forall i :: 0 <= i < |s| ==> IsJsSpace(s[i])
  }

  /** `s` does not start with white space. */
  predicate StartsSolid(s: string) {
    |s| == 0 || !IsJsSpace(s[0])
  }

  /** `s` does not end with white space. */
  predicate EndsSolid(s: string) {
    |s| == 0 || !IsJsSpace(s[|s| - 1])
  }

  // ---- trim ----

  /** Drops the leading white space. */
  function TrimStart(s: string): (r: string)
    ensures |r| <= |s|
  {
    if |s| == 0 || !IsJsSpace(s[0]) then s else TrimStart(s[1..])
  }

  /** Drops the trailing white space. */
  function TrimEnd(s: string): (r: string)
    ensures |r| <= |s|
  {
    if |s| == 0 || !IsJsSpace(s[|s| - 1]) then s else TrimEnd(s[..|s| - 1])
  }

  /** `s.trim()`. */
  function Trim(s: string): string {
    TrimEnd(TrimStart(s))
  }

  /** `TrimStart` removes exactly the white space before the first other
      character: the result is a suffix of `s`, what it drops is all white
      space, and it starts with a non-space character. */
  lemma {:induction false} TrimStartSpec(s: string)
    ensures var r := TrimStart(s);
      && r == s[|s| - |r|..]
      && AllSpace(s[..|s| - |r|])
      && StartsSolid(r)
    decreases |s|
  {
    if |s| > 0 && IsJsSpace(s[0]) {
      TrimStartSpec(s[1..]);
      var r := TrimStart(s);
      var k := |s| - |r|;
      assert s[1..][|s| - 1 - |r|..] == s[k..];
      assert s[..k] == [s[0]] + s[1..][..k - 1];
    } else {
      assert s[..0] == [];
    }
  }

  /** And that description determines it: white space followed by a text
      that does not start with white space trims to that text. */
  lemma {:induction false} TrimStartOf(w: string, t: string)
    requires AllSpace(w) && StartsSolid(t)
    ensures TrimStart(w + t) == t
    decreases |w|
  {
    if |w| == 0 {
      assert w + t == t;
    } else {
      assert (w + t)[0] == w[0];
      assert (w + t)[1..] == w[1..] + t;
      TrimStartOf(w[1..], t);
    }
  }

  /** `TrimEnd` removes exactly the white space after the last other
      character. */
  lemma {:induction false} TrimEndSpec(s: string)
    ensures var r := TrimEnd(s);
      && r == s[..|r|]
      && AllSpace(s[|r|..])
      && EndsSolid(r)
    decreases |s|
  {
    if |s| > 0 && IsJsSpace(s[|s| - 1]) {
      var p := s[..|s| - 1];
      TrimEndSpec(p);
      var r := TrimEnd(s);
      assert p[..|r|] == s[..|r|];
      assert s[|r|..] == p[|r|..] + [s[|s| - 1]];
    } else {
      assert s[|s|..] == [];
    }
  }

  /** A trimmed text is blank exactly when the original is all white space,
      and otherwise starts and ends with non-space characters. */
  lemma TrimSpec(s: string)
    ensures |Trim(s)| == 0 <==> AllSpace(s)
    ensures StartsSolid(Trim(s)) && EndsSolid(Trim(s))
  {
    var t := TrimStart(s);
    var r := TrimEnd(t);
    TrimStartSpec(s);
    TrimEndSpec(t);
    if |r| == 0 {
      assert t == t[|r|..];
      assert s == s[..|s| - |t|] + t;
    } else {
      assert r[0] == t[0] && t[0] == s[|s| - |t|];
      assert !IsJsSpace(s[|s| - |t|]);
    }
  }

  // ---- split and join ----

  /** `parts.join(sep)`. */
  function Join(parts: seq<string>, sep: char): string
    requires |parts| >= 1
  {
    if |parts| == 1 then parts[0]
    else parts[0] + [sep] + Join(parts[1..], sep)
  }

  /** `s.split(sep)` for a one-character separator: the maximal pieces
      between separators, so `""` splits into `[""]` and `"-"` into
      `["", ""]`. */
  function Split(s: string, sep: char): (parts: seq<string>)
    ensures |parts| >= 1
  {
    if |s| == 0 then [""]
    else
      var rest := Split(s[1..], sep);
      if s[0] == sep then [""] + rest
      else [[s[0]] + rest[0]] + rest[1..]
  }

  /** No piece of a split contains the separator. */
  lemma {:induction false} SplitPieces(s: string, sep: char)
    ensures forall i :: 0 <= i < |Split(s, sep)| ==> sep !in Split(s, sep)[i]
    decreases |s|
  {
    if |s| > 0 {
      SplitPieces(s[1..], sep);
      var rest := Split(s[1..], sep);
      var parts := Split(s, sep);
      if s[0] != sep {
        forall i | 0 <= i < |parts| ensures sep !in parts[i] {
          if i == 0 {
            assert parts[0] == [s[0]] + rest[0];
          } else {
            assert parts[i] == rest[i];
          }
        }
      } else {
        forall i | 0 <= i < |parts| ensures sep !in parts[i] {
          if i > 0 {
            assert parts[i] == rest[i - 1];
          }
        }
      }
    }
  }

  /** Joining the pieces with the separator gives the string back. */
  lemma {:induction false} JoinSplit(s: string, sep: char)
    ensures Join(Split(s, sep), sep) == s
    decreases |s|
  {
    if |s| > 0 {
      JoinSplit(s[1..], sep);
      var rest := Split(s[1..], sep);
      if s[0] == sep {
        assert ([""] + rest)[1..] == rest;
        assert s == [sep] + s[1..];
      } else {
        JoinHead(rest, s[0], sep);
        assert s == [s[0]] + s[1..];
      }
    }
  }

  lemma JoinHead(parts: seq<string>, c: char, sep: char)
    requires |parts| >= 1
    ensures Join([[c] + parts[0]] + parts[1..], sep) == [c] + Join(parts, sep)
  {
    var ps := [[c] + parts[0]] + parts[1..];
    assert ps[1..] == parts[1..];
  }

  /** The other direction of the round trip: splitting a join of
      separator-free pieces gives the pieces back. */
  lemma {:induction false} SplitJoin(parts: seq<string>, sep: char)
    requires |parts| >= 1
    requires forall i :: 0 <= i < |parts| ==> sep !in parts[i]
    ensures Split(Join(parts, sep), sep) == parts
    decreases |parts|
  {
    if |parts| == 1 {
      SplitNoSep(parts[0], sep);
    } else {
      SplitJoin(parts[1..], sep);
      SplitAfter(parts[0], Join(parts[1..], sep), sep);
      assert [parts[0]] + parts[1..] == parts;
    }
  }

  /** A piece without the separator splits into itself. */
  lemma {:induction false} SplitNoSep(s: string, sep: char)
    requires sep !in s
    ensures Split(s, sep) == [s]
    decreases |s|
  {
    if |s| > 0 {
      assert s[0] != sep;
      SplitNoSep(s[1..], sep);
      assert [s[0]] + s[1..] == s;
    }
  }

  lemma {:induction false} SplitAfter(a: string, b: string, sep: char)
    requires sep !in a
    ensures Split(a + [sep] + b, sep) == [a] + Split(b, sep)
    decreases |a|
  {
    var s := a + [sep] + b;
    if |a| == 0 {
      assert s == [sep] + b && s[1..] == b;
    } else {
      assert s[0] == a[0] && s[1..] == a[1..] + [sep] + b;
      SplitAfter(a[1..], b, sep);
      assert [a[0]] + a[1..] == a;
    }
  }

  // ---- parseInt(s, 10) ----

  predicate IsDigit(c: char) {
    '0' <= c <= '9'
  }

  predicate AllDigits(s: string) {
    forall i :: 0 <= i < |s| ==> IsDigit(s[i])
  }

  function DigitValue(c: char): (n: nat)
    requires IsDigit(c)
    ensures n < 10
  {
    (c as int) - ('0' as int)
  }

  function DigitChar(n: nat): (c: char)
    requires n < 10
    ensures IsDigit(c) && DigitValue(c) == n
  {
    ('0' as int + n) as char
  }

  /** The longest prefix of decimal digits. */
  function DigitPrefix(s: string): (r: string)
    ensures |r| <= |s| && AllDigits(r)
  {
    if |s| == 0 || !IsDigit(s[0]) then []
    else [s[0]] + DigitPrefix(s[1..])
  }

  /** The number a string of decimal digits denotes (most significant
      first). */
  function DigitsValue(ds: string): nat
    requires AllDigits(ds)
  {
    if |ds| == 0 then 0
    else DigitsValue(ds[..|ds| - 1]) * 10 + DigitValue(ds[|ds| - 1])
  }

  /** The text `parseInt` reads digits from: after leading white space and
      an optional sign. */
  function Unsigned(s: string): string {
    var t := TrimStart(s);
    if |t| > 0 && (t[0] == '-' || t[0] == '+') then t[1..] else t
  }

  /** `parseInt(s, 10)`: skip leading white space, take an optional sign,
      then the longest run of digits; no digits gives `NaN` (here `None`).
      Whatever follows the digits is ignored. */
  function ParseInt(s: string): Option<int> {
    var t := TrimStart(s);
    var negative := |t| > 0 && t[0] == '-';
    var ds := DigitPrefix(Unsigned(s));
    if |ds| == 0 then None
    else if negative then Some(-(DigitsValue(ds) as int))
    else Some(DigitsValue(ds))
  }

  /** `parseInt` gives `NaN` exactly when no digit follows the white space
      and the optional sign. */
  lemma ParseIntNaN(s: string)
    ensures ParseInt(s).None? <==> (|Unsigned(s)| == 0 || !IsDigit(Unsigned(s)[0]))
  {
  }

  /** `Number(x) || fallback` on a `parseInt` result: `NaN` and `0` are
      falsy. */
  function NumberOr(p: Option<int>, fallback: int): int {
    if p.Some? && p.value != 0 then p.value else fallback
  }

  /** Decimal numeral of a natural number, without leading zeros. */
  function Decimal(n: nat): (r: string)
    ensures |r| > 0
  {
    if n < 10 then [DigitChar(n)]
    else Decimal(n / 10) + [DigitChar(n % 10)]
  }

  lemma {:induction false} DecimalDigits(n: nat)
    ensures AllDigits(Decimal(n))
  {
    if n >= 10 {
      DecimalDigits(n / 10);
    }
  }

  /** A numeral denotes the number it was made from. */
  lemma {:induction false} DecimalValue(n: nat)
    ensures AllDigits(Decimal(n)) && DigitsValue(Decimal(n)) == n
  {
    DecimalDigits(n);
    if n >= 10 {
      var d := Decimal(n);
      assert d[..|d| - 1] == Decimal(n / 10);
      DecimalValue(n / 10);
    } else {
      assert Decimal(n)[..0] == [];
    }
  }

  /** Leading zeros do not change the value. */
  lemma {:induction false} LeadingZeroValue(ds: string)
    requires AllDigits(ds)
    ensures AllDigits("0" + ds) && DigitsValue("0" + ds) == DigitsValue(ds)
    decreases |ds|
  {
    var z := "0" + ds;
    assert forall i :: 0 <= i < |z| ==> IsDigit(z[i]) by {
      forall i | 0 <= i < |z| ensures IsDigit(z[i]) {
        if i > 0 { assert z[i] == ds[i - 1]; }
      }
    }
    if |ds| > 0 {
      assert z[..|z| - 1] == "0" + ds[..|ds| - 1];
      LeadingZeroValue(ds[..|ds| - 1]);
    } else {
      assert z[..0] == [];
    }
  }

  /** 2^53. JavaScript numbers are doubles; every integer below this bound
      is one exactly, so there `parseInt` gives the numeral's exact value. */
  const ExactBound: nat := 9007199254740992

  /** Round trip of `parseInt`: a numeral followed by anything that does not
      start with a digit parses back to its number. */
  lemma ParseIntDigits(ds: string, rest: string)
    requires |ds| > 0 && AllDigits(ds) && DigitsValue(ds) < ExactBound
    requires |rest| == 0 || !IsDigit(rest[0])
    ensures ParseInt(ds + rest) == Some(DigitsValue(ds))
  {
    var s := ds + rest;
    assert s[0] == ds[0];
    assert TrimStart(s) == s;
    assert Unsigned(s) == s;
    DigitPrefixOf(ds, rest);
  }

  lemma {:induction false} DigitPrefixOf(ds: string, rest: string)
    requires AllDigits(ds)
    requires |rest| == 0 || !IsDigit(rest[0])
    ensures DigitPrefix(ds + rest) == ds
    decreases |ds|
  {
    var s := ds + rest;
    if |ds| == 0 {
      assert s == rest;
    } else {
      assert s[0] == ds[0] && s[1..] == ds[1..] + rest;
      DigitPrefixOf(ds[1..], rest);
      assert [ds[0]] + ds[1..] == ds;
    }
  }

  lemma ParseIntDecimal(n: nat, rest: string)
    requires n < ExactBound
    requires |rest| == 0 || !IsDigit(rest[0])
    ensures ParseInt(Decimal(n) + rest) == Some(n)
  {
    DecimalValue(n);
    ParseIntDigits(Decimal(n), rest);
  }
}
