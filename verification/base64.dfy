/** `atob`, which `b64` in js/utils.js calls: the forgiving-base64 decode of
    the WHATWG Infra standard, which the HTML standard's `atob` calls,
    over the alphabet of section 4 of RFC 4648, producing
    a "binary string" (one character per byte). `Encode` is the padded
    encoding of the same section, the partner of the round-trip lemma. */
module Base64 {
  import opened Wrappers

  /** The 64 characters of the base64 alphabet (RFC 4648, section 4). */
  predicate IsAlphabetChar(c: char) {
    || 'A' <= c <= 'Z' || 'a' <= c <= 'z' || '0' <= c <= '9'
    || c == '+' || c == '/'
  }

  predicate AllAlphabet(s: string) {
    forall i :: 0 <= i < |s| ==> IsAlphabetChar(s[i])
  }

  /** The 6-bit value a character encodes. */
  function Sextet(c: char): (n: nat)
    requires IsAlphabetChar(c)
    ensures n < 64
  {
    if 'A' <= c <= 'Z' then (c as int) - ('A' as int)
    else if 'a' <= c <= 'z' then (c as int) - ('a' as int) + 26
    else if '0' <= c <= '9' then (c as int) - ('0' as int) + 52
    else if c == '+' then 62
    else 63
  }

  /** The character that encodes a 6-bit value. */
  function AlphabetChar(n: nat): (c: char)
    requires n < 64
    ensures IsAlphabetChar(c) && Sextet(c) == n
  {
    if n < 26 then ('A' as int + n) as char
    else if n < 52 then ('a' as int + n - 26) as char
    else if n < 62 then ('0' as int + n - 52) as char
    else if n == 62 then '+'
    else '/'
  }

  /** A "binary string": every character is a byte value. */
  predicate IsByteString(s: string) {
    forall i :: 0 <= i < |s| ==> (s[i] as int) < 256
  }

  function Byte(n: nat): (c: char)
    requires n < 256
    ensures (c as int) == n
  {
    n as char
  }

  /** The white space forgiving-base64 decode drops: tab, line feed, form
      feed, carriage return and space. */
  predicate IsAsciiWhitespace(c: char) {
    c == '\t' || c == '\n' || c == '\U{000C}' || c == '\r' || c == ' '
  }

  predicate NoWhitespace(s: string) {
    forall i :: 0 <= i < |s| ==> !IsAsciiWhitespace(s[i])
  }

  function RemoveWhitespace(s: string): (r: string)
    ensures |r| <= |s|
  {
    if |s| == 0 then []
    else if IsAsciiWhitespace(s[0]) then RemoveWhitespace(s[1..])
    else [s[0]] + RemoveWhitespace(s[1..])
  }

  /** Drops one or two trailing `=`. */
  function StripPadding(s: string): (r: string)
    ensures |s| - 2 <= |r| <= |s|
  {
    if |s| >= 2 && s[|s| - 2] == '=' && s[|s| - 1] == '=' then s[..|s| - 2]
    else if |s| >= 1 && s[|s| - 1] == '=' then s[..|s| - 1]
    else s
  }

  /** Bytes of a full group of four characters (24 bits). */
  function DecodeQuad(a: char, b: char, c: char, d: char): (r: string)
    requires IsAlphabetChar(a) && IsAlphabetChar(b) && IsAlphabetChar(c) && IsAlphabetChar(d)
    ensures |r| == 3
  {
    [ Byte(Sextet(a) * 4 + Sextet(b) / 16),
      Byte(Sextet(b) % 16 * 16 + Sextet(c) / 4),
      Byte(Sextet(c) % 4 * 64 + Sextet(d)) ]
  }

  /** Bytes of a final group of zero, two or three characters: 12 or 18
      bits, whose last 4 or 2 bits are discarded. */
  function DecodeTail(s: string): (r: string)
    requires AllAlphabet(s) && (|s| == 0 || |s| == 2 || |s| == 3)
    ensures |r| == |s| * 3 / 4
  {
    if |s| == 3 then
      [ Byte(Sextet(s[0]) * 4 + Sextet(s[1]) / 16),
        Byte(Sextet(s[1]) % 16 * 16 + Sextet(s[2]) / 4) ]
    else if |s| == 2 then [Byte(Sextet(s[0]) * 4 + Sextet(s[1]) / 16)]
    else []
  }

  /** Decodes a padding-free run of alphabet characters, four at a time. */
  function DecodeSextets(s: string): (r: string)
    requires AllAlphabet(s) && |s| % 4 != 1
    ensures |r| == |s| * 3 / 4
    decreases |s|
  {
    if |s| >= 4 then DecodeQuad(s[0], s[1], s[2], s[3]) + DecodeSextets(s[4..])
    else DecodeTail(s)
  }

  /** `atob(s)`: `None` where `atob` throws. White space is ignored; when
      the length is a multiple of four, one or two trailing `=` are dropped;
      what remains must consist of alphabet characters only and must not
      leave a single character in its last group. */
  function Atob(s: string): (r: Option<string>)
    ensures r.Some? ==> |r.value| <= |s|
  {
    var d := Unpadded(s);
    if |d| % 4 == 1 || !AllAlphabet(d) then None
    else Some(DecodeSextets(d))
  }

  /** The input without white space and, when its length is a multiple of
      four, without its trailing padding. */
  function Unpadded(s: string): (d: string)
    ensures |d| <= |s|
  {
    var w := RemoveWhitespace(s);
    if |w| % 4 == 0 then StripPadding(w) else w
  }

  // ---- what atob produces and ignores ----

  lemma {:induction false} RemoveWhitespaceSpec(s: string)
    ensures NoWhitespace(RemoveWhitespace(s))
    ensures NoWhitespace(s) ==> RemoveWhitespace(s) == s
    decreases |s|
  {
    if |s| > 0 {
      RemoveWhitespaceSpec(s[1..]);
      var r := RemoveWhitespace(s[1..]);
      if !IsAsciiWhitespace(s[0]) {
        var t := [s[0]] + r;
        forall i | 0 <= i < |t| ensures !IsAsciiWhitespace(t[i]) {
          if i > 0 { assert t[i] == r[i - 1]; }
        }
        if NoWhitespace(s) {
          assert NoWhitespace(s[1..]) by {
            forall i | 0 <= i < |s| - 1 ensures !IsAsciiWhitespace(s[1..][i]) {
              assert s[1..][i] == s[i + 1];
            }
          }
          assert s == [s[0]] + s[1..];
        }
      }
    }
  }

  /** White space anywhere in the input is ignored. */
  lemma {:induction false} RemoveWhitespaceAppend(a: string, b: string)
    ensures RemoveWhitespace(a + b) == RemoveWhitespace(a) + RemoveWhitespace(b)
    decreases |a|
  {
    if |a| == 0 {
      assert a + b == b;
    } else {
      RemoveWhitespaceAppend(a[1..], b);
      RemoveWhitespaceCons(a, b);
    }
  }

  lemma RemoveWhitespaceCons(a: string, b: string)
    requires |a| > 0
    ensures RemoveWhitespace(a + b) == RemoveWhitespace([a[0]]) + RemoveWhitespace(a[1..] + b)
    ensures RemoveWhitespace(a) == RemoveWhitespace([a[0]]) + RemoveWhitespace(a[1..])
  {
    var ab := a + b;
    assert ab[0] == a[0] && ab[1..] == a[1..] + b;
    assert [a[0]][1..] == [];
  }

  lemma AtobIgnoresWhitespace(a: string, w: char, b: string)
    requires IsAsciiWhitespace(w)
    ensures Atob(a + [w] + b) == Atob(a + b)
  {
    RemoveWhitespaceAppend(a + [w], b);
    RemoveWhitespaceAppend(a, [w]);
    RemoveWhitespaceAppend(a, b);
    assert RemoveWhitespace([w]) == [] by {
      assert [w][1..] == [];
    }
    assert RemoveWhitespace(a) + [] == RemoveWhitespace(a);
  }

  lemma {:induction false} DecodeSextetsBytes(s: string)
    requires AllAlphabet(s) && |s| % 4 != 1
    ensures IsByteString(DecodeSextets(s))
    decreases |s|
  {
    if |s| >= 4 {
      AlphabetSuffix(s, 4);
      DecodeSextetsBytes(s[4..]);
      QuadBytes(s[0], s[1], s[2], s[3]);
      ByteStringAppend(DecodeQuad(s[0], s[1], s[2], s[3]), DecodeSextets(s[4..]));
    }
  }

  lemma QuadBytes(a: char, b: char, c: char, d: char)
    requires IsAlphabetChar(a) && IsAlphabetChar(b) && IsAlphabetChar(c) && IsAlphabetChar(d)
    ensures IsByteString(DecodeQuad(a, b, c, d))
  {
  }

  lemma AlphabetSuffix(s: string, k: nat)
    requires AllAlphabet(s) && k <= |s|
    ensures AllAlphabet(s[k..])
  {
    forall i | 0 <= i < |s| - k ensures IsAlphabetChar(s[k..][i]) {
      assert s[k..][i] == s[k + i];
    }
  }

  lemma ByteStringAppend(a: string, b: string)
    requires IsByteString(a) && IsByteString(b)
    ensures IsByteString(a + b)
  {
    var r := a + b;
    forall i | 0 <= i < |r| ensures (r[i] as int) < 256 {
      if i < |a| { assert r[i] == a[i]; } else { assert r[i] == b[i - |a|]; }
    }
  }

  /** Whatever `atob` returns is a binary string. */
  lemma AtobBytes(s: string)
    requires Atob(s).Some?
    ensures IsByteString(Atob(s).value)
  {
    DecodeSextetsBytes(Unpadded(s));
  }

  // ---- encoding (RFC 4648, section 4) ----

  /** Four characters for three bytes. */
  function EncodeTriple(x: nat, y: nat, z: nat): (r: string)
    requires x < 256 && y < 256 && z < 256
    ensures |r| == 4
  {
    [ AlphabetChar(x / 4),
      AlphabetChar(x % 4 * 16 + y / 16),
      AlphabetChar(y % 16 * 4 + z / 64),
      AlphabetChar(z % 64) ]
  }

  /** The encoding without its trailing `=`: a final group of one or two
      bytes becomes two or three characters, zero-filled. */
  function EncodeGroups(s: string): (r: string)
    requires IsByteString(s)
    ensures |r| == 4 * (|s| / 3) + (if |s| % 3 == 0 then 0 else |s| % 3 + 1)
    decreases |s|
  {
    if |s| >= 3 then EncodeTriple(s[0] as int, s[1] as int, s[2] as int) + EncodeGroups(s[3..])
    else if |s| == 2 then
      [ AlphabetChar(s[0] as int / 4),
        AlphabetChar(s[0] as int % 4 * 16 + s[1] as int / 16),
        AlphabetChar(s[1] as int % 16 * 4) ]
    else if |s| == 1 then
      [ AlphabetChar(s[0] as int / 4), AlphabetChar(s[0] as int % 4 * 16) ]
    else []
  }

  /** The padded base64 encoding of a binary string. */
  function Encode(s: string): (r: string)
    requires IsByteString(s)
    ensures |r| % 4 == 0
  {
    var g := EncodeGroups(s);
    PaddedLength(|s|, |g|);
    if |s| % 3 == 1 then g + "=="
    else if |s| % 3 == 2 then g + "="
    else g
  }

  /** The encoding uses the 64 alphabet characters only, and never leaves a
      single character in its last group. */
  lemma {:induction false} EncodeGroupsAlphabet(s: string)
    requires IsByteString(s)
    ensures AllAlphabet(EncodeGroups(s)) && |EncodeGroups(s)| % 4 != 1
    decreases |s|
  {
    EncodeGroupsLength(|s|, |EncodeGroups(s)|);
    if |s| >= 3 {
      var e := EncodeTriple(s[0] as int, s[1] as int, s[2] as int);
      EncodeGroupsAlphabet(s[3..]);
      AlphabetAppend(e, EncodeGroups(s[3..]));
    }
  }

  /** The length arithmetic of the encoding: no last group of one
      character. */
  lemma EncodeGroupsLength(n: nat, m: nat)
    requires m == 4 * (n / 3) + (if n % 3 == 0 then 0 else n % 3 + 1)
    ensures m % 4 != 1
  {
    var q := n / 3;
    assert (4 * q) % 4 == 0;
  }

  /** The padding completes the last group. */
  lemma PaddedLength(n: nat, m: nat)
    requires m == 4 * (n / 3) + (if n % 3 == 0 then 0 else n % 3 + 1)
    ensures n % 3 == 0 ==> m % 4 == 0
    ensures n % 3 == 1 ==> (m + 2) % 4 == 0
    ensures n % 3 == 2 ==> (m + 1) % 4 == 0
  {
    var q := n / 3;
    assert (4 * q) % 4 == 0;
  }

  lemma AlphabetAppend(a: string, b: string)
    requires AllAlphabet(a) && AllAlphabet(b)
    ensures AllAlphabet(a + b)
  {
    var r := a + b;
    forall i | 0 <= i < |r| ensures IsAlphabetChar(r[i]) {
      if i < |a| { assert r[i] == a[i]; } else { assert r[i] == b[i - |a|]; }
    }
  }

  // ---- the round trip ----

  /** The bit arithmetic of one full group: the four sextets of three bytes
      give the three bytes back. */
  lemma FirstByte(x: nat, y: nat)
    requires x < 256 && y < 256
    ensures x / 4 * 4 + (x % 4 * 16 + y / 16) / 16 == x
  {
    assert y / 16 < 16;
    assert (x % 4 * 16 + y / 16) / 16 == x % 4;
  }

  lemma SecondByte(x: nat, y: nat, z: nat)
    requires x < 256 && y < 256 && z < 256
    ensures (x % 4 * 16 + y / 16) % 16 * 16 + (y % 16 * 4 + z / 64) / 4 == y
  {
    assert y / 16 < 16;
    assert (x % 4 * 16 + y / 16) % 16 == y / 16;
    assert z / 64 < 4;
    assert (y % 16 * 4 + z / 64) / 4 == y % 16;
  }

  lemma ThirdByte(y: nat, z: nat)
    requires y < 256 && z < 256
    ensures (y % 16 * 4 + z / 64) % 4 * 64 + z % 64 == z
  {
    assert z / 64 < 4;
    assert (y % 16 * 4 + z / 64) % 4 == z / 64;
  }

  lemma DecodeEncodeTriple(x: nat, y: nat, z: nat)
    requires x < 256 && y < 256 && z < 256
    ensures var e := EncodeTriple(x, y, z);
      DecodeQuad(e[0], e[1], e[2], e[3]) == [Byte(x), Byte(y), Byte(z)]
  {
    FirstByte(x, y);
    SecondByte(x, y, z);
    ThirdByte(y, z);
  }

  /** A character is determined by its code. */
  lemma ByteOfCode(c: char)
    requires (c as int) < 256
    ensures Byte(c as int) == c
  {
  }

  lemma DecodeTwo(a: char, b: char)
    requires IsAlphabetChar(a) && IsAlphabetChar(b)
    ensures DecodeSextets([a, b]) == [Byte(Sextet(a) * 4 + Sextet(b) / 16)]
  {
    var g := [a, b];
    assert g[0] == a && g[1] == b;
  }

  lemma DecodeThree(a: char, b: char, c: char)
    requires IsAlphabetChar(a) && IsAlphabetChar(b) && IsAlphabetChar(c)
    ensures DecodeSextets([a, b, c]) ==
      [ Byte(Sextet(a) * 4 + Sextet(b) / 16),
        Byte(Sextet(b) % 16 * 16 + Sextet(c) / 4) ]
  {
    var g := [a, b, c];
    assert g[0] == a && g[1] == b && g[2] == c;
  }

  lemma PairBytes(x: nat, y: nat)
    requires x < 256 && y < 256
    ensures x / 4 * 4 + (x % 4 * 16 + y / 16) / 16 == x
    ensures (x % 4 * 16 + y / 16) % 16 * 16 + y % 16 * 4 / 4 == y
  {
    FirstByte(x, y);
    assert (x % 4 * 16 + y / 16) % 16 == y / 16;
  }

  lemma DecodeEncodePair(s: string)
    requires IsByteString(s) && |s| == 2
    ensures AllAlphabet(EncodeGroups(s)) && |EncodeGroups(s)| % 4 != 1
    ensures DecodeSextets(EncodeGroups(s)) == s
  {
    EncodeGroupsAlphabet(s);
    var x, y := s[0] as int, s[1] as int;
    var a := AlphabetChar(x / 4);
    var b := AlphabetChar(x % 4 * 16 + y / 16);
    var c := AlphabetChar(y % 16 * 4);
    assert EncodeGroups(s) == [a, b, c];
    DecodeThree(a, b, c);
    PairBytes(x, y);
    ByteOfCode(s[0]);
    ByteOfCode(s[1]);
    assert s == [s[0], s[1]];
  }

  lemma DecodeEncodeSingle(s: string)
    requires IsByteString(s) && |s| == 1
    ensures AllAlphabet(EncodeGroups(s)) && |EncodeGroups(s)| % 4 != 1
    ensures DecodeSextets(EncodeGroups(s)) == s
  {
    EncodeGroupsAlphabet(s);
    var x := s[0] as int;
    var a := AlphabetChar(x / 4);
    var b := AlphabetChar(x % 4 * 16);
    assert EncodeGroups(s) == [a, b];
    DecodeTwo(a, b);
    FirstByte(x, 0);
    ByteOfCode(s[0]);
    assert s == [s[0]];
  }

  /** Decoding a full group followed by more groups decodes the group and
      then the rest. */
  lemma DecodeQuadThen(e: string, rest: string)
    requires |e| == 4 && AllAlphabet(e) && AllAlphabet(rest) && |rest| % 4 != 1
    ensures AllAlphabet(e + rest) && |e + rest| % 4 != 1
    ensures DecodeSextets(e + rest) == DecodeQuad(e[0], e[1], e[2], e[3]) + DecodeSextets(rest)
  {
    var g := e + rest;
    forall i | 0 <= i < |g| ensures IsAlphabetChar(g[i]) {
      if i >= 4 { assert g[i] == rest[i - 4]; }
    }
    assert g[0] == e[0] && g[1] == e[1] && g[2] == e[2] && g[3] == e[3];
    assert g[4..] == rest;
  }

  /** Decoding undoes the grouping, group by group. */
  lemma {:induction false} DecodeEncodeGroups(s: string)
    requires IsByteString(s)
    ensures AllAlphabet(EncodeGroups(s)) && |EncodeGroups(s)| % 4 != 1
    ensures DecodeSextets(EncodeGroups(s)) == s
    decreases |s|
  {
    EncodeGroupsAlphabet(s);
    if |s| >= 3 {
      var x, y, z := s[0] as int, s[1] as int, s[2] as int;
      var e := EncodeTriple(x, y, z);
      var rest := EncodeGroups(s[3..]);
      DecodeEncodeGroups(s[3..]);
      assert AllAlphabet(e);
      DecodeQuadThen(e, rest);
      DecodeEncodeTriple(x, y, z);
      ByteOfCode(s[0]);
      ByteOfCode(s[1]);
      ByteOfCode(s[2]);
      assert s == [s[0], s[1], s[2]] + s[3..];
    } else if |s| == 2 {
      DecodeEncodePair(s);
    } else if |s| == 1 {
      DecodeEncodeSingle(s);
    }
  }

  lemma EncodeHasNoWhitespace(s: string)
    requires IsByteString(s)
    ensures NoWhitespace(Encode(s))
  {
    EncodeGroupsAlphabet(s);
    var g := EncodeGroups(s);
    var e := Encode(s);
    forall i | 0 <= i < |e|
      ensures !IsAsciiWhitespace(e[i])
    {
      if i < |g| {
        assert e[i] == g[i] && IsAlphabetChar(g[i]);
      }
    }
  }

  /** The padding `Encode` appends is exactly what `Atob` drops. */
  lemma StripEncodePadding(s: string)
    requires IsByteString(s)
    ensures StripPadding(Encode(s)) == EncodeGroups(s)
  {
    EncodeGroupsAlphabet(s);
    var g := EncodeGroups(s);
    var e := Encode(s);
    if |s| % 3 == 1 {
      assert e == g + "==";
      assert e[..|e| - 2] == g;
    } else if |s| % 3 == 2 {
      assert e == g + "=";
      assert e[|e| - 2] == g[|g| - 1];
      assert IsAlphabetChar(g[|g| - 1]);
      assert e[..|e| - 1] == g;
    } else if |g| > 0 {
      assert e == g;
      assert IsAlphabetChar(g[|g| - 1]);
    }
  }

  /** Round trip: `atob` of the encoding of a binary string is that
      string. */
  lemma AtobEncode(s: string)
    requires IsByteString(s)
    ensures Atob(Encode(s)) == Some(s)
  {
    var e := Encode(s);
    EncodeHasNoWhitespace(s);
    RemoveWhitespaceSpec(e);
    StripEncodePadding(s);
    DecodeEncodeGroups(s);
  }
}
