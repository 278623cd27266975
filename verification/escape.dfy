/** The HTML escaper of js/utils.js (`escapeHTML`) and its inverse.

    `escapeHTML` is one left-to-right pass that replaces each of the five
    characters `& < > " '` by its character reference and copies every other
    character; `null` and `undefined` become the empty string. `Unescape`
    reads the five references back; it is the partner that the round-trip
    lemmas connect to `Escape`. */
module HtmlEscape {
  import opened Wrappers

  /** The five characters that `escapeHTML` rewrites. */
  predicate IsSpecial(c: char) {
    c == '&' || c == '<' || c == '>' || c == '"' || c == '\''
  }

  /** The four characters that may never appear raw in escaped text
      (`&` may, as the first character of a reference). */
  predicate IsMarkupChar(c: char) {
    c == '<' || c == '>' || c == '"' || c == '\''
  }

  /** Text that needs no escaping: none of the five special characters. */
  predicate Plain(s: string) {
    forall i :: 0 <= i < |s| ==> !IsSpecial(s[i])
  }

  /** The replacement text `escapeHTML` uses for one character: a
      reference of four to six characters for a special one, the character
      itself otherwise. */
  function EscapeChar(c: char): (r: string)
    ensures IsSpecial(c) ==> 4 <= |r| <= 6 && r[0] == '&'
    ensures !IsSpecial(c) ==> |r| == 1 && r[0] == c
  {
    if c == '&' then "&amp;"
    else if c == '<' then "&lt;"
    else if c == '>' then "&gt;"
    else if c == '"' then "&quot;"
    else if c == '\'' then "&#39;"
    else [c]
  }

  /** The character reference that starts `s`, if any, as the character it
      stands for and its length. Only the five references `escapeHTML`
      produces are recognised. */
  function EntityAt(s: string): (r: Option<(char, nat)>)
    ensures r.Some? ==> 4 <= r.value.1 <= |s| && s[0] == '&' && IsSpecial(r.value.0)
  {
    if |s| < 4 || s[0] != '&' then None
    else if s[1] == 'l' && s[2] == 't' && s[3] == ';' then Some(('<', 4))
    else if s[1] == 'g' && s[2] == 't' && s[3] == ';' then Some(('>', 4))
    else if |s| < 5 then None
    else if s[1] == 'a' && s[2] == 'm' && s[3] == 'p' && s[4] == ';' then Some(('&', 5))
    else if s[1] == '#' && s[2] == '3' && s[3] == '9' && s[4] == ';' then Some(('\'', 5))
    else if |s| < 6 then None
    else if s[1] == 'q' && s[2] == 'u' && s[3] == 'o' && s[4] == 't' && s[5] == ';' then Some(('"', 6))
    else None
  }

  /** Output alphabet of `escapeHTML`: no raw `< > " '`, and every `&`
      begins one of the five references. */
  predicate Safe(t: string) {
    forall i :: 0 <= i < |t| ==>
      !IsMarkupChar(t[i]) && (t[i] == '&' ==> EntityAt(t[i..]).Some?)
  }

  /** `escapeHTML` on a string: each character replaced independently and in
      order. */
  function Escape(s: string): string {
    if |s| == 0 then [] else EscapeChar(s[0]) + Escape(s[1..])
  }

  /** `escapeHTML(v)` on a possibly absent value: `null` and `undefined`
      escape to the empty string. */
  function EscapeValue(v: Option<string>): (r: string)
    ensures v.None? ==> |r| == 0
  {
    match v
    case None => ""
    case Some(s) => Escape(s)
  }

  /** Reads the five references back; every other character is copied. */
  function Unescape(t: string): string
    decreases |t|
  {
    if |t| == 0 then []
    else
      match EntityAt(t)
      case Some((c, n)) => [c] + Unescape(t[n..])
      case None => [t[0]] + Unescape(t[1..])
  }

  // ---- the output alphabet ----

  /** Whatever the input, the output of `escapeHTML` has no raw `< > " '`
      and each `&` in it begins a reference. */
  lemma {:induction false} EscapeIsSafe(s: string)
    ensures Safe(Escape(s))
    decreases |s|
  {
    if |s| > 0 {
      EscapeIsSafe(s[1..]);
      SafeEscapeChar(s[0]);
      SafeAppend(EscapeChar(s[0]), Escape(s[1..]));
    }
  }

  lemma SafeEscapeChar(c: char)
    ensures Safe(EscapeChar(c))
  {
    var e := EscapeChar(c);
    if IsSpecial(c) {
      EntityAtEscapeChar(c, []);
      assert e + [] == e;
      forall i | 0 <= i < |e|
        ensures !IsMarkupChar(e[i]) && (e[i] == '&' ==> EntityAt(e[i..]).Some?)
      {
        assert e[0..] == e;
      }
    }
  }

  /** Escaped text stays escaped when two pieces are joined. */
  lemma SafeAppend(a: string, b: string)
    requires Safe(a) && Safe(b)
    ensures Safe(a + b)
  {
    var t := a + b;
    forall i | 0 <= i < |t|
      ensures !IsMarkupChar(t[i]) && (t[i] == '&' ==> EntityAt(t[i..]).Some?)
    {
      if i < |a| {
        assert t[i] == a[i];
        if a[i] == '&' {
          EntityAtPrefix(a[i..], t[i..], b);
        }
      } else {
        assert t[i] == b[i - |a|];
        assert t[i..] == b[i - |a|..];
      }
    }
  }

  /** A reference found at the start of `s` is found there in any extension
      of `s`: `EntityAt` reads no further than the reference it finds. */
  lemma EntityAtPrefix(s: string, t: string, rest: string)
    requires EntityAt(s).Some? && t == s + rest
    ensures EntityAt(t) == EntityAt(s)
  {
    var n := EntityAt(s).value.1;
    forall i | 0 <= i < n
      ensures t[i] == s[i]
    {
    }
  }

  // ---- escaping is a homomorphism ----

  /** `escapeHTML` treats each character on its own: escaping a
      concatenation is the concatenation of the escapes. */
  lemma {:induction false} EscapeAppend(a: string, b: string)
    ensures Escape(a + b) == Escape(a) + Escape(b)
    decreases |a|
  {
    if |a| == 0 {
      assert a + b == b;
    } else {
      EscapeAppend(a[1..], b);
      EscapeCons(a, b, Escape(a[1..] + b));
    }
  }

  /** One step of `EscapeAppend`: the first character of `a + b` is the
      first of `a`, and the rest is the rest of `a` followed by `b`. */
  lemma EscapeCons(a: string, b: string, tail: string)
    requires |a| > 0 && tail == Escape(a[1..] + b)
    ensures Escape(a + b) == EscapeChar(a[0]) + tail
  {
    var ab := a + b;
    assert ab[0] == a[0];
    assert ab[1..] == a[1..] + b;
  }

  /** A one-character string becomes that character's replacement. */
  lemma EscapeSingle(c: char)
    ensures Escape([c]) == EscapeChar(c)
  {
    assert [c][1..] == [];
  }

  // ---- reading references back ----

  /** A replacement at the start of a text is recognised as a reference to
      its character; any other character starts none. */
  lemma EntityAtEscapeChar(c: char, rest: string)
    ensures IsSpecial(c) ==> EntityAt(EscapeChar(c) + rest) == Some((c, |EscapeChar(c)|))
    ensures !IsSpecial(c) ==> EntityAt(EscapeChar(c) + rest) == None
  {
    var e := EscapeChar(c);
    var t := e + rest;
    forall i | 0 <= i < |e|
      ensures t[i] == e[i]
    {
    }
  }

  /** One replacement followed by anything reads back as that character. */
  lemma UnescapeEscapeChar(c: char, rest: string)
    ensures Unescape(EscapeChar(c) + rest) == [c] + Unescape(rest)
  {
    var e := EscapeChar(c);
    var t := e + rest;
    EntityAtEscapeChar(c, rest);
    assert t[|e|..] == rest;
    if !IsSpecial(c) {
      assert t[0] == c;
    }
  }

  /** Round trip: reading the references back recovers the input exactly. */
  lemma {:induction false} UnescapeEscape(s: string)
    ensures Unescape(Escape(s)) == s
    decreases |s|
  {
    if |s| > 0 {
      UnescapeEscapeChar(s[0], Escape(s[1..]));
      UnescapeEscape(s[1..]);
      assert [s[0]] + s[1..] == s;
    }
  }

  /** The reference `EntityAt` finds is spelled exactly as `escapeHTML`
      spells its character. */
  lemma EntityAtSpells(s: string)
    requires EntityAt(s).Some?
    ensures s[..EntityAt(s).value.1] == EscapeChar(EntityAt(s).value.0)
  {
  }

  lemma SafeSuffix(t: string, k: nat)
    requires Safe(t) && k <= |t|
    ensures Safe(t[k..])
  {
    var u := t[k..];
    forall i | 0 <= i < |u|
      ensures !IsMarkupChar(u[i]) && (u[i] == '&' ==> EntityAt(u[i..]).Some?)
    {
      assert u[i] == t[k + i];
      assert u[i..] == t[k + i..];
    }
  }

  /** The other direction: every escaped text is the escape of exactly what
      `Unescape` reads from it, so `Escape` is a bijection between all
      strings and the `Safe` ones. */
  lemma {:induction false} EscapeUnescape(t: string)
    requires Safe(t)
    ensures Escape(Unescape(t)) == t
    decreases |t|
  {
    if |t| > 0 {
      match EntityAt(t)
      case Some((c, n)) =>
        EscapeUnescapeEntity(t, c, n);
      case None =>
        EscapeUnescapeChar(t);
    }
  }

  lemma {:induction false} EscapeUnescapeEntity(t: string, c: char, n: nat)
    requires Safe(t) && EntityAt(t) == Some((c, n))
    ensures Escape(Unescape(t)) == t
    decreases |t|, 0
  {
    SafeSuffix(t, n);
    EscapeUnescape(t[n..]);
    EntityAtSpells(t);
    assert Unescape(t) == [c] + Unescape(t[n..]);
    EscapeAppend([c], Unescape(t[n..]));
    EscapeSingle(c);
    assert t == t[..n] + t[n..];
  }

  lemma {:induction false} EscapeUnescapeChar(t: string)
    requires Safe(t) && |t| > 0 && EntityAt(t).None?
    ensures Escape(Unescape(t)) == t
    decreases |t|, 0
  {
    assert t[0] != '&' && !IsMarkupChar(t[0]);
    SafeSuffix(t, 1);
    EscapeUnescape(t[1..]);
    assert Unescape(t) == [t[0]] + Unescape(t[1..]);
    EscapeAppend([t[0]], Unescape(t[1..]));
    EscapeSingle(t[0]);
    assert t == [t[0]] + t[1..];
  }

  // ---- plain text ----

  /** Escaping never shortens a text. */
  lemma {:induction false} EscapeLength(s: string)
    ensures |Escape(s)| >= |s|
    decreases |s|
  {
    if |s| > 0 {
      EscapeLength(s[1..]);
    }
  }

  /** `escapeHTML` leaves a text unchanged exactly when it holds none of
      the five special characters. */
  lemma {:induction false} EscapePlain(s: string)
    ensures Escape(s) == s <==> Plain(s)
    decreases |s|
  {
    if |s| > 0 {
      EscapePlain(s[1..]);
      EscapeLength(s[1..]);
      var e := Escape(s);
      assert e == EscapeChar(s[0]) + Escape(s[1..]);
      if IsSpecial(s[0]) {
        assert |e| > |s|;
      } else {
        assert EscapeChar(s[0]) == [s[0]];
        assert s == [s[0]] + s[1..];
        assert e == s <==> Escape(s[1..]) == s[1..];
        assert Plain(s) <==> Plain(s[1..]) by {
          if Plain(s[1..]) {
            forall i | 0 <= i < |s| ensures !IsSpecial(s[i]) {
              if i > 0 { assert s[i] == s[1..][i - 1]; }
            }
          }
        }
      }
    }
  }

  /** Plain text is left alone by `Unescape` as well. */
  lemma UnescapePlain(s: string)
    requires Plain(s)
    ensures Unescape(s) == s
  {
    EscapePlain(s);
    UnescapeEscape(s);
  }
}
