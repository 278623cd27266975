/** The markup the renderers emit, read back. A page fragment is meant to
    be a sequence of tokens (start tags with attributes, end tags and text
    characters); `Serialize` writes such a sequence the way the renderers
    do, escaping text and attribute values, and `Tokenize` reads markup the
    way an HTML parser reads this subset: a `<` followed by a name starts a
    tag, attribute values run to the closing quote, and the five character
    references stand for their characters. `TokenizeSerialize` shows that
    nothing written by `Serialize` can be read back as a different
    structure, whatever the text contains.

    Both directions are split in two. Writing first escapes every attribute
    value (`EncodeTokens`) and then writes the tokens out with values
    verbatim; reading first splits the markup into tokens with values as
    written (`Lex`) and then decodes the values (`DecodeTokens`). */
module Markup {
  import opened Wrappers
  import opened HtmlEscape

  datatype Attr = Attr(key: string, value: string)

  datatype Token =
    | Open(name: string, attrs: seq<Attr>)
    | Close(name: string)
    | Chr(c: char)

  predicate IsNameChar(c: char) {
    'a' <= c <= 'z' || 'A' <= c <= 'Z' || '0' <= c <= '9' || c == '-'
  }

  predicate IsName(s: string) {
    |s| > 0 && forall i :: 0 <= i < |s| ==> IsNameChar(s[i])
  }

  /** Tag and attribute names are proper names; text may be anything. */
  predicate WellFormed(t: Token) {
    match t
    case Open(n, attrs) => IsName(n) && forall i :: 0 <= i < |attrs| ==> IsName(attrs[i].key)
    case Close(n) => IsName(n)
    case Chr(_) => true
  }

  predicate AllWellFormed(ts: seq<Token>) {
    forall i :: 0 <= i < |ts| ==> WellFormed(ts[i])
  }

  // ---- building token sequences ----

  /** The characters of a text, as text tokens. */
  function Text(s: string): (ts: seq<Token>)
    ensures |ts| == |s|
  {
    if |s| == 0 then [] else [Chr(s[0])] + Text(s[1..])
  }

  /** An element: its start tag, its content and its end tag. */
  function Element(name: string, attrs: seq<Attr>, content: seq<Token>): seq<Token> {
    [Open(name, attrs)] + content + [Close(name)]
  }

  // ---- attribute values ----

  /** Attribute values escaped, as the writer puts them between quotes. */
  function EncodeValues(attrs: seq<Attr>): (r: seq<Attr>)
    ensures |r| == |attrs|
  {
    if |attrs| == 0 then []
    else [Attr(attrs[0].key, Escape(attrs[0].value))] + EncodeValues(attrs[1..])
  }

  /** Attribute values with their character references decoded. */
  function DecodeValues(attrs: seq<Attr>): (r: seq<Attr>)
    ensures |r| == |attrs|
  {
    if |attrs| == 0 then []
    else [Attr(attrs[0].key, Unescape(attrs[0].value))] + DecodeValues(attrs[1..])
  }

  /** A token as written: attribute values escaped. */
  function EncodeToken(t: Token): Token {
    match t
    case Open(n, attrs) => Open(n, EncodeValues(attrs))
    case _ => t
  }

  /** A token as read: attribute values with their references decoded. */
  function DecodeToken(t: Token): Token {
    match t
    case Open(n, attrs) => Open(n, DecodeValues(attrs))
    case _ => t
  }

  function EncodeTokens(ts: seq<Token>): (r: seq<Token>)
    ensures |r| == |ts|
  {
    if |ts| == 0 then [] else [EncodeToken(ts[0])] + EncodeTokens(ts[1..])
  }

  function DecodeTokens(ts: seq<Token>): (r: seq<Token>)
    ensures |r| == |ts|
  {
    if |ts| == 0 then [] else [DecodeToken(ts[0])] + DecodeTokens(ts[1..])
  }

  // ---- writing ----

  /** One attribute ` key="value"`, the value written as it is. */
  function WriteAttr(a: Attr): string {
    " " + a.key + "=\"" + a.value + "\""
  }

  function WriteAttrs(attrs: seq<Attr>): string {
    if |attrs| == 0 then "" else WriteAttr(attrs[0]) + WriteAttrs(attrs[1..])
  }

  /** Markup of one token: text escaped, attribute values escaped. */
  function TokenMarkup(t: Token): string {
    match t
    case Open(n, attrs) => "<" + n + WriteAttrs(EncodeValues(attrs)) + ">"
    case Close(n) => "</" + n + ">"
    case Chr(c) => EscapeChar(c)
  }

  function Serialize(ts: seq<Token>): string {
    if |ts| == 0 then "" else TokenMarkup(ts[0]) + Serialize(ts[1..])
  }

  // ---- reading ----

  /** The input of the reader: the characters of the markup as a list, so
      that each step of the reader hands what it did not consume to the
      next step, as an HTML tokenizer consumes its input stream. */
  datatype Chars = Empty | Cons(head: char, tail: Chars)

  function Len(cs: Chars): nat {
    match cs
    case Empty => 0
    case Cons(_, rest) => 1 + Len(rest)
  }

  /** The characters of `s`, followed by `rest`. */
  function Spell(s: string, rest: Chars): (cs: Chars)
    ensures Len(cs) == |s| + Len(rest)
  {
    if |s| == 0 then rest else Cons(s[0], Spell(s[1..], rest))
  }

  /** The next (at most) `k` characters, as a string. */
  function Peek(cs: Chars, k: nat): (p: string)
    ensures |p| <= k && |p| <= Len(cs)
  {
    if k == 0 then []
    else
      match cs
      case Empty => []
      case Cons(c, rest) => [c] + Peek(rest, k - 1)
  }

  /** The input after its first `k` characters. */
  function Skip(cs: Chars, k: nat): (r: Chars)
    ensures k <= Len(cs) ==> Len(r) == Len(cs) - k
  {
    if k == 0 then cs
    else
      match cs
      case Empty => Empty
      case Cons(_, rest) => Skip(rest, k - 1)
  }

  /** The longest run of name characters, and the input after it. */
  function TakeName(cs: Chars): (r: (string, Chars))
    ensures Len(r.1) <= Len(cs)
  {
    match cs
    case Empty => ([], Empty)
    case Cons(c, rest) =>
      if IsNameChar(c) then
        var p := TakeName(rest);
        ([c] + p.0, p.1)
      else ([], cs)
  }

  /** The characters up to (not including) the next `"`, and the input from
      that `"` on. */
  function TakeValue(cs: Chars): (r: (string, Chars))
    ensures Len(r.1) <= Len(cs)
  {
    match cs
    case Empty => ([], Empty)
    case Cons(c, rest) =>
      if c == '"' then ([], cs)
      else
        var p := TakeValue(rest);
        ([c] + p.0, p.1)
  }

  /** One attribute ` key="value"`, and the input after it; the value is
      read up to the next `"` and kept as written. */
  function ParseAttr(cs: Chars): (r: Option<(Attr, Chars)>)
    ensures r.Some? ==> Len(r.value.1) < Len(cs) && cs.Cons? && cs.head == ' '
  {
    match cs
    case Cons(' ', rest) =>
      var k := TakeName(rest);
      if |k.0| == 0 then None
      else
        (match k.1
         case Cons('=', Cons('"', v)) =>
           assert Len(k.1) == 2 + Len(v);
           var p := TakeValue(v);
           (match p.1
            case Cons('"', after) => Some((Attr(k.0, p.0), after))
            case _ => None)
         case _ => None)
    case _ => None
  }

  /** Attributes up to and including the `>` closing a start tag, and the
      input after it; values as written. */
  function ParseAttrs(cs: Chars): (r: Option<(seq<Attr>, Chars)>)
    ensures r.Some? ==> Len(r.value.1) < Len(cs)
    decreases Len(cs)
  {
    match cs
    case Empty => None
    case Cons('>', rest) => Some(([], rest))
    case _ =>
      match ParseAttr(cs)
      case None => None
      case Some((a, rest)) =>
        match ParseAttrs(rest)
        case None => None
        case Some((more, after)) => Some(([a] + more, after))
  }

  /** An end tag, read from just after its `</`. */
  function ParseEndTag(cs: Chars): (r: Option<(Token, Chars)>)
    ensures r.Some? ==> Len(r.value.1) < Len(cs)
  {
    var k := TakeName(cs);
    if |k.0| == 0 then None
    else
      match k.1
      case Cons('>', after) => Some((Close(k.0), after))
      case _ => None
  }

  /** A start tag, read from just after its `<`. */
  function ParseStartTag(cs: Chars): (r: Option<(Token, Chars)>)
    ensures r.Some? ==> Len(r.value.1) < Len(cs)
  {
    var k := TakeName(cs);
    if |k.0| == 0 then None
    else
      match ParseAttrs(k.1)
      case None => None
      case Some((attrs, after)) => Some((Open(k.0, attrs), after))
  }

  /** A tag, read from just after its `<`. */
  function ParseTag(cs: Chars): (r: Option<(Token, Chars)>)
    ensures r.Some? ==> Len(r.value.1) < Len(cs)
  {
    match cs
    case Cons('/', rest) => ParseEndTag(rest)
    case _ => ParseStartTag(cs)
  }

  /** Splits markup into tokens, attribute values as written. A `<` that
      does not begin a tag, and an `&` that does not begin one of the five
      references, are read as themselves. */
  function Lex(cs: Chars): seq<Token>
    decreases Len(cs)
  {
    match cs
    case Empty => []
    case Cons(c, rest) =>
      if c == '<' then
        match ParseTag(rest)
        case Some((t, after)) => [t] + Lex(after)
        case None => [Chr('<')] + Lex(rest)
      else
        match EntityAt(Peek(cs, 6))
        case Some((d, n)) => [Chr(d)] + Lex(Skip(cs, n))
        case None => [Chr(c)] + Lex(rest)
  }

  /** Reads markup as tokens: split, then decode attribute values. */
  function Tokenize(s: string): seq<Token> {
    DecodeTokens(Lex(Spell(s, Empty)))
  }

  // ---- spelling strings out ----

  /** Spelling a concatenation spells its parts one after the other. */
  lemma {:induction false} SpellAppend(a: string, b: string, rest: Chars)
    ensures Spell(a + b, rest) == Spell(a, Spell(b, rest))
    decreases |a|
  {
    if |a| == 0 {
      assert a + b == b;
    } else {
      assert (a + b)[0] == a[0];
      assert (a + b)[1..] == a[1..] + b;
      SpellAppend(a[1..], b, rest);
    }
  }

  /** The next characters of a spelled string are that string. */
  lemma {:induction false} PeekSpell(e: string, rest: Chars, k: nat)
    requires |e| <= k
    ensures Peek(Spell(e, rest), k) == e + Peek(rest, k - |e|)
    decreases |e|
  {
    if |e| > 0 {
      PeekSpell(e[1..], rest, k - 1);
      assert e == [e[0]] + e[1..];
    }
  }

  /** Skipping a spelled string leaves what follows it. */
  lemma {:induction false} SkipSpell(e: string, rest: Chars)
    ensures Skip(Spell(e, rest), |e|) == rest
    decreases |e|
  {
    if |e| > 0 {
      SkipSpell(e[1..], rest);
    }
  }

  /** `cs` cannot continue a name. */
  predicate EndsName(cs: Chars) {
    cs.Cons? && !IsNameChar(cs.head)
  }

  /** No `"` in a text. */
  predicate NoQuote(v: string) {
    forall j :: 0 <= j < |v| ==> v[j] != '"'
  }

  /** Attributes the writer can write so that they read back: each key a
      name and no value containing the quote that closes it. */
  predicate Writable(attrs: seq<Attr>) {
    |attrs| == 0 || (IsName(attrs[0].key) && NoQuote(attrs[0].value) && Writable(attrs[1..]))
  }

  lemma {:induction false} TakeNameSpell(n: string, rest: Chars)
    requires forall i :: 0 <= i < |n| ==> IsNameChar(n[i])
    requires EndsName(rest)
    ensures TakeName(Spell(n, rest)) == (n, rest)
    decreases |n|
  {
    if |n| > 0 {
      assert forall i :: 0 <= i < |n[1..]| ==> IsNameChar(n[1..][i]) by {
        forall i | 0 <= i < |n[1..]| ensures IsNameChar(n[1..][i]) {
          assert n[1..][i] == n[i + 1];
        }
      }
      TakeNameSpell(n[1..], rest);
      assert [n[0]] + n[1..] == n;
    }
  }

  lemma {:induction false} TakeValueSpell(v: string, rest: Chars)
    requires NoQuote(v)
    ensures TakeValue(Spell(v, Cons('"', rest))) == (v, Cons('"', rest))
    decreases |v|
  {
    if |v| > 0 {
      assert NoQuote(v[1..]) by {
        forall j | 0 <= j < |v[1..]| ensures v[1..][j] != '"' {
          assert v[1..][j] == v[j + 1];
        }
      }
      TakeValueSpell(v[1..], rest);
      assert [v[0]] + v[1..] == v;
    }
  }

  // ---- the written attributes read back ----

  lemma WriteAttrSpell(a: Attr, rest: Chars)
    ensures Spell(WriteAttr(a), rest)
      == Cons(' ', Spell(a.key, Cons('=', Cons('"', Spell(a.value, Cons('"', rest))))))
  {
    var q := Spell("\"", rest);
    var v := Spell(a.value, q);
    var e := Spell("=\"", v);
    SpellAppend(" " + a.key + "=\"" + a.value, "\"", rest);
    SpellAppend(" " + a.key + "=\"", a.value, q);
    SpellAppend(" " + a.key, "=\"", v);
    SpellAppend(" ", a.key, e);
    SpellOne(' ', Spell(a.key, e));
    SpellOne('"', rest);
    SpellTwo('=', '"', v);
  }

  lemma SpellOne(c: char, rest: Chars)
    ensures Spell([c], rest) == Cons(c, rest)
  {
    assert [c][1..] == [];
  }

  lemma SpellTwo(c: char, d: char, rest: Chars)
    ensures Spell([c, d], rest) == Cons(c, Cons(d, rest))
  {
    assert [c, d][1..] == [d];
    SpellOne(d, rest);
  }

  /** One written attribute is read back whole. */
  lemma ParseWrittenAttr(a: Attr, rest: Chars)
    requires IsName(a.key) && NoQuote(a.value)
    ensures ParseAttr(Spell(WriteAttr(a), rest)) == Some((a, rest))
  {
    WriteAttrSpell(a, rest);
    TakeValueSpell(a.value, rest);
    TakeNameSpell(a.key, Cons('=', Cons('"', Spell(a.value, Cons('"', rest)))));
  }

  /** Written attributes, then the `>` of their tag, are read back as they
      were, and the reader continues after the `>`. */
  lemma {:induction false} ParseWrittenAttrs(attrs: seq<Attr>, rest: Chars)
    requires Writable(attrs)
    ensures ParseAttrs(Spell(WriteAttrs(attrs), Cons('>', rest))) == Some((attrs, rest))
    decreases |attrs|
  {
    if |attrs| > 0 {
      var tail := Spell(WriteAttrs(attrs[1..]), Cons('>', rest));
      SpellAppend(WriteAttr(attrs[0]), WriteAttrs(attrs[1..]), Cons('>', rest));
      ParseWrittenAttr(attrs[0], tail);
      ParseWrittenAttrs(attrs[1..], rest);
      assert [attrs[0]] + attrs[1..] == attrs;
    }
  }

  /** Written attributes, and the `>` after them, begin with a space or the
      `>`: never with a name character. */
  lemma WriteAttrsStart(attrs: seq<Attr>, rest: Chars)
    ensures EndsName(Spell(WriteAttrs(attrs), Cons('>', rest)))
  {
    if |attrs| > 0 {
      SpellAppend(WriteAttr(attrs[0]), WriteAttrs(attrs[1..]), Cons('>', rest));
      WriteAttrSpell(attrs[0], Spell(WriteAttrs(attrs[1..]), Cons('>', rest)));
    }
  }

  /** Escaped values contain no `"`, so well-formed attributes are written
      so that they read back. */
  lemma {:induction false} EncodedWritable(attrs: seq<Attr>)
    requires forall i :: 0 <= i < |attrs| ==> IsName(attrs[i].key)
    ensures Writable(EncodeValues(attrs))
    decreases |attrs|
  {
    if |attrs| > 0 {
      var e := EncodeValues(attrs);
      assert e[1..] == EncodeValues(attrs[1..]);
      assert IsName(attrs[0].key);
      EncodedWritable(attrs[1..]);
      EscapedHasNoQuote(attrs[0].value);
    }
  }

  lemma EscapedHasNoQuote(v: string)
    ensures NoQuote(Escape(v))
  {
    EscapeIsSafe(v);
  }

  /** Decoding undoes encoding, attribute by attribute. */
  lemma {:induction false} DecodeEncodeValues(attrs: seq<Attr>)
    ensures DecodeValues(EncodeValues(attrs)) == attrs
    decreases |attrs|
  {
    if |attrs| > 0 {
      var e := EncodeValues(attrs);
      assert e[1..] == EncodeValues(attrs[1..]);
      DecodeEncodeValues(attrs[1..]);
      UnescapeEscape(attrs[0].value);
      assert [attrs[0]] + attrs[1..] == attrs;
    }
  }

  // ---- lexing written markup ----

  lemma OpenSpell(n: string, w: string, rest: Chars)
    ensures Spell("<" + n + w + ">", rest) == Cons('<', Spell(n, Spell(w, Cons('>', rest))))
  {
    SpellAppend("<" + n + w, ">", rest);
    SpellAppend("<" + n, w, Cons('>', rest));
    SpellAppend("<", n, Spell(w, Cons('>', rest)));
  }

  /** A start tag as the writer writes it is read as one token, values as
      written. */
  lemma LexOpen(n: string, w: seq<Attr>, rest: Chars)
    requires IsName(n) && Writable(w)
    ensures Lex(Spell("<" + n + WriteAttrs(w) + ">", rest)) == [Open(n, w)] + Lex(rest)
  {
    var after := Spell(WriteAttrs(w), Cons('>', rest));
    OpenSpell(n, WriteAttrs(w), rest);
    ParseWrittenAttrs(w, rest);
    WriteAttrsStart(w, rest);
    TakeNameSpell(n, after);
    assert ParseTag(Spell(n, after)) == Some((Open(n, w), rest));
  }

  lemma LexClose(n: string, rest: Chars)
    requires IsName(n)
    ensures Lex(Spell(TokenMarkup(Close(n)), rest)) == [Close(n)] + Lex(rest)
  {
    SpellAppend("</" + n, ">", rest);
    SpellAppend("</", n, Cons('>', rest));
    TakeNameSpell(n, Cons('>', rest));
  }

  lemma LexChr(c: char, rest: Chars)
    ensures Lex(Spell(TokenMarkup(Chr(c)), rest)) == [Chr(c)] + Lex(rest)
  {
    var e := EscapeChar(c);
    PeekSpell(e, rest, 6);
    EntityAtEscapeChar(c, Peek(rest, 6 - |e|));
    if IsSpecial(c) {
      SkipSpell(e, rest);
    }
  }

  /** Reading the markup of one token returns that token, values as
      written, and leaves the rest of the input where it was. */
  lemma LexStep(t: Token, rest: Chars)
    requires WellFormed(t)
    ensures Lex(Spell(TokenMarkup(t), rest)) == [EncodeToken(t)] + Lex(rest)
  {
    match t
    case Open(n, attrs) =>
      EncodedWritable(attrs);
      LexOpen(n, EncodeValues(attrs), rest);
    case Close(n) => LexClose(n, rest);
    case Chr(c) => LexChr(c, rest);
  }

  /** Splitting written markup gives back the tokens with their values as
      the writer escaped them. */
  lemma {:induction false} LexSerialize(ts: seq<Token>)
    requires AllWellFormed(ts)
    ensures Lex(Spell(Serialize(ts), Empty)) == EncodeTokens(ts)
    decreases |ts|
  {
    if |ts| > 0 {
      SpellAppend(TokenMarkup(ts[0]), Serialize(ts[1..]), Empty);
      LexStep(ts[0], Spell(Serialize(ts[1..]), Empty));
      LexSerialize(ts[1..]);
    }
  }

  /** Decoding undoes encoding, token by token. */
  lemma {:induction false} DecodeEncodeTokens(ts: seq<Token>)
    ensures DecodeTokens(EncodeTokens(ts)) == ts
    decreases |ts|
  {
    if |ts| > 0 {
      var e := EncodeTokens(ts);
      assert e[1..] == EncodeTokens(ts[1..]);
      DecodeEncodeTokens(ts[1..]);
      if ts[0].Open? {
        DecodeEncodeValues(ts[0].attrs);
      }
      assert [ts[0]] + ts[1..] == ts;
    }
  }

  /** The main property of the pair: `Tokenize` inverts `Serialize` on
      well-formed token sequences. */
  lemma TokenizeSerialize(ts: seq<Token>)
    requires AllWellFormed(ts)
    ensures Tokenize(Serialize(ts)) == ts
  {
    LexSerialize(ts);
    DecodeEncodeTokens(ts);
  }

  // ---- serializing pieces ----

  lemma {:induction false} SerializeAppend(a: seq<Token>, b: seq<Token>)
    ensures Serialize(a + b) == Serialize(a) + Serialize(b)
    decreases |a|
  {
    if |a| == 0 {
      assert a + b == b;
    } else {
      assert (a + b)[0] == a[0] && (a + b)[1..] == a[1..] + b;
      SerializeAppend(a[1..], b);
    }
  }

  /** Text is written escaped. */
  lemma {:induction false} SerializeText(s: string)
    ensures Serialize(Text(s)) == Escape(s)
    decreases |s|
  {
    if |s| > 0 {
      assert Text(s)[1..] == Text(s[1..]);
      SerializeText(s[1..]);
    }
  }

  lemma SerializeElement(name: string, attrs: seq<Attr>, content: seq<Token>)
    ensures Serialize(Element(name, attrs, content))
      == TokenMarkup(Open(name, attrs)) + Serialize(content) + TokenMarkup(Close(name))
  {
    SerializeAppend([Open(name, attrs)] + content, [Close(name)]);
    SerializeAppend([Open(name, attrs)], content);
    assert Serialize([Close(name)]) == TokenMarkup(Close(name));
  }
}
