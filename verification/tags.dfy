/** How the start tags the renderers write come out of `Serialize`. A
    renderer spells each start tag as one string literal with the escaped
    data spliced in; these lemmas state that such a literal is exactly how
    `Serialize` writes the corresponding `Open` token, so that the
    renderers' output can be read as a token sequence. */
module Tags {
  import opened HtmlEscape
  import opened Markup

  /** Attribute values that escaping leaves alone. */
  predicate PlainAttrs(attrs: seq<Attr>) {
    forall i :: 0 <= i < |attrs| ==> Plain(attrs[i].value)
  }

  /** Attribute names the reader accepts. */
  predicate NamedKeys(attrs: seq<Attr>) {
    forall i :: 0 <= i < |attrs| ==> IsName(attrs[i].key)
  }

  /** Plain text is written as it stands. */
  lemma {:induction false} PlainEscapes(s: string)
    requires Plain(s)
    ensures Escape(s) == s
    decreases |s|
  {
    if |s| > 0 {
      assert Plain(s[1..]) by {
        forall i | 0 <= i < |s| - 1 ensures !IsSpecial(s[1..][i]) {
          assert s[1..][i] == s[i + 1];
        }
      }
      PlainEscapes(s[1..]);
      assert s == [s[0]] + s[1..];
    }
  }

  /** Escaping a plain prefix followed by data escapes only the data. */
  lemma EscapeAfterPlain(p: string, s: string)
    requires Plain(p)
    ensures Escape(p + s) == p + Escape(s)
  {
    EscapeAppend(p, s);
    PlainEscapes(p);
  }

  lemma {:induction false} EncodeValuesAppend(a: seq<Attr>, b: seq<Attr>)
    ensures EncodeValues(a + b) == EncodeValues(a) + EncodeValues(b)
    decreases |a|
  {
    if |a| == 0 {
      assert a + b == b;
    } else {
      assert (a + b)[0] == a[0] && (a + b)[1..] == a[1..] + b;
      EncodeValuesAppend(a[1..], b);
    }
  }

  lemma {:induction false} WriteAttrsAppend(a: seq<Attr>, b: seq<Attr>)
    ensures WriteAttrs(a + b) == WriteAttrs(a) + WriteAttrs(b)
    decreases |a|
  {
    if |a| == 0 {
      assert a + b == b;
    } else {
      assert (a + b)[0] == a[0] && (a + b)[1..] == a[1..] + b;
      WriteAttrsAppend(a[1..], b);
    }
  }

  lemma {:induction false} EncodePlain(attrs: seq<Attr>)
    requires PlainAttrs(attrs)
    ensures EncodeValues(attrs) == attrs
    decreases |attrs|
  {
    if |attrs| > 0 {
      PlainEscapes(attrs[0].value);
      assert PlainAttrs(attrs[1..]) by {
        forall i | 0 <= i < |attrs| - 1 ensures Plain(attrs[1..][i].value) {
          assert attrs[1..][i] == attrs[i + 1];
        }
      }
      EncodePlain(attrs[1..]);
      assert [attrs[0]] + attrs[1..] == attrs;
    }
  }

  lemma WriteOne(a: Attr)
    ensures WriteAttrs([a]) == WriteAttr(a)
  {
    assert [a][1..] == [];
  }

  lemma EncodeOne(a: Attr)
    ensures EncodeValues([a]) == [Attr(a.key, Escape(a.value))]
  {
    assert [a][1..] == [];
  }

  /** A start tag whose attribute values need no escaping is written as it
      stands. */
  lemma FixedOpen(n: string, attrs: seq<Attr>)
    requires PlainAttrs(attrs)
    ensures TokenMarkup(Open(n, attrs)) == "<" + n + WriteAttrs(attrs) + ">"
  {
    EncodePlain(attrs);
  }

  /** The attributes of a start tag around one attribute whose value comes
      from the data: only that value is escaped. */
  lemma OneValueAttrs(before: seq<Attr>, k: string, v: string, after: seq<Attr>)
    requires PlainAttrs(before) && PlainAttrs(after)
    ensures WriteAttrs(EncodeValues(before + [Attr(k, v)] + after))
      == WriteAttrs(before) + (" " + k + "=\"" + Escape(v) + "\"") + WriteAttrs(after)
  {
    var a := Attr(k, v);
    EncodeValuesAppend(before + [a], after);
    EncodeValuesAppend(before, [a]);
    EncodePlain(before);
    EncodePlain(after);
    EncodeOne(a);
    var e := Attr(k, Escape(v));
    WriteAttrsAppend(before + [e], after);
    WriteAttrsAppend(before, [e]);
    WriteOne(e);
  }

  lemma OneValueOpen(n: string, before: seq<Attr>, k: string, v: string, after: seq<Attr>)
    requires PlainAttrs(before) && PlainAttrs(after)
    ensures TokenMarkup(Open(n, before + [Attr(k, v)] + after))
      == ("<" + n + WriteAttrs(before) + (" " + k + "=\"")) + Escape(v) + ("\"" + WriteAttrs(after) + ">")
  {
    OneValueAttrs(before, k, v, after);
    Regroup("<" + n, WriteAttrs(before), " " + k + "=\"", Escape(v), "\"", WriteAttrs(after), ">");
  }

  /** The same with two values from the data. */
  lemma TwoValueOpen(n: string, before: seq<Attr>, k1: string, v1: string,
                     middle: seq<Attr>, k2: string, v2: string)
    requires PlainAttrs(before) && PlainAttrs(middle)
    ensures TokenMarkup(Open(n, before + [Attr(k1, v1)] + middle + [Attr(k2, v2)]))
      == ("<" + n + WriteAttrs(before) + (" " + k1 + "=\"")) + Escape(v1)
         + ("\"" + WriteAttrs(middle) + (" " + k2 + "=\"")) + Escape(v2) + ("\"" + ">")
  {
    var head := before + [Attr(k1, v1)] + middle;
    var a2 := Attr(k2, v2);
    EncodeValuesAppend(head, [a2]);
    EncodeOne(a2);
    var e2 := Attr(k2, Escape(v2));
    WriteAttrsAppend(EncodeValues(head), [e2]);
    WriteOne(e2);
    OneValueAttrs(before, k1, v1, middle);
    var w := WriteAttrs(EncodeValues(head));
    assert w == WriteAttrs(before) + (" " + k1 + "=\"" + Escape(v1) + "\"") + WriteAttrs(middle);
    Regroup2("<" + n, WriteAttrs(before), " " + k1 + "=\"", Escape(v1), "\"", WriteAttrs(middle),
             " " + k2 + "=\"", Escape(v2), "\"", ">");
  }

  /** A start tag with one fixed `class`. */
  lemma ClassOpenSpelled(n: string, cls: string)
    requires Plain(cls)
    ensures TokenMarkup(Open(n, [Attr("class", cls)])) == "<" + n + " class=\"" + cls + "\">"
  {
    FixedOpen(n, [Attr("class", cls)]);
    WriteOne(Attr("class", cls));
    QuoteSpelling();
    Regroup3("<" + n, " class=\"", cls, "\"", ">");
  }

  /** The head of a start tag with a fixed `class` before a value from the
      data. */
  lemma ClassValueHead(n: string, cls: string, k: string)
    ensures "<" + n + WriteAttrs([Attr("class", cls)]) + (" " + k + "=\"")
         == "<" + n + " class=\"" + cls + "\" " + k + "=\""
  {
    WriteOne(Attr("class", cls));
    QuoteSpelling();
    Regroup4("<" + n, " class=\"", cls, "\"", " ", k, "=\"");
  }

  /** A start tag with two fixed attributes. */
  lemma TwoFixedOpen(n: string, k1: string, v1: string, k2: string, v2: string)
    requires Plain(v1) && Plain(v2)
    ensures TokenMarkup(Open(n, [Attr(k1, v1), Attr(k2, v2)]))
         == "<" + n + " " + k1 + "=\"" + v1 + "\" " + k2 + "=\"" + v2 + "\">"
  {
    TwoPlain(k1, v1, k2, v2);
    FixedOpen(n, [Attr(k1, v1), Attr(k2, v2)]);
    TwoAttrs(k1, v1, k2, v2);
    QuoteSpelling();
    Regroup5("<" + n, " ", k1, "=\"", v1, "\"", k2, v2, ">");
  }

  /** The head of a start tag with two fixed attributes before a value from
      the data. */
  lemma TwoAttrHead(n: string, k1: string, v1: string, k2: string, v2: string, k: string)
    ensures "<" + n + WriteAttrs([Attr(k1, v1), Attr(k2, v2)]) + (" " + k + "=\"")
         == "<" + n + " " + k1 + "=\"" + v1 + "\" " + k2 + "=\"" + v2 + "\" " + k + "=\""
  {
    TwoAttrs(k1, v1, k2, v2);
    QuoteSpelling();
    Regroup6("<" + n, " ", k1, "=\"", v1, "\"", k2, v2, k);
  }

  lemma TwoPlain(k1: string, v1: string, k2: string, v2: string)
    requires Plain(v1) && Plain(v2)
    ensures PlainAttrs([Attr(k1, v1), Attr(k2, v2)])
  {
  }

  lemma TwoAttrs(k1: string, v1: string, k2: string, v2: string)
    ensures WriteAttrs([Attr(k1, v1), Attr(k2, v2)])
         == (" " + k1 + "=\"" + v1 + "\"") + (" " + k2 + "=\"" + v2 + "\"")
  {
    assert [Attr(k1, v1), Attr(k2, v2)][1..] == [Attr(k2, v2)];
    WriteOne(Attr(k2, v2));
  }

  lemma QuoteSpelling()
    ensures " " + "class" + "=\"" == " class=\""
    ensures "\"" + ">" == "\">" && "\"" + " " == "\" "
  {
  }

  lemma Regroup3(a: string, b: string, c: string, d: string, e: string)
    requires b == " " + "class" + "=\""
    ensures a + (" " + "class" + "=\"" + c + d) + e == a + b + c + (d + e)
  {
  }

  lemma Regroup4(a: string, b: string, c: string, d: string, s: string, k: string, q: string)
    requires b == " " + "class" + "=\""
    ensures a + (" " + "class" + "=\"" + c + d) + (s + k + q) == a + b + c + (d + s) + k + q
  {
  }

  lemma Regroup5(a: string, s: string, k1: string, e: string, v1: string, q: string,
                 k2: string, v2: string, g: string)
    ensures a + ((s + k1 + e + v1 + q) + (s + k2 + e + v2 + q)) + g
         == a + s + k1 + e + v1 + (q + s) + k2 + e + v2 + (q + g)
  {
  }

  lemma Regroup6(a: string, s: string, k1: string, e: string, v1: string, q: string,
                 k2: string, v2: string, k: string)
    ensures a + ((s + k1 + e + v1 + q) + (s + k2 + e + v2 + q)) + (s + k + e)
         == a + s + k1 + e + v1 + (q + s) + k2 + e + v2 + (q + s) + k + e
  {
  }

  lemma Regroup(a: string, b: string, c: string, d: string, e: string, f: string, g: string)
    ensures a + (b + (c + d + e) + f) + g == (a + b + c) + d + (e + f + g)
  {
  }

  lemma Regroup2(a: string, b: string, c: string, d: string, e: string, f: string,
                 g: string, h: string, i: string, j: string)
    ensures a + (b + (c + d + e) + f + (g + h + i)) + j
         == (a + b + c) + d + (e + f + g) + h + (i + j)
  {
  }
}
