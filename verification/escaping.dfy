/**
  The two escaping functions of the file writer, `attributeEscape` and
  `textEscape`. Both are written as in the source: a chain of
  `replacingOccurrences` calls, with `&` replaced first. The lemmas show that
  each chain equals a per-character map (`EscapeMap`). From that map they
  derive what the output may contain, and that decoding the five predefined
  entities of XML 1.0 (section 4.6) gives back the input.
*/
module Escaping {
  import opened Wrappers

  /** Where an escaped string is written: inside a quoted attribute value, or as text. */
  datatype Context = Attribute | Text

  // ---------------------------------------------------------------------------
  // The functions as the source writes them
  // ---------------------------------------------------------------------------

  /**
    `s.replacingOccurrences(of: target, with: replacement)` for a one-character
    target, on a string taken as a sequence of Unicode scalars.
  */
  function Replacing(s: string, target: char, replacement: string): string
  {
    if s == [] then []
    else (if s[0] == target then replacement else [s[0]]) + Replacing(s[1..], target, replacement)
  }

  lemma {:induction false} ReplacingAbsent(s: string, target: char, replacement: string)
    requires target !in s
    ensures Replacing(s, target, replacement) == s
  {
    if s != [] {
      assert s[0] != target;
      ReplacingAbsent(s[1..], target, replacement);
    }
  }

  /** Every occurrence of the target is replaced, so none is left unless the replacement holds one. */
  lemma {:induction false} ReplacingRemovesTarget(s: string, target: char, replacement: string)
    requires target !in replacement
    ensures target !in Replacing(s, target, replacement)
  {
    if s != [] {
      ReplacingRemovesTarget(s[1..], target, replacement);
    }
  }

  /** A character absent from both the string and the replacement stays absent. */
  lemma {:induction false} ReplacingKeepsAbsent(s: string, target: char, replacement: string, c: char)
    requires c !in s && c !in replacement
    ensures c !in Replacing(s, target, replacement)
  {
    if s != [] {
      assert s[0] != c;
      ReplacingKeepsAbsent(s[1..], target, replacement, c);
    }
  }

  /** The five-step chain that both escapes use in full mode: it removes every `<`, `>`, `"` and `'`. */
  function FullReplacements(t: string): (r: string)
    ensures '<' !in r && '>' !in r && '"' !in r && '\'' !in r
  {
    var amp := Replacing(t, '&', "&amp;");
    var lt := Replacing(amp, '<', "&lt;");
    var gt := Replacing(lt, '>', "&gt;");
    var quot := Replacing(gt, '"', "&quot;");
    ReplacingRemovesTarget(amp, '<', "&lt;");
    ReplacingRemovesTarget(lt, '>', "&gt;");
    ReplacingRemovesTarget(gt, '"', "&quot;");
    ReplacingRemovesTarget(quot, '\'', "&apos;");
    ReplacingKeepsAbsent(lt, '>', "&gt;", '<');
    ReplacingKeepsAbsent(gt, '"', "&quot;", '<');
    ReplacingKeepsAbsent(quot, '\'', "&apos;", '<');
    ReplacingKeepsAbsent(gt, '"', "&quot;", '>');
    ReplacingKeepsAbsent(quot, '\'', "&apos;", '>');
    ReplacingKeepsAbsent(quot, '\'', "&apos;", '"');
    Replacing(quot, '\'', "&apos;")
  }

  /** `attributeEscape`: nil becomes the empty string; no `<` or `"` is left, nor `>` or `'` in full mode. */
  function AttributeEscape(fullEscapes: bool, text: Option<string>): (r: string)
    ensures text.None? ==> r == ""
    ensures '<' !in r && '"' !in r
    ensures fullEscapes ==> '>' !in r && '\'' !in r
  {
    match text
    case None => ""
    case Some(t) =>
      if fullEscapes then FullReplacements(t)
      else
        var lt := Replacing(Replacing(t, '&', "&amp;"), '<', "&lt;");
        ReplacingRemovesTarget(Replacing(t, '&', "&amp;"), '<', "&lt;");
        ReplacingRemovesTarget(lt, '"', "&quot;");
        ReplacingKeepsAbsent(lt, '"', "&quot;", '<');
        Replacing(lt, '"', "&quot;")
  }

  /** `textEscape`: nil becomes the empty string; no `<` is left, nor `>`, `"` or `'` in full mode. */
  function TextEscape(fullEscapes: bool, text: Option<string>): (r: string)
    ensures text.None? ==> r == ""
    ensures '<' !in r
    ensures fullEscapes ==> '>' !in r && '"' !in r && '\'' !in r
  {
    match text
    case None => ""
    case Some(t) =>
      if fullEscapes then FullReplacements(t)
      else
        ReplacingRemovesTarget(Replacing(t, '&', "&amp;"), '<', "&lt;");
        Replacing(Replacing(t, '&', "&amp;"), '<', "&lt;")
  }

  // ---------------------------------------------------------------------------
  // Reference definition: one character at a time
  // ---------------------------------------------------------------------------

  /** Whether `c` is replaced by an entity in the given mode and context. */
  predicate Escaped(c: char, fullEscapes: bool, ctx: Context)
  {
    c == '&' || c == '<' || (ctx == Attribute && c == '"')
    || (fullEscapes && (c == '>' || c == '"' || c == '\''))
  }

  /** The predefined entity reference for one of the five markup characters. */
  function Reference(c: char): string
  {
    if c == '&' then "&amp;"
    else if c == '<' then "&lt;"
    else if c == '>' then "&gt;"
    else if c == '"' then "&quot;"
    else "&apos;"
  }

  function EscapeChar(c: char, fullEscapes: bool, ctx: Context): string
  {
    if Escaped(c, fullEscapes, ctx) then Reference(c) else [c]
  }

  function EscapeMap(s: string, fullEscapes: bool, ctx: Context): string
  {
    if s == [] then [] else EscapeChar(s[0], fullEscapes, ctx) + EscapeMap(s[1..], fullEscapes, ctx)
  }

  // ---------------------------------------------------------------------------
  // Partner: decoding the predefined entities
  // ---------------------------------------------------------------------------

  predicate StartsWithReference(s: string)
  {
    "&amp;" <= s || "&lt;" <= s || "&gt;" <= s || "&quot;" <= s || "&apos;" <= s
  }

  /** Every `&` in `s` begins one of the five predefined entity references. */
  predicate AmpersandsAreReferences(s: string)
  {
    forall i :: 0 <= i < |s| && s[i] == '&' ==> StartsWithReference(s[i..])
  }

  /** What an XML parser reads back: each predefined entity reference becomes its character. */
  function Unescape(s: string): string
    decreases |s|
  {
    if s == [] then []
    else if "&amp;" <= s then "&" + Unescape(s[5..])
    else if "&lt;" <= s then "<" + Unescape(s[4..])
    else if "&gt;" <= s then ">" + Unescape(s[4..])
    else if "&quot;" <= s then "\"" + Unescape(s[6..])
    else if "&apos;" <= s then "'" + Unescape(s[6..])
    else [s[0]] + Unescape(s[1..])
  }

  // ---------------------------------------------------------------------------
  // The chains equal the per-character map
  // ---------------------------------------------------------------------------

  lemma {:induction false} ReplacingDistributes(a: string, b: string, target: char, replacement: string)
    ensures Replacing(a + b, target, replacement) == Replacing(a, target, replacement) + Replacing(b, target, replacement)
  {
    if a == [] {
      assert a + b == b;
    } else {
      assert (a + b)[1..] == a[1..] + b;
      ReplacingDistributes(a[1..], b, target, replacement);
    }
  }

  lemma ReplacingOne(c: char, target: char, replacement: string)
    ensures Replacing([c], target, replacement) == if c == target then replacement else [c]
  {
    assert [c][1..] == [];
  }

  lemma FullReplacementsDistributes(a: string, b: string)
    ensures FullReplacements(a + b) == FullReplacements(a) + FullReplacements(b)
  {
    var a1, b1 := Replacing(a, '&', "&amp;"), Replacing(b, '&', "&amp;");
    ReplacingDistributes(a, b, '&', "&amp;");
    var a2, b2 := Replacing(a1, '<', "&lt;"), Replacing(b1, '<', "&lt;");
    ReplacingDistributes(a1, b1, '<', "&lt;");
    var a3, b3 := Replacing(a2, '>', "&gt;"), Replacing(b2, '>', "&gt;");
    ReplacingDistributes(a2, b2, '>', "&gt;");
    var a4, b4 := Replacing(a3, '"', "&quot;"), Replacing(b3, '"', "&quot;");
    ReplacingDistributes(a3, b3, '"', "&quot;");
    ReplacingDistributes(a4, b4, '\'', "&apos;");
  }

  predicate MarkupChar(m: char)
  {
    m == '<' || m == '>' || m == '"' || m == '\''
  }

  /** No entity reference contains one of the markup characters `<`, `>`, `"`, `'`. */
  lemma ReferenceHasNoMarkup(c: char, m: char)
    requires MarkupChar(m)
    ensures m !in Reference(c)
  {
    if c == '&' {
      assert Reference(c) == ['&', 'a', 'm', 'p', ';'];
    } else if c == '<' {
      assert Reference(c) == ['&', 'l', 't', ';'];
    } else if c == '>' {
      assert Reference(c) == ['&', 'g', 't', ';'];
    } else if c == '"' {
      assert Reference(c) == ['&', 'q', 'u', 'o', 't', ';'];
    } else {
      assert Reference(c) == ['&', 'a', 'p', 'o', 's', ';'];
    }
  }

  /** Applying a replacement of some other markup character to one escaped character. */
  lemma ReplacingKeepsEscapedChar(c: char, fullEscapes: bool, ctx: Context, target: char, replacement: string)
    requires MarkupChar(target) && target != c
    ensures Replacing(EscapeChar(c, fullEscapes, ctx), target, replacement) == EscapeChar(c, fullEscapes, ctx)
  {
    ReferenceHasNoMarkup(c, target);
    ReplacingAbsent(EscapeChar(c, fullEscapes, ctx), target, replacement);
  }

  /**
    One step of a chain on a single character: if the steps so far left `x` as
    the escaped character (`done`) or as the character itself, so does this one.
  */
  lemma ChainStep(c: char, fullEscapes: bool, ctx: Context, x: string, done: bool, target: char, replacement: string)
    requires MarkupChar(target)
    requires done ==> target != c && x == EscapeChar(c, fullEscapes, ctx)
    requires !done ==> x == [c]
    ensures Replacing(x, target, replacement) == if done then x else if c == target then replacement else [c]
  {
    if done {
      ReplacingKeepsEscapedChar(c, fullEscapes, ctx, target, replacement);
    } else {
      ReplacingOne(c, target, replacement);
    }
  }

  lemma FullReplacementsChar(c: char, ctx: Context)
    ensures FullReplacements([c]) == EscapeChar(c, true, ctx)
  {
    var e := EscapeChar(c, true, ctx);
    var r1 := Replacing([c], '&', "&amp;");
    ReplacingOne(c, '&', "&amp;");
    assert r1 == if c == '&' then e else [c];
    var r2 := Replacing(r1, '<', "&lt;");
    ChainStep(c, true, ctx, r1, c == '&', '<', "&lt;");
    assert r2 == if c == '&' || c == '<' then e else [c];
    var r3 := Replacing(r2, '>', "&gt;");
    ChainStep(c, true, ctx, r2, c == '&' || c == '<', '>', "&gt;");
    assert r3 == if c == '&' || c == '<' || c == '>' then e else [c];
    var r4 := Replacing(r3, '"', "&quot;");
    ChainStep(c, true, ctx, r3, c == '&' || c == '<' || c == '>', '"', "&quot;");
    assert r4 == if c == '&' || c == '<' || c == '>' || c == '"' then e else [c];
    var r5 := Replacing(r4, '\'', "&apos;");
    ChainStep(c, true, ctx, r4, c == '&' || c == '<' || c == '>' || c == '"', '\'', "&apos;");
    assert r5 == FullReplacements([c]);
  }

  lemma MinimalAttributeChar(c: char)
    ensures Replacing(Replacing(Replacing([c], '&', "&amp;"), '<', "&lt;"), '"', "&quot;") == EscapeChar(c, false, Attribute)
  {
    var e := EscapeChar(c, false, Attribute);
    var r1 := Replacing([c], '&', "&amp;");
    ReplacingOne(c, '&', "&amp;");
    assert r1 == if c == '&' then e else [c];
    var r2 := Replacing(r1, '<', "&lt;");
    ChainStep(c, false, Attribute, r1, c == '&', '<', "&lt;");
    assert r2 == if c == '&' || c == '<' then e else [c];
    ChainStep(c, false, Attribute, r2, c == '&' || c == '<', '"', "&quot;");
  }

  lemma MinimalTextChar(c: char)
    ensures Replacing(Replacing([c], '&', "&amp;"), '<', "&lt;") == EscapeChar(c, false, Text)
  {
    ReplacingOne(c, '&', "&amp;");
    if c == '&' {
      ReplacingKeepsEscapedChar(c, false, Text, '<', "&lt;");
    } else {
      ReplacingOne(c, '<', "&lt;");
    }
  }

  /** The chained `attributeEscape` is the per-character map of the attribute context. */
  lemma {:induction false} AttributeEscapeIsCharMap(fullEscapes: bool, s: string)
    ensures AttributeEscape(fullEscapes, Some(s)) == EscapeMap(s, fullEscapes, Attribute)
  {
    if s != [] {
      var c, rest := s[0], s[1..];
      assert s == [c] + rest;
      AttributeEscapeIsCharMap(fullEscapes, rest);
      if fullEscapes {
        FullReplacementsDistributes([c], rest);
        FullReplacementsChar(c, Attribute);
      } else {
        ReplacingDistributes([c], rest, '&', "&amp;");
        var c1, rest1 := Replacing([c], '&', "&amp;"), Replacing(rest, '&', "&amp;");
        ReplacingDistributes(c1, rest1, '<', "&lt;");
        ReplacingDistributes(Replacing(c1, '<', "&lt;"), Replacing(rest1, '<', "&lt;"), '"', "&quot;");
        MinimalAttributeChar(c);
      }
    }
  }

  /** The chained `textEscape` is the per-character map of the text context. */
  lemma {:induction false} TextEscapeIsCharMap(fullEscapes: bool, s: string)
    ensures TextEscape(fullEscapes, Some(s)) == EscapeMap(s, fullEscapes, Text)
  {
    if s != [] {
      var c, rest := s[0], s[1..];
      assert s == [c] + rest;
      TextEscapeIsCharMap(fullEscapes, rest);
      if fullEscapes {
        FullReplacementsDistributes([c], rest);
        FullReplacementsChar(c, Text);
      } else {
        ReplacingDistributes([c], rest, '&', "&amp;");
        ReplacingDistributes(Replacing([c], '&', "&amp;"), Replacing(rest, '&', "&amp;"), '<', "&lt;");
        MinimalTextChar(c);
      }
    }
  }

  // ---------------------------------------------------------------------------
  // Properties of the per-character map
  // ---------------------------------------------------------------------------

  /** Decoding a reference followed by anything gives the referenced character first. */
  lemma UnescapeReference(c: char, t: string)
    requires c == '&' || c == '<' || MarkupChar(c)
    ensures Unescape(Reference(c) + t) == [c] + Unescape(t)
  {
    var r := Reference(c) + t;
    assert r[|Reference(c)|..] == t;
    if c == '&' {
      assert "&amp;" <= r;
    } else if c == '<' {
      assert r[..4] == "&lt;";
      assert !("&amp;" <= r) by { assert r[1] == 'l'; }
    } else if c == '>' {
      assert r[..4] == "&gt;";
      assert !("&amp;" <= r) && !("&lt;" <= r) by { assert r[1] == 'g'; }
    } else if c == '"' {
      assert r[..6] == "&quot;";
      assert !("&amp;" <= r) && !("&lt;" <= r) && !("&gt;" <= r) by { assert r[1] == 'q'; }
    } else {
      assert r[..6] == "&apos;";
      assert !("&amp;" <= r) && !("&lt;" <= r) && !("&gt;" <= r) && !("&quot;" <= r) by { assert r[1] == 'a' && r[2] == 'p'; }
    }
  }

  /** Decoding undoes escaping, in every mode and context. */
  lemma {:induction false} EscapeMapRoundTrip(s: string, fullEscapes: bool, ctx: Context)
    ensures Unescape(EscapeMap(s, fullEscapes, ctx)) == s
  {
    if s != [] {
      var c, t := s[0], EscapeMap(s[1..], fullEscapes, ctx);
      EscapeMapRoundTrip(s[1..], fullEscapes, ctx);
      if Escaped(c, fullEscapes, ctx) {
        UnescapeReference(c, t);
      } else {
        var r := [c] + t;
        assert r[0] == c && c != '&';
        assert r[1..] == t;
      }
      assert s == [c] + s[1..];
    }
  }

  /** One escaped character: no `<`, and a `&` only at its start, where it begins a reference. */
  lemma EscapeCharShape(c: char, fullEscapes: bool, ctx: Context)
    ensures |EscapeChar(c, fullEscapes, ctx)| >= 1
    ensures '<' !in EscapeChar(c, fullEscapes, ctx)
    ensures '&' !in EscapeChar(c, fullEscapes, ctx)[1..]
    ensures EscapeChar(c, fullEscapes, ctx)[0] == '&' ==> StartsWithReference(EscapeChar(c, fullEscapes, ctx))
  {
    var e := EscapeChar(c, fullEscapes, ctx);
    if Escaped(c, fullEscapes, ctx) {
      assert forall x :: x in e ==> x in "&amp;lt;gt;quot;apos";
      assert forall x :: x in e[1..] ==> x in "amp;lt;gt;quot;apos";
    } else {
      assert e[1..] == [];
    }
  }

  /** Escaped output never holds `<`, and every `&` in it starts an entity reference. */
  lemma {:induction false} EscapeMapWellFormed(s: string, fullEscapes: bool, ctx: Context)
    ensures '<' !in EscapeMap(s, fullEscapes, ctx)
    ensures AmpersandsAreReferences(EscapeMap(s, fullEscapes, ctx))
  {
    if s != [] {
      var e, t := EscapeChar(s[0], fullEscapes, ctx), EscapeMap(s[1..], fullEscapes, ctx);
      EscapeMapWellFormed(s[1..], fullEscapes, ctx);
      EscapeCharShape(s[0], fullEscapes, ctx);
      var r := e + t;
      assert EscapeMap(s, fullEscapes, ctx) == r;
      forall i | 0 <= i < |r| && r[i] == '&'
        ensures StartsWithReference(r[i..])
      {
        if i < |e| {
          assert i == 0;
          assert e <= r;
        } else {
          assert r[i..] == t[i - |e|..];
        }
      }
    }
  }

  /**
    For each markup character other than `&`: it appears in the escaped output
    exactly when it appears in the input and is not escaped in this mode.
  */
  lemma {:induction false} EscapeMapMarkupChars(s: string, fullEscapes: bool, ctx: Context, m: char)
    requires MarkupChar(m)
    ensures m in EscapeMap(s, fullEscapes, ctx) <==> m in s && !Escaped(m, fullEscapes, ctx)
  {
    if s != [] {
      var c, e := s[0], EscapeChar(s[0], fullEscapes, ctx);
      EscapeMapMarkupChars(s[1..], fullEscapes, ctx, m);
      ReferenceHasNoMarkup(c, m);
      assert m in e <==> c == m && !Escaped(m, fullEscapes, ctx);
      assert m in s <==> c == m || m in s[1..] by { assert s == [c] + s[1..]; }
    }
  }

  /** A string with no character to escape is returned unchanged. */
  lemma {:induction false} EscapeMapIdentity(s: string, fullEscapes: bool, ctx: Context)
    requires forall i :: 0 <= i < |s| ==> !Escaped(s[i], fullEscapes, ctx)
    ensures EscapeMap(s, fullEscapes, ctx) == s
  {
    if s != [] {
      EscapeMapIdentity(s[1..], fullEscapes, ctx);
      assert s == [s[0]] + s[1..];
    }
  }

  // ---------------------------------------------------------------------------
  // The properties stated for the source's two functions
  // ---------------------------------------------------------------------------

  /** `attributeEscape`: nil gives "", no `<`, only entity ampersands, and decoding gives the input back. */
  lemma AttributeEscapeSafe(fullEscapes: bool, text: Option<string>)
    ensures text.None? ==> AttributeEscape(fullEscapes, text) == ""
    ensures '<' !in AttributeEscape(fullEscapes, text)
    ensures AmpersandsAreReferences(AttributeEscape(fullEscapes, text))
    ensures Unescape(AttributeEscape(fullEscapes, text)) == text.GetOr("")
  {
    if text.Some? {
      AttributeEscapeIsCharMap(fullEscapes, text.value);
      EscapeMapWellFormed(text.value, fullEscapes, Attribute);
      EscapeMapRoundTrip(text.value, fullEscapes, Attribute);
    }
  }

  /** `textEscape`: nil gives "", no `<`, only entity ampersands, and decoding gives the input back. */
  lemma TextEscapeSafe(fullEscapes: bool, text: Option<string>)
    ensures text.None? ==> TextEscape(fullEscapes, text) == ""
    ensures '<' !in TextEscape(fullEscapes, text)
    ensures AmpersandsAreReferences(TextEscape(fullEscapes, text))
    ensures Unescape(TextEscape(fullEscapes, text)) == text.GetOr("")
  {
    if text.Some? {
      TextEscapeIsCharMap(fullEscapes, text.value);
      EscapeMapWellFormed(text.value, fullEscapes, Text);
      EscapeMapRoundTrip(text.value, fullEscapes, Text);
    }
  }

  /** Minimal mode, attribute context: `"` is removed, `>` and `'` are kept exactly where they were. */
  lemma MinimalAttributeEscape(s: string)
    ensures '"' !in AttributeEscape(false, Some(s))
    ensures '>' in AttributeEscape(false, Some(s)) <==> '>' in s
    ensures '\'' in AttributeEscape(false, Some(s)) <==> '\'' in s
  {
    AttributeEscapeIsCharMap(false, s);
    EscapeMapMarkupChars(s, false, Attribute, '"');
    EscapeMapMarkupChars(s, false, Attribute, '>');
    EscapeMapMarkupChars(s, false, Attribute, '\'');
  }

  /** Minimal mode, text context: only `&` and `<` change; `>`, `"` and `'` are kept. */
  lemma MinimalTextEscape(s: string)
    ensures '>' in TextEscape(false, Some(s)) <==> '>' in s
    ensures '"' in TextEscape(false, Some(s)) <==> '"' in s
    ensures '\'' in TextEscape(false, Some(s)) <==> '\'' in s
    ensures '&' !in s && '<' !in s ==> TextEscape(false, Some(s)) == s
  {
    TextEscapeIsCharMap(false, s);
    EscapeMapMarkupChars(s, false, Text, '>');
    EscapeMapMarkupChars(s, false, Text, '"');
    EscapeMapMarkupChars(s, false, Text, '\'');
    if '&' !in s && '<' !in s {
      assert forall i :: 0 <= i < |s| ==> s[i] in s;
      EscapeMapIdentity(s, false, Text);
    }
  }

  /** A string free of the characters a mode escapes comes back from either escape unchanged. */
  lemma EscapesKeepPlainText(fullEscapes: bool, s: string)
    requires forall i :: 0 <= i < |s| ==> !Escaped(s[i], fullEscapes, Attribute)
    ensures AttributeEscape(fullEscapes, Some(s)) == s
    ensures TextEscape(fullEscapes, Some(s)) == s
  {
    AttributeEscapeIsCharMap(fullEscapes, s);
    TextEscapeIsCharMap(fullEscapes, s);
    EscapeMapIdentity(s, fullEscapes, Attribute);
    EscapeMapIdentity(s, fullEscapes, Text);
  }
}
