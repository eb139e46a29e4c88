/** Escaping untrusted text, and undoing it. Entities as in section 4.6 of XML 1.0, plus &#39;. */
module Prompts {

  // ---- the escapers, as the chain of replacements they are ----

  function Replace(text: string, find: char, substitute: string): string {
    if text == "" then ""
    else (if text[0] == find then substitute else [text[0]]) + Replace(text[1..], find, substitute)
  }

  function EscapeUntrusted(text: string): string {
    Replace(Replace(Replace(text, '&', "&amp;"), '<', "&lt;"), '>', "&gt;")
  }

  function EscapeAttribute(value: string): string {
    Replace(Replace(EscapeUntrusted(value), '"', "&quot;"), '\'', "&#39;")
  }

  // ---- one pass over the characters ----

  function ContentChar(c: char): string {
    if c == '&' then "&amp;" else if c == '<' then "&lt;" else if c == '>' then "&gt;" else [c]
  }

  function AttributeChar(c: char): string {
    if c == '"' then "&quot;" else if c == '\'' then "&#39;" else ContentChar(c)
  }

  function PerChar(text: string, f: char -> string): string {
    if text == "" then "" else f(text[0]) + PerChar(text[1..], f)
  }

  lemma {:induction false} ReplaceConcat(a: string, b: string, find: char, substitute: string)
    ensures Replace(a + b, find, substitute) == Replace(a, find, substitute) + Replace(b, find, substitute)
  {
    if a == "" {
      assert a + b == b;
    } else {
      assert (a + b)[1..] == a[1..] + b;
      ReplaceConcat(a[1..], b, find, substitute);
    }
  }

  lemma {:induction false} ReplaceAbsent(text: string, find: char, substitute: string)
    requires find !in text
    ensures Replace(text, find, substitute) == text
  {
    if text != "" {
      ReplaceAbsent(text[1..], find, substitute);
    }
  }

  lemma ReplaceOne(c: char, find: char, substitute: string)
    ensures Replace([c], find, substitute) == if c == find then substitute else [c]
  {
    assert [c][1..] == "";
  }

  /** Escaping the ampersand first is what makes the later replacements leave its entity alone. */
  lemma ContentOneChar(c: char)
    ensures EscapeUntrusted([c]) == ContentChar(c)
  {
    ReplaceOne(c, '&', "&amp;");
    if c == '&' {
      ReplaceAbsent("&amp;", '<', "&lt;");
      ReplaceAbsent("&amp;", '>', "&gt;");
    } else {
      ReplaceOne(c, '<', "&lt;");
      if c == '<' {
        ReplaceAbsent("&lt;", '>', "&gt;");
      } else {
        ReplaceOne(c, '>', "&gt;");
      }
    }
  }

  lemma ContentConcat(a: string, b: string)
    ensures EscapeUntrusted(a + b) == EscapeUntrusted(a) + EscapeUntrusted(b)
  {
    ReplaceConcat(a, b, '&', "&amp;");
    var x, y := Replace(a, '&', "&amp;"), Replace(b, '&', "&amp;");
    ReplaceConcat(x, y, '<', "&lt;");
    ReplaceConcat(Replace(x, '<', "&lt;"), Replace(y, '<', "&lt;"), '>', "&gt;");
  }

  lemma AttributeConcat(a: string, b: string)
    ensures EscapeAttribute(a + b) == EscapeAttribute(a) + EscapeAttribute(b)
  {
    ContentConcat(a, b);
    var x, y := EscapeUntrusted(a), EscapeUntrusted(b);
    ReplaceConcat(x, y, '"', "&quot;");
    ReplaceConcat(Replace(x, '"', "&quot;"), Replace(y, '"', "&quot;"), '\'', "&#39;");
  }

  lemma AttributeOneChar(c: char)
    ensures EscapeAttribute([c]) == AttributeChar(c)
  {
    ContentOneChar(c);
    if c == '"' || c == '\'' {
      ReplaceOne(c, '"', "&quot;");
      if c == '"' {
        ReplaceAbsent("&quot;", '\'', "&#39;");
      } else {
        ReplaceOne(c, '\'', "&#39;");
      }
    } else {
      assert '"' !in ContentChar(c) && '\'' !in ContentChar(c);
      ReplaceAbsent(ContentChar(c), '"', "&quot;");
      ReplaceAbsent(ContentChar(c), '\'', "&#39;");
    }
  }

  /** The chain of three replacements, and the chain of five, are each one pass that looks at every character once. */
  lemma {:induction false} SequentialIsOnePass(text: string)
    ensures EscapeUntrusted(text) == PerChar(text, ContentChar)
    ensures EscapeAttribute(text) == PerChar(text, AttributeChar)
  {
    if text != "" {
      SequentialIsOnePass(text[1..]);
      ContentOneChar(text[0]);
      AttributeOneChar(text[0]);
      assert text == [text[0]] + text[1..];
      ContentConcat([text[0]], text[1..]);
      AttributeConcat([text[0]], text[1..]);
    }
  }

  // ---- decoding ----

  predicate Starts(s: string, prefix: string) {
    |prefix| <= |s| && s[..|prefix|] == prefix
  }

  /** The character that starts a string, an entity counting as one, and how much of the string spells it. */
  function Head(s: string): (r: (char, nat))
    requires s != ""
    ensures 1 <= r.1 <= |s|
  {
    if Starts(s, "&amp;") then ('&', 5)
    else if Starts(s, "&lt;") then ('<', 4)
    else if Starts(s, "&gt;") then ('>', 4)
    else if Starts(s, "&quot;") then ('"', 6)
    else if Starts(s, "&#39;") then ('\'', 5)
    else (s[0], 1)
  }

  /** Reads entities back; anything else stands for itself. */
  function Decode(s: string): string
    decreases |s|
  {
    if s == "" then "" else [Head(s).0] + Decode(s[Head(s).1..])
  }

  lemma HeadOfPlain(c: char, rest: string)
    requires c != '&'
    ensures Head([c] + rest) == (c, 1)
  {
    assert ([c] + rest)[0] == c;
  }

  /** No entity starts another: their second letters tell them apart. */
  lemma HeadOfEntity(e: string, rest: string)
    requires e in {"&amp;", "&lt;", "&gt;", "&quot;", "&#39;"}
    ensures Head(e + rest) == Head(e) && Head(e).1 == |e|
  {
    var s := e + rest;
    assert s[1] == e[1] && s[..|e|] == e;
    assert forall f :: f in {"&amp;", "&lt;", "&gt;", "&quot;", "&#39;"} && Starts(s, f) ==> f[1] == s[..|f|][1] == s[1];
  }

  lemma DecodeOne(c: char, e: string, rest: string)
    requires e == AttributeChar(c) || e == ContentChar(c)
    ensures Decode(e + rest) == [c] + Decode(rest)
  {
    if |e| == 1 {
      HeadOfPlain(c, rest);
    } else {
      HeadOfEntity(e, rest);
      assert Head(e).0 == c;
    }
    assert (e + rest)[|e|..] == rest;
  }

  /** Escaping loses nothing: for every string, the decoder gives back what was escaped, in content and in attributes. */
  lemma {:induction false} DecodeUndoesEscaping(text: string)
    ensures Decode(EscapeUntrusted(text)) == text
    ensures Decode(EscapeAttribute(text)) == text
  {
    SequentialIsOnePass(text);
    if text != "" {
      DecodeUndoesEscaping(text[1..]);
      SequentialIsOnePass(text[1..]);
      DecodeOne(text[0], ContentChar(text[0]), PerChar(text[1..], ContentChar));
      DecodeOne(text[0], AttributeChar(text[0]), PerChar(text[1..], AttributeChar));
    }
  }

  lemma {:induction false} PerCharAvoids(text: string, f: char -> string, bad: char)
    requires forall c :: bad !in f(c)
    ensures bad !in PerChar(text, f)
  {
    if text != "" {
      PerCharAvoids(text[1..], f, bad);
    }
  }

  /** Escaped content holds no angle bracket; an escaped attribute holds no quote either, so it cannot be closed early. */
  lemma EscapedHoldsNoMarkup(text: string)
    ensures '<' !in EscapeUntrusted(text) && '>' !in EscapeUntrusted(text)
    ensures '<' !in EscapeAttribute(text) && '>' !in EscapeAttribute(text)
    ensures '"' !in EscapeAttribute(text) && '\'' !in EscapeAttribute(text)
  {
    SequentialIsOnePass(text);
    PerCharAvoids(text, ContentChar, '<');
    PerCharAvoids(text, ContentChar, '>');
    PerCharAvoids(text, AttributeChar, '<');
    PerCharAvoids(text, AttributeChar, '>');
    PerCharAvoids(text, AttributeChar, '"');
    PerCharAvoids(text, AttributeChar, '\'');
  }
}
