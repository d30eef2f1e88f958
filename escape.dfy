/** The one-rule escaper both query builders apply to a search term
    (Python's term.replace('"', '\\"'), JavaScript's
    term.replace(/"/g, '\\"')), and the graph renderer applies to every DOT
    field: each '"' becomes '\"' and nothing else changes. Backslashes,
    line feeds and carriage returns pass through untouched. */
module Escape {
  import opened Text
  import opened SparqlLexer

  function QuoteCount(s: string): nat
    decreases |s|
  {
    if s == [] then 0 else (if s[0] == '"' then 1 else 0) + QuoteCount(s[1..])
  }

  /** Every '"' of s replaced by '\"'. The result is one character longer per
      quote, and every quote in it directly follows a backslash. */
  function EscapeQuotes(s: string): (r: string)
    ensures |r| == |s| + QuoteCount(s)
    ensures forall i :: 0 <= i < |r| && r[i] == '"' ==> 0 < i && r[i - 1] == '\\'
    decreases |s|
  {
    if s == [] then ""
    else (if s[0] == '"' then "\\\"" else [s[0]]) + EscapeQuotes(s[1..])
  }

  /** Deletes the character in front of every '"' (a quote at index 0 has
      none and stays). */
  function Unescape(s: string): string
    decreases |s|
  {
    if |s| >= 2 && s[1] == '"' then "\"" + Unescape(s[2..])
    else if s == [] then ""
    else [s[0]] + Unescape(s[1..])
  }

  /** Deleting the character in front of each quote undoes the escaper. */
  lemma {:induction false} UnescapeEscape(s: string)
    ensures Unescape(EscapeQuotes(s)) == s
    decreases |s|
  {
    if s != [] {
      var r := EscapeQuotes(s[1..]);
      UnescapeEscape(s[1..]);
      if s[0] == '"' {
        assert EscapeQuotes(s) == "\\\"" + r;
        assert ("\\\"" + r)[2..] == r;
      } else {
        assert EscapeQuotes(s) == [s[0]] + r;
        assert r == [] || r[0] != '"';
        assert ([s[0]] + r)[1..] == r;
      }
    }
  }

  /** The escaper works character by character, so it distributes over
      concatenation. */
  lemma {:induction false} EscapeAppend(a: string, b: string)
    ensures EscapeQuotes(a + b) == EscapeQuotes(a) + EscapeQuotes(b)
    decreases |a|
  {
    if a == [] {
      assert a + b == b;
    } else {
      EscapeAppend(a[1..], b);
      assert (a + b)[0] == a[0];
      assert (a + b)[1..] == a[1..] + b;
    }
  }

  lemma {:induction false} EscapeQuoteFree(a: string)
    requires forall i :: 0 <= i < |a| ==> a[i] != '"'
    ensures EscapeQuotes(a) == a
    decreases |a|
  {
    if a != [] {
      EscapeQuoteFree(a[1..]);
    }
  }

  /** The escaper adds only backslashes: any other character absent from
      the text is absent from its escaped form. */
  lemma {:induction false} EscapeKeepsOut(s: string, c: char)
    requires c != '\\' && c !in s
    ensures c !in EscapeQuotes(s)
    decreases |s|
  {
    if s != [] {
      assert c !in s[1..] by { assert forall d :: d in s[1..] ==> d in s; }
      EscapeKeepsOut(s[1..], c);
      assert s[0] != c;
    }
  }

  // ---------------------------------------------------------------------------
  // The escaped term read as the body of a SPARQL string literal
  // ---------------------------------------------------------------------------

  /** No backslash, line feed or carriage return: the characters the escaper
      leaves alone but the STRING_LITERAL2 rule treats specially. */
  predicate LiteralSafe(s: string) {
    forall i :: 0 <= i < |s| ==> s[i] != '\\' && s[i] != '\n' && s[i] != '\r'
  }

  lemma ExtendTwice(v0: string, n: nat, v1: string, m: nat, r: Option<(string, nat)>)
    ensures Extend(v0, n, Extend(v1, m, r)) == Extend(v0 + v1, n + m, r)
  {
    match r
    case None =>
    case Some((v, k)) => assert v0 + (v1 + v) == (v0 + v1) + v;
  }

  lemma EscapedQuoteStep(y: string)
    ensures LiteralBody("\\\"" + y) == Extend("\"", 2, LiteralBody(y))
  {
    assert ("\\\"" + y)[2..] == y;
  }

  lemma PlainStep(c: char, y: string)
    requires c != '"' && c != '\\' && c != '\n' && c != '\r'
    ensures LiteralBody([c] + y) == Extend([c], 1, LiteralBody(y))
  {
    assert ([c] + y)[1..] == y;
  }

  /** Reading the escaped form of one character that needs no escape of
      its own in a literal. */
  lemma LiteralCharStep(c: char, y: string)
    requires c != '\\' && c != '\n' && c != '\r'
    ensures LiteralBody(EscapeQuotes([c]) + y) == Extend([c], |EscapeQuotes([c])|, LiteralBody(y))
  {
    assert EscapeQuotes([c]) == (if c == '"' then "\\\"" else [c]) by {
      assert [c][1..] == [];
    }
    if c == '"' {
      EscapedQuoteStep(y);
    } else {
      PlainStep(c, y);
    }
  }

  /** One character more in front: the literal read from the escaped text
      grows by that character. */
  lemma LiteralConsStep(c: char, t: string, x: string)
    requires c != '\\' && c != '\n' && c != '\r'
    requires LiteralBody(EscapeQuotes(t) + x) == Extend(t, |EscapeQuotes(t)|, LiteralBody(x))
    ensures LiteralBody(EscapeQuotes([c] + t) + x) == Extend([c] + t, |EscapeQuotes([c] + t)|, LiteralBody(x))
  {
    EscapeAppend([c], t);
    var e, e' := EscapeQuotes([c]), EscapeQuotes(t);
    assert EscapeQuotes([c] + t) + x == e + (e' + x);
    LiteralCharStep(c, e' + x);
    ExtendTwice([c], |e|, t, |e'|, LiteralBody(x));
  }

  lemma {:induction false} EscapedPrefix(a: string, x: string)
    requires LiteralSafe(a)
    ensures LiteralBody(EscapeQuotes(a) + x) == Extend(a, |EscapeQuotes(a)|, LiteralBody(x))
    decreases |a|
  {
    if a == [] {
      assert EscapeQuotes(a) + x == x;
      match LiteralBody(x)
      case None =>
      case Some((v, k)) => assert a + v == v;
    } else {
      assert a == [a[0]] + a[1..];
      EscapedPrefix(a[1..], x);
      LiteralConsStep(a[0], a[1..], x);
    }
  }

  /** On terms without backslash, line feed or carriage return the escaper
      is sound: the literal opened before the escaped term closes exactly at
      the quote placed after it, and its value is the term itself. */
  lemma SafeTermLiteral(term: string, rest: string)
    requires LiteralSafe(term)
    ensures LiteralBody(EscapeQuotes(term) + "\"" + rest) == Some((term, |EscapeQuotes(term)|))
  {
    EscapedPrefix(term, "\"" + rest);
    assert EscapeQuotes(term) + "\"" + rest == EscapeQuotes(term) + ("\"" + rest);
    assert term + "" == term;
  }

  /** A term that starts with a backslash and a quote breaks out of the
      literal whatever follows: the escaper turns the two characters into
      '\\' (an escaped backslash) and a bare '"', which closes the literal
      after two characters, so the rest t of the term is read as query text. */
  lemma BackslashQuoteBreaksOut(t: string, rest: string)
    ensures LiteralBody(EscapeQuotes("\\\"" + t) + rest) == Some(("\\", 2))
  {
    var e := EscapeQuotes("\\\"" + t);
    EscapeAppend("\\\"", t);
    assert EscapeQuotes("\\\"") == "\\\\\"";
    assert e + rest == "\\\\\"" + (EscapeQuotes(t) + rest);
    var s := e + rest;
    assert s[0] == '\\' && s[1] == '\\' && s[2] == '"';
    assert LiteralBody(s[2..]) == Some(("", 0));
    assert [EcharValue(s[1])] + "" == "\\";
  }

  /** A term ending in a backslash swallows the quote the builder places
      after it: the literal does not end where the term ends (it ends later,
      or never). */
  lemma TrailingBackslashSwallowsQuote(a: string, x: string)
    requires LiteralSafe(a)
    ensures var e := EscapeQuotes(a + "\\");
            var r := LiteralBody(e + "\"" + x);
            r.None? || r.value.1 > |e|
  {
    var ea := EscapeQuotes(a);
    EscapeAppend(a, "\\");
    assert EscapeQuotes("\\") == "\\";
    var y := "\\\"" + x;
    assert EscapeQuotes(a + "\\") + "\"" + x == ea + y;
    EscapedPrefix(a, y);
    assert y[0] == '\\' && IsEchar(y[1]);
    assert LiteralBody(y) == Extend([EcharValue('"')], 2, LiteralBody(y[2..]));
  }

  /** A term ending in a backslash never closes when plain text and then a
      line feed follow the quote placed after it: the quote is read as an
      escaped quote, and the line feed is not allowed in the literal. */
  lemma TrailingBackslashUnterminated(a: string, p: string, rest: string)
    requires LiteralSafe(a) && NoLiteralSpecials(p)
    requires rest != [] && rest[0] == '\n'
    ensures LiteralBody(EscapeQuotes(a + "\\") + "\"" + (p + rest)).None?
  {
    EscapeAppend(a, "\\");
    assert EscapeQuotes("\\") == "\\";
    var y := "\\\"" + (p + rest);
    assert EscapeQuotes(a + "\\") + "\"" + (p + rest) == EscapeQuotes(a) + y;
    EscapedPrefix(a, y);
    assert y[2..] == p + rest;
    PlainPrefix(p, rest);
  }
}
