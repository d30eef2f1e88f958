/** Facts about query texts shaped like the search query, proved once for
    any literal runs: h before the language tag l, m between the tag and the
    term, t after the term, then the limit text n and the closing text z.
    Both explorers' builders instantiate them with their own runs. */
module QueryText {
  import opened Text
  import opened SparqlLexer
  import opened Escape

  /** A term without backslash, line feed or carriage return is read back as
      the literal opened before it, closing at the quote placed after it. */
  lemma TermLiteralIn(h: string, l: string, m: string, term: string, t: string, n: string, z: string)
    requires LiteralSafe(term)
    ensures LiteralBody((h + "\"" + l + "\"" + m + "\"" + EscapeQuotes(term) + "\"" + t + n + z)[|h| + |l| + |m| + 3..])
            == Some((term, |EscapeQuotes(term)|))
  {
    var e := EscapeQuotes(term);
    var q := h + "\"" + l + "\"" + m + "\"" + e + "\"" + t + n + z;
    assert q[|h| + |l| + |m| + 3..] == e + "\"" + (t + n + z);
    SafeTermLiteral(term, t + n + z);
  }

  lemma TermBreaksOutIn(h: string, l: string, m: string, x: string, t: string, n: string, z: string)
    ensures LiteralBody((h + "\"" + l + "\"" + m + "\"" + EscapeQuotes("\\\"" + x) + "\"" + t + n + z)[|h| + |l| + |m| + 3..])
            == Some(("\\", 2))
  {
    var e := EscapeQuotes("\\\"" + x);
    var q := h + "\"" + l + "\"" + m + "\"" + e + "\"" + t + n + z;
    assert q[|h| + |l| + |m| + 3..] == e + ("\"" + t + n + z);
    BackslashQuoteBreaksOut(x, "\"" + t + n + z);
  }

  lemma TermUnterminatedIn(h: string, l: string, m: string, a: string, t: string, n: string, z: string)
    requires LiteralSafe(a)
    requires |t| >= 4 && NoLiteralSpecials(t[..3]) && t[3] == '\n'
    ensures LiteralBody((h + "\"" + l + "\"" + m + "\"" + EscapeQuotes(a + "\\") + "\"" + t + n + z)[|h| + |l| + |m| + 3..]).None?
  {
    var e := EscapeQuotes(a + "\\");
    var q := h + "\"" + l + "\"" + m + "\"" + e + "\"" + t + n + z;
    var rest := t[3..] + n + z;
    assert q[|h| + |l| + |m| + 3..] == e + "\"" + (t[..3] + rest);
    TrailingBackslashUnterminated(a, t[..3], rest);
  }

  lemma LangLiteralIn(h: string, l: string, m: string, e: string, t: string, n: string, z: string)
    requires NoLiteralSpecials(l)
    ensures LiteralBody((h + "\"" + l + "\"" + m + "\"" + e + "\"" + t + n + z)[|h| + 1..]) == Some((l, |l|))
  {
    var q := h + "\"" + l + "\"" + m + "\"" + e + "\"" + t + n + z;
    var rest := "\"" + m + "\"" + e + "\"" + t + n + z;
    assert q[|h| + 1..] == l + rest;
    PlainPrefix(l, rest);
    assert l + "" == l;
  }

  lemma LangBreaksOutIn(h: string, a: string, b: string, m: string, e: string, t: string, n: string, z: string)
    requires NoLiteralSpecials(a)
    ensures LiteralBody((h + "\"" + (a + "\"" + b) + "\"" + m + "\"" + e + "\"" + t + n + z)[|h| + 1..]) == Some((a, |a|))
  {
    var q := h + "\"" + (a + "\"" + b) + "\"" + m + "\"" + e + "\"" + t + n + z;
    var rest := "\"" + (b + "\"" + m + "\"" + e + "\"" + t + n + z);
    assert q[|h| + 1..] == a + rest;
    PlainPrefix(a, rest);
    assert a + "" == a;
  }

  /** Where the quotes of such a text stand: the tag's literal opens right
      after h, the run m follows the quote that closes the tag, and the
      term's literal opens right after m. */
  lemma QuotesIn(h: string, l: string, m: string, e: string, t: string, n: string, z: string)
    ensures var q := h + "\"" + l + "\"" + m + "\"" + e + "\"" + t + n + z;
      q[..|h|] == h && q[|h|] == '"' && q[|h| + |l| + 1] == '"'
      && q[|h| + |l| + 2..|h| + |l| + |m| + 2] == m && q[|h| + |l| + |m| + 2] == '"'
  {
    var q := h + "\"" + l + "\"" + m + "\"" + e + "\"" + t + n + z;
    var r := "\"" + e + "\"" + t + n + z;
    assert q == h + "\"" + l + "\"" + m + r;
  }

  /** A tag holding a quote closes its literal at once, and the literal the
      next quote opens runs into m: when m starts with quote-free plain text
      and then a line feed, that literal is never terminated. */
  lemma StrayQuoteIn(h: string, m: string, e: string, t: string, n: string, z: string, k: nat)
    requires k < |m| && NoLiteralSpecials(m[..k]) && m[k] == '\n'
    ensures var q := h + "\"" + "\"" + "\"" + m + "\"" + e + "\"" + t + n + z;
      LiteralBody(q[|h| + 1..]) == Some(("", 0)) && q[|h| + 2] == '"' && LiteralBody(q[|h| + 3..]).None?
  {
    var q := h + "\"" + "\"" + "\"" + m + "\"" + e + "\"" + t + n + z;
    var rest := m[k..] + "\"" + e + "\"" + t + n + z;
    assert q[|h| + 1..] == "\"" + ("\"" + m + "\"" + e + "\"" + t + n + z);
    assert q[|h| + 3..] == m[..k] + rest;
    PlainPrefix(m[..k], rest);
  }

  /** A text that starts with p, whatever follows it. */
  lemma TakeHead(p: string, a: string, b: string, c: string, d: string, e: string, f: string, g: string,
                 h: string, i: string, j: string, k: string, l: string, m: string)
    ensures (p + a + b + c + d + e + f + g + h + i + j + k + l + m)[..|p|] == p
  {
  }
}
