/** How Graphviz reads a double-quoted DOT string, used to judge the text the
    graph renderer emits. Inside a quoted string the pair '\"' stands for '"',
    the pair '\\' stands for itself and is read as one unit, a backslash
    directly before a line feed joins the two physical lines (both characters
    disappear), and every other character stands for itself. An unescaped '"'
    ends the string. */
module DotLexer {
  import opened Text
  import opened Escape

  /** Reads a quoted string whose opening '"' has just been consumed: the
      text it stands for and the index of the closing '"' in s, or None when
      s ends first. */
  function QuotedBody(s: string): (r: Option<(string, nat)>)
    ensures r.Some? ==> r.value.1 < |s| && s[r.value.1] == '"'
    decreases |s|
  {
    if s == [] then None
    else if s[0] == '"' then Some(("", 0))
    else if s[0] == '\\' && |s| >= 2 && s[1] == '"' then Extend("\"", 2, QuotedBody(s[2..]))
    else if s[0] == '\\' && |s| >= 2 && s[1] == '\\' then Extend("\\\\", 2, QuotedBody(s[2..]))
    else if s[0] == '\\' && |s| >= 2 && s[1] == '\n' then Extend("", 2, QuotedBody(s[2..]))
    else Extend([s[0]], 1, QuotedBody(s[1..]))
  }

  /** Text the quote escaper hands to Graphviz intact: it holds no backslash,
      so every backslash in the escaped text is one the escaper put in front
      of a quote. */
  predicate DotSafe(t: string) {
    '\\' !in t
  }

  lemma DotQuoteStep(y: string)
    ensures QuotedBody("\\\"" + y) == Extend("\"", 2, QuotedBody(y))
  {
    assert ("\\\"" + y)[2..] == y;
  }

  /** Reading the escaped form of one character c other than a backslash. */
  lemma DotCharStep(c: char, y: string)
    requires c != '\\'
    ensures QuotedBody(EscapeQuotes([c]) + y) == Extend([c], |EscapeQuotes([c])|, QuotedBody(y))
  {
    assert EscapeQuotes([c]) == (if c == '"' then "\\\"" else [c]) by {
      assert [c][1..] == [];
    }
    if c == '"' {
      DotQuoteStep(y);
    } else {
      assert ([c] + y)[1..] == y;
    }
  }

  /** One character more in front: the reading of the escaped text grows
      by that character. */
  lemma DotConsStep(c: char, t: string, x: string)
    requires c != '\\'
    requires QuotedBody(EscapeQuotes(t) + x) == Extend(t, |EscapeQuotes(t)|, QuotedBody(x))
    ensures QuotedBody(EscapeQuotes([c] + t) + x) == Extend([c] + t, |EscapeQuotes([c] + t)|, QuotedBody(x))
  {
    EscapeAppend([c], t);
    var e, e' := EscapeQuotes([c]), EscapeQuotes(t);
    assert EscapeQuotes([c] + t) + x == e + (e' + x);
    DotCharStep(c, e' + x);
    ExtendTwice([c], |e|, t, |e'|, QuotedBody(x));
  }

  /** The escaped form of a DOT-safe text is read back as that text, and
      reading goes on with whatever follows it. */
  lemma {:induction false} EscapedQuotedPrefix(t: string, x: string)
    requires DotSafe(t)
    ensures QuotedBody(EscapeQuotes(t) + x) == Extend(t, |EscapeQuotes(t)|, QuotedBody(x))
    decreases |t|
  {
    if t == [] {
      assert EscapeQuotes(t) + x == x;
      match QuotedBody(x)
      case None =>
      case Some((v, k)) => assert t + v == v;
    } else {
      assert t == [t[0]] + t[1..];
      EscapedQuotedPrefix(t[1..], x);
      DotConsStep(t[0], t[1..], x);
    }
  }

  /** Escaping then reading back: a DOT-safe text placed between quotes by
      the escaper is read as exactly that text, and the string closes at the
      quote placed after it. */
  lemma QuotedRoundTrip(t: string, x: string)
    requires DotSafe(t)
    ensures QuotedBody(EscapeQuotes(t) + "\"" + x) == Some((t, |EscapeQuotes(t)|))
  {
    EscapedQuotedPrefix(t, "\"" + x);
    assert EscapeQuotes(t) + "\"" + x == EscapeQuotes(t) + ("\"" + x);
    assert t + "" == t;
  }

  /** A text ending in a backslash escapes the closing quote the renderer
      puts after it: the string runs on into the text that follows. */
  lemma TrailingBackslashRunsOn(t: string, x: string)
    requires DotSafe(t)
    ensures QuotedBody(EscapeQuotes(t + "\\") + "\"" + x) == Extend(t + "\"", |EscapeQuotes(t)| + 2, QuotedBody(x))
  {
    EscapeAppend(t, "\\");
    assert EscapeQuotes("\\") == "\\" by {
      assert EscapeQuotes("\\"[1..]) == "";
    }
    assert EscapeQuotes(t + "\\") + "\"" + x == EscapeQuotes(t) + ("\\\"" + x);
    EscapedQuotedPrefix(t, "\\\"" + x);
    DotQuoteStep(x);
    ExtendTwice(t, |EscapeQuotes(t)|, "\"", 2, QuotedBody(x));
  }

  function StartsWith(s: string, p: string): bool {
    |p| <= |s| && s[..|p|] == p
  }

  /** Reads the opener p, then a quoted string up to its closing quote: the
      text the string stands for and what follows the closing quote. */
  function ReadQuoted(s: string, p: string): Option<(string, string)> {
    if !StartsWith(s, p) then None
    else match QuotedBody(s[|p|..])
      case None => None
      case Some((v, k)) => Some((v, s[|p| + k + 1..]))
  }

  /** An edge statement `  "A" -> "B" [label="C"];` read back into its three
      quoted fields, or None when the line does not have that shape. */
  function ReadEdge(line: string): Option<(string, string, string)> {
    match ReadQuoted(line, "  \"")
    case None => None
    case Some((src, r1)) =>
      match ReadQuoted(r1, " -> \"")
      case None => None
      case Some((dst, r2)) =>
        match ReadQuoted(r2, " [label=\"")
        case None => None
        case Some((lbl, r3)) => if r3 == "];" then Some((src, dst, lbl)) else None
  }

  /** The opener, the escaped form of a DOT-safe text and a closing quote
      are read back as that text, leaving what follows. */
  lemma ReadQuotedEscaped(p: string, t: string, rest: string)
    requires DotSafe(t)
    ensures ReadQuoted(p + (EscapeQuotes(t) + "\"" + rest), p) == Some((t, rest))
  {
    var s := p + (EscapeQuotes(t) + "\"" + rest);
    assert s[..|p|] == p;
    assert s[|p|..] == EscapeQuotes(t) + "\"" + rest;
    QuotedRoundTrip(t, rest);
    assert s[|p| + |EscapeQuotes(t)| + 1..] == rest;
  }

  /** The opener and the escaped form of a text that ends in a backslash
      never close: the quote after the text is read as an escaped quote and
      the reading runs on into the rest. */
  lemma ReadQuotedRunsOn(p: string, t: string, rest: string)
    requires DotSafe(t) && '"' !in rest
    ensures ReadQuoted(p + (EscapeQuotes(t + "\\") + "\"" + rest), p) == None
  {
    var s := p + (EscapeQuotes(t + "\\") + "\"" + rest);
    assert s[..|p|] == p;
    assert s[|p|..] == EscapeQuotes(t + "\\") + "\"" + rest;
    TrailingBackslashRunsOn(t, rest);
    QuoteFreeRunsOut(rest);
  }

  /** A text without quotes never closes a quoted string. */
  lemma {:induction false} QuoteFreeRunsOut(s: string)
    requires '"' !in s
    ensures QuotedBody(s) == None
    decreases |s|
  {
    if s != [] {
      if s[0] == '\\' && |s| >= 2 {
        assert '"' !in s[2..] by { assert forall c :: c in s[2..] ==> c in s; }
        QuoteFreeRunsOut(s[2..]);
      }
      assert '"' !in s[1..] by { assert forall c :: c in s[1..] ==> c in s; }
      QuoteFreeRunsOut(s[1..]);
    }
  }
}
