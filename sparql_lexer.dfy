/** The pieces of the SPARQL 1.1 lexical grammar (section 19.8 of the SPARQL
    1.1 Query Language) that decide how a query built by string splicing is
    read back: a double-quoted string literal (rule STRING_LITERAL2 with its
    escapes, rule ECHAR), an IRI reference (rule IRIREF) and the decimal
    integer after the final LIMIT keyword. The query builders are judged
    against these readers. */
module SparqlLexer {
  import opened Text

  // ---------------------------------------------------------------------------
  // STRING_LITERAL2 ::= '"' ( ([^#x22#x5C#xA#xD]) | ECHAR )* '"'
  // ECHAR           ::= '\' [tbnrf\"']
  // ---------------------------------------------------------------------------

  predicate IsEchar(c: char) {
    c == 't' || c == 'b' || c == 'n' || c == 'r' || c == 'f' || c == '\\' || c == '"' || c == '\''
  }

  /** The character an ECHAR escape stands for. */
  function EcharValue(c: char): char
    requires IsEchar(c)
  {
    match c
    case 't' => '\t'
    case 'b' => 8 as char
    case 'n' => '\n'
    case 'r' => '\r'
    case 'f' => 12 as char
    case _ => c
  }

  /** Reads the body of a string literal whose opening '"' has just been
      consumed: the decoded value and the index in s of the closing '"', or
      None when s ends or breaks the rule (a bare CR or LF, a backslash not
      starting an ECHAR) before a closing quote. */
  function LiteralBody(s: string): (r: Option<(string, nat)>)
    ensures r.Some? ==> r.value.1 < |s| && s[r.value.1] == '"'
    decreases |s|
  {
    if s == [] then None
    else if s[0] == '"' then Some(("", 0))
    else if s[0] == '\\' then
      if |s| >= 2 && IsEchar(s[1]) then Extend([EcharValue(s[1])], 2, LiteralBody(s[2..])) else None
    else if s[0] == '\n' || s[0] == '\r' then None
    else Extend([s[0]], 1, LiteralBody(s[1..]))
  }

  /** Characters that never occur unescaped in a SPARQL string body. */
  predicate NoLiteralSpecials(s: string) {
    forall i :: 0 <= i < |s| ==> s[i] != '"' && s[i] != '\\' && s[i] != '\n' && s[i] != '\r'
  }

  /** Plain text passes through the literal reader one character at a time. */
  lemma {:induction false} PlainPrefix(a: string, x: string)
    requires NoLiteralSpecials(a)
    ensures LiteralBody(a + x) == Extend(a, |a|, LiteralBody(x))
    decreases |a|
  {
    if a == [] {
      assert a + x == x;
      match LiteralBody(x)
      case None =>
      case Some((v, k)) => assert a + v == v;
    } else {
      PlainPrefix(a[1..], x);
      assert (a + x)[1..] == a[1..] + x;
      match LiteralBody(x)
      case None =>
      case Some((v, k)) => assert [a[0]] + (a[1..] + v) == a + v;
    }
  }

  // ---------------------------------------------------------------------------
  // IRIREF ::= '<' ([^<>"{}|^`\]-[#x00-#x20])* '>'
  // ---------------------------------------------------------------------------

  predicate IsIriChar(c: char) {
    c as int > 0x20 && c != '<' && c != '>' && c != '"' && c != '{' && c != '}'
    && c != '|' && c != '^' && c != '`' && c != '\\'
  }

  predicate IriClean(s: string) {
    forall i :: 0 <= i < |s| ==> IsIriChar(s[i])
  }

  /** Reads an IRI reference whose opening '<' has just been consumed: the
      index in s of the closing '>', or None when a character outside the
      rule comes first. */
  function IriEnd(s: string): (r: Option<nat>)
    ensures r.Some? ==> r.value < |s| && s[r.value] == '>' && IriClean(s[..r.value])
    decreases |s|
  {
    if s == [] then None
    else if s[0] == '>' then Some(0)
    else if IsIriChar(s[0]) then
      match IriEnd(s[1..])
      case None => None
      case Some(k) => Some(k + 1)
    else None
  }

  /** A text spliced between '<' and '>' is read back as exactly one IRI
      reference ending where the splice ends if and only if every one of its
      characters is allowed by IRIREF; in particular a text holding '>'
      closes the reference early. */
  lemma {:induction false} IriSplice(iri: string, rest: string)
    ensures IriEnd(iri + ">" + rest) == Some(|iri|) <==> IriClean(iri)
    decreases |iri|
  {
    var s := iri + ">" + rest;
    if IriEnd(s) == Some(|iri|) {
      assert s[..|iri|] == iri;
    }
    if IriClean(iri) {
      if iri == [] {
        assert s[0] == '>';
      } else {
        IriSplice(iri[1..], rest);
        assert s[1..] == iri[1..] + ">" + rest;
        assert IriClean(iri[1..]) by {
          forall i | 0 <= i < |iri| - 1 ensures IsIriChar(iri[1..][i]) {
            assert iri[1..][i] == iri[i + 1];
          }
        }
      }
    }
  }

  /** An IRI written as an IRI reference: spliced raw between angle brackets,
      as both explorers' builders do. */
  function IriRef(iri: string): string {
    "<" + iri + ">"
  }

  /** The same, for a text q that starts with h followed by the IRI in angle
      brackets. */
  lemma IriAfterPrefix(q: string, h: string, iri: string)
    requires |h| + |iri| + 2 <= |q| && q[..|h| + |iri| + 2] == h + ("<" + iri + ">")
    ensures q[|h|] == '<' && (IriEnd(q[|h| + 1..]) == Some(|iri|) <==> IriClean(iri))
  {
    TakeThenDrop(q, h, "<" + iri + ">");
    var rest := q[|h| + |iri| + 2..];
    assert q[|h| + 1..] == iri + ">" + rest;
    IriSplice(iri, rest);
  }

  /** A text q starting with h and the IRI a + ">" + b in angle brackets,
      with a clean a, holds an IRI reference that ends after a: the rest b
      is read as text outside the IRI. */
  lemma IriBreaksAfterPrefix(q: string, h: string, a: string, b: string)
    requires |h| + |a| + |b| + 3 <= |q| && q[..|h| + |a| + |b| + 3] == h + ("<" + (a + ">" + b) + ">")
    requires IriClean(a)
    ensures IriEnd(q[|h| + 1..]) == Some(|a|)
  {
    assert q[..|h| + 1 + (|a| + 1)] == (h + "<") + (a + ">") by {
      assert q[..|h| + 1 + (|a| + 1)] == q[..|h| + |a| + |b| + 3][..|h| + |a| + 2];
    }
    TakeThenDrop(q, h + "<", a + ">");
    IriSplice(a, q[|h| + |a| + 2..]);
  }

  // ---------------------------------------------------------------------------
  // The integer after the final LIMIT keyword
  // ---------------------------------------------------------------------------

  /** WS ::= #x20 | #x9 | #xD | #xA */
  predicate IsSparqlWs(c: char) {
    c == ' ' || c == '\t' || c == '\r' || c == '\n'
  }

  function DropTrailingWs(s: string): (r: string)
    ensures |r| <= |s| && r == s[..|r|]
    ensures r == [] || !IsSparqlWs(r[|r| - 1])
    decreases |s|
  {
    if s != [] && IsSparqlWs(s[|s| - 1]) then DropTrailingWs(s[..|s| - 1]) else s
  }

  /** The longest run of digits that ends s. */
  function TrailingDigits(s: string): (d: string)
    ensures |d| <= |s| && d == s[|s| - |d|..] && AllDigits(d)
    ensures |d| == |s| || !IsDigit(s[|s| - |d| - 1])
    decreases |s|
  {
    if s != [] && IsDigit(s[|s| - 1]) then TrailingDigits(s[..|s| - 1]) + [s[|s| - 1]] else []
  }

  /** The row limit a reader finds at the end of a query: trailing white
      space, then a decimal integer, preceded by "LIMIT ". */
  function LimitOf(q: string): Option<nat> {
    var t := DropTrailingWs(q);
    var d := TrailingDigits(t);
    var h := t[..|t| - |d|];
    if d != [] && |h| >= 6 && h[|h| - 6..] == "LIMIT " then Some(ParseDecimal(d)) else None
  }

  lemma {:induction false} DropWsTail(x: string, tail: string)
    requires x != [] && !IsSparqlWs(x[|x| - 1])
    requires forall i :: 0 <= i < |tail| ==> IsSparqlWs(tail[i])
    ensures DropTrailingWs(x + tail) == x
    decreases |tail|
  {
    if tail == [] {
      assert x + tail == x;
    } else {
      var t' := tail[..|tail| - 1];
      assert (x + tail)[..|x + tail| - 1] == x + t';
      DropWsTail(x, t');
    }
  }

  lemma {:induction false} DigitsAfter(y: string, d: string)
    requires y != [] && !IsDigit(y[|y| - 1])
    requires AllDigits(d)
    ensures TrailingDigits(y + d) == d
    decreases |d|
  {
    if d == [] {
      assert y + d == y;
    } else {
      var d' := d[..|d| - 1];
      assert (y + d)[..|y + d| - 1] == y + d';
      DigitsAfter(y, d');
      assert d == d' + [d[|d| - 1]];
    }
  }

  /** A query whose text before the decimal rendering of n ends in "LIMIT ",
      and which has only white space after it, is read back as limit n. */
  lemma {:induction false} LimitRendered(h: string, n: nat, tail: string)
    requires |h| >= 6 && h[|h| - 6..] == "LIMIT "
    requires forall i :: 0 <= i < |tail| ==> IsSparqlWs(tail[i])
    ensures LimitOf(h + NatToString(n) + tail) == Some(n)
  {
    var d := NatToString(n);
    assert IsDigit(d[|d| - 1]);
    DropWsTail(h + d, tail);
    assert h[|h| - 1] == ' ';
    DigitsAfter(h, d);
    var t := h + d;
    assert t[..|t| - |d|] == h;
    ParseNatToString(n);
  }
}
