/** Small value types and string helpers shared by the whole model: optional
    values, success/failure results, decimal rendering of naturals, the
    whitespace trimming of ECMAScript's String.prototype.trim, and joining
    and splitting of lines. */
module Text {

  /** A value that may be absent: Python's None and JavaScript's undefined. */
  datatype Option<+T> = None | Some(value: T)

  /** The outcome of an operation that raises or rejects on failure. */
  datatype Result<+T, +E> = Success(value: T) | Failure(error: E)

  /** One step of a left-to-right scanner that returns the decoded text it
      read and the index where it stopped: prefixes a scanned piece (its
      decoded text v0, its width n) to the scan of what follows it. */
  function Extend(v0: string, n: nat, rest: Option<(string, nat)>): Option<(string, nat)> {
    match rest
    case None => None
    case Some((v, k)) => Some((v0 + v, n + k))
  }

  /** A text whose first |p| + |x| characters are p + x continues, after p,
      with x. */
  lemma TakeThenDrop(q: string, p: string, x: string)
    requires |p| + |x| <= |q| && q[..|p| + |x|] == p + x
    ensures q[|p|..] == x + q[|p| + |x|..]
  {
    assert q[|p|..] == q[..|p| + |x|][|p|..] + q[|p| + |x|..];
  }

  // ---------------------------------------------------------------------------
  // Decimal rendering of naturals (Python f-string / JS template `${n}`)
  // ---------------------------------------------------------------------------

  predicate IsDigit(c: char) {
    '0' <= c <= '9'
  }

  predicate AllDigits(s: string) {
    forall i :: 0 <= i < |s| ==> IsDigit(s[i])
  }

  function DigitChar(d: nat): (c: char)
    requires d < 10
    ensures IsDigit(c) && c as int - '0' as int == d
  {
    ('0' as int + d) as char
  }

  function DigitValue(c: char): nat
    requires IsDigit(c)
  {
    c as int - '0' as int
  }

  /** The decimal text of n: at least one digit, no leading zero. */
  function NatToString(n: nat): (s: string)
    ensures |s| >= 1 && AllDigits(s)
    ensures |s| > 1 ==> s[0] != '0'
    decreases n
  {
    if n < 10 then [DigitChar(n)] else NatToString(n / 10) + [DigitChar(n % 10)]
  }

  /** Reads a string of decimal digits back as a natural. */
  function ParseDecimal(s: string): nat
    requires AllDigits(s)
    decreases |s|
  {
    if s == [] then 0 else ParseDecimal(s[..|s| - 1]) * 10 + DigitValue(s[|s| - 1])
  }

  /** Reading the decimal text of n gives n back. */
  lemma {:induction false} ParseNatToString(n: nat)
    ensures ParseDecimal(NatToString(n)) == n
    decreases n
  {
    var s := NatToString(n);
    if n >= 10 {
      ParseNatToString(n / 10);
      assert s[..|s| - 1] == NatToString(n / 10);
    }
  }

  // ---------------------------------------------------------------------------
  // String.prototype.trim (ECMAScript WhiteSpace and LineTerminator code points)
  // ---------------------------------------------------------------------------

  /** The code points ECMAScript's trim removes: TAB, LF, VT, FF, CR, SPACE,
      NBSP, ZWNBSP (U+FEFF), LS, PS and the other Unicode space separators. */
  const JsWhitespaceCodes: set<int> :=
    {0x09, 0x0A, 0x0B, 0x0C, 0x0D, 0x20, 0xA0, 0x1680, 0x2000, 0x2001, 0x2002,
     0x2003, 0x2004, 0x2005, 0x2006, 0x2007, 0x2008, 0x2009, 0x200A, 0x2028,
     0x2029, 0x202F, 0x205F, 0x3000, 0xFEFF}

  predicate IsJsWhitespace(c: char) {
    c as int in JsWhitespaceCodes
  }

  predicate AllJsWhitespace(s: string) {
    forall i :: 0 <= i < |s| ==> IsJsWhitespace(s[i])
  }

  /** s without its leading whitespace. */
  function TrimStart(s: string): (r: string)
    ensures |r| <= |s| && r == s[|s| - |r|..]
    ensures r == [] || !IsJsWhitespace(r[0])
    ensures AllJsWhitespace(s[..|s| - |r|])
    decreases |s|
  {
    if s != [] && IsJsWhitespace(s[0]) then TrimStart(s[1..]) else s
  }

  /** s without its trailing whitespace. */
  function TrimEnd(s: string): (r: string)
    ensures |r| <= |s| && r == s[..|r|]
    ensures r == [] || !IsJsWhitespace(r[|r| - 1])
    ensures AllJsWhitespace(s[|r|..])
    decreases |s|
  {
    if s != [] && IsJsWhitespace(s[|s| - 1]) then TrimEnd(s[..|s| - 1]) else s
  }

  /** String.prototype.trim: s without the whitespace at either end; it is
      empty exactly when s is all whitespace. */
  function Trim(s: string): (r: string)
    ensures |r| <= |s|
    ensures r == [] || (!IsJsWhitespace(r[0]) && !IsJsWhitespace(r[|r| - 1]))
    ensures r == [] <==> AllJsWhitespace(s)
  {
    TrimEmpty(s);
    var t := TrimStart(s);
    assert TrimEnd(t) != [] ==> TrimEnd(t)[0] == t[0];
    TrimEnd(t)
  }

  /** What trim removes is whitespace only: the result is a slice of s with
      nothing but whitespace before and after it. */
  lemma TrimSlice(s: string)
    ensures exists i, j :: 0 <= i <= j <= |s| && Trim(s) == s[i..j]
                        && AllJsWhitespace(s[..i]) && AllJsWhitespace(s[j..])
  {
    var t := TrimStart(s);
    var r := TrimEnd(t);
    var i, j := |s| - |t|, |s| - |t| + |r|;
    assert t == s[i..];
    assert r == s[i..j];
    assert s[j..] == t[|r|..];
  }

  lemma {:induction false} TrimEmpty(s: string)
    ensures TrimEnd(TrimStart(s)) == [] <==> AllJsWhitespace(s)
  {
    var t := TrimStart(s);
    var r := TrimEnd(t);
    var i := |s| - |t|;
    if r == [] {
      assert t[|r|..] == t;
      assert t == [];
      forall k | 0 <= k < |s| ensures IsJsWhitespace(s[k]) {
        assert s[k] == s[..i][k];
      }
    } else {
      assert r[0] == t[0] == s[i];
    }
  }

  /** Trimming twice is trimming once: a trimmed text has no whitespace at
      either end left to remove. */
  lemma TrimIdempotent(s: string)
    ensures Trim(Trim(s)) == Trim(s)
  {
    var r := Trim(s);
    assert TrimStart(r) == r;
    assert TrimEnd(r) == r;
  }

  // ---------------------------------------------------------------------------
  // Lines
  // ---------------------------------------------------------------------------

  /** Python's sep.join(lines). */
  function Join(lines: seq<string>, sep: string): string
    decreases |lines|
  {
    if |lines| == 0 then ""
    else if |lines| == 1 then lines[0]
    else lines[0] + sep + Join(lines[1..], sep)
  }

  /** Python's s.split(c) for a one-character separator. */
  function Split(s: string, c: char): (r: seq<string>)
    ensures |r| >= 1
    decreases |s|
  {
    if s == [] then [""]
    else if s[0] == c then [""] + Split(s[1..], c)
    else
      var rest := Split(s[1..], c);
      [[s[0]] + rest[0]] + rest[1..]
  }

  predicate Free(s: string, c: char) {
    c !in s
  }

  lemma {:induction false} SplitFreePrefix(a: string, t: string, c: char)
    requires Free(a, c)
    ensures Split(a + t, c) == [a + Split(t, c)[0]] + Split(t, c)[1..]
    decreases |a|
  {
    var st := Split(t, c);
    if a != [] {
      SplitFreePrefix(a[1..], t, c);
      assert (a + t)[0] == a[0] != c;
      assert (a + t)[1..] == a[1..] + t;
      var rest := Split(a[1..] + t, c);
      assert rest[0] == a[1..] + st[0];
      assert [a[0]] + rest[0] == a + st[0];
    } else {
      assert a + t == t;
      assert a + st[0] == st[0];
      assert st == [st[0]] + st[1..];
    }
  }

  /** Splitting the joined lines at the separator gives the lines back, as
      long as no line contains the separator itself. */
  lemma {:induction false} SplitJoin(lines: seq<string>, c: char)
    requires |lines| >= 1
    requires forall i :: 0 <= i < |lines| ==> Free(lines[i], c)
    ensures Split(Join(lines, [c]), c) == lines
    decreases |lines|
  {
    if |lines| == 1 {
      SplitFreePrefix(lines[0], "", c);
      assert lines[0] + "" == lines[0];
      assert Split("", c) == [""];
    } else {
      var rest := Join(lines[1..], [c]);
      SplitJoin(lines[1..], c);
      SplitFreePrefix(lines[0], [c] + rest, c);
      assert ([c] + rest)[0] == c;
      assert ([c] + rest)[1..] == rest;
      assert Split([c] + rest, c) == [""] + lines[1..];
      assert Join(lines, [c]) == lines[0] + ([c] + rest);
      assert lines[0] + "" == lines[0];
      assert lines == [lines[0]] + lines[1..];
    }
  }
}
