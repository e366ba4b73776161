/** The Kubernetes server version as the handler reports it, and the
    handler's own build version. Only the parsing and formatting are
    modelled: fetching the version from the API server is I/O. */
module Version {
  import opened Wrappers
  import opened Errors

  /** The largest value of Go's `int` on the 64-bit platforms the agent runs on. */
  const MaxInt := 0x7fff_ffff_ffff_ffff

  /** The parts of the server's version info that are read. */
  datatype Info = Info(major: string, minor: string)

  /** A parsed server version: the info and the numeric minor version. */
  datatype Version = Version(info: Info, minor: int)

  /** The handler's own build information. */
  datatype HandlerVersion = HandlerVersion(gitCommit: string, gitRef: string, version: string)

  // ---------------------------------------------------------------------------
  // Decimal digits

  predicate IsDigit(c: char) { '0' <= c <= '9' }

  predicate AllDigits(s: string) { forall i :: 0 <= i < |s| ==> IsDigit(s[i]) }

  function DigitValue(c: char): nat
    requires IsDigit(c)
  {
    (c as int) - ('0' as int)
  }

  function DigitChar(d: nat): (c: char)
    requires d < 10
    ensures IsDigit(c) && DigitValue(c) == d
  {
    (('0' as int) + d) as char
  }

  /** What the regular expression `^(\d+)` finds: the longest prefix of
      decimal digits, empty when the string does not start with a digit. */
  function LeadingDigits(s: string): (r: string)
    ensures |r| <= |s| && r == s[..|r|]
    ensures AllDigits(r)
    ensures |r| < |s| ==> !IsDigit(s[|r|])
  {
    if s != [] && IsDigit(s[0]) then [s[0]] + LeadingDigits(s[1..]) else []
  }

  /** The value of a string of decimal digits, most significant first. */
  function DecimalValue(s: string): nat
    requires AllDigits(s)
  {
    if s == [] then 0 else DecimalValue(s[..|s| - 1]) * 10 + DigitValue(s[|s| - 1])
  }

  /** The shortest decimal rendering of `n`. */
  function DecimalString(n: nat): (r: string)
    ensures r != [] && AllDigits(r)
  {
    if n < 10 then [DigitChar(n)] else DecimalString(n / 10) + [DigitChar(n % 10)]
  }

  lemma {:induction false} DecimalRoundTrip(n: nat)
    ensures DecimalValue(DecimalString(n)) == n
  {
    if n >= 10 {
      var s := DecimalString(n);
      assert s[..|s| - 1] == DecimalString(n / 10);
      DecimalRoundTrip(n / 10);
    }
  }

  /** The longest digit prefix of digits followed by a non-digit (or by
      nothing) is those digits. */
  lemma LeadingDigitsOfDigits(d: string, suffix: string)
    requires AllDigits(d)
    requires suffix == [] || !IsDigit(suffix[0])
    ensures LeadingDigits(d + suffix) == d
  {
    var s := d + suffix;
    var r := LeadingDigits(s);
    assert r == s[..|d|] == d;
  }

  // ---------------------------------------------------------------------------
  // Get, Full, MinorInt

  /** `strconv.Atoi` on a string of digits: empty is a syntax error, a value
      beyond `MaxInt` a range error. */
  function Atoi(s: string): (r: Result<int, Error>)
    requires AllDigits(s)
    ensures s == [] ==> r == Err(NumError("Atoi", s, Syntax))
    ensures s != [] ==> (r.Err? <==> DecimalValue(s) > MaxInt)
    ensures s != [] && r.Err? ==> r.error == NumError("Atoi", s, Range)
    ensures r.Ok? ==> r.value == DecimalValue(s) && 0 <= r.value <= MaxInt
  {
    if s == [] then Err(NumError("Atoi", s, Syntax))
    else if DecimalValue(s) > MaxInt then Err(NumError("Atoi", s, Range))
    else Ok(DecimalValue(s))
  }

  /** The part of `Get` after the server version has been fetched: the minor
      version's leading digits, converted to an `int`. */
  function Get(info: Info): (r: Result<Version, Error>)
    ensures r.Ok? ==> r.value.info == info && 0 <= r.value.minor <= MaxInt
    ensures r.Err? ==> r.error.Wrapped? && r.error.context == "parsing minor version"
    ensures info.minor == [] || !IsDigit(info.minor[0]) ==>
      r == Err(Wrapped("parsing minor version", NumError("Atoi", "", Syntax)))
    ensures r.Ok? <==> LeadingDigits(info.minor) != [] && DecimalValue(LeadingDigits(info.minor)) <= MaxInt
    ensures r.Ok? ==> r.value.minor == DecimalValue(LeadingDigits(info.minor))
  {
    match Atoi(LeadingDigits(info.minor))
    case Ok(m) => Ok(Version(info, m))
    case Err(e) => Err(Wrapped("parsing minor version", e))
  }

  /** The server's major and minor versions joined by a dot. */
  function Full(v: Version): (r: string)
    ensures |r| == |v.info.major| + 1 + |v.info.minor|
    ensures r[..|v.info.major|] == v.info.major && r[|v.info.major|] == '.'
    ensures r[|v.info.major| + 1..] == v.info.minor
  {
    v.info.major + "." + v.info.minor
  }

  function MinorInt(v: Version): int
  {
    v.minor
  }

  /** The version `Get` returns answers `MinorInt` with the value of the
      minor version's leading digits and `Full` with the minor version as
      the server gave it. */
  lemma MinorIntOfGet(info: Info)
    requires Get(info).Ok?
    ensures MinorInt(Get(info).value) == DecimalValue(LeadingDigits(info.minor))
    ensures 0 <= MinorInt(Get(info).value) <= MaxInt
    ensures Full(Get(info).value) == info.major + "." + info.minor
  {
  }

  /** Leading zeros do not change the value of a digit string. */
  predicate AllZeros(z: string) { forall i :: 0 <= i < |z| ==> z[i] == '0' }

  lemma {:induction false} ZerosValue(z: string)
    requires AllZeros(z)
    ensures AllDigits(z) && DecimalValue(z) == 0
  {
    if z != [] {
      ZerosValue(z[..|z| - 1]);
    }
  }

  lemma {:induction false} LeadingZerosValue(z: string, d: string)
    requires AllZeros(z) && AllDigits(d)
    ensures AllDigits(z + d) && DecimalValue(z + d) == DecimalValue(d)
  {
    ZerosValue(z);
    assert AllDigits(z + d) by {
      forall i | 0 <= i < |z + d|
        ensures IsDigit((z + d)[i])
      {
        if i < |z| {
          assert (z + d)[i] == z[i];
        } else {
          assert (z + d)[i] == d[i - |z|];
        }
      }
    }
    if d == [] {
      assert z + d == z;
    } else {
      assert (z + d)[..|z + d| - 1] == z + d[..|d| - 1];
      assert (z + d)[|z + d| - 1] == d[|d| - 1];
      LeadingZerosValue(z, d[..|d| - 1]);
    }
  }

  /** `Get` on a minor version made of digits followed by a suffix that
      does not start with a digit. */
  lemma GetDigitsWithSuffix(major: string, d: string, suffix: string)
    requires AllDigits(d) && d != []
    requires suffix == [] || !IsDigit(suffix[0])
    ensures Get(Info(major, d + suffix)) ==
      if DecimalValue(d) <= MaxInt then Ok(Version(Info(major, d + suffix), DecimalValue(d)))
      else Err(Wrapped("parsing minor version", NumError("Atoi", d, Range)))
  {
    LeadingDigitsOfDigits(d, suffix);
  }

  /** The digits of `n` after leading zeros still stand for `n`. */
  lemma PaddedDecimal(zeros: string, n: nat)
    requires AllZeros(zeros)
    ensures zeros + DecimalString(n) != []
    ensures AllDigits(zeros + DecimalString(n)) && DecimalValue(zeros + DecimalString(n)) == n
  {
    LeadingZerosValue(zeros, DecimalString(n));
    DecimalRoundTrip(n);
  }

  /** A minor version made of the digits of `n`, possibly after leading
      zeros, and of a suffix that does not start with a digit (such as "+")
      yields `n`, and `Full` gives back the minor version untouched. */
  lemma MinorWithSuffix(major: string, zeros: string, n: nat, suffix: string)
    requires AllZeros(zeros) && n <= MaxInt
    requires suffix == [] || !IsDigit(suffix[0])
    ensures Get(Info(major, zeros + DecimalString(n) + suffix)).Ok?
    ensures MinorInt(Get(Info(major, zeros + DecimalString(n) + suffix)).value) == n
    ensures Full(Get(Info(major, zeros + DecimalString(n) + suffix)).value)
         == major + "." + (zeros + DecimalString(n) + suffix)
  {
    PaddedDecimal(zeros, n);
    GetDigitsWithSuffix(major, zeros + DecimalString(n), suffix);
  }

  /** A digit prefix too large for `int`, leading zeros or not, fails with a
      range error on exactly those digits. */
  lemma MinorTooLarge(major: string, zeros: string, n: nat, suffix: string)
    requires AllZeros(zeros) && n > MaxInt
    requires suffix == [] || !IsDigit(suffix[0])
    ensures Get(Info(major, zeros + DecimalString(n) + suffix))
         == Err(Wrapped("parsing minor version", NumError("Atoi", zeros + DecimalString(n), Range)))
  {
    PaddedDecimal(zeros, n);
    GetDigitsWithSuffix(major, zeros + DecimalString(n), suffix);
  }

  /** Splits a string at its first '.', the inverse of `Full` for major
      versions without a dot. */
  function SplitAtFirstDot(s: string): Option<(string, string)>
  {
    if s == [] then None
    else if s[0] == '.' then Some(([], s[1..]))
    else match SplitAtFirstDot(s[1..])
      case None => None
      case Some((before, after)) => Some(([s[0]] + before, after))
  }

  lemma {:induction false} SplitJoined(a: string, b: string)
    requires '.' !in a
    ensures SplitAtFirstDot(a + "." + b) == Some((a, b))
  {
    if a != [] {
      assert (a + "." + b)[1..] == a[1..] + "." + b;
      SplitJoined(a[1..], b);
      assert [a[0]] + a[1..] == a;
    } else {
      assert a + "." + b == ['.'] + b;
    }
  }

  lemma FullSplits(v: Version)
    requires '.' !in v.info.major
    ensures SplitAtFirstDot(Full(v)) == Some((v.info.major, v.info.minor))
  {
    SplitJoined(v.info.major, v.info.minor);
  }

  // ---------------------------------------------------------------------------
  // Go's %q verb on strings (strconv.Quote)

  function HexDigit(d: nat): (c: char)
    requires d < 16
  {
    if d < 10 then (('0' as int) + d) as char else (('a' as int) + d - 10) as char
  }

  predicate IsHex(c: char) { '0' <= c <= '9' || 'a' <= c <= 'f' || 'A' <= c <= 'F' }

  function HexValue(c: char): (d: nat)
    requires IsHex(c)
    ensures d < 16
  {
    if '0' <= c <= '9' then (c as int) - ('0' as int)
    else if 'a' <= c <= 'f' then (c as int) - ('a' as int) + 10
    else (c as int) - ('A' as int) + 10
  }

  /** How one character appears between the quotes. */
  function Escape(c: char): (r: string)
    ensures r != []
    ensures r[0] != '"'
    ensures r[0] != '\\' ==> r == [c]
  {
    if c == '"' || c == '\\' then ['\\', c]
    else if ' ' <= c <= '~' then [c]
    else if c as int == 7 then "\\a"
    else if c as int == 8 then "\\b"
    else if c as int == 12 then "\\f"
    else if c == '\n' then "\\n"
    else if c == '\r' then "\\r"
    else if c == '\t' then "\\t"
    else if c as int == 11 then "\\v"
    else if (c as int) < 0x20 || c as int == 0x7f then ['\\', 'x', HexDigit(c as int / 16), HexDigit(c as int % 16)]
    else [c]
  }

  function EscapeAll(s: string): string
  {
    if s == [] then [] else Escape(s[0]) + EscapeAll(s[1..])
  }

  function Quote(s: string): (r: string)
    ensures |r| >= 2 && r[0] == '"' && r[|r| - 1] == '"'
  {
    "\"" + EscapeAll(s) + "\""
  }

  /** `HandlerVersion.String`: the three fields, each quoted, in a fixed order. */
  function HandlerVersionString(h: HandlerVersion): string
  {
    "GitCommit=" + Quote(h.gitCommit) + (" GitRef=" + Quote(h.gitRef) + (" Version=" + Quote(h.version)))
  }

  // ---------------------------------------------------------------------------
  // Reading quoted strings back, the inverse of Quote

  /** Reads the escape sequence that follows a backslash. */
  function Unescape(t: string): (r: Option<(char, string)>)
    ensures r.Some? ==> |r.value.1| < |t|
  {
    if t == [] then None
    else if t[0] == '"' || t[0] == '\\' then Some((t[0], t[1..]))
    else if t[0] == 'a' then Some((7 as char, t[1..]))
    else if t[0] == 'b' then Some((8 as char, t[1..]))
    else if t[0] == 'f' then Some((12 as char, t[1..]))
    else if t[0] == 'n' then Some(('\n', t[1..]))
    else if t[0] == 'r' then Some(('\r', t[1..]))
    else if t[0] == 't' then Some(('\t', t[1..]))
    else if t[0] == 'v' then Some((11 as char, t[1..]))
    else if t[0] == 'x' && |t| >= 3 && IsHex(t[1]) && IsHex(t[2]) then
      Some(((HexValue(t[1]) * 16 + HexValue(t[2])) as char, t[3..]))
    else None
  }

  /** Reads the text of a quoted string up to its closing quote; returns the
      unescaped text and what follows the closing quote. */
  function ReadBody(s: string): Option<(string, string)>
    decreases |s|
  {
    if s == [] then None
    else if s[0] == '"' then Some(([], s[1..]))
    else if s[0] == '\\' then
      match Unescape(s[1..])
      case None => None
      case Some((c, rest)) =>
        match ReadBody(rest)
        case None => None
        case Some((body, after)) => Some(([c] + body, after))
    else
      match ReadBody(s[1..])
      case None => None
      case Some((body, after)) => Some(([s[0]] + body, after))
  }

  function ReadQuoted(s: string): Option<(string, string)>
  {
    if s != [] && s[0] == '"' then ReadBody(s[1..]) else None
  }

  /** Strips an expected prefix. */
  function Expect(prefix: string, s: string): (r: Option<string>)
    ensures r.Some? ==> s == prefix + r.value
  {
    if |prefix| <= |s| && s[..|prefix|] == prefix then Some(s[|prefix|..]) else None
  }

  /** Reads `<name>` followed by a quoted value; returns the value and what
      follows it. */
  function ReadField(name: string, s: string): Option<(string, string)>
  {
    match Expect(name, s)
    case None => None
    case Some(t) => ReadQuoted(t)
  }

  function ParseHandlerVersion(s: string): Option<HandlerVersion>
  {
    match ReadField("GitCommit=", s)
    case None => None
    case Some((commit, s1)) =>
      match ReadField(" GitRef=", s1)
      case None => None
      case Some((ref, s2)) =>
        match ReadField(" Version=", s2)
        case None => None
        case Some((version, s3)) =>
          if s3 == [] then Some(HandlerVersion(commit, ref, version)) else None
  }

  lemma HexDigitValue(d: nat)
    requires d < 16
    ensures IsHex(HexDigit(d)) && HexValue(HexDigit(d)) == d
  {
  }

  /** An escape sequence reads back as the character it stands for. */
  lemma UnescapeEscape(c: char, rest: string)
    requires Escape(c)[0] == '\\'
    ensures Unescape(Escape(c)[1..] + rest) == Some((c, rest))
  {
    if ((c as int) < 0x20 && c as int !in {7, 8, 9, 10, 11, 12, 13}) || c as int == 0x7f {
      var n := c as int;
      HexDigitValue(n / 16);
      HexDigitValue(n % 16);
      assert Escape(c)[1..] + rest == ['x', HexDigit(n / 16), HexDigit(n % 16)] + rest;
    }
  }

  /** One escaped character in front of a readable body reads back as
      that character. */
  lemma ReadBodyOneChar(c: char, t: string, body: string, after: string)
    requires ReadBody(t) == Some((body, after))
    ensures ReadBody(Escape(c) + t) == Some(([c] + body, after))
  {
    var e := Escape(c);
    assert (e + t)[0] == e[0];
    if e[0] == '\\' {
      UnescapeEscape(c, t);
      assert (e + t)[1..] == e[1..] + t;
    } else {
      assert (e + t)[1..] == t;
    }
  }

  lemma {:induction false} ReadBodyEscaped(s: string, rest: string)
    ensures ReadBody(EscapeAll(s) + "\"" + rest) == Some((s, rest))
  {
    if s == [] {
      assert EscapeAll(s) + "\"" + rest == ['"'] + rest;
    } else {
      var t := EscapeAll(s[1..]) + "\"" + rest;
      assert EscapeAll(s) + "\"" + rest == Escape(s[0]) + t;
      ReadBodyEscaped(s[1..], rest);
      ReadBodyOneChar(s[0], t, s[1..], rest);
      assert [s[0]] + s[1..] == s;
    }
  }

  lemma QuoteRoundTrip(s: string, rest: string)
    ensures ReadQuoted(Quote(s) + rest) == Some((s, rest))
  {
    assert (Quote(s) + rest)[1..] == EscapeAll(s) + "\"" + rest;
    ReadBodyEscaped(s, rest);
  }

  lemma ReadFieldRoundTrip(name: string, value: string, rest: string)
    ensures ReadField(name, name + Quote(value) + rest) == Some((value, rest))
  {
    var t := Quote(value) + rest;
    assert name + Quote(value) + rest == name + t;
    assert (name + t)[..|name|] == name;
    assert (name + t)[|name|..] == t;
    QuoteRoundTrip(value, rest);
  }

  /** The rendering is unambiguous: the three fields can be read back from it,
      whatever characters they contain. */
  lemma HandlerVersionRoundTrip(h: HandlerVersion)
    ensures ParseHandlerVersion(HandlerVersionString(h)) == Some(h)
  {
    var r2 := " Version=" + Quote(h.version);
    var r1 := " GitRef=" + Quote(h.gitRef) + r2;
    assert r2 + [] == r2;
    ReadFieldRoundTrip("GitCommit=", h.gitCommit, r1);
    ReadFieldRoundTrip(" GitRef=", h.gitRef, r2);
    ReadFieldRoundTrip(" Version=", h.version, []);
  }
}
