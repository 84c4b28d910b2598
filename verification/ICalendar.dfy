/** Escaping text values for the calendar feed, and the reading of section 3.3.11 of RFC 5545. */
module ICalendar {

  /** `strings.ReplaceAll`: non-overlapping, left to right. */
  function ReplaceAll(s: string, was: string, sub: string): string
    requires was != ""
  {
    if |s| < |was| then s
    else if was <= s then sub + ReplaceAll(s[|was|..], was, sub)
    else [s[0]] + ReplaceAll(s[1..], was, sub)
  }

  /** The three replacements of single characters, in their order. */
  function Mark(s: string): string {
    ReplaceAll(ReplaceAll(ReplaceAll(s, "\\", "\\\\"), ";", "\\;"), ",", "\\,")
  }

  function IcsEscape(s: string): string {
    ReplaceAll(ReplaceAll(Mark(s), "\r\n", "\\n"), "\n", "\\n")
  }

  /** The same escaping in one pass over the text. */
  function OnePass(s: string): string {
    if s == "" then ""
    else if "\r\n" <= s then "\\n" + OnePass(s[2..])
    else if s[0] == '\n' then "\\n" + OnePass(s[1..])
    else Escaped(s[0]) + OnePass(s[1..])
  }

  function Escaped(c: char): (e: string)
    ensures 1 <= |e| <= 2
  {
    if c == '\\' || c == ';' || c == ',' then ['\\', c] else [c]
  }

  /** A consumer's reading of a TEXT value. */
  function Unescape(t: string): string {
    if t == "" then ""
    else if t[0] == '\\' && |t| >= 2 && t[1] in {'\\', ';', ','} then [t[1]] + Unescape(t[2..])
    else if t[0] == '\\' && |t| >= 2 && t[1] in {'n', 'N'} then "\n" + Unescape(t[2..])
    else [t[0]] + Unescape(t[1..])
  }

  function UnixLines(s: string): string {
    ReplaceAll(s, "\r\n", "\n")
  }

  /** A value that ends neither its content line nor the list element it stands in. */
  predicate SafeText(t: string) {
    t == ""
    || (t[0] == '\\' && |t| >= 2 && t[1] != '\n' && SafeText(t[2..]))
    || (t[0] !in {'\\', ';', ',', '\n'} && SafeText(t[1..]))
  }

  // ----- replacements, one character at a time -----

  lemma ReplaceOne(c: char, rest: string, was: char, sub: string)
    ensures ReplaceAll([c] + rest, [was], sub) == (if c == was then sub else [c]) + ReplaceAll(rest, [was], sub)
  {
    var s := [c] + rest;
    assert s[1..] == rest;
    assert s[0] == c && s[..1] == [c];
    if c == was {
      assert [was] <= s;
    } else {
      assert [was][0] != s[0];
    }
  }

  lemma {:induction false} ReplacePrefix(a: string, b: string, was: char, sub: string)
    ensures ReplaceAll(a + b, [was], sub) == ReplaceAll(a, [was], sub) + ReplaceAll(b, [was], sub)
  {
    if a == "" {
      assert a + b == b;
    } else {
      ReplacePrefix(a[1..], b, was, sub);
      assert a + b == [a[0]] + (a[1..] + b);
      assert a == [a[0]] + a[1..];
      ReplaceOne(a[0], a[1..] + b, was, sub);
      ReplaceOne(a[0], a[1..], was, sub);
    }
  }

  lemma MarkEmpty()
    ensures Mark("") == ""
  {
  }

  lemma MarkOne(c: char)
    ensures Mark([c]) == Escaped(c)
  {
    assert [c] + "" == [c];
    ReplaceOne(c, "", '\\', "\\\\");
    var a := ReplaceAll([c], "\\", "\\\\");
    assert a == if c == '\\' then "\\\\" else [c];
    ReplaceOne(a[0], a[1..], ';', "\\;");
    if c == '\\' {
      assert a[1..] == "\\" + "";
      ReplaceOne('\\', "", ';', "\\;");
    }
    var b := ReplaceAll(a, ";", "\\;");
    assert a == [a[0]] + a[1..];
    assert b == if c == ';' then "\\;" else a;
    assert b == [b[0]] + b[1..];
    ReplaceOne(b[0], b[1..], ',', "\\,");
    if |b| == 2 {
      assert b[1..] == [b[1]] + "";
      ReplaceOne(b[1], "", ',', "\\,");
    }
  }

  lemma MarkStep(c: char, rest: string)
    ensures Mark([c] + rest) == Escaped(c) + Mark(rest)
  {
    ReplacePrefix([c], rest, '\\', "\\\\");
    var a, b := ReplaceAll([c], "\\", "\\\\"), ReplaceAll(rest, "\\", "\\\\");
    ReplacePrefix(a, b, ';', "\\;");
    ReplacePrefix(ReplaceAll(a, ";", "\\;"), ReplaceAll(b, ";", "\\;"), ',', "\\,");
    MarkOne(c);
  }

  /** A marked text starts with a line feed only if the text does. */
  lemma MarkStart(s: string)
    ensures Mark(s) != "" && Mark(s)[0] == '\n' ==> s != "" && s[0] == '\n'
  {
    MarkEmpty();
    if s != "" {
      assert s == [s[0]] + s[1..];
      MarkStep(s[0], s[1..]);
    }
  }

  function Crlf(s: string): string {
    ReplaceAll(s, "\r\n", "\\n")
  }

  lemma CrlfSkip(c: char, rest: string)
    requires !(c == '\r' && rest != "" && rest[0] == '\n')
    ensures Crlf([c] + rest) == [c] + Crlf(rest)
  {
    var s := [c] + rest;
    assert s[1..] == rest;
    assert s[0] == c && (rest != "" ==> s[1] == rest[0]);
  }

  lemma CrlfStep(c: char, rest: string)
    requires !(c == '\r' && rest != "" && rest[0] == '\n')
    ensures Crlf(Escaped(c) + rest) == Escaped(c) + Crlf(rest)
  {
    if |Escaped(c)| == 2 {
      assert ['\\', c] + rest == ['\\'] + ([c] + rest);
      CrlfSkip(c, rest);
      CrlfSkip('\\', [c] + rest);
    } else {
      CrlfSkip(c, rest);
    }
  }

  lemma EscapeCrlf(rest: string)
    requires IcsEscape(rest) == OnePass(rest)
    ensures IcsEscape("\r\n" + rest) == OnePass("\r\n" + rest)
  {
    var s := "\r\n" + rest;
    assert s == ['\r'] + (['\n'] + rest) && s[2..] == rest;
    MarkStep('\r', ['\n'] + rest);
    MarkStep('\n', rest);
    var m := Mark(s);
    assert m == ['\r'] + (['\n'] + Mark(rest));
    assert "\r\n" <= m && m[2..] == Mark(rest);
    assert Crlf(m) == "\\n" + Crlf(Mark(rest));
    LineFeeds("\\n", Crlf(Mark(rest)));
  }

  lemma EscapeChar(c: char, rest: string)
    requires IcsEscape(rest) == OnePass(rest) && !(c == '\r' && rest != "" && rest[0] == '\n')
    ensures IcsEscape([c] + rest) == OnePass([c] + rest)
  {
    var s := [c] + rest;
    assert s[1..] == rest && !("\r\n" <= s);
    MarkStep(c, rest);
    MarkStart(rest);
    CrlfStep(c, Mark(rest));
    LineFeeds(Escaped(c), Crlf(Mark(rest)));
  }

  /** The five replacements in sequence are one pass from left to right. */
  lemma {:induction false} EscapeIsOnePass(s: string)
    ensures IcsEscape(s) == OnePass(s)
  {
    if s == "" {
      MarkEmpty();
    } else if "\r\n" <= s {
      EscapeIsOnePass(s[2..]);
      EscapeCrlf(s[2..]);
      assert s == "\r\n" + s[2..];
    } else {
      EscapeIsOnePass(s[1..]);
      assert |s| > 1 ==> s[..2] == [s[0], s[1]];
      EscapeChar(s[0], s[1..]);
      assert s == [s[0]] + s[1..];
    }
  }

  /** The last replacement on a short prefix. */
  lemma LineFeeds(e: string, rest: string)
    requires 1 <= |e| <= 2 && (|e| == 2 ==> '\n' !in e)
    ensures ReplaceAll(e + rest, "\n", "\\n") == (if e == "\n" then "\\n" else e) + ReplaceAll(rest, "\n", "\\n")
  {
    ReplacePrefix(e, rest, '\n', "\\n");
    assert e == [e[0]] + e[1..];
    ReplaceOne(e[0], e[1..], '\n', "\\n");
    if |e| == 2 {
      assert e[1..] == [e[1]] + "";
      assert e[1] in e && e[0] in e;
      ReplaceOne(e[1], "", '\n', "\\n");
    } else {
      assert e[1..] == "";
    }
  }

  // ----- round trip -----

  lemma {:induction false} UnescapeOnePass(s: string)
    ensures Unescape(OnePass(s)) == UnixLines(s)
  {
    if s != "" {
      if "\r\n" <= s {
        UnescapeOnePass(s[2..]);
        assert OnePass(s)[2..] == OnePass(s[2..]);
      } else {
        UnescapeOnePass(s[1..]);
        var e := if s[0] == '\n' then "\\n" else Escaped(s[0]);
        assert OnePass(s)[|e|..] == OnePass(s[1..]);
      }
    }
  }

  /** Reading an escaped value gives the text back, with CRLF line ends turned into LF. */
  lemma RoundTrip(s: string)
    ensures Unescape(IcsEscape(s)) == UnixLines(s)
  {
    EscapeIsOnePass(s);
    UnescapeOnePass(s);
  }

  /** Two values that escape alike are the same text up to line ends. */
  lemma EscapeInjective(a: string, b: string)
    requires IcsEscape(a) == IcsEscape(b)
    ensures UnixLines(a) == UnixLines(b)
  {
    RoundTrip(a);
    RoundTrip(b);
  }

  lemma {:induction false} OnePassSafe(s: string)
    ensures SafeText(OnePass(s)) && '\n' !in OnePass(s)
  {
    if s != "" {
      if "\r\n" <= s {
        OnePassSafe(s[2..]);
        assert OnePass(s)[2..] == OnePass(s[2..]);
      } else {
        OnePassSafe(s[1..]);
        var e := if s[0] == '\n' then "\\n" else Escaped(s[0]);
        assert OnePass(s)[|e|..] == OnePass(s[1..]);
      }
    }
  }

  /** An escaped value holds no line feed and no bare separator. */
  lemma EscapeSafe(s: string)
    ensures SafeText(IcsEscape(s)) && '\n' !in IcsEscape(s)
  {
    EscapeIsOnePass(s);
    OnePassSafe(s);
  }
}
