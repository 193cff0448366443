/** src/utils.js: the API base URL for a host, and the escaping that makes a
    JSON text safe to send in an HTTP header (`Dropbox-API-Arg`).

    JavaScript strings are sequences of UTF-16 code units, and the escaping
    regex (a character class from 0x7f to 0xffff, without the `u` flag) matches code units, surrogate
    halves included. The model therefore encodes a Dafny string to UTF-16
    first and escapes code unit by code unit. */
module Utils {

  type CodeUnit = u: int | 0 <= u < 0x1_0000

  /** The first code unit the header escaping replaces (DEL). */
  const FirstUnsafe: CodeUnit := 0x7f

  const Backslash: CodeUnit := 0x5c
  const LetterU: CodeUnit := 0x75
  const Digit0: CodeUnit := 0x30

  // ---------------------------------------------------------------------
  // getBaseURL

  const BaseUrlPrefix := "https://"
  const BaseUrlSuffix := ".dropboxapi.com/2/"

  /** `getBaseURL(host)`: the host sits between a fixed scheme and a fixed
      domain-and-version suffix, so it can be read back from the URL. */
  function GetBaseUrl(host: string): (url: string)
    ensures |url| == |host| + 26
    ensures url[..8] == "https://"
    ensures url[8..8 + |host|] == host
    ensures url[8 + |host|..] == ".dropboxapi.com/2/"
  {
    BaseUrlPrefix + host + BaseUrlSuffix
  }

  /** Different hosts give different base URLs. */
  lemma GetBaseUrlInjective(h1: string, h2: string)
    requires GetBaseUrl(h1) == GetBaseUrl(h2)
    ensures h1 == h2
  {
    var u := GetBaseUrl(h1);
    assert |h1| == |h2|;
    assert h1 == u[8..8 + |h1|];
  }

  // ---------------------------------------------------------------------
  // UTF-16 view of strings

  /** The UTF-16 code units of one Unicode scalar value. */
  function CharUnits(c: char): (r: seq<CodeUnit>)
    ensures 1 <= |r| <= 2
    ensures (c as int) < 0x1_0000 <==> |r| == 1
    ensures |r| == 1 ==> r[0] == c as int
  {
    var v := c as int;
    if v < 0x1_0000 then [v]
    else [0xD800 + (v - 0x1_0000) / 0x400, 0xDC00 + (v - 0x1_0000) % 0x400]
  }

  /** The JavaScript view of a string: its UTF-16 code units. */
  function Utf16(s: string): (r: seq<CodeUnit>)
    ensures |r| >= |s|
  {
    if |s| == 0 then [] else CharUnits(s[0]) + Utf16(s[1..])
  }

  predicate AllNarrow(u: seq<CodeUnit>) {
    forall i :: 0 <= i < |u| ==> u[i] < FirstUnsafe
  }

  /** A string of code units below 0x7f read back as Dafny characters. */
  function Ascii(u: seq<CodeUnit>): (r: string)
    requires AllNarrow(u)
    ensures |r| == |u|
    ensures forall i :: 0 <= i < |r| ==> r[i] as int == u[i]
  {
    if |u| == 0 then "" else [u[0] as char] + Ascii(u[1..])
  }

  /** Reading ASCII code units as characters loses nothing. */
  lemma {:induction false} Utf16OfAscii(u: seq<CodeUnit>)
    requires AllNarrow(u)
    ensures Utf16(Ascii(u)) == u
  {
    if |u| > 0 {
      Utf16OfAscii(u[1..]);
      assert Ascii(u)[1..] == Ascii(u[1..]);
    }
  }

  // ---------------------------------------------------------------------
  // The \uXXXX escape

  /** One lower-case hexadecimal digit, as `Number.prototype.toString(16)` writes it. */
  function HexDigit(d: int): (r: CodeUnit)
    requires 0 <= d < 16
    ensures r < FirstUnsafe
  {
    if d < 10 then Digit0 + d else 0x61 + (d - 10)
  }

  /** `n.toString(16)`: the shortest lower-case hexadecimal numeral of `n`. */
  function ToHex(n: nat): (r: seq<CodeUnit>)
    ensures |r| >= 1
    decreases n
  {
    if n < 16 then [HexDigit(n)] else ToHex(n / 16) + [HexDigit(n % 16)]
  }

  /** `s.slice(-4)`: the last four units, or all of them when there are fewer. */
  function Last4(s: seq<CodeUnit>): (r: seq<CodeUnit>)
    ensures |s| >= 4 ==> |r| == 4
  {
    if |s| <= 4 then s else s[|s| - 4..]
  }

  /** The replacement the source computes for one code unit:
      backslash, `u`, then `('000' + c.toString(16)).slice(-4)`. */
  function Escape(c: CodeUnit): (r: seq<CodeUnit>)
    ensures r == [Backslash, LetterU] + Hex4(c)
    ensures |r| == 6 && AllNarrow(r)
  {
    EscapeIsFixedWidth(c);
    [Backslash, LetterU] + Last4([Digit0, Digit0, Digit0] + ToHex(c))
  }

  /** The four hexadecimal digits of a code unit, most significant first. */
  function Hex4(c: CodeUnit): (r: seq<CodeUnit>)
    ensures |r| == 4 && AllNarrow(r)
  {
    var a := c / 16;
    var b := a / 16;
    [HexDigit(b / 16), HexDigit(b % 16), HexDigit(a % 16), HexDigit(c % 16)]
  }

  /** Padding with three zeros and keeping the last four digits is exactly the
      zero-padded four-digit numeral, for every code unit. */
  lemma EscapeIsFixedWidth(c: CodeUnit)
    ensures Last4([Digit0, Digit0, Digit0] + ToHex(c)) == Hex4(c)
  {
    var a := c / 16;
    var b := a / 16;
    var d := b / 16;
    assert HexDigit(0) == Digit0;
    if c < 16 {
      assert a == 0 && b == 0 && d == 0;
      assert ToHex(c) == [HexDigit(c)];
    } else if a < 16 {
      assert b == 0 && d == 0;
      assert ToHex(c) == [HexDigit(a), HexDigit(c % 16)];
    } else if b < 16 {
      assert d == 0;
      assert ToHex(a) == [HexDigit(b), HexDigit(a % 16)];
      assert ToHex(c) == [HexDigit(b), HexDigit(a % 16), HexDigit(c % 16)];
    } else {
      assert ToHex(b) == [HexDigit(d), HexDigit(b % 16)];
      assert ToHex(a) == [HexDigit(d), HexDigit(b % 16), HexDigit(a % 16)];
      assert ToHex(c) == [HexDigit(d), HexDigit(b % 16), HexDigit(a % 16), HexDigit(c % 16)];
    }
  }

  /** The value of a hexadecimal digit, as a JSON parser reads it. */
  function HexValue(d: CodeUnit): int {
    if Digit0 <= d <= 0x39 then d - Digit0
    else if 0x61 <= d <= 0x66 then d - 0x61 + 10
    else -1
  }

  /** The escape is decodable: a reader of `\uXXXX` gets back the very code
      unit that was replaced. */
  lemma Hex4Decodes(c: CodeUnit)
    ensures var h := Hex4(c);
            HexValue(h[0]) * 0x1000 + HexValue(h[1]) * 0x100 + HexValue(h[2]) * 16 + HexValue(h[3]) == c
  {
    var a := c / 16;
    var b := a / 16;
    var h := Hex4(c);
    assert HexValue(h[0]) == b / 16;
    assert HexValue(h[1]) == b % 16;
    assert HexValue(h[2]) == a % 16;
    assert HexValue(h[3]) == c % 16;
    assert c == 16 * a + c % 16;
    assert a == 16 * b + a % 16;
    assert b == 16 * (b / 16) + b % 16;
  }

  // ---------------------------------------------------------------------
  // httpHeaderSafeJson

  /** What the replace pass puts in place of one code unit. */
  function Piece(c: CodeUnit): (r: seq<CodeUnit>)
    ensures c < FirstUnsafe ==> r == [c]
    ensures c >= FirstUnsafe ==> r == Escape(c)
    ensures AllNarrow(r)
  {
    if c < FirstUnsafe then [c] else Escape(c)
  }

  /** How many code units the escaping replaces. */
  function Wide(s: seq<CodeUnit>): (n: nat)
    ensures n <= |s|
  {
    if |s| == 0 then 0 else (if s[0] >= FirstUnsafe then 1 else 0) + Wide(s[1..])
  }

  /** The replace pass of `httpHeaderSafeJson`: every code unit in
      [0x7f, 0xffff] becomes `\uXXXX`, all others are copied. */
  function HeaderSafe(s: seq<CodeUnit>): (r: seq<CodeUnit>)
    ensures AllNarrow(r)
    ensures |r| == |s| + 5 * Wide(s)
    decreases |s|
  {
    if |s| == 0 then [] else Piece(s[0]) + HeaderSafe(s[1..])
  }

  /** `httpHeaderSafeJson(args)` given the text `JSON.stringify(args)`. */
  function HttpHeaderSafeJson(json: string): (r: string)
    ensures forall i :: 0 <= i < |r| ==> (r[i] as int) < 0x7f
    ensures |r| == |Utf16(json)| + 5 * Wide(Utf16(json))
  {
    Ascii(HeaderSafe(Utf16(json)))
  }

  /** The pass works unit by unit: escaping a concatenation escapes each part. */
  lemma {:induction false} HeaderSafeAppend(a: seq<CodeUnit>, b: seq<CodeUnit>)
    ensures HeaderSafe(a + b) == HeaderSafe(a) + HeaderSafe(b)
    decreases |a|
  {
    if |a| > 0 {
      assert (a + b)[1..] == a[1..] + b;
      HeaderSafeAppend(a[1..], b);
    } else {
      assert a + b == b;
    }
  }

  lemma {:induction false} WideAppend(a: seq<CodeUnit>, b: seq<CodeUnit>)
    ensures Wide(a + b) == Wide(a) + Wide(b)
    decreases |a|
  {
    if |a| > 0 {
      assert (a + b)[1..] == a[1..] + b;
      WideAppend(a[1..], b);
    } else {
      assert a + b == b;
    }
  }

  /** Where the replacement of `s[i]` starts in the output. */
  function Offset(s: seq<CodeUnit>, i: nat): nat
    requires i <= |s|
  {
    i + 5 * Wide(s[..i])
  }

  /** The output is the pieces of the input laid end to end in input order:
      the piece for `s[i]` occupies [Offset(s, i), Offset(s, i + 1)). So a
      unit below 0x7f reappears unchanged, an escaped unit becomes exactly
      its six-unit escape, and nothing is reordered, dropped or added. */
  lemma HeaderSafeAt(s: seq<CodeUnit>, i: nat)
    requires i < |s|
    ensures Offset(s, i + 1) == Offset(s, i) + |Piece(s[i])| <= |HeaderSafe(s)|
    ensures HeaderSafe(s)[Offset(s, i)..Offset(s, i + 1)] == Piece(s[i])
    ensures s[i] < FirstUnsafe ==> HeaderSafe(s)[Offset(s, i)] == s[i]
  {
    var pre, rest := s[..i], s[i + 1..];
    assert s == pre + [s[i]] + rest;
    assert s[..i + 1] == pre + [s[i]];
    HeaderSafeAppend(pre + [s[i]], rest);
    HeaderSafeAppend(pre, [s[i]]);
    WideAppend(pre, [s[i]]);
    assert HeaderSafe([s[i]]) == Piece(s[i]) by {
      assert [s[i]][1..] == [];
    }
    assert Wide([s[i]]) == if s[i] >= FirstUnsafe then 1 else 0 by {
      assert [s[i]][1..] == [];
    }
  }

  /** The whole output is accounted for: the pieces end where the output ends. */
  lemma HeaderSafeEnd(s: seq<CodeUnit>)
    ensures Offset(s, |s|) == |HeaderSafe(s)|
  {
    assert s[..|s|] == s;
  }

  /** Text that needs no escaping passes through unchanged. */
  lemma {:induction false} HeaderSafeOfNarrow(s: seq<CodeUnit>)
    requires AllNarrow(s)
    ensures HeaderSafe(s) == s
    decreases |s|
  {
    if |s| > 0 {
      HeaderSafeOfNarrow(s[1..]);
    }
  }

  /** Escaping an already escaped text changes nothing. */
  lemma HeaderSafeIdempotent(s: seq<CodeUnit>)
    ensures HeaderSafe(HeaderSafe(s)) == HeaderSafe(s)
  {
    HeaderSafeOfNarrow(HeaderSafe(s));
  }

  /** The same holds at the level of the header value. */
  lemma HttpHeaderSafeJsonIdempotent(json: string)
    ensures HttpHeaderSafeJson(HttpHeaderSafeJson(json)) == HttpHeaderSafeJson(json)
  {
    var u := HeaderSafe(Utf16(json));
    Utf16OfAscii(u);
    HeaderSafeOfNarrow(u);
  }

  /** `{"foo":"bar单bazá"}` is sent as `{"foo":"bar\\u5355baz\\u00e1"}`. */
  lemma HttpHeaderSafeJsonExample()
    ensures HttpHeaderSafeJson("{\"foo\":\"bar" + "\U{5355}" + "baz" + "\U{e1}" + "\"}")
         == "{\"foo\":\"bar" + "\\u5355" + "baz" + "\\u00e1" + "\"}"
  {
    ExampleUnits();
    ExampleEscape();
    ExampleAscii();
  }

  const ExampleHead: seq<CodeUnit> := [0x7b, 0x22, 0x66, 0x6f, 0x6f, 0x22, 0x3a, 0x22, 0x62, 0x61, 0x72]
  const ExampleMid: seq<CodeUnit> := [0x62, 0x61, 0x7a]
  const ExampleTail: seq<CodeUnit> := [0x22, 0x7d]
  const ExampleEscape1: seq<CodeUnit> := [0x5c, 0x75, 0x35, 0x33, 0x35, 0x35]
  const ExampleEscape2: seq<CodeUnit> := [0x5c, 0x75, 0x30, 0x30, 0x65, 0x31]

  lemma ExampleUnits()
    ensures Utf16("{\"foo\":\"bar" + "\U{5355}" + "baz" + "\U{e1}" + "\"}")
         == ExampleHead + [0x5355] + ExampleMid + [0xe1] + ExampleTail
  {
    ExampleHeadText();
    ExampleMidText();
    ExampleTailText();
    Utf16Splice("{\"foo\":\"bar", '\U{5355}', "baz", '\U{e1}', "\"}");
  }

  lemma ExampleEscape()
    ensures HeaderSafe(ExampleHead + [0x5355] + ExampleMid + [0xe1] + ExampleTail)
         == ExampleHead + ExampleEscape1 + ExampleMid + ExampleEscape2 + ExampleTail
  {
    ExampleHeadText();
    ExampleMidText();
    ExampleTailText();
    ExampleEscapeText1();
    ExampleEscapeText2();
    HeaderSafeSplice(ExampleHead, 0x5355, ExampleMid, 0xe1, ExampleTail);
  }

  lemma ExampleAscii()
    ensures AllNarrow(ExampleHead + ExampleEscape1 + ExampleMid + ExampleEscape2 + ExampleTail)
    ensures Ascii(ExampleHead + ExampleEscape1 + ExampleMid + ExampleEscape2 + ExampleTail)
         == "{\"foo\":\"bar" + "\\u5355" + "baz" + "\\u00e1" + "\"}"
  {
    ExampleHeadText();
    ExampleMidText();
    ExampleTailText();
    ExampleEscapeText1();
    ExampleEscapeText2();
    AsciiSplice(ExampleHead, ExampleEscape1, ExampleMid, ExampleEscape2, ExampleTail);
  }

  lemma ExampleHeadText()
    ensures AllNarrow(ExampleHead) && Ascii(ExampleHead) == "{\"foo\":\"bar"
    ensures Utf16("{\"foo\":\"bar") == ExampleHead
  {
    SameText(ExampleHead, "{\"foo\":\"bar");
  }

  lemma ExampleMidText()
    ensures AllNarrow(ExampleMid) && Ascii(ExampleMid) == "baz"
    ensures Utf16("baz") == ExampleMid
  {
    SameText(ExampleMid, "baz");
  }

  lemma ExampleTailText()
    ensures AllNarrow(ExampleTail) && Ascii(ExampleTail) == "\"}"
    ensures Utf16("\"}") == ExampleTail
  {
    SameText(ExampleTail, "\"}");
  }

  lemma ExampleEscapeText1()
    ensures Piece(0x5355) == ExampleEscape1
    ensures AllNarrow(ExampleEscape1) && Ascii(ExampleEscape1) == "\\u5355"
  {
    assert 0x5355 / 16 == 0x535 && 0x535 / 16 == 0x53;
    assert Hex4(0x5355) == [0x35, 0x33, 0x35, 0x35];
    SameText(ExampleEscape1, "\\u5355");
  }

  lemma ExampleEscapeText2()
    ensures Piece(0xe1) == ExampleEscape2
    ensures AllNarrow(ExampleEscape2) && Ascii(ExampleEscape2) == "\\u00e1"
  {
    assert 0xe1 / 16 == 0xe && 0xe / 16 == 0;
    assert Hex4(0xe1) == [0x30, 0x30, 0x65, 0x31];
    SameText(ExampleEscape2, "\\u00e1");
  }

  /** A code-unit sequence and a string that agree position by position are
      each other's UTF-16 encoding and ASCII reading. */
  lemma SameText(u: seq<CodeUnit>, s: string)
    requires |u| == |s|
    requires forall i :: 0 <= i < |s| ==> u[i] == s[i] as int && u[i] < FirstUnsafe
    ensures AllNarrow(u) && Ascii(u) == s && Utf16(s) == u
  {
    Utf16Bmp(s);
  }

  lemma Utf16Splice(a: string, x: char, b: string, y: char, c: string)
    requires (x as int) < 0x1_0000 && (y as int) < 0x1_0000
    ensures Utf16(a + [x] + b + [y] + c) == Utf16(a) + [x as int] + Utf16(b) + [y as int] + Utf16(c)
  {
    Utf16Append(a + [x] + b + [y], c);
    Utf16Append(a + [x] + b, [y]);
    Utf16Append(a + [x], b);
    Utf16Append(a, [x]);
    assert Utf16([x]) == [x as int] by { assert [x][1..] == []; }
    assert Utf16([y]) == [y as int] by { assert [y][1..] == []; }
  }

  lemma HeaderSafeSplice(a: seq<CodeUnit>, x: CodeUnit, b: seq<CodeUnit>, y: CodeUnit, c: seq<CodeUnit>)
    requires AllNarrow(a) && AllNarrow(b) && AllNarrow(c)
    ensures HeaderSafe(a + [x] + b + [y] + c) == a + Piece(x) + b + Piece(y) + c
  {
    HeaderSafeOne(x);
    HeaderSafeOne(y);
    HeaderSafeOfNarrow(a);
    HeaderSafeOfNarrow(b);
    HeaderSafeOfNarrow(c);
    HeaderSafeAppend(a + [x] + b + [y], c);
    HeaderSafeAppend(a + [x] + b, [y]);
    HeaderSafeAppend(a + [x], b);
    HeaderSafeAppend(a, [x]);
  }

  lemma AsciiSplice(a: seq<CodeUnit>, b: seq<CodeUnit>, c: seq<CodeUnit>, d: seq<CodeUnit>, e: seq<CodeUnit>)
    requires AllNarrow(a) && AllNarrow(b) && AllNarrow(c) && AllNarrow(d) && AllNarrow(e)
    ensures AllNarrow(a + b + c + d + e)
    ensures Ascii(a + b + c + d + e) == Ascii(a) + Ascii(b) + Ascii(c) + Ascii(d) + Ascii(e)
  {
    AsciiAppend(a, b);
    AsciiAppend(a + b, c);
    AsciiAppend(a + b + c, d);
    AsciiAppend(a + b + c + d, e);
  }

  lemma HeaderSafeOne(c: CodeUnit)
    ensures HeaderSafe([c]) == Piece(c)
  {
    assert [c][1..] == [];
  }

  lemma {:induction false} AsciiAppend(a: seq<CodeUnit>, b: seq<CodeUnit>)
    requires AllNarrow(a) && AllNarrow(b)
    ensures AllNarrow(a + b)
    ensures Ascii(a + b) == Ascii(a) + Ascii(b)
    decreases |a|
  {
    if |a| > 0 {
      assert (a + b)[1..] == a[1..] + b;
      AsciiAppend(a[1..], b);
    } else {
      assert a + b == b;
    }
  }

  /** A string without astral characters is its own code-unit sequence. */
  lemma {:induction false} Utf16Bmp(s: string)
    requires forall i :: 0 <= i < |s| ==> (s[i] as int) < 0x1_0000
    ensures |Utf16(s)| == |s|
    ensures forall i :: 0 <= i < |s| ==> Utf16(s)[i] == s[i] as int
  {
    if |s| > 0 {
      Utf16Bmp(s[1..]);
    }
  }

  lemma {:induction false} Utf16Append(a: string, b: string)
    ensures Utf16(a + b) == Utf16(a) + Utf16(b)
    decreases |a|
  {
    if |a| > 0 {
      assert (a + b)[1..] == a[1..] + b;
      Utf16Append(a[1..], b);
    } else {
      assert a + b == b;
    }
  }
}
