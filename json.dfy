/** The part of Python's `json` module that taxid_data files rely on:
    `json.dumps` and `json.loads` of a list of strings, with the default
    settings (`ensure_ascii=True`, item separator `", "`, strict decoding). */
module Json {
  import opened Base
  import opened Strings

  /** Characters `json.dumps` copies unchanged: printable ASCII other than
      the quote and the backslash. */
  predicate Plain(c: char) {
    ' ' <= c <= '~' && c != '"' && c != '\\'
  }

  predicate Printable(s: string) {
    forall i :: 0 <= i < |s| ==> ' ' <= s[i] <= '~'
  }

  function HexDigit(d: nat): (c: char)
    requires d < 16
    ensures HexValue(c) == Some(d)
    ensures '0' <= c <= 'f'
  {
    if d < 10 then ('0' as int + d) as char else ('a' as int + d - 10) as char
  }

  /** The value of one hexadecimal digit, in either case. */
  function HexValue(c: char): (r: Option<nat>)
    ensures r.Some? ==> r.value < 16
  {
    if '0' <= c <= '9' then Some(c as int - '0' as int)
    else if 'a' <= c <= 'f' then Some(c as int - 'a' as int + 10)
    else if 'A' <= c <= 'F' then Some(c as int - 'A' as int + 10)
    else None
  }

  function Hex2(n: nat): (r: string)
    requires n < 0x100
    ensures |r| == 2 && Printable(r)
  {
    [HexDigit(n / 0x10), HexDigit(n % 0x10)]
  }

  /** Four lower-case hexadecimal digits, most significant first. */
  function Hex4(n: nat): (r: string)
    requires n < 0x10000
    ensures |r| == 4
  {
    Hex2(n / 0x100) + Hex2(n % 0x100)
  }

  /** The number spelled by the two hexadecimal digits at `s[i..i+2]`. */
  function Hex2At(s: string, i: nat): (r: Option<nat>)
    requires i + 2 <= |s|
    ensures r.Some? ==> r.value < 0x100
  {
    match (HexValue(s[i]), HexValue(s[i + 1]))
    case (Some(a), Some(b)) => Some(a * 0x10 + b)
    case _ => None
  }

  /** The number spelled by the four hexadecimal digits at `s[i..i+4]`. */
  function Hex4At(s: string, i: nat): (r: Result<nat>)
    ensures r.Success? ==> r.value < 0x10000
  {
    if |s| < i + 4 then Failure(ValueError("Invalid \\uXXXX escape"))
    else match (Hex2At(s, i), Hex2At(s, i + 2))
      case (Some(h), Some(l)) => Success(h * 0x100 + l)
      case _ => Failure(ValueError("Invalid \\uXXXX escape"))
  }

  function UEscape(n: nat): (r: string)
    requires n < 0x10000
    ensures |r| == 6
  {
    "\\u" + Hex4(n)
  }

  /** How `json.dumps` writes one character of a string: the two-character
      escapes for the quote, backslash and five control characters, printable
      ASCII as it is, any other character below U+10000 as `\uXXXX`, and the
      rest as a UTF-16 surrogate pair of `\uXXXX` escapes. */
  function Escape(c: char): (r: string)
    ensures |r| > 0
    ensures |r| == 1 <==> Plain(c)
    ensures |r| == 1 ==> r == [c]
    ensures |r| > 1 ==> r[0] == '\\'
  {
    if c == '"' then "\\\""
    else if c == '\\' then "\\\\"
    else if c == '\n' then "\\n"
    else if c == '\r' then "\\r"
    else if c == '\t' then "\\t"
    else if c == '\U{8}' then "\\b"
    else if c == '\U{c}' then "\\f"
    else if ' ' <= c <= '~' then [c]
    else if c as int < 0x10000 then UEscape(c as int)
    else UEscape(HighSurrogate(c)) + UEscape(LowSurrogate(c))
  }

  /** The two halves of the UTF-16 encoding of a character above U+FFFF. */
  function HighSurrogate(c: char): (n: nat)
    requires c as int >= 0x10000
    ensures 0xD800 <= n < 0xDC00
  {
    0xD800 + (c as int - 0x10000) / 0x400
  }

  function LowSurrogate(c: char): (n: nat)
    requires c as int >= 0x10000
    ensures 0xDC00 <= n < 0xE000
  {
    0xDC00 + (c as int - 0x10000) % 0x400
  }

  function EscapeAll(s: string): string {
    if s == [] then "" else Escape(s[0]) + EscapeAll(s[1..])
  }

  function Quote(s: string): (r: string)
    ensures |r| >= 2 && r[0] == '"'
  {
    "\"" + EscapeAll(s) + "\""
  }

  function QuoteAll(xs: seq<string>): (qs: seq<string>)
    ensures |qs| == |xs|
    ensures forall i :: 0 <= i < |xs| ==> qs[i] == Quote(xs[i])
  {
    seq(|xs|, i requires 0 <= i < |xs| => Quote(xs[i]))
  }

  /** `json.dumps(xs)` for a list of strings: the quoted items joined by
      `", "` between brackets. */
  function Dumps(xs: seq<string>): (r: string)
    ensures |r| >= 2 && r[0] == '[' && r[|r| - 1] == ']'
  {
    "[" + Join(", ", QuoteAll(xs)) + "]"
  }

  lemma UEscapePrintable(n: nat)
    requires n < 0x10000
    ensures Printable(UEscape(n))
  {
    assert UEscape(n) == "\\u" + Hex2(n / 0x100) + Hex2(n % 0x100);
  }

  lemma EscapePrintable(c: char)
    ensures Printable(Escape(c))
  {
    if Named(c) || ' ' <= c <= '~' {
    } else if c as int < 0x10000 {
      UEscapePrintable(c as int);
    } else {
      UEscapePrintable(HighSurrogate(c));
      UEscapePrintable(LowSurrogate(c));
    }
  }

  lemma {:induction false} EscapeAllPrintable(s: string)
    ensures Printable(EscapeAll(s))
    decreases |s|
  {
    if s != [] {
      EscapePrintable(s[0]);
      EscapeAllPrintable(s[1..]);
    }
  }

  lemma {:induction false} JoinPrintable(sep: string, parts: seq<string>)
    requires Printable(sep)
    requires forall i :: 0 <= i < |parts| ==> Printable(parts[i])
    ensures Printable(Join(sep, parts))
    decreases |parts|
  {
    if |parts| > 1 {
      JoinPrintable(sep, parts[1..]);
    }
  }

  /** Every character `json.dumps` writes is printable ASCII, so its output
      holds no tab, newline or carriage return. */
  lemma DumpsPrintable(xs: seq<string>)
    ensures Printable(Dumps(xs))
  {
    var qs := QuoteAll(xs);
    forall i | 0 <= i < |qs|
      ensures Printable(qs[i])
    {
      EscapeAllPrintable(xs[i]);
    }
    JoinPrintable(", ", qs);
  }

  predicate IsWs(c: char) {
    c == ' ' || c == '\t' || c == '\n' || c == '\r'
  }

  function SkipWs(s: string): (r: string)
    ensures |r| <= |s|
  {
    if |s| > 0 && IsWs(s[0]) then SkipWs(s[1..]) else s
  }

  /** The escape sequence at the start of `s` (which begins with a backslash):
      the character it stands for and its length. A surrogate that is not
      half of a high/low pair is refused (see README). */
  function Unescape(s: string): (r: Result<(char, nat)>)
    requires |s| > 0 && s[0] == '\\'
    ensures r.Success? ==> 2 <= r.value.1 <= |s|
  {
    if |s| < 2 then Failure(ValueError("Unterminated string"))
    else if s[1] == '"' then Success(('"', 2))
    else if s[1] == '\\' then Success(('\\', 2))
    else if s[1] == '/' then Success(('/', 2))
    else if s[1] == 'b' then Success(('\U{8}', 2))
    else if s[1] == 'f' then Success(('\U{c}', 2))
    else if s[1] == 'n' then Success(('\n', 2))
    else if s[1] == 'r' then Success(('\r', 2))
    else if s[1] == 't' then Success(('\t', 2))
    else if s[1] == 'u' then
      var hi :- Hex4At(s, 2);
      if 0xD800 <= hi < 0xDC00 then
        if |s| >= 12 && s[6] == '\\' && s[7] == 'u' then
          var lo :- Hex4At(s, 8);
          if 0xDC00 <= lo < 0xE000 then
            Success(((0x10000 + (hi - 0xD800) * 0x400 + (lo - 0xDC00)) as char, 12))
          else Failure(ValueError("lone surrogate"))
        else Failure(ValueError("lone surrogate"))
      else if 0xDC00 <= hi < 0xE000 then Failure(ValueError("lone surrogate"))
      else Success((hi as char, 6))
    else Failure(ValueError("Invalid \\escape"))
  }

  /** The body of a string literal up to its closing quote: the decoded text
      and what follows the quote. */
  function ParseChars(s: string): (r: Result<(string, string)>)
    ensures r.Success? ==> |r.value.1| < |s|
    decreases |s|
  {
    if s == [] then Failure(ValueError("Unterminated string"))
    else if s[0] == '"' then Success(("", s[1..]))
    else if s[0] == '\\' then
      var e :- Unescape(s);
      var p :- ParseChars(s[e.1..]);
      Success(([e.0] + p.0, p.1))
    else if s[0] < ' ' then Failure(ValueError("Invalid control character"))
    else
      var p :- ParseChars(s[1..]);
      Success(([s[0]] + p.0, p.1))
  }

  function ParseString(s: string): (r: Result<(string, string)>)
    ensures r.Success? ==> |r.value.1| < |s|
  {
    if |s| > 0 && s[0] == '"' then ParseChars(s[1..])
    else Failure(ValueError("Expecting value"))
  }

  /** One or more string elements of an array and its closing bracket. */
  function ParseElements(s: string): (r: Result<(seq<string>, string)>)
    decreases |s|
  {
    var first :- ParseString(s);
    var t := SkipWs(first.1);
    if |t| > 0 && t[0] == ']' then Success(([first.0], t[1..]))
    else if |t| > 0 && t[0] == ',' then
      var more :- ParseElements(SkipWs(t[1..]));
      Success(([first.0] + more.0, more.1))
    else Failure(ValueError("Expecting ',' delimiter"))
  }

  /** `json.loads(s)` where the document is an array of strings; any other
      document is refused (see README). */
  function Loads(s: string): (r: Result<seq<string>>)
    ensures r.Success? ==> |SkipWs(s)| > 0 && SkipWs(s)[0] == '['
  {
    var t := SkipWs(s);
    if |t| > 0 && t[0] == '[' then
      var u := SkipWs(t[1..]);
      var p :- if |u| > 0 && u[0] == ']' then Success(([], u[1..])) else ParseElements(u);
      if SkipWs(p.1) == "" then Success(p.0) else Failure(ValueError("Extra data"))
    else Failure(ValueError("Expecting value"))
  }

  lemma Hex2RoundTrip(n: nat, s: string, i: nat)
    requires n < 0x100
    requires i + 2 <= |s| && s[i..i + 2] == Hex2(n)
    ensures Hex2At(s, i) == Some(n)
  {
    assert s[i] == Hex2(n)[0] && s[i + 1] == Hex2(n)[1];
  }

  lemma Hex4RoundTrip(n: nat, s: string, i: nat)
    requires n < 0x10000
    requires i + 4 <= |s| && s[i..i + 4] == Hex4(n)
    ensures Hex4At(s, i) == Success(n)
  {
    assert s[i..i + 2] == s[i..i + 4][..2] && s[i + 2..i + 4] == s[i..i + 4][2..];
    assert Hex4(n)[..2] == Hex2(n / 0x100) && Hex4(n)[2..] == Hex2(n % 0x100);
    Hex2RoundTrip(n / 0x100, s, i);
    Hex2RoundTrip(n % 0x100, s, i + 2);
  }

  /** The escapes that name their character. */
  predicate Named(c: char) {
    c == '"' || c == '\\' || c == '\n' || c == '\r' || c == '\t' || c == '\U{8}' || c == '\U{c}'
  }

  lemma UnescapeNamed(c: char, t: string)
    requires Named(c)
    ensures Unescape(Escape(c) + t) == Success((c, |Escape(c)|))
  {
  }

  lemma UnescapeBmp(c: char, t: string)
    requires !Named(c) && !(' ' <= c <= '~') && c as int < 0x10000
    ensures Unescape(Escape(c) + t) == Success((c, |Escape(c)|))
  {
    var s := Escape(c) + t;
    assert Escape(c) == UEscape(c as int);
    assert s[2..6] == Hex4(c as int);
    Hex4RoundTrip(c as int, s, 2);
  }

  /** A high surrogate escape followed by a low surrogate escape decodes to
      the character the pair encodes. */
  lemma UnescapePair(s: string, hi: nat, lo: nat)
    requires |s| >= 12 && s[0] == '\\' && s[1] == 'u' && s[6] == '\\' && s[7] == 'u'
    requires 0xD800 <= hi < 0xDC00 && 0xDC00 <= lo < 0xE000
    requires Hex4At(s, 2) == Success(hi) && Hex4At(s, 8) == Success(lo)
    ensures Unescape(s) == Success(((0x10000 + (hi - 0xD800) * 0x400 + (lo - 0xDC00)) as char, 12))
  {
  }

  lemma SurrogateJoin(c: char)
    requires c as int >= 0x10000
    ensures 0x10000 + (HighSurrogate(c) - 0xD800) * 0x400 + (LowSurrogate(c) - 0xDC00) == c as int
  {
  }

  lemma UnescapeAstral(c: char, t: string)
    requires c as int >= 0x10000
    ensures Unescape(Escape(c) + t) == Success((c, |Escape(c)|))
  {
    var hi, lo := HighSurrogate(c), LowSurrogate(c);
    var s := UEscape(hi) + UEscape(lo) + t;
    assert Escape(c) + t == s;
    assert s[2..6] == Hex4(hi) && s[8..12] == Hex4(lo);
    Hex4RoundTrip(hi, s, 2);
    Hex4RoundTrip(lo, s, 8);
    UnescapePair(s, hi, lo);
    SurrogateJoin(c);
  }

  /** Decoding the escape `json.dumps` writes for `c` gives `c` back and
      consumes exactly that escape, whatever follows it. */
  lemma UnescapeEscape(c: char, t: string)
    requires !Plain(c)
    ensures Unescape(Escape(c) + t) == Success((c, |Escape(c)|))
  {
    if Named(c) {
      UnescapeNamed(c, t);
    } else if c as int < 0x10000 {
      UnescapeBmp(c, t);
    } else {
      UnescapeAstral(c, t);
    }
  }

  /** A decoded character in front of a decoded remainder. */
  function Cons(c: char, r: Result<(string, string)>): Result<(string, string)> {
    if r.Success? then Success(([c] + r.value.0, r.value.1)) else r
  }

  lemma ParseCharsEscape(c: char, tail: string)
    ensures ParseChars(Escape(c) + tail) == Cons(c, ParseChars(tail))
  {
    var s := Escape(c) + tail;
    if Plain(c) {
      assert s[1..] == tail;
    } else {
      UnescapeEscape(c, tail);
      assert s[|Escape(c)|..] == tail;
    }
  }

  lemma {:induction false} ParseCharsEscaped(s: string, rest: string)
    ensures ParseChars(EscapeAll(s) + "\"" + rest) == Success((s, rest))
    decreases |s|
  {
    if s == [] {
      assert EscapeAll(s) + "\"" + rest == "\"" + rest;
    } else {
      ParseCharsEscaped(s[1..], rest);
      ParseCharsEscapedCons(s, rest);
    }
  }

  lemma ParseCharsEscapedCons(s: string, rest: string)
    requires s != []
    requires ParseChars(EscapeAll(s[1..]) + "\"" + rest) == Success((s[1..], rest))
    ensures ParseChars(EscapeAll(s) + "\"" + rest) == Success((s, rest))
  {
    var tail := EscapeAll(s[1..]) + "\"" + rest;
    ParseCharsEscape(s[0], tail);
    assert EscapeAll(s) + "\"" + rest == Escape(s[0]) + tail;
    assert [s[0]] + s[1..] == s;
  }

  lemma ParseStringQuoted(s: string, rest: string)
    ensures ParseString(Quote(s) + rest) == Success((s, rest))
  {
    assert (Quote(s) + rest)[1..] == EscapeAll(s) + "\"" + rest;
    ParseCharsEscaped(s, rest);
  }

  /** A decoded element in front of the decoded remaining elements. */
  function ConsItem(x: string, r: Result<(seq<string>, string)>): Result<(seq<string>, string)> {
    if r.Success? then Success(([x] + r.value.0, r.value.1)) else r
  }

  /** The step of `ParseElements` after a string literal `q` followed by the
      closing bracket. */
  lemma ParseElementsLast(q: string, x: string, rest: string)
    requires ParseString(q + ("]" + rest)) == Success((x, "]" + rest))
    ensures ParseElements(q + ("]" + rest)) == Success(([x], rest))
  {
    assert ("]" + rest)[1..] == rest;
  }

  /** The step of `ParseElements` after a string literal `q` followed by the
      `", "` separator. */
  lemma ParseElementsNext(q: string, x: string, more: string)
    requires ParseString(q + (", " + more)) == Success((x, ", " + more))
    requires |more| > 0 && more[0] == '"'
    ensures ParseElements(q + (", " + more)) == ConsItem(x, ParseElements(more))
  {
    var t := ", " + more;
    assert SkipWs(t) == t;
    assert t[1..] == " " + more;
    assert SkipWs(" " + more) == more by {
      assert (" " + more)[1..] == more;
    }
  }

  lemma JoinStart(qs: seq<string>, t: string)
    requires |qs| > 0 && |qs[0]| > 0
    ensures |Join(", ", qs) + t| > 0 && (Join(", ", qs) + t)[0] == qs[0][0]
  {
    if |qs| > 1 {
      assert Join(", ", qs) + t == qs[0] + (", " + Join(", ", qs[1..]) + t);
    }
  }

  lemma JoinedShape(qs: seq<string>, rest: string)
    requires |qs| > 1
    ensures Join(", ", qs) + "]" + rest == qs[0] + (", " + (Join(", ", qs[1..]) + "]" + rest))
  {
  }

  lemma ParseElementsJoinedCons(qs: seq<string>, xs: seq<string>, rest: string)
    requires |qs| == |xs| > 1
    requires |qs[1]| > 0 && qs[1][0] == '"'
    requires ParseString(qs[0] + (", " + (Join(", ", qs[1..]) + "]" + rest))) ==
      Success((xs[0], ", " + (Join(", ", qs[1..]) + "]" + rest)))
    requires ParseElements(Join(", ", qs[1..]) + "]" + rest) == Success((xs[1..], rest))
    ensures ParseElements(Join(", ", qs) + "]" + rest) == Success((xs, rest))
  {
    var more := Join(", ", qs[1..]) + "]" + rest;
    JoinStart(qs[1..], "]" + rest);
    assert more == Join(", ", qs[1..]) + ("]" + rest);
    ParseElementsNext(qs[0], xs[0], more);
    JoinedShape(qs, rest);
    assert [xs[0]] + xs[1..] == xs;
  }

  lemma ParseElementsJoinedOne(qs: seq<string>, xs: seq<string>, rest: string)
    requires |qs| == |xs| == 1
    requires ParseString(qs[0] + ("]" + rest)) == Success((xs[0], "]" + rest))
    ensures ParseElements(Join(", ", qs) + "]" + rest) == Success((xs, rest))
  {
    ParseElementsLast(qs[0], xs[0], rest);
    assert Join(", ", qs) + "]" + rest == qs[0] + ("]" + rest);
    assert xs == [xs[0]];
  }

  /** Parsing string literals joined by `", "` and closed by a bracket, when
      each literal decodes to the matching element whatever follows it. */
  lemma {:induction false} ParseElementsJoined(qs: seq<string>, xs: seq<string>, rest: string)
    requires |qs| == |xs| > 0
    requires forall i :: 0 <= i < |qs| ==> |qs[i]| > 0 && qs[i][0] == '"'
    requires forall i, t :: 0 <= i < |qs| ==> ParseString(qs[i] + t) == Success((xs[i], t))
    ensures ParseElements(Join(", ", qs) + "]" + rest) == Success((xs, rest))
    decreases |qs|
  {
    if |qs| == 1 {
      assert ParseString(qs[0] + ("]" + rest)) == Success((xs[0], "]" + rest));
      ParseElementsJoinedOne(qs, xs, rest);
    } else {
      var more := Join(", ", qs[1..]) + "]" + rest;
      ParseElementsJoined(qs[1..], xs[1..], rest);
      assert ParseString(qs[0] + (", " + more)) == Success((xs[0], ", " + more));
      ParseElementsJoinedCons(qs, xs, rest);
    }
  }

  /** `json.loads(json.dumps(xs)) == xs` for every list of strings. */
  lemma LoadsDumps(xs: seq<string>)
    ensures Loads(Dumps(xs)) == Success(xs)
  {
    var s := Dumps(xs);
    var qs := QuoteAll(xs);
    assert SkipWs(s) == s;
    var body := s[1..];
    assert body == Join(", ", qs) + "]" + "";
    if |xs| == 0 {
      assert body == "]";
    } else {
      forall i, t | 0 <= i < |qs|
        ensures ParseString(qs[i] + t) == Success((xs[i], t))
      {
        ParseStringQuoted(xs[i], t);
      }
      JoinStart(qs, "]");
      ParseElementsJoined(qs, xs, "");
    }
  }
}
