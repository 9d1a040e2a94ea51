/** The handful of Python `str` operations the modelled code relies on,
    written out over `seq<char>`. */
module Strings {

  /** The characters for which Python's `str.isspace()` holds; `strip()`,
      `rstrip()` and `lstrip()` without arguments remove exactly these. */
  predicate IsSpace(c: char) {
    c == ' ' || ('\t' <= c <= '\r') || ('\U{1c}' <= c <= '\U{1f}') || c == '\U{85}' || c == '\U{a0}'
    || c == '\U{1680}' || ('\U{2000}' <= c <= '\U{200a}') || c == '\U{2028}' || c == '\U{2029}'
    || c == '\U{202f}' || c == '\U{205f}' || c == '\U{3000}'
  }

  /** `s.rstrip(chars)`: drop trailing characters that belong to `cs`. */
  function RStripSet(s: string, cs: set<char>): (r: string)
    ensures |r| <= |s| && r == s[..|r|]
    ensures |r| > 0 ==> r[|r| - 1] !in cs
    ensures forall i :: |r| <= i < |s| ==> s[i] in cs
  {
    if |s| > 0 && s[|s| - 1] in cs then RStripSet(s[..|s| - 1], cs) else s
  }

  /** `s.lstrip(chars)`: drop leading characters that belong to `cs`. */
  function LStripSet(s: string, cs: set<char>): (r: string)
    ensures |r| <= |s| && r == s[|s| - |r|..]
    ensures |r| > 0 ==> r[0] !in cs
    ensures forall i :: 0 <= i < |s| - |r| ==> s[i] in cs
  {
    if |s| > 0 && s[0] in cs then LStripSet(s[1..], cs) else s
  }

  /** `s.rstrip()`: drop trailing whitespace. */
  function RStrip(s: string): (r: string)
    ensures |r| <= |s| && r == s[..|r|]
    ensures |r| > 0 ==> !IsSpace(r[|r| - 1])
    ensures forall i :: |r| <= i < |s| ==> IsSpace(s[i])
  {
    if |s| > 0 && IsSpace(s[|s| - 1]) then RStrip(s[..|s| - 1]) else s
  }

  /** `s.lstrip()`: drop leading whitespace. */
  function LStrip(s: string): (r: string)
    ensures |r| <= |s| && r == s[|s| - |r|..]
    ensures |r| > 0 ==> !IsSpace(r[0])
  {
    if |s| > 0 && IsSpace(s[0]) then LStrip(s[1..]) else s
  }

  /** `s.strip()`: drop whitespace at both ends. */
  function Strip(s: string): (r: string)
    ensures |r| <= |s|
    ensures |r| > 0 ==> !IsSpace(r[0]) && !IsSpace(r[|r| - 1])
  {
    LStrip(RStrip(s))
  }

  /** `Strip` removes a whitespace margin on either side and nothing else. */
  lemma StripSlice(s: string) returns (a: nat, b: nat)
    ensures a <= b <= |s| && Strip(s) == s[a..b]
    ensures forall i :: 0 <= i < a ==> IsSpace(s[i])
    ensures forall i :: b <= i < |s| ==> IsSpace(s[i])
  {
    var r := RStrip(s);
    b := |r|;
    a := |r| - |LStrip(r)|;
    assert r == s[..b];
    assert Strip(s) == r[a..] == s[a..b];
    LStripPrefixSpaces(r);
    forall i | 0 <= i < a
      ensures IsSpace(s[i])
    {
      assert s[i] == r[i];
    }
  }

  lemma LStripPrefixSpaces(s: string)
    ensures forall j :: 0 <= j < |s| - |LStrip(s)| ==> IsSpace(s[j])
  {
    if |s| > 0 && IsSpace(s[0]) {
      LStripPrefixSpaces(s[1..]);
    }
  }

  /** A string with no whitespace at either end is its own `strip()`. */
  lemma StripNoMargin(s: string)
    requires |s| > 0 && !IsSpace(s[0]) && !IsSpace(s[|s| - 1])
    ensures Strip(s) == s
  {
    assert RStrip(s) == s;
  }

  /** `s.replace(c, "")`: every occurrence of `c` removed. */
  function Without(s: string, c: char): (r: string)
    ensures |r| <= |s|
    ensures c !in r
    ensures forall x :: x in r <==> x in s && x != c
  {
    if s == [] then [] else (if s[0] == c then [] else [s[0]]) + Without(s[1..], c)
  }

  /** `sep.join(parts)`. */
  function Join(sep: string, parts: seq<string>): string {
    if |parts| == 0 then ""
    else if |parts| == 1 then parts[0]
    else parts[0] + sep + Join(sep, parts[1..])
  }

  /** `s.split(sep)` for a non-empty separator: cut at every leftmost,
      non-overlapping occurrence of `sep`. */
  function Split(s: string, sep: string): (r: seq<string>)
    requires |sep| > 0
    ensures |r| >= 1
    decreases |s|
  {
    if |s| < |sep| then [s]
    else if s[..|sep|] == sep then [""] + Split(s[|sep|..], sep)
    else var t := Split(s[1..], sep); [[s[0]] + t[0]] + t[1..]
  }

  /** Joining the parts of `s.split(sep)` with `sep` gives `s` back. */
  lemma {:induction false} SplitRejoin(s: string, sep: string)
    requires |sep| > 0
    ensures Join(sep, Split(s, sep)) == s
    decreases |s|
  {
    if |s| < |sep| {
    } else if s[..|sep|] == sep {
      var rest := s[|sep|..];
      var t := Split(rest, sep);
      SplitRejoin(rest, sep);
      JoinEmptyHead(sep, t);
      assert s == sep + rest;
    } else {
      var t := Split(s[1..], sep);
      SplitRejoin(s[1..], sep);
      JoinCons(sep, s[0], t);
      assert s == [s[0]] + s[1..];
    }
  }

  /** `s.split(sep, n)`: as `Split`, but cut at most `n` times. */
  function SplitMax(s: string, sep: string, n: nat): (r: seq<string>)
    requires |sep| > 0
    ensures 1 <= |r| <= n + 1
    decreases |s|
  {
    if n == 0 || |s| < |sep| then [s]
    else if s[..|sep|] == sep then [""] + SplitMax(s[|sep|..], sep, n - 1)
    else var t := SplitMax(s[1..], sep, n); [[s[0]] + t[0]] + t[1..]
  }

  /** Joining the parts of `s.split(sep, n)` with `sep` gives `s` back. */
  lemma {:induction false} SplitMaxRejoin(s: string, sep: string, n: nat)
    requires |sep| > 0
    ensures Join(sep, SplitMax(s, sep, n)) == s
    decreases |s|
  {
    if n == 0 || |s| < |sep| {
    } else if s[..|sep|] == sep {
      var rest := s[|sep|..];
      var t := SplitMax(rest, sep, n - 1);
      SplitMaxRejoin(rest, sep, n - 1);
      JoinEmptyHead(sep, t);
      assert s == sep + rest;
    } else {
      var t := SplitMax(s[1..], sep, n);
      SplitMaxRejoin(s[1..], sep, n);
      JoinCons(sep, s[0], t);
      assert s == [s[0]] + s[1..];
    }
  }

  /** An empty first part puts a separator in front of the joined text. */
  lemma JoinEmptyHead(sep: string, t: seq<string>)
    requires |t| >= 1
    ensures Join(sep, [""] + t) == sep + Join(sep, t)
  {
    assert ([""] + t)[1..] == t;
  }

  /** Putting a character in front of the first part puts it in front of
      the joined text. */
  lemma JoinCons(sep: string, c: char, t: seq<string>)
    requires |t| >= 1
    ensures Join(sep, [[c] + t[0]] + t[1..]) == [c] + Join(sep, t)
  {
    var u := [[c] + t[0]] + t[1..];
    assert u[1..] == t[1..];
  }

  /** `os.path.join(a, b)` on POSIX paths: an absolute `b` replaces `a`;
      otherwise a `/` goes between them unless `a` is empty or already ends
      in one. */
  function PathJoin(a: string, b: string): string {
    if |b| > 0 && b[0] == '/' then b
    else if a == [] || a[|a| - 1] == '/' then a + b
    else a + "/" + b
  }

  predicate StartsWith(s: string, prefix: string) {
    |prefix| <= |s| && s[..|prefix|] == prefix
  }

  /** Upper-casing of the ASCII letters, the part of `str.upper()` that the
      names compared against use. */
  function AsciiUpper(s: string): (r: string)
    ensures |r| == |s|
  {
    if s == [] then []
    else [if 'a' <= s[0] <= 'z' then (s[0] as int - 32) as char else s[0]] + AsciiUpper(s[1..])
  }

  /** Splitting a joined list on a one-character separator that none of the
      parts contains gives the parts back (`"\t".join` then `split("\t")`). */
  lemma {:induction false} SplitJoin(parts: seq<string>, c: char)
    requires |parts| > 0
    requires forall i :: 0 <= i < |parts| ==> c !in parts[i]
    ensures Split(Join([c], parts), [c]) == parts
    decreases |parts|
  {
    if |parts| == 1 {
      SplitNoSep(parts[0], c);
    } else {
      var rest := Join([c], parts[1..]);
      SplitJoin(parts[1..], c);
      var t := [c] + rest;
      assert t[..1] == [c];
      assert t[1..] == rest;
      assert Split(t, [c]) == [""] + Split(rest, [c]);
      SplitAfterPlain(parts[0], t, c);
      assert Join([c], parts) == parts[0] + t;
      assert parts[0] + "" == parts[0];
      assert [parts[0]] + parts[1..] == parts;
    }
  }

  lemma {:induction false} SplitNoSep(s: string, c: char)
    requires c !in s
    ensures Split(s, [c]) == [s]
    decreases |s|
  {
    if |s| >= 1 {
      assert s[..1] != [c] by { assert s[0] in s; }
      SplitNoSep(s[1..], c);
      assert [s[0]] + s[1..] == s;
    }
  }

  /** Splitting on a one-character separator cuts exactly when the
      separator occurs. */
  lemma {:induction false} SplitCuts(s: string, c: char)
    ensures |Split(s, [c])| == 1 <==> c !in s
    decreases |s|
  {
    if c !in s {
      SplitNoSep(s, c);
    } else if s[..1] != [c] {
      var i :| 0 <= i < |s| && s[i] == c;
      assert i != 0 && s[1..][i - 1] == c;
      SplitCuts(s[1..], c);
    }
  }

  /** A separator-free prefix sticks to the first piece. */
  lemma {:induction false} SplitAfterPlain(p: string, t: string, c: char)
    requires c !in p
    requires |t| > 0 && t[0] == c
    ensures Split(p + t, [c]) == [p + Split(t, [c])[0]] + Split(t, [c])[1..]
    decreases |p|
  {
    if |p| == 0 {
      assert p + t == t;
    } else {
      assert (p + t)[..1] == [p[0]];
      assert p[0] != c by { assert p[0] in p; }
      assert (p + t)[1..] == p[1..] + t;
      SplitAfterPlain(p[1..], t, c);
      assert [p[0]] + (p[1..] + Split(t, [c])[0]) == p + Split(t, [c])[0];
    }
  }

  /** A character in neither the separator nor any part is not in the
      joined string. */
  lemma {:induction false} JoinFree(sep: string, parts: seq<string>, c: char)
    requires c !in sep
    requires forall i :: 0 <= i < |parts| ==> c !in parts[i]
    ensures c !in Join(sep, parts)
    decreases |parts|
  {
    if |parts| > 1 {
      JoinFree(sep, parts[1..], c);
      assert c !in parts[0];
    }
  }

  /** A joined string ends with its last part. */
  lemma {:induction false} JoinLast(sep: string, parts: seq<string>)
    requires |parts| > 0
    ensures var j := Join(sep, parts);
      |parts[|parts| - 1]| <= |j| && j[|j| - |parts[|parts| - 1]|..] == parts[|parts| - 1]
    decreases |parts|
  {
    if |parts| > 1 {
      JoinLast(sep, parts[1..]);
      var rest := Join(sep, parts[1..]);
      var j := parts[0] + sep + rest;
      assert j[|j| - |rest|..] == rest;
    }
  }

  /** A joined string starts with its first part. */
  lemma JoinFirst(sep: string, parts: seq<string>)
    requires |parts| > 0
    ensures |parts[0]| <= |Join(sep, parts)| && Join(sep, parts)[..|parts[0]|] == parts[0]
  {
  }

  /** `rstrip()` removes a newline after a string that does not end in
      whitespace, and nothing else. */
  lemma RStripNewline(s: string, suffix: string)
    requires |s| > 0 && !IsSpace(s[|s| - 1])
    requires suffix == "" || suffix == "\n"
    ensures RStrip(s + suffix) == s
  {
    if suffix == "\n" {
      assert (s + suffix)[..|s|] == s;
    } else {
      assert s + suffix == s;
    }
  }

  /** `"".join(parts)`: the parts written one after the other. */
  function Concat(parts: seq<string>): string
    decreases |parts|
  {
    if parts == [] then "" else Concat(parts[..|parts| - 1]) + parts[|parts| - 1]
  }

  /** Lines each ending in a newline, written one after the other, are the
      lines joined by newlines with a newline after the last. */
  lemma {:induction false} ConcatLines(bodies: seq<string>, lines: seq<string>)
    requires |lines| == |bodies| && forall i :: 0 <= i < |bodies| ==> lines[i] == bodies[i] + "\n"
    ensures Concat(lines) == Join("\n", bodies + [""])
    decreases |bodies|
  {
    if bodies != [] {
      var n := |bodies| - 1;
      ConcatLines(bodies[..n], lines[..n]);
      assert lines[..n] + [lines[n]] == lines;
      JoinSnoc("\n", bodies[..n], bodies[n]);
      JoinSnoc("\n", bodies[..n] + [bodies[n]], "");
      if n > 0 {
        JoinSnoc("\n", bodies[..n], "");
      }
      assert bodies[..n] + [bodies[n]] == bodies;
    }
  }

  /** Joining one more part. */
  lemma {:induction false} JoinSnoc(sep: string, parts: seq<string>, x: string)
    ensures Join(sep, parts + [x]) == if parts == [] then x else Join(sep, parts) + sep + x
    decreases |parts|
  {
    if |parts| > 1 {
      JoinSnoc(sep, parts[1..], x);
      assert (parts + [x])[1..] == parts[1..] + [x];
    } else if |parts| == 1 {
      assert (parts + [x])[1..] == [x];
    }
  }

  /** `rstrip()` removes a whitespace suffix after a string that does not
      end in whitespace, and nothing else. */
  lemma {:induction false} RStripSpaces(s: string, suffix: string)
    requires |s| > 0 && !IsSpace(s[|s| - 1])
    requires forall i :: 0 <= i < |suffix| ==> IsSpace(suffix[i])
    ensures RStrip(s + suffix) == s
    decreases |suffix|
  {
    if suffix == [] {
      assert s + suffix == s;
    } else {
      var n := |suffix| - 1;
      assert (s + suffix)[..|s + suffix| - 1] == s + suffix[..n];
      RStripSpaces(s, suffix[..n]);
    }
  }

  lemma {:induction false} WithoutAppend(a: string, b: string, c: char)
    ensures Without(a + b, c) == Without(a, c) + Without(b, c)
    decreases |a|
  {
    if a != [] {
      assert (a + b)[1..] == a[1..] + b;
      WithoutAppend(a[1..], b, c);
    } else {
      assert a + b == b;
    }
  }

  lemma {:induction false} WithoutAbsent(s: string, c: char)
    requires c !in s
    ensures Without(s, c) == s
    decreases |s|
  {
    if s != [] {
      WithoutAbsent(s[1..], c);
      assert [s[0]] + s[1..] == s;
    }
  }

  /** Removing a character from joined parts removes it from the separator
      and from each part. */
  lemma {:induction false} WithoutJoin(sep: string, parts: seq<string>, c: char, parts': seq<string>)
    requires |parts'| == |parts| && forall i :: 0 <= i < |parts| ==> parts'[i] == Without(parts[i], c)
    ensures Without(Join(sep, parts), c) == Join(Without(sep, c), parts')
    decreases |parts|
  {
    if |parts| > 1 {
      WithoutJoin(sep, parts[1..], c, parts'[1..]);
      WithoutAppend(parts[0], sep, c);
      WithoutAppend(parts[0] + sep, Join(sep, parts[1..]), c);
    }
  }
}
