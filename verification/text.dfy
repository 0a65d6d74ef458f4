/** String helpers with the semantics of the ECMAScript String methods the source uses. */
module Text {

  /** ECMAScript WhiteSpace and LineTerminator code points (what `trim` removes). */
  predicate IsWhitespace(c: char) {
    || c == ' ' || c == '\t' || c == '\n' || c == '\r'
    || c == '\U{000B}' || c == '\U{000C}' || c == '\U{00A0}' || c == '\U{1680}'
    || ('\U{2000}' <= c <= '\U{200A}')
    || c == '\U{2028}' || c == '\U{2029}' || c == '\U{202F}' || c == '\U{205F}'
    || c == '\U{3000}' || c == '\U{FEFF}'
  }

  predicate AllWhitespace(s: string) {
    forall i | 0 <= i < |s| :: IsWhitespace(s[i])
  }

  /** `s.trimStart()`: drops the leading whitespace and nothing else. */
  function TrimStart(s: string): (r: string)
    ensures |r| <= |s| && r == s[|s| - |r|..]
    ensures AllWhitespace(s[..|s| - |r|])
    ensures r == [] || !IsWhitespace(r[0])
  {
    if |s| > 0 && IsWhitespace(s[0]) then
      var t := s[1..];
      var r := TrimStart(t);
      assert r == s[|s| - |r|..] by { assert r == t[|t| - |r|..]; }
      assert AllWhitespace(s[..|s| - |r|]) by { WhitespaceHead(s, |s| - |r|); }
      r
    else s
  }

  /** A whitespace character followed by whitespace is all whitespace. */
  lemma WhitespaceHead(s: string, n: nat)
    requires 0 < n <= |s| && IsWhitespace(s[0]) && AllWhitespace(s[1..][..n - 1])
    ensures AllWhitespace(s[..n])
  {
    forall i | 0 < i < n ensures IsWhitespace(s[..n][i]) {
      assert s[..n][i] == s[1..][..n - 1][i - 1];
    }
  }

  /** `s.trimEnd()`: drops the trailing whitespace and nothing else. */
  function TrimEnd(s: string): (r: string)
    ensures |r| <= |s| && r == s[..|r|]
    ensures AllWhitespace(s[|r|..])
    ensures r == [] || !IsWhitespace(r[|r| - 1])
  {
    if |s| > 0 && IsWhitespace(s[|s| - 1]) then TrimEnd(s[..|s| - 1]) else s
  }

  /** `s.trim()`. */
  function Trim(s: string): (r: string)
    ensures r == [] || (!IsWhitespace(r[0]) && !IsWhitespace(r[|r| - 1]))
    ensures r == [] <==> AllWhitespace(s)
  {
    var t := TrimStart(s);
    assert s == s[..|s| - |t|] + t;
    TrimEnd(t)
  }

  /** Trimming a string that neither starts nor ends with whitespace changes nothing. */
  lemma TrimUnchanged(s: string)
    requires s != [] && !IsWhitespace(s[0]) && !IsWhitespace(s[|s| - 1])
    ensures Trim(s) == s
  {
  }

  /** ASCII upper-case letters become lower case; every other character is kept. */
  function LowerChar(c: char): char {
    if 'A' <= c <= 'Z' then (c as int + 32) as char else c
  }

  function UpperChar(c: char): char {
    if 'a' <= c <= 'z' then (c as int - 32) as char else c
  }

  /** `s.toLowerCase()` on the ASCII letters. */
  function ToLower(s: string): (r: string)
    ensures |r| == |s|
  {
    seq(|s|, i requires 0 <= i < |s| => LowerChar(s[i]))
  }

  /** `s.toUpperCase()` on the ASCII letters. */
  function ToUpper(s: string): (r: string)
    ensures |r| == |s|
  {
    seq(|s|, i requires 0 <= i < |s| => UpperChar(s[i]))
  }

  /** Applies `f` to every character. */
  function MapChars(s: string, f: char -> char): (r: string)
    ensures |r| == |s|
    ensures forall i | 0 <= i < |s| :: r[i] == f(s[i])
  {
    seq(|s|, i requires 0 <= i < |s| => f(s[i]))
  }

  /** Lower-casing after upper-casing, or twice, is lower-casing once. */
  lemma LowerOfCase(s: string)
    ensures ToLower(ToUpper(s)) == ToLower(s)
    ensures ToLower(ToLower(s)) == ToLower(s)
  {
  }

  lemma CaseAsMap(s: string)
    ensures ToUpper(s) == MapChars(s, UpperChar)
    ensures ToLower(s) == MapChars(s, LowerChar)
  {
  }

  /** Changing case never turns a character into whitespace or back. */
  lemma CaseKeepsWhitespace(c: char)
    ensures IsWhitespace(UpperChar(c)) <==> IsWhitespace(c)
    ensures IsWhitespace(LowerChar(c)) <==> IsWhitespace(c)
  {
  }

  /** Dropping leading whitespace commutes with a character map that keeps whitespace apart. */
  lemma {:induction false} TrimStartMap(s: string, f: char -> char)
    requires forall x :: IsWhitespace(f(x)) <==> IsWhitespace(x)
    ensures TrimStart(MapChars(s, f)) == MapChars(TrimStart(s), f)
    decreases |s|
  {
    if |s| > 0 && IsWhitespace(s[0]) {
      assert MapChars(s, f)[1..] == MapChars(s[1..], f);
      TrimStartMap(s[1..], f);
    }
  }

  lemma {:induction false} TrimEndMap(s: string, f: char -> char)
    requires forall x :: IsWhitespace(f(x)) <==> IsWhitespace(x)
    ensures TrimEnd(MapChars(s, f)) == MapChars(TrimEnd(s), f)
    decreases |s|
  {
    if |s| > 0 && IsWhitespace(s[|s| - 1]) {
      assert MapChars(s, f)[..|s| - 1] == MapChars(s[..|s| - 1], f);
      TrimEndMap(s[..|s| - 1], f);
    }
  }

  lemma TrimMap(s: string, f: char -> char)
    requires forall x :: IsWhitespace(f(x)) <==> IsWhitespace(x)
    ensures Trim(MapChars(s, f)) == MapChars(Trim(s), f)
  {
    TrimStartMap(s, f);
    TrimEndMap(TrimStart(s), f);
  }

  /** Whitespace on both sides of a piece that neither starts nor ends with whitespace is trimmed away. */
  lemma {:induction false} TrimStartPadded(pad: string, m: string)
    requires AllWhitespace(pad)
    requires m == [] || !IsWhitespace(m[0])
    ensures TrimStart(pad + m) == m
    decreases |pad|
  {
    if |pad| > 0 {
      assert (pad + m)[1..] == pad[1..] + m;
      TrimStartPadded(pad[1..], m);
    } else {
      assert pad + m == m;
    }
  }

  lemma {:induction false} TrimEndPadded(m: string, pad: string)
    requires AllWhitespace(pad)
    requires m == [] || !IsWhitespace(m[|m| - 1])
    ensures TrimEnd(m + pad) == m
    decreases |pad|
  {
    if |pad| > 0 {
      assert (m + pad)[..|m + pad| - 1] == m + pad[..|pad| - 1];
      TrimEndPadded(m, pad[..|pad| - 1]);
    } else {
      assert m + pad == m;
    }
  }

  lemma TrimPadded(pad1: string, m: string, pad2: string)
    requires AllWhitespace(pad1) && AllWhitespace(pad2)
    requires m != [] && !IsWhitespace(m[0]) && !IsWhitespace(m[|m| - 1])
    ensures Trim(pad1 + m + pad2) == m
  {
    assert pad1 + m + pad2 == pad1 + (m + pad2);
    TrimStartPadded(pad1, m + pad2);
    TrimEndPadded(m, pad2);
  }

  /** `parts.join(sep)`. */
  function Join(parts: seq<string>, sep: string): string
  {
    if |parts| == 0 then ""
    else if |parts| == 1 then parts[0]
    else parts[0] + sep + Join(parts[1..], sep)
  }

  /** `s.split(c)` for a one-character separator: always at least one piece, none containing `c`. */
  function Split(s: string, c: char): (parts: seq<string>)
    ensures |parts| >= 1
    ensures forall p <- parts :: c !in p
  {
    if |s| == 0 then [""]
    else
      var rest := Split(s[1..], c);
      if s[0] == c then [""] + rest
      else [[s[0]] + rest[0]] + rest[1..]
  }

  /** Applies `f` to every character of every piece. */
  function MapPieces(parts: seq<string>, f: char -> char): (r: seq<string>)
    ensures |r| == |parts|
    ensures forall i | 0 <= i < |parts| :: r[i] == MapChars(parts[i], f)
  {
    seq(|parts|, i requires 0 <= i < |parts| => MapChars(parts[i], f))
  }

  lemma MapPiecesCons(p: string, rest: seq<string>, f: char -> char)
    ensures MapPieces([p] + rest, f) == [MapChars(p, f)] + MapPieces(rest, f)
  {
  }

  /** Splitting commutes with a character map that sends only the separator to the separator. */
  lemma {:induction false} SplitMap(s: string, c: char, f: char -> char)
    requires forall x :: f(x) == c <==> x == c
    ensures Split(MapChars(s, f), c) == MapPieces(Split(s, c), f)
    decreases |s|
  {
    if |s| > 0 {
      var t := MapChars(s, f);
      assert t[1..] == MapChars(s[1..], f);
      var rest := Split(s[1..], c);
      SplitMap(s[1..], c, f);
      var mrest := MapPieces(rest, f);
      if s[0] == c {
        MapPiecesCons("", rest, f);
      } else {
        assert MapChars([s[0]] + rest[0], f) == [f(s[0])] + MapChars(rest[0], f);
        assert rest == [rest[0]] + rest[1..];
        MapPiecesCons(rest[0], rest[1..], f);
        MapPiecesCons([s[0]] + rest[0], rest[1..], f);
      }
    }
  }

  /** `needle` occurs in `haystack` starting at index `i`. */
  predicate OccursAt(haystack: string, needle: string, i: int) {
    0 <= i && i + |needle| <= |haystack| && haystack[i..i + |needle|] == needle
  }

  /** `haystack.includes(needle)`. */
  predicate Contains(haystack: string, needle: string) {
    exists i | 0 <= i <= |haystack| - |needle| :: OccursAt(haystack, needle, i)
  }

  /** Joining the pieces of a split with the separator gives back the original string. */
  lemma {:induction false} SplitJoin(s: string, c: char)
    ensures Join(Split(s, c), [c]) == s
  {
    if |s| > 0 {
      var rest := Split(s[1..], c);
      SplitJoin(s[1..], c);
      if s[0] == c {
        assert Split(s, c) == [""] + rest;
      } else {
        var parts := [[s[0]] + rest[0]] + rest[1..];
        if |rest| == 1 {
          assert Join(parts, [c]) == [s[0]] + rest[0];
        } else {
          assert Join(rest, [c]) == rest[0] + [c] + Join(rest[1..], [c]);
          assert Join(parts, [c]) == [s[0]] + rest[0] + [c] + Join(rest[1..], [c]);
        }
        assert s == [s[0]] + s[1..];
      }
    }
  }

  /** A string without the separator splits into itself. */
  lemma {:induction false} SplitNoSeparator(s: string, c: char)
    requires c !in s
    ensures Split(s, c) == [s]
  {
    if |s| > 0 {
      assert c !in s[1..];
      SplitNoSeparator(s[1..], c);
      assert s[0] != c;
      assert s == [s[0]] + s[1..];
    }
  }

  /** Splitting `a + [c] + b`, where `a` has no separator, yields `a` followed by the pieces of `b`. */
  lemma {:induction false} SplitAtFirst(a: string, c: char, b: string)
    requires c !in a
    ensures Split(a + [c] + b, c) == [a] + Split(b, c)
  {
    if |a| == 0 {
      assert a + [c] + b == [c] + b;
      assert ([c] + b)[1..] == b;
    } else {
      assert (a + [c] + b)[1..] == a[1..] + [c] + b;
      assert c !in a[1..];
      SplitAtFirst(a[1..], c, b);
      assert a == [a[0]] + a[1..];
    }
  }

  /** Joining a non-empty list with one more piece. */
  lemma {:induction false} JoinAppend(parts: seq<string>, last: string, sep: string)
    requires |parts| >= 1
    ensures Join(parts + [last], sep) == Join(parts, sep) + sep + last
  {
    if |parts| == 1 {
      assert parts + [last] == [parts[0], last];
    } else {
      assert (parts + [last])[1..] == parts[1..] + [last];
      JoinAppend(parts[1..], last, sep);
    }
  }

  /** Joining two non-empty lists is joining each and gluing with one separator. */
  lemma {:induction false} JoinConcat(a: seq<string>, b: seq<string>, sep: string)
    requires |a| >= 1 && |b| >= 1
    ensures Join(a + b, sep) == Join(a, sep) + sep + Join(b, sep)
  {
    if |a| == 1 {
      assert (a + b)[1..] == b;
    } else {
      assert (a + b)[1..] == a[1..] + b;
      JoinConcat(a[1..], b, sep);
    }
  }

  /** Two separator-free pieces with no whitespace at the outer ends split back apart after trimming. */
  lemma SplitTrimmedPair(a: string, b: string, c: char)
    requires a != [] && b != [] && c !in a && c !in b
    requires !IsWhitespace(a[0]) && !IsWhitespace(b[|b| - 1])
    ensures Split(Trim(a + [c] + b), c) == [a, b]
  {
    var s := a + [c] + b;
    assert s[0] == a[0] && s[|s| - 1] == b[|b| - 1];
    TrimUnchanged(s);
    SplitAtFirst(a, c, b);
    SplitNoSeparator(b, c);
  }
}
