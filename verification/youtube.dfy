/**
 * components/BackgroundMusicPlayer.tsx: reading the video id and the start
 * offset out of the YouTube link an invitation uses as background music.
 */
module Youtube {
  import opened Wrappers
  import opened Text
  import Radix

  /** `[a-zA-Z0-9_-]`, the characters of a video id. */
  predicate IsIdChar(c: char) {
    ('a' <= c <= 'z') || ('A' <= c <= 'Z') || ('0' <= c <= '9') || c == '_' || c == '-'
  }

  /** A video id is exactly eleven id characters. */
  predicate IsVideoId(s: string) {
    |s| == 11 && forall k | 0 <= k < |s| :: IsIdChar(s[k])
  }

  /** The three link shapes, in the order they are tried. */
  datatype LinkShape = ShortLink | WatchLink | EmbedLink

  function Prefix(shape: LinkShape): string {
    match shape
    case ShortLink => "youtu.be/"
    case WatchLink => "youtube.com/watch?v="
    case EmbedLink => "youtube.com/embed/"
  }

  /** The pattern `prefix([a-zA-Z0-9_-]{11})` matches `u` starting at index `i`. */
  predicate MatchAt(u: string, prefix: string, i: nat) {
    && OccursAt(u, prefix, i)
    && i + |prefix| + 11 <= |u|
    && IsVideoId(u[i + |prefix|..i + |prefix| + 11])
  }

  /** `i` is where the leftmost match of the pattern begins. */
  predicate LeftmostMatch(u: string, prefix: string, i: nat) {
    MatchAt(u, prefix, i) && forall j: nat | j < i :: !MatchAt(u, prefix, j)
  }

  /** The leftmost match at or after `from`, as a regular-expression search finds it. */
  function FirstMatchFrom(u: string, prefix: string, from: nat): (r: Option<nat>)
    ensures r.Some? ==> from <= r.value && MatchAt(u, prefix, r.value)
    ensures forall j: nat | from <= j && (r.None? || j < r.value) :: !MatchAt(u, prefix, j)
    decreases |u| - from
  {
    if from + |prefix| + 11 > |u| then None
    else if MatchAt(u, prefix, from) then Some(from)
    else FirstMatchFrom(u, prefix, from + 1)
  }

  /** The captured id of the leftmost match of one link shape, if any. */
  function Capture(u: string, shape: LinkShape): (r: Option<string>)
    ensures r.Some? <==> exists i: nat :: MatchAt(u, Prefix(shape), i)
    ensures r.Some? ==> IsVideoId(r.value)
    ensures r.Some? ==> exists i: nat :: LeftmostMatch(u, Prefix(shape), i) && r.value == u[i + |Prefix(shape)|..i + |Prefix(shape)| + 11]
  {
    var p := Prefix(shape);
    match FirstMatchFrom(u, p, 0)
    case None => None
    case Some(i) =>
      assert LeftmostMatch(u, p, i);
      Some(u[i + |p|..i + |p| + 11])
  }

  /**
   * `getYoutubeVideoId`: a missing or blank link has no id; otherwise the
   * trimmed link is searched for a short link, then a watch link, then an
   * embed link, and the first shape that matches anywhere gives the id.
   */
  function VideoId(url: Option<string>): (r: Option<string>)
    ensures url.None? || AllWhitespace(url.value) ==> r.None?
    ensures r.Some? ==> IsVideoId(r.value)
    ensures r.Some? <==> url.Some? && exists s: LinkShape, i: nat :: MatchAt(Trim(url.value), Prefix(s), i)
    ensures url.Some? && Trim(url.value) != [] ==>
      var u := Trim(url.value);
      && (Capture(u, ShortLink).Some? ==> r == Capture(u, ShortLink))
      && (Capture(u, ShortLink).None? && Capture(u, WatchLink).Some? ==> r == Capture(u, WatchLink))
      && (Capture(u, ShortLink).None? && Capture(u, WatchLink).None? ==> r == Capture(u, EmbedLink))
  {
    if url.None? || Trim(url.value) == [] then None
    else
      var u := Trim(url.value);
      SomeShapeCaptures(u);
      if Capture(u, ShortLink).Some? then Capture(u, ShortLink)
      else if Capture(u, WatchLink).Some? then Capture(u, WatchLink)
      else Capture(u, EmbedLink)
  }

  /** Some shape captures an id exactly when some shape matches somewhere. */
  lemma SomeShapeCaptures(u: string)
    ensures (Capture(u, ShortLink).Some? || Capture(u, WatchLink).Some? || Capture(u, EmbedLink).Some?)
            <==> exists s: LinkShape, i: nat :: MatchAt(u, Prefix(s), i)
  {
    if exists s: LinkShape, i: nat :: MatchAt(u, Prefix(s), i) {
      var s: LinkShape, i: nat :| MatchAt(u, Prefix(s), i);
      assert Capture(u, s).Some?;
    }
  }

  /** Two leftmost matches of the same pattern are the same match. */
  lemma LeftmostUnique(u: string, prefix: string, i: nat, j: nat)
    requires LeftmostMatch(u, prefix, i) && LeftmostMatch(u, prefix, j)
    ensures i == j
  {
  }

  /** The capture of a shape is the id right after its leftmost match. */
  lemma CaptureAtLeftmost(u: string, shape: LinkShape, i: nat)
    requires LeftmostMatch(u, Prefix(shape), i)
    ensures Capture(u, shape) == Some(u[i + |Prefix(shape)|..i + |Prefix(shape)| + 11])
  {
    var p := Prefix(shape);
    var k: nat :| LeftmostMatch(u, p, k) && Capture(u, shape).value == u[k + |p|..k + |p| + 11];
    LeftmostUnique(u, p, i, k);
  }

  /**
   * Without a short link, the leftmost watch link gives the id, even when an
   * embed link comes earlier in the text.
   */
  lemma WatchBeatsEmbed(url: string, i: nat)
    requires Trim(url) != []
    requires forall j: nat :: !MatchAt(Trim(url), Prefix(ShortLink), j)
    requires LeftmostMatch(Trim(url), Prefix(WatchLink), i)
    ensures VideoId(Some(url)) == Some(Trim(url)[i + 20..i + 31])
  {
    CaptureAtLeftmost(Trim(url), WatchLink, i);
  }

  /** A short link anywhere wins over every other shape, with its leftmost id. */
  lemma ShortLinkWins(url: string, i: nat)
    requires Trim(url) != []
    requires LeftmostMatch(Trim(url), Prefix(ShortLink), i)
    ensures VideoId(Some(url)) == Some(Trim(url)[i + 9..i + 20])
  {
    CaptureAtLeftmost(Trim(url), ShortLink, i);
  }

  /** A short link to a well-formed id yields that id, whatever follows it. */
  lemma ShortLinkId(id: string, rest: string)
    requires IsVideoId(id)
    ensures VideoId(Some("https://youtu.be/" + id + rest)) == Some(id)
  {
    var head := "https://youtu.be/";
    assert !IsWhitespace(head[0]);
    ShortLinkTrimmed(head, id, rest);
    var u := Trim(head + id + rest);
    ShortCapture(u, id);
  }

  /** In a string that starts with a short link, the short-link capture is its id. */
  lemma ShortCapture(u: string, id: string)
    requires |u| >= 28 && u[..28] == "https://youtu.be/" + id && IsVideoId(id)
    ensures Capture(u, ShortLink) == Some(id)
  {
    var p := Prefix(ShortLink);
    assert u[..28][8..17] == p;
    assert u[8..17] == p;
    assert u[17..28] == id;
    assert MatchAt(u, p, 8);
    forall j: nat | j < 8 ensures !MatchAt(u, p, j) {
      NoShortLinkInScheme(u, j);
    }
    var r := FirstMatchFrom(u, p, 0);
    assert r.value == 8;
  }

  /** "https://" holds no 'y', so no short-link match starts inside it. */
  lemma NoShortLinkInScheme(u: string, j: nat)
    requires |u| >= 8 && u[..8] == "https://" && j < 8
    ensures !MatchAt(u, Prefix(ShortLink), j)
  {
    assert u[j] == u[..8][j];
    if j + 9 <= |u| {
      assert u[j..j + 9][0] == u[j];
    }
  }

  /** Trimming keeps the link head and the id, because both ends are not whitespace. */
  lemma ShortLinkTrimmed(head: string, id: string, rest: string)
    requires head != [] && !IsWhitespace(head[0]) && IsVideoId(id)
    ensures |Trim(head + id + rest)| >= |head| + 11
    ensures Trim(head + id + rest)[..|head| + 11] == head + id
  {
    var s := head + id + rest;
    assert s[0] == head[0];
    assert TrimStart(s) == s;
    assert !IsWhitespace(s[|head| + 10]);
    var te := TrimEnd(s);
    assert |te| >= |head| + 11;
    assert te[..|head| + 11] == s[..|head| + 11];
  }

  /** A decimal digit, `\d`. */
  predicate IsDecimal(c: char) {
    '0' <= c <= '9'
  }

  /** `[?&]t=\d` matches `u` at index `i`. */
  predicate TimeMarkerAt(u: string, i: nat) {
    i + 4 <= |u| && (u[i] == '?' || u[i] == '&') && u[i + 1] == 't' && u[i + 2] == '=' && IsDecimal(u[i + 3])
  }

  function FirstMarkerFrom(u: string, from: nat): (r: Option<nat>)
    ensures r.Some? ==> from <= r.value && TimeMarkerAt(u, r.value)
    ensures forall j: nat | from <= j && (r.None? || j < r.value) :: !TimeMarkerAt(u, j)
    decreases |u| - from
  {
    if from + 4 > |u| then None
    else if TimeMarkerAt(u, from) then Some(from)
    else FirstMarkerFrom(u, from + 1)
  }

  /** How many decimal digits follow index `k`: `\d+` is greedy. */
  function DigitRun(u: string, k: nat): (n: nat)
    requires k <= |u|
    ensures k + n <= |u|
    ensures forall j | k <= j < k + n :: IsDecimal(u[j])
    ensures k + n == |u| || !IsDecimal(u[k + n])
    decreases |u| - k
  {
    if k == |u| || !IsDecimal(u[k]) then 0 else 1 + DigitRun(u, k + 1)
  }

  /**
   * `getYoutubeStartTime`: the decimal value of the digits after the first
   * `?t=` or `&t=` that is followed by a digit; 0 when there is none.
   */
  function StartTime(url: string): (n: nat)
    ensures (forall i: nat :: !TimeMarkerAt(url, i)) ==> n == 0
  {
    match FirstMarkerFrom(url, 0)
    case None => 0
    case Some(i) => Radix.FromRadix(url[i + 3..i + 3 + DigitRun(url, i + 3)], 10)
  }

  /**
   * Appending `?t=` or `&t=` and a number in decimal to a link without a
   * start marker, and then anything that does not begin with a digit, gives
   * that number back.
   */
  lemma StartTimeRoundTrip(base: string, sep: char, n: nat, rest: string)
    requires sep == '?' || sep == '&'
    requires forall i: nat :: !TimeMarkerAt(base, i)
    requires rest == [] || !IsDecimal(rest[0])
    ensures StartTime(base + [sep] + "t=" + Radix.ToRadix(n, 10) + rest) == n
  {
    var digits := Radix.ToRadix(n, 10);
    var u := base + [sep] + "t=" + digits + rest;
    var m := |base|;
    MarkerAfterBase(base, sep, digits, rest);
    DigitsThenRest(base + [sep] + "t=", digits, rest);
    assert u[m + 3..m + 3 + |digits|] == digits;
    Radix.FromToRadix(n, 10);
  }

  /** The appended marker is the first one, as the base holds none. */
  lemma MarkerAfterBase(base: string, sep: char, digits: string, rest: string)
    requires sep == '?' || sep == '&'
    requires forall i: nat :: !TimeMarkerAt(base, i)
    requires digits != [] && IsDecimal(digits[0])
    ensures FirstMarkerFrom(base + [sep] + "t=" + digits + rest, 0) == Some(|base|)
  {
    var u := base + [sep] + "t=" + digits + rest;
    var m := |base|;
    assert u[m] == sep && u[m + 1] == 't' && u[m + 2] == '=';
    assert u[m + 3] == digits[0];
    assert TimeMarkerAt(u, m);
    forall i: nat | i < m ensures !TimeMarkerAt(u, i) {
      if i + 4 <= m {
        assert u[i..i + 4] == base[i..i + 4];
        assert !TimeMarkerAt(base, i);
      }
    }
  }

  /** The digit run after `head` is exactly `digits` when `rest` does not start with a digit. */
  lemma DigitsThenRest(head: string, digits: string, rest: string)
    requires forall k | 0 <= k < |digits| :: IsDecimal(digits[k])
    requires rest == [] || !IsDecimal(rest[0])
    ensures DigitRun(head + digits + rest, |head|) == |digits|
  {
    var u := head + digits + rest;
    assert u[|head|..|head| + |digits|] == digits;
  }

  /** A link with no `?` or `&` early enough to begin a time marker starts at 0. */
  lemma StartTimeWithoutMarker(url: string)
    requires forall i: nat | i + 4 <= |url| :: url[i] != '?' && url[i] != '&'
    ensures StartTime(url) == 0
  {
  }

  /** The music link a new wedding invitation starts with, written in its four parts. */
  const WeddingDefaultMusicUrl: string := "https://www." + "youtube.com/watch?v=" + "0J7R20ycaU4" + "&t=7"

  /** Where the characters that start a short link or a time marker sit in the default link. */
  lemma DefaultLinkLandmarks(i: nat)
    requires i < |WeddingDefaultMusicUrl|
    ensures WeddingDefaultMusicUrl[i] == 'y' ==> i == 12 || i == 38
    ensures WeddingDefaultMusicUrl[i] == '?' ==> i == 29
    ensures WeddingDefaultMusicUrl[i] == '&' ==> i == 43
  {
    assert i == 0 || i == 1 || i == 2 || i == 3 || i == 4 || i == 5 || i == 6 || i == 7 || i == 8 || i == 9 || i == 10 || i == 11 || i == 12 || i == 13 || i == 14 || i == 15 || i == 16 || i == 17 || i == 18 || i == 19 || i == 20 || i == 21 || i == 22 || i == 23 || i == 24 || i == 25 || i == 26 || i == 27 || i == 28 || i == 29 || i == 30 || i == 31 || i == 32 || i == 33 || i == 34 || i == 35 || i == 36 || i == 37 || i == 38 || i == 39 || i == 40 || i == 41 || i == 42 || i == 43 || i == 44 || i == 45 || i == 46;
  }

  /** "youtu.be/" occurs nowhere in the default link. */
  lemma DefaultLinkHasNoShortLink()
    ensures forall i: nat :: !MatchAt(WeddingDefaultMusicUrl, Prefix(ShortLink), i)
  {
    var u := WeddingDefaultMusicUrl;
    forall i: nat | i + 9 <= |u| ensures !OccursAt(u, "youtu.be/", i) {
      DefaultLinkLandmarks(i);
      assert u[i..i + 9][0] == u[i];
      assert u[i..i + 9][5] == u[i + 5];
    }
  }

  /** The watch-link pattern first matches at index 12 and captures "0J7R20ycaU4". */
  lemma DefaultLinkWatchMatch()
    ensures MatchAt(WeddingDefaultMusicUrl, Prefix(WatchLink), 12)
    ensures WeddingDefaultMusicUrl[32..43] == "0J7R20ycaU4"
    ensures forall i: nat | i < 12 :: !MatchAt(WeddingDefaultMusicUrl, Prefix(WatchLink), i)
  {
    var u := WeddingDefaultMusicUrl;
    var scheme, head, id, tail := "https://www.", "youtube.com/watch?v=", "0J7R20ycaU4", "&t=7";
    assert u == scheme + head + id + tail;
    assert u[12..32] == head;
    assert u[32..43] == id;
    forall i: nat | i < 12 ensures !MatchAt(u, Prefix(WatchLink), i) {
      DefaultLinkLandmarks(i);
      assert u[i..i + 20][0] == u[i];
    }
  }

  /** The default link without its time marker holds no time marker. */
  lemma DefaultLinkBaseHasNoMarker()
    ensures forall i: nat :: !TimeMarkerAt(WeddingDefaultMusicUrl[..43], i)
  {
    var u := WeddingDefaultMusicUrl;
    forall i: nat | i + 4 <= 43 ensures !TimeMarkerAt(u[..43], i) {
      DefaultLinkLandmarks(i);
    }
  }

  /** The default wedding link plays video "0J7R20ycaU4" from second 7. */
  lemma WeddingDefaultMusic()
    ensures VideoId(Some(WeddingDefaultMusicUrl)) == Some("0J7R20ycaU4")
    ensures StartTime(WeddingDefaultMusicUrl) == 7
  {
    var u := WeddingDefaultMusicUrl;
    assert !IsWhitespace(u[0]) && !IsWhitespace(u[|u| - 1]);
    TrimUnchanged(u);
    DefaultLinkHasNoShortLink();
    DefaultLinkWatchMatch();
    var r := FirstMatchFrom(u, Prefix(WatchLink), 0);
    assert r == Some(12);
    DefaultLinkBaseHasNoMarker();
    assert Radix.ToRadix(7, 10) == "7";
    assert u[..43] + ['&'] + "t=" + Radix.ToRadix(7, 10) + [] == u;
    StartTimeRoundTrip(u[..43], '&', 7, []);
  }
}
