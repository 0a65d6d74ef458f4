/**
 * lib/slug.ts: the public slug of a published invitation is "inv-", one
 * alphabet character per random byte, then the clock in base 36. The random
 * bytes and the clock reading are parameters.
 */
module Slug {
  import Radix
  import InvitationApi

  /** A value of the `Uint8Array` the random source fills. */
  newtype Byte = b: int | 0 <= b < 256

  /** The slug alphabet: the letters first, then the decimal digits. */
  function AlphabetChar(k: nat): (c: char)
    requires k < 36
    ensures k < 26 ==> 'a' <= c <= 'z' && c as int - 'a' as int == k
    ensures 26 <= k ==> '0' <= c <= '9' && c as int - '0' as int == k - 26
  {
    if k < 26 then ('a' as int + k) as char else ('0' as int + k - 26) as char
  }

  function Alphabet(): (a: string)
    ensures |a| == 36
  {
    seq(36, k requires 0 <= k < 36 => AlphabetChar(k))
  }

  /** The alphabet is exactly the 36-character literal the generator indexes into. */
  lemma AlphabetText()
    ensures Alphabet() == "abcdefghijklmnopqrstuvwxyz0123456789"
  {
    var lit := "abcdefghijklmnopqrstuvwxyz0123456789";
    forall k | 0 <= k < 36 ensures Alphabet()[k] == lit[k] {
    }
  }

  predicate IsSlugChar(c: char) {
    ('a' <= c <= 'z') || ('0' <= c <= '9')
  }

  /** The character one random byte selects. */
  function CharOf(b: Byte): (c: char)
    ensures IsSlugChar(c)
    ensures c == Alphabet()[b as int % 36]
  {
    AlphabetChar(b as int % 36)
  }

  /** Two bytes select the same character exactly when they agree modulo 36. */
  lemma CharOfInjectiveMod(a: Byte, b: Byte)
    ensures CharOf(a) == CharOf(b) <==> a as int % 36 == b as int % 36
  {
  }

  /** The slug the generator builds from `random` and the clock reading `now`. */
  function SlugOf(random: seq<Byte>, now: nat): string {
    "inv-" + seq(|random|, i requires 0 <= i < |random| => CharOf(random[i])) + Radix.ToRadix(now, 36)
  }

  /** `generateSlug`: appends one character per random byte to "inv-", then the clock in base 36. */
  method GenerateSlug(random: seq<Byte>, now: nat) returns (slug: string)
    ensures slug == SlugOf(random, now)
    ensures |slug| == 4 + |random| + |Radix.ToRadix(now, 36)|
    ensures slug[..4] == "inv-"
    ensures forall i | 0 <= i < |random| :: slug[4 + i] == Alphabet()[random[i] as int % 36]
    ensures slug[4 + |random|..] == Radix.ToRadix(now, 36)
  {
    slug := "inv-";
    var i := 0;
    while i < |random|
      invariant 0 <= i <= |random|
      invariant |slug| == 4 + i
      invariant slug[..4] == "inv-"
      invariant forall j | 0 <= j < i :: slug[4 + j] == CharOf(random[j])
    {
      slug := slug + [CharOf(random[i])];
      i := i + 1;
    }
    var stamp := Radix.ToRadix(now, 36);
    assert slug == "inv-" + seq(|random|, i requires 0 <= i < |random| => CharOf(random[i]));
    slug := slug + stamp;
  }

  /** The layout of every slug: the prefix, the random part, the clock part. */
  lemma SlugLayout(random: seq<Byte>, now: nat)
    ensures var s := SlugOf(random, now);
      && |s| == 4 + |random| + |Radix.ToRadix(now, 36)|
      && s[..4] == "inv-"
      && (forall i | 0 <= i < |random| :: s[4 + i] == CharOf(random[i]))
      && s[4 + |random|..] == Radix.ToRadix(now, 36)
  {
    var s := SlugOf(random, now);
    var mid := seq(|random|, i requires 0 <= i < |random| => CharOf(random[i]));
    assert s == "inv-" + mid + Radix.ToRadix(now, 36);
    assert s[4 + |random|..] == Radix.ToRadix(now, 36);
  }

  /** After the prefix every character is a lower-case letter or a digit, so the slug is URL-safe. */
  lemma SlugCharacters(random: seq<Byte>, now: nat)
    ensures var s := SlugOf(random, now);
      forall i | 4 <= i < |s| :: IsSlugChar(s[i])
  {
    SlugLayout(random, now);
    var s := SlugOf(random, now);
    var stamp := Radix.ToRadix(now, 36);
    forall i | 4 + |random| <= i < |s| ensures IsSlugChar(s[i]) {
      assert s[i] == stamp[i - 4 - |random|];
      assert Radix.IsDigitOf(stamp[i - 4 - |random|], 36);
    }
  }

  /** With the six bytes of the generator, a slug is longer than ten characters. */
  lemma SixByteSlugLength(random: seq<Byte>, now: nat)
    requires |random| == 6
    ensures |SlugOf(random, now)| >= 11
  {
    SlugLayout(random, now);
  }

  /**
   * Two slugs from byte strings of the same length coincide exactly when the
   * clock readings are equal and the bytes agree position by position modulo 36.
   */
  lemma SlugEquality(r1: seq<Byte>, n1: nat, r2: seq<Byte>, n2: nat)
    requires |r1| == |r2|
    ensures SlugOf(r1, n1) == SlugOf(r2, n2) <==>
              n1 == n2 && forall i | 0 <= i < |r1| :: r1[i] as int % 36 == r2[i] as int % 36
  {
    SlugLayout(r1, n1);
    SlugLayout(r2, n2);
    var s1, s2 := SlugOf(r1, n1), SlugOf(r2, n2);
    if s1 == s2 {
      assert Radix.ToRadix(n1, 36) == Radix.ToRadix(n2, 36);
      Radix.ToRadixInjective(n1, n2, 36);
      forall i | 0 <= i < |r1| ensures r1[i] as int % 36 == r2[i] as int % 36 {
        assert s1[4 + i] == s2[4 + i];
        CharOfInjectiveMod(r1[i], r2[i]);
      }
    }
    if n1 == n2 && forall i | 0 <= i < |r1| :: r1[i] as int % 36 == r2[i] as int % 36 {
      var m1 := seq(|r1|, i requires 0 <= i < |r1| => CharOf(r1[i]));
      var m2 := seq(|r2|, i requires 0 <= i < |r2| => CharOf(r2[i]));
      forall i | 0 <= i < |r1| ensures m1[i] == m2[i] {
        CharOfInjectiveMod(r1[i], r2[i]);
      }
      assert m1 == m2;
    }
  }

  /** Six bytes of value 1 give the random part "bbbbbb". */
  lemma AllOnesSlug(now: nat)
    ensures SlugOf([1, 1, 1, 1, 1, 1], now)[4..10] == "bbbbbb"
  {
    var r: seq<Byte> := [1, 1, 1, 1, 1, 1];
    SlugLayout(r, now);
    var s := SlugOf(r, now);
    forall i | 0 <= i < 6 ensures s[4..10][i] == 'b' {
      assert s[4..10][i] == s[4 + i] == CharOf(r[i]);
    }
  }

  /** A slug never passes the invitation-id test, so the two kinds of key cannot be confused. */
  lemma SlugIsNotInvitationId(random: seq<Byte>, now: nat)
    ensures !InvitationApi.IsInvitationId(SlugOf(random, now))
  {
    var s := SlugOf(random, now);
    SlugLayout(random, now);
    InvitationApi.InvitationIdShape(s);
    assert s[3] == s[..4][3] == '-';
    assert !InvitationApi.IsHexDigit(s[3]);
  }
}
