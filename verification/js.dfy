/**
 * The slice of JavaScript value semantics the source relies on: parsed JSON values,
 * truthiness, property reads, `parseInt`, `Number(string)`, `String(number)` and
 * `padStart(2, "0")`.
 */
module Js {
  import opened Wrappers
  import opened Text
  import Radix

  /** A value produced by `JSON.parse`. Numbers are exact reals (JSON has no NaN or Infinity). */
  datatype Json =
    | JNull
    | JBool(b: bool)
    | JNum(n: real)
    | JStr(s: string)
    | JArr(items: seq<Json>)
    | JObj(fields: map<string, Json>)

  /** JavaScript truthiness: `null`, `false`, `0` and `""` are falsy. */
  predicate Truthy(j: Json) {
    match j
    case JNull => false
    case JBool(b) => b
    case JNum(n) => n != 0.0
    case JStr(s) => s != ""
    case _ => true
  }

  /** `typeof j === "object"` (true for null, arrays and objects). */
  predicate IsObjectType(j: Json) {
    j.JNull? || j.JArr? || j.JObj?
  }

  /** `j.key` on a parsed value; `None` is `undefined`. Only objects carry the keys read here. */
  function Get(j: Json, key: string): (r: Option<Json>)
    ensures r.Some? <==> j.JObj? && key in j.fields
  {
    if j.JObj? && key in j.fields then Some(j.fields[key]) else None
  }

  /** `typeof j.key === "string"`. */
  predicate HasString(j: Json, key: string) {
    Get(j, key).Some? && Get(j, key).value.JStr?
  }

  /** The keys of a list of object members, in order. */
  function KeysOf(members: seq<(string, Json)>): (ks: seq<string>)
    ensures |ks| == |members|
  {
    seq(|members|, i requires 0 <= i < |members| => members[i].0)
  }

  /** An object literal written as its list of members; a later member with the same key wins. */
  function ObjectOf(members: seq<(string, Json)>): (j: Json)
    ensures j.JObj?
    ensures forall k :: k in j.fields <==> k in KeysOf(members)
    decreases |members|
  {
    if |members| == 0 then JObj(map[])
    else
      var init := members[..|members| - 1];
      var last := members[|members| - 1];
      assert KeysOf(members) == KeysOf(init) + [last.0];
      JObj(ObjectOf(init).fields[last.0 := last.1])
  }

  /** A member whose key does not occur again later is what the object holds under that key. */
  lemma {:induction false} ObjectOfLookup(members: seq<(string, Json)>, i: nat)
    requires i < |members|
    requires forall j | i < j < |members| :: members[j].0 != members[i].0
    ensures members[i].0 in ObjectOf(members).fields
    ensures ObjectOf(members).fields[members[i].0] == members[i].1
    decreases |members|
  {
    assert KeysOf(members)[i] == members[i].0;
    if i < |members| - 1 {
      var init := members[..|members| - 1];
      assert init[i] == members[i];
      ObjectOfLookup(init, i);
    }
  }

  /** A JavaScript number as far as the string conversions below need it. */
  datatype Number = Num(v: int) | NaN | Undefined

  predicate IsDecimalDigit(c: char) {
    '0' <= c <= '9'
  }

  predicate AllDecimalDigits(s: string) {
    forall i | 0 <= i < |s| :: IsDecimalDigit(s[i])
  }

  /** The longest prefix of decimal digits. */
  function LeadingDigits(s: string): (d: string)
    ensures |d| <= |s| && d == s[..|d|]
    ensures AllDecimalDigits(d)
    ensures |d| == |s| || !IsDecimalDigit(s[|d|])
  {
    if |s| > 0 && IsDecimalDigit(s[0]) then [s[0]] + LeadingDigits(s[1..]) else ""
  }

  /** Splits an optional leading `+` or `-` off `s`. */
  function SignOf(s: string): (r: (int, string))
    ensures r.0 == 1 || r.0 == -1
    ensures r.1 == s || (|s| > 0 && r.1 == s[1..] && (s[0] == '+' || s[0] == '-'))
  {
    if |s| > 0 && s[0] == '-' then (-1, s[1..])
    else if |s| > 0 && s[0] == '+' then (1, s[1..])
    else (1, s)
  }

  /** `parseInt(s, 10)`: leading whitespace, an optional sign, then the longest digit run; NaN without digits. */
  function ParseInt(s: string): (r: Number)
    ensures r != Undefined
    ensures r == NaN <==> LeadingDigits(SignOf(TrimStart(s)).1) == ""
  {
    var (sign, body) := SignOf(TrimStart(s));
    var digits := LeadingDigits(body);
    if digits == "" then NaN else Num(sign * Radix.FromRadix(digits, 10))
  }

  /** `Number(s)` for decimal integer literals: surrounding whitespace is ignored and an empty string is 0. */
  function StringToNumber(s: string): (r: Number)
    ensures r != Undefined
    ensures AllWhitespace(s) ==> r == Num(0)
  {
    var t := Trim(s);
    var (sign, body) := SignOf(t);
    if t == "" then Num(0)
    else if body != "" && AllDecimalDigits(body) then Num(sign * Radix.FromRadix(body, 10))
    else NaN
  }

  /** `String(x)`. */
  function NumberToString(x: Number): (s: string)
    ensures |s| >= 1
  {
    match x
    case Num(v) => if v >= 0 then Radix.ToRadix(v, 10) else "-" + Radix.ToRadix(-v, 10)
    case NaN => "NaN"
    case Undefined => "undefined"
  }

  /** `String(x).padStart(2, "0")`. */
  function Pad2(x: Number): (s: string)
    ensures |s| >= 2
  {
    var t := NumberToString(x);
    if |t| < 2 then "0" + t else t
  }

  /** A number in 0..99 pads to exactly its two decimal digits. */
  lemma Pad2TwoDigits(k: int)
    requires 0 <= k <= 99
    ensures Pad2(Num(k)) == [Radix.DigitChar(k / 10), Radix.DigitChar(k % 10)]
  {
    if k >= 10 {
      assert Radix.ToRadix(k / 10, 10) == [Radix.DigitChar(k / 10)];
    }
  }

  /** `parseInt` of two decimal digits. */
  lemma ParseTwoDigits(a: nat, b: nat)
    requires a < 10 && b < 10
    ensures ParseInt([Radix.DigitChar(a), Radix.DigitChar(b)]) == Num(a * 10 + b)
  {
    var s := [Radix.DigitChar(a), Radix.DigitChar(b)];
    Radix.DigitRoundTrip(a, 10);
    Radix.DigitRoundTrip(b, 10);
    TwoDigitsUntouched(s);
    TwoDigitsValue(s);
  }

  /** Two decimal digits pass through trimming, sign splitting and digit scanning unchanged. */
  lemma TwoDigitsUntouched(s: string)
    requires |s| == 2 && IsDecimalDigit(s[0]) && IsDecimalDigit(s[1])
    ensures TrimStart(s) == s && SignOf(s).1 == s && LeadingDigits(s) == s
  {
    assert !IsWhitespace(s[0]);
    assert LeadingDigits(s[1..][1..]) == [];
    assert LeadingDigits(s[1..]) == s[1..];
  }

  lemma TwoDigitsValue(s: string)
    requires |s| == 2
    ensures Radix.FromRadix(s, 10) == Radix.DigitValue(s[0]) * 10 + Radix.DigitValue(s[1])
  {
    var h := s[..1];
    assert h[..|h| - 1] == [];
    assert Radix.FromRadix(h, 10) == Radix.FromRadix([], 10) * 10 + Radix.DigitValue(h[0]);
    assert s[..|s| - 1] == h;
  }

  /** `Number(s)` of a non-empty run of decimal digits is its decimal value. */
  lemma NumberOfDigits(s: string)
    requires s != [] && AllDecimalDigits(s)
    ensures StringToNumber(s) == Num(Radix.FromRadix(s, 10))
  {
    assert !IsWhitespace(s[0]) && !IsWhitespace(s[|s| - 1]);
    TrimUnchanged(s);
    assert SignOf(s) == (1, s);
  }

  /** A decimal numeral read back is the number; its digits are decimal. */
  lemma DecimalNumeral(n: nat)
    ensures AllDecimalDigits(Radix.ToRadix(n, 10))
    ensures Radix.FromRadix(Radix.ToRadix(n, 10), 10) == n
  {
    Radix.FromToRadix(n, 10);
    var t := Radix.ToRadix(n, 10);
    forall i | 0 <= i < |t| ensures IsDecimalDigit(t[i]) {
      assert Radix.IsDigitOf(t[i], 10);
    }
  }

  /** A number from 10 on is written without padding. */
  lemma Pad2Wide(n: nat)
    requires n >= 10
    ensures Pad2(Num(n)) == Radix.ToRadix(n, 10)
  {
    assert |Radix.ToRadix(n, 10)| >= 2;
  }

  /** What Pad2 writes for 0..99 is two decimal digits that read back as the number. */
  lemma Pad2Digits(k: int)
    requires 0 <= k <= 99
    ensures |Pad2(Num(k))| == 2 && AllDecimalDigits(Pad2(Num(k)))
    ensures Radix.FromRadix(Pad2(Num(k)), 10) == k
  {
    Pad2TwoDigits(k);
    Radix.DigitRoundTrip(k / 10, 10);
    Radix.DigitRoundTrip(k % 10, 10);
    TwoDigitsValue(Pad2(Num(k)));
  }

  /** `parseInt` reads back what Pad2 wrote, for numbers in 0..99 and for NaN. */
  lemma ParsePad2(x: Number)
    requires x == NaN || (x.Num? && 0 <= x.v <= 99)
    ensures ParseInt(Pad2(x)) == x
  {
    if x.Num? {
      var k := x.v;
      Pad2TwoDigits(k);
      ParseTwoDigits(k / 10, k % 10);
    } else {
      assert Pad2(x) == "NaN";
      NaNParsesNaN();
    }
  }

  lemma NaNParsesNaN()
    ensures ParseInt("NaN") == NaN
  {
    var s := "NaN";
    assert !IsWhitespace(s[0]) && !IsDecimalDigit(s[0]);
    assert TrimStart(s) == s;
    assert LeadingDigits(s) == "";
  }

  /** What Pad2 writes for 0..99 or NaN: no ':' and no whitespace at either end. */
  lemma Pad2Shape(x: Number)
    requires x == NaN || (x.Num? && 0 <= x.v <= 99)
    ensures ':' !in Pad2(x)
    ensures !IsWhitespace(Pad2(x)[0]) && !IsWhitespace(Pad2(x)[|Pad2(x)| - 1])
  {
    if x.Num? {
      Pad2TwoDigits(x.v);
      var a, b := Radix.DigitChar(x.v / 10), Radix.DigitChar(x.v % 10);
      assert Pad2(x) == [a, b];
      assert '0' <= a <= '9' && '0' <= b <= '9';
    } else {
      assert Pad2(x) == "NaN";
    }
  }
}
