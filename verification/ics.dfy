/**
 * The iCalendar export of lib/generateIcs.ts: a VCALENDAR with one VEVENT whose
 * DTSTART/DTEND are floating local date-times (section 3.3.5 of RFC 5545), whose
 * TEXT values escape backslash, semicolon and comma (section 3.3.11 of RFC 5545),
 * and whose content lines are joined by CRLF (section 3.1 of RFC 5545). Newlines
 * are not escaped, lines are not folded and no UID/DTSTAMP is emitted, as in the source.
 */
module Ics {
  import opened Wrappers
  import opened Text
  import opened Js

  datatype CalendarEventInput = CalendarEventInput(
    title: string,
    date: string,
    startTime: Option<string>,
    endTime: Option<string>,
    location: Option<string>,
    address: Option<string>,
    description: Option<string>)

  // ---------------------------------------------------------------- escaping

  /** `s.replace(/c/g, rep)`. */
  function ReplaceChar(s: string, c: char, rep: string): string {
    if |s| == 0 then ""
    else (if s[0] == c then rep else [s[0]]) + ReplaceChar(s[1..], c, rep)
  }

  /** `escapeIcsText`: three global replacements, applied in the source's order. */
  function EscapeIcsText(s: string): string {
    ReplaceChar(ReplaceChar(ReplaceChar(s, '\\', "\\\\"), ';', "\\;"), ',', "\\,")
  }

  predicate IsIcsSpecial(c: char) {
    c == '\\' || c == ';' || c == ','
  }

  /** Reference escaping, one character at a time: a special character gains a leading backslash. */
  function EscapeChar(c: char): string {
    if IsIcsSpecial(c) then ['\\', c] else [c]
  }

  function EscapeEach(s: string): string {
    if |s| == 0 then "" else EscapeChar(s[0]) + EscapeEach(s[1..])
  }

  function CountSpecial(s: string): nat {
    if |s| == 0 then 0 else (if IsIcsSpecial(s[0]) then 1 else 0) + CountSpecial(s[1..])
  }

  /** Undoes TEXT escaping: a backslash makes the following character literal. */
  function UnescapeIcsText(s: string): string {
    if |s| == 0 then ""
    else if s[0] == '\\' && |s| >= 2 then [s[1]] + UnescapeIcsText(s[2..])
    else [s[0]] + UnescapeIcsText(s[1..])
  }

  lemma {:induction false} ReplaceCharAppend(a: string, b: string, c: char, rep: string)
    ensures ReplaceChar(a + b, c, rep) == ReplaceChar(a, c, rep) + ReplaceChar(b, c, rep)
  {
    if |a| > 0 {
      assert (a + b)[1..] == a[1..] + b;
      ReplaceCharAppend(a[1..], b, c, rep);
    } else {
      assert a + b == b;
    }
  }

  /** The three sequential passes never re-escape what an earlier pass inserted. */
  lemma {:induction false} EscapeIsPerChar(s: string)
    ensures EscapeIcsText(s) == EscapeEach(s)
  {
    if |s| > 0 {
      var head, tail := [s[0]], s[1..];
      assert s == head + tail;
      var p1 := ReplaceChar(head, '\\', "\\\\");
      var q1 := ReplaceChar(tail, '\\', "\\\\");
      ReplaceCharAppend(head, tail, '\\', "\\\\");
      var p2 := ReplaceChar(p1, ';', "\\;");
      var q2 := ReplaceChar(q1, ';', "\\;");
      ReplaceCharAppend(p1, q1, ';', "\\;");
      ReplaceCharAppend(p2, q2, ',', "\\,");
      EscapeIsPerChar(tail);
      assert ReplaceChar(p2, ',', "\\,") == EscapeChar(s[0]);
    }
  }

  /** Escaping lengthens the text by exactly one character per backslash, semicolon and comma. */
  lemma {:induction false} EscapeLength(s: string)
    ensures |EscapeIcsText(s)| == |s| + CountSpecial(s)
  {
    EscapeIsPerChar(s);
    EscapeEachLength(s);
  }

  lemma {:induction false} EscapeEachLength(s: string)
    ensures |EscapeEach(s)| == |s| + CountSpecial(s)
  {
    if |s| > 0 {
      EscapeEachLength(s[1..]);
    }
  }

  /** Escaping is lossless: unescaping gives back the original text. */
  lemma {:induction false} EscapeRoundTrip(s: string)
    ensures UnescapeIcsText(EscapeIcsText(s)) == s
  {
    EscapeIsPerChar(s);
    EscapeEachRoundTrip(s);
  }

  lemma {:induction false} EscapeEachRoundTrip(s: string)
    ensures UnescapeIcsText(EscapeEach(s)) == s
  {
    if |s| > 0 {
      var e := EscapeEach(s);
      var rest := EscapeEach(s[1..]);
      EscapeEachRoundTrip(s[1..]);
      if IsIcsSpecial(s[0]) {
        assert e == ['\\', s[0]] + rest;
        assert e[2..] == rest;
      } else {
        assert e == [s[0]] + rest;
        assert e[1..] == rest;
      }
      assert s == [s[0]] + s[1..];
    }
  }

  /** Text without backslash, semicolon or comma is left as it is. */
  lemma {:induction false} EscapePlainUnchanged(s: string)
    requires forall i | 0 <= i < |s| :: !IsIcsSpecial(s[i])
    ensures EscapeIcsText(s) == s
  {
    EscapeIsPerChar(s);
    EscapeEachPlain(s);
  }

  lemma {:induction false} EscapeEachPlain(s: string)
    requires forall i | 0 <= i < |s| :: !IsIcsSpecial(s[i])
    ensures EscapeEach(s) == s
  {
    if |s| > 0 {
      EscapeEachPlain(s[1..]);
      assert s == [s[0]] + s[1..];
    }
  }

  lemma {:induction false} EscapeEachAppend(a: string, b: string)
    ensures EscapeEach(a + b) == EscapeEach(a) + EscapeEach(b)
  {
    if |a| > 0 {
      assert (a + b)[1..] == a[1..] + b;
      EscapeEachAppend(a[1..], b);
    } else {
      assert a + b == b;
    }
  }

  /** Plain text around one special character: only that character gains a backslash. */
  lemma EscapeOneSpecial(a: string, c: char, b: string)
    requires forall i | 0 <= i < |a| :: !IsIcsSpecial(a[i])
    requires forall i | 0 <= i < |b| :: !IsIcsSpecial(b[i])
    requires IsIcsSpecial(c)
    ensures EscapeEach(a + [c] + b) == a + ['\\', c] + b
  {
    var x := a + [c];
    EscapeEachAppend(x, b);
    EscapeEachAppend(a, [c]);
    EscapeEachPlain(a);
    EscapeEachPlain(b);
    EscapeSpecialChar(c);
    assert EscapeEach(x) == a + ['\\', c];
  }

  lemma EscapeSpecialChar(c: char)
    requires IsIcsSpecial(c)
    ensures EscapeEach([c]) == ['\\', c]
  {
    assert [c][1..] == [];
  }

  lemma TitlePieces(s: string)
    requires s == "Party; at John's, Inc."
    ensures s == ("Party" + [';'] + "") + (" at John's" + [','] + " Inc.")
  {
  }

  lemma TitlePiecesPlain()
    ensures forall i | 0 <= i < |"Party"| :: !IsIcsSpecial("Party"[i])
    ensures forall i | 0 <= i < |" at John's"| :: !IsIcsSpecial(" at John's"[i])
    ensures forall i | 0 <= i < |" Inc."| :: !IsIcsSpecial(" Inc."[i])
  {
  }

  lemma TitlePiecesEscaped()
    ensures ("Party" + ['\\', ';'] + "") + (" at John's" + ['\\', ','] + " Inc.") == "Party\\; at John's\\, Inc."
  {
  }

  /** A title with a semicolon and a comma: `Party; at John's, Inc.` is written `Party\; at John's\, Inc.`. */
  lemma TitleEscapeExample(s: string)
    requires s == "Party; at John's, Inc."
    ensures EscapeIcsText(s) == "Party\\; at John's\\, Inc."
  {
    TitlePieces(s);
    TitlePiecesPlain();
    TitlePiecesEscaped();
    var p, q1, q2 := "Party", " at John's", " Inc.";
    EscapeIsPerChar(s);
    EscapeEachAppend(p + [';'] + "", q1 + [','] + q2);
    EscapeOneSpecial(p, ';', "");
    EscapeOneSpecial(q1, ',', q2);
  }

  // ------------------------------------------------------------------- times

  /** An hour/minute pair; each component is a clamped integer or NaN. */
  datatype Clock = Clock(h: Number, m: Number)

  /** `Math.max(lo, Math.min(hi, x))`: NaN (and undefined) stay NaN. */
  function Clamp(x: Number, lo: int, hi: int): (r: Number)
    requires lo <= hi
    ensures r.Num? ==> lo <= r.v <= hi
    ensures r.Num? <==> x.Num?
    ensures x.Num? && lo <= x.v <= hi ==> r == x
    ensures x.Num? && x.v < lo ==> r == Num(lo)
    ensures x.Num? && x.v > hi ==> r == Num(hi)
  {
    match x
    case Num(v) => Num(if v < lo then lo else if v > hi then hi else v)
    case _ => NaN
  }

  predicate InRangeOrNaN(x: Number, hi: int) {
    x == NaN || (x.Num? && 0 <= x.v <= hi)
  }

  /** `parseTime`: split the trimmed text at ':' and clamp hours to 0..23, minutes to 0..59. */
  function ParseTime(time: string): (t: Clock)
    ensures InRangeOrNaN(t.h, 23) && InRangeOrNaN(t.m, 59)
  {
    var parts := Split(Trim(time), ':');
    var h := ParseInt(parts[0]);
    var m := ParseInt(if |parts| > 1 then parts[1] else "0");
    Clock(Clamp(h, 0, 23), Clamp(m, 0, 59))
  }

  /** `(h + 1) % 24`; NaN stays NaN. */
  function NextHour(h: Number): Number {
    match h
    case Num(v) => Num((v + 1) % 24)
    case _ => NaN
  }

  /** `addOneHour`: the parsed time one hour later, wrapping past midnight, written as HH:mm. */
  function AddOneHour(time: string): string {
    var t := ParseTime(time);
    Pad2(NextHour(t.h)) + ":" + Pad2(t.m)
  }

  /** `YYYYMMDD` from `dateStr.split("-").map(Number)`; missing parts print as "undefined". */
  function DatePart(dateStr: string): string {
    var parts := Split(dateStr, '-');
    var y := StringToNumber(parts[0]);
    var mo := if |parts| > 1 then StringToNumber(parts[1]) else Undefined;
    var d := if |parts| > 2 then StringToNumber(parts[2]) else Undefined;
    Pad2(y) + Pad2(mo) + Pad2(d)
  }

  /** Splitting `y-mo-d` at '-' gives the three parts when none holds a '-'. */
  lemma SplitDate(y: string, mo: string, d: string)
    requires '-' !in y && '-' !in mo && '-' !in d
    ensures Split(y + "-" + mo + "-" + d, '-') == [y, mo, d]
  {
    assert y + "-" + mo + "-" + d == y + ['-'] + (mo + ['-'] + d);
    SplitAtFirst(y, '-', mo + ['-'] + d);
    SplitAtFirst(mo, '-', d);
    SplitNoSeparator(d, '-');
  }

  /** A digit run holds no '-'. */
  lemma DigitsHaveNoDash(s: string)
    requires AllDecimalDigits(s)
    ensures '-' !in s
  {
    forall i | 0 <= i < |s| ensures s[i] != '-' {
      assert IsDecimalDigit(s[i]);
    }
  }

  /** A date of three decimal digit runs: each part is read as a number and padded to two digits. */
  lemma DatePartOfDigits(y: string, mo: string, d: string)
    requires y != [] && mo != [] && d != []
    requires AllDecimalDigits(y) && AllDecimalDigits(mo) && AllDecimalDigits(d)
    ensures DatePart(y + "-" + mo + "-" + d)
            == Pad2(Num(Radix.FromRadix(y, 10))) + Pad2(Num(Radix.FromRadix(mo, 10))) + Pad2(Num(Radix.FromRadix(d, 10)))
  {
    DigitsHaveNoDash(y);
    DigitsHaveNoDash(mo);
    DigitsHaveNoDash(d);
    SplitDate(y, mo, d);
    NumberOfDigits(y);
    NumberOfDigits(mo);
    NumberOfDigits(d);
  }

  /**
   * `YYYYMMDD`: a year of at least two digits, written without leading zero,
   * and a month and day written with two digits, are copied with the dashes
   * removed.
   */
  lemma DatePartOfPaddedDate(y: nat, mo: nat, d: nat)
    requires y >= 10 && mo <= 99 && d <= 99
    ensures var year := Radix.ToRadix(y, 10);
      DatePart(year + "-" + Pad2(Num(mo)) + "-" + Pad2(Num(d))) == year + Pad2(Num(mo)) + Pad2(Num(d))
  {
    DecimalNumeral(y);
    Pad2Digits(mo);
    Pad2Digits(d);
    Pad2Wide(y);
    DatePartOfDigits(Radix.ToRadix(y, 10), Pad2(Num(mo)), Pad2(Num(d)));
  }

  /** A month or day written with one digit gains a leading zero: `2026-3-5` becomes `20260305`. */
  lemma DatePartOfShortDate(y: nat, mo: nat, d: nat)
    requires y >= 10 && mo <= 99 && d <= 99
    ensures var year := Radix.ToRadix(y, 10);
      DatePart(year + "-" + Radix.ToRadix(mo, 10) + "-" + Radix.ToRadix(d, 10)) == year + Pad2(Num(mo)) + Pad2(Num(d))
  {
    DecimalNumeral(y);
    DecimalNumeral(mo);
    DecimalNumeral(d);
    Pad2Wide(y);
    DatePartOfDigits(Radix.ToRadix(y, 10), Radix.ToRadix(mo, 10), Radix.ToRadix(d, 10));
  }

  /** `THHMMSS` from a parsed time; the seconds are always 00. */
  function TimePart(t: Clock): string {
    "T" + Pad2(t.h) + Pad2(t.m) + "00"
  }

  /** `toIcsDateTime`: a floating local date-time `YYYYMMDDTHHMMSS`. */
  function ToIcsDateTime(dateStr: string, timeStr: string): string {
    DatePart(dateStr) + TimePart(ParseTime(timeStr))
  }

  // ------------------------------------------------------------------ output

  /** The defaults of the source's destructuring, and the fallback title. */
  function StartDefault(): string { "18:00" }
  function EndDefault(): string { "23:00" }
  function DefaultTitle(): string { "Event" }

  function StartOf(input: CalendarEventInput): string {
    input.startTime.GetOr(StartDefault())
  }

  function EndOf(input: CalendarEventInput): string {
    input.endTime.GetOr(EndDefault())
  }

  /** `parts.filter(Boolean)` on strings: the non-empty ones, in order. */
  function NonEmptyOnly(parts: seq<string>): (kept: seq<string>)
    ensures forall p <- kept :: p != "" && p in parts
  {
    if |parts| == 0 then []
    else (if parts[0] != "" then [parts[0]] else []) + NonEmptyOnly(parts[1..])
  }

  /** `[location, address].filter(Boolean).join(", ")`. */
  function LocationOf(input: CalendarEventInput): string {
    Join(NonEmptyOnly([input.location.GetOr(""), input.address.GetOr("")]), ", ")
  }

  function DescriptionOf(input: CalendarEventInput): string {
    input.description.GetOr("")
  }

  /** The end time actually used: one hour after the end when start and end are the same text. */
  function SafeEndOf(input: CalendarEventInput): string {
    if StartOf(input) == EndOf(input) then AddOneHour(EndOf(input)) else EndOf(input)
  }

  /** The property names the export writes. */
  datatype PropertyName = BEGIN | END | VERSION | PRODID | DTSTART | DTEND | SUMMARY | LOCATION | DESCRIPTION

  function NameText(p: PropertyName): string {
    match p
    case BEGIN => "BEGIN"
    case END => "END"
    case VERSION => "VERSION"
    case PRODID => "PRODID"
    case DTSTART => "DTSTART"
    case DTEND => "DTEND"
    case SUMMARY => "SUMMARY"
    case LOCATION => "LOCATION"
    case DESCRIPTION => "DESCRIPTION"
  }

  /** A content line `name:value` (section 3.1 of RFC 5545, without parameters). */
  datatype ContentLine = ContentLine(name: PropertyName, value: string)

  function Render(line: ContentLine): string {
    NameText(line.name) + ":" + line.value
  }

  const Header: seq<ContentLine> := [
    ContentLine(BEGIN, "VCALENDAR"), ContentLine(VERSION, "2.0"),
    ContentLine(PRODID, "-//Gatherly//EN"), ContentLine(BEGIN, "VEVENT")]
  const Footer: seq<ContentLine> := [ContentLine(END, "VEVENT"), ContentLine(END, "VCALENDAR")]

  /** Property names that may appear inside the event block. */
  predicate IsEventProperty(name: PropertyName) {
    name.DTSTART? || name.DTEND? || name.SUMMARY? || name.LOCATION? || name.DESCRIPTION?
  }

  /**
   * The property values `generateIcs` writes: the two date-times and the escaped title
   * (or "Event"), joined location and description. The source tests location and
   * description for emptiness before escaping; EscapeEmpty shows that testing the
   * escaped text is the same.
   */
  datatype EventFields = EventFields(dtStart: string, dtEnd: string, summary: string, location: string, description: string)

  function FieldsOf(input: CalendarEventInput): EventFields {
    EventFields(
      ToIcsDateTime(input.date, StartOf(input)),
      ToIcsDateTime(input.date, SafeEndOf(input)),
      EscapeIcsText(if input.title == "" then DefaultTitle() else input.title),
      EscapeIcsText(LocationOf(input)),
      EscapeIcsText(DescriptionOf(input)))
  }

  /** The lines between `BEGIN:VEVENT` and `END:VEVENT`; LOCATION and DESCRIPTION only when non-empty. */
  function EventBlock(f: EventFields): (body: seq<ContentLine>)
    ensures |body| == 3 + (if f.location != "" then 1 else 0) + (if f.description != "" then 1 else 0)
    ensures body[..3] == [ContentLine(DTSTART, f.dtStart), ContentLine(DTEND, f.dtEnd), ContentLine(SUMMARY, f.summary)]
    ensures forall i | 0 <= i < |body| :: IsEventProperty(body[i].name)
    ensures (exists i | 0 <= i < |body| :: body[i].name == LOCATION) <==> f.location != ""
    ensures (exists i | 0 <= i < |body| :: body[i].name == DESCRIPTION) <==> f.description != ""
    ensures forall i | 0 <= i < |body| && body[i].name == LOCATION :: body[i].value == f.location
    ensures forall i | 0 <= i < |body| && body[i].name == DESCRIPTION :: body[i].value == f.description
  {
    var core := [ContentLine(DTSTART, f.dtStart), ContentLine(DTEND, f.dtEnd), ContentLine(SUMMARY, f.summary)];
    var loc := if f.location != "" then [ContentLine(LOCATION, f.location)] else [];
    var desc := if f.description != "" then [ContentLine(DESCRIPTION, f.description)] else [];
    var body := core + loc + desc;
    assert body[..3] == core;
    forall i | 0 <= i < |body|
      ensures IsEventProperty(body[i].name)
      ensures body[i].name == LOCATION ==> i == 3 && body[i] == loc[0]
      ensures body[i].name == DESCRIPTION ==> i == |body| - 1 && body[i] == desc[0]
    {
      if i < 3 {
        assert body[i] == core[i];
      } else if i < 3 + |loc| {
        assert body[i] == loc[i - 3];
      } else {
        assert body[i] == desc[i - 3 - |loc|];
      }
    }
    assert f.location != "" ==> body[3] == loc[0];
    assert f.description != "" ==> body[|body| - 1] == desc[0];
    body
  }

  /** The calendar envelope around one event block. */
  function Envelope(body: seq<ContentLine>): (lines: seq<ContentLine>)
    requires forall i | 0 <= i < |body| :: IsEventProperty(body[i].name)
    ensures |lines| == |body| + 6
    ensures lines[..4] == Header
    ensures lines[4..|lines| - 2] == body
    ensures lines[|lines| - 2..] == Footer
    ensures forall i | 0 <= i < |lines| :: lines[i] == ContentLine(BEGIN, "VEVENT") <==> i == 3
    ensures forall i | 0 <= i < |lines| :: lines[i] == ContentLine(END, "VEVENT") <==> i == |lines| - 2
  {
    var lines := Header + body + Footer;
    assert lines[..4] == Header;
    assert lines[4..|lines| - 2] == body;
    assert lines[|lines| - 2..] == Footer;
    assert "VCALENDAR" != "VEVENT" by { assert |"VCALENDAR"| != |"VEVENT"|; }
    forall i | 0 <= i < |lines|
      ensures lines[i] == ContentLine(BEGIN, "VEVENT") <==> i == 3
      ensures lines[i] == ContentLine(END, "VEVENT") <==> i == |lines| - 2
    {
      if i < 4 {
        assert lines[i] == Header[i];
        assert Header[0].name == BEGIN && Header[0].value == "VCALENDAR";
        assert Header[1].name == VERSION && Header[2].name == PRODID;
        assert Header[3] == ContentLine(BEGIN, "VEVENT");
      } else if i < |lines| - 2 {
        assert lines[i] == body[i - 4];
        assert IsEventProperty(body[i - 4].name);
      } else {
        assert lines[i] == Footer[i - (|lines| - 2)];
        assert Footer[0] == ContentLine(END, "VEVENT");
        assert Footer[1] == ContentLine(END, "VCALENDAR");
      }
    }
    lines
  }

  /** The content lines of the calendar: the envelope around exactly one event block, 9 to 11 lines in all. */
  function Layout(f: EventFields): (lines: seq<ContentLine>)
    ensures 9 <= |lines| <= 11
    ensures |lines| == 9 + (if f.location != "" then 1 else 0) + (if f.description != "" then 1 else 0)
    ensures lines[..4] == Header
    ensures lines[4..|lines| - 2] == EventBlock(f)
    ensures lines[|lines| - 2..] == Footer
    ensures forall i | 0 <= i < |lines| :: lines[i] == ContentLine(BEGIN, "VEVENT") <==> i == 3
    ensures forall i | 0 <= i < |lines| :: lines[i] == ContentLine(END, "VEVENT") <==> i == |lines| - 2
  {
    Envelope(EventBlock(f))
  }

  function RenderAll(lines: seq<ContentLine>): (texts: seq<string>)
    ensures |texts| == |lines|
    ensures forall i | 0 <= i < |lines| :: texts[i] == Render(lines[i])
  {
    seq(|lines|, i requires 0 <= i < |lines| => Render(lines[i]))
  }

  /** The laid-out lines rendered and joined by CRLF. */
  function IcsText(f: EventFields): string {
    Join(RenderAll(Layout(f)), "\r\n")
  }

  /** `generateIcs`. */
  function GenerateIcs(input: CalendarEventInput): string {
    IcsText(FieldsOf(input))
  }

  // ------------------------------------------------------------- properties

  /** parseTime reads back a time written as `pad2(h) + ":" + pad2(m)` from clamped components. */
  lemma ParseTimeOfPadded(h: Number, m: Number)
    requires InRangeOrNaN(h, 23) && InRangeOrNaN(m, 59)
    ensures ParseTime(Pad2(h) + ":" + Pad2(m)) == Clock(h, m)
  {
    var a, b := Pad2(h), Pad2(m);
    Pad2Shape(h);
    Pad2Shape(m);
    ParsePad2(h);
    ParsePad2(m);
    SplitTrimmedPair(a, b, ':');
    ParseTimeOfParts(a + ":" + b, a, b);
    assert Clamp(ParseInt(a), 0, 23) == h;
    assert Clamp(ParseInt(b), 0, 59) == m;
  }

  lemma ParseTimeOfParts(time: string, a: string, b: string)
    requires Split(Trim(time), ':') == [a, b]
    ensures ParseTime(time) == Clock(Clamp(ParseInt(a), 0, 23), Clamp(ParseInt(b), 0, 59))
  {
  }

  /** addOneHour advances the parsed hour by one modulo 24 and keeps the minutes. */
  lemma AddOneHourParses(time: string)
    ensures ParseTime(AddOneHour(time)) == Clock(NextHour(ParseTime(time).h), ParseTime(time).m)
  {
    var t := ParseTime(time);
    ParseTimeOfPadded(NextHour(t.h), t.m);
  }

  lemma PaddedLiteral(h: int, m: int)
    requires 0 <= h <= 23 && 0 <= m <= 59
    ensures Pad2(Num(h)) + ":" + Pad2(Num(m)) == [Radix.DigitChar(h / 10), Radix.DigitChar(h % 10), ':', Radix.DigitChar(m / 10), Radix.DigitChar(m % 10)]
  {
    Pad2TwoDigits(h);
    Pad2TwoDigits(m);
  }

  lemma ParseLiteral(s: string, h: int, m: int)
    requires 0 <= h <= 23 && 0 <= m <= 59
    requires s == Pad2(Num(h)) + ":" + Pad2(Num(m))
    ensures ParseTime(s) == Clock(Num(h), Num(m))
  {
    ParseTimeOfPadded(Num(h), Num(m));
  }

  lemma ParsedDefaults()
    ensures ParseTime(StartDefault()) == Clock(Num(18), Num(0))
    ensures ParseTime(EndDefault()) == Clock(Num(23), Num(0))
  {
    PaddedLiteral(18, 0);
    PaddedLiteral(23, 0);
    ParseLiteral(StartDefault(), 18, 0);
    ParseLiteral(EndDefault(), 23, 0);
  }

  lemma TimePartOfClock(h: int, m: int)
    requires 0 <= h <= 23 && 0 <= m <= 59
    ensures TimePart(Clock(Num(h), Num(m))) == ['T', Radix.DigitChar(h / 10), Radix.DigitChar(h % 10), Radix.DigitChar(m / 10), Radix.DigitChar(m % 10), '0', '0']
  {
    Pad2TwoDigits(h);
    Pad2TwoDigits(m);
  }

  /**
   * `toIcsDateTime` on a well-formed date and an `HH:mm` time writes
   * `YYYYMMDDTHHmm00`: the date without dashes, `T`, the time without the
   * colon, and zero seconds.
   */
  lemma IcsDateTimeOfWellFormed(y: nat, mo: nat, d: nat, h: int, m: int)
    requires y >= 10 && mo <= 99 && d <= 99
    requires 0 <= h <= 23 && 0 <= m <= 59
    ensures var year := Radix.ToRadix(y, 10);
      ToIcsDateTime(year + "-" + Pad2(Num(mo)) + "-" + Pad2(Num(d)), Pad2(Num(h)) + ":" + Pad2(Num(m)))
      == (year + Pad2(Num(mo)) + Pad2(Num(d))) + ("T" + Pad2(Num(h)) + Pad2(Num(m)) + "00")
  {
    var year := Radix.ToRadix(y, 10);
    var date := year + "-" + Pad2(Num(mo)) + "-" + Pad2(Num(d));
    var time := Pad2(Num(h)) + ":" + Pad2(Num(m));
    var ymd := year + Pad2(Num(mo)) + Pad2(Num(d));
    DatePartOfPaddedDate(y, mo, d);
    assert DatePart(date) == ymd;
    ParseTimeOfPadded(Num(h), Num(m));
    assert ParseTime(time) == Clock(Num(h), Num(m));
    var hhmm := "T" + Pad2(Num(h)) + Pad2(Num(m)) + "00";
    assert TimePart(Clock(Num(h), Num(m))) == hhmm;
    assert ToIcsDateTime(date, time) == ymd + hhmm;
  }

  lemma TimePartLiterals()
    ensures TimePart(Clock(Num(18), Num(0))) == "T180000"
    ensures TimePart(Clock(Num(23), Num(0))) == "T230000"
    ensures TimePart(Clock(Num(23), Num(59))) == "T235900"
  {
    TimePartOfClock(18, 0);
    TimePartOfClock(23, 0);
    TimePartOfClock(23, 59);
  }

  lemma DefaultTimeParts()
    ensures TimePart(ParseTime(StartDefault())) == "T180000"
    ensures TimePart(ParseTime(EndDefault())) == "T230000"
  {
    ParsedDefaults();
    TimePartLiterals();
  }

  /** Without times the event runs from 18:00 to 23:00 on the given date. */
  lemma DefaultTimes(input: CalendarEventInput)
    requires input.startTime.None? && input.endTime.None?
    ensures FieldsOf(input).dtStart == DatePart(input.date) + "T180000"
    ensures FieldsOf(input).dtEnd == DatePart(input.date) + "T230000"
  {
    DefaultTimeParts();
    assert StartOf(input) == StartDefault();
    assert SafeEndOf(input) == EndDefault() by {
      assert StartDefault() != EndDefault() by {
        assert StartDefault()[0] != EndDefault()[0];
      }
    }
  }

  /** When start and end are the same text, DTEND is one hour (mod 24) after DTSTART, same minutes. */
  lemma SameStartAndEnd(input: CalendarEventInput)
    requires StartOf(input) == EndOf(input)
    ensures var t := ParseTime(StartOf(input));
      && FieldsOf(input).dtStart == DatePart(input.date) + TimePart(t)
      && FieldsOf(input).dtEnd == DatePart(input.date) + TimePart(Clock(NextHour(t.h), t.m))
  {
    AddOneHourParses(EndOf(input));
  }

  /** Different start and end texts are used as given. */
  lemma DistinctStartAndEnd(input: CalendarEventInput)
    requires StartOf(input) != EndOf(input)
    ensures FieldsOf(input).dtEnd == ToIcsDateTime(input.date, EndOf(input))
  {
  }

  lemma ParseOutOfRange()
    ensures ParseTime("25:99") == Clock(Num(23), Num(59))
  {
    var a, b := Pad2(Num(25)), Pad2(Num(99));
    assert "25:99" == a + ":" + b by {
      Pad2TwoDigits(25);
      Pad2TwoDigits(99);
    }
    Pad2Shape(Num(25));
    Pad2Shape(Num(99));
    ParsePad2(Num(25));
    ParsePad2(Num(99));
    SplitTrimmedPair(a, b, ':');
    ParseTimeOfParts("25:99", a, b);
  }

  lemma ClampedTimePart()
    ensures TimePart(ParseTime("25:99")) == "T235900"
  {
    ParseOutOfRange();
    TimePartLiterals();
  }

  /** Out-of-range components are clamped, not rejected: "25:99" becomes 23:59:00. */
  lemma ClampedTime(date: string)
    ensures ToIcsDateTime(date, "25:99") == DatePart(date) + "T235900"
  {
    ClampedTimePart();
  }

  /** The filter-and-join of location and address, case by case. */
  lemma LocationCases(input: CalendarEventInput)
    ensures var location, address := input.location.GetOr(""), input.address.GetOr("");
      LocationOf(input) ==
        if location != "" && address != "" then location + ", " + address
        else if location != "" then location
        else address
  {
    var location, address := input.location.GetOr(""), input.address.GetOr("");
    var parts := [location, address];
    assert parts[1..] == [address];
    assert [address][1..] == [];
    var kept := NonEmptyOnly(parts);
    assert kept == (if location != "" then [location] else []) + NonEmptyOnly([address]);
    assert NonEmptyOnly([address]) == (if address != "" then [address] else []) + NonEmptyOnly([]);
    if location != "" && address != "" {
      assert kept == [location, address];
      assert kept[1..] == [address];
      assert Join(kept, ", ") == location + ", " + Join([address], ", ");
    } else if location != "" {
      assert kept == [location];
    } else if address != "" {
      assert kept == [address];
    } else {
      assert kept == [];
    }
  }

  /** The escaped title, or "Event" when it is empty. */
  lemma SummaryText(input: CalendarEventInput)
    ensures FieldsOf(input).summary == if input.title == "" then "Event" else EscapeIcsText(input.title)
  {
    EscapePlainUnchanged("Event");
  }

  /** Escaping keeps empty text empty and non-empty text non-empty. */
  lemma EscapeEmpty(s: string)
    ensures EscapeIcsText(s) == "" <==> s == ""
  {
    EscapeLength(s);
  }

  /** The location is written iff location or address is non-empty, and the description iff it is non-empty. */
  lemma OptionalFields(input: CalendarEventInput)
    ensures FieldsOf(input).location != "" <==> (input.location.GetOr("") != "" || input.address.GetOr("") != "")
    ensures FieldsOf(input).description != "" <==> input.description.GetOr("") != ""
  {
    LocationCases(input);
    EscapeEmpty(LocationOf(input));
    EscapeEmpty(DescriptionOf(input));
  }

  /** The first three event lines carry the two date-times and the summary. */
  lemma EventHeadLines(f: EventFields)
    ensures Layout(f)[4] == ContentLine(DTSTART, f.dtStart)
    ensures Layout(f)[5] == ContentLine(DTEND, f.dtEnd)
    ensures Layout(f)[6] == ContentLine(SUMMARY, f.summary)
  {
    var lines, body := Layout(f), EventBlock(f);
    assert lines[4..|lines| - 2] == body;
    assert lines[4] == body[0] && lines[5] == body[1] && lines[6] == body[2];
    assert body[..3][0] == body[0] && body[..3][1] == body[1] && body[..3][2] == body[2];
  }

  /** Outside the event block no line carries an event property. */
  lemma EventPropertiesInBlock(f: EventFields, i: int)
    requires 0 <= i < |Layout(f)| && IsEventProperty(Layout(f)[i].name)
    ensures 4 <= i < |Layout(f)| - 2 && Layout(f)[i] == EventBlock(f)[i - 4]
  {
    var lines := Layout(f);
    assert lines[i] == lines[4..|lines| - 2][i - 4];
  }

  /** A LOCATION line appears iff the location value is non-empty, and it carries that value. */
  lemma LocationLine(f: EventFields)
    ensures var lines := Layout(f);
      && ((exists i | 0 <= i < |lines| :: lines[i].name == LOCATION) <==> f.location != "")
      && (forall i | 0 <= i < |lines| && lines[i].name == LOCATION :: lines[i].value == f.location)
  {
    var lines, body := Layout(f), EventBlock(f);
    forall i | 0 <= i < |lines| && lines[i].name == LOCATION
      ensures 4 <= i < |lines| - 2 && lines[i] == body[i - 4]
    {
      EventPropertiesInBlock(f, i);
    }
    if f.location != "" {
      var j :| 0 <= j < |body| && body[j].name == LOCATION;
      assert lines[j + 4] == lines[4..|lines| - 2][j] == body[j];
    }
  }

  /** A DESCRIPTION line appears iff the description value is non-empty, and it carries that value. */
  lemma DescriptionLine(f: EventFields)
    ensures var lines := Layout(f);
      && ((exists i | 0 <= i < |lines| :: lines[i].name == DESCRIPTION) <==> f.description != "")
      && (forall i | 0 <= i < |lines| && lines[i].name == DESCRIPTION :: lines[i].value == f.description)
  {
    var lines, body := Layout(f), EventBlock(f);
    forall i | 0 <= i < |lines| && lines[i].name == DESCRIPTION
      ensures 4 <= i < |lines| - 2 && lines[i] == body[i - 4]
    {
      EventPropertiesInBlock(f, i);
    }
    if f.description != "" {
      var j :| 0 <= j < |body| && body[j].name == DESCRIPTION;
      assert lines[j + 4] == lines[4..|lines| - 2][j] == body[j];
    }
  }

  lemma RenderedHeader()
    ensures RenderAll(Header)[0] == "BEGIN:VCALENDAR" && RenderAll(Header)[1] == "VERSION:2.0"
    ensures RenderAll(Header)[2] == "PRODID:-//Gatherly//EN" && RenderAll(Header)[3] == "BEGIN:VEVENT"
  {
    RenderedCalendarLines();
    assert Render(Header[2]) == "PRODID:-//Gatherly//EN";
    assert Render(Header[3]) == "BEGIN:VEVENT";
  }

  lemma RenderedCalendarLines()
    ensures Render(Header[0]) == "BEGIN:VCALENDAR" && Render(Header[1]) == "VERSION:2.0"
  {
  }

  lemma RenderedFooter()
    ensures RenderAll(Footer) == ["END:VEVENT", "END:VCALENDAR"]
  {
    assert Render(Footer[0]) == "END:VEVENT";
    assert Render(Footer[1]) == "END:VCALENDAR";
  }

  /** The text before the event block: the four envelope lines, each followed by CRLF. */
  function Opening(): string {
    Join(RenderAll(Header), "\r\n") + "\r\n"
  }

  /** The text after the event block: `END:VEVENT` and `END:VCALENDAR`, each preceded by CRLF. */
  function Closing(): string {
    "\r\n" + Join(RenderAll(Footer), "\r\n")
  }

  lemma {:induction false} JoinAroundMiddle(head: seq<string>, mid: seq<string>, foot: seq<string>, sep: string)
    requires |head| >= 1 && |mid| >= 1 && |foot| >= 1
    ensures Join(head + mid + foot, sep) == (Join(head, sep) + sep) + Join(mid, sep) + (sep + Join(foot, sep))
  {
    assert head + mid + foot == head + (mid + foot);
    JoinConcat(head, mid + foot, sep);
    JoinConcat(mid, foot, sep);
  }

  lemma RenderAllSlices(lines: seq<ContentLine>, i: int, j: int)
    requires 0 <= i <= j <= |lines|
    ensures RenderAll(lines)[i..j] == RenderAll(lines[i..j])
  {
  }

  lemma JoinRenderedThreeWays(lines: seq<ContentLine>, sep: string)
    requires |lines| >= 7
    ensures var n := |lines|;
      Join(RenderAll(lines), sep)
        == (Join(RenderAll(lines[..4]), sep) + sep) + Join(RenderAll(lines[4..n - 2]), sep) + (sep + Join(RenderAll(lines[n - 2..]), sep))
  {
    var texts, n := RenderAll(lines), |lines|;
    RenderAllSlices(lines, 0, 4);
    RenderAllSlices(lines, 4, n - 2);
    RenderAllSlices(lines, n - 2, n);
    assert lines[0..4] == lines[..4] && lines[n - 2..n] == lines[n - 2..];
    assert texts == texts[0..4] + texts[4..n - 2] + texts[n - 2..n];
    JoinAroundMiddle(texts[0..4], texts[4..n - 2], texts[n - 2..n], sep);
  }

  /** The CRLF-joined text is the envelope text around the CRLF-joined event block, whatever the field values. */
  lemma GeneratedText(f: EventFields)
    ensures IcsText(f) == Opening() + Join(RenderAll(EventBlock(f)), "\r\n") + Closing()
  {
    JoinRenderedThreeWays(Layout(f), "\r\n");
  }
}
