/**
 * The invitation-content schema of lib/schemas/invitationContent.ts as a
 * validate-and-default function over parsed JSON. Each field is checked on its
 * own into a value and a list of issues, in the schema's key order; the whole
 * object is accepted iff no field reports an issue. Unknown keys are dropped.
 */
module InvitationContent {
  import opened Wrappers
  import opened Js

  // ------------------------------------------------------------------- data

  datatype RsvpMode = GuestList | Open

  datatype AgendaItem = AgendaItem(id: Option<string>, time: string, title: string)

  datatype Wish = Wish(id: Option<string>, name: string, message: string)

  datatype Content = Content(
    eventType: string,
    invitationTitle: string,
    hostNames: string,
    eventDate: string,
    shortGreeting: string,
    includeHijriDate: bool,
    eventAgenda: seq<AgendaItem>,
    venueName: string,
    address: string,
    googleMapsLink: string,
    wazeLink: string,
    galleryPhotos: seq<string>,
    enableWishes: bool,
    featuredWishes: seq<Wish>,
    rsvpMode: RsvpMode,
    rsvpDeadline: string,
    rsvpMessage: string,
    maxGuests: Option<int>,
    maxGuestsPerInvitee: int,
    language: string,
    packageType: string,
    openingStyle: string,
    animatedEffect: string,
    backgroundMusic: bool,
    backgroundMusicYoutubeUrl: string)

  /** Where an issue was found: object keys and array indices from the root. */
  datatype PathSegment = Key(key: string) | Index(index: nat)

  datatype IssueCode =
    | InvalidType(expected: string)
    | TooSmall(minimum: int)
    | TooBig(maximum: int)
    | InvalidEnumValue

  datatype Issue = Issue(path: seq<PathSegment>, code: IssueCode)

  /**
   * What happens to a `.default("")` that is itself constrained: the default is
   * validated like a supplied value (DefaultsValidated), or returned as it is
   * (DefaultsShortCircuit). Only `invitationTitle` is affected; the library
   * version that decides it is not part of this model.
   */
  datatype DefaultPolicy = DefaultsValidated | DefaultsShortCircuit

  /** A field's parsed value together with the issues found; the value is meaningful only without issues. */
  datatype Checked<T> = Checked(value: T, issues: seq<Issue>)

  /** Every issue's path starts at `prefix`. */
  predicate Under(issues: seq<Issue>, prefix: seq<PathSegment>) {
    forall i | 0 <= i < |issues| :: |prefix| <= |issues[i].path| && issues[i].path[..|prefix|] == prefix
  }

  lemma UnderParent(issues: seq<Issue>, path: seq<PathSegment>, segment: PathSegment)
    requires Under(issues, path + [segment])
    ensures Under(issues, path)
  {
    forall i | 0 <= i < |issues| ensures issues[i].path[..|path|] == path {
      var p := issues[i].path;
      assert p[..|path| + 1] == path + [segment];
      assert p[..|path|] == p[..|path| + 1][..|path|];
    }
  }

  lemma UnderAppend(a: seq<Issue>, b: seq<Issue>, path: seq<PathSegment>)
    requires Under(a, path) && Under(b, path)
    ensures Under(a + b, path)
  {
    forall i | 0 <= i < |a + b| ensures |path| <= |(a + b)[i].path| && (a + b)[i].path[..|path|] == path {
      if i < |a| { assert (a + b)[i] == a[i]; } else { assert (a + b)[i] == b[i - |a|]; }
    }
  }

  // ----------------------------------------------------------- leaf fields

  /** A key an optional string field accepts: absent, or a string. */
  predicate StringOrAbsent(fields: map<string, Json>, key: string) {
    key !in fields || fields[key].JStr?
  }

  predicate BoolOrAbsent(fields: map<string, Json>, key: string) {
    key !in fields || fields[key].JBool?
  }

  /** A JSON value that `z.number().int().min(0)` accepts. */
  predicate IsCount(j: Json) {
    j.JNum? && j.n == j.n.Floor as real && j.n >= 0.0
  }

  predicate CountOrAbsent(fields: map<string, Json>, key: string) {
    key !in fields || IsCount(fields[key])
  }

  predicate RsvpModeOk(fields: map<string, Json>, key: string) {
    key !in fields || fields[key] == JStr("guest-list") || fields[key] == JStr("open")
  }

  function BoolAt(fields: map<string, Json>, key: string, default: bool): bool
    requires BoolOrAbsent(fields, key)
  {
    if key in fields then fields[key].b else default
  }

  function OptionalCountAt(fields: map<string, Json>, key: string): Option<int>
    requires CountOrAbsent(fields, key)
  {
    if key in fields then Some(fields[key].n.Floor) else None
  }

  function RsvpModeAt(fields: map<string, Json>, key: string): RsvpMode
    requires RsvpModeOk(fields, key)
  {
    if key in fields && fields[key] == JStr("guest-list") then GuestList else Open
  }

  /** `z.string().optional().default(d)` (and `z.string().default(d)`) at `key`. */
  function StringField(fields: map<string, Json>, key: string, default: string): (c: Checked<string>)
    ensures c.issues == [] <==> StringOrAbsent(fields, key)
    ensures c.issues == [] ==> c.value == StringAt(fields, key, default)
    ensures Under(c.issues, [Key(key)])
  {
    if key !in fields then Checked(default, [])
    else match fields[key]
      case JStr(s) => Checked(s, [])
      case _ => Checked(default, [Issue([Key(key)], InvalidType("string"))])
  }

  /** `z.string().optional()` at `key`: absent stays absent. */
  function OptionalStringField(fields: map<string, Json>, key: string): (c: Checked<Option<string>>)
    ensures c.issues == [] <==> StringOrAbsent(fields, key)
    ensures c.issues == [] ==> c.value == OptionalStringAt(fields, key)
    ensures Under(c.issues, [Key(key)])
  {
    if key !in fields then Checked(None, [])
    else match fields[key]
      case JStr(s) => Checked(Some(s), [])
      case _ => Checked(None, [Issue([Key(key)], InvalidType("string"))])
  }

  /** `z.boolean().default(d)` (with or without `.optional()`) at `key`. */
  function BoolField(fields: map<string, Json>, key: string, default: bool): (c: Checked<bool>)
    ensures c.issues == [] <==> BoolOrAbsent(fields, key)
    ensures c.issues == [] ==> c.value == BoolAt(fields, key, default)
    ensures Under(c.issues, [Key(key)])
  {
    if key !in fields then Checked(default, [])
    else match fields[key]
      case JBool(b) => Checked(b, [])
      case _ => Checked(default, [Issue([Key(key)], InvalidType("boolean"))])
  }

  /** The issues of `z.number().int().min(0)` on a number: both checks run. */
  function CountIssues(n: real, path: seq<PathSegment>): (issues: seq<Issue>)
    ensures issues == [] <==> (n == n.Floor as real && n >= 0.0)
    ensures Under(issues, path)
  {
    (if n != n.Floor as real then [Issue(path, InvalidType("integer"))] else [])
    + (if n < 0.0 then [Issue(path, TooSmall(0))] else [])
  }

  /** `z.number().int().min(0).optional()` at `key`: absent stays absent. */
  function OptionalCountField(fields: map<string, Json>, key: string): (c: Checked<Option<int>>)
    ensures c.issues == [] <==> CountOrAbsent(fields, key)
    ensures c.issues == [] ==> c.value == OptionalCountAt(fields, key)
    ensures Under(c.issues, [Key(key)])
  {
    if key !in fields then Checked(None, [])
    else match fields[key]
      case JNum(n) => Checked(Some(n.Floor), CountIssues(n, [Key(key)]))
      case _ => Checked(None, [Issue([Key(key)], InvalidType("number"))])
  }

  /** `z.number().int().min(0).optional().default(d)` at `key`. */
  function CountField(fields: map<string, Json>, key: string, default: int): (c: Checked<int>)
    ensures c.issues == [] <==> CountOrAbsent(fields, key)
    ensures c.issues == [] ==> c.value == OptionalCountAt(fields, key).GetOr(default)
    ensures Under(c.issues, [Key(key)])
  {
    var o := OptionalCountField(fields, key);
    Checked(o.value.GetOr(default), o.issues)
  }

  /** `z.enum(["guest-list", "open"]).default("open")` at `key`. */
  function RsvpModeField(fields: map<string, Json>, key: string): (c: Checked<RsvpMode>)
    ensures c.issues == [] <==> RsvpModeOk(fields, key)
    ensures c.issues == [] ==> c.value == RsvpModeAt(fields, key)
    ensures Under(c.issues, [Key(key)])
  {
    if key !in fields then Checked(Open, [])
    else match fields[key]
      case JStr(s) =>
        if s == "guest-list" then Checked(GuestList, [])
        else if s == "open" then Checked(Open, [])
        else Checked(Open, [Issue([Key(key)], InvalidEnumValue)])
      case _ => Checked(Open, [Issue([Key(key)], InvalidType("'guest-list' | 'open'"))])
  }

  /** `z.string().min(3).default("")` for `invitationTitle`; an absent title depends on the default policy. */
  function TitleField(fields: map<string, Json>, key: string, policy: DefaultPolicy): (c: Checked<string>)
    ensures c.issues == [] <==> TitleOk(fields, key, policy)
    ensures c.issues == [] ==> c.value == StringAt(fields, key, "")
    ensures Under(c.issues, [Key(key)])
  {
    if key !in fields then
      (if policy == DefaultsValidated then Checked("", [Issue([Key(key)], TooSmall(3))]) else Checked("", []))
    else match fields[key]
      case JStr(s) => Checked(s, if |s| < 3 then [Issue([Key(key)], TooSmall(3))] else [])
      case _ => Checked("", [Issue([Key(key)], InvalidType("string"))])
  }

  predicate TitleOk(fields: map<string, Json>, key: string, policy: DefaultPolicy) {
    if key in fields then fields[key].JStr? && |fields[key].s| >= 3 else policy == DefaultsShortCircuit
  }

  // ---------------------------------------------------------------- arrays

  /** `z.array(z.string())` elements: one issue per non-string element, at its index. */
  function StringItems(items: seq<Json>, path: seq<PathSegment>): (c: Checked<seq<string>>)
    ensures c.issues == [] <==> (forall i | 0 <= i < |items| :: items[i].JStr?)
    ensures c.issues == [] ==> |c.value| == |items| && forall i | 0 <= i < |items| :: c.value[i] == items[i].s
    ensures Under(c.issues, path)
  {
    if |items| == 0 then Checked([], [])
    else
      var rest := StringItems(items[..|items| - 1], path);
      var last := items[|items| - 1];
      var here := if last.JStr? then [] else [Issue(path + [Index(|items| - 1)], InvalidType("string"))];
      assert Under(here, path) by {
        if !last.JStr? { assert (path + [Index(|items| - 1)])[..|path|] == path; }
      }
      Checked(rest.value + [if last.JStr? then last.s else ""], rest.issues + here)
  }

  /** What the gallery field accepts: absent, or an array of at most 20 strings. */
  predicate GalleryOk(fields: map<string, Json>, key: string) {
    key !in fields ||
    (fields[key].JArr? && |fields[key].items| <= 20 && forall i | 0 <= i < |fields[key].items| :: fields[key].items[i].JStr?)
  }

  /** The accepted gallery: every photo in input order, none dropped. */
  function GalleryAt(fields: map<string, Json>, key: string): seq<string>
    requires GalleryOk(fields, key)
  {
    if key !in fields then []
    else
      var items := fields[key].items;
      seq(|items|, i requires 0 <= i < |items| => items[i].s)
  }

  /** `z.array(z.string()).max(20).optional().default([])` for `galleryPhotos`: never truncates. */
  function GalleryField(fields: map<string, Json>, key: string): (c: Checked<seq<string>>)
    ensures c.issues == [] <==> GalleryOk(fields, key)
    ensures c.issues == [] ==> c.value == GalleryAt(fields, key)
    ensures Under(c.issues, [Key(key)])
  {
    if key !in fields then Checked([], [])
    else match fields[key]
      case JArr(items) =>
        var elems := StringItems(items, [Key(key)]);
        var tooBig := if |items| > 20 then [Issue([Key(key)], TooBig(20))] else [];
        Checked(elems.value, tooBig + elems.issues)
      case _ => Checked([], [Issue([Key(key)], InvalidType("array"))])
  }

  /** The string at `key`, or `default` when the key is absent. */
  function StringAt(fields: map<string, Json>, key: string, default: string): string
    requires StringOrAbsent(fields, key)
  {
    if key in fields then fields[key].s else default
  }

  function OptionalStringAt(fields: map<string, Json>, key: string): Option<string>
    requires StringOrAbsent(fields, key)
  {
    if key in fields then Some(fields[key].s) else None
  }

  /** An element `eventAgendaItemSchema` accepts. */
  predicate AgendaItemOk(j: Json) {
    j.JObj? && StringOrAbsent(j.fields, "id") && StringOrAbsent(j.fields, "time") && StringOrAbsent(j.fields, "title")
  }

  /** An element `wishSchema` accepts. */
  predicate WishOk(j: Json) {
    j.JObj? && StringOrAbsent(j.fields, "id") && StringOrAbsent(j.fields, "name") && StringOrAbsent(j.fields, "message")
  }

  /** The agenda item an accepted element stands for. */
  function AgendaItemValue(j: Json): AgendaItem
    requires AgendaItemOk(j)
  {
    AgendaItem(OptionalStringAt(j.fields, "id"), StringAt(j.fields, "time", ""), StringAt(j.fields, "title", ""))
  }

  /** The wish an accepted element stands for. */
  function WishValue(j: Json): Wish
    requires WishOk(j)
  {
    Wish(OptionalStringAt(j.fields, "id"), StringAt(j.fields, "name", ""), StringAt(j.fields, "message", ""))
  }

  /** The issues of an object schema whose listed keys are all optional strings, in key order. */
  function StringKeyIssues(fields: map<string, Json>, keys: seq<string>, path: seq<PathSegment>): (r: seq<Issue>)
    ensures r == [] <==> forall k | k in keys :: StringOrAbsent(fields, k)
    ensures Under(r, path)
  {
    if |keys| == 0 then []
    else
      var here := if StringOrAbsent(fields, keys[0]) then [] else [Issue(path + [Key(keys[0])], InvalidType("string"))];
      assert Under(here, path) by {
        if here != [] { assert (path + [Key(keys[0])])[..|path|] == path; }
      }
      var rest := StringKeyIssues(fields, keys[1..], path);
      UnderAppend(here, rest, path);
      assert forall k | k in keys :: k == keys[0] || k in keys[1..];
      here + rest
  }

  /** `eventAgendaItemSchema`: optional string id, time and title defaulting to "". */
  function AgendaItemOf(j: Json, path: seq<PathSegment>): (c: Checked<AgendaItem>)
    ensures c.issues == [] <==> AgendaItemOk(j)
    ensures c.issues == [] ==> c.value == AgendaItemValue(j)
    ensures Under(c.issues, path)
  {
    if !j.JObj? then Checked(AgendaItem(None, "", ""), [Issue(path, InvalidType("object"))])
    else
      var f := j.fields;
      Checked(AgendaItem(OptionalStringField(f, "id").value, StringField(f, "time", "").value, StringField(f, "title", "").value),
        StringKeyIssues(f, ["id", "time", "title"], path))
  }

  /** `wishSchema`: optional string id, name and message defaulting to "". */
  function WishOf(j: Json, path: seq<PathSegment>): (c: Checked<Wish>)
    ensures c.issues == [] <==> WishOk(j)
    ensures c.issues == [] ==> c.value == WishValue(j)
    ensures Under(c.issues, path)
  {
    if !j.JObj? then Checked(Wish(None, "", ""), [Issue(path, InvalidType("object"))])
    else
      var f := j.fields;
      Checked(Wish(OptionalStringField(f, "id").value, StringField(f, "name", "").value, StringField(f, "message", "").value),
        StringKeyIssues(f, ["id", "name", "message"], path))
  }

  /** The issues of all elements, in element order. */
  function Concat(parts: seq<seq<Issue>>): (r: seq<Issue>)
    ensures r == [] <==> forall i | 0 <= i < |parts| :: parts[i] == []
    ensures forall path :: (forall i | 0 <= i < |parts| :: Under(parts[i], path)) ==> Under(r, path)
  {
    if |parts| == 0 then []
    else
      var r := parts[0] + Concat(parts[1..]);
      assert forall path :: (forall i | 0 <= i < |parts| :: Under(parts[i], path)) ==> Under(r, path) by {
        forall path | forall i | 0 <= i < |parts| :: Under(parts[i], path) ensures Under(r, path) {
          assert forall i | 0 <= i < |parts[1..]| :: parts[1..][i] == parts[i + 1];
          UnderAppend(parts[0], Concat(parts[1..]), path);
        }
      }
      assert r == [] ==> forall i | 0 <= i < |parts| :: parts[i] == [] by {
        if r == [] {
          forall i | 0 <= i < |parts| ensures parts[i] == [] {
            if i > 0 { assert parts[i] == parts[1..][i - 1]; }
          }
        }
      }
      r
  }

  /** Issues found under each element's own index lie under the array's path. */
  lemma ElementsUnder(parts: seq<seq<Issue>>, path: seq<PathSegment>)
    requires forall i | 0 <= i < |parts| :: Under(parts[i], path + [Index(i)])
    ensures forall i | 0 <= i < |parts| :: Under(parts[i], path)
  {
    forall i | 0 <= i < |parts| ensures Under(parts[i], path) {
      UnderParent(parts[i], path, Index(i));
    }
  }

  function AgendaItems(items: seq<Json>, path: seq<PathSegment>): (c: Checked<seq<AgendaItem>>)
    ensures c.issues == [] <==> (forall i | 0 <= i < |items| :: AgendaItemOk(items[i]))
    ensures |c.value| == |items|
    ensures c.issues == [] ==> forall i | 0 <= i < |items| :: c.value[i] == AgendaItemValue(items[i])
    ensures Under(c.issues, path)
  {
    var checks := seq(|items|, i requires 0 <= i < |items| => AgendaItemOf(items[i], path + [Index(i)]));
    var parts := seq(|items|, i requires 0 <= i < |items| => checks[i].issues);
    ElementsUnder(parts, path);
    var values := seq(|items|, i requires 0 <= i < |items| => checks[i].value);
    var issues := Concat(parts);
    assert forall i | 0 <= i < |items| :: parts[i] == [] <==> AgendaItemOk(items[i]) by {
      forall i | 0 <= i < |items| ensures parts[i] == [] <==> AgendaItemOk(items[i]) {
        assert parts[i] == checks[i].issues;
      }
    }
    assert issues == [] ==> forall i | 0 <= i < |items| :: values[i] == AgendaItemValue(items[i]) by {
      if issues == [] {
        forall i | 0 <= i < |items| ensures values[i] == AgendaItemValue(items[i]) {
          assert parts[i] == checks[i].issues == [];
        }
      }
    }
    Checked(values, issues)
  }

  function WishItems(items: seq<Json>, path: seq<PathSegment>): (c: Checked<seq<Wish>>)
    ensures c.issues == [] <==> (forall i | 0 <= i < |items| :: WishOk(items[i]))
    ensures |c.value| == |items|
    ensures c.issues == [] ==> forall i | 0 <= i < |items| :: c.value[i] == WishValue(items[i])
    ensures Under(c.issues, path)
  {
    var checks := seq(|items|, i requires 0 <= i < |items| => WishOf(items[i], path + [Index(i)]));
    var parts := seq(|items|, i requires 0 <= i < |items| => checks[i].issues);
    ElementsUnder(parts, path);
    var values := seq(|items|, i requires 0 <= i < |items| => checks[i].value);
    var issues := Concat(parts);
    assert forall i | 0 <= i < |items| :: parts[i] == [] <==> WishOk(items[i]) by {
      forall i | 0 <= i < |items| ensures parts[i] == [] <==> WishOk(items[i]) {
        assert parts[i] == checks[i].issues;
      }
    }
    assert issues == [] ==> forall i | 0 <= i < |items| :: values[i] == WishValue(items[i]) by {
      if issues == [] {
        forall i | 0 <= i < |items| ensures values[i] == WishValue(items[i]) {
          assert parts[i] == checks[i].issues == [];
        }
      }
    }
    Checked(values, issues)
  }

  predicate AgendaOk(fields: map<string, Json>, key: string) {
    key !in fields || (fields[key].JArr? && forall i | 0 <= i < |fields[key].items| :: AgendaItemOk(fields[key].items[i]))
  }

  function AgendaAt(fields: map<string, Json>, key: string): seq<AgendaItem>
    requires AgendaOk(fields, key)
  {
    if key !in fields then []
    else
      var items := fields[key].items;
      seq(|items|, i requires 0 <= i < |items| => AgendaItemValue(items[i]))
  }

  predicate WishesOk(fields: map<string, Json>, key: string) {
    key !in fields || (fields[key].JArr? && forall i | 0 <= i < |fields[key].items| :: WishOk(fields[key].items[i]))
  }

  function WishesAt(fields: map<string, Json>, key: string): seq<Wish>
    requires WishesOk(fields, key)
  {
    if key !in fields then []
    else
      var items := fields[key].items;
      seq(|items|, i requires 0 <= i < |items| => WishValue(items[i]))
  }

  /** `z.array(eventAgendaItemSchema).optional().default([])`. */
  function AgendaField(fields: map<string, Json>, key: string): (c: Checked<seq<AgendaItem>>)
    ensures c.issues == [] <==> AgendaOk(fields, key)
    ensures c.issues == [] ==> c.value == AgendaAt(fields, key)
    ensures Under(c.issues, [Key(key)])
  {
    if key !in fields then Checked([], [])
    else match fields[key]
      case JArr(items) => AgendaItems(items, [Key(key)])
      case _ => Checked([], [Issue([Key(key)], InvalidType("array"))])
  }

  /** `z.array(wishSchema).optional().default([])`. */
  function WishesField(fields: map<string, Json>, key: string): (c: Checked<seq<Wish>>)
    ensures c.issues == [] <==> WishesOk(fields, key)
    ensures c.issues == [] ==> c.value == WishesAt(fields, key)
    ensures Under(c.issues, [Key(key)])
  {
    if key !in fields then Checked([], [])
    else match fields[key]
      case JArr(items) => WishItems(items, [Key(key)])
      case _ => Checked([], [Issue([Key(key)], InvalidType("array"))])
  }

  // ------------------------------------------------------------ the object

  /** Every field of the schema accepts what the object holds under its key. */
  predicate FieldsOk(f: map<string, Json>, policy: DefaultPolicy) {
    && StringOrAbsent(f, "eventType")
    && TitleOk(f, "invitationTitle", policy)
    && StringOrAbsent(f, "hostNames")
    && StringOrAbsent(f, "eventDate")
    && StringOrAbsent(f, "shortGreeting")
    && BoolOrAbsent(f, "includeHijriDate")
    && AgendaOk(f, "eventAgenda")
    && StringOrAbsent(f, "venueName")
    && StringOrAbsent(f, "address")
    && StringOrAbsent(f, "googleMapsLink")
    && StringOrAbsent(f, "wazeLink")
    && GalleryOk(f, "galleryPhotos")
    && BoolOrAbsent(f, "enableWishes")
    && WishesOk(f, "featuredWishes")
    && RsvpModeOk(f, "rsvpMode")
    && StringOrAbsent(f, "rsvpDeadline")
    && StringOrAbsent(f, "rsvpMessage")
    && CountOrAbsent(f, "maxGuests")
    && CountOrAbsent(f, "maxGuestsPerInvitee")
    && StringOrAbsent(f, "language")
    && StringOrAbsent(f, "packageType")
    && StringOrAbsent(f, "openingStyle")
    && StringOrAbsent(f, "animatedEffect")
    && BoolOrAbsent(f, "backgroundMusic")
    && StringOrAbsent(f, "backgroundMusicYoutubeUrl")
  }

  /** The content an accepted object stands for: each supplied value, else the field's default. */
  function ContentAt(f: map<string, Json>, policy: DefaultPolicy): Content
    requires FieldsOk(f, policy)
  {
    Content(
      eventType := StringAt(f, "eventType", "Wedding Ceremony"),
      invitationTitle := StringAt(f, "invitationTitle", ""),
      hostNames := StringAt(f, "hostNames", ""),
      eventDate := StringAt(f, "eventDate", ""),
      shortGreeting := StringAt(f, "shortGreeting", ""),
      includeHijriDate := BoolAt(f, "includeHijriDate", false),
      eventAgenda := AgendaAt(f, "eventAgenda"),
      venueName := StringAt(f, "venueName", ""),
      address := StringAt(f, "address", ""),
      googleMapsLink := StringAt(f, "googleMapsLink", ""),
      wazeLink := StringAt(f, "wazeLink", ""),
      galleryPhotos := GalleryAt(f, "galleryPhotos"),
      enableWishes := BoolAt(f, "enableWishes", true),
      featuredWishes := WishesAt(f, "featuredWishes"),
      rsvpMode := RsvpModeAt(f, "rsvpMode"),
      rsvpDeadline := StringAt(f, "rsvpDeadline", ""),
      rsvpMessage := StringAt(f, "rsvpMessage", ""),
      maxGuests := OptionalCountAt(f, "maxGuests"),
      maxGuestsPerInvitee := OptionalCountAt(f, "maxGuestsPerInvitee").GetOr(0),
      language := StringAt(f, "language", "english"),
      packageType := StringAt(f, "packageType", "gold"),
      openingStyle := StringAt(f, "openingStyle", "Circle Gate"),
      animatedEffect := StringAt(f, "animatedEffect", "none"),
      backgroundMusic := BoolAt(f, "backgroundMusic", false),
      backgroundMusicYoutubeUrl := StringAt(f, "backgroundMusicYoutubeUrl", ""))
  }

  /** The issues of the fields from `eventType` to `wazeLink`, in schema order. */
  function EarlyIssues(f: map<string, Json>, policy: DefaultPolicy): (r: seq<Issue>)
    ensures r == [] <==>
      && StringOrAbsent(f, "eventType") && TitleOk(f, "invitationTitle", policy)
      && StringOrAbsent(f, "hostNames") && StringOrAbsent(f, "eventDate") && StringOrAbsent(f, "shortGreeting")
      && BoolOrAbsent(f, "includeHijriDate") && AgendaOk(f, "eventAgenda") && StringOrAbsent(f, "venueName")
      && StringOrAbsent(f, "address") && StringOrAbsent(f, "googleMapsLink") && StringOrAbsent(f, "wazeLink")
  {
    StringField(f, "eventType", "Wedding Ceremony").issues + TitleField(f, "invitationTitle", policy).issues
    + StringField(f, "hostNames", "").issues + StringField(f, "eventDate", "").issues
    + StringField(f, "shortGreeting", "").issues + BoolField(f, "includeHijriDate", false).issues
    + AgendaField(f, "eventAgenda").issues + StringField(f, "venueName", "").issues
    + StringField(f, "address", "").issues + StringField(f, "googleMapsLink", "").issues
    + StringField(f, "wazeLink", "").issues
  }

  /** The issues of the fields from `galleryPhotos` to `backgroundMusicYoutubeUrl`, in schema order. */
  function LateIssues(f: map<string, Json>): (r: seq<Issue>)
    ensures r == [] <==>
      && GalleryOk(f, "galleryPhotos") && BoolOrAbsent(f, "enableWishes") && WishesOk(f, "featuredWishes")
      && RsvpModeOk(f, "rsvpMode") && StringOrAbsent(f, "rsvpDeadline") && StringOrAbsent(f, "rsvpMessage")
      && CountOrAbsent(f, "maxGuests") && CountOrAbsent(f, "maxGuestsPerInvitee") && StringOrAbsent(f, "language")
      && StringOrAbsent(f, "packageType") && StringOrAbsent(f, "openingStyle") && StringOrAbsent(f, "animatedEffect")
      && BoolOrAbsent(f, "backgroundMusic") && StringOrAbsent(f, "backgroundMusicYoutubeUrl")
  {
    GalleryField(f, "galleryPhotos").issues + BoolField(f, "enableWishes", true).issues
    + WishesField(f, "featuredWishes").issues + RsvpModeField(f, "rsvpMode").issues
    + StringField(f, "rsvpDeadline", "").issues + StringField(f, "rsvpMessage", "").issues
    + OptionalCountField(f, "maxGuests").issues + CountField(f, "maxGuestsPerInvitee", 0).issues
    + StringField(f, "language", "english").issues + StringField(f, "packageType", "gold").issues
    + StringField(f, "openingStyle", "Circle Gate").issues + StringField(f, "animatedEffect", "none").issues
    + BoolField(f, "backgroundMusic", false).issues + StringField(f, "backgroundMusicYoutubeUrl", "").issues
  }

  /**
   * `invitationContentSchema.safeParse`: a JSON object is accepted iff every
   * field accepts its value; otherwise all fields' issues are reported in the
   * schema's key order. A non-object yields a single root issue.
   */
  function Validate(input: Json, policy: DefaultPolicy): (r: Result<Content, seq<Issue>>)
    ensures r.Success? <==> input.JObj? && FieldsOk(input.fields, policy)
    ensures r.Success? ==> r.value == ContentAt(input.fields, policy)
    ensures r.Failure? ==> r.error != []
    ensures !input.JObj? ==> r == Failure([Issue([], InvalidType("object"))])
    ensures input.JObj? && r.Failure? ==> r.error == EarlyIssues(input.fields, policy) + LateIssues(input.fields)
  {
    if !input.JObj? then Failure([Issue([], InvalidType("object"))])
    else
      var f := input.fields;
      var eventType := StringField(f, "eventType", "Wedding Ceremony");
      var invitationTitle := TitleField(f, "invitationTitle", policy);
      var hostNames := StringField(f, "hostNames", "");
      var eventDate := StringField(f, "eventDate", "");
      var shortGreeting := StringField(f, "shortGreeting", "");
      var includeHijriDate := BoolField(f, "includeHijriDate", false);
      var eventAgenda := AgendaField(f, "eventAgenda");
      var venueName := StringField(f, "venueName", "");
      var address := StringField(f, "address", "");
      var googleMapsLink := StringField(f, "googleMapsLink", "");
      var wazeLink := StringField(f, "wazeLink", "");
      var galleryPhotos := GalleryField(f, "galleryPhotos");
      var enableWishes := BoolField(f, "enableWishes", true);
      var featuredWishes := WishesField(f, "featuredWishes");
      var rsvpMode := RsvpModeField(f, "rsvpMode");
      var rsvpDeadline := StringField(f, "rsvpDeadline", "");
      var rsvpMessage := StringField(f, "rsvpMessage", "");
      var maxGuests := OptionalCountField(f, "maxGuests");
      var maxGuestsPerInvitee := CountField(f, "maxGuestsPerInvitee", 0);
      var language := StringField(f, "language", "english");
      var packageType := StringField(f, "packageType", "gold");
      var openingStyle := StringField(f, "openingStyle", "Circle Gate");
      var animatedEffect := StringField(f, "animatedEffect", "none");
      var backgroundMusic := BoolField(f, "backgroundMusic", false);
      var backgroundMusicYoutubeUrl := StringField(f, "backgroundMusicYoutubeUrl", "");
      var issues := EarlyIssues(f, policy) + LateIssues(f);
      if issues != [] then Failure(issues)
      else
        Success(Content(
          eventType.value, invitationTitle.value, hostNames.value, eventDate.value, shortGreeting.value,
          includeHijriDate.value, eventAgenda.value, venueName.value, address.value, googleMapsLink.value,
          wazeLink.value, galleryPhotos.value, enableWishes.value, featuredWishes.value, rsvpMode.value,
          rsvpDeadline.value, rsvpMessage.value, maxGuests.value, maxGuestsPerInvitee.value, language.value,
          packageType.value, openingStyle.value, animatedEffect.value, backgroundMusic.value,
          backgroundMusicYoutubeUrl.value))
  }

  // ---------------------------------------------------- defaults and JSON

  /** `defaultInvitationContent`. */
  function DefaultContent(): Content {
    Content(
      eventType := "Wedding Ceremony", invitationTitle := "", hostNames := "", eventDate := "",
      shortGreeting := "", includeHijriDate := false, eventAgenda := [], venueName := "", address := "",
      googleMapsLink := "", wazeLink := "", galleryPhotos := [], enableWishes := true, featuredWishes := [],
      rsvpMode := Open, rsvpDeadline := "", rsvpMessage := "", maxGuests := None, maxGuestsPerInvitee := 0,
      language := "english", packageType := "gold", openingStyle := "Circle Gate", animatedEffect := "none",
      backgroundMusic := false, backgroundMusicYoutubeUrl := "")
  }

  /** A content value the schema could have produced. */
  predicate WellFormed(c: Content) {
    && |c.invitationTitle| >= 3
    && |c.galleryPhotos| <= 20
    && (c.maxGuests.Some? ==> c.maxGuests.value >= 0)
    && c.maxGuestsPerInvitee >= 0
  }

  function OptionalStringJson(key: string, o: Option<string>): map<string, Json> {
    if o.Some? then map[key := JStr(o.value)] else map[]
  }

  function AgendaItemJson(a: AgendaItem): Json {
    JObj(OptionalStringJson("id", a.id)["time" := JStr(a.time)]["title" := JStr(a.title)])
  }

  function WishJson(w: Wish): Json {
    JObj(OptionalStringJson("id", w.id)["name" := JStr(w.name)]["message" := JStr(w.message)])
  }

  function AgendaJson(items: seq<AgendaItem>): Json {
    JArr(seq(|items|, i requires 0 <= i < |items| => AgendaItemJson(items[i])))
  }

  function WishesJson(items: seq<Wish>): Json {
    JArr(seq(|items|, i requires 0 <= i < |items| => WishJson(items[i])))
  }

  function StringsJson(xs: seq<string>): Json {
    JArr(seq(|xs|, i requires 0 <= i < |xs| => JStr(xs[i])))
  }

  function CountJson(n: int): Json {
    JNum(n as real)
  }

  function RsvpModeJson(m: RsvpMode): Json {
    JStr(if m == GuestList then "guest-list" else "open")
  }

  lemma AgendaItemRoundTrip(a: AgendaItem)
    ensures AgendaItemOk(AgendaItemJson(a)) && AgendaItemValue(AgendaItemJson(a)) == a
  {
  }

  lemma WishRoundTrip(w: Wish)
    ensures WishOk(WishJson(w)) && WishValue(WishJson(w)) == w
  {
  }

  lemma CountRoundTrip(n: int)
    requires n >= 0
    ensures IsCount(CountJson(n)) && CountJson(n).n.Floor == n
  {
  }

  /**
   * A JSON object stores the content when every schema key holds the encoding
   * of the matching part, and `maxGuests` is present exactly when the content
   * has one. Other keys may be present too: the schema drops them.
   */
  predicate StoresContent(f: map<string, Json>, c: Content) {
    StoresTexts(f, c) && StoresMoreTexts(f, c) && StoresLists(f, c) && StoresScalars(f, c)
  }

  predicate StoresTexts(f: map<string, Json>, c: Content) {
    && "eventType" in f && f["eventType"] == JStr(c.eventType)
    && "invitationTitle" in f && f["invitationTitle"] == JStr(c.invitationTitle)
    && "hostNames" in f && f["hostNames"] == JStr(c.hostNames)
    && "eventDate" in f && f["eventDate"] == JStr(c.eventDate)
    && "shortGreeting" in f && f["shortGreeting"] == JStr(c.shortGreeting)
    && "venueName" in f && f["venueName"] == JStr(c.venueName)
    && "address" in f && f["address"] == JStr(c.address)
  }

  predicate StoresMoreTexts(f: map<string, Json>, c: Content) {
    && "googleMapsLink" in f && f["googleMapsLink"] == JStr(c.googleMapsLink)
    && "wazeLink" in f && f["wazeLink"] == JStr(c.wazeLink)
    && "rsvpDeadline" in f && f["rsvpDeadline"] == JStr(c.rsvpDeadline)
    && "rsvpMessage" in f && f["rsvpMessage"] == JStr(c.rsvpMessage)
    && "language" in f && f["language"] == JStr(c.language)
    && "packageType" in f && f["packageType"] == JStr(c.packageType)
    && "openingStyle" in f && f["openingStyle"] == JStr(c.openingStyle)
    && "animatedEffect" in f && f["animatedEffect"] == JStr(c.animatedEffect)
    && "backgroundMusicYoutubeUrl" in f && f["backgroundMusicYoutubeUrl"] == JStr(c.backgroundMusicYoutubeUrl)
  }

  predicate StoresLists(f: map<string, Json>, c: Content) {
    && "eventAgenda" in f && f["eventAgenda"] == AgendaJson(c.eventAgenda)
    && "galleryPhotos" in f && f["galleryPhotos"] == StringsJson(c.galleryPhotos)
    && "featuredWishes" in f && f["featuredWishes"] == WishesJson(c.featuredWishes)
  }

  predicate StoresScalars(f: map<string, Json>, c: Content) {
    && "includeHijriDate" in f && f["includeHijriDate"] == JBool(c.includeHijriDate)
    && "enableWishes" in f && f["enableWishes"] == JBool(c.enableWishes)
    && "rsvpMode" in f && f["rsvpMode"] == RsvpModeJson(c.rsvpMode)
    && "maxGuestsPerInvitee" in f && f["maxGuestsPerInvitee"] == CountJson(c.maxGuestsPerInvitee)
    && "backgroundMusic" in f && f["backgroundMusic"] == JBool(c.backgroundMusic)
    && (if c.maxGuests.Some? then "maxGuests" in f && f["maxGuests"] == CountJson(c.maxGuests.value)
        else "maxGuests" !in f)
  }

  /** Stored lists come back element for element. */
  lemma StoredListsAccepted(f: map<string, Json>, c: Content)
    requires StoresLists(f, c) && |c.galleryPhotos| <= 20
    ensures AgendaOk(f, "eventAgenda") && AgendaAt(f, "eventAgenda") == c.eventAgenda
    ensures WishesOk(f, "featuredWishes") && WishesAt(f, "featuredWishes") == c.featuredWishes
    ensures GalleryOk(f, "galleryPhotos") && GalleryAt(f, "galleryPhotos") == c.galleryPhotos
  {
    forall a | a in c.eventAgenda { AgendaItemRoundTrip(a); }
    forall w | w in c.featuredWishes { WishRoundTrip(w); }
  }

  /** Validating fields that store a well-formed content gives that content back. */
  lemma StoredContentAccepted(f: map<string, Json>, c: Content, policy: DefaultPolicy)
    requires WellFormed(c) && StoresContent(f, c)
    ensures FieldsOk(f, policy) && ContentAt(f, policy) == c
  {
    StoredListsAccepted(f, c);
    CountRoundTrip(c.maxGuestsPerInvitee);
    if c.maxGuests.Some? { CountRoundTrip(c.maxGuests.value); }
  }

  /**
   * The round trip: any JSON object that stores a well-formed content
   * validates to exactly that content, whatever the default policy.
   */
  lemma ContentRoundTrip(f: map<string, Json>, c: Content, policy: DefaultPolicy)
    requires WellFormed(c) && StoresContent(f, c)
    ensures Validate(JObj(f), policy) == Success(c)
  {
    StoredContentAccepted(f, c, policy);
  }

  // --------------------------------------------- what the schema promises

  /** An object holding only a long enough title is accepted with every other field at its default. */
  lemma TitleOnly(t: string, policy: DefaultPolicy)
    requires |t| >= 3
    ensures Validate(JObj(map["invitationTitle" := JStr(t)]), policy) == Success(DefaultContent().(invitationTitle := t))
  {
  }

  /** A title shorter than three characters is rejected, with a too-small issue at the title. */
  lemma ShortTitleRejected(f: map<string, Json>, t: string, policy: DefaultPolicy)
    requires "invitationTitle" in f && f["invitationTitle"] == JStr(t) && |t| < 3
    ensures Validate(JObj(f), policy).Failure?
    ensures Issue([Key("invitationTitle")], TooSmall(3)) in Validate(JObj(f), policy).error
  {
    var issue := Issue([Key("invitationTitle")], TooSmall(3));
    assert TitleField(f, "invitationTitle", policy).issues == [issue];
    assert issue in EarlyIssues(f, policy);
  }

  /** More than 20 gallery photos are rejected, never truncated. */
  lemma GalleryTooLong(f: map<string, Json>, policy: DefaultPolicy)
    requires "galleryPhotos" in f && f["galleryPhotos"].JArr? && |f["galleryPhotos"].items| > 20
    ensures Validate(JObj(f), policy).Failure?
    ensures Issue([Key("galleryPhotos")], TooBig(20)) in Validate(JObj(f), policy).error
  {
    var issue := Issue([Key("galleryPhotos")], TooBig(20));
    assert GalleryField(f, "galleryPhotos").issues[0] == issue;
    assert issue in LateIssues(f);
  }

  /** Whatever the schema accepts with a title present is well-formed content. */
  lemma AcceptedIsWellFormed(f: map<string, Json>, policy: DefaultPolicy)
    requires "invitationTitle" in f && Validate(JObj(f), policy).Success?
    ensures WellFormed(Validate(JObj(f), policy).value)
  {
  }

  /** `rsvpMode` accepts exactly "guest-list" and "open"; any other string is an invalid enum value. */
  lemma RsvpModeStrings(f: map<string, Json>, s: string, policy: DefaultPolicy)
    requires "rsvpMode" in f && f["rsvpMode"] == JStr(s)
    ensures s != "guest-list" && s != "open" ==>
              Issue([Key("rsvpMode")], InvalidEnumValue) in Validate(JObj(f), policy).error
    ensures Validate(JObj(f), policy).Success? ==>
              Validate(JObj(f), policy).value.rsvpMode == (if s == "guest-list" then GuestList else Open)
  {
  }

  /** An empty agenda item or wish gets empty strings and no id. */
  lemma EmptyItemDefaults(path: seq<PathSegment>)
    ensures AgendaItemOf(JObj(map[]), path) == Checked(AgendaItem(None, "", ""), [])
    ensures WishOf(JObj(map[]), path) == Checked(Wish(None, "", ""), [])
  {
  }
}
