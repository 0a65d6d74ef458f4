# Gatherly invitation builder: a Dafny model of its deterministic core

Gatherly lets a host design an event invitation in a studio, save it as a
draft, publish it under a public slug, and share it with guests. Guests can
answer an RSVP and leave wishes, and both are kept in the guest's own browser.
This project models the deterministic logic behind that flow as pure Dafny
functions over immutable data, and proves what the code promises about it.

What is modelled, one module per source file:

- `Ics` (lib/generateIcs.ts) is the iCalendar export. It parses and clamps
  times, adds one hour with a wrap past midnight, writes floating local
  date-times (section 3.3.5 of RFC 5545) and escapes TEXT (section 3.3.11 of
  RFC 5545). The content lines are joined by CRLF (section 3.1 of RFC 5545).
- `InvitationContent` (lib/schemas/invitationContent.ts) is the zod content
  schema. It is written as `Validate(input, policy): Result<Content, seq<Issue>>`
  over a small JSON datatype, with the defaults and `defaultInvitationContent`.
- `Slug` (lib/slug.ts) is the public slug, written as a pure function of the
  random bytes and the clock reading.
- `InvitationApi` (lib/invitationApi.ts) holds `isInvitationId` and the
  status-code-to-outcome mapping of the client helpers.
- `LocalStore`, `GuestRsvp` and `GuestWishes` (lib/guestRsvp.ts,
  lib/guestWishes.ts) are the guest-side stores. Browser storage is a
  `map<string, Stored>`.
- `InvitationsRoute` (app/api/v1/invitations/route.ts) is the GET listing and
  the POST create-or-update decision procedure over an abstract invitations
  table.
- `AdminConfigRoute` (app/api/v1/admin/config/route.ts) is the administrator
  settings update. `Admin` (lib/admin.ts) is the e-mail allow-list.
  `AppConfig` (lib/config.ts) holds the settings fallbacks and default tables.
- `Templates` (lib/templates.ts) is the design catalogue. `TemplatesDb`
  (lib/templatesDb.ts) is the normalisation of a database row.
- `DesignFilter` (components/choose-design-modal.tsx) is the design picker's
  filter, its chips and "clear all".
- `Youtube` (components/BackgroundMusicPlayer.tsx) extracts the video id and
  the start time from a music link.
- `Envelope` (components/invitation/blocks/EnvelopeIntroBlock.tsx) is the
  envelope intro: the storage key, the greeting, the seal monogram and the
  opened/animating gate.
- `Wrappers`, `Text`, `Radix` and `Js` are shared helpers. They cover
  Option/Result, the JavaScript string operations used (trim, split, join,
  case mapping, includes), `toString(36)`, decimal digits, JSON values and
  truthiness, `parseInt`, `Number()`, `String()` and `padStart(2, "0")`.

The database, the clock, randomness and browser storage are parameters.
Examples are a table map, `now`, the random bytes, a `failing` set of keys
whose writes fail, and a `writable` flag for storage writes.

Where the prose description of the system and the code disagree, the model
follows the code:

- POST does not reject content that fails validation. It stores `{}`
  (`InvitationsRoute.InvalidContentStoredEmpty`).
- A stored RSVP's `extraGuests` is clamped with `Math.max(0, n)` and is not
  rounded to an integer.

## Model

| member | source | states |
|---|---|---|
| Ics.EscapeIsPerChar | lib/generateIcs.ts:27-29 | The three chained global replacements equal escaping each character on its own: a backslash inserted by the first pass is never escaped again. |
| Ics.EscapeLength | lib/generateIcs.ts:27-29 | Escaping lengthens the text by exactly the number of backslashes, semicolons and commas in it. |
| Ics.EscapeRoundTrip | lib/generateIcs.ts:27-29 | Escaping is lossless: reading backslash-escapes back gives the original text. |
| Ics.EscapePlainUnchanged | lib/generateIcs.ts:27-29 | Text without backslash, semicolon or comma is left as it is. |
| Ics.EscapeOneSpecial | lib/generateIcs.ts:27-29 | Between plain text on both sides, only the one special character gains a backslash. |
| Ics.TitleEscapeExample | lib/generateIcs.ts:27-29 | `Party; at John's, Inc.` is escaped to `Party\; at John's\, Inc.`. |
| Ics.EscapeEmpty | lib/generateIcs.ts:27-29 | Escaping keeps empty text empty and non-empty text non-empty. |
| Ics.Clamp | lib/generateIcs.ts:38 | A clamped number lies in the range, NaN stays NaN, a number already in range is unchanged, one below the range becomes the low end and one above it the high end. |
| Ics.ParseTime | lib/generateIcs.ts:34-39 | The parsed hour is in 0..23 or NaN, and the minute is in 0..59 or NaN. |
| Ics.ParseTimeOfParts | lib/generateIcs.ts:35-38 | A trimmed `a:b` parses to the clamped `parseInt` of `a` and of `b`. |
| Ics.ParseTimeOfPadded | lib/generateIcs.ts:34-44 | Parsing `pad2(h):pad2(m)` gives back an in-range (or NaN) h and m. |
| Ics.AddOneHourParses | lib/generateIcs.ts:41-45 | The time `addOneHour` writes parses to the next hour modulo 24 with the same minutes. |
| Ics.ParseOutOfRange | lib/generateIcs.ts:34-39 | "25:99" parses to 23:59: out-of-range parts are clamped, not rejected. |
| Ics.DatePartOfDigits | lib/generateIcs.ts:51-53 | A date `y-mo-d` of decimal digit runs is written as the `pad2` of the three numbers they denote, in order. |
| Ics.DatePartOfPaddedDate | lib/generateIcs.ts:51-53 | A date with a year of two or more digits and a two-digit month and day is written with its dashes removed. |
| Ics.DatePartOfShortDate | lib/generateIcs.ts:51-53 | A one-digit month or day in the date gains a leading zero; the year is kept. |
| Ics.IcsDateTimeOfWellFormed | lib/generateIcs.ts:50-54 | For a well-formed date and an in-range `HH:mm` time, the date-time is the date without dashes, `T`, the hour and minutes, and `00`. |
| Ics.ClampedTime | lib/generateIcs.ts:50-54 | The date-time for "25:99" ends in `T235900`, so the seconds are always 00. |
| Ics.DefaultTimes | lib/generateIcs.ts:59-60 | Without times, DTSTART is `<date>T180000` and DTEND is `<date>T230000`. |
| Ics.SameStartAndEnd | lib/generateIcs.ts:70 | When start and end are the same text, DTEND is one hour (mod 24) after DTSTART with the same minutes. |
| Ics.DistinctStartAndEnd | lib/generateIcs.ts:70-71 | Different start and end texts are written as given. |
| Ics.NonEmptyOnly | lib/generateIcs.ts:67 | `filter(Boolean)` keeps only non-empty parts taken from the input. |
| Ics.LocationCases | lib/generateIcs.ts:67 | The location value is `location, address`, or whichever one is non-empty, or empty. |
| Ics.OptionalFields | lib/generateIcs.ts:67-84 | The location is written iff location or address is non-empty, and the description iff it is non-empty. |
| Ics.SummaryText | lib/generateIcs.ts:80 | The summary is the escaped title, or "Event" when the title is empty. |
| Ics.EventBlock | lib/generateIcs.ts:77-86 | The event block starts with DTSTART, DTEND and SUMMARY, holds only event properties, and has a LOCATION (DESCRIPTION) line iff that value is non-empty. |
| Ics.Envelope | lib/generateIcs.ts:73-86 | The calendar is the four header lines, the event block and the two footer lines. |
| Ics.Layout | lib/generateIcs.ts:73-86 | The calendar has 9 to 11 content lines, BEGIN:VEVENT exactly at line 3 and END:VEVENT exactly second to last: one event block. |
| Ics.EventHeadLines | lib/generateIcs.ts:78-80 | Lines 4 to 6 carry DTSTART, DTEND and SUMMARY with their values. |
| Ics.EventPropertiesInBlock | lib/generateIcs.ts:73-86 | No event property appears outside the event block. |
| Ics.LocationLine | lib/generateIcs.ts:83 | A LOCATION line appears iff the location value is non-empty, and it carries that value. |
| Ics.DescriptionLine | lib/generateIcs.ts:84 | A DESCRIPTION line appears iff the description value is non-empty, and it carries that value. |
| Ics.RenderedHeader | lib/generateIcs.ts:74-77 | The header lines read `BEGIN:VCALENDAR` and `VERSION:2.0`. |
| Ics.RenderedCalendarLines | lib/generateIcs.ts:76-77 | The next header lines read `PRODID:-//Gatherly//EN` and `BEGIN:VEVENT`. |
| Ics.RenderedFooter | lib/generateIcs.ts:86 | The footer lines read `END:VEVENT` and `END:VCALENDAR`. |
| Ics.GeneratedText | lib/generateIcs.ts:88 | The CRLF-joined text is the header text, the CRLF-joined event block, then the footer text, whatever the field values. |
| Js.Pad2TwoDigits | lib/generateIcs.ts:23-25 | `pad2` of 0..99 is exactly its two decimal digits. |
| Js.ParseInt | lib/generateIcs.ts:36-37 | `parseInt` is NaN exactly when no digit follows the leading whitespace and sign. |
| Js.ParsePad2 | lib/generateIcs.ts:23-37 | `parseInt` reads back what `pad2` wrote, for 0..99 and for NaN. |
| Js.NumberOfDigits | lib/generateIcs.ts:51 | `Number()` of a non-empty run of decimal digits is the value they denote. |
| Js.DecimalNumeral | lib/generateIcs.ts:24 | `String(n)` of a natural number is decimal digits that read back as n. |
| Js.Pad2Wide | lib/generateIcs.ts:23-25 | `pad2` of a number of two or more digits adds no padding. |
| Js.Pad2Digits | lib/generateIcs.ts:23-25 | `pad2` of 0..99 is two decimal digits that read back as the number. |
| Js.ParseTwoDigits | lib/generateIcs.ts:36-37 | `parseInt` of two decimal digits is their value. |
| InvitationContent.StringField | lib/schemas/invitationContent.ts:22-24 | An optional string field accepts an absent key or a string and yields the string or the default. |
| InvitationContent.BoolField | lib/schemas/invitationContent.ts:25 | A boolean field accepts an absent key or a boolean and yields it or the default. |
| InvitationContent.CountIssues | lib/schemas/invitationContent.ts:44-46 | A number has no issue iff it is an integer that is at least 0. |
| InvitationContent.OptionalCountField | lib/schemas/invitationContent.ts:44 | `maxGuests` accepts an absent key or a non-negative integer, and an absent one stays absent. |
| InvitationContent.CountField | lib/schemas/invitationContent.ts:46 | `maxGuestsPerInvitee` accepts an absent key or a non-negative integer and defaults to the given value. |
| InvitationContent.RsvpModeField | lib/schemas/invitationContent.ts:38 | `rsvpMode` accepts an absent key, "guest-list" or "open", and defaults to open. |
| InvitationContent.TitleField | lib/schemas/invitationContent.ts:21 | The title is accepted iff the title rule holds, and the value is the supplied string. |
| InvitationContent.StringItems | lib/schemas/invitationContent.ts:32 | An array of strings has no issue iff every element is a string, and it yields them all in order. |
| InvitationContent.GalleryField | lib/schemas/invitationContent.ts:32 | The gallery accepts an absent key or an array of at most 20 strings, and keeps every photo. |
| InvitationContent.StringKeyIssues | lib/schemas/invitationContent.ts:3-15 | An object with only optional string keys has no issue iff each listed key is absent or a string. |
| InvitationContent.AgendaItemOf | lib/schemas/invitationContent.ts:3-7 | An agenda item is accepted iff it is an object whose id, time and title are absent or strings. |
| InvitationContent.WishOf | lib/schemas/invitationContent.ts:11-15 | A wish is accepted iff it is an object whose id, name and message are absent or strings. |
| InvitationContent.Concat | lib/schemas/invitationContent.ts:26-36 | The issues of the elements, concatenated, are empty iff every element's are. |
| InvitationContent.AgendaItems | lib/schemas/invitationContent.ts:26 | An agenda array is accepted iff every element is, and yields one item per element in order. |
| InvitationContent.WishItems | lib/schemas/invitationContent.ts:36 | A wishes array is accepted iff every element is, and yields one wish per element in order. |
| InvitationContent.AgendaField | lib/schemas/invitationContent.ts:26 | `eventAgenda` accepts an absent key or an array of valid items, and defaults to the empty list. |
| InvitationContent.WishesField | lib/schemas/invitationContent.ts:36 | `featuredWishes` accepts an absent key or an array of valid wishes, and defaults to the empty list. |
| InvitationContent.EarlyIssues | lib/schemas/invitationContent.ts:20-30 | The issues of `eventType` to `wazeLink` are empty iff each of those fields accepts its value. |
| InvitationContent.LateIssues | lib/schemas/invitationContent.ts:32-54 | The issues of `galleryPhotos` to `backgroundMusicYoutubeUrl` are empty iff each of those fields accepts its value. |
| InvitationContent.Validate | lib/schemas/invitationContent.ts:19-55 | Validation succeeds iff the input is an object whose every field is accepted, and yields each supplied value or its default. A failure carries at least one issue, and a non-object fails at the root. |
| InvitationContent.AgendaItemRoundTrip | lib/schemas/invitationContent.ts:3-7 | An agenda item written as JSON is accepted and read back unchanged. |
| InvitationContent.WishRoundTrip | lib/schemas/invitationContent.ts:11-15 | A wish written as JSON is accepted and read back unchanged. |
| InvitationContent.StoredListsAccepted | lib/schemas/invitationContent.ts:26-36 | Stored agenda, wishes and up to 20 photos are accepted and read back element for element. |
| InvitationContent.StoredContentAccepted | lib/schemas/invitationContent.ts:19-55 | Every field accepts the stored value of well-formed content and reads it back. |
| InvitationContent.ContentRoundTrip | lib/schemas/invitationContent.ts:19-55 | Validating an object that stores well-formed content gives exactly that content. |
| InvitationContent.TitleOnly | lib/schemas/invitationContent.ts:20-85 | An object holding only a title of at least 3 characters is accepted, with every other field equal to `defaultInvitationContent`. |
| InvitationContent.ShortTitleRejected | lib/schemas/invitationContent.ts:21 | A supplied title shorter than 3 characters is rejected with a too-small issue at the title. |
| InvitationContent.GalleryTooLong | lib/schemas/invitationContent.ts:32 | More than 20 gallery photos are rejected with a too-big issue, never truncated. |
| InvitationContent.AcceptedIsWellFormed | lib/schemas/invitationContent.ts:19-55 | Whatever is accepted with a title present is well-formed content. |
| InvitationContent.RsvpModeStrings | lib/schemas/invitationContent.ts:38 | Any rsvpMode string other than "guest-list" and "open" is rejected; an accepted one is read as that mode. |
| InvitationContent.EmptyItemDefaults | lib/schemas/invitationContent.ts:3-15 | An empty agenda item or wish gets empty strings and no id. |
| Radix.ToRadix | lib/slug.ts:11 | `toString(base)` writes only digits of the base, with no leading zero. |
| Radix.FromToRadix | lib/slug.ts:11 | Reading back what `toString(base)` wrote gives the original number. |
| Radix.ToRadixInjective | lib/slug.ts:11 | Distinct numbers have distinct base representations. |
| Slug.AlphabetText | lib/slug.ts:6 | The alphabet is `abcdefghijklmnopqrstuvwxyz0123456789`. |
| Slug.CharOf | lib/slug.ts:9 | A random byte selects the alphabet character at its value modulo 36, a lower-case letter or a digit. |
| Slug.CharOfInjectiveMod | lib/slug.ts:9 | Two bytes select the same character iff they agree modulo 36. |
| Slug.GenerateSlug | lib/slug.ts:4-12 | The slug is "inv-", one alphabet character per byte, then the clock in base 36. |
| Slug.SlugLayout | lib/slug.ts:5-11 | A slug's length is 4 plus the byte count plus the base-36 length, with the prefix, random part and clock part in place. |
| Slug.SlugCharacters | lib/slug.ts:6-11 | After the prefix every character is a lower-case letter or a digit. |
| Slug.SixByteSlugLength | lib/slug.ts:5-11 | With six bytes, a slug has at least 11 characters. |
| Slug.SlugEquality | lib/slug.ts:5-11 | For byte strings of equal length, two slugs are equal iff the clocks are equal and the bytes agree modulo 36, so distinct clocks give distinct slugs. |
| Slug.AllOnesSlug | lib/slug.ts:5-10 | Six bytes of value 1 give the random part "bbbbbb". |
| Slug.SlugIsNotInvitationId | lib/slug.ts:7 | No slug passes `isInvitationId`. |
| InvitationApi.GroupStep | lib/invitationApi.ts:125 | The pattern peels a group of hex digits and a hyphen off the front. |
| InvitationApi.LastGroup | lib/invitationApi.ts:125 | The last group is exactly its count of hex digits. |
| InvitationApi.InvitationIdShape | lib/invitationApi.ts:125-129 | An id passes iff it has 36 characters, hyphens at 8, 13, 18 and 23, and hex digits of either case elsewhere. |
| InvitationApi.InvitationIdCaseInsensitive | lib/invitationApi.ts:125 | Upper- or lower-casing a string never changes whether it is an invitation id. |
| InvitationApi.ListUrl | lib/invitationApi.ts:71 | The listing URL gets `?status=<status>` iff a status is given. |
| InvitationApi.ListOutcome | lib/invitationApi.ts:72-75 | Listing returns the body iff the status is 2xx. 401 throws "Unauthorized" and other failures throw a listing error. |
| InvitationApi.FetchOutcome | lib/invitationApi.ts:79-82 | Loading by id is null iff the status is 404 or 403, the body iff it is 2xx, and an error otherwise. |
| InvitationApi.FetchBySlugOutcome | lib/invitationApi.ts:87-90 | Loading by slug is null iff the status is 404, the body iff it is 2xx, and an error otherwise (including 403). |
| InvitationApi.WriteError | lib/invitationApi.ts:106-120 | A failed write reports the body's `error` member when the body is an object that has one, fails on a JSON null body, and otherwise reports the fallback message. |
| InvitationApi.WriteOutcome | lib/invitationApi.ts:93-123 | Saving or publishing returns the body iff the status is 2xx. 401 is "Unauthorized", and other failures use the body's error or "Save failed: <status>" / "Publish failed: <status>". |
| InvitationApi.SaveFallbackNamesStatus | lib/invitationApi.ts:107 | A failed save whose body gives no error reports the status in decimal. |
| LocalStore.ReadJson | lib/guestRsvp.ts:20-22 | A key reads as JSON iff it holds parseable non-empty text, and the value read is the one stored. |
| LocalStore.WriteJson | lib/guestRsvp.ts:39-43 | A write stores the value under its key (or changes nothing when the write fails) and leaves every other key as it was. |
| LocalStore.ReadAfterWrite | lib/guestRsvp.ts:20-40 | Reading back a written key gives the written value. |
| LocalStore.ReadOtherAfterWrite | lib/guestRsvp.ts:40 | A write leaves every other key's reading as it was. |
| GuestRsvp.KeyLayout | lib/guestRsvp.ts:11-15 | The key is "rsvp:" and the event id, followed by a colon. |
| GuestRsvp.KeyInjective | lib/guestRsvp.ts:13-15 | Distinct (event, guest) pairs get distinct keys when event ids hold no colon. |
| GuestRsvp.KeyCollision | lib/guestRsvp.ts:13-15 | Without that condition, ("a:b", "c") and ("a", "b:c") share a key. |
| GuestRsvp.Decode | lib/guestRsvp.ts:22-31 | A stored object decodes iff it has a valid `response`. A numeric `extraGuests` n is read as n when n >= 0 and as 0 when it is negative; an absent or non-numeric one is 0. |
| GuestRsvp.Load | lib/guestRsvp.ts:17-36 | Outside a browser there is no RSVP; otherwise it is the decoding of what the key holds, or none. |
| GuestRsvp.Save | lib/guestRsvp.ts:38-44 | Saving writes the encoded RSVP under its own key only; a failed write changes nothing. |
| GuestRsvp.LoadMissingOrCorrupt | lib/guestRsvp.ts:20-35 | Nothing stored, an empty string or unparseable text all load as no RSVP. |
| GuestRsvp.DecodeEncode | lib/guestRsvp.ts:28-40 | Decoding an encoded RSVP gives it back, with a negative extra-guest count read as 0. |
| GuestRsvp.LoadAfterSave | lib/guestRsvp.ts:17-41 | Save then load returns the same RSVP when its extra-guest count is not negative. |
| GuestRsvp.SaveLeavesOthers | lib/guestRsvp.ts:40 | Saving one guest's answer leaves every other (event, guest) answer as it was. |
| GuestWishes.KeepWishes | lib/guestWishes.ts:17-19 | The kept entries are exactly the input entries that are truthy with string name and message. |
| GuestWishes.KeepWishesAppend | lib/guestWishes.ts:18 | Filtering distributes over concatenation, so the original order is kept. |
| GuestWishes.KeepWishesAllValid | lib/guestWishes.ts:18 | A list whose every entry passes comes through unchanged. |
| GuestWishes.KeepWishesIdempotent | lib/guestWishes.ts:18 | Filtering twice is filtering once. |
| GuestWishes.Load | lib/guestWishes.ts:11-23 | Loaded wishes all pass the filter. Outside a browser, or for a missing, unparseable or non-array value, the list is empty; otherwise it is the filtered array. |
| GuestWishes.WishJson | lib/guestWishes.ts:26-33 | A saved wish is stored as an object with its id, name and message, and it passes the filter. |
| GuestWishes.Save | lib/guestWishes.ts:25-38 | Saving returns the wish with the given id, stores the filtered old list plus it under the event's key, and touches no other key. |
| GuestWishes.LoadMissingOrCorrupt | lib/guestWishes.ts:14-22 | A missing, empty, unparseable or non-array value loads as no wishes. |
| GuestWishes.LoadAfterSave | lib/guestWishes.ts:30-37 | After a save, loading gives the previous list with the returned wish appended. |
| GuestWishes.SaveLeavesOtherEvents | lib/guestWishes.ts:14-33 | Saving to one event leaves another event's wishes unchanged. |
| GuestWishes.SaveLeavesRsvps | lib/guestWishes.ts:33 | Saving a wish never changes a stored RSVP. |
| InvitationsRoute.StatusFilter | app/api/v1/invitations/route.ts:26-28 | The status filter applies iff the parameter is exactly "draft" or "published". |
| InvitationsRoute.InsertionPoint | app/api/v1/invitations/route.ts:24 | The insertion point follows every entry updated later and precedes the first one updated no later. |
| InvitationsRoute.InsertNewestFirst | app/api/v1/invitations/route.ts:24 | Insertion adds exactly the new entry. |
| InvitationsRoute.InsertKeepsOrder | app/api/v1/invitations/route.ts:24 | Insertion keeps a list newest first. |
| InvitationsRoute.InsertKeepsDistinct | app/api/v1/invitations/route.ts:22-24 | Inserting an entry with a new id keeps ids distinct. |
| InvitationsRoute.List | app/api/v1/invitations/route.ts:10-36 | Without a user the answer is 401. Otherwise it is 200 with exactly the caller's rows passing the status filter, newest first, each once. |
| InvitationsRoute.ContentInput | app/api/v1/invitations/route.ts:56 | The content validated is the `content` member unless it is absent or null, else the whole body. |
| InvitationsRoute.NonEmptyString | app/api/v1/invitations/route.ts:58-59 | A member is taken iff it is a non-empty string. |
| InvitationsRoute.TemplateId | app/api/v1/invitations/route.ts:58 | The template id is a non-empty string `template_id`, else "elegant-rose". |
| InvitationsRoute.ContentToStore | app/api/v1/invitations/route.ts:56-57 | The stored content is the validated content iff validation succeeds. |
| InvitationsRoute.Update | app/api/v1/invitations/route.ts:63-91 | An update succeeds iff the row exists, is the caller's and is a draft, and then writes the template and content. A failure writes nothing. |
| InvitationsRoute.Create | app/api/v1/invitations/route.ts:93-107 | A create inserts a draft owned by the caller with no slug. A colliding id fails and writes nothing. |
| InvitationsRoute.Post | app/api/v1/invitations/route.ts:43-108 | POST answers 401 without a user, then 400 for an unparseable body, then updates or creates. Only a 200 changes the table. |
| InvitationsRoute.UpdateCheckOrder | app/api/v1/invitations/route.ts:63-78 | An update reports the first failing check in the order 404, 403, 400. |
| InvitationsRoute.UpdateChangesOnlyTemplateAndContent | app/api/v1/invitations/route.ts:80-85 | A successful update rewrites only that row's template and content. |
| InvitationsRoute.CreateInsertsDraft | app/api/v1/invitations/route.ts:59-101 | Without an id, a successful POST adds exactly one row: a draft owned by the caller. |
| InvitationsRoute.InvalidContentStoredEmpty | app/api/v1/invitations/route.ts:57 | Content that fails validation is stored as `{}` rather than rejected. |
| InvitationsRoute.BodyAsContent | app/api/v1/invitations/route.ts:56 | A body without a `content` member is itself validated as the content. |
| Admin.Entries | lib/admin.ts:10 | There is one compared entry per comma-separated piece. |
| Admin.IsAdmin | lib/admin.ts:6-12 | A user is admin iff the e-mail is non-empty, the list is set and non-empty, and the lower-cased e-mail equals some trimmed, lower-cased entry. |
| Admin.EmailCaseIgnored | lib/admin.ts:11 | Changing the case of the e-mail never changes the answer. |
| Admin.ListCaseIgnored | lib/admin.ts:10 | Changing the case of the list never changes the answer. |
| Admin.PaddedEntryGrants | lib/admin.ts:10-11 | Whitespace around a list entry is ignored. |
| Admin.EntriesTrimmed | lib/admin.ts:10 | Every compared entry is empty or has no whitespace at either end. |
| Admin.UntrimmedEmailNeverAdmin | lib/admin.ts:11 | An e-mail starting or ending with whitespace is never admin, because it is not trimmed. |
| Admin.BlankEntriesNeverGrant | lib/admin.ts:7-11 | A list of blank entries (as in ",,") grants no one. |
| AppConfig.ConfigKey | lib/config.ts:23-36 | A key yields its stored value iff one was found and it is truthy; otherwise the default. |
| AppConfig.ChoicesJson | lib/config.ts:11-21 | A list of choices is an array with one element per choice. |
| AppConfig.CardLanguages | lib/config.ts:38-42 | The card languages are the stored value iff it is a non-empty array, else the defaults, so they are never empty. |
| AppConfig.Packages | lib/config.ts:44-48 | The packages are the stored value iff it is a non-empty array, else the defaults, so they are never empty. |
| AppConfig.DefaultLanguageOrder | lib/config.ts:11-15 | The default languages are bahasa-melayu, english and arabic, in that order. |
| AppConfig.OnlyGoldPopular | lib/config.ts:17-21 | Among the default packages only "gold" is marked popular. |
| AppConfig.TableJson | lib/config.ts:52-99 | A label table becomes an object whose keys are exactly the table's keys. |
| AppConfig.DefaultLabelTranslations | lib/config.ts:52-99 | The built-in translations are an object with at least one language. |
| AppConfig.LabelTranslations | lib/config.ts:101-105 | The stored translations are used iff they are an object with at least one key. |
| AppConfig.LabelTranslationsNonEmpty | lib/config.ts:101-105 | The translations returned always have at least one key. |
| AppConfig.DefaultTablesSameKeys | lib/config.ts:52-99 | The default English and Malay tables define the same keys in the same order. |
| AdminConfigRoute.KeyName | app/api/v1/admin/config/route.ts:45-63 | The settings keys are "card_languages", "packages" and "label_translations". |
| AdminConfigRoute.Piece | app/api/v1/admin/config/route.ts:36-64 | A setting contributes one update iff its body member is accepted, and it carries that member's value. |
| AdminConfigRoute.Updates | app/api/v1/admin/config/route.ts:34-64 | The updates are in the order card_languages, packages, label_translations, each key at most once, exactly for the accepted members. |
| AdminConfigRoute.FirstFailing | app/api/v1/admin/config/route.ts:70-76 | The first failing write is the earliest update whose key fails. |
| AdminConfigRoute.Upsert | app/api/v1/admin/config/route.ts:70-77 | Writes run in order and stop at the first failure, which leaves the earlier writes applied. With no failure all are applied. |
| AdminConfigRoute.Put | app/api/v1/admin/config/route.ts:17-80 | The answer is 401, then 403, then 400 "Invalid JSON". A 200 applies all updates. Any other non-500 answer writes nothing. |
| AdminConfigRoute.NothingAcceptedNothingWritten | app/api/v1/admin/config/route.ts:17-68 | A body with no accepted member never changes the settings; an administrator gets 400 "No valid updates". |
| AdminConfigRoute.ApplyAllOther | app/api/v1/admin/config/route.ts:70-77 | Applying updates leaves a key none of them names as it was. |
| AdminConfigRoute.FirstWriteKept | app/api/v1/admin/config/route.ts:70-77 | A languages write that no later update names is the value left in the table. |
| AdminConfigRoute.PutWrites | app/api/v1/admin/config/route.ts:66-79 | For an administrator, a body with an accepted member reaches the writes: the answer is 200 or a failed write, and the table is what the upsert left. |
| AdminConfigRoute.LanguagesFirst | app/api/v1/admin/config/route.ts:36-47 | An accepted language list is the first update, and no later update names its key. |
| AdminConfigRoute.UpsertKeepsFirst | app/api/v1/admin/config/route.ts:70-77 | A first write that succeeds stays stored even when a later write fails. |
| AdminConfigRoute.LanguagesRoundTrip | app/api/v1/admin/config/route.ts:17-80 | An administrator sending a valid language list whose own write succeeds gets 200 or a later write's failure, and reading the languages back returns that list. Anyone else gets 403 and nothing changes. |
| TemplatesDb.MapRow | lib/templatesDb.ts:21-47 | Mapping copies id, name and thumbnail. The tier is premium iff it is exactly "premium". Null lists become [], null colors the fallback palette and null design {}. envelopeIntro is absent iff the column is falsy. |
| TemplatesDb.MapRowNormalised | lib/templatesDb.ts:42-43 | A mapped row has no SQL null left in its colors or design. |
| TemplatesDb.MapRowOfTemplate | lib/templatesDb.ts:34-46 | Mapping the row of a normalised template gives the template back. |
| TemplatesDb.OtherTiersAreFree | lib/templatesDb.ts:40 | Any tier other than exactly "premium" maps to free. |
| TemplatesDb.FallbackPalette | lib/templatesDb.ts:42 | The fallback palette is bg #fff, text #000, accent #666 and muted #999. |
| Templates.ThemeAndStyleListsComplete | lib/templates.ts:1-45 | Each list names every member of its type exactly once. |
| Templates.NamesDistinct | lib/templates.ts:1-15 | Theme names are pairwise different, and so are style names. |
| Templates.CatalogueIdsDistinct | lib/templates.ts:47-129 | Catalogue ids are pairwise distinct. |
| Templates.CatalogueHasThemesAndStyles | lib/templates.ts:47-129 | Every design has at least one theme and at least one style. |
| DesignFilter.Filtered | components/choose-design-modal.tsx:209-221 | The designs shown are exactly the catalogue designs that pass every filter, never more than the catalogue. With the `AsWritten` rule the search looks up the untrimmed, lower-cased query, as the picker does. |
| DesignFilter.FilteredIsSubsequence | components/choose-design-modal.tsx:210 | The designs shown keep the catalogue order. |
| DesignFilter.StricterShowsSubsequence | components/choose-design-modal.tsx:209-221 | Filters at least as strict show a subsequence. |
| DesignFilter.AddingFiltersNarrows | components/choose-design-modal.tsx:209-221 | Setting another filter never brings a design back. |
| DesignFilter.ShownDesignsMeetEveryChip | components/choose-design-modal.tsx:211-218 | Every design shown carries the selected theme and style, has the selected tier, and, when the trimmed search is non-empty, contains the query of the chosen rule (the untrimmed lower-cased search as written). |
| DesignFilter.ActiveIffSomeHidden | components/choose-design-modal.tsx:241 | The filters are active iff some design could be hidden by them. |
| DesignFilter.InactiveShowsAll | components/choose-design-modal.tsx:209-241 | With no active filter every design is shown, in order. |
| DesignFilter.ClearFilters | components/choose-design-modal.tsx:234-239 | After clearing, no filter is active. |
| DesignFilter.ClearShowsCatalogue | components/choose-design-modal.tsx:234-241 | After clearing, the whole catalogue is shown. |
| DesignFilter.ToggleTheme | components/choose-design-modal.tsx:273 | A theme chip selects its theme iff it was not selected, deselecting it otherwise, and changes no other filter. |
| DesignFilter.ToggleStyle | components/choose-design-modal.tsx:281 | A style chip selects its style iff it was not selected, deselecting it otherwise, and changes no other filter. |
| DesignFilter.ToggleThemeTwice | components/choose-design-modal.tsx:273 | Pressing a theme chip twice restores the filters iff no other theme was selected. |
| DesignFilter.ToggleStyleTwice | components/choose-design-modal.tsx:281 | Pressing a style chip twice restores the filters iff no other style was selected. |
| DesignFilter.SelectTier | components/choose-design-modal.tsx:289 | A tier chip sets the tier choice and nothing else. |
| DesignFilter.TierChipShowsOnlyTier | components/choose-design-modal.tsx:209-221 | With a tier chosen, the designs shown are exactly those of that tier that pass the other filters. |
| DesignFilter.ThemeChipShowsOnlyTheme | components/choose-design-modal.tsx:209-221 | After selecting a theme, every design shown carries it. |
| DesignFilter.SearchFindsWord | components/choose-design-modal.tsx:214-218 | A design passes the search when one of its words contains the query of the chosen rule: the untrimmed lower-cased search as written, the trimmed one when corrected. |
| DesignFilter.NameOnlyHaystack | components/choose-design-modal.tsx:216 | A design with no tags, themes or styles is searched by its lower-cased name alone. |
| DesignFilter.PaddingIgnored | components/choose-design-modal.tsx:214-218 | Surrounding a query with whitespace does not change which designs match. |
| DesignFilter.PaddedQueryMissesAsWritten | components/choose-design-modal.tsx:214-218 | As written, "modern " fails to match a design named "Modern". |
| DesignFilter.PaddedQueryFound | components/choose-design-modal.tsx:214-218 | With the trimmed query, "modern " matches the design named "Modern". |
| DesignFilter.RulesAgreeUnpadded | components/choose-design-modal.tsx:214-218 | For a search with no whitespace at either end, the code as written and the trimmed lookup match the same designs. |
| DesignFilter.PaddedQueryListed | components/choose-design-modal.tsx:209-218 | Searching "modern " over a catalogue holding only the "Modern" design shows nothing as written and shows that design with the trimmed lookup. |
| Youtube.FirstMatchFrom | components/BackgroundMusicPlayer.tsx:10-15 | The search finds the leftmost position where the prefix and 11 id characters occur. |
| Youtube.Capture | components/BackgroundMusicPlayer.tsx:10-15 | A link shape captures iff it occurs anywhere, and the capture is the 11 id characters after its leftmost occurrence. |
| Youtube.VideoId | components/BackgroundMusicPlayer.tsx:6-20 | A missing or blank link has no id. An id is 11 id characters, and there is one iff some link shape occurs in the trimmed link. The short link's capture wins, then the watch link's, then the embed link's. |
| Youtube.CaptureAtLeftmost | components/BackgroundMusicPlayer.tsx:10-15 | The capture of a shape is exactly the 11 characters after its leftmost match. |
| Youtube.ShortLinkWins | components/BackgroundMusicPlayer.tsx:9-11 | A short link anywhere in the trimmed link gives the id after its leftmost occurrence, whatever other shapes occur. |
| Youtube.WatchBeatsEmbed | components/BackgroundMusicPlayer.tsx:9-15 | Without a short link, the leftmost watch link gives the id, even when an embed link comes earlier. |
| Youtube.ShortLinkId | components/BackgroundMusicPlayer.tsx:10-11 | A short link to a well-formed id yields that id, whatever follows it. |
| Youtube.ShortLinkTrimmed | components/BackgroundMusicPlayer.tsx:9 | Trimming keeps a link's head and id. |
| Youtube.FirstMarkerFrom | components/BackgroundMusicPlayer.tsx:24 | The marker search finds the leftmost `?t=` or `&t=` followed by a digit. |
| Youtube.DigitRun | components/BackgroundMusicPlayer.tsx:24 | The digit run is greedy: all digits, stopping at the first non-digit. |
| Youtube.StartTime | components/BackgroundMusicPlayer.tsx:23-26 | A link without a time marker starts at 0. |
| Youtube.StartTimeRoundTrip | components/BackgroundMusicPlayer.tsx:23-26 | Appending `?t=n` or `&t=n` to a link without a marker gives start time n. |
| Youtube.StartTimeWithoutMarker | components/BackgroundMusicPlayer.tsx:25 | A link with no '?' or '&' starts at 0. |
| Youtube.WeddingDefaultMusic | components/studio/StudioWizard.tsx:22 | The default wedding link plays video "0J7R20ycaU4" from second 7. |
| Envelope.StorageKey | components/invitation/blocks/EnvelopeIntroBlock.tsx:21-27 | There is no key iff the invitation id is absent or empty; otherwise the key starts with the prefix and an underscore. |
| Envelope.KeyLayout | components/invitation/blocks/EnvelopeIntroBlock.tsx:25-26 | The key is the prefix, "_", the id, "_", then the slug or "guest". |
| Envelope.StorageKeyInjective | components/invitation/blocks/EnvelopeIntroBlock.tsx:26 | Different (invitation, guest) pairs get different keys when ids hold no underscore. |
| Envelope.StorageKeyCollision | components/invitation/blocks/EnvelopeIntroBlock.tsx:26 | Without that condition, ("a_b", "c") and ("a", "b_c") share a key. |
| Envelope.MissingSlugIsGuest | components/invitation/blocks/EnvelopeIntroBlock.tsx:25 | A missing slug is stored as "guest", and an empty one is kept. |
| Envelope.DisplayName | components/invitation/blocks/EnvelopeIntroBlock.tsx:38 | The greeting is the preview name, else the guest name, else "Dear Guest"; an empty name is kept. |
| Envelope.Initials | components/invitation/blocks/EnvelopeIntroBlock.tsx:32-39 | The monogram is the first two characters or fewer of the initials ("SA" by default), upper-cased. |
| Envelope.InitialsExamples | components/invitation/blocks/EnvelopeIntroBlock.tsx:32-39 | No initials give "SA", "sarah" gives "SA", and "" gives "". |
| Envelope.InitialsUpperCase | components/invitation/blocks/EnvelopeIntroBlock.tsx:39 | Upper-casing the monogram again changes nothing. |
| Envelope.Mount | components/invitation/blocks/EnvelopeIntroBlock.tsx:43-52 | After mounting the envelope is open iff, in a browser and outside a preview, the flag under the key was remembered; it is never open outside a browser, and never animating. |
| Envelope.Settle | components/invitation/blocks/EnvelopeIntroBlock.tsx:46-52 | After a render the envelope is open iff it was open or the flag now reads as set; the animation flag is unchanged. |
| Envelope.Open | components/invitation/blocks/EnvelopeIntroBlock.tsx:54-68 | The handler starts the animation and writes "1" under the key unless previewing or keyless; when that write is refused, it throws before the animation starts and nothing changes. |
| Envelope.Handle | components/invitation/blocks/EnvelopeIntroBlock.tsx:46-68 | The handler's writes and animation flag are kept. As written, the re-render after a handler that changed state opens the envelope iff the flag now reads as set; read once at mount, nothing more happens. |
| Envelope.AnimationDone | components/invitation/blocks/EnvelopeIntroBlock.tsx:63-66 | When the animation ends the envelope is open and not animating. |
| Envelope.KeyDown | components/invitation/blocks/EnvelopeIntroBlock.tsx:70-78 | Enter or Space runs the handler iff the envelope is neither open nor animating; otherwise nothing changes. |
| Envelope.Click | components/invitation/blocks/EnvelopeIntroBlock.tsx:132-134 | A click runs the handler iff the envelope is neither open nor animating; otherwise nothing changes. |
| Envelope.PreviewNeverPersists | components/invitation/blocks/EnvelopeIntroBlock.tsx:41-59 | A preview never reads the flag as set and never writes it, and a click on a closed, idle preview only starts the animation. |
| Envelope.OpenIsRemembered | components/invitation/blocks/EnvelopeIntroBlock.tsx:46-59 | After opening, mounting again in the same session shows the envelope open. |
| Envelope.OpenLeavesOtherInvitations | components/invitation/blocks/EnvelopeIntroBlock.tsx:26-59 | Opening one invitation does not open another, when ids hold no underscore. |
| Envelope.RefusedWriteKeepsClosed | components/invitation/blocks/EnvelopeIntroBlock.tsx:54-78 | When storage refuses the flag, Enter or Space leaves the envelope closed, rendered, not animating and not remembered. |
| Envelope.KeyboardOpeningSequence | components/invitation/blocks/EnvelopeIntroBlock.tsx:46-80 | From a fresh mount, Enter or Space starts the animation. The block stays rendered iff the flag is read only at mount or no flag is written. A second press does nothing, and the timer removes the block. |
| Envelope.PressSkipsAnimation | components/invitation/blocks/EnvelopeIntroBlock.tsx:46-80 | As written, Enter on a fresh envelope for invitation "abc" hides the block in the same step that starts the animation. |
| Envelope.AnimationPlaysWhenReadOnce | components/invitation/blocks/EnvelopeIntroBlock.tsx:46-80 | With the flag read only at mount, a press leaves the envelope closed and animating until the timer opens it. |

## Left out

- Rendering, the DOM, timers and React state are left out. `Envelope` keeps
  only the opened/animating gate, and the animation timer is the separate
  step `AnimationDone`. The re-render a handler causes is folded into
  `Handle`, with a `FlagRead` choice between the code as written and a flag
  read once at mount. The reduced-motion duration, the `onOpen` callback
  and the envelope variants are left out.
- `typeof window` checks are a `browser: bool` parameter.
- Storage quota errors are a `writable: bool` parameter: the RSVP and wishes
  stores catch them, and the envelope's unguarded write lets them abort the
  opening. `JSON.parse` failures
  are the `Unparseable` stored value.
- Database and network calls are inputs. The invitations table is a map, the
  settings table is a map, a config read is a `ConfigRead`, and HTTP statuses
  and bodies are parameters.
- Database errors other than the ones modelled are left out. These are
  GET's 500, the update's 500 and a fetch error read as 404. The `failing`
  set models upsert failures, and an id collision models the insert's 500.
- Timestamps are parameters. `updated_at` is not changed by an update,
  because the handler does not set it and database triggers are not visible.
- Error message texts from the database are left out; only the key of the
  failing write is reported.
- The publish, read-by-id and read-by-slug handlers are not part of this
  model. Publish idempotence and slug conflicts are therefore not claimed.
- `downloadIcs`, lib/imageUtils.ts, lib/hijri.ts and the player setup of
  BackgroundMusicPlayer are left out: they need the DOM, canvas or
  libraries that are not visible.
- Case mapping covers ASCII letters only. Strings are sequences of
  characters, not UTF-16 code units.
- The whitespace set of `trim` is the ECMAScript WhiteSpace and
  LineTerminator code points, listed by value.
- JSON numbers are exact reals, so the integer check of the schema and a
  fractional `extraGuests` are modelled. Floating-point rounding is not.
- `Number()` on date parts handles empty strings and optionally signed
  decimal integers. Fractions, exponents and hexadecimal read as NaN.
- InvitationContent.Validate: the outcome for an absent `invitationTitle`
  depends on whether zod re-validates the `""` default against `.min(3)`.
  That depends on the zod major version, so it is the `DefaultPolicy`
  parameter, and no lemma depends on its value.
- InvitationContent.RsvpModeField: issue payloads follow zod 3's codes. A
  non-string mode is an invalid type expecting `'guest-list' | 'open'` and an
  unknown string is an invalid enum value. zod 4 reports both as an invalid
  value, so the payload is not promised for every zod version.
- InvitationContent.ContentRoundTrip: the round trip is stated relationally,
  from any object that stores the content under its keys. There is no
  encoder building that object.
- AppConfig.LabelTranslations returns which source was used (stored or
  default) rather than the value alone; `LabelsJson` gives the value.
- Youtube.VideoId: the `try`/`catch` around the matching cannot fire on a
  string and is left out. A `null` url is `None`.
- Youtube.StartTime: the contract states only the no-marker case. The value
  after a marker is stated by `StartTimeRoundTrip`. A `null` url would make
  the source throw, so it is not an input.
- DesignFilter.SelectTier: the chip's label text is left out.
- Slug.GenerateSlug takes the byte count from its input. With the six bytes
  the source draws, `SixByteSlugLength` gives the length bound.
- AdminConfigRoute.Put: a JSON `null` body makes the member reads throw, and
  the framework answers with 500. That is modelled as the `Uncaught` body,
  and the exact framework response is not claimed.

## Findings

| source | as written | input that shows it | evidently intended | confidence | as-written member | corrected member |
|---|---|---|---|---|---|---|
| components/choose-design-modal.tsx:214-218 | Blankness is checked on the trimmed search, but the untrimmed, lower-cased search is looked up in the haystack. | Search "modern " (trailing space) against a design named "Modern" with no tags, themes or styles: as written it is hidden. In the catalogue, "floral " hides Sakura Bloom and Rustic Kraft, whose "Floral" style ends the searched text, while Elegant Rose stays listed. | The query is trimmed before the lookup, so whitespace typed around a word does not hide matching designs. | medium, not executed | DesignFilter.PaddedQueryListed | DesignFilter.PaddingIgnored |
| components/invitation/blocks/EnvelopeIntroBlock.tsx:46-60 | `wasOpened` is recomputed on every render. After `handleOpen` writes the flag, the re-render caused by `setAnimating(true)` makes it true, and the `[wasOpened]` effect opens the envelope at once. | A guest of invitation "abc" with no slug presses Enter on a fresh envelope: the block renders nothing right away, and the 800 ms animation is never seen. | The flag is read once at mount, so the opening animation plays before the block disappears. | medium, not executed | Envelope.PressSkipsAnimation | Envelope.AnimationPlaysWhenReadOnce |
