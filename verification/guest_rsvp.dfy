/**
 * lib/guestRsvp.ts: a guest's RSVP kept in browser storage under a key made
 * from the event and the guest's slug. Reads never fail: anything missing or
 * malformed reads as no RSVP.
 */
module GuestRsvp {
  import opened Wrappers
  import opened Js
  import opened LocalStore

  datatype RsvpResponse = Attending | NotAttending

  datatype Rsvp = Rsvp(response: RsvpResponse, extraGuests: real)

  function ResponseName(r: RsvpResponse): string {
    if r == Attending then "attending" else "not-attending"
  }

  /** `getKey`: "rsvp:", the event id, a colon, the guest slug. */
  function Key(eventId: string, guestSlug: string): string {
    "rsvp:" + eventId + ":" + guestSlug
  }

  /** Where the colon after the event id sits, and the event id's characters before it. */
  lemma KeyLayout(eventId: string, guestSlug: string)
    ensures Key(eventId, guestSlug)[5 + |eventId|] == ':'
    ensures forall i | 0 <= i < |eventId| :: Key(eventId, guestSlug)[5 + i] == eventId[i]
  {
  }

  /** Distinct (event, guest) pairs get distinct keys when event ids hold no colon. */
  lemma KeyInjective(e1: string, g1: string, e2: string, g2: string)
    requires ':' !in e1 && ':' !in e2
    requires Key(e1, g1) == Key(e2, g2)
    ensures e1 == e2 && g1 == g2
  {
    var k := Key(e1, g1);
    assert k == Key(e2, g2);
    KeyLayout(e1, g1);
    KeyLayout(e2, g2);
    if |e1| < |e2| {
      assert false;
    } else if |e2| < |e1| {
      assert false;
    }
    assert e1 == k[5..5 + |e1|] == e2;
    assert g1 == k[6 + |e1|..] == g2;
  }

  /** Without that condition two different pairs can share a key. */
  lemma KeyCollision()
    ensures Key("a:b", "c") == Key("a", "b:c")
  {
  }

  /** The members `JSON.stringify` writes for an RSVP. */
  function Encode(r: Rsvp): Json {
    JObj(map["response" := JStr(ResponseName(r.response)), "extraGuests" := JNum(r.extraGuests)])
  }

  /**
   * The shape check on read: an object with a `response` member that is one
   * of the two answers; a numeric `extraGuests` is raised to at least 0 and
   * anything else counts as 0.
   */
  function Decode(j: Json): (r: Option<Rsvp>)
    ensures r.Some? <==> j.JObj? && "response" in j.fields
                         && (j.fields["response"] == JStr("attending") || j.fields["response"] == JStr("not-attending"))
    ensures r.Some? ==> JStr(ResponseName(r.value.response)) == j.fields["response"]
    ensures r.Some? ==> r.value.extraGuests >= 0.0
    ensures r.Some? && "extraGuests" in j.fields && j.fields["extraGuests"].JNum? && j.fields["extraGuests"].n >= 0.0
            ==> r.value.extraGuests == j.fields["extraGuests"].n
    ensures r.Some? && "extraGuests" in j.fields && j.fields["extraGuests"].JNum? && j.fields["extraGuests"].n < 0.0
            ==> r.value.extraGuests == 0.0
    ensures r.Some? && !("extraGuests" in j.fields && j.fields["extraGuests"].JNum?) ==> r.value.extraGuests == 0.0
  {
    if Truthy(j) && IsObjectType(j) && j.JObj? && "response" in j.fields then
      var response := j.fields["response"];
      if response == JStr("attending") || response == JStr("not-attending") then
        var extra := if "extraGuests" in j.fields && j.fields["extraGuests"].JNum?
                     then (if j.fields["extraGuests"].n > 0.0 then j.fields["extraGuests"].n else 0.0)
                     else 0.0;
        Some(Rsvp(if response == JStr("attending") then Attending else NotAttending, extra))
      else None
    else None
  }

  /** `loadGuestRsvp`; outside a browser there is no storage and the answer is null. */
  function Load(store: Store, browser: bool, eventId: string, guestSlug: string): (r: Option<Rsvp>)
    ensures !browser ==> r.None?
    ensures browser ==> r == (var j := ReadJson(store, Key(eventId, guestSlug)); if j.Some? then Decode(j.value) else None)
  {
    if !browser then None
    else
      var raw := ReadJson(store, Key(eventId, guestSlug));
      if raw.None? then None else Decode(raw.value)
  }

  /** `saveGuestRsvp`: writes its own key only; a failing write is ignored. */
  function Save(store: Store, writable: bool, eventId: string, guestSlug: string, rsvp: Rsvp): (r: Store)
    ensures writable ==> Key(eventId, guestSlug) in r && r[Key(eventId, guestSlug)] == Text(Encode(rsvp))
    ensures !writable ==> r == store
    ensures forall k | k != Key(eventId, guestSlug) :: (k in r <==> k in store) && (k in store ==> r[k] == store[k])
  {
    WriteJson(store, writable, Key(eventId, guestSlug), Encode(rsvp))
  }

  /** Nothing stored, an empty string, or text that is not JSON all read as no RSVP. */
  lemma LoadMissingOrCorrupt(store: Store, browser: bool, eventId: string, guestSlug: string)
    requires var k := Key(eventId, guestSlug); k !in store || store[k] == Empty || store[k] == Unparseable
    ensures Load(store, browser, eventId, guestSlug).None?
  {
  }

  /** Decoding an encoded RSVP gives it back, with a negative extra-guest count read as 0. */
  lemma DecodeEncode(r: Rsvp)
    ensures Decode(Encode(r)) == Some(Rsvp(r.response, if r.extraGuests > 0.0 then r.extraGuests else 0.0))
  {
    var j := Encode(r);
    assert j.fields["response"] == JStr(ResponseName(r.response));
    assert j.fields["extraGuests"] == JNum(r.extraGuests);
  }

  /** Saving and loading in a browser returns the saved RSVP whenever its extra-guest count is not negative. */
  lemma LoadAfterSave(store: Store, eventId: string, guestSlug: string, rsvp: Rsvp)
    requires rsvp.extraGuests >= 0.0
    ensures Load(Save(store, true, eventId, guestSlug, rsvp), true, eventId, guestSlug) == Some(rsvp)
  {
    DecodeEncode(rsvp);
  }

  /** Saving one guest's answer leaves every other (event, guest) answer as it was. */
  lemma SaveLeavesOthers(store: Store, writable: bool, eventId: string, guestSlug: string, rsvp: Rsvp,
                         otherEvent: string, otherGuest: string, browser: bool)
    requires ':' !in eventId && ':' !in otherEvent
    requires eventId != otherEvent || guestSlug != otherGuest
    ensures Load(Save(store, writable, eventId, guestSlug, rsvp), browser, otherEvent, otherGuest)
            == Load(store, browser, otherEvent, otherGuest)
  {
    if Key(eventId, guestSlug) == Key(otherEvent, otherGuest) {
      KeyInjective(eventId, guestSlug, otherEvent, otherGuest);
    }
    ReadOtherAfterWrite(store, writable, Key(eventId, guestSlug), Key(otherEvent, otherGuest), Encode(rsvp));
  }
}
