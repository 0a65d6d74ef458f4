/**
 * lib/guestWishes.ts: the wishes a guest left, kept in browser storage as one
 * JSON array per event. Reading keeps only well-shaped entries; saving appends
 * to what reading returned, so malformed entries are dropped on the next save.
 */
module GuestWishes {
  import opened Wrappers
  import opened Js
  import opened LocalStore
  import GuestRsvp

  datatype GuestWish = GuestWish(id: string, name: string, message: string)

  /** The key of an event's wish list. */
  function Key(eventId: string): string {
    "wishes:" + eventId
  }

  /** The filter on read: a truthy entry whose `name` and `message` are strings (the `id` is not checked). */
  predicate IsWishEntry(j: Json) {
    Truthy(j) && HasString(j, "name") && HasString(j, "message")
  }

  /** The entries of `items` that pass the filter, in their original order. */
  function KeepWishes(items: seq<Json>): (r: seq<Json>)
    ensures |r| <= |items|
    ensures forall x | x in r :: x in items && IsWishEntry(x)
    ensures forall x | x in items && IsWishEntry(x) :: x in r
  {
    if |items| == 0 then []
    else
      var rest := KeepWishes(items[1..]);
      if IsWishEntry(items[0]) then [items[0]] + rest else rest
  }

  /** Filtering distributes over concatenation, so it keeps the original order. */
  lemma {:induction false} KeepWishesAppend(a: seq<Json>, b: seq<Json>)
    ensures KeepWishes(a + b) == KeepWishes(a) + KeepWishes(b)
    decreases |a|
  {
    if |a| > 0 {
      assert (a + b)[0] == a[0];
      assert (a + b)[1..] == a[1..] + b;
      KeepWishesAppend(a[1..], b);
      if IsWishEntry(a[0]) {
        calc {
          KeepWishes(a + b);
          [a[0]] + KeepWishes(a[1..] + b);
          [a[0]] + (KeepWishes(a[1..]) + KeepWishes(b));
          ([a[0]] + KeepWishes(a[1..])) + KeepWishes(b);
        }
      }
    } else {
      assert a + b == b;
    }
  }

  /** A list whose every entry passes comes through unchanged. */
  lemma {:induction false} KeepWishesAllValid(items: seq<Json>)
    requires forall i | 0 <= i < |items| :: IsWishEntry(items[i])
    ensures KeepWishes(items) == items
    decreases |items|
  {
    if |items| > 0 {
      KeepWishesAllValid(items[1..]);
    }
  }

  /** Filtering twice is filtering once. */
  lemma KeepWishesIdempotent(items: seq<Json>)
    ensures KeepWishes(KeepWishes(items)) == KeepWishes(items)
  {
    var r := KeepWishes(items);
    forall i | 0 <= i < |r| ensures IsWishEntry(r[i]) {
      assert r[i] in r;
    }
    KeepWishesAllValid(r);
  }

  /**
   * `loadGuestWishes`: the filtered array stored under the event's key, and
   * an empty list when there is no browser, nothing is stored, the text does
   * not parse, or it is not an array.
   */
  function Load(store: Store, browser: bool, eventId: string): (r: seq<Json>)
    ensures forall x | x in r :: IsWishEntry(x)
    ensures !browser ==> r == []
    ensures browser && ReadJson(store, Key(eventId)).Some? && ReadJson(store, Key(eventId)).value.JArr?
            ==> r == KeepWishes(ReadJson(store, Key(eventId)).value.items)
    ensures ReadJson(store, Key(eventId)).None? || !ReadJson(store, Key(eventId)).value.JArr? ==> r == []
  {
    if !browser then []
    else
      var raw := ReadJson(store, Key(eventId));
      if raw.None? then []
      else if raw.value.JArr? then KeepWishes(raw.value.items)
      else []
  }

  /** The object `JSON.stringify` writes for a saved wish. */
  function WishJson(w: GuestWish): (j: Json)
    ensures IsWishEntry(j)
    ensures j.JObj? && "id" in j.fields
    ensures j.fields["name"] == JStr(w.name) && j.fields["message"] == JStr(w.message) && j.fields["id"] == JStr(w.id)
  {
    JObj(map["name" := JStr(w.name), "message" := JStr(w.message), "id" := JStr(w.id)])
  }

  datatype Saved = Saved(store: Store, wish: GuestWish)

  /**
   * `saveGuestWish`: the new wish gets the fresh id `id`; the stored list
   * becomes what loading returns followed by the new wish. A failing write is
   * ignored, and the wish is returned either way.
   */
  function Save(store: Store, browser: bool, writable: bool, eventId: string,
                name: string, message: string, id: string): (r: Saved)
    ensures r.wish == GuestWish(id, name, message)
    ensures browser && writable ==>
              Key(eventId) in r.store && r.store[Key(eventId)] == Text(JArr(Load(store, browser, eventId) + [WishJson(r.wish)]))
    ensures !(browser && writable) ==> r.store == store
    ensures forall k | k != Key(eventId) :: (k in r.store <==> k in store) && (k in store ==> r.store[k] == store[k])
  {
    var full := GuestWish(id, name, message);
    var updated := Load(store, browser, eventId) + [WishJson(full)];
    Saved(WriteJson(store, browser && writable, Key(eventId), JArr(updated)), full)
  }

  /** Nothing stored, an empty string, unparseable text or a non-array all read as no wishes. */
  lemma LoadMissingOrCorrupt(store: Store, browser: bool, eventId: string)
    requires var k := Key(eventId);
      k !in store || store[k] == Empty || store[k] == Unparseable || (store[k].Text? && !store[k].value.JArr?)
    ensures Load(store, browser, eventId) == []
  {
  }

  /** After a save, loading gives the previous list with the returned wish appended. */
  lemma LoadAfterSave(store: Store, eventId: string, name: string, message: string, id: string)
    ensures var s := Save(store, true, true, eventId, name, message, id);
      && Load(s.store, true, eventId) == Load(store, true, eventId) + [WishJson(s.wish)]
      && |Load(s.store, true, eventId)| == |Load(store, true, eventId)| + 1
      && Load(s.store, true, eventId)[|Load(store, true, eventId)|] == WishJson(s.wish)
  {
    var s := Save(store, true, true, eventId, name, message, id);
    var old_ := Load(store, true, eventId);
    var w := WishJson(s.wish);
    assert ReadJson(s.store, Key(eventId)) == Some(JArr(old_ + [w]));
    KeepWishesAppend(old_, [w]);
    KeepWishesIdempotent(if ReadJson(store, Key(eventId)).Some? && ReadJson(store, Key(eventId)).value.JArr?
                         then ReadJson(store, Key(eventId)).value.items else []);
    assert KeepWishes(old_) == old_;
    assert KeepWishes([w]) == [w];
  }

  /** Saving a wish for one event leaves another event's wishes as they were. */
  lemma SaveLeavesOtherEvents(store: Store, browser: bool, writable: bool, eventId: string,
                              name: string, message: string, id: string, otherEvent: string)
    requires otherEvent != eventId
    ensures Load(Save(store, browser, writable, eventId, name, message, id).store, browser, otherEvent)
            == Load(store, browser, otherEvent)
  {
    assert Key(otherEvent)[7..] == otherEvent;
    assert Key(eventId)[7..] == eventId;
  }

  /** Saving a wish never touches a guest's stored RSVP. */
  lemma SaveLeavesRsvps(store: Store, browser: bool, writable: bool, eventId: string,
                        name: string, message: string, id: string, rsvpEvent: string, guestSlug: string)
    ensures GuestRsvp.Load(Save(store, browser, writable, eventId, name, message, id).store, browser, rsvpEvent, guestSlug)
            == GuestRsvp.Load(store, browser, rsvpEvent, guestSlug)
  {
    assert GuestRsvp.Key(rsvpEvent, guestSlug)[0] == 'r';
    assert Key(eventId)[0] == 'w';
  }
}
