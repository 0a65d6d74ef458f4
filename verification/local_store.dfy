/**
 * The browser's key-value storage as the guest-side helpers use it: each key
 * holds a string that is empty, not JSON, or the text of a JSON value.
 */
module LocalStore {
  import opened Wrappers
  import opened Js

  datatype Stored =
    | Empty
    | Unparseable
    | Text(value: Json)

  type Store = map<string, Stored>

  /**
   * Reading a key and parsing it: nothing for an absent key, an empty string
   * or text that does not parse (the helpers treat all three alike).
   */
  function ReadJson(store: Store, key: string): (r: Option<Json>)
    ensures r.Some? <==> key in store && store[key].Text?
    ensures r.Some? ==> r.value == store[key].value
  {
    if key in store && store[key].Text? then Some(store[key].value) else None
  }

  /**
   * `setItem(key, JSON.stringify(value))`, where a write that throws (no
   * storage, a full quota) is swallowed and leaves the store as it was.
   */
  function WriteJson(store: Store, writable: bool, key: string, value: Json): (r: Store)
    ensures writable ==> key in r && r[key] == Text(value)
    ensures !writable ==> r == store
    ensures forall k | k != key :: (k in r <==> k in store) && (k in store ==> r[k] == store[k])
  {
    if writable then store[key := Text(value)] else store
  }

  /** Reading back a written key gives the written value. */
  lemma ReadAfterWrite(store: Store, key: string, value: Json)
    ensures ReadJson(WriteJson(store, true, key, value), key) == Some(value)
  {
  }

  /** A write leaves every other key's reading as it was. */
  lemma ReadOtherAfterWrite(store: Store, writable: bool, key: string, other: string, value: Json)
    requires other != key
    ensures ReadJson(WriteJson(store, writable, key, value), other) == ReadJson(store, other)
  {
  }
}
