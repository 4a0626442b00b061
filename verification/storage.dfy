/** The browser's `localStorage`, as an immutable map from keys to stored
    values, and the way the session code reads a value back through
    `JSON.parse`. */
module Storage {
  import opened Wrappers
  import opened Js

  /** A stored string, described by what its readers make of it.
      - `Text(raw)`: a plain string kept verbatim, as the visitor-id code
        writes it; `Text("")` is the empty string, which every `if (stored)`
        test treats as no value.
      - `Record(fields)`: the JSON text of a non-null value, described by the
        properties a reader finds on it.
      - `Corrupt`: non-empty text on which `JSON.parse` throws, or that parses
        to `null` so that reading a property of it throws. */
  datatype Stored = Text(raw: string) | Record(fields: Fields) | Corrupt

  /** A missing key is an absent item (`getItem` returns `null`). */
  type Store = map<string, Stored>

  /** What the guarded read `stored = getItem(key); if (stored) { try { JSON.parse(stored) } catch … }`
      yields. */
  datatype Lookup = Absent | Unparsable | Parsed(fields: Fields)

  /** `getItem(key)` is truthy: the key holds a non-empty string. */
  predicate Present(store: Store, key: string) {
    key in store && store[key] != Text("")
  }

  /** Reads `key` the way the session code does: a missing or empty item is
      absent, a record parses, anything else fails to parse. */
  function ReadJson(store: Store, key: string): (r: Lookup)
    ensures r.Absent? <==> !Present(store, key)
    ensures r.Parsed? <==> key in store && store[key].Record?
    ensures r.Parsed? ==> store[key] == Record(r.fields)
  {
    if !Present(store, key) then Absent
    else match store[key]
      case Record(f) => Parsed(f)
      case _ => Unparsable
  }

  /** `removeItem(key)` */
  function Remove(store: Store, key: string): (r: Store)
    ensures key !in r
    ensures forall k :: k != key ==> (k in r <==> k in store)
    ensures forall k :: k in r ==> r[k] == store[k]
  {
    store - {key}
  }

  /** The key holds the same item (or is missing) in both stores. */
  predicate SameAt(a: Store, b: Store, key: string) {
    (key in a <==> key in b) && (key in a ==> a[key] == b[key])
  }

  /** `after` arises from `before` by removals only. */
  predicate RemovalsOnly(after: Store, before: Store) {
    forall k :: k in after ==> k in before && after[k] == before[k]
  }
}
