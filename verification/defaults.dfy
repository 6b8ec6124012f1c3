/** The device-local key-value store (`UserDefaults.standard`), which also backs every
    `@AppStorage` property of the app, modelled as a finite map from keys to values.
 */
module Defaults {
  import opened Wrappers

  datatype StoredValue = StringValue(text: string) | BoolValue(flag: bool) | StringArray(items: seq<string>)

  type Store = map<string, StoredValue>

  const CUSTOMER_ACCESS_TOKEN_KEY: string := "customerAccessToken"
  const FAVORITE_PRODUCTS_KEY: string := "favoriteProducts"
  const IS_USER_LOGGED_IN_KEY: string := "isUserLoggedIn"
  const STAY_LOGGED_IN_KEY: string := "stayLoggedIn"
  const SAVED_EMAIL_KEY: string := "savedEmail"
  const SAVED_PASSWORD_KEY: string := "savedPassword"

  /** `string(forKey:)`: the stored string, or nothing when the key is absent or holds another kind. */
  function StringFor(store: Store, key: string): (r: Option<string>)
    ensures r.Some? <==> key in store && store[key].StringValue?
    ensures r.Some? ==> store[key] == StringValue(r.value)
  {
    if key in store && store[key].StringValue? then Some(store[key].text) else None
  }

  /** An `@AppStorage` Bool: the stored flag, or the declared default. */
  function BoolOr(store: Store, key: string, default: bool): (r: bool)
    ensures key in store && store[key].BoolValue? ==> r == store[key].flag
    ensures !(key in store && store[key].BoolValue?) ==> r == default
  {
    if key in store && store[key].BoolValue? then store[key].flag else default
  }

  /** An `@AppStorage` String: the stored string, or the declared default. */
  function StringOr(store: Store, key: string, default: string): (r: string)
    ensures r == StringFor(store, key).GetOr(default)
  {
    if key in store && store[key].StringValue? then store[key].text else default
  }

  /** `array(forKey:) as? [String] ?? []`. */
  function StringArrayFor(store: Store, key: string): (r: seq<string>)
    ensures key in store && store[key].StringArray? ==> r == store[key].items
    ensures !(key in store && store[key].StringArray?) ==> r == []
  {
    if key in store && store[key].StringArray? then store[key].items else []
  }

  /** `set(_:forKey:)`. */
  function Put(store: Store, key: string, v: StoredValue): (r: Store)
    ensures key in r && r[key] == v
    ensures r.Keys == store.Keys + {key}
    ensures forall k :: k in store && k != key ==> r[k] == store[k]
  {
    store[key := v]
  }

  /** Two stores agree on every key outside `keys`. */
  ghost predicate SameOutside(a: Store, b: Store, keys: set<string>)
  {
    && (forall k :: k !in keys ==> (k in a <==> k in b))
    && (forall k :: k in a && k !in keys ==> k in b && a[k] == b[k])
  }

  /** Writing a key is visible through every typed reader and leaves the other keys alone. */
  lemma PutThenRead(store: Store, key: string, v: StoredValue, other: string)
    requires other != key
    ensures v.StringValue? ==> StringFor(Put(store, key, v), key) == Some(v.text)
    ensures v.BoolValue? ==> forall d :: BoolOr(Put(store, key, v), key, d) == v.flag
    ensures v.StringArray? ==> StringArrayFor(Put(store, key, v), key) == v.items
    ensures StringFor(Put(store, key, v), other) == StringFor(store, other)
    ensures forall d :: BoolOr(Put(store, key, v), other, d) == BoolOr(store, other, d)
    ensures SameOutside(store, Put(store, key, v), {key})
  {
  }
}
