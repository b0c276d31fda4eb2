/**
 * The expo-secure-store key-value store, seen as a plain map from keys to
 * string values, with the lookups and the JavaScript truthiness tests the
 * callers apply to what `getItemAsync` returns (null for an absent key).
 */
module SecureStore {
  import opened Wrappers

  type Store = map<string, string>

  const AccessTokenKey: string := "accessToken"
  const RefreshTokenKey: string := "refreshToken"
  const UserIdKey: string := "userId"
  const ExpirationDateKey: string := "expirationDate"
  const ThemeKey: string := "theme"

  /** `getItemAsync(key)`: the stored value, or null when the key is absent. */
  function GetItem(store: Store, key: string): (r: Option<string>)
    ensures r.Some? <==> key in store
    ensures r.Some? ==> r.value == store[key]
  {
    if key in store then Some(store[key]) else None
  }

  /** JavaScript truthiness of a `string | null`: null and "" are falsy. */
  predicate Truthy(v: Option<string>)
  {
    v.Some? && v.value != ""
  }
}
