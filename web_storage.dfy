/**
 * The browser's durable key-value store (window.localStorage), shared by the
 * HTTP client and the auth reducer, and the fixed keys the application uses.
 */
module WebStorage {
  import opened Js

  const AccessTokenKey := "access_token"
  const RefreshTokenKey := "refresh_token"
  const UserKey := "user"
  const AuthFlagKey := "isAuthenticated"

  /** getItem: the stored string, or null when the key is absent. */
  function Get(items: map<string, string>, key: string): (v: Option<string>)
    ensures v.Some? <==> key in items
    ensures v.Some? ==> v.value == items[key]
  {
    if key in items then Some(items[key]) else None
  }

  /** The access token as code that tests `if (token)` sees it: present and non-empty. */
  function AccessToken(items: map<string, string>): (t: Option<string>)
    ensures t.Some? <==> Truthy(Get(items, AccessTokenKey))
    ensures t.Some? ==> t.value == items[AccessTokenKey]
  {
    if AccessTokenKey in items && items[AccessTokenKey] != "" then Some(items[AccessTokenKey]) else None
  }

  class LocalStorage {
    var items: map<string, string>

    constructor (initial: map<string, string>)
      ensures items == initial
    {
      items := initial;
    }

    function GetItem(key: string): (v: Option<string>)
      reads this
      ensures v == Get(items, key)
    {
      Get(items, key)
    }

    method SetItem(key: string, value: string)
      modifies this
      ensures items == old(items)[key := value]
    {
      items := items[key := value];
    }

    method RemoveItem(key: string)
      modifies this
      ensures items == old(items) - {key}
    {
      items := items - {key};
    }
  }
}
