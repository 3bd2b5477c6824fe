/** The browser side of authentication: the session token and the
    "isAuthenticated" flag kept in `localStorage`, read by the pure queries
    and removed in place by logout. */
module AuthUtils {
  import opened Values

  const TokenKey: string := "access_token"
  const FlagKey: string := "isAuthenticated"
  const LoginPage: string := "/login"

  /** What a page without browser globals (server-side rendering) sees when
      `logout` touches `localStorage`. */
  const NoStorage: string := "ReferenceError: localStorage is not defined"

  /** `localStorage.getItem(key)`: the stored text, or null. */
  function GetItem(storage: map<string, string>, key: string): Option<string> {
    if key in storage then Some(storage[key]) else None
  }

  /** `getToken()`: the stored token; null without a window or without the key. */
  function GetToken(hasWindow: bool, storage: map<string, string>): (token: Option<string>)
    ensures token.Some? <==> hasWindow && TokenKey in storage
    ensures token.Some? ==> token.value == storage[TokenKey]
  {
    if !hasWindow then None else GetItem(storage, TokenKey)
  }

  /** `isAuthenticated()`: the flag holds exactly "true" and a non-empty
      token is stored. This is what `getToken` returns, checked for truthiness. */
  function IsAuthenticated(hasWindow: bool, storage: map<string, string>): (b: bool)
    ensures b <==> GetToken(hasWindow, storage).Some? && GetToken(hasWindow, storage).value != ""
                   && FlagKey in storage && storage[FlagKey] == "true"
  {
    if !hasWindow then false
    else GetItem(storage, FlagKey) == Some("true") && GetItem(storage, TokenKey).Some? && GetItem(storage, TokenKey).value != ""
  }

  /** The storage once both session keys are removed: every other key keeps its value. */
  function WithoutSession(storage: map<string, string>): (r: map<string, string>)
    ensures r.Keys == storage.Keys - {TokenKey, FlagKey}
    ensures forall k :: k in r ==> r[k] == storage[k]
  {
    storage - {TokenKey, FlagKey}
  }

  /** After the session keys are gone the user is logged out, whether or not
      a window exists. */
  lemma LoggedOut(hasWindow: bool, storage: map<string, string>)
    ensures !IsAuthenticated(hasWindow, WithoutSession(storage))
    ensures GetToken(hasWindow, WithoutSession(storage)) == None
  {
  }

  /** An authenticated page always has a token to send. */
  lemma AuthenticatedHasToken(hasWindow: bool, storage: map<string, string>)
    requires IsAuthenticated(hasWindow, storage)
    ensures GetToken(hasWindow, storage) == Some(storage[TokenKey]) && storage[TokenKey] != ""
  {
  }

  /** Only the exact text "true" counts as the flag, and an empty token
      counts as none. */
  lemma FlagAndTokenExact(storage: map<string, string>, flag: string, token: string)
    ensures IsAuthenticated(true, storage[FlagKey := flag][TokenKey := token]) <==> flag == "true" && token != ""
  {
    assert FlagKey != TokenKey;
  }

  /** The browser state `logout` touches: `localStorage`, the cookie jar and
      the page location. `hasWindow` tells whether the browser globals exist. */
  class Browser {
    var storage: map<string, string>
    var cookies: map<string, string>
    var location: string
    const hasWindow: bool

    constructor (storage: map<string, string>, cookies: map<string, string>, location: string, hasWindow: bool)
      ensures this.storage == storage && this.cookies == cookies && this.location == location
      ensures this.hasWindow == hasWindow
    {
      this.storage := storage;
      this.cookies := cookies;
      this.location := location;
      this.hasWindow := hasWindow;
    }

    /** `logout()`: remove both session keys, expire the "isAuthenticated"
        cookie (a `max-age=0` assignment deletes it), and go to the login
        page. Without browser globals the first storage access throws, so
        nothing changes and the window guard is never reached. */
    method Logout() returns (thrown: Option<string>)
      modifies this
      ensures hasWindow ==> thrown == None && storage == WithoutSession(old(storage))
                            && cookies == old(cookies) - {FlagKey} && location == LoginPage
      ensures !hasWindow ==> thrown == Some(NoStorage) && storage == old(storage)
                             && cookies == old(cookies) && location == old(location)
      ensures !IsAuthenticated(hasWindow, storage) && GetToken(hasWindow, storage) == None
    {
      if !hasWindow {
        return Some(NoStorage);
      }
      storage := storage - {TokenKey};
      storage := storage - {FlagKey};
      cookies := cookies - {FlagKey};
      location := LoginPage;
      thrown := None;
      LoggedOut(hasWindow, old(storage));
    }
  }
}
