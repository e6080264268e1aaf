/**
 * client/lib/api/auth.ts: what the browser keeps of a session. A login that
 * the server accepts stores the token and an expiry one hour ahead in
 * localStorage; the session counts as expired once the clock passes that
 * expiry, or when there is none; logout removes only the expiry. Times are
 * the milliseconds of `Date.getTime()`.
 */
module ClientAuth {
  import opened Wrappers
  import opened Text

  const TokenKey := "token"
  const ExpirationKey := "tokenExpiration"

  /** `60 * 60 * 1000`: one hour in milliseconds. */
  const SessionLength: int := 3600000

  /** `window.localStorage`: string keys to string values. */
  class LocalStorage {
    var items: map<string, string>

    constructor ()
      ensures items == map[]
    {
      items := map[];
    }

    method SetItem(key: string, value: string)
      modifies this
      ensures items == old(items)[key := value]
    {
      items := items[key := value];
    }

    method RemoveItem(key: string)
      modifies this
      ensures items == old(items) - {key}
    {
      items := items - {key};
    }
  }

  /** What `setItem("token", data.token)` stores: a missing token is stringified to "undefined". */
  function StoredToken(token: Option<string>): string {
    token.GetOr("undefined")
  }

  /** The storage a successful `loginUser` leaves at time `nowMs`. */
  function AfterLogin(items: map<string, string>, token: Option<string>, nowMs: int): map<string, string> {
    items[TokenKey := StoredToken(token)][ExpirationKey := IntToString(nowMs + SessionLength)]
  }

  /** The storage `logoutUser` leaves. */
  function AfterLogout(items: map<string, string>): map<string, string> {
    items - {ExpirationKey}
  }

  /**
   * `isTokenExpired()` at time `nowMs`, where `items` is what
   * `localStorage.getItem` reads from: no expiry (or an empty one) is
   * expired; otherwise `nowMs > parseInt(expiry, 10)`, which is false when
   * the expiry does not parse (NaN compares false).
   */
  function IsTokenExpired(items: map<string, string>, nowMs: int): (expired: bool)
    ensures ExpirationKey !in items || items[ExpirationKey] == "" ==> expired
    ensures forall e :: ExpirationKey in items && ParseInt(items[ExpirationKey]) == Some(e) ==> (expired <==> nowMs > e)
    ensures ExpirationKey in items && items[ExpirationKey] != "" && ParseInt(items[ExpirationKey]).None? ==> !expired
  {
    if ExpirationKey !in items || items[ExpirationKey] == "" then true
    else
      match ParseInt(items[ExpirationKey])
      case None => false
      case Some(expiration) => nowMs > expiration
  }

  /** How `loginUser` ends: it throws, or it returns the response body. */
  datatype LoginOutcome = Threw(message: string) | Returned

  /**
   * `loginUser` once the server has answered: `ok` is `res.ok` and `token`
   * is `data.token`. A refused login throws and leaves storage alone.
   */
  method LoginUser(storage: LocalStorage, ok: bool, token: Option<string>, nowMs: int) returns (outcome: LoginOutcome)
    modifies storage
    ensures !ok ==> outcome == Threw("Login failed") && storage.items == old(storage.items)
    ensures ok ==> outcome == Returned && storage.items == AfterLogin(old(storage.items), token, nowMs)
  {
    if !ok {
      return Threw("Login failed");
    }
    storage.SetItem(TokenKey, StoredToken(token));
    var expirationTime := nowMs + SessionLength;
    storage.SetItem(ExpirationKey, IntToString(expirationTime));
    outcome := Returned;
  }

  /** `logoutUser` (the redirect to /login is not modelled). */
  method LogoutUser(storage: LocalStorage)
    modifies storage
    ensures storage.items == AfterLogout(old(storage.items))
  {
    storage.RemoveItem(ExpirationKey);
  }

  /** A browser that never logged in has an expired session at any time. */
  lemma NoExpiryIsExpired(items: map<string, string>, nowMs: int)
    requires ExpirationKey !in items
    ensures IsTokenExpired(items, nowMs)
  {
  }

  /**
   * After a successful login at `loginMs`, the session is live up to and
   * including `loginMs + 3600000` and expired from the next millisecond on;
   * the token stored is the one received.
   */
  lemma LoginWindow(items: map<string, string>, token: Option<string>, loginMs: int, nowMs: int)
    ensures !IsTokenExpired(AfterLogin(items, token, loginMs), nowMs) <==> nowMs <= loginMs + SessionLength
    ensures AfterLogin(items, token, loginMs)[TokenKey] == StoredToken(token)
  {
    ParseIntIntToString(loginMs + SessionLength);
  }

  /** Logout expires the session at once but leaves the token itself in storage. */
  lemma LogoutExpires(items: map<string, string>, nowMs: int)
    ensures IsTokenExpired(AfterLogout(items), nowMs)
    ensures TokenKey in items ==> TokenKey in AfterLogout(items) && AfterLogout(items)[TokenKey] == items[TokenKey]
  {
  }

  /** An expiry that does not start like a number parses to NaN, and such a session never expires. */
  lemma UnparsableExpiryNeverExpires(items: map<string, string>, nowMs: int)
    requires ExpirationKey in items
    requires var e := items[ExpirationKey]; |e| >= 1 && !IsDigit(e[0]) && e[0] != '-' && e[0] != '+'
    ensures !IsTokenExpired(items, nowMs)
  {
  }
}
