/** The session context: a three-valued `isLoggedIn` (unknown, yes, no)
    kept next to the token stored on the device. */
module AuthContext {
  import opened Optional

  /** The device's key-value storage, reduced to its one `token` entry. */
  class TokenStore {
    var token: Option<string>

    constructor (initial: Option<string>)
      ensures token == initial
    {
      token := initial;
    }
  }

  /** A stored token counts only when it is non-empty: `!!token` here, and
      the `if (!token)` guard of every screen that calls the API. */
  predicate HasToken(token: Option<string>)
    ensures HasToken(token) <==> token.Some? && token.value != ""
  {
    Filled(token)
  }

  /** `AuthProvider`: the `isLoggedIn` state (`None` is `null`, not yet
      known) and the storage its operations read and write. */
  class AuthProvider {
    const store: TokenStore
    var isLoggedIn: Option<bool>

    /** The state agrees with the storage. */
    ghost predicate InSync()
      reads this, store
    {
      isLoggedIn == Some(HasToken(store.token))
    }

    /** Mounting the provider: `isLoggedIn` starts as `null`. */
    constructor (store: TokenStore)
      ensures this.store == store && isLoggedIn == None
    {
      this.store := store;
      isLoggedIn := None;
    }

    /** `checkAuth`: `isLoggedIn` becomes whether a non-empty token is stored. */
    method CheckAuth()
      modifies this
      ensures isLoggedIn == Some(HasToken(store.token))
      ensures InSync()
    {
      var token := store.token;
      isLoggedIn := Some(HasToken(token));
    }

    /** `login`: the given token is stored, unchecked, then `isLoggedIn`
        becomes true. */
    method Login(token: string)
      modifies this, store
      ensures store.token == Some(token) && isLoggedIn == Some(true)
      ensures InSync() <==> token != ""
    {
      store.token := Some(token);
      isLoggedIn := Some(true);
    }

    /** `logout`: the token is removed, then `isLoggedIn` becomes false. */
    method Logout()
      modifies this, store
      ensures store.token == None && isLoggedIn == Some(false)
      ensures InSync()
    {
      store.token := None;
      isLoggedIn := Some(false);
    }
  }

  /** The context's default value, seen by a consumer with no provider
      above it: `isLoggedIn` is `null` and `login`/`logout` do nothing. */
  class DefaultAuthContext {
    const isLoggedIn: Option<bool> := None

    method Login(token: string)
      ensures isLoggedIn == None
    {
    }

    method Logout()
      ensures isLoggedIn == None
    {
    }
  }

  /** `login("")` reports a session that `checkAuth` then denies: with any
      initial storage, right after `login("")` `isLoggedIn` is true, and a
      later `checkAuth` makes it false. */
  method LoginWithEmptyToken(initial: Option<string>) returns (afterLogin: Option<bool>, afterCheck: Option<bool>)
    ensures afterLogin == Some(true)
    ensures afterCheck == Some(false)
  {
    var store := new TokenStore(initial);
    var auth := new AuthProvider(store);
    auth.Login("");
    afterLogin := auth.isLoggedIn;
    auth.CheckAuth();
    afterCheck := auth.isLoggedIn;
  }

  /** Every session ends in agreement with the storage: from any start,
      after `checkAuth` and a `logout`, `isLoggedIn` is false and no token
      is stored. */
  method LogoutAfterLogin(initial: Option<string>, token: string) returns (loggedIn: Option<bool>, stored: Option<string>)
    ensures loggedIn == Some(false) && stored == None
  {
    var store := new TokenStore(initial);
    var auth := new AuthProvider(store);
    auth.CheckAuth();
    auth.Login(token);
    auth.Logout();
    loggedIn, stored := auth.isLoggedIn, store.token;
  }
}
