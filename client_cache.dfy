/** The one-entry cache of database clients keyed by the session token. A client
    sends every request with an `Authorization: Bearer <token>` header for the
    token it was created with; the cache keeps the last token and the last client. */
module ClientCache {
  import opened Common

  const BearerPrefix: string := "Bearer "

  /** The `Authorization` header value a client sends for `token`. */
  function AuthorizationHeader(token: string): (r: string)
    ensures |r| == |BearerPrefix| + |token|
    ensures r[..|BearerPrefix|] == BearerPrefix && r[|BearerPrefix|..] == token
  {
    BearerPrefix + token
  }

  /** Two clients send the same header exactly when they were created with the same
      token: the header identifies the session. */
  lemma AuthorizationHeaderInjective(a: string, b: string)
    ensures AuthorizationHeader(a) == AuthorizationHeader(b) <==> a == b
  {
    if AuthorizationHeader(a) == AuthorizationHeader(b) {
      assert a == AuthorizationHeader(a)[|BearerPrefix|..];
    }
  }

  /** A database client bound to one session token (URL and key are the project's
      constants and are not modelled). */
  class DbClient {
    const token: string

    constructor (token: string)
      ensures this.token == token
    {
      this.token := token;
    }

    /** The header every request of this client carries. */
    function Header(): (r: string)
      ensures r == AuthorizationHeader(token)
    {
      AuthorizationHeader(token)
    }
  }

  /** Whether a call with `token` is answered from the cache. */
  predicate IsHit(lastToken: Option<string>, hasClient: bool, token: string)
  {
    lastToken == Some(token) && hasClient
  }

  /** The module-level pair `lastToken` / `cachedSupabaseClient`. */
  class TokenCache {
    var lastToken: Option<string>
    var cached: DbClient?

    /** A cached client belongs to the last token seen; the cache holds one client. */
    ghost predicate Valid()
      reads this, cached
    {
      cached != null ==> lastToken == Some(cached.token)
    }

    constructor ()
      ensures Valid() && lastToken == None && cached == null
    {
      lastToken := None;
      cached := null;
    }

    /** `createClerkSupabaseClient`: the cached client when the token is the last one
        and a client is cached; otherwise a new client for the token, which replaces
        the cache. Either way the token is remembered and the result is cached. */
    method CreateClerkSupabaseClient(token: string) returns (c: DbClient)
      requires Valid()
      modifies this
      ensures Valid()
      ensures lastToken == Some(token) && cached == c && c.token == token
      ensures IsHit(old(lastToken), old(cached) != null, token) ==> c == old(cached)
      ensures !IsHit(old(lastToken), old(cached) != null, token) ==> fresh(c)
      ensures c.Header() == AuthorizationHeader(token)
    {
      if lastToken == Some(token) && cached != null {
        return cached;
      }
      lastToken := Some(token);
      c := new DbClient(token);
      cached := c;
    }
  }
}
