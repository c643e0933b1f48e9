/**
 * riley-cms-api's `auth_middleware` (`middleware.rs`): the admission decision for a Bearer
 * token. The token is compared through SHA-256 digests; `sha` stands for the digest function.
 * The `Authorization` header is its value when present and readable as visible ASCII.
 */
module CmsMiddleware {
  import opened Wrappers
  import opened Text
  import opened Config

  /** What the middleware attaches to every request: it never answers a request itself. */
  datatype AuthStatus = Public | Admin

  const BearerPrefix := "Bearer "

  /** The configured `auth.api_token`, resolved, when there is one and it resolves. */
  function ApiToken(auth: Option<AuthConfig>, env: map<string, string>): (r: Option<string>)
    ensures r.Some? <==> auth.Some? && auth.value.apiToken.Some? && Resolve(auth.value.apiToken.value, env).Ok?
    ensures r.Some? ==> r.value == Resolve(auth.value.apiToken.value, env).value
  {
    if auth.None? || auth.value.apiToken.None? then None
    else match Resolve(auth.value.apiToken.value, env)
      case Err(_) => None
      case Ok(token) => Some(token)
  }

  /** No two inputs share a digest: what comparing digests needs to amount to comparing tokens. */
  ghost predicate Injective(sha: string -> seq<byte>) {
    forall a, b :: sha(a) == sha(b) ==> a == b
  }

  /**
   * The status `auth_middleware` inserts: `Admin` only with a resolvable token and a `Bearer `
   * header whose trimmed rest has the token's digest; `Public` in every other case, including a
   * token that fails to resolve.
   */
  function Admission(auth: Option<AuthConfig>, env: map<string, string>, authorization: Option<string>,
                     sha: string -> seq<byte>): (r: AuthStatus)
    ensures r == Admin <==> (ApiToken(auth, env).Some? && authorization.Some?
      && StartsWith(authorization.value, BearerPrefix)
      && sha(Trim(authorization.value[|BearerPrefix|..])) == sha(ApiToken(auth, env).value))
  {
    match ApiToken(auth, env)
    case None => Public
    case Some(expected) =>
      match if authorization.Some? then StripPrefix(authorization.value, BearerPrefix) else None
      case None => Public
      case Some(provided) => if sha(Trim(provided)) == sha(expected) then Admin else Public
  }

  /**
   * Under an injective digest, `Bearer <provided>` is admitted exactly when the trimmed
   * `provided` is the resolved token; only the provided side is trimmed.
   */
  lemma AdmitsExactlyTheToken(auth: Option<AuthConfig>, env: map<string, string>, provided: string,
                              sha: string -> seq<byte>)
    requires Injective(sha)
    ensures Admission(auth, env, Some(BearerPrefix + provided), sha) == Admin <==> ApiToken(auth, env) == Some(Trim(provided))
  {
    assert (BearerPrefix + provided)[|BearerPrefix|..] == provided;
  }

  /**
   * There is no guard against an empty token: when the token resolves to the empty string, the
   * bare header `Bearer ` is admitted.
   */
  lemma EmptyTokenAdmitsBareBearer(auth: Option<AuthConfig>, env: map<string, string>, sha: string -> seq<byte>)
    requires ApiToken(auth, env) == Some("")
    ensures Admission(auth, env, Some(BearerPrefix), sha) == Admin
  {
    assert BearerPrefix[|BearerPrefix|..] == "";
  }
}
