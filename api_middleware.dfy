/**
 * riley-api's `auth_middleware` (`middleware.rs`): the same admission decision as
 * riley-cms-api's, with the tokens compared as plain strings instead of through digests.
 */
module ApiMiddleware {
  import opened Wrappers
  import opened Text
  import opened Config
  import CmsMiddleware

  datatype AuthStatus = Public | Admin

  /** `Admin` only when `api_token` resolves and the trimmed rest of a `Bearer ` header equals it. */
  function Admission(auth: Option<AuthConfig>, env: map<string, string>, authorization: Option<string>): (r: AuthStatus)
    ensures r == Admin <==> (CmsMiddleware.ApiToken(auth, env).Some? && authorization.Some?
      && StartsWith(authorization.value, CmsMiddleware.BearerPrefix)
      && Trim(authorization.value[|CmsMiddleware.BearerPrefix|..]) == CmsMiddleware.ApiToken(auth, env).value)
  {
    if auth.None? || auth.value.apiToken.None? then Public
    else match Resolve(auth.value.apiToken.value, env)
      case Err(_) => Public
      case Ok(expected) =>
        match if authorization.Some? then StripPrefix(authorization.value, CmsMiddleware.BearerPrefix) else None
        case None => Public
        case Some(provided) => if Trim(provided) == expected then Admin else Public
  }

  /**
   * A request this middleware admits is admitted by riley-cms-api's too, whatever the digest;
   * under an injective digest the two decisions coincide.
   */
  lemma AgreesWithDigestComparison(auth: Option<AuthConfig>, env: map<string, string>, authorization: Option<string>,
                                   sha: string -> seq<byte>)
    ensures Admission(auth, env, authorization) == Admin ==> CmsMiddleware.Admission(auth, env, authorization, sha) == CmsMiddleware.Admin
    ensures CmsMiddleware.Injective(sha) ==>
      (Admission(auth, env, authorization) == Admin <==> CmsMiddleware.Admission(auth, env, authorization, sha) == CmsMiddleware.Admin)
  {
  }
}
