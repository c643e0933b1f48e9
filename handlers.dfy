/**
 * riley-cms-api's request handlers (`handlers.rs`): the path and visibility checks, the 401
 * rule for list queries, the Cache-Control/ETag decision, the list and single-item responses,
 * Git Basic authentication, and `git_handler`'s order of checks and mapping of outcomes.
 *
 * A handler sees the content cache as the value it reads under the lock, and `now` as a
 * parameter. Header names are the lower-case forms the `http` crate stores.
 */
module Handlers {
  import opened Wrappers
  import opened Text
  import opened Types
  import opened Content
  import opened Config
  import opened Cgi
  import opened CmsMiddleware
  import CmsGit
  import CoreGit
  import Storage

  // ---------------------------------------------------------------- path and visibility

  const GitPathPunctuation := "-_./=?&+"

  /** `is_valid_git_path`: no `..` anywhere, and only ASCII alphanumerics and `-_./=?&+`. */
  predicate IsValidGitPath(path: string) {
    !Contains(path, "..") && forall i :: 0 <= i < |path| ==> IsAsciiAlphanumeric(path[i]) || path[i] in GitPathPunctuation
  }

  /** Every piece of `split('/')` occurs in the string it was split from. */
  lemma {:induction false} SplitPieceOccurs(s: string, k: nat)
    requires k < |Split(s, '/')|
    ensures Contains(s, Split(s, '/')[k])
    decreases |s|
  {
    match SplitOnce(s, '/')
    case None =>
      assert ContainsAt(s, s, 0);
    case Some((a, b)) =>
      assert s == a + ['/'] + b;
      assert Split(s, '/') == [a] + Split(b, '/');
      if k == 0 {
        assert ContainsAt(a, a, 0);
        ContainsInLeft(a, ['/'], a);
        ContainsInLeft(a + ['/'], b, a);
      } else {
        SplitPieceOccurs(b, k - 1);
        ContainsInRight(a + ['/'], b, Split(b, '/')[k - 1]);
      }
  }

  /** An accepted Git path has no `..` segment, so `PATH_INFO` cannot climb out of the repository. */
  lemma ValidGitPathCannotTraverse(path: string)
    requires IsValidGitPath(path)
    ensures !Storage.HasParentSegment(path)
  {
    forall k | 0 <= k < |Split(path, '/')| ensures Split(path, '/')[k] != ".." {
      SplitPieceOccurs(path, k);
    }
  }

  /** `is_content_visible`: an admin sees everything, anyone else only what has gone live. */
  predicate IsContentVisible(goesLiveAt: Option<Timestamp>, auth: AuthStatus, now: Timestamp) {
    auth == Admin || (goesLiveAt.Some? && goesLiveAt.value <= now)
  }

  /**
   * The single-item rule agrees with the list filter: a public caller sees what a list without
   * flags shows, an admin what a list with both flags shows.
   */
  lemma VisibleAsListed(d: Option<Timestamp>, now: Timestamp)
    ensures IsContentVisible(d, Public, now) <==> IsVisible(d, DefaultListOptions, now)
    ensures IsContentVisible(d, Admin, now) <==> IsVisible(d, ListOptions(true, true, None, None), now)
  {
    VisibilityByFlags(d, DefaultListOptions, now);
    VisibilityByFlags(d, ListOptions(true, true, None, None), now);
  }

  // ---------------------------------------------------------------- responses

  datatype Body =
    | ErrorBody(error: string)
    | PostsBody(posts: ListResult<PostSummary>)
    | SeriesListBody(series: ListResult<SeriesSummary>)
    | PostBody(post: Post)
    | RawContent(text: string)
    | SeriesBody(one: Series)
    | AssetsBody(assets: AssetListResult)
    | TextBody(text: string)
    | CgiStream

  datatype Response = Response(status: nat, headers: map<string, string>, body: Body)

  const InternalError := Response(500, map[], ErrorBody("Internal server error"))

  /** `not_found_response`: `"<kind> not found: <slug>"`. */
  function NotFound(kind: string, slug: string): Response {
    Response(404, map[], ErrorBody(kind + " not found: " + slug))
  }

  // ---------------------------------------------------------------- cache headers

  const CacheControl := "cache-control"
  const ETag := "etag"
  const ContentType := "content-type"
  const PrivateNoStore := "private, no-store"
  const PlainText := "text/plain; charset=utf-8"

  function PublicCacheControl(maxAge: nat, staleWhileRevalidate: nat): string {
    "public, max-age=" + NatToString(maxAge) + ", stale-while-revalidate=" + NatToString(staleWhileRevalidate)
  }

  /** The ages a public response advertises: the `[server]` section's, or 60 and 300 without one. */
  function CacheAges(server: Option<ServerConfig>): (r: (nat, nat))
    ensures server.None? ==> r == (DefaultCacheMaxAge, DefaultCacheStaleWhileRevalidate)
  {
    match server
    case None => (60, 300)
    case Some(s) => (s.cacheMaxAge, s.cacheStaleWhileRevalidate)
  }

  /** A missing `[server]` section caches exactly as a section with every field defaulted. */
  lemma MissingServerIsDefault()
    ensures CacheAges(None) == CacheAges(Some(DefaultServerConfig()))
  {
  }

  /**
   * `with_cache_headers`: an authenticated response gets `private, no-store` and no ETag; any
   * other gets the public directive with both ages and the content ETag. Nothing else changes.
   */
  function WithCacheHeaders(headers: map<string, string>, server: Option<ServerConfig>, etag: string,
                            authenticated: bool): (h: map<string, string>)
    ensures h.Keys == headers.Keys + {CacheControl} + (if authenticated then {} else {ETag})
    ensures authenticated ==> h[CacheControl] == PrivateNoStore
    ensures !authenticated ==>
      h[CacheControl] == PublicCacheControl(CacheAges(server).0, CacheAges(server).1) && h[ETag] == etag
    ensures forall k :: k in headers && k != CacheControl && k != ETag ==> h[k] == headers[k]
  {
    if authenticated then headers[CacheControl := PrivateNoStore]
    else
      var (maxAge, swr) := CacheAges(server);
      headers[CacheControl := PublicCacheControl(maxAge, swr)][ETag := etag]
  }

  /** The public directive never reads as the private one. */
  lemma PublicIsNotPrivate(maxAge: nat, staleWhileRevalidate: nat)
    ensures PublicCacheControl(maxAge, staleWhileRevalidate) != PrivateNoStore
  {
    assert PublicCacheControl(maxAge, staleWhileRevalidate)[1] == 'u';
  }

  // ---------------------------------------------------------------- lists

  datatype ListQuery = ListQuery(include_drafts: bool, include_scheduled: bool, limit: Option<nat>, offset: Option<nat>)

  /** `From<ListQuery> for ListOptions`. */
  function ToListOptions(q: ListQuery): ListOptions {
    ListOptions(q.include_drafts, q.include_scheduled, q.limit, q.offset)
  }

  /** `is_authenticated_request`: a query asks for drafts or scheduled items. */
  predicate IsAuthenticatedRequest(q: ListQuery) {
    q.include_drafts || q.include_scheduled
  }

  const DraftsNeedAuth := Response(401, map[], ErrorBody("Authentication required for drafts/scheduled content"))

  /**
   * The headers of a served list: private and without an ETag exactly when the query asked for
   * drafts or scheduled items, otherwise the public directive and the content ETag.
   */
  predicate ListCached(headers: map<string, string>, server: Option<ServerConfig>, etag: string, asked: bool) {
    CacheControl in headers
    && (headers[CacheControl] == PrivateNoStore <==> asked)
    && (ETag in headers <==> !asked)
    && (!asked ==> headers[ETag] == etag
                   && headers[CacheControl] == PublicCacheControl(CacheAges(server).0, CacheAges(server).1))
    && headers.Keys <= {CacheControl, ETag}
  }

  /**
   * `list_posts`: a query for drafts or scheduled posts from a non-admin is refused before the
   * cache is read; otherwise the page is served, cached as authenticated iff the query asked.
   */
  function ListPostsHandler(cache: ContentCache, server: Option<ServerConfig>, auth: AuthStatus, q: ListQuery,
                            now: Timestamp, order: seq<string>): (r: Response)
    requires Enumerates(order, cache.posts.Keys)
    ensures r.status == 401 <==> IsAuthenticatedRequest(q) && auth != Admin
    ensures r.status == 401 ==> r == DraftsNeedAuth
    ensures r.status != 401 ==> r.status == 200 && r.body == PostsBody(ListPosts(cache, ToListOptions(q), now, order))
    ensures r.status == 200 ==> ListCached(r.headers, server, cache.etag, IsAuthenticatedRequest(q))
  {
    if IsAuthenticatedRequest(q) && auth != Admin then DraftsNeedAuth
    else
      var ages := CacheAges(server);
      PublicIsNotPrivate(ages.0, ages.1);
      Response(200, WithCacheHeaders(map[], server, cache.etag, IsAuthenticatedRequest(q)),
               PostsBody(ListPosts(cache, ToListOptions(q), now, order)))
  }

  /** Whatever a public caller's query, every post it is shown has gone live. */
  lemma PublicPostListIsLive(cache: ContentCache, server: Option<ServerConfig>, q: ListQuery, now: Timestamp,
                             order: seq<string>)
    requires Enumerates(order, cache.posts.Keys)
    ensures var r := ListPostsHandler(cache, server, Public, q, now, order);
      r.status == 200 ==> r.body.PostsBody? && forall i :: 0 <= i < |r.body.posts.items| ==>
        r.body.posts.items[i].goes_live_at.Some? && r.body.posts.items[i].goes_live_at.value <= now
  {
    var r := ListPostsHandler(cache, server, Public, q, now, order);
    if r.status == 200 {
      var opts := ToListOptions(q);
      var items := r.body.posts.items;
      forall i | 0 <= i < |items|
        ensures items[i].goes_live_at.Some? && items[i].goes_live_at.value <= now
      {
        var k :| k in cache.posts && ToSummary(cache.posts[k]) == items[i] && IsVisible(cache.posts[k].goes_live_at, opts, now);
        VisibilityByFlags(cache.posts[k].goes_live_at, opts, now);
      }
    }
  }

  /** `list_series`: the same gate and caching rule over the series list. */
  function ListSeriesHandler(cache: ContentCache, server: Option<ServerConfig>, auth: AuthStatus, q: ListQuery,
                             now: Timestamp, order: seq<string>): (r: Response)
    requires Enumerates(order, cache.series.Keys)
    ensures r.status == 401 <==> IsAuthenticatedRequest(q) && auth != Admin
    ensures r.status == 401 ==> r == DraftsNeedAuth
    ensures r.status != 401 ==> r.status == 200 && r.body == SeriesListBody(ListSeries(cache, ToListOptions(q), now, order))
    ensures r.status == 200 ==> ListCached(r.headers, server, cache.etag, IsAuthenticatedRequest(q))
  {
    if IsAuthenticatedRequest(q) && auth != Admin then DraftsNeedAuth
    else
      var ages := CacheAges(server);
      PublicIsNotPrivate(ages.0, ages.1);
      Response(200, WithCacheHeaders(map[], server, cache.etag, IsAuthenticatedRequest(q)),
               SeriesListBody(ListSeries(cache, ToListOptions(q), now, order)))
  }

  /** An admin's list without flags is still cached publicly, ETag included: the query decides, not the caller. */
  lemma PlainAdminListIsPublic(cache: ContentCache, server: Option<ServerConfig>, q: ListQuery, now: Timestamp,
                               order: seq<string>)
    requires Enumerates(order, cache.series.Keys) && !IsAuthenticatedRequest(q)
    ensures var r := ListSeriesHandler(cache, server, Admin, q, now, order);
      r.status == 200 && ETag in r.headers && r.headers[CacheControl] != PrivateNoStore
  {
    var (m, s) := CacheAges(server);
    PublicIsNotPrivate(m, s);
  }

  // ---------------------------------------------------------------- single items

  /**
   * `get_post`: a post the caller may not see is answered exactly as a missing one; a visible
   * one is served, cached as authenticated iff the caller is an admin.
   */
  function GetPostHandler(cache: ContentCache, server: Option<ServerConfig>, auth: AuthStatus, slug: string,
                          now: Timestamp): (r: Response)
    ensures r.status == 200 <==> slug in cache.posts && IsContentVisible(cache.posts[slug].goes_live_at, auth, now)
    ensures r.status != 200 ==> r == NotFound("Post", slug)
    ensures r.status == 200 ==>
      r == Response(200, WithCacheHeaders(map[], server, cache.etag, auth == Admin), PostBody(cache.posts[slug]))
  {
    match GetPost(cache, slug)
    case None => NotFound("Post", slug)
    case Some(post) =>
      if !IsContentVisible(post.goes_live_at, auth, now) then NotFound("Post", slug)
      else Response(200, WithCacheHeaders(map[], server, cache.etag, auth == Admin), PostBody(post))
  }

  /** A hidden post cannot be told from an absent one. */
  lemma HiddenPostLooksMissing(cache: ContentCache, server: Option<ServerConfig>, auth: AuthStatus, slug: string,
                               now: Timestamp)
    requires slug in cache.posts && !IsContentVisible(cache.posts[slug].goes_live_at, auth, now)
    ensures GetPostHandler(cache, server, auth, slug, now)
         == GetPostHandler(cache.(posts := cache.posts - {slug}), server, auth, slug, now)
  {
  }

  /** `get_post_raw`: the same visibility rule, the bare content as UTF-8 text. */
  function GetPostRawHandler(cache: ContentCache, server: Option<ServerConfig>, auth: AuthStatus, slug: string,
                             now: Timestamp): (r: Response)
    ensures r.status == 200 <==> slug in cache.posts && IsContentVisible(cache.posts[slug].goes_live_at, auth, now)
    ensures r.status != 200 ==> r == NotFound("Post", slug)
    ensures r.status == 200 ==>
      r.body == RawContent(cache.posts[slug].content) && r.headers == WithCacheHeaders(map[ContentType := PlainText], server, cache.etag, auth == Admin)
  {
    match GetPost(cache, slug)
    case None => NotFound("Post", slug)
    case Some(post) =>
      if !IsContentVisible(post.goes_live_at, auth, now) then NotFound("Post", slug)
      else Response(200, WithCacheHeaders(map[ContentType := PlainText], server, cache.etag, auth == Admin),
                    RawContent(post.content))
  }

  /** The raw and the JSON form of a post are served to the same callers with the same caching. */
  lemma RawAgreesWithJson(cache: ContentCache, server: Option<ServerConfig>, auth: AuthStatus, slug: string,
                          now: Timestamp)
    ensures var raw := GetPostRawHandler(cache, server, auth, slug, now);
      var json := GetPostHandler(cache, server, auth, slug, now);
      raw.status == json.status
      && (raw.status == 200 ==> raw.headers[CacheControl] == json.headers[CacheControl]
                                && (ETag in raw.headers <==> ETag in json.headers)
                                && raw.headers[ContentType] == PlainText)
      && (raw.status != 200 ==> raw == json)
  {
  }

  /** `get_series`: the series' own `goes_live_at` decides, and hidden is answered as missing. */
  function GetSeriesHandler(cache: ContentCache, server: Option<ServerConfig>, auth: AuthStatus, slug: string,
                            now: Timestamp): (r: Response)
    ensures r.status == 200 <==> slug in cache.series && IsContentVisible(cache.series[slug].config.goes_live_at, auth, now)
    ensures r.status != 200 ==> r == NotFound("Series", slug)
    ensures r.status == 200 ==>
      r.body == SeriesBody(GetSeries(cache, slug).value) && r.headers == WithCacheHeaders(map[], server, cache.etag, auth == Admin)
  {
    match GetSeries(cache, slug)
    case None => NotFound("Series", slug)
    case Some(series) =>
      if !IsContentVisible(series.goes_live_at, auth, now) then NotFound("Series", slug)
      else Response(200, WithCacheHeaders(map[], server, cache.etag, auth == Admin), SeriesBody(series))
  }

  lemma HiddenSeriesLooksMissing(cache: ContentCache, server: Option<ServerConfig>, auth: AuthStatus, slug: string,
                                 now: Timestamp)
    requires slug in cache.series && !IsContentVisible(cache.series[slug].config.goes_live_at, auth, now)
    ensures GetSeriesHandler(cache, server, auth, slug, now)
         == GetSeriesHandler(cache.(series := cache.series - {slug}), server, auth, slug, now)
  {
  }

  // ---------------------------------------------------------------- assets

  datatype AssetListQuery = AssetListQuery(limit: Option<nat>, continuation_token: Option<string>)

  const AssetsNeedAuth := Response(401, map[], ErrorBody("Authentication required to list assets"))

  /**
   * `list_assets`: admins only; the storage listing for the query's options is never cached.
   * `listing` is the outcome of `list_assets` on the storage for the options it is given.
   */
  function ListAssetsHandler(auth: AuthStatus, q: AssetListQuery,
                             listing: AssetListOptions -> Result<AssetListResult, string>): (r: Response)
    ensures auth != Admin ==> r == AssetsNeedAuth
    ensures r.body.AssetsBody? <==> r.status == 200
    ensures r.status == 200 ==> auth == Admin && r.headers == map[CacheControl := PrivateNoStore]
    ensures auth == Admin ==>
      var outcome := listing(AssetListOptions(q.limit, q.continuation_token));
      (r.status == 200 <==> outcome.Ok?)
      && (outcome.Ok? ==> r.body.assets == outcome.value)
      && (outcome.Err? ==> r == InternalError)
  {
    if auth != Admin then AssetsNeedAuth
    else match listing(AssetListOptions(q.limit, q.continuation_token))
      case Ok(result) => Response(200, map[CacheControl := PrivateNoStore], AssetsBody(result))
      case Err(_) => InternalError
  }

  // ---------------------------------------------------------------- Git Basic authentication

  /** The foreign primitives the Git gate uses: base64 decoding, UTF-8 validation and SHA-256. */
  datatype Decoders = Decoders(base64: string -> Option<seq<byte>>, utf8: seq<byte> -> Option<string>,
                               sha: string -> seq<byte>)

  const BasicPrefix := "Basic "

  /** The configured `auth.git_token`, resolved, unless it is unconfigured, unresolvable or empty. */
  function GitToken(auth: Option<AuthConfig>, env: map<string, string>): (r: Option<string>)
    ensures r.Some? <==> (auth.Some? && auth.value.gitToken.Some?
      && Resolve(auth.value.gitToken.value, env).Ok? && Resolve(auth.value.gitToken.value, env).value != "")
    ensures r.Some? ==> r.value == Resolve(auth.value.gitToken.value, env).value
  {
    if auth.None? || auth.value.gitToken.None? then None
    else match Resolve(auth.value.gitToken.value, env)
      case Err(_) => None
      case Ok(token) => if token == "" then None else Some(token)
  }

  /** The `user:password` text of a `Basic` header, when it decodes. */
  function Credentials(authorization: Option<string>, dec: Decoders): (r: Option<string>)
    ensures r.Some? ==> authorization.Some? && StartsWith(authorization.value, BasicPrefix)
  {
    if authorization.None? then None
    else match StripPrefix(authorization.value, BasicPrefix)
      case None => None
      case Some(encoded) =>
        match dec.base64(encoded)
        case None => None
        case Some(bytes) => dec.utf8(bytes)
  }

  /**
   * `check_git_basic_auth`: fails closed on a missing, unresolvable or empty token and on any
   * header that is not `Basic base64(user:password)`; the user name is ignored and the password
   * is compared with the token through their digests.
   */
  predicate CheckGitBasicAuth(auth: Option<AuthConfig>, env: map<string, string>, authorization: Option<string>,
                              dec: Decoders) {
    match GitToken(auth, env)
    case None => false
    case Some(token) =>
      match Credentials(authorization, dec)
      case None => false
      case Some(credentials) =>
        match SplitOnce(credentials, ':')
        case None => false
        case Some((_, password)) => dec.sha(password) == dec.sha(token)
  }

  /**
   * For a header that decodes to `user:password` with no ':' in the user name, and an injective
   * digest, Git access is granted exactly when the password is the configured, non-empty token.
   */
  lemma BasicAuthChecksPassword(auth: Option<AuthConfig>, env: map<string, string>, encoded: string, dec: Decoders,
                                user: string, password: string)
    requires Injective(dec.sha)
    requires dec.base64(encoded).Some? && dec.utf8(dec.base64(encoded).value) == Some(user + ":" + password)
    requires ':' !in user
    ensures CheckGitBasicAuth(auth, env, Some(BasicPrefix + encoded), dec) <==> GitToken(auth, env) == Some(password)
    ensures CheckGitBasicAuth(auth, env, Some(BasicPrefix + encoded), dec) ==> password != ""
  {
    assert (BasicPrefix + encoded)[|BasicPrefix|..] == encoded;
    assert user + ":" + password == user + [':'] + password;
    SplitOnceAtFirst(user + [':'] + password, user, password, ':');
  }

  /** Unlike the Bearer middleware, a token that resolves to the empty string admits nobody. */
  lemma EmptyGitTokenAdmitsNobody(auth: Option<AuthConfig>, env: map<string, string>, authorization: Option<string>,
                                  dec: Decoders)
    requires auth.Some? && auth.value.gitToken.Some? && Resolve(auth.value.gitToken.value, env) == Ok("")
    ensures !CheckGitBasicAuth(auth, env, authorization, dec)
  {
  }

  // ---------------------------------------------------------------- Git error mapping

  const GitFailed := Response(500, map[], ErrorBody("Git operation failed"))

  /** `git_handler` on a failed `run_cgi`, as written: 413 with the message when it contains `exceeds maximum`. */
  function GitErrorResponseAsWritten(e: CmsGit.GitError): (r: Response)
    ensures r.status == 413 <==> Contains(CmsGit.Display(e), "exceeds maximum")
    ensures r.status == 413 ==> r.body == ErrorBody(CmsGit.Display(e))
    ensures r.status != 413 ==> r == GitFailed
  {
    var message := CmsGit.Display(e);
    if Contains(message, "exceeds maximum") then Response(413, map[], ErrorBody(message)) else GitFailed
  }

  /**
   * The mapping as intended: the same test for `exceeds max`, the words the body-limit error
   * actually carries.
   */
  function GitErrorResponse(e: CmsGit.GitError): (r: Response)
    ensures r.status == 413 <==> Contains(CmsGit.Display(e), "exceeds max")
    ensures r.status == 413 ==> r.body == ErrorBody(CmsGit.Display(e))
    ensures r.status != 413 ==> r == GitFailed
  {
    var message := CmsGit.Display(e);
    if Contains(message, "exceeds max") then Response(413, map[], ErrorBody(message)) else GitFailed
  }

  /** Where a text contains a pattern it contains every prefix of that pattern. */
  lemma PrefixOccurs(s: string, pat: string, n: nat)
    requires Contains(s, pat) && n <= |pat|
    ensures Contains(s, pat[..n])
  {
    var i :| 0 <= i <= |s| - |pat| && ContainsAt(s, pat, i);
    assert s[i..i + n] == s[i..i + |pat|][..n];
    assert ContainsAt(s, pat[..n], i);
  }

  /** Every error the mapping as written answers 413 the intended mapping answers the same way. */
  lemma AsWrittenMappingAgrees(e: CmsGit.GitError)
    requires GitErrorResponseAsWritten(e).status == 413
    ensures GitErrorResponse(e) == GitErrorResponseAsWritten(e)
  {
    PrefixOccurs(CmsGit.Display(e), "exceeds maximum", 11);
    assert "exceeds maximum"[..11] == "exceeds max";
  }

  /** A pattern with a character the text lacks does not occur in it. */
  lemma AbsentCharNoMatch(s: string, pat: string, j: nat)
    requires j < |pat| && pat[j] !in s
    ensures !Contains(s, pat)
  {
    forall i | 0 <= i <= |s| - |pat| ensures !ContainsAt(s, pat, i) {
      assert s[i..i + |pat|][j] == s[i + j];
    }
  }

  /** Decimal digits hold no `x`. */
  lemma DigitsLackX(n: nat)
    ensures 'x' !in NatToString(n)
  {
    var d := NatToString(n);
    assert forall i :: 0 <= i < |d| ==> d[i] != 'x';
  }

  /** In `u x v x w`, with no `x` in the three pieces, an `x` stands only at the two marked places. */
  lemma OnlyTwoX(u: string, v: string, w: string)
    requires 'x' !in u && 'x' !in v && 'x' !in w
    ensures var s := u + "x" + v + "x" + w;
      forall k :: 0 <= k < |s| && k != |u| && k != |u| + 1 + |v| ==> s[k] != 'x'
  {
    var s := u + "x" + v + "x" + w;
    forall k | 0 <= k < |s| && k != |u| && k != |u| + 1 + |v| ensures s[k] != 'x' {
      if k < |u| {
        assert s[k] == u[k];
      } else if k < |u| + 1 + |v| {
        assert s[k] == v[k - |u| - 1];
      } else {
        assert s[k] == w[k - |u| - 2 - |v|];
      }
    }
  }

  /**
   * A pattern with `x` at offsets 1 and 10 and something other than `w`'s first character at
   * offset 11 does not occur in `u x v x w` when `v` has eight characters and the pieces no `x`.
   */
  lemma TwoXNoMatch(u: string, v: string, w: string, pat: string)
    requires 'x' !in u && 'x' !in v && 'x' !in w
    requires |v| == 8 && |w| > 0 && |pat| >= 12 && pat[1] == 'x' && pat[10] == 'x' && pat[11] != w[0]
    ensures !Contains(u + "x" + v + "x" + w, pat)
  {
    var s := u + "x" + v + "x" + w;
    OnlyTwoX(u, v, w);
    forall i | 0 <= i <= |s| - |pat| ensures !ContainsAt(s, pat, i) {
      if s[i + 1] == 'x' && s[i + 10] == 'x' {
        assert s[i + 11] == w[0];
        assert s[i..i + |pat|][11] != pat[11];
      } else {
        assert s[i..i + |pat|][1] != pat[1] || s[i..i + |pat|][10] != pat[10];
      }
    }
  }

  lemma Regroup(g: string, a: string, b: string, c1: string, c2: string, c3: string, c4: string, c5: string,
                d: string, e: string)
    ensures g + ((((a + b) + ((((c1 + c2) + c3) + c4) + c5)) + d) + e)
         == (g + ((a + b) + c1)) + c2 + c3 + c4 + ((c5 + d) + e)
  {
  }

  /** The body-limit message cut at its two `x`s. */
  lemma OversizeAtX(total: nat, max: nat)
    ensures CmsGit.Display(CmsGit.BodyTooLarge(total, max))
         == ("Git error: " + (("Request body too large (" + NatToString(total)) + " bytes e")) + "x" + "ceeds ma" + "x"
            + ((" " + NatToString(max)) + " bytes)")
  {
    assert " bytes exceeds max " == " bytes e" + "x" + "ceeds ma" + "x" + " ";
    Regroup("Git error: ", "Request body too large (", NatToString(total), " bytes e", "x", "ceeds ma", "x", " ",
            NatToString(max), " bytes)");
  }

  lemma OversizePiecesLackX(total: nat, max: nat)
    ensures 'x' !in "Git error: " + (("Request body too large (" + NatToString(total)) + " bytes e")
    ensures 'x' !in (" " + NatToString(max)) + " bytes)"
  {
    DigitsLackX(total);
    DigitsLackX(max);
    assert 'x' !in "Git error: " && 'x' !in "Request body too large (" && 'x' !in " bytes e" && 'x' !in " bytes)";
  }

  lemma OversizeLacksMaximum(total: nat, max: nat)
    ensures !Contains(CmsGit.Display(CmsGit.BodyTooLarge(total, max)), "exceeds maximum")
  {
    OversizeAtX(total, max);
    OversizePiecesLackX(total, max);
    var u := "Git error: " + (("Request body too large (" + NatToString(total)) + " bytes e");
    var w := (" " + NatToString(max)) + " bytes)";
    TwoXNoMatch(u, "ceeds ma", w, "exceeds maximum");
  }

  /** As written, the body-limit error never contains `exceeds maximum`, so it is answered 500. */
  lemma OversizedBodyGets500AsWritten(total: nat, max: nat)
    ensures GitErrorResponseAsWritten(CmsGit.BodyTooLarge(total, max)) == GitFailed
  {
    OversizeLacksMaximum(total, max);
  }

  lemma OversizeContainsMax(total: nat, max: nat)
    ensures Contains(CmsGit.Display(CmsGit.BodyTooLarge(total, max)), "exceeds max")
  {
    var a, b, c, d := "Request body too large (", NatToString(total), " bytes exceeds max ", NatToString(max);
    var pat := "exceeds max";
    assert ContainsAt(c, pat, 7);
    ContainsInRight(a + b, c, pat);
    ContainsInLeft(a + b + c, d, pat);
    ContainsInLeft(a + b + c + d, " bytes)", pat);
    ContainsInRight("Git error: ", a + b + c + d + " bytes)", pat);
  }

  /** With the corrected test, an oversized body is answered 413 with the error's own text. */
  lemma OversizedBodyGets413(total: nat, max: nat)
    ensures GitErrorResponse(CmsGit.BodyTooLarge(total, max))
         == Response(413, map[], ErrorBody(CmsGit.Display(CmsGit.BodyTooLarge(total, max))))
  {
    OversizeContainsMax(total, max);
  }

  /** The header-cap message has no `x`. */
  lemma HeaderCapLacksX()
    ensures 'x' !in CmsGit.Display(CmsGit.HeadersTooLarge)
  {
    var a := "CGI headers too large (>";
    var b := NatToString(CmsGit.MaxCgiHeaderSize);
    var c := " bytes). Possible malformed response.";
    DigitsLackX(CmsGit.MaxCgiHeaderSize);
    var m := CmsGit.Message(CmsGit.HeadersTooLarge);
    assert m == a + b + c;
    assert 'x' !in a && 'x' !in c;
    assert 'x' !in m;
    assert CmsGit.Display(CmsGit.HeadersTooLarge) == "Git error: " + m;
  }

  /** Oversized CGI headers are a generic failure under either test: their message has no `x`. */
  lemma OversizedHeadersGet500()
    ensures GitErrorResponse(CmsGit.HeadersTooLarge) == GitFailed
    ensures GitErrorResponseAsWritten(CmsGit.HeadersTooLarge) == GitFailed
  {
    HeaderCapLacksX();
    AbsentCharNoMatch(CmsGit.Display(CmsGit.HeadersTooLarge), "exceeds max", 1);
    AbsentCharNoMatch(CmsGit.Display(CmsGit.HeadersTooLarge), "exceeds maximum", 1);
  }

  // ---------------------------------------------------------------- git_handler

  const DefaultGitMaxBodySize: nat := 100 * 1024 * 1024
  const DefaultCgiTimeoutSecs: nat := 300

  datatype GitConfig = GitConfig(maxBodySize: nat, cgiTimeoutSecs: nat)

  /**
   * A Git request as the handler reads it: the path after `/git/`, the method, the URI's query,
   * and the `Authorization`, `Content-Type` and `Content-Length` headers readable as text.
   */
  datatype GitRequest = GitRequest(path: string, requestMethod: string, query: Option<string>,
                                   authorization: Option<string>, contentType: Option<string>,
                                   contentLength: Option<string>)

  /** What the handler reads from its state: the auth section, the environment, `[git]`, the repository. */
  datatype GitSetup = GitSetup(auth: Option<AuthConfig>, env: map<string, string>, git: Option<GitConfig>,
                               repoPath: string, repo: seq<Entry>)

  /** The environment, body limit and timeout `run_cgi` is started with. */
  datatype CgiCall = CgiCall(env: map<string, string>, maxBodySize: nat, timeoutSecs: nat)

  /**
   * What a successful `run_cgi` leads to: the parsed headers, whether the response builder
   * accepts the streamed body, and how the child ends (`None` for a wait error or the timeout).
   */
  datatype CgiRun = CgiRun(headers: CgiHeaders, builds: bool, exit: Option<bool>)

  /** What happens once the child has been reaped. */
  datatype Effect = RefreshContent | FireWebhooks

  datatype GitReply = GitReply(response: Response, call: Option<CgiCall>, after: seq<Effect>)

  const InvalidPath := Response(400, map[], ErrorBody("Invalid path"))
  const GitAuthRequired := Response(401, map["www-authenticate" := "Basic realm=\"Git\""], TextBody("Authentication required"))
  const RepoNotFound := Response(404, map[], ErrorBody("Git repository not found"))

  /** `Content-Length` as a `u64`, when it reads as one. */
  function ContentLength(header: Option<string>): (r: Option<nat>)
    ensures r.Some? ==> header.Some? && r.value <= U64_MAX && ParseUnsigned(header.value, U64_MAX) == r
  {
    if header.None? then None else ParseUnsigned(header.value, U64_MAX)
  }

  /** A push is a request whose path names `git-receive-pack`. */
  predicate IsWriteOperation(path: string) {
    Contains(path, "git-receive-pack")
  }

  /** `StatusCode::from_u16(..).unwrap_or(OK)`: a code outside 100..999 becomes 200. */
  function StatusFromU16(code: nat): (r: nat)
    ensures 100 <= r <= 999
    ensures 100 <= code <= 999 ==> r == code
  {
    if 100 <= code <= 999 then code else DefaultStatus
  }

  /** The completion task: a refresh and then the webhooks, only for a push whose child exits successfully. */
  function AfterCompletion(isWrite: bool, exit: Option<bool>): (r: seq<Effect>)
    ensures r != [] <==> isWrite && exit == Some(true)
    ensures r != [] ==> r == [RefreshContent, FireWebhooks]
  {
    if isWrite && exit == Some(true) then [RefreshContent, FireWebhooks] else []
  }

  /** The CGI headers a proxied response carries: those whose name and value both parse. */
  function Copied(headers: map<string, string>, validName: string -> bool, validValue: string -> bool)
    : map<string, string>
  {
    map k | k in headers && validName(k) && validValue(headers[k]) :: headers[k]
  }

  /** The header copy loop, over the map's iteration order `order`. */
  method CopyHeaders(headers: map<string, string>, order: seq<string>, validName: string -> bool,
                     validValue: string -> bool) returns (copied: map<string, string>)
    requires Enumerates(order, headers.Keys)
    ensures copied == Copied(headers, validName, validValue)
  {
    copied := map[];
    for i := 0 to |order|
      invariant copied == map k | k in order[..i] && k in headers && validName(k) && validValue(headers[k]) :: headers[k]
    {
      var key := order[i];
      assert order[..i + 1] == order[..i] + [key];
      if validName(key) && validValue(headers[key]) {
        copied := copied[key := headers[key]];
      }
    }
    assert order[..|order|] == order;
  }

  /** Every check passes: a safe path, then Git credentials, then an existing repository. */
  predicate Admitted(req: GitRequest, setup: GitSetup, dec: Decoders) {
    IsValidGitPath(req.path) && CheckGitBasicAuth(setup.auth, setup.env, req.authorization, dec)
    && CoreGit.IsValidRepo(setup.repo)
  }

  /** The call `git_handler` makes for an admitted request. */
  predicate CallFor(req: GitRequest, setup: GitSetup, call: CgiCall) {
    var env := call.env;
    var length := ContentLength(req.contentLength);
    "GIT_PROJECT_ROOT" in env && env["GIT_PROJECT_ROOT"] == setup.repoPath
    && "GIT_HTTP_EXPORT_ALL" in env && env["GIT_HTTP_EXPORT_ALL"] == "1"
    && "PATH_INFO" in env && env["PATH_INFO"] == "/" + req.path
    && "REQUEST_METHOD" in env && env["REQUEST_METHOD"] == req.requestMethod
    && ("QUERY_STRING" in env <==> req.query.Some?) && (req.query.Some? ==> env["QUERY_STRING"] == req.query.value)
    && ("CONTENT_TYPE" in env <==> req.contentType.Some?)
    && (req.contentType.Some? ==> env["CONTENT_TYPE"] == req.contentType.value)
    && ("CONTENT_LENGTH" in env <==> length.Some?)
    && (length.Some? ==> env["CONTENT_LENGTH"] == NatToString(length.value))
    && (length.Some? ==> ParseUnsigned(env["CONTENT_LENGTH"], U64_MAX) == length)
    && call.maxBodySize == (if setup.git.Some? then setup.git.value.maxBodySize else DefaultGitMaxBodySize)
    && call.timeoutSecs == (if setup.git.Some? then setup.git.value.cgiTimeoutSecs else DefaultCgiTimeoutSecs)
  }

  /**
   * `git_handler`. The outcome of `run_cgi` for the call it makes is `run`, and `order` is the
   * iteration order of the parsed header map; `validName` and `validValue` are the `http`
   * crate's header name and value parsers.
   */
  method GitHandler(req: GitRequest, setup: GitSetup, dec: Decoders, run: Result<CgiRun, CmsGit.GitError>,
                    order: seq<string>, validName: string -> bool, validValue: string -> bool) returns (r: GitReply)
    requires run.Ok? ==> Enumerates(order, run.value.headers.headers.Keys)
    ensures !IsValidGitPath(req.path) ==> r == GitReply(InvalidPath, None, [])
    ensures IsValidGitPath(req.path) && !CheckGitBasicAuth(setup.auth, setup.env, req.authorization, dec) ==>
      r == GitReply(GitAuthRequired, None, [])
    ensures (IsValidGitPath(req.path) && CheckGitBasicAuth(setup.auth, setup.env, req.authorization, dec)
      && !CoreGit.IsValidRepo(setup.repo)) ==> r == GitReply(RepoNotFound, None, [])
    ensures r.call.Some? <==> Admitted(req, setup, dec)
    ensures r.call.Some? ==> CallFor(req, setup, r.call.value)
    ensures r.call.Some? && run.Ok? && run.value.builds ==>
      r.response == Response(StatusFromU16(run.value.headers.status),
                             Copied(run.value.headers.headers, validName, validValue), CgiStream)
      && r.after == AfterCompletion(IsWriteOperation(req.path), run.value.exit)
    ensures r.call.Some? && run.Ok? && !run.value.builds ==> r.response == GitFailed && r.after == []
    ensures r.call.Some? && run.Err? ==> r.response == GitErrorResponseAsWritten(run.error) && r.after == []
  {
    if !IsValidGitPath(req.path) {
      return GitReply(InvalidPath, None, []);
    }
    if !CheckGitBasicAuth(setup.auth, setup.env, req.authorization, dec) {
      return GitReply(GitAuthRequired, None, []);
    }
    if !CoreGit.IsValidRepo(setup.repo) {
      return GitReply(RepoNotFound, None, []);
    }
    var call := PrepareCall(req, setup);
    r := Proxy(req.path, call, run, order, validName, validValue);
  }

  /** The environment, limit and timeout of the call. */
  method PrepareCall(req: GitRequest, setup: GitSetup) returns (call: CgiCall)
    ensures CallFor(req, setup, call)
  {
    var maxBodySize := if setup.git.Some? then setup.git.value.maxBodySize else DefaultGitMaxBodySize;
    var timeout := if setup.git.Some? then setup.git.value.cgiTimeoutSecs else DefaultCgiTimeoutSecs;
    var env := CmsGit.BuildEnv(setup.repoPath, req.requestMethod, "/" + req.path, req.query, req.contentType,
                               ContentLength(req.contentLength));
    call := CgiCall(env, maxBodySize, timeout);
  }

  /** What `git_handler` answers once `run_cgi` has been called. */
  method Proxy(path: string, call: CgiCall, run: Result<CgiRun, CmsGit.GitError>, order: seq<string>,
               validName: string -> bool, validValue: string -> bool) returns (r: GitReply)
    requires run.Ok? ==> Enumerates(order, run.value.headers.headers.Keys)
    ensures r.call == Some(call)
    ensures run.Ok? && run.value.builds ==>
      r.response == Response(StatusFromU16(run.value.headers.status),
                             Copied(run.value.headers.headers, validName, validValue), CgiStream)
      && r.after == AfterCompletion(IsWriteOperation(path), run.value.exit)
    ensures run.Ok? && !run.value.builds ==> r.response == GitFailed && r.after == []
    ensures run.Err? ==> r.response == GitErrorResponseAsWritten(run.error) && r.after == []
  {
    match run {
      case Ok(cgi) =>
        var status := StatusFromU16(cgi.headers.status);
        var headers := CopyHeaders(cgi.headers.headers, order, validName, validValue);
        if !cgi.builds {
          return GitReply(GitFailed, Some(call), []);
        }
        r := GitReply(Response(status, headers, CgiStream), Some(call), AfterCompletion(IsWriteOperation(path), cgi.exit));
      case Err(e) =>
        r := GitReply(GitErrorResponseAsWritten(e), Some(call), []);
    }
}
}
