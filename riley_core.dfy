/**
 * riley-core's `Riley` (`lib.rs`): the cache refresh, webhook dispatch and delivery, and its own
 * outbound-address filter, which has neither a multicast check nor IPv4-mapped handling.
 */
module RileyCore {
  import opened Wrappers
  import opened Text
  import opened Net
  import opened Content
  import opened Config
  import opened Webhook
  import Security

  // ---------------------------------------------------------------- address filter

  /** `is_private_ip`: 10/8, 172.16/12, 192.168/16, 100.64/10 and fc00::/7. */
  predicate IsPrivateIp(ip: IpAddr) {
    match ip
    case V4(a, b, _, _) => a == 10 || (a == 172 && 16 <= b <= 31) || (a == 192 && b == 168) || (a == 100 && 64 <= b <= 127)
    case V6(s) => MaskHigh(s[0], 0x200) == 0xfc00
  }

  /** `is_link_local`: 169.254/16 and fe80::/10. */
  predicate IsLinkLocal(ip: IpAddr) {
    match ip
    case V4(a, b, _, _) => a == 169 && b == 254
    case V6(s) => MaskHigh(s[0], 0x40) == 0xfe80
  }

  /** riley-core's `is_safe_ip`. */
  predicate IsSafeIp(ip: IpAddr) {
    !IsLoopback(ip) && !IsUnspecified(ip) && !IsPrivateIp(ip) && !IsLinkLocal(ip)
  }

  /** The IPv4 ranges riley-core refuses: those of riley-cms-core except 224.0.0.0/4. */
  predicate BlockedV4(v: int) {
    v == 0
    || Security.InNet4(v, 10, 0, 0x100_0000)
    || Security.InNet4(v, 100, 64, 0x40_0000)
    || Security.InNet4(v, 127, 0, 0x100_0000)
    || Security.InNet4(v, 169, 254, 0x1_0000)
    || Security.InNet4(v, 172, 16, 0x10_0000)
    || Security.InNet4(v, 192, 168, 0x1_0000)
  }

  lemma SafeV4MatchesRanges(a: u8, b: u8, c: u8, d: u8)
    ensures IsSafeIp(V4(a, b, c, d)) <==> !BlockedV4(Security.V4Value(a, b, c, d))
  {
  }

  /** For IPv6 only `::1`, `::`, fc00::/7 and fe80::/10 are refused, whatever the address embeds. */
  lemma SafeV6MatchesRanges(s: Segments)
    ensures IsSafeIp(V6(s)) <==>
      !(s == [0, 0, 0, 0, 0, 0, 0, 1] || s == [0, 0, 0, 0, 0, 0, 0, 0]
        || (0xfc00 <= s[0] <= 0xfdff) || (0xfe80 <= s[0] <= 0xfebf))
  {
  }

  /** Everything riley-cms-core's filter admits, riley-core's admits too. */
  lemma CmsCoreSafeIsSafe(ip: IpAddr)
    requires Security.IsSafeIp(ip)
    ensures IsSafeIp(ip)
  {
    if ip.V6? && ToIpv4Mapped(ip.segments).Some? {
      var s := ip.segments;
      assert s[..6] == [0, 0, 0, 0, 0, 0xffff];
      assert s[0] == 0 && s[5] == 0xffff;
    }
  }

  /** The converse fails: multicast and IPv4-mapped private addresses pass here but not there. */
  lemma LaxerThanCmsCore()
    ensures IsSafeIp(V6([0xff02, 0, 0, 0, 0, 0, 0, 1])) && !Security.IsSafeIp(V6([0xff02, 0, 0, 0, 0, 0, 0, 1]))
    ensures IsSafeIp(MapV4(10, 0, 0, 1)) && !Security.IsSafeIp(MapV4(10, 0, 0, 1))
    ensures IsSafeIp(V4(224, 0, 0, 1)) && !Security.IsSafeIp(V4(224, 0, 0, 1))
  {
    Security.MappedJudgedAsV4(10, 0, 0, 1);
    var s := MapV4(10, 0, 0, 1).segments;
    assert s[0] == 0 && s[5] == 0xffff;
  }

  // ---------------------------------------------------------------- webhooks

  /** The secret handed to every delivery: a resolution failure means unsigned, not skipped. */
  function DispatchSecret(secret: Option<ConfigValue>, env: map<string, string>): (r: Option<string>)
    ensures secret.None? ==> r.None?
    ensures secret.Some? ==> (r.Some? <==> Resolve(secret.value, env).Ok?)
    ensures r.Some? ==> r == Some(Resolve(secret.value, env).value)
  {
    match secret
    case None => None
    case Some(v) => match Resolve(v, env) case Ok(s) => Some(s) case Err(_) => None
  }

  /**
   * riley-core's `send_webhook`: skip on a bad URL, a scheme other than http(s), no host, a
   * DNS failure or no safe address; otherwise sign when the key is accepted (unsigned when it
   * is not) and attempt delivery with a pinned client that keeps reqwest's redirect policy.
   */
  method SendWebhook(url: string, secret: Option<string>, parse: string -> Option<Url>,
                     resolve: (string, nat) -> Option<seq<IpAddr>>, hmac: (string, string) -> Option<seq<byte>>,
                     builds: bool, responses: nat -> Response) returns (s: Send)
    ensures Plan(url, parse, resolve, IsSafeIp).Err? ==> s == Skipped(Plan(url, parse, resolve, IsSafeIp).error)
    ensures Plan(url, parse, resolve, IsSafeIp).Ok? ==>
      s.Attempted? && s.client == BuildClient(Plan(url, parse, resolve, IsSafeIp).value, false, builds)
      && |s.sent| == AttemptsFrom(responses, 0) && s.sleeps == Backoff(|s.sent| - 1)
      && forall i :: 0 <= i < |s.sent| ==>
           s.sent[i] == WebhookRequest(url, if secret.Some? then Signature(secret.value, hmac) else None, SignatureHeader)
  {
    var plan := Plan(url, parse, resolve, IsSafeIp);
    if plan.Err? {
      return Skipped(plan.error);
    }
    var signature := if secret.Some? then Signature(secret.value, hmac) else None;
    s := Attempt(url, plan.value, signature, SignatureHeader, false, builds, responses);
  }

  const SignatureHeader := "X-Riley-Signature"

  /** A secret whose key the HMAC refuses leaves every request unsigned, as no secret would. */
  lemma RejectedKeySendsUnsigned(url: string, key: string, hmac: (string, string) -> Option<seq<byte>>)
    requires hmac(key, Body).None?
    ensures SignatureHeader !in WebhookRequest(url, Signature(key, hmac), SignatureHeader).headers
    ensures WebhookRequest(url, Signature(key, hmac), SignatureHeader) == WebhookRequest(url, None, SignatureHeader)
  {
  }

  // ---------------------------------------------------------------- the instance

  class Riley {
    /** The shared content cache; `refresh` replaces it as a whole. */
    var cache: ContentCache
    /** `webhooks.on_content_update`, when a `[webhooks]` section exists. */
    const webhookUrls: Option<seq<string>>
    /** The webhook secret `fire_webhooks` reads. */
    const webhookSecret: Option<ConfigValue>

    constructor(cache: ContentCache, webhookUrls: Option<seq<string>>, webhookSecret: Option<ConfigValue>)
      ensures this.cache == cache && this.webhookUrls == webhookUrls && this.webhookSecret == webhookSecret
    {
      this.cache := cache;
      this.webhookUrls := webhookUrls;
      this.webhookSecret := webhookSecret;
    }

    /** `refresh`: reload; on success replace the cache, on failure keep it and return the error. */
    method Refresh(root: Option<Node>, toml: Toml, sha: string -> seq<byte>) returns (r: Result<(), ContentError>)
      modifies this
      ensures LoadSpec(root, toml, sha).Ok? ==> r == Ok(()) && cache == LoadSpec(root, toml, sha).value
      ensures LoadSpec(root, toml, sha).Err? ==> r == Err(LoadSpec(root, toml, sha).error) && cache == old(cache)
    {
      var loaded := Load(root, toml, sha);
      match loaded {
        case Ok(c) =>
          cache := c;
          r := Ok(());
        case Err(e) =>
          r := Err(e);
      }
    }

    /** `fire_webhooks`: nothing without a `[webhooks]` section, otherwise one delivery per URL in order. */
    method FireWebhooks(env: map<string, string>) returns (dispatches: seq<Dispatch>)
      ensures webhookUrls.None? ==> dispatches == []
      ensures webhookUrls.Some? ==> |dispatches| == |webhookUrls.value|
      ensures webhookUrls.Some? ==> forall i :: 0 <= i < |dispatches| ==>
        dispatches[i] == Dispatch(webhookUrls.value[i], DispatchSecret(webhookSecret, env))
    {
      dispatches := [];
      if webhookUrls.None? {
        return;
      }
      var secret := DispatchSecret(webhookSecret, env);
      var urls := webhookUrls.value;
      for i := 0 to |urls|
        invariant |dispatches| == i
        invariant forall j :: 0 <= j < i ==> dispatches[j] == Dispatch(urls[j], secret)
      {
        dispatches := dispatches + [Dispatch(urls[i], secret)];
      }
    }
  }
}
