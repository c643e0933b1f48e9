/**
 * riley-cms-core's `RileyCms` (`lib.rs`): the cache refresh and webhook dispatch and delivery,
 * which fail closed where riley-core's fall back to unsigned delivery.
 */
module RileyCmsCore {
  import opened Wrappers
  import opened Text
  import opened Net
  import opened Content
  import opened Config
  import opened Webhook
  import Security

  /**
   * The secret `fire_webhooks` hands to every delivery, or `None` when it sends nothing at all:
   * a configured secret that resolves to the empty string or fails to resolve stops dispatch.
   */
  function DispatchSecret(secret: Option<ConfigValue>, env: map<string, string>): (r: Option<Option<string>>)
    ensures secret.None? ==> r == Some(None)
    ensures secret.Some? ==> (r.Some? <==> Resolve(secret.value, env).Ok? && Resolve(secret.value, env).value != "")
    ensures secret.Some? && r.Some? ==> r.value == Some(Resolve(secret.value, env).value)
  {
    match secret
    case None => Some(None)
    case Some(v) =>
      match Resolve(v, env)
      case Err(_) => None
      case Ok(s) => if s == "" then None else Some(Some(s))
  }

  /** A signed delivery never uses an empty key. */
  lemma NoEmptySecretDispatched(secret: Option<ConfigValue>, env: map<string, string>)
    requires DispatchSecret(secret, env).Some? && DispatchSecret(secret, env).value.Some?
    ensures DispatchSecret(secret, env).value.value != ""
  {
  }

  const SignatureHeader := "X-Riley-Cms-Signature"

  /**
   * riley-cms-core's `send_webhook`: the same skip rules with `security::is_safe_ip`; a key the
   * HMAC refuses skips delivery instead of sending unsigned; the client disables redirects.
   */
  method SendWebhook(url: string, secret: Option<string>, parse: string -> Option<Url>,
                     resolve: (string, nat) -> Option<seq<IpAddr>>, hmac: (string, string) -> Option<seq<byte>>,
                     builds: bool, responses: nat -> Response) returns (s: Send)
    ensures Plan(url, parse, resolve, Security.IsSafeIp).Err? ==> s == Skipped(Plan(url, parse, resolve, Security.IsSafeIp).error)
    ensures Plan(url, parse, resolve, Security.IsSafeIp).Ok? && secret.Some? && hmac(secret.value, Body).None? ==>
      s == Skipped(InvalidSecretKey)
    ensures Plan(url, parse, resolve, Security.IsSafeIp).Ok? && !(secret.Some? && hmac(secret.value, Body).None?) ==>
      s.Attempted? && s.client == BuildClient(Plan(url, parse, resolve, Security.IsSafeIp).value, true, builds)
      && |s.sent| == AttemptsFrom(responses, 0) && s.sleeps == Backoff(|s.sent| - 1)
      && forall i :: 0 <= i < |s.sent| ==>
           s.sent[i] == WebhookRequest(url, if secret.Some? then Signature(secret.value, hmac) else None, SignatureHeader)
  {
    var plan := Plan(url, parse, resolve, Security.IsSafeIp);
    if plan.Err? {
      return Skipped(plan.error);
    }
    var signature: Option<string> := None;
    if secret.Some? {
      signature := Signature(secret.value, hmac);
      if signature.None? {
        return Skipped(InvalidSecretKey);
      }
    }
    s := Attempt(url, plan.value, signature, SignatureHeader, true, builds, responses);
  }

  /** With a secret, every request that is sent carries its signature. */
  lemma SecretAlwaysSigns(url: string, key: string, hmac: (string, string) -> Option<seq<byte>>)
    requires hmac(key, Body).Some?
    ensures var r := WebhookRequest(url, Signature(key, hmac), SignatureHeader);
      SignatureHeader in r.headers && r.headers[SignatureHeader] == "sha256=" + Hex(hmac(key, Body).value)
  {
  }

  /** A delivery that follows a redirect can only come from the fallback client, which is not pinned. */
  lemma RedirectsOnlyUnpinned(target: Target, builds: bool)
    ensures BuildClient(target, true, builds).followsRedirects <==> BuildClient(target, true, builds).pinnedTo.None?
  {
  }

  class RileyCms {
    /** The shared content cache; `refresh` replaces it as a whole. */
    var cache: ContentCache
    /** `webhooks.on_content_update`, when a `[webhooks]` section exists. */
    const webhookUrls: Option<seq<string>>
    /** `webhooks.secret`. */
    const webhookSecret: Option<ConfigValue>

    constructor(cache: ContentCache, webhookUrls: Option<seq<string>>, webhookSecret: Option<ConfigValue>)
      ensures this.cache == cache && this.webhookUrls == webhookUrls && this.webhookSecret == webhookSecret
    {
      this.cache := cache;
      this.webhookUrls := webhookUrls;
      this.webhookSecret := webhookSecret;
    }

    /** `refresh`, given the outcome of `ContentCache::load`: replace on success, keep and report on failure. */
    method Refresh(loaded: Result<ContentCache, ContentError>) returns (r: Result<(), ContentError>)
      modifies this
      ensures loaded.Ok? ==> r == Ok(()) && cache == loaded.value
      ensures loaded.Err? ==> r == Err(loaded.error) && cache == old(cache)
    {
      match loaded {
        case Ok(c) =>
          cache := c;
          r := Ok(());
        case Err(e) =>
          r := Err(e);
      }
    }

    /** `fire_webhooks`: one delivery per URL in order, or none when there is no section or the secret is unusable. */
    method FireWebhooks(env: map<string, string>) returns (dispatches: seq<Dispatch>)
      ensures webhookUrls.None? || DispatchSecret(webhookSecret, env).None? ==> dispatches == []
      ensures webhookUrls.Some? && DispatchSecret(webhookSecret, env).Some? ==> |dispatches| == |webhookUrls.value|
      ensures webhookUrls.Some? && DispatchSecret(webhookSecret, env).Some? ==> forall i :: 0 <= i < |dispatches| ==>
        dispatches[i] == Dispatch(webhookUrls.value[i], DispatchSecret(webhookSecret, env).value)
    {
      dispatches := [];
      if webhookUrls.None? {
        return;
      }
      var secret := DispatchSecret(webhookSecret, env);
      if secret.None? {
        return;
      }
      var urls := webhookUrls.value;
      for i := 0 to |urls|
        invariant |dispatches| == i
        invariant forall j :: 0 <= j < i ==> dispatches[j] == Dispatch(urls[j], secret.value)
      {
        dispatches := dispatches + [Dispatch(urls[i], secret.value)];
      }
    }
  }
}
