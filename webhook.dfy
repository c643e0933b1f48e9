/**
 * What the two `send_webhook` functions share: the URL checks, the port choice, picking the
 * first safe resolved address, the request each attempt sends, and the bounded retry loop
 * with its back-off.
 *
 * URL parsing and DNS resolution are parameters; the outcome of the n-th attempt is
 * `responses(n)`, and a sleep is recorded by its length in seconds instead of being taken.
 */
module Webhook {
  import opened Wrappers
  import opened Text
  import opened Net

  /** The parts of a parsed `reqwest::Url` that `send_webhook` looks at. */
  datatype Url = Url(scheme: string, host: Option<string>, port: Option<nat>)

  /** `Url::port_or_known_default`'s table of special schemes. */
  function KnownDefaultPort(scheme: string): Option<nat> {
    if scheme == "http" || scheme == "ws" then Some(80)
    else if scheme == "https" || scheme == "wss" then Some(443)
    else if scheme == "ftp" then Some(21)
    else None
  }

  /** `port_or_known_default().unwrap_or(443)`. */
  function Port(u: Url): nat {
    match u.port
    case Some(p) => p
    case None => KnownDefaultPort(u.scheme).GetOr(443)
  }

  /** For the two schemes a webhook may use, the port is the explicit one or the scheme's own. */
  lemma WebhookPorts(u: Url)
    requires u.scheme == "http" || u.scheme == "https"
    ensures u.port.Some? ==> Port(u) == u.port.value
    ensures u.port.None? ==> Port(u) == if u.scheme == "http" then 80 else 443
  {
  }

  /** `Iterator::find` over the resolved addresses. */
  function FirstSafe(addrs: seq<IpAddr>, safe: IpAddr -> bool): (r: Option<nat>)
    ensures r.None? <==> forall i :: 0 <= i < |addrs| ==> !safe(addrs[i])
    ensures r.Some? ==> r.value < |addrs| && safe(addrs[r.value]) && forall j :: 0 <= j < r.value ==> !safe(addrs[j])
  {
    if addrs == [] then None
    else if safe(addrs[0]) then Some(0)
    else match FirstSafe(addrs[1..], safe)
      case None => None
      case Some(i) => Some(i + 1)
  }

  datatype Skip = InvalidUrl | UnsupportedScheme | MissingHost | DnsFailed | NoSafeAddress | InvalidSecretKey

  /** Where a delivery goes: the client is pinned so that `host` resolves only to `addr`. */
  datatype Target = Target(host: string, port: nat, addr: IpAddr)

  /** Steps 1 to 3 of `send_webhook`: parse, check the scheme and host, resolve once, pick the first safe address. */
  function Plan(url: string, parse: string -> Option<Url>, resolve: (string, nat) -> Option<seq<IpAddr>>,
                safe: IpAddr -> bool): (r: Result<Target, Skip>)
    ensures r == Err(InvalidUrl) <==> parse(url).None?
    ensures r.Ok? <==>
      parse(url).Some? && (parse(url).value.scheme == "http" || parse(url).value.scheme == "https")
      && parse(url).value.host.Some? && resolve(parse(url).value.host.value, Port(parse(url).value)).Some?
      && exists i :: 0 <= i < |resolve(parse(url).value.host.value, Port(parse(url).value)).value|
                     && safe(resolve(parse(url).value.host.value, Port(parse(url).value)).value[i])
    ensures r.Ok? ==>
      var u := parse(url).value;
      var addrs := resolve(u.host.value, Port(u)).value;
      r.value.host == u.host.value && r.value.port == Port(u)
      && exists i :: 0 <= i < |addrs| && r.value.addr == addrs[i] && safe(addrs[i])
                     && forall j :: 0 <= j < i ==> !safe(addrs[j])
  {
    match parse(url)
    case None => Err(InvalidUrl)
    case Some(u) =>
      if u.scheme != "http" && u.scheme != "https" then Err(UnsupportedScheme)
      else match u.host
        case None => Err(MissingHost)
        case Some(host) =>
          match resolve(host, Port(u))
          case None => Err(DnsFailed)
          case Some(addrs) =>
            match FirstSafe(addrs, safe)
            case None => Err(NoSafeAddress)
            case Some(i) => Ok(Target(host, Port(u), addrs[i]))
  }

  // ---------------------------------------------------------------- the request

  const Body := "{}"

  datatype Request = Request(url: string, headers: map<string, string>, body: string)

  /** The POST each attempt sends: a JSON body, signed with `sha256=<hex>` under `signatureHeader` when a signature exists. */
  function WebhookRequest(url: string, signature: Option<string>, signatureHeader: string): (r: Request)
    requires signatureHeader != "Content-Type"
    ensures r.url == url && r.body == Body && "Content-Type" in r.headers && r.headers["Content-Type"] == "application/json"
    ensures signatureHeader in r.headers <==> signature.Some?
    ensures signature.Some? ==> r.headers[signatureHeader] == "sha256=" + signature.value
    ensures r.headers.Keys <= {"Content-Type", signatureHeader}
  {
    var headers := map["Content-Type" := "application/json"];
    Request(url, if signature.Some? then headers[signatureHeader := "sha256=" + signature.value] else headers, Body)
  }

  // ---------------------------------------------------------------- retry

  /** The result of one `request.send()`: a response status, or a transport error. */
  datatype Response = Status(code: nat) | TransportError

  const MaxRetries: nat := 3

  predicate IsSuccess(code: nat) { 200 <= code <= 299 }

  predicate IsClientError(code: nat) { 400 <= code <= 499 }

  /** A response the loop does not retry: a success or a client error. */
  predicate Final(r: Response) { r.Status? && (IsSuccess(r.code) || IsClientError(r.code)) }

  function Pow2(n: nat): (r: nat)
    ensures r >= 1
  {
    if n == 0 then 1 else 2 * Pow2(n - 1)
  }

  /** How many attempts the loop makes from attempt `a` on: it stops after the first final response or after the third attempt. */
  function AttemptsFrom(responses: nat -> Response, a: nat): (n: nat)
    requires a < MaxRetries
    ensures a < n <= MaxRetries
    decreases MaxRetries - a
  {
    if Final(responses(a)) || a == MaxRetries - 1 then a + 1 else AttemptsFrom(responses, a + 1)
  }

  /** The sleeps before attempts 1 .. k: `1 << attempt` seconds after each retried attempt. */
  function Backoff(k: nat): (r: seq<nat>)
    ensures |r| == k && forall i :: 0 <= i < k ==> r[i] == Pow2(i)
  {
    if k == 0 then [] else Backoff(k - 1) + [Pow2(k - 1)]
  }

  /**
   * The retry loop: every attempt sends the same request; the loop stops on a success or a
   * client error and otherwise sleeps `1 << attempt` seconds, except after the last attempt.
   */
  method DeliverWithRetry(request: Request, responses: nat -> Response)
    returns (sent: seq<Request>, sleeps: seq<nat>, delivered: bool)
    ensures |sent| == AttemptsFrom(responses, 0) && forall i :: 0 <= i < |sent| ==> sent[i] == request
    ensures sleeps == Backoff(|sent| - 1)
    ensures delivered <==> responses(|sent| - 1).Status? && IsSuccess(responses(|sent| - 1).code)
  {
    sent := [];
    sleeps := [];
    for attempt := 0 to MaxRetries
      invariant |sent| == attempt && forall i :: 0 <= i < attempt ==> sent[i] == request
      invariant sleeps == Backoff(if attempt < MaxRetries then attempt else MaxRetries - 1)
      invariant forall i :: 0 <= i < attempt ==> !Final(responses(i))
      invariant attempt < MaxRetries ==> AttemptsFrom(responses, 0) == AttemptsFrom(responses, attempt)
    {
      sent := sent + [request];
      var response := responses(attempt);
      if response.Status? && IsSuccess(response.code) {
        return sent, sleeps, true;
      } else if response.Status? && IsClientError(response.code) {
        return sent, sleeps, false;
      }
      if attempt < MaxRetries - 1 {
        sleeps := sleeps + [Pow2(attempt)];
      }
    }
    return sent, sleeps, false;
  }

  /**
   * At most three attempts and at least one; back-off sleeps are 1 s then 2 s, so the 4 s a
   * third retry would use never happens; a non-final response is retried while attempts remain.
   */
  lemma RetryIsBounded(responses: nat -> Response)
    ensures 1 <= AttemptsFrom(responses, 0) <= MaxRetries
    ensures forall i :: 0 <= i < AttemptsFrom(responses, 0) - 1 ==> !Final(responses(i))
    ensures AttemptsFrom(responses, 0) < MaxRetries ==> Final(responses(AttemptsFrom(responses, 0) - 1))
    ensures Backoff(AttemptsFrom(responses, 0) - 1) <= [1, 2]
  {
    var n := AttemptsFrom(responses, 0);
    if !Final(responses(0)) {
      if !Final(responses(1)) {
      }
    }
    assert Backoff(2) == [1, 2];
    assert Backoff(n - 1) == Backoff(2)[..n - 1];
  }

  // ---------------------------------------------------------------- one delivery

  /** One spawned `send_webhook(url, secret)` task. */
  datatype Dispatch = Dispatch(url: string, secret: Option<string>)

  /**
   * The client a delivery uses. When the builder succeeds it is pinned to the checked address
   * and follows redirects unless they are disabled; when it fails, `Client::new()` is used,
   * which is neither pinned nor redirect-free.
   */
  datatype Client = Client(pinnedTo: Option<Target>, followsRedirects: bool)

  function BuildClient(target: Target, redirectsDisabled: bool, builds: bool): (c: Client)
    ensures builds ==> c == Client(Some(target), !redirectsDisabled)
    ensures !builds ==> c == Client(None, true)
  {
    if builds then Client(Some(target), !redirectsDisabled) else Client(None, true)
  }

  /** What `send_webhook` did: skipped before any request, or made one to three attempts. */
  datatype Send =
    | Skipped(reason: Skip)
    | Attempted(client: Client, sent: seq<Request>, sleeps: seq<nat>, delivered: bool)

  /** Step 4 on: build the client, then run the retry loop with one fixed request. */
  method Attempt(url: string, target: Target, signature: Option<string>, signatureHeader: string,
                 redirectsDisabled: bool, builds: bool, responses: nat -> Response) returns (s: Send)
    requires signatureHeader != "Content-Type"
    ensures s.Attempted? && s.client == BuildClient(target, redirectsDisabled, builds)
    ensures |s.sent| == AttemptsFrom(responses, 0)
    ensures forall i :: 0 <= i < |s.sent| ==> s.sent[i] == WebhookRequest(url, signature, signatureHeader)
    ensures s.sleeps == Backoff(|s.sent| - 1)
    ensures s.delivered <==> responses(|s.sent| - 1).Status? && IsSuccess(responses(|s.sent| - 1).code)
  {
    var client := BuildClient(target, redirectsDisabled, builds);
    var request := WebhookRequest(url, signature, signatureHeader);
    var sent, sleeps, delivered := DeliverWithRetry(request, responses);
    s := Attempted(client, sent, sleeps, delivered);
  }

  /** `hex::encode` of the HMAC-SHA256 of the body under `key`, when the key is accepted. */
  function Signature(key: string, hmac: (string, string) -> Option<seq<byte>>): Option<string> {
    match hmac(key, Body)
    case None => None
    case Some(mac) => Some(Hex(mac))
  }
}
