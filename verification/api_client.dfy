/**
  The HTTP client wrapper: how the base URL is derived from the build-time
  setting and the page's protocol, the request interceptor that attaches the
  bearer token, and the response interceptor that logs out on HTTP 401.
  The transport itself is not modelled: a request's outcome is an input.
 */
module ApiClient {
  import opened JsCore
  import opened AuthStore

  const DefaultBaseUrl: string := "http://localhost:8000"
  const InsecureScheme: string := "http://"
  const SecureScheme: string := "https://"
  const HttpsProtocol: string := "https:"
  const Unauthorized: int := 401

  /** `VITE_API_URL || 'http://localhost:8000'`: an absent or empty setting falls back to the default. */
  function ConfiguredUrl(env: Option<string>): (url: string)
    ensures Truthy(env) ==> url == env.value
    ensures !Truthy(env) ==> url == DefaultBaseUrl
    ensures url != ""
  {
    if Truthy(env) then env.value else DefaultBaseUrl
  }

  /** The mixed-content upgrade. `pageProtocol` is `window.location.protocol` when a
      window exists and `None` otherwise. */
  function UpgradeScheme(url: string, pageProtocol: Option<string>): (r: string)
    ensures pageProtocol == Some(HttpsProtocol) && StartsWith(url, InsecureScheme) ==>
              r == SecureScheme + url[|InsecureScheme|..]
    ensures !(pageProtocol == Some(HttpsProtocol) && StartsWith(url, InsecureScheme)) ==> r == url
  {
    if pageProtocol.Some? && pageProtocol.value == HttpsProtocol && StartsWith(url, InsecureScheme) then
      ReplaceFirst(url, InsecureScheme, SecureScheme)
    else
      url
  }

  /** Removes one trailing `/`, if there is one. */
  function TrimTrailingSlash(url: string): (r: string)
    ensures EndsWith(url, "/") ==> r + "/" == url
    ensures !EndsWith(url, "/") ==> r == url
    ensures r <= url
  {
    if EndsWith(url, "/") then SliceDropLast(url, 1) else url
  }

  /** `getBaseUrl()` */
  function BaseUrl(env: Option<string>, pageProtocol: Option<string>): (r: string)
    ensures var configured := ConfiguredUrl(env);
      var upgraded := if pageProtocol == Some(HttpsProtocol) && StartsWith(configured, InsecureScheme)
                      then SecureScheme + configured[|InsecureScheme|..] else configured;
      r == if EndsWith(configured, "/") then upgraded[..|upgraded| - 1] else upgraded
  {
    TrimTrailingSlash(UpgradeScheme(ConfiguredUrl(env), pageProtocol))
  }

  /** With nothing configured the API is the local development server, upgraded on an https page. */
  lemma DefaultBase(pageProtocol: Option<string>)
    ensures BaseUrl(None, pageProtocol) == BaseUrl(Some(""), pageProtocol)
    ensures pageProtocol != Some(HttpsProtocol) ==> BaseUrl(None, pageProtocol) == "http://localhost:8000"
    ensures pageProtocol == Some(HttpsProtocol) ==> BaseUrl(None, pageProtocol) == "https://localhost:8000"
  {
    assert StartsWith(DefaultBaseUrl, InsecureScheme);
    assert SecureScheme + DefaultBaseUrl[|InsecureScheme|..] == "https://localhost:8000";
    assert !EndsWith(DefaultBaseUrl, "/");
  }

  /** A doubled slash loses only one character: `x//` becomes `x/`. */
  lemma TrimRemovesOneSlash(x: string)
    ensures TrimTrailingSlash(x + "//") == x + "/"
  {
  }

  /** The purpose of the upgrade: on an https page the base URL never uses plain http. */
  lemma NoMixedContent(env: Option<string>)
    ensures !StartsWith(BaseUrl(env, Some(HttpsProtocol)), InsecureScheme)
  {
    var configured := ConfiguredUrl(env);
    var upgraded := UpgradeScheme(configured, Some(HttpsProtocol));
    var r := TrimTrailingSlash(upgraded);
    if StartsWith(configured, InsecureScheme) {
      assert upgraded[..|SecureScheme|] == SecureScheme;
      assert |r| > 4 ==> r[4] == upgraded[4] == 's';
    }
  }

  /** The part of an axios request configuration the interceptor touches. */
  datatype RequestConfig = RequestConfig(url: string, headers: map<string, string>)

  const AuthorizationHeader: string := "Authorization"

  /** The request interceptor: adds `Authorization: Bearer <token>` when the stored token is truthy. */
  function AttachToken<U>(config: RequestConfig, s: Session<U>): (r: RequestConfig)
    ensures r.url == config.url
    ensures AuthorizationHeader in r.headers <==> AuthorizationHeader in config.headers || Truthy(s.token)
    ensures Truthy(s.token) ==> r.headers[AuthorizationHeader] == "Bearer " + s.token.value
    ensures forall h :: h != AuthorizationHeader ==> (h in r.headers <==> h in config.headers)
    ensures forall h :: h in config.headers && (h != AuthorizationHeader || !Truthy(s.token)) ==>
              r.headers[h] == config.headers[h]
  {
    if Truthy(s.token) then
      config.(headers := config.headers[AuthorizationHeader := "Bearer " + s.token.value])
    else
      config
  }

  /** An HTTP response as far as the interceptor looks at it. */
  datatype HttpResponse = HttpResponse(status: int)

  /** An axios error: `response` is absent when no response arrived (network failure). */
  datatype HttpError = HttpError(response: Option<HttpResponse>)

  predicate IsUnauthorized<T>(reply: Settled<T, HttpError>) {
    reply.Rejected? && reply.reason.response.Some? && reply.reason.response.value.status == Unauthorized
  }

  /** What the caller of a request observes after the response interceptor. */
  datatype Intercepted<T, U> = Intercepted(session: Session<U>, result: Settled<T, HttpError>)

  /** The response interceptor: success passes through; an error with status 401 logs
      the session out; every error is still rejected with the same reason. */
  function Intercept<T, U>(s: Session<U>, reply: Settled<T, HttpError>): (r: Intercepted<T, U>)
    ensures r.result == reply
    ensures IsUnauthorized(reply) ==> r.session == Logout(s)
    ensures !IsUnauthorized(reply) ==> r.session == s
  {
    match reply
    case Fulfilled(_) => Intercepted(s, reply)
    case Rejected(error) =>
      if error.response.Some? && error.response.value.status == Unauthorized then
        Intercepted(Logout(s), reply)
      else
        Intercepted(s, reply)
  }

  /** Whatever the session held, a 401 from any endpoint leaves it without token and unauthenticated. */
  lemma UnauthorizedLogsOut<T, U>(s: Session<U>, error: HttpError)
    requires error.response == Some(HttpResponse(Unauthorized))
    ensures var r := Intercept<T, U>(s, Rejected(error));
      r.session.token.None? && !r.session.isAuthenticated && r.result == Rejected(error)
  {
  }

  /** The interceptor keeps the store's invariant. */
  lemma InterceptKeepsValid<T, U>(s: Session<U>, reply: Settled<T, HttpError>)
    requires Valid(s)
    ensures Valid(Intercept(s, reply).session)
  {
  }
}
