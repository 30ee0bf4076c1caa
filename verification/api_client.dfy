/**
 * `createRetrofit`: the server's base URL is given a trailing slash (Retrofit
 * refuses a base URL whose path does not end in '/'), and every request goes
 * through an interceptor that adds `Authorization: Bearer <secret>` when a
 * secret is configured. Sending the request is outside the model.
 */
module ApiClient {
  import opened Text

  datatype Header = Header(name: string, value: string)

  /** An outgoing request: its URL and its headers in the order they were added. */
  datatype Request = Request(url: string, headers: seq<Header>)

  /** The configured client: the base URL it was built with and the secret its interceptor uses. */
  datatype Client = Client(baseUrl: string, authSecret: string)

  const AuthorizationHeader := "Authorization"
  const BearerPrefix := "Bearer "

  /** The relative paths of the three `ApiService` endpoints. */
  const ImageDataPath := "api/Asset/RandomImageAndInfo"
  const ServerSettingsPath := "api/Config"
  const WeatherPath := "api/Weather"

  /** `if (!baseUrl.endsWith("/")) "$baseUrl/" else baseUrl` */
  function NormalizeBaseUrl(baseUrl: string): (url: string)
    ensures EndsWith(url, "/")
    ensures StartsWith(url, baseUrl) && |url| <= |baseUrl| + 1
    ensures EndsWith(baseUrl, "/") <==> url == baseUrl
  {
    if !EndsWith(baseUrl, "/") then baseUrl + "/" else baseUrl
  }

  /** Normalising twice is normalising once. */
  lemma NormalizeIdempotent(baseUrl: string)
    ensures NormalizeBaseUrl(NormalizeBaseUrl(baseUrl)) == NormalizeBaseUrl(baseUrl)
  {
  }

  /** A normalised base URL is the shortest extension of the input that ends in '/'. */
  lemma NormalizeIsShortest(baseUrl: string, other: string)
    requires StartsWith(other, baseUrl) && EndsWith(other, "/")
    ensures |NormalizeBaseUrl(baseUrl)| <= |other|
  {
    if |other| == |baseUrl| {
      assert other[..|baseUrl|] == other;
    }
  }

  /**
   * The check on the base URL as this model states it: the URL ends in '/'.
   * Retrofit itself parses the URL and requires the last segment of its path
   * to be empty, which a bare host ("http://frame:8080", path "/") also meets
   * and a URL whose query ends in '/' ("http://h/a?x/") does not.
   */
  predicate RetrofitAccepts(baseUrl: string) {
    EndsWith(baseUrl, "/")
  }

  /** `createRetrofit`: the client is built on the normalised base URL with the given secret. */
  function CreateRetrofit(baseUrl: string, authSecret: string): (client: Client)
    ensures RetrofitAccepts(client.baseUrl)
    ensures client.authSecret == authSecret
  {
    Client(NormalizeBaseUrl(baseUrl), authSecret)
  }

  /**
   * Without normalisation a base URL with a path, such as
   * "http://frame:8080/immich", would be refused: its path does not end in '/'.
   */
  lemma PathWithoutSlashNeedsNormalizing()
    ensures !RetrofitAccepts("http://frame:8080/immich")
    ensures NormalizeBaseUrl("http://frame:8080/immich") == "http://frame:8080/immich/"
  {
    assert "http://frame:8080/immich"[23..] == "h";
  }

  /**
   * The interceptor: with a non-empty secret the request gets one more
   * header, `Authorization: Bearer <secret>`; with an empty one it is passed
   * on unchanged.
   */
  function Intercept(authSecret: string, request: Request): (sent: Request)
    ensures sent.url == request.url
    ensures request.headers <= sent.headers && |sent.headers| <= |request.headers| + 1
  {
    if |authSecret| > 0 then
      Request(request.url, request.headers + [Header(AuthorizationHeader, BearerPrefix + authSecret)])
    else
      request
  }

  /** The secret read back from a bearer header value. */
  function BearerToken(value: string): (token: string)
    requires StartsWith(value, BearerPrefix)
    ensures BearerPrefix + token == value
  {
    value[|BearerPrefix|..]
  }

  /**
   * The interceptor keeps the URL and every header already present, and adds
   * a header exactly when the secret is non-empty; that header's bearer token
   * is the secret.
   */
  lemma InterceptAddsAuthorization(authSecret: string, request: Request)
    ensures var sent := Intercept(authSecret, request);
            && sent.url == request.url
            && sent.headers[..|request.headers|] == request.headers
            && (|sent.headers| > |request.headers| <==> authSecret != [])
            && (authSecret != [] ==>
                  && |sent.headers| == |request.headers| + 1
                  && sent.headers[|request.headers|].name == AuthorizationHeader
                  && StartsWith(sent.headers[|request.headers|].value, BearerPrefix)
                  && BearerToken(sent.headers[|request.headers|].value) == authSecret)
  {
    var sent := Intercept(authSecret, request);
    if authSecret != [] {
      var value := BearerPrefix + authSecret;
      assert sent.headers[|request.headers|].value == value;
      assert value[..|BearerPrefix|] == BearerPrefix;
      assert value[|BearerPrefix|..] == authSecret;
    }
  }

  /**
   * The URL of an endpoint: Retrofit resolves the relative path against the
   * base URL, which (ending in '/') is its directory.
   */
  function EndpointUrl(client: Client, path: string): (url: string)
    requires RetrofitAccepts(client.baseUrl)
  {
    client.baseUrl + path
  }

  /**
   * Whatever the user typed, the endpoint path is appended after a '/': the
   * one the address ends with, or the one normalisation added.
   */
  lemma EndpointJoinsWithOneSlash(baseUrl: string, authSecret: string, path: string)
    ensures var url := EndpointUrl(CreateRetrofit(baseUrl, authSecret), path);
            && (!EndsWith(baseUrl, "/") ==> url == baseUrl + "/" + path)
            && (EndsWith(baseUrl, "/") ==> url == baseUrl + path)
  {
  }

  /** The image endpoint of a server typed without a trailing slash. */
  lemma ImageEndpointExample()
    ensures EndpointUrl(CreateRetrofit("http://frame:8080", ""), ImageDataPath)
            == "http://frame:8080/" + ImageDataPath
  {
    assert "http://frame:8080"[16..] == "0";
  }
}
