/** The outbound POST the sender reuses across flushes, and `createRequest`,
    which decides whether it carries an `Authorization` header. */
module Request {
  import opened Base
  import opened Text

  const AuthorizationHeaderName: string := "Authorization"
  const AuthorizationHeaderValue: string := "Api-token "

  datatype Header = Header(name: string, value: string)

  /** An `HttpPost`: target URI, headers in insertion order, and the entity
      (request body), which is absent until a flush sets it. */
  datatype HttpPost = HttpPost(uri: string, headers: seq<Header>, entity: Option<string>)

  /** `URISyntaxException` raised by `URL.toURI`. */
  datatype UriSyntaxError = UriSyntaxError(input: string)

  /** The value of the first header called `name`, if any. */
  function HeaderValue(headers: seq<Header>, name: string): (r: Option<string>)
    ensures r.None? <==> forall i :: 0 <= i < |headers| ==> headers[i].name != name
    ensures r.Some? ==> exists i :: 0 <= i < |headers| && headers[i] == Header(name, r.value)
  {
    if |headers| == 0 then None
    else if headers[0].name == name then Some(headers[0].value)
    else HeaderValue(headers[1..], name)
  }

  function Authorization(request: HttpPost): Option<string> {
    HeaderValue(request.headers, AuthorizationHeaderName)
  }

  /** The `Authorization` value a request should carry for `token`: the
      `Api-token` scheme and the token when the token is not blank, none
      otherwise. */
  function ExpectedAuthorization(token: Option<string>): (r: Option<string>)
    ensures r.Some? <==> !IsBlank(token)
    ensures r.Some? ==> StartsWith(r.value, AuthorizationHeaderValue) && r.value[|AuthorizationHeaderValue|..] == token.value
  {
    if IsBlank(token) then None else Some(AuthorizationHeaderValue + token.value)
  }

  /** Builds the POST for `url`; `uriParses` stands for `URL.toURI` succeeding.
      The header is set exactly when the token is not blank. */
  function CreateRequest(uriParses: string -> bool, url: string, token: Option<string>): (r: Result<HttpPost, UriSyntaxError>)
    ensures r.Err? <==> !uriParses(url)
    ensures r.Err? ==> r.error.input == url
    ensures r.Ok? ==> r.value.uri == url && r.value.entity.None?
    ensures r.Ok? ==> Authorization(r.value) == ExpectedAuthorization(token)
  {
    if !uriParses(url) then
      Err(UriSyntaxError(url))
    else
      var headers := match ExpectedAuthorization(token)
        case None => []
        case Some(v) => [Header(AuthorizationHeaderName, v)];
      Ok(HttpPost(url, headers, None))
  }

  /** What a server reads back as the credential: the `Authorization` value with
      the `Api-token ` scheme stripped. */
  function Credential(request: HttpPost): (r: Option<string>)
    ensures r.Some? ==> Authorization(request) == Some(AuthorizationHeaderValue + r.value)
  {
    match Authorization(request)
    case None => None
    case Some(v) =>
      if StartsWith(v, AuthorizationHeaderValue) then
        assert v == AuthorizationHeaderValue + v[|AuthorizationHeaderValue|..];
        Some(v[|AuthorizationHeaderValue|..])
      else None
  }

  /** The credential a built request carries is the configured token when that
      is not blank, and there is none otherwise. */
  lemma CredentialRoundTrip(uriParses: string -> bool, url: string, token: Option<string>)
    requires uriParses(url)
    ensures Credential(CreateRequest(uriParses, url, token).value) == (if IsBlank(token) then None else token)
  {
  }

  /** Changing the body leaves target and headers, hence the credential, alone. */
  function WithEntity(request: HttpPost, body: string): (r: HttpPost)
    ensures r.uri == request.uri && r.headers == request.headers
    ensures Authorization(r) == Authorization(request)
    ensures r.entity == Some(body)
  {
    request.(entity := Some(body))
  }
}
