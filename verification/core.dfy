/** The shared request layer (api/comman/core.ts): URL joining, bearer-token
    resolution, header construction, the request each helper sends and the
    mapping from an HTTP response to a success value or an error message.
    The network itself is a parameter: a response is a status plus a body
    that either parsed as JSON or did not. */
module Core {
  import opened Wrappers
  import opened Text

  // ---------------------------------------------------------------------------
  // Base URL and path joining
  // ---------------------------------------------------------------------------

  /** The two environment variables the base URL is read from. */
  datatype Env = Env(nodeEnv: string, publicApiUrl: Option<string>)

  /** `API_BASE_URL`: the local server in development, otherwise the configured
      URL; an unset variable is interpolated as the text "undefined". The
      contract is definitional: it spells out the three cases. */
  function ApiBaseUrl(env: Env): (base: string)
    ensures env.nodeEnv == "development" ==> base == "http://localhost:3001"
    ensures env.nodeEnv != "development" && env.publicApiUrl.Some? ==> base == env.publicApiUrl.value
    ensures env.nodeEnv != "development" && env.publicApiUrl.None? ==> base == "undefined"
  {
    if env.nodeEnv == "development" then "http://localhost:3001"
    else match env.publicApiUrl
      case Some(u) => u
      case None => "undefined"
  }

  predicate StartsWithSlash(path: string) {
    |path| > 0 && path[0] == '/'
  }

  /** `apiUrl`: the base, one "/", then the path with at most one leading "/"
      removed. */
  function ApiUrl(base: string, path: string): (u: string)
    ensures IsPrefix(base + "/", u)
    ensures StartsWithSlash(path) ==> "/" + u[|base| + 1..] == path
    ensures !StartsWithSlash(path) ==> u[|base| + 1..] == path
  {
    var clean := if StartsWithSlash(path) then path[1..] else path;
    base + "/" + clean
  }

  /** "todos" and "/todos" name the same URL. */
  lemma ApiUrlLeadingSlashIrrelevant(base: string, path: string)
    requires !StartsWithSlash(path)
    ensures ApiUrl(base, "/" + path) == ApiUrl(base, path)
  {
    assert ("/" + path)[1..] == path;
  }

  /** Only one slash is removed: a path starting with "//" keeps one of them,
      so the result then has two slashes after the base. */
  lemma ApiUrlStripsOneSlashOnly(base: string, rest: string)
    ensures ApiUrl(base, "//" + rest) == base + "//" + rest
  {
    assert ("//" + rest)[1..] == "/" + rest;
  }

  // ---------------------------------------------------------------------------
  // Token resolution
  // ---------------------------------------------------------------------------

  /** What the installed token getter does when awaited: it rejects, or it
      resolves to a token or to null. */
  datatype GetterOutcome = Throws | Resolves(token: Option<string>)

  /** Where `getAuthToken` runs: outside a browser, or in one whose global
      token getter is installed or not. */
  datatype TokenEnvironment = ServerSide | Browser(getter: Option<GetterOutcome>)

  /** The getter was found and resolved to a truthy token. */
  predicate YieldsToken(env: TokenEnvironment) {
    && env.Browser? && env.getter.Some? && env.getter.value.Resolves?
    && env.getter.value.token.Some? && env.getter.value.token.value != ""
  }

  /** `getAuthToken`: never fails; every missing or failing source degrades
      to no token, and a token that is delivered is passed on unchanged. */
  function GetAuthToken(env: TokenEnvironment): (t: Option<string>)
    ensures t.Some? <==> YieldsToken(env)
    ensures t.Some? ==> t.value == env.getter.value.token.value && t.value != ""
  {
    match env
    case ServerSide => None
    case Browser(None) => None
    case Browser(Some(Throws)) => None
    case Browser(Some(Resolves(None))) => None
    case Browser(Some(Resolves(Some(token)))) => if token == "" then None else Some(token)
  }

  // ---------------------------------------------------------------------------
  // Headers
  // ---------------------------------------------------------------------------

  type Headers = map<string, string>

  const ContentType: string := "Content-Type"
  const Authorization: string := "Authorization"
  const JsonMediaType: string := "application/json"

  /** The `Authorization` value for a token: the "Bearer" scheme of RFC 6750,
      section 2.1. */
  function BearerValue(token: string): string {
    "Bearer " + token
  }

  /** Characters of a b64token (RFC 6750, section 2.1), apart from the
      trailing "=" padding. */
  predicate IsB64Char(c: char) {
    ('a' <= c <= 'z') || ('A' <= c <= 'Z') || ('0' <= c <= '9')
    || c == '-' || c == '.' || c == '_' || c == '~' || c == '+' || c == '/'
  }

  /** `b64token = 1*( ALPHA / DIGIT / "-" / "." / "_" / "~" / "+" / "/" ) *"="`:
      a non-empty run of token characters followed only by padding. */
  predicate IsB64Token(s: string) {
    && |s| > 0 && IsB64Char(s[0])
    && forall i :: 0 < i < |s| ==> IsB64Char(s[i]) || (s[i] == '=' && (i + 1 == |s| || s[i + 1] == '='))
  }

  /** Drops leading spaces. */
  function SkipSpaces(s: string): (r: string)
    ensures |r| <= |s| && r == s[|s| - |r|..]
    ensures |r| > 0 ==> r[0] != ' '
  {
    if |s| > 0 && s[0] == ' ' then SkipSpaces(s[1..]) else s
  }

  /** Reads the token out of an `Authorization` value of the form
      `credentials = "Bearer" 1*SP b64token`. */
  function ParseBearer(v: string): Option<string> {
    if |v| >= 7 && v[..7] == "Bearer " then
      var t := SkipSpaces(v[7..]);
      if IsB64Token(t) then Some(t) else None
    else None
  }

  /** The header value carries exactly the token, as valid bearer
      credentials, precisely when the token is a well-formed b64token. */
  lemma BearerRoundTrip(token: string)
    ensures ParseBearer(BearerValue(token)) == Some(token) <==> IsB64Token(token)
  {
    var v := BearerValue(token);
    assert v[..7] == "Bearer ";
    assert v[7..] == token;
    if IsB64Token(token) {
      assert SkipSpaces(token) == token;
    }
  }

  /** The token lookup `createAuthHeaders` awaits: a value, or an exception. */
  datatype TokenLookup = Found(token: Option<string>) | LookupFailed

  predicate HasToken(lookup: TokenLookup) {
    lookup.Found? && lookup.token.Some? && lookup.token.value != ""
  }

  /** `createAuthHeaders(additionalHeaders)`: a JSON content type that the
      caller's headers may override, the caller's other headers unchanged,
      and a bearer `Authorization` exactly when there is a token, replacing
      any the caller supplied. A failure while building yields no headers;
      `getAuthToken` never rejects, so with the real lookup that branch is
      never taken (see `AuthenticatedRequestCarriesToken`). */
  function CreateAuthHeaders(additional: Headers, lookup: TokenLookup): (h: Headers)
    ensures lookup.LookupFailed? ==> h == map[]
    ensures lookup.Found? ==>
      && h.Keys == additional.Keys + {ContentType} + (if HasToken(lookup) then {Authorization} else {})
      && h[ContentType] == (if ContentType in additional then additional[ContentType] else JsonMediaType)
      && (forall k :: k in additional && (k != Authorization || !HasToken(lookup)) ==> h[k] == additional[k])
    ensures HasToken(lookup) ==> h[Authorization] == BearerValue(lookup.token.value)
    ensures lookup.Found? && !HasToken(lookup) ==> (Authorization in h <==> Authorization in additional)
  {
    match lookup
    case LookupFailed => map[]
    case Found(token) =>
      var base := map[ContentType := JsonMediaType] + additional;
      if HasToken(lookup) then base[Authorization := BearerValue(token.value)] else base
  }

  // ---------------------------------------------------------------------------
  // Requests
  // ---------------------------------------------------------------------------

  datatype Method = GET | POST | PATCH | DELETE

  /** The six request helpers. */
  datatype Helper =
    | AuthenticatedGet | AuthenticatedPost | AuthenticatedPatch | AuthenticatedDelete
    | PublicGet | PublicPost
  {
    predicate IsPublic() {
      PublicGet? || PublicPost?
    }
  }

  /** What `fetch` is given: HTTP method, URL, the headers of the init object (None
      when no init object or no headers are passed) and the JSON body. */
  datatype Request<B> = Request(verb: Method, url: string, headers: Option<Headers>, body: Option<B>)

  function MethodOf(h: Helper): Method {
    match h
    case AuthenticatedGet => GET
    case PublicGet => GET
    case AuthenticatedPost => POST
    case PublicPost => POST
    case AuthenticatedPatch => PATCH
    case AuthenticatedDelete => DELETE
  }

  /** The request a helper sends for `path`. `body` is the caller's argument
      after JavaScript truthiness (None when absent or falsy); PATCH sends it
      as given. */
  function BuildRequest<B>(h: Helper, base: string, path: string, lookup: TokenLookup, body: Option<B>): (r: Request<B>)
    ensures r.verb == MethodOf(h) && r.url == ApiUrl(base, path)
    ensures h == PublicGet ==> r.headers == None
    ensures h == PublicPost ==> r.headers == Some(map[ContentType := JsonMediaType])
    ensures h.IsPublic() ==> r.headers.None? || Authorization !in r.headers.value
    ensures !h.IsPublic() ==> r.headers.Some?
    ensures h == AuthenticatedDelete ==> ContentType !in r.headers.value
    ensures h in {AuthenticatedGet, AuthenticatedPost, AuthenticatedPatch} ==>
      r.headers == Some(CreateAuthHeaders(map[], lookup))
    ensures h == AuthenticatedDelete ==> r.headers == Some(CreateAuthHeaders(map[], lookup) - {ContentType})
    ensures !h.IsPublic() && HasToken(lookup) ==>
      Authorization in r.headers.value && r.headers.value[Authorization] == BearerValue(lookup.token.value)
    ensures !h.IsPublic() && !HasToken(lookup) ==> Authorization !in r.headers.value
    ensures h in {AuthenticatedGet, AuthenticatedPost, AuthenticatedPatch} && lookup.Found? ==>
      ContentType in r.headers.value && r.headers.value[ContentType] == JsonMediaType
    ensures MethodOf(h) in {GET, DELETE} ==> r.body.None?
    ensures MethodOf(h) in {POST, PATCH} ==> r.body == body
  {
    assert ContentType != Authorization by {
      assert ContentType[0] != Authorization[0];
    }
    var url := ApiUrl(base, path);
    match h
    case AuthenticatedGet => Request(GET, url, Some(CreateAuthHeaders(map[], lookup)), None)
    case AuthenticatedPost => Request(POST, url, Some(CreateAuthHeaders(map[], lookup)), body)
    case AuthenticatedPatch => Request(PATCH, url, Some(CreateAuthHeaders(map[], lookup)), body)
    case AuthenticatedDelete => Request(DELETE, url, Some(CreateAuthHeaders(map[], lookup) - {ContentType}), None)
    case PublicGet => Request(GET, url, None, None)
    case PublicPost => Request(POST, url, Some(map[ContentType := JsonMediaType]), body)
  }

  // ---------------------------------------------------------------------------
  // Responses
  // ---------------------------------------------------------------------------

  /** A response body as `res.json()` sees it: JSON and its payload, or text
      that does not parse, with the parser's error message. `errorField` is
      the `error` member as `new Error(...)` renders it: None when absent or
      falsy (the empty string included), otherwise the `String()` of the
      value, so a string stays itself, 42 becomes "42", true becomes "true"
      and a truthy empty array becomes "". */
  datatype Body<P> = Json(errorField: Option<string>, payload: P) | Unparseable(syntaxError: string)

  /** What `fetch` delivers: a response, or a rejection from the network. */
  datatype Transport<P> = Received(status: nat, body: Body<P>) | NetworkFailure(message: string)

  /** `res.ok`. */
  predicate IsOk(status: nat) {
    200 <= status <= 299
  }

  /** The message thrown for a non-ok response: the body's truthy `error`
      member; "Request failed" when the body does not parse (the substitute
      object's `error`); otherwise a message naming the status. */
  function NonOkMessage<P>(status: nat, body: Body<P>): (m: string)
    ensures body.Json? && body.errorField.Some? ==> m == body.errorField.value
    ensures body.Unparseable? ==> m == "Request failed"
    ensures body.Json? && body.errorField.None? ==>
      m == "Request failed with status " + NatToString(status) && Contains(m, NatToString(status))
    ensures m == "" ==> body.Json? && body.errorField == Some("")
  {
    match body
    case Json(Some(e), _) => e
    case Json(None, _) => StatusMessage(status)
    case Unparseable(_) => "Request failed"
  }

  function StatusMessage(status: nat): (m: string)
    ensures IsPrefix("Request failed with status ", m) && Contains(m, NatToString(status))
  {
    ContainsSuffix("Request failed with status ", NatToString(status));
    "Request failed with status " + NatToString(status)
  }

  /** The shared tail of every helper: a non-ok status always rejects with the
      message above; an ok status resolves with the parsed body, or rejects
      with the parser's message when the body is not JSON; a network failure
      rejects with its own message. */
  function Interpret<P>(t: Transport<P>): (r: Result<P, string>)
    ensures t.Received? && !IsOk(t.status) ==> r == Failure(NonOkMessage(t.status, t.body))
    ensures r.Success? <==> t.Received? && IsOk(t.status) && t.body.Json?
    ensures r.Success? ==> r.value == t.body.payload
    ensures t.Received? && IsOk(t.status) && t.body.Unparseable? ==> r == Failure(t.body.syntaxError)
    ensures t.NetworkFailure? ==> r == Failure(t.message)
  {
    match t
    case NetworkFailure(m) => Failure(m)
    case Received(status, body) =>
      if !IsOk(status) then Failure(NonOkMessage(status, body))
      else match body
        case Json(_, payload) => Success(payload)
        case Unparseable(m) => Failure(m)
  }

  /** A 404 with `{"error": "Not found"}` rejects with exactly "Not found"; a
      500 whose body does not parse rejects with "Request failed", not with
      a message naming the status. */
  lemma StatusMappingExamples(p: int)
    ensures Interpret(Received(404, Json(Some("Not found"), p))) == Failure("Not found")
    ensures Interpret<int>(Received(500, Unparseable("Unexpected token"))) == Failure("Request failed")
    ensures Interpret(Received(500, Json(None, p))) == Failure("Request failed with status 500")
  {
    NatToStringThreeDigits(500);
    assert "Request failed with status " + "500" == "Request failed with status 500";
  }

  /** Every authenticated request carries, as bearer credentials, the token
      `getAuthToken` fetched for it, and no `Authorization` header when the
      getter delivers none. The lookup never fails, so the JSON content type
      is always sent except on DELETE. */
  lemma AuthenticatedRequestCarriesToken<B>(h: Helper, base: string, path: string, env: TokenEnvironment, body: Option<B>)
    requires !h.IsPublic()
    ensures var r := BuildRequest(h, base, path, Found(GetAuthToken(env)), body);
      && (Authorization in r.headers.value <==> YieldsToken(env))
      && (YieldsToken(env) ==> r.headers.value[Authorization] == BearerValue(env.getter.value.token.value))
      && (h != AuthenticatedDelete <==> ContentType in r.headers.value)
      && (h != AuthenticatedDelete ==> r.headers.value[ContentType] == JsonMediaType)
      && r.headers.value.Keys == (if h == AuthenticatedDelete then {} else {ContentType})
                                 + (if YieldsToken(env) then {Authorization} else {})
  {
  }

  /** One helper call end to end: build the request, hand it to the network,
      interpret what comes back. */
  function Perform<B, P>(h: Helper, base: string, path: string, lookup: TokenLookup, body: Option<B>,
                         network: Request<B> -> Transport<P>): (r: Result<P, string>)
    ensures var t := network(BuildRequest(h, base, path, lookup, body));
      && (t.Received? && !IsOk(t.status) ==> r == Failure(NonOkMessage(t.status, t.body)))
      && (r.Success? <==> t.Received? && IsOk(t.status) && t.body.Json?)
      && (r.Success? ==> r.value == t.body.payload)
      && (t.NetworkFailure? ==> r == Failure(t.message))
  {
    Interpret(network(BuildRequest(h, base, path, lookup, body)))
  }
}
