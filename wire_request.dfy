/**
 * The translation of an API Gateway (HTTP API, payload 2.0) event into the
 * options of an injected web-server request: the path with the proxy
 * parameter or the stage removed, the query string appended, the defined
 * headers with the cookies folded into one `cookie` header (as section
 * 5.4 of RFC 6265 sends them), the payload and the authorizer's output as
 * the request's auth.
 */
module WireRequests {
  import opened Results
  import opened Text
  import opened OrderedCollections

  /** JWT claims and a lambda authorizer's context, abstracted to string values. */
  type Claims = map<string, string>
  type LambdaContext = map<string, string>

  datatype Jwt = Jwt(claims: Claims, scopes: seq<string>)
  datatype Authorizer = Authorizer(jwt: Option<Jwt>, lambda: Option<LambdaContext>)
  /** The HTTP method (`verb`) and the caller's address. */
  datatype Http = Http(verb: string, sourceIp: string)
  datatype RequestContext = RequestContext(stage: string, http: Http, authorizer: Option<Authorizer>)

  /** The fields of the event the translation reads. */
  datatype Event = Event(
    rawPath: string,
    rawQueryString: string,
    pathParameters: Option<seq<(string, Option<string>)>>,
    headers: seq<(string, Option<string>)>,
    cookies: Option<seq<string>>,
    body: Option<string>,
    isBase64Encoded: bool,
    requestContext: RequestContext)

  // ----- Path and url -----

  /** The first position from `i` on where `pattern` occurs in `s`. */
  function FirstFrom(s: string, pattern: string, i: nat): (r: Option<nat>)
    requires i <= |s|
    ensures r.Some? ==> i <= r.value && OccursAt(s, pattern, r.value)
                        && forall j :: i <= j < r.value ==> !OccursAt(s, pattern, j)
    ensures r.None? ==> forall j :: i <= j ==> !OccursAt(s, pattern, j)
    decreases |s| - i
  {
    if OccursAt(s, pattern, i) then Some(i)
    else if i + |pattern| >= |s| then None
    else FirstFrom(s, pattern, i + 1)
  }

  /** `s.indexOf(pattern)`, absent when it does not occur. */
  function IndexOf(s: string, pattern: string): (r: Option<nat>)
    ensures r.Some? ==> OccursAt(s, pattern, r.value) && forall j: nat :: j < r.value ==> !OccursAt(s, pattern, j)
    ensures r.None? ==> forall j: nat :: !OccursAt(s, pattern, j)
  {
    FirstFrom(s, pattern, 0)
  }

  /** `s.replace(pattern, replacement)` with a string pattern: only the first occurrence is replaced. */
  function ReplaceFirst(s: string, pattern: string, replacement: string): (r: string)
    ensures IndexOf(s, pattern).None? ==> r == s
    ensures IndexOf(s, pattern).Some? ==>
      var i := IndexOf(s, pattern).value;
      |r| == |s| - |pattern| + |replacement| && r[..i] == s[..i] && r[i..] == replacement + s[i + |pattern|..]
  {
    match IndexOf(s, pattern)
    case None => s
    case Some(i) => s[..i] + replacement + s[i + |pattern|..]
  }

  /** `pathParameters?.proxy` when it is set and non-empty. */
  function ProxyParameter(e: Event): (r: Option<string>)
    ensures r.Some? ==> r.value != ""
  {
    match e.pathParameters
    case None => None
    case Some(parameters) =>
      var found := Lookup(parameters, "proxy");
      if found.Some? && found.value.Some? && found.value.value != "" then Some(found.value.value) else None
  }

  /** The request path: the proxy parameter, or the raw path without its first `/stage`. */
  function Path(e: Event): (r: string)
    ensures ProxyParameter(e).Some? ==> r == "/" + ProxyParameter(e).value
    ensures ProxyParameter(e).None? && e.requestContext.stage == "" ==> r == e.rawPath
    ensures ProxyParameter(e).None? && e.requestContext.stage != "" ==>
      |r| <= |e.rawPath| && (IndexOf(e.rawPath, "/" + e.requestContext.stage).None? ==> r == e.rawPath)
    ensures ProxyParameter(e).None? && e.requestContext.stage != "" ==>
      r == ReplaceFirst(e.rawPath, "/" + e.requestContext.stage, "")
  {
    match ProxyParameter(e)
    case Some(proxy) => "/" + proxy
    case None =>
      var stage := e.requestContext.stage;
      if stage != "" then ReplaceFirst(e.rawPath, "/" + stage, "") else e.rawPath
  }

  /** A raw path that starts with `/stage` loses exactly that prefix. */
  lemma StagePrefixStripped(e: Event, rest: string)
    requires ProxyParameter(e).None? && e.requestContext.stage != ""
    requires e.rawPath == "/" + e.requestContext.stage + rest
    ensures Path(e) == rest
  {
    var pattern := "/" + e.requestContext.stage;
    assert OccursAt(e.rawPath, pattern, 0);
    assert e.rawPath[|pattern|..] == rest;
  }

  /** The request url: the path, then `?` and the raw query string when there is one. */
  function Url(e: Event): (r: string)
    ensures StartsWith(r, Path(e))
    ensures e.rawQueryString == "" <==> r == Path(e)
  {
    if |e.rawQueryString| > 0 then Path(e) + "?" + e.rawQueryString else Path(e)
  }

  /** When the path holds no `?`, the url splits at its first `?` into the path and the query. */
  lemma UrlSplits(e: Event)
    requires IndexOf(Path(e), "?").None?
    ensures e.rawQueryString == "" ==> IndexOf(Url(e), "?").None?
    ensures e.rawQueryString != "" ==>
      IndexOf(Url(e), "?") == Some(|Path(e)|) && Url(e)[|Path(e)| + 1..] == e.rawQueryString
  {
    var path := Path(e);
    if e.rawQueryString != "" {
      var url := Url(e);
      assert OccursAt(url, "?", |path|);
      forall j: nat | j < |path|
        ensures !OccursAt(url, "?", j)
      {
        assert !OccursAt(path, "?", j);
        assert url[j..j + 1] == path[j..j + 1];
      }
    }
  }

  // ----- Headers -----

  /** The request headers: the defined event headers, then the cookies joined with `; ` as `cookie`. */
  function HeaderRecord(e: Event): seq<(string, string)> {
    var defined := Cleaned(e.headers);
    if e.cookies.Some? then Put(defined, "cookie", Join("; ", e.cookies.value)) else defined
  }

  /** Every header holds its defined event value, except that cookies replace the `cookie` header. */
  lemma HeaderRecordLookup(e: Event, key: string)
    requires Distinct(Keys(e.headers))
    ensures Lookup(HeaderRecord(e), key)
         == if key == "cookie" && e.cookies.Some? then Some(Join("; ", e.cookies.value))
            else DefinedValue(e.headers, key)
  {
    CleanedLookup(e.headers, key);
    if e.cookies.Some? && key != "cookie" {
      PutOther(Cleaned(e.headers), "cookie", Join("; ", e.cookies.value), key);
    }
  }

  /** The `headers` getter. */
  method RequestHeaders(e: Event) returns (headers: seq<(string, string)>)
    ensures headers == HeaderRecord(e)
  {
    headers := [];
    for i := 0 to |e.headers|
      invariant headers == Cleaned(e.headers[..i])
    {
      assert e.headers[..i + 1][..i] == e.headers[..i];
      var (key, value) := e.headers[i];
      if value.Some? {
        headers := Put(headers, key, value.value);
      }
    }
    assert e.headers[..|e.headers|] == e.headers;
    if e.cookies.Some? {
      headers := Put(headers, "cookie", Join("; ", e.cookies.value));
    }
  }

  // ----- Payload -----

  /** The request payload: the body as text, or the bytes its base64 text stands for. */
  datatype Payload = TextPayload(text: string) | Base64Payload(encoded: string)

  function PayloadOf(e: Event): (r: Option<Payload>)
    ensures r.None? <==> e.body.None? || e.body.value == ""
    ensures r.Some? ==> r.value == if e.isBase64Encoded then Base64Payload(e.body.value) else TextPayload(e.body.value)
  {
    if e.body.None? || e.body.value == "" then None
    else if e.isBase64Encoded then Some(Base64Payload(e.body.value))
    else Some(TextPayload(e.body.value))
  }

  // ----- Auth -----

  /** A credential value: a claim, or the scope list. */
  datatype CredentialValue = Claim(text: string) | ScopeList(scopes: seq<string>)

  /** The auth of the injected request: its strategy is `jwt` or `lambda`. */
  datatype Auth =
    | JwtAuth(artifacts: Jwt, credentials: map<string, CredentialValue>)
    | LambdaAuth(context: LambdaContext)

  function Strategy(auth: Auth): string {
    if auth.JwtAuth? then "jwt" else "lambda"
  }

  /** `{scope: scopes, ...claims}`: a claim named `scope` overrides the scope list. */
  function JwtCredentials(jwt: Jwt): (r: map<string, CredentialValue>)
    ensures r.Keys == jwt.claims.Keys + {"scope"}
    ensures forall k :: k in jwt.claims ==> r[k] == Claim(jwt.claims[k])
    ensures "scope" !in jwt.claims ==> r["scope"] == ScopeList(jwt.scopes)
  {
    map["scope" := ScopeList(jwt.scopes)] + map k | k in jwt.claims :: Claim(jwt.claims[k])
  }

  /** The `auth` getter: absent without an authorizer, a JWT authorizer first, then a lambda one. */
  function AuthOf(e: Event): (r: Option<Auth>)
    ensures r.None? <==> e.requestContext.authorizer.None?
                         || (e.requestContext.authorizer.value.jwt.None? && e.requestContext.authorizer.value.lambda.None?)
    ensures r.Some? && r.value.JwtAuth? ==>
      var jwt := e.requestContext.authorizer.value.jwt;
      jwt == Some(r.value.artifacts) && r.value.credentials == JwtCredentials(jwt.value)
    ensures r.Some? && r.value.LambdaAuth? ==>
      e.requestContext.authorizer.value.jwt.None? && e.requestContext.authorizer.value.lambda == Some(r.value.context)
  {
    match e.requestContext.authorizer
    case None => None
    case Some(authorizer) =>
      if authorizer.jwt.Some? then Some(JwtAuth(authorizer.jwt.value, JwtCredentials(authorizer.jwt.value)))
      else if authorizer.lambda.Some? then Some(LambdaAuth(authorizer.lambda.value))
      else None
  }

  // ----- Decode -----

  /** The options of the injected request. */
  datatype InjectOptions = InjectOptions(
    url: string,
    auth: Option<Auth>,
    verb: string,
    headers: seq<(string, string)>,
    payload: Option<Payload>,
    remoteAddress: string)

  /** `decode`: the injected request the event stands for. */
  method Decode(e: Event) returns (r: InjectOptions)
    ensures r.url == Url(e) && r.auth == AuthOf(e) && r.payload == PayloadOf(e)
    ensures r.verb == e.requestContext.http.verb && r.remoteAddress == e.requestContext.http.sourceIp
    ensures r.headers == HeaderRecord(e)
  {
    var headers := RequestHeaders(e);
    r := InjectOptions(Url(e), AuthOf(e), e.requestContext.http.verb, headers, PayloadOf(e),
                       e.requestContext.http.sourceIp);
  }
}
