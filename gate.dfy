/**
 * The request gate of a lambda handler: it partitions the route's scopes
 * into required (`+x`), forbidden (`!x`) and selection scopes, authorizes
 * an event against them, copies the authorizer's output into the event's
 * auth record, drops undefined headers and picks a body parser from the
 * content-type header.
 */
module Gates {
  import opened Results
  import opened Text
  import opened OrderedCollections

  /** The errors the gate answers with before the handler runs. */
  datatype GateError = MissingContentType | InvalidContentType | UnsupportedMediaType | Forbidden

  /** The HTTP status each error is formatted with. */
  function StatusCode(e: GateError): (code: nat)
    ensures 400 <= code < 500
    ensures code == 403 <==> e == Forbidden
    ensures code == 415 <==> e == UnsupportedMediaType
  {
    match e
    case MissingContentType => 400
    case InvalidContentType => 400
    case UnsupportedMediaType => 415
    case Forbidden => 403
  }

  // ----- Scope partition -----

  /** The route scope `+x` requires `x`. */
  predicate IsRequired(value: string) { |value| > 0 && value[0] == '+' }

  /** The route scope `!x` forbids `x`. */
  predicate IsForbidden(value: string) { |value| > 0 && value[0] == '!' }

  /** The required scopes of a route, in order. */
  function RequiredScopes(scopes: seq<string>): seq<string> {
    if scopes == [] then []
    else
      var last := scopes[|scopes| - 1];
      RequiredScopes(scopes[..|scopes| - 1]) + (if IsRequired(last) then [last[1..]] else [])
  }

  /** The forbidden scopes of a route, in order. */
  function ForbiddenScopes(scopes: seq<string>): seq<string> {
    if scopes == [] then []
    else
      var last := scopes[|scopes| - 1];
      ForbiddenScopes(scopes[..|scopes| - 1]) + (if IsForbidden(last) then [last[1..]] else [])
  }

  /** The selection scopes of a route (every other value, unchanged), in order. */
  function SelectionScopes(scopes: seq<string>): seq<string> {
    if scopes == [] then []
    else
      var last := scopes[|scopes| - 1];
      SelectionScopes(scopes[..|scopes| - 1])
        + (if !IsRequired(last) && !IsForbidden(last) then [last] else [])
  }

  /** `x` is required exactly when the route lists `+x`. */
  lemma {:induction false} RequiredMembers(scopes: seq<string>, x: string)
    ensures x in RequiredScopes(scopes) <==> "+" + x in scopes
  {
    if scopes != [] {
      var init, last := scopes[..|scopes| - 1], scopes[|scopes| - 1];
      assert scopes == init + [last];
      RequiredMembers(init, x);
      if IsRequired(last) {
        assert last == "+" + last[1..];
      }
    }
  }

  /** `x` is forbidden exactly when the route lists `!x`. */
  lemma {:induction false} ForbiddenMembers(scopes: seq<string>, x: string)
    ensures x in ForbiddenScopes(scopes) <==> "!" + x in scopes
  {
    if scopes != [] {
      var init, last := scopes[..|scopes| - 1], scopes[|scopes| - 1];
      assert scopes == init + [last];
      ForbiddenMembers(init, x);
      if IsForbidden(last) {
        assert last == "!" + last[1..];
      }
    }
  }

  /** `x` is a selection scope exactly when the route lists it and it has neither prefix. */
  lemma {:induction false} SelectionMembers(scopes: seq<string>, x: string)
    ensures x in SelectionScopes(scopes) <==> x in scopes && !IsRequired(x) && !IsForbidden(x)
  {
    if scopes != [] {
      var init := scopes[..|scopes| - 1];
      assert scopes == init + [scopes[|scopes| - 1]];
      SelectionMembers(init, x);
    }
  }

  /** Every route scope lands in exactly one of the three lists. */
  lemma {:induction false} PartitionSizes(scopes: seq<string>)
    ensures |RequiredScopes(scopes)| + |ForbiddenScopes(scopes)| + |SelectionScopes(scopes)| == |scopes|
  {
    if scopes != [] {
      PartitionSizes(scopes[..|scopes| - 1]);
    }
  }

  /** The scopes an event carries: its auth scopes, or none. */
  function EventScopes(auth: GateAuth): (r: seq<string>)
    ensures auth.scopes.None? ==> r == []
    ensures auth.scopes.Some? ==> r == auth.scopes.value
  {
    match auth.scopes
    case None => []
    case Some(scopes) => scopes
  }

  /**
   * The authorization rule: every required scope is present, no forbidden
   * scope is present, and a non-empty selection shares a scope with the event.
   */
  predicate Admits(required: seq<string>, forbidden: seq<string>, selection: seq<string>, scopes: seq<string>) {
    (forall x :: x in required ==> x in scopes)
    && (forall x :: x in forbidden ==> x !in scopes)
    && (|selection| > 0 ==> exists x :: x in selection && x in scopes)
  }

  /** The rule stated on the route's own list of scopes. */
  lemma RouteAdmits(route: seq<string>, scopes: seq<string>)
    ensures Admits(RequiredScopes(route), ForbiddenScopes(route), SelectionScopes(route), scopes)
        <==> ((forall x :: "+" + x in route ==> x in scopes)
              && (forall x :: "!" + x in route ==> x !in scopes)
              && ((exists v :: v in route && !IsRequired(v) && !IsForbidden(v))
                  ==> exists v :: v in route && !IsRequired(v) && !IsForbidden(v) && v in scopes))
  {
    forall x
      ensures x in RequiredScopes(route) <==> "+" + x in route
      ensures x in ForbiddenScopes(route) <==> "!" + x in route
      ensures x in SelectionScopes(route) <==> x in route && !IsRequired(x) && !IsForbidden(x)
    {
      RequiredMembers(route, x);
      ForbiddenMembers(route, x);
      SelectionMembers(route, x);
    }
    var selection := SelectionScopes(route);
    if |selection| > 0 {
      assert selection[0] in selection;
    }
    if exists v :: v in route && !IsRequired(v) && !IsForbidden(v) {
      var v :| v in route && !IsRequired(v) && !IsForbidden(v);
      assert v in selection;
    }
  }

  /** A route without scopes admits every event. */
  lemma EmptyRouteAdmitsAll(scopes: seq<string>)
    ensures Admits(RequiredScopes([]), ForbiddenScopes([]), SelectionScopes([]), scopes)
  {
  }

  /** A gate: the route's scopes, partitioned once when the gate is created. */
  class Gate {
    var required: seq<string>
    var forbidden: seq<string>
    var selection: seq<string>

    /** `new Gate({auth: {scopes}})`; absent scopes behave as an empty list. */
    constructor(scopes: Option<seq<string>>)
      ensures scopes.None? ==> required == [] && forbidden == [] && selection == []
      ensures scopes.Some? ==>
        required == RequiredScopes(scopes.value) && forbidden == ForbiddenScopes(scopes.value)
        && selection == SelectionScopes(scopes.value)
    {
      required, forbidden, selection := [], [], [];
      new;
      if scopes.Some? {
        var values := scopes.value;
        for i := 0 to |values|
          invariant required == RequiredScopes(values[..i])
          invariant forbidden == ForbiddenScopes(values[..i])
          invariant selection == SelectionScopes(values[..i])
        {
          assert values[..i + 1][..i] == values[..i];
          var value := values[i];
          if IsRequired(value) {
            required := required + [value[1..]];
          } else if IsForbidden(value) {
            forbidden := forbidden + [value[1..]];
          } else {
            selection := selection + [value];
          }
        }
        assert values[..|values|] == values;
      }
    }

    /** `authorize`: passes exactly the events the rule admits; any other is forbidden. */
    method Authorize(auth: GateAuth) returns (r: Outcome<GateError>)
      ensures r.Pass? <==> Admits(required, forbidden, selection, EventScopes(auth))
      ensures r.Fail? ==> r.error == Forbidden
    {
      var scopes := EventScopes(auth);
      for i := 0 to |required|
        invariant forall k :: 0 <= k < i ==> required[k] in scopes
      {
        if required[i] !in scopes {
          return Fail(Forbidden);
        }
      }
      for i := 0 to |forbidden|
        invariant forall k :: 0 <= k < i ==> forbidden[k] !in scopes
      {
        if forbidden[i] in scopes {
          return Fail(Forbidden);
        }
      }
      if |selection| > 0 {
        var shared := Intersect(selection, scopes);
        if |shared| == 0 {
          return Fail(Forbidden);
        }
        assert shared[0] in shared;
      }
      return Pass;
    }
  }

  /** `Hoek.intersect(a, b)`: the members of `a` that `b` also holds, without repeats. */
  method Intersect(a: seq<string>, b: seq<string>) returns (r: seq<string>)
    ensures forall x :: x in r <==> x in a && x in b
    ensures Distinct(r)
  {
    r := [];
    for i := 0 to |a|
      invariant forall x :: x in r <==> x in a[..i] && x in b
      invariant Distinct(r)
    {
      assert a[..i + 1] == a[..i] + [a[i]];
      if a[i] in b && a[i] !in r {
        AppendDistinct(r, a[i]);
        r := r + [a[i]];
      }
    }
    assert a[..|a|] == a;
  }

  // ----- Authorizer output -----

  /** The claims of a JWT authorizer, abstracted to string values. */
  type Claims = map<string, string>

  /** The context a lambda authorizer returns, abstracted to string values. */
  type AuthorizerContext = map<string, string>

  datatype Jwt = Jwt(claims: Claims, scopes: seq<string>)

  datatype Authorizer = Authorizer(jwt: Option<Jwt>, lambda: Option<AuthorizerContext>)

  /** The event's `requestContext`, reduced to its authorizer. */
  datatype RequestContext = RequestContext(authorizer: Option<Authorizer>)

  /** The auth record of a gate event. */
  datatype GateAuth = GateAuth(claims: Option<Claims>, scopes: Option<seq<string>>, context: Option<AuthorizerContext>)

  /** `parseAuth`: the JWT claims and scopes and the lambda context, each only when that authorizer ran. */
  function ParseAuth(context: Option<RequestContext>): (r: GateAuth)
    ensures context.None? || context.value.authorizer.None? ==> r == GateAuth(None, None, None)
    ensures context.Some? && context.value.authorizer.Some? ==>
      var authorizer := context.value.authorizer.value;
      && (r.claims.Some? <==> authorizer.jwt.Some?)
      && (r.scopes.Some? <==> authorizer.jwt.Some?)
      && (authorizer.jwt.Some? ==>
            r.claims.value == authorizer.jwt.value.claims && r.scopes.value == authorizer.jwt.value.scopes)
      && r.context == authorizer.lambda
  {
    match context
    case None => GateAuth(None, None, None)
    case Some(requestContext) =>
      match requestContext.authorizer
      case None => GateAuth(None, None, None)
      case Some(authorizer) =>
        var claims := if authorizer.jwt.Some? then Some(authorizer.jwt.value.claims) else None;
        var scopes := if authorizer.jwt.Some? then Some(authorizer.jwt.value.scopes) else None;
        GateAuth(claims, scopes, authorizer.lambda)
  }

  /** An event without a JWT authorizer carries no scopes, so it passes only routes with no required or selection scopes. */
  lemma UnauthenticatedAdmitted(context: Option<RequestContext>, route: seq<string>)
    requires context.None? || context.value.authorizer.None? || context.value.authorizer.value.jwt.None?
    ensures Admits(RequiredScopes(route), ForbiddenScopes(route), SelectionScopes(route), EventScopes(ParseAuth(context)))
        <==> RequiredScopes(route) == [] && SelectionScopes(route) == []
  {
    var required := RequiredScopes(route);
    if required != [] {
      assert required[0] in required;
    }
  }

  // ----- Undefined values -----

  /** `cleanValues`: the entries whose value is defined. */
  method CleanValues<T>(source: seq<(string, Option<T>)>) returns (output: seq<(string, T)>)
    ensures output == Cleaned(source)
  {
    output := [];
    for i := 0 to |source|
      invariant output == Cleaned(source[..i])
    {
      assert source[..i + 1][..i] == source[..i];
      var (key, value) := source[i];
      if value.Some? {
        output := Put(output, key, value.value);
      }
    }
    assert source[..|source|] == source;
  }

  // ----- Content type -----

  /** A character of the media type's type: `[^\s/]`. */
  predicate IsTypeChar(c: char) { !IsWhiteSpace(c) && c != '/' }

  /** A character of the media type's subtype: `[^\s;]`. */
  predicate IsSubtypeChar(c: char) { !IsWhiteSpace(c) && c != ';' }

  /** The end of the longest run of type characters from `i` on. */
  function TypeEnd(h: string, i: nat): (j: nat)
    requires i <= |h|
    ensures i <= j <= |h|
    ensures forall k :: i <= k < j ==> IsTypeChar(h[k])
    ensures j < |h| ==> !IsTypeChar(h[j])
    decreases |h| - i
  {
    if i < |h| && IsTypeChar(h[i]) then TypeEnd(h, i + 1) else i
  }

  /** The end of the longest run of subtype characters from `i` on. */
  function SubtypeEnd(h: string, i: nat): (j: nat)
    requires i <= |h|
    ensures i <= j <= |h|
    ensures forall k :: i <= k < j ==> IsSubtypeChar(h[k])
    ensures j < |h| ==> !IsSubtypeChar(h[j])
    decreases |h| - i
  {
    if i < |h| && IsSubtypeChar(h[i]) then SubtypeEnd(h, i + 1) else i
  }

  predicate NoLineTerminator(s: string) {
    forall k :: 0 <= k < |s| ==> !IsLineTerminator(s[k])
  }

  /**
   * `h` matches `^([^\s/]+\/[^\s;]+)(.*)?$` with the slash at `i` and the
   * captured media type ending at `j`.
   */
  predicate MatchesAt(h: string, i: nat, j: nat) {
    && 0 < i && i + 1 < j <= |h| && h[i] == '/'
    && (forall k :: 0 <= k < i ==> IsTypeChar(h[k]))
    && (forall k :: i < k < j ==> IsSubtypeChar(h[k]))
    && NoLineTerminator(h[j..])
  }

  /** The media type the header's pattern captures, if the header matches. */
  function MediaType(h: string): Option<string> {
    var i := TypeEnd(h, 0);
    if i == 0 || i == |h| || h[i] != '/' then None
    else
      var j := SubtypeEnd(h, i + 1);
      if j == i + 1 || !NoLineTerminator(h[j..]) then None else Some(h[..j])
  }

  /** The header matches exactly when a media type is captured; the capture is the longest match. */
  lemma MediaTypeMatches(h: string)
    ensures MediaType(h).Some? <==> exists i, j :: MatchesAt(h, i, j)
    ensures MediaType(h).Some? ==>
      MatchesAt(h, TypeEnd(h, 0), |MediaType(h).value|) && MediaType(h).value == h[..|MediaType(h).value|]
    ensures forall i: nat, j: nat :: MatchesAt(h, i, j) ==> MediaType(h).Some? && j <= |MediaType(h).value|
  {
    forall i: nat, j: nat | MatchesAt(h, i, j)
      ensures MediaType(h).Some? && j <= |MediaType(h).value|
    {
      var t := TypeEnd(h, 0);
      assert t == i;
      var e := SubtypeEnd(h, i + 1);
      assert j <= e;
      assert NoLineTerminator(h[e..]) by {
        forall k | 0 <= k < |h[e..]|
          ensures !IsLineTerminator(h[e..][k])
        {
          assert h[e..][k] == h[j..][k + e - j];
        }
      }
    }
    if MediaType(h).Some? {
      assert MatchesAt(h, TypeEnd(h, 0), |MediaType(h).value|);
    }
  }

  /** The body parsers, in the order they are tried. */
  datatype PayloadParser = TextParser | JsonParser | FormParser

  /** `^text\/.+$` */
  predicate IsTextMime(mime: string) {
    |mime| > 5 && StartsWith(mime, "text/") && NoLineTerminator(mime[5..])
  }

  /** `^application\/(?:.+\+)?json$` */
  predicate IsJsonMime(mime: string) {
    mime == "application/json"
    || (|mime| >= 18 && StartsWith(mime, "application/")
        && mime[|mime| - 5..] == "+json" && NoLineTerminator(mime[12..|mime| - 5]))
  }

  /** At most one parser matches a media type. */
  lemma MimeKindsDisjoint(mime: string)
    ensures IsTextMime(mime) ==> !IsJsonMime(mime) && mime != "application/x-www-form-urlencoded"
    ensures IsJsonMime(mime) ==> mime != "application/x-www-form-urlencoded"
  {
    if IsTextMime(mime) {
      assert mime[0] == mime[..5][0] == 't';
    }
    if IsJsonMime(mime) && mime != "application/json" {
      assert mime[|mime| - 1] == mime[|mime| - 5..][4] == 'n';
    }
  }

  /** The first parser whose media type matches, if any. */
  function ParserFor(mime: string): (r: Option<PayloadParser>)
    ensures r == Some(TextParser) <==> IsTextMime(mime)
    ensures r == Some(JsonParser) <==> IsJsonMime(mime)
    ensures r == Some(FormParser) <==> mime == "application/x-www-form-urlencoded"
  {
    MimeKindsDisjoint(mime);
    if IsTextMime(mime) then Some(TextParser)
    else if IsJsonMime(mime) then Some(JsonParser)
    else if mime == "application/x-www-form-urlencoded" then Some(FormParser)
    else None
  }

  /** The content-type part of `parsePayload`: which parser reads the body, or why none does. */
  function PayloadParserFor(contentType: Option<string>): (r: Result<PayloadParser, GateError>)
    ensures r == Err(MissingContentType) <==> contentType.None? || contentType.value == ""
    ensures r == Err(InvalidContentType) <==>
      contentType.Some? && contentType.value != "" && MediaType(contentType.value).None?
    ensures r.Ok? <==> contentType.Some? && MediaType(contentType.value).Some?
                        && ParserFor(Lower(MediaType(contentType.value).value)).Some?
    ensures r.Ok? ==> Some(r.value) == ParserFor(Lower(MediaType(contentType.value).value))
    ensures r.Err? ==> r.error != Forbidden
  {
    if contentType.None? || contentType.value == "" then Err(MissingContentType)
    else
      match MediaType(contentType.value)
      case None => Err(InvalidContentType)
      case Some(mime) =>
        match ParserFor(Lower(mime))
        case None => Err(UnsupportedMediaType)
        case Some(parser) => Ok(parser)
  }

  /** The parser is chosen from the `content-type` entry of the cleaned headers. */
  function EventPayloadParser(headers: seq<(string, Option<string>)>): (r: Result<PayloadParser, GateError>)
    requires Distinct(Keys(headers))
    ensures r == PayloadParserFor(DefinedValue(headers, "content-type"))
  {
    CleanedLookup(headers, "content-type");
    PayloadParserFor(Lookup(Cleaned(headers), "content-type"))
  }

  /** A run of type characters from `i` that stops at `j` ends the type scan there. */
  lemma {:induction false} TypeEndIs(h: string, i: nat, j: nat)
    requires i <= j <= |h|
    requires forall k :: i <= k < j ==> IsTypeChar(h[k])
    requires j == |h| || !IsTypeChar(h[j])
    ensures TypeEnd(h, i) == j
    decreases j - i
  {
    if i < j {
      TypeEndIs(h, i + 1, j);
    }
  }

  /** A run of subtype characters from `i` that stops at `j` ends the subtype scan there. */
  lemma {:induction false} SubtypeEndIs(h: string, i: nat, j: nat)
    requires i <= j <= |h|
    requires forall k :: i <= k < j ==> IsSubtypeChar(h[k])
    requires j == |h| || !IsSubtypeChar(h[j])
    ensures SubtypeEnd(h, i) == j
    decreases j - i
  {
    if i < j {
      SubtypeEndIs(h, i + 1, j);
    }
  }

  /** A header without a slash is invalid. */
  lemma {:induction false} NoSlashInvalid(h: string)
    requires h != "" && forall k :: 0 <= k < |h| ==> IsTypeChar(h[k])
    ensures PayloadParserFor(Some(h)) == Err(InvalidContentType)
  {
    TypeEndIs(h, 0, |h|);
  }

  /** The capture is the type, the slash and the subtype; what follows the subtype is dropped. */
  lemma MediaTypeOfParts(t: string, sub: string, rest: string)
    requires t != "" && forall k :: 0 <= k < |t| ==> IsTypeChar(t[k])
    requires sub != "" && forall k :: 0 <= k < |sub| ==> IsSubtypeChar(sub[k])
    requires rest == [] || !IsSubtypeChar(rest[0])
    requires NoLineTerminator(rest)
    ensures MediaType(t + "/" + sub + rest) == Some(t + "/" + sub)
  {
    var h := t + "/" + sub + rest;
    TypeEndIs(h, 0, |t|);
    SubtypeEndIs(h, |t| + 1, |t| + 1 + |sub|);
    assert h[|t| + 1 + |sub|..] == rest;
    assert h[..|t| + 1 + |sub|] == t + "/" + sub;
  }

  /** Media-type parameters do not change which parser is chosen. */
  lemma ParametersIgnored(t: string, sub: string, parameters: string)
    requires t != "" && forall k :: 0 <= k < |t| ==> IsTypeChar(t[k])
    requires sub != "" && forall k :: 0 <= k < |sub| ==> IsSubtypeChar(sub[k])
    requires NoLineTerminator(parameters)
    ensures PayloadParserFor(Some(t + "/" + sub + ";" + parameters)) == PayloadParserFor(Some(t + "/" + sub))
  {
    assert t + "/" + sub + ";" + parameters == t + "/" + sub + (";" + parameters);
    assert t + "/" + sub == t + "/" + sub + [];
    MediaTypeOfParts(t, sub, ";" + parameters);
    MediaTypeOfParts(t, sub, []);
  }

  /** The media types the gate's tests pin down, after lowercasing. */
  lemma ParserExamples()
    ensures ParserFor("application/json") == Some(JsonParser)
    ensures ParserFor("application/vnd.api+json") == Some(JsonParser)
    ensures ParserFor("text/plain") == Some(TextParser)
    ensures ParserFor("multipart/form-data") == None
  {
    assert "application/json"[..5][0] == 'a';
    assert "application/vnd.api+json"[..5][0] == 'a';
    assert "application/vnd.api+json"[24 - 5..] == "+json";
    assert StartsWith("text/plain", "text/");
    assert "multipart/form-data"[..5][0] == 'm';
    assert "multipart/form-data"[..12][0] == 'm';
  }
}
