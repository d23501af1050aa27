/**
 * The Mollie OAuth2 provider adapter: the fixed endpoints of the Mollie web
 * application and API, the known scopes, the default scope list and the
 * space separator used to put several scopes into one `scope` parameter,
 * and the check that turns an HTTP error response into a provider failure
 * with a readable message.
 */
module Mollie {
  import opened Wrappers
  import opened Strings

  /** Base url of the Mollie API. */
  const ApiUrl: string := "https://api.mollie.nl"

  /** Base url of the Mollie web application. */
  const WebUrl: string := "https://www.mollie.com"

  /** The scopes the platform knows, as named shortcuts. */
  const ScopePaymentsRead: string := "payments.read"
  const ScopePaymentsWrite: string := "payments.write"
  const ScopeRefundsRead: string := "refunds.read"
  const ScopeRefundsWrite: string := "refunds.write"
  const ScopeCustomersRead: string := "customers.read"
  const ScopeCustomersWrite: string := "customers.write"
  const ScopeProfilesRead: string := "profiles.read"
  const ScopeProfilesWrite: string := "profiles.write"
  const ScopeSettlementsRead: string := "settlements.read"
  const ScopeOrganizationsRead: string := "organizations.read"
  const ScopeOrganizationsWrite: string := "organizations.write"

  const KnownScopes: seq<string> := [
    ScopePaymentsRead, ScopePaymentsWrite,
    ScopeRefundsRead, ScopeRefundsWrite,
    ScopeCustomersRead, ScopeCustomersWrite,
    ScopeProfilesRead, ScopeProfilesWrite,
    ScopeSettlementsRead,
    ScopeOrganizationsRead, ScopeOrganizationsWrite
  ]

  /** An access token is opaque to the adapter. */
  datatype AccessToken = AccessToken(value: string)

  /** The flow parameters handed to the token-url getter. */
  type Params = map<string, string>

  // ---------------------------------------------------------------------------
  // Endpoints and scopes
  // ---------------------------------------------------------------------------

  /** Where the authorization-code redirect starts: a page of the web application. */
  function BaseAuthorizationUrl(): (url: string)
    ensures IsPrefix(WebUrl, url)
    ensures url == "https://www.mollie.com/oauth2/authorize"
  {
    PrefixOfConcat(WebUrl, "/oauth2/authorize");
    WebUrl + "/oauth2/authorize"
  }

  /** Where the code is exchanged for a token: an API endpoint; `params` is not used. */
  function BaseAccessTokenUrl(params: Params): (url: string)
    ensures IsPrefix(ApiUrl, url)
    ensures url == "https://api.mollie.nl/oauth2/tokens"
  {
    PrefixOfConcat(ApiUrl, "/oauth2/tokens");
    ApiUrl + "/oauth2/tokens"
  }

  /** Where the organization profile is fetched: an API endpoint; `token` is not used. */
  function ResourceOwnerDetailsUrl(token: AccessToken): (url: string)
    ensures IsPrefix(ApiUrl, url)
    ensures url == "https://api.mollie.nl/v1/organizations/me"
  {
    PrefixOfConcat(ApiUrl, "/v1/organizations/me");
    ApiUrl + "/v1/organizations/me"
  }

  /**
   * The scopes requested when the caller names none: only the read access to
   * the organization that the profile request needs.
   */
  function DefaultScopes(): (scopes: seq<string>)
    ensures |scopes| == 1 && scopes[0] == "organizations.read"
    ensures forall i :: 0 <= i < |scopes| ==> scopes[i] in KnownScopes
  {
    [ScopeOrganizationsRead]
  }

  /**
   * The string put between scopes in the `scope` parameter: one character,
   * a space, which occurs in none of the known scopes.
   */
  function ScopeSeparator(): (sep: string)
    ensures |sep| == 1 && sep[0] == ' '
    ensures forall i :: 0 <= i < |KnownScopes| ==> sep[0] !in KnownScopes[i]
  {
    " "
  }

  /** The `scope` parameter built from `scopes` with this provider's separator. */
  function ScopeParameter(scopes: seq<string>): string
  {
    Join(scopes, ScopeSeparator())
  }

  /** The authorization page is this literal url on the web application. */
  lemma AuthorizationUrlIsFixed()
    ensures BaseAuthorizationUrl() == "https://www.mollie.com/oauth2/authorize"
    ensures IsPrefix(WebUrl, BaseAuthorizationUrl())
  {
  }

  /** The token endpoint is this literal url on the API, whatever the parameters. */
  lemma AccessTokenUrlIsFixed(p: Params, q: Params)
    ensures BaseAccessTokenUrl(p) == BaseAccessTokenUrl(q) == "https://api.mollie.nl/oauth2/tokens"
    ensures IsPrefix(ApiUrl, BaseAccessTokenUrl(p))
  {
  }

  /** The profile endpoint is this literal url on the API, whatever the token. */
  lemma ResourceOwnerDetailsUrlIsFixed(s: AccessToken, t: AccessToken)
    ensures ResourceOwnerDetailsUrl(s) == ResourceOwnerDetailsUrl(t) == "https://api.mollie.nl/v1/organizations/me"
    ensures IsPrefix(ApiUrl, ResourceOwnerDetailsUrl(s))
  {
  }

  /** The default is exactly organizations.read, one of the known scopes. */
  lemma DefaultScopesAreOrganizationsRead()
    ensures DefaultScopes() == ["organizations.read"]
    ensures forall i :: 0 <= i < |DefaultScopes()| ==> DefaultScopes()[i] in KnownScopes
  {
  }

  /** The separator is one space, and two scopes join to `"payments.read refunds.write"`. */
  lemma ScopeSeparatorIsSpace()
    ensures ScopeSeparator() == " "
    ensures ScopeParameter([ScopePaymentsRead, ScopeRefundsWrite]) == "payments.read refunds.write"
  {
    var scopes := [ScopePaymentsRead, ScopeRefundsWrite];
    assert scopes[1..] == [ScopeRefundsWrite];
    assert Join(scopes[1..], " ") == ScopeRefundsWrite;
    assert Join(scopes, " ") == ScopePaymentsRead + " " + ScopeRefundsWrite;
  }

  /** No known scope is empty or contains the separator character. */
  lemma KnownScopesAreWords()
    ensures forall i :: 0 <= i < |KnownScopes| ==> |KnownScopes[i]| > 0 && ' ' !in KnownScopes[i]
  {
  }

  /**
   * The platform reads the `scope` parameter as space-separated words: for
   * any non-empty list of scopes without a space, splitting the parameter at
   * spaces gives back exactly the requested list, in order.
   */
  lemma ScopeParameterRoundTrip(scopes: seq<string>)
    requires |scopes| > 0
    requires forall i :: 0 <= i < |scopes| ==> ' ' !in scopes[i]
    ensures Split(ScopeParameter(scopes), ' ') == scopes
  {
    SplitJoin(scopes, ' ');
  }

  /** Every non-empty list of known scopes survives the round trip. */
  lemma KnownScopesRoundTrip(scopes: seq<string>)
    requires |scopes| > 0
    requires forall i :: 0 <= i < |scopes| ==> scopes[i] in KnownScopes
    ensures Split(ScopeParameter(scopes), ' ') == scopes
  {
    KnownScopesAreWords();
    ScopeParameterRoundTrip(scopes);
  }

  /**
   * With the generic client's comma separator the same scopes would reach the
   * platform as one word: splitting at spaces yields a single piece.
   */
  lemma CommaJoinIsOneWord(scopes: seq<string>)
    requires forall i :: 0 <= i < |scopes| ==> ' ' !in scopes[i]
    ensures ' ' !in Join(scopes, ",")
    ensures Split(Join(scopes, ","), ' ') == [Join(scopes, ",")]
  {
    CommaJoinHasNoSpace(scopes);
    SplitWithout(Join(scopes, ","), ' ');
  }

  lemma {:induction false} CommaJoinHasNoSpace(scopes: seq<string>)
    requires forall i :: 0 <= i < |scopes| ==> ' ' !in scopes[i]
    ensures ' ' !in Join(scopes, ",")
    decreases |scopes|
  {
    if |scopes| > 1 {
      var rest := scopes[1..];
      assert forall i :: 0 <= i < |rest| ==> ' ' !in rest[i] by {
        forall i | 0 <= i < |rest| ensures ' ' !in rest[i] {
          assert rest[i] == scopes[i + 1];
        }
      }
      CommaJoinHasNoSpace(rest);
      var j := Join(rest, ",");
      assert Join(scopes, ",") == scopes[0] + "," + j;
      assert ' ' !in scopes[0];
    } else if |scopes| == 1 {
      assert ' ' !in scopes[0];
    }
  }

  // ---------------------------------------------------------------------------
  // Error detection and message assembly
  // ---------------------------------------------------------------------------

  /** The parts of an HTTP response the check looks at. */
  datatype Response = Response(statusCode: int, reasonPhrase: string)

  /**
   * The value under the body's `error` key: a bare string, or a structured
   * error whose `type`, `message` and `field` entries may each be missing.
   */
  datatype ErrorValue =
    | Simple(text: string)
    | Structured(errorType: Option<string>, message: Option<string>, field: Option<string>)

  /**
   * The parsed body: a plain string (the body was not JSON) or a key-value
   * object whose `error` entry may be missing or null.
   */
  datatype ParsedData =
    | Text(raw: string)
    | Fields(error: Option<ErrorValue>)

  /**
   * What the check does: return normally, throw the provider exception with
   * a message, a code and the response, or fail while building that
   * exception because the message it was handed is not a string.
   */
  datatype Outcome =
    | Passed
    | Failure(message: string, code: int, response: Response)
    | Fault

  /** The `error` entry as `isset` sees it; a string body has none. */
  function ErrorOf(data: ParsedData): Option<ErrorValue>
  {
    match data
    case Text(_) => None
    case Fields(e) => e
  }

  /** True for a structured error that has both a type and a message. */
  predicate HasTypeAndMessage(e: ErrorValue)
  {
    e.Structured? && e.errorType.Some? && e.message.Some?
  }

  /**
   * True when the error entry is a structured error lacking its type or its
   * message and carrying no field: the entry itself then becomes the message.
   */
  predicate MessageIsArray(e: Option<ErrorValue>)
  {
    e.Some? && e.value.Structured? && !HasTypeAndMessage(e.value) && e.value.field.None?
  }

  /** The text appended for a field name. */
  function FieldSuffix(field: Option<string>): string
  {
    match field
    case None => ""
    case Some(f) => " (field: " + f + ")"
  }

  /**
   * The message an error response carries, before it is thrown: a bare string
   * as it is; a structured error headed by `"[type] message"` (or by "Array"
   * when either is missing) and closed by the field suffix.
   */
  function ErrorMessage(e: ErrorValue): (r: string)
    requires !MessageIsArray(Some(e))
    ensures e.Simple? ==> r == e.text
    ensures HasTypeAndMessage(e) ==> IsPrefix("[" + e.errorType.value + "] " + e.message.value, r)
    ensures e.Structured? && !HasTypeAndMessage(e) ==> IsPrefix("Array", r)
    ensures e.Structured? ==> IsSuffix(FieldSuffix(e.field), r)
    ensures e.Structured? && e.field.None? ==> r == "[" + e.errorType.value + "] " + e.message.value
  {
    match e
    case Simple(text) => text
    case Structured(t, m, field) =>
      // PHP turns the error array into the string "Array" when the field suffix is appended
      var head := if HasTypeAndMessage(e) then "[" + t.value + "] " + m.value else "Array";
      PrefixOfConcat(head, FieldSuffix(field));
      SuffixOfConcat(head, FieldSuffix(field));
      head + FieldSuffix(field)
  }

  /**
   * `checkResponse`: a response below 400 passes whatever the body; any
   * other response fails with the response's own status code as the code,
   * except when the error entry would hand a non-string message to the
   * exception.
   */
  function CheckResponse(response: Response, data: ParsedData): (r: Outcome)
    ensures r.Passed? <==> response.statusCode < 400
    ensures r.Fault? <==> response.statusCode >= 400 && MessageIsArray(ErrorOf(data))
    ensures r.Failure? ==> r.code == response.statusCode && r.response == response
  {
    if response.statusCode < 400 then Passed
    else
      match ErrorOf(data)
      case None => Failure(response.reasonPhrase, response.statusCode, response)
      case Some(e) =>
        if MessageIsArray(Some(e)) then Fault
        else Failure(ErrorMessage(e), response.statusCode, response)
  }

  /** A structured error with type and message: `"[type] message"`, then the field suffix if any. */
  lemma StructuredMessage(response: Response, data: ParsedData, t: string, m: string, field: Option<string>)
    requires response.statusCode >= 400
    requires ErrorOf(data) == Some(Structured(Some(t), Some(m), field))
    ensures CheckResponse(response, data).Failure?
    ensures IsPrefix("[" + t + "] " + m, CheckResponse(response, data).message)
    ensures field.None? ==> CheckResponse(response, data).message == "[" + t + "] " + m
    ensures field.Some? ==>
      CheckResponse(response, data).message == "[" + t + "] " + m + " (field: " + field.value + ")"
  {
  }

  /** A present field always closes the message with `" (field: …)"`, whichever head came first. */
  lemma FieldIsAppended(response: Response, data: ParsedData, f: string)
    requires response.statusCode >= 400
    requires ErrorOf(data).Some? && ErrorOf(data).value.Structured?
    requires ErrorOf(data).value.field == Some(f)
    ensures CheckResponse(response, data).Failure?
    ensures IsSuffix(" (field: " + f + ")", CheckResponse(response, data).message)
  {
    var e := ErrorOf(data).value;
    var suffix := " (field: " + f + ")";
    var head := if HasTypeAndMessage(e) then "[" + e.errorType.value + "] " + e.message.value else "Array";
    assert ErrorMessage(e) == head + suffix;
  }

  /** The message names the field: two structured errors that differ only in the field give different messages. */
  lemma FieldDeterminesMessage(response: Response, t: string, m: string, f: string, g: string)
    requires response.statusCode >= 400
    requires f != g
    ensures CheckResponse(response, Fields(Some(Structured(Some(t), Some(m), Some(f))))).message
         != CheckResponse(response, Fields(Some(Structured(Some(t), Some(m), Some(g))))).message
  {
    var head := "[" + t + "] " + m + " (field: ";
    var a := head + f + ")";
    var b := head + g + ")";
    assert CheckResponse(response, Fields(Some(Structured(Some(t), Some(m), Some(f))))).message == a;
    assert CheckResponse(response, Fields(Some(Structured(Some(t), Some(m), Some(g))))).message == b;
    assert a[|head|..|head| + |f|] == f;
    assert b[|head|..|head| + |g|] == g;
  }

  /** A bare string error is the message, verbatim and with no field suffix. */
  lemma SimpleMessage(response: Response, data: ParsedData, s: string)
    requires response.statusCode >= 400
    requires ErrorOf(data) == Some(Simple(s))
    ensures CheckResponse(response, data) == Failure(s, response.statusCode, response)
  {
  }

  /** With no error entry, or a body that is not an object, the message is the reason phrase. */
  lemma AbsentErrorUsesReasonPhrase(response: Response, data: ParsedData)
    requires response.statusCode >= 400
    requires data.Text? || data.error.None?
    ensures CheckResponse(response, data) == Failure(response.reasonPhrase, response.statusCode, response)
  {
  }

  /** Which part of the body wins does not depend on the status code, only on being an error. */
  lemma MessageIgnoresStatus(code1: int, code2: int, phrase: string, data: ParsedData)
    requires code1 >= 400 && code2 >= 400
    requires !MessageIsArray(ErrorOf(data))
    ensures CheckResponse(Response(code1, phrase), data).message
         == CheckResponse(Response(code2, phrase), data).message
  {
  }

  /** A 422 with a structured error naming a field. */
  lemma StructuredExample()
    ensures CheckResponse(Response(422, "Unprocessable Entity"),
      Fields(Some(Structured(Some("invalid_request"), Some("bad field"), Some("amount")))))
      == Failure("[invalid_request] bad field (field: amount)", 422, Response(422, "Unprocessable Entity"))
  {
    StructuredMessage(Response(422, "Unprocessable Entity"),
      Fields(Some(Structured(Some("invalid_request"), Some("bad field"), Some("amount")))),
      "invalid_request", "bad field", Some("amount"));
    StructuredExampleText();
  }

  /** The expected message of the structured example, spelled out. */
  lemma StructuredExampleText()
    ensures "[" + "invalid_request" + "] " + "bad field" + " (field: " + "amount" + ")"
         == "[invalid_request] bad field (field: amount)"
  {
  }

  /** A 422 with a bare string error. */
  lemma SimpleExample()
    ensures CheckResponse(Response(422, "Unprocessable Entity"), Fields(Some(Simple("something broke"))))
      == Failure("something broke", 422, Response(422, "Unprocessable Entity"))
  {
  }

  /** A 422 with an empty body. */
  lemma EmptyBodyExample()
    ensures CheckResponse(Response(422, "Unprocessable Entity"), Fields(None))
      == Failure("Unprocessable Entity", 422, Response(422, "Unprocessable Entity"))
  {
  }

  /** A structured error lacking its type or its message but naming a field reads `"Array (field: …)"`. */
  lemma IncompleteStructuredWithField(response: Response, t: Option<string>, m: Option<string>, f: string)
    requires response.statusCode >= 400
    requires !(t.Some? && m.Some?)
    ensures CheckResponse(response, Fields(Some(Structured(t, m, Some(f)))))
      == Failure("Array (field: " + f + ")", response.statusCode, response)
  {
    assert "Array" + " (field: " == "Array (field: ";
  }
}
