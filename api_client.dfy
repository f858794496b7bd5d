/** `apiClient` (frontend/src/lib/api/client.ts): the JSON request body
    is converted to wire spelling, a failed response becomes an
    `ApiError`, `204` yields no value, and any other body is converted to
    caller spelling. `JSON.parse` is not modelled: its outcome on a text
    is given with the text. `JSON.stringify` is not modelled either: the
    outgoing body records the value that would be serialised. */
module ApiClient {
  import opened Wrappers
  import opened JsonValue
  import opened Normalize
  import KeyCase
  import Text

  /** `options.body` as given to `apiClient`. `parsed` is what
      `JSON.parse(text)` returns, or `None` when it throws. */
  datatype RequestBody =
    | NoBody
    | Text(text: string, parsed: Option<Json>)
    | NonText

  /** The body `fetch` is called with. */
  datatype OutgoingBody =
    | Unchanged(original: RequestBody)
    | Serialized(value: Json)

  const DefaultErrorMessage: string := "An error occurred"

  /** The request-body step: only a non-empty string that parses is
      re-serialised, after its keys are put in wire spelling. */
  function PrepareBody(b: RequestBody): (r: OutgoingBody)
    ensures r.Serialized? <==> b.Text? && b.text != "" && b.parsed.Some?
    ensures r.Unchanged? ==> r.original == b
    ensures r.Serialized? ==> InConvention(r.value, ToWire)
    ensures r.Serialized? && CallerShaped(b.parsed.value) ==>
      Transform(r.value, ToCaller) == b.parsed.value
  {
    if b.Text? && b.text != "" && b.parsed.Some? then
      var v := Transform(b.parsed.value, ToWire);
      TransformReachesConvention(b.parsed.value, ToWire);
      CallerShapedSurvives(b.parsed.value);
      Serialized(v)
    else Unchanged(b)
  }

  lemma CallerShapedSurvives(v: Json)
    ensures CallerShaped(v) ==> Transform(Transform(v, ToWire), ToCaller) == v
  {
    if CallerShaped(v) {
      CallerKeysSurviveWire(v);
    }
  }

  /** A response: its status and what `response.json()` resolves to, or
      `None` when the body is not valid JSON. */
  datatype Response = Response(status: int, body: Option<Json>)

  /** `response.ok`. */
  predicate IsOk(status: int) { 200 <= status <= 299 }

  /** Why `apiClient` rejects. Reading a property of a `null` error body
      throws a `TypeError`; an unparsable success body makes
      `response.json()` reject. */
  datatype ClientError =
    | ApiError(status: int, message: Json)
    | TypeError
    | JsonSyntaxError

  datatype Reply = NoContent | Data(value: Json)

  /** Reading property `name` of a parsed value: `undefined` (here `None`)
      on anything but an object, and a `TypeError` on `null`. */
  function Property(v: Json, name: string): (r: Result<Option<Json>, ClientError>)
    ensures r.Err? <==> v.JNull?
    ensures r.Ok? && r.value.Some? ==> v.JObject? && Get(v.members, name) == r.value
  {
    match v
    case JNull => Err(TypeError)
    case JObject(ms) => Ok(Get(ms, name))
    case _ => Ok(None)
  }

  predicate TruthyProperty(p: Option<Json>)
  {
    p.Some? && Truthy(p.value)
  }

  /** `error.message || error.detail || 'An error occurred'`. */
  function ErrorMessage(error: Json): (r: Result<Json, ClientError>)
    ensures r.Err? <==> error.JNull?
    ensures r.Ok? ==> Truthy(r.value)
  {
    match Property(error, "message")
    case Err(e) => Err(e)
    case Ok(m) =>
      if TruthyProperty(m) then Ok(m.value)
      else
        var d := Property(error, "detail").value;
        if TruthyProperty(d) then Ok(d.value) else Ok(JString(DefaultErrorMessage))
  }

  /** The response step of `apiClient`. */
  function HandleResponse(resp: Response): (r: Result<Reply, ClientError>)
    ensures r.Ok? <==> IsOk(resp.status) && (resp.status == 204 || resp.body.Some?)
    ensures r.Ok? ==> (r.value.NoContent? <==> resp.status == 204)
    ensures r.Ok? && r.value.Data? ==> InConvention(r.value.value, ToCaller)
    ensures r.Err? && r.error.ApiError? ==>
      !IsOk(resp.status) && r.error.status == resp.status && Truthy(r.error.message)
    ensures (r.Err? && r.error.TypeError?) <==> !IsOk(resp.status) && resp.body == Some(JNull)
    ensures (r.Err? && r.error.JsonSyntaxError?) <==>
      IsOk(resp.status) && resp.status != 204 && resp.body.None?
  {
    if !IsOk(resp.status) then
      var error := if resp.body.Some? then resp.body.value else JObject([]);
      match ErrorMessage(error)
      case Err(e) => Err(e)
      case Ok(m) => Err(ApiError(resp.status, m))
    else if resp.status == 204 then Ok(NoContent)
    else if resp.body.None? then Err(JsonSyntaxError)
    else
      TransformReachesConvention(resp.body.value, ToCaller);
      Ok(Data(Transform(resp.body.value, ToCaller)))
  }

  /** The error message prefers `message`, then `detail`, each only when
      it is truthy, and falls back to the generic text; a body that is
      not valid JSON counts as `{}` and so gets the generic text. */
  lemma ErrorMessagePreference(status: int, ms: seq<Member>)
    requires !IsOk(status)
    ensures TruthyProperty(Get(ms, "message")) ==>
      HandleResponse(Response(status, Some(JObject(ms)))) == Err(ApiError(status, Get(ms, "message").value))
    ensures !TruthyProperty(Get(ms, "message")) && TruthyProperty(Get(ms, "detail")) ==>
      HandleResponse(Response(status, Some(JObject(ms)))) == Err(ApiError(status, Get(ms, "detail").value))
    ensures !TruthyProperty(Get(ms, "message")) && !TruthyProperty(Get(ms, "detail")) ==>
      HandleResponse(Response(status, Some(JObject(ms)))) == Err(ApiError(status, JString(DefaultErrorMessage)))
    ensures HandleResponse(Response(status, None)) == Err(ApiError(status, JString(DefaultErrorMessage)))
  {
  }

  /** A successful body that is already in caller spelling comes back
      unchanged, and converting it to caller spelling again changes
      nothing. */
  lemma SuccessBodyConversion(status: int, body: Json)
    requires IsOk(status) && status != 204
    ensures HandleResponse(Response(status, Some(body))) == Ok(Data(Transform(body, ToCaller)))
    ensures InConvention(body, ToCaller) ==> HandleResponse(Response(status, Some(body))) == Ok(Data(body))
    ensures InConvention(body, ToWire) ==>
      Transform(HandleResponse(Response(status, Some(body))).value.value, ToWire) == body
  {
    if InConvention(body, ToCaller) {
      TransformKeepsConvention(body, ToCaller);
    }
    if InConvention(body, ToWire) {
      WireKeysSurviveCaller(body);
    }
  }

  /** The conversions of the sample bodies: `{"userInput": "hi"}` goes
      out as `{"user_input": "hi"}`, `{"tokens_used": 12}` comes in as
      `{"tokensUsed": 12}`, and a `404` with `{"detail": "not found"}` is
      an `ApiError` with that message. */
  lemma SampleRequestConversion()
    ensures PrepareBody(Text("{\"userInput\":\"hi\"}", Some(JObject([Member("userInput", JString("hi"))]))))
      == Serialized(JObject([Member("user_input", JString("hi"))]))
  {
    UserInputKey();
    SingleMemberTransform("userInput", JString("hi"), ToWire);
  }

  /** `camelToSnake("userInput")` is `"user_input"`. */
  lemma UserInputKey()
    ensures KeyCase.CamelToSnake("userInput") == "user_input"
  {
    KeyCase.CamelToSnakeOneCapital("user", 'I', "nput");
    assert "user" + ['I'] + "nput" == "userInput";
    assert "user" + ['_', Text.ToLower('I')] + "nput" == "user_input";
  }

  /** A one-member object is converted by renaming its key. */
  lemma SingleMemberTransform(key: string, value: Json, c: Convention)
    requires !value.JArray? && !value.JObject?
    ensures Transform(JObject([Member(key, value)]), c) == JObject([Member(Rename(c, key), value)])
  {
    var ps := Renamed([Member(key, value)], c);
    assert ps == [Member(Rename(c, key), value)];
    assert ps[..0] == [];
    assert Assign(ps) == Put(Assign([]), Rename(c, key), value);
  }

  lemma SampleResponseConversion()
    ensures HandleResponse(Response(200, Some(JObject([Member("tokens_used", JNumber(12))]))))
      == Ok(Data(JObject([Member("tokensUsed", JNumber(12))])))
  {
    TokensUsedKey();
    SingleMemberTransform("tokens_used", JNumber(12), ToCaller);
  }

  /** `snakeToCamel("tokens_used")` is `"tokensUsed"`. */
  lemma TokensUsedKey()
    ensures KeyCase.SnakeToCamel("tokens_used") == "tokensUsed"
  {
    KeyCase.SnakeToCamelOneBoundary("tokens", 'u', "sed");
    assert "tokens" + ['_', 'u'] + "sed" == "tokens_used";
    assert "tokens" + [Text.ToUpper('u')] + "sed" == "tokensUsed";
  }

  lemma SampleErrorResponse()
    ensures HandleResponse(Response(404, Some(JObject([Member("detail", JString("not found"))]))))
      == Err(ApiError(404, JString("not found")))
  {
  }
}
