/**
 * SingleContent::publishContentUpdate: three validation stages over the
 * content id and the params array, then a PUT of `{d, c, m}` to the
 * config endpoint of that content id.
 */
module SingleContent {
  import opened Results
  import opened Php
  import opened Config
  import opened AbstractApi

  const ConfigEndpoint := "https://capi.getjoystick.com/api/v1/config/"

  /** `isset($params[$k])`: present and not null. */
  predicate IsSet(params: seq<Entry>, k: string)
  {
    Lookup(params, k).Some? && Lookup(params, k).value != Null
  }

  /** `$params[$k] ?? $default`. */
  function FieldOr(params: seq<Entry>, k: string, default: Value): (v: Value)
    ensures IsSet(params, k) ==> Some(v) == Lookup(params, k)
    ensures !IsSet(params, k) ==> v == default
  {
    match Lookup(params, k)
    case Some(v) => if v == Null then default else v
    case None => default
  }

  function Description(params: seq<Entry>): Value
  {
    FieldOr(params, "description", Null)
  }

  function Content(params: seq<Entry>): Value
  {
    FieldOr(params, "content", Null)
  }

  /** `$params['dynamicContentMap'] ?? []`. */
  function DynamicContentMap(params: seq<Entry>): Value
  {
    FieldOr(params, "dynamicContentMap", List([]))
  }

  /**
   * Stage one, one lazy chain on the whole array: keyIsset('description')
   * then keyIsset('content'); the chain stops at its first failure, which
   * names the missing key.
   */
  function MissingKeys(params: seq<Entry>): seq<string>
  {
    if !IsSet(params, "description") then ["description"]
    else if !IsSet(params, "content") then ["content"]
    else []
  }

  /** `->string()->maxLength(50)->minLength(1)`. */
  predicate DescriptionValid(v: Value)
  {
    v.Str? && |v.s| <= 50 && |v.s| >= 1
  }

  /** Stage two, three lazy chains: the property path of every chain that fails, in chain order. */
  function FieldViolations(contentId: string, params: seq<Entry>): seq<string>
  {
    (if Empty(Str(contentId)) then ["Content ID"] else [])
    + (if !DescriptionValid(Description(params)) then ["description"] else [])
    + (if !IsArray(DynamicContentMap(params)) then ["dynamicContentMap"] else [])
  }

  /** The three stage-two chains all pass. */
  predicate FieldsValid(contentId: string, params: seq<Entry>)
  {
    !Empty(Str(contentId)) && DescriptionValid(Description(params)) && IsArray(DynamicContentMap(params))
  }

  const ContentNotEncodable := "Field `content` can not be encoded to JSON"
  const MapNotEncodable := "Field `dynamicContentMap` can not be encoded to JSON"

  /** Every condition publishContentUpdate places on its input, as one statement. */
  predicate Publishable(contentId: string, params: seq<Entry>)
  {
    && IsSet(params, "description")
    && IsSet(params, "content")
    && contentId != "" && contentId != "0"
    && DescriptionValid(Description(params))
    && IsArray(DynamicContentMap(params))
    && Encodable(Content(params))
    && Encodable(DynamicContentMap(params))
  }

  /** validatePublishContentUpdateParams: the stages run in order and the first failing one throws. */
  function ValidatePublishContentUpdateParams(contentId: string, params: seq<Entry>): (r: Outcome<()>)
    ensures r.Ok? <==> Publishable(contentId, params)
    ensures !IsSet(params, "description") ==> r == Fail(LazyAssertion(["description"]))
    ensures IsSet(params, "description") && !IsSet(params, "content") ==>
      r == Fail(LazyAssertion(["content"]))
    ensures r.Fail? && r.error.LazyAssertion? ==> r.error.violations != []
    ensures r.Fail? && r.error.LazyAssertion? && IsSet(params, "description") && IsSet(params, "content") ==>
      ("Content ID" in r.error.violations <==> Empty(Str(contentId)))
      && ("description" in r.error.violations <==> !DescriptionValid(Description(params)))
      && ("dynamicContentMap" in r.error.violations <==> !IsArray(DynamicContentMap(params)))
    ensures IsSet(params, "description") && IsSet(params, "content") && !FieldsValid(contentId, params) ==>
      r.Fail? && r.error.LazyAssertion?
    ensures IsSet(params, "description") && IsSet(params, "content") && FieldsValid(contentId, params)
            && !Encodable(Content(params)) ==>
      r == Fail(NotJsonEncodable(ContentNotEncodable))
    ensures IsSet(params, "description") && IsSet(params, "content") && FieldsValid(contentId, params)
            && Encodable(Content(params)) && !Encodable(DynamicContentMap(params)) ==>
      r == Fail(NotJsonEncodable(MapNotEncodable))
  {
    var missing := MissingKeys(params);
    if missing != [] then Fail(LazyAssertion(missing))
    else
      var violations := FieldViolations(contentId, params);
      if violations != [] then Fail(LazyAssertion(violations))
      else if !Encodable(Content(params)) then Fail(NotJsonEncodable(ContentNotEncodable))
      else if !Encodable(DynamicContentMap(params)) then Fail(NotJsonEncodable(MapNotEncodable))
      else Ok(())
  }

  /** The request body `['d' => ..., 'c' => ..., 'm' => ...]`. */
  function PublishBody(params: seq<Entry>): Value
  {
    Dict([Entry("d", Description(params)), Entry("c", Content(params)),
          Entry("m", DynamicContentMap(params))])
  }

  /** What one publishContentUpdate call sends (if anything) and whether it returns or throws. */
  datatype Publish = Publish(sent: Option<Request>, result: Outcome<()>)

  /** A body of validated fields always passes the encodability assertion. */
  lemma PublishableBodyEncodable(contentId: string, params: seq<Entry>)
    requires Publishable(contentId, params)
    ensures Encodable(PublishBody(params))
  {
    var es := PublishBody(params).entries;
    assert es[0].val.Str? && es[1].val == Content(params) && es[2].val == DynamicContentMap(params);
  }

  /** publishContentUpdate, with `reply` standing for what the server answers. */
  function PublishContentUpdate(s: Settings, rt: Runtime, contentId: string, params: seq<Entry>,
                                reply: HttpReply): (p: Publish)
    ensures !Publishable(contentId, params) ==>
      p.sent.None? && p.result == Fail(ValidatePublishContentUpdateParams(contentId, params).error)
    ensures p.sent.Some? ==> (
      && Publishable(contentId, params)
      && s.apiKey.Some?
      && p.sent.value.httpMethod == "PUT"
      && p.sent.value.uri == Uri(ConfigEndpoint + contentId, [])
      && p.sent.value.body == PublishBody(params)
      && p.sent.value.headers == [ContentTypeHeader, ("x-api-key", s.apiKey.value)])
    ensures Publishable(contentId, params) && s.apiKey.Some? ==> p.sent.Some?
    ensures Publishable(contentId, params) && s.apiKey.None? ==>
      p.sent.None? && p.result == Fail(AssertionFailure(MissingApiKey))
    ensures p.sent.Some? && reply.status != 200 ==> p.result == Fail(MapHttpResponseToException(reply))
    ensures p.sent.Some? && reply.status == 200 && rt.jsonDecode(reply.body).None? ==>
      p.result == Fail(ApiException(IncorrectJson))
    ensures p.result.Ok? <==> (
      && Publishable(contentId, params)
      && s.apiKey.Some?
      && reply.status == 200
      && rt.jsonDecode(reply.body).Some?)
  {
    match ValidatePublishContentUpdateParams(contentId, params)
    case Fail(e) => Publish(None, Fail(e))
    case Ok(_) =>
      PublishableBodyEncodable(contentId, params);
      var x := MakeJoystickRequest(s, rt, "PUT", Uri(ConfigEndpoint + contentId, []), PublishBody(params), reply);
      Publish(x.sent, match x.result case Ok(_) => Ok(()) case Fail(e) => Fail(e))
  }
}
