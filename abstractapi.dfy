/**
 * AbstractApi: the request envelope every Joystick call shares, the
 * classification of non-200 statuses into exceptions, and the decoding of
 * a 200 reply. The HTTP exchange itself is outside the model: the reply
 * the server would give is an input, the request that would be sent an
 * output.
 */
module AbstractApi {
  import opened Results
  import opened Php
  import opened Config

  /** What the HTTP client gets back. */
  datatype HttpReply = HttpReply(status: int, body: string)

  /** A URI as a base and the query parameters http_build_query serialises, in order. */
  datatype Uri = Uri(base: string, query: seq<(string, string)>)

  /** The request handed to the HTTP client. */
  datatype Request = Request(
    httpMethod: string,
    uri: Uri,
    headers: seq<(string, string)>,
    body: Value,
    payload: string)

  const StatusPrefix := "Joystick returned status code "
  const BodyPrefix := " (body: "

  /** "Joystick returned status code $statusCode (body: {$body})". */
  function StatusMessage(status: int, body: string): string
  {
    StatusPrefix + IntToString(status) + BodyPrefix + body + ")"
  }

  /** mapHttpResponseToException. */
  function MapHttpResponseToException(reply: HttpReply): (e: Error)
    ensures e.BadRequest? <==> 400 <= reply.status < 500
    ensures e.ServerError? <==> reply.status >= 500
    ensures e.UnknownError? <==> reply.status < 400
    ensures e.message == StatusMessage(reply.status, reply.body)
  {
    var message := StatusMessage(reply.status, reply.body);
    if 400 <= reply.status < 500 then BadRequest(message)
    else if reply.status >= 500 then ServerError(message)
    else UnknownError(message)
  }

  /** Index of the first `c` in `s`, or |s|. */
  function IndexOf(s: string, c: char): (k: nat)
    ensures k <= |s|
    ensures c !in s[..k]
    ensures k < |s| ==> s[k] == c
  {
    if s == [] then 0
    else if s[0] == c then 0
    else
      var k := 1 + IndexOf(s[1..], c);
      assert s[..k] == [s[0]] + s[1..][..k - 1];
      k
  }

  /** What follows `prefix` in `m`, when `m` starts with it. */
  function StripPrefix(m: string, prefix: string): Option<string>
  {
    if prefix <= m then Some(m[|prefix|..]) else None
  }

  /** Reads the status and the body back out of a status message. */
  function ParseStatusMessage(m: string): Option<(int, string)>
  {
    match StripPrefix(m, StatusPrefix)
    case None => None
    case Some(rest) =>
      var k := IndexOf(rest, ' ');
      match (ParseInt(rest[..k]), StripPrefix(rest[k..], BodyPrefix))
      case (Some(code), Some(inner)) =>
        if inner != [] && inner[|inner| - 1] == ')' then Some((code, inner[..|inner| - 1])) else None
      case _ => None
  }

  lemma StripPrefixOf(prefix: string, x: string)
    ensures StripPrefix(prefix + x, prefix) == Some(x)
  {
    assert prefix <= prefix + x;
    assert (prefix + x)[|prefix|..] == x;
  }

  lemma {:induction false} IndexOfAfter(x: string, y: string, c: char)
    requires c !in x
    ensures IndexOf(x + y, c) == |x| + IndexOf(y, c)
    decreases |x|
  {
    if x != [] {
      assert (x + y)[0] == x[0] && x[0] != c;
      assert (x + y)[1..] == x[1..] + y;
      IndexOfAfter(x[1..], y, c);
      assert IndexOf(x + y, c) == 1 + IndexOf((x + y)[1..], c);
    } else {
      assert x + y == y;
    }
  }

  lemma NoSpaceInInt(i: int)
    ensures ' ' !in IntToString(i)
  {
    var n: nat := if i < 0 then -i else i;
    var d := NatToDecimal(n);
    NatToDecimalRoundTrip(n);
    assert IsDigits(d);
    var t := IntToString(i);
    assert t == if i < 0 then "-" + d else d;
    forall j | 0 <= j < |t| ensures t[j] != ' ' {
      if i < 0 && j > 0 {
        assert t[j] == d[j - 1];
      }
    }
  }

  /** The message keeps both the status code and the whole body, recoverably. */
  lemma StatusMessageRoundTrip(status: int, body: string)
    ensures ParseStatusMessage(StatusMessage(status, body)) == Some((status, body))
  {
    var code := IntToString(status);
    var inner := body + ")";
    var tail := BodyPrefix + inner;
    var rest := code + tail;
    assert StatusMessage(status, body) == StatusPrefix + rest;
    StripPrefixOf(StatusPrefix, rest);
    NoSpaceInInt(status);
    IndexOfAfter(code, tail, ' ');
    assert IndexOf(rest, ' ') == |code|;
    assert rest[..|code|] == code && rest[|code|..] == tail;
    IntToStringRoundTrip(status);
    StripPrefixOf(BodyPrefix, inner);
    assert inner[..|inner| - 1] == body;
  }

  const ContentTypeHeader := ("Content-Type", "application/json")
  const MissingApiKey := "API key should be present"
  const BodyNotEncodable := "Body to Joystick API is not JSON encodable"
  const IncorrectJson := "Incorrect JSON was returned from Joystick API"

  /**
   * The first half of makeJoystickRequest: the two assertions, then the
   * request with its JSON headers, the API key and the encoded body.
   */
  function PrepareRequest(s: Settings, rt: Runtime, httpMethod: string, uri: Uri, body: Value): (r: Outcome<Request>)
    ensures r.Ok? <==> s.apiKey.Some? && Encodable(body)
    ensures s.apiKey.None? ==> r == Fail(AssertionFailure(MissingApiKey))
    ensures s.apiKey.Some? && !Encodable(body) ==> r == Fail(AssertionFailure(BodyNotEncodable))
    ensures r.Ok? ==> r.value.httpMethod == httpMethod && r.value.uri == uri && r.value.body == body
    ensures r.Ok? ==> r.value.headers == [ContentTypeHeader, ("x-api-key", s.apiKey.value)]
    ensures r.Ok? ==> r.value.payload == rt.jsonEncode(body)
  {
    if s.apiKey.None? then Fail(AssertionFailure(MissingApiKey))
    else if !Encodable(body) then Fail(AssertionFailure(BodyNotEncodable))
    else Ok(Request(httpMethod, uri, [ContentTypeHeader, ("x-api-key", s.apiKey.value)], body,
                    rt.jsonEncode(body)))
  }

  /** The second half: only a 200 is decoded, and undecodable JSON is an error. */
  function ReadReply(rt: Runtime, reply: HttpReply): (r: Outcome<Value>)
    ensures r.Ok? <==> reply.status == 200 && rt.jsonDecode(reply.body).Some?
    ensures r.Ok? ==> Some(r.value) == rt.jsonDecode(reply.body)
    ensures reply.status != 200 ==> r == Fail(MapHttpResponseToException(reply))
    ensures reply.status == 200 && r.Fail? ==> r == Fail(ApiException(IncorrectJson))
  {
    if reply.status != 200 then Fail(MapHttpResponseToException(reply))
    else match rt.jsonDecode(reply.body)
      case None => Fail(ApiException(IncorrectJson))
      case Some(v) => Ok(v)
  }

  /** What one call of makeJoystickRequest sends (if anything) and what it returns or throws. */
  datatype Exchange = Exchange(sent: Option<Request>, result: Outcome<Value>)

  /** makeJoystickRequest with `reply` standing for what the server answers. */
  function MakeJoystickRequest(s: Settings, rt: Runtime, httpMethod: string, uri: Uri, body: Value,
                               reply: HttpReply): (x: Exchange)
    ensures x.sent.Some? <==> PrepareRequest(s, rt, httpMethod, uri, body).Ok?
    ensures x.sent.None? ==> x.result == Fail(PrepareRequest(s, rt, httpMethod, uri, body).error)
    ensures x.sent.None? ==> x.result.Fail? && x.result.error.AssertionFailure?
    ensures x.sent.Some? ==> PrepareRequest(s, rt, httpMethod, uri, body) == Ok(x.sent.value)
    ensures x.sent.Some? ==> x.result == ReadReply(rt, reply)
    ensures x.result.Ok? ==> x.sent.Some? && reply.status == 200
  {
    match PrepareRequest(s, rt, httpMethod, uri, body)
    case Fail(e) => Exchange(None, Fail(e))
    case Ok(request) => Exchange(Some(request), ReadReply(rt, reply))
  }
}
