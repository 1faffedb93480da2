/** The metrics client of src/api.ts: building the heart-rate request and classifying the
    response. The HTTP transport itself is a collaborator; its response is an input here. */
module Api {
  import opened Wrappers
  import opened JsNumbers
  import Auth

  const MetricsEndpoint: string := "https://api.prod.whoop.com/metrics-service/v1/metrics/user/"
  const BearerPrefix: string := "Bearer "
  const StatusMessagePrefix: string := "Heart rate API returned "

  datatype HeartRatePoint = HeartRatePoint(bpm: int, time: int)

  /** One element of the response body's `values` array. */
  datatype MetricValue = MetricValue(data: int, time: int)

  /** What `fetch` resolves to: the status, the body text, and the `values` array of the body
      read as JSON (None when `response.json()` throws or the body has no such array). */
  datatype HttpResponse = HttpResponse(status: int, body: string, values: Option<seq<MetricValue>>)

  datatype FetchError =
    | AuthExpired                          // AuthExpiredError("Token expired or invalid")
    | HttpStatus(status: int, body: string) // Error(`Heart rate API returned ${status}: ${text}`)
    | UnreadableBody                       // response.json() or data.values.map threw

  /** A query value: literal text, or an instant that `toISOString` renders. */
  datatype QueryValue = Literal(text: string) | IsoTime(ms: int)
  datatype QueryParam = QueryParam(name: string, value: QueryValue)

  datatype Request = Request(endpoint: string, query: seq<QueryParam>, authorization: string)

  function QueryNames(query: seq<QueryParam>): seq<string> {
    seq(|query|, i requires 0 <= i < |query| => query[i].name)
  }

  /** The query string's parameters, in the order `URLSearchParams` keeps them. */
  function MetricsQuery(start: int, end: int): (query: seq<QueryParam>)
    ensures QueryNames(query) == ["apiVersion", "name", "start", "end", "step", "order"]
    ensures query[0].value == Literal("7") && query[1].value == Literal("heart_rate")
    ensures query[2].value == IsoTime(start) && query[3].value == IsoTime(end)
    ensures query[4].value == Literal("60") && query[5].value == Literal("t")
  {
    var query :=
      [QueryParam("apiVersion", Literal("7")),
       QueryParam("name", Literal("heart_rate")),
       QueryParam("start", IsoTime(start)),
       QueryParam("end", IsoTime(end)),
       QueryParam("step", Literal("60")),
       QueryParam("order", Literal("t"))];
    assert |QueryNames(query)| == 6;
    assert QueryNames(query)[0] == "apiVersion" && QueryNames(query)[1] == "name";
    assert QueryNames(query)[2] == "start" && QueryNames(query)[3] == "end";
    assert QueryNames(query)[4] == "step" && QueryNames(query)[5] == "order";
    query
  }

  /** The request `fetchHeartRate(token, start, end)` sends: the user's endpoint, the
      heart-rate query for the window, and the bearer header. */
  function FetchRequest(token: Auth.AuthToken, start: int, end: int): (req: Request)
    ensures |req.endpoint| > |MetricsEndpoint| && req.endpoint[..|MetricsEndpoint|] == MetricsEndpoint
    ensures ParseInt(req.endpoint[|MetricsEndpoint|..]) == token.userId
    ensures req.query == MetricsQuery(start, end)
    ensures |req.authorization| >= |BearerPrefix| && req.authorization[..|BearerPrefix|] == BearerPrefix
    ensures req.authorization[|BearerPrefix|..] == token.accessToken
  {
    ParseFormat(token.userId);
    var endpoint := MetricsEndpoint + Format(token.userId);
    assert endpoint[|MetricsEndpoint|..] == Format(token.userId);
    Request(endpoint, MetricsQuery(start, end), BearerPrefix + token.accessToken)
  }

  /** `response.ok`. */
  predicate IsOk(status: int) { 200 <= status <= 299 }

  /** `data.values.map(v => ({ bpm: v.data, time: v.time }))`. */
  function ToPoints(values: seq<MetricValue>): (points: seq<HeartRatePoint>)
    ensures |points| == |values|
    ensures forall i :: 0 <= i < |values| ==> points[i].bpm == values[i].data && points[i].time == values[i].time
  {
    if values == [] then []
    else [HeartRatePoint(values[0].data, values[0].time)] + ToPoints(values[1..])
  }

  /** The outcome of `fetchHeartRate` for a given response. 401 and 403 (sections 15.5.2 and
      15.5.4 of RFC 9110) are tested before `response.ok`, so they never become a generic error. */
  function Classify(response: HttpResponse): (r: Result<seq<HeartRatePoint>, FetchError>)
    ensures r == Failure(AuthExpired) <==> response.status == 401 || response.status == 403
    ensures r.Failure? && r.error.HttpStatus? <==>
              response.status != 401 && response.status != 403 && !IsOk(response.status)
    ensures r.Failure? && r.error.HttpStatus? ==> r.error == HttpStatus(response.status, response.body)
    ensures r.Success? <==> IsOk(response.status) && response.values.Some?
    ensures r.Success? ==> |r.value| == |response.values.value|
  {
    if response.status == 401 || response.status == 403 then Failure(AuthExpired)
    else if !IsOk(response.status) then Failure(HttpStatus(response.status, response.body))
    else
      match response.values
      case None => Failure(UnreadableBody)
      case Some(values) => Success(ToPoints(values))
  }

  /** A successful fetch returns the points in the order of the body's `values`. */
  lemma ClassifyPreservesOrder(response: HttpResponse, i: int)
    requires Classify(response).Success? && 0 <= i < |response.values.value|
    ensures Classify(response).value[i] == HeartRatePoint(response.values.value[i].data, response.values.value[i].time)
  {
  }

  /** The message of the generic error. */
  function StatusMessage(status: int, body: string): string {
    StatusMessagePrefix + FormatInt(status) + ": " + body
  }

  /** The generic error's message carries both the status, readable back with `parseInt`,
      and the whole body text at its end. */
  lemma StatusMessageCarriesStatusAndBody(status: int, body: string)
    ensures var m := StatusMessage(status, body);
      |m| >= |StatusMessagePrefix| + |body|
      && ParseInt(m[|StatusMessagePrefix|..]) == Num(status)
      && m[|m| - |body|..] == body
  {
    var m := StatusMessage(status, body);
    assert m[|StatusMessagePrefix|..] == FormatInt(status) + (": " + body);
    ParseFormattedInt(status, ": " + body);
  }
}
