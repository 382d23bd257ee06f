/** The authenticated request path of `BitgetClient` (bitget/client.py): client construction,
    URL and header building, response classification, and the exchange as an abstract gateway
    that answers each request and records it in a trace. */
module Gateway {
  import opened Results
  import opened Signing
  import Text

  const FuturesBaseUrl: string := "https://api.bitget.com/api/mix/v1"
  const SpotBaseUrl: string := "https://api.bitget.com/api/spot/v1"

  datatype Client = Client(apiKey: string, apiSecret: string, passphrase: string, baseUrl: string)

  /** `BitgetClient.__init__`: credentials are stripped of surrounding white space and the base
      URL is the futures or the spot API root. */
  function NewClient(apiKey: string, apiSecret: string, passphrase: string, isFutures: bool)
    : (c: Client)
    ensures Text.IsStripOf(apiKey, c.apiKey)
    ensures Text.IsStripOf(apiSecret, c.apiSecret)
    ensures Text.IsStripOf(passphrase, c.passphrase)
    ensures c.baseUrl == (if isFutures then FuturesBaseUrl else SpotBaseUrl)
  {
    Client(Text.Strip(apiKey), Text.Strip(apiSecret), Text.Strip(passphrase),
           if isFutures then FuturesBaseUrl else SpotBaseUrl)
  }

  /* ---------- requests ---------- */

  /** One call of `_request`: method, endpoint path, query parameters and JSON body. */
  datatype Call = Call(verb: string, endpoint: string, params: Payload, data: Option<Payload>)

  /** What goes on the wire. The HTTP library upper-cases the method, and sends a body exactly
      when one is given, even an empty dict. */
  datatype HttpRequest = HttpRequest(verb: string, url: string, headers: Payload,
                                     body: Option<string>)

  /** The text of the first header with this name; headers hold strings only. */
  function HeaderValue(headers: Payload, name: string): Option<string> {
    match Lookup(headers, name)
    case Some(Str(text)) => Some(text)
    case _ => None
  }

  function RequestUrl(c: Client, p: Primitives, call: Call): string {
    c.baseUrl + call.endpoint + (if call.params != [] then "?" + p.urlEncode(call.params) else "")
  }

  /** `_request` up to the moment the request is sent, at clock reading `millis`. */
  function BuildRequest(c: Client, p: Primitives, millis: nat, call: Call): (req: HttpRequest)
    ensures call.params == [] ==> req.url == c.baseUrl + call.endpoint
    ensures call.params != [] ==> req.url == c.baseUrl + call.endpoint + "?" + p.urlEncode(call.params)
    ensures req.verb == Text.Upper(call.verb)
    ensures HeaderValue(req.headers, "ACCESS-TIMESTAMP") == Some(Text.DecimalString(millis))
    ensures HeaderValue(req.headers, "ACCESS-SIGN")
            == Some(Signature(p, c.apiSecret, Text.DecimalString(millis), call.verb,
                              call.endpoint, call.data))
    ensures HeaderValue(req.headers, "ACCESS-KEY") == Some(c.apiKey)
    ensures HeaderValue(req.headers, "ACCESS-PASSPHRASE") == Some(c.passphrase)
    ensures HeaderValue(req.headers, "Content-Type") == Some("application/json")
    ensures req.body.Some? <==> call.data.Some?
    ensures call.data.Some? ==> req.body == Some(p.jsonDumps(call.data.value))
    ensures call.data.Some? && call.data.value != [] ==> req.body == Some(BodyText(p, call.data))
  {
    var timestamp := Text.DecimalString(millis);
    var signature := Signature(p, c.apiSecret, timestamp, call.verb, call.endpoint, call.data);
    var headers :=
      [ Field("ACCESS-KEY", Str(c.apiKey)),
        Field("ACCESS-SIGN", Str(signature)),
        Field("ACCESS-TIMESTAMP", Str(timestamp)),
        Field("ACCESS-PASSPHRASE", Str(c.passphrase)),
        Field("Content-Type", Str("application/json")) ];
    assert DistinctKeys(headers);
    LookupFindsField(headers, 0);
    LookupFindsField(headers, 1);
    LookupFindsField(headers, 2);
    LookupFindsField(headers, 3);
    LookupFindsField(headers, 4);
    HttpRequest(
      Text.Upper(call.verb),
      RequestUrl(c, p, call),
      headers,
      if call.data.Some? then Some(p.jsonDumps(call.data.value)) else None)
  }

  /** Query parameters reach the URL but never the signature: two calls that differ only in
      their parameters carry the same signature header. */
  lemma SignatureIgnoresQuery(c: Client, p: Primitives, millis: nat, call: Call, params: Payload)
    ensures HeaderValue(BuildRequest(c, p, millis, call).headers, "ACCESS-SIGN")
            == HeaderValue(BuildRequest(c, p, millis, call.(params := params)).headers, "ACCESS-SIGN")
    ensures '?' !in call.endpoint ==>
              var url := BuildRequest(c, p, millis, call.(params := params)).url;
              && Text.BeforeQuery(url[|c.baseUrl|..]) == call.endpoint
              && url[|c.baseUrl| + |call.endpoint|..]
                 == (if params != [] then "?" + p.urlEncode(params) else "")
  {
    if '?' !in call.endpoint {
      var url := BuildRequest(c, p, millis, call.(params := params)).url;
      assert url[|c.baseUrl|..] == call.endpoint
             + (if params != [] then "?" + p.urlEncode(params) else "");
      Text.BeforeQueryOfPath(call.endpoint, p.urlEncode(params), params != []);
    }
  }

  /** A verifier that authenticates a received request the way the client signs it: from the
      timestamp header, the method, the URL path below the base without the query, and the body
      as received. */
  predicate PathOnlyVerifierAccepts(secret: string, p: Primitives, base: string, req: HttpRequest) {
    var timestamp := HeaderValue(req.headers, "ACCESS-TIMESTAMP");
    var signature := HeaderValue(req.headers, "ACCESS-SIGN");
    && timestamp.Some? && signature.Some?
    && base <= req.url
    && var path := Text.BeforeQuery(req.url[|base|..]);
       var body := if req.body.Some? then req.body.value else "";
       signature.value == p.hmacBase64(secret, timestamp.value + req.verb + path + body)
  }

  /** Every request the client builds passes that verifier, whatever its query, provided its
      endpoint holds no '?' and its body is not an empty dict. */
  lemma BuiltRequestsVerify(c: Client, p: Primitives, millis: nat, call: Call)
    requires '?' !in call.endpoint
    requires call.data != Some([])
    ensures PathOnlyVerifierAccepts(c.apiSecret, p, c.baseUrl, BuildRequest(c, p, millis, call))
  {
    var req := BuildRequest(c, p, millis, call);
    SignatureIgnoresQuery(c, p, millis, call, call.params);
    assert call.(params := call.params) == call;
    assert c.baseUrl <= req.url;
  }

  /** An empty dict body is signed as "" but sent as its JSON text, so when the encoding of an
      empty dict is not empty and HMAC separates messages, the verifier rejects the request. */
  lemma EmptyBodyFailsVerification(c: Client, p: Primitives, millis: nat, call: Call)
    requires '?' !in call.endpoint
    requires call.data == Some([])
    requires p.jsonDumps([]) != []
    requires forall m1, m2 :: p.hmacBase64(c.apiSecret, m1) == p.hmacBase64(c.apiSecret, m2) ==> m1 == m2
    ensures !PathOnlyVerifierAccepts(c.apiSecret, p, c.baseUrl, BuildRequest(c, p, millis, call))
  {
    var req := BuildRequest(c, p, millis, call);
    var timestamp := Text.DecimalString(millis);
    SignatureIgnoresQuery(c, p, millis, call, call.params);
    assert call.(params := call.params) == call;
    var signed := SigningMessage(p, timestamp, call.verb, call.endpoint, call.data);
    var received := timestamp + req.verb + call.endpoint + p.jsonDumps([]);
    assert |signed| < |received|;
  }

  /* ---------- responses ---------- */

  datatype Position = Position(symbol: string, total: real, averageOpenPrice: real)

  datatype Account = Account(marginCoin: string, available: real)

  /** The `data` member of a reply, per endpoint, with a fallback for the others. */
  datatype Data =
    | NoData
    | PositionList(positions: seq<Position>)
    | Ticker(last: real)
    | AccountList(accounts: seq<Account>)
    | Opaque(text: string)

  /** A reply body that is a JSON object: its optional application `code` and its `data`. */
  datatype Reply = Reply(code: Option<string>, data: Data)

  /** What the HTTP session produces: a transport exception, or a status, the raw text and the
      body parsed as a JSON object when it is one. */
  datatype Transport =
    | TransportFailure(cause: string)
    | Received(status: int, text: string, json: Option<Reply>)

  const SuccessCode: string := "00000"

  /** The application code means success: absent, or the success sentinel. */
  predicate IsSuccessCode(code: Option<string>) {
    code == None || code == Some(SuccessCode)
  }

  /** The response handling of `_request`: a transport exception becomes a request error, a
      status other than 200 or an application code other than the success sentinel an API
      error, a body that is not JSON an undecodable reply; anything else is the reply. */
  function Classify(t: Transport): Result<Reply> {
    match t
    case TransportFailure(cause) => Failure(RequestError(cause))
    case Received(status, text, json) =>
      if status != 200 then Failure(ApiError(text))
      else if json.None? then Failure(UndecodableReply(text))
      else
        var code := json.value.code;
        if code != Some(SuccessCode) && code.Some? then Failure(ApiError(text))
        else Success(json.value)
  }

  /** A reply is accepted exactly when the status is 200, the body is JSON and its code, if
      any, is the success sentinel; each rejection carries the error `_request` raises. */
  lemma ClassifyReports(t: Transport)
    ensures Classify(t).Success? <==> t.Received? && t.status == 200 && t.json.Some?
                                      && IsSuccessCode(t.json.value.code)
    ensures Classify(t).Success? ==> Classify(t).value == t.json.value
    ensures t.TransportFailure? ==> Classify(t) == Failure(RequestError(t.cause))
    ensures t.Received? && t.status != 200 ==> Classify(t) == Failure(ApiError(t.text))
    ensures t.Received? && t.status == 200 && t.json.None?
            ==> Classify(t) == Failure(UndecodableReply(t.text))
    ensures t.Received? && t.status == 200 && t.json.Some? && !IsSuccessCode(t.json.value.code)
            ==> Classify(t) == Failure(ApiError(t.text))
  {
  }

  /* ---------- the exchange as a gateway ---------- */

  /** The world outside the core: the clock read for the i-th request's timestamp, and the
      answer the i-th request gets. */
  datatype Exchange = Exchange(clock: nat -> nat, respond: (nat, Call) -> Transport)

  /** The immutable configuration every operation receives. */
  datatype Session = Session(client: Client, prims: Primitives, exchange: Exchange)

  /** One request issued: the logical call and the clock reading it was stamped with. */
  datatype Sent = Sent(call: Call, millis: nat)

  /** Every request issued so far, oldest first. */
  type Trace = seq<Sent>

  /** An operation's effect on the trace and its outcome. */
  datatype Run<+T> = Run(trace: Trace, out: T)

  /** The request issued as the i-th of the session. */
  function Transmit(s: Session, i: nat, call: Call): Sent {
    Sent(call, s.exchange.clock(i))
  }

  /** The HTTP request that carried a recorded call. */
  function RequestOf(s: Session, sent: Sent): HttpRequest {
    BuildRequest(s.client, s.prims, sent.millis, sent.call)
  }

  /** How `_request` reports the answer to the i-th request. */
  function Answer(s: Session, i: nat, call: Call): Result<Reply> {
    Classify(s.exchange.respond(i, call))
  }

  /** `_request`: one request, appended to the trace, answered by the exchange. */
  function Send(s: Session, t: Trace, call: Call): (r: Run<Result<Reply>>)
    ensures |r.trace| == |t| + 1 && r.trace[..|t|] == t
    ensures r.trace[|t|] == Transmit(s, |t|, call)
    ensures r.trace[|t|].call == call
    ensures r.out == Answer(s, |t|, call)
    ensures r.out.Success? ==> IsSuccessCode(r.out.value.code)
  {
    ClassifyReports(s.exchange.respond(|t|, call));
    Run(t + [Transmit(s, |t|, call)], Answer(s, |t|, call))
  }

  /** The logical calls of a trace. */
  function Calls(t: Trace): (r: seq<Call>)
    ensures |r| == |t|
    ensures forall k :: 0 <= k < |t| ==> r[k] == t[k].call
  {
    if t == [] then [] else [t[0].call] + Calls(t[1..])
  }

  /** An exchange whose answers do not depend on when a request is made. */
  ghost predicate Steady(x: Exchange) {
    forall i: nat, j: nat, c: Call :: x.respond(i, c) == x.respond(j, c)
  }
}
