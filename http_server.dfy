/** The HTTP endpoint server (`src/libs/http/server.rs`): handlers keyed by
    endpoint name, one request per call with the response taken from the
    first message the handler sends, a per-connection sequence counter, the
    internal-error fallback, and the listener choice. The HTTP protocol,
    sockets and JSON parsing are outside the model; the request path, the body
    chunks and the JSON parser arrive as parameters. */
module HttpServer {

  import opened Wrappers
  import opened Text
  import opened Model
  import opened Toolbox
  import opened Handler
  import opened WsServer

  /** The response body: plain text, or a value the server serialises as JSON. */
  datatype HttpBody = Text(text: string) | JsonBody(value: Json) | ErrorJson(error: ErrorBody)

  datatype HttpResponse = HttpResponse(status: nat, body: HttpBody)

  /** How handling one request ends: a response, an error returned to the
      connection's service function, a panic, or waiting forever for a
      message the handler never sent. */
  datatype HttpOutcome =
    | Responded(response: HttpResponse)
    | Failed(error: string)
    | Panicked(message: string)
    | Stalled

  const U32_LIMIT: nat := 0x1_0000_0000

  /** The message of `todo!()`. */
  const TODO_MESSAGE: string := "not yet implemented"

  /** The bytes of a body read chunk by chunk: the first failing chunk's error,
      or the concatenation of all chunks. */
  function CollectBody(chunks: seq<Result<seq<byte>, string>>): Result<seq<byte>, string>
    decreases |chunks|
  {
    if chunks == [] then Success([])
    else
      var front := chunks[..|chunks| - 1];
      match CollectBody(front)
      case Failure(e) => Failure(e)
      case Success(b) =>
        match chunks[|chunks| - 1]
        case Failure(e) => Failure(e)
        case Success(c) => Success(b + c)
  }

  /** The body is collected iff every chunk arrives; otherwise the error is
      that of the first chunk that fails. */
  lemma {:induction false} CollectBodyOutcome(chunks: seq<Result<seq<byte>, string>>)
    ensures CollectBody(chunks).Success? <==> forall i | 0 <= i < |chunks| :: chunks[i].Success?
    ensures CollectBody(chunks).Failure? ==> exists i | 0 <= i < |chunks| ::
      chunks[i] == Failure(CollectBody(chunks).error) && forall j | 0 <= j < i :: chunks[j].Success?
    decreases |chunks|
  {
    if chunks != [] {
      var front := chunks[..|chunks| - 1];
      CollectBodyOutcome(front);
      assert forall i | 0 <= i < |front| :: front[i] == chunks[i];
      match CollectBody(front) {
        case Failure(e) =>
          var i :| 0 <= i < |front| && front[i] == Failure(e) && forall j | 0 <= j < i :: front[j].Success?;
          assert chunks[i] == Failure(e);
        case Success(b) =>
          if chunks[|front|].Failure? {
            assert chunks[|front|] == Failure(CollectBody(chunks).error);
          }
      }
    }
  }

  /** Once a prefix of the chunks fails, the whole body fails the same way. */
  lemma {:induction false} CollectBodyFailureSticks(chunks: seq<Result<seq<byte>, string>>, k: nat)
    requires k <= |chunks| && CollectBody(chunks[..k]).Failure?
    ensures CollectBody(chunks) == CollectBody(chunks[..k])
    decreases |chunks| - k
  {
    if k < |chunks| {
      assert chunks[..k + 1][..k] == chunks[..k];
      CollectBodyFailureSticks(chunks, k + 1);
    } else {
      assert chunks[..k] == chunks;
    }
  }

  /** The chunk loop of `handle_request`: bytes are appended chunk by chunk
      and the first failing chunk ends the loop with its error. */
  method ReadBody(chunks: seq<Result<seq<byte>, string>>) returns (r: Result<seq<byte>, string>)
    ensures r == CollectBody(chunks)
  {
    var body: seq<byte> := [];
    var i := 0;
    while i < |chunks|
      invariant 0 <= i <= |chunks|
      invariant CollectBody(chunks[..i]) == Success(body)
    {
      assert chunks[..i + 1][..i] == chunks[..i];
      match chunks[i]
      case Failure(e) =>
        CollectBodyFailureSticks(chunks, i + 1);
        return Failure(e);
      case Success(c) =>
        body := body + c;
      i := i + 1;
    }
    assert chunks[..i] == chunks;
    return Success(body);
  }

  /** The response taken from the messages the handler sent: the first one
      decides; none means the request waits forever. */
  function ReplyFor(ms: seq<Message>): (r: HttpOutcome)
    ensures ms == [] <==> r.Stalled?
    ensures ms != [] && ms[0].value.Immediate? ==> r == Responded(HttpResponse(200, JsonBody(ms[0].value.params)))
    ensures ms != [] && ms[0].value.Error? ==> r == Responded(HttpResponse(400, ErrorJson(ms[0].value.error)))
    ensures ms != [] && !ms[0].value.Immediate? && !ms[0].value.Error? ==> r == Panicked(TODO_MESSAGE)
  {
    if ms == [] then Stalled
    else
      match ms[0].value
      case Immediate(_, _, params) => Responded(HttpResponse(200, JsonBody(params)))
      case Error(err) => Responded(HttpResponse(400, ErrorJson(err)))
      case _ => Panicked(TODO_MESSAGE)
  }

  /** `listen` as written: the TLS branch is taken when certificates are set
      and the key is NOT, and then unwrapping the absent key panics; a
      configuration with both set is rejected. */
  function ListenerAsWritten(config: WsServerConfig): (r: Result<Listener, HttpOutcome>)
    ensures r.Success? <==> config.pubCerts.None? && config.privKey.None?
    ensures r.Success? ==> r.value == Plain
  {
    if config.pubCerts.None? && config.privKey.None? then Success(Plain)
    else if config.pubCerts.Some? && config.privKey.None? then
      Failure(Panicked("called `Option::unwrap()` on a `None` value"))
    else Failure(Failed("pub_certs and priv_cert should be both set or unset"))
  }

  /** A configuration with both certificate and key, which `listen` as
      written cannot serve and the websocket server accepts for TLS. */
  lemma ListenerAsWrittenRejectsTls(config: WsServerConfig)
    requires config.pubCerts.Some? && config.privKey.Some?
    ensures ListenerAsWritten(config) == Failure(Failed("pub_certs and priv_cert should be both set or unset"))
    ensures ListenerFor(config) == Success(Tls(config.pubCerts.value, config.privKey.value))
  {
  }

  /** Certificates without a key reach the TLS branch and panic. */
  lemma ListenerAsWrittenPanicsWithoutKey(config: WsServerConfig)
    requires config.pubCerts.Some? && config.privKey.None?
    ensures ListenerAsWritten(config).Failure? && ListenerAsWritten(config).error.Panicked?
  {
  }

  /** `listen` as intended: plain TCP with neither, TLS with both, and the
      error for exactly one of the two. */
  function Listener(config: WsServerConfig): (r: Result<Listener, HttpOutcome>)
    ensures r.Success? <==> (config.pubCerts.Some? <==> config.privKey.Some?)
    ensures r.Success? ==> (r.value.Tls? <==> config.pubCerts.Some?)
    ensures r.Success? && r.value.Tls? ==>
      r.value.certs == config.pubCerts.value && r.value.key == config.privKey.value
    ensures r.Failure? ==> r.error == Failed("pub_certs and priv_cert should be both set or unset")
  {
    if config.pubCerts.None? && config.privKey.None? then Success(Plain)
    else if config.pubCerts.Some? && config.privKey.Some? then
      Success(Tls(config.pubCerts.value, config.privKey.value))
    else Failure(Failed("pub_certs and priv_cert should be both set or unset"))
  }

  /** The corrected HTTP listener chooses exactly as the WebSocket server's
      `listen` does; only the error text differs. */
  lemma ListenerMatchesWebSocket(config: WsServerConfig)
    ensures Listener(config).Success? <==> ListenerFor(config).Success?
    ensures Listener(config).Success? ==> Listener(config).value == ListenerFor(config).value
  {
  }

  /** The context of a request: the connection's identity, the request's
      sequence number and the endpoint's code. */
  function ContextFor(conn: WsConnection, seqNo: nat, code: nat): (ctx: RequestContext)
    reads conn
    ensures ctx.connectionId == conn.connectionId && ctx.userId == conn.userId && ctx.role == conn.role
    ensures ctx.logId == conn.logId && ctx.ipAddr == conn.address && ctx.seqNo == seqNo && ctx.methodCode == code
  {
    RequestContext(conn.connectionId, conn.userId, seqNo, code, conn.logId, conn.role, conn.address)
  }

  /** What a request to a registered endpoint produces: the chunk error if the
      body fails to arrive, 400 with the parser's text for a body that is not
      JSON, otherwise the reply to the first message the handler sends. */
  function EndpointOutcome(endpoint: WsEndpoint, ctx: RequestContext, chunks: seq<Result<seq<byte>, string>>,
                           parse: seq<byte> -> Result<Json, string>): (r: HttpOutcome)
    ensures CollectBody(chunks).Failure? ==> r == Failed(CollectBody(chunks).error)
    ensures CollectBody(chunks).Success? && parse(CollectBody(chunks).value).Failure? ==>
      r == Responded(HttpResponse(400, Text(parse(CollectBody(chunks).value).error)))
    ensures r.Responded? ==> r.response.status in {200, 400}
    ensures CollectBody(chunks).Success? && parse(CollectBody(chunks).value).Success? ==>
      r == ReplyFor(Dispatch(endpoint.handler, ctx, parse(CollectBody(chunks).value).value))
  {
    match CollectBody(chunks)
    case Failure(e) => Failed(e)
    case Success(body) =>
      match parse(body)
      case Failure(e) => Responded(HttpResponse(400, Text(e)))
      case Success(req) => ReplyFor(Dispatch(endpoint.handler, ctx, req))
  }

  /** The part of `handle_request` after the endpoint is found: the body is
      read, parsed and handed to the handler, whose messages go to a sink of
      this request's own. */
  method ServeEndpoint(endpoint: WsEndpoint, ctx: RequestContext, chunks: seq<Result<seq<byte>, string>>,
                       parse: seq<byte> -> Result<Json, string>) returns (out: HttpOutcome)
    ensures out == EndpointOutcome(endpoint, ctx, chunks, parse)
  {
    var body := ReadBody(chunks);
    if body.Failure? {
      return Failed(body.error);
    }
    var parsed := parse(body.value);
    if parsed.Failure? {
      return Responded(HttpResponse(400, Text(parsed.error)));
    }
    var sink := new Toolbox();
    HandleAndAwait(endpoint.handler, sink, ctx, parsed.value);
    out := ReplyFor(sink.outbox);
  }

  class HttpServer {
    var handlers: map<string, WsEndpoint>
    const toolbox: Toolbox
    const config: WsServerConfig

    /** Every registered endpoint sits under its own name. */
    predicate Valid()
      reads this
    {
      forall n | n in handlers :: handlers[n].schema.name == n
    }

    constructor (config: WsServerConfig)
      ensures this.config == config && handlers == map[] && Valid()
      ensures fresh(toolbox) && toolbox.outbox == []
    {
      this.config := config;
      handlers := map[];
      toolbox := new Toolbox();
    }

    /** `add_handler_erased`: the endpoint is stored under its name, replacing
        any earlier one; replacing is fatal. */
    method AddHandlerErased(schema: EndpointSchema, handler: ErasedHandler) returns (r: Outcome<string>)
      requires Valid()
      modifies this
      ensures Valid()
      ensures handlers == old(handlers)[schema.name := WsEndpoint(schema, handler)]
      ensures r.Fail? <==> schema.name in old(handlers)
      ensures r.Fail? ==> r.error == "Overwriting handler for endpoint "
                                     + NatToString(old(handlers)[schema.name].schema.code) + " " + schema.name
    {
      var old_ := if schema.name in handlers then Some(handlers[schema.name]) else None;
      handlers := handlers[schema.name := WsEndpoint(schema, handler)];
      if old_.Some? {
        return Fail("Overwriting handler for endpoint " + NatToString(old_.value.schema.code)
                    + " " + old_.value.schema.name);
      }
      return Pass;
    }

    /** `add_handler`: a handler failing `check_handler` is fatal and changes
        nothing; otherwise it is registered as above. */
    method AddHandler(schema: EndpointSchema, handler: ErasedHandler) returns (r: Outcome<string>)
      requires Valid()
      modifies this
      ensures Valid()
      ensures CheckHandler(schema, handler.typeName, handler.requestTypeName).Fail? ==>
        && r == Fail("Invalid handler: " + CheckHandler(schema, handler.typeName, handler.requestTypeName).error)
        && handlers == old(handlers)
      ensures CheckHandler(schema, handler.typeName, handler.requestTypeName).Pass? ==>
        && handlers == old(handlers)[schema.name := WsEndpoint(schema, handler)]
        && (r.Fail? <==> schema.name in old(handlers))
    {
      var check := CheckHandler(schema, handler.typeName, handler.requestTypeName);
      if check.Fail? {
        return Fail("Invalid handler: " + check.error);
      }
      r := AddHandlerErased(schema, handler);
    }

    /** What `handle_request` produces: 404 for an unregistered path (leading
        slashes removed); the chunk error if the body fails to arrive; 400 with
        the parser's text for a body that is not JSON; otherwise the reply to
        the first message the handler sends, in a context carrying the
        connection's identity, the sequence number and the endpoint's code. */
    function Handled(conn: WsConnection, path: string, chunks: seq<Result<seq<byte>, string>>,
                     seqNo: nat, parse: seq<byte> -> Result<Json, string>): (r: HttpOutcome)
      reads this, conn
      ensures (r.Responded? && r.response.status == 404) <==> TrimStartChar(path, '/') !in handlers
      ensures TrimStartChar(path, '/') !in handlers ==>
        r.response.body == Text("Endpoint " + TrimStartChar(path, '/') + " not found")
      ensures r.Responded? ==> r.response.status in {200, 400, 404}
      ensures TrimStartChar(path, '/') in handlers && CollectBody(chunks).Failure? ==>
        r == Failed(CollectBody(chunks).error)
      ensures TrimStartChar(path, '/') in handlers && CollectBody(chunks).Success?
              && parse(CollectBody(chunks).value).Failure? ==>
        r == Responded(HttpResponse(400, Text(parse(CollectBody(chunks).value).error)))
    {
      var url := TrimStartChar(path, '/');
      if url !in handlers then Responded(HttpResponse(404, Text("Endpoint " + url + " not found")))
      else
        var r := EndpointOutcome(handlers[url], ContextFor(conn, seqNo, handlers[url].schema.code), chunks, parse);
        assert r.Responded? ==> r.response.status == 200 || r.response.status == 400;
        r
    }

    /** `handle_request`: reads the body chunk by chunk and hands the parsed
        request to the endpoint's handler, whose messages go to a sink of this
        request's own. */
    method HandleRequest(conn: WsConnection, path: string, chunks: seq<Result<seq<byte>, string>>,
                         seqNo: nat, parse: seq<byte> -> Result<Json, string>) returns (out: HttpOutcome)
      ensures out == Handled(conn, path, chunks, seqNo, parse)
    {
      var url := TrimStartChar(path, '/');
      if url !in handlers {
        return Responded(HttpResponse(404, Text("Endpoint " + url + " not found")));
      }
      var endpoint := handlers[url];
      out := ServeEndpoint(endpoint, ContextFor(conn, seqNo, endpoint.schema.code), chunks, parse);
    }
  }

  /** One HTTP connection (`handle_connection`): its identity and the sequence
      counter its requests share. */
  class HttpConnection {
    const server: HttpServer
    const conn: WsConnection
    var seqNo: nat

    constructor (server: HttpServer, connectionId: nat, address: string, logId: nat)
      ensures this.server == server && fresh(conn) && seqNo == 0
      ensures conn.connectionId == connectionId && conn.address == address && conn.logId == logId
      ensures conn.userId == 0 && conn.role == 0
    {
      this.server := server;
      conn := new WsConnection(connectionId, address, logId);
      seqNo := 0;
    }

    /** One request: the counter is advanced (a `u32`, wrapping as in a release build) before the
        request is handled with it, and an error becomes the 500 response
        naming the connection's log id. */
    method Serve(path: string, chunks: seq<Result<seq<byte>, string>>, parse: seq<byte> -> Result<Json, string>)
      returns (out: HttpOutcome)
      modifies this
      ensures seqNo == (old(seqNo) + 1) % U32_LIMIT
      ensures out == WithInternalError(server.Handled(conn, path, chunks, seqNo, parse), conn.logId)
      ensures !out.Failed?
    {
      seqNo := (seqNo + 1) % U32_LIMIT;
      var result := server.HandleRequest(conn, path, chunks, seqNo, parse);
      out := WithInternalError(result, conn.logId);
    }
  }

  /** An error becomes the 500 response with the log id; anything else passes through. */
  function WithInternalError(o: HttpOutcome, logId: nat): (r: HttpOutcome)
    ensures !r.Failed?
    ensures o.Failed? ==> r == Responded(HttpResponse(500, Text("Internal Server Error: log_id=" + NatToString(logId))))
    ensures !o.Failed? ==> r == o
  {
    if o.Failed? then Responded(HttpResponse(500, Text("Internal Server Error: log_id=" + NatToString(logId))))
    else o
  }
}
