/** The type-erasing request-handler adapter (`src/libs/handler.rs`). A typed
    handler is a value of `RequestHandler`: its request decoder, its handling
    function (the eventual output of the future it returns) and the toolbox's
    response encoder, none of whose source is part of this model. */
module Handler {

  import opened Wrappers
  import opened Text
  import opened Model
  import opened Toolbox

  /** A `serde_path_to_error` failure: the rendered path and the error's own text. */
  datatype DecodeError = DecodeError(path: string, display: string)

  datatype RequestHandler<!Req, !Resp> = RequestHandler(
    /** `std::any::type_name` of the handler and of its request type. */
    typeName: string,
    requestTypeName: string,
    /** `serde_path_to_error::deserialize` over the request value. */
    decode: Json -> Result<Req, DecodeError>,
    /** The value the handler's future resolves to. */
    handle: (RequestContext, Req) -> Resp,
    /** `Toolbox::encode_ws_response`. */
    encode: (RequestContext, Resp) -> Option<ResponseValue>)

  /** A handler after erasure: the request is a JSON value, the response a JSON
      value or an error text. */
  type ErasedHandler = RequestHandler<Json, Result<Json, string>>

  /** The future `handle` returns: already finished, or waiting for the handler's response. */
  datatype Pending<Resp> = Finished | Awaiting(ctx: RequestContext, response: Resp)

  /** The text of the bad-request error: the path, a colon, and the error. */
  function BadRequestText(e: DecodeError): (t: string)
    ensures StartsWith(t, e.path + ": ") && EndsWith(t, e.display)
    ensures |t| == |e.path| + 2 + |e.display|
  {
    e.path + ": " + e.display
  }

  /** The messages one awaited future sends. */
  function Delivered<Req, Resp>(h: RequestHandler<Req, Resp>, p: Pending<Resp>): (ms: seq<Message>)
    ensures |ms| <= 1
    ensures p.Finished? ==> ms == []
    ensures p.Awaiting? ==> (|ms| == 1 <==> h.encode(p.ctx, p.response).Some?)
    ensures forall m | m in ms :: p.Awaiting? && m == Message(p.ctx.connectionId, h.encode(p.ctx, p.response).value)
  {
    match p
    case Finished => []
    case Awaiting(ctx, resp) =>
      match h.encode(ctx, resp)
      case Some(v) => [Message(ctx.connectionId, v)]
      case None => []
  }

  /** Every message one request produces, whether it is rejected or handled:
      at most one, always to the request's own connection; a request that
      does not decode gets exactly the bad-request error. */
  function Dispatch<Req, Resp>(h: RequestHandler<Req, Resp>, ctx: RequestContext, req: Json): (ms: seq<Message>)
    ensures |ms| <= 1
    ensures forall m | m in ms :: m.connectionId == ctx.connectionId
    ensures h.decode(req).Failure? ==>
      ms == [Message(ctx.connectionId, RequestError(ctx, BAD_REQUEST, BadRequestText(h.decode(req).error)))]
    ensures h.decode(req).Success? ==>
      (|ms| == 1 <==> h.encode(ctx, h.handle(ctx, h.decode(req).value)).Some?)
  {
    match h.decode(req)
    case Failure(e) => [Message(ctx.connectionId, RequestError(ctx, BAD_REQUEST, BadRequestText(e)))]
    case Success(r) => Delivered(h, Awaiting(ctx, h.handle(ctx, r)))
  }

  /** `RequestHandlerErased::handle`: decode the request; on failure send the
      bad-request error at once and return a finished future without calling
      the handler; on success call the handler with the decoded request and
      return the future that will deliver its response. */
  method HandleErased<Req, Resp>(h: RequestHandler<Req, Resp>, toolbox: Toolbox, ctx: RequestContext, req: Json)
    returns (pending: Pending<Resp>, called: Option<Req>)
    modifies toolbox
    ensures h.decode(req).Failure? ==>
      && pending == Finished && called == None
      && toolbox.outbox == old(toolbox.outbox) + Dispatch(h, ctx, req)
    ensures h.decode(req).Success? ==>
      && called == Some(h.decode(req).value)
      && pending == Awaiting(ctx, h.handle(ctx, called.value))
      && toolbox.outbox == old(toolbox.outbox)
  {
    var decoded := h.decode(req);
    match decoded
    case Failure(e) =>
      toolbox.Send(ctx.connectionId, RequestError(ctx, BAD_REQUEST, BadRequestText(e)));
      return Finished, None;
    case Success(r) =>
      return Awaiting(ctx, h.handle(ctx, r)), Some(r);
  }

  /** Awaiting the future: the response is sent iff the encoder produces one. */
  method Await<Req, Resp>(h: RequestHandler<Req, Resp>, toolbox: Toolbox, pending: Pending<Resp>)
    modifies toolbox
    ensures toolbox.outbox == old(toolbox.outbox) + Delivered(h, pending)
  {
    match pending
    case Finished =>
    case Awaiting(ctx, resp) =>
      var encoded := h.encode(ctx, resp);
      if encoded.Some? {
        toolbox.Send(ctx.connectionId, encoded.value);
      }
  }

  /** Calling the erased handler and awaiting its future sends what `Dispatch` says. */
  method HandleAndAwait<Req, Resp>(h: RequestHandler<Req, Resp>, toolbox: Toolbox, ctx: RequestContext, req: Json)
    modifies toolbox
    ensures toolbox.outbox == old(toolbox.outbox) + Dispatch(h, ctx, req)
  {
    var pending, _ := HandleErased(h, toolbox, ctx, req);
    Await(h, toolbox, pending);
  }
}
