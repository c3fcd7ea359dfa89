/** The response vocabulary and the toolbox through which handlers emit
    messages. The toolbox's source is not part of this model: `send` is taken to
    hand one message to the transport, which the model records by appending it
    to an outbox. */
module Toolbox {

  import opened Model

  /** Per-request correlation data (`RequestContext`). */
  datatype RequestContext = RequestContext(
    connectionId: nat,
    userId: nat,
    seqNo: nat,
    methodCode: nat,
    logId: nat,
    role: nat,
    ipAddr: string)

  /** `WsResponseError`: the structured error a client receives. */
  datatype ErrorBody = ErrorBody(methodCode: nat, code: nat, seqNo: nat, logId: nat, message: string)

  /** `WsResponseValue`. `Stream` and `Close` stand for the variants other than
      `Immediate` and `Error`. */
  datatype ResponseValue =
    | Immediate(methodCode: nat, seqNo: nat, params: Json)
    | Stream(methodCode: nat, params: Json)
    | Error(error: ErrorBody)
    | Close

  /** One message handed to the transport for a connection. */
  datatype Message = Message(connectionId: nat, value: ResponseValue)

  /** The error code the runtime uses for a bad request. */
  const BAD_REQUEST: nat := 100400

  /** `request_error_to_resp(ctx, code, message)`. */
  function RequestError(ctx: RequestContext, code: nat, message: string): ResponseValue {
    Error(ErrorBody(ctx.methodCode, code, ctx.seqNo, ctx.logId, message))
  }

  class Toolbox {
    /** Every message handed to the transport, oldest first. */
    var outbox: seq<Message>

    constructor ()
      ensures outbox == []
    {
      outbox := [];
    }

    /** `toolbox.send(connection_id, response)`. */
    method Send(connectionId: nat, value: ResponseValue)
      modifies this
      ensures outbox == old(outbox) + [Message(connectionId, value)]
    {
      outbox := outbox + [Message(connectionId, value)];
    }

    /** `toolbox.send_request_error(ctx, code, message)`: an error to the context's connection. */
    method SendRequestError(ctx: RequestContext, code: nat, message: string)
      modifies this
      ensures outbox == old(outbox) + [Message(ctx.connectionId, RequestError(ctx, code, message))]
    {
      Send(ctx.connectionId, RequestError(ctx, code, message));
    }
  }
}
