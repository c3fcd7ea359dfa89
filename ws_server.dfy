/** The websocket endpoint server (`src/libs/ws/server.rs`): handler
    registration keyed by endpoint code, the per-connection handshake,
    authentication and session lifecycle, the listener choice, and the dump of
    registered endpoint names. Sockets, the websocket protocol, the session
    loop and the host lookup are outside the model; their results arrive as
    parameters. */
module WsServer {

  import opened Wrappers
  import opened Text
  import opened Sorting
  import opened Model
  import opened Toolbox
  import opened Handler

  /** `WsServerConfig`. */
  datatype WsServerConfig = WsServerConfig(
    name: string,
    address: string,
    pubCerts: Option<seq<string>>,
    privKey: Option<string>,
    debug: bool,
    headerOnly: bool,
    allowCorsUrls: Option<seq<string>>)

  /** A registered endpoint: its schema and its type-erased handler. */
  datatype WsEndpoint = WsEndpoint(schema: EndpointSchema, handler: ErasedHandler)

  /** Handshake headers. */
  type Headers = map<string, string>

  /** What an `AuthController` decides for a connection's headers: accept with
      the user and role it assigns, or reject with the error's text. */
  datatype AuthDecision = Accept(userId: nat, role: nat) | Reject(message: string)

  type AuthController = (Headers, nat) -> AuthDecision

  /** The listener a configuration selects. */
  datatype Listener = Plain | Tls(certs: seq<string>, key: string)

  /** The message of a failed name check. */
  function Mismatch(category: string, expected: string, actual: string): string {
    category + " name should be " + expected + " but got " + actual
  }

  /** `check_name`: the reported type name must contain the expected name. */
  function CheckName(category: string, actual: string, expected: string): (r: Outcome<string>)
    ensures r.Pass? <==> Contains(actual, expected)
    ensures r.Fail? ==> r.error == Mismatch(category, expected, actual)
  {
    if !Contains(actual, expected) then Fail(Mismatch(category, expected, actual)) else Pass
  }

  /** `check_handler`: the handler's type name must contain "Method" + the
      endpoint name and its request type name the endpoint name + "Request";
      the handler name is checked first. */
  function CheckHandler(schema: EndpointSchema, handlerTypeName: string, requestTypeName: string): (r: Outcome<string>)
    ensures r.Pass? <==>
      Contains(handlerTypeName, "Method" + schema.name) && Contains(requestTypeName, schema.name + "Request")
    ensures !Contains(handlerTypeName, "Method" + schema.name) ==>
      r == Fail(Mismatch("Method", "Method" + schema.name, handlerTypeName))
    ensures Contains(handlerTypeName, "Method" + schema.name) && !Contains(requestTypeName, schema.name + "Request") ==>
      r == Fail(Mismatch("Request", schema.name + "Request", requestTypeName))
  {
    var handlerCheck := CheckName("Method", handlerTypeName, "Method" + schema.name);
    if handlerCheck.Fail? then handlerCheck
    else CheckName("Request", requestTypeName, schema.name + "Request")
  }

  /** `listen`'s choice of listener: plain TCP when neither certificate nor key
      is configured, TLS with both when both are, an error otherwise. */
  function ListenerFor(config: WsServerConfig): (r: Result<Listener, string>)
    ensures r.Success? <==> (config.pubCerts.Some? <==> config.privKey.Some?)
    ensures r.Success? ==> (r.value.Tls? <==> config.pubCerts.Some?)
    ensures r.Success? && r.value.Tls? ==>
      r.value.certs == config.pubCerts.value && r.value.key == config.privKey.value
    ensures r.Failure? ==> r.error == "pub_certs and priv_key should be both set or unset"
  {
    if config.pubCerts.None? && config.privKey.None? then Success(Plain)
    else if config.pubCerts.Some? && config.privKey.Some? then
      Success(Tls(config.pubCerts.value, config.privKey.value))
    else Failure("pub_certs and priv_key should be both set or unset")
  }

  /** A live connection (`WsConnection`); authentication may assign its user and role. */
  class WsConnection {
    const connectionId: nat
    var userId: nat
    var role: nat
    const address: string
    const logId: nat

    constructor (connectionId: nat, address: string, logId: nat)
      ensures this.connectionId == connectionId && this.address == address && this.logId == logId
      ensures userId == 0 && role == 0
    {
      this.connectionId := connectionId;
      this.address := address;
      this.logId := logId;
      userId := 0;
      role := 0;
    }

    /** `RequestContext::from_conn`: a context with sequence number and method 0. */
    function Context(): (ctx: RequestContext)
      reads this
      ensures ctx.connectionId == connectionId && ctx.userId == userId && ctx.role == role
      ensures ctx.logId == logId && ctx.ipAddr == address && ctx.seqNo == 0 && ctx.methodCode == 0
    {
      RequestContext(connectionId, userId, 0, 0, logId, role, address)
    }
  }

  /** `WebsocketStates`: the live connections by connection id. */
  class WebsocketStates {
    var entries: map<nat, WsConnection>

    constructor ()
      ensures entries == map[]
    {
      entries := map[];
    }

    method Insert(connectionId: nat, conn: WsConnection)
      modifies this
      ensures entries == old(entries)[connectionId := conn]
    {
      entries := entries[connectionId := conn];
    }

    method Remove(connectionId: nat)
      modifies this
      ensures entries == old(entries) - {connectionId}
    {
      entries := entries - {connectionId};
    }
  }

  class WebsocketServer {
    var auth: AuthController
    var handlers: map<nat, WsEndpoint>
    const toolbox: Toolbox
    const config: WsServerConfig

    /** Every registered endpoint sits under its own code. */
    predicate Valid()
      reads this
    {
      forall c | c in handlers :: handlers[c].schema.code == c
    }

    /** `WebsocketServer::new`; the default controller is a parameter. */
    constructor (config: WsServerConfig, defaultAuth: AuthController)
      ensures this.config == config && auth == defaultAuth && handlers == map[]
      ensures fresh(toolbox) && toolbox.outbox == []
      ensures Valid()
    {
      this.config := config;
      auth := defaultAuth;
      handlers := map[];
      toolbox := new Toolbox();
    }

    method SetAuthController(controller: AuthController)
      modifies this
      ensures auth == controller && handlers == old(handlers)
    {
      auth := controller;
    }

    /** `add_handler_erased`: the endpoint is stored under its code, replacing
        any earlier one; replacing is fatal (`Fail` carries the panic message
        naming the replaced endpoint). */
    method AddHandlerErased(schema: EndpointSchema, handler: ErasedHandler) returns (r: Outcome<string>)
      requires Valid()
      modifies this
      ensures Valid()
      ensures handlers == old(handlers)[schema.code := WsEndpoint(schema, handler)]
      ensures r.Fail? <==> schema.code in old(handlers)
      ensures r.Fail? ==> r.error == "Overwriting handler for endpoint " + NatToString(schema.code)
                                     + " " + old(handlers)[schema.code].schema.name
      ensures auth == old(auth)
    {
      var old_ := if schema.code in handlers then Some(handlers[schema.code]) else None;
      handlers := handlers[schema.code := WsEndpoint(schema, handler)];
      if old_.Some? {
        return Fail("Overwriting handler for endpoint " + NatToString(old_.value.schema.code)
                    + " " + old_.value.schema.name);
      }
      return Pass;
    }

    /** `add_handler`: the request type's schema text must parse and the
        handler must pass `check_handler` (either failure is fatal and leaves
        the handlers unchanged); then the handler is registered as above. */
    method AddHandler(parsedSchema: Result<EndpointSchema, string>, handler: ErasedHandler) returns (r: Outcome<string>)
      requires Valid()
      modifies this
      ensures Valid() && auth == old(auth)
      ensures parsedSchema.Failure? ==>
        r == Fail("Invalid schema: " + parsedSchema.error) && handlers == old(handlers)
      ensures parsedSchema.Success? && CheckHandler(parsedSchema.value, handler.typeName, handler.requestTypeName).Fail? ==>
        && r == Fail("Invalid handler: " + CheckHandler(parsedSchema.value, handler.typeName, handler.requestTypeName).error)
        && handlers == old(handlers)
      ensures parsedSchema.Success? && CheckHandler(parsedSchema.value, handler.typeName, handler.requestTypeName).Pass? ==>
        && handlers == old(handlers)[parsedSchema.value.code := WsEndpoint(parsedSchema.value, handler)]
        && (r.Fail? <==> parsedSchema.value.code in old(handlers))
    {
      if parsedSchema.Failure? {
        return Fail("Invalid schema: " + parsedSchema.error);
      }
      var schema := parsedSchema.value;
      var check := CheckHandler(schema, handler.typeName, handler.requestTypeName);
      if check.Fail? {
        return Fail("Invalid handler: " + check.error);
      }
      r := AddHandlerErased(schema, handler);
    }

    /** `handle_ws_handshake_and_connection`: a failed protocol handshake or a
        missing header message ends the connection before it is registered.
        Otherwise the connection is registered in `states` with user 0 and
        role 0 and authenticated; a rejection sends the bad-request error with
        the rejection's text to the connection and ends it, leaving its entry
        in `states`. An accepted connection runs its session unless the server
        is header-only; only a session removes the entry. */
    method HandleWsHandshakeAndConnection(
      address: string, states: WebsocketStates, handshake: Outcome<string>,
      headers: Option<Headers>, connectionId: nat, logId: nat)
      returns (r: Outcome<string>, conn: WsConnection?, sessionRan: bool)
      modifies states, toolbox
      ensures handshake.Fail? ==>
        r == handshake && conn == null && !sessionRan
        && states.entries == old(states.entries) && toolbox.outbox == old(toolbox.outbox)
      ensures handshake.Pass? && headers.None? ==>
        r == Fail("Failed to receive ws headers") && conn == null && !sessionRan
        && states.entries == old(states.entries) && toolbox.outbox == old(toolbox.outbox)
      ensures handshake.Pass? && headers.Some? ==>
        conn != null && fresh(conn) && conn.connectionId == connectionId
        && conn.address == address && conn.logId == logId
        && match auth(headers.value, connectionId)
           case Reject(message) =>
             && r == Fail(message) && !sessionRan
             && conn.userId == 0 && conn.role == 0
             && states.entries == old(states.entries)[connectionId := conn]
             && toolbox.outbox == old(toolbox.outbox)
                + [Message(connectionId, RequestError(conn.Context(), BAD_REQUEST, message))]
           case Accept(userId, role) =>
             && r == Pass && sessionRan == !config.headerOnly
             && conn.userId == userId && conn.role == role
             && toolbox.outbox == old(toolbox.outbox)
             && states.entries == if config.headerOnly then old(states.entries)[connectionId := conn]
                                  else old(states.entries)[connectionId := conn] - {connectionId}
    {
      if handshake.Fail? {
        return handshake, null, false;
      }
      if headers.None? {
        return Fail("Failed to receive ws headers"), null, false;
      }
      conn := new WsConnection(connectionId, address, logId);
      states.Insert(connectionId, conn);
      var decision := auth(headers.value, connectionId);
      if decision.Accept? {
        conn.userId := decision.userId;
        conn.role := decision.role;
      }
      var rawCtx := conn.Context();
      if decision.Reject? {
        toolbox.SendRequestError(rawCtx, BAD_REQUEST, decision.message);
        return Fail(decision.message), conn, false;
      }
      sessionRan := false;
      if !config.headerOnly {
        HandleSessionConnection(conn, states);
        sessionRan := true;
      }
      r := Pass;
    }

    /** `handle_session_connection`: after the session ends the connection is
        removed from `states`. */
    method HandleSessionConnection(conn: WsConnection, states: WebsocketStates)
      modifies states
      ensures states.entries == old(states.entries) - {conn.connectionId}
    {
      var context := conn.Context();
      states.Remove(context.connectionId);
    }

    /** `dump_schemas`: the names of all registered endpoints, one per
        endpoint, in ascending order; `visited` is the order in which the map
        yields its entries. */
    method DumpSchemas() returns (names: seq<string>, ghost visited: seq<nat>)
      ensures Enumerates(visited, handlers.Keys)
      ensures names == SortBy(NamesOf(visited), StrLe)
      ensures SortedBy(StrLe, names) && |names| == |handlers|
    {
      var remaining := handlers.Keys;
      var collected: seq<string> := [];
      visited := [];
      while remaining != {}
        invariant remaining <= handlers.Keys
        invariant forall c | c in visited :: c in handlers && c !in remaining
        invariant forall c | c in handlers :: c in visited || c in remaining
        invariant Distinct(visited)
        invariant |visited| + |remaining| == |handlers.Keys|
        invariant collected == NamesOf(visited)
        decreases |remaining|
      {
        var c :| c in remaining;
        NamesOfAppend(visited, c);
        collected := collected + [handlers[c].schema.name];
        visited := visited + [c];
        remaining := remaining - {c};
      }
      StrLeTotalPreorder();
      SortBySorted(collected, StrLe);
      names := SortBy(collected, StrLe);
    }

    /** The endpoint names under the given codes, in that order. */
    ghost function NamesOf(codes: seq<nat>): (ns: seq<string>)
      reads this
      requires forall c | c in codes :: c in handlers
      ensures |ns| == |codes|
      ensures forall i | 0 <= i < |codes| :: ns[i] == handlers[codes[i]].schema.name
      decreases |codes|
    {
      if codes == [] then [] else NamesOf(codes[..|codes| - 1]) + [handlers[codes[|codes| - 1]].schema.name]
    }

    lemma NamesOfAppend(codes: seq<nat>, c: nat)
      requires forall d | d in codes :: d in handlers
      requires c in handlers
      ensures NamesOf(codes + [c]) == NamesOf(codes) + [handlers[c].schema.name]
    {
      assert (codes + [c])[..|codes|] == codes;
    }
  }

  ghost predicate Distinct(s: seq<nat>) {
    forall i, j | 0 <= i < j < |s| :: s[i] != s[j]
  }

  /** s lists every element of keys exactly once. */
  ghost predicate Enumerates(s: seq<nat>, keys: set<nat>) {
    Distinct(s) && |s| == |keys| && forall c :: c in s <==> c in keys
  }
}
