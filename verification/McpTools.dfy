/** What the session does for requests written out: which call each tool makes and what each verb answers. */
module McpTools {
  import opened Results
  import opened Text
  import opened McpSession

  /** A request as a client writes it. */
  function Written(id: Json, verb: string, params: map<string, Json>): Json {
    Object(map["jsonrpc" := String("2.0"), "id" := id, "method" := String(verb), "params" := Object(params)])
  }

  /** A `tools/call` with the arguments given. */
  function ToolRequest(id: Json, tool: string, arguments: Option<Json>): Json {
    Written(id, "tools/call",
            if arguments.Some? then map["name" := String(tool), "arguments" := arguments.value] else map["name" := String(tool)])
  }

  predicate IsId(id: Json) { id.String? || id.Number? }

  /** The request is answered without a call. */
  predicate Replies(host: Host, s: Session, request: Json, id: Json, o: Outcome) {
    Step(host, s, request) == s.(log := s.log + [Sent(Reply(id, o))])
  }

  /** The request makes this one call and returns its answer. */
  predicate Makes(host: Host, s: Session, request: Json, id: Json, call: Call) {
    Step(host, s, request)
    == s.(log := s.log + [Called(call), Sent(Reply(id, Answered(host.answer(|s.log|, call))))])
  }

  lemma WrittenFields(id: Json, verb: string, params: map<string, Json>)
    requires IsId(id)
    ensures var r := Written(id, verb, params);
      && WellFormed(r) && !Notification(r) && ResponseId(r) == id && Method(r) == Some(verb)
      && Get(r, "params") == Some(Object(params))
  {
  }

  /** What each verb is answered before and after the initialization. */
  lemma VerbAnswers(host: Host, s: Session, id: Json, verb: string, params: map<string, Json>)
    requires IsId(id) && verb != "tools/call"
    ensures var r := Written(id, verb, params);
      if verb == "initialize" then
        if s.initialized then Replies(host, s, r, id, Failure(-32600))
        else Step(host, s, r) == Session(true, s.log + [Sent(Reply(id, Initialized))])
      else if !s.initialized then Replies(host, s, r, id, Failure(-32000))
      else if verb == "ping" then Replies(host, s, r, id, Pong)
      else if verb == "tools/list" then Replies(host, s, r, id, Tools)
      else Replies(host, s, r, id, Failure(-32601))
  {
    WrittenFields(id, verb, params);
    hide WellFormed, Notification, ResponseId, Method, Written, Demand;
  }

  /** Nothing is called before the initialization. */
  lemma CallsWait(host: Host, s: Session, id: Json, tool: string, arguments: Option<Json>)
    requires IsId(id) && !s.initialized
    ensures Replies(host, s, ToolRequest(id, tool, arguments), id, Failure(-32000))
  {
    WrittenFields(id, "tools/call", ToolRequest(id, tool, arguments).fields["params"].fields);
    hide WellFormed, Notification, ResponseId, Method, Written, Demand;
  }

  /** The protocol version is there. */
  predicate Speaks(fields: map<string, Json>) { "jsonrpc" in fields && fields["jsonrpc"] == String("2.0") }

  /** A request without an identifier changes nothing, and one that is none is refused under the identifier it may have. */
  lemma OddRequests(host: Host, s: Session, fields: map<string, Json>)
    ensures var r := Object(fields);
      && (Speaks(fields) && "id" !in fields && "method" in fields && fields["method"].String? ==> Step(host, s, r) == s)
      && (!Speaks(fields) ==> Replies(host, s, r, Null, Failure(-32600)))
      && ("id" in fields && !IsId(fields["id"]) ==> Replies(host, s, r, Null, Failure(-32600)))
      && (Speaks(fields) && "id" in fields && IsId(fields["id"]) && !("method" in fields && fields["method"].String?) ==>
            Replies(host, s, r, fields["id"], Failure(-32600)))
  {
    hide Demand;
  }

  /** The call that a tool makes for an identity. */
  ghost predicate Does(tool: string, key: string, identity: string, call: Call) {
    || (tool == "local_store_get_status" && key == "app_id" && call == Status(identity))
    || (tool == "local_store_start_app" && key == "app_id" && call == Lifecycle(identity, true))
    || (tool == "local_store_stop_app" && key == "app_id" && call == Lifecycle(identity, false))
    || (tool == "local_store_request_install" && key == "app_id" && call == Mutation(tool, identity))
    || (tool == "local_store_request_uninstall" && key == "app_id" && call == Mutation(tool, identity))
    || (tool == "local_store_execute_request" && key == "request_id" && call == Mutation(tool, identity))
    || (tool == "local_store_request_status" && key == "request_id" && call == Mutation(tool, identity))
    || (tool == "local_store_cancel_request" && key == "request_id" && call == Mutation(tool, identity))
  }

  lemma ToolFields(id: Json, tool: string, arguments: Option<Json>)
    requires IsId(id)
    ensures var r := ToolRequest(id, tool, arguments);
      && WellFormed(r) && !Notification(r) && ResponseId(r) == id && Method(r) == Some("tools/call")
      && AsString(GetIn(Get(r, "params"), "name")) == Some(tool) && GetIn(Get(r, "params"), "arguments") == arguments
  {
  }

  lemma CallStep(host: Host, s: Session, id: Json, tool: string, arguments: Option<Json>)
    requires IsId(id) && s.initialized
    ensures var r := ToolRequest(id, tool, arguments);
      match Demand(host, r)
      case None => Replies(host, s, r, id, Failure(-32602))
      case Some(call) => Makes(host, s, r, id, call)
  {
    ToolFields(id, tool, arguments);
    hide WellFormed, Notification, ResponseId, Method, ToolRequest, Demand;
  }

  lemma DoesCall(tool: string, key: string, identity: string, call: Call)
    requires Does(tool, key, identity, call)
    ensures tool in SCHEMAS && SCHEMAS[tool] == OneString(key) && CallFor(tool, identity) == call
  {
  }

  lemma OneStringDemand(host: Host, request: Json, tool: string, key: string, arguments: Option<Json>)
    requires AsString(GetIn(Get(request, "params"), "name")) == Some(tool)
    requires GetIn(Get(request, "params"), "arguments") == arguments
    requires !host.content(tool) && tool in SCHEMAS && SCHEMAS[tool] == OneString(key)
    ensures Demand(host, request)
      == if Satisfies(OneString(key), arguments) then Some(CallFor(tool, arguments.value.fields[key].s)) else None
  {
    hide IdentityValid, CallFor;
  }

  /** With the one argument it takes each tool makes its own call. */
  lemma ToolMakesCall(host: Host, s: Session, id: Json, tool: string, key: string, identity: string, call: Call)
    requires IsId(id) && s.initialized && !host.content(tool) && Does(tool, key, identity, call)
    requires identity != "" && Bytes(identity) <= 128
    ensures Makes(host, s, ToolRequest(id, tool, Some(Object(map[key := String(identity)]))), id, call)
  {
    var arguments := Some(Object(map[key := String(identity)]));
    ToolFields(id, tool, arguments);
    CallStep(host, s, id, tool, arguments);
    DoesCall(tool, key, identity, call);
    OneStringDemand(host, ToolRequest(id, tool, arguments), tool, key, arguments);
    hide Bytes, Makes, Replies, Step, ToolRequest, Demand, CallFor, Does;
  }

  /** With anything else it makes none. */
  lemma ToolRefuses(host: Host, s: Session, id: Json, tool: string, key: string, call: Call, arguments: Option<Json>)
    requires IsId(id) && s.initialized && !host.content(tool) && Does(tool, key, "", call)
    requires forall identity | identity != "" && Bytes(identity) <= 128 :: arguments != Some(Object(map[key := String(identity)]))
    ensures Replies(host, s, ToolRequest(id, tool, arguments), id, Failure(-32602))
  {
    ToolFields(id, tool, arguments);
    CallStep(host, s, id, tool, arguments);
    DoesCall(tool, key, "", call);
    OneStringDemand(host, ToolRequest(id, tool, arguments), tool, key, arguments);
    SatisfiedIsString(key, arguments);
    hide Bytes, Makes, Replies, Step, ToolRequest, Demand, CallFor, Does, Satisfies;
  }

  lemma SatisfiedIsString(key: string, arguments: Option<Json>)
    ensures Satisfies(OneString(key), arguments) ==>
      exists x | x != "" && Bytes(x) <= 128 :: arguments == Some(Object(map[key := String(x)]))
  {
    if Satisfies(OneString(key), arguments) {
      var x := arguments.value.fields[key].s;
      assert arguments.value.fields == map[key := String(x)];
    }
  }

  /** The listing takes no argument, or an empty object. */
  lemma ListCalls(host: Host, s: Session, id: Json, arguments: Option<Json>)
    requires IsId(id) && s.initialized && !host.content("local_store_list_granted_apps")
    ensures var r := ToolRequest(id, "local_store_list_granted_apps", arguments);
      if arguments.None? || arguments.value == Object(map[]) then Makes(host, s, r, id, ListApps)
      else Replies(host, s, r, id, Failure(-32602))
  {
    ToolFields(id, LIST, arguments);
    CallStep(host, s, id, LIST, arguments);
    hide Makes, Replies, Step, ToolRequest;
  }

  /** A content tool is called with its arguments as they are, when its own check lets them through. */
  lemma ContentCalls(host: Host, s: Session, id: Json, tool: string, arguments: Option<Json>)
    requires IsId(id) && s.initialized && host.content(tool)
    ensures var r, given := ToolRequest(id, tool, arguments), if arguments.Some? then arguments.value else Null;
      if host.contentValid(tool, given) then Makes(host, s, r, id, Content(tool, given))
      else Replies(host, s, r, id, Failure(-32602))
  {
    ToolFields(id, tool, arguments);
    CallStep(host, s, id, tool, arguments);
    hide Makes, Replies, Step, ToolRequest;
  }

  /** No other tool exists. */
  lemma UnknownTool(host: Host, s: Session, id: Json, tool: string, arguments: Option<Json>)
    requires IsId(id) && s.initialized && !host.content(tool) && tool != "local_store_list_granted_apps"
    requires forall key, call :: !Does(tool, key, "", call)
    ensures Replies(host, s, ToolRequest(id, tool, arguments), id, Failure(-32602))
  {
    ToolFields(id, tool, arguments);
    CallStep(host, s, id, tool, arguments);
    hide Makes, Replies, Step, ToolRequest;
    assert !Does(tool, "app_id", "", Status("")) && !Does(tool, "app_id", "", Lifecycle("", true))
      && !Does(tool, "app_id", "", Lifecycle("", false)) && !Does(tool, "app_id", "", Mutation(tool, ""))
      && !Does(tool, "request_id", "", Mutation(tool, ""));
  }

  /** Different tools, and different identities, make different calls. */
  lemma CallsTellApart(tool: string, key: string, identity: string, tool': string, key': string, identity': string, call: Call)
    requires Does(tool, key, identity, call) && Does(tool', key', identity', call)
    ensures tool == tool' && identity == identity' && call != ListApps
  {
  }
}
