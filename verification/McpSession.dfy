/** The newline-delimited JSON-RPC session that an agent speaks over standard input and output. */
module McpSession {
  import opened Results
  import opened Text

  const NEWLINE: byte := 0x0A

  const MAX_LINE: nat := 64 * 1024

  datatype Json =
    | Null
    | Bool(b: bool)
    | Number(digits: string)
    | String(s: string)
    | List(items: seq<Json>)
    | Object(fields: map<string, Json>)

  /** What the session may ask of the gateway, the requests and the content modules. */
  datatype Call =
    | Status(app: string)
    | ListApps
    | Lifecycle(app: string, start: bool)
    | Mutation(tool: string, identity: string)
    | Content(tool: string, arguments: Json)

  datatype Outcome = Failure(code: int) | Initialized | Pong | Tools | Answered(result: Result<Json, string>)

  datatype Reply = Reply(id: Json, outcome: Outcome)

  datatype Event = Called(call: Call) | Sent(reply: Reply)

  /** The flag of the session and everything it did so far. */
  datatype Session = Session(initialized: bool, log: seq<Event>)

  const STATUS := "local_store_get_status"
  const LIST := "local_store_list_granted_apps"
  const START := "local_store_start_app"
  const STOP := "local_store_stop_app"
  const REQUEST_INSTALL := "local_store_request_install"
  const REQUEST_UNINSTALL := "local_store_request_uninstall"
  const EXECUTE_REQUEST := "local_store_execute_request"
  const REQUEST_STATUS := "local_store_request_status"
  const CANCEL_REQUEST := "local_store_cancel_request"

  /** The JSON reader, the content tools with their argument check, and what the callbacks answer. */
  datatype Host = Host(parse: seq<byte> -> Option<Json>, content: string -> bool,
                       contentValid: (string, Json) -> bool, answer: (nat, Call) -> Result<Json, string>)

  function Get(value: Json, key: string): Option<Json> {
    if value.Object? && key in value.fields then Some(value.fields[key]) else None
  }

  function AsString(value: Option<Json>): Option<string> {
    if value.Some? && value.value.String? then Some(value.value.s) else None
  }

  function GetIn(value: Option<Json>, key: string): Option<Json> {
    if value.Some? then Get(value.value, key) else None
  }

  // ---------- what the protocol promises ----------

  /** A JSON-RPC 2.0 envelope; an identifier, if there is one, is a string or a number. */
  predicate Envelope(request: Json) {
    var id := Get(request, "id");
    AsString(Get(request, "jsonrpc")) == Some("2.0") && (id.Some? ==> id.value.String? || id.value.Number?)
  }

  function Method(request: Json): Option<string> { AsString(Get(request, "method")) }

  predicate WellFormed(request: Json) { Envelope(request) && Method(request).Some? }

  predicate Notification(request: Json) { WellFormed(request) && Get(request, "id").None? }

  /** The identifier of the response: that of the request where it can be told. */
  function ResponseId(request: Json): Json {
    if Envelope(request) && Get(request, "id").Some? then Get(request, "id").value else Null
  }

  /** The input schemas as the tool list advertises them. */
  datatype Schema = NoProperties | OneString(key: string)

  const SCHEMAS: map<string, Schema> := map[
    STATUS := OneString("app_id"),
    LIST := NoProperties,
    START := OneString("app_id"),
    STOP := OneString("app_id"),
    REQUEST_INSTALL := OneString("app_id"),
    REQUEST_UNINSTALL := OneString("app_id"),
    EXECUTE_REQUEST := OneString("request_id"),
    REQUEST_STATUS := OneString("request_id"),
    CANCEL_REQUEST := OneString("request_id")
  ]

  predicate IdentityValid(s: string) { s != "" && Bytes(s) <= 128 }

  /** Arguments that satisfy a schema, with no further property and a bounded identity. */
  predicate Satisfies(schema: Schema, arguments: Option<Json>) {
    match schema
    case NoProperties => arguments.Some? ==> arguments.value == Object(map[])
    case OneString(key) =>
      && arguments.Some? && arguments.value.Object? && arguments.value.fields.Keys == {key}
      && arguments.value.fields[key].String? && IdentityValid(arguments.value.fields[key].s)
  }

  function CallFor(tool: string, identity: string): Call {
    if tool == STATUS then Status(identity)
    else if tool == LIST then ListApps
    else if tool == START || tool == STOP then Lifecycle(identity, tool == START)
    else Mutation(tool, identity)
  }

  /** The call that a `tools/call` request asks for, when its tool exists and its arguments are valid. */
  function Demand(host: Host, request: Json): Option<Call> {
    var tool := AsString(GetIn(Get(request, "params"), "name"));
    var arguments := GetIn(Get(request, "params"), "arguments");
    if tool.None? then None
    else if host.content(tool.value) then
      var given := if arguments.Some? then arguments.value else Null;
      if host.contentValid(tool.value, given) then Some(Content(tool.value, given)) else None
    else if tool.value in SCHEMAS && Satisfies(SCHEMAS[tool.value], arguments) then
      match SCHEMAS[tool.value]
      case NoProperties => Some(CallFor(tool.value, ""))
      case OneString(key) => Some(CallFor(tool.value, arguments.value.fields[key].s))
    else None
  }

  function Send(s: Session, reply: Reply): Session { s.(log := s.log + [Sent(reply)]) }

  /** One request. */
  function Step(host: Host, s: Session, request: Json): Session {
    var id := ResponseId(request);
    if !WellFormed(request) then Send(s, Reply(id, Failure(-32600)))
    else if Notification(request) then s
    else
      var verb := Method(request).value;
      if verb == "initialize" then
        if s.initialized then Send(s, Reply(id, Failure(-32600))) else Send(Session(true, s.log), Reply(id, Initialized))
      else if !s.initialized then Send(s, Reply(id, Failure(-32000)))
      else if verb == "ping" then Send(s, Reply(id, Pong))
      else if verb == "tools/list" then Send(s, Reply(id, Tools))
      else if verb == "tools/call" then
        match Demand(host, request)
        case None => Send(s, Reply(id, Failure(-32602)))
        case Some(call) =>
          Send(s.(log := s.log + [Called(call)]), Reply(id, Answered(host.answer(|s.log|, call))))
      else Send(s, Reply(id, Failure(-32601)))
  }

  /** One line: a request, or a parse error that bears no identifier. */
  function StepLine(host: Host, s: Session, line: seq<byte>): Session {
    match host.parse(line)
    case None => Send(s, Reply(Null, Failure(-32700)))
    case Some(request) => Step(host, s, request)
  }

  function StepLines(host: Host, s: Session, lines: seq<seq<byte>>): Session {
    if lines == [] then s else StepLine(host, StepLines(host, s, lines[..|lines| - 1]), lines[|lines| - 1])
  }

  // ---------- the byte stream ----------

  /** What one bounded read takes: up to a newline, and never more than a byte above the limit. */
  function ReadLine(input: seq<byte>, room: nat): (line: seq<byte>)
    ensures line <= input && |line| <= room
    ensures forall i | 0 <= i < |line| - 1 :: line[i] != NEWLINE
    ensures input != [] && room > 0 ==> line != []
  {
    if input == [] || room == 0 then []
    else if input[0] == NEWLINE then [NEWLINE]
    else [input[0]] + ReadLine(input[1..], room - 1)
  }

  predicate LineValid(line: seq<byte>) {
    && 0 < |line| <= MAX_LINE && line[|line| - 1] == NEWLINE
    && forall i | 0 <= i < |line| - 1 :: line[i] != NEWLINE
  }

  predicate AllLinesValid(lines: seq<seq<byte>>) { forall i | 0 <= i < |lines| :: LineValid(lines[i]) }

  function Concat(lines: seq<seq<byte>>): seq<byte> {
    if lines == [] then [] else Concat(lines[..|lines| - 1]) + lines[|lines| - 1]
  }

  /** The input starts with no valid line: it ended, or its next line is too long or unfinished. */
  predicate NoLine(input: seq<byte>) { forall n | 0 <= n <= |input| :: !LineValid(input[..n]) }

  lemma {:induction false} ReadLineIsFirst(input: seq<byte>, room: nat, n: nat)
    requires 0 < n <= |input| && n <= room && input[n - 1] == NEWLINE
    requires forall i | 0 <= i < n - 1 :: input[i] != NEWLINE
    ensures ReadLine(input, room) == input[..n]
  {
    if n > 1 {
      ReadLineIsFirst(input[1..], room - 1, n - 1);
      assert input[..n] == [input[0]] + input[1..][..n - 1];
    }
  }

  lemma {:induction false} ReadLineAll(input: seq<byte>, room: nat)
    requires ReadLine(input, room) != [] ==> ReadLine(input, room)[|ReadLine(input, room)| - 1] != NEWLINE
    ensures forall i | 0 <= i < |input| && i < room :: input[i] != NEWLINE
  {
    if input != [] && room > 0 && input[0] != NEWLINE {
      ReadLineAll(input[1..], room - 1);
      assert forall i | 0 < i < |input| :: input[i] == input[1..][i - 1];
    }
  }

  lemma ReadsValidLine(input: seq<byte>)
    ensures var line := ReadLine(input, MAX_LINE + 1);
      if LineValid(line) then line <= input else NoLine(input)
  {
    var line := ReadLine(input, MAX_LINE + 1);
    if !LineValid(line) {
      forall n | 0 <= n <= |input| ensures !LineValid(input[..n]) {
        if LineValid(input[..n]) {
          assert forall i | 0 <= i < n :: input[i] == input[..n][i];
          ReadLineIsFirst(input, MAX_LINE + 1, n);
        }
      }
    }
  }

  /** The session object: the callbacks and the output are in the log. */
  class Server {
    const host: Host
    var initialized: bool
    var log: seq<Event>

    constructor (host: Host)
      ensures this.host == host && State() == Session(false, [])
    {
      this.host, initialized, log := host, false, [];
    }

    ghost function State(): Session
      reads this
    {
      Session(initialized, log)
    }

    method Write(reply: Reply)
      modifies this`log
      ensures State() == Send(old(State()), reply)
    {
      log := log + [Sent(reply)];
    }

    method Invoke(id: Json, call: Call) returns (reply: Reply)
      modifies this`log
      ensures log == old(log) + [Called(call)] && reply == Reply(id, Answered(host.answer(|old(log)|, call)))
    {
      var result := host.answer(|log|, call);
      log := log + [Called(call)];
      return Reply(id, Answered(result));
    }

    /** The response to one request, if any. */
    method Handle(request: Json) returns (response: Option<Reply>)
      modifies this
      ensures match response
        case None => State() == old(State()) == Step(host, old(State()), request)
        case Some(reply) => Send(State(), reply) == Step(host, old(State()), request)
    {
      var id := Get(request, "id");
      if AsString(Get(request, "jsonrpc")) != Some("2.0") || !request.Object?
         || (id.Some? && !id.value.String? && !id.value.Number?) {
        return Some(Reply(Null, Failure(-32600)));
      }
      var verb := AsString(Get(request, "method"));
      if verb.None? {
        return Some(Reply(if id.Some? then id.value else Null, Failure(-32600)));
      }
      if id.None? {
        return None;
      }
      if verb.value == "initialize" {
        if initialized {
          return Some(Reply(id.value, Failure(-32600)));
        }
        initialized := true;
        return Some(Reply(id.value, Initialized));
      } else if verb.value == "ping" && initialized {
        return Some(Reply(id.value, Pong));
      } else if verb.value == "tools/list" && initialized {
        return Some(Reply(id.value, Tools));
      } else if verb.value == "tools/call" && initialized {
        var reply := CallTool(id.value, request);
        return Some(reply);
      } else if !initialized {
        return Some(Reply(id.value, Failure(-32000)));
      } else {
        return Some(Reply(id.value, Failure(-32601)));
      }
    }

    method CallTool(id: Json, request: Json) returns (reply: Reply)
      modifies this`log
      ensures match Demand(host, request)
        case None => log == old(log) && reply == Reply(id, Failure(-32602))
        case Some(call) =>
          log == old(log) + [Called(call)] && reply == Reply(id, Answered(host.answer(|old(log)|, call)))
    {
      var params := Get(request, "params");
      var name := AsString(GetIn(params, "name"));
      var arguments := GetIn(params, "arguments");
      if name.Some? && host.content(name.value) {
        var given := if arguments.Some? then arguments.value else Null;
        if !host.contentValid(name.value, given) {
          return Reply(id, Failure(-32602));
        }
        reply := Invoke(id, Content(name.value, given));
        return;
      }
      if name.Some? && name.value in {REQUEST_INSTALL, REQUEST_UNINSTALL, EXECUTE_REQUEST, REQUEST_STATUS, CANCEL_REQUEST} {
        var key := if name.value in {REQUEST_INSTALL, REQUEST_UNINSTALL} then "app_id" else "request_id";
        OneProperty(arguments, key);
        var identity := AsString(GetIn(arguments, key));
        if !(arguments.Some? && arguments.value.Object? && |arguments.value.fields| == 1)
           || identity.None? || identity.value == "" || Bytes(identity.value) > 128 {
          return Reply(id, Failure(-32602));
        }
        reply := Invoke(id, Mutation(name.value, identity.value));
        return;
      }
      if name == Some(LIST) {
        if arguments.Some? && !(arguments.value.Object? && |arguments.value.fields| == 0) {
          return Reply(id, Failure(-32602));
        }
        reply := Invoke(id, ListApps);
        return;
      }
      if name.None? || name.value !in {STATUS, START, STOP} {
        return Reply(id, Failure(-32602));
      }
      OneProperty(arguments, "app_id");
      var app := AsString(GetIn(arguments, "app_id"));
      if !(arguments.Some? && arguments.value.Object? && |arguments.value.fields| == 1)
         || app.None? || app.value == "" || Bytes(app.value) > 128 {
        return Reply(id, Failure(-32602));
      }
      if name.value == STATUS {
        reply := Invoke(id, Status(app.value));
      } else {
        reply := Invoke(id, Lifecycle(app.value, name.value == START));
      }
    }

    /**
     * Serves the valid lines at the front of the input one by one, and stops without error exactly when
     * nothing is left.
     */
    method Serve(input: seq<byte>) returns (ok: bool, ghost lines: seq<seq<byte>>, ghost rest: seq<byte>)
      modifies this
      ensures input == Concat(lines) + rest && AllLinesValid(lines) && NoLine(rest)
      ensures State() == StepLines(host, old(State()), lines)
      ensures ok <==> rest == []
    {
      hide Step, ReadLine, NoLine, Send;
      var left := input;
      lines := [];
      while true
        invariant input == Concat(lines) + left && AllLinesValid(lines)
        invariant State() == StepLines(host, old(State()), lines)
        decreases |left|
      {
        var line := ReadLine(left, MAX_LINE + 1);
        ReadsValidLine(left);
        if |line| == 0 {
          return true, lines, left;
        }
        if |line| > MAX_LINE || line[|line| - 1] != NEWLINE {
          return false, lines, left;
        }
        ghost var before := lines;
        lines := lines + [line];
        assert lines[..|lines| - 1] == before;
        ConcatStep(before, line, left);
        left := left[|line|..];
        var request := host.parse(line);
        if request.None? {
          Write(Reply(Null, Failure(-32700)));
        } else {
          var response := Handle(request.value);
          if response.Some? {
            Write(response.value);
          }
        }
      }
    }
  }

  lemma ConcatStep(lines: seq<seq<byte>>, line: seq<byte>, left: seq<byte>)
    requires line <= left
    ensures Concat(lines) + left == Concat(lines + [line]) + left[|line|..]
  {
    assert (lines + [line])[..|lines|] == lines;
    assert left == line + left[|line|..];
  }

  lemma OneProperty(arguments: Option<Json>, key: string)
    ensures arguments.Some? && arguments.value.Object? && |arguments.value.fields| == 1 && GetIn(arguments, key).Some?
      <==> arguments.Some? && arguments.value.Object? && arguments.value.fields.Keys == {key}
  {
    if arguments.Some? && arguments.value.Object? {
      var keys := arguments.value.fields.Keys;
      assert |arguments.value.fields| == |keys|;
      if |keys| == 1 && key in keys {
        assert |keys - {key}| == 0;
        assert keys == {key};
      }
    }
  }

  // ---------- one request ----------

  function Calls(log: seq<Event>): seq<Call> {
    if log == [] then []
    else
      var last := log[|log| - 1];
      if last.Called? then Calls(log[..|log| - 1]) + [last.call] else Calls(log[..|log| - 1])
  }

  function Replies(log: seq<Event>): seq<Reply> {
    if log == [] then []
    else
      var last := log[|log| - 1];
      if last.Sent? then Replies(log[..|log| - 1]) + [last.reply] else Replies(log[..|log| - 1])
  }

  lemma Appended(log: seq<Event>, e: Event)
    ensures Calls(log + [e]) == if e.Called? then Calls(log) + [e.call] else Calls(log)
    ensures Replies(log + [e]) == if e.Sent? then Replies(log) + [e.reply] else Replies(log)
  {
    assert (log + [e])[..|log|] == log;
  }

  /** A call is made only by a well-formed request with an identifier in an initialized session. */
  predicate MayCall(s: Session, request: Json) {
    s.initialized && WellFormed(request) && !Notification(request) && Method(request) == Some("tools/call")
  }

  /** A request that is no notification appends its call, if it may make one, and its response. */
  lemma StepShape(host: Host, s: Session, request: Json) returns (o: Outcome)
    ensures var s', id := Step(host, s, request), ResponseId(request);
      if Notification(request) then s' == s
      else if MayCall(s, request) && Demand(host, request).Some? then
        s' == Send(s.(log := s.log + [Called(Demand(host, request).value)]), Reply(id, o)) && o.Answered?
      else
        s' == Send(Session(s.initialized || o == Initialized, s.log), Reply(id, o)) && (s.initialized ==> o != Initialized)
  {
    hide Demand, Envelope, ResponseId;
    var s' := Step(host, s, request);
    o := if s'.log == s.log then Pong else s'.log[|s'.log| - 1].reply.outcome;
  }

  /**
   * Every request with an identifier gets exactly one response, and it bears the identifier; notifications
   * get none and change nothing; at most one callback runs, with arguments that its schema allows.
   */
  lemma OneResponse(host: Host, s: Session, request: Json) returns (o: Outcome)
    ensures var s' := Step(host, s, request);
      && (if Notification(request) then s' == s
          else Replies(s'.log) == Replies(s.log) + [Reply(ResponseId(request), o)])
      && Calls(s'.log) == (if MayCall(s, request) && Demand(host, request).Some?
                           then Calls(s.log) + [Demand(host, request).value] else Calls(s.log))
  {
    hide Demand, WellFormed, Notification, ResponseId, Step;
    o := StepShape(host, s, request);
    var last := Sent(Reply(ResponseId(request), o));
    if MayCall(s, request) && Demand(host, request).Some? {
      var call := Demand(host, request).value;
      assert !Notification(request);
      Appended(s.log, Called(call));
      Appended(s.log + [Called(call)], last);
    } else {
      Appended(s.log, last);
    }
  }

  // ---------- whole sessions ----------

  predicate Starts(e: Event) { e.Sent? && e.reply.outcome == Initialized }

  /** Calls come after the one successful initialization. */
  ghost predicate Orderly(s: Session) {
    && (forall i, j | 0 <= i < j < |s.log| :: !(Starts(s.log[i]) && Starts(s.log[j])))
    && (s.initialized <==> exists i :: 0 <= i < |s.log| && Starts(s.log[i]))
    && (forall j | 0 <= j < |s.log| && s.log[j].Called? :: exists i :: 0 <= i < j && Starts(s.log[i]))
  }

  lemma SendOrderly(s: Session, reply: Reply)
    requires Orderly(s) && reply.outcome != Initialized
    ensures Orderly(Send(s, reply))
  {
    KeptOrderly(s, [Sent(reply)]);
  }

  lemma KeptOrderly(s: Session, more: seq<Event>)
    requires Orderly(s) && forall k | 0 <= k < |more| :: !Starts(more[k]) && (more[k].Called? ==> s.initialized)
    ensures Orderly(s.(log := s.log + more))
  {
    hide Starts;
    var log := s.log + more;
    if s.initialized {
      var i :| 0 <= i < |s.log| && Starts(s.log[i]);
      assert Starts(log[i]);
    }
    forall j | 0 <= j < |log| && log[j].Called? ensures exists i :: 0 <= i < j && Starts(log[i]) {
      if j < |s.log| {
        var i :| 0 <= i < j && Starts(s.log[i]);
        assert Starts(log[i]);
      } else {
        assert !Starts(more[j - |s.log|]);
        var i :| 0 <= i < |s.log| && Starts(s.log[i]);
        assert Starts(log[i]);
      }
    }
  }

  lemma StartOrderly(s: Session, id: Json)
    requires Orderly(s) && !s.initialized
    ensures Orderly(Send(Session(true, s.log), Reply(id, Initialized)))
  {
    var log := s.log + [Sent(Reply(id, Initialized))];
    assert Starts(log[|s.log|]);
    assert forall i | 0 <= i < |s.log| :: log[i] == s.log[i];
    assert forall j | 0 <= j < |s.log| :: !s.log[j].Called?;
  }

  lemma StepOrderly(host: Host, s: Session, request: Json)
    requires Orderly(s)
    ensures Orderly(Step(host, s, request))
  {
    hide Orderly, Demand, WellFormed, Notification, ResponseId, Step;
    var id := ResponseId(request);
    var o := StepShape(host, s, request);
    if Notification(request) {
    } else if MayCall(s, request) && Demand(host, request).Some? {
      var events := [Called(Demand(host, request).value), Sent(Reply(id, o))];
      KeptOrderly(s, events);
      assert Step(host, s, request).log == s.log + events;
    } else if o == Initialized {
      StartOrderly(s, id);
    } else {
      SendOrderly(s, Reply(id, o));
    }
  }

  lemma {:induction false} LinesOrderly(host: Host, lines: seq<seq<byte>>)
    ensures Orderly(StepLines(host, Session(false, []), lines))
  {
    hide Orderly, Step;
    if lines == [] {
      NothingOrderly();
    } else {
      var before := StepLines(host, Session(false, []), lines[..|lines| - 1]);
      LinesOrderly(host, lines[..|lines| - 1]);
      var request := host.parse(lines[|lines| - 1]);
      if request.None? {
        SendOrderly(before, Reply(Null, Failure(-32700)));
      } else {
        StepOrderly(host, before, request.value);
      }
    }
  }

  lemma NothingOrderly()
    ensures Orderly(Session(false, []))
  {
  }

  /** The response to one line, if any, bears the identifier of its request. */
  predicate Answers(host: Host, line: seq<byte>, replies: seq<Reply>) {
    match host.parse(line)
    case None => replies == [Reply(Null, Failure(-32700))]
    case Some(request) =>
      if Notification(request) then replies == [] else |replies| == 1 && replies[0].id == ResponseId(request)
  }

  /** Over a whole session the responses follow the lines: each line adds its own and nothing else. */
  lemma ResponsesFollowLines(host: Host, s: Session, lines: seq<seq<byte>>, k: nat)
    requires k < |lines|
    ensures var before, after := StepLines(host, s, lines[..k]), StepLines(host, s, lines[..k + 1]);
      exists added: seq<Reply> :: Replies(after.log) == Replies(before.log) + added && Answers(host, lines[k], added)
  {
    hide Step, ResponseId, Notification, Replies;
    var before := StepLines(host, s, lines[..k]);
    assert lines[..k + 1][..k] == lines[..k];
    var after := StepLine(host, before, lines[k]);
    match host.parse(lines[k])
    case None =>
      var reply := Reply(Null, Failure(-32700));
      Appended(before.log, Sent(reply));
      assert Replies(after.log) == Replies(before.log) + [reply];
      assert Answers(host, lines[k], [reply]);
    case Some(request) =>
      var o := OneResponse(host, before, request);
      var added := if Notification(request) then [] else [Reply(ResponseId(request), o)];
      assert Replies(after.log) == Replies(before.log) + added && Answers(host, lines[k], added);
  }
}
