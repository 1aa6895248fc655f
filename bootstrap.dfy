/**
 * The Lambda runtime bootstrap `LambdaBootstrap`: the runtime API endpoints, the error
 * report it posts, how it reads a multi-valued header, how it resolves the configured
 * `<class>::<method>` handler, and the order in which `main` polls and reports.
 */
module Bootstrap {
  import opened Wrappers
  import opened Text
  import opened MessageFormat

  // ---------------------------------------------------------------- endpoints

  const VersionDate: string := "2018-06-01"
  /** The head every endpoint template starts with; each template below is this head and its own tail. */
  const UrlHead: string := "http://{0}/{1}"
  const RuntimeUrlTemplate: string := UrlHead + "/runtime/invocation/next"
  const InvocationUrlTemplate: string := UrlHead + ("/runtime/invocation/{2}" + "/response")
  const InitErrorUrlTemplate: string := UrlHead + "/runtime/init/error"
  const ErrorUrlTemplate: string := UrlHead + ("/runtime/invocation/{2}" + "/error")

  /** The URL polled for the next invocation. */
  function NextUrl(api: string): string {
    "http://" + api + "/" + VersionDate + "/runtime/invocation/next"
  }

  /** The URL a handler's result is posted to. */
  function ResponseUrl(api: string, requestId: string): string {
    "http://" + api + "/" + VersionDate + "/runtime/invocation/" + requestId + "/response"
  }

  /** The URL an initialisation failure is reported to. */
  function InitErrorUrl(api: string): string {
    "http://" + api + "/" + VersionDate + "/runtime/init/error"
  }

  /** The URL a failed invocation is reported to. */
  function ErrorUrl(api: string, requestId: string): string {
    "http://" + api + "/" + VersionDate + "/runtime/invocation/" + requestId + "/error"
  }

  /** The common head `http://{0}/{1}` of every template. */
  lemma ApiAndVersion(args: seq<string>, rest: string)
    requires |args| >= 2
    ensures Format("http://{0}/{1}" + rest, args, false)
         == Prepend("http://" + args[0] + "/" + args[1], Format(rest, args, false))
  {
    var inner := "/" + "{" + ['1'] + "}" + rest;
    calc {
      Format("http://{0}/{1}" + rest, args, false);
      { assert "http://{0}/{1}" + rest == "http://" + "{" + ['0'] + "}" + inner; }
      Format("http://" + "{" + ['0'] + "}" + inner, args, false);
      { FormatSlot("http://", '0', inner, args); }
      Prepend("http://" + args[0], Format(inner, args, false));
      { FormatSlot("/", '1', rest, args); }
      Prepend("http://" + args[0], Prepend("/" + args[1], Format(rest, args, false)));
      { PrependPrepend("http://" + args[0], "/" + args[1], Format(rest, args, false));
        assert "http://" + args[0] + ("/" + args[1]) == "http://" + args[0] + "/" + args[1]; }
      Prepend("http://" + args[0] + "/" + args[1], Format(rest, args, false));
    }
  }

  /** Text without quotes or braces formats to itself. */
  lemma PlainTail(tail: string, args: seq<string>)
    requires forall i :: 0 <= i < |tail| ==> tail[i] != '\'' && tail[i] != '{'
    ensures Format(tail, args, false) == Ok(tail)
  {
    FormatPlain(tail, [], args, false);
    assert tail + [] == tail;
  }

  /** The tail `/runtime/invocation/{2}<end>` of the per-request templates. */
  lemma RequestSlot(args: seq<string>, end: string)
    requires |args| == 3
    requires forall i :: 0 <= i < |end| ==> end[i] != '\'' && end[i] != '{'
    ensures Format("/runtime/invocation/{2}" + end, args, false) == Ok("/runtime/invocation/" + args[2] + end)
  {
    calc {
      Format("/runtime/invocation/{2}" + end, args, false);
      { assert "/runtime/invocation/{2}" + end == "/runtime/invocation/" + "{" + ['2'] + "}" + end; }
      Format("/runtime/invocation/" + "{" + ['2'] + "}" + end, args, false);
      { FormatSlot("/runtime/invocation/", '2', end, args); }
      Prepend("/runtime/invocation/" + args[2], Format(end, args, false));
      { PlainTail(end, args); }
      Ok("/runtime/invocation/" + args[2] + end);
    }
  }

  /** A template with two slots and a plain tail. */
  lemma HeadWithPlainTail(args: seq<string>, tail: string)
    requires |args| >= 2
    requires forall i :: 0 <= i < |tail| ==> tail[i] != '\'' && tail[i] != '{'
    ensures Format(UrlHead + tail, args, false) == Ok("http://" + args[0] + "/" + args[1] + tail)
  {
    ApiAndVersion(args, tail);
    PlainTail(tail, args);
  }

  /** A template with two slots, then a request slot, then a plain end. */
  lemma HeadWithRequestSlot(args: seq<string>, end: string)
    requires |args| == 3
    requires forall i :: 0 <= i < |end| ==> end[i] != '\'' && end[i] != '{'
    ensures Format(UrlHead + ("/runtime/invocation/{2}" + end), args, false)
         == Ok("http://" + args[0] + "/" + args[1] + "/runtime/invocation/" + args[2] + end)
  {
    ApiAndVersion(args, "/runtime/invocation/{2}" + end);
    RequestSlot(args, end);
    var head := "http://" + args[0] + "/" + args[1];
    ConcatAssoc(head, "/runtime/invocation/" + args[2], end);
    ConcatAssoc(head, "/runtime/invocation/", args[2]);
  }

  /** `MessageFormat.format(LAMBDA_RUNTIME_URL_TEMPLATE, api, version)` is the polling URL. */
  lemma NextUrlFormat(api: string)
    ensures Format(RuntimeUrlTemplate, [api, VersionDate], false) == Ok(NextUrl(api))
  {
    HeadWithPlainTail([api, VersionDate], "/runtime/invocation/next");
  }

  /** `MessageFormat.format(LAMBDA_INVOCATION_URL_TEMPLATE, api, version, id)` is the response URL. */
  lemma ResponseUrlFormat(api: string, requestId: string)
    ensures Format(InvocationUrlTemplate, [api, VersionDate, requestId], false) == Ok(ResponseUrl(api, requestId))
  {
    HeadWithRequestSlot([api, VersionDate, requestId], "/response");
  }

  /** `MessageFormat.format(LAMBDA_INIT_ERROR_URL_TEMPLATE, api, version)` is the init error URL. */
  lemma InitErrorUrlFormat(api: string)
    ensures Format(InitErrorUrlTemplate, [api, VersionDate], false) == Ok(InitErrorUrl(api))
  {
    HeadWithPlainTail([api, VersionDate], "/runtime/init/error");
  }

  /** `MessageFormat.format(LAMBDA_ERROR_URL_TEMPLATE, api, version, id)` is the invocation error URL. */
  lemma ErrorUrlFormat(api: string, requestId: string)
    ensures Format(ErrorUrlTemplate, [api, VersionDate, requestId], false) == Ok(ErrorUrl(api, requestId))
  {
    HeadWithRequestSlot([api, VersionDate, requestId], "/error");
  }

  // ---------------------------------------------------------------- error report

  /**
   * `ERROR_RESPONSE_TEMPLATE` in its four pieces: the quoted braces become literal braces,
   * the two slots take the message and the type.
   */
  const ErrorResponseTemplate: string :=
    "'{'" + ("\"errorMessage\": \"{0}\"," + ("\"errorType\": \"{1}\"" + "'}'"))

  /** What `main` reports when the handler cannot be found, and when one invocation fails. */
  const InitErrorMessage: string := "Could not find handler method"
  const InitErrorType: string := "InitError"
  const InvocationErrorMessage: string := "Invocation Error"
  const InvocationErrorType: string := "RuntimeError"

  /** `postError`'s body: a JSON object with the message and the type inserted without escaping. */
  function ErrorBody(msg: string, errType: string): string {
    "{" + ("\"errorMessage\": \"" + msg + "\",") + ("\"errorType\": \"" + errType + "\"") + "}"
  }

  /** The quoted opening brace renders as a brace. */
  lemma OpenBracePiece(t: string, args: seq<string>)
    requires t == [] || t[0] != '\''
    ensures Format("'{'" + t, args, false) == Prepend("{", Format(t, args, false))
  {
    assert "'{'" + t == "'" + ['{'] + "'" + t;
    FormatQuotedChar('{', t, args);
  }

  /** The message piece renders with the message in its slot. */
  lemma MessagePiece(t: string, args: seq<string>)
    requires |args| >= 1
    ensures Format("\"errorMessage\": \"{0}\"," + t, args, false)
         == Prepend("\"errorMessage\": \"" + args[0] + "\",", Format(t, args, false))
  {
    var pre := "\"errorMessage\": \"";
    assert "\"errorMessage\": \"{0}\"," + t == pre + "{" + ['0'] + "}" + ("\"," + t);
    FormatSlot(pre, '0', "\"," + t, args);
    FormatPlain("\",", t, args, false);
    PrependPrepend(pre + args[0], "\",", Format(t, args, false));
  }

  /** The type piece renders with the type in its slot. */
  lemma TypePiece(t: string, args: seq<string>)
    requires |args| >= 2
    ensures Format("\"errorType\": \"{1}\"" + t, args, false)
         == Prepend("\"errorType\": \"" + args[1] + "\"", Format(t, args, false))
  {
    var pre := "\"errorType\": \"";
    assert "\"errorType\": \"{1}\"" + t == pre + "{" + ['1'] + "}" + ("\"" + t);
    FormatSlot(pre, '1', "\"" + t, args);
    FormatPlain("\"", t, args, false);
    PrependPrepend(pre + args[1], "\"", Format(t, args, false));
  }

  /** The quoted closing brace renders as a brace. */
  lemma CloseBracePiece(args: seq<string>)
    ensures Format("'}'", args, false) == Ok("}")
  {
    assert "'}'" == "'" + ['}'] + "'" + [];
    FormatQuotedChar('}', [], args);
    assert ['}'] + [] == "}";
  }

  /** `MessageFormat.format(ERROR_RESPONSE_TEMPLATE, msg, type)` is the JSON error body. */
  lemma ErrorBodyFormat(msg: string, errType: string)
    ensures Format(ErrorResponseTemplate, [msg, errType], false) == Ok(ErrorBody(msg, errType))
  {
    var args := [msg, errType];
    var typePart := "\"errorType\": \"{1}\"" + "'}'";
    var m := "\"errorMessage\": \"" + msg + "\",";
    var ty := "\"errorType\": \"" + errType + "\"";
    calc {
      Format(ErrorResponseTemplate, args, false);
      { OpenBracePiece("\"errorMessage\": \"{0}\"," + typePart, args); }
      Prepend("{", Format("\"errorMessage\": \"{0}\"," + typePart, args, false));
      { MessagePiece(typePart, args); }
      Prepend("{", Prepend(m, Format(typePart, args, false)));
      { TypePiece("'}'", args); CloseBracePiece(args); }
      Prepend("{", Prepend(m, Prepend(ty, Ok("}"))));
      Ok("{" + (m + (ty + "}")));
      { ConcatAssoc("{", m, ty + "}"); ConcatAssoc("{" + m, ty, "}"); }
      Ok(ErrorBody(msg, errType));
    }
  }

  // ---------------------------------------------------------------- headers

  /** `getHeaderValue`: the header's values joined with commas; a missing header throws. */
  function HeaderValue(header: string, headers: map<string, seq<string>>): (r: Option<string>)
    ensures r.Some? <==> header in headers
  {
    if header in headers then Some(Join(",", headers[header])) else None
  }

  /** A header with one value reads as that value. */
  lemma SingleHeaderValue(header: string, headers: map<string, seq<string>>, v: string)
    requires header in headers && headers[header] == [v]
    ensures HeaderValue(header, headers) == Some(v)
  {
  }

  /** Splitting the joined value at the commas gives the values back when none holds a comma. */
  lemma HeaderValueSplits(header: string, headers: map<string, seq<string>>)
    requires header in headers && |headers[header]| > 0
    requires forall i :: 0 <= i < |headers[header]| ==> ',' !in headers[header][i]
    ensures SplitAll(HeaderValue(header, headers).value, ",") == headers[header]
  {
    SplitJoin(',', headers[header]);
  }

  // ---------------------------------------------------------------- handler

  /** `handlerName.split("::")`. */
  function HandlerParts(handlerName: string): seq<string> {
    JavaSplit(handlerName, "::")
  }

  /** A class name without colons and a method name without colons come back apart. */
  lemma {:induction false} HandlerPartsSplit(cls: string, name: string)
    requires forall i :: 0 <= i < |cls| ==> cls[i] != ':'
    requires forall i :: 0 <= i < |name| ==> name[i] != ':'
    requires name != []
    ensures HandlerParts(cls + "::" + name) == [cls, name]
  {
    var s := cls + "::" + name;
    forall k: nat | k < |cls| ensures !OccursAt(s, "::", k) {
      assert s[k] == cls[k];
      if k + 2 <= |s| {
        assert s[k..k + 2][0] == s[k];
      }
    }
    assert s[|cls|..|cls| + 2] == "::";
    assert OccursAt(s, "::", |cls|);
    var r := IndexFrom(s, "::", 0);
    assert r.Some?;
    assert r.value == |cls|;
    forall k: nat ensures !OccursAt(name, "::", k) {
      if k + 2 <= |name| {
        assert name[k..k + 2][0] == name[k];
      }
    }
    assert s[..|cls|] == cls;
    assert s[|cls| + 2..] == name;
    assert SplitAll(name, "::") == [name];
    assert SplitAll(s, "::") == [cls, name];
  }

  /** A handler string without `::` stays in one piece, so it names no method. */
  lemma HandlerWithoutSeparator(handlerName: string)
    requires forall k: nat :: !OccursAt(handlerName, "::", k)
    ensures |HandlerParts(handlerName)| == 1
  {
    SplitWithoutSeparator(handlerName, "::");
  }

  /** `getHandlerMethod`: the position of the first method called `name`, or nothing. */
  method GetHandlerMethod(methods: seq<string>, name: string) returns (r: Option<nat>)
    ensures r.None? <==> name !in methods
    ensures r.Some? ==> r.value < |methods| && methods[r.value] == name
    ensures r.Some? ==> forall j :: 0 <= j < r.value ==> methods[j] != name
  {
    var i := 0;
    while i < |methods|
      invariant i <= |methods|
      invariant name !in methods[..i]
    {
      if methods[i] == name {
        return Some(i);
      }
      i := i + 1;
    }
    assert methods[..i] == methods;
    return None;
  }

  /**
   * The handler resolves when the string has a class part and a method part, the class
   * is found (`classes` maps each loadable class to its public method names) and one of
   * its methods carries the name.
   */
  predicate HandlerResolves(handlerName: string, classes: map<string, seq<string>>) {
    var parts := HandlerParts(handlerName);
    |parts| >= 2 && parts[0] in classes && parts[1] in classes[parts[0]]
  }

  // ---------------------------------------------------------------- main loop

  /** How one turn of the event loop ended, for the invocation it fetched. */
  datatype Iteration = Served(requestId: string) | Threw(requestId: string)

  /** What the bootstrap sends to the runtime API. */
  datatype Action = Poll(url: string) | PostResponse(url: string) | PostError(url: string, errorMessage: string, errorType: string)

  /** The report after one turn: the response on success, the invocation error otherwise. */
  function Outcome(api: string, it: Iteration): Action {
    match it
    case Served(id) => PostResponse(ResponseUrl(api, id))
    case Threw(id) => PostError(ErrorUrl(api, id), InvocationErrorMessage, InvocationErrorType)
  }

  /** The requests sent over the turns `its` of the loop. */
  function LoopTrace(api: string, its: seq<Iteration>): seq<Action> {
    if its == [] then []
    else LoopTrace(api, its[..|its| - 1]) + [Poll(NextUrl(api)), Outcome(api, its[|its| - 1])]
  }

  /** Everything `main` sends: one init error when the handler does not resolve, the loop otherwise. */
  function BootTrace(api: string, handlerName: string, classes: map<string, seq<string>>, its: seq<Iteration>): seq<Action> {
    if HandlerResolves(handlerName, classes) then LoopTrace(api, its)
    else [PostError(InitErrorUrl(api), InitErrorMessage, InitErrorType)]
  }

  /** Each turn polls and then reports exactly once; a failed turn does not end the loop. */
  lemma {:induction false} LoopShape(api: string, its: seq<Iteration>)
    ensures |LoopTrace(api, its)| == 2 * |its|
    ensures forall i :: 0 <= i < |its| ==>
      LoopTrace(api, its)[2 * i] == Poll(NextUrl(api)) && LoopTrace(api, its)[2 * i + 1] == Outcome(api, its[i])
  {
    if its != [] {
      var init := its[..|its| - 1];
      LoopShape(api, init);
      var t := LoopTrace(api, its);
      var t0 := LoopTrace(api, init);
      assert t == t0 + [Poll(NextUrl(api)), Outcome(api, its[|its| - 1])];
      forall i | 0 <= i < |its|
        ensures t[2 * i] == Poll(NextUrl(api)) && t[2 * i + 1] == Outcome(api, its[i])
      {
        if i < |init| {
          assert its[i] == init[i];
          assert t[2 * i] == t0[2 * i] && t[2 * i + 1] == t0[2 * i + 1];
        }
      }
    }
  }

  /** `main` polls at all exactly when the handler resolves and the loop runs a turn. */
  lemma {:induction false} PollsOnlyAfterResolving(api: string, handlerName: string, classes: map<string, seq<string>>, its: seq<Iteration>)
    ensures (exists i :: 0 <= i < |BootTrace(api, handlerName, classes, its)| && BootTrace(api, handlerName, classes, its)[i].Poll?)
        <==> HandlerResolves(handlerName, classes) && its != []
  {
    var trace := BootTrace(api, handlerName, classes, its);
    if HandlerResolves(handlerName, classes) && its != [] {
      LoopShape(api, its);
      assert its[0] in its;
      assert trace[2 * 0] == Poll(NextUrl(api));
    } else if HandlerResolves(handlerName, classes) {
      assert trace == [];
    } else {
      assert trace == [PostError(InitErrorUrl(api), InitErrorMessage, InitErrorType)];
    }
  }

  /** An initialisation failure is reported once, to the init error URL, and nothing follows. */
  lemma InitFailureReportsOnce(api: string, handlerName: string, classes: map<string, seq<string>>, its: seq<Iteration>)
    requires !HandlerResolves(handlerName, classes)
    ensures BootTrace(api, handlerName, classes, its)
         == [PostError("http://" + api + "/" + VersionDate + "/runtime/init/error", InitErrorMessage, InitErrorType)]
  {
  }

  /** After a failed turn the bootstrap reports that request's error and polls again. */
  lemma ErrorThenPoll(api: string, its: seq<Iteration>, i: nat)
    requires i + 1 < |its| && its[i].Threw?
    ensures 2 * i + 2 < |LoopTrace(api, its)|
    ensures LoopTrace(api, its)[2 * i + 1]
         == PostError("http://" + api + "/" + VersionDate + "/runtime/invocation/" + its[i].requestId + "/error",
                      InvocationErrorMessage, InvocationErrorType)
    ensures LoopTrace(api, its)[2 * i + 2] == Poll("http://" + api + "/" + VersionDate + "/runtime/invocation/next")
  {
    LoopShape(api, its);
    assert its[i + 1] in its;
    assert LoopTrace(api, its)[2 * (i + 1)] == Poll(NextUrl(api));
  }

  /**
   * `main` run over the first turns `its` of its endless loop: the handler is resolved
   * once, then each turn polls and reports.
   */
  method Run(api: string, handlerName: string, classes: map<string, seq<string>>, its: seq<Iteration>)
    returns (trace: seq<Action>)
    ensures trace == BootTrace(api, handlerName, classes, its)
  {
    var parts := JavaSplit(handlerName, "::");
    var handlerMethod: Option<nat> := None;
    if |parts| >= 2 && parts[0] in classes {
      handlerMethod := GetHandlerMethod(classes[parts[0]], parts[1]);
    }
    if handlerMethod.None? {
      trace := [PostError(InitErrorUrl(api), InitErrorMessage, InitErrorType)];
      return;
    }
    var runtimeUrl := NextUrl(api);
    trace := [];
    var i := 0;
    while i < |its|
      invariant i <= |its|
      invariant trace == LoopTrace(api, its[..i])
    {
      assert its[..i + 1][..i] == its[..i];
      trace := trace + [Poll(runtimeUrl)];
      match its[i] {
        case Served(id) =>
          trace := trace + [PostResponse(ResponseUrl(api, id))];
        case Threw(id) =>
          trace := trace + [PostError(ErrorUrl(api, id), InvocationErrorMessage, InvocationErrorType)];
      }
      i := i + 1;
    }
    assert its[..i] == its;
  }
}
