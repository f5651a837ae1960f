/**
 * The request path of the second dispatcher: getHandler, convert, the
 * argument binding of doDispatch, and what doDispatch and doPost answer.
 */
module V2Dispatch {
  import opened Outcomes
  import opened JavaText
  import opened Runtime
  import opened V2Handlers

  // ---------------------------------------------------------------------------
  // getHandler
  // ---------------------------------------------------------------------------

  /** The position of the first handler, in table order, whose pattern is the path. */
  function FirstMatch(hs: seq<Handler>, path: string): (r: Option<nat>)
    ensures r.Some? ==> r.value < |hs| && hs[r.value].pattern == path
    ensures r.Some? ==> forall i :: 0 <= i < r.value ==> hs[i].pattern != path
    ensures r.None? <==> forall i :: 0 <= i < |hs| ==> hs[i].pattern != path
    decreases |hs|
  {
    if hs == [] then None
    else if hs[0].pattern == path then Some(0)
    else match FirstMatch(hs[1..], path)
      case None => None
      case Some(i) => Some(i + 1)
  }

  /** The path a request is routed by: the URI with the context path removed
      and runs of slashes collapsed. */
  function RequestPath(req: Request): string {
    NormalizePath(req.uri, req.contextPath)
  }

  /** getHandler: the first handler whose pattern matches the request path. */
  function GetHandler(hs: seq<Handler>, req: Request): (r: Option<Handler>)
    ensures r.Some? <==> exists i :: 0 <= i < |hs| && hs[i].pattern == RequestPath(req)
    ensures r.Some? ==> r.value == hs[FirstMatch(hs, RequestPath(req)).value]
  {
    match FirstMatch(hs, RequestPath(req))
    case None => None
    case Some(i) => Some(hs[i])
  }

  // ---------------------------------------------------------------------------
  // convert
  // ---------------------------------------------------------------------------

  /** convert(type, value): the text itself unless the type is Integer or
      Double, whose valueOf may throw NumberFormatException. */
  function Convert(typeName: string, text: string): (r: Result<Arg>)
    ensures r.Err? ==> r.error == NumberFormat && (typeName == INTEGER_TYPE || typeName == DOUBLE_TYPE)
    ensures r.Ok? && typeName != INTEGER_TYPE && typeName != DOUBLE_TYPE ==> r.value == Text(text)
  {
    if typeName == STRING_TYPE then Ok(Text(text))
    else if typeName == INTEGER_TYPE then
      (match ParseInt(text)
       case Ok(n) => Ok(Int32(n))
       case Err(e) => Err(e))
    else if typeName == DOUBLE_TYPE then
      (if DoubleSyntax(text) then Ok(Float64(text)) else Err(NumberFormat))
    else Ok(Text(text))
  }

  /** An Integer parameter receives the number its decimal text denotes. */
  lemma ConvertIntegerRoundTrip(n: int)
    requires INT_MIN <= n <= INT_MAX
    ensures Convert(INTEGER_TYPE, IntToString(n)) == Ok(Int32(n))
  {
    IntRoundTrip(n);
  }

  /** Text that Integer.valueOf rejects makes an Integer parameter throw. */
  lemma ConvertIntegerRejects(text: string)
    requires ParseInt(text).Err?
    ensures Convert(INTEGER_TYPE, text) == Err(NumberFormat)
  {
  }

  // ---------------------------------------------------------------------------
  // The argument array of doDispatch
  // ---------------------------------------------------------------------------

  /** A request entry whose name is in the table but whose bound text the
      parameter type at that index cannot convert. */
  predicate Unconvertible(h: Handler, e: (string, seq<string>))
    requires WellFormed(h)
  {
    e.0 in h.paramIndexMapping && Convert(h.paramTypes[h.paramIndexMapping[e.0]], BoundText(e.1)).Err?
  }

  /** The loop over the request entries, from the argument array `acc`: an
      entry whose name is not in the table is skipped, the others store the
      converted bound text at their index, and a failed conversion throws. */
  function BindFrom(h: Handler, entries: seq<(string, seq<string>)>, acc: seq<Arg>): (r: Result<seq<Arg>>)
    requires WellFormed(h) && |acc| == |h.paramTypes|
    ensures r.Ok? ==> |r.value| == |acc|
    decreases |entries|
  {
    if entries == [] then Ok(acc)
    else
      var (name, values) := entries[0];
      var s := BoundText(values);
      if name !in h.paramIndexMapping then BindFrom(h, entries[1..], acc)
      else
        var index := h.paramIndexMapping[name];
        match Convert(h.paramTypes[index], s)
        case Err(e) => Err(e)
        case Ok(v) => BindFrom(h, entries[1..], acc[index := v])
  }

  /** The last request entry whose name maps to index j. */
  function LastBound(h: Handler, entries: seq<(string, seq<string>)>, j: nat): (r: Option<nat>)
    ensures r.Some? ==> r.value < |entries| && entries[r.value].0 in h.paramIndexMapping
                        && h.paramIndexMapping[entries[r.value].0] == j
    ensures r.Some? ==> forall i :: r.value < i < |entries| ==>
                          !(entries[i].0 in h.paramIndexMapping && h.paramIndexMapping[entries[i].0] == j)
    ensures r.None? ==> forall i :: 0 <= i < |entries| ==>
                          !(entries[i].0 in h.paramIndexMapping && h.paramIndexMapping[entries[i].0] == j)
    decreases |entries|
  {
    if entries == [] then None
    else match LastBound(h, entries[1..], j)
      case Some(i) => Some(i + 1)
      case None =>
        if entries[0].0 in h.paramIndexMapping && h.paramIndexMapping[entries[0].0] == j then Some(0) else None
  }

  /** The parameter loop throws exactly when some entry is unconvertible. */
  lemma {:induction false} BindFromFails(h: Handler, entries: seq<(string, seq<string>)>, acc: seq<Arg>)
    requires WellFormed(h) && |acc| == |h.paramTypes|
    ensures BindFrom(h, entries, acc).Err? <==> exists i :: 0 <= i < |entries| && Unconvertible(h, entries[i])
    ensures BindFrom(h, entries, acc).Err? ==> BindFrom(h, entries, acc).error == NumberFormat
    decreases |entries|
  {
    if entries != [] {
      var (name, values) := entries[0];
      if name in h.paramIndexMapping {
        var index := h.paramIndexMapping[name];
        if Convert(h.paramTypes[index], BoundText(values)).Ok? {
          BindFromFails(h, entries[1..], acc[index := Convert(h.paramTypes[index], BoundText(values)).value]);
        }
      } else {
        BindFromFails(h, entries[1..], acc);
      }
      if exists i :: 0 <= i < |entries| && Unconvertible(h, entries[i]) {
        var i :| 0 <= i < |entries| && Unconvertible(h, entries[i]);
        if i > 0 { assert entries[1..][i - 1] == entries[i]; }
      }
      if exists i :: 0 <= i < |entries[1..]| && Unconvertible(h, entries[1..][i]) {
        var i :| 0 <= i < |entries[1..]| && Unconvertible(h, entries[1..][i]);
        assert entries[i + 1] == entries[1..][i];
      }
    }
  }

  /** When the parameter loop completes, slot j holds the converted text of
      the last entry whose name maps to j, and is otherwise untouched. */
  lemma {:induction false} BindFromSlot(h: Handler, entries: seq<(string, seq<string>)>, acc: seq<Arg>, j: nat)
    requires WellFormed(h) && |acc| == |h.paramTypes| && j < |acc|
    requires BindFrom(h, entries, acc).Ok?
    ensures LastBound(h, entries, j).None? ==> BindFrom(h, entries, acc).value[j] == acc[j]
    ensures LastBound(h, entries, j).Some? ==>
              Convert(h.paramTypes[j], BoundText(entries[LastBound(h, entries, j).value].1)) == Ok(BindFrom(h, entries, acc).value[j])
    decreases |entries|
  {
    if entries != [] {
      var (name, values) := entries[0];
      var acc' := if name in h.paramIndexMapping
        then acc[h.paramIndexMapping[name] := Convert(h.paramTypes[h.paramIndexMapping[name]], BoundText(values)).value]
        else acc;
      assert BindFrom(h, entries, acc) == BindFrom(h, entries[1..], acc');
      BindFromSlot(h, entries[1..], acc', j);
      match LastBound(h, entries[1..], j)
      case Some(i) => assert entries[1..][i] == entries[i + 1];
      case None =>
    }
  }

  /** After the parameter loop: the request object at the index of the
      request class name, then the response object at that of the response
      class name. */
  function PlaceContext(h: Handler, a: seq<Arg>): (r: seq<Arg>)
    requires WellFormed(h) && |a| == |h.paramTypes|
    ensures |r| == |a|
  {
    var m := h.paramIndexMapping;
    var withReq := if REQUEST_TYPE in m then a[m[REQUEST_TYPE] := RequestObj] else a;
    if RESPONSE_TYPE in m then withReq[m[RESPONSE_TYPE] := ResponseObj] else withReq
  }

  /** The argument array doDispatch passes to the handler method, or the
      exception that stopped it. */
  function Bind(h: Handler, req: Request): Result<seq<Arg>>
    requires WellFormed(h)
  {
    match BindFrom(h, req.parameters, seq(|h.paramTypes|, _ => Null))
    case Err(e) => Err(e)
    case Ok(a) => Ok(PlaceContext(h, a))
  }

  /** What slot j of the argument array holds: the response object if j is
      the response index, else the request object if it is the request index,
      else the converted text of the last request entry whose name maps to j,
      else null. */
  function ExpectedSlot(h: Handler, req: Request, j: nat): Arg
    requires WellFormed(h) && j < |h.paramTypes|
    requires forall i :: 0 <= i < |req.parameters| ==> !Unconvertible(h, req.parameters[i])
  {
    var m := h.paramIndexMapping;
    if RESPONSE_TYPE in m && m[RESPONSE_TYPE] == j then ResponseObj
    else if REQUEST_TYPE in m && m[REQUEST_TYPE] == j then RequestObj
    else match LastBound(h, req.parameters, j)
      case None => Null
      case Some(i) =>
        assert !Unconvertible(h, req.parameters[i]);
        Convert(h.paramTypes[j], BoundText(req.parameters[i].1)).value
  }

  /** Binding fails, with NumberFormatException, exactly when some request
      entry named in the table has text its parameter type cannot convert;
      otherwise the array has one slot per parameter, each as ExpectedSlot says. */
  lemma BindSpec(h: Handler, req: Request)
    requires WellFormed(h)
    ensures Bind(h, req).Err? <==> exists i :: 0 <= i < |req.parameters| && Unconvertible(h, req.parameters[i])
    ensures Bind(h, req).Err? ==> Bind(h, req).error == NumberFormat
    ensures Bind(h, req).Ok? ==>
              && |Bind(h, req).value| == |h.paramTypes|
              && forall j :: 0 <= j < |h.paramTypes| ==> Bind(h, req).value[j] == ExpectedSlot(h, req, j)
  {
    var init := seq(|h.paramTypes|, _ => Null);
    BindFromFails(h, req.parameters, init);
    if Bind(h, req).Ok? {
      forall j | 0 <= j < |h.paramTypes| ensures Bind(h, req).value[j] == ExpectedSlot(h, req, j) {
        BindFromSlot(h, req.parameters, init, j);
      }
    }
  }

  // ---------------------------------------------------------------------------
  // doDispatch and doPost
  // ---------------------------------------------------------------------------

  /** Every handler of the table was made by the Handler constructor. */
  predicate TableWellFormed(hs: seq<Handler>) {
    forall i :: 0 <= i < |hs| ==> WellFormed(hs[i])
  }

  /** A handler list every entry of which new Handler(...) could have built. */
  type HandlerTable = hs: seq<Handler> | TableWellFormed(hs) witness []

  lemma TableAppend(hs: seq<Handler>, h: Handler)
    requires TableWellFormed(hs) && WellFormed(h)
    ensures TableWellFormed(hs + [h])
  {
  }

  /** doDispatch: 404 when no handler matches; otherwise bind, invoke the
      method on the handler's controller (what the call does is `call`), and
      write the return value unless it is null or void. */
  function Dispatch(hs: seq<Handler>, req: Request, call: Invocation -> CallResult): Dispatched
    requires TableWellFormed(hs)
  {
    match FirstMatch(hs, RequestPath(req))
    case None => Completed(Reply(Some(NOT_FOUND), None))
    case Some(i) =>
      var h := hs[i];
      match Bind(h, req)
      case Err(e) => Failed(e, None)
      case Ok(args) =>
        var inv := Invocation(Some(h.controller), h.handlerMethod, args);
        match call(inv)
        case ReturnedNull => Completed(Reply(None, Some(inv)))
        case Returned(text) => Completed(Reply(Some(text), Some(inv)))
        case Threw => Failed(InvocationFailed, Some(inv))
  }

  /** doPost: the reply doDispatch writes, or the 500 body for an exception. */
  function Post(hs: seq<Handler>, req: Request, call: Invocation -> CallResult, trace: string): Reply
    requires TableWellFormed(hs)
  {
    Respond(Dispatch(hs, req, call), trace)
  }

  /** The reply is exactly "404 Not Found!", with no method invoked, if and
      only if no handler's pattern equals the request path. */
  lemma NotFoundIff(hs: seq<Handler>, req: Request, call: Invocation -> CallResult, trace: string)
    requires TableWellFormed(hs)
    ensures (Post(hs, req, call, trace) == Reply(Some(NOT_FOUND), None))
              <==> (forall i :: 0 <= i < |hs| ==> hs[i].pattern != RequestPath(req))
  {
    assert (ERROR_PREFIX + trace)[0] != NOT_FOUND[0];
  }

  /** A method is invoked only on the first matching handler, on its
      controller, with the array binding builds. */
  lemma InvokesFirstMatch(hs: seq<Handler>, req: Request, call: Invocation -> CallResult, trace: string)
    requires TableWellFormed(hs)
    requires Post(hs, req, call, trace).invocation.Some?
    ensures var inv := Post(hs, req, call, trace).invocation.value;
            var i := FirstMatch(hs, RequestPath(req));
            && i.Some?
            && inv == Invocation(Some(hs[i.value].controller), hs[i.value].handlerMethod, Bind(hs[i.value], req).value)
            && forall k :: 0 <= k < i.value ==> hs[k].pattern != RequestPath(req)
  {
  }

  /** After a call, the dispatcher writes nothing for a null or void result,
      the result's text otherwise, and the 500 body when the call threw. */
  lemma ReturnValueWritten(hs: seq<Handler>, req: Request, call: Invocation -> CallResult, trace: string)
    requires TableWellFormed(hs)
    requires Post(hs, req, call, trace).invocation.Some?
    ensures var r := Post(hs, req, call, trace);
            match call(r.invocation.value)
            case ReturnedNull => r.body == None
            case Returned(text) => r.body == Some(text)
            case Threw => r.body == Some(ERROR_PREFIX + trace)
  {
  }

  /** A matched request with an entry its parameter type cannot convert is
      answered with the 500 body, and no method is invoked. */
  lemma BadNumberIs500(hs: seq<Handler>, req: Request, call: Invocation -> CallResult, trace: string, i: nat)
    requires TableWellFormed(hs)
    requires FirstMatch(hs, RequestPath(req)).Some?
    requires i < |req.parameters| && Unconvertible(hs[FirstMatch(hs, RequestPath(req)).value], req.parameters[i])
    ensures Post(hs, req, call, trace) == Reply(Some(ERROR_PREFIX + trace), None)
  {
    BindSpec(hs[FirstMatch(hs, RequestPath(req)).value], req);
  }

  /** A request whose first matching handler binds the arguments `args`
      invokes that handler's method on its controller with exactly those. */
  lemma CallsWithBoundArguments(hs: seq<Handler>, req: Request, call: Invocation -> CallResult,
                                trace: string, i: nat, args: seq<Arg>)
    requires TableWellFormed(hs)
    requires FirstMatch(hs, RequestPath(req)) == Some(i)
    requires Bind(hs[i], req) == Ok(args)
    ensures Post(hs, req, call, trace).invocation == Some(Invocation(Some(hs[i].controller), hs[i].handlerMethod, args))
  {
  }
}
