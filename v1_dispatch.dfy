/**
 * diDispatch of the first dispatcher (servletversion1): an exact lookup of
 * the normalised path, arguments chosen by parameter type, and a call on the
 * registry value named after the method's declaring class. The value the
 * method returns is not written to the response.
 */
module V1Dispatch {
  import opened Outcomes
  import opened JavaText
  import opened Runtime
  import opened V1Routes

  /** getParameterMap().containsKey(key). */
  predicate HasKey(ps: seq<(string, seq<string>)>, key: string) {
    exists e :: 0 <= e < |ps| && ps[e].0 == key
  }

  /** Some @MyRequestParam among the annotations names a request parameter;
      the annotations are looked at in order. */
  predicate Requested(anns: seq<ParamAnnotation>, ps: seq<(string, seq<string>)>)
    decreases |anns|
  {
    && anns != []
    && (|| Requested(anns[..|anns| - 1], ps)
        || (anns[|anns| - 1].RequestParam? && HasKey(ps, anns[|anns| - 1].value)))
  }

  /** What the loop over all request entries leaves in a String slot: the text
      of the last entry, whichever parameter the annotation named. */
  function LastEntryText(ps: seq<(string, seq<string>)>): Arg {
    if ps == [] then Null else Text(BoundText(ps[|ps| - 1].1))
  }

  /** The argument for one parameter: the request or response for those
      types; for a String parameter with a @MyRequestParam naming a request
      parameter, the last request entry's text; null otherwise. */
  function Argument(p: ParamDesc, ps: seq<(string, seq<string>)>): Arg {
    if p.typeName == REQUEST_TYPE then RequestObj
    else if p.typeName == RESPONSE_TYPE then ResponseObj
    else if p.typeName == STRING_TYPE && Requested(p.annotations, ps) then LastEntryText(ps)
    else Null
  }

  function Arguments(m: MethodDesc, req: Request): (r: seq<Arg>)
    ensures |r| == |m.params|
  {
    seq(|m.params|, i requires 0 <= i < |m.params| => Argument(m.params[i], req.parameters))
  }

  /** diDispatch: 404 when the normalised path is not a key of the route table;
      otherwise name the target from the declaring class (an exception for an
      empty simple name), invoke, and write nothing. */
  function Dispatch(routes: Routes, ioc: map<string, Bean>, req: Request,
                    call: Invocation -> CallResult): Dispatched {
    var path := NormalizePath(req.uri, req.contextPath);
    if path !in routes then Completed(Reply(Some(NOT_FOUND), None))
    else
      var m := routes[path];
      match LowerFirst(m.declaringClass)
      case Err(e) => Failed(e, None)
      case Ok(name) =>
        var invocation := Invocation(Lookup(ioc, name), m, Arguments(m, req));
        if call(invocation).Threw? then Failed(InvocationFailed, Some(invocation))
        else Completed(Reply(None, Some(invocation)))
  }

  /** doPost of the first dispatcher. */
  function Post(routes: Routes, ioc: map<string, Bean>, req: Request,
                call: Invocation -> CallResult, trace: string): Reply {
    Respond(Dispatch(routes, ioc, req, call), trace)
  }

  /** The annotation test, stated outright: some annotation is a
      @MyRequestParam whose value is a request parameter's name. */
  lemma {:induction false} RequestedSpec(anns: seq<ParamAnnotation>, ps: seq<(string, seq<string>)>)
    ensures Requested(anns, ps) <==> exists a :: 0 <= a < |anns| && anns[a].RequestParam? && HasKey(ps, anns[a].value)
    decreases |anns|
  {
    if anns != [] {
      var n := |anns| - 1;
      RequestedSpec(anns[..n], ps);
      forall a | 0 <= a < n ensures anns[..n][a] == anns[a] {}
    }
  }

  /** A String parameter whose annotation names any request parameter gets
      the text of the LAST request entry, not of the entry it named. */
  lemma NamedEntryIgnored(p: ParamDesc, ps: seq<(string, seq<string>)>, a: nat, e: nat)
    requires p.typeName == STRING_TYPE
    requires e < |ps| && a < |p.annotations| && p.annotations[a] == RequestParam(ps[e].0)
    ensures Argument(p, ps) == Text(BoundText(ps[|ps| - 1].1))
  {
    RequestedSpec(p.annotations, ps);
  }

  /** Parameters of any type other than String and the two servlet types are
      always null: the first dispatcher converts nothing. */
  lemma OtherTypesNull(p: ParamDesc, ps: seq<(string, seq<string>)>)
    requires p.typeName !in {STRING_TYPE, REQUEST_TYPE, RESPONSE_TYPE}
    ensures Argument(p, ps) == Null
  {
  }

  /** A String parameter without a @MyRequestParam naming a request parameter is null. */
  lemma UnrequestedStringNull(p: ParamDesc, ps: seq<(string, seq<string>)>)
    requires p.typeName == STRING_TYPE
    requires forall a :: 0 <= a < |p.annotations| && p.annotations[a].RequestParam? ==> !HasKey(ps, p.annotations[a].value)
    ensures Argument(p, ps) == Null
  {
    RequestedSpec(p.annotations, ps);
  }

  /** The body is the 404 text exactly when the normalised path has no route. */
  lemma NotFoundIff(routes: Routes, ioc: map<string, Bean>, req: Request,
                    call: Invocation -> CallResult, trace: string)
    ensures (Post(routes, ioc, req, call, trace).body == Some(NOT_FOUND)) <==> (NormalizePath(req.uri, req.contextPath) !in routes)
  {
    assert (ERROR_PREFIX + trace)[0] != NOT_FOUND[0];
  }

  /** A routed request calls the routed method on the value registered under
      its declaring class's shifted simple name (null when there is none),
      with the arguments chosen by type, and writes nothing itself. */
  lemma InvokesRoutedMethod(routes: Routes, ioc: map<string, Bean>, req: Request,
                            call: Invocation -> CallResult, trace: string)
    requires NormalizePath(req.uri, req.contextPath) in routes
    requires routes[NormalizePath(req.uri, req.contextPath)].declaringClass != []
    ensures var m := routes[NormalizePath(req.uri, req.contextPath)];
            var r := Post(routes, ioc, req, call, trace);
            && r.invocation == Some(Invocation(Lookup(ioc, LowerFirst(m.declaringClass).value), m, Arguments(m, req)))
            && (call(r.invocation.value).Threw? ==> r.body == Some(ERROR_PREFIX + trace))
            && (!call(r.invocation.value).Threw? ==> r.body == None)
  {
  }

  /** An empty declaring-class name makes toLowerFirstCase throw before the
      call: the request is answered with the error text and nothing is invoked. */
  lemma EmptyClassNameIs500(routes: Routes, ioc: map<string, Bean>, req: Request,
                            call: Invocation -> CallResult, trace: string)
    requires NormalizePath(req.uri, req.contextPath) in routes
    requires routes[NormalizePath(req.uri, req.contextPath)].declaringClass == []
    ensures Post(routes, ioc, req, call, trace) == Reply(Some(ERROR_PREFIX + trace), None)
  {
  }
}
