/**
 * The handler table of the second dispatcher: Handler and its
 * putParamIndexMapping, and the list initHandlerMapping builds.
 */
module V2Handlers {
  import opened Outcomes
  import opened JavaText
  import opened Runtime

  // ---------------------------------------------------------------------------
  // putParamIndexMapping
  // ---------------------------------------------------------------------------

  /** A @MyRequestParam name that is recorded: non-blank once trimmed. */
  predicate Recorded(value: string) {
    !IsBlank(Trim(value))
  }

  /** The annotations of parameter i, in order: each recorded request-param
      name is put with index i. */
  function AnnotatedNames(anns: seq<ParamAnnotation>, i: nat, m: map<string, nat>): map<string, nat>
    decreases |anns|
  {
    if anns == [] then m
    else
      var m' := AnnotatedNames(anns[..|anns| - 1], i, m);
      match anns[|anns| - 1]
      case RequestParam(v) => if Recorded(v) then m'[v := i] else m'
      case OtherAnnotation => m'
  }

  /** The first pass: the annotations of every parameter, in parameter order. */
  function AnnotationPass(params: seq<ParamDesc>): map<string, nat>
    decreases |params|
  {
    if params == [] then map[]
    else AnnotatedNames(params[|params| - 1].annotations, |params| - 1, AnnotationPass(params[..|params| - 1]))
  }

  /** The second pass: each request or response parameter puts its type name. */
  function ContextPass(params: seq<ParamDesc>, m: map<string, nat>): map<string, nat>
    decreases |params|
  {
    if params == [] then m
    else
      var m' := ContextPass(params[..|params| - 1], m);
      var t := params[|params| - 1].typeName;
      if IsContextType(t) then m'[t := |params| - 1] else m'
  }

  /** The table putParamIndexMapping leaves in a fresh handler. */
  function ParamIndexMapping(params: seq<ParamDesc>): map<string, nat> {
    ContextPass(params, AnnotationPass(params))
  }

  /** The last parameter whose type is named t. */
  function LastTyped(params: seq<ParamDesc>, t: string): (r: Option<nat>)
    ensures r.Some? ==> r.value < |params| && params[r.value].typeName == t
    ensures r.Some? ==> forall i :: r.value < i < |params| ==> params[i].typeName != t
    ensures r.None? ==> forall i :: 0 <= i < |params| ==> params[i].typeName != t
    decreases |params|
  {
    if params == [] then None
    else if params[|params| - 1].typeName == t then Some(|params| - 1)
    else LastTyped(params[..|params| - 1], t)
  }

  /** The last parameter carrying @MyRequestParam(v). */
  function LastNamed(params: seq<ParamDesc>, v: string): (r: Option<nat>)
    ensures r.Some? ==> r.value < |params| && RequestParam(v) in params[r.value].annotations
    ensures r.Some? ==> forall i :: r.value < i < |params| ==> RequestParam(v) !in params[i].annotations
    ensures r.None? ==> forall i :: 0 <= i < |params| ==> RequestParam(v) !in params[i].annotations
    decreases |params|
  {
    if params == [] then None
    else if RequestParam(v) in params[|params| - 1].annotations then Some(|params| - 1)
    else LastNamed(params[..|params| - 1], v)
  }

  lemma {:induction false} AnnotatedNamesAt(anns: seq<ParamAnnotation>, i: nat, m: map<string, nat>, k: string)
    ensures var r := AnnotatedNames(anns, i, m);
            if Recorded(k) && RequestParam(k) in anns then k in r && r[k] == i
            else (k in r <==> k in m) && (k in m ==> r[k] == m[k])
    decreases |anns|
  {
    if anns != [] {
      var init := anns[..|anns| - 1];
      AnnotatedNamesAt(init, i, m, k);
      assert anns == init + [anns[|anns| - 1]];
      assert RequestParam(k) in anns <==> RequestParam(k) in init || anns[|anns| - 1] == RequestParam(k);
    }
  }

  lemma {:induction false} AnnotationPassAt(params: seq<ParamDesc>, k: string)
    ensures var r := AnnotationPass(params);
            if Recorded(k) && LastNamed(params, k).Some? then k in r && r[k] == LastNamed(params, k).value
            else k !in r
    decreases |params|
  {
    if params != [] {
      var init, n := params[..|params| - 1], |params| - 1;
      AnnotationPassAt(init, k);
      AnnotatedNamesAt(params[n].annotations, n, AnnotationPass(init), k);
    }
  }

  lemma {:induction false} ContextPassAt(params: seq<ParamDesc>, m: map<string, nat>, k: string)
    ensures var r := ContextPass(params, m);
            if IsContextType(k) && LastTyped(params, k).Some? then k in r && r[k] == LastTyped(params, k).value
            else (k in r <==> k in m) && (k in m ==> r[k] == m[k])
    decreases |params|
  {
    if params != [] {
      ContextPassAt(params[..|params| - 1], m, k);
    }
  }

  /** What the table maps a key to: the request and response class names map
      to the last parameter of that type, overriding a request-param name
      equal to them; any other key, kept untrimmed, maps to the last parameter
      annotated with it, provided it is not blank after trimming; every other
      key is absent. */
  lemma ParamIndexMappingAt(params: seq<ParamDesc>, k: string)
    ensures var r := ParamIndexMapping(params);
            if IsContextType(k) && LastTyped(params, k).Some? then k in r && r[k] == LastTyped(params, k).value
            else if Recorded(k) && LastNamed(params, k).Some? then k in r && r[k] == LastNamed(params, k).value
            else k !in r
  {
    AnnotationPassAt(params, k);
    ContextPassAt(params, AnnotationPass(params), k);
  }

  /** Every stored index is a parameter position, so the argument array
      writes of doDispatch stay in bounds. */
  lemma MappingInBounds(params: seq<ParamDesc>)
    ensures forall k :: k in ParamIndexMapping(params) ==> ParamIndexMapping(params)[k] < |params|
  {
    forall k | k in ParamIndexMapping(params) ensures ParamIndexMapping(params)[k] < |params| {
      ParamIndexMappingAt(params, k);
    }
  }

  /** putParamIndexMapping: the annotation loop over parameters and their
      annotations, then the loop over parameter types. */
  method PutParamIndexMapping(params: seq<ParamDesc>) returns (m: map<string, nat>)
    ensures m == ParamIndexMapping(params)
    ensures forall k :: k in m ==> m[k] < |params|
  {
    m := map[];
    var i := 0;
    while i < |params|
      invariant 0 <= i <= |params|
      invariant m == AnnotationPass(params[..i])
    {
      assert params[..i + 1][..i] == params[..i];
      var anns := params[i].annotations;
      ghost var before := m;
      var j := 0;
      while j < |anns|
        invariant 0 <= j <= |anns|
        invariant m == AnnotatedNames(anns[..j], i, before)
      {
        assert anns[..j + 1][..j] == anns[..j];
        match anns[j] {
          case RequestParam(v) =>
            if Recorded(v) {
              m := m[v := i];
            }
          case OtherAnnotation =>
        }
        j := j + 1;
      }
      assert anns[..j] == anns;
      i := i + 1;
    }
    assert params[..i] == params;
    ghost var annotated := m;
    i := 0;
    while i < |params|
      invariant 0 <= i <= |params|
      invariant m == ContextPass(params[..i], annotated)
    {
      assert params[..i + 1][..i] == params[..i];
      var t := params[i].typeName;
      if t == REQUEST_TYPE || t == RESPONSE_TYPE {
        m := m[t := i];
      }
      i := i + 1;
    }
    assert params[..i] == params;
    MappingInBounds(params);
  }

  // ---------------------------------------------------------------------------
  // Handler
  // ---------------------------------------------------------------------------

  /** A handler: its route pattern (a literal path), the controller object,
      the method, the method's parameter types and its parameter index table. */
  datatype Handler = Handler(
    pattern: string,
    controller: Bean,
    handlerMethod: MethodDesc,
    paramTypes: seq<string>,
    paramIndexMapping: map<string, nat>)

  /** What the Handler constructor establishes. */
  predicate WellFormed(h: Handler) {
    && h.paramTypes == ParamTypes(h.handlerMethod)
    && h.paramIndexMapping == ParamIndexMapping(h.handlerMethod.params)
    && (forall k :: k in h.paramIndexMapping ==> h.paramIndexMapping[k] < |h.paramTypes|)
  }

  /** new Handler(pattern, controller, method). */
  function NewHandler(pattern: string, controller: Bean, m: MethodDesc): (h: Handler)
    ensures WellFormed(h)
    ensures h.pattern == pattern && h.controller == controller && h.handlerMethod == m
  {
    MappingInBounds(m.params);
    Handler(pattern, controller, m, ParamTypes(m), ParamIndexMapping(m.params))
  }

  // ---------------------------------------------------------------------------
  // initHandlerMapping
  // ---------------------------------------------------------------------------

  /** The handlers of one controller object: one per public method carrying
      @MyRequestMapping, in getMethods() order. */
  function MethodHandlers(base: string, b: Bean, methods: seq<MethodDesc>): seq<Handler>
    decreases |methods|
  {
    if methods == [] then []
    else
      var m := methods[|methods| - 1];
      MethodHandlers(base, b, methods[..|methods| - 1])
        + (if m.mapping.Some? then [NewHandler(RoutePattern(base, m.mapping.value), b, m)] else [])
  }

  /** The handlers of one registry value: none unless its class is a controller. */
  function BeanHandlers(b: Bean): seq<Handler> {
    var c := ClassOf(b);
    if c.role.Controller? then MethodHandlers(BasePath(c), b, c.methods) else []
  }

  /** The list initHandlerMapping appends, the registry's keys taken in the
      iteration order `order`. */
  function HandlersFor(ioc: map<string, Bean>, order: seq<string>): seq<Handler>
    requires forall i :: 0 <= i < |order| ==> order[i] in ioc
    decreases |order|
  {
    if order == [] then []
    else HandlersFor(ioc, order[..|order| - 1]) + BeanHandlers(ioc[order[|order| - 1]])
  }

  /** initHandlerMapping, one method more. */
  lemma MethodHandlersNext(start: seq<Handler>, base: string, b: Bean, methods: seq<MethodDesc>, j: nat)
    requires j < |methods|
    ensures start + MethodHandlers(base, b, methods[..j + 1]) == start + MethodHandlers(base, b, methods[..j])
              + (if methods[j].mapping.Some? then [NewHandler(RoutePattern(base, methods[j].mapping.value), b, methods[j])] else [])
  {
    assert methods[..j + 1][..j] == methods[..j];
  }

  /** initHandlerMapping, one registry entry more. */
  lemma HandlersForNext(start: seq<Handler>, ioc: map<string, Bean>, order: seq<string>, k: nat)
    requires forall i :: 0 <= i < |order| ==> order[i] in ioc
    requires k < |order|
    ensures start + HandlersFor(ioc, order[..k + 1]) == start + HandlersFor(ioc, order[..k]) + BeanHandlers(ioc[order[k]])
  {
    assert order[..k + 1][..k] == order[..k];
  }

  /** How many of the methods carry @MyRequestMapping. */
  function MappedCount(methods: seq<MethodDesc>): nat
    decreases |methods|
  {
    if methods == [] then 0
    else MappedCount(methods[..|methods| - 1]) + (if methods[|methods| - 1].mapping.Some? then 1 else 0)
  }

  /** A handler made from method m of controller object b. */
  ghost predicate HandlerOf(h: Handler, b: Bean, m: MethodDesc) {
    && h.controller == b && h.handlerMethod == m && m.mapping.Some?
    && h.pattern == RoutePattern(BasePath(ClassOf(b)), m.mapping.value)
    && WellFormed(h)
  }

  /** One handler per mapped method, none removed as a duplicate; each comes
      from a mapped method of the object, under the route "/" + base + "/" +
      value with runs of slashes collapsed; and every mapped method has one. */
  lemma MethodHandlersSpec(base: string, b: Bean, methods: seq<MethodDesc>)
    requires base == BasePath(ClassOf(b))
    ensures |MethodHandlers(base, b, methods)| == MappedCount(methods)
    ensures forall h :: h in MethodHandlers(base, b, methods) ==>
              exists j :: 0 <= j < |methods| && HandlerOf(h, b, methods[j])
    ensures forall j :: 0 <= j < |methods| && methods[j].mapping.Some? ==>
              exists h :: h in MethodHandlers(base, b, methods) && HandlerOf(h, b, methods[j])
  {
    MethodHandlersCount(base, b, methods);
    MethodHandlersSound(base, b, methods);
    MethodHandlersComplete(base, b, methods);
  }

  lemma {:induction false} MethodHandlersCount(base: string, b: Bean, methods: seq<MethodDesc>)
    ensures |MethodHandlers(base, b, methods)| == MappedCount(methods)
    decreases |methods|
  {
    if methods != [] {
      MethodHandlersCount(base, b, methods[..|methods| - 1]);
    }
  }

  lemma {:induction false} MethodHandlersSound(base: string, b: Bean, methods: seq<MethodDesc>)
    requires base == BasePath(ClassOf(b))
    ensures forall h :: h in MethodHandlers(base, b, methods) ==>
              exists j :: 0 <= j < |methods| && HandlerOf(h, b, methods[j])
    decreases |methods|
  {
    if methods != [] {
      var init, n := methods[..|methods| - 1], |methods| - 1;
      MethodHandlersSound(base, b, init);
      forall h | h in MethodHandlers(base, b, methods) ensures exists j :: 0 <= j < |methods| && HandlerOf(h, b, methods[j]) {
        if h in MethodHandlers(base, b, init) {
          var j :| 0 <= j < |init| && HandlerOf(h, b, init[j]);
          assert methods[j] == init[j];
        } else {
          assert HandlerOf(h, b, methods[n]);
        }
      }
    }
  }

  lemma {:induction false} MethodHandlersComplete(base: string, b: Bean, methods: seq<MethodDesc>)
    requires base == BasePath(ClassOf(b))
    ensures forall j :: 0 <= j < |methods| && methods[j].mapping.Some? ==>
              exists h :: h in MethodHandlers(base, b, methods) && HandlerOf(h, b, methods[j])
    decreases |methods|
  {
    if methods != [] {
      var init, n := methods[..|methods| - 1], |methods| - 1;
      MethodHandlersComplete(base, b, init);
      var hs := MethodHandlers(base, b, methods);
      forall j | 0 <= j < |methods| && methods[j].mapping.Some?
        ensures exists h :: h in hs && HandlerOf(h, b, methods[j])
      {
        if j < n {
          assert methods[j] == init[j];
          var h :| h in MethodHandlers(base, b, init) && HandlerOf(h, b, init[j]);
          assert h in hs;
        } else {
          var h := NewHandler(RoutePattern(base, methods[n].mapping.value), b, methods[n]);
          assert hs == MethodHandlers(base, b, init) + [h];
          assert h in hs && HandlerOf(h, b, methods[j]);
        }
      }
    }
  }

  /** Every handler belongs to a controller object of the registry and to one
      of its mapped methods; classes that are not controllers have none. */
  lemma {:induction false} HandlersSound(ioc: map<string, Bean>, order: seq<string>)
    requires forall i :: 0 <= i < |order| ==> order[i] in ioc
    ensures forall h :: h in HandlersFor(ioc, order) ==>
              && ClassOf(h.controller).role.Controller?
              && (exists i :: 0 <= i < |order| && ioc[order[i]] == h.controller)
              && (exists j :: 0 <= j < |ClassOf(h.controller).methods| && HandlerOf(h, h.controller, ClassOf(h.controller).methods[j]))
    decreases |order|
  {
    if order != [] {
      var init, n := order[..|order| - 1], |order| - 1;
      HandlersSound(ioc, init);
      var b := ioc[order[n]];
      if ClassOf(b).role.Controller? {
        MethodHandlersSpec(BasePath(ClassOf(b)), b, ClassOf(b).methods);
      }
      forall h | h in HandlersFor(ioc, order)
        ensures exists i :: 0 <= i < |order| && ioc[order[i]] == h.controller
      {
        if h in HandlersFor(ioc, init) {
          var i :| 0 <= i < |init| && ioc[init[i]] == h.controller;
          assert order[i] == init[i];
        }
      }
    }
  }

  /** The handlers of every entry are in the table. */
  lemma {:induction false} HandlersForContains(ioc: map<string, Bean>, order: seq<string>, i: nat)
    requires forall k :: 0 <= k < |order| ==> order[k] in ioc
    requires i < |order|
    ensures forall h :: h in BeanHandlers(ioc[order[i]]) ==> h in HandlersFor(ioc, order)
    decreases |order|
  {
    var init, n := order[..|order| - 1], |order| - 1;
    assert HandlersFor(ioc, order) == HandlersFor(ioc, init) + BeanHandlers(ioc[order[n]]);
    if i < n {
      assert init[i] == order[i];
      HandlersForContains(ioc, init, i);
    }
  }

  /** Every mapped method of every controller object in the registry has a handler. */
  lemma HandlersComplete(ioc: map<string, Bean>, order: seq<string>, i: nat, j: nat)
    requires forall k :: 0 <= k < |order| ==> order[k] in ioc
    requires i < |order| && ClassOf(ioc[order[i]]).role.Controller?
    requires j < |ClassOf(ioc[order[i]]).methods| && ClassOf(ioc[order[i]]).methods[j].mapping.Some?
    ensures exists h :: h in HandlersFor(ioc, order) && HandlerOf(h, ioc[order[i]], ClassOf(ioc[order[i]]).methods[j])
  {
    var b := ioc[order[i]];
    MethodHandlersSpec(BasePath(ClassOf(b)), b, ClassOf(b).methods);
    var h :| h in BeanHandlers(b) && HandlerOf(h, b, ClassOf(b).methods[j]);
    HandlersForContains(ioc, order, i);
  }
}
