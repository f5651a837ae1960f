/**
 * servletversion2/DispatcherServlet.java as an object: the registry, the
 * injected fields and the handler list are its state, and init, doDispatch
 * and doPost are its methods, each proved against the functions of
 * V2Registry, Autowire, V2Handlers and V2Dispatch.
 */
module ServletV2 {
  import opened Outcomes
  import opened JavaText
  import opened Runtime
  import opened Registry
  import opened Autowire
  import opened V2Handlers
  import opened V2Dispatch
  import V2Registry

  /** The second dispatcher scans the declared fields of each value's own class. */
  function ValueFields(b: Bean): seq<FieldDesc> {
    ClassOf(b).fields
  }

  class DispatcherServlet {
    /** The registry (a HashMap whose iteration order is chosen by Enumerate). */
    var ioc: map<string, Bean>
    /** How many objects newInstance has created: the next object's identity. */
    var created: nat
    /** The values Field.set has stored in autowired fields. */
    var wiring: Wiring
    /** The handler list, in the order initHandlerMapping appended. */
    var handlerMapping: seq<Handler>

    ghost predicate Valid()
      reads this
    {
      TableWellFormed(handlerMapping)
    }

    constructor ()
      ensures Valid()
      ensures ioc == map[] && created == 0 && wiring == map[] && handlerMapping == []
    {
      ioc, created, wiring, handlerMapping := map[], 0, map[], [];
    }

    /** doInstance. `completed` is false when an exception ended the loop. */
    method DoInstance(classes: seq<ClassDesc>) returns (completed: bool)
      modifies this`ioc, this`created
      ensures (State(ioc, created), completed) == V2Registry.DoInstance(State(old(ioc), old(created)), classes)
    {
      if |classes| == 0 {
        return true;
      }
      ghost var start := State(ioc, created);
      var i := 0;
      while i < |classes|
        invariant 0 <= i <= |classes|
        invariant Run(V2Registry.InstanceStep, State(ioc, created), classes[i..]) == Run(V2Registry.InstanceStep, start, classes)
      {
        assert classes[i..][0] == classes[i] && classes[i..][1..] == classes[i + 1..];
        var continued := InstanceClass(classes[i]);
        if !continued {
          return false;
        }
        i := i + 1;
      }
      return true;
    }

    /** One iteration of the doInstance loop; `continued` is false when it threw. */
    method InstanceClass(c: ClassDesc) returns (continued: bool)
      modifies this`ioc, this`created
      ensures V2Registry.InstanceStep(State(old(ioc), old(created)), c)
              == if continued then Continue(State(ioc, created)) else Abort(State(ioc, created))
    {
      match c.role {
        case Unmarked =>
          continued := true;
        case Controller(_) =>
          if !c.instantiable {
            return false;
          }
          var instance := Instance(created, c);
          created := created + 1;
          var beanName := ToLowerFirstCase(c.simpleName);
          if beanName.Err? {
            return false;
          }
          ioc := ioc[beanName.value := instance];
          continued := true;
        case Service(value) =>
          var beanName := value;
          if IsBlank(Trim(beanName)) {
            var lowered := ToLowerFirstCase(c.simpleName);
            if lowered.Err? {
              return false;
            }
            beanName := lowered.value;
          }
          assert V2Registry.ServiceName(value, c) == Ok(beanName);
          if !c.instantiable {
            return false;
          }
          var instance := Instance(created, c);
          created := created + 1;
          ioc := ioc[beanName := instance];
          var ok := PutAliases(c.interfaces, instance);
          if !ok {
            return false;
          }
          continued := true;
      }
    }

    /** The interface loop of doInstance: put b under each name, throwing at
      the first name already present. */
    method PutAliases(names: seq<string>, b: Bean) returns (ok: bool)
      modifies this`ioc
      ensures (ioc, ok) == AddAliases(old(ioc), names, b)
    {
      ghost var start := ioc;
      var j := 0;
      while j < |names|
        invariant 0 <= j <= |names|
        invariant AddAliases(ioc, names[j..], b) == AddAliases(start, names, b)
      {
        assert names[j..][0] == names[j] && names[j..][1..] == names[j + 1..];
        if names[j] in ioc {
          return false;
        }
        ioc := ioc[names[j] := b];
        j := j + 1;
      }
      return true;
    }

    /** doAutowired over the entries in the iteration order `order`; `ok` is
      false when Field.set threw IllegalArgumentException out of it. */
    method DoAutowired(order: seq<string>) returns (ok: bool)
      requires IsEnumeration(order, ioc.Keys)
      modifies this`wiring
      ensures (wiring, ok) == WireAll(ioc, ValueFields, order, old(wiring))
    {
      if |ioc| == 0 {
        EnumerationSize(order, ioc.Keys);
        return true;
      }
      var k := 0;
      while k < |order|
        invariant 0 <= k <= |order|
        invariant WireAll(ioc, ValueFields, order[k..], wiring) == WireAll(ioc, ValueFields, order, old(wiring))
      {
        assert order[k..][0] == order[k] && order[k..][1..] == order[k + 1..];
        var target := ioc[order[k]];
        var fields := ClassOf(target).fields;
        var w, ok := WireObject(ioc, target, fields, wiring);
        wiring := w;
        if !ok {
          return false;
        }
        k := k + 1;
      }
      return true;
    }

    /** initHandlerMapping over the entries in the iteration order `order`. */
    method InitHandlerMapping(order: seq<string>)
      requires Valid() && IsEnumeration(order, ioc.Keys)
      modifies this`handlerMapping
      ensures Valid()
      ensures handlerMapping == old(handlerMapping) + HandlersFor(ioc, order)
    {
      if |ioc| == 0 {
        EnumerationSize(order, ioc.Keys);
        assert order[..0] == order;
        return;
      }
      ghost var start := handlerMapping;
      var k := 0;
      while k < |order|
        invariant 0 <= k <= |order|
        invariant Valid()
        invariant handlerMapping == start + HandlersFor(ioc, order[..k])
      {
        var key := order[k];
        HandlersForNext(start, ioc, order, k);
        ghost var before := handlerMapping;
        AddBeanHandlers(ioc[key]);
        assert handlerMapping == before + BeanHandlers(ioc[key]);
        k := k + 1;
      }
      assert order[..k] == order;
    }

    /** One iteration of initHandlerMapping: a handler for each mapped public
      method of a controller, appended in getMethods() order. */
    method AddBeanHandlers(b: Bean)
      requires Valid()
      modifies this`handlerMapping
      ensures Valid()
      ensures handlerMapping == old(handlerMapping) + BeanHandlers(b)
    {
      var c := ClassOf(b);
      if !c.role.Controller? {
        return;
      }
      var base := "";
      if c.mapping.Some? {
        base := c.mapping.value;
      }
      var j := 0;
      while j < |c.methods|
        invariant 0 <= j <= |c.methods|
        invariant Valid()
        invariant handlerMapping == old(handlerMapping) + MethodHandlers(base, b, c.methods[..j])
      {
        MethodHandlersNext(old(handlerMapping), base, b, c.methods, j);
        var m := c.methods[j];
        if m.mapping.Some? {
          var url := CollapseSlashes("/" + base + "/" + m.mapping.value);
          var table := PutParamIndexMapping(m.params);
          var h := Handler(url, b, m, ParamTypes(m), table);
          assert h == NewHandler(RoutePattern(base, m.mapping.value), b, m);
          TableAppend(handlerMapping, h);
          handlerMapping := handlerMapping + [h];
        }
        j := j + 1;
      }
      assert c.methods[..j] == c.methods;
    }

    /** init on a new servlet: doInstance, doAutowired, initHandlerMapping.
      `ok` is false when doAutowired threw, which ends init with the
      exception before any handler is mapped. */
    method Init(classes: seq<ClassDesc>) returns (order: seq<string>, ok: bool)
      requires ioc == map[] && created == 0 && wiring == map[] && handlerMapping == []
      modifies this
      ensures Valid()
      ensures State(ioc, created) == V2Registry.DoInstance(State(map[], 0), classes).0
      ensures IsEnumeration(order, ioc.Keys)
      ensures (wiring, ok) == WireAll(ioc, ValueFields, order, map[])
      ensures handlerMapping == if ok then HandlersFor(ioc, order) else []
    {
      var _ := DoInstance(classes);
      order := Enumerate(ioc.Keys);
      ok := DoAutowired(order);
      if ok {
        InitHandlerMapping(order);
      }
    }

    /** doDispatch, with what the invoked method does given as `call`. */
    method DoDispatch(req: Request, call: Invocation -> CallResult) returns (d: Dispatched)
      requires Valid()
      ensures d == Dispatch(handlerMapping, req, call)
    {
      var found := GetHandler(handlerMapping, req);
      if found.None? {
        return Completed(Reply(Some(NOT_FOUND), None));
      }
      var h := found.value;
      var bound := BindArguments(h, req);
      if bound.Err? {
        return Failed(bound.error, None);
      }
      var invocation := Invocation(Some(h.controller), h.handlerMethod, bound.value);
      match call(invocation) {
        case ReturnedNull => d := Completed(Reply(None, Some(invocation)));
        case Returned(text) => d := Completed(Reply(Some(text), Some(invocation)));
        case Threw => d := Failed(InvocationFailed, Some(invocation));
      }
    }

    /** The argument array of doDispatch: the request entries converted into
      their slots, then the request and response objects placed. */
    static method BindArguments(h: Handler, req: Request) returns (r: Result<seq<Arg>>)
      requires WellFormed(h)
      ensures r == Bind(h, req)
    {
      var types := h.paramTypes;
      var values := new Arg[|types|](_ => Null);
      assert values[..] == seq(|types|, _ => Null);
      var entries := req.parameters;
      var k := 0;
      while k < |entries|
        invariant 0 <= k <= |entries|
        invariant values.Length == |types|
        invariant BindFrom(h, entries[k..], values[..]) == BindFrom(h, entries, seq(|types|, _ => Null))
      {
        assert entries[k..][0] == entries[k] && entries[k..][1..] == entries[k + 1..];
        var (name, strings) := entries[k];
        var s := BoundText(strings);
        if name in h.paramIndexMapping {
          var index := h.paramIndexMapping[name];
          var converted := Convert(types[index], s);
          if converted.Err? {
            return Err(converted.error);
          }
          values[index] := converted.value;
        }
        k := k + 1;
      }
      if REQUEST_TYPE in h.paramIndexMapping {
        values[h.paramIndexMapping[REQUEST_TYPE]] := RequestObj;
      }
      if RESPONSE_TYPE in h.paramIndexMapping {
        values[h.paramIndexMapping[RESPONSE_TYPE]] := ResponseObj;
      }
      return Ok(values[..]);
    }

    /** doPost: dispatch, answering an exception with the 500 body. */
    method DoPost(req: Request, call: Invocation -> CallResult, trace: string) returns (r: Reply)
      requires Valid()
      ensures r == Post(handlerMapping, req, call, trace)
    {
      var d := DoDispatch(req, call);
      r := Respond(d, trace);
    }
  }
}
