/**
 * servletversion1/DispatcherServlet.java as an object: the registry, the
 * injected fields and the URL-to-method map are its state; init, diDispatch
 * and doPost are its methods, proved against V1Registry, V1Autowire,
 * V1Routes and V1Dispatch.
 */
module ServletV1 {
  import opened Outcomes
  import opened JavaText
  import opened Runtime
  import opened Registry
  import opened Autowire
  import opened V1Autowire
  import opened V1Routes
  import opened V1Dispatch
  import V1Registry

  class DispatcherServlet {
    /** The registry (a HashMap whose iteration order is chosen by Enumerate). */
    var ioc: map<string, Bean>
    /** How many objects newInstance has created: the next object's identity. */
    var created: nat
    /** The values Field.set has stored in autowired fields. */
    var wiring: Wiring
    /** URL to method. */
    var handlerMapping: Routes

    constructor ()
      ensures ioc == map[] && created == 0 && wiring == map[] && handlerMapping == map[]
    {
      ioc, created, wiring, handlerMapping := map[], 0, map[], map[];
    }

    /** doInstance. `completed` is false when an exception ended the loop. */
    method DoInstance(classes: seq<ClassDesc>) returns (completed: bool)
      modifies this`ioc, this`created
      ensures (State(ioc, created), completed) == V1Registry.DoInstance(State(old(ioc), old(created)), classes)
    {
      if |classes| == 0 {
        return true;
      }
      ghost var start := State(ioc, created);
      var i := 0;
      while i < |classes|
        invariant 0 <= i <= |classes|
        invariant Run(V1Registry.InstanceStep, State(ioc, created), classes[i..]) == Run(V1Registry.InstanceStep, start, classes)
      {
        assert classes[i..][0] == classes[i] && classes[i..][1..] == classes[i + 1..];
        var continued := InstanceClass(classes[i]);
        if !continued {
          return false;
        }
        i := i + 1;
      }
      return true;
    }

    /** One iteration of the doInstance loop; `continued` is false when it threw. */
    method InstanceClass(c: ClassDesc) returns (continued: bool)
      modifies this`ioc, this`created
      ensures V1Registry.InstanceStep(State(old(ioc), old(created)), c)
              == if continued then Continue(State(ioc, created)) else Abort(State(ioc, created))
    {
      match c.role {
        case Unmarked =>
          continued := true;
        case Controller(_) =>
          if !c.instantiable {
            return false;
          }
          var instance := Instance(created, c);
          created := created + 1;
          var beanName := ToLowerFirstCase(c.simpleName);
          if beanName.Err? {
            return false;
          }
          ioc := ioc[beanName.value := instance];
          continued := true;
        case Service(value) =>
          var beanName := value;
          if IsBlank(Trim(beanName)) {
            beanName := value;
          }
          if !c.instantiable {
            return false;
          }
          var instance := Instance(created, c);
          created := created + 1;
          ioc := ioc[beanName := instance];
          var ok := PutAliases(c.interfaces, ClassObject(c));
          if !ok {
            return false;
          }
          continued := true;
      }
    }

    /** The interface loop of doInstance: put b under each name, throwing at
      the first name already present. */
    method PutAliases(names: seq<string>, b: Bean) returns (ok: bool)
      modifies this`ioc
      ensures (ioc, ok) == AddAliases(old(ioc), names, b)
    {
      ghost var start := ioc;
      var j := 0;
      while j < |names|
        invariant 0 <= j <= |names|
        invariant AddAliases(ioc, names[j..], b) == AddAliases(start, names, b)
      {
        assert names[j..][0] == names[j] && names[j..][1..] == names[j + 1..];
        if names[j] in ioc {
          return false;
        }
        ioc := ioc[names[j] := b];
        j := j + 1;
      }
      return true;
    }

    /** doAutowired over the entries in the iteration order `order`. The
      fields scanned are those of the entry's key. */
    method DoAutowired(order: seq<string>) returns (ok: bool)
      requires IsEnumeration(order, ioc.Keys)
      modifies this`wiring
      ensures (wiring, ok) == WireAll(ioc, KeyFields, order, old(wiring))
    {
      if |ioc| == 0 {
        EnumerationSize(order, ioc.Keys);
        return true;
      }
      var k := 0;
      while k < |order|
        invariant 0 <= k <= |order|
        invariant WireAll(ioc, KeyFields, order[k..], wiring) == WireAll(ioc, KeyFields, order, old(wiring))
      {
        assert order[k..][0] == order[k] && order[k..][1..] == order[k + 1..];
        var key := order[k];
        var target := ioc[key];
        var fields := STRING_CLASS.fields;
        var w, ok := WireObject(ioc, target, fields, wiring);
        wiring := w;
        if !ok {
          return false;
        }
        k := k + 1;
      }
      return true;
    }

    /** initHandlerMapping over the entries in the iteration order `order`. */
    method InitHandlerMapping(order: seq<string>)
      requires IsEnumeration(order, ioc.Keys)
      modifies this`handlerMapping
      ensures handlerMapping == RoutesFor(ioc, order, old(handlerMapping))
    {
      if |ioc| == 0 {
        EnumerationSize(order, ioc.Keys);
        assert order[..0] == order;
        return;
      }
      var k := 0;
      while k < |order|
        invariant 0 <= k <= |order|
        invariant handlerMapping == RoutesFor(ioc, order[..k], old(handlerMapping))
      {
        assert order[..k + 1][..k] == order[..k];
        PutBeanRoutes(ioc[order[k]]);
        k := k + 1;
      }
      assert order[..k] == order;
    }

    /** One iteration of initHandlerMapping: put each mapped public method
      of a controller under its route. */
    method PutBeanRoutes(b: Bean)
      modifies this`handlerMapping
      ensures handlerMapping == BeanRoutes(b, old(handlerMapping))
    {
      var c := ClassOf(b);
      if !c.role.Controller? {
        return;
      }
      var base := "";
      if c.mapping.Some? {
        base := c.mapping.value;
      }
      var j := 0;
      while j < |c.methods|
        invariant 0 <= j <= |c.methods|
        invariant handlerMapping == MethodRoutes(base, c.methods[..j], old(handlerMapping))
      {
        assert c.methods[..j + 1][..j] == c.methods[..j];
        var m := c.methods[j];
        if m.mapping.Some? {
          var url := CollapseSlashes("/" + base + "/" + m.mapping.value);
          handlerMapping := handlerMapping[url := m];
        }
        j := j + 1;
      }
      assert c.methods[..j] == c.methods;
    }

    /** init on a new servlet: doInstance, doAutowired, initHandlerMapping.
      Nothing is ever injected. */
    method Init(classes: seq<ClassDesc>) returns (order: seq<string>)
      requires ioc == map[] && created == 0 && wiring == map[] && handlerMapping == map[]
      modifies this
      ensures State(ioc, created) == V1Registry.DoInstance(State(map[], 0), classes).0
      ensures IsEnumeration(order, ioc.Keys)
      ensures wiring == map[]
      ensures handlerMapping == RoutesFor(ioc, order, map[])
    {
      var _ := DoInstance(classes);
      order := Enumerate(ioc.Keys);
      var ok := DoAutowired(order);
      NothingInjected(ioc, order, map[]);
      InitHandlerMapping(order);
    }

    /** The String branch of diDispatch for parameter i: for every parameter
      index j, for every annotation of parameter i that is a @MyRequestParam
      naming a request parameter, store each request entry's text in turn. */
    static method StringArgument(m: MethodDesc, i: nat, ps: seq<(string, seq<string>)>) returns (v: Arg)
      requires i < |m.params|
      ensures v == if Requested(m.params[i].annotations, ps) then LastEntryText(ps) else Null
    {
      var anno := seq(|m.params|, k requires 0 <= k < |m.params| => m.params[k].annotations);
      var anns := anno[i];
      v := Null;
      var j := 0;
      while j < |anno|
        invariant 0 <= j <= |anno|
        invariant v == if j > 0 && Requested(anns, ps) then LastEntryText(ps) else Null
      {
        var a := 0;
        while a < |anns|
          invariant 0 <= a <= |anns|
          invariant v == if (j > 0 && Requested(anns, ps)) || Requested(anns[..a], ps) then LastEntryText(ps) else Null
        {
          assert anns[..a + 1][..a] == anns[..a];
          match anns[a] {
            case RequestParam(value) =>
              if HasKey(ps, value) {
                ghost var v0 := v;
                var e := 0;
                while e < |ps|
                  invariant 0 <= e <= |ps|
                  invariant v == if e == 0 then v0 else Text(BoundText(ps[e - 1].1))
                {
                  v := Text(BoundText(ps[e].1));
                  e := e + 1;
                }
              }
            case OtherAnnotation =>
          }
          a := a + 1;
        }
        assert anns[..a] == anns;
        j := j + 1;
      }
    }

    /** diDispatch, with what the invoked method does given as `call`. */
    method DiDispatch(req: Request, call: Invocation -> CallResult) returns (d: Dispatched)
      ensures d == Dispatch(handlerMapping, ioc, req, call)
    {
      var url := RemoveAll(req.uri, req.contextPath);
      url := CollapseSlashes(url);
      if url !in handlerMapping {
        return Completed(Reply(Some(NOT_FOUND), None));
      }
      var m := handlerMapping[url];
      var ps := req.parameters;
      var types := ParamTypes(m);
      var paramters := new Arg[|types|](_ => Null);
      var i := 0;
      while i < |types|
        invariant 0 <= i <= |types| && paramters.Length == |types|
        invariant forall k :: 0 <= k < i ==> paramters[k] == Argument(m.params[k], ps)
        invariant forall k :: i <= k < |types| ==> paramters[k] == Null
      {
        if types[i] == REQUEST_TYPE {
          paramters[i] := RequestObj;
        } else if types[i] == RESPONSE_TYPE {
          paramters[i] := ResponseObj;
        } else if types[i] == STRING_TYPE {
          var v := StringArgument(m, i, ps);
          paramters[i] := v;
        }
        i := i + 1;
      }
      assert paramters[..] == Arguments(m, req);
      var beanName := ToLowerFirstCase(m.declaringClass);
      if beanName.Err? {
        return Failed(beanName.error, None);
      }
      var invocation := Invocation(Lookup(ioc, beanName.value), m, paramters[..]);
      if call(invocation).Threw? {
        return Failed(InvocationFailed, Some(invocation));
      }
      return Completed(Reply(None, Some(invocation)));
    }

    /** doPost: dispatch, answering an exception with the 500 body. */
    method DoPost(req: Request, call: Invocation -> CallResult, trace: string) returns (r: Reply)
      ensures r == Post(handlerMapping, ioc, req, call, trace)
    {
      var d := DiDispatch(req, call);
      r := Respond(d, trace);
    }
  }
}
