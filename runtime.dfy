/**
 * Descriptors standing in for what the dispatchers obtain by reflection
 * (classes, fields, methods, parameters and their annotations), the objects
 * they keep in the registry, and the servlet request and reply.
 *
 * An annotation is a field of the descriptor that carries it: `None` when the
 * annotation is absent, its `value()` (which defaults to "") when present.
 */
module Runtime {
  import opened Outcomes
  import opened JavaText

  // ---------------------------------------------------------------------------
  // Type names compared by the dispatchers (Class objects compared by ==)
  // ---------------------------------------------------------------------------

  const STRING_TYPE: string := "java.lang.String"
  const INTEGER_TYPE: string := "java.lang.Integer"
  const DOUBLE_TYPE: string := "java.lang.Double"
  const OBJECT_TYPE: string := "java.lang.Object"
  const REQUEST_TYPE: string := "javax.servlet.http.HttpServletRequest"
  const RESPONSE_TYPE: string := "javax.servlet.http.HttpServletResponse"
  const PRIMITIVE_TYPES: set<string> := {"boolean", "byte", "char", "short", "int", "long", "float", "double"}

  /** The reserved keys of a parameter index mapping: the names of the
      request and response classes. */
  predicate IsContextType(typeName: string) {
    typeName == REQUEST_TYPE || typeName == RESPONSE_TYPE
  }

  // ---------------------------------------------------------------------------
  // Class, field, method and parameter descriptors
  // ---------------------------------------------------------------------------

  /** @MyController takes precedence over @MyService: doInstance tests it first. */
  datatype Role = Controller(value: string) | Service(value: string) | Unmarked

  /** A declared field; `staticFinal` says whether it is both static and final,
      the fields Field.set refuses even after setAccessible(true). */
  datatype FieldDesc = FieldDesc(name: string, typeName: string, staticFinal: bool, autowired: Option<string>)

  datatype ParamAnnotation = RequestParam(value: string) | OtherAnnotation

  datatype ParamDesc = ParamDesc(typeName: string, annotations: seq<ParamAnnotation>)

  /** A public method as getMethods() lists it; `mapping` is its @MyRequestMapping. */
  datatype MethodDesc = MethodDesc(
    name: string,
    declaringClass: SimpleName,
    mapping: Option<string>,
    params: seq<ParamDesc>)

  /** A scanned class: `methods` in getMethods() order, `fields` in
      getDeclaredFields() order; `instantiable` says whether newInstance succeeds. */
  datatype ClassDesc = ClassDesc(
    simpleName: SimpleName,
    qualifiedName: string,
    role: Role,
    mapping: Option<string>,
    interfaces: seq<string>,
    fields: seq<FieldDesc>,
    methods: seq<MethodDesc>,
    instantiable: bool)

  /** A registry value: an object created by newInstance, identified by the
      number of the creation, or a Class object. */
  datatype Bean = Instance(id: nat, cls: ClassDesc) | ClassObject(cls: ClassDesc)

  /** java.lang.String (Java 8): none of its declared fields is annotated. */
  const STRING_CLASS: ClassDesc := ClassDesc(
    "String", STRING_TYPE, Unmarked, None,
    ["java.io.Serializable", "java.lang.Comparable", "java.lang.CharSequence"],
    [FieldDesc("value", "[C", false, None), FieldDesc("hash", "int", false, None),
     FieldDesc("serialVersionUID", "long", true, None),
     FieldDesc("serialPersistentFields", "[Ljava.io.ObjectStreamField;", true, None),
     FieldDesc("CASE_INSENSITIVE_ORDER", "java.util.Comparator", true, None)],
    [], false)

  /** java.lang.Class: not a controller and without annotated fields. */
  const CLASS_CLASS: ClassDesc := ClassDesc(
    "Class", "java.lang.Class", Unmarked, None,
    ["java.io.Serializable", "java.lang.reflect.GenericDeclaration",
     "java.lang.reflect.Type", "java.lang.reflect.AnnotatedElement"],
    [], [], false)

  /** getClass() of a registry value. */
  function ClassOf(b: Bean): ClassDesc {
    match b
    case Instance(_, c) => c
    case ClassObject(_) => CLASS_CLASS
  }

  /** Whether Field.set accepts the value for a field of the given type:
      null for any reference type, an object for its own class, a directly
      implemented interface, or Object. */
  predicate Assignable(v: Option<Bean>, typeName: string) {
    match v
    case None => typeName !in PRIMITIVE_TYPES
    case Some(b) =>
      var c := ClassOf(b);
      typeName == c.qualifiedName || typeName in c.interfaces || typeName == OBJECT_TYPE
  }

  /** Method.getParameterTypes(). */
  function ParamTypes(m: MethodDesc): seq<string> {
    seq(|m.params|, i requires 0 <= i < |m.params| => m.params[i].typeName)
  }

  /** ioc.get(key). */
  function Lookup(ioc: map<string, Bean>, key: string): Option<Bean> {
    if key in ioc then Some(ioc[key]) else None
  }

  /** One iteration order of a HashMap's keys: each key exactly once. */
  predicate IsEnumeration(order: seq<string>, keys: set<string>) {
    && (forall i :: 0 <= i < |order| ==> order[i] in keys)
    && (forall k :: k in keys ==> k in order)
    && (forall i, j :: 0 <= i < j < |order| ==> order[i] != order[j])
  }

  /** An enumeration has as many elements as there are keys. */
  lemma {:induction false} EnumerationSize(order: seq<string>, keys: set<string>)
    requires IsEnumeration(order, keys)
    ensures |order| == |keys|
    decreases |order|
  {
    if order == [] {
      assert keys == {};
    } else {
      var n := |order| - 1;
      var x, init := order[n], order[..n];
      forall k | k in keys - {x} ensures k in init {
        var i :| 0 <= i < |order| && order[i] == k;
        assert i != n;
        assert init[i] == k;
      }
      forall i | 0 <= i < |init| ensures init[i] in keys - {x} {
        assert init[i] == order[i];
      }
      assert IsEnumeration(init, keys - {x});
      EnumerationSize(init, keys - {x});
    }
  }

  /** Iterating over a HashMap: each key is visited once, in an order the
      map chooses. */
  method Enumerate(keys: set<string>) returns (order: seq<string>)
    ensures IsEnumeration(order, keys)
  {
    var rest := keys;
    order := [];
    while rest != {}
      invariant rest <= keys
      invariant forall i :: 0 <= i < |order| ==> order[i] in keys && order[i] !in rest
      invariant forall k :: k in keys ==> k in rest || k in order
      invariant forall i, j :: 0 <= i < j < |order| ==> order[i] != order[j]
      decreases |rest|
    {
      var k :| k in rest;
      order := order + [k];
      rest := rest - {k};
    }
  }

  // ---------------------------------------------------------------------------
  // Requests, handler calls and replies
  // ---------------------------------------------------------------------------

  /** getRequestURI(), getContextPath() and getParameterMap() in its iteration order. */
  datatype Request = Request(uri: string, contextPath: string, parameters: seq<(string, seq<string>)>)

  /** An argument slot: null, the live request or response, or a converted value.
      A Double is recorded by the text it was parsed from. */
  datatype Arg = Null | RequestObj | ResponseObj | Text(s: string) | Int32(i: int) | Float64(text: string)

  /** One Method.invoke: the target object (null when absent), the method, the arguments. */
  datatype Invocation = Invocation(target: Option<Bean>, callee: MethodDesc, args: seq<Arg>)

  /** What a handler call did: returned null (or was void), returned an object
      whose toString() is `text`, or threw. */
  datatype CallResult = ReturnedNull | Returned(text: string) | Threw

  /** What the dispatcher itself writes to the response (None: nothing), and
      the call it made, if any. */
  datatype Reply = Reply(body: Option<string>, invocation: Option<Invocation>)

  /** The outcome of doDispatch / diDispatch: it returned normally, or an
      exception escaped to doPost (after the call, if it came from the call). */
  datatype Dispatched = Completed(reply: Reply) | Failed(error: Exception, invocation: Option<Invocation>)

  const NOT_FOUND: string := "404 Not Found!"
  const ERROR_PREFIX: string := "500, ErrInfo :"

  /** doPost: a failed dispatch is answered with the error prefix followed by
      the stack trace text `trace`. */
  function Respond(d: Dispatched, trace: string): (r: Reply)
    ensures d.Failed? ==>
              && r.body.Some? && |r.body.value| >= |ERROR_PREFIX|
              && r.body.value[..|ERROR_PREFIX|] == ERROR_PREFIX
              && r.invocation == d.invocation
    ensures d.Completed? ==> r == d.reply
  {
    match d
    case Completed(reply) => reply
    case Failed(_, call) => Reply(Some(ERROR_PREFIX + trace), call)
  }

  /** Normalising the request path: remove the context path, collapse slashes. */
  function NormalizePath(uri: string, contextPath: string): (r: string)
    ensures NoDoubleSlash(r)
  {
    CollapseHasNoDoubleSlash(RemoveAll(uri, contextPath));
    CollapseSlashes(RemoveAll(uri, contextPath))
  }

  /** A route string: "/" + base + "/" + value with runs of slashes collapsed. */
  function RoutePattern(base: string, value: string): (r: string)
    ensures NoDoubleSlash(r) && r != [] && r[0] == '/'
  {
    CollapseHasNoDoubleSlash("/" + base + "/" + value);
    CollapseSlashes("/" + base + "/" + value)
  }

  /** A route built from two single segments "/b" and "/v" is "/b/v". */
  lemma RouteOfSegments(b: string, v: string)
    requires b != [] && v != []
    requires forall i :: 0 <= i < |b| ==> b[i] != '/'
    requires forall i :: 0 <= i < |v| ==> v[i] != '/'
    ensures RoutePattern("/" + b, "/" + v) == "/" + b + "/" + v
  {
    var x, y := "/" + b, "/" + v;
    assert NoDoubleSlash(x) && NoDoubleSlash(y);
    assert "/" + x + "/" + y == "/" + (x + ("/" + y));
    CollapseDropsDoubledSlash(x + ("/" + y));
    CollapseAppend(x, "/" + y);
    CollapseDropsDoubledSlash(y);
    CollapseFixedPoints(y);
  }

  /** The type-level @MyRequestMapping value, "" when the class has none. */
  function BasePath(c: ClassDesc): string {
    c.mapping.GetOr("")
  }
}
