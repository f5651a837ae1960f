/**
 * The demo controller (demo/controller/TestController.java) as descriptors,
 * and what both dispatchers make of it.
 */
module TestControllerFixture {
  import opened Outcomes
  import opened JavaText
  import opened Runtime
  import opened Registry
  import opened V2Handlers
  import opened V2Dispatch
  import V2Registry
  import opened Autowire
  import V1Routes
  import V1Dispatch
  import ServletV2

  const SERVICE_TYPE: string := "com.tianhy.demo.service.TestService"

  function RequestParamOf(typeName: string, name: string): ParamDesc {
    ParamDesc(typeName, [RequestParam(name)])
  }

  const REQ_PARAM: ParamDesc := ParamDesc(REQUEST_TYPE, [])
  const RESP_PARAM: ParamDesc := ParamDesc(RESPONSE_TYPE, [])

  /** query(req, resp, @MyRequestParam("name") String name) */
  const QUERY: MethodDesc := MethodDesc("query", "TestController", Some("/query"),
    [REQ_PARAM, RESP_PARAM, RequestParamOf(STRING_TYPE, "name")])

  /** add(req, resp, @MyRequestParam("a") Integer a, @MyRequestParam("b") Integer b) */
  const ADD: MethodDesc := MethodDesc("add", "TestController", Some("/add"),
    [REQ_PARAM, RESP_PARAM, RequestParamOf(INTEGER_TYPE, "a"), RequestParamOf(INTEGER_TYPE, "b")])

  /** add(req, resp, @MyRequestParam("a") Double a, @MyRequestParam("b") Double b), mapped to /sub */
  const SUB: MethodDesc := MethodDesc("add", "TestController", Some("/sub"),
    [REQ_PARAM, RESP_PARAM, RequestParamOf(DOUBLE_TYPE, "a"), RequestParamOf(DOUBLE_TYPE, "b")])

  /** The class: @MyController, @MyRequestMapping("/tianhy"), one
      @MyAutowired field, and the three mapped methods. */
  const TEST_CONTROLLER: ClassDesc := ClassDesc(
    "TestController", "com.tianhy.demo.controller.TestController",
    Controller(""), Some("/tianhy"), [],
    [FieldDesc("service", SERVICE_TYPE, false, Some(""))],
    [QUERY, ADD, SUB], true)

  /** The controller's bean name. */
  lemma BeanNameIsTestController()
    ensures LowerFirst(TEST_CONTROLLER.simpleName) == Ok("testController")
  {
    var name: string := TEST_CONTROLLER.simpleName;
    assert name[0] == 'T' && (('T' as int + 32) % 0x1_0000) as char == 't';
    assert ['t'] + name[1..] == "testController";
  }

  /** Scanning the controller alone puts one instance under "testController". */
  lemma RegistryOfController()
    ensures V2Registry.DoInstance(State(map[], 0), [TEST_CONTROLLER])
            == (State(map["testController" := Instance(0, TEST_CONTROLLER)], 1), true)
  {
    BeanNameIsTestController();
    assert V2Registry.InstanceStep(State(map[], 0), TEST_CONTROLLER)
           == Continue(State(map["testController" := Instance(0, TEST_CONTROLLER)], 1));
    var after := State(map["testController" := Instance(0, TEST_CONTROLLER)], 1);
    assert [TEST_CONTROLLER][1..] == [];
    assert Run(V2Registry.InstanceStep, State(map[], 0), [TEST_CONTROLLER])
           == Run(V2Registry.InstanceStep, after, []);
  }

  const CONTROLLER_BEAN: Bean := Instance(0, TEST_CONTROLLER)
  const IOC: map<string, Bean> := map["testController" := CONTROLLER_BEAN]

  /** The three mapped methods give routes under the class's base path. */
  lemma Routes()
    ensures RoutePattern("/tianhy", "/query") == "/tianhy/query"
    ensures RoutePattern("/tianhy", "/add") == "/tianhy/add"
    ensures RoutePattern("/tianhy", "/sub") == "/tianhy/sub"
  {
    RouteOfSegments("tianhy", "query");
    assert "/" + "tianhy" == "/tianhy" && "/" + "query" == "/query" && "/" + "tianhy" + "/" + "query" == "/tianhy/query";
    RouteOfSegments("tianhy", "add");
    assert "/" + "tianhy" == "/tianhy" && "/" + "add" == "/add" && "/" + "tianhy" + "/" + "add" == "/tianhy/add";
    RouteOfSegments("tianhy", "sub");
    assert "/" + "tianhy" == "/tianhy" && "/" + "sub" == "/sub" && "/" + "tianhy" + "/" + "sub" == "/tianhy/sub";
  }

  /** The parameter types and index mappings the three handlers record. */
  const QUERY_TYPES: seq<string> := [REQUEST_TYPE, RESPONSE_TYPE, STRING_TYPE]
  const QUERY_INDEX: map<string, nat> := map[REQUEST_TYPE := 0, RESPONSE_TYPE := 1, "name" := 2]
  const ADD_TYPES: seq<string> := [REQUEST_TYPE, RESPONSE_TYPE, INTEGER_TYPE, INTEGER_TYPE]
  const SUB_TYPES: seq<string> := [REQUEST_TYPE, RESPONSE_TYPE, DOUBLE_TYPE, DOUBLE_TYPE]
  const ADD_INDEX: map<string, nat> := map[REQUEST_TYPE := 0, RESPONSE_TYPE := 1, "a" := 2, "b" := 3]

  /** query's parameter index mapping: request 0, response 1, "name" 2. */
  lemma QueryMapping()
    ensures ParamIndexMapping(QUERY.params) == QUERY_INDEX
  {
    var ps := QUERY.params;
    assert ps[..2][..1] == ps[..1] && ps[..1][..0] == [] && ps[..3] == ps;
    assert Recorded("name");
    var names := [RequestParam("name")];
    assert names[..0] == [];
    assert AnnotatedNames(names, 2, map[]) == map["name" := 2];
    assert AnnotationPass(ps[..1]) == map[];
    assert AnnotationPass(ps[..2]) == map[];
    assert AnnotationPass(ps) == map["name" := 2];
    assert ContextPass(ps[..1], map["name" := 2]) == map["name" := 2, REQUEST_TYPE := 0];
    assert ContextPass(ps[..2], map["name" := 2]) == map["name" := 2, REQUEST_TYPE := 0, RESPONSE_TYPE := 1];
  }

  /** The handlers new Handler(...) builds for the three mapped methods. */
  const QUERY_HANDLER: Handler := Handler("/tianhy/query", CONTROLLER_BEAN, QUERY, QUERY_TYPES, QUERY_INDEX)
  const ADD_HANDLER: Handler := Handler("/tianhy/add", CONTROLLER_BEAN, ADD, ADD_TYPES, ADD_INDEX)
  const SUB_HANDLER: Handler := Handler("/tianhy/sub", CONTROLLER_BEAN, SUB, SUB_TYPES, ADD_INDEX)

  lemma QueryHandler()
    ensures NewHandler("/tianhy/query", CONTROLLER_BEAN, QUERY) == QUERY_HANDLER
  {
    QueryMapping();
    assert ParamTypes(QUERY) == QUERY_TYPES;
  }

  lemma AddHandler()
    ensures NewHandler("/tianhy/add", CONTROLLER_BEAN, ADD) == ADD_HANDLER
  {
    AddMapping();
    assert ParamTypes(ADD) == ADD_TYPES;
  }

  lemma SubHandler()
    ensures NewHandler("/tianhy/sub", CONTROLLER_BEAN, SUB) == SUB_HANDLER
  {
    SubMapping();
    assert ParamTypes(SUB) == SUB_TYPES;
  }

  /** The handler list initHandlerMapping builds for the controller. */
  const TABLE: HandlerTable :=
    (QueryHandler(); AddHandler(); SubHandler(); [QUERY_HANDLER, ADD_HANDLER, SUB_HANDLER])

  lemma TableOfController()
    ensures HandlersFor(IOC, ["testController"]) == TABLE
  {
    Routes();
    QueryHandler();
    AddHandler();
    SubHandler();
    var ms := TEST_CONTROLLER.methods;
    assert ms[..3] == ms && ms[..2][..1] == ms[..1] && ms[..1][..0] == [];
    assert ["testController"][..0] == [];
    assert MethodHandlers("/tianhy", CONTROLLER_BEAN, ms[..1]) == TABLE[..1];
    assert MethodHandlers("/tianhy", CONTROLLER_BEAN, ms[..2]) == TABLE[..2];
    assert MethodHandlers("/tianhy", CONTROLLER_BEAN, ms) == TABLE;
  }

  /** The application is deployed under the context path "/app". */
  function AppRequest(path: string, parameters: seq<(string, seq<string>)>): Request {
    Request("/app" + path, "/app", parameters)
  }

  /** The context path is removed and the route is found. */
  lemma AddIsRouted(parameters: seq<(string, seq<string>)>)
    ensures RequestPath(AppRequest("/tianhy/add", parameters)) == "/tianhy/add"
    ensures FirstMatch(TABLE, RequestPath(AppRequest("/tianhy/add", parameters))) == Some(1)
  {
    MissingCharacterNoOccurrence("/tianhy/add", "/app", 'p');
    RemoveContextPrefix("/app", "/tianhy/add");
    Routes();
    CollapseFixedPoints("/tianhy/add");
  }

  /** add's parameter index mapping: request 0, response 1, "a" 2, "b" 3. */
  lemma AddMapping()
    ensures ParamIndexMapping(ADD.params) == ADD_INDEX
  {
    TwoNamedMapping(ADD.params, INTEGER_TYPE);
  }

  /** The add mapped to /sub has the same mapping with Double parameters. */
  lemma SubMapping()
    ensures ParamIndexMapping(SUB.params) == ADD_INDEX
  {
    TwoNamedMapping(SUB.params, DOUBLE_TYPE);
  }

  lemma TwoNamedMapping(ps: seq<ParamDesc>, t: string)
    requires ps == [REQ_PARAM, RESP_PARAM, RequestParamOf(t, "a"), RequestParamOf(t, "b")]
    requires !IsContextType(t)
    ensures ParamIndexMapping(ps) == ADD_INDEX
  {
    TwoNamedAnnotations(ps, t);
    TwoNamedContext(ps, t);
  }

  /** The first pass records "a" at 2 and "b" at 3. */
  lemma TwoNamedAnnotations(ps: seq<ParamDesc>, t: string)
    requires ps == [REQ_PARAM, RESP_PARAM, RequestParamOf(t, "a"), RequestParamOf(t, "b")]
    ensures AnnotationPass(ps) == map["a" := 2, "b" := 3]
  {
    assert ps[..3][..2] == ps[..2] && ps[..2][..1] == ps[..1] && ps[..1][..0] == [] && ps[..4] == ps;
    assert Recorded("a") && Recorded("b");
    var a, b := [RequestParam("a")], [RequestParam("b")];
    assert a[..0] == [] && b[..0] == [];
    assert AnnotationPass(ps[..1]) == map[];
    assert AnnotationPass(ps[..2]) == map[];
    assert AnnotationPass(ps[..3]) == map["a" := 2];
  }

  /** The second pass adds the request at 0 and the response at 1. */
  lemma TwoNamedContext(ps: seq<ParamDesc>, t: string)
    requires ps == [REQ_PARAM, RESP_PARAM, RequestParamOf(t, "a"), RequestParamOf(t, "b")]
    requires !IsContextType(t)
    ensures ContextPass(ps, map["a" := 2, "b" := 3]) == ADD_INDEX
  {
    assert ps[..3][..2] == ps[..2] && ps[..2][..1] == ps[..1] && ps[..1][..0] == [] && ps[..4] == ps;
    var names := map["a" := 2, "b" := 3];
    assert ContextPass(ps[..1], names) == names[REQUEST_TYPE := 0];
    assert ContextPass(ps[..2], names) == names[REQUEST_TYPE := 0][RESPONSE_TYPE := 1];
    assert ContextPass(ps[..3], names) == names[REQUEST_TYPE := 0][RESPONSE_TYPE := 1];
  }

  /** A single digit value is Integer.valueOf's input as it is. */
  lemma DigitArgument(d: int)
    requires 0 <= d <= 9
    ensures Convert(INTEGER_TYPE, BoundText([[DigitChar(d)]])) == Ok(Int32(d))
  {
    BoundTextSpec([[DigitChar(d)]]);
    ConvertIntegerRoundTrip(d);
    assert IntToString(d) == [DigitChar(d)];
  }

  /** The entry loop stores 1 at index 2 and 2 at index 3. */
  lemma AddEntries(h: Handler, entries: seq<(string, seq<string>)>)
    requires WellFormed(h) && h.paramTypes == ADD_TYPES && h.paramIndexMapping == ADD_INDEX
    requires entries == [("a", ["1"]), ("b", ["2"])]
    ensures BindFrom(h, entries, seq(4, _ => Null)) == Ok([Null, Null, Int32(1), Int32(2)])
  {
    DigitArgument(1);
    DigitArgument(2);
    assert [DigitChar(1)] == "1" && [DigitChar(2)] == "2";
    assert h.paramTypes[2] == INTEGER_TYPE && h.paramTypes[3] == INTEGER_TYPE;
    assert h.paramIndexMapping["a"] == 2 && h.paramIndexMapping["b"] == 3;
    var init := seq(4, _ => Null);
    var bound := init[2 := Int32(1)][3 := Int32(2)];
    assert bound == [Null, Null, Int32(1), Int32(2)];
    assert entries[1..] == [("b", ["2"])] && entries[1..][1..] == [];
    assert BindFrom(h, entries[1..], init[2 := Int32(1)]) == Ok(bound);
  }

  /** a=1, b=2 bind to add's Integer parameters. */
  lemma AddBinding(h: Handler, req: Request)
    requires WellFormed(h) && h.paramTypes == ADD_TYPES && h.paramIndexMapping == ADD_INDEX
    requires req.parameters == [("a", ["1"]), ("b", ["2"])]
    ensures Bind(h, req) == Ok([RequestObj, ResponseObj, Int32(1), Int32(2)])
  {
    AddEntries(h, req.parameters);
    assert seq(|h.paramTypes|, _ => Null) == seq(4, _ => Null);
    AddContext(h, [Null, Null, Int32(1), Int32(2)]);
  }

  /** The request and response objects go to slots 0 and 1. */
  lemma AddContext(h: Handler, a: seq<Arg>)
    requires WellFormed(h) && h.paramTypes == ADD_TYPES && h.paramIndexMapping == ADD_INDEX
    requires |a| == 4
    ensures PlaceContext(h, a) == [RequestObj, ResponseObj, a[2], a[3]]
  {
  }

  /** /app/tianhy/add?a=1&b=2 calls add on the controller with request,
      response, 1 and 2. */
  lemma AddBindsIntegers(call: Invocation -> CallResult, trace: string)
    ensures var req := AppRequest("/tianhy/add", [("a", ["1"]), ("b", ["2"])]);
            Post(TABLE, req, call, trace).invocation
            == Some(Invocation(Some(CONTROLLER_BEAN), ADD, [RequestObj, ResponseObj, Int32(1), Int32(2)]))
  {
    var req := AppRequest("/tianhy/add", [("a", ["1"]), ("b", ["2"])]);
    AddIsRouted(req.parameters);
    AddBinding(TABLE[1], req);
    CallsWithBoundArguments(TABLE, req, call, trace, 1, [RequestObj, ResponseObj, Int32(1), Int32(2)]);
  }

  /** "foo" is not the text of an Integer. */
  lemma FooUnconvertible(h: Handler)
    requires WellFormed(h) && h.paramTypes == ADD_TYPES && h.paramIndexMapping == ADD_INDEX
    ensures Unconvertible(h, ("a", ["foo"]))
  {
    BoundTextSpec(["foo"]);
    assert ParseInt("foo").Err?;
  }

  /** a=foo is not an Integer: the request is answered with the error text
      and add is not invoked. */
  lemma NonNumericIs500(call: Invocation -> CallResult, trace: string)
    ensures Post(TABLE, AppRequest("/tianhy/add", [("a", ["foo"])]), call, trace)
            == Reply(Some(ERROR_PREFIX + trace), None)
  {
    var req := AppRequest("/tianhy/add", [("a", ["foo"])]);
    AddIsRouted(req.parameters);
    FooUnconvertible(TABLE[1]);
    BadNumberIs500(TABLE, req, call, trace, 0);
  }

  lemma UnknownPath()
    ensures RequestPath(AppRequest("/unknown", [])) == "/unknown"
  {
    MissingCharacterNoOccurrence("/unknown", "/app", 'p');
    RemoveContextPrefix("/app", "/unknown");
    assert NoDoubleSlash("/unknown");
    CollapseFixedPoints("/unknown");
  }

  lemma UnknownUnmatched()
    ensures FirstMatch(TABLE, "/unknown") == None
  {
    assert TABLE[0].pattern == "/tianhy/query" && TABLE[1].pattern == "/tianhy/add" && TABLE[2].pattern == "/tianhy/sub";
    assert "/tianhy/query"[1] != "/unknown"[1];
    assert "/tianhy/add"[1] != "/unknown"[1];
    assert "/tianhy/sub"[1] != "/unknown"[1];
  }

  /** A path no method is mapped to gets the 404 text. */
  lemma UnknownIs404(call: Invocation -> CallResult, trace: string)
    ensures Post(TABLE, AppRequest("/unknown", []), call, trace) == Reply(Some(NOT_FOUND), None)
  {
    UnknownPath();
    UnknownUnmatched();
  }

  /** The autowired service field is looked up by its type name, which no
      registry entry has, so the second dispatcher stores null in it. */
  lemma ServiceFieldNull()
    ensures WireAll(IOC, ServletV2.ValueFields, ["testController"], map[])
            == (map[(CONTROLLER_BEAN, "service") := None], true)
  {
    var f := TEST_CONTROLLER.fields[0];
    assert BeanName(f) == SERVICE_TYPE;
    assert Lookup(IOC, SERVICE_TYPE) == None;
    assert Injectable(IOC, f);
    var w := map[(CONTROLLER_BEAN, "service") := None];
    assert ServletV2.ValueFields(IOC["testController"]) == [f] && [f][1..] == [];
    assert WireFields(IOC, CONTROLLER_BEAN, [f], map[]) == (w, true);
    assert ["testController"][1..] == [];
    assert WireAll(IOC, ServletV2.ValueFields, [], w) == (w, true);
  }

  /** The URL map the first dispatcher builds for the controller. */
  lemma V1Table()
    ensures V1Routes.RoutesFor(IOC, ["testController"], map[])
            == map["/tianhy/query" := QUERY, "/tianhy/add" := ADD, "/tianhy/sub" := SUB]
  {
    Routes();
    var ms := TEST_CONTROLLER.methods;
    assert ms[..3] == ms && ms[..2][..1] == ms[..1] && ms[..1][..0] == [];
    assert ["testController"][..0] == [];
    var t1 := map["/tianhy/query" := QUERY];
    var t2 := t1["/tianhy/add" := ADD];
    assert V1Routes.MethodRoutes("/tianhy", ms[..1], map[]) == t1;
    assert V1Routes.MethodRoutes("/tianhy", ms[..2], map[]) == t2;
    assert V1Routes.MethodRoutes("/tianhy", ms, map[]) == t2["/tianhy/sub" := SUB];
    assert V1Routes.BeanRoutes(CONTROLLER_BEAN, map[]) == t2["/tianhy/sub" := SUB];
  }

  /** With "name" among the request parameters, query's String parameter
      receives the text of the last request entry. */
  lemma V1QueryArguments(ps: seq<(string, seq<string>)>)
    requires V1Dispatch.HasKey(ps, "name")
    ensures V1Dispatch.Arguments(QUERY, AppRequest("/tianhy/query", ps))
            == [RequestObj, ResponseObj, V1Dispatch.LastEntryText(ps)]
  {
    var anns := QUERY.params[2].annotations;
    assert anns[..0] == [];
    assert V1Dispatch.Requested(anns, ps);
  }

  /** name=tom alone gives "tom"; an entry after it takes its place. */
  lemma V1QueryBinding()
    ensures V1Dispatch.Arguments(QUERY, AppRequest("/tianhy/query", [("name", ["tom"])]))
            == [RequestObj, ResponseObj, Text("tom")]
    ensures V1Dispatch.Arguments(QUERY, AppRequest("/tianhy/query", [("name", ["tom"]), ("page", ["2"])]))
            == [RequestObj, ResponseObj, Text("2")]
  {
    var one, two := [("name", ["tom"])], [("name", ["tom"]), ("page", ["2"])];
    assert one[0].0 == "name" && two[0].0 == "name";
    V1QueryArguments(one);
    V1QueryArguments(two);
    BoundTextSpec(["tom"]);
    BoundTextSpec(["2"]);
  }

  /** The first dispatcher passes null for add's Integer parameters. */
  lemma V1AddBinding()
    ensures V1Dispatch.Arguments(ADD, AppRequest("/tianhy/add", [("a", ["1"]), ("b", ["2"])]))
            == [RequestObj, ResponseObj, Null, Null]
  {
  }

  /** /sub's Double parameters accept "1.5". */
  lemma SubAcceptsDecimal()
    ensures Convert(DOUBLE_TYPE, "1.5") == Ok(Float64("1.5"))
  {
    var u := "1.5";
    TrimUntouched(u);
    assert DigitRun(u, 3) == 3 && DigitRun(u, 2) == 3;
    assert DigitRun(u, 1) == 1 && DigitRun(u, 0) == 1;
    assert u[3..] == [];
    assert DecimalFloat(u);
  }

  /** A decimal comma is not Double syntax, so /sub with a=1,5 throws. */
  lemma SubRejectsComma()
    ensures Convert(DOUBLE_TYPE, "1,5") == Err(NumberFormat)
  {
    var u := "1,5";
    TrimUntouched(u);
    assert DigitRun(u, 1) == 1 && DigitRun(u, 0) == 1;
    assert u[1..] == ",5";
    assert !DecimalFloat(u);
    assert !HexFloat(u);
  }
}
