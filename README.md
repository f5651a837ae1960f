# A mini MVC dispatcher, modelled in Dafny

The modelled system is a small web framework written in Java: a servlet,
`DispatcherServlet`, that plays the part of a Spring-style container and
request dispatcher. At start-up, `init` loads its properties file,
scans the configured package for class names, and then runs three steps
that the model covers:

- it instantiates the classes marked `@MyController` and `@MyService` into a
  registry (`doInstance`);
- it injects `@MyAutowired` fields (`doAutowired`);
- it builds a table from URL to handler method out of `@MyRequestMapping`
  (`initHandlerMapping`).

Requests are answered afterwards, by `doPost`, which calls `doDispatch`
(`diDispatch` in version 1). They are handled in three stages:

- the request path is normalised;
- the handler is looked up;
- request parameters are bound to the method's arguments and the method is
  invoked.

The reply is "404 Not Found!" when no route matches. When an exception
escapes, the reply is "500, ErrInfo :" followed by the stack trace.

The repository has two versions of the servlet, and both are modelled:

- **servletversion2**, the main one. It keeps a list of `Handler` objects,
  each with its compiled pattern, its controller, its method, the parameter
  types and a table from parameter name to argument index. Request values
  are converted to `Integer` and `Double`.
- **servletversion1**, the first version. It keeps a map from URL to method
  and fills only `String` parameters, and it has several quirks:
  - its services are registered under the annotation value even when that
    value is blank;
  - interface names map to the `Class` object, not to the instance;
  - fields are scanned on the registry *key's* class (`String`), so nothing is
    ever injected;
  - a `String` parameter receives the text of the *last* request entry.

  The model states these quirks as the code has them.

## Structure

- `outcomes.dfy` (`Outcomes`): `Option` (Java `null`), `Result`, and the
  Java exceptions the code paths can raise.
- `java_text.dfy` (`JavaText`): the Java string operations the servlets rely
  on. These are:
  - `String.trim` and `StringUtils.isBlank`;
  - `replaceAll("/+", "/")`, and `replaceAll(contextPath, "")` with the
    context path taken as a literal;
  - `Arrays.toString` with the brackets removed;
  - `toLowerFirstCase`, which is char arithmetic modulo 2^16;
  - `Integer.valueOf`, with the 32-bit range;
  - the grammar `Double.valueOf` accepts.
- `runtime.dfy` (`Runtime`): descriptors that stand in for reflection, and
  the registry values. It also holds:
  - a HashMap iteration order, as an enumeration of the keys;
  - the request, the invocation, the call outcome and the reply;
  - path normalisation and route construction.
- `registry.dfy` (`Registry`): the `doInstance` loop that both versions share.
  One `try` surrounds the loop, so the first exception stops it and keeps the
  partial registry. The module also holds the interface-alias loop.
- `v2_registry.dfy` and `v1_registry.dfy`: one `doInstance` iteration of each
  version.
- `autowire.dfy` (`Autowire`): the `doAutowired` loop, parameterised by which
  fields are scanned. `v1_autowire.dfy` proves that version 1 injects nothing.
- `v2_handlers.dfy` (`V2Handlers`): `putParamIndexMapping`, the `Handler`
  constructor and the handler list `initHandlerMapping` builds.
- `v2_dispatch.dfy` (`V2Dispatch`): `getHandler`, `convert`, argument
  binding, `doDispatch` and `doPost`.
- `v1_routes.dfy` and `v1_dispatch.dfy`: the URL map of version 1 and its
  `diDispatch`.
- `servlet_v2.dfy` and `servlet_v1.dfy`: each `DispatcherServlet` as a class.
  - Its fields are the registry, a count of created objects, the injected
    field values and the handler table.
  - Its methods have the source's loops.
  - Each method is proved equal to the functions of the modules above.
- `test_controller.dfy` (`TestControllerFixture`): the demo `TestController`
  as descriptors. It gives worked facts about both dispatchers:
  - the routes and the handler table;
  - `a=1&b=2` binding to `add` as the integers 1 and 2;
  - `a=foo` giving the error reply;
  - an unknown path giving the 404 text;
  - what version 1 passes for the same requests.

The method a handler invokes is a parameter, `call: Invocation -> CallResult`,
and so is the stack-trace text `trace`. The model records the `Invocation`
the dispatcher makes: the target, the method and the argument array.

On these points the model follows the code as written:

- The context path is removed with `replaceAll`. Every occurrence is
  removed, not only a leading prefix (`JavaText.RemoveAll`).
- An exception in `doInstance` (for example a taken interface alias) is
  caught inside `doInstance`. Start-up then goes on with the partial
  registry rather than aborting.
- The alias check refuses a name that is already a key, whoever put it there.
- A parameter-name table can map two names to one index. A later
  `@MyRequestParam` or request/response parameter overwrites an earlier one,
  and request entries are bound in the map's iteration order.

## Model

| member | source | states |
|---|---|---|
| JavaText.Trim | src/main/java/com/tianhy/mvcframework/servletversion2/DispatcherServlet.java:214 | Definition of `String.trim`: drop the leading and trailing characters `<= ' '`. Its meaning is stated by `TrimSpec`. |
| JavaText.IsBlank | src/main/java/com/tianhy/mvcframework/servletversion2/DispatcherServlet.java:216 | Definition of `StringUtils.isBlank` on a non-null string: empty, or only characters Java 8's `Character.isWhitespace` accepts (Unicode 6.2, so U+180E included). |
| JavaText.CollapseSlashes | src/main/java/com/tianhy/mvcframework/servletversion2/DispatcherServlet.java:144 | Definition of `replaceAll("/+", "/")`: every run of slashes becomes one. Its properties are the `Collapse…` lemmas below. |
| JavaText.RemoveAll | src/main/java/com/tianhy/mvcframework/servletversion2/DispatcherServlet.java:144 | Definition of `replaceAll(contextPath, "")` with a literal pattern: every non-overlapping occurrence, scanned left to right, is removed, and an empty pattern removes nothing. `RemoveAllAbsent` and `RemoveContextPrefix` state its meaning. |
| JavaText.BoundText | src/main/java/com/tianhy/mvcframework/servletversion2/DispatcherServlet.java:102 | Definition of the bound text: `Arrays.toString` of the values, then every `[` and `]` removed. Its meaning is stated by `BoundTextSpec`. |
| JavaText.LowerFirst | src/main/java/com/tianhy/mvcframework/servletversion2/DispatcherServlet.java:286-293 | Definition of `toLowerFirstCase`. The method `ToLowerFirstCase` states its meaning. |
| JavaText.DoubleSyntax | src/main/java/com/tianhy/mvcframework/servletversion2/DispatcherServlet.java:356-357 | Definition of the texts `Double.valueOf` accepts. After trimming and an optional sign comes `NaN`, `Infinity`, or a decimal or hexadecimal floating-point literal. The literal has an optional fraction and an exponent, which is required for hexadecimal, and an optional `f`/`F`/`d`/`D` suffix. `IntegerTextIsDouble` relates it to `Integer.valueOf`. |
| JavaText.TrimSpec | src/main/java/com/tianhy/mvcframework/servletversion2/DispatcherServlet.java:214 | `trim` returns the contiguous middle of the string. Every character removed before or after it is `<= ' '`, and the result starts and ends with a character above `' '`. |
| JavaText.CollapseHasNoDoubleSlash | src/main/java/com/tianhy/mvcframework/servletversion2/DispatcherServlet.java:144 | After `replaceAll("/+", "/")` no two slashes are adjacent. |
| JavaText.CollapseFixedPoints | src/main/java/com/tianhy/mvcframework/servletversion2/DispatcherServlet.java:188-189 | Collapsing leaves a string unchanged exactly when it has no `//`. |
| JavaText.CollapseIdempotent | src/main/java/com/tianhy/mvcframework/servletversion2/DispatcherServlet.java:144 | Collapsing twice is collapsing once. |
| JavaText.CollapseKeepsOtherCharacters | src/main/java/com/tianhy/mvcframework/servletversion2/DispatcherServlet.java:144 | Collapsing keeps every character other than `/`, in order. |
| JavaText.CollapseAppend | src/main/java/com/tianhy/mvcframework/servletversion2/DispatcherServlet.java:188-189 | A prefix without `//` and not ending in `/` passes through collapsing unchanged. |
| JavaText.CollapseExample | src/main/java/com/tianhy/mvcframework/servletversion2/DispatcherServlet.java:188-189 | `/a//b///c` collapses to `/a/b/c`. |
| JavaText.RemoveAllAbsent | src/main/java/com/tianhy/mvcframework/servletversion2/DispatcherServlet.java:144 | A URI in which the context path does not occur is left as it is. |
| JavaText.RemoveContextPrefix | src/main/java/com/tianhy/mvcframework/servletversion2/DispatcherServlet.java:144 | Removing the context path from `contextPath + rest` gives `rest` when the context path does not occur in `rest`. |
| JavaText.BoundTextSpec | src/main/java/com/tianhy/mvcframework/servletversion2/DispatcherServlet.java:102 | A request value is its strings joined with `", "` with every `[` and `]` removed. A single bracket-free value is passed as it is. |
| JavaText.StripBracketsAppend | src/main/java/com/tianhy/mvcframework/servletversion2/DispatcherServlet.java:102 | Removing brackets distributes over concatenation. |
| JavaText.ToLowerFirstCase | src/main/java/com/tianhy/mvcframework/servletversion2/DispatcherServlet.java:286-293 | Fails with an index exception exactly on the empty name. Otherwise the result has the same length and tail, and its first char is the original plus 32 modulo 2^16. |
| JavaText.LowerFirstOnAsciiLetters | src/main/java/com/tianhy/mvcframework/servletversion2/DispatcherServlet.java:286-293 | An ASCII capital becomes its lower-case letter. An ASCII lower-case letter becomes a char in 0x81..0x9A. |
| JavaText.ParseInt | src/main/java/com/tianhy/mvcframework/servletversion2/DispatcherServlet.java:354-355 | `Integer.valueOf`: a value in the 32-bit range, or `NumberFormatException`. |
| JavaText.IntRoundTrip | src/main/java/com/tianhy/mvcframework/servletversion2/DispatcherServlet.java:354-355 | Parsing the decimal text of any 32-bit integer gives it back. |
| JavaText.IntegerTextIsDouble | src/main/java/com/tianhy/mvcframework/servletversion2/DispatcherServlet.java:354-357 | Every text `Integer.valueOf` accepts, `Double.valueOf` accepts too. |
| Runtime.Enumerate | src/main/java/com/tianhy/mvcframework/servletversion2/DispatcherServlet.java:164 | Iterating the registry visits every key exactly once. |
| Runtime.EnumerationSize | src/main/java/com/tianhy/mvcframework/servletversion2/DispatcherServlet.java:161-164 | An iteration order has as many entries as the map has keys, so an empty registry has an empty iteration. |
| Runtime.Respond | src/main/java/com/tianhy/mvcframework/servletversion2/DispatcherServlet.java:57-64 | An exception is answered with a body starting with `500, ErrInfo :`, and any call already made is kept. A normal dispatch is unchanged. |
| Runtime.NormalizePath | src/main/java/com/tianhy/mvcframework/servletversion2/DispatcherServlet.java:141-144 | The normalised request path has no `//`. |
| Runtime.RoutePattern | src/main/java/com/tianhy/mvcframework/servletversion2/DispatcherServlet.java:188-189 | A route is non-empty, begins with `/` and has no `//`. |
| Runtime.RouteOfSegments | src/main/java/com/tianhy/mvcframework/servletversion2/DispatcherServlet.java:188-189 | Base `/b` with value `/v` gives the route `/b/v` for slash-free segments. |
| Registry.AddAliases | src/main/java/com/tianhy/mvcframework/servletversion2/DispatcherServlet.java:268-274 | Definition of the interface loop: put each name, or throw at the first name already a key. Its meaning is stated by `AddAliasesSucceeds` and `AddAliasesThrows`. |
| Registry.Run | src/main/java/com/tianhy/mvcframework/servletversion2/DispatcherServlet.java:237-283 | Definition of the `doInstance` loop inside one `try`: the first exception ends it. Its properties are the `Run…` lemmas below. |
| Registry.AddAliasesSucceeds | src/main/java/com/tianhy/mvcframework/servletversion2/DispatcherServlet.java:268-274 | The interface loop completes iff no interface name is already a key and none is listed twice. It then puts exactly those names, changing nothing else. |
| Registry.AddAliasesThrows | src/main/java/com/tianhy/mvcframework/servletversion2/DispatcherServlet.java:268-274 | When it throws, it throws at some name already present; exactly the names before it have been put. |
| Registry.AddAliasesKeepsKeys | src/main/java/com/tianhy/mvcframework/servletversion2/DispatcherServlet.java:268-274 | The interface loop never removes a key, whether it completes or throws. |
| Registry.RunStopsAtAbort | src/main/java/com/tianhy/mvcframework/servletversion2/DispatcherServlet.java:237-283 | After an exception the later classes are never looked at, and the registry stays as the failing class left it. |
| Registry.RunIgnoresUnmarked | src/main/java/com/tianhy/mvcframework/servletversion2/DispatcherServlet.java:275-277 | Classes with neither annotation play no part in the outcome. |
| Registry.RunKeepsKeys | src/main/java/com/tianhy/mvcframework/servletversion2/DispatcherServlet.java:237-283 | No registry key is ever removed. |
| Registry.RunPreserves | src/main/java/com/tianhy/mvcframework/servletversion2/DispatcherServlet.java:237-283 | A property every iteration keeps holds of the final registry, whether or not an exception ended the loop. |
| V2Registry.InstanceStep | src/main/java/com/tianhy/mvcframework/servletversion2/DispatcherServlet.java:239-277 | Definition of one `doInstance` iteration of version 2. Its meaning is stated by `ControllerEntry`, `ServiceEntry` and `InstanceStepShape`. |
| V2Registry.DoInstance | src/main/java/com/tianhy/mvcframework/servletversion2/DispatcherServlet.java:233-284 | Definition of version 2's `doInstance`: `Run` of `InstanceStep` from the state it starts in. `RegistryHoldsInstances` states what it leaves. |
| V2Registry.ServiceName | src/main/java/com/tianhy/mvcframework/servletversion2/DispatcherServlet.java:259-263 | A non-blank annotation value is the name as written, untrimmed, and it stays non-blank. A blank one gives the simple name with its first char shifted by 32 modulo 2^16, the same length and tail. Naming fails, with an index exception, exactly when the value is blank and the simple name is empty. |
| V2Registry.CreationFailureAborts | src/main/java/com/tianhy/mvcframework/servletversion2/DispatcherServlet.java:247-264 | A controller or service that `newInstance` cannot create ends the loop with the state unchanged. So does a service whose naming fails, because it is named before it is created. A controller with an empty simple name ends the loop after its creation was counted, with the registry unchanged. |
| V2Registry.ControllerEntry | src/main/java/com/tianhy/mvcframework/servletversion2/DispatcherServlet.java:247-253 | A controller is put as a new instance under its lowered simple name. Its annotation value plays no part. |
| V2Registry.ServiceEntry | src/main/java/com/tianhy/mvcframework/servletversion2/DispatcherServlet.java:256-274 | A service is put under its name, then under each interface name. This succeeds iff the names are unclaimed; otherwise it throws at the first claimed one. |
| V2Registry.AbortKeepsPrimary | src/main/java/com/tianhy/mvcframework/servletversion2/DispatcherServlet.java:264-271 | A taken interface name leaves the service's own entry in the registry. |
| V2Registry.InstanceStepShape | src/main/java/com/tianhy/mvcframework/servletversion2/DispatcherServlet.java:247-277 | An unmarked class changes nothing, and no iteration removes a key. |
| V2Registry.AliasesPutOnly | src/main/java/com/tianhy/mvcframework/servletversion2/DispatcherServlet.java:268-274 | The alias loop only adds entries whose value is the service instance. |
| V2Registry.RegistryHoldsInstances | src/main/java/com/tianhy/mvcframework/servletversion2/DispatcherServlet.java:233-284 | Every registry value is an instance of a marked class, created earlier. |
| V1Registry.InstanceStep | src/main/java/com/tianhy/mvcframework/servletversion1/DispatcherServlet.java:219-256 | Definition of one `doInstance` iteration of version 1. Its meaning is stated by `ServiceEntry`, `AliasIsClassObject` and `InstanceStepShape`. |
| V1Registry.DoInstance | src/main/java/com/tianhy/mvcframework/servletversion1/DispatcherServlet.java:213-261 | Definition of version 1's `doInstance`: `Run` of its `InstanceStep` from the state it starts in. |
| V1Registry.CreationFailureAborts | src/main/java/com/tianhy/mvcframework/servletversion1/DispatcherServlet.java:227-244 | A marked class that `newInstance` cannot create ends the loop with the state unchanged. A controller with an empty simple name ends it after its creation was counted, with the registry unchanged. |
| V1Registry.ServiceEntry | src/main/java/com/tianhy/mvcframework/servletversion1/DispatcherServlet.java:236-253 | As in version 2, with two differences. The service is keyed by its raw annotation value, blank included, with no simple-name fallback. The interface names receive the `Class` object. |
| V1Registry.BlankServiceKeptBlank | src/main/java/com/tianhy/mvcframework/servletversion1/DispatcherServlet.java:240-245 | A service whose value is blank after trimming (empty, spaces, tabs) is registered under that value itself, whether or not its interface aliases succeed afterwards. The fallback re-reads the same value. |
| V1Registry.AliasIsClassObject | src/main/java/com/tianhy/mvcframework/servletversion1/DispatcherServlet.java:247-253 | Every interface key holds the `Class` object, never an instance. |
| V1Registry.InstanceStepShape | src/main/java/com/tianhy/mvcframework/servletversion1/DispatcherServlet.java:227-256 | An unmarked class changes nothing, and no iteration removes a key. |
| Autowire.BeanName | src/main/java/com/tianhy/mvcframework/servletversion2/DispatcherServlet.java:213-218 | Definition of the bean name of an `@MyAutowired` field: the trimmed value, or the field's type name when that is blank. |
| Autowire.WireFields | src/main/java/com/tianhy/mvcframework/servletversion2/DispatcherServlet.java:207-227 | Definition of the field loop of one registry value. An unannotated field is skipped. A static final field is skipped too, since its `IllegalAccessException` is caught. A value the field cannot hold ends the loop with `IllegalArgumentException`. Its meaning is stated by `WireFieldsOk` and `WireObject`. |
| Autowire.WireAll | src/main/java/com/tianhy/mvcframework/servletversion2/DispatcherServlet.java:205-228 | Definition of `doAutowired` over an iteration order. Its meaning is stated by `WireAllOk`, `WireAllWrites` and `InjectedValue`. |
| Autowire.WireObject | src/main/java/com/tianhy/mvcframework/servletversion2/DispatcherServlet.java:207-227 | The field loop of one registry value equals `WireFields`, on success and on failure. |
| Autowire.WireFieldsOk | src/main/java/com/tianhy/mvcframework/servletversion2/DispatcherServlet.java:208-227 | The field loop completes iff every annotated field that is not static final can hold the value looked up for it. |
| Autowire.WireAllOk | src/main/java/com/tianhy/mvcframework/servletversion2/DispatcherServlet.java:205-228 | `doAutowired` completes iff all registry values have only injectable fields. |
| Autowire.WireAllWrites | src/main/java/com/tianhy/mvcframework/servletversion2/DispatcherServlet.java:205-228 | Every write is the lookup of that field's bean name, and nothing written is removed. Every write is to a field that is not static final. On success every annotated field of every value that is not static final has been written. |
| Autowire.InjectedValue | src/main/java/com/tianhy/mvcframework/servletversion2/DispatcherServlet.java:213-222 | After `doAutowired`, an annotated field that is not static final holds `ioc.get(name)`. The name is the trimmed annotation value, or the field's type name when that is blank. |
| Autowire.StaticFinalLeftAlone | src/main/java/com/tianhy/mvcframework/servletversion2/DispatcherServlet.java:219-226 | An annotated static final field is never written, whether or not `doAutowired` completes: `Field.set` throws `IllegalAccessException`, which is caught. |
| Autowire.MissingBeanIsNull | src/main/java/com/tianhy/mvcframework/servletversion2/DispatcherServlet.java:216-222 | A reference-typed field whose name is not registered receives `null` without an exception. |
| V1Autowire.NothingInjected | src/main/java/com/tianhy/mvcframework/servletversion1/DispatcherServlet.java:187-207 | Scanning the key's class (`String`) finds no annotated field, so version 1 writes nothing and completes. |
| V1Autowire.UnannotatedLeavesWiring | src/main/java/com/tianhy/mvcframework/servletversion1/DispatcherServlet.java:190-193 | Fields without `@MyAutowired` are skipped. |
| V2Handlers.AnnotationPass | src/main/java/com/tianhy/mvcframework/servletversion2/DispatcherServlet.java:397-410 | Definition of the first pass of `putParamIndexMapping`. Its meaning is stated by `AnnotationPassAt`. |
| V2Handlers.ContextPass | src/main/java/com/tianhy/mvcframework/servletversion2/DispatcherServlet.java:417-426 | Definition of the second pass. Its meaning is stated by `ContextPassAt`. |
| V2Handlers.ParamIndexMapping | src/main/java/com/tianhy/mvcframework/servletversion2/DispatcherServlet.java:391-427 | Definition of `putParamIndexMapping` as the two passes. Its meaning is stated by `ParamIndexMappingAt` and `MappingInBounds`. |
| V2Handlers.ParamIndexMappingAt | src/main/java/com/tianhy/mvcframework/servletversion2/DispatcherServlet.java:391-427 | The request and response class names map to the last parameter of that type. A non-blank `@MyRequestParam` value maps to the last parameter carrying it. No other key is present. |
| V2Handlers.AnnotationPassAt | src/main/java/com/tianhy/mvcframework/servletversion2/DispatcherServlet.java:397-410 | The annotation pass records each non-blank name at the last parameter naming it. |
| V2Handlers.ContextPassAt | src/main/java/com/tianhy/mvcframework/servletversion2/DispatcherServlet.java:417-426 | The type pass overrides only the request and response keys, with their last positions. |
| V2Handlers.MappingInBounds | src/main/java/com/tianhy/mvcframework/servletversion2/DispatcherServlet.java:391-427 | Every index in the table is a parameter position. |
| V2Handlers.PutParamIndexMapping | src/main/java/com/tianhy/mvcframework/servletversion2/DispatcherServlet.java:391-427 | The two loops build exactly `ParamIndexMapping`, and every index is in bounds. |
| V2Handlers.NewHandler | src/main/java/com/tianhy/mvcframework/servletversion2/DispatcherServlet.java:379-386 | A new handler keeps its pattern, controller and method, and records the method's parameter types and table. |
| V2Handlers.MethodHandlers | src/main/java/com/tianhy/mvcframework/servletversion2/DispatcherServlet.java:179-193 | Definition of the method loop of `initHandlerMapping`. Its meaning is stated by `MethodHandlersSpec`. |
| V2Handlers.HandlersFor | src/main/java/com/tianhy/mvcframework/servletversion2/DispatcherServlet.java:164-194 | Definition of `initHandlerMapping` over an iteration order. Its meaning is stated by `HandlersSound`, `HandlersComplete` and `HandlersForContains`. |
| V2Handlers.MethodHandlersSpec | src/main/java/com/tianhy/mvcframework/servletversion2/DispatcherServlet.java:179-193 | There is one handler per mapped method, with none dropped as a duplicate. Each comes from a mapped method with its collapsed route, and every mapped method has one. |
| V2Handlers.HandlersSound | src/main/java/com/tianhy/mvcframework/servletversion2/DispatcherServlet.java:164-194 | Every handler belongs to a controller value of the registry and to one of its mapped methods. |
| V2Handlers.HandlersComplete | src/main/java/com/tianhy/mvcframework/servletversion2/DispatcherServlet.java:164-194 | Every mapped method of every controller value has a handler. |
| V2Handlers.HandlersForContains | src/main/java/com/tianhy/mvcframework/servletversion2/DispatcherServlet.java:164-194 | The handlers of each registry value all appear in the full list. |
| V2Dispatch.FirstMatch | src/main/java/com/tianhy/mvcframework/servletversion2/DispatcherServlet.java:146-153 | The first handler whose pattern is the path: none before it matches, and `None` iff none matches at all. |
| V2Dispatch.GetHandler | src/main/java/com/tianhy/mvcframework/servletversion2/DispatcherServlet.java:137-154 | A handler is found iff some pattern equals the normalised path, and then it is the first such handler. |
| V2Dispatch.Convert | src/main/java/com/tianhy/mvcframework/servletversion2/DispatcherServlet.java:350-361 | Only the `Integer` and `Double` types can fail, and then with `NumberFormatException`. Every other type receives the text itself. |
| V2Dispatch.ConvertIntegerRoundTrip | src/main/java/com/tianhy/mvcframework/servletversion2/DispatcherServlet.java:354-355 | An `Integer` parameter receives the number its decimal text denotes. |
| V2Dispatch.ConvertIntegerRejects | src/main/java/com/tianhy/mvcframework/servletversion2/DispatcherServlet.java:354-355 | A text `Integer.valueOf` refuses makes `convert` throw. |
| V2Dispatch.BindFrom | src/main/java/com/tianhy/mvcframework/servletversion2/DispatcherServlet.java:99-111 | Definition of the request-entry loop of `doDispatch`. Its meaning is stated by `BindFromFails` and `BindFromSlot`. |
| V2Dispatch.Bind | src/main/java/com/tianhy/mvcframework/servletversion2/DispatcherServlet.java:91-119 | Definition of the argument array. Its meaning is stated by `BindSpec`. |
| V2Dispatch.BindFromFails | src/main/java/com/tianhy/mvcframework/servletversion2/DispatcherServlet.java:99-111 | The entry loop throws iff some entry names a parameter whose type cannot convert its value, and the exception is `NumberFormatException`. |
| V2Dispatch.BindFromSlot | src/main/java/com/tianhy/mvcframework/servletversion2/DispatcherServlet.java:99-111 | A slot holds the converted value of the last entry mapped to it, or its initial value when no entry is. |
| V2Dispatch.BindSpec | src/main/java/com/tianhy/mvcframework/servletversion2/DispatcherServlet.java:91-119 | The argument array fails exactly on an unconvertible entry. Otherwise slot j holds, in order of precedence: the response, the request, the last converted entry mapped to j, or null. |
| V2Dispatch.Dispatch | src/main/java/com/tianhy/mvcframework/servletversion2/DispatcherServlet.java:82-127 | Definition of `doDispatch`. Its meaning is stated by `NotFoundIff`, `InvokesFirstMatch`, `ReturnValueWritten` and `BadNumberIs500`. |
| V2Dispatch.Post | src/main/java/com/tianhy/mvcframework/servletversion2/DispatcherServlet.java:57-64 | Definition of `doPost`: `Respond` applied to `Dispatch`. |
| V2Dispatch.NotFoundIff | src/main/java/com/tianhy/mvcframework/servletversion2/DispatcherServlet.java:84-88 | The reply is the 404 text with no call iff no pattern equals the request path. |
| V2Dispatch.InvokesFirstMatch | src/main/java/com/tianhy/mvcframework/servletversion2/DispatcherServlet.java:84-121 | Any call made is the first matching handler's method on its controller with the bound arguments. |
| V2Dispatch.ReturnValueWritten | src/main/java/com/tianhy/mvcframework/servletversion2/DispatcherServlet.java:121-125 | After the call: null writes nothing, an object writes its `toString()`, and an exception writes the 500 text. |
| V2Dispatch.BadNumberIs500 | src/main/java/com/tianhy/mvcframework/servletversion2/DispatcherServlet.java:110 | A routed request with an unconvertible value gets the 500 text, and no call is made. |
| V2Dispatch.CallsWithBoundArguments | src/main/java/com/tianhy/mvcframework/servletversion2/DispatcherServlet.java:121 | The matching handler's method is invoked with exactly the bound arguments. |
| ServletV2.DispatcherServlet.constructor | src/main/java/com/tianhy/mvcframework/servletversion2/DispatcherServlet.java:25-48 | A new servlet has an empty registry and an empty handler list. |
| ServletV2.DispatcherServlet.DoInstance | src/main/java/com/tianhy/mvcframework/servletversion2/DispatcherServlet.java:233-284 | The loop over the scanned classes leaves the registry and creation count of `V2Registry.DoInstance`. |
| ServletV2.DispatcherServlet.InstanceClass | src/main/java/com/tianhy/mvcframework/servletversion2/DispatcherServlet.java:239-277 | One iteration changes the state as `InstanceStep` does and reports whether it threw. |
| ServletV2.DispatcherServlet.PutAliases | src/main/java/com/tianhy/mvcframework/servletversion2/DispatcherServlet.java:268-274 | The interface loop leaves the registry and outcome of `AddAliases`. |
| ServletV2.DispatcherServlet.DoAutowired | src/main/java/com/tianhy/mvcframework/servletversion2/DispatcherServlet.java:200-229 | The field values written and the outcome are those of `WireAll` over the values' own classes. |
| ServletV2.DispatcherServlet.InitHandlerMapping | src/main/java/com/tianhy/mvcframework/servletversion2/DispatcherServlet.java:160-195 | It appends `HandlersFor` in iteration order and keeps every handler well formed. |
| ServletV2.DispatcherServlet.AddBeanHandlers | src/main/java/com/tianhy/mvcframework/servletversion2/DispatcherServlet.java:165-193 | One registry value's iteration appends its `BeanHandlers`. |
| ServletV2.DispatcherServlet.Init | src/main/java/com/tianhy/mvcframework/servletversion2/DispatcherServlet.java:67-79 | `doInstance`, then `doAutowired`, then `initHandlerMapping` in one iteration order; an exception from `doAutowired` leaves no handlers. |
| ServletV2.DispatcherServlet.DoDispatch | src/main/java/com/tianhy/mvcframework/servletversion2/DispatcherServlet.java:82-127 | The result equals `V2Dispatch.Dispatch` on the servlet's handler list. |
| ServletV2.DispatcherServlet.BindArguments | src/main/java/com/tianhy/mvcframework/servletversion2/DispatcherServlet.java:91-119 | The array loop over the entries, followed by placing the request and response, gives `Bind`. |
| ServletV2.DispatcherServlet.DoPost | src/main/java/com/tianhy/mvcframework/servletversion2/DispatcherServlet.java:57-64 | The reply equals `V2Dispatch.Post`. |
| V1Routes.MethodRoutes | src/main/java/com/tianhy/mvcframework/servletversion1/DispatcherServlet.java:165-175 | Definition of the method loop of version 1's `initHandlerMapping`. Its meaning is stated by `MethodRoutesKeys` and `MethodRoutesLast`. |
| V1Routes.RoutesFor | src/main/java/com/tianhy/mvcframework/servletversion1/DispatcherServlet.java:147-177 | Definition of version 1's `initHandlerMapping` over an iteration order. Its meaning is stated by `RoutesForKeys` and `RoutesForLast`. |
| V1Routes.MethodRoutesKeys | src/main/java/com/tianhy/mvcframework/servletversion1/DispatcherServlet.java:165-175 | A URL is in the map iff it was there before or some mapped method routes to it, and unrouted old entries are kept. |
| V1Routes.MethodRoutesLast | src/main/java/com/tianhy/mvcframework/servletversion1/DispatcherServlet.java:172-173 | Of several methods with one URL, the last in `getMethods()` order wins. |
| V1Routes.RoutesForKeys | src/main/java/com/tianhy/mvcframework/servletversion1/DispatcherServlet.java:147-177 | A URL is mapped iff some controller value of the registry defines it. |
| V1Routes.RoutesForLast | src/main/java/com/tianhy/mvcframework/servletversion1/DispatcherServlet.java:151-176 | Of several controllers defining one URL, the last in iteration order wins. |
| V1Dispatch.Argument | src/main/java/com/tianhy/mvcframework/servletversion1/DispatcherServlet.java:83-119 | Definition of one iteration of the parameter loop of `diDispatch`. Its meaning is stated by `RequestedSpec`, `NamedEntryIgnored`, `OtherTypesNull` and `UnrequestedStringNull`. |
| V1Dispatch.Dispatch | src/main/java/com/tianhy/mvcframework/servletversion1/DispatcherServlet.java:61-126 | Definition of `diDispatch`. Its meaning is stated by `NotFoundIff`, `InvokesRoutedMethod` and `EmptyClassNameIs500`. |
| V1Dispatch.Post | src/main/java/com/tianhy/mvcframework/servletversion1/DispatcherServlet.java:51-58 | Definition of `doPost`: `Respond` applied to `Dispatch`. |
| V1Dispatch.Arguments | src/main/java/com/tianhy/mvcframework/servletversion1/DispatcherServlet.java:80-120 | There is one argument per parameter. |
| V1Dispatch.RequestedSpec | src/main/java/com/tianhy/mvcframework/servletversion1/DispatcherServlet.java:97-105 | A `String` parameter is filled iff one of its `@MyRequestParam` values is a request key. |
| V1Dispatch.NamedEntryIgnored | src/main/java/com/tianhy/mvcframework/servletversion1/DispatcherServlet.java:105-112 | Such a parameter receives the text of the last request entry, whichever entry carried its name. |
| V1Dispatch.OtherTypesNull | src/main/java/com/tianhy/mvcframework/servletversion1/DispatcherServlet.java:83-119 | Parameters that are not `String`, request or response receive null. |
| V1Dispatch.UnrequestedStringNull | src/main/java/com/tianhy/mvcframework/servletversion1/DispatcherServlet.java:95-116 | A `String` parameter none of whose names is requested receives null. |
| V1Dispatch.NotFoundIff | src/main/java/com/tianhy/mvcframework/servletversion1/DispatcherServlet.java:62-69 | The reply is the 404 text iff the normalised path is not a key of the URL map. |
| V1Dispatch.InvokesRoutedMethod | src/main/java/com/tianhy/mvcframework/servletversion1/DispatcherServlet.java:71-125 | A routed request invokes the mapped method on `ioc.get` of its class's lowered simple name, possibly null. Only an exception from the call writes anything. |
| V1Dispatch.EmptyClassNameIs500 | src/main/java/com/tianhy/mvcframework/servletversion1/DispatcherServlet.java:123 | An empty declaring-class name makes `toLowerFirstCase` throw, so the reply is the 500 text with no call. |
| ServletV1.DispatcherServlet.constructor | src/main/java/com/tianhy/mvcframework/servletversion1/DispatcherServlet.java:20-42 | A new servlet has an empty registry and an empty URL map. |
| ServletV1.DispatcherServlet.DoInstance | src/main/java/com/tianhy/mvcframework/servletversion1/DispatcherServlet.java:213-261 | The loop leaves the state of `V1Registry.DoInstance`. |
| ServletV1.DispatcherServlet.InstanceClass | src/main/java/com/tianhy/mvcframework/servletversion1/DispatcherServlet.java:219-256 | One iteration changes the state as version 1's `InstanceStep` does. |
| ServletV1.DispatcherServlet.PutAliases | src/main/java/com/tianhy/mvcframework/servletversion1/DispatcherServlet.java:247-253 | The interface loop leaves the registry and outcome of `AddAliases` with the `Class` object. |
| ServletV1.DispatcherServlet.DoAutowired | src/main/java/com/tianhy/mvcframework/servletversion1/DispatcherServlet.java:182-208 | The outcome is `WireAll` over the key's class, `String`. |
| ServletV1.DispatcherServlet.InitHandlerMapping | src/main/java/com/tianhy/mvcframework/servletversion1/DispatcherServlet.java:147-177 | The URL map becomes `RoutesFor` over the iteration order. |
| ServletV1.DispatcherServlet.PutBeanRoutes | src/main/java/com/tianhy/mvcframework/servletversion1/DispatcherServlet.java:152-176 | One registry value's iteration puts its routes. |
| ServletV1.DispatcherServlet.Init | src/main/java/com/tianhy/mvcframework/servletversion1/DispatcherServlet.java:130-142 | After start-up no field has been injected, and the URL map is `RoutesFor` of the registry `doInstance` built. |
| ServletV1.DispatcherServlet.StringArgument | src/main/java/com/tianhy/mvcframework/servletversion1/DispatcherServlet.java:95-119 | The nested annotation and entry loops give the last entry's text when a name is requested, and null otherwise. |
| ServletV1.DispatcherServlet.DiDispatch | src/main/java/com/tianhy/mvcframework/servletversion1/DispatcherServlet.java:61-126 | The result equals `V1Dispatch.Dispatch`. |
| ServletV1.DispatcherServlet.DoPost | src/main/java/com/tianhy/mvcframework/servletversion1/DispatcherServlet.java:51-58 | The reply equals `V1Dispatch.Post`. |
| TestControllerFixture.BeanNameIsTestController | src/main/java/com/tianhy/demo/controller/TestController.java:15-17 | The controller's bean name is `testController`. |
| TestControllerFixture.RegistryOfController | src/main/java/com/tianhy/demo/controller/TestController.java:15-17 | Scanning the controller alone registers one instance under `testController`. |
| TestControllerFixture.Routes | src/main/java/com/tianhy/demo/controller/TestController.java:16-44 | The three routes are `/tianhy/query`, `/tianhy/add` and `/tianhy/sub`. |
| TestControllerFixture.QueryMapping | src/main/java/com/tianhy/demo/controller/TestController.java:22-23 | `query` maps the request to 0, the response to 1 and `name` to 2. |
| TestControllerFixture.AddMapping | src/main/java/com/tianhy/demo/controller/TestController.java:34-36 | `add` maps the request to 0, the response to 1, `a` to 2 and `b` to 3. |
| TestControllerFixture.SubMapping | src/main/java/com/tianhy/demo/controller/TestController.java:44-46 | The `Double` overload has the same table. |
| TestControllerFixture.TableOfController | src/main/java/com/tianhy/demo/controller/TestController.java:15-52 | `initHandlerMapping` builds the three handlers in declaration order. |
| TestControllerFixture.AddIsRouted | src/main/java/com/tianhy/demo/controller/TestController.java:34 | `/app/tianhy/add` under context `/app` is routed to the second handler. |
| TestControllerFixture.AddBinding | src/main/java/com/tianhy/demo/controller/TestController.java:35-36 | `a=1&b=2` binds to request, response, 1 and 2. |
| TestControllerFixture.AddBindsIntegers | src/main/java/com/tianhy/demo/controller/TestController.java:34-36 | The request `/app/tianhy/add?a=1&b=2` invokes `add` on the controller with those arguments. |
| TestControllerFixture.FooUnconvertible | src/main/java/com/tianhy/demo/controller/TestController.java:36 | `foo` is not an Integer. |
| TestControllerFixture.NonNumericIs500 | src/main/java/com/tianhy/demo/controller/TestController.java:34-36 | `a=foo` is answered with the 500 text, and `add` is not invoked. |
| TestControllerFixture.UnknownIs404 | src/main/java/com/tianhy/demo/controller/TestController.java:15-52 | `/app/unknown` gets the 404 text. |
| TestControllerFixture.ServiceFieldNull | src/main/java/com/tianhy/demo/controller/TestController.java:19-20 | In a registry holding only the controller, the `service` field is looked up by its type name, which is not a key there, so it is set to null. |
| TestControllerFixture.V1Table | src/main/java/com/tianhy/demo/controller/TestController.java:15-52 | Version 1's URL map has the three routes and their methods. |
| TestControllerFixture.V1QueryArguments | src/main/java/com/tianhy/demo/controller/TestController.java:23 | With `name` requested, `query`'s `String` receives the last entry's text. |
| TestControllerFixture.V1QueryBinding | src/main/java/com/tianhy/demo/controller/TestController.java:22-23 | `name=tom` gives `tom`. A later `page=2` entry gives `2` instead. |
| TestControllerFixture.V1AddBinding | src/main/java/com/tianhy/demo/controller/TestController.java:35-36 | Version 1 passes null for `add`'s Integer parameters. |
| TestControllerFixture.SubAcceptsDecimal | src/main/java/com/tianhy/demo/controller/TestController.java:45-46 | `1.5` converts for the `Double` parameters. |
| TestControllerFixture.SubRejectsComma | src/main/java/com/tianhy/demo/controller/TestController.java:45-46 | `1,5` does not convert. |

## Left out

- **Configuration and scanning** (`doLoadProperties`, `doScannerClass`,
  `Class.forName`): these are file and class-loader I/O. The scanned classes
  are an input, a list of class descriptors.
- **Reflection**: it is replaced by descriptors.
  - `newInstance` success is a flag on the class.
  - `getMethods()` and `getDeclaredFields()` orders are the descriptor
    orders.
  - `getInterfaces()` lists direct interfaces only.
  - Assignability for `Field.set` considers the class itself, its direct
    interfaces and `Object`; superclasses are not modelled.
- **Field access**: a field descriptor says whether the field is static and
  final, the one case in which `Field.set` still throws
  `IllegalAccessException` after `setAccessible(true)`. The check order of
  Java 8's field accessors is assumed: the final check comes before the type
  check, so such a field is skipped whatever value is looked up. Other causes
  of `IllegalAccessException` are not modelled.
- **Regular expressions**: `Pattern.compile(url).matcher(path).matches()` is
  modelled as string equality. The context path in
  `replaceAll(contextPath, "")` is treated as a literal. Routes or context
  paths that contain regex metacharacters are not modelled.
- **Double as a value**: `Double.valueOf` is modelled by the grammar it
  accepts, and the argument records the text. The numeric value is not
  computed, because floating point is out of scope.
- **Invoking the method**: `Method.invoke` and what the handler does are the
  parameter `call`. `invoke`'s own argument checks are folded into `call`'s
  `Threw` outcome. The bodies of the `TestController` methods and
  `TestService` are not part of this model.
- **Output**: what the dispatcher itself writes (the 404 text, the
  handler result's `toString()`, the 500 prefix followed by the stack
  trace) is modelled as `Reply.body`, with the trace text given as the
  parameter `trace`. The writer as a stream, any writes a handler makes
  through `resp`, `printStackTrace` and the `System.out` logging are
  not modelled.
- **JavaText.ToLowerFirstCase**: only names whose first character is in the
  Basic Multilingual Plane, and not shifted into a surrogate, are modelled
  (the `SimpleName` type). Java's `char` is a UTF-16 unit, while Dafny's is a
  Unicode scalar value.
- **JavaText.ParseInt**: only ASCII digits are modelled. `Integer.valueOf`
  also accepts other Unicode decimal digits.
- **TestControllerFixture**: the inherited `Object` methods that
  `getMethods()` also lists are left out of the descriptor. They carry no
  mapping, so they add no handler and no route.
- **Concurrency**: requests are handled one at a time. The servlet
  container's threading is not modelled.
