/**
 * doInstance of the second dispatcher (servletversion2/DispatcherServlet.java):
 * what one scanned class contributes to the registry.
 */
module V2Registry {
  import opened Outcomes
  import opened JavaText
  import opened Runtime
  import opened Registry

  /** The bean name of a service: its annotation value, untrimmed, unless that
      is blank after trimming; then the simple name with its initial shifted. */
  function ServiceName(value: string, c: ClassDesc): (r: Result<string>)
    ensures r.Err? <==> IsBlank(Trim(value)) && c.simpleName == []
    ensures r.Err? ==> r.error == IndexOutOfBounds
    ensures r.Ok? && !IsBlank(Trim(value)) ==> r.value == value && !IsBlank(Trim(r.value))
    ensures r.Ok? && IsBlank(Trim(value)) ==>
              && |r.value| == |c.simpleName| && r.value[1..] == c.simpleName[1..]
              && r.value[0] as int == (c.simpleName[0] as int + 32) % 0x1_0000
  {
    if IsBlank(Trim(value)) then LowerFirst(c.simpleName) else Ok(value)
  }

  /** One iteration of the doInstance loop. A controller is created, then
      named; a service is named, then created, put under its name, and put
      under each interface name. A failed creation or naming, or an interface
      name already present, throws out of the loop. */
  function InstanceStep(s: State, c: ClassDesc): Step {
    match c.role
    case Unmarked => Continue(s)
    case Controller(_) =>
      if !c.instantiable then Abort(s)
      else
        var b := Instance(s.next, c);
        (match LowerFirst(c.simpleName)
         case Err(_) => Abort(State(s.ioc, s.next + 1))
         case Ok(name) => Continue(State(s.ioc[name := b], s.next + 1)))
    case Service(value) =>
      match ServiceName(value, c)
      case Err(_) => Abort(s)
      case Ok(name) =>
        if !c.instantiable then Abort(s)
        else
          var b := Instance(s.next, c);
          var (ioc', ok) := AddAliases(s.ioc[name := b], c.interfaces, b);
          if ok then Continue(State(ioc', s.next + 1)) else Abort(State(ioc', s.next + 1))
  }

  /** doInstance over the scanned classes, from the state it starts in. */
  function DoInstance(s: State, classes: seq<ClassDesc>): (State, bool) {
    Run(InstanceStep, s, classes)
  }

  /** The paths on which creating or naming fails. A class newInstance cannot
      create aborts with the state unchanged. A controller is created before it
      is named, so an empty simple name aborts after the creation was counted.
      A service is named first, so a naming failure aborts before anything. */
  lemma CreationFailureAborts(s: State, c: ClassDesc)
    ensures c.role.Controller? && !c.instantiable ==> InstanceStep(s, c) == Abort(s)
    ensures c.role.Controller? && c.instantiable && c.simpleName == [] ==>
              InstanceStep(s, c) == Abort(State(s.ioc, s.next + 1))
    ensures c.role.Service? && (ServiceName(c.role.value, c).Err? || !c.instantiable) ==>
              InstanceStep(s, c) == Abort(s)
  {
  }

  /** A controller that can be created is put under its shifted simple name,
      replacing whatever was there; every other key is kept. Its annotation
      value plays no part. */
  lemma ControllerEntry(s: State, c: ClassDesc, value: string)
    requires c.role == Controller(value) && c.instantiable && c.simpleName != []
    ensures var name := LowerFirst(c.simpleName).value;
            && InstanceStep(s, c).Continue?
            && InstanceStep(s, c).state.ioc == s.ioc[name := Instance(s.next, c)]
            && InstanceStep(s, c).state.next == s.next + 1
    ensures forall other :: InstanceStep(s, c.(role := Controller(other))).state.ioc.Keys == InstanceStep(s, c).state.ioc.Keys
  {
  }

  /** A service is stored under its annotation value when that is not blank,
      and under the shifted simple name when it is; then each interface name is
      an alias of the same instance, unless one is taken, which aborts after
      the primary entry and the earlier aliases were put. */
  lemma ServiceEntry(s: State, c: ClassDesc, value: string)
    requires c.role == Service(value) && c.instantiable
    requires !IsBlank(Trim(value)) || c.simpleName != []
    ensures var name := if IsBlank(Trim(value)) then LowerFirst(c.simpleName).value else value;
            var b := Instance(s.next, c);
            var primary := s.ioc[name := b];
            && InstanceStep(s, c).state.next == s.next + 1
            && (InstanceStep(s, c).Continue? <==> Unclaimed(primary, c.interfaces))
            && (InstanceStep(s, c).Continue? ==> InstanceStep(s, c).state.ioc == WithAliases(primary, c.interfaces, b))
    ensures InstanceStep(s, c).Abort? ==>
              exists d :: ThrowsAt(PrimaryEntry(s, c, value), c.interfaces, Instance(s.next, c), InstanceStep(s, c).state.ioc, d)
  {
    var b := Instance(s.next, c);
    var primary := PrimaryEntry(s, c, value);
    AddAliasesSucceeds(primary, c.interfaces, b);
    assert InstanceStep(s, c).state.ioc == AddAliases(primary, c.interfaces, b).0;
    if !AddAliases(primary, c.interfaces, b).1 {
      AddAliasesThrows(primary, c.interfaces, b);
    }
  }

  /** The registry right after a service's own put. */
  function PrimaryEntry(s: State, c: ClassDesc, value: string): map<string, Bean>
    requires !IsBlank(Trim(value)) || c.simpleName != []
  {
    var name := if IsBlank(Trim(value)) then LowerFirst(c.simpleName).value else value;
    s.ioc[name := Instance(s.next, c)]
  }

  /** When an interface name is already taken, the service's primary entry
      stays in the registry: the exception does not undo the puts before it. */
  lemma AbortKeepsPrimary(s: State, c: ClassDesc, value: string)
    requires c.role == Service(value) && c.instantiable
    requires ServiceName(value, c).Ok?
    requires InstanceStep(s, c).Abort?
    ensures var name := ServiceName(value, c).value;
            var ioc := InstanceStep(s, c).state.ioc;
            name in ioc && ioc[name] == Instance(s.next, c)
  {
    var name := ServiceName(value, c).value;
    var b := Instance(s.next, c);
    assert InstanceStep(s, c).state.ioc == AddAliases(s.ioc[name := b], c.interfaces, b).0;
    AddAliasesThrows(s.ioc[name := b], c.interfaces, b);
    var d :| ThrowsAt(s.ioc[name := b], c.interfaces, b, InstanceStep(s, c).state.ioc, d);
    assert name !in c.interfaces[..d];
  }

  /** Unmarked classes are skipped and no step removes a key. */
  lemma InstanceStepShape()
    ensures SkipsUnmarked(InstanceStep)
    ensures KeepsKeys(InstanceStep)
  {
    forall s: State, c: ClassDesc ensures s.ioc.Keys <= InstanceStep(s, c).state.ioc.Keys {
      if c.role.Service? && ServiceName(c.role.value, c).Ok? && c.instantiable {
        var name, b := ServiceName(c.role.value, c).value, Instance(s.next, c);
        AddAliasesKeepsKeys(s.ioc[name := b], c.interfaces, b);
      }
    }
  }

  /** Every registry value is an instance of a marked class, created earlier. */
  ghost predicate HoldsCreatedInstances(s: State) {
    forall k :: k in s.ioc ==> s.ioc[k].Instance? && s.ioc[k].id < s.next && !s.ioc[k].cls.role.Unmarked?
  }

  lemma {:induction false} AliasesPutOnly(ioc: map<string, Bean>, names: seq<string>, b: Bean)
    ensures var r := AddAliases(ioc, names, b).0;
            forall k :: k in r ==> (k in ioc && r[k] == ioc[k]) || r[k] == b
    decreases names
  {
    if names != [] && names[0] !in ioc {
      AliasesPutOnly(ioc[names[0] := b], names[1..], b);
    }
  }

  /** doInstance, started on an empty registry, leaves only instances of
      controllers and services in it, all distinct from later ones. */
  lemma RegistryHoldsInstances(classes: seq<ClassDesc>)
    ensures HoldsCreatedInstances(DoInstance(State(map[], 0), classes).0)
  {
    forall s: State, c: ClassDesc | HoldsCreatedInstances(s)
      ensures HoldsCreatedInstances(InstanceStep(s, c).state)
    {
      StepHoldsInstances(s, c);
    }
    RunPreserves(InstanceStep, HoldsCreatedInstances, State(map[], 0), classes);
  }

  lemma StepHoldsInstances(s: State, c: ClassDesc)
    requires HoldsCreatedInstances(s)
    ensures HoldsCreatedInstances(InstanceStep(s, c).state)
  {
    if c.role.Service? && ServiceName(c.role.value, c).Ok? && c.instantiable {
      var name, b := ServiceName(c.role.value, c).value, Instance(s.next, c);
      AliasesPutOnly(s.ioc[name := b], c.interfaces, b);
      assert InstanceStep(s, c).state == State(AddAliases(s.ioc[name := b], c.interfaces, b).0, s.next + 1);
    }
  }
}
