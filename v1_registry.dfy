/**
 * doInstance of the first dispatcher (servletversion1/DispatcherServlet.java).
 * It differs from the second in two ways: a service's annotation value is its
 * bean name even when blank, and interface names are mapped to the service's
 * Class object rather than to the instance.
 */
module V1Registry {
  import opened Outcomes
  import opened JavaText
  import opened Runtime
  import opened Registry

  /** One iteration of the doInstance loop of the first dispatcher. */
  function InstanceStep(s: State, c: ClassDesc): Step {
    match c.role
    case Unmarked => Continue(s)
    case Controller(_) =>
      if !c.instantiable then Abort(s)
      else
        var b := Instance(s.next, c);
        (match LowerFirst(c.simpleName)
         case Err(_) => Abort(State(s.ioc, s.next + 1))
         case Ok(name) => Continue(State(s.ioc[name := b], s.next + 1)))
    case Service(value) =>
      if !c.instantiable then Abort(s)
      else
        var (ioc', ok) := AddAliases(s.ioc[value := Instance(s.next, c)], c.interfaces, ClassObject(c));
        if ok then Continue(State(ioc', s.next + 1)) else Abort(State(ioc', s.next + 1))
  }

  function DoInstance(s: State, classes: seq<ClassDesc>): (State, bool) {
    Run(InstanceStep, s, classes)
  }

  /** The paths on which creating or naming fails. A marked class newInstance
      cannot create aborts with the state unchanged. A controller with an empty
      simple name aborts after its creation was counted. */
  lemma CreationFailureAborts(s: State, c: ClassDesc)
    ensures !c.role.Unmarked? && !c.instantiable ==> InstanceStep(s, c) == Abort(s)
    ensures c.role.Controller? && c.instantiable && c.simpleName == [] ==>
              InstanceStep(s, c) == Abort(State(s.ioc, s.next + 1))
  {
  }

  /** A service is stored under its annotation value exactly as written, blank
      or not, and never fails for want of a name; its interface names all map
      to its Class object. */
  lemma ServiceEntry(s: State, c: ClassDesc, value: string)
    requires c.role == Service(value) && c.instantiable
    ensures var primary := PrimaryEntry(s, c, value);
            && InstanceStep(s, c).state.next == s.next + 1
            && (InstanceStep(s, c).Continue? <==> Unclaimed(primary, c.interfaces))
            && (InstanceStep(s, c).Continue? ==>
                  InstanceStep(s, c).state.ioc == WithAliases(primary, c.interfaces, ClassObject(c)))
    ensures InstanceStep(s, c).Abort? ==>
              exists d :: ThrowsAt(PrimaryEntry(s, c, value), c.interfaces, ClassObject(c), InstanceStep(s, c).state.ioc, d)
  {
    var primary := PrimaryEntry(s, c, value);
    AddAliasesSucceeds(primary, c.interfaces, ClassObject(c));
    assert InstanceStep(s, c).state.ioc == AddAliases(primary, c.interfaces, ClassObject(c)).0;
    if !AddAliases(primary, c.interfaces, ClassObject(c)).1 {
      AddAliasesThrows(primary, c.interfaces, ClassObject(c));
    }
  }

  /** The registry right after a service's own put. */
  function PrimaryEntry(s: State, c: ClassDesc, value: string): map<string, Bean> {
    s.ioc[value := Instance(s.next, c)]
  }

  /** A service whose value is blank after trimming is registered under that
      value itself: there is no default name to fall back to, the fallback
      re-reads the value. The entry survives whether or not the interface
      aliases succeed. */
  lemma BlankServiceKeptBlank(s: State, c: ClassDesc, value: string)
    requires c.role == Service(value) && IsBlank(Trim(value)) && c.instantiable
    ensures var ioc := InstanceStep(s, c).state.ioc;
            value in ioc && ioc[value] == Instance(s.next, c)
  {
    var primary := PrimaryEntry(s, c, value);
    var b := ClassObject(c);
    assert value in primary;
    ServiceEntry(s, c, value);
    if InstanceStep(s, c).Continue? {
      assert value !in c.interfaces;
    } else {
      var d :| ThrowsAt(primary, c.interfaces, b, InstanceStep(s, c).state.ioc, d);
      assert value !in c.interfaces[..d];
    }
  }

  /** The interface aliases of the first dispatcher hold a Class object: a
      lookup by interface name does not give the service instance. */
  lemma AliasIsClassObject(s: State, c: ClassDesc, value: string, i: nat)
    requires c.role == Service(value) && c.instantiable
    requires InstanceStep(s, c).Continue? && i < |c.interfaces|
    ensures c.interfaces[i] in InstanceStep(s, c).state.ioc
    ensures InstanceStep(s, c).state.ioc[c.interfaces[i]] == ClassObject(c)
    ensures !InstanceStep(s, c).state.ioc[c.interfaces[i]].Instance?
  {
    ServiceEntry(s, c, value);
  }

  lemma InstanceStepShape()
    ensures SkipsUnmarked(InstanceStep)
    ensures KeepsKeys(InstanceStep)
  {
    forall s: State, c: ClassDesc ensures s.ioc.Keys <= InstanceStep(s, c).state.ioc.Keys {
      if c.role.Service? && c.instantiable {
        AddAliasesKeepsKeys(s.ioc[c.role.value := Instance(s.next, c)], c.interfaces, ClassObject(c));
      }
    }
  }
}
