/**
 * doAutowired of the first dispatcher (servletversion1) scans the declared
 * fields of each entry's KEY, a String, rather than of its value.
 */
module V1Autowire {
  import opened Runtime
  import opened Autowire

  /** getKey().getClass().getDeclaredFields(): the fields of java.lang.String. */
  function KeyFields(b: Bean): seq<FieldDesc> {
    STRING_CLASS.fields
  }

  /** Fields without @MyAutowired are skipped: nothing is stored and nothing fails. */
  lemma {:induction false} UnannotatedLeavesWiring(ioc: map<string, Bean>, target: Bean, fields: seq<FieldDesc>, w: Wiring)
    requires forall i :: 0 <= i < |fields| ==> fields[i].autowired.None?
    ensures WireFields(ioc, target, fields, w) == (w, true)
    decreases fields
  {
    if fields != [] {
      assert forall i :: 0 <= i < |fields[1..]| ==> fields[1..][i] == fields[i + 1];
      UnannotatedLeavesWiring(ioc, target, fields[1..], w);
    }
  }

  /** The first dispatcher injects nothing and never fails doing so, whatever
      the registry holds: every @MyAutowired field stays null. */
  lemma {:induction false} NothingInjected(ioc: map<string, Bean>, order: seq<string>, w: Wiring)
    requires forall i :: 0 <= i < |order| ==> order[i] in ioc
    ensures WireAll(ioc, KeyFields, order, w) == (w, true)
    decreases order
  {
    if order != [] {
      UnannotatedLeavesWiring(ioc, ioc[order[0]], STRING_CLASS.fields, w);
      NothingInjected(ioc, order[1..], w);
    }
  }
}
