/**
 * doAutowired, shared by both dispatchers: for every registry entry, in the
 * HashMap's iteration order, and every declared field carrying @MyAutowired,
 * set the field to the registry value under the field's bean name.
 *
 * The two versions differ only in whose declared fields they scan: the second
 * takes the class of the entry's value, the first the class of the entry's
 * key (always java.lang.String). That choice is the parameter `fieldsOf`.
 */
module Autowire {
  import opened Outcomes
  import opened JavaText
  import opened Runtime

  /** The injected fields: the value Field.set stored, by object and field name. */
  type Wiring = map<(Bean, string), Option<Bean>>

  /** The bean name of an autowired field: the trimmed annotation value, or
      the field's declared type name when that is blank. */
  function BeanName(f: FieldDesc): string
    requires f.autowired.Some?
  {
    var name := Trim(f.autowired.value);
    if IsBlank(name) then f.typeName else name
  }

  /** An autowired field that Field.set can write. On a static final field it
      throws IllegalAccessException, which doAutowired catches: that field is
      left as it was and the loop goes on. */
  predicate Settable(f: FieldDesc) {
    f.autowired.Some? && !f.staticFinal
  }

  /** Whether Field.set accepts the looked-up value; it throws
      IllegalArgumentException (not caught) otherwise. */
  predicate Injectable(ioc: map<string, Bean>, f: FieldDesc)
    requires f.autowired.Some?
  {
    Assignable(Lookup(ioc, BeanName(f)), f.typeName)
  }

  /** The inner loop over the declared fields of one object. */
  function WireFields(ioc: map<string, Bean>, target: Bean, fields: seq<FieldDesc>, w: Wiring): (Wiring, bool)
    decreases fields
  {
    if fields == [] then (w, true)
    else
      var f := fields[0];
      if !Settable(f) then WireFields(ioc, target, fields[1..], w)
      else if !Injectable(ioc, f) then (w, false)
      else WireFields(ioc, target, fields[1..], w[(target, f.name) := Lookup(ioc, BeanName(f))])
  }

  /** The loop over one object's declared fields, as both dispatchers run it:
      an exception leaves the fields set before it in place. */
  method WireObject(ioc: map<string, Bean>, target: Bean, fields: seq<FieldDesc>, w: Wiring)
    returns (w': Wiring, ok: bool)
    ensures (w', ok) == WireFields(ioc, target, fields, w)
  {
    w' := w;
    var j := 0;
    while j < |fields|
      invariant 0 <= j <= |fields|
      invariant WireFields(ioc, target, fields[j..], w') == WireFields(ioc, target, fields, w)
    {
      assert fields[j..][0] == fields[j] && fields[j..][1..] == fields[j + 1..];
      var f := fields[j];
      if f.autowired.Some? {
        var beanName := Trim(f.autowired.value);
        if IsBlank(beanName) {
          beanName := f.typeName;
        }
        var value := Lookup(ioc, beanName);
        if f.staticFinal {
          // IllegalAccessException, caught: the field keeps its value
        } else if !Assignable(value, f.typeName) {
          return w', false;
        } else {
          w' := w'[(target, f.name) := value];
        }
      }
      j := j + 1;
    }
    return w', true;
  }

  /** The outer loop over the registry entries, keys in iteration order. */
  function WireAll(ioc: map<string, Bean>, fieldsOf: Bean -> seq<FieldDesc>, order: seq<string>, w: Wiring): (Wiring, bool)
    requires forall i :: 0 <= i < |order| ==> order[i] in ioc
    decreases order
  {
    if order == [] then (w, true)
    else
      var (w', ok) := WireFields(ioc, ioc[order[0]], fieldsOf(ioc[order[0]]), w);
      if !ok then (w', false) else WireAll(ioc, fieldsOf, order[1..], w')
  }

  /** No two declared fields of a class share a name. */
  predicate DistinctNames(fields: seq<FieldDesc>) {
    forall i, j :: 0 <= i < j < |fields| ==> fields[i].name != fields[j].name
  }

  /** Every settable autowired field of the list is injectable. */
  predicate AllInjectable(ioc: map<string, Bean>, fields: seq<FieldDesc>) {
    forall j :: 0 <= j < |fields| && Settable(fields[j]) ==> Injectable(ioc, fields[j])
  }

  /** Every recorded slot holds what its field's bean name looks up. */
  ghost predicate Injected(ioc: map<string, Bean>, fieldsOf: Bean -> seq<FieldDesc>, w: Wiring) {
    forall p :: p in w ==>
      exists f :: f in fieldsOf(p.0) && Settable(f) && f.name == p.1 && w[p] == Lookup(ioc, BeanName(f))
  }

  /** The field loop succeeds exactly when every autowired field is injectable. */
  lemma {:induction false} WireFieldsOk(ioc: map<string, Bean>, target: Bean, fields: seq<FieldDesc>, w: Wiring)
    ensures WireFields(ioc, target, fields, w).1 <==> AllInjectable(ioc, fields)
    decreases fields
  {
    if fields != [] {
      var f, rest := fields[0], fields[1..];
      var w1 := if Settable(f) then w[(target, f.name) := Lookup(ioc, BeanName(f))] else w;
      if !Settable(f) || Injectable(ioc, f) {
        WireFieldsOk(ioc, target, rest, w1);
        AllInjectableCons(ioc, fields);
      }
    }
  }

  lemma AllInjectableCons(ioc: map<string, Bean>, fields: seq<FieldDesc>)
    requires fields != []
    requires !Settable(fields[0]) || Injectable(ioc, fields[0])
    ensures AllInjectable(ioc, fields) <==> AllInjectable(ioc, fields[1..])
  {
    var rest := fields[1..];
    if AllInjectable(ioc, rest) {
      forall j | 0 <= j < |fields| && Settable(fields[j]) ensures Injectable(ioc, fields[j]) {
        if j > 0 { assert fields[j] == rest[j - 1]; }
      }
    }
    if AllInjectable(ioc, fields) {
      forall j | 0 <= j < |rest| && Settable(rest[j]) ensures Injectable(ioc, rest[j]) {
        assert rest[j] == fields[j + 1];
      }
    }
  }

  /** Recording one settable field of the object keeps every slot correct. */
  lemma InjectedPut(ioc: map<string, Bean>, fieldsOf: Bean -> seq<FieldDesc>, w: Wiring, target: Bean, f: FieldDesc)
    requires Injected(ioc, fieldsOf, w)
    requires f in fieldsOf(target) && Settable(f)
    ensures Injected(ioc, fieldsOf, w[(target, f.name) := Lookup(ioc, BeanName(f))])
  {
    var w1 := w[(target, f.name) := Lookup(ioc, BeanName(f))];
    forall p | p in w1
      ensures exists g :: g in fieldsOf(p.0) && Settable(g) && g.name == p.1 && w1[p] == Lookup(ioc, BeanName(g))
    {
      if p == (target, f.name) {
        assert f in fieldsOf(p.0);
      } else {
        var g :| g in fieldsOf(p.0) && Settable(g) && g.name == p.1 && w[p] == Lookup(ioc, BeanName(g));
      }
    }
  }

  /** Every slot the field loop writes is the object's own field, holding what
      that field's bean name looks up; no slot is removed; and when the loop
      succeeds, every settable autowired field has its slot. */
  lemma {:induction false} WireFieldsWrites(ioc: map<string, Bean>, fieldsOf: Bean -> seq<FieldDesc>,
                                            target: Bean, fields: seq<FieldDesc>, w: Wiring)
    requires forall f :: f in fields ==> f in fieldsOf(target)
    requires Injected(ioc, fieldsOf, w)
    ensures Injected(ioc, fieldsOf, WireFields(ioc, target, fields, w).0)
    ensures w.Keys <= WireFields(ioc, target, fields, w).0.Keys
    ensures WireFields(ioc, target, fields, w).1 ==>
              forall j :: 0 <= j < |fields| && Settable(fields[j]) ==> (target, fields[j].name) in WireFields(ioc, target, fields, w).0
    decreases fields
  {
    if fields != [] {
      var f, rest := fields[0], fields[1..];
      assert forall g :: g in rest ==> g in fields;
      if !Settable(f) {
        WireFieldsWrites(ioc, fieldsOf, target, rest, w);
        assert WireFields(ioc, target, fields, w) == WireFields(ioc, target, rest, w);
        if WireFields(ioc, target, fields, w).1 {
          SlotsCons(target, fields, WireFields(ioc, target, fields, w).0);
        }
      } else if Injectable(ioc, f) {
        var w1 := w[(target, f.name) := Lookup(ioc, BeanName(f))];
        InjectedPut(ioc, fieldsOf, w, target, f);
        WireFieldsWrites(ioc, fieldsOf, target, rest, w1);
        assert WireFields(ioc, target, fields, w) == WireFields(ioc, target, rest, w1);
        if WireFields(ioc, target, fields, w).1 {
          SlotsCons(target, fields, WireFields(ioc, target, fields, w).0);
        }
      }
    }
  }

  lemma SlotsCons(target: Bean, fields: seq<FieldDesc>, w: Wiring)
    requires fields != []
    requires Settable(fields[0]) ==> (target, fields[0].name) in w
    requires forall j :: 0 <= j < |fields[1..]| && Settable(fields[1..][j]) ==> (target, fields[1..][j].name) in w
    ensures forall j :: 0 <= j < |fields| && Settable(fields[j]) ==> (target, fields[j].name) in w
  {
    forall j | 0 <= j < |fields| && Settable(fields[j]) ensures (target, fields[j].name) in w {
      if j > 0 { assert fields[j] == fields[1..][j - 1]; }
    }
  }

  /** The slots of the settable autowired fields of one object. */
  ghost predicate HasSlots(fieldsOf: Bean -> seq<FieldDesc>, b: Bean, w: Wiring) {
    forall j :: 0 <= j < |fieldsOf(b)| && Settable(fieldsOf(b)[j]) ==> (b, fieldsOf(b)[j].name) in w
  }

  /** The entry loop succeeds exactly when every autowired field of every
      entry's object is injectable. */
  lemma {:induction false} WireAllOk(ioc: map<string, Bean>, fieldsOf: Bean -> seq<FieldDesc>, order: seq<string>, w: Wiring)
    requires forall i :: 0 <= i < |order| ==> order[i] in ioc
    ensures WireAll(ioc, fieldsOf, order, w).1 <==> forall i :: 0 <= i < |order| ==> AllInjectable(ioc, fieldsOf(ioc[order[i]]))
    decreases order
  {
    if order != [] {
      var b := ioc[order[0]];
      WireFieldsOk(ioc, b, fieldsOf(b), w);
      var w1 := WireFields(ioc, b, fieldsOf(b), w).0;
      WireAllOk(ioc, fieldsOf, order[1..], w1);
      assert forall i :: 1 <= i < |order| ==> order[i] == order[1..][i - 1];
    }
  }

  /** The entry loop keeps every slot correct, removes none, and when it
      succeeds every settable autowired field of every entry's object has its slot. */
  lemma {:induction false} WireAllWrites(ioc: map<string, Bean>, fieldsOf: Bean -> seq<FieldDesc>,
                                         order: seq<string>, w: Wiring)
    requires forall i :: 0 <= i < |order| ==> order[i] in ioc
    requires Injected(ioc, fieldsOf, w)
    ensures Injected(ioc, fieldsOf, WireAll(ioc, fieldsOf, order, w).0)
    ensures w.Keys <= WireAll(ioc, fieldsOf, order, w).0.Keys
    ensures WireAll(ioc, fieldsOf, order, w).1 ==>
              forall i :: 0 <= i < |order| ==> HasSlots(fieldsOf, ioc[order[i]], WireAll(ioc, fieldsOf, order, w).0)
    decreases order
  {
    if order != [] {
      var b := ioc[order[0]];
      WireFieldsWrites(ioc, fieldsOf, b, fieldsOf(b), w);
      var w1 := WireFields(ioc, b, fieldsOf(b), w).0;
      if WireFields(ioc, b, fieldsOf(b), w).1 {
        WireAllWrites(ioc, fieldsOf, order[1..], w1);
        var w' := WireAll(ioc, fieldsOf, order, w).0;
        if WireAll(ioc, fieldsOf, order, w).1 {
          forall i | 0 <= i < |order| ensures HasSlots(fieldsOf, ioc[order[i]], w') {
            if i > 0 { assert order[i] == order[1..][i - 1]; }
          }
        }
      }
    }
  }

  /** What a successful doAutowired leaves in a field: the registry value
      under its bean name (null when absent), for every autowired field that
      is not static final, of every entry's object whose class declares
      distinct field names. */
  lemma InjectedValue(ioc: map<string, Bean>, fieldsOf: Bean -> seq<FieldDesc>, order: seq<string>, i: nat, j: nat)
    requires forall k :: 0 <= k < |order| ==> order[k] in ioc
    requires WireAll(ioc, fieldsOf, order, map[]).1
    requires i < |order| && DistinctNames(fieldsOf(ioc[order[i]]))
    requires j < |fieldsOf(ioc[order[i]])| && Settable(fieldsOf(ioc[order[i]])[j])
    ensures var f, w := fieldsOf(ioc[order[i]])[j], WireAll(ioc, fieldsOf, order, map[]).0;
            (ioc[order[i]], f.name) in w && w[(ioc[order[i]], f.name)] == Lookup(ioc, BeanName(f))
  {
    var b := ioc[order[i]];
    var fs, w := fieldsOf(b), WireAll(ioc, fieldsOf, order, map[]).0;
    WireAllWrites(ioc, fieldsOf, order, map[]);
    assert HasSlots(fieldsOf, b, w);
    SlotValue(ioc, fieldsOf, w, b, j);
  }

  /** In a correct wiring, the slot of a field, among fields of distinct names,
      holds what that field's bean name looks up. */
  lemma SlotValue(ioc: map<string, Bean>, fieldsOf: Bean -> seq<FieldDesc>, w: Wiring, b: Bean, j: nat)
    requires Injected(ioc, fieldsOf, w) && DistinctNames(fieldsOf(b))
    requires j < |fieldsOf(b)| && fieldsOf(b)[j].autowired.Some? && (b, fieldsOf(b)[j].name) in w
    ensures w[(b, fieldsOf(b)[j].name)] == Lookup(ioc, BeanName(fieldsOf(b)[j]))
  {
    var fs := fieldsOf(b);
    var p := (b, fs[j].name);
    var g :| g in fieldsOf(p.0) && Settable(g) && g.name == p.1 && w[p] == Lookup(ioc, BeanName(g));
    var k :| 0 <= k < |fs| && fs[k] == g;
    assert !(k < j || j < k);
  }

  /** A static final field is never written, whether or not doAutowired
      completes: its IllegalAccessException is caught and the field skipped. */
  lemma StaticFinalLeftAlone(ioc: map<string, Bean>, fieldsOf: Bean -> seq<FieldDesc>, order: seq<string>, i: nat, j: nat)
    requires forall k :: 0 <= k < |order| ==> order[k] in ioc
    requires i < |order| && DistinctNames(fieldsOf(ioc[order[i]]))
    requires j < |fieldsOf(ioc[order[i]])| && fieldsOf(ioc[order[i]])[j].staticFinal
    ensures (ioc[order[i]], fieldsOf(ioc[order[i]])[j].name) !in WireAll(ioc, fieldsOf, order, map[]).0
  {
    WireAllWrites(ioc, fieldsOf, order, map[]);
    NoSlotForStaticFinal(ioc, fieldsOf, WireAll(ioc, fieldsOf, order, map[]).0, ioc[order[i]], j);
  }

  /** In a correct wiring, a static final field, among fields of distinct
      names, has no slot. */
  lemma NoSlotForStaticFinal(ioc: map<string, Bean>, fieldsOf: Bean -> seq<FieldDesc>, w: Wiring, b: Bean, j: nat)
    requires Injected(ioc, fieldsOf, w) && DistinctNames(fieldsOf(b))
    requires j < |fieldsOf(b)| && fieldsOf(b)[j].staticFinal
    ensures (b, fieldsOf(b)[j].name) !in w
  {
    var fs := fieldsOf(b);
    forall g | g in fs && g.name == fs[j].name ensures !Settable(g) {
      var k :| 0 <= k < |fs| && fs[k] == g;
      assert k == j;
    }
  }

  /** A bean name that is not a key injects null, without an error, into any
      field of reference type. */
  lemma MissingBeanIsNull(ioc: map<string, Bean>, f: FieldDesc)
    requires f.autowired.Some? && BeanName(f) !in ioc && f.typeName !in PRIMITIVE_TYPES
    ensures Injectable(ioc, f) && Lookup(ioc, BeanName(f)) == None
  {
  }
}
