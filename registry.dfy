/**
 * The shape shared by both versions of doInstance: a loop over the scanned
 * classes inside one try block, so the first exception ends the loop and
 * keeps whatever was already put into the registry, and the inner loop that
 * puts a service under each of its interface names.
 */
module Registry {
  import opened Outcomes
  import opened Runtime

  /** The registry `ioc` and the number the next created instance receives. */
  datatype State = State(ioc: map<string, Bean>, next: nat)

  /** After one class: go on with the next, or an exception left the loop. */
  datatype Step = Continue(state: State) | Abort(state: State)

  /** The interface loop: put each name unless it is already a key, in which
      case an exception is thrown (false) and the names after it are not put. */
  function AddAliases(ioc: map<string, Bean>, names: seq<string>, b: Bean): (map<string, Bean>, bool)
    decreases names
  {
    if names == [] then (ioc, true)
    else if names[0] in ioc then (ioc, false)
    else AddAliases(ioc[names[0] := b], names[1..], b)
  }

  /** No name is a key already and no name is listed twice. */
  predicate Unclaimed(ioc: map<string, Bean>, names: seq<string>) {
    && (forall j :: 0 <= j < |names| ==> names[j] !in ioc)
    && (forall i, j :: 0 <= i < j < |names| ==> names[i] != names[j])
  }

  /** The registry with every listed name put to b. */
  function WithAliases(ioc: map<string, Bean>, names: seq<string>, b: Bean): map<string, Bean> {
    ioc + map n | n in names :: b
  }

  /** The interface loop succeeds exactly when no interface name is claimed,
      and then every interface name maps to b and nothing else changed. */
  lemma {:induction false} AddAliasesSucceeds(ioc: map<string, Bean>, names: seq<string>, b: Bean)
    ensures AddAliases(ioc, names, b).1 <==> Unclaimed(ioc, names)
    ensures AddAliases(ioc, names, b).1 ==> AddAliases(ioc, names, b).0 == WithAliases(ioc, names, b)
    decreases names
  {
    if names == [] {
      assert WithAliases(ioc, names, b) == ioc;
    } else if names[0] !in ioc {
      AddAliasesSucceeds(ioc[names[0] := b], names[1..], b);
      UnclaimedCons(ioc, names, b);
      ConsAliases(ioc, names, b);
    }
  }

  /** The loop throws at name d: the names before it are unclaimed, names[d]
      is a key already (perhaps put by this very loop), and exactly the names
      before d have been put. */
  ghost predicate ThrowsAt(ioc: map<string, Bean>, names: seq<string>, b: Bean,
                           out: map<string, Bean>, d: int) {
    && 0 <= d < |names| && Unclaimed(ioc, names[..d])
    && (names[d] in ioc || names[d] in names[..d])
    && out == WithAliases(ioc, names[..d], b)
  }

  /** The interface loop never removes a key, whether or not it throws. */
  lemma {:induction false} AddAliasesKeepsKeys(ioc: map<string, Bean>, names: seq<string>, b: Bean)
    ensures ioc.Keys <= AddAliases(ioc, names, b).0.Keys
    decreases names
  {
    if names != [] && names[0] !in ioc {
      AddAliasesKeepsKeys(ioc[names[0] := b], names[1..], b);
    }
  }

  /** When the loop throws, it throws at some name, with only the names before it put. */
  lemma {:induction false} AddAliasesThrows(ioc: map<string, Bean>, names: seq<string>, b: Bean)
    requires !AddAliases(ioc, names, b).1
    ensures exists d :: ThrowsAt(ioc, names, b, AddAliases(ioc, names, b).0, d)
    decreases names
  {
    if names[0] in ioc {
      assert names[..0] == [];
      assert WithAliases(ioc, names[..0], b) == ioc;
      assert ThrowsAt(ioc, names, b, AddAliases(ioc, names, b).0, 0);
    } else {
      var ioc', rest := ioc[names[0] := b], names[1..];
      AddAliasesThrows(ioc', rest, b);
      var d' :| ThrowsAt(ioc', rest, b, AddAliases(ioc', rest, b).0, d');
      ThrowsAtCons(ioc, names, b, AddAliases(ioc', rest, b).0, d');
    }
  }

  /** Throwing at d' after the first name was put is throwing at d' + 1. */
  lemma ThrowsAtCons(ioc: map<string, Bean>, names: seq<string>, b: Bean, out: map<string, Bean>, d': int)
    requires names != [] && names[0] !in ioc
    requires ThrowsAt(ioc[names[0] := b], names[1..], b, out, d')
    ensures ThrowsAt(ioc, names, b, out, d' + 1)
  {
    var ioc', rest, d := ioc[names[0] := b], names[1..], d' + 1;
    assert names[..d][1..] == rest[..d'];
    assert names[..d][0] == names[0];
    UnclaimedCons(ioc, names[..d], b);
    ConsAliases(ioc, names[..d], b);
    assert names[d] == rest[d'];
    if rest[d'] in rest[..d'] {
      var i :| 0 <= i < d' && rest[..d'][i] == rest[d'];
      assert names[..d][i + 1] == names[d];
    } else if rest[d'] !in ioc {
      assert names[..d][0] == names[d];
    }
  }

  /** Claiming is checked name by name: the first name is free, then the rest. */
  lemma UnclaimedCons(ioc: map<string, Bean>, names: seq<string>, b: Bean)
    requires names != [] && names[0] !in ioc
    ensures Unclaimed(ioc[names[0] := b], names[1..]) <==> Unclaimed(ioc, names)
  {
    var ioc', rest := ioc[names[0] := b], names[1..];
    if Unclaimed(ioc, names) {
      forall j | 0 <= j < |rest| ensures rest[j] !in ioc' {
        assert rest[j] == names[j + 1];
      }
      forall i, j | 0 <= i < j < |rest| ensures rest[i] != rest[j] {
        assert rest[i] == names[i + 1] && rest[j] == names[j + 1];
      }
    }
    if Unclaimed(ioc', rest) {
      forall j | 0 <= j < |names| ensures names[j] !in ioc {
        if j > 0 { assert names[j] == rest[j - 1]; }
      }
      forall i, j | 0 <= i < j < |names| ensures names[i] != names[j] {
        assert names[j] == rest[j - 1];
        if i > 0 { assert names[i] == rest[i - 1]; }
      }
    }
  }

  /** Putting the first name, then the rest, is putting them all. */
  lemma ConsAliases(ioc: map<string, Bean>, names: seq<string>, b: Bean)
    requires names != []
    ensures WithAliases(ioc[names[0] := b], names[1..], b) == WithAliases(ioc, names, b)
  {
    var l, r := WithAliases(ioc[names[0] := b], names[1..], b), WithAliases(ioc, names, b);
    forall n ensures n in names <==> n == names[0] || n in names[1..] {
      if n in names {
        var i :| 0 <= i < |names| && names[i] == n;
        if i > 0 { assert names[1..][i - 1] == n; }
      }
    }
    assert l.Keys == r.Keys;
    forall n | n in l ensures l[n] == r[n] {
    }
  }

  /** The doInstance loop over the classes, given the work done for one class. */
  function Run(step: (State, ClassDesc) -> Step, s: State, classes: seq<ClassDesc>): (r: (State, bool))
    decreases classes
  {
    if classes == [] then (s, true)
    else match step(s, classes[0])
      case Continue(s') => Run(step, s', classes[1..])
      case Abort(s') => (s', false)
  }

  /** A step that changes nothing for a class carrying neither annotation. */
  ghost predicate SkipsUnmarked(step: (State, ClassDesc) -> Step) {
    forall s: State, c: ClassDesc :: c.role.Unmarked? ==> step(s, c) == Continue(s)
  }

  /** A step that never removes a key (HashMap.put only adds or overwrites). */
  ghost predicate KeepsKeys(step: (State, ClassDesc) -> Step) {
    forall s: State, c: ClassDesc :: s.ioc.Keys <= step(s, c).state.ioc.Keys
  }

  function Marked(classes: seq<ClassDesc>): (r: seq<ClassDesc>)
    ensures forall i :: 0 <= i < |r| ==> !r[i].role.Unmarked?
  {
    if classes == [] then []
    else (if classes[0].role.Unmarked? then [] else [classes[0]]) + Marked(classes[1..])
  }

  /** Classes with neither annotation play no part in the registry. */
  lemma {:induction false} RunIgnoresUnmarked(step: (State, ClassDesc) -> Step, s: State, classes: seq<ClassDesc>)
    requires SkipsUnmarked(step)
    ensures Run(step, s, classes) == Run(step, s, Marked(classes))
    decreases classes
  {
    if classes != [] {
      var c, rest := classes[0], classes[1..];
      if c.role.Unmarked? {
        assert Marked(classes) == Marked(rest);
        RunIgnoresUnmarked(step, s, rest);
      } else {
        assert Marked(classes) == [c] + Marked(rest);
        assert ([c] + Marked(rest))[1..] == Marked(rest);
        match step(s, c)
        case Continue(s') => RunIgnoresUnmarked(step, s', rest);
        case Abort(_) =>
      }
    }
  }

  /** No registry entry is ever removed by the loop. */
  lemma {:induction false} RunKeepsKeys(step: (State, ClassDesc) -> Step, s: State, classes: seq<ClassDesc>)
    requires KeepsKeys(step)
    ensures s.ioc.Keys <= Run(step, s, classes).0.ioc.Keys
    decreases classes
  {
    if classes != [] {
      match step(s, classes[0])
      case Continue(s') => RunKeepsKeys(step, s', classes[1..]);
      case Abort(_) =>
    }
  }

  /** Once a class aborts the loop, the classes after it are never looked at. */
  lemma {:induction false} RunStopsAtAbort(step: (State, ClassDesc) -> Step, s: State,
                                          before: seq<ClassDesc>, c: ClassDesc, after: seq<ClassDesc>)
    requires Run(step, s, before).1
    requires step(Run(step, s, before).0, c).Abort?
    ensures Run(step, s, before + [c] + after) == (step(Run(step, s, before).0, c).state, false)
    decreases before
  {
    if before == [] {
      assert before + [c] + after == [c] + after;
    } else {
      assert (before + [c] + after)[0] == before[0];
      assert (before + [c] + after)[1..] == before[1..] + [c] + after;
      match step(s, before[0])
      case Continue(s') => RunStopsAtAbort(step, s', before[1..], c, after);
    }
  }

  /** A property of the registry that every step keeps. */
  ghost predicate Preserves(step: (State, ClassDesc) -> Step, inv: State -> bool) {
    forall s: State, c: ClassDesc :: inv(s) ==> inv(step(s, c).state)
  }

  /** A property every step keeps holds of the registry the loop leaves,
      whether it ran to the end or an exception ended it. */
  lemma {:induction false} RunPreserves(step: (State, ClassDesc) -> Step, inv: State -> bool,
                                        s: State, classes: seq<ClassDesc>)
    requires Preserves(step, inv) && inv(s)
    ensures inv(Run(step, s, classes).0)
    decreases classes
  {
    if classes != [] {
      assert inv(step(s, classes[0]).state);
      match step(s, classes[0])
      case Continue(s') => RunPreserves(step, inv, s', classes[1..]);
      case Abort(_) =>
    }
  }
}
