/**
 * initHandlerMapping of the first dispatcher (servletversion1): routes are
 * the keys of a HashMap from URL to method, so a later put for the same URL
 * replaces an earlier one.
 */
module V1Routes {
  import opened Outcomes
  import opened Runtime

  type Routes = map<string, MethodDesc>

  /** The puts for one controller's public methods, in getMethods() order. */
  function MethodRoutes(base: string, methods: seq<MethodDesc>, table: Routes): Routes
    decreases |methods|
  {
    if methods == [] then table
    else
      var m := methods[|methods| - 1];
      var t := MethodRoutes(base, methods[..|methods| - 1], table);
      if m.mapping.Some? then t[RoutePattern(base, m.mapping.value) := m] else t
  }

  /** The puts for one registry value: none unless its class is a controller. */
  function BeanRoutes(b: Bean, table: Routes): Routes {
    var c := ClassOf(b);
    if c.role.Controller? then MethodRoutes(BasePath(c), c.methods, table) else table
  }

  /** initHandlerMapping, the registry's keys taken in the iteration order `order`. */
  function RoutesFor(ioc: map<string, Bean>, order: seq<string>, table: Routes): Routes
    requires forall i :: 0 <= i < |order| ==> order[i] in ioc
    decreases |order|
  {
    if order == [] then table
    else BeanRoutes(ioc[order[|order| - 1]], RoutesFor(ioc, order[..|order| - 1], table))
  }

  /** Method j is mapped, and its route is p. */
  predicate RoutedAt(base: string, methods: seq<MethodDesc>, j: int, p: string) {
    0 <= j < |methods| && methods[j].mapping.Some? && RoutePattern(base, methods[j].mapping.value) == p
  }

  /** The entries put for one controller do not depend on what was in the
      table before: they are laid over it. */
  lemma {:induction false} MethodRoutesOverlay(base: string, methods: seq<MethodDesc>, table: Routes)
    ensures MethodRoutes(base, methods, table) == table + MethodRoutes(base, methods, map[])
    decreases |methods|
  {
    if methods != [] {
      MethodRoutesOverlay(base, methods[..|methods| - 1], table);
    }
  }

  /** A URL is routed after one controller exactly when it was routed before
      or one of its mapped methods has that route. */
  lemma {:induction false} MethodRoutesKeys(base: string, methods: seq<MethodDesc>, table: Routes, p: string)
    ensures p in MethodRoutes(base, methods, table) <==> p in table || exists j :: RoutedAt(base, methods, j, p)
    ensures (forall j :: !RoutedAt(base, methods, j, p)) && p in table ==> MethodRoutes(base, methods, table)[p] == table[p]
    decreases |methods|
  {
    if methods != [] {
      var n := |methods| - 1;
      var init := methods[..n];
      MethodRoutesKeys(base, init, table, p);
      var m, t := methods[n], MethodRoutes(base, init, table);
      assert MethodRoutes(base, methods, table) == if m.mapping.Some? then t[RoutePattern(base, m.mapping.value) := m] else t;
      assert RoutedAt(base, methods, n, p) <==> m.mapping.Some? && RoutePattern(base, m.mapping.value) == p;
      forall j | RoutedAt(base, init, j, p) ensures RoutedAt(base, methods, j, p) {
        assert init[j] == methods[j];
      }
      forall j | 0 <= j < n && RoutedAt(base, methods, j, p) ensures RoutedAt(base, init, j, p) {
        assert init[j] == methods[j];
      }
    }
  }

  /** The last put wins: a route belongs to the last mapped method that has it. */
  lemma {:induction false} MethodRoutesLast(base: string, methods: seq<MethodDesc>, table: Routes, i: int, p: string)
    requires RoutedAt(base, methods, i, p)
    requires forall j :: i < j < |methods| ==> !RoutedAt(base, methods, j, p)
    ensures p in MethodRoutes(base, methods, table) && MethodRoutes(base, methods, table)[p] == methods[i]
    decreases |methods|
  {
    var n := |methods| - 1;
    if i < n {
      assert !RoutedAt(base, methods, n, p);
      assert methods[..n][i] == methods[i];
      forall j | i < j < n ensures !RoutedAt(base, methods[..n], j, p) {
        assert methods[..n][j] == methods[j] && !RoutedAt(base, methods, j, p);
      }
      MethodRoutesLast(base, methods[..n], table, i, p);
    }
  }

  /** The value order[k] defines route p. */
  predicate DefinedAt(ioc: map<string, Bean>, order: seq<string>, k: int, p: string)
    requires forall i :: 0 <= i < |order| ==> order[i] in ioc
  {
    0 <= k < |order| && p in BeanRoutes(ioc[order[k]], map[])
  }

  lemma BeanRoutesOverlay(b: Bean, table: Routes)
    ensures BeanRoutes(b, table) == table + BeanRoutes(b, map[])
  {
    var c := ClassOf(b);
    if c.role.Controller? {
      MethodRoutesOverlay(BasePath(c), c.methods, table);
    }
  }

  /** initHandlerMapping routes a URL exactly when some controller in the
      registry has a mapped method with that route (or it was routed before). */
  lemma {:induction false} RoutesForKeys(ioc: map<string, Bean>, order: seq<string>, table: Routes, p: string)
    requires forall i :: 0 <= i < |order| ==> order[i] in ioc
    ensures p in RoutesFor(ioc, order, table) <==> p in table || exists k :: DefinedAt(ioc, order, k, p)
    decreases |order|
  {
    if order != [] {
      var n := |order| - 1;
      var init := order[..n];
      RoutesForKeys(ioc, init, table, p);
      BeanRoutesOverlay(ioc[order[n]], RoutesFor(ioc, init, table));
      assert RoutesFor(ioc, order, table) == BeanRoutes(ioc[order[n]], RoutesFor(ioc, init, table));
      assert DefinedAt(ioc, order, n, p) <==> p in BeanRoutes(ioc[order[n]], map[]);
      forall k | DefinedAt(ioc, init, k, p) ensures DefinedAt(ioc, order, k, p) {
        assert init[k] == order[k];
      }
      forall k | 0 <= k < n && DefinedAt(ioc, order, k, p) ensures DefinedAt(ioc, init, k, p) {
        assert init[k] == order[k];
      }
    }
  }

  /** Across controllers the last put wins as well: a route belongs to the
      last value, in iteration order, that defines it. */
  lemma {:induction false} RoutesForLast(ioc: map<string, Bean>, order: seq<string>, table: Routes, k: int, p: string)
    requires forall i :: 0 <= i < |order| ==> order[i] in ioc
    requires DefinedAt(ioc, order, k, p)
    requires forall k' :: k < k' < |order| ==> !DefinedAt(ioc, order, k', p)
    ensures p in RoutesFor(ioc, order, table)
    ensures RoutesFor(ioc, order, table)[p] == BeanRoutes(ioc[order[k]], map[])[p]
    decreases |order|
  {
    var n := |order| - 1;
    var init := order[..n];
    BeanRoutesOverlay(ioc[order[n]], RoutesFor(ioc, init, table));
    if k < n {
      assert !DefinedAt(ioc, order, n, p);
      assert init[k] == order[k];
      forall k' | k < k' < n ensures !DefinedAt(ioc, init, k', p) {
        assert init[k'] == order[k'] && !DefinedAt(ioc, order, k', p);
      }
      RoutesForLast(ioc, init, table, k, p);
    }
  }
}
