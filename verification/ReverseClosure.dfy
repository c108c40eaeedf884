/** Which workspace packages a change can affect: the packages that depend on a requested one,
    directly or through others. */
module ReverseClosure {
  import opened Basics

  type Package = nat

  /** Workspace packages in order, and for each the packages that depend on it. */
  datatype Graph = Graph(order: seq<Package>, reverse: map<Package, seq<Package>>)

  function Dependents(g: Graph, p: Package): seq<Package> {
    if p in g.reverse then g.reverse[p] else []
  }

  /** Each package of the path depends on the one before it. */
  predicate IsPath(g: Graph, path: seq<Package>) {
    path != [] && forall i | 0 < i < |path| :: path[i] in Dependents(g, path[i - 1])
  }

  /** `p` depends on a requested package, through any number of others, or is one. */
  ghost predicate Affected(g: Graph, requested: seq<Package>, p: Package) {
    exists path :: IsPath(g, path) && path[0] in requested && path[|path| - 1] == p
  }

  ghost predicate Closed(g: Graph, s: set<Package>) {
    forall p :: p in s ==> forall d :: d in Dependents(g, p) ==> d in s
  }

  /** A set that holds the requested packages and is closed under dependents holds every
      affected one. */
  lemma {:induction false} ClosedHoldsPath(g: Graph, s: set<Package>, path: seq<Package>)
    requires Closed(g, s) && IsPath(g, path) && path[0] in s
    ensures path[|path| - 1] in s
    decreases |path|
  {
    if |path| > 1 {
      var n := |path| - 1;
      assert IsPath(g, path[..n]);
      ClosedHoldsPath(g, s, path[..n]);
      assert path[n] in Dependents(g, path[n - 1]);
    }
  }

  lemma AffectedGrows(g: Graph, requested: seq<Package>, p: Package, d: Package)
    requires Affected(g, requested, p) && d in Dependents(g, p)
    ensures Affected(g, requested, d)
  {
    var path :| IsPath(g, path) && path[0] in requested && path[|path| - 1] == p;
    var longer := path + [d];
    assert IsPath(g, longer);
  }

  lemma RequestedIsAffected(g: Graph, requested: seq<Package>, p: Package)
    requires p in requested
    ensures Affected(g, requested, p)
  {
    assert IsPath(g, [p]);
  }

  /** Everything that can ever be included. */
  function Universe(g: Graph, requested: seq<Package>): set<Package> {
    (set p | p in requested) + (set p, d | p in g.reverse && d in g.reverse[p] :: d)
  }

  function InOrder(order: seq<Package>, included: set<Package>): seq<Package> {
    if order == [] then [] else
      (if order[0] in included then [order[0]] else []) + InOrder(order[1..], included)
  }

  ghost predicate Distinct(order: seq<Package>) {
    forall i, j :: 0 <= i < j < |order| ==> order[i] != order[j]
  }

  /** The list names the packages of the set, in the order's order; each once if the order does. */
  lemma {:induction false} InOrderIsExact(order: seq<Package>, included: set<Package>)
    ensures forall p :: p in InOrder(order, included) <==> p in order && p in included
    ensures Distinct(order) ==> Distinct(InOrder(order, included))
    decreases |order|
  {
    if order != [] {
      var rest := InOrder(order[1..], included);
      InOrderIsExact(order[1..], included);
      forall p ensures p in InOrder(order, included) <==> p in order && p in included {
        assert p in order <==> p == order[0] || p in order[1..];
      }
      if Distinct(order) {
        assert order[0] !in order[1..];
      }
    }
  }

  ghost predicate Before(order: seq<Package>, p: Package, q: Package) {
    exists a, b :: 0 <= a < b < |order| && order[a] == p && order[b] == q
  }

  /** Before and after in the list are before and after in the order. */
  lemma {:induction false} InOrderKeepsOrder(order: seq<Package>, included: set<Package>, i: nat, j: nat)
    requires i < j < |InOrder(order, included)|
    ensures Before(order, InOrder(order, included)[i], InOrder(order, included)[j])
    decreases |order|
  {
    var rest := InOrder(order[1..], included);
    var list := InOrder(order, included);
    if order[0] in included {
      assert list == [order[0]] + rest;
      if i == 0 {
        InOrderIsExact(order[1..], included);
        assert list[j] == rest[j - 1] && rest[j - 1] in rest;
        var b :| 0 <= b < |order[1..]| && order[1..][b] == list[j];
        assert order[0] == list[i] && order[b + 1] == list[j];
      } else {
        InOrderKeepsOrder(order[1..], included, i - 1, j - 1);
        OneFurther(order, list[i], list[j]);
      }
    } else {
      assert list == rest;
      InOrderKeepsOrder(order[1..], included, i, j);
      OneFurther(order, list[i], list[j]);
    }
  }

  /** Before and after in one list are before and after in the other. */
  ghost predicate OrderedAs(list: seq<Package>, order: seq<Package>) {
    forall i, j :: 0 <= i < j < |list| ==> Before(order, list[i], list[j])
  }

  lemma InOrderIsOrdered(order: seq<Package>, included: set<Package>)
    ensures OrderedAs(InOrder(order, included), order)
  {
    var list := InOrder(order, included);
    forall i, j | 0 <= i < j < |list| ensures Before(order, list[i], list[j])
    {
      InOrderKeepsOrder(order, included, i, j);
    }
  }

  lemma OneFurther(order: seq<Package>, p: Package, q: Package)
    requires order != [] && Before(order[1..], p, q)
    ensures Before(order, p, q)
  {
    var a, b :| 0 <= a < b < |order[1..]| && order[1..][a] == p && order[1..][b] == q;
    assert order[a + 1] == p && order[b + 1] == q;
  }

  lemma ClosedHoldsAffected(g: Graph, requested: seq<Package>, s: set<Package>)
    requires Closed(g, s) && forall p :: p in requested ==> p in s
    ensures forall p :: Affected(g, requested, p) ==> p in s
  {
    forall p | Affected(g, requested, p) ensures p in s {
      var path :| IsPath(g, path) && path[0] in requested && path[|path| - 1] == p;
      ClosedHoldsPath(g, s, path);
    }
  }

  ghost predicate AllIn(list: seq<Package>, s: set<Package>) {
    forall p :: p in list ==> p in s
  }

  ghost predicate AllAffected(g: Graph, requested: seq<Package>, s: set<Package>) {
    forall p :: p in s ==> Affected(g, requested, p)
  }

  /** Closed, but for the dependents of what is still queued. */
  ghost predicate ClosedBut(g: Graph, s: set<Package>, queue: seq<Package>) {
    forall p :: p in s && p !in queue ==> AllIn(Dependents(g, p), s)
  }

  /** One package's dependents join the set, and the queue if they are new. */
  method AddDependents(g: Graph, requested: seq<Package>, package: Package, found: set<Package>, queue: seq<Package>)
    returns (more: set<Package>, longer: seq<Package>)
    requires found <= Universe(g, requested) && AllIn(queue, found) && AllAffected(g, requested, found)
             && package in found
    ensures found <= more <= Universe(g, requested) && AllIn(longer, more) && AllAffected(g, requested, more)
    ensures AllIn(Dependents(g, package), more)
    ensures more == found ==> longer == queue
    ensures forall p :: p in queue || p in more - found ==> p in longer
  {
    hide Affected;
    var dependents := Dependents(g, package);
    more, longer := found, queue;
    for i := 0 to |dependents|
      invariant found <= more <= Universe(g, requested) && AllIn(longer, more) && AllAffected(g, requested, more)
      invariant more == found ==> longer == queue
      invariant forall p :: p in queue || p in more - found ==> p in longer
      invariant forall k :: 0 <= k < i ==> dependents[k] in more
    {
      var dependent := dependents[i];
      if dependent !in more {
        AffectedGrows(g, requested, package, dependent);
        more := more + {dependent};
        longer := longer + [dependent];
      }
    }
  }

  /** `reverse_closure`: a worklist over the dependents, cyclic or not. */
  method Closure(g: Graph, packages: seq<Package>) returns (list: seq<Package>, ghost included: set<Package>)
    ensures forall p :: p in included <==> Affected(g, packages, p)
    ensures list == InOrder(g.order, included)
    ensures forall p :: p in list <==> p in g.order && Affected(g, packages, p)
  {
    hide Affected, InOrder, Universe;
    var found := set p | p in packages;
    var queue := packages;
    ghost var universe := Universe(g, packages);
    forall p | p in packages ensures Affected(g, packages, p) { RequestedIsAffected(g, packages, p); }
    InUniverse(g, packages);
    while queue != []
      invariant found <= universe && AllIn(packages, found) && AllIn(queue, found)
      invariant AllAffected(g, packages, found) && ClosedBut(g, found, queue)
      decreases universe - found, |queue|
    {
      var package := queue[0];
      ghost var was, before := found, queue;
      found, queue := AddDependents(g, packages, package, found, queue[1..]);
      StillClosedBut(g, was, before, found, queue);
    }
    included := found;
    ClosedHoldsAffected(g, packages, found);
    InOrderIsExact(g.order, found);
    list := InOrder(g.order, found);
  }

  lemma InUniverse(g: Graph, packages: seq<Package>)
    ensures (set p | p in packages) <= Universe(g, packages)
  {
  }

  lemma StillClosedBut(g: Graph, found: set<Package>, queue: seq<Package>, more: set<Package>, longer: seq<Package>)
    requires queue != [] && ClosedBut(g, found, queue) && found <= more
    requires AllIn(Dependents(g, queue[0]), more) && forall p :: p in queue[1..] || p in more - found ==> p in longer
    ensures ClosedBut(g, more, longer)
  {
    forall p | p in more && p !in longer ensures AllIn(Dependents(g, p), more) {
      if p != queue[0] {
        assert p !in queue by { assert queue == [queue[0]] + queue[1..]; }
        assert AllIn(Dependents(g, p), found);
      }
    }
  }

  /** The affected packages are the least set that holds the requested ones and is closed. */
  lemma AffectedIsLeastClosed(g: Graph, requested: seq<Package>, affected: set<Package>, s: set<Package>)
    requires forall p :: p in affected <==> Affected(g, requested, p)
    ensures Closed(g, affected) && forall p :: p in requested ==> p in affected
    ensures Closed(g, s) && (forall p :: p in requested ==> p in s) ==> affected <= s
  {
    forall p, d | p in affected && d in Dependents(g, p) ensures d in affected { AffectedGrows(g, requested, p, d); }
    forall p | p in requested ensures p in affected { RequestedIsAffected(g, requested, p); }
    if Closed(g, s) && forall p :: p in requested ==> p in s {
      forall p | p in affected ensures p in s {
        var path :| IsPath(g, path) && path[0] in requested && path[|path| - 1] == p;
        ClosedHoldsPath(g, s, path);
      }
    }
  }

  /** `validate`: an unknown package is an error, otherwise the requested ones in order. */
  function Validate(g: Graph, packages: seq<Package>): Option<seq<Package>> {
    if exists p | p in packages :: p !in g.order then None
    else Some(InOrder(g.order, set p | p in packages))
  }

  datatype Plan = Plan(changed: seq<Package>, lint: seq<Package>)

  /** `make_plan` for packages named explicitly: everything changed is checked, and everything
      that can be affected by it. */
  method MakePlan(g: Graph, explicit: seq<Package>) returns (plan: Option<Plan>)
    ensures plan.Some? <==> forall p :: p in explicit ==> p in g.order
    ensures plan.Some? ==>
              && (forall p :: p in plan.value.changed <==> p in explicit)
              && (forall p :: p in plan.value.lint <==> p in g.order && Affected(g, explicit, p))
              && (forall p :: p in plan.value.changed ==> p in plan.value.lint)
              && OrderedAs(plan.value.changed, g.order) && OrderedAs(plan.value.lint, g.order)
              && (Distinct(g.order) ==> Distinct(plan.value.changed) && Distinct(plan.value.lint))
  {
    hide Affected, InOrder, OrderedAs;
    var changed := Validate(g, explicit);
    if changed.None? { return None; }
    InOrderIsExact(g.order, set p | p in explicit);
    InOrderIsOrdered(g.order, set p | p in explicit);
    var lint, included := Closure(g, changed.value);
    InOrderIsExact(g.order, included);
    InOrderIsOrdered(g.order, included);
    forall p ensures Affected(g, changed.value, p) <==> Affected(g, explicit, p) {
      SameRequested(g, changed.value, explicit, p);
    }
    forall p | p in explicit ensures Affected(g, explicit, p) { RequestedIsAffected(g, explicit, p); }
    plan := Some(Plan(changed.value, lint));
  }

  lemma SameRequested(g: Graph, a: seq<Package>, b: seq<Package>, p: Package)
    requires forall q :: q in a <==> q in b
    ensures Affected(g, a, p) <==> Affected(g, b, p)
  {
  }
}
