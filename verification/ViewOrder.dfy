/**
 Dependency-first order of materialized views (scripts/refresh_materialized_views.py,
 order_views): peel off, layer by layer, the views none of whose prerequisites remain.
 */
module ViewOrder {
  import opened TextOrder
  import opened Wrappers

  datatype ViewName = ViewName(schema: string, name: string)

  type Dependencies = seq<(ViewName, ViewName)>

  // ---------------------------------------------------------------- the order of names

  predicate Less(a: ViewName, b: ViewName) {
    TextLess(a.schema, b.schema) || (a.schema == b.schema && TextLess(a.name, b.name))
  }

  lemma NameOrder(a: ViewName, b: ViewName, c: ViewName)
    ensures !(Less(a, b) && Less(b, a))
    ensures Less(a, b) || a == b || Less(b, a)
    ensures Less(a, b) && Less(b, c) ==> Less(a, c)
  {
    TextOrdered(a.schema, b.schema, c.schema);
    TextOrdered(b.schema, a.schema, c.schema);
    TextOrdered(a.name, b.name, c.name);
    TextOrdered(b.schema, c.schema, a.schema);
  }

  ghost predicate IsLeast(v: ViewName, s: set<ViewName>) {
    v in s && forall u :: u in s && u != v ==> Less(v, u)
  }

  lemma LeastExists(s: set<ViewName>) returns (v: ViewName)
    requires s != {}
    ensures IsLeast(v, s)
  {
    v :| v in s;
    var rest := s - {v};
    if rest == {} {
      assert forall w :: w in s && w != v ==> w in rest;
    } else {
      var u := LeastExists(rest);
      NameOrder(u, v, v);
      var least := if Less(u, v) then u else v;
      forall w | w in s && w != least
        ensures Less(least, w)
      {
        if w != u && w != v {
          assert w in rest && Less(u, w);
        }
        NameOrder(v, u, w);
      }
      v := least;
    }
  }

  lemma HasLeast(s: set<ViewName>)
    requires s != {}
    ensures exists v :: IsLeast(v, s)
  {
    var v := LeastExists(s);
  }

  ghost function Least(s: set<ViewName>): (v: ViewName)
    requires s != {}
    ensures IsLeast(v, s)
  {
    HasLeast(s);
    var v :| IsLeast(v, s);
    v
  }

  /** The elements of a set in ascending order. */
  ghost function Sorted(s: set<ViewName>): seq<ViewName>
    decreases |s|
  {
    if s == {} then [] else [Least(s)] + Sorted(s - {Least(s)})
  }

  ghost predicate OnceEach(views: set<ViewName>, ordered: seq<ViewName>) {
    && (forall v :: v in ordered <==> v in views)
    && (forall i, j :: 0 <= i < j < |ordered| ==> ordered[i] != ordered[j])
  }

  /** Sorting lists every element once, each one before all greater ones. */
  lemma {:induction false} SortedInOrder(s: set<ViewName>)
    ensures OnceEach(s, Sorted(s))
    ensures forall i, j :: 0 <= i < j < |Sorted(s)| ==> Less(Sorted(s)[i], Sorted(s)[j])
    ensures forall i, j :: 0 <= i < j < |Sorted(s)| ==>
                             var a, b := Sorted(s)[i], Sorted(s)[j];
                             TextLess(a.schema, b.schema) || (a.schema == b.schema && TextLess(a.name, b.name))
    decreases |s|
  {
    if s != {} {
      var least := Least(s);
      var tail := Sorted(s - {least});
      SortedInOrder(s - {least});
      assert forall v :: v in tail <==> v in s - {least};
      assert Sorted(s) == [least] + tail;
    }
  }

  lemma LeastIsUnique(s: set<ViewName>, v: ViewName)
    requires IsLeast(v, s)
    ensures v == Least(s)
  {
    NameOrder(v, Least(s), v);
  }

  /** Python's sorted, on a set. */
  method Sort(s: set<ViewName>) returns (r: seq<ViewName>)
    ensures r == Sorted(s)
  {
    r := [];
    var left := s;
    while left != {}
      invariant r + Sorted(left) == Sorted(s)
      decreases left
    {
      HasLeast(left);
      var v :| v in left && forall u :: u in left && u != v ==> Less(v, u);
      LeastIsUnique(left, v);
      assert Sorted(left) == [v] + Sorted(left - {v});
      assert r + Sorted(left) == (r + [v]) + Sorted(left - {v});
      r, left := r + [v], left - {v};
    }
  }

  // ---------------------------------------------------------------- dependencies, chains and cycles

  /** A dependency counts only between views that are being ordered. */
  predicate Needs(views: set<ViewName>, deps: Dependencies, source: ViewName, dependent: ViewName) {
    source in views && dependent in views && (source, dependent) in deps
  }

  /** A chain of n dependencies ends at v. */
  ghost predicate Chain(views: set<ViewName>, deps: Dependencies, v: ViewName, n: nat)
    decreases n
  {
    v in views && (n > 0 ==> exists u :: Needs(views, deps, u, v) && Chain(views, deps, u, n - 1))
  }

  /** Each view of a walk is needed by the next. */
  ghost predicate Link(views: set<ViewName>, deps: Dependencies, w: seq<ViewName>, i: nat)
    requires i + 1 < |w|
  {
    Needs(views, deps, w[i], w[i + 1])
  }

  ghost predicate IsCycle(views: set<ViewName>, deps: Dependencies, c: seq<ViewName>) {
    && c != []
    && (forall i :: 0 <= i < |c| - 1 ==> Link(views, deps, c, i))
    && Needs(views, deps, c[|c| - 1], c[0])
  }

  ghost predicate Cyclic(views: set<ViewName>, deps: Dependencies) {
    exists c :: IsCycle(views, deps, c)
  }

  /** What is left after n rounds. */
  ghost function Remaining(views: set<ViewName>, deps: Dependencies, n: nat): set<ViewName> {
    set v | v in views && Chain(views, deps, v, n)
  }

  /** The views whose longest chain of dependencies has exactly n links. */
  ghost function Layer(views: set<ViewName>, deps: Dependencies, n: nat): set<ViewName> {
    Remaining(views, deps, n) - Remaining(views, deps, n + 1)
  }

  /** The first n layers, each in ascending order. */
  ghost function Layers(views: set<ViewName>, deps: Dependencies, n: nat): seq<ViewName> {
    if n == 0 then [] else Layers(views, deps, n - 1) + Sorted(Layer(views, deps, n - 1))
  }

  lemma {:induction false} ChainsShorten(views: set<ViewName>, deps: Dependencies, v: ViewName, n: nat)
    requires Chain(views, deps, v, n + 1)
    ensures Chain(views, deps, v, n)
    decreases n
  {
    if n > 0 {
      var u :| Needs(views, deps, u, v) && Chain(views, deps, u, n);
      ChainsShorten(views, deps, u, n - 1);
    }
  }

  lemma RemainingShrinks(views: set<ViewName>, deps: Dependencies, n: nat)
    ensures Remaining(views, deps, n + 1) <= Remaining(views, deps, n)
  {
    forall v | v in Remaining(views, deps, n + 1)
      ensures v in Remaining(views, deps, n)
    {
      ChainsShorten(views, deps, v, n);
    }
  }

  /** Exactly the views of the layer have no prerequisite left. */
  lemma ReadyIsLayer(views: set<ViewName>, deps: Dependencies, n: nat, v: ViewName)
    requires v in Remaining(views, deps, n)
    ensures v in Layer(views, deps, n) <==>
            forall u :: u in Remaining(views, deps, n) ==> !Needs(views, deps, u, v)
  {
  }

  /** On a cycle, chains have every length. */
  lemma {:induction false} CyclesChain(views: set<ViewName>, deps: Dependencies, c: seq<ViewName>, i: nat, n: nat)
    requires IsCycle(views, deps, c) && i < |c|
    ensures Chain(views, deps, c[i], n)
    decreases n
  {
    if n > 0 {
      var p := if i == 0 then |c| - 1 else i - 1;
      CyclesChain(views, deps, c, p, n - 1);
      assert i == 0 || Link(views, deps, c, p);
      assert Needs(views, deps, c[p], c[i]);
    } else {
      assert i == 0 || Link(views, deps, c, i - 1);
    }
  }

  ghost predicate Backwards(views: set<ViewName>, deps: Dependencies, stuck: set<ViewName>, w: seq<ViewName>) {
    && (forall v :: v in w ==> v in stuck)
    && (forall i :: 0 <= i < |w| - 1 ==> Link(views, deps, w, i))
  }

  ghost predicate Waits(views: set<ViewName>, deps: Dependencies, stuck: set<ViewName>, v: ViewName) {
    exists u :: u in stuck && Needs(views, deps, u, v)
  }

  /** Every stuck view waits for another one. */
  ghost predicate Stuck(views: set<ViewName>, deps: Dependencies, stuck: set<ViewName>) {
    stuck <= views && forall v {:trigger Waits(views, deps, stuck, v)} :: v in stuck ==> Waits(views, deps, stuck, v)
  }

  lemma OneStepBack(views: set<ViewName>, deps: Dependencies, stuck: set<ViewName>, u: ViewName, rest: seq<ViewName>)
    requires Backwards(views, deps, stuck, rest) && rest != []
    requires u in stuck && Needs(views, deps, u, rest[0])
    ensures Backwards(views, deps, stuck, [u] + rest)
  {
    var w := [u] + rest;
    forall i | 0 <= i < |w| - 1
      ensures Link(views, deps, w, i)
    {
      assert i == 0 || Link(views, deps, rest, i - 1);
    }
  }

  lemma {:induction false} WalkBack(views: set<ViewName>, deps: Dependencies, stuck: set<ViewName>, n: nat) returns (w: seq<ViewName>)
    requires Stuck(views, deps, stuck) && stuck != {}
    ensures |w| == n && Backwards(views, deps, stuck, w)
  {
    if n == 0 {
      w := [];
    } else {
      var rest := WalkBack(views, deps, stuck, n - 1);
      if rest == [] {
        var v :| v in stuck;
        w := [v];
      } else {
        assert rest[0] in rest && Waits(views, deps, stuck, rest[0]);
        var u :| u in stuck && Needs(views, deps, u, rest[0]);
        w := [u] + rest;
        OneStepBack(views, deps, stuck, u, rest);
      }
    }
  }

  /** A walk longer than the set it stays in repeats itself. */
  lemma {:induction false} MustRepeat(w: seq<ViewName>, s: set<ViewName>)
    requires (forall v :: v in w ==> v in s) && |w| > |s|
    ensures exists i, j :: 0 <= i < j < |w| && w[i] == w[j]
    decreases |w|
  {
    var rest := w[1..];
    if w[0] in rest {
      var j :| 0 <= j < |rest| && rest[j] == w[0];
      assert w[0] == w[j + 1];
    } else {
      forall v | v in rest
        ensures v in s - {w[0]}
      {
      }
      MustRepeat(rest, s - {w[0]});
      var i, j :| 0 <= i < j < |rest| && rest[i] == rest[j];
      assert w[i + 1] == w[j + 1];
    }
  }

  lemma RepeatIsCycle(views: set<ViewName>, deps: Dependencies, stuck: set<ViewName>, w: seq<ViewName>)
    requires Backwards(views, deps, stuck, w) && |w| > |stuck|
    ensures Cyclic(views, deps)
  {
    MustRepeat(w, stuck);
    var i, j :| 0 <= i < j < |w| && w[i] == w[j];
    LoopIsCycle(views, deps, stuck, w, i, j);
  }

  lemma LoopIsCycle(views: set<ViewName>, deps: Dependencies, stuck: set<ViewName>, w: seq<ViewName>, i: nat, j: nat)
    requires Backwards(views, deps, stuck, w) && i < j < |w| && w[i] == w[j]
    ensures IsCycle(views, deps, w[i..j])
  {
    var c := w[i..j];
    forall k | 0 <= k < |c| - 1
      ensures Link(views, deps, c, k)
    {
      assert Link(views, deps, w, i + k);
    }
    assert Link(views, deps, w, j - 1);
  }

  /** When every stuck view waits for another stuck view, there is a cycle. */
  lemma StuckMeansCycle(views: set<ViewName>, deps: Dependencies, stuck: set<ViewName>)
    requires Stuck(views, deps, stuck) && stuck != {}
    ensures Cyclic(views, deps)
  {
    var w := WalkBack(views, deps, stuck, |stuck| + 1);
    RepeatIsCycle(views, deps, stuck, w);
  }

  /** Views on a cycle are never peeled off. */
  lemma CyclesRemain(views: set<ViewName>, deps: Dependencies, n: nat)
    ensures Cyclic(views, deps) ==> Remaining(views, deps, n) != {}
  {
    if Cyclic(views, deps) {
      var c :| IsCycle(views, deps, c);
      CyclesChain(views, deps, c, 0, n);
      assert c[0] in Remaining(views, deps, n);
    }
  }

  // ---------------------------------------------------------------- the order

  ghost predicate DependenciesFirst(views: set<ViewName>, deps: Dependencies, ordered: seq<ViewName>) {
    forall j, u :: 0 <= j < |ordered| && Needs(views, deps, u, ordered[j]) ==> u in ordered[..j]
  }

  ghost predicate Peeled(views: set<ViewName>, deps: Dependencies, n: nat, ordered: seq<ViewName>) {
    OnceEach(views - Remaining(views, deps, n), ordered) && DependenciesFirst(views, deps, ordered)
  }

  lemma OnceEachJoins(a: set<ViewName>, first: seq<ViewName>, b: set<ViewName>, second: seq<ViewName>)
    requires OnceEach(a, first) && OnceEach(b, second) && a !! b
    ensures OnceEach(a + b, first + second)
  {
    var both := first + second;
    forall i, j | 0 <= i < j < |both|
      ensures both[i] != both[j]
    {
      if i < |first| <= j {
        assert both[i] in first && both[j] in second;
      }
    }
  }

  /** A layer may follow the views peeled off before it. */
  lemma LayerFollows(views: set<ViewName>, deps: Dependencies, n: nat, before: seq<ViewName>, next: seq<ViewName>)
    requires Peeled(views, deps, n, before) && OnceEach(Layer(views, deps, n), next)
    ensures DependenciesFirst(views, deps, before + next)
  {
    var ordered := before + next;
    forall j, u | 0 <= j < |ordered| && Needs(views, deps, u, ordered[j])
      ensures u in ordered[..j]
    {
      if j < |before| {
        assert ordered[..j] == before[..j];
      } else {
        assert ordered[j] == next[j - |before|] && ordered[j] in next;
        ReadyIsLayer(views, deps, n, ordered[j]);
        assert u in before;
        assert ordered[..j] == before + next[..j - |before|];
      }
    }
  }

  lemma {:induction false} LayersPeel(views: set<ViewName>, deps: Dependencies, n: nat)
    ensures Peeled(views, deps, n, Layers(views, deps, n))
  {
    if n == 0 {
      assert Remaining(views, deps, 0) == views;
    } else {
      var before, layer := Layers(views, deps, n - 1), Layer(views, deps, n - 1);
      LayersPeel(views, deps, n - 1);
      RemainingShrinks(views, deps, n - 1);
      SortedInOrder(layer);
      LayerFollows(views, deps, n - 1, before, Sorted(layer));
      OnceEachJoins(views - Remaining(views, deps, n - 1), before, layer, Sorted(layer));
      assert views - Remaining(views, deps, n) == (views - Remaining(views, deps, n - 1)) + layer;
    }
  }

  /** Past the last layer nothing is added. */
  lemma {:induction false} LayersStop(views: set<ViewName>, deps: Dependencies, n: nat, more: nat)
    requires Remaining(views, deps, n) == {}
    ensures Remaining(views, deps, n + more) == {} && Layers(views, deps, n + more) == Layers(views, deps, n)
    decreases more
  {
    if more > 0 {
      LayersStop(views, deps, n, more - 1);
      RemainingShrinks(views, deps, n + more - 1);
      assert Layer(views, deps, n + more - 1) == {};
    }
  }

  lemma EmptiedMeansOrdered(views: set<ViewName>, deps: Dependencies, n: nat)
    requires Remaining(views, deps, n) == {} && n <= |views|
    ensures !Cyclic(views, deps)
    ensures Layers(views, deps, n) == Layers(views, deps, |views|)
    ensures OnceEach(views, Layers(views, deps, n)) && DependenciesFirst(views, deps, Layers(views, deps, n))
  {
    CyclesRemain(views, deps, n);
    LayersPeel(views, deps, n);
    LayersStop(views, deps, n, |views| - n);
    assert views - Remaining(views, deps, n) == views;
  }

  function AsSet(views: seq<ViewName>): set<ViewName> { set v | v in views }

  ghost predicate Prerequisites(views: set<ViewName>, deps: Dependencies, p: map<ViewName, set<ViewName>>) {
    p.Keys == views && forall u, v :: v in views ==> (u in p[v] <==> Needs(views, deps, u, v))
  }

  method CollectPrerequisites(views: set<ViewName>, dependencies: Dependencies)
    returns (prerequisites: map<ViewName, set<ViewName>>)
    ensures Prerequisites(views, dependencies, prerequisites)
  {
    prerequisites := map v | v in views :: {};
    for i := 0 to |dependencies|
      invariant Prerequisites(views, dependencies[..i], prerequisites)
    {
      var (source, dependent) := dependencies[i];
      assert dependencies[..i + 1] == dependencies[..i] + [dependencies[i]];
      if source in views && dependent in views {
        prerequisites := prerequisites[dependent := prerequisites[dependent] + {source}];
      }
    }
    assert dependencies[..|dependencies|] == dependencies;
  }

  ghost predicate Peeling(views: set<ViewName>, deps: Dependencies, n: nat, remaining: set<ViewName>, ordered: seq<ViewName>) {
    && remaining == Remaining(views, deps, n)
    && ordered == Layers(views, deps, n)
    && n + |remaining| <= |views|
  }

  ghost predicate Respects(views: seq<ViewName>, deps: Dependencies, ordered: seq<ViewName>) {
    && (forall v :: v in ordered <==> v in views)
    && (forall i, j :: 0 <= i < |ordered| && 0 <= j < |ordered| && (ordered[i], ordered[j]) in deps ==> i < j)
  }

  ghost predicate Waiting(views: seq<ViewName>, deps: Dependencies, stuck: set<ViewName>) {
    forall v :: v in stuck ==> v in views && exists u :: u in stuck && (u, v) in deps
  }

  lemma OrderRespects(views: seq<ViewName>, deps: Dependencies, ordered: seq<ViewName>)
    requires OnceEach(AsSet(views), ordered) && DependenciesFirst(AsSet(views), deps, ordered)
    ensures Respects(views, deps, ordered)
  {
    forall i, j | 0 <= i < |ordered| && 0 <= j < |ordered| && (ordered[i], ordered[j]) in deps
      ensures i < j
    {
      assert ordered[i] in ordered && ordered[j] in ordered;
      assert Needs(AsSet(views), deps, ordered[i], ordered[j]);
      var k :| 0 <= k < j && ordered[..j][k] == ordered[i];
    }
  }

  lemma StuckIsWaiting(views: seq<ViewName>, deps: Dependencies, stuck: set<ViewName>)
    requires Stuck(AsSet(views), deps, stuck)
    ensures Waiting(views, deps, stuck)
  {
    forall v | v in stuck
      ensures exists u :: u in stuck && (u, v) in deps
    {
      assert Waits(AsSet(views), deps, stuck, v);
      var u :| u in stuck && Needs(AsSet(views), deps, u, v);
    }
  }

  /** The rounds: each takes the views that wait for none of those left. */
  method PeelLayers(views: seq<ViewName>, dependencies: Dependencies) returns (r: Result<seq<ViewName>, set<ViewName>>)
    ensures r.Err? <==> Cyclic(AsSet(views), dependencies)
    ensures r.Ok? ==> r.value == Layers(AsSet(views), dependencies, |AsSet(views)|)
    ensures r.Ok? ==> OnceEach(AsSet(views), r.value) && DependenciesFirst(AsSet(views), dependencies, r.value)
    ensures r.Err? ==> r.error != {} && Stuck(AsSet(views), dependencies, r.error)
  {
    var remaining := AsSet(views);
    var prerequisites := CollectPrerequisites(remaining, dependencies);
    var ordered: seq<ViewName> := [];
    ghost var all, n: nat := remaining, 0;
    while remaining != {}
      invariant Peeling(all, dependencies, n, remaining, ordered)
      decreases |remaining|
    {
      var ready := set v | v in remaining && prerequisites[v] * remaining == {};
      OneLayer(all, dependencies, n, remaining, prerequisites, ready, ordered);
      if ready == {} {
        StuckMeansCycle(all, dependencies, remaining);
        return Err(remaining);
      }
      var layer := Sort(ready);
      ordered := ordered + layer;
      remaining := remaining - ready;
      n := n + 1;
    }
    EmptiedMeansOrdered(all, dependencies, n);
    return Ok(ordered);
  }

  /**
   Every view once, dependencies first; failing exactly when the dependencies among the views
   have a cycle.  The order is the sorted layers, so it depends on the sets of views and
   dependencies only.
   */
  method OrderViews(views: seq<ViewName>, dependencies: Dependencies) returns (r: Result<seq<ViewName>, set<ViewName>>)
    ensures r.Err? <==> Cyclic(AsSet(views), dependencies)
    ensures r.Ok? ==> r.value == Layers(AsSet(views), dependencies, |AsSet(views)|)
    ensures r.Ok? ==> OnceEach(AsSet(views), r.value) && DependenciesFirst(AsSet(views), dependencies, r.value)
    // Every listed dependency between two of the views is respected; what cannot be ordered waits for itself.
    ensures r.Ok? ==> Respects(views, dependencies, r.value)
    ensures r.Err? ==> r.error != {} && Stuck(AsSet(views), dependencies, r.error) && Waiting(views, dependencies, r.error)
  {
    r := PeelLayers(views, dependencies);
    if r.Ok? {
      OrderRespects(views, dependencies, r.value);
    } else {
      StuckIsWaiting(views, dependencies, r.error);
    }
  }

  lemma RemovalShrinks(remaining: set<ViewName>, ready: set<ViewName>)
    requires ready <= remaining && ready != {}
    ensures |remaining - ready| < |remaining|
  {
    assert |remaining - ready| + |ready| == |remaining| by {
      assert remaining == (remaining - ready) + ready;
    }
  }

  /** The ready views are the next layer; without any, every remaining view waits for another. */
  lemma ReadyViews(views: set<ViewName>, deps: Dependencies, n: nat, remaining: set<ViewName>,
                   prerequisites: map<ViewName, set<ViewName>>, ready: set<ViewName>)
    requires remaining == Remaining(views, deps, n) && Prerequisites(views, deps, prerequisites)
    requires ready == set v | v in remaining && prerequisites[v] * remaining == {}
    ensures ready == Layer(views, deps, n) && remaining - ready == Remaining(views, deps, n + 1)
    ensures ready == {} ==> Stuck(views, deps, remaining)
  {
    RemainingShrinks(views, deps, n);
    forall v | v in remaining
      ensures v in ready <==> v in Layer(views, deps, n)
      ensures v !in ready ==> Waits(views, deps, remaining, v)
    {
      ReadyIsLayer(views, deps, n, v);
      if v !in ready {
        var u :| u in prerequisites[v] * remaining;
      } else {
        assert forall u :: u in remaining ==> u !in prerequisites[v] * remaining;
      }
    }
  }

  /** One round of the loop peels off one layer. */
  lemma OneLayer(views: set<ViewName>, deps: Dependencies, n: nat, remaining: set<ViewName>,
                 prerequisites: map<ViewName, set<ViewName>>, ready: set<ViewName>, ordered: seq<ViewName>)
    requires Peeling(views, deps, n, remaining, ordered) && Prerequisites(views, deps, prerequisites)
    requires ready == set v | v in remaining && prerequisites[v] * remaining == {}
    ensures ready == {} ==> Stuck(views, deps, remaining)
    ensures ready != {} ==> |remaining - ready| < |remaining| &&
                            Peeling(views, deps, n + 1, remaining - ready, ordered + Sorted(ready))
  {
    ReadyViews(views, deps, n, remaining, prerequisites, ready);
    if ready != {} {
      RemovalShrinks(remaining, ready);
    }
  }

  /** Reordering or repeating the inputs changes nothing. */
  lemma {:induction false} OrderIgnoresInputOrder(views: set<ViewName>, deps: Dependencies, others: Dependencies, n: nat)
    requires forall d :: d in deps <==> d in others
    ensures Layers(views, deps, n) == Layers(views, others, n)
    ensures Cyclic(views, deps) <==> Cyclic(views, others)
    decreases n
  {
    forall c
      ensures IsCycle(views, deps, c) <==> IsCycle(views, others, c)
    {
      forall i | 0 <= i < |c| - 1
        ensures Link(views, deps, c, i) <==> Link(views, others, c, i)
      {
      }
    }
    if n > 0 {
      OrderIgnoresInputOrder(views, deps, others, n - 1);
      forall v, k: nat
        ensures Chain(views, deps, v, k) <==> Chain(views, others, v, k)
      {
        ChainsAgree(views, deps, others, v, k);
      }
      assert Remaining(views, deps, n - 1) == Remaining(views, others, n - 1);
      assert Remaining(views, deps, n) == Remaining(views, others, n);
    }
  }

  lemma {:induction false} ChainsAgree(views: set<ViewName>, deps: Dependencies, others: Dependencies, v: ViewName, n: nat)
    requires forall d :: d in deps <==> d in others
    ensures Chain(views, deps, v, n) <==> Chain(views, others, v, n)
    decreases n
  {
    if n > 0 {
      forall u
        ensures Chain(views, deps, u, n - 1) <==> Chain(views, others, u, n - 1)
        ensures Needs(views, deps, u, v) <==> Needs(views, others, u, v)
      {
        ChainsAgree(views, deps, others, u, n - 1);
      }
    }
  }
}
