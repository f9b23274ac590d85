/**
 The breadth-first walk over an error's response, cause and context, which may form
 cycles (api/wikimedia_rate_limiter.py, _exception_sources).  Objects are their identities.
 */
module ExceptionSources {
  import opened Wrappers

  type Id = int

  datatype Links = Links(response: Option<Id>, cause: Option<Id>, context: Option<Id>)

  type Graph = map<Id, Links>

  function Successors(g: Graph, x: Id): seq<Option<Id>>
    requires x in g
  {
    [g[x].response, g[x].cause, g[x].context]
  }

  ghost predicate Closed(g: Graph) {
    forall x, y :: x in g && Some(y) in Successors(g, x) ==> y in g
  }

  /** x is the end of a walk of n links from the root. */
  ghost predicate Walk(g: Graph, root: Id, x: Id, n: nat)
    decreases n
  {
    if n == 0 then x == root
    else exists y :: y in g && Walk(g, root, y, n - 1) && Some(x) in Successors(g, y)
  }

  ghost predicate Reachable(g: Graph, root: Id, x: Id) {
    exists n: nat :: Walk(g, root, x, n)
  }

  ghost predicate IsDistance(g: Graph, root: Id, x: Id, d: int) {
    d >= 0 && Walk(g, root, x, d) && forall n: nat :: n < d ==> !Walk(g, root, x, n)
  }

  /** A queued object with the depth at which it was found. */
  datatype Waiting = Waiting(source: Option<Id>, depth: int)

  /** The walk with its bookkeeping: the depth of everything seen, queued and yielded. */
  datatype Search = Search(seen: map<Id, int>, queue: seq<Waiting>, level: int, yielded: seq<Id>)

  ghost function Start(root: Id): Search { Search(map[], [Waiting(Some(root), 0)], 0, []) }

  ghost function Popped(s: Search): Search
    requires s.queue != []
  {
    s.(queue := s.queue[1..], level := s.queue[0].depth)
  }

  ghost function Visited(g: Graph, s: Search): Search
    requires s.queue != [] && s.queue[0].source.Some? && s.queue[0].source.value in g
  {
    var x, d := s.queue[0].source.value, s.queue[0].depth;
    Search(s.seen[x := d],
           s.queue[1..] + [Waiting(g[x].response, d + 1), Waiting(g[x].cause, d + 1), Waiting(g[x].context, d + 1)],
           d, s.yielded + [x])
  }

  /** y waits in the queue at a depth of at most d. */
  ghost predicate Awaits(queue: seq<Waiting>, y: Id, d: int) {
    exists i :: 0 <= i < |queue| && queue[i].source == Some(y) && queue[i].depth <= d
  }

  /** y was seen, or waits, within depth d. */
  ghost predicate Covered(s: Search, y: Id, d: int) {
    (y in s.seen && s.seen[y] <= d) || Awaits(s.queue, y, d)
  }

  /** The queue holds depths in order, and never spans more than two levels. */
  ghost predicate Layered(s: Search) {
    && 0 <= s.level
    && (forall i, j :: 0 <= i < j < |s.queue| ==> s.queue[i].depth <= s.queue[j].depth)
    && (forall i :: 0 <= i < |s.queue| ==> s.level <= s.queue[i].depth <= s.level + 1)
  }

  ghost predicate Sound(g: Graph, root: Id, s: Search) {
    && (forall x :: x in s.seen ==> x in g && 0 <= s.seen[x] <= s.level && Walk(g, root, x, s.seen[x]))
    && (forall i :: 0 <= i < |s.queue| && s.queue[i].source.Some? ==>
                      s.queue[i].source.value in g && s.queue[i].depth >= 0
                      && Walk(g, root, s.queue[i].source.value, s.queue[i].depth))
  }

  ghost predicate Complete(g: Graph, root: Id, s: Search) {
    && Covered(s, root, 0)
    && forall x, y :: x in s.seen && x in g && Some(y) in Successors(g, x) ==> Covered(s, y, s.seen[x] + 1)
  }

  /** What was yielded is what was seen, once each, in order of depth. */
  ghost predicate InOrder(s: Search) {
    && (forall x :: x in s.yielded <==> x in s.seen)
    && (forall i, j :: 0 <= i < j < |s.yielded| ==> s.yielded[i] != s.yielded[j])
    && (forall i, j :: 0 <= i < j < |s.yielded| && s.yielded[i] in s.seen && s.yielded[j] in s.seen ==>
                         s.seen[s.yielded[i]] <= s.seen[s.yielded[j]])
  }

  ghost predicate Exploring(g: Graph, root: Id, s: Search) {
    Layered(s) && Sound(g, root, s) && Complete(g, root, s) && InOrder(s)
  }

  /** Yields every reachable object exactly once, nearest first. */
  method Sources(g: Graph, root: Id) returns (yielded: seq<Id>, ghost distance: map<Id, int>)
    requires Closed(g) && root in g
    ensures forall i, j :: 0 <= i < j < |yielded| ==> yielded[i] != yielded[j]
    ensures forall x :: x in yielded <==> Reachable(g, root, x)
    ensures forall i :: 0 <= i < |yielded| ==>
                          yielded[i] in distance && IsDistance(g, root, yielded[i], distance[yielded[i]])
    ensures forall i, j :: 0 <= i < j < |yielded| && yielded[i] in distance && yielded[j] in distance ==>
                             distance[yielded[i]] <= distance[yielded[j]]
  {
    var seen: set<Id> := {};
    var pending: seq<Option<Id>> := [Some(root)];
    yielded := [];
    ghost var s := Start(root);
    StartsExploring(g, root);
    while pending != []
      invariant Exploring(g, root, s)
      invariant s.seen.Keys == seen && s.yielded == yielded && SourcesOf(s.queue) == pending
      decreases |g.Keys - seen|, |pending|
    {
      var source := pending[0];
      pending := pending[1..];
      if source.None? || source.value in seen {
        PopKeepsExploring(g, root, s);
        s := Popped(s);
        continue;
      }
      UnseenShrinks(g.Keys, seen, source.value);
      VisitKeepsExploring(g, root, s);
      s := Visited(g, s);
      seen := seen + {source.value};
      yielded := yielded + [source.value];
      pending := pending + Successors(g, source.value);
    }
    distance := s.seen;
    ExploredAll(g, root, s);
  }

  ghost function SourcesOf(queue: seq<Waiting>): (r: seq<Option<Id>>)
    ensures |r| == |queue| && forall i :: 0 <= i < |queue| ==> r[i] == queue[i].source
  {
    seq(|queue|, i requires 0 <= i < |queue| => queue[i].source)
  }

  lemma StartsExploring(g: Graph, root: Id)
    requires root in g
    ensures Exploring(g, root, Start(root))
  {
    assert Start(root).queue[0] == Waiting(Some(root), 0);
  }

  lemma UnseenShrinks(all: set<Id>, seen: set<Id>, x: Id)
    requires x in all && x !in seen
    ensures |all - (seen + {x})| < |all - seen|
  {
    assert all - (seen + {x}) == (all - seen) - {x};
  }

  /** Dropping an absent or already seen front entry loses no coverage. */
  lemma PopKeepsExploring(g: Graph, root: Id, s: Search)
    requires Exploring(g, root, s) && s.queue != []
    requires s.queue[0].source.Some? ==> s.queue[0].source.value in s.seen
    ensures Exploring(g, root, Popped(s)) && SourcesOf(Popped(s).queue) == SourcesOf(s.queue)[1..]
  {
    forall y, d: int | Covered(s, y, d)
      ensures Covered(Popped(s), y, d)
    {
      if !(y in s.seen && s.seen[y] <= d) {
        var i :| 0 <= i < |s.queue| && s.queue[i].source == Some(y) && s.queue[i].depth <= d;
        assert s.queue[1..][i - 1] == s.queue[i];
      }
    }
  }

  /** Visiting the front entry and queueing its three links keeps every part of the invariant. */
  lemma VisitKeepsExploring(g: Graph, root: Id, s: Search)
    requires Closed(g) && Exploring(g, root, s) && s.queue != []
    requires s.queue[0].source.Some? && s.queue[0].source.value in g && s.queue[0].source.value !in s.seen
    ensures Exploring(g, root, Visited(g, s))
    ensures SourcesOf(Visited(g, s).queue) == SourcesOf(s.queue)[1..] + Successors(g, s.queue[0].source.value)
  {
    VisitKeepsSound(g, root, s);
    VisitKeepsComplete(g, root, s);
  }

  lemma VisitKeepsSound(g: Graph, root: Id, s: Search)
    requires Closed(g) && Layered(s) && Sound(g, root, s) && s.queue != []
    requires s.queue[0].source.Some? && s.queue[0].source.value in g && s.queue[0].source.value !in s.seen
    ensures Sound(g, root, Visited(g, s))
  {
    var x, d, t := s.queue[0].source.value, s.queue[0].depth, Visited(g, s);
    forall i | 0 <= i < |t.queue| && t.queue[i].source.Some?
      ensures t.queue[i].source.value in g && t.queue[i].depth >= 0
      ensures Walk(g, root, t.queue[i].source.value, t.queue[i].depth)
    {
      if i < |s.queue| - 1 {
        assert t.queue[i] == s.queue[i + 1];
      } else {
        var k := i - (|s.queue| - 1);
        assert t.queue[i].source == Successors(g, x)[k] && t.queue[i].depth == d + 1;
        var y := t.queue[i].source.value;
        assert Walk(g, root, x, d) && Some(y) in Successors(g, x);
      }
    }
  }

  lemma VisitKeepsComplete(g: Graph, root: Id, s: Search)
    requires Complete(g, root, s) && s.queue != []
    requires s.queue[0].source.Some? && s.queue[0].source.value in g && s.queue[0].source.value !in s.seen
    ensures Complete(g, root, Visited(g, s))
  {
    var x, d, t := s.queue[0].source.value, s.queue[0].depth, Visited(g, s);
    forall y, e: int | Covered(s, y, e)
      ensures Covered(t, y, e)
    {
      if !(y in s.seen && s.seen[y] <= e) {
        var i :| 0 <= i < |s.queue| && s.queue[i].source == Some(y) && s.queue[i].depth <= e;
        if i > 0 {
          assert t.queue[i - 1] == s.queue[i];
        }
      }
    }
    forall y | Some(y) in Successors(g, x)
      ensures Covered(t, y, d + 1)
    {
      var k :| 0 <= k < 3 && Successors(g, x)[k] == Some(y);
      assert t.queue[|s.queue| - 1 + k] == Waiting(Some(y), d + 1);
    }
  }

  /** Once nothing waits, every walk ends at an object seen at no greater depth. */
  lemma {:induction false} WalksAreSeen(g: Graph, root: Id, s: Search, x: Id, n: nat)
    requires Exploring(g, root, s) && s.queue == [] && Walk(g, root, x, n)
    ensures x in s.seen && s.seen[x] <= n
    decreases n
  {
    if n > 0 {
      var y :| y in g && Walk(g, root, y, n - 1) && Some(x) in Successors(g, y);
      WalksAreSeen(g, root, s, y, n - 1);
    }
  }

  lemma ExploredAll(g: Graph, root: Id, s: Search)
    requires Exploring(g, root, s) && s.queue == []
    ensures forall x :: x in s.yielded <==> Reachable(g, root, x)
    ensures forall x :: x in s.yielded ==> IsDistance(g, root, x, s.seen[x])
  {
    forall x, n: nat | Walk(g, root, x, n)
      ensures x in s.seen && s.seen[x] <= n
    {
      WalksAreSeen(g, root, s, x, n);
    }
  }
}
