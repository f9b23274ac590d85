/**
 What a failed request teaches the limiter (api/wikimedia_rate_limiter.py, observe_exception): the
 nearest source of an error that names a status, a delay or a lag decides.
 */
module ErrorObserver {
  import opened ExceptionSources
  import opened RateLimiter
  import opened Wrappers

  const FORBIDDEN: int := 403
  const TOO_MANY_REQUESTS: int := 429
  const SERVICE_UNAVAILABLE: int := 503

  /** What one source names, once parsed; delays and lags that are negative or not finite are dropped or raised to 0. */
  datatype Clues = Clues(status: Option<int>, retryAfter: Option<real>, lag: Option<real>)

  predicate NonNegative(clues: Clues) {
    (clues.retryAfter.Some? ==> clues.retryAfter.value >= 0.0) && (clues.lag.Some? ==> clues.lag.value >= 0.0)
  }

  /** The error itself: its links, what its sources name, and how its own code and type name read. */
  datatype Failure = Failure(graph: Graph, root: Id, clues: Id -> Clues, maxlag: bool, rateLimited: bool)

  ghost predicate WellFormed(e: Failure) {
    Closed(e.graph) && e.root in e.graph && forall x :: NonNegative(e.clues(x))
  }

  /** The value that a source names, none nearer naming any; none at all if no reachable source does. */
  ghost predicate Nearest<T(!new)>(g: Graph, root: Id, of: Id -> Option<T>, r: Option<T>) {
    if r.None? then forall x :: Reachable(g, root, x) ==> of(x).None?
    else exists x, d :: NamesFirst(g, root, of, x, d) && of(x) == r
  }

  ghost predicate NamesFirst<T(!new)>(g: Graph, root: Id, of: Id -> Option<T>, x: Id, d: int) {
    IsDistance(g, root, x, d) && of(x).Some? && forall y, e :: IsDistance(g, root, y, e) && e < d ==> of(y).None?
  }

  method FromSources<T(!new)>(g: Graph, root: Id, of: Id -> Option<T>) returns (r: Option<T>)
    requires Closed(g) && root in g
    ensures Nearest(g, root, of, r)
  {
    var sources, distance := Sources(g, root);
    for i := 0 to |sources|
      invariant forall k :: 0 <= k < i ==> of(sources[k]).None?
    {
      if of(sources[i]).Some? {
        FirstIsNearest(g, root, of, sources, distance, i);
        return of(sources[i]);
      }
    }
    return None;
  }

  lemma FirstIsNearest<T(!new)>(g: Graph, root: Id, of: Id -> Option<T>, sources: seq<Id>, distance: map<Id, int>, i: nat)
    requires i < |sources| && of(sources[i]).Some? && forall k :: 0 <= k < i ==> of(sources[k]).None?
    requires forall x :: x in sources <==> Reachable(g, root, x)
    requires forall k :: 0 <= k < |sources| ==> sources[k] in distance && IsDistance(g, root, sources[k], distance[sources[k]])
    requires forall k, l :: 0 <= k < l < |sources| ==> distance[sources[k]] <= distance[sources[l]]
    ensures NamesFirst(g, root, of, sources[i], distance[sources[i]])
  {
    forall y, e | IsDistance(g, root, y, e) && e < distance[sources[i]]
      ensures of(y).None?
    {
      assert Reachable(g, root, y);
      var k :| 0 <= k < |sources| && sources[k] == y;
      DistanceIsUnique(g, root, y, e, distance[y]);
    }
  }

  lemma DistanceIsUnique(g: Graph, root: Id, x: Id, a: int, b: int)
    requires IsDistance(g, root, x, a) && IsDistance(g, root, x, b)
    ensures a == b
  {
  }

  predicate Limited(e: Failure, status: Option<int>) {
    status in {Some(TOO_MANY_REQUESTS), Some(SERVICE_UNAVAILABLE)} || e.maxlag || e.rateLimited
  }

  /** The delay an error asks for: none of a forbidden request or of one that was not limited. */
  function Delay(e: Failure, status: Option<int>, retryAfter: Option<real>, lag: Option<real>): Option<real> {
    if status == Some(FORBIDDEN) || !Limited(e, status) then None
    else if retryAfter.Some? then retryAfter
    else if e.maxlag then lag
    else None
  }

  /** Only limited requests that were not forbidden ask for a delay: the one named, or else the lag of a lagging server. */
  lemma DelayIff(e: Failure, status: Option<int>, retryAfter: Option<real>, lag: Option<real>, d: real)
    ensures Delay(e, status, retryAfter, lag) == Some(d) <==>
            && status != Some(403) && (status == Some(429) || status == Some(503) || e.maxlag || e.rateLimited)
            && (retryAfter == Some(d) || (retryAfter.None? && e.maxlag && lag == Some(d)))
  {
  }

  /** A status is always looked for; a delay only of a limited request, a lag only without a delay. */
  ghost predicate LookedUp(e: Failure, status: Option<int>, retryAfter: Option<real>, lag: Option<real>) {
    && Nearest(e.graph, e.root, (x: Id) => e.clues(x).status, status)
    && (status != Some(403) && (status == Some(429) || status == Some(503) || e.maxlag || e.rateLimited) ==>
          && Nearest(e.graph, e.root, (x: Id) => e.clues(x).retryAfter, retryAfter)
          && (retryAfter.None? && e.maxlag ==> Nearest(e.graph, e.root, (x: Id) => e.clues(x).lag, lag)))
  }

  lemma DelaysAreNonNegative(e: Failure, status: Option<int>, retryAfter: Option<real>, lag: Option<real>)
    requires WellFormed(e) && LookedUp(e, status, retryAfter, lag)
    ensures Delay(e, status, retryAfter, lag).Some? ==> Delay(e, status, retryAfter, lag).value >= 0.0
  {
    if status != Some(FORBIDDEN) && Limited(e, status) {
      if retryAfter.Some? {
        var x, d :| NamesFirst(e.graph, e.root, (x: Id) => e.clues(x).retryAfter, x, d) && e.clues(x).retryAfter == retryAfter;
        assert NonNegative(e.clues(x));
      } else if e.maxlag && lag.Some? {
        var x, d :| NamesFirst(e.graph, e.root, (x: Id) => e.clues(x).lag, x, d) && e.clues(x).lag == lag;
        assert NonNegative(e.clues(x));
      }
    }
  }

  /** Extends the embargo by exactly the delay the error asks for, if any, and says whether it did. */
  method ObserveException(limiter: WikimediaRateLimiter, e: Failure, fault: Fault)
    returns (r: Result<bool, LimitError>, status: Option<int>, retryAfter: Option<real>, lag: Option<real>)
    requires WellFormed(e)
    modifies limiter.redis
    ensures LookedUp(e, status, retryAfter, lag)
    ensures var delay := Delay(e, status, retryAfter, lag);
            && (delay.None? ==> r == Ok(false) && limiter.redis.State() == old(limiter.redis.State()))
            && (delay.Some? ==>
                  && r == (if fault.Healthy? then Ok(true) else Err(Unavailable))
                  && CeilReal(delay.value * 1_000_000.0) >= 0
                  && limiter.redis.State() ==
                     if fault.Unreachable? then old(limiter.redis.State())
                     else ExtendScript(old(limiter.redis.State()), CeilReal(delay.value * 1_000_000.0)).0)
  {
    retryAfter, lag := None, None;
    status := FromSources(e.graph, e.root, (x: Id) => e.clues(x).status);
    if status == Some(FORBIDDEN) {
      return Ok(false), status, retryAfter, lag;
    }
    if !Limited(e, status) {
      return Ok(false), status, retryAfter, lag;
    }
    retryAfter := FromSources(e.graph, e.root, (x: Id) => e.clues(x).retryAfter);
    var seconds := retryAfter;
    if seconds.None? && e.maxlag {
      lag := FromSources(e.graph, e.root, (x: Id) => e.clues(x).lag);
      seconds := lag;
    }
    DelaysAreNonNegative(e, status, retryAfter, lag);
    if seconds.None? {
      return Ok(false), status, retryAfter, lag;
    }
    var extended := limiter.ExtendEmbargo(seconds.value, fault);
    r := if extended.Err? then Err(extended.error) else Ok(true);
  }

  /**
   Once an error was observed that asks for a delay, by the event that observing it is to the server, no
   request of any process is granted a start before the delay has passed.
   */
  lemma ObservedDelaysHold(s: Server, events: seq<Event>, i: nat, j: nat, e: Failure,
                           status: Option<int>, retryAfter: Option<real>, lag: Option<real>)
    requires KeysSound(s) && i < j < |events| && WellFormed(e) && LookedUp(e, status, retryAfter, lag)
    requires var delay := Delay(e, status, retryAfter, lag);
             delay.Some? && events[i].Extend? && events[i].retryUs == CeilReal(delay.value * 1_000_000.0)
    requires Granted(Run(s, events).log[j])
    ensures (StartOf(Run(s, events).log[j]) - Run(s, events).log[i].atUs) as real >=
            Delay(e, status, retryAfter, lag).value * 1_000_000.0
  {
    RunsArePaced(s, events);
    LogFollowsEvents(s, events);
    assert Barrier(Run(s, events).log[i]) == Some(Run(s, events).log[i].atUs + events[i].retryUs);
  }
}
