/**
 Global pacing of Wikimedia requests: two expiring Redis keys, one script that reserves
 a request start and one that extends an embargo (api/wikimedia_rate_limiter.py).

 Every script run is one atomic step at one instant of the server's microsecond clock.
 The clock never goes back, and a key whose deadline has passed may vanish at any later
 moment, as a step of its own.  Deadlines live on the millisecond clock, which is the
 microsecond clock rounded down.
 */
module RateLimiter {
  import opened Wrappers

  const WINDOW_US: int := 60_000_000

  /** A Redis value with the millisecond instant from which the server may drop it. */
  datatype Entry = Entry(value: int, deadlineMs: int)

  datatype Key = Schedule | Embargo

  datatype Server = Server(nowUs: nat, schedule: Option<Entry>, embargo: Option<Entry>)

  /** What can happen on the server.  An `Expire` of a live or absent key does nothing. */
  datatype Event =
    | Tick(us: nat)
    | Expire(key: Key)
    | Reserve(intervalUs: nat, maxWaitUs: nat)
    | Extend(retryUs: nat)

  datatype Reply = NoReply | Reservation(accepted: bool, waitUs: int) | Remaining(us: int)

  // ---------------------------------------------------------------- rounding

  function Max(a: int, b: int): int { if a < b then b else a }

  /** The least integer that is not below. */
  function CeilReal(x: real): (n: int)
    ensures (n - 1) as real < x <= n as real
  {
    -((-x).Floor)
  }

  function CeilMs(us: int): int { -((-us) / 1000) }

  function ValueOr(key: Option<Entry>, default: int): int {
    match key
    case None => default
    case Some(entry) => entry.value
  }

  // ---------------------------------------------------------------- the two scripts

  function ReserveScript(s: Server, intervalUs: nat, maxWaitUs: nat): (Server, Reply) {
    var start := Max(s.nowUs, Max(ValueOr(s.schedule, s.nowUs), ValueOr(s.embargo, s.nowUs)));
    var wait := start - s.nowUs;
    if wait > maxWaitUs then
      (s, Reservation(false, wait))
    else
      var following := start + intervalUs;
      var ttlMs := Max(1000, CeilMs(following - s.nowUs) + 1000);
      (s.(schedule := Some(Entry(following, s.nowUs / 1000 + ttlMs))), Reservation(true, wait))
  }

  function ExtendScript(s: Server, retryUs: nat): (Server, Reply) {
    var candidate := s.nowUs + retryUs;
    var current := ValueOr(s.embargo, s.nowUs);
    if candidate > current then
      var ttlMs := Max(1, CeilMs(retryUs) + 1000);
      (s.(embargo := Some(Entry(candidate, s.nowUs / 1000 + ttlMs))), Remaining(Max(0, candidate - s.nowUs)))
    else
      (s, Remaining(Max(0, current - s.nowUs)))
  }

  function Expired(s: Server, key: Option<Entry>): bool {
    key.Some? && s.nowUs / 1000 >= key.value.deadlineMs
  }

  function Step(s: Server, e: Event): (Server, Reply) {
    match e
    case Tick(us) => (s.(nowUs := s.nowUs + us), NoReply)
    case Expire(Schedule) => (if Expired(s, s.schedule) then s.(schedule := None) else s, NoReply)
    case Expire(Embargo) => (if Expired(s, s.embargo) then s.(embargo := None) else s, NoReply)
    case Reserve(intervalUs, maxWaitUs) => ReserveScript(s, intervalUs, maxWaitUs)
    case Extend(retryUs) => ExtendScript(s, retryUs)
  }

  // ---------------------------------------------------------------- runs

  /** One line of the run's log: when a step ran, what it was, and what it answered. */
  datatype Record = Record(atUs: nat, event: Event, reply: Reply)

  datatype Outcome = Outcome(server: Server, log: seq<Record>)

  /** Any interleaving of any number of clients is a sequence of events. */
  function Run(s: Server, events: seq<Event>): (o: Outcome)
    ensures |o.log| == |events|
  {
    if events == [] then Outcome(s, [])
    else
      var before := Run(s, events[..|events| - 1]);
      var e := events[|events| - 1];
      var (server, reply) := Step(before.server, e);
      Outcome(server, before.log + [Record(before.server.nowUs, e, reply)])
  }

  predicate Answered(r: Record) { r.event.Reserve? && r.reply.Reservation? }

  /** The start that a reservation was given, or refused for lying too far ahead. */
  function Offered(r: Record): int
    requires Answered(r)
  {
    r.atUs + r.reply.waitUs
  }

  predicate Granted(r: Record) { Answered(r) && r.reply.accepted }

  function StartOf(r: Record): int
    requires Granted(r)
  {
    r.atUs + r.reply.waitUs
  }

  /** The instant before which a step forbids later grants to start. */
  function Barrier(r: Record): Option<int> {
    if Granted(r) then Some(StartOf(r) + r.event.intervalUs)
    else if r.event.Extend? then Some(r.atUs + r.event.retryUs)
    else None
  }

  /** No deadline falls before the instant the key stands for. */
  ghost predicate KeysSound(s: Server) {
    && (s.schedule.Some? ==> s.schedule.value.value <= 1000 * s.schedule.value.deadlineMs)
    && (s.embargo.Some? ==> s.embargo.value.value <= 1000 * s.embargo.value.deadlineMs)
  }

  /** What a key means to a reader, who falls back on the current instant. */
  function Horizon(s: Server, key: Option<Entry>): int {
    Max(s.nowUs, ValueOr(key, s.nowUs))
  }

  lemma CeilMsCovers(us: int, nowUs: nat)
    ensures us <= 1000 * CeilMs(us)
    ensures nowUs <= 1000 * (nowUs / 1000) + 999
  {
  }

  /** A step keeps deadlines sound and never brings either horizon nearer; its own barrier is within them. */
  lemma StepKeepsHorizons(s: Server, e: Event)
    requires KeysSound(s)
    ensures var (t, reply) := Step(s, e);
            && KeysSound(t)
            && t.nowUs >= s.nowUs
            && Horizon(t, t.schedule) >= Horizon(s, s.schedule)
            && Horizon(t, t.embargo) >= Horizon(s, s.embargo)
            && (Answered(Record(s.nowUs, e, reply)) ==>
                  && Offered(Record(s.nowUs, e, reply)) >= Horizon(s, s.schedule)
                  && Offered(Record(s.nowUs, e, reply)) >= Horizon(s, s.embargo))
            && (Granted(Record(s.nowUs, e, reply)) ==>
                  StartOf(Record(s.nowUs, e, reply)) + e.intervalUs <= Horizon(t, t.schedule))
            && (e.Extend? ==> s.nowUs + e.retryUs <= Horizon(t, t.embargo))
  {
    match e
    case Reserve(intervalUs, maxWaitUs) =>
      var start := Max(s.nowUs, Max(ValueOr(s.schedule, s.nowUs), ValueOr(s.embargo, s.nowUs)));
      CeilMsCovers(start + intervalUs - s.nowUs, s.nowUs);
    case Extend(retryUs) =>
      CeilMsCovers(retryUs, s.nowUs);
    case _ =>
  }

  /** Every barrier in the log is still within the horizons of the server. */
  ghost predicate BarriersHeld(o: Outcome) {
    forall i :: 0 <= i < |o.log| && Barrier(o.log[i]).Some? ==>
                  Barrier(o.log[i]).value <=
                  (if Granted(o.log[i]) then Horizon(o.server, o.server.schedule) else Horizon(o.server, o.server.embargo))
  }

  /** Starts, granted or refused, respect all barriers put up before them, whoever put them up. */
  ghost predicate Paced(log: seq<Record>) {
    forall i, j :: 0 <= i < j < |log| && Answered(log[j]) && Barrier(log[i]).Some? ==>
                     Barrier(log[i]).value <= Offered(log[j])
  }

  /** Spacing and embargo, over every interleaving: no start, granted or refused, lies before an earlier barrier. */
  lemma {:induction false} RunsArePaced(s: Server, events: seq<Event>)
    requires KeysSound(s)
    ensures Paced(Run(s, events).log)
    ensures KeysSound(Run(s, events).server) && BarriersHeld(Run(s, events))
  {
    if events != [] {
      var prefix := events[..|events| - 1];
      RunsArePaced(s, prefix);
      StepKeepsHorizons(Run(s, prefix).server, events[|events| - 1]);
    }
  }

  /** The embargo a client can observe never shortens. */
  lemma {:induction false} EmbargoNeverShortens(s: Server, events: seq<Event>, more: seq<Event>)
    requires KeysSound(s)
    ensures var early, late := Run(s, events).server, Run(s, events + more).server;
            Horizon(early, early.embargo) <= Horizon(late, late.embargo)
  {
    if more == [] {
      assert events + more == events;
    } else {
      var shorter := events + more[..|more| - 1];
      assert (events + more)[..|events + more| - 1] == shorter;
      EmbargoNeverShortens(s, events, more[..|more| - 1]);
      RunsArePaced(s, shorter);
      StepKeepsHorizons(Run(s, shorter).server, more[|more| - 1]);
    }
  }

  ghost predicate SomeBarrier(log: seq<Record>, n: nat, us: int)
    requires n <= |log|
  {
    exists i :: 0 <= i < n && Barrier(log[i]) == Some(us)
  }

  /** Starts, granted or refused, are at once or when an earlier barrier falls, and the keys hold barriers of the log. */
  ghost predicate Tight(o: Outcome) {
    && (forall j :: 0 <= j < |o.log| && Answered(o.log[j]) ==>
                      Offered(o.log[j]) == o.log[j].atUs || SomeBarrier(o.log, j, Offered(o.log[j])))
    && (o.server.schedule.Some? ==> SomeBarrier(o.log, |o.log|, o.server.schedule.value.value))
    && (o.server.embargo.Some? ==> SomeBarrier(o.log, |o.log|, o.server.embargo.value.value))
  }

  lemma BarriersStay(log: seq<Record>, n: nat, us: int, r: Record)
    requires n <= |log| && SomeBarrier(log, n, us)
    ensures SomeBarrier(log + [r], n, us) && SomeBarrier(log + [r], |log| + 1, us)
  {
    var i :| 0 <= i < n && Barrier(log[i]) == Some(us);
    assert Barrier((log + [r])[i]) == Some(us);
  }

  lemma StepStaysTight(o: Outcome, e: Event)
    requires Tight(o)
    ensures var (server, reply) := Step(o.server, e);
            Tight(Outcome(server, o.log + [Record(o.server.nowUs, e, reply)]))
  {
    var (server, reply) := Step(o.server, e);
    var r := Record(o.server.nowUs, e, reply);
    var log, n := o.log + [r], |o.log|;
    forall j | 0 <= j < n && Answered(o.log[j])
      ensures Offered(log[j]) == log[j].atUs || SomeBarrier(log, j, Offered(log[j]))
    {
      if Offered(o.log[j]) != o.log[j].atUs {
        BarriersStay(o.log, j, Offered(o.log[j]), r);
      }
    }
    if o.server.schedule.Some? {
      BarriersStay(o.log, n, o.server.schedule.value.value, r);
    }
    if o.server.embargo.Some? {
      BarriersStay(o.log, n, o.server.embargo.value.value, r);
    }
    assert log[n] == r;
    assert Barrier(r).Some? ==> SomeBarrier(log, n + 1, Barrier(r).value);
  }

  /** No needless delay, over every run from empty keys. */
  lemma {:induction false} StartsAreTight(nowUs: nat, events: seq<Event>)
    ensures Tight(Run(Server(nowUs, None, None), events))
  {
    if events != [] {
      var n := |events| - 1;
      StartsAreTight(nowUs, events[..n]);
      StepStaysTight(Run(Server(nowUs, None, None), events[..n]), events[n]);
    }
  }

  /** When the last of the barriers in the log falls. */
  function LastBarrier(log: seq<Record>): int {
    if log == [] then 0
    else
      var barrier := Barrier(log[|log| - 1]);
      Max(LastBarrier(log[..|log| - 1]), if barrier.Some? then barrier.value else 0)
  }

  lemma {:induction false} LastBarrierIs(log: seq<Record>)
    ensures forall i :: 0 <= i < |log| && Barrier(log[i]).Some? ==> Barrier(log[i]).value <= LastBarrier(log)
    ensures LastBarrier(log) == 0 || SomeBarrier(log, |log|, LastBarrier(log))
  {
    if log != [] {
      var n := |log| - 1;
      LastBarrierIs(log[..n]);
      if LastBarrier(log) == LastBarrier(log[..n]) != 0 {
        var i :| 0 <= i < n && Barrier(log[..n][i]) == Some(LastBarrier(log));
        assert Barrier(log[i]) == Some(LastBarrier(log));
      }
    }
  }

  /**
   From empty keys, every reservation is offered exactly the earliest start that all grants and embargoes
   before it allow, and is granted exactly if it need not wait for longer than it says.
   */
  lemma StartsAreExact(nowUs: nat, events: seq<Event>, j: nat)
    requires j < |events| && events[j].Reserve?
    ensures var log := Run(Server(nowUs, None, None), events).log;
            && Answered(log[j]) && Offered(log[j]) == Max(log[j].atUs, LastBarrier(log[..j]))
            && (log[j].reply.accepted <==> log[j].reply.waitUs <= events[j].maxWaitUs)
  {
    var log := Run(Server(nowUs, None, None), events).log;
    StartsAreTight(nowUs, events);
    RunsArePaced(Server(nowUs, None, None), events);
    RepliesFit(Server(nowUs, None, None), events, j);
    LastBarrierIs(log[..j]);
    if Offered(log[j]) != log[j].atUs {
      var i :| 0 <= i < j && Barrier(log[i]) == Some(Offered(log[j]));
      assert Barrier(log[..j][i]) == Some(Offered(log[j]));
    }
    if LastBarrier(log[..j]) != 0 {
      var i :| 0 <= i < j && Barrier(log[..j][i]) == Some(LastBarrier(log[..j]));
      assert Barrier(log[i]).Some?;
    }
  }

  lemma {:induction false} RepliesFit(s: Server, events: seq<Event>, j: nat)
    requires j < |events|
    ensures var r := Run(s, events).log[j];
            && r.event == events[j]
            && (events[j].Reserve? ==> Answered(r) && r.reply.waitUs >= 0 && (r.reply.accepted <==> r.reply.waitUs <= events[j].maxWaitUs))
            && (events[j].Extend? ==> r.reply.Remaining?)
    decreases |events|
  {
    if j < |events| - 1 {
      RepliesFit(s, events[..|events| - 1], j);
      assert events[..|events| - 1][j] == events[j];
    }
  }

  /** The end of the latest embargo asked for. */
  function EmbargoEnd(log: seq<Record>): nat {
    if log == [] then 0
    else
      var r := log[|log| - 1];
      Max(EmbargoEnd(log[..|log| - 1]), if r.event.Extend? then r.atUs + r.event.retryUs else 0)
  }

  lemma EmbargoMoves(s: Server, end: nat, e: Event)
    requires KeysSound(s) && Horizon(s, s.embargo) == Max(s.nowUs, end)
    ensures var (t, reply) := Step(s, e);
            var later := Max(end, if e.Extend? then s.nowUs + e.retryUs else 0);
            Horizon(t, t.embargo) == Max(t.nowUs, later) && (e.Extend? ==> reply == Remaining(Max(s.nowUs, later) - s.nowUs))
  {
    StepKeepsHorizons(s, e);
  }

  lemma {:induction false} EmbargoIsLatest(nowUs: nat, events: seq<Event>)
    ensures var o := Run(Server(nowUs, None, None), events);
            Horizon(o.server, o.server.embargo) == Max(o.server.nowUs, EmbargoEnd(o.log))
  {
    if events != [] {
      var n := |events| - 1;
      var before := Run(Server(nowUs, None, None), events[..n]);
      EmbargoIsLatest(nowUs, events[..n]);
      RunsArePaced(Server(nowUs, None, None), events[..n]);
      EmbargoMoves(before.server, EmbargoEnd(before.log), events[n]);
      assert Run(Server(nowUs, None, None), events).log[..n] == before.log;
    }
  }

  lemma EmbargoEndNext(log: seq<Record>, n: nat)
    requires |log| == n + 1
    ensures EmbargoEnd(log) == Max(EmbargoEnd(log[..n]), if log[n].event.Extend? then log[n].atUs + log[n].event.retryUs else 0)
  {
  }

  lemma RunLast(s: Server, events: seq<Event>, n: nat)
    requires |events| == n + 1
    ensures var before, o := Run(s, events[..n]), Run(s, events);
            o.log[..n] == before.log && o.log[n] == Record(before.server.nowUs, events[n], Step(before.server, events[n]).1)
  {
  }

  lemma LastRemaining(nowUs: nat, events: seq<Event>, n: nat)
    requires |events| == n + 1 && events[n].Extend?
    ensures var log := Run(Server(nowUs, None, None), events).log;
            log[n].reply == Remaining(Max(0, EmbargoEnd(log) - log[n].atUs))
  {
    var before := Run(Server(nowUs, None, None), events[..n]);
    EmbargoIsLatest(nowUs, events[..n]);
    RunsArePaced(Server(nowUs, None, None), events[..n]);
    EmbargoMoves(before.server, EmbargoEnd(before.log), events[n]);
    RunLast(Server(nowUs, None, None), events, n);
    EmbargoEndNext(Run(Server(nowUs, None, None), events).log, n);
  }

  lemma {:induction false} LogStays(s: Server, events: seq<Event>, n: nat)
    requires n <= |events|
    ensures Run(s, events).log[..n] == Run(s, events[..n]).log
    decreases |events|
  {
    if n < |events| {
      LogStays(s, events[..|events| - 1], n);
      assert events[..|events| - 1][..n] == events[..n];
    } else {
      assert events[..n] == events;
    }
  }

  /** From empty keys, what is reported to be left of the embargo is exactly what is left of the latest one asked for. */
  lemma RemainingIsExact(nowUs: nat, events: seq<Event>, j: nat)
    requires j < |events| && events[j].Extend?
    ensures var log := Run(Server(nowUs, None, None), events).log;
            log[j].reply == Remaining(Max(0, EmbargoEnd(log[..j + 1]) - log[j].atUs))
  {
    LogStays(Server(nowUs, None, None), events, j + 1);
    LastRemaining(nowUs, events[..j + 1], j);
    LastOf(Run(Server(nowUs, None, None), events).log, j);
  }

  lemma LastOf(log: seq<Record>, j: nat)
    requires j < |log|
    ensures log[..j + 1][j] == log[j]
  {
  }

  // ---- how long keys are kept

  /** A key outlives the instant it stands for by a second, give or take a millisecond. */
  ghost predicate KeptASecond(key: Option<Entry>) {
    key.Some? ==> 999_000 <= 1000 * key.value.deadlineMs - key.value.value <= 1_001_000
  }

  lemma {:induction false} KeysKeptASecond(nowUs: nat, events: seq<Event>)
    ensures var s := Run(Server(nowUs, None, None), events).server; KeptASecond(s.schedule) && KeptASecond(s.embargo)
  {
    if events != [] {
      KeysKeptASecond(nowUs, events[..|events| - 1]);
    }
  }

  // ---- a burst

  function Burst(intervalUs: nat, maxWaitUs: nat, n: nat): seq<Event> { seq(n, _ => Reserve(intervalUs, maxWaitUs)) }

  /** Of reservations at one instant, the first n that fit the budget wait for 0, 1, 2, ... intervals, and the next is refused. */
  lemma {:induction false} BurstsAreSpaced(nowUs: nat, intervalUs: nat, maxWaitUs: nat, n: nat)
    requires n > 0 ==> (n - 1) * intervalUs <= maxWaitUs
    ensures var o := Run(Server(nowUs, None, None), Burst(intervalUs, maxWaitUs, n));
            && o.server.nowUs == nowUs && o.server.embargo.None?
            && (forall k :: 0 <= k < n ==> o.log[k].reply == Reservation(true, k * intervalUs))
            && (n == 0 ==> o.server.schedule.None?) && (n > 0 ==> ValueOr(o.server.schedule, 0) == nowUs + n * intervalUs)
            && ReserveScript(o.server, intervalUs, maxWaitUs).1 == Reservation(n * intervalUs <= maxWaitUs, n * intervalUs)
  {
    if n > 0 {
      var events := Burst(intervalUs, maxWaitUs, n);
      assert events[..n - 1] == Burst(intervalUs, maxWaitUs, n - 1);
      assert n * intervalUs == (n - 1) * intervalUs + intervalUs;
      assert n > 1 ==> (n - 2) * intervalUs <= (n - 1) * intervalUs by {
        assert n > 1 ==> (n - 1) * intervalUs == (n - 2) * intervalUs + intervalUs;
      }
      BurstsAreSpaced(nowUs, intervalUs, maxWaitUs, n - 1);
    }
  }

  // ---------------------------------------------------------------- expiry is unobservable

  /** The same scripts on a server that never drops a key. */
  function RunEternal(s: Server, events: seq<Event>): (o: Outcome)
    ensures |o.log| == |events|
  {
    if events == [] then Outcome(s, [])
    else
      var before := RunEternal(s, events[..|events| - 1]);
      var e := events[|events| - 1];
      var (server, reply) := if e.Expire? then (before.server, NoReply) else Step(before.server, e);
      Outcome(server, before.log + [Record(before.server.nowUs, e, reply)])
  }

  ghost predicate KeyForgotten(key: Option<Entry>, eternal: Option<Entry>, nowUs: nat) {
    key == eternal || (key.None? && eternal.Some? && eternal.value.value <= nowUs)
  }

  ghost predicate Forgets(s: Server, eternal: Server) {
    && s.nowUs == eternal.nowUs
    && KeyForgotten(s.schedule, eternal.schedule, s.nowUs)
    && KeyForgotten(s.embargo, eternal.embargo, s.nowUs)
  }

  /** Key expiry changes no reply of any run: the expiring server refines the eternal one. */
  lemma {:induction false} ExpiryIsUnobservable(s: Server, events: seq<Event>)
    requires KeysSound(s)
    ensures Run(s, events).log == RunEternal(s, events).log
    ensures Forgets(Run(s, events).server, RunEternal(s, events).server)
  {
    if events != [] {
      var prefix := events[..|events| - 1];
      ExpiryIsUnobservable(s, prefix);
      RunsArePaced(s, prefix);
      StepForgets(Run(s, prefix).server, RunEternal(s, prefix).server, events[|events| - 1]);
    }
  }

  lemma StepForgets(s: Server, eternal: Server, e: Event)
    requires KeysSound(s) && Forgets(s, eternal)
    ensures var (t, reply) := Step(s, e);
            var (u, same) := if e.Expire? then (eternal, NoReply) else Step(eternal, e);
            reply == same && Forgets(t, u)
  {
  }

  // ---------------------------------------------------------------- windowed counts

  /** At this interval, a minute's worth of requests takes a minute at least. */
  predicate FillsMinute(us: real, requestsPerMinute: real) { us * requestsPerMinute >= 60_000_000.0 }

  predicate LeastInterval(us: int, requestsPerMinute: real) {
    FillsMinute(us as real, requestsPerMinute) && !FillsMinute((us - 1) as real, requestsPerMinute)
  }

  function IntervalUs(requestsPerMinute: real): (us: int)
    requires requestsPerMinute > 0.0
    ensures LeastInterval(us, requestsPerMinute) && us > 0
  {
    RoundedUpIsLeast(requestsPerMinute);
    CeilReal(60_000_000.0 / requestsPerMinute)
  }

  lemma RoundedUpIsLeast(requestsPerMinute: real)
    requires requestsPerMinute > 0.0
    ensures var us := CeilReal(60_000_000.0 / requestsPerMinute); LeastInterval(us, requestsPerMinute) && us > 0
  {
    var gap := 60_000_000.0 / requestsPerMinute;
    GapIs(gap, requestsPerMinute);
    LeastAbove(gap, CeilReal(gap), requestsPerMinute);
  }

  lemma GapIs(gap: real, requestsPerMinute: real)
    requires requestsPerMinute > 0.0 && gap == 60_000_000.0 / requestsPerMinute
    ensures gap > 0.0 && gap * requestsPerMinute == 60_000_000.0
  {
  }

  lemma LeastAbove(gap: real, us: int, requestsPerMinute: real)
    requires requestsPerMinute > 0.0 && gap * requestsPerMinute == 60_000_000.0 && (us - 1) as real < gap <= us as real
    ensures LeastInterval(us, requestsPerMinute)
  {
    FillsFrom(gap, us as real, requestsPerMinute);
    FillsFrom(gap, (us - 1) as real, requestsPerMinute);
  }

  lemma FillsFrom(gap: real, us: real, requestsPerMinute: real)
    requires requestsPerMinute > 0.0 && gap * requestsPerMinute == 60_000_000.0
    ensures FillsMinute(us, requestsPerMinute) <==> us >= gap
  {
    if us < gap {
      RealProductBelow(us, gap, requestsPerMinute);
    } else if us > gap {
      RealProductBelow(gap, us, requestsPerMinute);
    }
  }

  lemma RealProductBelow(a: real, b: real, c: real)
    requires a < b && c > 0.0
    ensures a * c < b * c
  {
  }

  /** How many grants start inside the half-open window [lo, hi). */
  function GrantsIn(log: seq<Record>, lo: int, hi: int): nat {
    if log == [] then 0
    else
      var last := log[|log| - 1];
      GrantsIn(log[..|log| - 1], lo, hi) + if Granted(last) && lo <= StartOf(last) < hi then 1 else 0
  }

  /** In a paced log, n grants of one interval inside a window span at least n - 1 intervals. */
  lemma {:induction false} GrantsSpan(log: seq<Record>, lo: int, hi: int, intervalUs: nat) returns (k: nat)
    requires Paced(log)
    requires forall i :: 0 <= i < |log| && log[i].event.Reserve? ==> log[i].event.intervalUs == intervalUs
    requires GrantsIn(log, lo, hi) > 0
    ensures k < |log| && Granted(log[k]) && lo <= StartOf(log[k]) < hi
    ensures StartOf(log[k]) >= lo + (GrantsIn(log, lo, hi) - 1) * intervalUs
  {
    var init, last := log[..|log| - 1], |log| - 1;
    var earlier := GrantsIn(init, lo, hi);
    assert Paced(init) by { PrefixPaced(log, last); }
    if !(Granted(log[last]) && lo <= StartOf(log[last]) < hi) {
      k := GrantsSpan(init, lo, hi, intervalUs);
    } else if earlier == 0 {
      k := last;
    } else {
      var m := GrantsSpan(init, lo, hi, intervalUs);
      assert Barrier(log[m]) == Some(StartOf(log[m]) + intervalUs);
      OneMoreInterval(lo, earlier, intervalUs, StartOf(log[m]), StartOf(log[last]));
      k := last;
    }
  }

  lemma OneMoreInterval(lo: int, n: nat, intervalUs: nat, a: int, b: int)
    requires a >= lo + (n - 1) * intervalUs && b >= a + intervalUs
    ensures b >= lo + n * intervalUs
  {
    assert n * intervalUs == (n - 1) * intervalUs + intervalUs;
  }

  lemma PrefixPaced(log: seq<Record>, n: nat)
    requires Paced(log) && n <= |log|
    ensures Paced(log[..n])
  {
  }

  lemma IntervalLimitsCount(requestsPerMinute: real, n: nat)
    requires requestsPerMinute > 0.0 && n > 0
    requires (n - 1) * IntervalUs(requestsPerMinute) < WINDOW_US
    ensures n <= CeilReal(requestsPerMinute)
  {
    if (n - 1) as real >= requestsPerMinute {
      IntervalsFillMinute(requestsPerMinute, n - 1);
    }
  }

  lemma IntervalsFillMinute(requestsPerMinute: real, n: nat)
    requires 0.0 < requestsPerMinute <= n as real
    ensures n * IntervalUs(requestsPerMinute) >= WINDOW_US
  {
    var gap := 60_000_000.0 / requestsPerMinute;
    var interval := IntervalUs(requestsPerMinute);
    assert gap * requestsPerMinute == 60_000_000.0;
    RealProductsGrow(requestsPerMinute, n as real, gap, interval as real);
    assert (n * interval) as real == n as real * interval as real;
  }

  lemma RealProductsGrow(a: real, b: real, c: real, d: real)
    requires 0.0 <= a <= b && 0.0 <= c <= d
    ensures a * c <= b * d
  {
    assert a * c <= b * c;
    assert b * c <= b * d;
  }

  /** Any half-open minute holds at most ceil(requests_per_minute) granted starts. */
  lemma AtMostRatePerMinute(s: Server, events: seq<Event>, requestsPerMinute: real, from: int)
    requires KeysSound(s) && requestsPerMinute > 0.0
    requires forall i :: 0 <= i < |events| && events[i].Reserve? ==> events[i].intervalUs == IntervalUs(requestsPerMinute)
    ensures GrantsIn(Run(s, events).log, from, from + WINDOW_US) <= CeilReal(requestsPerMinute)
  {
    var log := Run(s, events).log;
    var n := GrantsIn(log, from, from + WINDOW_US);
    RunsArePaced(s, events);
    LogFollowsEvents(s, events);
    assert 60_000_000.0 / requestsPerMinute > 0.0;
    if n > 0 {
      var k := GrantsSpan(log, from, from + WINDOW_US, IntervalUs(requestsPerMinute));
      IntervalLimitsCount(requestsPerMinute, n);
    }
  }

  lemma {:induction false} LogFollowsEvents(s: Server, events: seq<Event>)
    ensures forall i :: 0 <= i < |events| ==> Run(s, events).log[i].event == events[i]
  {
    if events != [] {
      LogFollowsEvents(s, events[..|events| - 1]);
    }
  }

  // ---------------------------------------------------------------- the server and its client

  /** The Redis server as the scripts see it. */
  class Redis {
    var nowUs: nat
    var schedule: Option<Entry>
    var embargo: Option<Entry>

    ghost function State(): Server
      reads this
    {
      Server(nowUs, schedule, embargo)
    }

    constructor (nowUs: nat)
      ensures State() == Server(nowUs, None, None) && KeysSound(State())
    {
      this.nowUs := nowUs;
      schedule, embargo := None, None;
    }

    method EvalReserve(intervalUs: nat, maxWaitUs: nat) returns (accepted: bool, waitUs: int)
      modifies this
      ensures (State(), Reservation(accepted, waitUs)) == ReserveScript(old(State()), intervalUs, maxWaitUs)
      ensures 0 <= waitUs && (accepted <==> waitUs <= maxWaitUs)
      ensures !accepted ==> unchanged(this)
    {
      var nextStart := ValueOr(schedule, nowUs);
      var embargoUntil := ValueOr(embargo, nowUs);
      var start := Max(nowUs, Max(nextStart, embargoUntil));
      waitUs := start - nowUs;
      if waitUs > maxWaitUs {
        return false, waitUs;
      }
      var following := start + intervalUs;
      var ttlMs := Max(1000, CeilMs(following - nowUs) + 1000);
      schedule := Some(Entry(following, nowUs / 1000 + ttlMs));
      return true, waitUs;
    }

    method EvalExtend(retryUs: nat) returns (remainingUs: int)
      modifies this
      ensures (State(), Remaining(remainingUs)) == ExtendScript(old(State()), retryUs)
      ensures remainingUs >= retryUs
    {
      var candidate := nowUs + retryUs;
      var current := ValueOr(embargo, nowUs);
      if candidate > current {
        var ttlMs := Max(1, CeilMs(retryUs) + 1000);
        embargo := Some(Entry(candidate, nowUs / 1000 + ttlMs));
        current := candidate;
      }
      return Max(0, current - nowUs);
    }
  }

  /** The least number of microseconds that covers a delay. */
  ghost predicate LeastMicroseconds(us: int, seconds: real) { (us - 1) as real < seconds * 1_000_000.0 <= us as real }

  /** How an eval can fail: before the script ran, or after it ran but before the answer arrived. */
  datatype Fault = Healthy | Unreachable | ReplyLost

  datatype LimitError =
    | InvalidSetting
    | Unavailable
    | TooManyRequests(retryAfter: real)

  class WikimediaRateLimiter {
    const redis: Redis
    const intervalUs: nat
    const maxWaitSeconds: real
    const maxWaitUs: nat

    ghost predicate Valid() {
      maxWaitSeconds >= 0.0 && maxWaitUs as real <= maxWaitSeconds * 1_000_000.0 < (maxWaitUs + 1) as real
    }

    constructor (redis: Redis, requestsPerMinute: real, maxWaitSeconds: real)
      requires requestsPerMinute > 0.0 && maxWaitSeconds >= 0.0
      ensures Valid() && this.redis == redis && this.maxWaitSeconds == maxWaitSeconds
      ensures LeastInterval(intervalUs, requestsPerMinute) && intervalUs == IntervalUs(requestsPerMinute) && intervalUs > 0
    {
      assert CeilReal(60_000_000.0 / requestsPerMinute) == IntervalUs(requestsPerMinute);
      this.redis := redis;
      this.intervalUs := CeilReal(60_000_000.0 / requestsPerMinute);
      this.maxWaitSeconds := maxWaitSeconds;
      this.maxWaitUs := (maxWaitSeconds * 1_000_000.0).Floor;
    }

    /** The constructor with the argument checks the source makes before it; the prefix names the two keys of the server. */
    static method Create(redis: Redis, requestsPerMinute: real, maxWaitSeconds: real, keyPrefix: string)
      returns (r: Result<WikimediaRateLimiter, LimitError>)
      ensures r.Ok? <==> requestsPerMinute > 0.0 && maxWaitSeconds >= 0.0 && keyPrefix != ""
      ensures r.Ok? ==> r.value.Valid() && r.value.redis == redis && r.value.maxWaitSeconds == maxWaitSeconds
                        && LeastInterval(r.value.intervalUs, requestsPerMinute) && r.value.intervalUs == IntervalUs(requestsPerMinute)
      ensures r.Err? ==> r.error == InvalidSetting
    {
      if requestsPerMinute <= 0.0 || maxWaitSeconds < 0.0 || keyPrefix == "" {
        return Err(InvalidSetting);
      }
      var limiter := new WikimediaRateLimiter(redis, requestsPerMinute, maxWaitSeconds);
      return Ok(limiter);
    }

    /** Reserve one start; the seconds returned are slept before the request goes out. */
    method Acquire(fault: Fault) returns (r: Result<real, LimitError>)
      requires Valid()
      modifies redis
      ensures fault.Unreachable? ==> r == Err(Unavailable) && redis.State() == old(redis.State())
      ensures fault != Unreachable ==>
                redis.State() == ReserveScript(old(redis.State()), intervalUs, maxWaitUs).0
      ensures fault.ReplyLost? ==> r == Err(Unavailable)
      // What the script accepted is never rejected afterwards, and nothing else is accepted.
      ensures fault.Healthy? ==>
                var reply := ReserveScript(old(redis.State()), intervalUs, maxWaitUs).1;
                && (r.Ok? <==> reply.accepted)
                && (r.Ok? ==> r.value == reply.waitUs as real / 1_000_000.0 && 0.0 <= r.value <= maxWaitSeconds)
                && (r.Err? ==> r.error == TooManyRequests(reply.waitUs as real / 1_000_000.0)
                               && redis.State() == old(redis.State()))
    {
      if fault.Unreachable? {
        return Err(Unavailable);
      }
      var accepted, waitUs := redis.EvalReserve(intervalUs, maxWaitUs);
      if fault.ReplyLost? {
        return Err(Unavailable);
      }
      var waitSeconds := Max(0, waitUs) as real / 1_000_000.0;
      if !accepted || waitSeconds > maxWaitSeconds {
        return Err(TooManyRequests(waitSeconds));
      }
      return Ok(waitSeconds);
    }

    method ExtendEmbargo(retryAfterSeconds: real, fault: Fault) returns (r: Result<real, LimitError>)
      modifies redis
      ensures retryAfterSeconds < 0.0 ==> r == Err(InvalidSetting)
      ensures retryAfterSeconds < 0.0 || fault.Unreachable? ==> redis.State() == old(redis.State()) && r.Err?
      ensures retryAfterSeconds >= 0.0 && fault != Unreachable ==>
                exists retryUs: nat :: LeastMicroseconds(retryUs, retryAfterSeconds)
                                       && redis.State() == ExtendScript(old(redis.State()), retryUs).0
                                       && (r.Ok? ==> r.value == ExtendScript(old(redis.State()), retryUs).1.us as real / 1_000_000.0)
      ensures retryAfterSeconds >= 0.0 ==> (r.Ok? <==> fault.Healthy?) && (r.Err? ==> r == Err(Unavailable))
      // The embargo left to run is at least the one asked for.
      ensures r.Ok? ==> r.value >= retryAfterSeconds
    {
      if retryAfterSeconds < 0.0 {
        return Err(InvalidSetting);
      }
      if fault.Unreachable? {
        return Err(Unavailable);
      }
      var retryUs := CeilReal(retryAfterSeconds * 1_000_000.0);
      assert LeastMicroseconds(retryUs, retryAfterSeconds);
      var remainingUs := redis.EvalExtend(retryUs);
      if fault.ReplyLost? {
        return Err(Unavailable);
      }
      return Ok(Max(0, remainingUs) as real / 1_000_000.0);
    }
  }
}
