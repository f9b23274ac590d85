/**
 The queue of sampled page checks (wiktionary_irc.py, PageCheckQueueWorker).  It differs
 from the translation queue in two ways: `enqueue` puts a title before it enters the dedup
 set, so the consumer can take a title the set does not hold yet; and submissions keep a
 cooldown that is read again during every wait.

 Steps are as fine as the locks, queue operations, waits and clock readings of the source.
 A step that is not enabled leaves the state as it is.
 */
module PageCheckWorker {
  import opened Wrappers

  const MAX_RETRIES: nat := 5

  type Title = string

  datatype Response = Success | Transient | Fatal

  /** One accepted enqueue and how often `_submit` was called for it. */
  datatype Ticket = Ticket(title: Title, submits: nat)

  /** One request, when it was stamped, and the cooldown read last before it. */
  datatype Submission = Submission(at: real, cooldown: real)

  datatype Phase = AtLoop | Taking | Working(title: Title, stage: Stage) | Acknowledging | Exited

  datatype Stage =
    | Reading
    | Pacing(cooldown: real)
    | Napping
    | Ready(cooldown: real)
    | Stamping(cooldown: real)
    | Posting
    | Failing
    | Waiting
    | Requeueing
    | Finishing

  /**
   `held` is the title a callback has put but not yet added to the set, with the lock held.
   `open`, `tickets` and `submissions` are histories.
   */
  datatype State = State(
    capacity: nat,
    queue: seq<Title>,
    titles: set<Title>,
    retries: map<Title, nat>,
    stopped: bool,
    held: Option<Title>,
    phase: Phase,
    unfinished: nat,
    now: real,
    last: Option<real>,
    open: map<Title, nat>,
    tickets: seq<Ticket>,
    submissions: seq<Submission>)

  datatype Event =
    | Tick(seconds: real)
    | Put(title: Title)
    | Add
    | Stop
    | Restart
    | CheckStop
    | Take
    | ReadCooldown(cooldown: Option<real>)
    | Pace
    | Nap
    | CheckReady
    | Stamp
    | Post(response: Response)
    | CountRetry
    | WakeUp
    | Requeue
    | Release
    | Acknowledge

  function Initial(capacity: nat, now: real): State {
    State(capacity, [], {}, map[], false, None, AtLoop, 0, now, None, map[], [], [])
  }

  predicate Full(s: State) { s.capacity > 0 && |s.queue| >= s.capacity }

  predicate At(s: State, stage: Stage) { s.phase.Working? && s.phase.stage == stage }

  function MoveTo(s: State, stage: Stage): State
    requires s.phase.Working?
  {
    s.(phase := s.phase.(stage := stage))
  }

  function RetriesOf(retries: map<Title, nat>, title: Title): nat { if title in retries then retries[title] else 0 }

  // enqueue: put, then add, both under the lock

  function PutStep(s: State, title: Title): State {
    if s.held.Some? || title in s.titles || Full(s) then s
    else s.(queue := s.queue + [title], unfinished := s.unfinished + 1, held := Some(title),
            open := s.open[title := |s.tickets|], tickets := s.tickets + [Ticket(title, 0)])
  }

  function AddStep(s: State): State {
    if s.held.None? then s else s.(titles := s.titles + {s.held.value}, held := None)
  }

  function TakeStep(s: State): State {
    if !s.phase.Taking? then s
    else if s.queue == [] then s.(phase := AtLoop)
    else
      var title := s.queue[0];
      s.(queue := s.queue[1..], phase := Working(title, Reading),
         tickets := if title in s.open && s.open[title] < |s.tickets|
                    then s.tickets[s.open[title] := s.tickets[s.open[title]].(submits := s.tickets[s.open[title]].submits + 1)]
                    else s.tickets)
  }

  // _submit: read the cooldown, wait for it in short naps that read it again, stamp, post

  function ReadCooldownStep(s: State, cooldown: Option<real>): State {
    if !At(s, Reading) then s
    else match cooldown
         case None => MoveTo(s, Failing)
         case Some(c) => MoveTo(s, Pacing(c))
  }

  function PaceStep(s: State): State {
    if !(s.phase.Working? && s.phase.stage.Pacing?) then s
    else
      var c := s.phase.stage.cooldown;
      if s.last.None? || c - (s.now - s.last.value) <= 0.0 then MoveTo(s, Ready(c)) else MoveTo(s, Napping)
  }

  function NapStep(s: State): State {
    if !At(s, Napping) then s else MoveTo(s, if s.stopped then Finishing else Reading)
  }

  function CheckReadyStep(s: State): State {
    if !(s.phase.Working? && s.phase.stage.Ready?) then s
    else MoveTo(s, if s.stopped then Finishing else Stamping(s.phase.stage.cooldown))
  }

  function StampStep(s: State): State {
    if !(s.phase.Working? && s.phase.stage.Stamping?) then s
    else MoveTo(s.(last := Some(s.now), submissions := s.submissions + [Submission(s.now, s.phase.stage.cooldown)]), Posting)
  }

  function PostStep(s: State, response: Response): State {
    if !At(s, Posting) then s else MoveTo(s, if response.Transient? then Failing else Finishing)
  }

  // _retry and the end of run

  function CountRetryStep(s: State): State {
    if !At(s, Failing) || s.held.Some? then s
    else
      var attempts := RetriesOf(s.retries, s.phase.title) + 1;
      if attempts > MAX_RETRIES then MoveTo(s, Finishing)
      else MoveTo(s.(retries := s.retries[s.phase.title := attempts]), Waiting)
  }

  function WakeUpStep(s: State): State {
    if !At(s, Waiting) then s else MoveTo(s, if s.stopped then Finishing else Requeueing)
  }

  function RequeueStep(s: State): State {
    if !At(s, Requeueing) || s.held.Some? then s
    else if Full(s) then MoveTo(s, Finishing)
    else s.(queue := s.queue + [s.phase.title], unfinished := s.unfinished + 1, phase := Acknowledging)
  }

  function ReleaseStep(s: State): State {
    if !At(s, Finishing) || s.held.Some? then s
    else s.(titles := s.titles - {s.phase.title}, retries := s.retries - {s.phase.title},
            open := s.open - {s.phase.title}, phase := Acknowledging)
  }

  function Step(s: State, e: Event): State {
    match e
    case Tick(seconds) => if seconds < 0.0 then s else s.(now := s.now + seconds)
    case Put(title) => PutStep(s, title)
    case Add => AddStep(s)
    case Stop => s.(stopped := true)
    case Restart => if s.phase.Exited? then s.(stopped := false, phase := AtLoop) else s
    case CheckStop => if !s.phase.AtLoop? then s else s.(phase := if s.stopped then Exited else Taking)
    case Take => TakeStep(s)
    case ReadCooldown(cooldown) => ReadCooldownStep(s, cooldown)
    case Pace => PaceStep(s)
    case Nap => NapStep(s)
    case CheckReady => CheckReadyStep(s)
    case Stamp => StampStep(s)
    case Post(response) => PostStep(s, response)
    case CountRetry => CountRetryStep(s)
    case WakeUp => WakeUpStep(s)
    case Requeue => RequeueStep(s)
    case Release => ReleaseStep(s)
    case Acknowledge =>
      if !s.phase.Acknowledging? || s.unfinished == 0 then s else s.(unfinished := s.unfinished - 1, phase := AtLoop)
  }

  function Run(s: State, events: seq<Event>): State {
    if events == [] then s else Step(Run(s, events[..|events| - 1]), events[|events| - 1])
  }

  // ---------------------------------------------------------------- the queue

  predicate InFlight(s: State, title: Title) { s.phase.Working? && s.phase.title == title }

  /**
   No title is queued twice, or queued while in flight.  Live titles are the queued and the
   in-flight ones; the dedup set is the live titles without the one whose `enqueue` is half way.
   */
  ghost predicate TitlesAccounted(s: State) {
    && (forall i, j :: 0 <= i < j < |s.queue| ==> s.queue[i] != s.queue[j])
    && (forall title :: title in s.queue ==> !InFlight(s, title))
    && (forall title :: title in s.open <==> title in s.queue || InFlight(s, title))
    && (forall title :: title in s.titles <==> title in s.open && s.held != Some(title))
    && (s.held.Some? ==> s.held.value in s.open)
    && (s.capacity > 0 ==> |s.queue| <= s.capacity)
    && (s.phase.Working? && (s.phase.stage.Waiting? || s.phase.stage.Requeueing?) ==> s.held != Some(s.phase.title))
  }

  /** A title in flight has one more `_submit` than counted retries, until its retry is counted. */
  function Owed(s: State, title: Title): nat {
    if InFlight(s, title) && !s.phase.stage.Waiting? && !s.phase.stage.Requeueing? then 1 else 0
  }

  ghost predicate SubmitsCounted(s: State) {
    && (forall title :: title in s.open ==> s.open[title] < |s.tickets| && s.tickets[s.open[title]].title == title)
    && (forall title :: title in s.retries ==> title in s.open && s.held != Some(title) && s.retries[title] <= MAX_RETRIES)
    && (forall title :: title in s.open && !(InFlight(s, title) && s.phase.stage.Finishing?) ==>
                          s.tickets[s.open[title]].submits == RetriesOf(s.retries, title) + Owed(s, title))
    && (forall i :: 0 <= i < |s.tickets| ==> s.tickets[i].submits <= MAX_RETRIES + 1)
  }

  ghost predicate TasksCounted(s: State) {
    s.unfinished == |s.queue| + if s.phase.Working? || s.phase.Acknowledging? then 1 else 0
  }

  lemma PutKeepsTitles(s: State, title: Title)
    requires TitlesAccounted(s)
    ensures TitlesAccounted(PutStep(s, title))
  {
  }

  lemma TakeKeepsTitles(s: State)
    requires TitlesAccounted(s)
    ensures TitlesAccounted(TakeStep(s))
  {
  }

  lemma RequeueKeepsTitles(s: State)
    requires TitlesAccounted(s)
    ensures TitlesAccounted(RequeueStep(s))
  {
    assert s.phase.Working? ==> InFlight(s, s.phase.title) && s.phase.title !in s.queue;
  }

  lemma ReleaseKeepsTitles(s: State)
    requires TitlesAccounted(s)
    ensures TitlesAccounted(ReleaseStep(s))
  {
  }

  lemma AddKeepsTitles(s: State)
    requires TitlesAccounted(s)
    ensures TitlesAccounted(AddStep(s))
  {
  }

  /** The other steps move the consumer or the clock only. */
  predicate Moves(e: Event) {
    !e.Put? && !e.Add? && !e.Take? && !e.CountRetry? && !e.Requeue? && !e.Release?
  }

  predicate Counted(stage: Stage) { stage.Waiting? || stage.Requeueing? }

  /** `t` differs from `s` in the consumer's stage, the clock and the flags at most. */
  predicate SameBooks(s: State, t: State) {
    && t.capacity == s.capacity && t.queue == s.queue && t.titles == s.titles && t.retries == s.retries
    && t.held == s.held && t.open == s.open && t.tickets == s.tickets
    && (t.phase.Working? <==> s.phase.Working?)
    && (s.phase.Working? ==> t.phase.title == s.phase.title
                             && (Counted(t.phase.stage) ==> Counted(s.phase.stage))
                             && (!t.phase.stage.Finishing? ==> !s.phase.stage.Finishing? && (Counted(t.phase.stage) <==> Counted(s.phase.stage))))
  }

  lemma SubmitStepsKeepBooks(s: State, e: Event)
    requires e.ReadCooldown? || e.Pace? || e.Nap? || e.CheckReady? || e.Stamp? || e.Post?
    ensures SameBooks(s, Step(s, e))
  {
  }

  lemma MovesKeepBooks(s: State, e: Event)
    requires Moves(e)
    ensures SameBooks(s, Step(s, e))
  {
    match e
    case Tick(_) =>
    case Stop =>
    case Restart =>
    case CheckStop =>
    case WakeUp =>
    case Acknowledge =>
    case _ => SubmitStepsKeepBooks(s, e);
  }

  lemma SameBooksKeepTitles(s: State, t: State)
    requires TitlesAccounted(s) && SameBooks(s, t)
    ensures TitlesAccounted(t)
  {
    assert forall title :: InFlight(t, title) <==> InFlight(s, title);
  }

  lemma SameBooksKeepSubmits(s: State, t: State)
    requires SubmitsCounted(s) && SameBooks(s, t)
    ensures SubmitsCounted(t)
  {
    assert forall title :: InFlight(t, title) <==> InFlight(s, title);
  }

  /** Counting a retry settles the `_submit` owed, or gives the title up. */
  lemma CountRetryKeepsTitles(s: State)
    requires TitlesAccounted(s)
    ensures TitlesAccounted(CountRetryStep(s))
  {
    var t := CountRetryStep(s);
    assert forall title :: InFlight(t, title) <==> InFlight(s, title);
  }

  lemma StepKeepsTitles(s: State, e: Event)
    requires TitlesAccounted(s)
    ensures TitlesAccounted(Step(s, e))
  {
    match e
    case Put(title) => PutKeepsTitles(s, title);
    case Add => AddKeepsTitles(s);
    case Take => TakeKeepsTitles(s);
    case Requeue => RequeueKeepsTitles(s);
    case Release => ReleaseKeepsTitles(s);
    case CountRetry => CountRetryKeepsTitles(s);
    case _ =>
      MovesKeepBooks(s, e);
      SameBooksKeepTitles(s, Step(s, e));
  }

  lemma PutIsFresh(s: State, title: Title)
    requires TitlesAccounted(s) && SubmitsCounted(s) && PutStep(s, title) != s
    ensures title !in s.open && title !in s.retries && !InFlight(s, title)
    ensures forall other :: InFlight(PutStep(s, title), other) <==> InFlight(s, other)
    ensures forall other :: Owed(PutStep(s, title), other) == Owed(s, other)
  {
  }

  lemma PutOwesNothing(s: State, title: Title, other: Title)
    requires TitlesAccounted(s) && SubmitsCounted(s) && PutStep(s, title) != s
    requires other in PutStep(s, title).open && !(InFlight(s, other) && s.phase.stage.Finishing?)
    ensures var t := PutStep(s, title);
            t.open[other] < |t.tickets| && t.tickets[t.open[other]].submits == RetriesOf(t.retries, other) + Owed(t, other)
  {
    PutIsFresh(s, title);
  }

  lemma PutKeepsSubmits(s: State, title: Title)
    requires TitlesAccounted(s) && SubmitsCounted(s)
    ensures SubmitsCounted(PutStep(s, title))
  {
    var t := PutStep(s, title);
    if t != s {
      PutIsFresh(s, title);
      forall other | other in t.open && !(InFlight(t, other) && t.phase.stage.Finishing?)
        ensures t.open[other] < |t.tickets| && t.tickets[t.open[other]].submits == RetriesOf(t.retries, other) + Owed(t, other)
      {
        PutOwesNothing(s, title, other);
      }
    }
  }

  lemma TakeIsNext(s: State)
    requires TitlesAccounted(s) && s.phase.Taking? && s.queue != []
    ensures s.queue[0] in s.open && forall title :: InFlight(TakeStep(s), title) <==> title == s.queue[0]
    ensures forall title :: !InFlight(s, title)
  {
    assert s.queue[0] in s.queue;
  }

  lemma TakeKeepsSubmits(s: State)
    requires TitlesAccounted(s) && SubmitsCounted(s)
    ensures SubmitsCounted(TakeStep(s))
  {
    if s.phase.Taking? && s.queue != [] {
      TakeIsNext(s);
    }
  }

  lemma RequeueKeepsSubmits(s: State)
    requires TitlesAccounted(s) && SubmitsCounted(s)
    ensures SubmitsCounted(RequeueStep(s))
  {
  }

  lemma ReleaseKeepsSubmits(s: State)
    requires TitlesAccounted(s) && SubmitsCounted(s)
    ensures SubmitsCounted(ReleaseStep(s))
  {
  }

  lemma CountRetryIs(s: State)
    requires At(s, Failing) && s.held.None?
    ensures CountRetryStep(s) ==
            if RetriesOf(s.retries, s.phase.title) < MAX_RETRIES
            then s.(retries := s.retries[s.phase.title := RetriesOf(s.retries, s.phase.title) + 1], phase := Working(s.phase.title, Waiting))
            else s.(phase := Working(s.phase.title, Finishing))
  {
  }

  lemma CountedRetryKeepsSubmits(s: State, t: State)
    requires SubmitsCounted(s) && At(s, Failing) && s.held.None? && s.phase.title in s.open
    requires RetriesOf(s.retries, s.phase.title) < MAX_RETRIES
    requires t == s.(retries := s.retries[s.phase.title := RetriesOf(s.retries, s.phase.title) + 1], phase := Working(s.phase.title, Waiting))
    ensures SubmitsCounted(t)
  {
    var title := s.phase.title;
    forall other | other in t.open
      ensures t.tickets[t.open[other]].submits == RetriesOf(t.retries, other) + Owed(t, other)
    {
      assert !(InFlight(s, other) && s.phase.stage.Finishing?);
      assert Owed(s, other) == (if other == title then 1 else 0) && Owed(t, other) == 0;
    }
  }

  lemma CountRetryKeepsSubmits(s: State)
    requires SubmitsCounted(s) && At(s, Failing) && s.held.None? && s.phase.title in s.open
    ensures SubmitsCounted(CountRetryStep(s))
  {
    CountRetryIs(s);
    if RetriesOf(s.retries, s.phase.title) < MAX_RETRIES {
      CountedRetryKeepsSubmits(s, CountRetryStep(s));
    }
  }

  lemma AddKeepsSubmits(s: State)
    requires SubmitsCounted(s)
    ensures SubmitsCounted(AddStep(s))
  {
    assert forall title :: InFlight(AddStep(s), title) <==> InFlight(s, title);
  }

  lemma StepKeepsSubmits(s: State, e: Event)
    requires TitlesAccounted(s) && SubmitsCounted(s)
    ensures SubmitsCounted(Step(s, e))
  {
    match e
    case Put(title) => PutKeepsSubmits(s, title);
    case Take => TakeKeepsSubmits(s);
    case Requeue => RequeueKeepsSubmits(s);
    case Release => ReleaseKeepsSubmits(s);
    case Add => AddKeepsSubmits(s);
    case CountRetry =>
      if At(s, Failing) && s.held.None? {
        assert InFlight(s, s.phase.title);
        CountRetryKeepsSubmits(s);
      }
    case _ =>
      MovesKeepBooks(s, e);
      SameBooksKeepSubmits(s, Step(s, e));
  }

  /** Over every interleaving: no duplicates, six submits at most per accepted enqueue, tasks counted right. */
  lemma {:induction false} RunKeepsQueue(capacity: nat, now: real, events: seq<Event>)
    ensures var s := Run(Initial(capacity, now), events);
            TitlesAccounted(s) && SubmitsCounted(s) && TasksCounted(s)
  {
    if events != [] {
      var s := Run(Initial(capacity, now), events[..|events| - 1]);
      RunKeepsQueue(capacity, now, events[..|events| - 1]);
      StepKeepsTitles(s, events[|events| - 1]);
      StepKeepsSubmits(s, events[|events| - 1]);
      StepKeepsTasks(s, events[|events| - 1]);
    }
  }

  lemma StepKeepsTasks(s: State, e: Event)
    requires TasksCounted(s)
    ensures TasksCounted(Step(s, e))
  {
  }

  // ---------------------------------------------------------------- first come, first served

  predicate Unserved(s: State, title: Title) {
    title in s.open && s.open[title] < |s.tickets| && s.tickets[s.open[title]].submits == 0
  }

  /**
   Enqueues are numbered in the order of their puts.  Those not submitted yet are queued in that order, and come
   after all that were.
   */
  ghost predicate ServedInOrder(s: State) {
    AllOpened(s) && QueuedInOrder(s) && ServedFirst(s)
  }

  ghost predicate AllOpened(s: State) {
    forall i :: 0 <= i < |s.tickets| && s.tickets[i].submits == 0 ==> Opened(s, i)
  }

  ghost predicate QueuedInOrder(s: State) {
    forall a, b :: 0 <= a < b < |s.queue| && Unserved(s, s.queue[a]) && Unserved(s, s.queue[b]) ==> s.open[s.queue[a]] < s.open[s.queue[b]]
  }

  ghost predicate ServedFirst(s: State) {
    forall i, j :: 0 <= i < j < |s.tickets| && s.tickets[j].submits > 0 ==> s.tickets[i].submits > 0
  }

  predicate Opened(s: State, i: nat)
    requires i < |s.tickets|
  {
    var title := s.tickets[i].title;
    title in s.queue && title in s.open && s.open[title] == i
  }

  /** Steps that neither put, take, put back nor release leave all this as it is. */
  lemma SameBooksStayInOrder(s: State, t: State)
    requires ServedInOrder(s) && t.queue == s.queue && t.open == s.open && t.tickets == s.tickets
    ensures ServedInOrder(t)
  {
    assert forall title :: Unserved(t, title) <==> Unserved(s, title);
    assert forall i :: 0 <= i < |s.tickets| && Opened(s, i) ==> Opened(t, i);
  }

  lemma PutOpens(s: State, title: Title, i: nat)
    requires TitlesAccounted(s) && SubmitsCounted(s) && AllOpened(s) && PutStep(s, title) != s
    requires i <= |s.tickets| && (i < |s.tickets| ==> s.tickets[i].submits == 0)
    ensures Opened(PutStep(s, title), i)
  {
    PutIsFresh(s, title);
    if i < |s.tickets| {
      assert Opened(s, i);
    }
  }

  lemma PutQueuesInOrder(s: State, title: Title)
    requires TitlesAccounted(s) && SubmitsCounted(s) && QueuedInOrder(s) && PutStep(s, title) != s
    ensures QueuedInOrder(PutStep(s, title))
  {
    PutIsFresh(s, title);
    assert title !in s.queue;
    assert forall other :: other != title ==> (Unserved(PutStep(s, title), other) <==> Unserved(s, other));
  }

  lemma PutStaysInOrder(s: State, title: Title)
    requires TitlesAccounted(s) && SubmitsCounted(s) && ServedInOrder(s)
    ensures ServedInOrder(PutStep(s, title))
  {
    var t := PutStep(s, title);
    if t != s {
      forall i | 0 <= i < |t.tickets| && t.tickets[i].submits == 0
        ensures Opened(t, i)
      {
        PutOpens(s, title, i);
      }
      PutQueuesInOrder(s, title);
    }
  }

  /** The front title, if not submitted yet, is the first of those. */
  lemma FrontIsFirst(s: State, i: nat)
    requires TitlesAccounted(s) && ServedInOrder(s) && s.queue != [] && Unserved(s, s.queue[0])
    requires i < |s.tickets| && s.tickets[i].submits == 0
    ensures s.open[s.queue[0]] <= i
  {
    assert Opened(s, i);
    var b :| 0 <= b < |s.queue| && s.queue[b] == s.tickets[i].title;
    assert Unserved(s, s.queue[b]);
  }

  /** The front title leaves the queue, submitted once more; nothing else changes. */
  lemma TakeServes(s: State)
    requires TitlesAccounted(s) && SubmitsCounted(s) && s.phase.Taking? && s.queue != []
    ensures var t, front := TakeStep(s), s.queue[0];
            && front in s.open && s.open[front] < |s.tickets| && |t.tickets| == |s.tickets|
            && t.queue == s.queue[1..] && t.open == s.open && front !in t.queue
            && (forall i :: 0 <= i < |s.tickets| ==> t.tickets[i].title == s.tickets[i].title)
            && (forall i :: 0 <= i < |s.tickets| ==> t.tickets[i].submits == s.tickets[i].submits + if i == s.open[front] then 1 else 0)
  {
    TakeIsNext(s);
    assert s.queue == [s.queue[0]] + s.queue[1..];
  }

  lemma TakeKeepsOpened(s: State, i: nat)
    requires TitlesAccounted(s) && SubmitsCounted(s) && ServedInOrder(s) && s.phase.Taking? && s.queue != []
    requires i < |s.tickets| && i != s.open[s.queue[0]] && s.tickets[i].submits == 0
    ensures Opened(TakeStep(s), i)
  {
    TakeServes(s);
    assert Opened(s, i);
    assert s.queue == [s.queue[0]] + s.queue[1..];
  }

  lemma TakeServesFirst(s: State)
    requires TitlesAccounted(s) && SubmitsCounted(s) && ServedInOrder(s) && s.phase.Taking? && s.queue != []
    ensures ServedFirst(TakeStep(s))
  {
    TakeServes(s);
    forall i | 0 <= i < |s.tickets| && s.tickets[i].submits == 0 && Unserved(s, s.queue[0])
      ensures s.open[s.queue[0]] <= i
    {
      FrontIsFirst(s, i);
    }
  }

  lemma TakeQueuesInOrder(s: State)
    requires TitlesAccounted(s) && SubmitsCounted(s) && QueuedInOrder(s) && s.phase.Taking? && s.queue != []
    ensures QueuedInOrder(TakeStep(s))
  {
    TakeServes(s);
    assert forall title :: Unserved(TakeStep(s), title) ==> Unserved(s, title);
  }

  lemma TakeStaysInOrder(s: State)
    requires TitlesAccounted(s) && SubmitsCounted(s) && ServedInOrder(s)
    ensures ServedInOrder(TakeStep(s))
  {
    var t := TakeStep(s);
    if s.phase.Taking? && s.queue != [] {
      TakeServes(s);
      forall i | 0 <= i < |t.tickets| && t.tickets[i].submits == 0
        ensures Opened(t, i)
      {
        TakeKeepsOpened(s, i);
      }
      TakeQueuesInOrder(s);
      TakeServesFirst(s);
    } else {
      SameBooksStayInOrder(s, t);
    }
  }

  lemma RequeueAppends(s: State)
    requires TitlesAccounted(s) && SubmitsCounted(s) && RequeueStep(s).queue != s.queue
    requires At(s, Requeueing) ==> RetriesOf(s.retries, s.phase.title) > 0
    ensures var t := RequeueStep(s);
            t.queue == s.queue + [s.phase.title] && t.open == s.open && t.tickets == s.tickets && !Unserved(s, s.phase.title)
  {
    assert InFlight(s, s.phase.title) && Owed(s, s.phase.title) == 0;
  }

  lemma AppendedStaysInOrder(s: State, t: State, title: Title)
    requires ServedInOrder(s) && t.queue == s.queue + [title] && t.open == s.open && t.tickets == s.tickets && !Unserved(s, title)
    ensures ServedInOrder(t)
  {
    assert forall other :: Unserved(t, other) <==> Unserved(s, other);
    assert forall i :: 0 <= i < |s.tickets| && Opened(s, i) ==> Opened(t, i);
  }

  lemma RequeueStaysInOrder(s: State)
    requires TitlesAccounted(s) && SubmitsCounted(s) && ServedInOrder(s)
    requires At(s, Requeueing) ==> RetriesOf(s.retries, s.phase.title) > 0
    ensures ServedInOrder(RequeueStep(s))
  {
    var t := RequeueStep(s);
    if t.queue != s.queue {
      RequeueAppends(s);
      AppendedStaysInOrder(s, t, s.phase.title);
    } else {
      SameBooksStayInOrder(s, t);
    }
  }

  lemma ReleaseStaysInOrder(s: State)
    requires TitlesAccounted(s) && ServedInOrder(s)
    ensures ServedInOrder(ReleaseStep(s))
  {
    var t := ReleaseStep(s);
    if t.open != s.open {
      assert InFlight(s, s.phase.title);
      assert forall title :: title != s.phase.title ==> (Unserved(t, title) <==> Unserved(s, title));
      assert forall i :: 0 <= i < |s.tickets| && Opened(s, i) ==> Opened(t, i);
    } else {
      SameBooksStayInOrder(s, t);
    }
  }

  /** A title that waits, or is about to be put back, has a counted retry. */
  ghost predicate WaitsCounted(s: State) {
    At(s, Waiting) || At(s, Requeueing) ==> RetriesOf(s.retries, s.phase.title) > 0
  }

  lemma StepKeepsWaits(s: State, e: Event)
    requires WaitsCounted(s)
    ensures WaitsCounted(Step(s, e))
  {
  }

  lemma OtherStepsKeepServed(s: State, e: Event)
    requires !e.Put? && !e.Take? && !e.Requeue? && !e.Release?
    ensures var t := Step(s, e); t.queue == s.queue && t.open == s.open && t.tickets == s.tickets
  {
  }

  lemma StepStaysInOrder(s: State, e: Event)
    requires TitlesAccounted(s) && SubmitsCounted(s) && WaitsCounted(s) && ServedInOrder(s)
    ensures ServedInOrder(Step(s, e))
  {
    match e
    case Put(title) => PutStaysInOrder(s, title);
    case Take => TakeStaysInOrder(s);
    case Requeue => RequeueStaysInOrder(s);
    case Release => ReleaseStaysInOrder(s);
    case _ =>
      OtherStepsKeepServed(s, e);
      SameBooksStayInOrder(s, Step(s, e));
  }

  /** First come, first served, over every interleaving. */
  lemma {:induction false} FirstComeFirstServed(capacity: nat, now: real, events: seq<Event>)
    ensures ServedInOrder(Run(Initial(capacity, now), events)) && WaitsCounted(Run(Initial(capacity, now), events))
  {
    if events != [] {
      FirstComeFirstServed(capacity, now, events[..|events| - 1]);
      RunKeepsQueue(capacity, now, events[..|events| - 1]);
      StepStaysInOrder(Run(Initial(capacity, now), events[..|events| - 1]), events[|events| - 1]);
      StepKeepsWaits(Run(Initial(capacity, now), events[..|events| - 1]), events[|events| - 1]);
    }
  }

  // ---------------------------------------------------------------- the cooldown

  /** Each submission comes at least the cooldown read last before it after the previous one. */
  ghost predicate Spaced(submissions: seq<Submission>) {
    forall i :: 0 < i < |submissions| ==> submissions[i].at - submissions[i - 1].at >= submissions[i].cooldown
  }

  ghost predicate CooldownKept(s: State) {
    && Spaced(s.submissions)
    && s.last == (if s.submissions == [] then None else Some(s.submissions[|s.submissions| - 1].at))
    && (s.phase.Working? && (s.phase.stage.Ready? || s.phase.stage.Stamping?) && s.last.Some? ==>
          s.now - s.last.value >= s.phase.stage.cooldown)
  }

  lemma StepKeepsCooldown(s: State, e: Event)
    requires CooldownKept(s)
    ensures CooldownKept(Step(s, e))
  {
  }

  lemma {:induction false} SubmissionsAreSpaced(capacity: nat, now: real, events: seq<Event>)
    ensures CooldownKept(Run(Initial(capacity, now), events))
  {
    if events != [] {
      SubmissionsAreSpaced(capacity, now, events[..|events| - 1]);
      StepKeepsCooldown(Run(Initial(capacity, now), events[..|events| - 1]), events[|events| - 1]);
    }
  }

  // ---------------------------------------------------------------- the worker object

  /** One pass of the pacing loop: the cooldown the settings gave, how long the nap took, whether a stop came. */
  datatype Round = Round(cooldown: real, nap: real, stop: bool)

  /** `Posted` says how many readings were used; `StillWaiting` that the given ones did not suffice. */
  datatype SubmitResult = Posted(readings: nat) | Abandoned | StillWaiting

  /** The fields of a worker that say which titles it knows and how far they are. */
  datatype Books = Books(queue: seq<Title>, titles: set<Title>, retries: map<Title, nat>, unfinished: nat)

  /** Between two passes: the known titles are the queued ones, each once, and the unfinished count is theirs. */
  ghost predicate Idle(b: Books, capacity: nat) {
    && (forall i, j :: 0 <= i < j < |b.queue| ==> b.queue[i] != b.queue[j])
    && (forall title :: title in b.titles <==> title in b.queue)
    && (forall title :: title in b.retries ==> title in b.titles && b.retries[title] <= MAX_RETRIES)
    && b.unfinished == |b.queue| && (capacity > 0 ==> |b.queue| <= capacity)
  }

  /** After one pass the front title is at the back with one retry more, or forgotten. */
  function Passed(b: Books, again: bool): Books
    requires b.queue != [] && b.unfinished > 0
  {
    var title := b.queue[0];
    if again then b.(queue := b.queue[1..] + [title], retries := b.retries[title := RetriesOf(b.retries, title) + 1])
    else Books(b.queue[1..], b.titles - {title}, b.retries - {title}, b.unfinished - 1)
  }

  lemma PassKeepsIdle(b: Books, capacity: nat, again: bool)
    requires Idle(b, capacity) && b.queue != [] && (again ==> RetriesOf(b.retries, b.queue[0]) < MAX_RETRIES)
    ensures Idle(Passed(b, again), capacity)
  {
    assert b.queue == [b.queue[0]] + b.queue[1..];
  }

  // ---------------------------------------------------------------- one pass of the machine

  /** `_submit` from its first reading of the cooldown on, with naps and stops as they come. */
  function Paced(s: State, readings: seq<Round>, k: nat): State
    requires k < |readings|
    decreases |readings| - k
  {
    var round := readings[k];
    var paced := PaceStep(ReadCooldownStep(s, Some(round.cooldown)));
    if !At(paced, Napping) then StampStep(CheckReadyStep(paced))
    else
      var rested := NapStep(Step(if round.stop then Step(paced, Stop) else paced, Tick(round.nap)));
      if At(rested, Reading) && k + 1 < |readings| then Paced(rested, readings, k + 1) else rested
  }

  /** When the j-th reading is taken, if the k-th is taken now. */
  function TimeOf(now: real, readings: seq<Round>, k: nat, j: nat): real
    requires k <= j <= |readings|
  {
    if j == k then now else TimeOf(now, readings, k, j - 1) + readings[j - 1].nap
  }

  lemma {:induction false} TimeShifts(now: real, readings: seq<Round>, k: nat, j: nat)
    requires k < j <= |readings|
    ensures TimeOf(now, readings, k, j) == TimeOf(now + readings[k].nap, readings, k + 1, j)
  {
    if j > k + 1 {
      TimeShifts(now, readings, k, j - 1);
    }
  }

  /** The j-th reading allows a submission. */
  predicate Allows(s: State, readings: seq<Round>, k: nat, j: nat)
    requires k <= j < |readings|
  {
    s.last.None? || TimeOf(s.now, readings, k, j) - s.last.value >= readings[j].cooldown
  }

  /** Readings k to j - 1 do not allow it, and no stop comes during the naps after them. */
  ghost predicate Waits(s: State, readings: seq<Round>, k: nat, j: nat)
    requires k <= j <= |readings|
  {
    forall i :: k <= i < j ==> !Allows(s, readings, k, i) && !readings[i].stop
  }

  /** What pacing leaves alone. */
  predicate SameQueue(s: State, t: State) {
    && t.queue == s.queue && t.titles == s.titles && t.retries == s.retries && t.unfinished == s.unfinished && t.held == s.held
    && t.capacity == s.capacity && t.phase.Working? && s.phase.Working? && t.phase.title == s.phase.title
  }

  lemma OneRound(s: State, readings: seq<Round>, k: nat)
    requires At(s, Reading) && !s.stopped && k < |readings| && readings[k].nap >= 0.0
    ensures var t := Paced(s, readings, k);
            if Allows(s, readings, k, k) then
              t == s.(phase := Working(s.phase.title, Posting), last := Some(s.now),
                      submissions := s.submissions + [Submission(s.now, readings[k].cooldown)])
            else if readings[k].stop then
              t == s.(phase := Working(s.phase.title, Finishing), stopped := true, now := s.now + readings[k].nap)
            else
              var rested := s.(now := s.now + readings[k].nap);
              t == if k + 1 < |readings| then Paced(rested, readings, k + 1) else rested
  {
    var round, title := readings[k], s.phase.title;
    var paced := PaceStep(ReadCooldownStep(s, Some(round.cooldown)));
    if Allows(s, readings, k, k) {
      assert paced == s.(phase := Working(title, Ready(round.cooldown)));
    } else {
      assert paced == s.(phase := Working(title, Napping));
    }
  }

  /**
   A running worker's `_submit` posts at exactly the first reading whose cooldown is over, unless a stop comes during
   a nap before it; it gives up exactly then, and otherwise still waits.
   */
  lemma {:induction false} PacedIs(s: State, readings: seq<Round>, k: nat) returns (j: nat)
    requires At(s, Reading) && !s.stopped && k < |readings| && forall i :: 0 <= i < |readings| ==> readings[i].nap >= 0.0
    ensures k <= j <= |readings| && Waits(s, readings, k, j)
    ensures var t := Paced(s, readings, k);
            && SameQueue(s, t)
            && if j == |readings| then At(t, Reading) && !t.stopped && t.submissions == s.submissions
               else if Allows(s, readings, k, j) then
                 && At(t, Posting) && !t.stopped && t.now == TimeOf(s.now, readings, k, j) && t.last == Some(t.now)
                 && t.submissions == s.submissions + [Submission(t.now, readings[j].cooldown)]
               else readings[j].stop && At(t, Finishing) && t.stopped && t.submissions == s.submissions
    decreases |readings| - k
  {
    OneRound(s, readings, k);
    if Allows(s, readings, k, k) || readings[k].stop {
      j := k;
    } else {
      var rested := s.(now := s.now + readings[k].nap);
      if k + 1 < |readings| {
        j := PacedIs(rested, readings, k + 1);
        forall i | k < i <= j
          ensures TimeOf(s.now, readings, k, i) == TimeOf(rested.now, readings, k + 1, i)
        {
          TimeShifts(s.now, readings, k, i);
        }
        forall i | k < i <= j && i < |readings|
          ensures Allows(s, readings, k, i) <==> Allows(rested, readings, k + 1, i)
        {
        }
      } else {
        j := k + 1;
      }
    }
  }

  /** `_retry` and the end of the pass, from the failure or the answer on; a stop may come during the wait. */
  function EndSteps(s: State, stopWhileWaiting: bool): State {
    var counted := CountRetryStep(s);
    var waited := WakeUpStep(if stopWhileWaiting && At(counted, Waiting) then Step(counted, Stop) else counted);
    Step(ReleaseStep(RequeueStep(waited)), Acknowledge)
  }

  function BooksOf(s: State): Books { Books(s.queue, s.titles, s.retries, s.unfinished) }

  /** The books with the title taken off the queue and still unfinished. */
  ghost predicate InHand(s: State, before: Books) {
    && s.held.None? && s.phase.Working? && before.queue != [] && s.phase.title == before.queue[0]
    && s.queue == before.queue[1..] && s.titles == before.titles && s.retries == before.retries
    && s.unfinished == before.unfinished > 0 && Idle(before, s.capacity)
  }

  /** The end of a pass: put back with one retry more exactly after a failure within the limit and without a stop, else forgotten. */
  lemma EndsPass(s: State, before: Books, stopWhileWaiting: bool)
    requires InHand(s, before) && (At(s, Failing) || At(s, Finishing))
    ensures var t := EndSteps(s, stopWhileWaiting);
            var counts := At(s, Failing) && RetriesOf(before.retries, s.phase.title) < MAX_RETRIES;
            var again := counts && !s.stopped && !stopWhileWaiting;
            && t.phase.AtLoop? && t.stopped == (s.stopped || (counts && stopWhileWaiting)) && t.submissions == s.submissions
            && BooksOf(t).queue == Passed(before, again).queue && BooksOf(t).titles == Passed(before, again).titles
            && BooksOf(t).retries == Passed(before, again).retries && BooksOf(t).unfinished == Passed(before, again).unfinished
  {
    var counts := At(s, Failing) && RetriesOf(before.retries, s.phase.title) < MAX_RETRIES;
    CountsRetry(s, before);
    var counted := CountRetryStep(s);
    if counts && !s.stopped && !stopWhileWaiting {
      PutsBack(counted, before);
    } else if counts {
      Forgets(WakeUpStep(counted.(stopped := true)), before);
    } else {
      Forgets(counted, before);
    }
  }

  lemma CountsRetry(s: State, before: Books)
    requires InHand(s, before) && (At(s, Failing) || At(s, Finishing))
    ensures var title := s.phase.title;
            CountRetryStep(s) ==
            if At(s, Failing) && RetriesOf(before.retries, title) < MAX_RETRIES
            then s.(retries := before.retries[title := RetriesOf(before.retries, title) + 1], phase := Working(title, Waiting))
            else s.(phase := Working(title, Finishing))
  {
  }

  /** A counted retry that no stop disturbs goes to the back of the queue, where there is room. */
  lemma PutsBack(s: State, before: Books)
    requires At(s, Waiting) && !s.stopped && s.held.None? && before.queue != [] && s.phase.title == before.queue[0]
    requires s.queue == before.queue[1..] && s.titles == before.titles && s.unfinished == before.unfinished > 0 && Idle(before, s.capacity)
    requires s.retries == before.retries[s.phase.title := RetriesOf(before.retries, s.phase.title) + 1]
    ensures var t := Step(ReleaseStep(RequeueStep(WakeUpStep(s))), Acknowledge);
            t.phase.AtLoop? && !t.stopped && t.submissions == s.submissions && BooksOf(t) == Passed(before, true)
  {
  }

  /** Otherwise the title is forgotten, with its retries. */
  lemma Forgets(s: State, before: Books)
    requires At(s, Finishing) && s.held.None? && before.queue != [] && s.phase.title == before.queue[0]
    requires s.queue == before.queue[1..] && s.titles == before.titles && s.unfinished == before.unfinished > 0
    requires s.retries - {s.phase.title} == before.retries - {s.phase.title}
    ensures var t := Step(ReleaseStep(RequeueStep(WakeUpStep(s))), Acknowledge);
            t.phase.AtLoop? && t.stopped == s.stopped && t.submissions == s.submissions && BooksOf(t) == Passed(before, false)
  {
  }

  /** One pass of the loop, with no other thread in between; no response means that the settings could not be read. */
  function PassSteps(s: State, readings: seq<Round>, response: Option<Response>, stopWhileWaiting: bool): State
    requires readings != []
  {
    var taken := TakeStep(Step(s, CheckStop));
    if !taken.phase.Working? then taken
    else
      var submitted := if response.None? then ReadCooldownStep(taken, None) else PostStep(Paced(taken, readings, 0), response.value);
      if At(submitted, Reading) then submitted else EndSteps(submitted, stopWhileWaiting)
  }

  lemma TakesFront(s: State)
    requires s.phase.AtLoop? && s.held.None? && !s.stopped && s.queue != [] && Idle(BooksOf(s), s.capacity)
    ensures var t := TakeStep(Step(s, CheckStop));
            InHand(t, BooksOf(s)) && At(t, Reading) && !t.stopped && t.submissions == s.submissions && t.now == s.now && t.last == s.last
  {
  }

  /**
   The pass of the machine does what the worker object does: nothing after a stop or on an empty queue; otherwise the front title is
   submitted once, and then put back with one retry more, exactly after a transient failure, or unreadable settings,
   within the limit and without a stop, or forgotten.
   */
  lemma PassIs(s: State, readings: seq<Round>, response: Option<Response>, stopWhileWaiting: bool)
    requires s.phase.AtLoop? && s.held.None? && Idle(BooksOf(s), s.capacity)
    requires readings != [] && forall i :: 0 <= i < |readings| ==> readings[i].nap >= 0.0
    ensures var t := PassSteps(s, readings, response, stopWhileWaiting);
            && (s.stopped ==> t == s.(phase := Exited))
            && (!s.stopped && s.queue == [] ==> t == s)
            && (!s.stopped && s.queue != [] && !At(t, Reading) ==>
                  var again := !t.stopped && RetriesOf(s.retries, s.queue[0]) < MAX_RETRIES && (response.None? || response.value.Transient?);
                  && t.phase.AtLoop? && BooksOf(t) == Passed(BooksOf(s), again)
                  && (response.None? ==> t.submissions == s.submissions)
                  && (response.Some? && !t.stopped ==> |t.submissions| == |s.submissions| + 1))
            && (At(t, Reading) ==> response.Some? && t.submissions == s.submissions)
  {
    if !s.stopped && s.queue != [] {
      TakesFront(s);
      var taken := TakeStep(Step(s, CheckStop));
      if response.None? {
        EndsPass(ReadCooldownStep(taken, None), BooksOf(s), stopWhileWaiting);
      } else {
        var j := PacedIs(taken, readings, 0);
        var submitted := PostStep(Paced(taken, readings, 0), response.value);
        if !At(submitted, Reading) {
          EndsPass(submitted, BooksOf(s), stopWhileWaiting);
        }
      }
    }
  }

  // ---------------------------------------------------------------- stopping

  /** Whether the consumer may still submit before it looks at the stop signal again. */
  predicate MaySubmit(s: State) { s.phase.Working? && s.phase.stage.Stamping? }

  lemma StoppedStep(s: State, e: Event)
    requires s.stopped && !e.Restart?
    ensures var t := Step(s, e);
            t.stopped && |t.submissions| + (if MaySubmit(t) then 1 else 0) <= |s.submissions| + if MaySubmit(s) then 1 else 0
  {
  }

  lemma {:induction false} StoppedRun(s: State, events: seq<Event>)
    requires s.stopped && Restart !in events
    ensures Run(s, events).stopped
    ensures |Run(s, events).submissions| + (if MaySubmit(Run(s, events)) then 1 else 0) <= |s.submissions| + if MaySubmit(s) then 1 else 0
  {
    if events != [] {
      StoppedRun(s, events[..|events| - 1]);
      StoppedStep(Run(s, events[..|events| - 1]), events[|events| - 1]);
    }
  }

  /**
   After a stop, and until a restart, no submission begins, except one already past its last look at the signal; and
   the consumer exits when it looks again.
   */
  lemma StopEndsSubmitting(s: State, events: seq<Event>)
    requires Restart !in events
    ensures var t := Run(Step(s, Stop), events);
            && |t.submissions| <= |s.submissions| + (if MaySubmit(s) then 1 else 0)
            && (t.phase.AtLoop? ==> Step(t, CheckStop).phase.Exited?)
  {
    StoppedRun(Step(s, Stop), events);
  }

  /** How many steps of its own the consumer is at most from looking at the stop signal again, once told to stop. */
  function StepsLeft(phase: Phase): nat {
    match phase
    case AtLoop => 1
    case Acknowledging => 2
    case Taking => 12
    case Exited => 0
    case Working(_, stage) =>
      match stage
      case Finishing => 3
      case Requeueing => 4
      case Waiting => 5
      case Failing => 6
      case Posting => 7
      case Stamping(_) => 8
      case Ready(_) => 9
      case Napping => 9
      case Pacing(_) => 10
      case Reading => 11
  }

  /** The consumer's next step, with what the settings and the request answer. */
  function NextStep(phase: Phase, cooldown: Option<real>, response: Response): Event {
    match phase
    case AtLoop => CheckStop
    case Acknowledging => Acknowledge
    case Taking => Take
    case Exited => CheckStop
    case Working(_, stage) =>
      match stage
      case Finishing => Release
      case Requeueing => Requeue
      case Waiting => WakeUp
      case Failing => CountRetry
      case Posting => Post(response)
      case Stamping(_) => Stamp
      case Ready(_) => CheckReady
      case Napping => Nap
      case Pacing(_) => Pace
      case Reading => ReadCooldown(cooldown)
  }

  predicate Submitting(phase: Phase) {
    phase.Working? && (phase.stage.Reading? || phase.stage.Pacing? || phase.stage.Napping? || phase.stage.Ready? || phase.stage.Stamping?)
  }

  lemma SubmittingLeadsOut(s: State, cooldown: Option<real>, response: Response)
    requires s.stopped && Submitting(s.phase)
    ensures StepsLeft(Step(s, NextStep(s.phase, cooldown, response)).phase) < StepsLeft(s.phase)
  {
  }

  lemma EndingLeadsOut(s: State, cooldown: Option<real>, response: Response)
    requires s.stopped && s.held.None? && s.phase.Working? && !Submitting(s.phase)
    ensures StepsLeft(Step(s, NextStep(s.phase, cooldown, response)).phase) < StepsLeft(s.phase)
  {
  }

  /** Told to stop, the consumer comes nearer to its exit with every step of its own, whatever settings and requests answer. */
  lemma StopLeadsOut(s: State, cooldown: Option<real>, response: Response)
    requires s.stopped && s.held.None? && TasksCounted(s) && !s.phase.Exited?
    ensures StepsLeft(Step(s, NextStep(s.phase, cooldown, response)).phase) < StepsLeft(s.phase)
  {
    if Submitting(s.phase) {
      SubmittingLeadsOut(s, cooldown, response);
    } else if s.phase.Working? {
      EndingLeadsOut(s, cooldown, response);
    }
  }

  lemma StopStep(s: State, e: Event)
    requires Step(s, e).phase.Exited? || Step(s, e).stopped
    ensures s.phase.Exited? || s.stopped || e == Stop
  {
  }

  /** Without a stop the consumer never exits. */
  lemma {:induction false} ExitsOnlyWhenStopped(capacity: nat, now: real, events: seq<Event>)
    ensures var s := Run(Initial(capacity, now), events); s.phase.Exited? || s.stopped ==> Stop in events
  {
    if events != [] {
      var before, last := events[..|events| - 1], events[|events| - 1];
      assert events == before + [last];
      ExitsOnlyWhenStopped(capacity, now, before);
      if Run(Initial(capacity, now), events).phase.Exited? || Run(Initial(capacity, now), events).stopped {
        StopStep(Run(Initial(capacity, now), before), last);
      }
    }
  }

  /** After a restart the consumer goes on with the front of the queue. */
  lemma RestartGoesOn(s: State)
    requires s.phase.Exited? && s.queue != []
    ensures Step(Step(Step(s, Restart), CheckStop), Take).phase == Working(s.queue[0], Reading)
  {
  }

  // ---------------------------------------------------------------- the worker's code

  class Worker {
    const capacity: nat
    var queue: seq<Title>
    var queuedTitles: set<Title>
    var retryCounts: map<Title, nat>
    var unfinishedTasks: nat
    var stopEvent: bool
    var now: real
    var lastSubmissionAt: Option<real>
    ghost var posted: seq<Title>

    constructor (capacity: nat, now: real)
      ensures this.capacity == capacity && this.now == now
      ensures Idle(Held(), capacity) && queue == [] && !stopEvent && lastSubmissionAt == None && posted == []
    {
      this.capacity, this.now := capacity, now;
      queue, queuedTitles, retryCounts, unfinishedTasks := [], {}, map[], 0;
      stopEvent, lastSubmissionAt, posted := false, None, [];
    }

    ghost function Held(): Books reads this { Books(queue, queuedTitles, retryCounts, unfinishedTasks) }

    /** Queue a title unless it is known; false only when there is no room for it. */
    method Enqueue(title: Title) returns (ok: bool)
      modifies this`queue, this`queuedTitles, this`unfinishedTasks
      ensures old(Idle(Held(), capacity)) ==> Idle(Held(), capacity)
      ensures ok <==> title in old(queuedTitles) || capacity == 0 || |old(queue)| < capacity
      ensures !ok || title in old(queuedTitles) ==> queue == old(queue) && queuedTitles == old(queuedTitles)
      ensures ok && title !in old(queuedTitles) ==>
                queue == old(queue) + [title] && queuedTitles == old(queuedTitles) + {title}
    {
      if title in queuedTitles {
        return true;
      }
      if capacity > 0 && |queue| >= capacity {
        return false;
      }
      queue := queue + [title];
      unfinishedTasks := unfinishedTasks + 1;
      queuedTitles := queuedTitles + {title};
      return true;
    }

    /**
     The pacing loop of `_submit`.  A post is stamped no earlier than the cooldown read last
     allows, and no later than the first reading that allows it.
     */
    method Submit(title: Title, readings: seq<Round>) returns (r: SubmitResult, ghost times: seq<real>)
      requires readings != [] && forall i :: 0 <= i < |readings| ==> readings[i].nap >= 0.0
      modifies this`stopEvent, this`now, this`lastSubmissionAt, this`posted
      ensures now >= old(now)
      ensures posted == if r.Posted? then old(posted) + [title] else old(posted)
      ensures r.Posted? ==>
                && 0 < r.readings <= |readings| && |times| == r.readings
                && lastSubmissionAt == Some(now) && now == times[r.readings - 1]
                && (old(lastSubmissionAt).Some? ==>
                      && now - old(lastSubmissionAt).value >= readings[r.readings - 1].cooldown
                      && (forall i :: 0 <= i < r.readings - 1 ==>
                                        times[i] - old(lastSubmissionAt).value < readings[i].cooldown))
                && !stopEvent
      ensures !r.Posted? ==> lastSubmissionAt == old(lastSubmissionAt)
      ensures r.Abandoned? ==> stopEvent
    {
      var i := 0;
      times := [now];
      while lastSubmissionAt.Some?
        invariant 0 <= i < |readings| && |times| == i + 1 && times[i] == now >= old(now)
        invariant lastSubmissionAt == old(lastSubmissionAt) && posted == old(posted)
        invariant i > 0 ==> lastSubmissionAt.Some? && !stopEvent
        invariant forall k :: 0 <= k < i ==> times[k] - lastSubmissionAt.value < readings[k].cooldown
        decreases |readings| - i
      {
        var elapsed := now - lastSubmissionAt.value;
        if readings[i].cooldown - elapsed <= 0.0 {
          break;
        }
        stopEvent := stopEvent || readings[i].stop;
        now := now + readings[i].nap;
        if stopEvent {
          return Abandoned, times;
        }
        if i + 1 == |readings| {
          return StillWaiting, times;
        }
        i := i + 1;
        times := times + [now];
      }
      if stopEvent {
        return Abandoned, times;
      }
      lastSubmissionAt := Some(now);
      posted := posted + [title];
      return Posted(i + 1), times;
    }

    /** Count the attempt, wait, and put the title back, unless the limit, a stop or a full queue forbids it. */
    method Retry(title: Title, stopWhileWaiting: bool) returns (scheduled: bool)
      modifies this`queue, this`retryCounts, this`stopEvent, this`unfinishedTasks
      ensures var counted := RetriesOf(old(retryCounts), title) < MAX_RETRIES;
              && retryCounts == (if counted then old(retryCounts)[title := RetriesOf(old(retryCounts), title) + 1] else old(retryCounts))
              && stopEvent == (old(stopEvent) || (counted && stopWhileWaiting))
              && (scheduled <==> counted && !stopEvent && (capacity == 0 || |old(queue)| < capacity))
      ensures queue == if scheduled then old(queue) + [title] else old(queue)
      ensures unfinishedTasks == old(unfinishedTasks) + if scheduled then 1 else 0
    {
      var attempts := RetriesOf(retryCounts, title) + 1;
      if attempts > MAX_RETRIES {
        return false;
      }
      retryCounts := retryCounts[title := attempts];
      stopEvent := stopEvent || stopWhileWaiting;
      if stopEvent {
        return false;
      }
      if capacity > 0 && |queue| >= capacity {
        return false;
      }
      queue := queue + [title];
      unfinishedTasks := unfinishedTasks + 1;
      return true;
    }

    /** The `finally` clause: forget a title that was not put back, and acknowledge the queue item. */
    method Finish(title: Title, scheduled: bool)
      requires unfinishedTasks > 0
      modifies this`queuedTitles, this`retryCounts, this`unfinishedTasks
      ensures queuedTitles == if scheduled then old(queuedTitles) else old(queuedTitles) - {title}
      ensures retryCounts == if scheduled then old(retryCounts) else old(retryCounts) - {title}
      ensures unfinishedTasks == old(unfinishedTasks) - 1
    {
      if !scheduled {
        queuedTitles := queuedTitles - {title};
        retryCounts := retryCounts - {title};
      }
      unfinishedTasks := unfinishedTasks - 1;
    }

    /** The end of a pass: a title that failed is put back if it may be, and otherwise forgotten. */
    method Settle(title: Title, failed: bool, stopWhileWaiting: bool) returns (again: bool)
      requires unfinishedTasks > 0 && (capacity > 0 ==> |queue| < capacity)
      modifies this`queue, this`queuedTitles, this`retryCounts, this`unfinishedTasks, this`stopEvent
      ensures Held() == Passed(old(Books([title] + queue, queuedTitles, retryCounts, unfinishedTasks)), again)
      ensures again <==> failed && !stopEvent && RetriesOf(old(retryCounts), title) < MAX_RETRIES
      ensures old(stopEvent) ==> stopEvent
    {
      again := false;
      if failed {
        again := Retry(title, stopWhileWaiting);
      }
      ghost var retried := retryCounts;
      Finish(title, again);
      assert !again ==> retried - {title} == old(retryCounts) - {title};
    }

    /**
     One pass of the consumer's loop, with no other thread in between: the front title is submitted
     once; after a transient failure it goes to the back with one retry more, otherwise it is
     forgotten.  `response` is None if the settings could not be read; the pass is not over while
     the cooldown outlasts the given readings.
     */
    method RunOnce(readings: seq<Round>, response: Option<Response>, stopWhileWaiting: bool) returns (over: bool, again: bool)
      requires Idle(Held(), capacity) && readings != [] && forall i :: 0 <= i < |readings| ==> readings[i].nap >= 0.0
      modifies this
      ensures over ==> Idle(Held(), capacity)
      ensures old(stopEvent) || old(queue) == [] ==> over && !again && Held() == old(Held()) && posted == old(posted)
      ensures over && !old(stopEvent) && old(queue) != [] ==>
                && Held() == Passed(old(Held()), again)
                && (again <==> !stopEvent && RetriesOf(old(retryCounts), old(queue)[0]) < MAX_RETRIES
                               && (response.None? || response.value.Transient?))
                && (response.Some? && !stopEvent ==> posted == old(posted) + [old(queue)[0]] && lastSubmissionAt == Some(now))
                && (response.None? ==> posted == old(posted))
                && (posted == old(posted) || posted == old(posted) + [old(queue)[0]])
    {
      over, again := true, false;
      if stopEvent || queue == [] {
        return;
      }
      ghost var before := Held();
      var title := queue[0];
      queue := queue[1..];
      var failed := response.None?;
      if response.Some? {
        var submitted, _ := Submit(title, readings);
        if submitted.StillWaiting? {
          return false, false;
        }
        failed := submitted.Posted? && response.value.Transient?;
      }
      assert before.queue == [title] + queue;
      again := Settle(title, failed, stopWhileWaiting);
      PassKeepsIdle(before, capacity, again);
    }
  }
}
