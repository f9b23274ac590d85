/**
 The bounded queue of source translations (wiktionary_irc.py, SourceTranslationQueueWorker):
 callback threads enqueue pages, one consumer posts them and requeues transient failures.

 A step is what one thread does between two points where another may run: one section
 under the queue lock, one queue operation outside it, one HTTP exchange, one wait.  The
 consumer takes from the queue without the lock, even while a callback is half way
 through `enqueue`.  A step that is not enabled leaves the state as it is, so every
 sequence of steps is a run and every interleaving is such a sequence.
 */
module SourceTranslationWorker {
  import opened Wrappers

  const MAX_RETRIES: nat := 5

  datatype Page = Page(language: string, title: string)

  type RequestId = int

  /** How an accepted enqueue ended. */
  datatype Ending = Accepted | Refused | Dropped

  /** The history of one accepted enqueue. */
  datatype Ticket = Ticket(page: Page, sends: nat, ending: Option<Ending>)

  datatype Response = Success | Transient | Fatal

  /** One request as posted, and what came back. */
  datatype Sent = Sent(page: Page, id: RequestId, response: Response)

  /** Where the consumer thread stands in `run`; while it works on a page, where in `_submit` and `_retry`. */
  datatype Phase = AtLoop | Taking | Working(page: Page, stage: Stage) | Acknowledging | Exited

  datatype Stage =
    | Submitting
    | Posting(id: RequestId)
    | Failing
    | Waiting
    | Requeueing
    | NotRetried
    | Finishing(ending: Ending)

  /**
   `held` is the page a callback has added to the set but not yet put, with the lock held.
   `wire` and `ledger` are histories: what was posted, and the fate of every accepted enqueue.
   */
  datatype State = State(
    capacity: nat,
    queue: seq<Page>,
    queued: set<Page>,
    retries: map<Page, nat>,
    ids: map<Page, RequestId>,
    stopped: bool,
    held: Option<Page>,
    phase: Phase,
    unfinished: nat,
    ledger: map<RequestId, Ticket>,
    wire: seq<Sent>)

  datatype Event =
    | Begin(page: Page, id: RequestId)
    | Commit
    | Stop
    | Restart
    | CheckStop
    | Take
    | LookUp(spare: RequestId)
    | Post(response: Response)
    | CountRetry
    | WakeUp
    | Requeue
    | Judge
    | Release
    | Acknowledge

  function Initial(capacity: nat): State {
    State(capacity, [], {}, map[], map[], false, None, AtLoop, 0, map[], [])
  }

  /** Python's queues are unbounded when their size is zero. */
  predicate Full(s: State) { s.capacity > 0 && |s.queue| >= s.capacity }

  function RetriesOf(retries: map<Page, nat>, page: Page): nat { if page in retries then retries[page] else 0 }

  predicate At(s: State, stage: Stage) { s.phase.Working? && s.phase.stage == stage }

  function MoveTo(s: State, stage: Stage): State
    requires s.phase.Working?
  {
    s.(phase := s.phase.(stage := stage))
  }

  // enqueue, under the lock; identifiers from the factory are new

  function BeginStep(s: State, page: Page, id: RequestId): State {
    if s.held.Some? || page in s.queued || id in s.ledger || id in s.ids.Values then s
    else s.(queued := s.queued + {page}, ids := s.ids[page := id], held := Some(page))
  }

  function CommitStep(s: State): State {
    if s.held.None? || s.held.value !in s.ids then s
    else
      var page := s.held.value;
      if Full(s) then
        s.(queued := s.queued - {page}, ids := s.ids - {page}, held := None)
      else
        s.(queue := s.queue + [page], unfinished := s.unfinished + 1, held := None,
           ledger := s.ledger[s.ids[page] := Ticket(page, 0, None)])
  }

  // run

  function TakeStep(s: State): State {
    if !s.phase.Taking? then s
    else if s.queue == [] then s.(phase := AtLoop)
    else s.(queue := s.queue[1..], phase := Working(s.queue[0], Submitting))
  }

  // _submit: the id is read under the lock, the request is sent outside it

  function LookUpStep(s: State, spare: RequestId): State {
    if !At(s, Submitting) || s.held.Some? then s
    else if s.phase.page in s.ids then MoveTo(s, Posting(s.ids[s.phase.page]))
    else MoveTo(s.(ids := s.ids[s.phase.page := spare]), Posting(spare))
  }

  function PostStep(s: State, response: Response): State {
    if !(s.phase.Working? && s.phase.stage.Posting?) then s
    else
      var id := s.phase.stage.id;
      var sent := s.(wire := s.wire + [Sent(s.phase.page, id, response)],
                     ledger := if id in s.ledger then s.ledger[id := s.ledger[id].(sends := s.ledger[id].sends + 1)]
                               else s.ledger);
      MoveTo(sent, AfterPost(response))
  }

  function AfterPost(response: Response): Stage {
    match response
    case Success => Finishing(Accepted)
    case Transient => Failing
    case Fatal => Finishing(Refused)
  }

  // _retry: count under the lock, wait, put back under the lock

  function CountRetryStep(s: State): State {
    if !At(s, Failing) || s.held.Some? then s
    else
      var attempts := RetriesOf(s.retries, s.phase.page) + 1;
      if attempts > MAX_RETRIES then MoveTo(s, NotRetried)
      else MoveTo(s.(retries := s.retries[s.phase.page := attempts]), Waiting)
  }

  function WakeUpStep(s: State): State {
    if !At(s, Waiting) then s else MoveTo(s, if s.stopped then NotRetried else Requeueing)
  }

  function RequeueStep(s: State): State {
    if !At(s, Requeueing) || s.held.Some? then s
    else if Full(s) then MoveTo(s, NotRetried)
    else s.(queue := s.queue + [s.phase.page], unfinished := s.unfinished + 1, phase := Acknowledging)
  }

  // the end of run: a page not retried failed, unless the worker was told to stop

  function JudgeStep(s: State): State {
    if !At(s, NotRetried) then s else MoveTo(s, Finishing(if s.stopped then Dropped else Refused))
  }

  function ReleaseStep(s: State): State {
    if !(s.phase.Working? && s.phase.stage.Finishing?) || s.held.Some? then s
    else
      var page := s.phase.page;
      s.(queued := s.queued - {page}, retries := s.retries - {page}, ids := s.ids - {page}, phase := Acknowledging,
         ledger := if page in s.ids && s.ids[page] in s.ledger
                   then s.ledger[s.ids[page] := s.ledger[s.ids[page]].(ending := Some(s.phase.stage.ending))]
                   else s.ledger)
  }

  function Step(s: State, e: Event): State {
    match e
    case Begin(page, id) => BeginStep(s, page, id)
    case Commit => CommitStep(s)
    case Stop => s.(stopped := true)
    case Restart => if s.phase.Exited? then s.(stopped := false, phase := AtLoop) else s
    case CheckStop => if !s.phase.AtLoop? then s else s.(phase := if s.stopped then Exited else Taking)
    case Take => TakeStep(s)
    case LookUp(spare) => LookUpStep(s, spare)
    case Post(response) => PostStep(s, response)
    case CountRetry => CountRetryStep(s)
    case WakeUp => WakeUpStep(s)
    case Requeue => RequeueStep(s)
    case Judge => JudgeStep(s)
    case Release => ReleaseStep(s)
    case Acknowledge =>
      if !s.phase.Acknowledging? || s.unfinished == 0 then s
      else s.(unfinished := s.unfinished - 1, phase := AtLoop)
  }

  function Run(s: State, events: seq<Event>): State {
    if events == [] then s else Step(Run(s, events[..|events| - 1]), events[|events| - 1])
  }

  // ---------------------------------------------------------------- the invariant

  predicate InFlight(s: State, page: Page) { s.phase.Working? && s.phase.page == page }

  predicate Held(s: State, page: Page) { s.held == Some(page) }

  /** Queued pages are distinct; the dedup set is exactly the queued, in-flight and half-enqueued pages. */
  ghost predicate PagesAccounted(s: State) {
    && (forall i, j :: 0 <= i < j < |s.queue| ==> s.queue[i] != s.queue[j])
    && (forall page :: page in s.queue ==> !InFlight(s, page) && !Held(s, page))
    && (s.held.Some? ==> !InFlight(s, s.held.value))
    && (forall page :: page in s.queued <==> page in s.queue || InFlight(s, page) || Held(s, page))
    && (s.capacity > 0 ==> |s.queue| <= s.capacity)
  }

  /** The request ids have that same domain, and each names the one open ticket of its page. */
  ghost predicate TicketsOpen(s: State) {
    && s.ids.Keys == s.queued
    && (forall page :: page in s.ids && !Held(s, page) ==> IsOpen(s.ledger, s.ids[page], page))
    && (s.held.Some? && s.held.value in s.ids ==> s.ids[s.held.value] !in s.ledger)
    && (forall id, page :: IsOpen(s.ledger, id, page) ==> page in s.ids && s.ids[page] == id)
    && (s.phase.Working? && s.phase.stage.Posting? ==>
          s.phase.page in s.ids && s.ids[s.phase.page] == s.phase.stage.id)
  }

  predicate IsOpen(ledger: map<RequestId, Ticket>, id: RequestId, page: Page) {
    id in ledger && ledger[id].page == page && ledger[id].ending.None?
  }

  /** Sends and counted retries go together. */
  ghost predicate AttemptsCounted(s: State) {
    && (forall page :: page in s.retries ==> page in s.queued && !Held(s, page) && s.retries[page] <= MAX_RETRIES)
    && (forall id :: id in s.ledger ==> s.ledger[id].sends <= MAX_RETRIES + 1)
    && (forall id, page :: IsOpen(s.ledger, id, page) && !GivenUp(s, page) ==>
                             s.ledger[id].sends ==
                             RetriesOf(s.retries, page) + if InFlight(s, page) && At(s, Failing) then 1 else 0)
  }

  predicate GivenUp(s: State, page: Page) {
    InFlight(s, page) && (s.phase.stage.NotRetried? || s.phase.stage.Finishing?)
  }

  /** Everything posted carried the id of a ticket for that very page. */
  ghost predicate WireHonest(s: State) {
    forall i :: 0 <= i < |s.wire| ==> s.wire[i].id in s.ledger && s.ledger[s.wire[i].id].page == s.wire[i].page
  }

  ghost predicate TasksCounted(s: State) {
    s.unfinished == |s.queue| + if s.phase.Working? || s.phase.Acknowledging? then 1 else 0
  }

  ghost predicate Inv(s: State) {
    PagesAccounted(s) && TicketsOpen(s) && AttemptsCounted(s) && WireHonest(s) && TasksCounted(s)
  }

  lemma BeginKeepsInv(s: State, page: Page, id: RequestId)
    requires Inv(s)
    ensures Inv(BeginStep(s, page, id))
  {
    assert forall i, p :: IsOpen(s.ledger, i, p) ==> p != page || page in s.queued;
  }

  /** What the step does to the open tickets. */
  lemma CommitOpens(s: State)
    requires PagesAccounted(s) && TicketsOpen(s)
    ensures forall id, page :: IsOpen(CommitStep(s).ledger, id, page) <==> 
              IsOpen(s.ledger, id, page) || (s.held == Some(page) && !Full(s) && page in s.ids && s.ids[page] == id)
  {
  }

  lemma CommitKeepsPages(s: State)
    requires PagesAccounted(s) && TicketsOpen(s)
    ensures PagesAccounted(CommitStep(s))
  {
  }

  lemma CommitKeepsTickets(s: State)
    requires PagesAccounted(s) && TicketsOpen(s)
    ensures TicketsOpen(CommitStep(s))
  {
    CommitOpens(s);
  }

  lemma CommitKeepsAttempts(s: State)
    requires PagesAccounted(s) && TicketsOpen(s) && AttemptsCounted(s)
    ensures AttemptsCounted(CommitStep(s))
  {
    CommitOpens(s);
  }

  lemma CommitKeepsInv(s: State)
    requires Inv(s)
    ensures Inv(CommitStep(s))
  {
    CommitKeepsPages(s);
    CommitKeepsTickets(s);
    CommitKeepsAttempts(s);
  }

  lemma TakeKeepsPages(s: State)
    requires PagesAccounted(s) && TicketsOpen(s)
    ensures PagesAccounted(TakeStep(s))
  {
  }

  lemma TakeKeepsTickets(s: State)
    requires PagesAccounted(s) && TicketsOpen(s)
    ensures TicketsOpen(TakeStep(s))
  {
  }

  lemma TakeKeepsAttempts(s: State)
    requires PagesAccounted(s) && TicketsOpen(s) && AttemptsCounted(s)
    ensures AttemptsCounted(TakeStep(s))
  {
  }

  lemma TakeKeepsInv(s: State)
    requires Inv(s)
    ensures Inv(TakeStep(s))
  {
    TakeKeepsPages(s);
    TakeKeepsTickets(s);
    TakeKeepsAttempts(s);
  }

  lemma LookUpKeepsInv(s: State, spare: RequestId)
    requires Inv(s)
    ensures Inv(LookUpStep(s, spare))
  {
  }

  /** What the step does to the open tickets. */
  lemma PostOpens(s: State, response: Response)
    requires PagesAccounted(s) && TicketsOpen(s)
    ensures forall id, page :: IsOpen(PostStep(s, response).ledger, id, page) <==> IsOpen(s.ledger, id, page)
  {
  }

  lemma PostKeepsPages(s: State, response: Response)
    requires PagesAccounted(s) && TicketsOpen(s)
    ensures PagesAccounted(PostStep(s, response))
  {
  }

  lemma PostKeepsTickets(s: State, response: Response)
    requires PagesAccounted(s) && TicketsOpen(s)
    ensures TicketsOpen(PostStep(s, response))
  {
    PostOpens(s, response);
  }

  lemma PostKeepsAttempts(s: State, response: Response)
    requires PagesAccounted(s) && TicketsOpen(s) && AttemptsCounted(s)
    ensures AttemptsCounted(PostStep(s, response))
  {
    PostOpens(s, response);
  }

  lemma PostKeepsInv(s: State, response: Response)
    requires Inv(s)
    ensures Inv(PostStep(s, response))
  {
    PostKeepsPages(s, response);
    PostKeepsTickets(s, response);
    PostKeepsAttempts(s, response);
  }

  lemma CountRetryKeepsPages(s: State)
    requires PagesAccounted(s) && TicketsOpen(s)
    ensures PagesAccounted(CountRetryStep(s))
  {
  }

  lemma CountRetryKeepsTickets(s: State)
    requires PagesAccounted(s) && TicketsOpen(s)
    ensures TicketsOpen(CountRetryStep(s))
  {
  }

  /** The consumer's next retry is counted, in a state where its page has failed once more than it was retried. */
  lemma CountRetryKeepsAttempts(s: State)
    requires AttemptsCounted(s) && At(s, Failing) && s.held.None?
    requires s.phase.page in s.queued && !Held(s, s.phase.page)
    ensures AttemptsCounted(CountRetryStep(s))
  {
    var page := s.phase.page;
    if RetriesOf(s.retries, page) < MAX_RETRIES {
      var t := s.(retries := s.retries[page := RetriesOf(s.retries, page) + 1], phase := Working(page, Waiting));
      assert forall id, p :: IsOpen(s.ledger, id, p) ==> !GivenUp(s, p);
      assert AttemptsCounted(t);
      assert CountRetryStep(s) == t;
    } else {
      assert CountRetryStep(s) == s.(phase := Working(page, NotRetried));
    }
  }

  lemma CountRetryKeepsInv(s: State)
    requires Inv(s)
    ensures Inv(CountRetryStep(s))
  {
    CountRetryKeepsPages(s);
    CountRetryKeepsTickets(s);
    if At(s, Failing) && s.held.None? {
      assert InFlight(s, s.phase.page);
      CountRetryKeepsAttempts(s);
    }
  }

  lemma WaitKeepsPages(s: State, e: Event)
    requires PagesAccounted(s) && TicketsOpen(s) && (e.WakeUp? || e.Judge?)
    ensures PagesAccounted(Step(s, e))
  {
  }

  lemma WaitKeepsTickets(s: State, e: Event)
    requires PagesAccounted(s) && TicketsOpen(s) && (e.WakeUp? || e.Judge?)
    ensures TicketsOpen(Step(s, e))
  {
  }

  lemma WaitKeepsAttempts(s: State, e: Event)
    requires PagesAccounted(s) && TicketsOpen(s) && AttemptsCounted(s) && (e.WakeUp? || e.Judge?)
    ensures AttemptsCounted(Step(s, e))
  {
  }

  lemma WaitKeepsInv(s: State, e: Event)
    requires Inv(s) && (e.WakeUp? || e.Judge?)
    ensures Inv(Step(s, e))
  {
    WaitKeepsPages(s, e);
    WaitKeepsTickets(s, e);
    WaitKeepsAttempts(s, e);
  }

  lemma RequeueKeepsPages(s: State)
    requires PagesAccounted(s) && TicketsOpen(s)
    ensures PagesAccounted(RequeueStep(s))
  {
    assert s.phase.Working? ==> s.phase.page !in s.queue;
  }

  lemma RequeueKeepsTickets(s: State)
    requires PagesAccounted(s) && TicketsOpen(s)
    ensures TicketsOpen(RequeueStep(s))
  {
  }

  lemma RequeueKeepsAttempts(s: State)
    requires PagesAccounted(s) && TicketsOpen(s) && AttemptsCounted(s)
    ensures AttemptsCounted(RequeueStep(s))
  {
  }

  lemma RequeueKeepsInv(s: State)
    requires Inv(s)
    ensures Inv(RequeueStep(s))
  {
    RequeueKeepsPages(s);
    RequeueKeepsTickets(s);
    RequeueKeepsAttempts(s);
  }

  /** What the step does to the open tickets. */
  lemma ReleaseOpens(s: State)
    requires PagesAccounted(s) && TicketsOpen(s)
    requires s.phase.Working? && s.phase.stage.Finishing? && s.held.None?
    ensures forall id, page :: IsOpen(ReleaseStep(s).ledger, id, page) <==> IsOpen(s.ledger, id, page) && page != s.phase.page
  {
  }

  lemma ReleaseKeepsPages(s: State)
    requires PagesAccounted(s) && TicketsOpen(s)
    requires s.phase.Working? && s.phase.stage.Finishing? && s.held.None?
    ensures PagesAccounted(ReleaseStep(s))
  {
  }

  lemma ReleaseKeepsTickets(s: State)
    requires PagesAccounted(s) && TicketsOpen(s)
    requires s.phase.Working? && s.phase.stage.Finishing? && s.held.None?
    ensures TicketsOpen(ReleaseStep(s))
  {
    ReleaseOpens(s);
  }

  lemma ReleaseKeepsAttempts(s: State)
    requires PagesAccounted(s) && TicketsOpen(s) && AttemptsCounted(s)
    requires s.phase.Working? && s.phase.stage.Finishing? && s.held.None?
    ensures AttemptsCounted(ReleaseStep(s))
  {
    ReleaseOpens(s);
  }

  lemma ReleaseKeepsInv(s: State)
    requires Inv(s)
    requires s.phase.Working? && s.phase.stage.Finishing? && s.held.None?
    ensures Inv(ReleaseStep(s))
  {
    ReleaseKeepsPages(s);
    ReleaseKeepsTickets(s);
    ReleaseKeepsAttempts(s);
  }

  lemma LoopKeepsPages(s: State, e: Event)
    requires PagesAccounted(s) && TicketsOpen(s) && (e.Stop? || e.Restart? || e.CheckStop? || e.Acknowledge?)
    ensures PagesAccounted(Step(s, e))
  {
  }

  lemma LoopKeepsTickets(s: State, e: Event)
    requires PagesAccounted(s) && TicketsOpen(s) && (e.Stop? || e.Restart? || e.CheckStop? || e.Acknowledge?)
    ensures TicketsOpen(Step(s, e))
  {
  }

  lemma LoopKeepsAttempts(s: State, e: Event)
    requires PagesAccounted(s) && TicketsOpen(s) && AttemptsCounted(s) && (e.Stop? || e.Restart? || e.CheckStop? || e.Acknowledge?)
    ensures AttemptsCounted(Step(s, e))
  {
  }

  lemma LoopKeepsInv(s: State, e: Event)
    requires Inv(s) && (e.Stop? || e.Restart? || e.CheckStop? || e.Acknowledge?)
    ensures Inv(Step(s, e))
  {
    LoopKeepsPages(s, e);
    LoopKeepsTickets(s, e);
    LoopKeepsAttempts(s, e);
  }

  lemma StepKeepsInv(s: State, e: Event)
    requires Inv(s)
    ensures Inv(Step(s, e))
  {
    match e
    case Begin(page, id) => BeginKeepsInv(s, page, id);
    case Commit => CommitKeepsInv(s);
    case Take => TakeKeepsInv(s);
    case LookUp(spare) => LookUpKeepsInv(s, spare);
    case Post(response) => PostKeepsInv(s, response);
    case CountRetry => CountRetryKeepsInv(s);
    case WakeUp => WaitKeepsInv(s, e);
    case Judge => WaitKeepsInv(s, e);
    case Requeue => RequeueKeepsInv(s);
    case Release =>
      if s.phase.Working? && s.phase.stage.Finishing? && s.held.None? {
        ReleaseKeepsInv(s);
      }
    case _ => LoopKeepsInv(s, e);
  }

  lemma {:induction false} RunKeepsInv(capacity: nat, events: seq<Event>)
    ensures Inv(Run(Initial(capacity), events))
  {
    if events != [] {
      RunKeepsInv(capacity, events[..|events| - 1]);
      StepKeepsInv(Run(Initial(capacity), events[..|events| - 1]), events[|events| - 1]);
    }
  }

  // ---------------------------------------------------------------- what the invariant means

  /** What the consumer and a half-way callback can rely on about their own pages. */
  ghost predicate OwnTickets(s: State) {
    && (s.phase.Working? ==>
          && s.phase.page in s.queued && s.phase.page in s.ids && !Held(s, s.phase.page)
          && IsOpen(s.ledger, s.ids[s.phase.page], s.phase.page)
          && (s.phase.stage.Posting? ==> s.phase.stage.id == s.ids[s.phase.page]))
    && (s.held.Some? ==> s.held.value in s.ids && s.ids[s.held.value] !in s.ledger)
  }

  lemma InvGivesOwnTickets(s: State)
    requires Inv(s)
    ensures OwnTickets(s)
  {
    if s.phase.Working? {
      assert InFlight(s, s.phase.page) && !Held(s, s.phase.page);
    }
    if s.held.Some? {
      assert Held(s, s.held.value);
    }
  }

  /** The consumer always finds the id that `enqueue` stored: the fallback in `_submit` is dead code. */
  lemma FallbackNeverReached(capacity: nat, events: seq<Event>)
    ensures var s := Run(Initial(capacity), events);
            s.phase.Working? ==> s.phase.page in s.ids && IsOpen(s.ledger, s.ids[s.phase.page], s.phase.page)
  {
    RunKeepsInv(capacity, events);
    InvGivesOwnTickets(Run(Initial(capacity), events));
  }

  function Posts(wire: seq<Sent>, id: RequestId): nat {
    if wire == [] then 0
    else Posts(wire[..|wire| - 1], id) + if wire[|wire| - 1].id == id then 1 else 0
  }

  predicate Succeeded(wire: seq<Sent>, id: RequestId) {
    exists i :: 0 <= i < |wire| && wire[i].id == id && wire[i].response.Success?
  }

  predicate Concluding(s: State, id: RequestId, ending: Ending) {
    s.phase.Working? && s.phase.stage == Finishing(ending) && s.phase.page in s.ids && s.ids[s.phase.page] == id
  }

  /** The ledger tells the truth about the wire: how often each id was sent, and which ones succeeded. */
  ghost predicate CountsHonest(s: State) {
    && (forall id :: id !in s.ledger ==> Posts(s.wire, id) == 0)
    && (forall id :: id in s.ledger ==> Posts(s.wire, id) == s.ledger[id].sends)
  }

  ghost predicate SuccessesHonest(s: State) {
    forall id :: id in s.ledger ==>
                   (Succeeded(s.wire, id) <==> s.ledger[id].ending == Some(Accepted) || Concluding(s, id, Accepted))
  }

  ghost predicate LedgerHonest(s: State) { CountsHonest(s) && SuccessesHonest(s) }

  lemma PostKeepsCounts(s: State, response: Response)
    requires OwnTickets(s) && CountsHonest(s) && s.phase.Working? && s.phase.stage.Posting?
    ensures CountsHonest(PostStep(s, response))
  {
    PostsAppend(s.wire, Sent(s.phase.page, s.phase.stage.id, response));
  }

  lemma PostKeepsSuccesses(s: State, response: Response)
    requires OwnTickets(s) && SuccessesHonest(s) && s.phase.Working? && s.phase.stage.Posting?
    ensures SuccessesHonest(PostStep(s, response))
  {
    var t, id := PostStep(s, response), s.phase.stage.id;
    PostsAppend(s.wire, Sent(s.phase.page, id, response));
    forall i | i in t.ledger
      ensures Concluding(t, i, Accepted) <==> i == id && response.Success?
      ensures !Concluding(s, i, Accepted) && t.ledger[i].ending == s.ledger[i].ending
    {
    }
  }

  lemma PostsAppend(wire: seq<Sent>, sent: Sent)
    ensures forall id :: Posts(wire + [sent], id) == Posts(wire, id) + if sent.id == id then 1 else 0
    ensures forall id :: Succeeded(wire + [sent], id) <==> Succeeded(wire, id) || (sent.id == id && sent.response.Success?)
  {
    assert (wire + [sent])[..|wire|] == wire;
    forall id
      ensures Succeeded(wire + [sent], id) <==> Succeeded(wire, id) || (sent.id == id && sent.response.Success?)
    {
      assert (wire + [sent])[|wire|] == sent;
      if Succeeded(wire, id) {
        var k :| 0 <= k < |wire| && wire[k].id == id && wire[k].response.Success?;
        assert (wire + [sent])[k] == wire[k];
      }
    }
  }

  /** Steps that neither post nor release leave every conclusion as it was. */
  lemma ConclusionStays(s: State, e: Event, id: RequestId)
    requires OwnTickets(s) && !e.Post? && !e.Release?
    ensures Concluding(Step(s, e), id, Accepted) <==> Concluding(s, id, Accepted)
  {
  }

  lemma CommitAddsTicket(s: State)
    requires OwnTickets(s)
    ensures var t := CommitStep(s);
            && (forall id :: id in s.ledger ==> id in t.ledger && t.ledger[id] == s.ledger[id])
            && (forall id :: id in t.ledger && id !in s.ledger ==>
                               t.ledger[id].ending.None? && t.ledger[id].sends == 0 && !Concluding(s, id, Accepted))
  {
  }

  lemma NoPostsNoSuccess(wire: seq<Sent>, id: RequestId)
    requires Posts(wire, id) == 0
    ensures !Succeeded(wire, id)
  {
    if wire != [] {
      NoPostsNoSuccess(wire[..|wire| - 1], id);
    }
  }

  lemma OtherStepsKeepHonesty(s: State, e: Event)
    requires OwnTickets(s) && LedgerHonest(s) && !e.Post? && !e.Release?
    ensures LedgerHonest(Step(s, e))
  {
    forall id
      ensures Concluding(Step(s, e), id, Accepted) <==> Concluding(s, id, Accepted)
    {
      ConclusionStays(s, e, id);
    }
    if e.Commit? {
      CommitAddsTicket(s);
      forall id | id in Step(s, e).ledger && id !in s.ledger
        ensures Posts(s.wire, id) == 0 && !Succeeded(s.wire, id)
      {
        NoPostsNoSuccess(s.wire, id);
      }
    }
  }

  lemma ReleaseKeepsHonesty(s: State)
    requires OwnTickets(s) && LedgerHonest(s)
    ensures LedgerHonest(ReleaseStep(s))
  {
  }

  lemma StepKeepsHonesty(s: State, e: Event)
    requires OwnTickets(s) && LedgerHonest(s)
    ensures LedgerHonest(Step(s, e))
  {
    if e.Post? {
      if s.phase.Working? && s.phase.stage.Posting? {
        PostKeepsCounts(s, e.response);
        PostKeepsSuccesses(s, e.response);
      }
    } else if e.Release? {
      ReleaseKeepsHonesty(s);
    } else {
      OtherStepsKeepHonesty(s, e);
    }
  }

  lemma {:induction false} RunKeepsHonesty(capacity: nat, events: seq<Event>)
    ensures LedgerHonest(Run(Initial(capacity), events))
  {
    if events != [] {
      var s := Run(Initial(capacity), events[..|events| - 1]);
      RunKeepsHonesty(capacity, events[..|events| - 1]);
      RunKeepsInv(capacity, events[..|events| - 1]);
      InvGivesOwnTickets(s);
      StepKeepsHonesty(s, events[|events| - 1]);
    }
  }

  /**
   Every attempt of an accepted enqueue is on the wire under its own id, at most six times,
   and an enqueue ends as accepted only when one of its posts succeeded.
   */
  lemma AttemptsBounded(capacity: nat, events: seq<Event>)
    ensures var s := Run(Initial(capacity), events);
            && (forall i :: 0 <= i < |s.wire| ==>
                              s.wire[i].id in s.ledger && s.ledger[s.wire[i].id].page == s.wire[i].page)
            && (forall id :: Posts(s.wire, id) <= MAX_RETRIES + 1)
            && (forall id :: id in s.ledger && s.ledger[id].ending.Some? ==>
                               (s.ledger[id].ending.value.Accepted? <==> Succeeded(s.wire, id)))
  {
    var s := Run(Initial(capacity), events);
    RunKeepsInv(capacity, events);
    RunKeepsHonesty(capacity, events);
    InvGivesOwnTickets(s);
  }

  /** Each accepted enqueue has ended in one way, or is still queued or in flight under its id. */
  lemma EnqueuesAccountedFor(capacity: nat, events: seq<Event>, id: RequestId)
    requires id in Run(Initial(capacity), events).ledger
    ensures var s := Run(Initial(capacity), events);
            var page := s.ledger[id].page;
            s.ledger[id].ending.Some? <==>
            !((page in s.queue || InFlight(s, page)) && page in s.ids && s.ids[page] == id)
  {
    var s := Run(Initial(capacity), events);
    RunKeepsInv(capacity, events);
    if s.ledger[id].ending.None? {
      assert IsOpen(s.ledger, id, s.ledger[id].page);
    }
  }

  lemma StepKeepsEndings(s: State, e: Event, id: RequestId)
    requires OwnTickets(s) && id in s.ledger
    ensures var t := Step(s, e);
            && id in t.ledger && t.ledger[id].page == s.ledger[id].page
            && (s.ledger[id].ending.Some? ==> t.ledger[id] == s.ledger[id])
  {
  }

  /** A ticket never changes its page, never disappears, and is frozen once it has ended. */
  lemma {:induction false} EndingsAreFinal(capacity: nat, events: seq<Event>, more: seq<Event>, id: RequestId)
    requires id in Run(Initial(capacity), events).ledger
    ensures var early, late := Run(Initial(capacity), events), Run(Initial(capacity), events + more);
            && id in late.ledger && late.ledger[id].page == early.ledger[id].page
            && (early.ledger[id].ending.Some? ==> late.ledger[id] == early.ledger[id])
  {
    if more == [] {
      assert events + more == events;
    } else {
      var shorter := events + more[..|more| - 1];
      assert (events + more)[..|events + more| - 1] == shorter;
      EndingsAreFinal(capacity, events, more[..|more| - 1], id);
      RunKeepsInv(capacity, shorter);
      InvGivesOwnTickets(Run(Initial(capacity), shorter));
      StepKeepsEndings(Run(Initial(capacity), shorter), more[|more| - 1], id);
    }
  }

  // ---------------------------------------------------------------- why an enqueue ended

  /** The response to the last post under an id. */
  function LastPost(wire: seq<Sent>, id: RequestId): Option<Response> {
    if wire == [] then None
    else if wire[|wire| - 1].id == id then Some(wire[|wire| - 1].response)
    else LastPost(wire[..|wire| - 1], id)
  }

  /** The step that finds no room to put a page back. */
  predicate FindsNoRoom(s: State, e: Event) {
    e.Requeue? && At(s, Requeueing) && s.held.None? && Full(s) && s.phase.page in s.ids
  }

  /** The ids whose page found no room in the run. */
  function NoRoom(capacity: nat, events: seq<Event>): set<RequestId> {
    if events == [] then {} else
    var before, s := NoRoom(capacity, events[..|events| - 1]), Run(Initial(capacity), events[..|events| - 1]);
    if FindsNoRoom(s, events[|events| - 1]) then before + {s.ids[s.phase.page]} else before
  }

  predicate CausedBy(ending: Ending, last: Option<Response>, sends: nat, stop: bool, noRoom: bool) {
    match ending
    case Accepted => last == Some(Success)
    case Dropped => last == Some(Transient) && stop
    case Refused => last == Some(Fatal) || (last == Some(Transient) && (sends == MAX_RETRIES + 1 || noRoom))
  }

  predicate StageCaused(stage: Stage, last: Option<Response>, sends: nat, stopped: bool, stop: bool, noRoom: bool) {
    match stage
    case Submitting => true
    case Posting(_) => true
    case NotRetried => last == Some(Transient) && (stopped || sends == MAX_RETRIES + 1 || noRoom)
    case Finishing(ending) => CausedBy(ending, last, sends, stop, noRoom)
    case _ => last == Some(Transient)
  }

  /** Every ending has its cause, and the page in flight is on its way to one that will. */
  ghost predicate Caused(s: State, stop: bool, noRoom: set<RequestId>) {
    && (s.stopped ==> stop)
    && (forall id :: id in s.ledger && s.ledger[id].ending.Some? ==>
                       CausedBy(s.ledger[id].ending.value, LastPost(s.wire, id), s.ledger[id].sends, stop, id in noRoom))
    && (s.phase.Working? && s.phase.page in s.ids && s.ids[s.phase.page] in s.ledger ==> PageCaused(s, stop, noRoom))
  }

  ghost predicate PageCaused(s: State, stop: bool, noRoom: set<RequestId>)
    requires s.phase.Working? && s.phase.page in s.ids && s.ids[s.phase.page] in s.ledger
  {
    var id := s.ids[s.phase.page];
    StageCaused(s.phase.stage, LastPost(s.wire, id), s.ledger[id].sends, s.stopped, stop, id in noRoom)
  }

  lemma LastPostAppends(wire: seq<Sent>, sent: Sent, id: RequestId)
    ensures LastPost(wire + [sent], id) == if sent.id == id then Some(sent.response) else LastPost(wire, id)
  {
    assert (wire + [sent])[..|wire|] == wire;
  }

  lemma PostKeepsCauses(s: State, response: Response, stop: bool, noRoom: set<RequestId>)
    requires OwnTickets(s) && Caused(s, stop, noRoom) && s.phase.Working? && s.phase.stage.Posting?
    ensures Caused(PostStep(s, response), stop, noRoom)
  {
    var t, sent := PostStep(s, response), Sent(s.phase.page, s.phase.stage.id, response);
    forall id
      ensures LastPost(t.wire, id) == if sent.id == id then Some(response) else LastPost(s.wire, id)
    {
      LastPostAppends(s.wire, sent, id);
    }
  }

  lemma CountRetryKeepsCauses(s: State, stop: bool, noRoom: set<RequestId>)
    requires OwnTickets(s) && AttemptsCounted(s) && Caused(s, stop, noRoom) && At(s, Failing) && s.held.None?
    ensures Caused(CountRetryStep(s), stop, noRoom)
  {
    var page := s.phase.page;
    assert IsOpen(s.ledger, s.ids[page], page) && !GivenUp(s, page);
  }

  lemma ReleaseKeepsCauses(s: State, stop: bool, noRoom: set<RequestId>)
    requires OwnTickets(s) && Caused(s, stop, noRoom)
    ensures Caused(ReleaseStep(s), stop, noRoom)
  {
  }

  lemma RequeueKeepsCauses(s: State, stop: bool, noRoom: set<RequestId>)
    requires OwnTickets(s) && Caused(s, stop, noRoom)
    ensures Caused(RequeueStep(s), stop, if FindsNoRoom(s, Requeue) then noRoom + {s.ids[s.phase.page]} else noRoom)
  {
  }

  lemma CommitKeepsCauses(s: State, stop: bool, noRoom: set<RequestId>)
    requires OwnTickets(s) && Caused(s, stop, noRoom)
    ensures Caused(CommitStep(s), stop, noRoom)
  {
    CommitAddsTicket(s);
  }

  lemma StepKeepsCauses(s: State, e: Event, stop: bool, noRoom: set<RequestId>)
    requires OwnTickets(s) && AttemptsCounted(s) && Caused(s, stop, noRoom)
    ensures Caused(Step(s, e), stop || e.Stop?, if FindsNoRoom(s, e) then noRoom + {s.ids[s.phase.page]} else noRoom)
  {
    match e
    case Post(response) =>
      if s.phase.Working? && s.phase.stage.Posting? {
        PostKeepsCauses(s, response, stop, noRoom);
      }
    case CountRetry =>
      if At(s, Failing) && s.held.None? {
        CountRetryKeepsCauses(s, stop, noRoom);
      }
    case Release => ReleaseKeepsCauses(s, stop, noRoom);
    case Requeue => RequeueKeepsCauses(s, stop, noRoom);
    case Commit => CommitKeepsCauses(s, stop, noRoom);
    case _ =>
  }

  lemma {:induction false} RunKeepsCauses(capacity: nat, events: seq<Event>)
    ensures Caused(Run(Initial(capacity), events), Stop in events, NoRoom(capacity, events))
  {
    if events != [] {
      var before, last := events[..|events| - 1], events[|events| - 1];
      assert events == before + [last];
      RunKeepsCauses(capacity, before);
      RunKeepsInv(capacity, before);
      InvGivesOwnTickets(Run(Initial(capacity), before));
      StepKeepsCauses(Run(Initial(capacity), before), last, Stop in before, NoRoom(capacity, before));
    }
  }

  /**
   Why an accepted enqueue ended: as accepted after a success; as dropped after a transient failure, and
   only if the worker was told to stop; as refused after a fatal answer, or after a transient one with
   six posts made or no room to put the page back.
   */
  lemma EndingsHaveCauses(capacity: nat, events: seq<Event>, id: RequestId)
    requires id in Run(Initial(capacity), events).ledger && Run(Initial(capacity), events).ledger[id].ending.Some?
    ensures var s := Run(Initial(capacity), events);
            CausedBy(s.ledger[id].ending.value, LastPost(s.wire, id), Posts(s.wire, id), Stop in events, id in NoRoom(capacity, events))
  {
    RunKeepsCauses(capacity, events);
    RunKeepsHonesty(capacity, events);
  }

  // ---------------------------------------------------------------- first come, first posted

  /** The ids of accepted enqueues, in the order in which their pages were put into the queue. */
  function Puts(capacity: nat, events: seq<Event>): seq<RequestId> {
    if events == [] then [] else
    var before, s := Puts(capacity, events[..|events| - 1]), Run(Initial(capacity), events[..|events| - 1]);
    if PutsPage(s, events[|events| - 1]) then before + [s.ids[s.held.value]] else before
  }

  predicate PutsPage(s: State, e: Event) { e.Commit? && s.held.Some? && !Full(s) && s.held.value in s.ids }

  /** The ids on the wire, in the order of their first posts. */
  function FirstPosts(wire: seq<Sent>): seq<RequestId> {
    if wire == [] then [] else
    var before, last := wire[..|wire| - 1], wire[|wire| - 1];
    FirstPosts(before) + if Posts(before, last.id) == 0 then [last.id] else []
  }

  predicate Unposted(s: State, page: Page) { page in s.ids && Posts(s.wire, s.ids[page]) == 0 }

  /** The ids of pages in a queue that were never posted, in order. */
  function InLine(s: State, queue: seq<Page>): seq<RequestId> {
    if queue == [] then [] else
    var before, last := queue[..|queue| - 1], queue[|queue| - 1];
    InLine(s, before) + if Unposted(s, last) then [s.ids[last]] else []
  }

  function InHand(s: State): seq<RequestId> {
    if s.phase.Working? && Unposted(s, s.phase.page) then [s.ids[s.phase.page]] else []
  }

  lemma {:induction false} InLineHead(s: State, page: Page, rest: seq<Page>)
    ensures InLine(s, [page] + rest) == (if Unposted(s, page) then [s.ids[page]] else []) + InLine(s, rest)
    decreases |rest|
  {
    var all := [page] + rest;
    if rest == [] {
      assert all == [page] && [page][..0] == [];
    } else {
      assert all[..|all| - 1] == [page] + rest[..|rest| - 1];
      InLineHead(s, page, rest[..|rest| - 1]);
    }
  }

  lemma InLineLast(s: State, queue: seq<Page>, page: Page)
    ensures InLine(s, queue + [page]) == InLine(s, queue) + if Unposted(s, page) then [s.ids[page]] else []
  {
    assert (queue + [page])[..|queue|] == queue;
  }

  /** What is said of the pages in a queue does not change as long as their ids and posts do not. */
  lemma {:induction false} InLineSame(s: State, t: State, queue: seq<Page>)
    requires forall page :: page in queue ==> (Unposted(s, page) <==> Unposted(t, page))
    requires forall page :: page in queue && Unposted(s, page) ==> page in t.ids && s.ids[page] == t.ids[page]
    ensures InLine(s, queue) == InLine(t, queue)
  {
    if queue != [] {
      assert queue[|queue| - 1] in queue;
      InLineSame(s, t, queue[..|queue| - 1]);
    }
  }

  /** The ids put so far: posted for the first time in that order, then the one in hand, then those that wait, in order. */
  ghost predicate InOrder(s: State, puts: seq<RequestId>) {
    puts == FirstPosts(s.wire) + InHand(s) + InLine(s, s.queue)
  }

  lemma BeginKeepsOrder(s: State, page: Page, id: RequestId, puts: seq<RequestId>)
    requires Inv(s) && InOrder(s, puts)
    ensures InOrder(BeginStep(s, page, id), puts)
  {
    InLineSame(s, BeginStep(s, page, id), s.queue);
  }

  /** The page put is new to the wire; what is known of all others stays. */
  lemma CommitPuts(s: State)
    requires Inv(s) && OwnTickets(s) && CountsHonest(s)
    ensures var t := CommitStep(s);
            && t.wire == s.wire && InHand(t) == InHand(s)
            && (forall page :: page in s.queue ==> page in s.ids && page in t.ids && s.ids[page] == t.ids[page])
            && if PutsPage(s, Commit) then t.queue == s.queue + [s.held.value] && t.ids == s.ids && Unposted(t, s.held.value)
               else t.queue == s.queue
  {
    assert s.held.Some? ==> s.held.value !in s.queue;
  }

  lemma CommitKeepsOrder(s: State, puts: seq<RequestId>)
    requires Inv(s) && OwnTickets(s) && CountsHonest(s) && InOrder(s, puts)
    ensures InOrder(CommitStep(s), if PutsPage(s, Commit) then puts + [s.ids[s.held.value]] else puts)
  {
    var t := CommitStep(s);
    CommitPuts(s);
    InLineSame(s, t, s.queue);
    if PutsPage(s, Commit) {
      InLineLast(t, s.queue, s.held.value);
    }
  }

  lemma TakeKeepsOrder(s: State, puts: seq<RequestId>)
    requires InOrder(s, puts)
    ensures InOrder(TakeStep(s), puts)
  {
    var t := TakeStep(s);
    if s.phase.Taking? && s.queue != [] {
      assert s.queue == [s.queue[0]] + s.queue[1..];
      InLineHead(s, s.queue[0], s.queue[1..]);
      InLineSame(s, t, s.queue[1..]);
    } else {
      InLineSame(s, t, s.queue);
    }
  }

  lemma PostKeepsOrder(s: State, response: Response, puts: seq<RequestId>)
    requires Inv(s) && OwnTickets(s) && InOrder(s, puts) && s.phase.Working? && s.phase.stage.Posting?
    ensures InOrder(PostStep(s, response), puts)
  {
    var t, sent := PostStep(s, response), Sent(s.phase.page, s.phase.stage.id, response);
    PostsAppend(s.wire, sent);
    assert t.wire == s.wire + [sent] && t.wire[..|s.wire|] == s.wire;
    forall page | page in s.queue
      ensures Unposted(s, page) <==> Unposted(t, page)
    {
      assert !InFlight(s, page) && page in s.queued && page in s.ids && IsOpen(s.ledger, s.ids[page], page);
    }
    InLineSame(s, t, s.queue);
  }

  lemma RequeuePuts(s: State)
    requires OwnTickets(s)
    ensures var t := RequeueStep(s);
            && t.wire == s.wire && t.ids == s.ids
            && if t.queue == s.queue then InHand(t) == InHand(s)
               else At(s, Requeueing) && t.queue == s.queue + [s.phase.page] && InHand(t) == []
  {
  }

  lemma RequeueKeepsOrder(s: State, puts: seq<RequestId>)
    requires OwnTickets(s) && InOrder(s, puts) && (At(s, Requeueing) ==> Posts(s.wire, s.ids[s.phase.page]) > 0)
    ensures InOrder(RequeueStep(s), puts)
  {
    var t := RequeueStep(s);
    RequeuePuts(s);
    InLineSame(s, t, s.queue);
    if t.queue != s.queue {
      InLineLast(t, s.queue, s.phase.page);
    }
  }

  lemma ReleaseKeepsOrder(s: State, puts: seq<RequestId>)
    requires Inv(s) && OwnTickets(s) && InOrder(s, puts)
    requires s.phase.Working? && s.phase.stage.Finishing? ==> Posts(s.wire, s.ids[s.phase.page]) > 0
    ensures InOrder(ReleaseStep(s), puts)
  {
    InLineSame(s, ReleaseStep(s), s.queue);
  }

  lemma OtherStepsKeepOrder(s: State, e: Event, puts: seq<RequestId>)
    requires OwnTickets(s) && InOrder(s, puts)
    requires !e.Begin? && !e.Commit? && !e.Take? && !e.Post? && !e.Requeue? && !e.Release?
    ensures InOrder(Step(s, e), puts)
  {
    InLineSame(s, Step(s, e), s.queue);
  }

  lemma {:induction false} LastPostCounts(wire: seq<Sent>, id: RequestId)
    ensures LastPost(wire, id).Some? <==> Posts(wire, id) > 0
  {
    if wire != [] {
      LastPostCounts(wire[..|wire| - 1], id);
    }
  }

  lemma StepKeepsOrder(s: State, e: Event, puts: seq<RequestId>, stop: bool, noRoom: set<RequestId>)
    requires Inv(s) && OwnTickets(s) && CountsHonest(s) && Caused(s, stop, noRoom) && InOrder(s, puts)
    ensures InOrder(Step(s, e), if PutsPage(s, e) then puts + [s.ids[s.held.value]] else puts)
  {
    if s.phase.Working? {
      LastPostCounts(s.wire, s.ids[s.phase.page]);
    }
    match e
    case Begin(page, id) => BeginKeepsOrder(s, page, id, puts);
    case Commit => CommitKeepsOrder(s, puts);
    case Take => TakeKeepsOrder(s, puts);
    case Post(response) =>
      if s.phase.Working? && s.phase.stage.Posting? {
        PostKeepsOrder(s, response, puts);
      }
    case Requeue => RequeueKeepsOrder(s, puts);
    case Release => ReleaseKeepsOrder(s, puts);
    case _ => OtherStepsKeepOrder(s, e, puts);
  }

  /**
   First come, first posted, over every interleaving: the enqueues are posted for the first time exactly in the
   order in which they were put, and those not posted yet are the one in hand and then the rest of the queue.
   */
  lemma {:induction false} FirstComeFirstPosted(capacity: nat, events: seq<Event>)
    ensures var s := Run(Initial(capacity), events);
            Puts(capacity, events) == FirstPosts(s.wire) + InHand(s) + InLine(s, s.queue)
  {
    if events != [] {
      var before, last := events[..|events| - 1], events[|events| - 1];
      FirstComeFirstPosted(capacity, before);
      RunKeepsInv(capacity, before);
      RunKeepsHonesty(capacity, before);
      RunKeepsCauses(capacity, before);
      InvGivesOwnTickets(Run(Initial(capacity), before));
      StepKeepsOrder(Run(Initial(capacity), before), last, Puts(capacity, before), Stop in before, NoRoom(capacity, before));
    }
  }

  // ---------------------------------------------------------------- stopping

  /** Whether the consumer may still post before it looks at the stop signal again. */
  predicate MayPost(s: State) {
    s.phase.Taking? || (s.phase.Working? && (s.phase.stage.Submitting? || s.phase.stage.Posting?))
  }

  lemma WireGrows(s: State, e: Event)
    ensures |Step(s, e).wire| == |s.wire| + if e.Post? && s.phase.Working? && s.phase.stage.Posting? then 1 else 0
  {
  }

  lemma MayPostMoves(s: State, e: Event)
    requires s.stopped && !e.Restart?
    ensures Step(s, e).stopped && (MayPost(Step(s, e)) ==> MayPost(s))
    ensures e.Post? && s.phase.Working? && s.phase.stage.Posting? ==> !MayPost(Step(s, e))
  {
  }

  lemma StoppedStep(s: State, e: Event)
    requires s.stopped && !e.Restart?
    ensures var t := Step(s, e);
            t.stopped && |t.wire| + (if MayPost(t) then 1 else 0) <= |s.wire| + if MayPost(s) then 1 else 0
  {
    WireGrows(s, e);
    MayPostMoves(s, e);
  }

  lemma {:induction false} StoppedRun(s: State, events: seq<Event>)
    requires s.stopped && Restart !in events
    ensures Run(s, events).stopped
    ensures |Run(s, events).wire| + (if MayPost(Run(s, events)) then 1 else 0) <= |s.wire| + if MayPost(s) then 1 else 0
  {
    if events != [] {
      StoppedRun(s, events[..|events| - 1]);
      StoppedStep(Run(s, events[..|events| - 1]), events[|events| - 1]);
    }
  }

  /** After a stop, and until a restart, at most one more request goes out, and the consumer exits when it looks again. */
  lemma StopEndsPosting(s: State, events: seq<Event>)
    requires Restart !in events
    ensures var t := Run(Step(s, Stop), events);
            |t.wire| <= |s.wire| + 1 && (t.phase.AtLoop? ==> Step(t, CheckStop).phase.Exited?)
  {
    StoppedRun(Step(s, Stop), events);
  }

  /** How many steps of its own the consumer is at most from looking at the stop signal again, once told to stop. */
  function StepsLeft(phase: Phase): nat {
    match phase
    case AtLoop => 1
    case Acknowledging => 2
    case Taking => 12
    case Exited => 0
    case Working(_, stage) =>
      match stage
      case Finishing(_) => 3
      case NotRetried => 4
      case Requeueing => 5
      case Waiting => 6
      case Failing => 7
      case Posting(_) => 8
      case Submitting => 9
  }

  /** The consumer's next step, with a spare identifier and what the request answers. */
  function NextStep(phase: Phase, spare: RequestId, response: Response): Event {
    match phase
    case AtLoop => CheckStop
    case Acknowledging => Acknowledge
    case Taking => Take
    case Exited => CheckStop
    case Working(_, stage) =>
      match stage
      case Finishing(_) => Release
      case NotRetried => Judge
      case Requeueing => Requeue
      case Waiting => WakeUp
      case Failing => CountRetry
      case Posting(_) => Post(response)
      case Submitting => LookUp(spare)
  }

  lemma PostingLeadsOut(s: State, spare: RequestId, response: Response)
    requires s.held.None? && s.phase.Working? && (s.phase.stage.Submitting? || s.phase.stage.Posting?)
    ensures StepsLeft(Step(s, NextStep(s.phase, spare, response)).phase) < StepsLeft(s.phase)
  {
  }

  lemma RetryingLeadsOut(s: State)
    requires s.held.None?
    ensures At(s, Failing) ==> StepsLeft(CountRetryStep(s).phase) < 7
    ensures At(s, Waiting) ==> StepsLeft(WakeUpStep(s).phase) < 6
    ensures At(s, Requeueing) ==> StepsLeft(RequeueStep(s).phase) < 5
  {
  }

  lemma FinishingLeadsOut(s: State)
    requires s.held.None?
    ensures At(s, NotRetried) ==> StepsLeft(JudgeStep(s).phase) < 4
    ensures s.phase.Working? && s.phase.stage.Finishing? ==> StepsLeft(ReleaseStep(s).phase) < 3
  {
  }

  lemma EndingLeadsOut(s: State, spare: RequestId, response: Response)
    requires s.held.None? && s.phase.Working? && !s.phase.stage.Submitting? && !s.phase.stage.Posting?
    ensures StepsLeft(Step(s, NextStep(s.phase, spare, response)).phase) < StepsLeft(s.phase)
  {
    RetryingLeadsOut(s);
    FinishingLeadsOut(s);
    match s.phase.stage {
      case Failing => assert Step(s, CountRetry) == CountRetryStep(s);
      case Waiting => assert Step(s, WakeUp) == WakeUpStep(s);
      case Requeueing => assert Step(s, Requeue) == RequeueStep(s);
      case NotRetried => assert Step(s, Judge) == JudgeStep(s);
      case Finishing(_) => assert Step(s, Release) == ReleaseStep(s);
    }
  }

  /** Told to stop, the consumer comes nearer to its exit with every step of its own, whatever requests answer. */
  lemma StopLeadsOut(s: State, spare: RequestId, response: Response)
    requires s.stopped && s.held.None? && TasksCounted(s) && !s.phase.Exited?
    ensures StepsLeft(Step(s, NextStep(s.phase, spare, response)).phase) < StepsLeft(s.phase)
  {
    if s.phase.Working? && (s.phase.stage.Submitting? || s.phase.stage.Posting?) {
      PostingLeadsOut(s, spare, response);
    } else if s.phase.Working? {
      EndingLeadsOut(s, spare, response);
    }
  }

  lemma StopStep(s: State, e: Event)
    requires Step(s, e).phase.Exited? || Step(s, e).stopped
    ensures s.phase.Exited? || s.stopped || e == Stop
  {
  }

  /** Without a stop the consumer never exits. */
  lemma {:induction false} ExitsOnlyWhenStopped(capacity: nat, events: seq<Event>)
    ensures var s := Run(Initial(capacity), events); s.phase.Exited? || s.stopped ==> Stop in events
  {
    if events != [] {
      var before, last := events[..|events| - 1], events[|events| - 1];
      assert events == before + [last];
      ExitsOnlyWhenStopped(capacity, before);
      if Run(Initial(capacity), events).phase.Exited? || Run(Initial(capacity), events).stopped {
        StopStep(Run(Initial(capacity), before), last);
      }
    }
  }

  /** After a restart the consumer goes on with the front of the queue. */
  lemma RestartGoesOn(s: State)
    requires s.phase.Exited? && s.queue != []
    ensures Step(Step(Step(s, Restart), CheckStop), Take).phase == Working(s.queue[0], Submitting)
  {
  }

  // ---------------------------------------------------------------- the worker object

  /** The worker as one thread drives it; `phase`, `ledger` and `wire` are bookkeeping for the proofs. */
  class Worker {
    const capacity: nat
    var queue: seq<Page>
    var queuedPages: set<Page>
    var retryCounts: map<Page, nat>
    var requestIds: map<Page, RequestId>
    var stopEvent: bool
    var unfinishedTasks: nat
    ghost var phase: Phase
    ghost var ledger: map<RequestId, Ticket>
    ghost var wire: seq<Sent>

    ghost function Current(): State
      reads this
    {
      State(capacity, queue, queuedPages, retryCounts, requestIds, stopEvent, None, phase, unfinishedTasks, ledger, wire)
    }

    constructor (capacity: nat)
      ensures Current() == Initial(capacity) && Inv(Current())
    {
      this.capacity := capacity;
      queue, queuedPages, retryCounts, requestIds := [], {}, map[], map[];
      stopEvent, unfinishedTasks := false, 0;
      phase, ledger, wire := AtLoop, map[], [];
    }

    predicate IsFull()
      reads this
    {
      capacity > 0 && |queue| >= capacity
    }

    /** Queue a page unless it is known; false only when there is no room. */
    method Enqueue(page: Page, id: RequestId) returns (ok: bool)
      requires id !in ledger && id !in requestIds.Values
      modifies this
      ensures Current() == Step(Step(old(Current()), Begin(page, id)), Commit)
      ensures ok <==> page in old(queuedPages) || !old(IsFull())
      ensures ok <==> page in queuedPages
      // A new page with room goes to the end of the queue under its id; nothing else changes anything.
      ensures if page !in old(queuedPages) && !old(IsFull()) then
                && queue == old(queue) + [page] && unfinishedTasks == old(unfinishedTasks) + 1
                && queuedPages == old(queuedPages) + {page} && requestIds == old(requestIds)[page := id]
              else queue == old(queue) && unfinishedTasks == old(unfinishedTasks)
      ensures retryCounts == old(retryCounts) && stopEvent == old(stopEvent)
    {
      if page in queuedPages {
        return true;
      }
      queuedPages := queuedPages + {page};
      requestIds := requestIds[page := id];
      if IsFull() {
        queuedPages := queuedPages - {page};
        requestIds := requestIds - {page};
        return false;
      }
      queue := queue + [page];
      unfinishedTasks := unfinishedTasks + 1;
      ledger := ledger[id := Ticket(page, 0, None)];
      return true;
    }

    /** The locked part of `_submit`. */
    method LookUpId(page: Page, spare: RequestId) returns (id: RequestId)
      requires phase == Working(page, Submitting)
      modifies this`requestIds, this`phase
      ensures Current() == LookUpStep(old(Current()), spare) && phase == Working(page, Posting(id))
    {
      id := spare;
      if page in requestIds {
        id := requestIds[page];
      } else {
        requestIds := requestIds[page := id];
      }
      phase := Working(page, Posting(id));
    }

    /** Post the page under its stored id; the response decides what the caller does next. */
    method Submit(page: Page, spare: RequestId, response: Response)
      requires phase == Working(page, Submitting)
      modifies this`requestIds, this`phase, this`ledger, this`wire
      ensures Current() == PostStep(LookUpStep(old(Current()), spare), response)
      ensures phase == Working(page, AfterPost(response))
    {
      var id := LookUpId(page, spare);
      ghost var sent := PostStep(Current(), response);
      ledger, wire, phase := sent.ledger, sent.wire, sent.phase;
    }

    /** The first locked part of `_retry`: count the attempt unless the limit is reached. */
    method CountRetry(page: Page) returns (allowed: bool)
      requires phase == Working(page, Failing)
      modifies this`retryCounts, this`phase
      ensures Current() == CountRetryStep(old(Current()))
      ensures phase == Working(page, if allowed then Waiting else NotRetried)
    {
      var attempts := RetriesOf(retryCounts, page) + 1;
      allowed := attempts <= MAX_RETRIES;
      if allowed {
        retryCounts := retryCounts[page := attempts];
      }
      phase := Working(page, if allowed then Waiting else NotRetried);
    }

    /** The second locked part of `_retry`: put the page back if there is room. */
    method PutBack(page: Page) returns (scheduled: bool)
      requires phase == Working(page, Requeueing)
      modifies this`queue, this`unfinishedTasks, this`phase
      ensures Current() == RequeueStep(old(Current()))
      ensures phase == if scheduled then Acknowledging else Working(page, NotRetried)
      ensures scheduled ==> unfinishedTasks > 0
    {
      scheduled := !IsFull();
      if scheduled {
        queue, unfinishedTasks := queue + [page], unfinishedTasks + 1;
      }
      phase := if scheduled then Acknowledging else Working(page, NotRetried);
    }

    /** Count a retry, wait, and put the page back unless the limit, a stop or a full queue forbids it. */
    method Retry(page: Page, stopWhileWaiting: bool) returns (scheduled: bool)
      requires phase == Working(page, Failing) && unfinishedTasks > 0
      modifies this`queue, this`retryCounts, this`stopEvent, this`unfinishedTasks, this`phase
      ensures Current() == RetrySteps(old(Current()), stopWhileWaiting)
      ensures phase == if scheduled then Acknowledging else Working(page, NotRetried)
      ensures unfinishedTasks > 0
    {
      scheduled := CountRetry(page);
      if scheduled {
        stopEvent := stopEvent || stopWhileWaiting;
        phase := Working(page, if stopEvent then NotRetried else Requeueing);
        scheduled := !stopEvent;
        if scheduled {
          scheduled := PutBack(page);
        }
      }
    }

    /** The handler of transient failures: what is not retried failed, unless the worker was told to stop. */
    method RetryOrGiveUp(page: Page, stopWhileWaiting: bool) returns (scheduled: bool)
      requires phase == Working(page, Failing) && unfinishedTasks > 0
      modifies this`queue, this`retryCounts, this`stopEvent, this`unfinishedTasks, this`phase
      ensures Current() == JudgeStep(RetrySteps(old(Current()), stopWhileWaiting))
      ensures phase == if scheduled then Acknowledging else Working(page, Finishing(if stopEvent then Dropped else Refused))
      ensures unfinishedTasks > 0
    {
      scheduled := Retry(page, stopWhileWaiting);
      if !scheduled {
        phase := Working(page, Finishing(if stopEvent then Dropped else Refused));
      }
    }

    /** The `finally` clause: forget a page that was not put back, under the lock, and acknowledge the queue item. */
    method Finish(page: Page, scheduled: bool)
      requires if scheduled then phase == Acknowledging else phase.Working? && phase.page == page && phase.stage.Finishing?
      requires unfinishedTasks > 0
      modifies this`queuedPages, this`retryCounts, this`requestIds, this`ledger, this`unfinishedTasks, this`phase
      ensures Current() == Step(ReleaseStep(old(Current())), Acknowledge) && phase == AtLoop
    {
      if !scheduled {
        ghost var released := ReleaseStep(Current());
        queuedPages, retryCounts, requestIds := queuedPages - {page}, retryCounts - {page}, requestIds - {page};
        ledger := released.ledger;
      }
      unfinishedTasks := unfinishedTasks - 1;
      phase := AtLoop;
    }

    /** What `run` does with a page it has taken. */
    method Handle(page: Page, spare: RequestId, response: Response, stopWhileWaiting: bool)
      requires phase == Working(page, Submitting) && unfinishedTasks > 0
      modifies this
      ensures Current() == HandleSteps(old(Current()), spare, response, stopWhileWaiting) && phase == AtLoop
    {
      Submit(page, spare, response);
      var scheduled := false;
      if response.Transient? {
        scheduled := RetryOrGiveUp(page, stopWhileWaiting);
      } else {
        assert Current() == JudgeStep(RetrySteps(Current(), stopWhileWaiting));
      }
      Finish(page, scheduled);
    }

    /** One pass of the consumer's loop, with no other thread in between. */
    method RunOnce(spare: RequestId, response: Response, stopWhileWaiting: bool)
      requires phase == AtLoop && unfinishedTasks == |queue|
      modifies this
      ensures Current() == Iteration(old(Current()), spare, response, stopWhileWaiting)
      // A stop ends the loop before anything is taken; an empty queue is looked at again.
      ensures phase == if old(stopEvent) then Exited else AtLoop
      ensures old(stopEvent) || old(queue) == [] ==> queue == old(queue) && wire == old(wire)
    {
      if stopEvent {
        phase := Exited;
      } else if queue != [] {
        var page := queue[0];
        queue, phase := queue[1..], Working(page, Submitting);
        Handle(page, spare, response, stopWhileWaiting);
      }
    }
  }

  /** `_retry` without interleaving; a stop may arrive during its wait. */
  function RetrySteps(s: State, stopWhileWaiting: bool): State {
    var counted := CountRetryStep(s);
    var waited := if stopWhileWaiting && At(counted, Waiting) then counted.(stopped := true) else counted;
    RequeueStep(WakeUpStep(waited))
  }

  function HandleSteps(s: State, spare: RequestId, response: Response, stopWhileWaiting: bool): State {
    var posted := PostStep(LookUpStep(s, spare), response);
    var retried := RetrySteps(posted, stopWhileWaiting);
    Step(ReleaseStep(JudgeStep(retried)), Acknowledge)
  }

  /** One pass of `run` without interleaving. */
  function Iteration(s: State, spare: RequestId, response: Response, stopWhileWaiting: bool): State {
    var taken := TakeStep(Step(s, CheckStop));
    if taken.phase.Working? then HandleSteps(taken, spare, response, stopWhileWaiting) else taken
  }

  /** The consumer is about to look at a front page that is known and holds an open ticket. */
  ghost predicate ReadyForFront(s: State) {
    && s.phase.AtLoop? && s.held.None? && !s.stopped && s.queue != []
    && s.queue[0] in s.queued && s.queue[0] in s.ids && s.ids[s.queue[0]] in s.ledger
    && s.unfinished == |s.queue| && (s.capacity > 0 ==> |s.queue| <= s.capacity)
  }

  lemma InvGivesReady(s: State)
    requires Inv(s) && s.phase.AtLoop? && s.held.None? && !s.stopped && s.queue != []
    ensures ReadyForFront(s)
  {
    assert s.queue[0] in s.queue;
  }

  /** The front page has left the queue and one request for it, under its stored id, is on the wire. */
  function FrontPosted(s: State, response: Response): State
    requires s.queue != [] && s.queue[0] in s.ids && s.ids[s.queue[0]] in s.ledger
  {
    var page, id := s.queue[0], s.ids[s.queue[0]];
    s.(queue := s.queue[1..], phase := Working(page, AfterPost(response)),
       wire := s.wire + [Sent(page, id, response)],
       ledger := s.ledger[id := s.ledger[id].(sends := s.ledger[id].sends + 1)])
  }

  lemma IterationPosts(s: State, spare: RequestId, response: Response)
    requires ReadyForFront(s)
    ensures PostStep(LookUpStep(TakeStep(Step(s, CheckStop)), spare), response) == FrontPosted(s, response)
  {
  }

  lemma RetryStepsAre(s: State, stopWhileWaiting: bool)
    requires At(s, Failing) && s.held.None? && !Full(s) && !s.stopped
    ensures var page := s.phase.page;
            var counted := s.retries[page := RetriesOf(s.retries, page) + 1];
            RetrySteps(s, stopWhileWaiting) ==
            if RetriesOf(s.retries, page) >= MAX_RETRIES then MoveTo(s, NotRetried)
            else if stopWhileWaiting then MoveTo(s.(retries := counted, stopped := true), NotRetried)
            else s.(retries := counted, queue := s.queue + [page], unfinished := s.unfinished + 1, phase := Acknowledging)
  {
  }

  /** From `s`, where a page was just posted, to `t`: back of the queue under the same id, or one ending. */
  ghost predicate Settles(s: State, response: Response, t: State)
    requires s.phase.Working? && s.phase.page in s.ids
  {
    var page, id, retries := s.phase.page, s.ids[s.phase.page], RetriesOf(s.retries, s.phase.page);
    && t.wire == s.wire
    && (page in t.queued <==> response.Transient? && retries < MAX_RETRIES && !t.stopped)
    && (page in t.queued ==> t.queue == s.queue + [page] && t.ids == s.ids && t.retries == s.retries[page := retries + 1])
    && (page !in t.queued ==> t.queue == s.queue && id in t.ledger && t.ledger[id].ending ==
                              Some(if response.Success? then Accepted
                                   else if response.Transient? && t.stopped then Dropped else Refused))
  }

  lemma PostedSettles(s: State, response: Response, stopWhileWaiting: bool)
    requires At(s, AfterPost(response)) && s.held.None? && !Full(s) && !s.stopped && s.unfinished > 0
    requires s.phase.page in s.queued && s.phase.page in s.ids && s.ids[s.phase.page] in s.ledger
    ensures Settles(s, response, Step(ReleaseStep(JudgeStep(RetrySteps(s, stopWhileWaiting))), Acknowledge))
  {
    if response.Transient? {
      RetryStepsAre(s, stopWhileWaiting);
    } else {
      assert RetrySteps(s, stopWhileWaiting) == s && JudgeStep(s) == s;
    }
  }

  /** One undisturbed pass: the front page is posted once, then requeued or ended. */
  lemma IterationEffect(s: State, spare: RequestId, response: Response, stopWhileWaiting: bool)
    requires Inv(s) && s.phase.AtLoop? && s.held.None? && !s.stopped && s.queue != []
    ensures ReadyForFront(s)
    ensures Settles(FrontPosted(s, response), response, Iteration(s, spare, response, stopWhileWaiting))
  {
    InvGivesReady(s);
    IterationPosts(s, spare, response);
    PostedSettles(FrontPosted(s, response), response, stopWhileWaiting);
  }
}
