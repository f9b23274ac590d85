/**
 Queued edits of Malagasy Wiktionary: an at-least-once broker, workers that acknowledge or
 reject each delivery, and writes guarded by the hash of the text they replace
 (rabbitmq_pywikibot.py, redis_wikicache.py).

 Pywikibot compares revisions: a put after a refreshed get succeeds only if the page has
 not changed in between.  Any number of workers and other editors interleave; replies can
 be lost after a write took effect, and a worker can die holding a delivery.  A step that
 is not enabled leaves the state as it is.
 */
module QueuedEdits {
  import opened Wrappers

  type Title = string
  type Text = string
  type MessageId = nat
  type WorkerId = nat

  /** SHA-256 taken as injective; a queued hash need not be the hash of anything. */
  datatype Hash = Digest(of: Text) | Foreign(value: nat)

  function Sha256(text: Text): Hash { Digest(text) }

  datatype Action = EditPage | DeletePage

  datatype Message = Message(id: MessageId, valid: bool, page: Title, content: Text, action: Action, expected: Option<Hash>)

  predicate Guarding(m: Message) { m.valid && m.action.EditPage? && m.expected.Some? }

  datatype Author = Others | By(message: Message)

  /** One revision of a page; a deleted page has no text. */
  datatype Version = Version(text: Option<Text>, author: Author)

  datatype Error = LimiterError | OtherError

  datatype Result = Saved | Skipped | Failed(error: Error) | Invalid

  /** Where a worker stands with its delivery. */
  datatype Phase =
    | Started(message: Message, redelivered: bool)
    | Reading(message: Message, redelivered: bool)
    | Guarded(message: Message, redelivered: bool, revision: nat)
    | Unguarded(message: Message, redelivered: bool)
    | Ending(message: Message, redelivered: bool, result: Result)

  datatype Queued = Queued(message: Message, redelivered: bool)

  datatype Verdict = Ack | Requeue | Discard

  /** How one delivery was answered. */
  datatype Settlement = Settlement(id: MessageId, verdict: Verdict, result: Result)

  /** The broker holds unsettled messages by id; `published`, `log`, `deliveries` and `deaths` are histories. */
  datatype State = State(
    pages: map<Title, seq<Version>>,
    queue: map<MessageId, Queued>,
    workers: map<WorkerId, Phase>,
    published: set<MessageId>,
    log: seq<Settlement>,
    deliveries: nat,
    deaths: nat)

  datatype Event =
    | OtherEdit(page: Title, text: Option<Text>)
    | Publish(message: Message)
    | Deliver(worker: WorkerId, id: MessageId)
    | Prepare(worker: WorkerId, error: Option<Error>)
    | Read(worker: WorkerId, error: Option<Error>)
    | Write(worker: WorkerId, error: Option<Error>, lost: Option<Error>)
    | Settle(worker: WorkerId)
    | Die(worker: WorkerId)

  function Initial(pages: map<Title, seq<Version>>): State { State(pages, map[], map[], {}, [], 0, 0) }

  function History(pages: map<Title, seq<Version>>, page: Title): seq<Version> {
    if page in pages then pages[page] else []
  }

  function LiveText(pages: map<Title, seq<Version>>, page: Title): Option<Text> {
    var history := History(pages, page);
    if history == [] then None else history[|history| - 1].text
  }

  function Append(pages: map<Title, seq<Version>>, page: Title, v: Version): map<Title, seq<Version>> {
    pages[page := History(pages, page) + [v]]
  }

  function End(s: State, w: WorkerId, result: Result): State
    requires w in s.workers
  {
    s.(workers := s.workers[w := Ending(s.workers[w].message, s.workers[w].redelivered, result)])
  }

  /** The summary may have to be made up first, which can fail; then the guarded and other actions part. */
  function PrepareStep(s: State, w: WorkerId, error: Option<Error>): State {
    if w !in s.workers || !s.workers[w].Started? then s
    else
      var (m, r) := (s.workers[w].message, s.workers[w].redelivered);
      if error.Some? then End(s, w, Failed(error.value))
      else s.(workers := s.workers[w := if Guarding(m) then Reading(m, r) else Unguarded(m, r)])
  }

  /** The refreshed get and the comparison of hashes. */
  function ReadStep(s: State, w: WorkerId, error: Option<Error>): State {
    if w !in s.workers || !s.workers[w].Reading? then s
    else
      var (m, r) := (s.workers[w].message, s.workers[w].redelivered);
      var live := LiveText(s.pages, m.page);
      if error.Some? then End(s, w, Failed(error.value))
      else if live.None? || Some(Sha256(live.value)) != m.expected then End(s, w, Skipped)
      else s.(workers := s.workers[w := Guarded(m, r, |History(s.pages, m.page)| - 1)])
  }

  /** The put or delete goes through unless it fails first, loses the revision race, or deletes nothing. */
  predicate GoesThrough(pages: map<Title, seq<Version>>, phase: Phase, error: Option<Error>) {
    && error.None?
    && (phase.Guarded? ==> phase.revision == |History(pages, phase.message.page)| - 1)
    && (phase.message.action.DeletePage? ==> LiveText(pages, phase.message.page).Some?)
  }

  /** The revision it makes, if any: storing the text a page already has makes none. */
  function Made(pages: map<Title, seq<Version>>, m: Message): Option<Version> {
    if m.action.DeletePage? then Some(Version(None, By(m)))
    else if LiveText(pages, m.page) == Some(m.content) then None
    else Some(Version(Some(m.content), By(m)))
  }

  function Store(pages: map<Title, seq<Version>>, m: Message): map<Title, seq<Version>> {
    match Made(pages, m)
    case None => pages
    case Some(v) => Append(pages, m.page, v)
  }

  function WriteStep(s: State, w: WorkerId, error: Option<Error>, lost: Option<Error>): State {
    if w !in s.workers || !(s.workers[w].Guarded? || s.workers[w].Unguarded?) then s
    else if !GoesThrough(s.pages, s.workers[w], error) then
      End(s, w, Failed(if error.Some? then error.value else OtherError))
    else
      End(s.(pages := Store(s.pages, s.workers[w].message)), w, if lost.Some? then Failed(lost.value) else Saved)
  }

  /** Limiter failures are always retried, others once; everything else is final. */
  function VerdictOf(result: Result, redelivered: bool): Verdict {
    match result
    case Saved => Ack
    case Skipped => Ack
    case Invalid => Discard
    case Failed(error) => if error.LimiterError? || !redelivered then Requeue else Discard
  }

  function SettleStep(s: State, w: WorkerId): State {
    if w !in s.workers || !s.workers[w].Ending? then s
    else
      var Ending(m, redelivered, result) := s.workers[w];
      var verdict := VerdictOf(result, redelivered);
      s.(workers := s.workers - {w}, log := s.log + [Settlement(m.id, verdict, result)],
         queue := if verdict.Requeue? then s.queue[m.id := Queued(m, true)] else s.queue)
  }

  function DeliverStep(s: State, w: WorkerId, id: MessageId): State {
    if w in s.workers || id !in s.queue then s
    else
      var Queued(m, redelivered) := s.queue[id];
      s.(queue := s.queue - {id}, deliveries := s.deliveries + 1,
         workers := s.workers[w := if m.valid then Started(m, redelivered) else Ending(m, redelivered, Invalid)])
  }

  function Step(s: State, e: Event): State {
    match e
    case OtherEdit(page, text) => s.(pages := Append(s.pages, page, Version(text, Others)))
    case Publish(m) =>
      if m.id in s.published then s
      else s.(published := s.published + {m.id}, queue := s.queue[m.id := Queued(m, false)])
    case Deliver(w, id) => DeliverStep(s, w, id)
    case Prepare(w, error) => PrepareStep(s, w, error)
    case Read(w, error) => ReadStep(s, w, error)
    case Write(w, error, lost) => WriteStep(s, w, error, lost)
    case Settle(w) => SettleStep(s, w)
    case Die(w) =>
      if w !in s.workers then s
      else s.(workers := s.workers - {w}, deaths := s.deaths + 1,
              queue := s.queue[s.workers[w].message.id := Queued(s.workers[w].message, true)])
  }

  function Run(s: State, events: seq<Event>): State {
    if events == [] then s else Step(Run(s, events[..|events| - 1]), events[|events| - 1])
  }

  // ---------------------------------------------------------------- no concurrent edit is lost

  /** Version k of a page was written by a guarding message over exactly the text it expected. */
  ghost predicate WroteOverExpected(page: Title, history: seq<Version>, k: nat)
    requires k < |history| && history[k].author.By?
  {
    var m := history[k].author.message;
    && m.page == page && k > 0 && history[k].text == Some(m.content)
    && history[k - 1].text.Some? && Some(Sha256(history[k - 1].text.value)) == m.expected
    && history[k - 1].text != history[k].text
  }

  ghost predicate HistoryHonest(page: Title, history: seq<Version>) {
    forall k :: 0 <= k < |history| && history[k].author.By? && Guarding(history[k].author.message) ==>
                  WroteOverExpected(page, history, k)
  }

  ghost predicate GuardHolds(pages: map<Title, seq<Version>>, phase: Phase) {
    phase.Guarded? ==>
      var history := History(pages, phase.message.page);
      && Guarding(phase.message) && phase.revision < |history|
      && history[phase.revision].text.Some? && Some(Sha256(history[phase.revision].text.value)) == phase.message.expected
  }

  ghost predicate WikiInv(s: State) {
    && (forall page :: page in s.pages ==> HistoryHonest(page, s.pages[page]))
    && (forall w :: w in s.workers ==> GuardHolds(s.pages, s.workers[w]))
    && (forall w :: w in s.workers && s.workers[w].Unguarded? ==> !Guarding(s.workers[w].message))
    && (forall w :: w in s.workers && s.workers[w].Reading? ==> Guarding(s.workers[w].message))
  }

  lemma AppendKeepsGuards(pages: map<Title, seq<Version>>, page: Title, v: Version, phase: Phase)
    requires GuardHolds(pages, phase)
    ensures GuardHolds(Append(pages, page, v), phase)
  {
  }

  lemma AppendKeepsHonesty(page: Title, history: seq<Version>, v: Version)
    requires HistoryHonest(page, history)
    requires v.author.By? && Guarding(v.author.message) ==> WroteOverExpected(page, history + [v], |history|)
    ensures HistoryHonest(page, history + [v])
  {
    forall k | 0 <= k < |history + [v]| && (history + [v])[k].author.By? && Guarding((history + [v])[k].author.message)
      ensures WroteOverExpected(page, history + [v], k)
    {
      if k < |history| {
        assert WroteOverExpected(page, history, k);
      }
    }
  }

  /** No worker gains anything by the step: each is where it was, or at its end. */
  predicate OnlyEnds(s: State, t: State) {
    forall w :: w in t.workers ==> w in s.workers && (t.workers[w] == s.workers[w] || t.workers[w].Ending?)
  }

  lemma EndsKeepWiki(s: State, t: State)
    requires WikiInv(s) && t.pages == s.pages && OnlyEnds(s, t)
    ensures WikiInv(t)
  {
  }

  lemma AppendKeepsWiki(s: State, t: State, page: Title, v: Version)
    requires WikiInv(s) && t.pages == Append(s.pages, page, v) && OnlyEnds(s, t)
    requires v.author.By? && Guarding(v.author.message) ==>
               WroteOverExpected(page, History(s.pages, page) + [v], |History(s.pages, page)|)
    ensures WikiInv(t)
  {
    AppendKeepsHonesty(page, History(s.pages, page), v);
    forall w | w in t.workers && t.workers[w] == s.workers[w]
      ensures GuardHolds(t.pages, t.workers[w])
    {
      AppendKeepsGuards(s.pages, page, v, s.workers[w]);
    }
  }

  /** A guarded write that goes through replaces exactly the text the message expects. */
  lemma GuardedWriteIsHonest(pages: map<Title, seq<Version>>, phase: Phase, error: Option<Error>)
    requires GuardHolds(pages, phase) && GoesThrough(pages, phase, error) && (phase.Guarded? || !Guarding(phase.message))
    ensures var m := phase.message;
            Made(pages, m).Some? && Guarding(m) ==>
              WroteOverExpected(m.page, History(pages, m.page) + [Made(pages, m).value], |History(pages, m.page)|)
  {
  }

  lemma WriteKeepsWiki(s: State, w: WorkerId, error: Option<Error>, lost: Option<Error>)
    requires WikiInv(s)
    ensures WikiInv(WriteStep(s, w, error, lost))
  {
    var t := WriteStep(s, w, error, lost);
    if t.pages == s.pages {
      EndsKeepWiki(s, t);
    } else {
      var m := s.workers[w].message;
      GuardedWriteIsHonest(s.pages, s.workers[w], error);
      AppendKeepsWiki(s, t, m.page, Made(s.pages, m).value);
    }
  }

  lemma ReadKeepsWiki(s: State, w: WorkerId, error: Option<Error>)
    requires WikiInv(s)
    ensures WikiInv(ReadStep(s, w, error))
  {
  }

  lemma StepKeepsWiki(s: State, e: Event)
    requires WikiInv(s)
    ensures WikiInv(Step(s, e))
  {
    match e
    case OtherEdit(page, text) => AppendKeepsWiki(s, Step(s, e), page, Version(text, Others));
    case Write(w, error, lost) => WriteKeepsWiki(s, w, error, lost);
    case Read(w, error) => ReadKeepsWiki(s, w, error);
    case Settle(_) => EndsKeepWiki(s, Step(s, e));
    case Die(_) => EndsKeepWiki(s, Step(s, e));
    case _ =>
  }

  lemma {:induction false} RunKeepsWiki(pages: map<Title, seq<Version>>, events: seq<Event>)
    requires forall page :: page in pages ==> HistoryHonest(page, pages[page])
    ensures WikiInv(Run(Initial(pages), events))
  {
    if events != [] {
      RunKeepsWiki(pages, events[..|events| - 1]);
      StepKeepsWiki(Run(Initial(pages), events[..|events| - 1]), events[|events| - 1]);
    }
  }

  /** A guarded edit changes a page only over the text it expected, so it never buries another edit. */
  lemma NoEditLost(pages: map<Title, seq<Version>>, events: seq<Event>, page: Title, k: nat)
    requires forall p :: p in pages ==> HistoryHonest(p, pages[p])
    requires var history := History(Run(Initial(pages), events).pages, page);
             k < |history| && history[k].author.By? && Guarding(history[k].author.message)
    ensures var history := History(Run(Initial(pages), events).pages, page);
            k > 0 && history[k - 1].text.Some? && Some(Sha256(history[k - 1].text.value)) == history[k].author.message.expected
  {
    RunKeepsWiki(pages, events);
    var history := History(Run(Initial(pages), events).pages, page);
    assert WroteOverExpected(page, history, k);
  }

  /** A redelivered edit applies again only if somebody else restored the text it expects in between. */
  lemma AppliedTwiceOnlyIfRestored(pages: map<Title, seq<Version>>, events: seq<Event>, page: Title, i: nat, j: nat)
    returns (k: nat)
    requires forall p :: p in pages ==> HistoryHonest(p, pages[p])
    requires var history := History(Run(Initial(pages), events).pages, page);
             && i < j < |history| && history[i].author.By? && Guarding(history[i].author.message)
             && history[j].author == history[i].author
    ensures var history := History(Run(Initial(pages), events).pages, page);
            && i < k < j && history[k].author != history[i].author
            && history[k].text.Some? && Some(Sha256(history[k].text.value)) == history[i].author.message.expected
  {
    RunKeepsWiki(pages, events);
    var history := History(Run(Initial(pages), events).pages, page);
    assert WroteOverExpected(page, history, i) && WroteOverExpected(page, history, j);
    k := j - 1;
    assert history[k].text != history[j].text && history[j].text == history[i].text;
  }

  // ---------------------------------------------------------------- invalid messages write nothing

  /** A delivery of an invalid message has ended as such from the start, and no other ends so. */
  predicate Sifted(phase: Phase) {
    if phase.message.valid then !(phase.Ending? && phase.result.Invalid?) else phase.Ending? && phase.result.Invalid?
  }

  ghost predicate AllSifted(s: State) {
    && (forall w :: w in s.workers ==> Sifted(s.workers[w]))
    && (forall page :: page in s.pages ==> WrittenByValid(s.pages[page]))
    && (forall i :: 0 <= i < |s.log| ==> (s.log[i].result.Invalid? ==> s.log[i].verdict.Discard?))
  }

  predicate WrittenByValid(history: seq<Version>) {
    forall k :: 0 <= k < |history| && history[k].author.By? ==> history[k].author.message.valid
  }

  lemma AppendStaysValid(pages: map<Title, seq<Version>>, page: Title, v: Version)
    requires (forall p :: p in pages ==> WrittenByValid(pages[p])) && (v.author.By? ==> v.author.message.valid)
    ensures forall p :: p in Append(pages, page, v) ==> WrittenByValid(Append(pages, page, v)[p])
  {
  }

  lemma StepKeepsSifted(s: State, e: Event)
    requires AllSifted(s)
    ensures AllSifted(Step(s, e))
  {
    match e
    case OtherEdit(page, text) => AppendStaysValid(s.pages, page, Version(text, Others));
    case Write(w, error, lost) =>
      if w in s.workers && Made(s.pages, s.workers[w].message).Some? && s.workers[w].message.valid {
        AppendStaysValid(s.pages, s.workers[w].message.page, Made(s.pages, s.workers[w].message).value);
      }
    case _ =>
  }

  /** Over every run no invalid message writes a revision, and its deliveries end as invalid and are discarded. */
  lemma {:induction false} InvalidWritesNothing(pages: map<Title, seq<Version>>, events: seq<Event>)
    requires forall page :: page in pages ==> WrittenByValid(pages[page])
    ensures AllSifted(Run(Initial(pages), events))
  {
    if events != [] {
      InvalidWritesNothing(pages, events[..|events| - 1]);
      StepKeepsSifted(Run(Initial(pages), events[..|events| - 1]), events[|events| - 1]);
    }
  }

  // ---------------------------------------------------------------- every delivery is settled once

  /** How often deliveries of this message ended in a failure of our own, not of the limiter. */
  function Failures(log: seq<Settlement>, id: MessageId): nat {
    if log == [] then 0
    else
      var last := log[|log| - 1];
      Failures(log[..|log| - 1], id) + if last.id == id && last.result == Failed(OtherError) then 1 else 0
  }

  /** How often the message was settled for good. */
  function Finals(log: seq<Settlement>, id: MessageId): nat {
    if log == [] then 0
    else
      var last := log[|log| - 1];
      Finals(log[..|log| - 1], id) + if last.id == id && !last.verdict.Requeue? then 1 else 0
  }

  predicate Holds(s: State, w: WorkerId, id: MessageId) { w in s.workers && s.workers[w].message.id == id }

  ghost predicate Unsettled(s: State, id: MessageId) { id in s.queue || exists w :: Holds(s, w, id) }

  ghost predicate OneCopy(s: State) {
    && (forall id :: id in s.queue ==> s.queue[id].message.id == id && id in s.published)
    && (forall w :: w in s.workers ==> s.workers[w].message.id in s.published && s.workers[w].message.id !in s.queue)
    && (forall v, w, id :: Holds(s, v, id) && Holds(s, w, id) ==> v == w)
  }

  function Allowance(redelivered: bool): nat { if redelivered then 1 else 0 }

  ghost predicate FailuresBounded(s: State) {
    && (forall id :: id in s.queue ==> Failures(s.log, id) <= Allowance(s.queue[id].redelivered))
    && (forall w :: w in s.workers ==> Failures(s.log, s.workers[w].message.id) <= Allowance(s.workers[w].redelivered))
    && (forall id :: Failures(s.log, id) <= 2)
    && (forall id :: id !in s.published ==> Failures(s.log, id) == 0)
  }

  ghost predicate FinalsExact(s: State) {
    && (forall id :: id !in s.published ==> Finals(s.log, id) == 0)
    && (forall id :: id in s.published ==> Finals(s.log, id) == if Unsettled(s, id) then 0 else 1)
  }

  ghost predicate DeliveriesCounted(s: State) { s.deliveries == |s.log| + s.deaths + |s.workers| }

  ghost predicate BrokerInv(s: State) { OneCopy(s) && FailuresBounded(s) && FinalsExact(s) }

  lemma LogGrows(log: seq<Settlement>, last: Settlement)
    ensures forall id :: Failures(log + [last], id) ==
                         Failures(log, id) + if last.id == id && last.result == Failed(OtherError) then 1 else 0
    ensures forall id :: Finals(log + [last], id) == Finals(log, id) + if last.id == id && !last.verdict.Requeue? then 1 else 0
  {
    assert (log + [last])[..|log|] == log;
  }

  /** Steps inside one delivery, and other people's edits, move no message. */
  ghost predicate SameHoldings(s: State, t: State) {
    && t.queue == s.queue && t.published == s.published && t.log == s.log && t.workers.Keys == s.workers.Keys
    && forall w :: w in s.workers && w in t.workers ==>
                     t.workers[w].message == s.workers[w].message && t.workers[w].redelivered == s.workers[w].redelivered
  }

  predicate Internal(e: Event) { e.OtherEdit? || e.Prepare? || e.Read? || e.Write? }

  lemma WriteHolds(s: State, w: WorkerId, error: Option<Error>, lost: Option<Error>)
    ensures SameHoldings(s, WriteStep(s, w, error, lost))
  {
  }

  lemma InternalStepsHold(s: State, e: Event)
    requires Internal(e)
    ensures SameHoldings(s, Step(s, e))
  {
    if e.Write? {
      WriteHolds(s, e.worker, e.error, e.lost);
    }
  }

  lemma OnlyHolder(s: State, w: WorkerId)
    requires OneCopy(s) && w in s.workers
    ensures forall v :: v in s.workers && v != w ==> s.workers[v].message.id != s.workers[w].message.id
  {
    forall v | v in s.workers && v != w
      ensures s.workers[v].message.id != s.workers[w].message.id
    {
      assert Holds(s, w, s.workers[w].message.id) && Holds(s, v, s.workers[v].message.id);
    }
  }

  lemma SameHoldingsKeepBroker(s: State, t: State)
    requires BrokerInv(s) && SameHoldings(s, t)
    ensures BrokerInv(t)
  {
    assert forall w, id :: Holds(t, w, id) <==> Holds(s, w, id);
    assert forall id :: Unsettled(t, id) <==> Unsettled(s, id);
  }

  lemma PublishKeepsBroker(s: State, m: Message)
    requires BrokerInv(s)
    ensures BrokerInv(Step(s, Publish(m)))
  {
    var t := Step(s, Publish(m));
    assert forall w, id :: Holds(t, w, id) <==> Holds(s, w, id);
    assert forall w :: w in s.workers && s.workers[w].message.id == m.id ==> m.id in s.published;
    forall id | id != m.id
      ensures Unsettled(t, id) <==> Unsettled(s, id)
    {
    }
    if m.id !in s.published {
      assert Unsettled(t, m.id) && Finals(s.log, m.id) == 0;
    }
  }

  lemma DeliverKeepsBroker(s: State, w: WorkerId, id: MessageId)
    requires BrokerInv(s) && w !in s.workers && id in s.queue
    ensures BrokerInv(DeliverStep(s, w, id))
  {
    var t := DeliverStep(s, w, id);
    assert Holds(t, w, id);
    assert forall v, i :: v != w ==> (Holds(t, v, i) <==> Holds(s, v, i));
    assert forall v :: v in s.workers ==> s.workers[v].message.id != id;
    forall i
      ensures Unsettled(t, i) <==> Unsettled(s, i)
    {
      HoldersStay(s, t, w, i);
    }
  }

  /** Who else holds a message is untouched by what happens to worker w. */
  lemma HoldersStay(s: State, t: State, w: WorkerId, id: MessageId)
    requires forall v :: v != w ==> (Holds(t, v, id) <==> Holds(s, v, id))
    ensures (exists v :: v != w && Holds(t, v, id)) <==> (exists v :: v != w && Holds(s, v, id))
    ensures (exists v :: Holds(t, v, id)) <==> Holds(t, w, id) || (exists v :: v != w && Holds(t, v, id))
    ensures (exists v :: Holds(s, v, id)) <==> Holds(s, w, id) || (exists v :: v != w && Holds(s, v, id))
  {
  }

  lemma DieKeepsBroker(s: State, w: WorkerId)
    requires BrokerInv(s) && w in s.workers
    ensures BrokerInv(Step(s, Die(w)))
  {
    var t, id := Step(s, Die(w)), s.workers[w].message.id;
    OnlyHolder(s, w);
    assert Holds(s, w, id);
    assert forall v, i :: v != w ==> (Holds(t, v, i) <==> Holds(s, v, i));
    forall i
      ensures Unsettled(t, i) <==> Unsettled(s, i)
    {
      HoldersStay(s, t, w, i);
    }
  }

  lemma SettleKeepsCopies(s: State, w: WorkerId)
    requires OneCopy(s) && w in s.workers && s.workers[w].Ending?
    ensures OneCopy(SettleStep(s, w))
  {
    var t := SettleStep(s, w);
    OnlyHolder(s, w);
    assert forall v, i :: v != w ==> (Holds(t, v, i) <==> Holds(s, v, i));
  }

  lemma SettleKeepsFailures(s: State, w: WorkerId)
    requires OneCopy(s) && FailuresBounded(s) && w in s.workers && s.workers[w].Ending?
    ensures FailuresBounded(SettleStep(s, w))
  {
    var Ending(m, redelivered, result) := s.workers[w];
    LogGrows(s.log, Settlement(m.id, VerdictOf(result, redelivered), result));
    OnlyHolder(s, w);
  }

  lemma SettleKeepsFinals(s: State, w: WorkerId)
    requires OneCopy(s) && FinalsExact(s) && w in s.workers && s.workers[w].Ending?
    ensures FinalsExact(SettleStep(s, w))
  {
    var Ending(m, redelivered, result) := s.workers[w];
    var t := SettleStep(s, w);
    LogGrows(s.log, Settlement(m.id, VerdictOf(result, redelivered), result));
    assert Holds(s, w, m.id);
    assert forall v, i :: v != w ==> (Holds(t, v, i) <==> Holds(s, v, i));
    forall i
      ensures i != m.id ==> (Unsettled(t, i) <==> Unsettled(s, i))
      ensures i == m.id ==> (Unsettled(t, i) <==> i in t.queue)
    {
      HoldersStay(s, t, w, i);
    }
  }

  lemma StepKeepsBroker(s: State, e: Event)
    requires BrokerInv(s)
    ensures BrokerInv(Step(s, e))
  {
    match e
    case Publish(m) => PublishKeepsBroker(s, m);
    case Deliver(w, id) =>
      if w !in s.workers && id in s.queue {
        DeliverKeepsBroker(s, w, id);
      }
    case Die(w) =>
      if w in s.workers {
        DieKeepsBroker(s, w);
      }
    case Settle(w) =>
      if w in s.workers && s.workers[w].Ending? {
        SettleKeepsCopies(s, w);
        SettleKeepsFailures(s, w);
        SettleKeepsFinals(s, w);
      }
    case _ =>
      InternalStepsHold(s, e);
      SameHoldingsKeepBroker(s, Step(s, e));
  }

  lemma {:induction false} RunKeepsBroker(pages: map<Title, seq<Version>>, events: seq<Event>)
    ensures var s := Run(Initial(pages), events);
            BrokerInv(s) && DeliveriesCounted(s)
  {
    if events != [] {
      var s, e := Run(Initial(pages), events[..|events| - 1]), events[|events| - 1];
      RunKeepsBroker(pages, events[..|events| - 1]);
      StepKeepsBroker(s, e);
      StepKeepsCount(s, e);
    }
  }

  lemma StepKeepsCount(s: State, e: Event)
    requires DeliveriesCounted(s)
    ensures DeliveriesCounted(Step(s, e))
  {
    if Internal(e) {
      InternalStepsCount(s, e);
    } else if (e.Settle? || e.Die?) && e.worker in s.workers {
      assert (s.workers - {e.worker}).Keys == s.workers.Keys - {e.worker};
    }
  }

  lemma InternalStepsCount(s: State, e: Event)
    requires Internal(e)
    ensures var t := Step(s, e);
            t.deliveries == s.deliveries && t.deaths == s.deaths && t.log == s.log && |t.workers| == |s.workers|
  {
    InternalStepsHold(s, e);
    assert |Step(s, e).workers.Keys| == |s.workers.Keys|;
  }

  /**
   Every delivery gets one answer, unless its worker died; no message is settled for good
   twice or forgotten; and at most two deliveries of a message end in a failure of our own.
   */
  lemma DeliveriesSettleOnce(pages: map<Title, seq<Version>>, events: seq<Event>, id: MessageId)
    ensures var s := Run(Initial(pages), events);
            && s.deliveries == |s.log| + s.deaths + |s.workers|
            && (id in s.published ==> Finals(s.log, id) == if Unsettled(s, id) then 0 else 1)
            && Failures(s.log, id) <= 2
  {
    RunKeepsBroker(pages, events);
  }

  // ---- when an edit is given up

  /** A delivery of the message was sent back before, or some worker died. */
  ghost predicate TriedBefore(s: State, id: MessageId) {
    s.deaths > 0 || exists i :: 0 <= i < |s.log| && s.log[i].id == id && s.log[i].verdict.Requeue?
  }

  ghost predicate GivenUpLate(s: State) {
    && (forall id :: id in s.queue && s.queue[id].redelivered ==> TriedBefore(s, id))
    && (forall w :: w in s.workers && s.workers[w].redelivered ==> TriedBefore(s, s.workers[w].message.id))
    && (forall i :: 0 <= i < |s.log| && s.log[i].result.Failed? ==>
                      if s.log[i].verdict.Requeue? then true
                      else s.log[i].verdict.Discard? && s.log[i].result.error.OtherError? && TriedBefore(s, s.log[i].id))
  }

  lemma TriedStays(s: State, t: State, id: MessageId)
    requires TriedBefore(s, id) && t.deaths >= s.deaths && |s.log| <= |t.log| && t.log[..|s.log|] == s.log
    ensures TriedBefore(t, id)
  {
    if s.deaths == 0 {
      var i :| 0 <= i < |s.log| && s.log[i].id == id && s.log[i].verdict.Requeue?;
      assert t.log[..|s.log|][i] == t.log[i];
    }
  }

  lemma SettleKeepsLate(s: State, w: WorkerId)
    requires OneCopy(s) && GivenUpLate(s) && w in s.workers && s.workers[w].Ending?
    ensures GivenUpLate(SettleStep(s, w))
  {
    var t, n := SettleStep(s, w), |s.log|;
    assert t.log[..n] == s.log;
    forall id | TriedBefore(s, id)
      ensures TriedBefore(t, id)
    {
      TriedStays(s, t, id);
    }
    if t.log[n].verdict.Requeue? {
      assert TriedBefore(t, t.log[n].id);
    }
  }

  /** Steps that keep the log and do not mark anything redelivered. */
  lemma OtherStepsKeepLate(s: State, t: State)
    requires GivenUpLate(s) && t.log == s.log && t.deaths == s.deaths
    requires forall id :: id in t.queue && t.queue[id].redelivered ==> id in s.queue && s.queue[id].redelivered
    requires forall w :: w in t.workers && t.workers[w].redelivered ==> TriedBefore(s, t.workers[w].message.id)
    ensures GivenUpLate(t)
  {
    assert forall id :: TriedBefore(s, id) <==> TriedBefore(t, id);
  }

  lemma DieKeepsLate(s: State, w: WorkerId)
    requires GivenUpLate(s) && w in s.workers
    ensures GivenUpLate(Step(s, Die(w)))
  {
    assert forall id :: TriedBefore(Step(s, Die(w)), id);
  }

  lemma DeliverKeepsLate(s: State, w: WorkerId, id: MessageId)
    requires OneCopy(s) && GivenUpLate(s)
    ensures GivenUpLate(DeliverStep(s, w, id))
  {
    OtherStepsKeepLate(s, DeliverStep(s, w, id));
  }

  lemma StepKeepsLate(s: State, e: Event)
    requires OneCopy(s) && GivenUpLate(s)
    ensures GivenUpLate(Step(s, e))
  {
    match e
    case Settle(w) =>
      if w in s.workers && s.workers[w].Ending? {
        SettleKeepsLate(s, w);
      }
    case Publish(m) => OtherStepsKeepLate(s, Step(s, e));
    case Deliver(w, id) => DeliverKeepsLate(s, w, id);
    case Die(w) =>
      if w in s.workers {
        DieKeepsLate(s, w);
      }
    case _ =>
      InternalStepsHold(s, e);
      InternalStepsCount(s, e);
      OtherStepsKeepLate(s, Step(s, e));
  }

  /**
   Over every run, a failed delivery is sent back, unless it failed of our own and the message was sent back before
   (or a worker died); failures of the limiter are always sent back.
   */
  lemma {:induction false} FailuresAreRetried(pages: map<Title, seq<Version>>, events: seq<Event>)
    ensures GivenUpLate(Run(Initial(pages), events))
  {
    if events != [] {
      FailuresAreRetried(pages, events[..|events| - 1]);
      RunKeepsBroker(pages, events[..|events| - 1]);
      StepKeepsLate(Run(Initial(pages), events[..|events| - 1]), events[|events| - 1]);
    }
  }

  // ---------------------------------------------------------------- the worker's code

  /** Somebody else's edit of one page. */
  datatype Change = Change(page: Title, text: Option<Text>)

  /** What the outside does to one delivery: failures, a lost reply, and edits between the get and the put. */
  datatype Outside = Outside(
    summary: Option<Error>, read: Option<Error>, between: seq<Change>, write: Option<Error>, lost: Option<Error>)

  function Changed(pages: map<Title, seq<Version>>, changes: seq<Change>): map<Title, seq<Version>> {
    if changes == [] then pages
    else
      var last := changes[|changes| - 1];
      Append(Changed(pages, changes[..|changes| - 1]), last.page, Version(last.text, Others))
  }

  /** The machine with this one delivery and nothing else. */
  function Alone(pages: map<Title, seq<Version>>, phase: Phase): State {
    State(pages, map[], map[0 := phase], {}, [], 0, 0)
  }

  /** One delivery as the machine takes it. */
  function SaveSteps(pages: map<Title, seq<Version>>, m: Message, redelivered: bool, o: Outside): State {
    var read := ReadStep(PrepareStep(Alone(pages, Started(m, redelivered)), 0, o.summary), 0, o.read);
    var raced := if 0 in read.workers && read.workers[0].Guarded? then read.(pages := Changed(pages, o.between)) else read;
    WriteStep(raced, 0, o.write, o.lost)
  }

  lemma AloneMoves(pages: map<Title, seq<Version>>, phase: Phase, next: Phase)
    ensures Alone(pages, phase).(workers := Alone(pages, phase).workers[0 := next]) == Alone(pages, next)
  {
  }

  lemma SaveStepsUnguarded(pages: map<Title, seq<Version>>, m: Message, redelivered: bool, o: Outside)
    requires m.valid && o.summary.None? && !Guarding(m)
    ensures SaveSteps(pages, m, redelivered, o) ==
            WriteStep(Alone(pages, Unguarded(m, redelivered)), 0, o.write, o.lost)
  {
    AloneMoves(pages, Started(m, redelivered), Unguarded(m, redelivered));
  }

  lemma SaveStepsGuarded(pages: map<Title, seq<Version>>, m: Message, redelivered: bool, o: Outside)
    requires o.summary.None? && Guarding(m)
    ensures var read := ReadStep(Alone(pages, Reading(m, redelivered)), 0, o.read);
            && 0 in read.workers
            && SaveSteps(pages, m, redelivered, o) ==
               if read.workers[0].Guarded? then WriteStep(Alone(Changed(pages, o.between), read.workers[0]), 0, o.write, o.lost)
               else read
  {
    AloneMoves(pages, Started(m, redelivered), Reading(m, redelivered));
    var revision: nat := if |History(pages, m.page)| > 0 then |History(pages, m.page)| - 1 else 0;
    AloneMoves(pages, Reading(m, redelivered), Guarded(m, redelivered, revision));
  }

  // ---- what a delivery does to the wiki

  predicate Touches(changes: seq<Change>, page: Title) { exists i :: 0 <= i < |changes| && changes[i].page == page }

  /** The live text is the one a guarding message expects. */
  predicate AsExpected(pages: map<Title, seq<Version>>, m: Message) {
    LiveText(pages, m.page).Some? && Some(Sha256(LiveText(pages, m.page).value)) == m.expected
  }

  /** Nothing fails before the write, which is not raced and has something to delete if it deletes. */
  predicate Writes(pages: map<Title, seq<Version>>, m: Message, o: Outside) {
    && o.summary.None? && o.write.None?
    && (Guarding(m) ==> o.read.None? && AsExpected(pages, m) && !Touches(o.between, m.page))
    && (m.action.DeletePage? ==> LiveText(pages, m.page).Some?)
  }

  /** The page after the write: its history with at most one revision more, and the text of the message, or none. */
  ghost predicate WrittenBy(before: map<Title, seq<Version>>, after: map<Title, seq<Version>>, m: Message) {
    var was, now := History(before, m.page), History(after, m.page);
    && LiveText(after, m.page) == (if m.action.DeletePage? then None else Some(m.content))
    && (now == was || (|now| == |was| + 1 && now[..|was|] == was && now[|was|].author == By(m)))
    && (m.action.EditPage? && LiveText(before, m.page) == Some(m.content) ==> now == was)
  }

  /** What others did meanwhile: only between the refreshed get and the put. */
  function Meanwhile(pages: map<Title, seq<Version>>, m: Message, o: Outside): map<Title, seq<Version>> {
    if Guarding(m) && o.summary.None? && o.read.None? && AsExpected(pages, m) then Changed(pages, o.between) else pages
  }

  /** What a failed delivery fails with: the first thing that went wrong, a lost race and a missing page being failures of our own. */
  function FirstError(pages: map<Title, seq<Version>>, m: Message, o: Outside): Error {
    if o.summary.Some? then o.summary.value
    else if Guarding(m) && o.read.Some? then o.read.value
    else if o.write.Some? then o.write.value
    else if (Guarding(m) && Touches(o.between, m.page)) || (m.action.DeletePage? && LiveText(pages, m.page).None?) then OtherError
    else if o.lost.Some? then o.lost.value
    else OtherError
  }

  /** How one delivery of a valid message ends: what its result says, and what became of every page. */
  ghost predicate Delivered(pages: map<Title, seq<Version>>, m: Message, o: Outside, result: Result, after: map<Title, seq<Version>>) {
    var meanwhile := Meanwhile(pages, m, o);
    && (result.Saved? <==> Writes(pages, m, o) && o.lost.None?)
    && (result.Skipped? <==> Guarding(m) && o.summary.None? && o.read.None? && !AsExpected(pages, m))
    && !result.Invalid? && (result.Failed? ==> result.error == FirstError(pages, m, o))
    && (if Writes(pages, m, o) then WrittenBy(meanwhile, after, m) else History(after, m.page) == History(meanwhile, m.page))
    && (forall page :: page != m.page ==> History(after, page) == History(meanwhile, page))
  }

  lemma {:induction false} ChangesElsewhere(pages: map<Title, seq<Version>>, changes: seq<Change>, page: Title)
    ensures !Touches(changes, page) ==> History(Changed(pages, changes), page) == History(pages, page)
    ensures |History(Changed(pages, changes), page)| >= |History(pages, page)|
    ensures Touches(changes, page) ==> |History(Changed(pages, changes), page)| > |History(pages, page)|
  {
    if changes != [] {
      var n := |changes| - 1;
      ChangesElsewhere(pages, changes[..n], page);
      if Touches(changes[..n], page) {
        var i :| 0 <= i < n && changes[..n][i].page == page;
        assert changes[i].page == page;
      }
      if Touches(changes, page) && changes[n].page != page {
        var i :| 0 <= i < |changes| && changes[i].page == page;
        assert changes[..n][i].page == page;
      }
    }
  }

  lemma StoringWrites(pages: map<Title, seq<Version>>, m: Message)
    requires m.action.DeletePage? ==> LiveText(pages, m.page).Some?
    ensures WrittenBy(pages, Store(pages, m), m)
    ensures forall page :: page != m.page ==> History(Store(pages, m), page) == History(pages, page)
  {
  }

  /** The machine's delivery is as described. */
  lemma SaveStepsDeliver(pages: map<Title, seq<Version>>, m: Message, redelivered: bool, o: Outside)
    requires m.valid
    ensures var t := SaveSteps(pages, m, redelivered, o);
            0 in t.workers && t.workers[0].Ending? && Delivered(pages, m, o, t.workers[0].result, t.pages)
  {
    if o.summary.Some? {
      AloneMoves(pages, Started(m, redelivered), Ending(m, redelivered, Failed(o.summary.value)));
    } else if !Guarding(m) {
      SaveStepsUnguarded(pages, m, redelivered, o);
      if Writes(pages, m, o) {
        StoringWrites(pages, m);
      }
    } else {
      GuardedDelivers(pages, m, redelivered, o);
    }
  }

  lemma GuardedDelivers(pages: map<Title, seq<Version>>, m: Message, redelivered: bool, o: Outside)
    requires Guarding(m) && o.summary.None?
    ensures var t := SaveSteps(pages, m, redelivered, o);
            0 in t.workers && t.workers[0].Ending? && Delivered(pages, m, o, t.workers[0].result, t.pages)
  {
    SaveStepsGuarded(pages, m, redelivered, o);
    if o.read.None? && AsExpected(pages, m) {
      var meanwhile := Changed(pages, o.between);
      ChangesElsewhere(pages, o.between, m.page);
      if Writes(pages, m, o) {
        StoringWrites(meanwhile, m);
      }
    }
  }

  class WikiWorker {
    var pages: map<Title, seq<Version>>
    var answers: seq<Settlement>

    constructor (pages: map<Title, seq<Version>>)
      ensures this.pages == pages && answers == []
    {
      this.pages, answers := pages, [];
    }

    /** The refreshed get, the comparison of hashes, and the time until the put. */
    method CheckExpected(m: Message, ghost redelivered: bool, o: Outside) returns (ended: Option<Result>, revision: nat)
      requires Guarding(m)
      modifies this`pages
      ensures var read := ReadStep(Alone(old(pages), Reading(m, redelivered)), 0, o.read);
              && (ended.Some? ==> Alone(pages, Ending(m, redelivered, ended.value)) == read && !ended.value.Invalid?)
              && (ended.None? ==> read == Alone(old(pages), Guarded(m, redelivered, revision))
                                  && pages == Changed(old(pages), o.between))
    {
      revision := 0;
      if o.read.Some? {
        return Some(Failed(o.read.value)), revision;
      }
      var current := LiveText(pages, m.page);
      if current.None? || Some(Sha256(current.value)) != m.expected {
        return Some(Skipped), revision;
      }
      revision := |History(pages, m.page)| - 1;
      pages := Changed(pages, o.between);
      return None, revision;
    }

    /** The put or the delete; `refreshed` is the revision the get saw, if there was one. */
    method WriteLive(m: Message, refreshed: Option<nat>, ghost redelivered: bool, o: Outside) returns (result: Result)
      modifies this`pages
      ensures var phase := if refreshed.Some? then Guarded(m, redelivered, refreshed.value) else Unguarded(m, redelivered);
              Alone(pages, Ending(m, redelivered, result)) == WriteStep(Alone(old(pages), phase), 0, o.write, o.lost)
      ensures !result.Invalid?
    {
      if o.write.Some? {
        return Failed(o.write.value);
      }
      if refreshed.Some? && refreshed.value != |History(pages, m.page)| - 1 {
        return Failed(OtherError);
      }
      if m.action.DeletePage? && LiveText(pages, m.page).None? {
        return Failed(OtherError);
      }
      pages := Store(pages, m);
      return if o.lost.Some? then Failed(o.lost.value) else Saved;
    }

    method SaveToWiki(m: Message, ghost redelivered: bool, o: Outside) returns (result: Result)
      requires m.valid
      modifies this`pages
      ensures Alone(pages, Ending(m, redelivered, result)) == SaveSteps(old(pages), m, redelivered, o)
      ensures Delivered(old(pages), m, o, result, pages)
    {
      SaveStepsDeliver(pages, m, redelivered, o);
      if o.summary.Some? {
        AloneMoves(pages, Started(m, redelivered), Ending(m, redelivered, Failed(o.summary.value)));
        return Failed(o.summary.value);
      }
      var refreshed: Option<nat> := None;
      if m.action.EditPage? && m.expected.Some? {
        SaveStepsGuarded(pages, m, redelivered, o);
        var ended, revision := CheckExpected(m, redelivered, o);
        if ended.Some? {
          return ended.value;
        }
        refreshed := Some(revision);
      } else {
        SaveStepsUnguarded(pages, m, redelivered, o);
      }
      result := WriteLive(m, refreshed, redelivered, o);
    }

    /** Whatever happens, the delivery is answered exactly once. */
    method Callback(m: Message, redelivered: bool, o: Outside) returns (result: Result)
      modifies this
      ensures answers == old(answers) + [Settlement(m.id, VerdictOf(result, redelivered), result)]
      ensures var verdict := answers[|old(answers)|].verdict;
              && (verdict.Ack? <==> result.Saved? || result.Skipped?)
              && (verdict.Requeue? <==> result.Failed? && (result.error.LimiterError? || !redelivered))
      ensures if m.valid then
                Alone(pages, Ending(m, redelivered, result)) == SaveSteps(old(pages), m, redelivered, o) && Delivered(old(pages), m, o, result, pages)
              else result == Invalid && pages == old(pages)
    {
      if !m.valid {
        result := Invalid;
        answers := answers + [Settlement(m.id, Discard, result)];
        return;
      }
      result := SaveToWiki(m, redelivered, o);
      if result.Failed? {
        var requeue := result.error.LimiterError? || !redelivered;
        answers := answers + [Settlement(m.id, if requeue then Requeue else Discard, result)];
      } else {
        answers := answers + [Settlement(m.id, Ack, result)];
      }
    }
  }

  /** With nothing failing and nobody else editing, an edit is written and acknowledged, if its guard allows it. */
  lemma EditsAreWritten(pages: map<Title, seq<Version>>, m: Message, redelivered: bool, o: Outside)
    requires m.valid && m.action.EditPage? && o == Outside(None, None, [], None, None)
    requires Guarding(m) ==> AsExpected(pages, m)
    ensures var t := SaveSteps(pages, m, redelivered, o);
            && t.workers[0] == Ending(m, redelivered, Saved) && VerdictOf(Saved, redelivered) == Ack
            && LiveText(t.pages, m.page) == Some(m.content)
  {
    SaveStepsDeliver(pages, m, redelivered, o);
  }

  /**
   Once the page no longer holds the expected text, redelivering a guarded edit writes nothing, whatever
   fails or happens meanwhile; and without a failure it is acknowledged.
   */
  lemma RedeliveryIsHarmless(pages: map<Title, seq<Version>>, m: Message, redelivered: bool, o: Outside)
    requires Guarding(m)
    requires LiveText(pages, m.page).Some? ==> Some(Sha256(LiveText(pages, m.page).value)) != m.expected
    ensures SaveSteps(pages, m, redelivered, o).pages == pages
    ensures o.summary.None? && o.read.None? ==>
              SaveSteps(pages, m, redelivered, o) == Alone(pages, Ending(m, redelivered, Skipped))
              && VerdictOf(Skipped, redelivered) == Ack
  {
    var prepared := PrepareStep(Alone(pages, Started(m, redelivered)), 0, o.summary);
    assert o.summary.None? ==> prepared == Alone(pages, Reading(m, redelivered));
  }
}
