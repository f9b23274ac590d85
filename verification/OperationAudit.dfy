/**
 The append-only journal of operations and its keyset pagination (supervisor_control_service.py,
 OperationAudit and list_operations).
 */
module OperationAudit {
  import opened Wrappers

  datatype Outcome = Pending | Succeeded | Failed

  /** What an operation can be completed with. */
  type Ending = o: Outcome | o != Pending witness Succeeded

  /** The metadata that begin records; target and changed fields stand for their JSON texts. */
  datatype Request = Request(username: string, service: string, action: string, resource: string, target: string, changedFields: string)

  datatype Operation = Operation(id: nat, acceptedAt: nat, request: Request, completedAt: Option<nat>, outcome: Outcome, error: Option<string>)

  /** Rows in the order of their insertion; AUTOINCREMENT numbers them from 1 and nothing is deleted. */
  ghost predicate Numbered(rows: seq<Operation>) {
    forall i :: 0 <= i < |rows| ==> rows[i].id == i + 1
  }

  function Begun(rows: seq<Operation>, request: Request, now: nat): seq<Operation> {
    rows + [Operation(|rows| + 1, now, request, None, Pending, None)]
  }

  /** An error summary is kept up to 500 characters; an empty one is no summary. */
  function Summarized(error: Option<string>): Option<string> {
    if error.None? || error.value == "" then None
    else Some(if |error.value| > 500 then error.value[..500] else error.value)
  }

  predicate Completable(rows: seq<Operation>, id: int, username: string) {
    1 <= id <= |rows| && rows[id - 1].request.username == username && rows[id - 1].outcome.Pending?
  }

  function Completed(rows: seq<Operation>, id: int, username: string, outcome: Ending, error: Option<string>, now: nat): seq<Operation> {
    if !Completable(rows, id, username) then rows
    else rows[id - 1 := rows[id - 1].(completedAt := Some(now), outcome := outcome, error := Summarized(error))]
  }

  predicate PendingOf(op: Operation, id: int, username: string) {
    op.id == id && op.request.username == username && op.outcome.Pending?
  }

  /** The summary kept of an error: its first 500 characters, or none of an empty one. */
  ghost predicate Summarizes(kept: Option<string>, error: Option<string>) {
    && (kept.None? <==> error.None? || error.value == "")
    && (kept.Some? ==> kept.value <= error.value && |kept.value| <= 500 && (|kept.value| < 500 ==> kept == error))
  }

  /** One record, pending before, has ended; its other fields, and all other records, are as they were. */
  ghost predicate Ends(before: seq<Operation>, after: seq<Operation>, op: Operation, outcome: Ending, error: Option<string>, now: nat) {
    && |after| == |before| && 1 <= op.id <= |after| && after[op.id - 1] == op
    && (forall i :: 0 <= i < |after| && i != op.id - 1 ==> after[i] == before[i])
    && var was := before[op.id - 1];
       && was.outcome.Pending? && op.request == was.request && op.acceptedAt == was.acceptedAt
       && op.outcome == outcome && op.completedAt == Some(now) && Summarizes(op.error, error)
  }

  /** Completing ends the user's own pending record of that id, if there is one, and changes nothing else. */
  lemma CompletedIs(rows: seq<Operation>, id: int, username: string, outcome: Ending, error: Option<string>, now: nat)
    requires Numbered(rows)
    ensures var after := Completed(rows, id, username, outcome, error, now);
            && (Completable(rows, id, username) <==> exists op :: op in rows && PendingOf(op, id, username))
            && if Completable(rows, id, username) then Ends(rows, after, after[id - 1], outcome, error, now) && after[id - 1].id == id
               else after == rows
  {
    if Completable(rows, id, username) {
      assert rows[id - 1] in rows && PendingOf(rows[id - 1], id, username);
    }
    if op :| op in rows && PendingOf(op, id, username) {
      var i :| 0 <= i < |rows| && rows[i] == op;
      assert i == id - 1;
    }
  }

  // ---------------------------------------------------------------- listing

  datatype Filter = Filter(service: Option<string>, outcome: Option<Outcome>)

  predicate Passes(f: Filter, op: Operation) {
    && (f.service.Some? ==> op.request.service == f.service.value)
    && (f.outcome.Some? ==> op.outcome == f.outcome.value)
  }

  predicate Matches(f: Filter, before: Option<int>, op: Operation) {
    Passes(f, op) && (before.Some? ==> op.id < before.value)
  }

  /** SELECT ... ORDER BY id DESC LIMIT ? */
  function Select(rows: seq<Operation>, limit: nat, before: Option<int>, f: Filter): seq<Operation> {
    if rows == [] || limit == 0 then [] else
    var rest, last := rows[..|rows| - 1], rows[|rows| - 1];
    if Matches(f, before, last) then [last] + Select(rest, limit - 1, before, f) else Select(rest, limit, before, f)
  }

  ghost predicate Descending(ops: seq<Operation>) {
    forall i, j :: 0 <= i < j < |ops| ==> ops[i].id > ops[j].id
  }

  /** What a reader asks for: the records of one service, or any, with one outcome, or any, older than a cursor, if given. */
  predicate Wanted(f: Filter, before: Option<int>, op: Operation) {
    && (f.service == None || f.service == Some(op.request.service)) && (f.outcome == None || f.outcome == Some(op.outcome))
    && (before == None || op.id < before.value)
  }

  lemma MatchesAreWanted(f: Filter, before: Option<int>, op: Operation)
    ensures Matches(f, before, op) <==> Wanted(f, before, op)
  {
  }

  ghost predicate Newest(rows: seq<Operation>, limit: nat, before: Option<int>, f: Filter, ops: seq<Operation>) {
    && |ops| <= limit && Descending(ops)
    && (forall op :: op in ops ==> op in rows && Matches(f, before, op))
    && (forall op :: op in rows && Matches(f, before, op) && op !in ops ==>
          |ops| == limit && forall other :: other in ops ==> op.id < other.id)
  }

  /** Newest matching rows first, and all of them unless the limit cut the list. */
  lemma {:induction false} SelectsNewest(rows: seq<Operation>, limit: nat, before: Option<int>, f: Filter)
    requires Numbered(rows)
    ensures Newest(rows, limit, before, f, Select(rows, limit, before, f))
    decreases |rows|
  {
    if rows != [] && limit > 0 {
      var rest, last := rows[..|rows| - 1], rows[|rows| - 1];
      assert rows == rest + [last];
      if Matches(f, before, last) {
        SelectsNewest(rest, limit - 1, before, f);
        NewestFirst(rest, last, limit, before, f, Select(rest, limit - 1, before, f));
      } else {
        SelectsNewest(rest, limit, before, f);
      }
    }
  }

  lemma NewestFirst(rest: seq<Operation>, last: Operation, limit: nat, before: Option<int>, f: Filter, ops: seq<Operation>)
    requires Numbered(rest + [last]) && limit > 0 && Matches(f, before, last) && Newest(rest, limit - 1, before, f, ops)
    ensures Newest(rest + [last], limit, before, f, [last] + ops)
  {
    assert (rest + [last])[|rest|] == last;
    forall op | op in rest
      ensures op.id < last.id
    {
      var i :| 0 <= i < |rest| && rest[i] == op;
      assert (rest + [last])[i] == op;
    }
  }

  datatype Page = Page(operations: seq<Operation>, nextBefore: Option<int>)

  /** The nearest number from 1 to 100. */
  function Clamp(limit: int): (n: nat)
    ensures 1 <= n <= 100
    ensures (n < limit ==> n == 100) && (n > limit ==> n == 1)
  {
    if limit < 1 then 1 else if limit > 100 then 100 else limit
  }

  const AUDIT_SERVICES: set<string> := {"database", "dictionary", "gemma", "translator", "supervisor"}

  /** One row more than the page tells whether there is a next page. */
  function PageOf(rows: seq<Operation>, limit: int, before: Option<int>, f: Filter): (page: Page)
    ensures page.nextBefore.Some? ==> page.operations != []
  {
    var n := Clamp(limit);
    var ops := Select(rows, n + 1, before, f);
    if |ops| > n then Page(ops[..n], Some(ops[n - 1].id)) else Page(ops, None)
  }

  // ---------------------------------------------------------------- the journal

  class Audit {
    var rows: seq<Operation>

    constructor ()
      ensures rows == []
    {
      rows := [];
    }

    method Begin(request: Request, now: nat) returns (op: Operation)
      requires Numbered(rows)
      modifies this
      ensures rows == Begun(old(rows), request, now) && Numbered(rows)
      ensures rows == old(rows) + [op] && op == Operation(|old(rows)| + 1, now, request, None, Pending, None)
    {
      rows := rows + [Operation(|rows| + 1, now, request, None, Pending, None)];
      var found := Get(|rows|);
      op := found.value;
    }

    /** Completes a pending operation of the same user; anything else changes nothing. */
    method Complete(id: int, username: string, outcome: Ending, error: Option<string>, now: nat) returns (r: Option<Operation>)
      requires Numbered(rows)
      modifies this
      ensures rows == Completed(old(rows), id, username, outcome, error, now) && Numbered(rows)
      // Completed is the user's own pending record of that id, if there is one, and nothing else changes.
      ensures r.Some? <==> exists op :: op in old(rows) && PendingOf(op, id, username)
      ensures r.None? ==> rows == old(rows)
      ensures r.Some? ==> r.value.id == id && Ends(old(rows), rows, r.value, outcome, error, now)
    {
      CompletedIs(rows, id, username, outcome, error, now);
      if 1 <= id <= |rows| {
        var row := rows[id - 1];
        if row.request.username == username && row.outcome == Pending {
          rows := rows[id - 1 := row.(completedAt := Some(now), outcome := outcome, error := Summarized(error))];
          assert rows[id - 1] in rows;
          r := Get(id);
          return;
        }
      }
      return None;
    }

    method Get(id: int) returns (r: Option<Operation>)
      requires Numbered(rows)
      ensures r.Some? <==> exists op :: op in rows && op.id == id
      ensures r.Some? ==> r.value in rows && r.value.id == id
    {
      if 1 <= id <= |rows| {
        r := Some(rows[id - 1]);
      } else {
        r := None;
      }
    }

    method List(limit: nat, before: Option<int>, f: Filter) returns (ops: seq<Operation>)
      ensures ops == Select(rows, limit, before, f)
      // Only what is wanted, newest first, and all of it unless the limit cuts off what is older.
      ensures Numbered(rows) ==>
                && |ops| <= limit && Descending(ops) && (forall op :: op in ops ==> op in rows && Wanted(f, before, op))
                && (forall op, other :: op in rows && Wanted(f, before, op) && op !in ops && other in ops ==> op.id < other.id)
                && (forall op :: op in rows && Wanted(f, before, op) && op !in ops ==> |ops| == limit)
    {
      if Numbered(rows) {
        SelectsNewest(rows, limit, before, f);
      }
      assert forall op :: Wanted(f, before, op) ==> Matches(f, before, op);
      ops := [];
      var i := |rows|;
      assert rows[..i] == rows;
      while i > 0 && |ops| < limit
        invariant 0 <= i <= |rows| && |ops| <= limit
        invariant ops + Select(rows[..i], limit - |ops|, before, f) == Select(rows, limit, before, f)
      {
        i := i - 1;
        assert rows[..i + 1][..i] == rows[..i];
        if Matches(f, before, rows[i]) {
          assert ops + ([rows[i]] + Select(rows[..i], limit - |ops| - 1, before, f)) ==
                 (ops + [rows[i]]) + Select(rows[..i], limit - |ops| - 1, before, f);
          ops := ops + [rows[i]];
        }
      }
    }

    /** The page a request gets; an unknown service is refused. */
    method ListOperations(limit: int, before: Option<int>, f: Filter) returns (r: Option<Page>)
      ensures r.None? <==> f.service.Some? && f.service.value != "" && f.service.value !in AUDIT_SERVICES
      ensures r.Some? ==> r.value == PageOf(rows, limit, before, if f.service == Some("") then f.(service := None) else f)
    {
      var filter := if f.service == Some("") then f.(service := None) else f;
      if filter.service.Some? && filter.service.value !in AUDIT_SERVICES {
        return None;
      }
      var n := Clamp(limit);
      var operations := List(n + 1, before, filter);
      var next: Option<int> := if |operations| > n then Some(operations[n - 1].id) else None;
      return Some(Page(if |operations| > n then operations[..n] else operations, next));
    }
  }

  // ---------------------------------------------------------------- runs of the journal

  /** Anyone may begin and complete operations between the pages that one reader asks for. */
  datatype Event =
    | Begin(request: Request, now: nat)
    | Complete(id: int, username: string, ending: Ending, error: Option<string>, now: nat)
    | ReadPage(limit: int)

  datatype Cursor = Fresh | At(before: int) | Finished

  /** The journal, and one reader's walk: its cursor, what it was given, and the journal at its first page. */
  datatype State = State(rows: seq<Operation>, cursor: Cursor, given: seq<Operation>, first: seq<Operation>)

  function Step(f: Filter, s: State, event: Event): State {
    match event
    case Begin(request, now) => s.(rows := Begun(s.rows, request, now))
    case Complete(id, username, ending, error, now) => s.(rows := Completed(s.rows, id, username, ending, error, now))
    case ReadPage(limit) =>
      if s.cursor.Finished? then s else
      var page := PageOf(s.rows, limit, if s.cursor.At? then Some(s.cursor.before) else None, f);
      State(s.rows, if page.nextBefore.Some? then At(page.nextBefore.value) else Finished, s.given + page.operations,
            if s.cursor.Fresh? then s.rows else s.first)
  }

  /** A journal of any content, read by a reader who has not begun. */
  function Start(rows: seq<Operation>): State { State(rows, Fresh, [], []) }

  function Run(f: Filter, rows: seq<Operation>, events: seq<Event>): State {
    if events == [] then Start(rows) else Step(f, Run(f, rows, events[..|events| - 1]), events[|events| - 1])
  }

  function Begins(events: seq<Event>): nat {
    if events == [] then 0 else Begins(events[..|events| - 1]) + if events[|events| - 1].Begin? then 1 else 0
  }

  /** Every begin adds one record, and nothing else adds or removes any. */
  lemma {:induction false} RecordsAccumulate(f: Filter, rows: seq<Operation>, events: seq<Event>)
    ensures |Run(f, rows, events).rows| == |rows| + Begins(events)
  {
    if events != [] {
      RecordsAccumulate(f, rows, events[..|events| - 1]);
    }
  }

  // ---- records are frozen once they leave pending

  ghost predicate Evolves(a: Operation, b: Operation) {
    && b.id == a.id && b.acceptedAt == a.acceptedAt && b.request == a.request
    && (!a.outcome.Pending? ==> b == a)
  }

  ghost predicate Extends(before: seq<Operation>, after: seq<Operation>) {
    |before| <= |after| && forall i :: 0 <= i < |before| ==> Evolves(before[i], after[i])
  }

  lemma StepExtends(f: Filter, s: State, event: Event)
    requires Numbered(s.rows)
    ensures Numbered(Step(f, s, event).rows) && Extends(s.rows, Step(f, s, event).rows)
  {
  }

  /** How often completing a record was answered with success. */
  ghost function Completions(f: Filter, rows: seq<Operation>, events: seq<Event>, id: int): nat {
    if events == [] then 0 else
    var before, last := events[..|events| - 1], events[|events| - 1];
    Completions(f, rows, before, id) +
    (if last.Complete? && last.id == id && Completable(Run(f, rows, before).rows, id, last.username) then 1 else 0)
  }

  lemma {:induction false} RecordsKeepIdentity(f: Filter, rows: seq<Operation>, events: seq<Event>)
    requires Numbered(rows)
    ensures Numbered(Run(f, rows, events).rows) && Extends(rows, Run(f, rows, events).rows)
  {
    if events != [] {
      RecordsKeepIdentity(f, rows, events[..|events| - 1]);
      StepExtends(f, Run(f, rows, events[..|events| - 1]), events[|events| - 1]);
    }
  }

  predicate Open(rows: seq<Operation>, i: nat) { i >= |rows| || rows[i].outcome.Pending? }

  predicate Completes(event: Event, rows: seq<Operation>, i: nat) {
    event.Complete? && event.id == i + 1 && Completable(rows, i + 1, event.username)
  }

  lemma StepCompletes(f: Filter, s: State, event: Event, i: nat)
    ensures Open(Step(f, s, event).rows, i) <==> Open(s.rows, i) && !Completes(event, s.rows, i)
    ensures Completes(event, s.rows, i) ==> Open(s.rows, i)
  {
  }

  /**
   Records keep their identity and metadata, leave pending at most once, and never change again: a
   record open at the start has been completed once if it is no longer pending, and else not at all.
   */
  lemma {:induction false} RecordsEndOnce(f: Filter, rows: seq<Operation>, events: seq<Event>, i: nat)
    ensures Completions(f, rows, events, i + 1) ==
            if Open(rows, i) && !Open(Run(f, rows, events).rows, i) then 1 else 0
    ensures !Open(rows, i) ==> !Open(Run(f, rows, events).rows, i)
    decreases |events|
  {
    if events != [] {
      var before, last := events[..|events| - 1], events[|events| - 1];
      RecordsEndOnce(f, rows, before, i);
      StepCompletes(f, Run(f, rows, before), last, i);
    }
  }

  // ---- what a reader is given

  /** A page holds the newest matching rows: all down to the next cursor, or all there are. */
  lemma PagesCover(rows: seq<Operation>, limit: int, before: Option<int>, f: Filter)
    requires Numbered(rows)
    ensures var page := PageOf(rows, limit, before, f);
            && Descending(page.operations) && |page.operations| <= Clamp(limit)
            && (forall op :: op in page.operations ==> op in rows && Matches(f, before, op))
            && (page.nextBefore.None? ==> forall op :: op in rows && Matches(f, before, op) ==> op in page.operations)
            && (page.nextBefore.Some? ==>
                  && |page.operations| == Clamp(limit)
                  && page.operations[|page.operations| - 1].id == page.nextBefore.value
                  && forall op :: op in rows && Matches(f, before, op) && op.id >= page.nextBefore.value ==> op in page.operations)
  {
    var n := Clamp(limit);
    var ops := Select(rows, n + 1, before, f);
    SelectsNewest(rows, n + 1, before, f);
    if |ops| > n {
      assert ops[n - 1].id > ops[n].id;
      forall op | op in rows && Matches(f, before, op) && op.id >= ops[n - 1].id
        ensures op in ops[..n]
      {
        assert op in ops;
        var k :| 0 <= k < |ops| && ops[k] == op;
        assert k < n;
        assert op == ops[..n][k];
      }
    }
  }

  ghost predicate Given(given: seq<Operation>, id: nat) {
    exists op :: op in given && op.id == id
  }

  /** The reader has passed the cursor: everything from there up has been looked at. */
  predicate Passed(cursor: Cursor, id: nat) {
    match cursor case Fresh => false case At(before) => id >= before case Finished => true
  }

  /** What was given existed at the start, comes in descending order, and matched when it was read. */
  ghost predicate Sound(f: Filter, s: State) {
    && Numbered(s.rows) && Numbered(s.first) && Extends(s.first, s.rows)
    && (s.cursor.Fresh? ==> s.given == [] && s.first == [])
    && (s.cursor.At? ==> 1 <= s.cursor.before <= |s.first|)
    && Descending(s.given)
    && forall op :: op in s.given ==> SoundRow(f, s, op)
  }

  ghost predicate SoundRow(f: Filter, s: State, op: Operation) {
    && 1 <= op.id <= |s.first| && |s.first| <= |s.rows| && Passed(s.cursor, op.id)
    && Evolves(s.first[op.id - 1], op) && Evolves(op, s.rows[op.id - 1]) && Passes(f, op)
  }

  /** What matched when the walk began and still matches was not missed. */
  ghost predicate NothingMissed(f: Filter, s: State) {
    forall i :: 0 <= i < |s.first| && i < |s.rows| && Passed(s.cursor, i + 1) && Passes(f, s.first[i]) && Passes(f, s.rows[i]) ==>
      Given(s.given, i + 1)
  }

  /** A record that matches before and after matches in between. */
  lemma MatchesBetween(f: Filter, a: Operation, b: Operation, c: Operation)
    requires Evolves(a, b) && Evolves(b, c) && Passes(f, a) && Passes(f, c)
    ensures Passes(f, b)
  {
  }

  lemma ChangesKeepSound(f: Filter, s: State, event: Event)
    requires !event.ReadPage? && Sound(f, s) && NothingMissed(f, s)
    ensures Sound(f, Step(f, s, event)) && NothingMissed(f, Step(f, s, event))
  {
    var t := Step(f, s, event);
    StepExtends(f, s, event);
    forall i | 0 <= i < |s.first| && Passes(f, s.first[i]) && Passes(f, t.rows[i])
      ensures Passes(f, s.rows[i])
    {
      MatchesBetween(f, s.first[i], s.rows[i], t.rows[i]);
    }
    forall op | op in s.given
      ensures SoundRow(f, t, op)
    {
      assert SoundRow(f, s, op);
    }
  }

  lemma JoinDescends(a: seq<Operation>, b: seq<Operation>, cut: nat)
    requires Descending(a) && Descending(b)
    requires (forall op :: op in a ==> op.id >= cut) && (forall op :: op in b ==> op.id < cut)
    ensures Descending(a + b)
  {
    var both := a + b;
    forall i, j | 0 <= i < j < |both|
      ensures both[i].id > both[j].id
    {
      if i < |a| <= j {
        assert both[i] in a && both[j] in b;
      }
    }
  }

  function CursorOf(s: State): Option<int> { if s.cursor.At? then Some(s.cursor.before) else None }

  lemma ReadingKeepsSound(f: Filter, s: State, limit: int)
    requires Sound(f, s) && !s.cursor.Finished?
    ensures Sound(f, Step(f, s, ReadPage(limit)))
  {
    var t := Step(f, s, ReadPage(limit));
    var page := PageOf(s.rows, limit, CursorOf(s), f);
    PagesCover(s.rows, limit, CursorOf(s), f);
    forall op | op in page.operations
      ensures SoundRow(f, t, op) && (s.cursor.At? ==> op.id < s.cursor.before)
    {
      assert op in s.rows && op == s.rows[op.id - 1];
      var k :| 0 <= k < |page.operations| && page.operations[k] == op;
      assert page.nextBefore.Some? && k < |page.operations| - 1 ==> op.id > page.operations[|page.operations| - 1].id;
    }
    forall op | op in s.given
      ensures SoundRow(f, t, op) && s.cursor.At? && op.id >= s.cursor.before
    {
      assert SoundRow(f, s, op);
      if page.nextBefore.Some? {
        assert page.operations[|page.operations| - 1] in page.operations;
      }
    }
    if s.cursor.At? {
      JoinDescends(s.given, page.operations, s.cursor.before);
    }
    if page.nextBefore.Some? {
      assert page.operations[|page.operations| - 1] in page.operations;
    }
  }

  /** Between the old cursor and the new one, a matching row is on the page. */
  lemma PageHasRow(rows: seq<Operation>, limit: int, before: Option<int>, f: Filter, i: nat)
    requires Numbered(rows) && i < |rows| && Passes(f, rows[i]) && (before.Some? ==> i + 1 < before.value)
    requires var page := PageOf(rows, limit, before, f); page.nextBefore.Some? ==> page.nextBefore.value <= i + 1
    ensures rows[i] in PageOf(rows, limit, before, f).operations
  {
    PagesCover(rows, limit, before, f);
    assert rows[i] in rows && Matches(f, before, rows[i]);
  }

  lemma ReadingMissesNothing(f: Filter, s: State, limit: int)
    requires Sound(f, s) && NothingMissed(f, s) && !s.cursor.Finished?
    ensures NothingMissed(f, Step(f, s, ReadPage(limit)))
  {
    var t := Step(f, s, ReadPage(limit));
    var page := PageOf(s.rows, limit, CursorOf(s), f);
    assert t.given == s.given + page.operations && t.rows == s.rows;
    forall i | 0 <= i < |t.first| && i < |t.rows| && Passed(t.cursor, i + 1) && Passes(f, t.first[i]) && Passes(f, t.rows[i])
      ensures Given(t.given, i + 1)
    {
      if s.cursor.At? && Passed(s.cursor, i + 1) {
        assert Given(s.given, i + 1);
        var op :| op in s.given && op.id == i + 1;
        assert op in t.given;
      } else {
        PageHasRow(s.rows, limit, CursorOf(s), f, i);
        assert s.rows[i] in t.given;
      }
    }
  }

  lemma {:induction false} WalksAreSound(f: Filter, rows: seq<Operation>, events: seq<Event>)
    requires Numbered(rows)
    ensures Sound(f, Run(f, rows, events)) && NothingMissed(f, Run(f, rows, events))
  {
    if events != [] {
      var s, last := Run(f, rows, events[..|events| - 1]), events[|events| - 1];
      WalksAreSound(f, rows, events[..|events| - 1]);
      if !last.ReadPage? {
        ChangesKeepSound(f, s, last);
      } else if !s.cursor.Finished? {
        ReadingKeepsSound(f, s, last.limit);
        ReadingMissesNothing(f, s, last.limit);
      }
    }
  }

  /**
   A finished walk was given, in descending order and so at most once each, only records of the
   journal at its first page; and every one that matched then and matches still.  Without an outcome
   filter these are all the matching ones, for matching cannot change.
   */
  lemma WalksReturnEachOnce(f: Filter, rows: seq<Operation>, events: seq<Event>, id: nat)
    requires Numbered(rows) && Run(f, rows, events).cursor.Finished?
    ensures var s := Run(f, rows, events);
            && Descending(s.given)
            && (Given(s.given, id) ==> 1 <= id <= |s.first|)
            && (1 <= id <= |s.first| && id <= |s.rows| && Passes(f, s.first[id - 1]) && Passes(f, s.rows[id - 1]) ==> Given(s.given, id))
            && (f.outcome.None? && 1 <= id <= |s.first| ==> (Given(s.given, id) <==> Passes(f, s.first[id - 1])))
  {
    WalksAreSound(f, rows, events);
    var s := Run(f, rows, events);
    if Given(s.given, id) {
      var op :| op in s.given && op.id == id;
      assert SoundRow(f, s, op);
    }
  }

  ghost function Pages(events: seq<Event>): nat {
    if events == [] then 0
    else Pages(events[..|events| - 1]) + if events[|events| - 1].ReadPage? then 1 else 0
  }

  lemma {:induction false} DescendingFits(ops: seq<Operation>, top: nat)
    requires Descending(ops) && forall op :: op in ops ==> 1 <= op.id <= top
    ensures |ops| <= top
    decreases |ops|
  {
    if ops != [] {
      var rest := ops[1..];
      assert ops[0] in ops;
      forall op | op in rest
        ensures 1 <= op.id <= ops[0].id - 1
      {
        var k :| 0 <= k < |rest| && rest[k] == op;
        assert op == ops[k + 1];
      }
      DescendingFits(rest, ops[0].id - 1);
    }
  }

  lemma {:induction false} PagesAreNotEmpty(f: Filter, rows: seq<Operation>, events: seq<Event>)
    requires Numbered(rows) && !Run(f, rows, events).cursor.Finished?
    ensures Pages(events) <= |Run(f, rows, events).given|
  {
    if events != [] {
      PagesAreNotEmpty(f, rows, events[..|events| - 1]);
    }
  }

  /** However the journal grows meanwhile, a walk ends with at most one page more than it began with records. */
  lemma WalksEnd(f: Filter, rows: seq<Operation>, events: seq<Event>)
    requires Numbered(rows) && Pages(events) > |Run(f, rows, events).first|
    ensures Run(f, rows, events).cursor.Finished?
  {
    var s := Run(f, rows, events);
    if !s.cursor.Finished? {
      WalksAreSound(f, rows, events);
      PagesAreNotEmpty(f, rows, events);
      forall op | op in s.given
        ensures 1 <= op.id <= |s.first|
      {
        assert SoundRow(f, s, op);
      }
      DescendingFits(s.given, |s.first|);
    }
  }
}
