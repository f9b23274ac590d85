/**
 Contiguous review of a proposal diff (api/wiktionary_mcp.py): chunks of one exact diff are
 handed out under a token, in order and before a deadline, to any number of readers at once.
 */
module DiffReview {
  import opened Wrappers

  const MAX_EVIDENCE_CHUNK_CHARACTERS: nat := 6000
  const DIFF_REVIEW_VALIDITY_SECONDS: real := 600.0

  type Token = string

  /** SHA-256 is any function; where a result needs it, one without collisions. */
  type Digest = string -> string

  ghost predicate Injective(sha: Digest) {
    forall a, b :: sha(a) == sha(b) ==> a == b
  }

  datatype Error =
    | NegativeOffset | BadLimit | BeyondTheEnd
    | InvalidDiff | InvalidDiffHash | InvalidIdentifiers
    | UnexpectedToken | TokenRequired | NotContiguous

  // ---------------------------------------------------------------- one chunk

  datatype Chunk = Chunk(text: string, offset: nat, next: Option<nat>, total: nat, complete: bool, sha: string)

  function ChunkText(sha: Digest, value: string, offset: int, limit: int): Result<Chunk, Error> {
    if offset < 0 then Err(NegativeOffset)
    else if !(1 <= limit <= MAX_EVIDENCE_CHUNK_CHARACTERS) then Err(BadLimit)
    else if offset > |value| || (value != "" && offset == |value|) then Err(BeyondTheEnd)
    else
      var end := if |value| < offset + limit then |value| else offset + limit;
      Ok(Chunk(value[offset..end], offset, if end < |value| then Some(end) else None,
               |value|, end == |value|, sha(value)))
  }

  /** A stored proposal as the service returns it; fields may be missing or of the wrong type (None). */
  datatype Proposal = Proposal(id: Option<string>, digest: Option<string>, diffHash: Option<string>, diff: Option<string>)

  function ProposalChunk(sha: Digest, proposal: Proposal, offset: int, limit: int): Result<Chunk, Error> {
    match proposal.diff
    case None => Err(InvalidDiff)
    case Some(diff) =>
      match ChunkText(sha, diff, offset, limit)
      case Err(e) => Err(e)
      case Ok(chunk) =>
        if proposal.diffHash.Some? && proposal.diffHash.value != chunk.sha then Err(InvalidDiffHash) else Ok(chunk)
  }

  // ---------------------------------------------------------------- recorded progress

  /** Which review a token stands for. */
  datatype Subject = Subject(service: nat, id: string, digest: string, diffHash: string)

  datatype Progress = Progress(subject: Subject, next: Option<nat>, deadline: real)

  predicate Present(field: Option<string>) { field.Some? && field.value != "" }

  predicate Identified(p: Proposal) { Present(p.id) && Present(p.digest) && Present(p.diffHash) }

  function SubjectOf(service: nat, p: Proposal): Subject
    requires Identified(p)
  {
    Subject(service, p.id.value, p.digest.value, p.diffHash.value)
  }

  function Live(progress: map<Token, Progress>, now: real): map<Token, Progress> {
    map t | t in progress && progress[t].deadline > now :: progress[t]
  }

  /** One tool call: what was asked, with the clock and the random token it would draw. */
  datatype Call = Call(service: nat, proposal: Proposal, offset: int, limit: int, token: Option<Token>, now: real, drawn: Token)

  /** The progress table after a read was recorded, and the token it is recorded under. */
  function Record(progress: map<Token, Progress>, call: Call, chunk: Chunk): (map<Token, Progress>, Result<Token, Error>) {
    if !Identified(call.proposal) then (progress, Err(InvalidIdentifiers)) else
    var live := Live(progress, call.now);
    var subject := SubjectOf(call.service, call.proposal);
    if chunk.offset == 0 then
      if call.token.Some? then (live, Err(UnexpectedToken))
      else (live[call.drawn := Progress(subject, chunk.next, call.now + DIFF_REVIEW_VALIDITY_SECONDS)], Ok(call.drawn))
    else if call.token.None? then (live, Err(TokenRequired))
    else if !(call.token.value in live && live[call.token.value].subject == subject &&
              live[call.token.value].next == Some(chunk.offset)) then (live, Err(NotContiguous))
    else (live[call.token.value := Progress(subject, chunk.next, live[call.token.value].deadline)], Ok(call.token.value))
  }

  /** A chunk that was handed out: under which token, of which diff, when. */
  datatype Read = Read(token: Token, subject: Subject, diff: string, chunk: Chunk, at: real)

  datatype State = State(progress: map<Token, Progress>, given: seq<Read>)

  function Step(sha: Digest, s: State, call: Call): State {
    match ProposalChunk(sha, call.proposal, call.offset, call.limit)
    case Err(_) => s
    case Ok(chunk) =>
      match Record(s.progress, call, chunk)
      case (progress, Err(_)) => State(progress, s.given)
      case (progress, Ok(token)) =>
        State(progress, s.given + [Read(token, SubjectOf(call.service, call.proposal), call.proposal.diff.value, chunk, call.now)])
  }

  function Run(sha: Digest, calls: seq<Call>): State {
    if calls == [] then State(map[], []) else Step(sha, Run(sha, calls[..|calls| - 1]), calls[|calls| - 1])
  }

  /** The clock is monotonic and a drawn token was never drawn before. */
  ghost predicate Plausible(calls: seq<Call>) {
    forall i, j :: 0 <= i < j < |calls| ==> calls[i].now <= calls[j].now && calls[i].drawn != calls[j].drawn
  }

  // ---------------------------------------------------------------- the process-wide table

  class Reviews {
    var progress: map<Token, Progress>
    ghost var given: seq<Read>

    constructor ()
      ensures progress == map[] && given == []
    {
      progress, given := map[], [];
    }

    ghost function Current(): State reads this { State(progress, given) }

    method Purge(now: real)
      modifies this`progress
      ensures progress == Live(old(progress), now)
    {
      var expired := set t | t in progress && progress[t].deadline <= now;
      while expired != {}
        invariant forall t :: t in expired ==> t in old(progress) && old(progress)[t].deadline <= now
        invariant forall t :: t in progress <==> t in old(progress) && (old(progress)[t].deadline <= now ==> t in expired)
        invariant forall t :: t in progress ==> progress[t] == old(progress)[t]
        decreases expired
      {
        var token :| token in expired;
        progress := progress - {token};
        expired := expired - {token};
      }
    }

    method RecordDiffReview(call: Call, chunk: Chunk) returns (r: Result<Token, Error>)
      modifies this`progress
      ensures (progress, r) == Record(old(progress), call, chunk)
      ensures !Identified(call.proposal) ==> r == Err(InvalidIdentifiers) && progress == old(progress)
      ensures Identified(call.proposal) && chunk.offset == 0 ==>
                r == if call.token.None? then Ok(call.drawn) else Err(UnexpectedToken)
      ensures Identified(call.proposal) && chunk.offset > 0 ==>
                && (call.token.None? ==> r == Err(TokenRequired))
                && (call.token.Some? ==>
                      var t := call.token.value;
                      r == if t in old(progress) && old(progress)[t].deadline > call.now && old(progress)[t].next == Some(chunk.offset)
                              && old(progress)[t].subject == SubjectOf(call.service, call.proposal)
                           then Ok(t) else Err(NotContiguous))
      // The token answered stands for the next place until its deadline, which is set at the beginning.
      ensures r.Ok? ==> && r.value in progress && progress[r.value].next == chunk.next
                        && progress[r.value].subject == SubjectOf(call.service, call.proposal)
                        && progress[r.value].deadline == (if chunk.offset == 0 then call.now + DIFF_REVIEW_VALIDITY_SECONDS else old(progress)[r.value].deadline)
    {
      if !Identified(call.proposal) {
        return Err(InvalidIdentifiers);
      }
      var subject := SubjectOf(call.service, call.proposal);
      Purge(call.now);
      var token, deadline := call.drawn, call.now + DIFF_REVIEW_VALIDITY_SECONDS;
      if chunk.offset == 0 {
        if call.token.Some? {
          return Err(UnexpectedToken);
        }
      } else {
        if call.token.None? {
          return Err(TokenRequired);
        }
        token := call.token.value;
        if token !in progress || progress[token].subject != subject || progress[token].next != Some(chunk.offset) {
          return Err(NotContiguous);
        }
        deadline := progress[token].deadline;
      }
      progress := progress[token := Progress(subject, chunk.next, deadline)];
      return Ok(token);
    }

    /** One atomic step of the run; an answer is exactly the read it adds. */
    method GetWiktionaryFixProposal(sha: Digest, call: Call) returns (r: Result<(Chunk, Token), Error>)
      modifies this
      ensures Current() == Step(sha, old(Current()), call)
      ensures r.Ok? ==> |given| == |old(given)| + 1 && given[|old(given)|].chunk == r.value.0 && given[|old(given)|].token == r.value.1
      ensures r.Err? ==> given == old(given) && progress.Keys <= old(progress).Keys
    {
      var result := ProposalChunk(sha, call.proposal, call.offset, call.limit);
      if result.Err? {
        return Err(result.error);
      }
      var token := RecordDiffReview(call, result.value);
      if token.Err? {
        return Err(token.error);
      }
      given := given + [Read(token.value, SubjectOf(call.service, call.proposal), call.proposal.diff.value, result.value, call.now)];
      return Ok((result.value, token.value));
    }
  }

  // ---------------------------------------------------------------- the reads under one token

  ghost function Under(given: seq<Read>, t: Token): seq<Read> {
    if given == [] then []
    else Under(given[..|given| - 1], t) + (if given[|given| - 1].token == t then [given[|given| - 1]] else [])
  }

  ghost function Joined(given: seq<Read>): string {
    if given == [] then "" else Joined(given[..|given| - 1]) + given[|given| - 1].chunk.text
  }

  /** How far into the diff a review has come. */
  ghost function Reached(given: seq<Read>): nat {
    if given == [] then 0 else given[|given| - 1].chunk.offset + |given[|given| - 1].chunk.text|
  }

  ghost predicate Follows(given: seq<Read>, i: nat)
    requires i + 1 < |given|
  {
    given[i].chunk.next == Some(given[i + 1].chunk.offset)
  }

  /**
   The reads of one review: all of one diff, together a prefix of it, the whole of it exactly when
   the last one says so; each before the deadline set at the first; none empty unless the diff is,
   so at most one for each character.
   */
  ghost predicate Contiguous(sha: Digest, given: seq<Read>, diff: string) {
    && (forall i :: 0 <= i < |given| ==> given[i].diff == diff && given[i].subject == given[0].subject)
    && (given != [] ==> given[0].chunk.offset == 0)
    && (forall i :: 0 <= i < |given| - 1 ==> Follows(given, i))
    && Reached(given) <= |diff|
    && Joined(given) == diff[..Reached(given)]
    && |given| <= (if diff == "" then 1 else Reached(given))
    && Reached(given) <= |given| * MAX_EVIDENCE_CHUNK_CHARACTERS
    && (given != [] ==>
      && given[0].subject.diffHash == sha(diff)
      && given[|given| - 1].chunk.next == (if Reached(given) == |diff| then None else Some(Reached(given))))
    && (forall i :: 0 <= i < |given| ==> given[0].at <= given[i].at < given[0].at + DIFF_REVIEW_VALIDITY_SECONDS)
  }

  ghost function DiffOf(given: seq<Read>): string {
    if given == [] then "" else given[0].diff
  }

  /** What the table remembers of a review is its subject, its next offset and its deadline. */
  ghost predicate Remembers(p: Progress, given: seq<Read>) {
    && given != []
    && p.subject == given[0].subject
    && p.next == given[|given| - 1].chunk.next
    && p.deadline == given[0].at + DIFF_REVIEW_VALIDITY_SECONDS
  }

  ghost predicate AllContiguous(sha: Digest, given: seq<Read>) {
    forall t {:trigger Under(given, t)} :: Contiguous(sha, Under(given, t), DiffOf(Under(given, t)))
  }

  ghost predicate TableRemembers(s: State) {
    forall t :: t in s.progress ==> Remembers(s.progress[t], Under(s.given, t))
  }

  ghost predicate ReviewsContiguous(sha: Digest, s: State) {
    AllContiguous(sha, s.given) && TableRemembers(s)
  }

  lemma {:induction false} UnderKeepsTokens(given: seq<Read>, t: Token)
    ensures Under(given, t) != [] ==> exists i :: 0 <= i < |given| && given[i].token == t
  {
    if given != [] {
      var before := given[..|given| - 1];
      UnderKeepsTokens(before, t);
      if given[|given| - 1].token != t && Under(before, t) != [] {
        var i :| 0 <= i < |before| && before[i].token == t;
        assert given[i].token == t;
      }
    }
  }

  ghost predicate ReadsChunk(sha: Digest, read: Read) {
    && read.subject.diffHash == sha(read.diff)
    && var c := read.chunk;
       var end := c.offset + |c.text|;
       && end <= |read.diff| && c.text == read.diff[c.offset..end]
       && |c.text| <= MAX_EVIDENCE_CHUNK_CHARACTERS && (c.text == "" ==> read.diff == "")
       && c.total == |read.diff| && c.complete == (end == |read.diff|) && c.sha == sha(read.diff)
       && c.next == if end == |read.diff| then None else Some(end)
  }

  lemma ChunksRead(sha: Digest, call: Call, chunk: Chunk, token: Token)
    requires ProposalChunk(sha, call.proposal, call.offset, call.limit) == Ok(chunk) && Identified(call.proposal)
    ensures ReadsChunk(sha, Read(token, SubjectOf(call.service, call.proposal), call.proposal.diff.value, chunk, call.now))
  {
  }

  lemma ReviewStarts(sha: Digest, read: Read)
    requires ReadsChunk(sha, read) && read.chunk.offset == 0
    ensures Contiguous(sha, [read], read.diff)
  {
    assert Joined([read][..0]) == "";
  }

  lemma ReviewContinues(sha: Digest, given: seq<Read>, read: Read)
    requires Injective(sha) && Contiguous(sha, given, DiffOf(given)) && given != [] && ReadsChunk(sha, read)
    requires read.subject == given[0].subject && given[|given| - 1].chunk.next == Some(read.chunk.offset)
    requires given[|given| - 1].at <= read.at < given[0].at + DIFF_REVIEW_VALIDITY_SECONDS
    ensures Contiguous(sha, given + [read], DiffOf(given))
  {
    var diff, more := DiffOf(given), given + [read];
    assert read.diff == diff;
    assert more[..|more| - 1] == given;
    forall i | 0 <= i < |more| - 1
      ensures Follows(more, i)
    {
      assert i < |given| - 1 ==> Follows(given, i);
    }
    assert diff[..Reached(more)] == diff[..Reached(given)] + read.chunk.text;
  }

  /** Apart from one token, the table only loses reviews whose deadline has passed. */
  ghost predicate KeepsLive(before: map<Token, Progress>, after: map<Token, Progress>, now: real, except: Option<Token>) {
    && (forall t :: t in after && Some(t) != except ==> t in before && after[t] == before[t])
    && (forall t :: t in before && before[t].deadline > now ==> t in after)
  }

  ghost predicate Quiet(s: State, call: Call, after: State) {
    after.given == s.given && KeepsLive(s.progress, after.progress, call.now, None)
  }

  /** A read starts a review under a new token, or continues the review its token stands for. */
  ghost predicate Added(s: State, call: Call, after: State, read: Read) {
    && after.given == s.given + [read] && read.at == call.now
    && KeepsLive(s.progress, after.progress, call.now, Some(read.token))
    && read.token in after.progress
    && var p := after.progress[read.token];
       && p.subject == read.subject && p.next == read.chunk.next
       && if read.chunk.offset == 0 then read.token == call.drawn && p.deadline == call.now + DIFF_REVIEW_VALIDITY_SECONDS
          else
            && read.token in s.progress
            && s.progress[read.token] == Progress(read.subject, Some(read.chunk.offset), p.deadline)
            && call.now < p.deadline
  }

  lemma StepOutcome(sha: Digest, s: State, call: Call)
    ensures var after := Step(sha, s, call);
            Quiet(s, call, after) ||
            (exists read :: Added(s, call, after, read) && ReadsChunk(sha, read))
  {
    var after := Step(sha, s, call);
    if |after.given| > |s.given| {
      var read := after.given[|s.given|];
      ChunksRead(sha, call, read.chunk, read.token);
      assert Added(s, call, after, read);
    }
  }

  ghost predicate Times(s: State, now: real, drawn: Token) {
    forall i :: 0 <= i < |s.given| ==> s.given[i].at <= now && s.given[i].token != drawn
  }

  lemma {:induction false} UnderKeepsTimes(given: seq<Read>, t: Token, now: real)
    requires forall i :: 0 <= i < |given| ==> given[i].at <= now
    ensures forall i :: 0 <= i < |Under(given, t)| ==> Under(given, t)[i].at <= now
  {
    if given != [] {
      UnderKeepsTimes(given[..|given| - 1], t, now);
    }
  }

  lemma UnderAdds(given: seq<Read>, read: Read, t: Token)
    ensures Under(given + [read], t) == if t == read.token then Under(given, t) + [read] else Under(given, t)
  {
    assert (given + [read])[..|given|] == given;
  }

  lemma ReadAdds(sha: Digest, given: seq<Read>, read: Read)
    requires AllContiguous(sha, given)
    requires var mine := Under(given, read.token) + [read]; Contiguous(sha, mine, DiffOf(mine))
    ensures AllContiguous(sha, given + [read])
  {
    forall t
      ensures Contiguous(sha, Under(given + [read], t), DiffOf(Under(given + [read], t)))
    {
      UnderAdds(given, read, t);
      var before := Under(given, t);
      assert Contiguous(sha, before, DiffOf(before));
    }
  }

  /** The read a call adds fits its review. */
  lemma AddedReadFits(sha: Digest, s: State, call: Call, after: State, read: Read)
    requires Injective(sha) && ReviewsContiguous(sha, s) && Times(s, call.now, call.drawn)
    requires Added(s, call, after, read) && ReadsChunk(sha, read)
    ensures var mine := Under(s.given, read.token) + [read]; Contiguous(sha, mine, DiffOf(mine))
  {
    var mine := Under(s.given, read.token);
    if read.chunk.offset == 0 {
      UnderKeepsTokens(s.given, call.drawn);
      ReviewStarts(sha, read);
      assert mine + [read] == [read];
    } else {
      assert Remembers(s.progress[read.token], mine);
      UnderKeepsTimes(s.given, read.token, call.now);
      ReviewContinues(sha, mine, read);
    }
  }

  lemma AddedRemembers(s: State, call: Call, after: State, read: Read, t: Token)
    requires TableRemembers(s) && Under(s.given, call.drawn) == []
    requires Added(s, call, after, read) && t in after.progress
    ensures Remembers(after.progress[t], Under(after.given, t))
  {
    UnderAdds(s.given, read, t);
    if t != read.token || read.chunk.offset != 0 {
      assert Remembers(s.progress[t], Under(s.given, t));
    }
  }

  lemma StepKeepsReviews(sha: Digest, s: State, call: Call)
    requires Injective(sha) && ReviewsContiguous(sha, s) && Times(s, call.now, call.drawn)
    ensures ReviewsContiguous(sha, Step(sha, s, call))
  {
    var after := Step(sha, s, call);
    StepOutcome(sha, s, call);
    if !Quiet(s, call, after) {
      var read :| Added(s, call, after, read) && ReadsChunk(sha, read);
      AddedReadFits(sha, s, call, after, read);
      ReadAdds(sha, s.given, read);
      UnderKeepsTokens(s.given, call.drawn);
      forall t | t in after.progress
        ensures Remembers(after.progress[t], Under(after.given, t))
      {
        AddedRemembers(s, call, after, read, t);
      }
    }
  }

  lemma StepKeepsTimes(sha: Digest, s: State, call: Call, next: Call)
    requires TableRemembers(s) && Times(s, next.now, next.drawn)
    requires call.now <= next.now && call.drawn != next.drawn
    ensures Times(Step(sha, s, call), next.now, next.drawn)
  {
    var after := Step(sha, s, call);
    StepOutcome(sha, s, call);
    if !Quiet(s, call, after) {
      var read :| Added(s, call, after, read);
      UnderKeepsTokens(s.given, read.token);
    }
  }

  /** A review stays in the table until its deadline. */
  ghost predicate Retained(s: State, now: real) {
    forall t {:trigger Under(s.given, t)} ::
      Under(s.given, t) != [] && now < Under(s.given, t)[0].at + DIFF_REVIEW_VALIDITY_SECONDS ==> t in s.progress
  }

  lemma StepRetains(sha: Digest, s: State, call: Call)
    requires TableRemembers(s) && Retained(s, call.now)
    ensures Retained(Step(sha, s, call), call.now)
  {
    var after := Step(sha, s, call);
    StepOutcome(sha, s, call);
    if !Quiet(s, call, after) {
      var read :| Added(s, call, after, read);
      forall t | Under(after.given, t) != [] && call.now < Under(after.given, t)[0].at + DIFF_REVIEW_VALIDITY_SECONDS
        ensures t in after.progress
      {
        UnderAdds(s.given, read, t);
        assert t != read.token ==> Remembers(s.progress[t], Under(s.given, t));
      }
    } else {
      forall t | Under(after.given, t) != [] && call.now < Under(after.given, t)[0].at + DIFF_REVIEW_VALIDITY_SECONDS
        ensures t in after.progress
      {
        assert Remembers(s.progress[t], Under(s.given, t));
      }
    }
  }

  lemma {:induction false} RunKeepsReviews(sha: Digest, calls: seq<Call>, next: Call)
    requires Injective(sha) && Plausible(calls + [next])
    ensures ReviewsContiguous(sha, Run(sha, calls)) && Times(Run(sha, calls), next.now, next.drawn)
    ensures Retained(Run(sha, calls), next.now)
    decreases |calls|
  {
    if calls != [] {
      var before, last := calls[..|calls| - 1], calls[|calls| - 1];
      assert before + [last] == calls;
      PlausiblePrefixes(before, last, next);
      RunKeepsReviews(sha, before, last);
      RunKeepsReviews(sha, before, next);
      StepKeepsReviews(sha, Run(sha, before), last);
      StepKeepsTimes(sha, Run(sha, before), last, next);
      StepRetains(sha, Run(sha, before), last);
    }
  }

  lemma PlausiblePrefixes(before: seq<Call>, last: Call, next: Call)
    requires Plausible(before + [last] + [next])
    ensures Plausible(before + [last]) && Plausible(before + [next])
    ensures last.now <= next.now && last.drawn != next.drawn
  {
    var all, n := before + [last] + [next], |before|;
    assert all[n] == last && all[n + 1] == next;
    assert forall i :: 0 <= i < n ==> all[i] == before[i] == (before + [last])[i] == (before + [next])[i];
  }

  // ---------------------------------------------------------------- what a review has read

  /**
   Over any interleaving of readers, the chunks handed out under one token are, in order and without
   gap or repetition, one prefix of one diff.
   */
  lemma ReviewsReadOneDiff(sha: Digest, calls: seq<Call>, t: Token)
    requires Injective(sha) && Plausible(calls)
    ensures var given := Under(Run(sha, calls).given, t);
            Contiguous(sha, given, DiffOf(given))
  {
    var drawn := UndrawnToken(calls);
    var next := Call(0, Proposal(None, None, None, None), 0, 1, None, if calls == [] then 0.0 else calls[|calls| - 1].now, drawn);
    LaterCallIsPlausible(calls, next);
    RunKeepsReviews(sha, calls, next);
  }

  lemma {:induction false} UndrawnToken(calls: seq<Call>) returns (t: Token)
    ensures forall i :: 0 <= i < |calls| ==> |calls[i].drawn| < |t|
  {
    t := "t";
    if calls != [] {
      var last := calls[|calls| - 1];
      t := UndrawnToken(calls[..|calls| - 1]);
      t := t + last.drawn + "t";
      assert forall i :: 0 <= i < |calls| - 1 ==> calls[i] == calls[..|calls| - 1][i];
    }
  }

  lemma LaterCallIsPlausible(calls: seq<Call>, next: Call)
    requires Plausible(calls)
    requires forall i :: 0 <= i < |calls| ==> |calls[i].drawn| < |next.drawn|
    requires calls != [] ==> calls[|calls| - 1].now <= next.now
    ensures Plausible(calls + [next])
  {
    var all := calls + [next];
    forall i, j | 0 <= i < j < |all|
      ensures all[i].now <= all[j].now && all[i].drawn != all[j].drawn
    {
      assert all[i] == calls[i];
      if j < |calls| {
        assert all[j] == calls[j];
      } else {
        assert i < |calls| - 1 ==> calls[i].now <= calls[|calls| - 1].now;
      }
    }
  }

  lemma OnlyLastEnds(given: seq<Read>, i: nat)
    requires i < |given| && given[i].chunk.next == None
    requires forall k :: 0 <= k < |given| - 1 ==> Follows(given, k)
    ensures i == |given| - 1
  {
    assert i < |given| - 1 ==> Follows(given, i);
  }

  lemma EndReadsAll(sha: Digest, given: seq<Read>, diff: string)
    requires Contiguous(sha, given, diff) && given != [] && given[|given| - 1].chunk.next == None
    ensures Joined(given) == diff
  {
    assert Reached(given) == |diff|;
    assert diff[..|diff|] == diff;
  }

  /** The last chunk of a review completes the diff, and nothing is handed out after it. */
  lemma CompletedReviewsReadAll(sha: Digest, given: seq<Read>, i: nat)
    requires Contiguous(sha, given, DiffOf(given)) && i < |given| && given[i].chunk.next == None
    ensures i == |given| - 1 && Joined(given) == DiffOf(given)
  {
    OnlyLastEnds(given, i);
    EndReadsAll(sha, given, DiffOf(given));
  }

  /** A review that has not come to the end may go on at the place it has reached. */
  lemma FollowingIsAnswerable(sha: Digest, given: seq<Read>, call: Call)
    requires call.token.Some? && Under(given, call.token.value) != []
    requires var mine := Under(given, call.token.value);
             && Contiguous(sha, mine, DiffOf(mine))
             && mine[|mine| - 1].chunk.next == Some(call.offset)
             && call.now < mine[0].at + DIFF_REVIEW_VALIDITY_SECONDS
             && Identified(call.proposal) && SubjectOf(call.service, call.proposal) == mine[0].subject
             && call.proposal.diff == Some(DiffOf(mine))
             && 1 <= call.limit <= MAX_EVIDENCE_CHUNK_CHARACTERS
    ensures Answerable(sha, given, call) && call.offset > 0
  {
  }

  function ChunkOf(sha: Digest, diff: string, offset: nat, limit: nat): Chunk
    requires offset <= |diff|
  {
    var end := if offset + limit < |diff| then offset + limit else |diff|;
    Chunk(diff[offset..end], offset, if end == |diff| then None else Some(end), |diff|, end == |diff|, sha(diff))
  }

  /**
   When a call is answered, in terms of what was handed out before: a sound proposal, a limit in range, and
   either the beginning without a token, or the place that the review under the token has reached, before its
   deadline and short of the end.
   */
  ghost predicate Answerable(sha: Digest, given: seq<Read>, call: Call) {
    && Identified(call.proposal) && call.proposal.diff.Some?
    && call.proposal.diffHash == Some(sha(call.proposal.diff.value)) && 1 <= call.limit <= MAX_EVIDENCE_CHUNK_CHARACTERS
    && if call.offset == 0 then call.token.None?
       else
         && call.token.Some?
         && var mine := Under(given, call.token.value);
            && mine != [] && mine[0].subject == SubjectOf(call.service, call.proposal)
            && call.now < mine[0].at + DIFF_REVIEW_VALIDITY_SECONDS
            && call.offset == Reached(mine) < |call.proposal.diff.value|
  }

  /** The read that answers it: exactly the next characters, up to the limit, under the token drawn or given. */
  ghost function AnswerOf(sha: Digest, call: Call): Read
    requires Identified(call.proposal) && call.proposal.diff.Some? && 0 <= call.offset <= |call.proposal.diff.value| && call.limit >= 0
    requires call.offset > 0 ==> call.token.Some?
  {
    Read(if call.offset == 0 then call.drawn else call.token.value, SubjectOf(call.service, call.proposal),
         call.proposal.diff.value, ChunkOf(sha, call.proposal.diff.value, call.offset, call.limit), call.now)
  }

  /** Chunks are cut exactly, and only from sound proposals. */
  lemma ProposalChunkIff(sha: Digest, p: Proposal, offset: int, limit: int)
    requires Identified(p)
    ensures var r := ProposalChunk(sha, p, offset, limit);
            && (r.Ok? <==> p.diff.Some? && p.diffHash == Some(sha(p.diff.value)) && 1 <= limit <= MAX_EVIDENCE_CHUNK_CHARACTERS
                           && (0 <= offset < |p.diff.value| || (offset == 0 && p.diff.value == "")))
            && (r.Ok? ==> r.value == ChunkOf(sha, p.diff.value, offset, limit))
  {
  }

  /** Why a chunk is refused, the first reason counting. */
  lemma RefusalsAre(sha: Digest, p: Proposal, offset: int, limit: int)
    ensures var r := ProposalChunk(sha, p, offset, limit);
            && (p.diff.None? ==> r == Err(InvalidDiff))
            && (p.diff.Some? && offset < 0 ==> r == Err(NegativeOffset))
            && (p.diff.Some? && offset >= 0 && (limit < 1 || limit > 6000) ==> r == Err(BadLimit))
            && (p.diff.Some? && 1 <= limit <= 6000 && offset >= 0 ==>
                  var n := |p.diff.value|;
                  if offset > n || (offset == n && n > 0) then r == Err(BeyondTheEnd)
                  else p.diffHash.Some? && p.diffHash.value != sha(p.diff.value) ==> r == Err(InvalidDiffHash))
  {
  }

  /** A proposal is identified by three texts that are there and not empty. */
  lemma IdentifiedIff(p: Proposal)
    ensures Identified(p) <==> p.id.Some? && p.digest.Some? && p.diffHash.Some? && |p.id.value| > 0 && |p.digest.value| > 0 && |p.diffHash.value| > 0
  {
  }

  /** The table stands for what was handed out: a review is remembered until its deadline, with the place it has reached. */
  lemma RecordedIff(sha: Digest, s: State, call: Call, chunk: Chunk)
    requires Injective(sha) && ReviewsContiguous(sha, s) && Retained(s, call.now) && Identified(call.proposal)
    requires call.proposal.diff.Some? && call.proposal.diffHash == Some(sha(call.proposal.diff.value))
    requires chunk.offset > 0 && call.token.Some?
    ensures var mine := Under(s.given, call.token.value);
            Record(s.progress, call, chunk).1.Ok? <==>
            && mine != [] && mine[0].subject == SubjectOf(call.service, call.proposal)
            && call.now < mine[0].at + DIFF_REVIEW_VALIDITY_SECONDS
            && chunk.offset == Reached(mine) < |call.proposal.diff.value|
  {
    var t := call.token.value;
    var mine := Under(s.given, t);
    assert Contiguous(sha, mine, DiffOf(mine));
    if t in s.progress {
      assert Remembers(s.progress[t], mine);
      assert mine[0].subject == SubjectOf(call.service, call.proposal) ==> DiffOf(mine) == call.proposal.diff.value;
    }
  }

  /** After any plausible run, a call is answered exactly if it is answerable, and then with exactly its chunk. */
  lemma AnsweredIff(sha: Digest, calls: seq<Call>, call: Call)
    requires Injective(sha) && Plausible(calls + [call])
    ensures var s, after := Run(sha, calls), Step(sha, Run(sha, calls), call);
            after.given == if Answerable(sha, s.given, call) then s.given + [AnswerOf(sha, call)] else s.given
  {
    RunKeepsReviews(sha, calls, call);
    var s := Run(sha, calls);
    if Identified(call.proposal) {
      ProposalChunkIff(sha, call.proposal, call.offset, call.limit);
      var r := ProposalChunk(sha, call.proposal, call.offset, call.limit);
      if r.Ok? && r.value.offset > 0 && call.token.Some? {
        RecordedIff(sha, s, call, r.value);
      }
    }
  }

  /** In particular a review can always begin: its first chunk is handed out under the token drawn. */
  lemma ReviewsBegin(sha: Digest, calls: seq<Call>, call: Call)
    requires Injective(sha) && Plausible(calls + [call])
    requires call.offset == 0 && call.token.None? && Identified(call.proposal) && 1 <= call.limit <= MAX_EVIDENCE_CHUNK_CHARACTERS
    requires call.proposal.diff.Some? && call.proposal.diffHash == Some(sha(call.proposal.diff.value))
    ensures var diff, mine := call.proposal.diff.value, Under(Step(sha, Run(sha, calls), call).given, call.drawn);
            && |mine| == 1 && mine[0].diff == diff && mine[0].at == call.now
            && mine[0].chunk.text == diff[..if call.limit < |diff| then call.limit else |diff|]
  {
    AnsweredIff(sha, calls, call);
    RunKeepsReviews(sha, calls, call);
    UnderAdds(Run(sha, calls).given, AnswerOf(sha, call), call.drawn);
    UnderKeepsTokens(Run(sha, calls).given, call.drawn);
  }

  /** An answered call takes its review further, by exactly its chunk. */
  lemma AnswerLengthens(sha: Digest, given: seq<Read>, call: Call)
    requires Answerable(sha, given, call) && call.offset > 0
    ensures var diff, before := call.proposal.diff.value, Under(given, call.token.value);
            var after := Under(given + [AnswerOf(sha, call)], call.token.value);
            && before != [] && |after| == |before| + 1 && Reached(after) > Reached(before)
            && after[|before|].chunk.text == diff[call.offset..if call.offset + call.limit < |diff| then call.offset + call.limit else |diff|]
  {
    UnderAdds(given, AnswerOf(sha, call), call.token.value);
  }

  /** Until the deadline, asking for the next offset of one's own review is always answered. */
  lemma FollowingIsAnswered(sha: Digest, calls: seq<Call>, call: Call)
    requires Injective(sha) && Plausible(calls + [call]) && call.token.Some?
    requires Under(Run(sha, calls).given, call.token.value) != []
    requires var given := Under(Run(sha, calls).given, call.token.value);
             && given[|given| - 1].chunk.next == Some(call.offset)
             && call.now < given[0].at + DIFF_REVIEW_VALIDITY_SECONDS
             && Identified(call.proposal) && SubjectOf(call.service, call.proposal) == given[0].subject
             && call.proposal.diff == Some(DiffOf(given))
             && 1 <= call.limit <= MAX_EVIDENCE_CHUNK_CHARACTERS
    ensures var diff := call.proposal.diff.value;
            var before, after := Under(Run(sha, calls).given, call.token.value), Under(Step(sha, Run(sha, calls), call).given, call.token.value);
            && |after| == |before| + 1 && Reached(after) > Reached(before)
            && after[|before|].chunk.text == diff[call.offset..if call.offset + call.limit < |diff| then call.offset + call.limit else |diff|]
  {
    RunKeepsReviews(sha, calls, call);
    var s, t := Run(sha, calls), call.token.value;
    assert Contiguous(sha, Under(s.given, t), DiffOf(Under(s.given, t)));
    FollowingIsAnswerable(sha, s.given, call);
    AnsweredIff(sha, calls, call);
    AnswerLengthens(sha, s.given, call);
  }
}
