# Verification of Botjagwar's protocols and algorithms

Models in Dafny 4.11 of the parts of Botjagwar that carry invariants, with proofs of what those
parts are for. `dafny verify dfyconfig.toml` checks all of it. One module stands for one component:

| module | models |
|---|---|
| `RateLimiter` | the two Redis scripts that pace all Wikimedia requests, and their client |
| `ExceptionSources`, `ErrorObserver` | the walk over an error's causes, and what it makes of a failed request |
| `SourceTranslationWorker` | the bounded, deduplicating retry queue of source translations |
| `PageCheckWorker` | the queue of sampled page checks with its cooldown |
| `EnglishCache` | the cache of English pages kept in step with the wiki by a lagging worker |
| `QueuedEdits` | hash-guarded edits delivered at least once |
| `ViewOrder` | the dependency-first order of materialized views |
| `DiffReview` | contiguous reading of a proposal diff under a token |
| `TerminalSafe` | reversible escaping of untrusted text |
| `PageCheckTriage` | issues for failed page checks, remembered only by markers in their bodies |
| `OperationAudit` | the journal of operations and its keyset pagination |
| `CalendarPeriods` | calendar months and the reporting periods |
| `IniEditor`, `AtlasConfig`, `HaproxyNetwork` | the line editors of configuration files |
| `IniReader`, `IniReadBack`, `IniMisreads` | how configparser reads what `IniEditor` writes: the exact condition, and the files that fail it |
| `ReleaseManager` | activating, pruning and rolling back releases |
| `ServiceRendering` | rendering services from counts, and finding the counts again |
| `Wrappers`, `TextOrder`, `TextLines` | shared result types, string order, white space and letters |

## How the models are built

Protocols between threads, processes and machines are state machines. A step is what one party does
between two points where another may act (a Redis script, a section under a lock, one HTTP exchange,
one delivery), a run is any sequence of steps, and a step that is not enabled leaves the state as it
is; so every interleaving is a run and theorems about runs cover them all. Failures are part of the
steps: replies lost after an effect, workers that die, events that are dropped, keys that expire.
Objects that the program updates in place are classes; their methods are proved equal to those steps,
or to functions of the old state about which the laws are proved.

The outside enters as parameters: clocks that do not go back, random tokens and request ids that are
fresh, what fetches and posts answer. SHA-256 has no collisions where a claim needs that. Pywikibot
compares revisions, so that a refreshed get and the put after it are a compare-and-set. Microseconds
are integers, rates and seconds are reals. Lines of INI files are texts, classified as the editor's
patterns and as configparser classify them. The textual classification of a line of the Atlas, hosts and
HAProxy files (section header, mapping, bind) is a function of the line that ignores white space at its
end. A page whose text begins with #REDIRECT is a redirect, and fetching it fails.

## Where the code and its intention part

- A move can leave the wrong text in the English cache although nothing was lost: when an edit of the
  moved page is still pending and the old title is created anew (`EnglishCache.LaggingMoveDisagrees`),
  and when the entry of the moved page was stale to begin with, however promptly the move is applied
  (`EnglishCache.StaleMoveDisagrees`). `EnglishCache.MoveRightIff` is the exact condition at the move,
  `EnglishCache.DrainedCarries` that for whole lines of events, and `EnglishCache.DrainedCacheAgrees`
  what holds over all runs. Where the move leaves a redirect, an edit still pending is lost: the refresh
  does not ask for redirects (`EnglishCache.EditsBeforeRedirectAreLost`).
- The settings are loaded with configparser (supervisor_control_service.py:376-382), but set by an editor
  that looks at each line alone. A value that was set is not always the value read: indented lines,
  entries with a colon, section names in other letters and a blank end of the file come between
  (`IniMisreads`, one lemma for each). `IniReadBack.SetReadsBack` is the exact condition, and says that
  every other setting is read as before then.
- The hosts file is edited comparing names letter by letter, and read ignoring their case:
  `AtlasConfig.ResolverFinds` says exactly when the hostname keeps a second address, and
  `AtlasConfig.OtherSpellingIsOverlooked` is such a file.
- Subtracting months is monotone on dates but not on moments:
  `CalendarPeriods.SubtractionKeepsOrderUnlessClamped` says exactly when the order is lost.
- The second truncation in `build_issue` is never taken: `PageCheckTriage.BodiesFit`.
- The "no id" fallback of the translation queue is dead code:
  `SourceTranslationWorker.FallbackNeverReached`.
- The expected hash of a queued message guards edits only; for deletions the code ignores it, and so
  does the model.

## Model

| member | source | states |
|---|---|---|
| `RateLimiter.RunsArePaced` | api/wikimedia_rate_limiter.py:16-53 | In every interleaving of reservations by any clients, embargo extensions and key expiries, a start, granted or refused, lies at least the interval after every earlier grant, and not before any embargo set before it |
| `RateLimiter.StepKeepsHorizons` | api/wikimedia_rate_limiter.py:16-53 | No script run, tick or expiry brings the next free start or the end of the embargo nearer |
| `RateLimiter.EmbargoNeverShortens` | api/wikimedia_rate_limiter.py:38-53 | However a run goes on, the embargo a client can observe never ends earlier |
| `RateLimiter.StartsAreTight` | api/wikimedia_rate_limiter.py:16-36 | Nobody waits for nothing: each start granted, and each refused for lying too far ahead, is the current instant or a barrier that an earlier grant or embargo really put up |
| `RateLimiter.StartsAreExact` | api/wikimedia_rate_limiter.py:16-36 | Over every run from empty keys each reservation is offered exactly the later of now and the last barrier put up by a grant or an embargo, and is granted exactly if it need not wait for longer than its budget |
| `RateLimiter.RemainingIsExact` | api/wikimedia_rate_limiter.py:38-53 | What is reported to be left of the embargo is exactly what is left of the latest one asked for, over every run |
| `RateLimiter.KeysKeptASecond` | api/wikimedia_rate_limiter.py:33-34 | In every run a key is kept until a second after the instant it stands for, give or take a millisecond |
| `RateLimiter.BurstsAreSpaced` | api/wikimedia_rate_limiter.py:16-36 | Of reservations at one instant, those that fit the budget wait for 0, 1, 2, ... intervals, and the next one is refused |
| `RateLimiter.ExpiryIsUnobservable` | api/wikimedia_rate_limiter.py:16-53 | With deadlines from a floored millisecond clock, the expiring keys answer every script as keys that never expire would |
| `RateLimiter.IntervalLimitsCount` | api/wikimedia_rate_limiter.py:93-95 | n starts spaced by the rounded-up interval fit in a half-open minute only if n is at most the rounded-up rate |
| `RateLimiter.AtMostRatePerMinute` | api/wikimedia_rate_limiter.py:85-99 | Any half-open 60-second window of any run holds at most ceil(requests_per_minute) granted starts |
| `RateLimiter.Redis.EvalReserve` | api/wikimedia_rate_limiter.py:16-36 | The reservation script; a refused reservation changes no key |
| `RateLimiter.Redis.EvalExtend` | api/wikimedia_rate_limiter.py:38-53 | The extension script; what is left of the embargo is at least what was asked for |
| `RateLimiter.WikimediaRateLimiter.Create` | api/wikimedia_rate_limiter.py:75-99 | Settings are refused exactly when the rate is not positive, the budget negative or the key prefix empty; the interval is the least number of microseconds at which a minute's requests take a minute, the budget is rounded down |
| `RateLimiter.WikimediaRateLimiter.Acquire` | api/wikimedia_rate_limiter.py:132-160 | Succeeds exactly when the script granted: the second test of the budget never rejects what the script accepted; failures of Redis before and after the script ran |
| `RateLimiter.WikimediaRateLimiter.ExtendEmbargo` | api/wikimedia_rate_limiter.py:162-182 | Extends by the least number of microseconds that covers the delay, refuses negative ones, and reports at least the delay asked for |
| `ErrorObserver.FromSources` | api/wikimedia_rate_limiter.py:239-276 | The value found is named by a source at the least distance from the error of all that name one; none is found exactly if no reachable source names one |
| `ErrorObserver.ObserveException` | api/wikimedia_rate_limiter.py:184-206 | The embargo is extended by exactly the delay the error asks for, and untouched for forbidden, unlimited or silent errors |
| `ErrorObserver.DelayIff` | api/wikimedia_rate_limiter.py:184-206 | Only limited requests (429, 503, maxlag, or a rate-limit error) that were not forbidden (403) ask for a delay: the one named, or else the lag of a lagging server |
| `ErrorObserver.ObservedDelaysHold` | api/wikimedia_rate_limiter.py:184-206 | Once an error was observed that asks for a delay, no client is granted a start before it has passed, rounding included |
| `ExceptionSources.Sources` | api/wikimedia_rate_limiter.py:221-236 | Ends on any finite graph, cyclic or not; yields each object reachable through response, cause and context exactly once, in non-decreasing distance |
| `ExceptionSources.WalksAreSeen` | api/wikimedia_rate_limiter.py:221-236 | When nothing waits any more, every walk from the root ends at an object seen at no greater depth |
| `ExceptionSources.VisitKeepsExploring` | api/wikimedia_rate_limiter.py:224-236 | Visiting one object keeps the work list layered by depth, sound and complete |
| `SourceTranslationWorker.RunKeepsInv` | wiktionary_irc.py:266-410 | Over all interleavings at lock granularity: queued pages are distinct, the dedup set and the domain of the request ids are the queued and in-flight pages, task counts are right |
| `SourceTranslationWorker.FallbackNeverReached` | wiktionary_irc.py:390-396 | The consumer always finds the id that enqueue stored, under the open ticket of its own page |
| `SourceTranslationWorker.AttemptsBounded` | wiktionary_irc.py:346-410 | All attempts of an accepted enqueue carry its id and page, at most six of them; it ends as accepted exactly if one succeeded |
| `SourceTranslationWorker.EnqueuesAccountedFor` | wiktionary_irc.py:266-285 | Each accepted enqueue has ended, or is still queued or in flight under its id, never both |
| `SourceTranslationWorker.EndingsHaveCauses` | wiktionary_irc.py:312-388 | Accepted after a success; dropped only if the worker was told to stop; refused after a fatal answer, or a transient one with six posts made or no room to put the page back |
| `SourceTranslationWorker.EndingsAreFinal` | wiktionary_irc.py:312-344 | A ticket never changes its page and is frozen once it ended |
| `SourceTranslationWorker.FirstComeFirstPosted` | wiktionary_irc.py:266-316 | Over all interleavings the enqueues are posted for the first time exactly in the order in which they were put, and those not posted yet are the one in hand and then the rest of the queue, in order; retries never overtake them |
| `SourceTranslationWorker.StopLeadsOut` | wiktionary_irc.py:295-320 | Told to stop, the consumer comes nearer to its exit with every step of its own, whatever requests answer |
| `SourceTranslationWorker.StopEndsPosting` | wiktionary_irc.py:295-320 | After a stop, and until a restart, at most one more request goes out, and the consumer exits when it looks at the signal again |
| `SourceTranslationWorker.ExitsOnlyWhenStopped` | wiktionary_irc.py:287-320 | The consumer exits only after a stop, and after a restart goes on with the front page |
| `SourceTranslationWorker.IterationEffect` | wiktionary_irc.py:312-388 | One undisturbed pass posts the front page once under its id, and requeues it or ends it, by response, retries and stop |
| `SourceTranslationWorker.Worker.Enqueue` | wiktionary_irc.py:266-285 | A new page goes to the end of the queue under its id if there is room, and nothing changes otherwise; false exactly if it is new and the queue full; these are two steps of the machine |
| `SourceTranslationWorker.Worker.Submit` | wiktionary_irc.py:390-410 | Looks up the id under the lock and posts under it |
| `SourceTranslationWorker.Worker.Retry` | wiktionary_irc.py:346-388 | Counts, waits and requeues unless limit, stop or full queue forbid it |
| `SourceTranslationWorker.Worker.RunOnce` | wiktionary_irc.py:312-344 | One pass of the loop, as the machine takes it |
| `PageCheckWorker.RunKeepsQueue` | wiktionary_irc.py:105-230 | Although put precedes the set insertion: no title is queued twice, one accepted enqueue causes at most six submits, unfinished tasks are the queued and in-progress items |
| `PageCheckWorker.SubmissionsAreSpaced` | wiktionary_irc.py:208-226 | Every submission comes at least the cooldown read last after the one before |
| `PageCheckWorker.FirstComeFirstServed` | wiktionary_irc.py:105-174 | Over all interleavings, enqueues are submitted for the first time in the order of their puts: those not submitted yet are queued in that order and come after all that were |
| `PageCheckWorker.PacedIs` | wiktionary_irc.py:208-230 | A submission goes out at exactly the first reading of the cooldown that is over, unless a stop comes during a nap before it; it is given up exactly then |
| `PageCheckWorker.PassIs` | wiktionary_irc.py:143-206 | One undisturbed pass of the machine: nothing after a stop or on an empty queue; otherwise the front title is put back with one retry more, exactly after a transient failure within the limit and without a stop, or forgotten |
| `PageCheckWorker.StopEndsSubmitting` | wiktionary_irc.py:130-174 | After a stop, and until a restart, nothing is submitted except by a thread already past its last look at the signal, and the consumer exits when it looks again |
| `PageCheckWorker.ExitsOnlyWhenStopped` | wiktionary_irc.py:118-174 | The consumer exits only after a stop, and after a restart goes on with the front title |
| `PageCheckWorker.StepKeepsTitles` | wiktionary_irc.py:105-206 | No step of either thread breaks the account of queued, known and in-flight titles |
| `PageCheckWorker.StepKeepsSubmits` | wiktionary_irc.py:176-206 | Submits of a title stay equal to its counted retries and the one in flight |
| `PageCheckWorker.Worker.Enqueue` | wiktionary_irc.py:105-116 | Queues a new title if there is room; keeps the account between passes |
| `PageCheckWorker.Worker.Submit` | wiktionary_irc.py:208-230 | Stamps no earlier than the last reading allows, and at the first reading that allows it; a stop abandons |
| `PageCheckWorker.Worker.Retry` | wiktionary_irc.py:176-206 | Puts the title back exactly if retries are left, no stop came and there is room |
| `PageCheckWorker.Worker.RunOnce` | wiktionary_irc.py:143-174 | One undisturbed pass posts the front title at most once, and once if the settings could be read and no stop came; it puts the title back with one retry more, exactly after a transient failure within the limit, or forgets it |
| `EnglishCache.WrongOnlyWhilePending` | english_wiktionary_cache_irc.py:79-114 | Whatever lag, losses, faults and retries: a changed title is cached wrongly only while an event naming it is pending, after one was dropped, or after a move to it whose source had an event pending or was cached in doubt, as a stale entry from the start is |
| `EnglishCache.DrainedCacheAgrees` | english_wiktionary_cache_irc.py:161-196 | Once the line is empty, every cached title the wiki has changed equals live, except after losses naming it and after such moves to it |
| `EnglishCache.WrongIsInDoubt` | english_wiktionary_cache_irc.py:79-114 | Of any title, changed or not: cached wrongly with nothing pending that names it, it is in doubt |
| `EnglishCache.ChangesHeal` | english_wiktionary_cache_irc.py:79-114 | The next edit, deletion or move of a page heals it: unless a loss or such a move casts doubt on it afterwards, it is cached wrongly only while an event naming it is pending |
| `EnglishCache.NoMovesNoRaces` | english_wiktionary_cache_irc.py:79-102 | Edits, creations and deletions alone never need that exception |
| `EnglishCache.LineIsKept` | english_wiktionary_cache_irc.py:131-171 | A step appends the one change it announces, takes the first off the line when it is applied, drops one, or keeps the line in its order |
| `EnglishCache.ChangesAccountedFor` | english_wiktionary_cache_irc.py:131-171 | Over every run each announced change was applied, or dropped, or is still pending |
| `EnglishCache.HistoriesAreTrue` | english_wiktionary_cache_irc.py:131-196 | What the claims are about and what they excuse: a title whose text differs from the first one was changed; excused are exactly the titles named by dropped events and those moved to uncleanly |
| `EnglishCache.LaggingMoveDisagrees` | english_wiktionary_cache_irc.py:104-110 | A family of runs without any loss, an edit still on its way at the move, and the old title created anew: however the line is emptied without a fault, the text of the new page ends up cached under the new title; the exception is real |
| `EnglishCache.LaggingMoveHappens` | english_wiktionary_cache_irc.py:161-196 | There are such runs |
| `EnglishCache.EditsBeforeRedirectAreLost` | english_wiktionary_cache_irc.py:88-98 | Where a move left a redirect, an edit of the old title not yet fetched is never applied: a redirect cannot be fetched, so in every run until the line is empty it is dropped |
| `EnglishCache.StaleMoveDisagrees` | english_wiktionary_cache_irc.py:104-110 | A second such family, with nothing on its way: a stale entry of an unchanged page is moved to the new title |
| `EnglishCache.DrainedCarries` | english_wiktionary_cache_irc.py:79-110 | From any state, once the wiki rests, every fault-free way of emptying the line leaves each title with exactly the text that the line carries to it; so it ends wrong if and only if that is not the live one |
| `EnglishCache.LinesDrainCalmly` | english_wiktionary_cache_irc.py:161-196 | There is always such a way, unless the head of the line is just being given up or the line names a page that has become a redirect |
| `EnglishCache.MoveRightIff` | english_wiktionary_cache_irc.py:104-110 | The exact condition, at the move, of what a fault-free emptying of the line then leaves, whatever else is cached or pending and however many edits of the old title are, and whether or not the old title is created anew: the new title is cached right if and only if an edit was pending and nothing stands at the old title or the moved text itself, or none was pending and what was cached of the old title, if anything, was right |
| `EnglishCache.RetriesSettle` | english_wiktionary_cache_irc.py:173-196 | With the wiki at rest, a chain of attempts that ends well leaves the event's target right, or gone after a deletion, though failed ones before it took effect |
| `EnglishCache.ApplyIsAttempt` | english_wiktionary_cache_irc.py:79-110 | What the cache object does in one attempt is what the machine of the run theorems does |
| `EnglishCache.ChainIsAttempted` | english_wiktionary_cache_irc.py:173-196 | With the wiki at rest, the object's attempts and waits are those of the machine: the same cache at the end, and the event dropped exactly if the object gives up |
| `EnglishCache.EnglishWiktionaryCache.Refresh` | english_wiktionary_cache_irc.py:88-98 | Live text stored, missing page evicted, a failed fetch changes nothing; the unchecked write of push_page may or may not have happened |
| `EnglishCache.EnglishWiktionaryCache.MovePage` | english_wiktionary_cache_irc.py:104-110 | Renames a cached entry, or refreshes the new title |
| `EnglishCache.EnglishWiktionaryCache.ApplyWithRetries` | english_wiktionary_cache_irc.py:173-196 | True exactly if some attempt succeeds and all before it failed with no stop after them; the last attempt is that one, the sixth, or one that a stop follows, and the cache is what the attempts up to it leave |
| `QueuedEdits.NoEditLost` | rabbitmq_pywikibot.py:86-125 | A guarded edit changes a page only over a revision whose text has the expected hash, whoever edits in between |
| `QueuedEdits.AppliedTwiceOnlyIfRestored` | rabbitmq_pywikibot.py:139-199 | Under redelivery the same guarded edit applies twice only if somebody else restored the expected text in between |
| `QueuedEdits.DeliveriesSettleOnce` | rabbitmq_pywikibot.py:139-199 | Every delivery gets one answer unless its worker died; no published message is settled for good twice or lost; at most two deliveries of a message end in a failure that is not the limiter's |
| `QueuedEdits.RedeliveryIsHarmless` | rabbitmq_pywikibot.py:99-112 | Once a page does not hold the expected text, as after the edit took effect, redelivering the edit writes nothing whatever fails, and without a failure is acknowledged |
| `QueuedEdits.RunKeepsWiki` | redis_wikicache.py:230-279 | Over every run, histories only grow and each guarded revision stands on the text it expected |
| `QueuedEdits.SaveStepsDeliver` | rabbitmq_pywikibot.py:86-125 | How every delivery of a valid message ends, whatever fails or is raced: saved exactly if nothing failed, the guard held and nobody came in between, and then the page has the text of the message, or none after a deletion; skipped exactly if the refreshed text is not the expected one; a page not written, and every other page, is as others left it |
| `QueuedEdits.EditsAreWritten` | rabbitmq_pywikibot.py:101-125 | With nothing failing and nobody else editing, an edit that is unguarded or finds the expected text is written and acknowledged |
| `QueuedEdits.InvalidWritesNothing` | rabbitmq_pywikibot.py:139-185 | Over every run no invalid message writes a revision, and its deliveries are discarded as invalid |
| `QueuedEdits.FailuresAreRetried` | rabbitmq_pywikibot.py:196-205 | Over every run a failed delivery is sent back, unless it failed of our own and the message was sent back before (or a worker died); failures of the limiter are always sent back |
| `QueuedEdits.WikiWorker.CheckExpected` | redis_wikicache.py:230-257 | A refreshed get and the comparison of hashes; the revision it saw guards the put |
| `QueuedEdits.WikiWorker.SaveToWiki` | rabbitmq_pywikibot.py:86-125 | One delivery writes exactly as the machine of the run theorems: saved, skipped or failed, and with every page, as SaveStepsDeliver describes |
| `QueuedEdits.WikiWorker.Callback` | rabbitmq_pywikibot.py:139-199 | One answer for every delivery: ack, requeue or discard, by result and redelivery |
| `ViewOrder.OrderViews` | scripts/refresh_materialized_views.py:47-65 | Every view once with its dependencies before it; fails exactly if the dependencies among the views have a cycle, self-loops included; the order is the sorted layers by longest chain of dependencies; every listed dependency between two of the views is respected, and what cannot be ordered waits for itself |
| `ViewOrder.StuckMeansCycle` | scripts/refresh_materialized_views.py:58-62 | When every remaining view waits for another one, there is a cycle |
| `ViewOrder.CyclesRemain` | scripts/refresh_materialized_views.py:58-64 | Views on a cycle are never peeled off |
| `ViewOrder.OrderIgnoresInputOrder` | scripts/refresh_materialized_views.py:47-65 | Reordering or repeating the inputs changes neither the order nor the failure |
| `ViewOrder.SortedInOrder` | scripts/refresh_materialized_views.py:59-59 | A sorted layer lists each of its views once, in ascending order of schema and name |
| `DiffReview.ReviewsReadOneDiff` | api/wiktionary_mcp.py:275-328 | Over any interleaving of readers, the chunks under one token are in order one exact prefix of one diff, without gap or repetition, all before the deadline set at the first, at most one for each character |
| `DiffReview.CompletedReviewsReadAll` | api/wiktionary_mcp.py:207-214 | The chunk that says there is no next one completes the diff, and none is handed out after it |
| `DiffReview.AnsweredIff` | api/wiktionary_mcp.py:259-328 | After any run a call is answered exactly if the proposal is sound, the limit in range, and it asks for the beginning without a token or for the place that the review under its token has reached, before the deadline and short of the end; the answer is exactly the next characters up to the limit |
| `DiffReview.ReviewsBegin` | api/wiktionary_mcp.py:301-305 | A review can always begin: the first characters up to the limit are handed out under the token drawn |
| `DiffReview.FollowingIsAnswered` | api/wiktionary_mcp.py:304-328 | Until the deadline, asking for the next offset of one's own review is answered with exactly the next characters up to the limit |
| `DiffReview.ChunksRead` | api/wiktionary_mcp.py:192-215 | A chunk is the exact slice of the diff whose hash the proposal names, bounded, and empty only for an empty diff |
| `DiffReview.Reviews.Purge` | api/wiktionary_mcp.py:292-300 | Drops exactly the reviews whose deadline has come |
| `DiffReview.Reviews.RecordDiffReview` | api/wiktionary_mcp.py:275-328 | The new table and the token or error, for every case of offset, token and progress |
| `DiffReview.Reviews.GetWiktionaryFixProposal` | api/wiktionary_mcp.py:421-438 | One atomic step of the run; what is answered is the read recorded |
| `TerminalSafe.TerminalSafe` | api/wiktionary_review_cli.py:44-61 | The loop's result is the escaped text: it reads back, and holds only printable characters and newlines |
| `TerminalSafe.EscapeReadsBack` | api/wiktionary_review_cli.py:44-61 | A decoder recovers every sequence of code points from its escape |
| `TerminalSafe.EscapeIsInjective` | api/wiktionary_review_cli.py:44-61 | Different texts never look the same |
| `TerminalSafe.EscapeIsSafe` | api/wiktionary_review_cli.py:44-61 | Nothing but printable characters and newlines is written |
| `TerminalSafe.EscapeLengths` | api/wiktionary_review_cli.py:47-60 | Each character takes as few places as its kind of escape allows: 1, 2, 4, 6 or 10 |
| `TerminalSafe.UnchangedWhenPlain` | api/wiktionary_review_cli.py:49-54 | Text is shown as it is exactly if it has no backslash and nothing unprintable but newlines |
| `TerminalSafe.LinesAreKept` | api/wiktionary_review_cli.py:49-50 | Lines are escaped one by one |
| `TerminalSafe.NewlinesAreKept` | api/wiktionary_review_cli.py:49-50 | Escaping neither hides a line break nor makes one |
| `TerminalSafe.HexReadsBack` | api/wiktionary_review_cli.py:55-60 | Padded hexadecimal has its fixed width and its value |
| `PageCheckTriage.NoJobGetsTwoIssues` | scripts/page_check_agents.py:554-609 | Over any sequence of runs, dry or not, failed or not, with others posting any issues in between, no job is given two issues |
| `PageCheckTriage.RunsBalance` | scripts/page_check_agents.py:554-609 | A run that ends well has candidates = duplicates + deferred + resolved + would-create + created; it posts at most max_issues, and none when dry |
| `PageCheckTriage.GoodRunsCover` | scripts/page_check_agents.py:563-608 | After a good run that deferred nothing, every job still found to be a problem has its issue |
| `PageCheckTriage.BodiesFit` | scripts/page_check_agents.py:494-551 | Every body fits the limit, and no evidence is ever cut to fit it: after the first bound the second truncation is dead code |
| `PageCheckTriage.BodiesNameTheirJob` | scripts/page_check_agents.py:494-551 | The marker pattern finds the job's own identifier in its body and nothing else, whatever the job holds |
| `PageCheckTriage.RenderEvidence` | scripts/page_check_agents.py:768-790 | Evidence is bounded and has no opening angle bracket, cut or not |
| `PageCheckTriage.WikiUrl` | scripts/page_check_agents.py:830-836 | A link is at most 32 characters and 12 for each of the first 500 of the title, and has no opening angle bracket |
| `PageCheckTriage.LinksReadBack` | scripts/page_check_agents.py:830-836 | Read back, percent-encoding and UTF-8 undone, a link leads to the wiki of the language and to the title: its first 500 characters, blanks as underscores |
| `PageCheckTriage.EscapeReadsBack` | scripts/page_check_agents.py:787-787 | Escaped evidence reads back, and has no angle bracket and no at sign |
| `PageCheckTriage.EvidenceIsWhole` | scripts/page_check_agents.py:787-790 | Evidence of up to 45000 escaped characters is shown whole, of more exactly the first 45000 |
| `PageCheckTriage.SourceLinkIs` | scripts/page_check_agents.py:810-826 | The source link is that of the first result that names a page; there is none if no result does |
| `PageCheckTriage.BodyIs` | scripts/page_check_agents.py:494-551 | The layout of a body: report, instructions, evidence, marker |
| `PageCheckTriage.ClassifiedByWorst` | scripts/page_check_agents.py:449-483 | A finished job is classified by its worst counted outcome, by its worst result if there are no counts or all are zero, and as an error if neither can be read |
| `PageCheckTriage.ClassifyJob` | scripts/page_check_agents.py:449-483 | The two loops over the priorities compute that classification |
| `PageCheckTriage.HandleSummary` | scripts/page_check_agents.py:563-608 | One summary, with every way it can be skipped, counted, fail or be posted |
| `PageCheckTriage.PostsIff` | scripts/page_check_agents.py:563-608 | An issue is posted exactly for a job that is due and still a problem, outside a dry run, with labels and the agent's state known, and it is that job's; only a confirmed one is remembered |
| `PageCheckTriage.CountsIff` | scripts/page_check_agents.py:563-608 | Under which heading a summary is counted: candidate, duplicate, deferred, resolved or would-create |
| `PageCheckTriage.FailsIff` | scripts/page_check_agents.py:563-608 | When, and with what, handling a summary fails |
| `PageCheckTriage.TriagePageChecks` | scripts/page_check_agents.py:554-609 | A run is the run of the theorems, ended by the first failure |
| `PageCheckTriage.Repository.ExistingPageCheckJobIds` | scripts/page_check_agents.py:187-195 | All identifiers that any marker in any issue names |
| `OperationAudit.WalksReturnEachOnce` | supervisor_control_service.py:636-650 | A finished walk was given, in descending order, records of the first page's journal only, and every one that matched then and matches still; without an outcome filter exactly the matching ones, while others begin and complete |
| `OperationAudit.WalksEnd` | supervisor_control_service.py:636-650 | However the journal grows meanwhile, a walk ends with at most one page more than it began with records |
| `OperationAudit.PagesCover` | supervisor_control_service.py:649-650 | A page holds the newest matching rows: all down to next_before, or all there are |
| `OperationAudit.SelectsNewest` | supervisor_control_service.py:167-184 | The query returns matching rows in descending order, and leaves one out only for newer ones at the limit |
| `OperationAudit.RecordsEndOnce` | supervisor_control_service.py:148-157 | Over every run a record leaves pending at most once, by a completion of its own user |
| `OperationAudit.RecordsKeepIdentity` | supervisor_control_service.py:138-157 | Records keep their identity and metadata and never change once they left pending |
| `OperationAudit.CompletedIs` | supervisor_control_service.py:148-157 | Completing ends the user's own pending record of that id, if there is one, with the outcome, the instant and the first 500 characters of the error, and changes nothing else |
| `OperationAudit.RecordsAccumulate` | supervisor_control_service.py:138-146 | Every begin adds one record, and nothing else adds or removes any |
| `OperationAudit.Audit.Begin` | supervisor_control_service.py:138-146 | Appends exactly one record, the pending one with the next id, and returns it |
| `OperationAudit.Audit.Complete` | supervisor_control_service.py:148-157 | Answers exactly if the user has a pending record of that id; that one ends, and nothing else changes |
| `OperationAudit.Audit.List` | supervisor_control_service.py:167-184 | The rows of the query: only of the service and outcome asked for, older than the cursor, newest first, and all of them unless the limit cuts off older ones |
| `OperationAudit.Audit.ListOperations` | supervisor_control_service.py:636-650 | Limit clamped to 1..100, unknown services refused, one row of lookahead |
| `CalendarPeriods.SubtractionHitsItsMonth` | scripts/snapshot_page_check_statistics.py:125-131 | The result is a valid date exactly so many months earlier, on the same day or the last of the month; fails exactly before the year 1 |
| `CalendarPeriods.SubtractionKeepsDateOrder` | scripts/snapshot_page_check_statistics.py:125-131 | On dates, subtraction is monotone despite clamping |
| `CalendarPeriods.SubtractionKeepsOrderUnlessClamped` | scripts/snapshot_page_check_statistics.py:125-131 | On moments it is not: results are out of order exactly if two days of one month are clamped together and the earlier has the later time of day |
| `CalendarPeriods.ClampingReorders` | scripts/snapshot_page_check_statistics.py:125-131 | Two such moments |
| `CalendarPeriods.PeriodsNest` | scripts/snapshot_page_check_statistics.py:134-147 | For every moment: today within current_week within last_7_days within last_3_months within last_6_months, and today within current_month within last_3_months |
| `CalendarPeriods.DaysAndWeeksStartLast` | scripts/snapshot_page_check_statistics.py:134-147 | Today starts at the last midnight, the week at the last midnight of a Monday, the seven days end now |
| `CalendarPeriods.MonthStartsFirst` | scripts/snapshot_page_check_statistics.py:139-139 | The current month starts at the first midnight of its month, which the moment lies in |
| `CalendarPeriods.PeriodsExist` | scripts/snapshot_page_check_statistics.py:134-147 | The bounds exist exactly if six months earlier the year 1 had begun |
| `CalendarPeriods.OrdinalsCountDays` | scripts/snapshot_page_check_statistics.py:138-143 | Ordinals, on which the periods are measured, count days from the first of January of the year 1 |
| `CalendarPeriods.SixIsThreeAndThree` | scripts/snapshot_page_check_statistics.py:125-131 | Subtracting three months twice may clamp once more than six at once, never less |
| `IniEditor.ReplaceIniValue` | supervisor_control_service.py:431-466 | The loop with its three flags computes Set, for every file |
| `IniReadBack.SetReadsBack` | supervisor_control_service.py:431-466 | For every file that configparser reads: the value set is read back if and only if the line rewritten is to the reader, too, an entry of that very section without a continuation, or the reader finds no entry of the key in the section the new one is added to and no indented header follows, or the new header is not indented into a continuation; and then every other setting reads as before |
| `IniReadBack.WritableIff` | supervisor_control_service.py:431-466 | That condition on the file holds if and only if every value that can be set is read back |
| `IniMisreads.BlankEndHidesHeader` | supervisor_control_service.py:459-465 | Failing input: a blank last line without an end indents the new header, which continues the value before it; the entry lands in the section before |
| `IniMisreads.OldContinuationStays` | supervisor_control_service.py:450-454 | Failing input: the indented lines of a longer value stay and follow the new one |
| `IniMisreads.ColonMakesUnreadable` | supervisor_control_service.py:437-437 | Failing input: an entry with a colon is overlooked, the added one is a duplicate, and the file is no longer readable |
| `IniMisreads.ColonSays` | supervisor_control_service.py:437-437 | Such an entry is the key, a colon and a value |
| `IniMisreads.ContinuationRewritten` | supervisor_control_service.py:449-454 | Failing input: a line of another value that looks like an entry of the key is rewritten, and the key stays unset |
| `IniMisreads.OtherSpellingMisses` | supervisor_control_service.py:447-447 | Failing input: the value is written under a section name in other letters, where it is not looked for |
| `IniMisreads.ValueCutInTwo` | supervisor_control_service.py:442-448 | Failing input: brackets on an indented line of a value are taken for a header, and the entry is put in the middle of that value |
| `IniMisreads.HeaderSwallowed` | supervisor_control_service.py:442-448 | Failing input: an entry added before an indented header swallows it |
| `IniEditor.HeaderIff` | supervisor_control_service.py:436-436 | The pattern of a header, read as its parts |
| `IniEditor.EntryIff` | supervisor_control_service.py:437-437 | The pattern of an entry, read as its parts |
| `IniEditor.LastSetWins` | supervisor_control_service.py:431-466 | An earlier set of the same key leaves no trace |
| `IniEditor.SetKeepsSkeleton` | supervisor_control_service.py:431-466 | Comments, headers and entries of other keys stay in order; only a missing section is added, after them |
| `IniEditor.SetChangesOneLine` | supervisor_control_service.py:431-466 | In a file with the section, one entry of the key is replaced by another or one is added, inside it; every other line stays, entries of the key in other sections included, but for a line end the last one lacked |
| `IniEditor.SetAddsSection` | supervisor_control_service.py:459-465 | Without the section, all lines stay before the new one, but for that line end or a blank unended last line, which becomes indentation |
| `IniEditor.SetKeepsNewline` | supervisor_control_service.py:434-434 | The convention of line ends stays |
| `AtlasConfig.ReplaceAtlasSection` | configure_atlas_supervisor.py:224-237 | The loop computes Replaced |
| `AtlasConfig.ReplacedReadsBack` | configure_atlas_supervisor.py:224-237 | The new section is the only one of its host; all other lines stay, up to white space at the end |
| `AtlasConfig.LastSectionWins` | configure_atlas_supervisor.py:224-237 | The last write wins; the same one twice changes nothing |
| `AtlasConfig.OtherHostsKeepTheirSections` | configure_atlas_supervisor.py:224-237 | The sections of all other hosts stay |
| `AtlasConfig.ReplaceHostsEntry` | configure_atlas_supervisor.py:240-256 | The loop computes EntryReplaced, with the refusal at the first conflicting line |
| `AtlasConfig.HostnameIsMapped` | configure_atlas_supervisor.py:240-256 | Refused exactly if an unmanaged line maps the hostname elsewhere; otherwise the hostname, letter by letter, is mapped, to the given address only, and unmanaged lines stay |
| `AtlasConfig.ResolverFinds` | configure_atlas_supervisor.py:240-256 | To a resolver, which ignores the case of letters, the hostname is mapped to the given address, and to no other if and only if no unmanaged line maps any spelling of it elsewhere |
| `AtlasConfig.OtherSpellingIsOverlooked` | configure_atlas_supervisor.py:248-252 | Failing input: a line with the hostname in other letters is no conflict to the editor, and the hostname has two addresses |
| `AtlasConfig.LastEntryWins` | configure_atlas_supervisor.py:240-256 | A second edit has the effect, or the refusal, it would have had alone |
| `HaproxyNetwork.ConfigureNetwork` | scripts/configure_haproxy_network.py:29-73 | The loop with its two flags computes Configured |
| `HaproxyNetwork.LastNetworkWins` | scripts/configure_haproxy_network.py:29-73 | The last network wins; the same one twice changes nothing |
| `HaproxyNetwork.ConfiguredIsRestricted` | scripts/configure_haproxy_network.py:52-67 | Every managed bind is to the given address and directly followed by its acl and denial |
| `HaproxyNetwork.OtherLinesStay` | scripts/configure_haproxy_network.py:38-72 | In the text returned, all other lines stay, in their order, up to white space at the end |
| `HaproxyNetwork.OtherFrontendsStay` | scripts/configure_haproxy_network.py:38-49 | A frontend without a managed bind stays as it is, restrictions included, whatever comes before it |
| `ReleaseManager.ReleaseIdsAre` | scripts/release_manager.py:14-14 | A valid name is one component of a path, of ASCII letters, digits, dots, underscores and hyphens, and not hidden |
| `ReleaseManager.PruneLeavesFew` | scripts/release_manager.py:38-80 | At most max(keep, active and protected) releases are left, and of the other complete ones exactly as many as fit |
| `ReleaseManager.PruneKeepsNewer` | scripts/release_manager.py:51-69 | No complete release is removed that is newer than one kept only for its age |
| `ReleaseManager.PruneKeepsProtected` | scripts/release_manager.py:58-65 | Active and protected releases stay, and current is not touched |
| `ReleaseManager.PruneTwice` | scripts/release_manager.py:38-80 | Pruning is idempotent |
| `ReleaseManager.RollbackRestores` | scripts/release_manager.py:89-99 | After activating and pruning with the previous one protected, rolling back works exactly if the previous target was a complete release with a valid name |
| `ReleaseManager.ActivatePruneRollBack` | scripts/release_manager.py:17-35 | The three calls in a row restore current |
| `ReleaseManager.Deployment.ActivateRelease` | scripts/release_manager.py:17-29 | Succeeds exactly for a valid, existing, complete release, and returns the previous target |
| `ReleaseManager.Deployment.RollbackRelease` | scripts/release_manager.py:32-35 | Succeeds exactly for a valid target, and changes nothing otherwise |
| `ReleaseManager.Deployment.PruneReleases` | scripts/release_manager.py:38-80 | The loops keep exactly the active, the protected, and the complete releases with fewer newer ones than places; an invalid name or too small a limit removes nothing |
| `ServiceRendering.RenderedCountsAreDiscovered` | scripts/deployment_config.py:114-127 | For all allowed counts, what is discovered in the rendered files are the counts rendered, with the shifted PostgREST numbering |
| `ServiceRendering.ConfiguredInstanceCounts` | scripts/deployment_config.py:114-127 | For any files, each service with a section gets its largest count, but at least 0, and no other service gets one |
| `ServiceRendering.DiscoveredOnce` | scripts/deployment_config.py:114-127 | That determines the counts |
| `ServiceRendering.HeaderReadsBack` | scripts/deployment_config.py:117-125 | A rendered section header is recognized as its own service and decimal index, and as no other |
| `ServiceRendering.HeadersAre` | scripts/render_service_configs.py:66-149 | The section headers of the four services, letter for letter |
| `ServiceRendering.ProgramsStand` | scripts/render_service_configs.py:40-112 | Every program of a service is rendered: its header, with all its settings after it |
| `ServiceRendering.ServersMatchPrograms` | scripts/render_service_configs.py:180-184 | Each server of a pool points at exactly one rendered program of its service, and the other way round |
| `ServiceRendering.PortsNeverOverlap` | scripts/render_service_configs.py:253-269 | For all allowed counts no two pools share a port, and none meets a frontend's |
| `ServiceRendering.TranslatorLimitIsTight` | scripts/deployment_config.py:29-34 | The translators' pool leaves its own frontend's port free exactly up to the limit |
| `ServiceRendering.InstanceCounts` | scripts/deployment_config.py:130-142 | The override, else what exists, else the default; refused exactly if some service then has no allowed count, and the named service is such a one |

## Left out

- Real Redis, RabbitMQ, SQLite, PostgreSQL, HTTP, IRC, file systems and threads; the abstract state named above stands for them.
- Rounding of floating-point numbers, and the parsing of Retry-After values, which are optional delays here.
- RedisPage: reads through the cache by other processes; only the refreshed get, the guarded put and delete, and the unchecked cache write after a get are modelled, inside `EnglishCache` and `QueuedEdits`. The offline mode and the check of the write destination are not.
- EnglishCache.MoveRightIff: the last pending event that names the old title must be an edit, if there is one; pending moves onto it and deletions of it are covered by `EnglishCache.DrainedCarries`, whose condition follows the line back.
- EnglishCache.DrainedCacheAgrees: excludes titles that other processes cached by ordinary reads, and titles moved to while an event naming their source was pending or its entry was in doubt, because agreement fails there; when exactly, `EnglishCache.MoveRightIff` says for lines emptied without faults.
- QueuedEdits: the validation of a message is one flag; its many checks would only add cases.
- PageCheckWorker.Worker.RunOnce: takes the readings of the cooldown as given, and a pass that needs more of them is not over; the settings fail to be read before the wait, not during it; runs with interleavings are covered by the state machine, which has no such bound.
- DiffReview: snapshot chunks and the tools around the proposals.
- PageCheckTriage.NoJobGetsTwoIssues: runs do not overlap, as the workflow's concurrency group ensures, and nobody edits, deletes, transfers or relabels an issue that triage posted.
- PageCheckTriage: the dispatch of fix agents, issue titles, the texts of labels and paragraphs (any texts of the lengths they have, without angle brackets), failures of the two list calls, which end a run before it begins, and the decoding of job fields other than those that decide an outcome or a link. Page titles with lone surrogates make the source fail and are not strings here.
- OperationAudit: the time between the insert or update and the select that returns its row is not split.
- CalendarPeriods: the year 9999, time zones other than UTC, and the rows of snapshots.
- IniEditor, IniReader: line ends other than CR, LF and CRLF that Python's splitlines knows; white space other than blanks and tabs within a line, and the case of letters outside ASCII. What is set is as the program sets it: a section without a closing bracket, a lower-case key without white space or delimiters, a value that is not empty, on one line, without white space around it.
- IniReadBack.SetReadsBack: if the value was read before already, it may still be read although the condition fails (a line may be rewritten that says the same). Files that configparser refuses are left out: no service starts with one. Settings of DEFAULT, to which a get falls back, are those of a section of their own.
- AtlasConfig, HaproxyNetwork: line ends other than LF; the rendering of sections and addresses, which are parameters.
- ReleaseManager: a deployment root that is itself reached through a symbolic link (the active release is then not recognized by the source), a missing releases directory, failures while removing directories, and the configuration files removed together with a release.
- ServiceRendering: decimal digits outside ASCII, white space around section headers, the other settings of a program beyond its port, and the parsing of overrides.
- Translation models, prompts, renderers, entry parsers, routing, argument parsing, logging, the web frontend and batch scripts.
- Small loops such as configuration precedence, retry decorators and lookup tables, which would only add easy members.
