/**
 The Redis cache of English Wiktionary pages, kept in step with the wiki by events read
 from IRC (english_wiktionary_cache_irc.py, redis_wikicache.py).

 The wiki changes at any time and announces every change in order.  Announcements reach a
 bounded queue, late or never.  One worker applies them with live fetches and up to five
 retries; any Redis command may fail before or after taking effect.  A step that is not
 enabled leaves the state as it is.
 */
module EnglishCache {
  import opened Wrappers

  const MAX_RETRIES: nat := 5

  type Title = string
  type Text = string
  type Pages = map<Title, Text>

  datatype CacheEvent = Edit(title: Title) | Delete(title: Title) | Move(title: Title, newTitle: Title)

  function Names(e: CacheEvent): set<Title> { if e.Move? then {e.title, e.newTitle} else {e.title} }

  predicate Named(events: seq<CacheEvent>, t: Title) {
    exists i :: 0 <= i < |events| && t in Names(events[i])
  }

  function Lookup(pages: Pages, t: Title): Option<Text> { if t in pages then Some(pages[t]) else None }

  /** What a move leaves at the old title; reading it raises an error that is not the one for missing pages. */
  predicate IsRedirect(text: Text) { "#REDIRECT" <= text }

  predicate RedirectAt(pages: Pages, t: Title) { t in pages && IsRedirect(pages[t]) }

  // ---------------------------------------------------------------- what agreement needs

  /**
   The live wiki, the cache, the announced changes not yet applied (the one in progress
   first), and the titles nothing is claimed about.
   */
  datatype Books = Books(live: Pages, cache: Pages, pending: seq<CacheEvent>, unsure: set<Title>)

  /** A cached title equals its live text unless a pending event names it. */
  ghost predicate Agrees(b: Books) {
    forall t :: t in b.cache && t !in b.unsure && !Named(b.pending, t) ==> t in b.live && b.cache[t] == b.live[t]
  }

  /**
   A pending move whose destination nothing later names will rename the right text: no
   earlier event can touch the source's cache entry before the move is applied.
   */
  ghost predicate MovesCarryLive(b: Books) {
    forall i :: 0 <= i < |b.pending| && b.pending[i].Move?
                && b.pending[i].newTitle !in b.unsure && !Named(b.pending[i + 1..], b.pending[i].newTitle) ==>
                  MoveCarriesLive(b, i)
  }

  ghost predicate MoveCarriesLive(b: Books, i: int)
    requires 0 <= i < |b.pending| && b.pending[i].Move?
  {
    var o, n := b.pending[i].title, b.pending[i].newTitle;
    && !Named(b.pending[..i], o)
    && (o in b.cache ==> n in b.live && b.cache[o] == b.live[n])
  }

  ghost predicate MovesProper(pending: seq<CacheEvent>) {
    forall i :: 0 <= i < |pending| && pending[i].Move? ==> pending[i].title != pending[i].newTitle
  }

  ghost predicate Kept(b: Books) { Agrees(b) && MovesCarryLive(b) && MovesProper(b.pending) }

  lemma NamedAppend(events: seq<CacheEvent>, e: CacheEvent, t: Title)
    ensures Named(events + [e], t) <==> Named(events, t) || t in Names(e)
  {
    assert (events + [e])[|events|] == e;
    if Named(events, t) {
      var i :| 0 <= i < |events| && t in Names(events[i]);
      assert (events + [e])[i] == events[i];
    }
  }

  lemma NamedTail(events: seq<CacheEvent>, e: CacheEvent, i: nat, t: Title)
    requires i < |events|
    ensures Named((events + [e])[i + 1..], t) <==> Named(events[i + 1..], t) || t in Names(e)
  {
    assert (events + [e])[i + 1..] == events[i + 1..] + [e];
    NamedAppend(events[i + 1..], e, t);
  }

  /** The wiki edits, creates or deletes t and announces it: whatever is cached is excused until then. */
  lemma ChangeKeeps(b: Books, live: Pages, e: CacheEvent)
    requires Kept(b) && !e.Move?
    requires forall t :: t != e.title ==> Lookup(live, t) == Lookup(b.live, t)
    ensures Kept(Books(live, b.cache, b.pending + [e], b.unsure - {e.title}))
  {
    var c := Books(live, b.cache, b.pending + [e], b.unsure - {e.title});
    forall t
      ensures Named(c.pending, t) <==> Named(b.pending, t) || t == e.title
    {
      NamedAppend(b.pending, e, t);
    }
    assert forall t :: t != e.title ==> (t in live <==> t in b.live) && (t in live ==> live[t] == b.live[t]) by {
      forall t | t != e.title
        ensures (t in live <==> t in b.live) && (t in live ==> live[t] == b.live[t])
      {
        assert Lookup(live, t) == Lookup(b.live, t);
      }
    }
    forall i | 0 <= i < |c.pending| && c.pending[i].Move?
               && c.pending[i].newTitle !in c.unsure && !Named(c.pending[i + 1..], c.pending[i].newTitle)
      ensures MoveCarriesLive(c, i)
    {
      assert i < |b.pending|;
      NamedTail(b.pending, e, i, b.pending[i].newTitle);
      assert MoveCarriesLive(b, i);
      assert c.pending[..i] == b.pending[..i];
    }
  }

  predicate CleanMove(b: Books, o: Title) { o !in b.unsure && !Named(b.pending, o) }

  function Moved(live: Pages, o: Title, n: Title, redirect: Option<Text>): Pages
    requires o in live
  {
    var gone := (live - {o})[n := live[o]];
    if redirect.Some? then gone[o := redirect.value] else gone
  }

  /**
   The wiki moves o to n.  If no pending event names o and its cached text is not in doubt, the move
   carries live text; otherwise nothing is claimed about n.  About o, which the move uncaches, more is.
   */
  lemma MoveKeeps(b: Books, o: Title, n: Title, redirect: Option<Text>)
    requires Kept(b) && o in b.live && o != n
    ensures Kept(Books(Moved(b.live, o, n, redirect), b.cache, b.pending + [Move(o, n)],
                       if CleanMove(b, o) then b.unsure - {n} else b.unsure - {o} + {n}))
  {
    var e := Move(o, n);
    var c := Books(Moved(b.live, o, n, redirect), b.cache, b.pending + [e],
                   if CleanMove(b, o) then b.unsure - {n} else b.unsure - {o} + {n});
    forall t
      ensures Named(c.pending, t) <==> Named(b.pending, t) || t == o || t == n
    {
      NamedAppend(b.pending, e, t);
    }
    forall i | 0 <= i < |c.pending| && c.pending[i].Move?
               && c.pending[i].newTitle !in c.unsure && !Named(c.pending[i + 1..], c.pending[i].newTitle)
      ensures MoveCarriesLive(c, i)
    {
      if i < |b.pending| {
        NamedTail(b.pending, e, i, b.pending[i].newTitle);
        assert MoveCarriesLive(b, i);
        assert c.pending[..i] == b.pending[..i];
      } else {
        assert c.pending[..i] == b.pending;
      }
    }
  }

  function Without(events: seq<CacheEvent>, k: nat): seq<CacheEvent>
    requires k < |events|
  {
    events[..k] + events[k + 1..]
  }

  lemma NamedWithout(events: seq<CacheEvent>, k: nat, t: Title)
    requires k < |events| && t !in Names(events[k])
    ensures Named(Without(events, k), t) <==> Named(events, t)
  {
    var rest := Without(events, k);
    if Named(events, t) {
      var i :| 0 <= i < |events| && t in Names(events[i]);
      assert rest[if i < k then i else i - 1] == events[i];
    }
    if Named(rest, t) {
      var i :| 0 <= i < |rest| && t in Names(rest[i]);
      assert events[if i < k then i else i + 1] == rest[i];
    }
  }

  lemma NamedHead(events: seq<CacheEvent>, t: Title)
    requires events != []
    ensures Named(events, t) <==> t in Names(events[0]) || Named(events[1..], t)
  {
    if Named(events[1..], t) {
      var i :| 0 <= i < |events[1..]| && t in Names(events[1..][i]);
      assert events[i + 1] == events[1..][i];
    }
    if Named(events, t) && t !in Names(events[0]) {
      var i :| 0 <= i < |events| && t in Names(events[i]);
      assert events[1..][i - 1] == events[i];
    }
  }

  /** An event lost anywhere in the line makes the titles it names unsure, and no others. */
  lemma DropKeeps(b: Books, k: nat)
    requires Kept(b) && k < |b.pending|
    ensures Kept(Books(b.live, b.cache, Without(b.pending, k), b.unsure + Names(b.pending[k])))
  {
    var c := Books(b.live, b.cache, Without(b.pending, k), b.unsure + Names(b.pending[k]));
    forall t | t !in c.unsure
      ensures Named(c.pending, t) <==> Named(b.pending, t)
    {
      NamedWithout(b.pending, k, t);
    }
    forall i | 0 <= i < |c.pending| && c.pending[i].Move?
               && c.pending[i].newTitle !in c.unsure && !Named(c.pending[i + 1..], c.pending[i].newTitle)
      ensures MoveCarriesLive(c, i)
    {
      DroppedMoveCarries(b, k, i);
    }
  }

  lemma DroppedMoveCarries(b: Books, k: nat, i: nat)
    requires Kept(b) && k < |b.pending| && i < |b.pending| - 1
    requires var rest := Without(b.pending, k);
             rest[i].Move? && rest[i].newTitle !in b.unsure + Names(b.pending[k]) && !Named(rest[i + 1..], rest[i].newTitle)
    ensures MoveCarriesLive(Books(b.live, b.cache, Without(b.pending, k), b.unsure + Names(b.pending[k])), i)
  {
    var rest, j := Without(b.pending, k), if i < k then i else i + 1;
    var o, n := rest[i].title, rest[i].newTitle;
    assert b.pending[j] == rest[i];
    if i < k {
      assert rest[i + 1..] == Without(b.pending[i + 1..], k - (i + 1));
      NamedWithout(b.pending[i + 1..], k - (i + 1), n);
      assert rest[..i] == b.pending[..j];
    } else {
      assert rest[i + 1..] == b.pending[j + 1..];
      assert rest[..i] == Without(b.pending[..j], k);
    }
    assert MoveCarriesLive(b, j);
    if i >= k {
      NamedWithout2(b.pending[..j], k, o);
    }
  }

  lemma NamedWithout2(events: seq<CacheEvent>, k: nat, t: Title)
    requires k < |events| && !Named(events, t)
    ensures !Named(Without(events, k), t)
  {
    assert t !in Names(events[k]);
    NamedWithout(events, k, t);
  }

  /** The worker writes entries its own event names; a renamed source must be gone. */
  lemma WriteKeeps(b: Books, cache: Pages)
    requires Kept(b) && b.pending != []
    requires forall t :: t !in Names(b.pending[0]) ==> Lookup(cache, t) == Lookup(b.cache, t)
    requires b.pending[0].Move? ==> b.pending[0].title !in cache
    ensures Kept(b.(cache := cache))
  {
    var c := b.(cache := cache);
    forall t | t !in Names(b.pending[0])
      ensures (t in cache <==> t in b.cache) && (t in cache ==> cache[t] == b.cache[t])
    {
      assert Lookup(cache, t) == Lookup(b.cache, t);
    }
    forall i | 0 <= i < |c.pending| && c.pending[i].Move?
               && c.pending[i].newTitle !in c.unsure && !Named(c.pending[i + 1..], c.pending[i].newTitle)
      ensures MoveCarriesLive(c, i)
    {
      assert MoveCarriesLive(b, i);
      if i > 0 {
        assert b.pending[..i][0] == b.pending[0];
      }
    }
  }

  /** The event in progress is done, having left every title it names uncached, live, or named again. */
  lemma CompleteKeeps(b: Books)
    requires Kept(b) && b.pending != []
    requires forall t :: t in Names(b.pending[0]) && t in b.cache && t !in b.unsure && !Named(b.pending[1..], t) ==>
                           t in b.live && b.cache[t] == b.live[t]
    ensures Kept(b.(pending := b.pending[1..]))
  {
    var c := b.(pending := b.pending[1..]);
    forall t
      ensures Named(b.pending, t) <==> t in Names(b.pending[0]) || Named(c.pending, t)
    {
      NamedHead(b.pending, t);
    }
    forall i | 0 <= i < |c.pending| && c.pending[i].Move?
               && c.pending[i].newTitle !in c.unsure && !Named(c.pending[i + 1..], c.pending[i].newTitle)
      ensures MoveCarriesLive(c, i)
    {
      assert c.pending[i + 1..] == b.pending[i + 2..];
      assert MoveCarriesLive(b, i + 1);
      assert c.pending[..i] == b.pending[..i + 1][1..];
      NamedHead(b.pending[..i + 1], c.pending[i].title);
    }
  }

  // ---------------------------------------------------------------- the machine

  /** What the worker is doing; `Failed` is the wait between two attempts. */
  datatype Work =
    | Idle
    | Trying(event: CacheEvent, attempt: nat)
    | Fetched(event: CacheEvent, attempt: nat, content: Option<Text>)
    | Failed(event: CacheEvent, attempt: nat)

  /** `changed`, `lost` and `raced` are histories: titles the wiki changed, named by a dropped event, or moved to uncleanly. */
  datatype State = State(
    capacity: nat,
    live: Pages,
    cache: Pages,
    feed: seq<CacheEvent>,
    queue: seq<CacheEvent>,
    work: Work,
    unsure: set<Title>,
    changed: set<Title>,
    lost: set<Title>,
    raced: set<Title>)

  datatype Event =
    | WikiEdit(title: Title, text: Text)
    | WikiDelete(title: Title)
    | WikiMove(title: Title, newTitle: Title, redirect: Option<Text>)
    | Deliver
    | LoseAnnouncement
    | Take
    | Fetch(ok: bool)
    | Push
    | Command(effect: bool, ok: bool)
    | Retry(stopped: bool)

  /** Nothing is claimed about a title until the wiki changes it, unless it agrees to begin with. */
  function Initial(capacity: nat, live: Pages, cache: Pages): State {
    State(capacity, live, cache, [], [], Idle,
          set t | t in cache && Lookup(live, t) != Some(cache[t]), {}, {}, {})
  }

  function InProgress(work: Work): seq<CacheEvent> { if work.Idle? then [] else [work.event] }

  function BooksOf(s: State): Books { Books(s.live, s.cache, InProgress(s.work) + s.queue + s.feed, s.unsure) }

  function Target(e: CacheEvent): Title { if e.Move? then e.newTitle else e.title }

  function Announce(s: State, live: Pages, e: CacheEvent): State {
    s.(live := live, feed := s.feed + [e], unsure := s.unsure - {e.title}, changed := s.changed + {e.title})
  }

  function WikiMoveStep(s: State, o: Title, n: Title, redirect: Option<Text>): State {
    if o !in s.live || n in s.live || o == n then s
    else
      var clean := CleanMove(BooksOf(s), o);
      s.(live := Moved(s.live, o, n, redirect), feed := s.feed + [Move(o, n)],
         unsure := if clean then s.unsure - {n} else s.unsure - {o} + {n},
         changed := s.changed + {o, n}, raced := if clean then s.raced else s.raced + {n})
  }

  function Lose(s: State, e: CacheEvent): State {
    s.(unsure := s.unsure + Names(e), lost := s.lost + Names(e))
  }

  function DeliverStep(s: State): State {
    if s.feed == [] then s
    else if s.capacity > 0 && |s.queue| >= s.capacity then Lose(s.(feed := s.feed[1..]), s.feed[0])
    else s.(queue := s.queue + [s.feed[0]], feed := s.feed[1..])
  }

  /** `refresh` reads the live page: always for an edit, for a move only if its source is not cached. */
  predicate Fetches(s: State) {
    s.work.Trying? && (s.work.event.Edit? || (s.work.event.Move? && s.work.event.title !in s.cache))
  }

  predicate Writes(s: State) {
    s.work.Fetched? || (s.work.Trying? && !Fetches(s))
  }

  /** The Redis command the worker is about to send: set, delete or rename. */
  function Written(s: State): Pages
    requires Writes(s)
  {
    match s.work
    case Fetched(e, _, Some(content)) => s.cache[Target(e) := content]
    case Fetched(e, _, None) => s.cache - {Target(e)}
    case Trying(e, _) => if e.Move? then Renamed(s.cache, e.title, e.newTitle) else s.cache - {e.title}
  }

  function Renamed(cache: Pages, o: Title, n: Title): Pages {
    if o in cache then (cache - {o})[n := cache[o]] else cache
  }

  function CommandStep(s: State, effect: bool, ok: bool): State {
    if !Writes(s) then s
    else s.(cache := if effect || ok then Written(s) else s.cache,
            work := if ok then Idle else Failed(s.work.event, s.work.attempt))
  }

  function RetryStep(s: State, stopped: bool): State {
    if !s.work.Failed? then s
    else if s.work.attempt >= MAX_RETRIES || stopped then Lose(s.(work := Idle), s.work.event)
    else s.(work := Trying(s.work.event, s.work.attempt + 1))
  }

  function Step(s: State, e: Event): State {
    match e
    case WikiEdit(t, text) => Announce(s, s.live[t := text], CacheEvent.Edit(t))
    case WikiDelete(t) => if t in s.live then Announce(s, s.live - {t}, CacheEvent.Delete(t)) else s
    case WikiMove(o, n, redirect) => WikiMoveStep(s, o, n, redirect)
    case Deliver => DeliverStep(s)
    case LoseAnnouncement => if s.feed == [] then s else Lose(s.(feed := s.feed[1..]), s.feed[0])
    case Take => if !s.work.Idle? || s.queue == [] then s else s.(work := Trying(s.queue[0], 0), queue := s.queue[1..])
    case Fetch(ok) =>
      if !Fetches(s) then s
      else s.(work := if ok && !RedirectAt(s.live, Target(s.work.event)) then Fetched(s.work.event, s.work.attempt, Lookup(s.live, Target(s.work.event)))
                      else Failed(s.work.event, s.work.attempt))
    // the unchecked write inside RedisPage.get; its failure goes unseen
    case Push =>
      if s.work.Fetched? && s.work.content.Some? then s.(cache := s.cache[Target(s.work.event) := s.work.content.value])
      else s
    case Command(effect, ok) => CommandStep(s, effect, ok)
    case Retry(stopped) => RetryStep(s, stopped)
  }

  function Run(s: State, events: seq<Event>): State {
    if events == [] then s else Step(Run(s, events[..|events| - 1]), events[|events| - 1])
  }

  /** Fetched text is live, unless a newer event for the page is on its way. */
  ghost predicate FetchCurrent(s: State) {
    s.work.Fetched? ==>
      && !s.work.event.Delete?
      && (s.work.event.Move? ==> s.work.event.title !in s.cache)
      && (s.work.content == Lookup(s.live, Target(s.work.event))
          || Named(s.queue + s.feed, Target(s.work.event)) || Target(s.work.event) in s.unsure)
  }

  ghost predicate Inv(s: State) {
    && Kept(BooksOf(s)) && FetchCurrent(s)
    && (!s.work.Idle? ==> s.work.attempt <= MAX_RETRIES)
    // what became unsure after a change became so by a loss or an unclean move
    && (forall t :: t in s.changed && t in s.unsure ==> t in s.lost || t in s.raced)
  }

  /** One more announcement at the end of the line. */
  lemma AnnouncedBooks(s: State, e: CacheEvent)
    ensures InProgress(s.work) + s.queue + (s.feed + [e]) == BooksOf(s).pending + [e]
    ensures s.queue + (s.feed + [e]) == (s.queue + s.feed) + [e]
  {
  }

  lemma AnnounceKeepsInv(s: State, live: Pages, e: CacheEvent)
    requires Inv(s) && !e.Move?
    requires forall t :: t != e.title ==> Lookup(live, t) == Lookup(s.live, t)
    ensures Inv(Announce(s, live, e))
  {
    AnnouncedBooks(s, e);
    ChangeKeeps(BooksOf(s), live, e);
    if s.work.Fetched? {
      NamedAppend(s.queue + s.feed, e, Target(s.work.event));
      assert Target(s.work.event) != e.title ==>
               Lookup(live, Target(s.work.event)) == Lookup(s.live, Target(s.work.event));
    }
  }

  lemma WikiMoveKeepsInv(s: State, o: Title, n: Title, redirect: Option<Text>)
    requires Inv(s)
    ensures Inv(WikiMoveStep(s, o, n, redirect))
  {
    if o in s.live && n !in s.live && o != n {
      AnnouncedBooks(s, Move(o, n));
      MoveKeeps(BooksOf(s), o, n, redirect);
      if s.work.Fetched? {
        NamedAppend(s.queue + s.feed, Move(o, n), Target(s.work.event));
      }
    }
  }

  lemma LoseFeedKeepsInv(s: State)
    requires Inv(s) && s.feed != []
    ensures Inv(Lose(s.(feed := s.feed[1..]), s.feed[0]))
  {
    var t, k := Lose(s.(feed := s.feed[1..]), s.feed[0]), |InProgress(s.work)| + |s.queue|;
    DropKeeps(BooksOf(s), k);
    assert BooksOf(s).pending[k] == s.feed[0];
    assert BooksOf(t).pending == Without(BooksOf(s).pending, k);
    if s.work.Fetched? && Target(s.work.event) !in t.unsure {
      assert t.queue + t.feed == Without(s.queue + s.feed, |s.queue|);
      NamedWithout(s.queue + s.feed, |s.queue|, Target(s.work.event));
    }
  }

  lemma DeliverKeepsInv(s: State)
    requires Inv(s)
    ensures Inv(DeliverStep(s))
  {
    if s.feed != [] {
      if s.capacity > 0 && |s.queue| >= s.capacity {
        LoseFeedKeepsInv(s);
      } else {
        var t := DeliverStep(s);
        assert BooksOf(t).pending == BooksOf(s).pending;
        assert t.queue + t.feed == s.queue + s.feed;
      }
    }
  }

  lemma TakeKeepsInv(s: State)
    requires Inv(s)
    ensures Inv(Step(s, Take))
  {
    assert BooksOf(Step(s, Take)).pending == BooksOf(s).pending;
  }

  lemma FetchKeepsInv(s: State, ok: bool)
    requires Inv(s)
    ensures Inv(Step(s, Fetch(ok)))
  {
  }

  /** The head of the line is the event in progress; the rest is queue and feed. */
  lemma HeadOfLine(s: State)
    requires !s.work.Idle?
    ensures BooksOf(s).pending != [] && BooksOf(s).pending[0] == s.work.event
    ensures BooksOf(s).pending[1..] == s.queue + s.feed
  {
  }

  lemma PushKeepsInv(s: State)
    requires Inv(s)
    ensures Inv(Step(s, Push))
  {
    if s.work.Fetched? && s.work.content.Some? {
      HeadOfLine(s);
      assert BooksOf(s).pending[0].Move? ==> BooksOf(s).pending[0].title != BooksOf(s).pending[0].newTitle;
      WriteKeeps(BooksOf(s), Step(s, Push).cache);
    }
  }

  /** After the command, the titles of the event in progress are uncached, live, or named again. */
  lemma CommandSettles(s: State, t: Title)
    requires Inv(s) && Writes(s)
    requires t in Names(s.work.event) && t in Written(s) && t !in s.unsure && !Named(s.queue + s.feed, t)
    ensures t in s.live && Written(s)[t] == s.live[t]
  {
    var b := BooksOf(s);
    HeadOfLine(s);
    assert b.pending[0].Move? ==> b.pending[0].title != b.pending[0].newTitle;
    if s.work.Trying? && s.work.event.Move? {
      assert b.pending[0 + 1..] == s.queue + s.feed;
      assert MoveCarriesLive(b, 0);
    }
  }

  lemma CommandKeepsInv(s: State, effect: bool, ok: bool)
    requires Inv(s)
    ensures Inv(CommandStep(s, effect, ok))
  {
    if Writes(s) {
      var b := BooksOf(s);
      HeadOfLine(s);
      assert b.pending[0].Move? ==> b.pending[0].title != b.pending[0].newTitle;
      if effect || ok {
        WriteKeeps(b, Written(s));
      }
      if ok {
        var c := b.(cache := Written(s));
        forall t | t in Names(c.pending[0]) && t in c.cache && t !in c.unsure && !Named(c.pending[1..], t)
          ensures t in c.live && c.cache[t] == c.live[t]
        {
          CommandSettles(s, t);
        }
        CompleteKeeps(c);
        assert BooksOf(CommandStep(s, effect, ok)) == c.(pending := c.pending[1..]);
      } else {
        assert BooksOf(CommandStep(s, effect, ok)) == b.(cache := CommandStep(s, effect, ok).cache);
      }
    }
  }

  lemma RetryKeepsInv(s: State, stopped: bool)
    requires Inv(s)
    ensures Inv(RetryStep(s, stopped))
  {
    if s.work.Failed? {
      HeadOfLine(s);
      if s.work.attempt >= MAX_RETRIES || stopped {
        DropKeeps(BooksOf(s), 0);
        assert BooksOf(RetryStep(s, stopped)).pending == Without(BooksOf(s).pending, 0);
      }
    }
  }

  lemma StepKeepsInv(s: State, e: Event)
    requires Inv(s)
    ensures Inv(Step(s, e))
  {
    match e
    case WikiEdit(t, text) => AnnounceKeepsInv(s, s.live[t := text], CacheEvent.Edit(t));
    case WikiDelete(t) =>
      if t in s.live {
        AnnounceKeepsInv(s, s.live - {t}, CacheEvent.Delete(t));
      }
    case WikiMove(o, n, redirect) => WikiMoveKeepsInv(s, o, n, redirect);
    case Deliver => DeliverKeepsInv(s);
    case LoseAnnouncement =>
      if s.feed != [] {
        LoseFeedKeepsInv(s);
      }
    case Take => TakeKeepsInv(s);
    case Fetch(ok) => FetchKeepsInv(s, ok);
    case Push => PushKeepsInv(s);
    case Command(effect, ok) => CommandKeepsInv(s, effect, ok);
    case Retry(stopped) => RetryKeepsInv(s, stopped);
  }

  lemma {:induction false} RunKeepsInv(capacity: nat, live: Pages, cache: Pages, events: seq<Event>)
    ensures Inv(Run(Initial(capacity, live, cache), events))
  {
    if events != [] {
      RunKeepsInv(capacity, live, cache, events[..|events| - 1]);
      StepKeepsInv(Run(Initial(capacity, live, cache), events[..|events| - 1]), events[|events| - 1]);
    }
  }

  // ---------------------------------------------------------------- the claims

  predicate Drained(s: State) { s.work.Idle? && s.queue == [] && s.feed == [] }

  predicate CachedRight(s: State, t: Title) { t in s.cache ==> Lookup(s.live, t) == Some(s.cache[t]) }

  /**
   Whatever the lag, the losses, the faults and the retries: a changed title is cached wrongly
   only while an event naming it is pending, after one was dropped, or after a move to it whose
   source had an event pending or was in doubt itself.
   */
  lemma WrongOnlyWhilePending(capacity: nat, live: Pages, cache: Pages, events: seq<Event>, t: Title)
    ensures var s := Run(Initial(capacity, live, cache), events);
            t in s.changed && !CachedRight(s, t) ==> Named(BooksOf(s).pending, t) || t in s.lost || t in s.raced
  {
    RunKeepsInv(capacity, live, cache, events);
  }

  /** Of any title, changed or not: cached wrongly, with nothing pending that names it, it is in doubt. */
  lemma WrongIsInDoubt(capacity: nat, live: Pages, cache: Pages, events: seq<Event>, t: Title)
    ensures var s := Run(Initial(capacity, live, cache), events);
            !CachedRight(s, t) ==> Named(BooksOf(s).pending, t) || t in s.unsure
  {
    RunKeepsInv(capacity, live, cache, events);
  }

  /** The event that a step drops: announced to a full queue, never announced, or given up. */
  function Dropped(s: State, e: Event): Option<CacheEvent> {
    match e
    case Deliver => if s.feed != [] && s.capacity > 0 && |s.queue| >= s.capacity then Some(s.feed[0]) else None
    case LoseAnnouncement => if s.feed != [] then Some(s.feed[0]) else None
    case Retry(stopped) => if s.work.Failed? && (s.work.attempt >= MAX_RETRIES || stopped) then Some(s.work.event) else None
    case _ => None
  }

  /** The change that a step of the wiki announces. */
  function Announced(s: State, e: Event): Option<CacheEvent> {
    match e
    case WikiEdit(t, _) => Some(CacheEvent.Edit(t))
    case WikiDelete(t) => if t in s.live then Some(CacheEvent.Delete(t)) else None
    case WikiMove(o, n, _) => if o in s.live && n !in s.live && o != n then Some(Move(o, n)) else None
    case _ => None
  }

  /** The step that ends the event in progress well: its command is sent and answered. */
  predicate Completes(s: State, e: Event) { e.Command? && e.ok && Writes(s) }

  /** Changes announced, less those applied and those dropped. */
  function LineAfter(s: State, e: Event): seq<CacheEvent> {
    var line := BooksOf(s).pending;
    if Announced(s, e).Some? then line + [Announced(s, e).value]
    else if Completes(s, e) && line != [] then line[1..]
    else if Dropped(s, e).Some? then
      // given up at the head of the line, or lost behind the queue
      (if e.Retry? then s.queue + s.feed else InProgress(s.work) + s.queue + if s.feed == [] then [] else s.feed[1..])
    else line
  }

  lemma WikiLine(s: State, e: Event)
    requires e.WikiEdit? || e.WikiDelete? || e.WikiMove?
    ensures BooksOf(Step(s, e)).pending == LineAfter(s, e)
  {
    if Announced(s, e).Some? {
      AnnouncedBooks(s, Announced(s, e).value);
    }
  }

  lemma FeedLine(s: State, e: Event)
    requires e.Deliver? || e.LoseAnnouncement? || e.Take?
    ensures BooksOf(Step(s, e)).pending == LineAfter(s, e)
  {
    if e.Deliver? && s.feed != [] && Dropped(s, e).None? {
      assert InProgress(s.work) + (s.queue + [s.feed[0]]) + s.feed[1..] == InProgress(s.work) + s.queue + s.feed;
    }
    if e.Take? {
      assert BooksOf(Step(s, Take)).pending == BooksOf(s).pending;
    }
  }

  lemma WorkLine(s: State, e: Event)
    requires e.Fetch? || e.Push? || e.Command? || e.Retry?
    ensures BooksOf(Step(s, e)).pending == LineAfter(s, e)
  {
    if !s.work.Idle? {
      HeadOfLine(s);
    }
    if e.Command? && Writes(s) {
      CommandIs(s, e.effect);
    }
  }

  /** Conservation: a step announces one change, applies the first of the line, drops one, or keeps the line as it is. */
  lemma LineIsKept(s: State, e: Event)
    ensures BooksOf(Step(s, e)).pending == LineAfter(s, e)
  {
    match e
    case WikiEdit(_, _) => WikiLine(s, e);
    case WikiDelete(_) => WikiLine(s, e);
    case WikiMove(_, _, _) => WikiLine(s, e);
    case Deliver => FeedLine(s, e);
    case LoseAnnouncement => FeedLine(s, e);
    case Take => FeedLine(s, e);
    case _ => WorkLine(s, e);
  }

  /** A move made while an event naming its source was pending, or its entry in doubt. */
  predicate MovesUncleanly(s: State, e: Event) { e.WikiMove? && Announced(s, e).Some? && !CleanMove(BooksOf(s), e.title) }

  function Count(s: State, events: seq<Event>, kind: (State, Event) -> bool): nat {
    if events == [] then 0
    else Count(s, events[..|events| - 1], kind) + if kind(Run(s, events[..|events| - 1]), events[|events| - 1]) then 1 else 0
  }

  predicate Announces(s: State, e: Event) { Announced(s, e).Some? }

  predicate Drops(s: State, e: Event) { Dropped(s, e).Some? }

  lemma LineCounts(s: State, e: Event)
    ensures |BooksOf(Step(s, e)).pending| + (if Completes(s, e) then 1 else 0) + (if Drops(s, e) then 1 else 0) ==
            |BooksOf(s).pending| + if Announces(s, e) then 1 else 0
  {
    LineIsKept(s, e);
    if !s.work.Idle? {
      HeadOfLine(s);
    }
  }

  /** Every change announced was applied, or was dropped, or is still pending, over every run. */
  lemma {:induction false} ChangesAccountedFor(capacity: nat, live: Pages, cache: Pages, events: seq<Event>)
    ensures var s := Initial(capacity, live, cache);
            Count(s, events, Announces) == Count(s, events, Completes) + Count(s, events, Drops) + |BooksOf(Run(s, events)).pending|
  {
    if events != [] {
      ChangesAccountedFor(capacity, live, cache, events[..|events| - 1]);
      LineCounts(Run(Initial(capacity, live, cache), events[..|events| - 1]), events[|events| - 1]);
    }
  }

  lemma HistoriesMove(s: State, e: Event, t: Title)
    ensures var next := Step(s, e);
            && (t in s.changed || Lookup(next.live, t) != Lookup(s.live, t) ==> t in next.changed)
            && (t in next.raced <==> t in s.raced || (MovesUncleanly(s, e) && e.newTitle == t))
            && (t in next.lost <==> t in s.lost || (Dropped(s, e).Some? && t in Names(Dropped(s, e).value)))
  {
  }

  predicate Sometime(s: State, events: seq<Event>, kind: (State, Event) -> bool) {
    events != [] &&
    (Sometime(s, events[..|events| - 1], kind) || kind(Run(s, events[..|events| - 1]), events[|events| - 1]))
  }

  /** Histories are true: titles whose text differs from the first one are changed, and exactly drops and unclean moves are excused. */
  lemma {:induction false} HistoriesAreTrue(capacity: nat, live: Pages, cache: Pages, events: seq<Event>, t: Title)
    ensures var start := Initial(capacity, live, cache);
            var s := Run(start, events);
            && (Lookup(s.live, t) != Lookup(live, t) ==> t in s.changed)
            && (t in s.raced <==> Sometime(start, events, (r, e) => MovesUncleanly(r, e) && e.newTitle == t))
            && (t in s.lost <==> Sometime(start, events, (r, e) => Dropped(r, e).Some? && t in Names(Dropped(r, e).value)))
  {
    if events != [] {
      HistoriesAreTrue(capacity, live, cache, events[..|events| - 1], t);
      HistoriesMove(Run(Initial(capacity, live, cache), events[..|events| - 1]), events[|events| - 1], t);
    }
  }

  /** A step that casts doubt on t: it drops an event naming t, or moves a page in doubt or not yet settled to t. */
  predicate Doubts(s: State, e: Event, t: Title) {
    || (Dropped(s, e).Some? && t in Names(Dropped(s, e).value))
    || (e.WikiMove? && e.newTitle == t && e.title in s.live && t !in s.live && !CleanMove(BooksOf(s), e.title))
  }

  /** A step that ends all doubt about t: the wiki edits, deletes or moves the page. */
  predicate Settling(s: State, e: Event, t: Title) {
    || (e.WikiEdit? && e.title == t)
    || (e.WikiDelete? && e.title == t && t in s.live)
    || (e.WikiMove? && e.title == t && t in s.live && e.newTitle !in s.live)
  }

  lemma DoubtMoves(s: State, e: Event, t: Title)
    ensures t in Step(s, e).unsure ==> t in s.unsure || Doubts(s, e, t)
    ensures Settling(s, e, t) ==> t !in Step(s, e).unsure
  {
  }

  /** No step from the m-th on casts doubt on t. */
  predicate Undoubted(s: State, events: seq<Event>, m: nat, t: Title) {
    |events| <= m ||
    (Undoubted(s, events[..|events| - 1], m, t) && !Doubts(Run(s, events[..|events| - 1]), events[|events| - 1], t))
  }

  lemma {:induction false} StaysUndoubted(s: State, events: seq<Event>, m: nat, t: Title)
    requires m < |events| && Settling(Run(s, events[..m]), events[m], t) && Undoubted(s, events, m + 1, t)
    ensures t !in Run(s, events).unsure
    decreases |events|
  {
    var n := |events| - 1;
    var before := Run(s, events[..n]);
    DoubtMoves(before, events[n], t);
    if m < n {
      assert events[..n][..m] == events[..m];
      StaysUndoubted(s, events[..n], m, t);
    }
  }

  /** The next change of a page heals it: whatever went wrong before, only later doubts count. */
  lemma ChangesHeal(capacity: nat, live: Pages, cache: Pages, events: seq<Event>, m: nat, t: Title)
    requires m < |events| && Settling(Run(Initial(capacity, live, cache), events[..m]), events[m], t)
    requires Undoubted(Initial(capacity, live, cache), events, m + 1, t)
    ensures var s := Run(Initial(capacity, live, cache), events);
            !CachedRight(s, t) ==> Named(BooksOf(s).pending, t)
  {
    StaysUndoubted(Initial(capacity, live, cache), events, m, t);
    WrongIsInDoubt(capacity, live, cache, events, t);
  }

  /**
   Once the line is empty, every cached title the wiki has changed is live, except after losses and
   after moves to it whose source had an event pending or was in doubt.
   */
  lemma DrainedCacheAgrees(capacity: nat, live: Pages, cache: Pages, events: seq<Event>)
    requires Drained(Run(Initial(capacity, live, cache), events))
    ensures var s := Run(Initial(capacity, live, cache), events);
            forall t :: t in s.changed && t !in s.lost && t !in s.raced ==> CachedRight(s, t)
  {
    RunKeepsInv(capacity, live, cache, events);
    assert BooksOf(Run(Initial(capacity, live, cache), events)).pending == [];
  }

  /** Edits, creations and deletions alone never make a title unclean. */
  lemma {:induction false} NoMovesNoRaces(capacity: nat, live: Pages, cache: Pages, events: seq<Event>)
    requires forall i :: 0 <= i < |events| ==> !events[i].WikiMove?
    ensures Run(Initial(capacity, live, cache), events).raced == {}
  {
    if events != [] {
      NoMovesNoRaces(capacity, live, cache, events[..|events| - 1]);
    }
  }

  // ---------------------------------------------------------------- where a move goes wrong

  lemma RunNext(s: State, events: seq<Event>, k: nat)
    requires k < |events|
    ensures Run(s, events[..k + 1]) == Step(Run(s, events[..k]), events[k])
  {
    assert events[..k + 1][..k] == events[..k];
  }

  function StaleMove(o: Title, n: Title, redirect: Option<Text>): seq<Event> {
    [WikiMove(o, n, redirect), Deliver, Take, Command(true, true)]
  }

  lemma WikiMovesStale(o: Title, n: Title, text: Text, stale: Text, redirect: Option<Text>)
    requires o != n && text != stale
    ensures Step(Initial(0, map[o := text], map[o := stale]), WikiMove(o, n, redirect)) ==
            State(0, Moved(map[o := text], o, n, redirect), map[o := stale], [Move(o, n)], [], Idle, {n}, {o, n}, {}, {n})
  {
    var start := Initial(0, map[o := text], map[o := stale]);
    assert start.unsure == {o};
    assert !CleanMove(BooksOf(start), o);
    assert start.unsure - {o} + {n} == {n};
    assert start.feed + [Move(o, n)] == [Move(o, n)];
  }

  lemma WorkerMovesStale(s: State, o: Title, n: Title, stale: Text)
    requires o != n && s.cache == map[o := stale] && s.feed == [Move(o, n)] && s.queue == [] && s.work.Idle? && s.capacity == 0
    ensures Step(Step(Step(s, Deliver), Take), Command(true, true)) == s.(feed := [], cache := map[n := stale])
  {
    assert Step(s, Deliver) == s.(feed := [], queue := [Move(o, n)]);
    var taken := s.(feed := [], work := Trying(Move(o, n), 0));
    assert Step(Step(s, Deliver), Take) == taken;
    assert Written(taken) == map[n := stale];
  }

  /** Nor does it take an event on its way: a stale entry of an unchanged page is moved to its new title. */
  lemma StaleMoveDisagrees(o: Title, n: Title, text: Text, stale: Text, redirect: Option<Text>)
    requires o != n && text != stale
    ensures var s := Run(Initial(0, map[o := text], map[o := stale]), StaleMove(o, n, redirect));
            && Drained(s) && s.lost == {} && n in s.changed && n in s.raced
            && Lookup(s.live, n) == Some(text) && Lookup(s.cache, n) == Some(stale) && !CachedRight(s, n)
  {
    var start, e := Initial(0, map[o := text], map[o := stale]), StaleMove(o, n, redirect);
    RunFour(start, e);
    WikiMovesStale(o, n, text, stale, redirect);
    WorkerMovesStale(Step(start, e[0]), o, n, stale);
  }

  lemma RunFour(s: State, e: seq<Event>)
    requires |e| == 4
    ensures Run(s, e) == Step(Step(Step(Step(s, e[0]), e[1]), e[2]), e[3])
  {
    assert e[..4] == e;
    forall k: nat | k < 4
      ensures Run(s, e[..k + 1]) == Step(Run(s, e[..k]), e[k])
    {
      RunNext(s, e, k);
    }
  }

  // ---------------------------------------------------------------- exactly when a move goes wrong

  /** What applying an event does to the cache, the wiki being at rest. */
  function AppliedLive(cache: Pages, e: CacheEvent, live: Pages): Pages {
    if e.Delete? then cache - {e.title}
    else if e.Move? && e.title in cache then Renamed(cache, e.title, e.newTitle)
    else if Target(e) in live then cache[Target(e) := live[Target(e)]]
    else cache - {Target(e)}
  }

  function Outcome(line: seq<CacheEvent>, cache: Pages, live: Pages): Pages {
    if line == [] then cache else AppliedLive(Outcome(line[..|line| - 1], cache, live), line[|line| - 1], live)
  }

  lemma {:induction false} OutcomeHead(e: CacheEvent, line: seq<CacheEvent>, cache: Pages, live: Pages)
    ensures Outcome([e] + line, cache, live) == Outcome(line, AppliedLive(cache, e, live), live)
    decreases |line|
  {
    var all := [e] + line;
    if line == [] {
      assert all == [e] && [e][..0] == [];
    } else {
      assert all[..|all| - 1] == [e] + line[..|line| - 1];
      OutcomeHead(e, line[..|line| - 1], cache, live);
    }
  }

  /**
   Where the text of t will come from once the line is applied: an edit brings live text, a deletion or
   a move away none, a move to t what its source has, and live text if that has none.
   */
  function Carried(line: seq<CacheEvent>, cache: Pages, live: Pages, t: Title): Option<Text> {
    if line == [] then Lookup(cache, t) else
    var before, e := line[..|line| - 1], line[|line| - 1];
    if t !in Names(e) then Carried(before, cache, live, t)
    else if e.Edit? then Lookup(live, t)
    else if e.Move? && t == e.newTitle then
      var brought := Carried(before, cache, live, e.title);
      if brought.Some? then brought else Lookup(live, t)
    else None
  }

  lemma {:induction false} OutcomeIsCarried(line: seq<CacheEvent>, cache: Pages, live: Pages, t: Title)
    ensures Lookup(Outcome(line, cache, live), t) == Carried(line, cache, live, t)
    decreases |line|
  {
    if line != [] {
      var before, e := line[..|line| - 1], line[|line| - 1];
      OutcomeIsCarried(before, cache, live, t);
      OutcomeIsCarried(before, cache, live, e.title);
    }
  }

  /** The cache and the line as they are, a fetched text counting as written. */
  function Due(s: State): (Pages, seq<CacheEvent>) {
    if s.work.Fetched? then (Written(s), s.queue + s.feed) else (s.cache, BooksOf(s).pending)
  }

  /** The wiki rests, and nothing fails, for a redirect or otherwise, or is dropped. */
  predicate CalmStep(s: State, e: Event) {
    match e
    case WikiEdit(_, _) => false
    case WikiDelete(_) => false
    case WikiMove(_, _, _) => false
    case Fetch(ok) => ok && (Fetches(s) ==> !RedirectAt(s.live, Target(s.work.event)))
    case Command(_, ok) => ok
    case _ => Dropped(s, e).None?
  }

  predicate Calm(s: State, events: seq<Event>) {
    events == [] || (Calm(s, events[..|events| - 1]) && CalmStep(Run(s, events[..|events| - 1]), events[|events| - 1]))
  }

  /** What will be in the cache once the line is applied. */
  function Expected(s: State): Pages { Outcome(Due(s).1, Due(s).0, s.live) }

  lemma LineUnfolds(s: State)
    ensures s.work.Idle? ==> BooksOf(s).pending == s.queue + s.feed
    ensures s.work.Trying? || s.work.Failed? ==> Expected(s) == Outcome(s.queue + s.feed, AppliedLive(s.cache, s.work.event, s.live), s.live)
  {
    if !s.work.Idle? {
      assert BooksOf(s).pending == [s.work.event] + (s.queue + s.feed);
      OutcomeHead(s.work.event, s.queue + s.feed, s.cache, s.live);
    }
  }

  lemma DeliveryIsDue(s: State)
    requires CalmStep(s, Deliver)
    ensures Step(s, Deliver).live == s.live && Due(Step(s, Deliver)) == Due(s)
  {
    var t := Step(s, Deliver);
    assert t.queue + t.feed == s.queue + s.feed;
    assert BooksOf(t).pending == BooksOf(s).pending;
  }

  lemma TakenIsDue(s: State)
    ensures Step(s, Take).live == s.live && Due(Step(s, Take)) == Due(s)
  {
    assert BooksOf(Step(s, Take)).pending == BooksOf(s).pending;
  }

  lemma RetriedIsDue(s: State, stopped: bool)
    requires CalmStep(s, Event.Retry(stopped))
    ensures Step(s, Event.Retry(stopped)).live == s.live && Due(Step(s, Event.Retry(stopped))) == Due(s)
  {
  }

  lemma FetchingDelivers(s: State)
    requires CalmStep(s, Fetch(true))
    ensures Step(s, Fetch(true)).live == s.live && Expected(Step(s, Fetch(true))) == Expected(s)
  {
    var t := Step(s, Fetch(true));
    if Fetches(s) {
      LineUnfolds(s);
      assert Written(t) == AppliedLive(s.cache, s.work.event, s.live);
    }
  }

  lemma PushingDelivers(s: State)
    ensures Step(s, Push).live == s.live && Expected(Step(s, Push)) == Expected(s)
  {
    if s.work.Fetched? && s.work.content.Some? {
      assert Written(Step(s, Push)) == Written(s);
    }
  }

  lemma CommandIs(s: State, effect: bool)
    ensures Step(s, Command(effect, true)) == if Writes(s) then s.(cache := Written(s), work := Idle) else s
  {
  }

  lemma IdleLine(s: State, cache: Pages)
    ensures Expected(s.(cache := cache, work := Idle)) == Outcome(s.queue + s.feed, cache, s.live)
  {
    LineUnfolds(s.(cache := cache, work := Idle));
  }

  lemma CommandingDelivers(s: State, effect: bool)
    ensures var t := Step(s, Command(effect, true)); t.live == s.live && Expected(t) == Expected(s)
  {
    CommandIs(s, effect);
    if Writes(s) {
      IdleLine(s, Written(s));
      if s.work.Trying? {
        LineUnfolds(s);
        assert Written(s) == AppliedLive(s.cache, s.work.event, s.live);
      }
    }
  }

  lemma CalmStepDelivers(s: State, e: Event)
    requires CalmStep(s, e)
    ensures Step(s, e).live == s.live && Expected(Step(s, e)) == Expected(s)
  {
    match e
    case Fetch(_) => FetchingDelivers(s);
    case Push => PushingDelivers(s);
    case Command(effect, _) => CommandingDelivers(s, effect);
    case LoseAnnouncement =>
    case Deliver => DeliveryIsDue(s);
    case Take => TakenIsDue(s);
    case Retry(stopped) => RetriedIsDue(s, stopped);
  }

  lemma {:induction false} CalmRunDelivers(s: State, events: seq<Event>)
    requires Calm(s, events)
    ensures Run(s, events).live == s.live && Expected(Run(s, events)) == Expected(s)
  {
    if events != [] {
      CalmRunDelivers(s, events[..|events| - 1]);
      CalmStepDelivers(Run(s, events[..|events| - 1]), events[|events| - 1]);
    }
  }

  /**
   From any state, once the wiki rests: every fault-free way of emptying the line leaves each title
   with exactly the text carried to it.  So it goes wrong if and only if that is not the live one.
   */
  lemma DrainedCarries(s: State, events: seq<Event>, t: Title)
    requires Calm(s, events) && Drained(Run(s, events))
    ensures var end, carried := Run(s, events), Carried(Due(s).1, Due(s).0, s.live, t);
            && end.live == s.live && Lookup(end.cache, t) == carried
            && (CachedRight(end, t) <==> carried.None? || carried == Lookup(s.live, t))
  {
    CalmRunDelivers(s, events);
    assert BooksOf(Run(s, events)).pending == [];
    OutcomeIsCarried(Due(s).1, Due(s).0, s.live, t);
  }

  lemma {:induction false} StepFirst(s: State, e: Event, rest: seq<Event>)
    ensures Run(s, [e] + rest) == Run(Step(s, e), rest)
    ensures CalmStep(s, e) && Calm(Step(s, e), rest) ==> Calm(s, [e] + rest)
    decreases |rest|
  {
    var all := [e] + rest;
    if rest == [] {
      assert all == [e] && [e][..0] == [];
      assert Run(s, []) == s && Calm(s, []);
    } else {
      assert all[..|all| - 1] == [e] + rest[..|rest| - 1];
      StepFirst(s, e, rest[..|rest| - 1]);
    }
  }

  function NextCalm(s: State): Event {
    match s.work
    case Failed(_, _) => Event.Retry(false)
    case Fetched(_, _, _) => Command(true, true)
    case Trying(_, _) => if Fetches(s) then Fetch(true) else Command(true, true)
    case Idle => if s.queue != [] then Take else Deliver
  }

  function Distance(work: Work): nat {
    match work case Idle => 0 case Fetched(_, _, _) => 1 case Trying(_, _) => 2 case Failed(_, _) => 3
  }

  /** No page that the line may have fetched is a redirect. */
  ghost predicate AllFetchable(s: State) {
    forall i :: 0 <= i < |BooksOf(s).pending| ==> !RedirectAt(s.live, Target(BooksOf(s).pending[i]))
  }

  lemma NextIsCalm(s: State)
    requires !Drained(s) && (s.work.Failed? ==> s.work.attempt < MAX_RETRIES) && AllFetchable(s)
    ensures var t := Step(s, NextCalm(s));
            && CalmStep(s, NextCalm(s)) && !t.work.Failed?
            && (2 * |t.feed| + |t.queue| < 2 * |s.feed| + |s.queue|
                || (t.feed == s.feed && t.queue == s.queue && Distance(t.work) < Distance(s.work)))
  {
    if !s.work.Idle? {
      HeadOfLine(s);
    }
  }

  lemma WorkMoves(s: State)
    requires !s.work.Idle? && (s.work.Failed? ==> s.work.attempt < MAX_RETRIES)
    ensures var t := Step(s, NextCalm(s));
            t.live == s.live && t.queue == s.queue && t.feed == s.feed && (t.work.Idle? || t.work.event == s.work.event)
  {
  }

  lemma LineMoves(s: State)
    requires !Drained(s) && s.work.Idle?
    ensures var t := Step(s, NextCalm(s));
            t.live == s.live && BooksOf(t).pending == BooksOf(s).pending
  {
    var t := Step(s, NextCalm(s));
    assert BooksOf(s).pending == s.queue + s.feed;
    if s.queue != [] {
      assert t == s.(work := Trying(s.queue[0], 0), queue := s.queue[1..]);
      assert BooksOf(t).pending == [s.queue[0]] + s.queue[1..] + s.feed;
    } else {
      assert t == s.(queue := s.queue + [s.feed[0]], feed := s.feed[1..]);
    }
  }

  lemma LineShortens(s: State)
    requires !Drained(s) && (s.work.Failed? ==> s.work.attempt < MAX_RETRIES)
    ensures var before, after := BooksOf(s).pending, BooksOf(Step(s, NextCalm(s))).pending;
            after == before || (before != [] && after == before[1..])
    ensures Step(s, NextCalm(s)).live == s.live
  {
    if s.work.Idle? {
      LineMoves(s);
    } else {
      HeadOfLine(s);
      WorkMoves(s);
      assert BooksOf(s).pending == [s.work.event] + (s.queue + s.feed);
    }
  }

  lemma StaysFetchable(s: State)
    requires !Drained(s) && (s.work.Failed? ==> s.work.attempt < MAX_RETRIES) && AllFetchable(s)
    ensures AllFetchable(Step(s, NextCalm(s)))
  {
    LineShortens(s);
  }

  /** Every line without redirects can be emptied without a fault, unless its head is just being given up. */
  lemma {:induction false} LinesDrainCalmly(s: State) returns (events: seq<Event>)
    requires (s.work.Failed? ==> s.work.attempt < MAX_RETRIES) && AllFetchable(s)
    ensures Calm(s, events) && Drained(Run(s, events))
    decreases 2 * |s.feed| + |s.queue|, Distance(s.work)
  {
    events := [];
    if !Drained(s) {
      NextIsCalm(s);
      StaysFetchable(s);
      var rest := LinesDrainCalmly(Step(s, NextCalm(s)));
      StepFirst(s, NextCalm(s), rest);
      events := [NextCalm(s)] + rest;
    }
  }

  /** The last event of the line that names o, if any does, is an edit. */
  predicate EditedLast(line: seq<CacheEvent>, o: Title) {
    line == [] || (if o in Names(line[|line| - 1]) then line[|line| - 1].Edit? else EditedLast(line[..|line| - 1], o))
  }

  lemma {:induction false} EditsCarryLive(line: seq<CacheEvent>, cache: Pages, live: Pages, o: Title)
    requires EditedLast(line, o)
    ensures Carried(line, cache, live, o) == Lookup(if Named(line, o) then live else cache, o)
    decreases |line|
  {
    if line != [] {
      var before, e := line[..|line| - 1], line[|line| - 1];
      assert line == before + [e];
      NamedAppend(before, e, o);
      if o !in Names(e) {
        EditsCarryLive(before, cache, live, o);
      }
    }
  }

  /** The wiki moves o to n, with or without a redirect, and may then create o anew. */
  function AfterMove(s: State, o: Title, n: Title, redirect: Option<Text>, anew: Option<Text>): State {
    var moved := Step(s, WikiMove(o, n, redirect));
    if anew.Some? then Step(moved, WikiEdit(o, anew.value)) else moved
  }

  /**
   The exact condition, at the move.  Of the events still to be applied, any number naming o, the last
   of those an edit; everything else in the line, the cache and the wiki as it may be; then the wiki moves o to n,
   may create o anew, and rests.  However the line is emptied without a fault, n is cached right if and only if
   an edit of o was pending and nothing stands at o now, or the moved text itself, or none was pending
   and what was cached of o, if anything, was right.
   */
  lemma MoveRightIff(s: State, o: Title, n: Title, redirect: Option<Text>, anew: Option<Text>, events: seq<Event>)
    requires o in s.live && n !in s.live && o != n && EditedLast(Due(s).1, o)
    requires var moved := AfterMove(s, o, n, redirect, anew); Calm(moved, events) && Drained(Run(moved, events))
    ensures var stands, end := Lookup(AfterMove(s, o, n, redirect, anew).live, o), Run(AfterMove(s, o, n, redirect, anew), events);
            CachedRight(end, n) <==>
            if Named(Due(s).1, o) then stands.None? || stands.value == s.live[o]
            else o in Due(s).0 ==> Due(s).0[o] == s.live[o]
  {
    var moved := AfterMove(s, o, n, redirect, anew);
    DrainedCarries(moved, events, n);
    MoveIsDue(s, o, n, redirect, anew);
    MoveCarries(Due(s).1, Due(s).0, moved.live, o, n, anew.Some?);
  }

  function MovedLine(line: seq<CacheEvent>, o: Title, n: Title, anew: bool): seq<CacheEvent> {
    line + [Move(o, n)] + if anew then [CacheEvent.Edit(o)] else []
  }

  lemma MoveIsDue(s: State, o: Title, n: Title, redirect: Option<Text>, anew: Option<Text>)
    requires o in s.live && n !in s.live && o != n
    ensures var moved := AfterMove(s, o, n, redirect, anew);
            && Due(moved).0 == Due(s).0 && Due(moved).1 == MovedLine(Due(s).1, o, n, anew.Some?)
            && Lookup(moved.live, n) == Some(s.live[o])
  {
    var moved := Step(s, WikiMove(o, n, redirect));
    AnnouncedBooks(s, Move(o, n));
    if anew.Some? {
      AnnouncedBooks(moved, CacheEvent.Edit(o));
    }
  }

  lemma MoveCarries(line: seq<CacheEvent>, cache: Pages, live: Pages, o: Title, n: Title, anew: bool)
    requires EditedLast(line, o) && o != n && n in live
    ensures var carried := Carried(MovedLine(line, o, n, anew), cache, live, n);
            (carried.None? || carried == Lookup(live, n)) <==>
            if Named(line, o) then Lookup(live, o).None? || Lookup(live, o) == Lookup(live, n) else o in cache ==> cache[o] == live[n]
  {
    var moved := line + [Move(o, n)];
    assert moved[..|line|] == line;
    assert (moved + [CacheEvent.Edit(o)])[..|moved|] == moved && moved + [] == moved;
    EditsCarryLive(line, cache, live, o);
  }

  // ---- two ways of going wrong without a fault, and one with

  predicate WikiRests(e: Event) { !e.WikiEdit? && !e.WikiDelete? && !e.WikiMove? }

  lemma {:induction false} CalmLosesNothing(s: State, events: seq<Event>)
    requires Calm(s, events)
    ensures Run(s, events).lost == s.lost && Run(s, events).raced == s.raced && Run(s, events).changed == s.changed
  {
    if events != [] {
      CalmLosesNothing(s, events[..|events| - 1]);
    }
  }

  /** The wiki edits o and moves it to n, and before the edit is applied, o is created anew. */
  function Lagging(o: Title, n: Title, before: Text, text: Text, redirect: Option<Text>, anew: Text): State {
    AfterMove(Step(Initial(0, map[o := before], map[]), WikiEdit(o, text)), o, n, redirect, Some(anew))
  }

  lemma LaggingIs(o: Title, n: Title, before: Text, text: Text, redirect: Option<Text>, anew: Text)
    requires o != n
    ensures var s := Lagging(o, n, before, text, redirect, anew);
            && Lookup(s.live, n) == Some(text) && Lookup(s.live, o) == Some(anew) && s.work.Idle? && s.queue == []
            && s.feed == [CacheEvent.Edit(o), Move(o, n), CacheEvent.Edit(o)] && s.cache == map[]
            && s.lost == {} && n in s.changed && n in s.raced
  {
    var edited := Step(Initial(0, map[o := before], map[]), WikiEdit(o, text));
    assert edited.feed == [CacheEvent.Edit(o)] && BooksOf(edited).pending == [CacheEvent.Edit(o)];
    assert o in Names(BooksOf(edited).pending[0]);
    assert [CacheEvent.Edit(o)] + [Move(o, n)] + [CacheEvent.Edit(o)] == [CacheEvent.Edit(o), Move(o, n), CacheEvent.Edit(o)];
  }

  /**
   Agreement after moves is not unconditional: here nothing is lost, and however the line is emptied without
   a fault, the text of the page created anew ends up cached under the new title.
   */
  lemma LaggingMoveDisagrees(o: Title, n: Title, before: Text, text: Text, redirect: Option<Text>, anew: Text, events: seq<Event>)
    requires o != n && text != anew
    requires var s := Lagging(o, n, before, text, redirect, anew); Calm(s, events) && Drained(Run(s, events))
    ensures var end := Run(Lagging(o, n, before, text, redirect, anew), events);
            && end.lost == {} && n in end.changed && n in end.raced
            && Lookup(end.live, n) == Some(text) && Lookup(end.cache, n) == Some(anew) && !CachedRight(end, n)
  {
    var s := Lagging(o, n, before, text, redirect, anew);
    LaggingIs(o, n, before, text, redirect, anew);
    CalmLosesNothing(s, events);
    DrainedCarries(s, events, n);
    var line := [CacheEvent.Edit(o), Move(o, n), CacheEvent.Edit(o)];
    assert BooksOf(s).pending == line;
    assert line[..2] == [CacheEvent.Edit(o), Move(o, n)] && line[..2][..1] == [CacheEvent.Edit(o)];
    assert Carried(line[..2][..1], s.cache, s.live, o) == Some(anew);
  }

  /** And there are such runs. */
  lemma LaggingMoveHappens(o: Title, n: Title, before: Text, text: Text, redirect: Option<Text>, anew: Text) returns (events: seq<Event>)
    requires o != n && !IsRedirect(text) && !IsRedirect(anew)
    ensures var s := Lagging(o, n, before, text, redirect, anew); Calm(s, events) && Drained(Run(s, events))
  {
    LaggingIs(o, n, before, text, redirect, anew);
    assert BooksOf(Lagging(o, n, before, text, redirect, anew)).pending == [CacheEvent.Edit(o), Move(o, n), CacheEvent.Edit(o)];
    events := LinesDrainCalmly(Lagging(o, n, before, text, redirect, anew));
  }

  /** A redirect at o, and an edit of o not yet fetched, or lost. */
  ghost predicate RedirectAwaits(s: State, o: Title) {
    RedirectAt(s.live, o) && (CacheEvent.Edit(o) in Due(s).1 || o in s.lost)
  }

  predicate Waits(s: State, e: CacheEvent) {
    ((s.work.Trying? || s.work.Failed?) && s.work.event == e) || e in s.queue || e in s.feed
  }

  lemma WaitsIff(s: State, e: CacheEvent)
    ensures e in Due(s).1 <==> Waits(s, e)
  {
    if s.work.Trying? || s.work.Failed? {
      assert Due(s).1 == [s.work.event] + (s.queue + s.feed);
    } else {
      assert Due(s).1 == s.queue + s.feed;
    }
  }

  lemma RedirectStep(s: State, e: Event, o: Title)
    requires RedirectAwaits(s, o) && WikiRests(e)
    ensures RedirectAwaits(Step(s, e), o)
  {
    WaitsIff(s, CacheEvent.Edit(o));
    WaitsIff(Step(s, e), CacheEvent.Edit(o));
    if o !in s.lost {
      WaitingStep(s, e, o);
    }
  }

  lemma WaitingStep(s: State, e: Event, o: Title)
    requires RedirectAt(s.live, o) && WikiRests(e) && Waits(s, CacheEvent.Edit(o))
    ensures Waits(Step(s, e), CacheEvent.Edit(o)) || o in Step(s, e).lost
  {
    match e
    case Deliver => assert s.feed != [] ==> s.feed == [s.feed[0]] + s.feed[1..];
    case LoseAnnouncement => assert s.feed != [] ==> s.feed == [s.feed[0]] + s.feed[1..];
    case Take => assert s.queue != [] ==> s.queue == [s.queue[0]] + s.queue[1..];
    case _ =>
  }

  /** Where a move left a redirect, an edit of the page that still waits is never applied, but dropped after all its retries. */
  lemma {:induction false} EditsBeforeRedirectAreLost(s: State, o: Title, events: seq<Event>)
    requires RedirectAwaits(s, o) && forall i :: 0 <= i < |events| ==> WikiRests(events[i])
    ensures RedirectAwaits(Run(s, events), o) && (Drained(Run(s, events)) ==> o in Run(s, events).lost)
  {
    if events != [] {
      EditsBeforeRedirectAreLost(s, o, events[..|events| - 1]);
      RedirectStep(Run(s, events[..|events| - 1]), events[|events| - 1], o);
    }
  }

  // ---------------------------------------------------------------- the cache object and its retries

  datatype FetchResult = Content(text: Text) | NoPage | FetchError

  /** How a Redis command can fail. */
  datatype Fault = Healthy | FailsBefore | FailsAfter

  /** What the outside does to one attempt: the fetch, the unchecked write inside it, the checked command. */
  datatype Try = Try(fetch: FetchResult, pushed: bool, fault: Fault)

  function Commanded(cache: Pages, written: Pages, fault: Fault): (Pages, bool) {
    (if fault.FailsBefore? then cache else written, fault.Healthy?)
  }

  function Refreshed(cache: Pages, t: Title, try: Try): (Pages, bool) {
    match try.fetch
    case FetchError => (cache, false)
    case NoPage => Commanded(cache, cache - {t}, try.fault)
    case Content(text) => Commanded(if try.pushed then cache[t := text] else cache, cache[t := text], try.fault)
  }

  function Applied(cache: Pages, e: CacheEvent, try: Try): (Pages, bool) {
    match e
    case Edit(t) => Refreshed(cache, t, try)
    case Delete(t) => Commanded(cache, cache - {t}, try.fault)
    case Move(o, n) =>
      if o in cache then Commanded(cache, Renamed(cache, o, n), try.fault) else Refreshed(cache, n, try)
  }

  /** Attempts from the k-th on; a stop signal ends the wait between two of them. */
  function Attempted(cache: Pages, e: CacheEvent, tries: seq<Try>, stops: seq<bool>, k: nat): (Pages, bool)
    requires |tries| == |stops| + 1 && k < |tries|
    decreases |tries| - k
  {
    var (next, ok) := Applied(cache, e, tries[k]);
    if ok then (next, true)
    else if k == |stops| || stops[k] then (next, false)
    else Attempted(next, e, tries, stops, k + 1)
  }

  /** The cache after the first n attempts, whatever became of them. */
  function CacheAfter(cache: Pages, e: CacheEvent, tries: seq<Try>, n: nat): Pages
    requires n <= |tries|
  {
    if n == 0 then cache else Applied(CacheAfter(cache, e, tries, n - 1), e, tries[n - 1]).0
  }

  predicate Succeeds(cache: Pages, e: CacheEvent, tries: seq<Try>, k: nat)
    requires k < |tries|
  {
    Applied(CacheAfter(cache, e, tries, k), e, tries[k]).1
  }

  /** Attempt k is the last: all before it failed without a stop after them, and it succeeds, is the sixth, or is stopped. */
  ghost predicate LastAttempt(cache: Pages, e: CacheEvent, tries: seq<Try>, stops: seq<bool>, k: nat) {
    && |tries| == |stops| + 1 && k < |tries|
    && (forall i :: 0 <= i < k ==> !Succeeds(cache, e, tries, i) && !stops[i])
    && (Succeeds(cache, e, tries, k) || k == |stops| || stops[k])
  }

  /** What a chain of attempts does, from the k-th on, is what its last one leaves. */
  lemma {:induction false} AttemptedIs(cache: Pages, e: CacheEvent, tries: seq<Try>, stops: seq<bool>, k: nat) returns (last: nat)
    requires |tries| == |stops| + 1 && k < |tries|
    requires forall i :: 0 <= i < k ==> !Succeeds(cache, e, tries, i) && !stops[i]
    ensures LastAttempt(cache, e, tries, stops, last)
    ensures Attempted(CacheAfter(cache, e, tries, k), e, tries, stops, k) ==
            (CacheAfter(cache, e, tries, last + 1), Succeeds(cache, e, tries, last))
    decreases |tries| - k
  {
    if Succeeds(cache, e, tries, k) || k == |stops| || stops[k] {
      last := k;
    } else {
      last := AttemptedIs(cache, e, tries, stops, k + 1);
    }
  }

  /** One attempt of the machine. */
  function AttemptSteps(s: State, try: Try): State {
    var fetched := Step(s, Fetch(!try.fetch.FetchError?));
    var pushed := if try.pushed then Step(fetched, Push) else fetched;
    Step(pushed, Command(try.fault.FailsAfter?, try.fault.Healthy?))
  }

  predicate SeesLive(s: State, try: Try)
    requires s.work.Trying?
  {
    && (try.fetch.Content? ==> Lookup(s.live, Target(s.work.event)) == Some(try.fetch.text) && !IsRedirect(try.fetch.text))
    && (try.fetch.NoPage? ==> Lookup(s.live, Target(s.work.event)) == None)
  }

  lemma FetchingAttempt(s: State, try: Try)
    requires s.work.Trying? && SeesLive(s, try) && Fetches(s)
    ensures var t, (cache, ok) := AttemptSteps(s, try), Refreshed(s.cache, Target(s.work.event), try);
            t.cache == cache && t.work == if ok then Idle else Failed(s.work.event, s.work.attempt)
  {
  }

  /** The object's `apply` is the machine's attempt, when the fetch sees the live page. */
  lemma ApplyIsAttempt(s: State, try: Try)
    requires s.work.Trying? && SeesLive(s, try)
    ensures var t, (cache, ok) := AttemptSteps(s, try), Applied(s.cache, s.work.event, try);
            t.cache == cache && t.work == if ok then Idle else Failed(s.work.event, s.work.attempt)
  {
    if Fetches(s) {
      FetchingAttempt(s, try);
    } else {
      assert Step(s, Fetch(!try.fetch.FetchError?)) == s && Step(s, Push) == s;
    }
  }

  /** The attempts and waits of the machine, from attempt k on, until it is done with the event. */
  function ChainSteps(s: State, tries: seq<Try>, stops: seq<bool>, k: nat): State
    requires |tries| == |stops| + 1 && k < |tries|
    decreases |tries| - k
  {
    var tried := AttemptSteps(s, tries[k]);
    var waited := Step(tried, Event.Retry(k < |stops| && stops[k]));
    if tried.work.Idle? then tried
    else if waited.work.Idle? || k == |stops| then waited
    else ChainSteps(waited, tries, stops, k + 1)
  }

  lemma AttemptKeepsRest(s: State, try: Try)
    ensures var t := AttemptSteps(s, try); t.live == s.live && t.lost == s.lost && t.queue == s.queue && t.feed == s.feed
  {
  }

  /** The wait after a failed attempt: another attempt follows unless it was the sixth or a stop came. */
  lemma WaitIs(s: State, stopped: bool)
    requires s.work.Failed?
    ensures var t, again := Step(s, Event.Retry(stopped)), s.work.attempt < MAX_RETRIES && !stopped;
            && t.live == s.live && t.cache == s.cache && t.lost == (if again then s.lost else s.lost + Names(s.work.event))
            && t.work == if again then Trying(s.work.event, s.work.attempt + 1) else Idle
  {
  }

  /**
   With the wiki at rest, what the object does with an event is what the machine does, wait for wait: it is done
   with the event after as many attempts, with the same cache, and drops it exactly if the object gives up.
   */
  lemma {:induction false} ChainIsAttempted(s: State, tries: seq<Try>, stops: seq<bool>, k: nat)
    requires |stops| == MAX_RETRIES && |tries| == MAX_RETRIES + 1 && k < |tries|
    requires s.work.Trying? && s.work.attempt == k && forall i :: 0 <= i < |tries| ==> SeesLive(s, tries[i])
    ensures var t, (cache, done) := ChainSteps(s, tries, stops, k), Attempted(s.cache, s.work.event, tries, stops, k);
            t.work.Idle? && t.cache == cache && t.lost == if done then s.lost else s.lost + Names(s.work.event)
    decreases |tries| - k
  {
    ApplyIsAttempt(s, tries[k]);
    AttemptKeepsRest(s, tries[k]);
    var tried := AttemptSteps(s, tries[k]);
    var waited := Step(tried, Event.Retry(k < |stops| && stops[k]));
    if !tried.work.Idle? {
      WaitIs(tried, k < |stops| && stops[k]);
    }
    if !tried.work.Idle? && !waited.work.Idle? {
      ChainIsAttempted(waited, tries, stops, k + 1);
    }
  }

  class EnglishWiktionaryCache {
    var redis: Pages

    constructor (redis: Pages)
      ensures this.redis == redis
    {
      this.redis := redis;
    }

    method Refresh(t: Title, try: Try) returns (ok: bool)
      modifies this
      ensures (redis, ok) == Refreshed(old(redis), t, try)
    {
      if try.fetch.FetchError? {
        return false;
      }
      if try.fetch.NoPage? {
        ok := DeletePage(t, try);
        return;
      }
      if try.pushed {
        redis := redis[t := try.fetch.text];
      }
      if !try.fault.FailsBefore? {
        redis := redis[t := try.fetch.text];
        assert redis == old(redis)[t := try.fetch.text];
      }
      return try.fault.Healthy?;
    }

    method DeletePage(t: Title, try: Try) returns (ok: bool)
      modifies this
      ensures (redis, ok) == Commanded(old(redis), old(redis) - {t}, try.fault)
    {
      if !try.fault.FailsBefore? {
        redis := redis - {t};
      }
      return try.fault.Healthy?;
    }

    method MovePage(o: Title, n: Title, try: Try) returns (ok: bool)
      modifies this
      ensures (redis, ok) == Applied(old(redis), Move(o, n), try)
    {
      if o in redis {
        if !try.fault.FailsBefore? {
          var text := redis[o];
          redis := redis - {o};
          redis := redis[n := text];
        }
        return try.fault.Healthy?;
      }
      ok := Refresh(n, try);
    }

    method Apply(e: CacheEvent, try: Try) returns (ok: bool)
      modifies this
      ensures (redis, ok) == Applied(old(redis), e, try)
    {
      match e
      case Edit(t) => ok := Refresh(t, try);
      case Delete(t) => ok := DeletePage(t, try);
      case Move(o, n) => ok := MovePage(o, n, try);
    }

    /** `_apply_with_retries`: six attempts at most, a wait after each failure but the last. */
    method ApplyWithRetries(e: CacheEvent, tries: seq<Try>, stops: seq<bool>) returns (done: bool)
      requires |stops| == MAX_RETRIES && |tries| == MAX_RETRIES + 1
      modifies this
      ensures (redis, done) == Attempted(old(redis), e, tries, stops, 0)
      // The last attempt decides: the first that succeeds, or is followed by a stop, or the sixth.
      ensures exists last: nat :: LastAttempt(old(redis), e, tries, stops, last)
                                  && redis == CacheAfter(old(redis), e, tries, last + 1) && done == Succeeds(old(redis), e, tries, last)
    {
      ghost var last := AttemptedIs(redis, e, tries, stops, 0);
      assert LastAttempt(redis, e, tries, stops, last);
      for attempt := 0 to MAX_RETRIES + 1
        invariant attempt <= MAX_RETRIES
        invariant Attempted(redis, e, tries, stops, attempt) == Attempted(old(redis), e, tries, stops, 0)
      {
        var ok := Apply(e, tries[attempt]);
        if ok {
          return true;
        }
        if attempt == MAX_RETRIES {
          return false;
        }
        if stops[attempt] {
          return false;
        }
      }
      return false;
    }
  }

  /**
   With the wiki at rest, a chain of attempts that ends well leaves the event's target right,
   although failed attempts before it may have taken effect.
   */
  lemma {:induction false} RetriesSettle(live: Pages, cache: Pages, e: CacheEvent, tries: seq<Try>, stops: seq<bool>, k: nat)
    requires |tries| == |stops| + 1 && k < |tries|
    requires e.Move? ==> e.title != e.newTitle
    requires !e.Delete? ==> forall i :: 0 <= i < |tries| ==>
                           (tries[i].fetch.Content? ==> Lookup(live, Target(e)) == Some(tries[i].fetch.text))
                           && (tries[i].fetch.NoPage? ==> Lookup(live, Target(e)) == None)
    requires e.Move? && e.title in cache ==> Lookup(live, Target(e)) == Some(cache[e.title])
    requires Attempted(cache, e, tries, stops, k).1
    ensures var settled := Attempted(cache, e, tries, stops, k).0;
            && (Target(e) in settled ==> !e.Delete? && Lookup(live, Target(e)) == Some(settled[Target(e)]))
            && (e.Move? ==> e.title !in settled)
    decreases |tries| - k
  {
    var (next, ok) := Applied(cache, e, tries[k]);
    if !ok {
      RetriesSettle(live, next, e, tries, stops, k + 1);
    }
  }
}
