/**
 Turning page-check failures into issues (scripts/page_check_agents.py): the only memory of what
 was reported is a marker in the body of each issue, which must therefore survive truncation and
 be the only marker there.
 */
module PageCheckTriage {
  import opened Wrappers

  const MAX_ISSUE_BODY_LENGTH: nat := 60000
  const MAX_WIKI_TITLE_LENGTH: nat := 500
  const MAX_EVIDENCE_LENGTH: nat := 45000
  const OPENING := "<!-- botjagwar-page-check-job:"
  const CLOSING := " -->"
  const TRUNCATED := "\n... evidence truncated ..."

  // ---------------------------------------------------------------- markers

  predicate IsIdChar(c: char) {
    'A' <= c <= 'Z' || 'a' <= c <= 'z' || '0' <= c <= '9' || c in "._-"
  }

  predicate IsJobId(s: string) {
    1 <= |s| <= 128 && forall i :: 0 <= i < |s| ==> IsIdChar(s[i])
  }

  /** An identifier has 1 to 128 letters, digits, dots, underscores or hyphens, in ASCII. */
  lemma JobIdsAre(s: string)
    ensures IsJobId(s) <==>
            && s != "" && |s| < 129
            && forall c :: c in s ==> 48 <= c as int <= 57 || 65 <= c as int <= 90 || 97 <= c as int <= 122 || c as int in {45, 46, 95}
  {
    assert forall i :: 0 <= i < |s| ==> s[i] in s;
  }

  /** How many identifier characters follow a position. */
  function IdRun(s: string, i: nat): (n: nat)
    requires i <= |s|
    ensures i + n <= |s|
    decreases |s| - i
  {
    if i < |s| && IsIdChar(s[i]) then 1 + IdRun(s, i + 1) else 0
  }

  predicate StartsAt(s: string, i: nat, t: string) {
    i + |t| <= |s| && s[i..i + |t|] == t
  }

  /**
   The identifier of the marker that begins at a position.  No identifier character is a space, so
   of the ways the pattern could match only the longest run can be followed by the closing.
   */
  function MarkerAt(s: string, i: nat): (r: Option<string>)
    ensures r.Some? ==> r.value != "" && i + |OPENING| + |r.value| + |CLOSING| <= |s|
  {
    if !StartsAt(s, i, OPENING) then None else
    var start := i + |OPENING|;
    var n := IdRun(s, start);
    if n > 0 && StartsAt(s, start + n, CLOSING) then Some(s[start..start + n]) else None
  }

  /** All identifiers found from a position on, left to right, without overlap. */
  function FindAll(s: string, i: nat): seq<string>
    decreases |s| - i
  {
    if i >= |s| then []
    else match MarkerAt(s, i)
         case None => FindAll(s, i + 1)
         case Some(id) => [id] + FindAll(s, i + |OPENING| + |id| + |CLOSING|)
  }

  lemma {:induction false} NothingFound(s: string, i: nat, j: nat)
    requires i <= j <= |s| && forall k :: i <= k < j ==> MarkerAt(s, k).None?
    ensures FindAll(s, i) == FindAll(s, j)
    decreases j - i
  {
    if i < j {
      NothingFound(s, i + 1, j);
    }
  }

  lemma MarkersOpen(s: string, i: nat)
    requires MarkerAt(s, i).Some?
    ensures i + 1 < |s| && s[i] == '<' && s[i + 1] == '!'
  {
    assert s[i] == s[i..i + |OPENING|][0] && s[i + 1] == s[i..i + |OPENING|][1];
  }

  lemma {:induction false} IdRunIs(s: string, i: nat, id: string)
    requires StartsAt(s, i, id) && i + |id| < |s| && !IsIdChar(s[i + |id|])
    requires forall k :: 0 <= k < |id| ==> IsIdChar(id[k])
    ensures IdRun(s, i) == |id|
    decreases |id|
  {
    if id != "" {
      assert s[i] == s[i..i + |id|][0] == id[0];
      assert s[i + 1..i + |id|] == id[1..];
      IdRunIs(s, i + 1, id[1..]);
    }
  }

  // ---------------------------------------------------------------- the text of an issue

  predicate Clear(s: string) { forall i :: 0 <= i < |s| ==> s[i] != '<' }

  datatype Phrases = Phrases(heading: string, job: string, created: string, links: string, goal: string, advice: string,
                             fixed: string, unverifiable: string, error: string)

  predicate Wording(p: Phrases) {
    && Clear(p.heading) && Clear(p.job) && Clear(p.created) && Clear(p.links) && Clear(p.goal) && Clear(p.advice)
    && Clear(p.fixed) && Clear(p.unverifiable) && Clear(p.error)
    && |p.heading| + |p.job| + |p.created| + |p.links| + |p.goal| + |p.advice| <= 600
    && |p.fixed| <= 100 && |p.unverifiable| <= 100 && |p.error| <= 100
  }

  /** The fixed sentences of an issue: short, and without an opening angle bracket. */
  type Text = p: Phrases | Wording(p) witness Phrases("", "", "", "", "", "", "", "", "")

  /** A rendered creation time, or the word for an unknown one. */
  type Timestamp = s: string | |s| <= 32 && Clear(s) witness ""

  // ---- percent-encoded links

  function Utf8(c: char): (bytes: seq<nat>)
    ensures 1 <= |bytes| <= 4 && forall i :: 0 <= i < |bytes| ==> bytes[i] < 256
  {
    var n := c as int;
    if n < 0x80 then [n]
    else if n < 0x800 then [0xC0 + n / 64, 0x80 + n % 64]
    else if n < 0x10000 then [0xE0 + n / 4096, 0x80 + n / 64 % 64, 0x80 + n % 64]
    else [0xF0 + n / 262144, 0x80 + n / 4096 % 64, 0x80 + n / 64 % 64, 0x80 + n % 64]
  }

  function HexDigit(d: nat): (c: char)
    requires d < 16
    ensures c != '<'
  {
    if d < 10 then '0' + d as char else 'A' + (d - 10) as char
  }

  function PercentBytes(bytes: seq<nat>): (r: string)
    requires forall i :: 0 <= i < |bytes| ==> bytes[i] < 256
    ensures |r| == 3 * |bytes| && Clear(r)
  {
    if bytes == [] then "" else ['%', HexDigit(bytes[0] / 16), HexDigit(bytes[0] % 16)] + PercentBytes(bytes[1..])
  }

  predicate Unreserved(c: char) {
    'A' <= c <= 'Z' || 'a' <= c <= 'z' || '0' <= c <= '9' || c in "_.-~"
  }

  /** urllib's quote with no safe characters. */
  function Quote(s: string): (r: string)
    ensures |r| <= 12 * |s| && Clear(r)
  {
    if s == "" then ""
    else (if Unreserved(s[0]) then [s[0]] else PercentBytes(Utf8(s[0]))) + Quote(s[1..])
  }

  // How a server reads a link: percent-encoded bytes, and UTF-8.

  function HexValue(c: char): nat {
    if '0' <= c <= '9' then c as int - 48 else if 'A' <= c <= 'F' then c as int - 55 else 0
  }

  function Unquoted(s: string): seq<nat> {
    if s == "" then []
    else if s[0] == '%' && |s| >= 3 then [16 * HexValue(s[1]) + HexValue(s[2])] + Unquoted(s[3..])
    else [s[0] as int] + Unquoted(s[1..])
  }

  /** The code points of a text in UTF-8. */
  function Decoded(bytes: seq<nat>): seq<int> {
    if bytes == [] then []
    else if bytes[0] >= 0xF0 && |bytes| >= 4 then
      [(bytes[0] - 0xF0) * 262144 + (bytes[1] - 0x80) * 4096 + (bytes[2] - 0x80) * 64 + (bytes[3] - 0x80)] + Decoded(bytes[4..])
    else if bytes[0] >= 0xE0 && |bytes| >= 3 then
      [(bytes[0] - 0xE0) * 4096 + (bytes[1] - 0x80) * 64 + (bytes[2] - 0x80)] + Decoded(bytes[3..])
    else if bytes[0] >= 0xC0 && |bytes| >= 2 then [(bytes[0] - 0xC0) * 64 + (bytes[1] - 0x80)] + Decoded(bytes[2..])
    else [bytes[0]] + Decoded(bytes[1..])
  }

  function Codes(s: string): seq<int> { seq(|s|, i requires 0 <= i < |s| => s[i] as int) }

  function Bytes(s: string): seq<nat> { if s == "" then [] else Utf8(s[0]) + Bytes(s[1..]) }

  lemma Regroup<T>(a: seq<T>, b: seq<T>, c: seq<T>)
    ensures (a + b) + c == a + (b + c)
  {
  }

  lemma {:induction false} UnquotedBytes(bytes: seq<nat>, rest: string)
    requires forall i :: 0 <= i < |bytes| ==> bytes[i] < 256
    ensures Unquoted(PercentBytes(bytes) + rest) == bytes + Unquoted(rest)
  {
    if bytes == [] {
      assert PercentBytes(bytes) + rest == rest && bytes + Unquoted(rest) == Unquoted(rest);
    } else {
      var first, more := ['%', HexDigit(bytes[0] / 16), HexDigit(bytes[0] % 16)], PercentBytes(bytes[1..]);
      UnquotedBytes(bytes[1..], rest);
      PercentReads(bytes[0], more + rest);
      Regroup(first, more, rest);
      Regroup([bytes[0]], bytes[1..], Unquoted(rest));
      assert bytes == [bytes[0]] + bytes[1..];
    }
  }

  lemma HexDigitsRead(b: nat)
    requires b < 256
    ensures 16 * HexValue(HexDigit(b / 16)) + HexValue(HexDigit(b % 16)) == b
  {
  }

  lemma PercentReads(b: nat, rest: string)
    requires b < 256
    ensures Unquoted(['%', HexDigit(b / 16), HexDigit(b % 16)] + rest) == [b] + Unquoted(rest)
  {
    var text := ['%', HexDigit(b / 16), HexDigit(b % 16)] + rest;
    HexDigitsRead(b);
    assert text[3..] == rest;
  }

  lemma {:induction false} QuotedBytes(s: string)
    ensures Unquoted(Quote(s)) == Bytes(s)
  {
    if s != "" {
      QuotedBytes(s[1..]);
      if Unreserved(s[0]) {
        assert Quote(s) == [s[0]] + Quote(s[1..]) && Quote(s)[1..] == Quote(s[1..]);
      } else {
        UnquotedBytes(Utf8(s[0]), Quote(s[1..]));
      }
    }
  }

  lemma SixBits(n: nat)
    ensures n / 64 * 64 + n % 64 == n
    ensures n / 4096 == n / 64 / 64 && n / 262144 == n / 4096 / 64
  {
  }

  /** Groups of six bits add up. */
  lemma GroupsAddUp(n: nat)
    ensures n / 4096 * 4096 + n / 64 % 64 * 64 + n % 64 == n
    ensures n / 262144 * 262144 + n / 4096 % 64 * 4096 + n / 64 % 64 * 64 + n % 64 == n
  {
    SixBits(n);
    SixBits(n / 64);
    SixBits(n / 4096);
  }

  lemma LongUtf8Reads(n: nat, rest: seq<nat>)
    requires 0x10000 <= n < 0x110000
    ensures Decoded([0xF0 + n / 262144, 0x80 + n / 4096 % 64, 0x80 + n / 64 % 64, 0x80 + n % 64] + rest) == [n] + Decoded(rest)
  {
    var bytes := [0xF0 + n / 262144, 0x80 + n / 4096 % 64, 0x80 + n / 64 % 64, 0x80 + n % 64] + rest;
    GroupsAddUp(n);
    assert bytes[4..] == rest;
  }

  lemma ShortUtf8Reads(n: nat, rest: seq<nat>)
    requires 0x800 <= n < 0x10000
    ensures Decoded([0xE0 + n / 4096, 0x80 + n / 64 % 64, 0x80 + n % 64] + rest) == [n] + Decoded(rest)
  {
    var bytes := [0xE0 + n / 4096, 0x80 + n / 64 % 64, 0x80 + n % 64] + rest;
    GroupsAddUp(n);
    assert bytes[3..] == rest;
  }

  lemma Utf8Reads(c: char, rest: seq<nat>)
    ensures Decoded(Utf8(c) + rest) == [c as int] + Decoded(rest)
  {
    var n := c as int;
    if n >= 0x10000 {
      LongUtf8Reads(n, rest);
    } else if n >= 0x800 {
      ShortUtf8Reads(n, rest);
    } else {
      SixBits(n);
      var bytes := Utf8(c) + rest;
      assert bytes[|Utf8(c)|..] == rest;
    }
  }

  /** Quoting reads back: a server decodes a quoted text to the very same one. */
  lemma {:induction false} QuoteReadsBack(s: string)
    ensures Decoded(Unquoted(Quote(s))) == Codes(s)
  {
    QuotedBytes(s);
    BytesReadBack(s);
  }

  lemma {:induction false} BytesReadBack(s: string)
    ensures Decoded(Bytes(s)) == Codes(s)
  {
    if s != "" {
      BytesReadBack(s[1..]);
      Utf8Reads(s[0], Bytes(s[1..]));
    }
  }

  /** A quoted text has only characters that need no quoting, and percent signs before two digits. */
  lemma UnreservedAre(c: char)
    ensures Unreserved(c) <==> 48 <= c as int <= 57 || 65 <= c as int <= 90 || 97 <= c as int <= 122 || c in {'_', '.', '-', '~'}
  {
  }

  /** Two or three lower-case letters. */
  lemma LanguagesAre(s: string)
    ensures IsLanguage(s) <==> (|s| == 2 || |s| == 3) && forall c :: c in s ==> 97 <= c as int <= 122
  {
    assert forall i :: 0 <= i < |s| ==> s[i] in s;
  }

  /** A link leads to the wiki of the language and, read back, to the title: its first 500 characters, blanks as underscores. */
  lemma LinksReadBack(language: string, title: string)
    requires IsLanguage(language)
    ensures var host, url := "https://" + language + ".wiktionary.org/wiki/", WikiUrl(language, title);
            && host <= url
            && var codes := Decoded(Unquoted(url[|host|..]));
               && |codes| == (if |title| <= 500 then |title| else 500)
               && forall i :: 0 <= i < |codes| ==> codes[i] == if title[i] == ' ' then '_' as int else title[i] as int
  {
    var host, shown := "https://" + language + ".wiktionary.org/wiki/", Underscored(Prefix(title, MAX_WIKI_TITLE_LENGTH));
    QuoteReadsBack(shown);
    assert WikiUrl(language, title)[|host|..] == Quote(shown);
  }

  predicate IsLanguage(s: string) { 2 <= |s| <= 3 && forall i :: 0 <= i < |s| ==> 'a' <= s[i] <= 'z' }

  function Underscored(s: string): (r: string)
    ensures |r| == |s|
  {
    seq(|s|, i requires 0 <= i < |s| => if s[i] == ' ' then '_' else s[i])
  }

  function Prefix(s: string, n: nat): string { if |s| <= n then s else s[..n] }

  function WikiUrl(language: string, title: string): (r: string)
    requires IsLanguage(language)
    ensures |r| <= 32 + 12 * |Prefix(title, MAX_WIKI_TITLE_LENGTH)| <= 6040 && Clear(r)
  {
    "https://" + language + ".wiktionary.org/wiki/" + Quote(Underscored(Prefix(title, MAX_WIKI_TITLE_LENGTH)))
  }

  // ---- evidence

  function EscapeChar(c: char): string {
    if c == '&' then "&amp;" else if c == '<' then "&lt;" else if c == '>' then "&gt;" else if c == '@' then "&#64;" else [c]
  }

  function EscapeHtml(s: string): (r: string)
    ensures Clear(r)
  {
    if s == "" then "" else EscapeChar(s[0]) + EscapeHtml(s[1..])
  }

  /** How a browser reads the evidence. */
  function Unescaped(s: string): string {
    if s == "" then ""
    else if "&amp;" <= s then "&" + Unescaped(s[5..])
    else if "&lt;" <= s then "<" + Unescaped(s[4..])
    else if "&gt;" <= s then ">" + Unescaped(s[4..])
    else if "&#64;" <= s then "@" + Unescaped(s[5..])
    else [s[0]] + Unescaped(s[1..])
  }

  lemma UnescapedOne(c: char, rest: string)
    ensures Unescaped(EscapeChar(c) + rest) == [c] + Unescaped(rest)
  {
    var s := EscapeChar(c) + rest;
    assert s[|EscapeChar(c)|..] == rest;
    if c != '&' && c != '<' && c != '>' && c != '@' {
      PlainStays(c, rest);
    } else {
      assert EscapeChar(c) <= s && s != "" && s[1] == EscapeChar(c)[1] && s[2] == EscapeChar(c)[2];
      assert "&amp;" <= s ==> s[1] == "&amp;"[1];
      assert "&lt;" <= s ==> s[1] == "&lt;"[1];
      assert "&gt;" <= s ==> s[1] == "&gt;"[1];
    }
  }

  lemma PlainStays(c: char, rest: string)
    requires c != '&'
    ensures Unescaped([c] + rest) == [c] + Unescaped(rest)
  {
    var s := [c] + rest;
    assert s[0] == c && s[1..] == rest;
    assert "&amp;"[0] == '&' && "&lt;"[0] == '&' && "&gt;"[0] == '&' && "&#64;"[0] == '&';
  }

  /** Escaping reads back, and leaves no angle bracket and no at sign, which would notify people. */
  lemma {:induction false} EscapeReadsBack(s: string)
    ensures Unescaped(EscapeHtml(s)) == s
    ensures forall c :: c in EscapeHtml(s) ==> c != '<' && c != '>' && c != '@'
  {
    if s != "" {
      EscapeReadsBack(s[1..]);
      UnescapedOne(s[0], EscapeHtml(s[1..]));
      EscapedIsQuiet(s);
    }
  }

  lemma {:induction false} EscapedIsQuiet(s: string)
    ensures forall c :: c in EscapeHtml(s) ==> c != '<' && c != '>' && c != '@'
  {
    if s != "" {
      EscapedIsQuiet(s[1..]);
      assert forall c :: c in EscapeChar(s[0]) ==> c != '<' && c != '>' && c != '@';
    }
  }

  /** Evidence of up to 45000 escaped characters is shown whole; of more, exactly the first 45000. */
  lemma EvidenceIsWhole(raw: string)
    ensures |EscapeHtml(raw)| <= 45_000 ==> Unescaped(RenderEvidence(raw)) == raw
    ensures |EscapeHtml(raw)| > 45_000 ==> RenderEvidence(raw) == EscapeHtml(raw)[..45_000] + "\n... evidence truncated ..."
  {
    EscapeReadsBack(raw);
  }

  function Cut(s: string, n: nat): (r: string)
    requires Clear(s) && n <= |s|
    ensures Clear(r) && |r| == n + |TRUNCATED|
  {
    s[..n] + TRUNCATED
  }

  function RenderEvidence(raw: string): (r: string)
    ensures Clear(r) && |r| <= MAX_EVIDENCE_LENGTH + |TRUNCATED|
  {
    var escaped := EscapeHtml(raw);
    if |escaped| > MAX_EVIDENCE_LENGTH then Cut(escaped, MAX_EVIDENCE_LENGTH) else escaped
  }

  // ---------------------------------------------------------------- jobs and their outcomes

  datatype Outcome = Good | Fixed | Unverifiable | Error | Pending | Running

  type Problem = o: Outcome | o in {Fixed, Unverifiable, Error} witness Error

  datatype Status = IsPending | IsRunning | IsDone | IsOther

  /** One checked page; a field that is missing or of the wrong type is None. */
  datatype CheckResult = CheckResult(isMapping: bool, status: Option<string>, sourceLanguage: Option<string>, sourceTitle: Option<string>)

  /** A job as the checker's API returns it; title is its first usable page title. */
  datatype Job = Job(id: Option<string>, language: Option<string>, status: Status, counts: Option<map<string, Option<int>>>,
                     results: Option<seq<CheckResult>>, title: string, evidence: string, created: Timestamp)

  function Name(o: Outcome): string {
    match o
    case Good => "good" case Fixed => "fixed" case Unverifiable => "unverifiable"
    case Error => "error" case Pending => "pending" case Running => "running"
  }

  const OUTCOME_PRIORITY: seq<Outcome> := [Error, Unverifiable, Fixed, Good]

  predicate Known(name: string) { name in {"error", "unverifiable", "fixed", "good"} }

  function CountOf(counts: map<string, Option<int>>, o: Outcome): int {
    if Name(o) in counts && counts[Name(o)].Some? then counts[Name(o)].value else 0
  }

  predicate HasVerdict(results: seq<CheckResult>, o: Outcome) {
    exists i :: 0 <= i < |results| && results[i].status == Some(Name(o))
  }

  predicate CountsValid(counts: map<string, Option<int>>) {
    forall k :: k in counts ==> Known(k) && counts[k].Some? && counts[k].value >= 0
  }

  predicate ResultsValid(results: seq<CheckResult>) {
    forall i :: 0 <= i < |results| ==> results[i].isMapping && results[i].status.Some? && Known(results[i].status.value)
  }

  function FromResults(job: Job): Outcome {
    if job.results.None? || job.results.value == [] || !ResultsValid(job.results.value) then Error
    else if HasVerdict(job.results.value, Error) then Error
    else if HasVerdict(job.results.value, Unverifiable) then Unverifiable
    else if HasVerdict(job.results.value, Fixed) then Fixed
    else if HasVerdict(job.results.value, Good) then Good
    else Error
  }

  function Classify(job: Job): Outcome {
    match job.status
    case IsPending => Pending
    case IsRunning => Running
    case IsOther => Error
    case IsDone =>
      if job.counts.None? then FromResults(job)
      else if !CountsValid(job.counts.value) then Error
      else if CountOf(job.counts.value, Error) > 0 then Error
      else if CountOf(job.counts.value, Unverifiable) > 0 then Unverifiable
      else if CountOf(job.counts.value, Fixed) > 0 then Fixed
      else if CountOf(job.counts.value, Good) > 0 then Good
      else FromResults(job)
  }

  /** How bad an outcome is; a job is as bad as its worst page. */
  function Severity(o: Outcome): nat {
    match o case Error => 3 case Unverifiable => 2 case Fixed => 1 case _ => 0
  }

  /** The counts say nothing: there are none, or all are zero. */
  predicate NothingCounted(job: Job) {
    job.counts.Some? ==> CountsValid(job.counts.value) && forall o :: o in OUTCOME_PRIORITY ==> CountOf(job.counts.value, o) <= 0
  }

  /**
   A job that finished is classified by its worst counted outcome, by its worst result if nothing is
   counted, and as an error if neither can be read.
   */
  lemma ClassifiedByWorst(job: Job)
    requires job.status.IsDone?
    ensures Severity(Error) > Severity(Unverifiable) > Severity(Fixed) > Severity(Good)
    ensures job.counts.Some? && !CountsValid(job.counts.value) ==> Classify(job) == Error
    ensures job.counts.Some? && CountsValid(job.counts.value) ==>
              forall o :: o in OUTCOME_PRIORITY && CountOf(job.counts.value, o) > 0 ==>
                CountOf(job.counts.value, Classify(job)) > 0 && Severity(o) <= Severity(Classify(job))
    ensures NothingCounted(job) && job.results.Some? && job.results.value != [] && ResultsValid(job.results.value) ==>
              HasVerdict(job.results.value, Classify(job)) &&
              forall o :: o in OUTCOME_PRIORITY && HasVerdict(job.results.value, o) ==> Severity(o) <= Severity(Classify(job))
    ensures NothingCounted(job) && (job.results.None? || job.results.value == [] || !ResultsValid(job.results.value)) ==>
              Classify(job) == Error
  {
    if job.results.Some? && job.results.value != [] && ResultsValid(job.results.value) {
      var first := job.results.value[0].status;
      assert Known(first.value);
    }
  }

  /** A job that has not finished is what its status says, and an error if that is none of the known ones. */
  lemma UnfinishedAre(job: Job)
    ensures job.status.IsPending? ==> Classify(job) == Pending
    ensures job.status.IsRunning? ==> Classify(job) == Running
    ensures job.status.IsOther? ==> Classify(job) == Error
  {
  }

  /** What makes counts and results unreadable. */
  lemma UnreadableIff(counts: map<string, Option<int>>, results: seq<CheckResult>)
    ensures !CountsValid(counts) <==>
            exists k :: k in counts && (!(k == "error" || k == "unverifiable" || k == "fixed" || k == "good") || counts[k].None? || counts[k].value < 0)
    ensures !ResultsValid(results) <==>
            exists i :: 0 <= i < |results| && !(results[i].isMapping && results[i].status in
                          {Some("error"), Some("unverifiable"), Some("fixed"), Some("good")})
  {
  }

  /** Outcomes are counted, and read from results, under their names. */
  lemma NamesAre(counts: map<string, Option<int>>, results: seq<CheckResult>)
    ensures "error" in counts && counts["error"].Some? ==> CountOf(counts, Error) == counts["error"].value
    ensures "unverifiable" in counts && counts["unverifiable"].Some? ==> CountOf(counts, Unverifiable) == counts["unverifiable"].value
    ensures "fixed" in counts && counts["fixed"].Some? ==> CountOf(counts, Fixed) == counts["fixed"].value
    ensures "good" in counts && counts["good"].Some? ==> CountOf(counts, Good) == counts["good"].value
    ensures HasVerdict(results, Error) <==> exists i :: 0 <= i < |results| && results[i].status == Some("error")
    ensures HasVerdict(results, Unverifiable) <==> exists i :: 0 <= i < |results| && results[i].status == Some("unverifiable")
    ensures HasVerdict(results, Fixed) <==> exists i :: 0 <= i < |results| && results[i].status == Some("fixed")
    ensures HasVerdict(results, Good) <==> exists i :: 0 <= i < |results| && results[i].status == Some("good")
  {
  }

  method ClassifyJob(job: Job) returns (outcome: Outcome)
    ensures outcome == Classify(job)
  {
    match job.status {
      case IsPending => return Pending;
      case IsRunning => return Running;
      case IsOther => return Error;
      case IsDone =>
    }
    if job.counts.Some? {
      if !CountsValid(job.counts.value) {
        return Error;
      }
      for i := 0 to |OUTCOME_PRIORITY|
        invariant forall k :: 0 <= k < i ==> CountOf(job.counts.value, OUTCOME_PRIORITY[k]) <= 0
      {
        if CountOf(job.counts.value, OUTCOME_PRIORITY[i]) > 0 {
          assert i > 0 ==> CountOf(job.counts.value, OUTCOME_PRIORITY[0]) <= 0;
          assert i > 1 ==> CountOf(job.counts.value, OUTCOME_PRIORITY[1]) <= 0;
          assert i > 2 ==> CountOf(job.counts.value, OUTCOME_PRIORITY[2]) <= 0;
          return OUTCOME_PRIORITY[i];
        }
      }
      assert forall o :: o in OUTCOME_PRIORITY ==> CountOf(job.counts.value, o) <= 0;
    }
    if job.results.None? || job.results.value == [] || !ResultsValid(job.results.value) {
      return Error;
    }
    for i := 0 to |OUTCOME_PRIORITY|
      invariant forall k :: 0 <= k < i ==> !HasVerdict(job.results.value, OUTCOME_PRIORITY[k])
    {
      if HasVerdict(job.results.value, OUTCOME_PRIORITY[i]) {
        return OUTCOME_PRIORITY[i];
      }
    }
    return Error;
  }

  // ---------------------------------------------------------------- the body

  function Goal(text: Text, outcome: Problem): string {
    match outcome
    case Fixed => text.fixed
    case Unverifiable => text.unverifiable
    case Error => text.error
  }

  function WikiLink(opening: string, language: string, title: string): (r: string)
    requires IsLanguage(language) && |opening| <= 27 && Clear(opening)
    ensures |r| <= 6070 && Clear(r)
  {
    opening + WikiUrl(language, title) + ")"
  }

  /** A link to the source page of the first result that names one. */
  function SourceLink(results: seq<CheckResult>): (r: Option<string>)
    ensures r.Some? ==> |r.value| <= 6070 && Clear(r.value)
  {
    if results == [] then None
    else
      var first := results[0];
      if first.isMapping && first.sourceLanguage.Some? && IsLanguage(first.sourceLanguage.value)
         && first.sourceTitle.Some? && first.sourceTitle.value != ""
      then Some(WikiLink("- [Source Wiktionary page](", first.sourceLanguage.value, first.sourceTitle.value))
      else SourceLink(results[1..])
  }

  function TargetLink(job: Job): (r: Option<string>)
    ensures r.Some? ==> |r.value| <= 6070 && Clear(r.value)
  {
    if job.language.Some? && IsLanguage(job.language.value)
    then Some(WikiLink("- [Target Wiktionary page](", job.language.value, job.title))
    else None
  }

  function Links(job: Job): (r: string)
    ensures |r| <= 12141 && Clear(r)
  {
    match (TargetLink(job), SourceLink(if job.results.Some? then job.results.value else []))
    case (Some(target), Some(source)) => target + "\n" + source
    case (Some(target), None) => target
    case (None, Some(source)) => source
    case (None, None) => ""
  }

  function Join(a: string, b: string): (r: string)
    requires Clear(a) && Clear(b)
    ensures |r| == |a| + |b| && Clear(r)
  {
    a + b
  }

  function Report(text: Text, id: string, job: Job, outcome: Problem): (r: string)
    requires IsJobId(id)
    ensures |r| == |text.heading| + |Name(outcome)| + |text.job| + |id| + |text.created| + |job.created| && Clear(r)
  {
    Join(Join(Join(text.heading, Name(outcome)), Join(text.job, id)), Join(text.created, job.created))
  }

  function Instructions(text: Text, job: Job, outcome: Problem): (r: string)
    ensures |r| == |text.links| + |Links(job)| + |text.goal| + |Goal(text, outcome)| + |text.advice| && Clear(r)
  {
    Join(Join(text.links, Links(job)), Join(text.goal, Join(Goal(text, outcome), text.advice)))
  }

  function Head(text: Text, id: string, job: Job, outcome: Problem): (r: string)
    requires IsJobId(id)
    ensures |r| <= 13100 && Clear(r)
  {
    Join(Report(text, id, job, outcome), Instructions(text, job, outcome))
  }

  function Suffix(id: string): string {
    "</pre>\n\n" + OPENING + id + CLOSING + "\n"
  }

  /** The body of an issue; evidence that would not fit is cut, but never the marker after it. */
  function Body(text: Text, id: string, job: Job, outcome: Problem): string
    requires IsJobId(id)
  {
    var prefix, suffix := Head(text, id, job, outcome) + "<pre>", Suffix(id);
    prefix + Fitted(RenderEvidence(job.evidence), MAX_ISSUE_BODY_LENGTH - |prefix| - |suffix|) + suffix
  }

  function Fitted(evidence: string, available: int): (r: string)
    requires Clear(evidence)
    ensures Clear(r) && (available >= 0 ==> |r| <= available) && (|evidence| <= available ==> r == evidence)
  {
    var available := if available < 0 then 0 else available;
    if |evidence| <= available then evidence
    else Prefix(Cut(evidence, if available < |TRUNCATED| then 0 else available - |TRUNCATED|), available)
  }

  /** A result that names a page of a Wiktionary. */
  predicate NamesPage(r: CheckResult) {
    r.isMapping && r.sourceLanguage.Some? && IsLanguage(r.sourceLanguage.value) && r.sourceTitle.Some? && r.sourceTitle.value != ""
  }

  /** The source link is that of the first result that names a page. */
  lemma {:induction false} SourceLinkIs(results: seq<CheckResult>)
    ensures SourceLink(results).None? <==> forall i :: 0 <= i < |results| ==> !NamesPage(results[i])
    ensures SourceLink(results).Some? ==> exists i :: LinkedFirst(results, i, SourceLink(results).value)
  {
    if results != [] {
      SourceLinkIs(results[1..]);
      if NamesPage(results[0]) {
        assert LinkedFirst(results, 0, SourceLink(results).value);
      } else {
        assert forall i :: 0 <= i < |results| - 1 ==> results[1..][i] == results[i + 1];
        if SourceLink(results).Some? {
          var i :| LinkedFirst(results[1..], i, SourceLink(results).value);
          assert LinkedFirst(results, i + 1, SourceLink(results).value);
        }
      }
    }
  }

  ghost predicate LinkedFirst(results: seq<CheckResult>, i: int, link: string) {
    && 0 <= i < |results| && NamesPage(results[i]) && (forall k :: 0 <= k < i ==> !NamesPage(results[k]))
    && link == "- [Source Wiktionary page](" + WikiUrl(results[i].sourceLanguage.value, results[i].sourceTitle.value) + ")"
  }

  lemma Regrouped(a: string, b: string, c: string, d: string, e: string, f: string)
    ensures ((a + b) + (c + d)) + (e + f) == a + b + c + d + e + f
    ensures (a + b) + (c + (d + e)) == a + b + c + d + e
  {
  }

  /** The report names the outcome, the job and its time. */
  lemma ReportIs(text: Text, id: string, job: Job, outcome: Problem)
    requires IsJobId(id)
    ensures var name := if outcome == Fixed then "fixed" else if outcome == Unverifiable then "unverifiable" else "error";
            Report(text, id, job, outcome) == text.heading + name + text.job + id + text.created + job.created
  {
    Regrouped(text.heading, Name(outcome), text.job, id, text.created, job.created);
  }

  /** The links that can be made, and the goal of the outcome. */
  lemma InstructionsAre(text: Text, job: Job, outcome: Problem)
    ensures var goal := if outcome == Fixed then text.fixed else if outcome == Unverifiable then text.unverifiable else text.error;
            Instructions(text, job, outcome) == text.links + Links(job) + text.goal + goal + text.advice
  {
    Regrouped(text.links, Links(job), text.goal, Goal(text, outcome), text.advice, "");
  }

  lemma LinksAre(job: Job)
    ensures var source := SourceLink(if job.results.Some? then job.results.value else []);
            var target := if job.language.Some? && IsLanguage(job.language.value)
                          then Some(WikiLink("- [Target Wiktionary page](", job.language.value, job.title)) else None;
            Links(job) == if target.None? then (if source.None? then "" else source.value)
                          else if source.None? then target.value else target.value + "\n" + source.value
  {
  }

  /** The layout of a body: the report, the instructions, the evidence and the marker. */
  lemma BodyIs(text: Text, id: string, job: Job, outcome: Problem)
    requires IsJobId(id)
    ensures Body(text, id, job, outcome) ==
            (Report(text, id, job, outcome) + Instructions(text, job, outcome)) + "<pre>" + RenderEvidence(job.evidence)
            + ("</pre>\n\n" + "<!-- botjagwar-page-check-job:" + id + " -->" + "\n")
  {
    BodiesFit(text, id, job, outcome);
  }

  /** Whatever the job holds, its body fits the limit, and no evidence is lost to fit it. */
  lemma BodiesFit(text: Text, id: string, job: Job, outcome: Problem)
    requires IsJobId(id)
    ensures |Body(text, id, job, outcome)| <= MAX_ISSUE_BODY_LENGTH
    ensures Body(text, id, job, outcome) == Head(text, id, job, outcome) + "<pre>" + RenderEvidence(job.evidence) + Suffix(id)
  {
  }

  lemma MarkerStands(before: string, id: string)
    requires IsJobId(id)
    ensures MarkerAt(before + OPENING + id + CLOSING + "\n", |before|) == Some(id)
  {
    var s := before + OPENING + id + CLOSING + "\n";
    var start := |before| + |OPENING|;
    assert StartsAt(s, |before|, OPENING);
    assert StartsAt(s, start, id);
    assert StartsAt(s, start + |id|, CLOSING);
    assert s[start + |id|] == ' ';
    IdRunIs(s, start, id);
  }

  lemma LastMarker(s: string, m: nat, id: string)
    requires MarkerAt(s, m) == Some(id) && |s| == m + |OPENING| + |id| + |CLOSING| + 1
    ensures FindAll(s, m) == [id]
  {
    var end := m + |OPENING| + |id| + |CLOSING|;
    assert FindAll(s, end + 1) == [];
    assert MarkerAt(s, end).None?;
  }

  /** The marker pattern finds the job's own identifier in its body, and nothing else. */
  lemma BodiesNameTheirJob(text: Text, id: string, job: Job, outcome: Problem)
    requires IsJobId(id)
    ensures FindAll(Body(text, id, job, outcome), 0) == [id]
  {
    BodiesFit(text, id, job, outcome);
    MarkerAlone(Head(text, id, job, outcome), RenderEvidence(job.evidence), id);
  }

  lemma MarkerAlone(head: string, evidence: string, id: string)
    requires IsJobId(id) && Clear(head) && Clear(evidence)
    ensures FindAll(head + "<pre>" + evidence + Suffix(id), 0) == [id]
  {
    var before := head + "<pre>" + evidence + "</pre>\n\n";
    var body := before + OPENING + id + CLOSING + "\n";
    assert head + "<pre>" + evidence + Suffix(id) == body;
    MarkerStands(before, id);
    LastMarker(body, |before|, id);
    forall k: nat | k < |before|
      ensures MarkerAt(body, k).None?
    {
      NoMarkerBefore(head, evidence, id, k);
    }
    NothingFound(body, 0, |before|);
  }

  lemma NoMarkerBefore(head: string, evidence: string, id: string, k: nat)
    requires Clear(head) && Clear(evidence) && k < |head + "<pre>" + evidence + "</pre>\n\n"|
    ensures MarkerAt(head + "<pre>" + evidence + "</pre>\n\n" + OPENING + id + CLOSING + "\n", k).None?
  {
    var before := head + "<pre>" + evidence + "</pre>\n\n";
    var body := before + OPENING + id + CLOSING + "\n";
    if MarkerAt(body, k).Some? {
      MarkersOpen(body, k);
      NoBang(head, evidence, k);
    }
  }

  /** Before the marker, no opening angle bracket is followed by an exclamation mark. */
  lemma NoBang(head: string, evidence: string, k: nat)
    requires Clear(head) && Clear(evidence)
    requires k < |head + "<pre>" + evidence + "</pre>\n\n"|
    ensures var before := head + "<pre>" + evidence + "</pre>\n\n";
            before[k] == '<' ==> k + 1 < |before| && before[k + 1] != '!'
  {
    var n, m := |head|, |head| + 5 + |evidence|;
    var before := head + "<pre>" + evidence + "</pre>\n\n";
    if k < n {
      assert before[k] == head[k];
    } else if k < n + 5 {
      assert before[n..n + 5] == "<pre>";
    } else if k < m {
      assert before[k] == evidence[k - n - 5];
    } else {
      assert before[m..] == "</pre>\n\n";
    }
  }

  // ---------------------------------------------------------------- triage

  /** What renders the body of an issue for a job and its outcome. */
  type Draft = (string, Job, Outcome) -> string

  function Drafts(text: Text): Draft {
    (id, job, outcome) =>
      if IsJobId(id) && outcome in {Fixed, Unverifiable, Error} then Body(text, id, job, outcome) else ""
  }

  ghost predicate NamesJobs(draft: Draft) {
    forall id, job, outcome :: IsJobId(id) && outcome in {Fixed, Unverifiable, Error} ==> FindAll(draft(id, job, outcome), 0) == [id]
  }

  lemma DraftsNameJobs(text: Text)
    ensures NamesJobs(Drafts(text))
  {
    forall id, job, outcome | IsJobId(id) && outcome in {Fixed, Unverifiable, Error}
      ensures FindAll(Drafts(text)(id, job, outcome), 0) == [id]
    {
      BodiesNameTheirJob(text, id, job, outcome);
    }
  }

  /** An issue with the source label; ours tells the issues that triage posted from those of others. */
  datatype Issue = Issue(body: string, queued: bool, ours: bool)

  ghost function Represented(issues: seq<Issue>): set<string> {
    set i, id | 0 <= i < |issues| && id in FindAll(issues[i].body, 0) :: id
  }

  datatype Failure = InvalidJobId | JobUnavailable | JobMismatch | AgentUnavailable | LabelsUnavailable | IssueUnconfirmed

  /** Posting an issue: confirmed, refused, or posted although the answer was an error. */
  datatype Posting = Posted(url: string) | Refused | Lost

  /** What the outside answers while one job is handled, if it is asked. */
  datatype World = World(full: Option<Job>, labels: bool, agent: Option<bool>, posting: Posting)

  datatype Config = Config(maxIssues: nat, outcomes: set<Outcome>, queueFixes: bool, dryRun: bool)

  /** What a configuration must satisfy to be constructed. */
  predicate Valid(cfg: Config) {
    cfg.maxIssues <= 100 && cfg.outcomes != {} && cfg.outcomes <= {Fixed, Unverifiable, Error}
  }

  datatype Tally = Tally(outcomes: multiset<Outcome>, candidates: nat, duplicates: nat, created: seq<string>,
                         wouldCreate: nat, deferred: nat, resolved: nat)

  /** The state of a run: its report, the identifiers it knows, whether labels were made, the repository's issues. */
  datatype Progress = Progress(tally: Tally, known: set<string>, labelsReady: bool, issues: seq<Issue>, failure: Option<Failure>)

  const START := Tally(multiset{}, 0, 0, [], 0, 0, 0)

  ghost function Begin(issues: seq<Issue>): Progress { Progress(START, Represented(issues), false, issues, None) }

  function Post(draft: Draft, p: Progress, id: string, full: Job, outcome: Problem, queued: bool, world: World): Progress
    requires IsJobId(id)
  {
    var issue := Issue(draft(id, full, outcome), queued, true);
    match world.posting
    case Refused => p.(failure := Some(IssueUnconfirmed))
    case Lost => p.(issues := p.issues + [issue], failure := Some(IssueUnconfirmed))
    case Posted(url) =>
      p.(issues := p.issues + [issue], known := p.known + {id}, tally := p.tally.(created := p.tally.created + [url]))
  }

  /** One job whose issue is neither known nor over the limit. */
  function Open(draft: Draft, cfg: Config, p: Progress, id: string, world: World): Progress
    requires IsJobId(id) && Valid(cfg)
  {
    if world.full.None? then p.(failure := Some(JobUnavailable)) else
    var full := world.full.value;
    var outcome := Classify(full);
    if full.id.None? || !IsJobId(full.id.value) then p.(failure := Some(InvalidJobId))
    else if full.id.value != id then p.(failure := Some(JobMismatch))
    else if outcome !in cfg.outcomes then p.(tally := p.tally.(resolved := p.tally.resolved + 1))
    else if !cfg.dryRun && !p.labelsReady && !world.labels then p.(failure := Some(LabelsUnavailable))
    else
      var q := p.(labelsReady := p.labelsReady || !cfg.dryRun);
      if cfg.queueFixes && world.agent.None? then q.(failure := Some(AgentUnavailable))
      else if cfg.dryRun then q.(tally := q.tally.(wouldCreate := q.tally.wouldCreate + 1))
      else Post(draft, q, id, full, outcome, cfg.queueFixes && world.agent.value, world)
  }

  function Counted(t: Tally, outcome: Outcome, candidates: nat): Tally {
    t.(outcomes := t.outcomes + multiset{outcome}, candidates := t.candidates + candidates)
  }

  function HandleJob(draft: Draft, cfg: Config, p: Progress, summary: Job, world: World): Progress
    requires Valid(cfg)
  {
    var outcome := Classify(summary);
    if outcome !in cfg.outcomes then p.(tally := Counted(p.tally, outcome, 0))
    else Candidate(draft, cfg, p.(tally := Counted(p.tally, outcome, 1)), summary, world)
  }

  /** A summary whose outcome deserves an issue. */
  function Candidate(draft: Draft, cfg: Config, q: Progress, summary: Job, world: World): Progress
    requires Valid(cfg)
  {
    if summary.id.None? || !IsJobId(summary.id.value) then q.(failure := Some(InvalidJobId))
    else if summary.id.value in q.known then q.(tally := q.tally.(duplicates := q.tally.duplicates + 1))
    else if |q.tally.created| + q.tally.wouldCreate >= cfg.maxIssues
    then q.(tally := q.tally.(deferred := q.tally.deferred + 1))
    else Open(draft, cfg, q, summary.id.value, world)
  }

  /** The run from the i-th summary on; a failure ends it. */
  ghost function RunFrom(draft: Draft, cfg: Config, p: Progress, summaries: seq<Job>, worlds: nat -> World, i: nat): Progress
    requires Valid(cfg) && i <= |summaries|
    decreases |summaries| - i
  {
    if i == |summaries| || p.failure.Some? then p
    else RunFrom(draft, cfg, HandleJob(draft, cfg, p, summaries[i], worlds(i)), summaries, worlds, i + 1)
  }

  /** The repository's issues with the source label. */
  class Repository {
    var issues: seq<Issue>

    method ExistingPageCheckJobIds() returns (ids: set<string>)
      ensures ids == Represented(issues)
    {
      ids := {};
      for i := 0 to |issues|
        invariant ids == Represented(issues[..i])
      {
        var found := FindAll(issues[i].body, 0);
        RepresentedAdds(issues[..i], issues[i]);
        assert issues[..i + 1] == issues[..i] + [issues[i]];
        ids := ids + set id | id in found;
      }
      assert issues[..|issues|] == issues;
    }

    method CreateIssue(issue: Issue, posting: Posting) returns (r: Option<string>)
      modifies this
      ensures issues == if posting.Refused? then old(issues) else old(issues) + [issue]
      ensures r == if posting.Posted? then Some(posting.url) else None
    {
      if posting.Refused? {
        return None;
      }
      issues := issues + [issue];
      r := if posting.Posted? then Some(posting.url) else None;
    }
  }

  lemma RepresentedAdds(issues: seq<Issue>, issue: Issue)
    ensures Represented(issues + [issue]) == Represented(issues) + set id | id in FindAll(issue.body, 0)
  {
    var all := issues + [issue];
    forall id
      ensures id in Represented(all) <==> id in Represented(issues) || id in FindAll(issue.body, 0)
    {
      if id in Represented(issues) {
        var i :| 0 <= i < |issues| && id in FindAll(issues[i].body, 0);
        assert all[i] == issues[i];
      }
      if id in FindAll(issue.body, 0) {
        assert all[|issues|] == issue;
      }
    }
  }

  /** The body of the loop: one summary. */
  method HandleSummary(repo: Repository, draft: Draft, cfg: Config, summary: Job, world: World, tally0: Tally, known0: set<string>, ready0: bool)
    returns (tally: Tally, known: set<string>, labelsReady: bool, failure: Option<Failure>)
    requires Valid(cfg)
    modifies repo
    ensures Progress(tally, known, labelsReady, repo.issues, failure) ==
            HandleJob(draft, cfg, Progress(tally0, known0, ready0, old(repo.issues), None), summary, world)
  {
    tally, known, labelsReady, failure := tally0, known0, ready0, None;
    var outcome := ClassifyJob(summary);
    tally := tally.(outcomes := tally.outcomes + multiset{outcome});
    if outcome !in cfg.outcomes {
      return;
    }
    tally := tally.(candidates := tally.candidates + 1);
    if summary.id.None? || !IsJobId(summary.id.value) {
      failure := Some(InvalidJobId);
      return;
    }
    var id := summary.id.value;
    if id in known {
      tally := tally.(duplicates := tally.duplicates + 1);
      return;
    }
    if |tally.created| + tally.wouldCreate >= cfg.maxIssues {
      tally := tally.(deferred := tally.deferred + 1);
      return;
    }
    if world.full.None? {
      failure := Some(JobUnavailable);
      return;
    }
    var full := world.full.value;
    if full.id.None? || !IsJobId(full.id.value) {
      failure := Some(InvalidJobId);
      return;
    }
    if full.id.value != id {
      failure := Some(JobMismatch);
      return;
    }
    var fullOutcome := ClassifyJob(full);
    if fullOutcome !in cfg.outcomes {
      tally := tally.(resolved := tally.resolved + 1);
      return;
    }
    if cfg.dryRun {
      if cfg.queueFixes && world.agent.None? {
        failure := Some(AgentUnavailable);
        return;
      }
      tally := tally.(wouldCreate := tally.wouldCreate + 1);
      return;
    }
    if !labelsReady {
      if !world.labels {
        failure := Some(LabelsUnavailable);
        return;
      }
      labelsReady := true;
    }
    if cfg.queueFixes && world.agent.None? {
      failure := Some(AgentUnavailable);
      return;
    }
    var issue := Issue(draft(id, full, fullOutcome), cfg.queueFixes && world.agent.value, true);
    var url := repo.CreateIssue(issue, world.posting);
    if url.None? {
      failure := Some(IssueUnconfirmed);
      return;
    }
    tally := tally.(created := tally.created + [url.value]);
    known := known + {id};
  }

  method TriagePageChecks(repo: Repository, text: Text, cfg: Config, summaries: seq<Job>, worlds: nat -> World)
    returns (r: Result<Tally, Failure>)
    requires Valid(cfg)
    modifies repo
    ensures var p := RunFrom(Drafts(text), cfg, Begin(old(repo.issues)), summaries, worlds, 0);
            repo.issues == p.issues && r == if p.failure.Some? then Err(p.failure.value) else Ok(p.tally)
  {
    var draft := Drafts(text);
    var known := repo.ExistingPageCheckJobIds();
    var tally, labelsReady := START, false;
    var failure: Option<Failure> := None;
    ghost var end := RunFrom(draft, cfg, Begin(repo.issues), summaries, worlds, 0);
    for i := 0 to |summaries|
      invariant failure.None?
      invariant RunFrom(draft, cfg, Progress(tally, known, labelsReady, repo.issues, failure), summaries, worlds, i) == end
    {
      tally, known, labelsReady, failure := HandleSummary(repo, draft, cfg, summaries[i], worlds(i), tally, known, labelsReady);
      if failure.Some? {
        return Err(failure.value);
      }
    }
    return Ok(tally);
  }

  // ---------------------------------------------------------------- one summary

  predicate IsCandidate(cfg: Config, summary: Job) { Classify(summary) in cfg.outcomes }

  predicate Named(job: Job) { job.id.Some? && IsJobId(job.id.value) }

  predicate Room(cfg: Config, t: Tally) { |t.created| + t.wouldCreate < cfg.maxIssues }

  /** A problem that is not known yet, with room for its issue. */
  predicate Due(cfg: Config, p: Progress, summary: Job) {
    IsCandidate(cfg, summary) && Named(summary) && summary.id.value !in p.known && Room(cfg, p.tally)
  }

  /** The full job is the one asked for, and still a problem. */
  predicate StillDue(cfg: Config, summary: Job, world: World) {
    world.full.Some? && world.full.value.id == summary.id && Classify(world.full.value) in cfg.outcomes
  }

  predicate LabelsThere(p: Progress, world: World) { p.labelsReady || world.labels }

  predicate AgentKnown(cfg: Config, world: World) { cfg.queueFixes ==> world.agent.Some? }

  /** An issue is posted exactly for a job that is due and still a problem, outside a dry run, and it is that job's. */
  lemma PostsIff(draft: Draft, cfg: Config, p: Progress, summary: Job, world: World)
    requires Valid(cfg) && p.failure.None?
    ensures var q := HandleJob(draft, cfg, p, summary, world);
            if Due(cfg, p, summary) && StillDue(cfg, summary, world) && !cfg.dryRun && LabelsThere(p, world) && AgentKnown(cfg, world)
               && !world.posting.Refused? then
              var full := world.full.value;
              && q.issues == p.issues + [Issue(draft(summary.id.value, full, Classify(full)), cfg.queueFixes && world.agent.value, true)]
              && (if world.posting.Posted? then q.known == p.known + {summary.id.value} && q.tally.created == p.tally.created + [world.posting.url]
                  else q.known == p.known && q.tally.created == p.tally.created)
            else q.issues == p.issues && q.known == p.known && q.tally.created == p.tally.created
  {
  }

  /** Under which headings a summary is counted. */
  lemma CountsIff(draft: Draft, cfg: Config, p: Progress, summary: Job, world: World)
    requires Valid(cfg) && p.failure.None?
    ensures var q := HandleJob(draft, cfg, p, summary, world);
            var listed := IsCandidate(cfg, summary) && Named(summary);
            && q.tally.candidates == p.tally.candidates + (if IsCandidate(cfg, summary) then 1 else 0)
            && q.tally.duplicates == p.tally.duplicates + (if listed && summary.id.value in p.known then 1 else 0)
            && q.tally.deferred == p.tally.deferred + (if listed && summary.id.value !in p.known && !Room(cfg, p.tally) then 1 else 0)
            && q.tally.resolved == p.tally.resolved +
               (if Due(cfg, p, summary) && world.full.Some? && world.full.value.id == summary.id && Classify(world.full.value) !in cfg.outcomes then 1 else 0)
            && q.tally.wouldCreate == p.tally.wouldCreate +
               (if Due(cfg, p, summary) && StillDue(cfg, summary, world) && cfg.dryRun && AgentKnown(cfg, world) then 1 else 0)
  {
  }

  /** When, and how, handling a summary fails. */
  lemma FailsIff(draft: Draft, cfg: Config, p: Progress, summary: Job, world: World)
    requires Valid(cfg) && p.failure.None?
    ensures var f := HandleJob(draft, cfg, p, summary, world).failure;
            var due := Due(cfg, p, summary);
            var labelled := due && StillDue(cfg, summary, world) && (cfg.dryRun || LabelsThere(p, world));
            && (f == Some(InvalidJobId) <==>
                  (IsCandidate(cfg, summary) && !Named(summary)) || (due && world.full.Some? && !Named(world.full.value)))
            && (f == Some(JobUnavailable) <==> due && world.full.None?)
            && (f == Some(JobMismatch) <==> due && world.full.Some? && Named(world.full.value) && world.full.value.id != summary.id)
            && (f == Some(LabelsUnavailable) <==> due && StillDue(cfg, summary, world) && !cfg.dryRun && !LabelsThere(p, world))
            && (f == Some(AgentUnavailable) <==> labelled && !AgentKnown(cfg, world))
            && (f == Some(IssueUnconfirmed) <==> labelled && AgentKnown(cfg, world) && !cfg.dryRun && !world.posting.Posted?)
  {
  }

  // ---------------------------------------------------------------- one run

  /** Every candidate is accounted for once, and the limit holds. */
  ghost predicate Balanced(cfg: Config, t: Tally) {
    && t.candidates == t.duplicates + t.deferred + t.resolved + t.wouldCreate + |t.created|
    && |t.created| + t.wouldCreate <= cfg.maxIssues
    && (if cfg.dryRun then t.created == [] else t.wouldCreate == 0)
  }

  ghost predicate WithinLimit(cfg: Config, start: seq<Issue>, p: Progress) {
    && (p.failure.None? ==> |p.issues| == |start| + |p.tally.created|)
    && |p.issues| <= |start| + (if cfg.dryRun then 0 else cfg.maxIssues)
  }

  /** Halfway through a candidate: counted, but not yet under a heading. */
  ghost predicate Owing(cfg: Config, t: Tally) {
    && t.candidates == t.duplicates + t.deferred + t.resolved + t.wouldCreate + |t.created| + 1
    && |t.created| + t.wouldCreate <= cfg.maxIssues
    && (if cfg.dryRun then t.created == [] else t.wouldCreate == 0)
  }

  ghost predicate Settles(cfg: Config, start: seq<Issue>, p: Progress, q: Progress) {
    && (q.failure.None? ==> Balanced(cfg, q.tally)) && WithinLimit(cfg, start, q)
    && q.tally.outcomes == p.tally.outcomes
  }

  lemma PostSettles(draft: Draft, cfg: Config, start: seq<Issue>, p: Progress, id: string, full: Job, outcome: Problem, queued: bool, world: World)
    requires IsJobId(id) && !cfg.dryRun && p.failure.None? && Owing(cfg, p.tally) && WithinLimit(cfg, start, p)
    requires |p.tally.created| + p.tally.wouldCreate < cfg.maxIssues
    ensures Settles(cfg, start, p, Post(draft, p, id, full, outcome, queued, world))
  {
  }

  lemma OpenSettles(draft: Draft, cfg: Config, start: seq<Issue>, p: Progress, id: string, world: World)
    requires IsJobId(id) && Valid(cfg) && p.failure.None? && Owing(cfg, p.tally) && WithinLimit(cfg, start, p)
    requires |p.tally.created| + p.tally.wouldCreate < cfg.maxIssues
    ensures Settles(cfg, start, p, Open(draft, cfg, p, id, world))
  {
    if !cfg.dryRun && world.full.Some? && Classify(world.full.value) in cfg.outcomes && (cfg.queueFixes ==> world.agent.Some?) {
      var full := world.full.value;
      PostSettles(draft, cfg, start, p.(labelsReady := true), id, full, Classify(full), cfg.queueFixes && world.agent.value, world);
    }
  }

  lemma CandidateSettles(draft: Draft, cfg: Config, start: seq<Issue>, p: Progress, summary: Job, world: World)
    requires Valid(cfg) && p.failure.None? && Owing(cfg, p.tally) && WithinLimit(cfg, start, p)
    ensures Settles(cfg, start, p, Candidate(draft, cfg, p, summary, world))
  {
    if summary.id.Some? && IsJobId(summary.id.value) && |p.tally.created| + p.tally.wouldCreate < cfg.maxIssues {
      OpenSettles(draft, cfg, start, p, summary.id.value, world);
    }
  }

  lemma CountedOwes(cfg: Config, t: Tally, outcome: Outcome)
    requires Balanced(cfg, t)
    ensures Balanced(cfg, Counted(t, outcome, 0)) && Owing(cfg, Counted(t, outcome, 1))
  {
  }

  lemma HandleKeepsBalance(draft: Draft, cfg: Config, start: seq<Issue>, p: Progress, summary: Job, world: World)
    requires Valid(cfg) && p.failure.None? && Balanced(cfg, p.tally) && WithinLimit(cfg, start, p)
    ensures var q := HandleJob(draft, cfg, p, summary, world);
            && (q.failure.None? ==> Balanced(cfg, q.tally)) && WithinLimit(cfg, start, q)
            && q.tally.outcomes == p.tally.outcomes + multiset{Classify(summary)}
  {
    CountedOwes(cfg, p.tally, Classify(summary));
    CandidateSettles(draft, cfg, start, p.(tally := Counted(p.tally, Classify(summary), 1)), summary, world);
  }

  function Classified(jobs: seq<Job>): multiset<Outcome> {
    if jobs == [] then multiset{} else multiset{Classify(jobs[0])} + Classified(jobs[1..])
  }

  lemma {:induction false} RunKeepsBalance(draft: Draft, cfg: Config, start: seq<Issue>, p: Progress, summaries: seq<Job>, worlds: nat -> World, i: nat)
    requires Valid(cfg) && i <= |summaries| && (p.failure.None? ==> Balanced(cfg, p.tally)) && WithinLimit(cfg, start, p)
    ensures var q := RunFrom(draft, cfg, p, summaries, worlds, i);
            && (q.failure.None? ==> Balanced(cfg, q.tally) && q.tally.outcomes == p.tally.outcomes + Classified(summaries[i..]))
            && WithinLimit(cfg, start, q)
    decreases |summaries| - i
  {
    if i < |summaries| && p.failure.None? {
      HandleKeepsBalance(draft, cfg, start, p, summaries[i], worlds(i));
      assert summaries[i..][1..] == summaries[i + 1..];
      RunKeepsBalance(draft, cfg, start, HandleJob(draft, cfg, p, summaries[i], worlds(i)), summaries, worlds, i + 1);
    }
  }

  /**
   A run that ends well has classified every summary and put every candidate under exactly one
   heading; it posts no more issues than the limit, and none when dry.
   */
  lemma RunsBalance(draft: Draft, cfg: Config, issues: seq<Issue>, summaries: seq<Job>, worlds: nat -> World)
    requires Valid(cfg)
    ensures var p := RunFrom(draft, cfg, Begin(issues), summaries, worlds, 0);
            && (p.failure.None? ==> Balanced(cfg, p.tally) && p.tally.outcomes == Classified(summaries))
            && WithinLimit(cfg, issues, p)
  {
    RunKeepsBalance(draft, cfg, issues, Begin(issues), summaries, worlds, 0);
    assert summaries[0..] == summaries;
  }

  // ---------------------------------------------------------------- all runs

  /** Each issue triage posted names one job, which no earlier issue named. */
  ghost predicate OneIssuePerJob(issues: seq<Issue>) {
    forall i :: 0 <= i < |issues| && issues[i].ours ==> NamesNewJob(issues, i)
  }

  ghost predicate NamesNewJob(issues: seq<Issue>, i: nat)
    requires i < |issues|
  {
    && |FindAll(issues[i].body, 0)| == 1
    && FindAll(issues[i].body, 0)[0] !in Represented(issues[..i])
  }

  ghost predicate Remembers(p: Progress) {
    OneIssuePerJob(p.issues) && (p.failure.None? ==> p.known == Represented(p.issues))
  }

  ghost predicate PostedFor(draft: Draft, p: Progress, q: Progress, id: string, issue: Issue) {
    && q.issues == p.issues + [issue]
    && id !in p.known && FindAll(issue.body, 0) == [id]
    && (q.failure.None? ==> q.known == p.known + {id})
  }

  ghost predicate PostedNothing(p: Progress, q: Progress) {
    q.issues == p.issues && q.known == p.known
  }

  lemma OpenPosts(draft: Draft, cfg: Config, p: Progress, id: string, world: World)
    requires NamesJobs(draft) && IsJobId(id) && Valid(cfg) && id !in p.known
    ensures var q := Open(draft, cfg, p, id, world);
            PostedNothing(p, q) || exists issue :: PostedFor(draft, p, q, id, issue)
  {
    var q := Open(draft, cfg, p, id, world);
    if q.issues != p.issues {
      assert q.issues == p.issues + [q.issues[|p.issues|]];
      assert PostedFor(draft, p, q, id, q.issues[|p.issues|]);
    }
  }

  lemma HandlePosts(draft: Draft, cfg: Config, p: Progress, summary: Job, world: World)
    requires NamesJobs(draft) && Valid(cfg)
    ensures var q := HandleJob(draft, cfg, p, summary, world);
            PostedNothing(p, q) || exists issue :: summary.id.Some? && PostedFor(draft, p, q, summary.id.value, issue)
  {
    var q := HandleJob(draft, cfg, p, summary, world);
    if summary.id.Some? && IsJobId(summary.id.value) && summary.id.value !in p.known {
      var counted := p.(tally := Counted(p.tally, Classify(summary), 1));
      OpenPosts(draft, cfg, counted, summary.id.value, world);
      if !PostedNothing(p, q) {
        var issue :| PostedFor(draft, counted, q, summary.id.value, issue);
        assert PostedFor(draft, p, q, summary.id.value, issue);
      }
    }
  }

  lemma PostingKeepsOne(issues: seq<Issue>, issue: Issue)
    requires OneIssuePerJob(issues)
    requires issue.ours ==> |FindAll(issue.body, 0)| == 1 && FindAll(issue.body, 0)[0] !in Represented(issues)
    ensures OneIssuePerJob(issues + [issue])
  {
    var all := issues + [issue];
    forall i | 0 <= i < |all| && all[i].ours
      ensures NamesNewJob(all, i)
    {
      if i < |issues| {
        assert NamesNewJob(issues, i) && all[..i] == issues[..i];
      } else {
        assert all[..i] == issues;
      }
    }
  }

  lemma HandleRemembers(draft: Draft, cfg: Config, p: Progress, summary: Job, world: World)
    requires NamesJobs(draft) && Valid(cfg) && p.failure.None? && Remembers(p)
    ensures Remembers(HandleJob(draft, cfg, p, summary, world))
  {
    var q := HandleJob(draft, cfg, p, summary, world);
    HandlePosts(draft, cfg, p, summary, world);
    if !PostedNothing(p, q) {
      var id := summary.id.value;
      var issue :| PostedFor(draft, p, q, id, issue);
      PostingKeepsOne(p.issues, issue);
      RepresentedAdds(p.issues, issue);
    }
  }

  lemma {:induction false} RunRemembers(draft: Draft, cfg: Config, p: Progress, summaries: seq<Job>, worlds: nat -> World, i: nat)
    requires NamesJobs(draft) && Valid(cfg) && i <= |summaries| && Remembers(p)
    ensures Remembers(RunFrom(draft, cfg, p, summaries, worlds, i))
    decreases |summaries| - i
  {
    if i < |summaries| && p.failure.None? {
      HandleRemembers(draft, cfg, p, summaries[i], worlds(i));
      RunRemembers(draft, cfg, HandleJob(draft, cfg, p, summaries[i], worlds(i)), summaries, worlds, i + 1);
    }
  }

  /** What a good run owes a problematic summary: an issue, unless the limit or the full job says otherwise. */
  ghost predicate Covered(cfg: Config, summary: Job, world: World, q: Progress) {
    summary.id.Some? &&
    (q.tally.deferred > 0 || summary.id.value in q.known || (world.full.Some? && Classify(world.full.value) !in cfg.outcomes))
  }

  ghost predicate Onward(p: Progress, q: Progress) {
    p.tally.deferred <= q.tally.deferred && p.known <= q.known
  }

  lemma CandidateCovers(draft: Draft, cfg: Config, p: Progress, summary: Job, world: World)
    requires Valid(cfg) && p.failure.None?
    ensures var q := Candidate(draft, cfg, p, summary, world);
            Onward(p, q) && (!cfg.dryRun && q.failure.None? ==> Covered(cfg, summary, world, q))
  {
  }

  lemma {:induction false} RunCovers(draft: Draft, cfg: Config, p: Progress, summaries: seq<Job>, worlds: nat -> World, i: nat, k: nat)
    requires Valid(cfg) && !cfg.dryRun && i <= |summaries| && p.failure.None?
    ensures var q := RunFrom(draft, cfg, p, summaries, worlds, i);
            Onward(p, q) &&
            (q.failure.None? && i <= k < |summaries| && Classify(summaries[k]) in cfg.outcomes ==> Covered(cfg, summaries[k], worlds(k), q))
    decreases |summaries| - i
  {
    if i < |summaries| {
      CandidateCovers(draft, cfg, p.(tally := Counted(p.tally, Classify(summaries[i]), 1)), summaries[i], worlds(i));
      var next := HandleJob(draft, cfg, p, summaries[i], worlds(i));
      if next.failure.None? {
        RunCovers(draft, cfg, next, summaries, worlds, i + 1, k);
      }
    }
  }

  /** After a good run that deferred nothing, every job still found to be a problem has its issue. */
  lemma GoodRunsCover(text: Text, cfg: Config, issues: seq<Issue>, summaries: seq<Job>, worlds: nat -> World, k: nat)
    requires Valid(cfg) && !cfg.dryRun && k < |summaries| && OneIssuePerJob(issues)
    requires Classify(summaries[k]) in cfg.outcomes && worlds(k).full.Some? ==> Classify(worlds(k).full.value) in cfg.outcomes
    ensures var p := RunFrom(Drafts(text), cfg, Begin(issues), summaries, worlds, 0);
            p.failure.None? && p.tally.deferred == 0 && Classify(summaries[k]) in cfg.outcomes ==>
              summaries[k].id.Some? && summaries[k].id.value in Represented(p.issues)
  {
    DraftsNameJobs(text);
    RunCovers(Drafts(text), cfg, Begin(issues), summaries, worlds, 0, k);
    RunRemembers(Drafts(text), cfg, Begin(issues), summaries, worlds, 0);
  }

  /** Runs follow one another; between them others may post issues, with any markers in them. */
  datatype Event =
    | Triaged(cfg: Config, summaries: seq<Job>, worlds: nat -> World)
    | OthersPosted(body: string)

  ghost predicate ValidEvents(events: seq<Event>) {
    forall i :: 0 <= i < |events| && events[i].Triaged? ==> Valid(events[i].cfg)
  }

  ghost function IssuesAfter(draft: Draft, events: seq<Event>): seq<Issue>
    requires ValidEvents(events)
  {
    if events == [] then [] else
    var before := IssuesAfter(draft, events[..|events| - 1]);
    match events[|events| - 1]
    case Triaged(cfg, summaries, worlds) => RunFrom(draft, cfg, Begin(before), summaries, worlds, 0).issues
    case OthersPosted(body) => before + [Issue(body, false, false)]
  }

  lemma {:induction false} EventsKeepOne(draft: Draft, events: seq<Event>)
    requires NamesJobs(draft) && ValidEvents(events)
    ensures OneIssuePerJob(IssuesAfter(draft, events))
  {
    if events != [] {
      var before := IssuesAfter(draft, events[..|events| - 1]);
      EventsKeepOne(draft, events[..|events| - 1]);
      match events[|events| - 1]
      case Triaged(cfg, summaries, worlds) => RunRemembers(draft, cfg, Begin(before), summaries, worlds, 0);
      case OthersPosted(body) => PostingKeepsOne(before, Issue(body, false, false));
    }
  }

  lemma NewJobsDiffer(issues: seq<Issue>, i: nat, j: nat)
    requires OneIssuePerJob(issues) && i < j < |issues| && issues[i].ours && issues[j].ours
    ensures |FindAll(issues[i].body, 0)| == |FindAll(issues[j].body, 0)| == 1
    ensures FindAll(issues[i].body, 0) != FindAll(issues[j].body, 0)
  {
    assert NamesNewJob(issues, i) && NamesNewJob(issues, j);
    var id := FindAll(issues[i].body, 0)[0];
    assert id in FindAll(issues[..j][i].body, 0);
    assert id in Represented(issues[..j]);
  }

  /** Over any sequence of runs, failed ones included, no job is given two issues. */
  lemma NoJobGetsTwoIssues(text: Text, events: seq<Event>, i: nat, j: nat)
    requires ValidEvents(events)
    requires var issues := IssuesAfter(Drafts(text), events); i < j < |issues| && issues[i].ours && issues[j].ours
    ensures var issues := IssuesAfter(Drafts(text), events);
            |FindAll(issues[i].body, 0)| == |FindAll(issues[j].body, 0)| == 1 &&
            FindAll(issues[i].body, 0) != FindAll(issues[j].body, 0)
  {
    DraftsNameJobs(text);
    EventsKeepOne(Drafts(text), events);
    NewJobsDiffer(IssuesAfter(Drafts(text), events), i, j);
  }
}
