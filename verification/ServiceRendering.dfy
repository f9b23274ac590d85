/**
 Rendering services from instance counts, and finding the counts again in what was rendered
 (scripts/render_service_configs.py, scripts/deployment_config.py).
 */
module ServiceRendering {
  import opened Wrappers

  datatype Service = DictionaryService | EntryTranslator | Postgrest | Translator

  const SERVICES: seq<Service> := [DictionaryService, EntryTranslator, Postgrest, Translator]

  function Name(s: Service): string {
    match s
    case DictionaryService => "dictionary_service"
    case EntryTranslator => "entry_translator"
    case Postgrest => "postgrest"
    case Translator => "translator"
  }

  function MaxCount(s: Service): nat {
    match s case Postgrest => 16 case Translator => 4 case _ => 1000
  }

  function DefaultCount(s: Service): nat {
    match s case DictionaryService => 6 case Translator => 3 case _ => 10
  }

  /** The limits and defaults of the deployment. */
  lemma LimitsAre()
    ensures MaxCount(DictionaryService) == MaxCount(EntryTranslator) == 1000 && MaxCount(Postgrest) == 16 && MaxCount(Translator) == 4
    ensures DefaultCount(DictionaryService) == 6 && DefaultCount(EntryTranslator) == DefaultCount(Postgrest) == 10 && DefaultCount(Translator) == 3
  {
  }

  type Counts = map<Service, int>

  predicate Allowed(counts: Counts) {
    forall s: Service :: s in counts && 1 <= counts[s] <= MaxCount(s)
  }

  // ---------------------------------------------------------------- decimal numbers

  function Digit(d: nat): char
    requires d < 10
  {
    '0' + d as char
  }

  function Decimal(n: nat): string {
    if n < 10 then [Digit(n)] else Decimal(n / 10) + [Digit(n % 10)]
  }

  predicate IsDigits(s: string) { s != "" && forall i :: 0 <= i < |s| ==> '0' <= s[i] <= '9' }

  function Number(s: string): nat
    requires forall i :: 0 <= i < |s| ==> '0' <= s[i] <= '9'
  {
    if s == "" then 0 else Number(s[..|s| - 1]) * 10 + (s[|s| - 1] - '0') as int
  }

  lemma {:induction false} DecimalReadsBack(n: nat)
    ensures IsDigits(Decimal(n)) && Number(Decimal(n)) == n
  {
    if n < 10 {
      assert Decimal(n)[..0] == "";
    } else {
      DecimalReadsBack(n / 10);
      assert Decimal(n)[..|Decimal(n)| - 1] == Decimal(n / 10);
    }
  }

  // ---------------------------------------------------------------- section headers

  const OPENING := "[program:"

  function Prefix(s: Service): string { OPENING + Name(s) + "_" }

  function Header(s: Service, index: nat): string { Prefix(s) + Decimal(index) + "]" }

  /** The headers as the deployment's files show them. */
  lemma HeadersAre(index: nat)
    ensures Header(DictionaryService, index) == "[program:dictionary_service_" + Decimal(index) + "]"
    ensures Header(EntryTranslator, index) == "[program:entry_translator_" + Decimal(index) + "]"
    ensures Header(Postgrest, index) == "[program:postgrest_" + Decimal(index) + "]"
    ensures Header(Translator, index) == "[program:translator_" + Decimal(index) + "]"
  {
    assert Prefix(DictionaryService) == "[program:dictionary_service_" && Prefix(EntryTranslator) == "[program:entry_translator_";
    assert Prefix(Postgrest) == "[program:postgrest_" && Prefix(Translator) == "[program:translator_";
  }

  function SectionOf(line: string, s: Service): Option<nat> {
    var n := |Prefix(s)|;
    if n + 2 <= |line| && line[..n] == Prefix(s) && line[|line| - 1] == ']' && IsDigits(line[n..|line| - 1])
    then Some(Number(line[n..|line| - 1])) else None
  }

  /** The service and index that a stripped line is the section header of. */
  function Section(line: string): Option<(Service, nat)> {
    First((s: Service) => SectionOf(line, s))
  }

  /** The first service with an index, in the order of the alternatives. */
  function First(of: Service -> Option<nat>): Option<(Service, nat)> {
    if of(DictionaryService).Some? then Some((DictionaryService, of(DictionaryService).value))
    else if of(EntryTranslator).Some? then Some((EntryTranslator, of(EntryTranslator).value))
    else if of(Postgrest).Some? then Some((Postgrest, of(Postgrest).value))
    else if of(Translator).Some? then Some((Translator, of(Translator).value))
    else None
  }

  lemma FirstOf(of: Service -> Option<nat>, s: Service, index: nat)
    requires of(s) == Some(index) && forall other :: other != s ==> of(other).None?
    ensures First(of) == Some((s, index))
  {
  }

  lemma HeaderSection(s: Service, index: nat)
    ensures SectionOf(Header(s, index), s) == Some(index)
  {
    var line, n := Header(s, index), |Prefix(s)|;
    DecimalReadsBack(index);
    assert line[..n] == Prefix(s);
    assert line[n..|line| - 1] == Decimal(index);
  }

  lemma OnlyOwnSection(s: Service, index: nat, other: Service)
    requires s != other
    ensures SectionOf(Header(s, index), other).None?
  {
    var line := Header(s, index);
    assert line[|OPENING|] == Name(s)[0];
    if |Prefix(other)| <= |line| {
      assert line[..|Prefix(other)|][|OPENING|] == line[|OPENING|];
      assert Prefix(other)[|OPENING|] == Name(other)[0];
    }
  }

  /** A header is recognized as the service and index it was rendered from. */
  lemma HeaderReadsBack(s: Service, index: nat)
    ensures Section(Header(s, index)) == Some((s, index))
  {
    var line := Header(s, index);
    HeaderSection(s, index);
    var own := (other: Service) => SectionOf(line, other);
    forall other | other != s
      ensures own(other).None?
    {
      OnlyOwnSection(s, index, other);
    }
    FirstOf(own, s, index);
  }

  // ---------------------------------------------------------------- discovering counts

  type Found = Option<(Service, nat)>

  function Sections(lines: seq<string>): seq<Found> {
    seq(|lines|, i requires 0 <= i < |lines| => Section(lines[i]))
  }

  function CountAt(s: Service, index: nat): int { index - if s.Postgrest? then 1 else 0 }

  ghost predicate CountsAs(found: Found, s: Service, count: int) {
    found.Some? && found.value.0 == s && CountAt(s, found.value.1) == count
  }

  ghost predicate Counted(found: seq<Found>, s: Service, count: int) {
    exists i :: 0 <= i < |found| && CountsAs(found[i], s, count)
  }

  ghost predicate IsLargest(found: seq<Found>, s: Service, count: int) {
    && count >= 0 && (forall c :: Counted(found, s, c) ==> c <= count)
    && exists c :: Counted(found, s, c) && (c == count || count == 0)
  }

  /** Every service with a section has its largest count, but at least 0; no other service has one. */
  ghost predicate Discovered(found: seq<Found>, counts: Counts) {
    && (forall s :: s in counts ==> IsLargest(found, s, counts[s]))
    && (forall i :: 0 <= i < |found| && found[i].Some? ==> found[i].value.0 in counts)
  }

  lemma CountedJoins(a: seq<Found>, b: seq<Found>, s: Service, count: int)
    ensures Counted(a + b, s, count) <==> Counted(a, s, count) || Counted(b, s, count)
  {
    var all := a + b;
    if Counted(a, s, count) {
      var i :| 0 <= i < |a| && CountsAs(a[i], s, count);
      assert all[i] == a[i];
    }
    if Counted(b, s, count) {
      var i :| 0 <= i < |b| && CountsAs(b[i], s, count);
      assert all[|a| + i] == b[i];
    }
  }

  lemma CountedOne(found: Found, s: Service, count: int)
    ensures Counted([found], s, count) <==> CountsAs(found, s, count)
  {
    assert [found][0] == found;
  }

  lemma NoneCounted(found: seq<Found>, counts: Counts, s: Service)
    requires Discovered(found, counts) && s !in counts
    ensures forall c :: !Counted(found, s, c)
  {
  }

  function Raised(counts: Counts, s: Service, count: int): Counts {
    var known := if s in counts then counts[s] else 0;
    counts[s := if count > known then count else known]
  }

  lemma DiscoveredAdds(found: seq<Found>, one: Found, before: Counts)
    requires Discovered(found, before)
    ensures Discovered(found + [one], if one.None? then before else Raised(before, one.value.0, CountAt(one.value.0, one.value.1)))
  {
    var after := if one.None? then before else Raised(before, one.value.0, CountAt(one.value.0, one.value.1));
    forall s | s in after
      ensures IsLargest(found + [one], s, after[s])
    {
      forall c
        ensures Counted(found + [one], s, c) <==> Counted(found, s, c) || CountsAs(one, s, c)
      {
        CountedJoins(found, [one], s, c);
        CountedOne(one, s, c);
      }
      if s !in before {
        NoneCounted(found, before, s);
        assert Counted(found + [one], s, CountAt(s, one.value.1));
      } else {
        assert IsLargest(found, s, before[s]);
        var c :| Counted(found, s, c) && (c == before[s] || before[s] == 0);
        assert Counted(found + [one], s, c);
        assert after[s] != before[s] ==> Counted(found + [one], s, after[s]);
      }
    }
  }

  method CountFile(ghost before: seq<Found>, lines: seq<string>, counts0: Counts) returns (counts: Counts)
    requires Discovered(before, counts0)
    ensures Discovered(before + Sections(lines), counts)
  {
    counts := counts0;
    ghost var found := Sections(lines);
    assert before + found[..0] == before;
    for j := 0 to |lines|
      invariant Discovered(before + found[..j], counts)
    {
      var section := Section(lines[j]);
      DiscoveredAdds(before + found[..j], section, counts);
      OneMore(before, found, j);
      if section.Some? {
        var (service, index) := section.value;
        var count := CountAt(service, index);
        var known := if service in counts then counts[service] else 0;
        counts := counts[service := if count > known then count else known];
      }
    }
    assert found[..|lines|] == found;
  }

  lemma OneMore(before: seq<Found>, found: seq<Found>, j: nat)
    requires j < |found|
    ensures before + found[..j] + [found[j]] == before + found[..j + 1]
  {
  }

  ghost function AllSections(files: seq<Option<seq<string>>>): seq<Found> {
    if files == [] then []
    else if files[|files| - 1].None? then AllSections(files[..|files| - 1])
    else AllSections(files[..|files| - 1]) + Sections(files[|files| - 1].value)
  }

  /** A file that does not exist is passed over. */
  method ConfiguredInstanceCounts(files: seq<Option<seq<string>>>) returns (counts: Counts)
    ensures Discovered(AllSections(files), counts)
  {
    counts := map[];
    for i := 0 to |files|
      invariant Discovered(AllSections(files[..i]), counts)
    {
      assert files[..i + 1][..i] == files[..i];
      if files[i].Some? {
        counts := CountFile(AllSections(files[..i]), files[i].value, counts);
      }
    }
    assert files[..|files|] == files;
  }

  /** The discovered counts are determined by the lines. */
  lemma DiscoveredOnce(found: seq<Found>, a: Counts, b: Counts)
    requires Discovered(found, a) && Discovered(found, b)
    ensures a == b
  {
    forall s
      ensures s in a <==> s in b
      ensures s in a && s in b ==> a[s] == b[s]
    {
      if s in a {
        assert IsLargest(found, s, a[s]);
      }
      if s in b {
        assert IsLargest(found, s, b[s]);
      }
      if s !in a {
        NoneCounted(found, a, s);
      }
      if s !in b {
        NoneCounted(found, b, s);
      }
    }
  }

  // ---------------------------------------------------------------- rendering

  /** PostgREST numbers start at 2: port 8100 is the frontend's. */
  function FirstIndex(s: Service): nat { if s.Postgrest? then 2 else 1 }

  /** The port that the rendered command, or the rendered PostgREST configuration, listens on. */
  function ProgramPort(s: Service, index: nat): int {
    match s
    case DictionaryService => 28000 + index
    case EntryTranslator => 18000 + index
    case Postgrest => 8100 + index - 1
    case Translator => 8885 + index
  }

  /** What follows a section header, by service and index; none of it is such a header. */
  type Settings = (Service, nat) -> seq<string>

  ghost predicate NoSections(lines: seq<string>) {
    forall i :: 0 <= i < |lines| ==> Section(lines[i]).None?
  }

  ghost predicate PlainSettings(settings: Settings) {
    forall s, index :: NoSections(settings(s, index))
  }

  function RenderProgram(settings: Settings, s: Service, index: nat): seq<string> {
    [Header(s, index)] + settings(s, index)
  }

  /** The programs of a service, a blank line between each two. */
  function RenderPrograms(settings: Settings, s: Service, count: nat): seq<string> {
    if count == 0 then []
    else RenderPrograms(settings, s, count - 1) + (if count == 1 then [] else [""])
         + RenderProgram(settings, s, FirstIndex(s) + count - 1)
  }

  /** A program's header, with all its settings after it, stands at a place of the rendered text. */
  ghost predicate StandsAt(settings: Settings, s: Service, index: nat, text: seq<string>, at: nat) {
    at + 1 + |settings(s, index)| <= |text| && text[at] == Header(s, index) && text[at + 1..at + 1 + |settings(s, index)|] == settings(s, index)
  }

  lemma StillStands(settings: Settings, s: Service, index: nat, text: seq<string>, more: seq<string>, at: nat)
    requires StandsAt(settings, s, index, text, at)
    ensures StandsAt(settings, s, index, text + more, at)
  {
    var n := |settings(s, index)|;
    assert (text + more)[at + 1..at + 1 + n] == text[at + 1..at + 1 + n];
  }

  lemma LastStands(settings: Settings, s: Service, index: nat, before: seq<string>)
    ensures StandsAt(settings, s, index, before + RenderProgram(settings, s, index), |before|)
  {
    var text, n := before + RenderProgram(settings, s, index), |settings(s, index)|;
    assert text[|before| + 1..|before| + 1 + n] == settings(s, index);
  }

  /** Every program of a service is rendered, with its settings. */
  lemma {:induction false} ProgramsStand(settings: Settings, s: Service, count: nat, k: nat) returns (at: nat)
    requires k < count
    ensures StandsAt(settings, s, FirstIndex(s) + k, RenderPrograms(settings, s, count), at)
    decreases count
  {
    var earlier, blank := RenderPrograms(settings, s, count - 1), if count == 1 then [] else [""];
    var program := RenderProgram(settings, s, FirstIndex(s) + count - 1);
    if k == count - 1 {
      at := |earlier + blank|;
      LastStands(settings, s, FirstIndex(s) + k, earlier + blank);
    } else {
      at := ProgramsStand(settings, s, count - 1, k);
      StillStands(settings, s, FirstIndex(s) + k, earlier, blank, at);
      StillStands(settings, s, FirstIndex(s) + k, earlier + blank, program, at);
    }
  }

  /** The template's own lines around the groups of programs. */
  datatype Template = Template(head: seq<string>, middle: seq<string>, mirror: seq<string>, tail: seq<string>)

  ghost predicate PlainTemplate(t: Template) {
    NoSections(t.head) && NoSections(t.middle) && NoSections(t.mirror) && NoSections(t.tail)
  }

  /** The two Supervisor files. */
  function RenderConfigurations(template: Template, settings: Settings, counts: Counts): seq<seq<string>>
    requires Allowed(counts)
  {
    [ template.head + (RenderPrograms(settings, DictionaryService, counts[DictionaryService])
      + (template.middle + (RenderPrograms(settings, EntryTranslator, counts[EntryTranslator])
      + (template.mirror + (RenderPrograms(settings, Postgrest, counts[Postgrest]) + template.tail))))),
      RenderPrograms(settings, Translator, counts[Translator]) ]
  }

  lemma SectionsJoin(a: seq<string>, b: seq<string>)
    ensures Sections(a + b) == Sections(a) + Sections(b)
  {
  }

  /** Nothing found counts more than the given counts. */
  ghost predicate Within(found: seq<Found>, counts: Counts) {
    forall i :: 0 <= i < |found| && found[i].Some? ==>
      found[i].value.0 in counts && CountAt(found[i].value.0, found[i].value.1) <= counts[found[i].value.0]
  }

  /** The counts of some services are reached, by lines of their own. */
  ghost predicate Reached(found: seq<Found>, counts: Counts, services: set<Service>) {
    Within(found, counts) && forall s :: s in services ==> s in counts && Counted(found, s, counts[s])
  }

  lemma ReachedJoins(a: seq<Found>, b: seq<Found>, counts: Counts, inA: set<Service>, inB: set<Service>)
    requires Reached(a, counts, inA) && Reached(b, counts, inB)
    ensures Reached(a + b, counts, inA + inB)
  {
    forall s | s in inA + inB
      ensures Counted(a + b, s, counts[s])
    {
      CountedJoins(a, b, s, counts[s]);
    }
  }

  lemma PlainReached(lines: seq<string>, counts: Counts)
    requires NoSections(lines)
    ensures Reached(Sections(lines), counts, {})
  {
  }

  /** The header of a program counts it. */
  lemma ProgramCounts(settings: Settings, s: Service, count: nat, counts: Counts)
    requires PlainSettings(settings) && s in counts && 1 <= count <= counts[s]
    ensures var found := Sections(RenderProgram(settings, s, FirstIndex(s) + count - 1));
            Within(found, counts) && Counted(found, s, count)
  {
    var index := FirstIndex(s) + count - 1;
    HeaderReadsBack(s, index);
    assert NoSections(settings(s, index));
    PlainReached(settings(s, index), counts);
    SectionsJoin([Header(s, index)], settings(s, index));
    var header: Found := Some((s, index));
    assert Sections([Header(s, index)]) == [header];
    CountedOne(header, s, count);
    CountedJoins([header], Sections(settings(s, index)), s, count);
  }

  lemma BlankIsNoSection()
    ensures NoSections([""]) && NoSections([])
  {
  }

  lemma OneMoreProgram(settings: Settings, s: Service, count: nat, counts: Counts, before: seq<string>)
    requires PlainSettings(settings) && s in counts && 1 <= count <= counts[s] && Within(Sections(before), counts)
    ensures var blank := if count == 1 then [] else [""];
            var found := Sections(before + blank + RenderProgram(settings, s, FirstIndex(s) + count - 1));
            Within(found, counts) && Counted(found, s, count)
  {
    var blank := if count == 1 then [] else [""];
    var program := RenderProgram(settings, s, FirstIndex(s) + count - 1);
    ProgramCounts(settings, s, count, counts);
    BlankIsNoSection();
    PlainReached(blank, counts);
    ThreeSections(before, blank, program);
    ThreeWithin(Sections(before), Sections(blank), Sections(program), counts, s, count);
  }

  lemma {:induction false} ProgramsWithin(settings: Settings, s: Service, count: nat, counts: Counts)
    requires PlainSettings(settings) && s in counts && 0 <= count <= counts[s]
    ensures Within(Sections(RenderPrograms(settings, s, count)), counts)
    ensures count > 0 ==> Counted(Sections(RenderPrograms(settings, s, count)), s, count)
  {
    if count > 0 {
      ProgramsWithin(settings, s, count - 1, counts);
      OneMoreProgram(settings, s, count, counts, RenderPrograms(settings, s, count - 1));
    }
  }

  lemma ThreeSections(a: seq<string>, b: seq<string>, c: seq<string>)
    ensures Sections(a + b + c) == Sections(a) + Sections(b) + Sections(c)
  {
    SectionsJoin(a, b);
    SectionsJoin(a + b, c);
  }

  lemma ThreeWithin(a: seq<Found>, b: seq<Found>, c: seq<Found>, counts: Counts, s: Service, count: int)
    requires Within(a, counts) && Within(b, counts) && Within(c, counts) && Counted(c, s, count)
    ensures Within(a + b + c, counts) && Counted(a + b + c, s, count)
  {
    ReachedJoins(a, b, counts, {}, {});
    ReachedJoins(a + b, c, counts, {}, {});
    CountedJoins(a + b, c, s, count);
  }

  /** Template lines, then the programs of a service, then what follows. */
  lemma PartReached(settings: Settings, plain: seq<string>, s: Service, rest: seq<string>, counts: Counts, others: set<Service>)
    requires PlainSettings(settings) && Allowed(counts) && NoSections(plain) && Reached(Sections(rest), counts, others)
    ensures Reached(Sections(plain + (RenderPrograms(settings, s, counts[s]) + rest)), counts, {s} + others)
  {
    var programs := RenderPrograms(settings, s, counts[s]);
    ProgramsWithin(settings, s, counts[s], counts);
    PlainReached(plain, counts);
    SectionsJoin(programs, rest);
    SectionsJoin(plain, programs + rest);
    ReachedJoins(Sections(programs), Sections(rest), counts, {s}, others);
    ReachedJoins(Sections(plain), Sections(programs) + Sections(rest), counts, {}, {s} + others);
    assert {} + ({s} + others) == {s} + others;
  }

  lemma CountsFound(found: seq<Found>, counts: Counts, discovered: Counts)
    requires Allowed(counts) && Discovered(found, discovered)
    requires Reached(found, counts, {DictionaryService, EntryTranslator, Postgrest} + {Translator})
    ensures discovered == counts
  {
    forall s: Service
      ensures s in discovered && discovered[s] == counts[s]
    {
      match s case DictionaryService => case EntryTranslator => case Postgrest => case Translator =>
      assert s in {DictionaryService, EntryTranslator, Postgrest} + {Translator};
      assert Counted(found, s, counts[s]);
      assert IsLargest(found, s, discovered[s]);
    }
  }

  /** For all allowed counts, what is discovered in the rendered files are the counts they were rendered from. */
  lemma RenderedCountsAreDiscovered(template: Template, settings: Settings, counts: Counts, discovered: Counts)
    requires Allowed(counts) && PlainTemplate(template) && PlainSettings(settings)
    requires var files := RenderConfigurations(template, settings, counts);
             Discovered(AllSections([Some(files[0]), Some(files[1])]), discovered)
    ensures discovered == counts
  {
    var files := RenderConfigurations(template, settings, counts);
    BothFiles(files[0], files[1]);
    FirstFileReached(template, settings, counts);
    ProgramsWithin(settings, Translator, counts[Translator], counts);
    ReachedJoins(Sections(files[0]), Sections(files[1]), counts, {DictionaryService, EntryTranslator, Postgrest}, {Translator});
    CountsFound(Sections(files[0]) + Sections(files[1]), counts, discovered);
  }

  lemma FirstFileReached(template: Template, settings: Settings, counts: Counts)
    requires Allowed(counts) && PlainTemplate(template) && PlainSettings(settings)
    ensures Reached(Sections(RenderConfigurations(template, settings, counts)[0]), counts, {DictionaryService, EntryTranslator, Postgrest})
  {
    PlainReached(template.tail, counts);
    var third := template.mirror + (RenderPrograms(settings, Postgrest, counts[Postgrest]) + template.tail);
    PartReached(settings, template.mirror, Postgrest, template.tail, counts, {});
    var second := template.middle + (RenderPrograms(settings, EntryTranslator, counts[EntryTranslator]) + third);
    PartReached(settings, template.middle, EntryTranslator, third, counts, {Postgrest} + {});
    PartReached(settings, template.head, DictionaryService, second, counts, {EntryTranslator} + ({Postgrest} + {}));
    assert {DictionaryService} + ({EntryTranslator} + ({Postgrest} + {})) == {DictionaryService, EntryTranslator, Postgrest};
  }

  lemma BothFiles(a: seq<string>, b: seq<string>)
    ensures AllSections([Some(a), Some(b)]) == Sections(a) + Sections(b)
  {
    assert [Some(a), Some(b)][..1] == [Some(a)] && [Some(a)][..0] == [];
    assert AllSections([Some(a)]) == AllSections([]) + Sections(a) == Sections(a);
  }

  // ---------------------------------------------------------------- ports

  /** One entry of an HAProxy pool: its number and port. */
  datatype Server = Server(index: nat, port: int)

  function FirstPort(s: Service): int {
    match s case DictionaryService => 28001 case EntryTranslator => 18001 case Postgrest => 8101 case Translator => 8886
  }

  function FrontendPort(s: Service): int {
    match s case DictionaryService => 8001 case EntryTranslator => 8000 case Postgrest => 8100 case Translator => 8890
  }

  /** Where programs and frontends listen. */
  lemma PortsAre(index: nat)
    ensures ProgramPort(DictionaryService, index) == 28000 + index && ProgramPort(EntryTranslator, index) == 18000 + index
    ensures ProgramPort(Postgrest, index) == 8099 + index && ProgramPort(Translator, index) == 8885 + index
    ensures FrontendPort(DictionaryService) == 8001 && FrontendPort(EntryTranslator) == 8000
    ensures FrontendPort(Postgrest) == 8100 && FrontendPort(Translator) == 8890
  {
  }

  function RenderServers(firstPort: int, count: nat): seq<Server> {
    seq(count, (k: nat) => Server(k + 1, firstPort + (k + 1) - 1))
  }

  function Pool(s: Service, count: nat): set<int> {
    set k | 0 <= k < count :: RenderServers(FirstPort(s), count)[k].port
  }

  function PortsOf(s: Service, count: nat): seq<int> {
    seq(count, (k: nat) => ProgramPort(s, FirstIndex(s) + k))
  }

  function ProgramPorts(s: Service, count: nat): set<int> {
    set k | 0 <= k < count :: PortsOf(s, count)[k]
  }

  /** Each server of a pool points at exactly one rendered program of its service, and the other way round. */
  lemma ServersMatchPrograms(s: Service, count: nat, i: nat, j: nat)
    requires i < count && j < count
    ensures RenderServers(FirstPort(s), count)[i].port == PortsOf(s, count)[j] <==> i == j
    ensures RenderServers(FirstPort(s), count)[i].index == i + 1
    ensures Pool(s, count) == ProgramPorts(s, count)
  {
    var servers, ports := RenderServers(FirstPort(s), count), PortsOf(s, count);
    forall k | 0 <= k < count
      ensures servers[k].port == ports[k]
    {
      assert ports[k] == ProgramPort(s, FirstIndex(s) + k);
    }
    forall port
      ensures port in Pool(s, count) <==> port in ProgramPorts(s, count)
    {
      if port in Pool(s, count) {
        var k :| 0 <= k < count && servers[k].port == port;
        assert ports[k] == port;
      }
      if port in ProgramPorts(s, count) {
        var k :| 0 <= k < count && ports[k] == port;
        assert servers[k].port == port;
      }
    }
  }

  /** Within the allowed counts no port is used twice: not by two pools, and not by a pool and a frontend. */
  lemma PortsNeverOverlap(counts: Counts, s: Service, other: Service)
    requires Allowed(counts)
    ensures s != other ==> Pool(s, counts[s]) !! Pool(other, counts[other]) && FrontendPort(s) != FrontendPort(other)
    ensures FrontendPort(other) !in Pool(s, counts[s])
  {
    PoolIsRange(s, counts[s]);
    PoolIsRange(other, counts[other]);
  }

  lemma PoolIsRange(s: Service, count: nat)
    ensures forall port :: port in Pool(s, count) <==> FirstPort(s) <= port < FirstPort(s) + count
  {
    forall port
      ensures port in Pool(s, count) <==> FirstPort(s) <= port < FirstPort(s) + count
    {
      if FirstPort(s) <= port < FirstPort(s) + count {
        assert RenderServers(FirstPort(s), count)[port - FirstPort(s)].port == port;
      }
    }
  }

  /** The limit on translators is as large as it can be: the pool leaves its own frontend's port free exactly up to it. */
  lemma TranslatorLimitIsTight(count: nat)
    ensures FrontendPort(Translator) !in Pool(Translator, count) <==> count <= MaxCount(Translator)
  {
    PoolIsRange(Translator, count);
  }

  // ---------------------------------------------------------------- resolving counts

  datatype Invalid = NotAnInteger(service: Service) | OutOfRange(service: Service)

  /** An override from the environment: an integer, or a text that is none. */
  type Overrides = map<Service, Option<int>>

  ghost function Resolved(overrides: Overrides, existing: Counts, s: Service): Option<int> {
    if s in overrides then overrides[s] else Some(if s in existing then existing[s] else DefaultCount(s))
  }

  ghost predicate Resolves(overrides: Overrides, existing: Counts, s: Service) {
    Resolved(overrides, existing, s).Some? && 1 <= Resolved(overrides, existing, s).value <= MaxCount(s)
  }

  /** The override, else what exists, else the default; the first service without an allowed count is refused. */
  method InstanceCounts(overrides: Overrides, existing: Counts) returns (r: Result<Counts, Invalid>)
    ensures r.Ok? <==> forall s :: Resolves(overrides, existing, s)
    ensures r.Ok? ==> Allowed(r.value) && forall s :: s in r.value && Some(r.value[s]) == Resolved(overrides, existing, s)
    ensures r.Err? ==> !Resolves(overrides, existing, r.error.service)
                       && (r.error.NotAnInteger? <==> Resolved(overrides, existing, r.error.service).None?)
  {
    var counts: Counts := map[];
    for i := 0 to |SERVICES|
      invariant forall k :: 0 <= k < i ==> SERVICES[k] in counts && Resolves(overrides, existing, SERVICES[k])
                                           && Some(counts[SERVICES[k]]) == Resolved(overrides, existing, SERVICES[k])
    {
      var s := SERVICES[i];
      var value := if s in overrides then overrides[s] else Some(if s in existing then existing[s] else DefaultCount(s));
      if value.None? {
        assert !Resolves(overrides, existing, s);
        return Err(NotAnInteger(s));
      }
      if !(1 <= value.value <= MaxCount(s)) {
        assert !Resolves(overrides, existing, s);
        return Err(OutOfRange(s));
      }
      counts := counts[s := value.value];
    }
    forall s: Service
      ensures s in counts && Resolves(overrides, existing, s) && Some(counts[s]) == Resolved(overrides, existing, s)
    {
      var k := match s case DictionaryService => 0 case EntryTranslator => 1 case Postgrest => 2 case Translator => 3;
      assert SERVICES[k] == s;
    }
    return Ok(counts);
  }
}
