/**
 The files in which configparser does not read a value that GemmaChat._replace_ini_value has set, one
 family for each clause of IniReadBack.Writable (supervisor_control_service.py).
 */
module IniMisreads {
  import opened Wrappers
  import opened TextLines
  import opened IniEditor
  import opened IniReader
  import opened IniReadBack

  function Head(section: string): Line { Line("[" + section + "]", "\n") }

  function Entry(t: Target): Line { NewEntry(t, "\n") }

  lemma HeadIs(t: Target)
    requires Settable(t)
    ensures Says(Head(t.section).text) == Heading(t.section) && Indent(Head(t.section).text) == 0
    ensures HeaderOf(Head(t.section).text) == Some(t.section)
  {
    assert "" + "[" + t.section + "]" == Head(t.section).text;
    NewHeadingSays("", t);
    HeaderText("", t.section);
  }

  /** A file that begins with the header and an entry, to the reader. */
  function Begun(t: Target): Reading {
    Reading(Some(t.section), Some((t.section, t.key)), 0, {t.section}, map[(t.section, t.key) := [t.value]])
  }

  function Headed(t: Target): Reading { Reading(Some(t.section), None, 0, {t.section}, map[]) }

  function Then(r: Option<Reading>, text: string): Option<Reading> { if r.Some? then ReadLine(r.value, text) else None }

  lemma ReadsTwo(r: Reading, a: string, b: string)
    ensures ReadFrom(r, [a, b]) == Then(ReadLine(r, a), b)
  {
    assert [a, b] == [a] + [b] && [b] == [b] + [];
    ReadNext(r, a, [b]);
    if ReadLine(r, a).Some? {
      ReadNext(ReadLine(r, a).value, b, []);
    }
  }

  lemma ReadsThree(r: Reading, a: string, b: string, c: string)
    ensures ReadFrom(r, [a, b, c]) == Then(Then(ReadLine(r, a), b), c)
  {
    assert [a, b, c] == [a] + [b, c];
    ReadNext(r, a, [b, c]);
    if ReadLine(r, a).Some? {
      ReadsTwo(ReadLine(r, a).value, b, c);
    }
  }

  lemma ReadsFour(r: Reading, a: string, b: string, c: string, d: string)
    ensures ReadFrom(r, [a, b, c, d]) == Then(Then(Then(ReadLine(r, a), b), c), d)
  {
    assert [a, b, c, d] == [a] + [b, c, d];
    ReadNext(r, a, [b, c, d]);
    if ReadLine(r, a).Some? {
      ReadsThree(ReadLine(r, a).value, b, c, d);
    }
  }

  lemma HeadReads(t: Target)
    requires Settable(t)
    ensures ReadLine(START, Head(t.section).text) == Some(Headed(t))
  {
    HeadIs(t);
    assert {} + {t.section} == {t.section};
  }

  lemma EntryReads(t: Target)
    requires Settable(t)
    ensures ReadLine(Headed(t), Entry(t).text) == Some(Begun(t))
  {
    NewEntryWritten(t, "\n");
    AddedLine(Headed(t), Entry(t).text, t);
  }

  lemma TwoParts(a: string, b: string)
    requires Rstrip(a) == a && b != "" && Rstrip(b) == b
    ensures Value([a]) == a && Value([a, b]) == a + "\n" + b
  {
    assert [a, b][..1] == [a];
    assert Joined([a, b]) == Joined([a]) + "\n" + b;
    StripEnd(a + "\n", b);
    OnePart(a);
  }

  lemma StripEnd(a: string, b: string)
    requires b != "" && Rstrip(b) == b
    ensures Rstrip(a + b) == a + b
  {
    RstripIs(b);
    var s := a + b;
    assert s[|s| - 1] == b[|b| - 1];
    RstripsTo(s, |s|);
    assert s[..|s|] == s;
  }

  lemma NoOtherKey(text: string, t: Target)
    requires Settable(t) && Says(text).Pair? && Says(text).key != t.key
    ensures EntryEnd(text, t.key).None? && HeaderOf(text).None?
  {
    if EntryEnd(text, t.key).Some? {
      EntrySays(text, t, EntryEnd(text, t.key).value - Indent(text));
    }
    if HeaderOf(text).Some? {
      HeaderSays(text);
    }
  }

  lemma NewlineOf(lines: seq<Line>)
    requires forall i :: 0 <= i < |lines| ==> lines[i].eol != "\r\n"
    ensures Newline(lines) == "\n"
  {
  }

  /** Names that differ in the case of letters only. */
  predicate Alike(a: string, b: string) { Opens(Head(a), b) }

  lemma AlikeItself(t: Target)
    requires Settable(t)
    ensures Alike(t.section, t.section)
  {
    HeadIs(t);
    SpellsItself(t.section, 0, t.section);
  }

  // ---------------------------------------------------------------- how the editor sets the second or third line

  lemma SetsSecond(t: Target, section: string, line: Line)
    requires Settable(t) && Alike(section, t.section) && IsEntry(line, t.key) && EntryEnd(Head(section).text, t.key).None?
    requires line.eol == "\n"
    ensures Set([Head(section), line], t) == [Head(section), Rewritten(line, t, "\n")]
  {
    var lines := [Head(section), line];
    NewlineOf(lines);
    NoHeader(line.text, t);
    EntryFirst(line, [], t, "\n", true);
    OtherFirst(Head(section), [line], t, "\n", false);
    assert [line] + [] == [line] && [Head(section)] + [line] == lines;
    assert [Head(section)] + ([Rewritten(line, t, "\n")] + []) == [Head(section), Rewritten(line, t, "\n")];
  }

  /** Spelled otherwise, the section is found by the editor and not by the reader. */
  lemma OtherSpellingMisses(u: Target, t: Target)
    requires Settable(u) && Settable(t) && u.key == t.key && u.section != t.section && Alike(u.section, t.section)
    ensures Read([Head(u.section), Entry(u)]) == Some(map[(u.section, u.key) := u.value])
    ensures Read(Set([Head(u.section), Entry(u)], t)) == Some(map[(u.section, u.key) := t.value])
  {
    var v := Target(u.section, u.key, t.value);
    HeadIs(u);
    EntryIsNoHeader(Head(u.section), t);
    NewEntryIs(u, "\n");
    SetsSecond(t, u.section, Entry(u));
    NewIsRewritten(u, v, "\n");
    BeginningRead(u);
    BeginningRead(v);
  }

  lemma BeginningRead(t: Target)
    requires Settable(t)
    ensures ReadFrom(START, Texts([Head(t.section), Entry(t)])) == Some(Begun(t))
    ensures Read([Head(t.section), Entry(t)]) == Some(map[(t.section, t.key) := t.value])
  {
    assert Texts([Head(t.section), Entry(t)]) == [Head(t.section).text, Entry(t).text];
    ReadsTwo(START, Head(t.section).text, Entry(t).text);
    HeadReads(t);
    EntryReads(t);
    StripIs(t.value);
    OnePart(t.value);
    OneValue((t.section, t.key), [t.value]);
  }

  lemma OneValue(id: Id, parts: seq<string>)
    ensures Values(map[id := parts]) == map[id := Value(parts)]
  {
  }

  // ---------------------------------------------------------------- continuations

  lemma SetsFrom(lines: seq<Line>, t: Target, done: seq<Line>)
    requires lines != [] && Passes(lines[0], t.section, t.key, false) && Opens(lines[0], t.section)
    requires forall i :: 0 <= i < |lines| ==> lines[i].eol != "\r\n"
    requires SetFrom(lines[1..], t, "\n", true) == Some(done)
    ensures Set(lines, t) == [lines[0]] + done
  {
    NewlineOf(lines);
    assert lines == [lines[0]] + lines[1..];
    OtherFirst(lines[0], lines[1..], t, "\n", false);
  }

  /** A value that goes on in indented lines keeps them: they follow the new one. */
  lemma OldContinuationStays(t: Target, was: string, text: string)
    requires Settable(t) && Settable(t.(value := was)) && !Silent(text) && Indent(text) > 0
    ensures var lines := [Head(t.section), Entry(t.(value := was)), Line(text, "\n")];
            && Read(lines) == Some(map[(t.section, t.key) := was + "\n" + Strip(text)])
            && Read(Set(lines, t)) == Some(map[(t.section, t.key) := t.value + "\n" + Strip(text)])
  {
    var u, line := t.(value := was), Line(text, "\n");
    var lines := [Head(t.section), Entry(u), line];
    HeadIs(t);
    AlikeItself(t);
    EntryIsNoHeader(Head(t.section), t);
    NewEntryIs(u, "\n");
    NewIsRewritten(u, t, "\n");
    assert lines[1..] == [Entry(u)] + [line];
    EntryFirst(Entry(u), [line], t, "\n", true);
    SetsFrom(lines, t, [Entry(t)] + [line]);
    assert [Head(t.section)] + ([Entry(t)] + [line]) == [Head(t.section), Entry(t), line];
    ContinuedRead(u, line);
    ContinuedRead(t, line);
  }

  lemma BegunContinues(t: Target, text: string)
    requires !Silent(text) && Indent(text) > 0
    ensures ReadLine(Begun(t), text) == Some(With(Begun(t), (t.section, t.key), [t.value, Strip(text)]))
  {
    assert [t.value] + [Strip(text)] == [t.value, Strip(text)];
  }

  lemma ValueIsStripped(t: Target)
    requires Settable(t)
    ensures Rstrip(t.value) == t.value && Value([t.value]) == t.value
  {
    StripIs(t.value);
    OnePart(t.value);
  }

  lemma BegunWith(t: Target, parts: seq<string>)
    ensures With(Begun(t), (t.section, t.key), parts).settings == map[(t.section, t.key) := parts]
  {
  }

  lemma ContinuedValues(t: Target, part: string)
    requires Settable(t) && part != "" && Rstrip(part) == part
    ensures Values(With(Begun(t), (t.section, t.key), [t.value, part]).settings) == map[(t.section, t.key) := t.value + "\n" + part]
  {
    ValueIsStripped(t);
    TwoParts(t.value, part);
    BegunWith(t, [t.value, part]);
    OneValue((t.section, t.key), [t.value, part]);
  }

  lemma ContinuedRead(t: Target, line: Line)
    requires Settable(t) && !Silent(line.text) && Indent(line.text) > 0
    ensures ReadFrom(START, Texts([Head(t.section), Entry(t), line])) == Some(With(Begun(t), (t.section, t.key), [t.value, Strip(line.text)]))
    ensures Read([Head(t.section), Entry(t), line]) == Some(map[(t.section, t.key) := t.value + "\n" + Strip(line.text)])
  {
    assert Texts([Head(t.section), Entry(t), line]) == [Head(t.section).text, Entry(t).text, line.text];
    ReadsThree(START, Head(t.section).text, Entry(t).text, line.text);
    HeadReads(t);
    EntryReads(t);
    BegunContinues(t, line.text);
    StripIs(line.text);
    ContinuedValues(t, Strip(line.text));
  }

  /** A line of another value that looks like an entry is rewritten there, and the key stays unset. */
  lemma ContinuationRewritten(u: Target, t: Target, text: string)
    requires Settable(u) && Settable(t) && u.section == t.section && u.key != t.key
    requires EntryEnd(text, t.key).Some? && Indent(text) > 0
    ensures var lines := [Head(t.section), Entry(u), Line(text, "\n")];
            && Read(lines) == Some(map[(u.section, u.key) := u.value + "\n" + Strip(text)])
            && Read(Set(lines, t)) ==
               Some(map[(u.section, u.key) := u.value + "\n" + Strip(text[..EntryEnd(text, t.key).value] + " " + t.value)])
  {
    var line := Line(text, "\n");
    SetsThird(u, t, line);
    EntryWritten(line, t, "\n");
    ContinuedRead(u, line);
    ContinuedRead(u, Rewritten(line, t, "\n"));
  }

  lemma SetsAfterTwo(u: Target, t: Target, line: Line, done: seq<Line>)
    requires Settable(u) && Settable(t) && u.section == t.section && u.key != t.key && line.eol == "\n"
    requires SetFrom([line], t, "\n", true) == Some(done)
    ensures Set([Head(t.section), Entry(u), line], t) == [Head(t.section), Entry(u)] + done
  {
    var lines := [Head(t.section), Entry(u), line];
    SecondPasses(u, t);
    assert lines[1..] == [Entry(u)] + [line];
    OtherFirst(Entry(u), [line], t, "\n", true);
    SetsFrom(lines, t, [Entry(u)] + done);
    assert [Head(t.section)] + ([Entry(u)] + done) == [Head(t.section), Entry(u)] + done;
  }

  lemma SetsThird(u: Target, t: Target, line: Line)
    requires Settable(u) && Settable(t) && u.section == t.section && u.key != t.key
    requires IsEntry(line, t.key) && line.eol == "\n"
    ensures Set([Head(t.section), Entry(u), line], t) == [Head(t.section), Entry(u), Rewritten(line, t, "\n")]
  {
    NoHeader(line.text, t);
    assert [line] == [line] + [];
    EntryFirst(line, [], t, "\n", true);
    SetsAfterTwo(u, t, line, [Rewritten(line, t, "\n")] + []);
  }

  /** The header and another entry are passed over. */
  lemma SecondPasses(u: Target, t: Target)
    requires Settable(u) && Settable(t) && u.section == t.section && u.key != t.key
    ensures Passes(Head(t.section), t.section, t.key, false) && Opens(Head(t.section), t.section)
    ensures Passes(Entry(u), t.section, t.key, true) && Now(Entry(u), t.section, true)
  {
    HeadIs(t);
    AlikeItself(t);
    EntryIsNoHeader(Head(t.section), t);
    NewEntryWritten(u, "\n");
    NoOtherKey(Entry(u).text, t);
  }

  /** Brackets on an indented line of a value end the section for the editor, which adds the entry in the middle of the value. */
  lemma ValueCutInTwo(u: Target, t: Target, text: string)
    requires Settable(u) && Settable(t) && u.section == t.section && u.key != t.key
    requires HeaderOf(text).Some? && Indent(text) > 0
    ensures var lines := [Head(t.section), Entry(u), Line(text, "\n")];
            && Read(lines) == Some(map[(u.section, u.key) := u.value + "\n" + Strip(text)])
            && Read(Set(lines, t)) == Some(map[(u.section, u.key) := u.value, (t.section, t.key) := t.value + "\n" + Strip(text)])
  {
    var line := Line(text, "\n");
    HeaderSays(text);
    ContinuedRead(u, line);
    SetsBeforeThird(u, t, line);
    TwoRead(u, t, line);
  }

  lemma SetsBeforeThird(u: Target, t: Target, line: Line)
    requires Settable(u) && Settable(t) && u.section == t.section && u.key != t.key && IsHeader(line) && line.eol == "\n"
    ensures Set([Head(t.section), Entry(u), line], t) == [Head(t.section), Entry(u), Entry(t), line]
  {
    assert [line] == [line] + [];
    HeaderFirst(line, [], t, "\n");
    SetsAfterTwo(u, t, line, [Entry(t)] + ([line] + []));
  }

  function Two(u: Target, t: Target, parts: seq<string>): Reading {
    Reading(Some(t.section), Some((t.section, t.key)), 0, {t.section}, map[(u.section, u.key) := [u.value], (t.section, t.key) := parts])
  }

  lemma SecondReads(u: Target, t: Target)
    requires Settable(u) && Settable(t) && u.section == t.section && u.key != t.key
    ensures ReadLine(Begun(u), Entry(t).text) == Some(Two(u, t, [t.value]))
  {
    NewEntryWritten(t, "\n");
    AddedLine(Begun(u), Entry(t).text, t);
  }

  lemma TwoContinues(u: Target, t: Target, text: string)
    requires u.section == t.section && u.key != t.key && !Silent(text) && Indent(text) > 0
    ensures ReadLine(Two(u, t, [t.value]), text) == Some(Two(u, t, [t.value, Strip(text)]))
  {
    assert [t.value] + [Strip(text)] == [t.value, Strip(text)];
    assert Append(Two(u, t, [t.value]), Strip(text)).settings == Two(u, t, [t.value, Strip(text)]).settings;
  }

  lemma TwoValues(u: Target, t: Target, part: string)
    requires Settable(u) && Settable(t) && u.key != t.key && part != "" && Rstrip(part) == part
    ensures Values(Two(u, t, [t.value, part]).settings) == map[(u.section, u.key) := u.value, (t.section, t.key) := t.value + "\n" + part]
  {
    ValueIsStripped(t);
    ValueIsStripped(u);
    TwoParts(t.value, part);
    TwoEach((u.section, u.key), [u.value], (t.section, t.key), [t.value, part]);
  }

  lemma TwoEach(a: Id, p: seq<string>, b: Id, q: seq<string>)
    requires a != b
    ensures Values(map[a := p, b := q]) == map[a := Value(p), b := Value(q)]
  {
  }

  lemma TwoReading(u: Target, t: Target, line: Line)
    requires Settable(u) && Settable(t) && u.section == t.section && u.key != t.key && !Silent(line.text) && Indent(line.text) > 0
    ensures ReadFrom(START, Texts([Head(t.section), Entry(u), Entry(t), line])) == Some(Two(u, t, [t.value, Strip(line.text)]))
  {
    assert Texts([Head(t.section), Entry(u), Entry(t), line]) == [Head(t.section).text, Entry(u).text, Entry(t).text, line.text];
    ReadsFour(START, Head(t.section).text, Entry(u).text, Entry(t).text, line.text);
    HeadReads(u);
    EntryReads(u);
    SecondReads(u, t);
    TwoContinues(u, t, line.text);
  }

  lemma TwoRead(u: Target, t: Target, line: Line)
    requires Settable(u) && Settable(t) && u.section == t.section && u.key != t.key && !Silent(line.text) && Indent(line.text) > 0
    ensures Read([Head(t.section), Entry(u), Entry(t), line]) ==
            Some(map[(u.section, u.key) := u.value, (t.section, t.key) := t.value + "\n" + Strip(line.text)])
  {
    TwoReading(u, t, line);
    StripIs(line.text);
    TwoValues(u, t, Strip(line.text));
  }

  /** An entry added before an indented header swallows it. */
  lemma HeaderSwallowed(t: Target, w: string, text: string)
    requires Settable(t) && HeaderOf(text).Some? && Says(text) == Heading(w) && w != t.section && Indent(text) > 0
    ensures var lines := [Head(t.section), Line(text, "\n")];
            Read(lines) == Some(map[]) && Read(Set(lines, t)) == Some(map[(t.section, t.key) := t.value + "\n" + Strip(text)])
  {
    SetsBefore(t, Line(text, "\n"));
    HeadersRead(t, w, Line(text, "\n"));
    ContinuedRead(t, Line(text, "\n"));
  }

  lemma HeadersRead(t: Target, w: string, line: Line)
    requires Settable(t) && Says(line.text) == Heading(w) && w != t.section
    ensures Read([Head(t.section), line]) == Some(map[])
  {
    assert Texts([Head(t.section), line]) == [Head(t.section).text, line.text];
    ReadsTwo(START, Head(t.section).text, line.text);
    HeadReads(t);
  }

  lemma SetsBefore(t: Target, line: Line)
    requires Settable(t) && IsHeader(line) && line.eol == "\n"
    ensures Set([Head(t.section), line], t) == [Head(t.section), Entry(t), line]
  {
    HeadIs(t);
    AlikeItself(t);
    EntryIsNoHeader(Head(t.section), t);
    assert [Head(t.section), line][1..] == [line] + [];
    HeaderFirst(line, [], t, "\n");
    assert [Entry(t)] + ([line] + []) == [Entry(t), line];
    SetsFrom([Head(t.section), line], t, [Entry(t), line]);
    assert [Head(t.section)] + [Entry(t), line] == [Head(t.section), Entry(t), line];
  }

  // ---------------------------------------------------------------- colons, and the blank end

  /** An entry with a colon is not found by the editor, whose own is a duplicate then: the file is no longer readable. */
  lemma ColonMakesUnreadable(t: Target, text: string)
    requires Settable(t) && Says(text).Pair? && Says(text).key == t.key && EntryEnd(text, t.key).None?
    ensures var lines := [Head(t.section), Line(text, "\n")];
            Read(lines) == Some(map[(t.section, t.key) := Rstrip(Says(text).value)]) && Read(Set(lines, t)) == None
  {
    if HeaderOf(text).Some? {
      HeaderSays(text);
    }
    SetsAtEnd(t, Line(text, "\n"));
    ColonRead(t, Line(text, "\n"));
  }

  lemma ColonRead(t: Target, line: Line)
    requires Settable(t) && Says(line.text).Pair? && Says(line.text).key == t.key
    ensures Read([Head(t.section), line]) == Some(map[(t.section, t.key) := Rstrip(Says(line.text).value)])
    ensures Read([Head(t.section), line, Entry(t)]) == None
  {
    var a, b, c, id := Head(t.section).text, line.text, Entry(t).text, (t.section, t.key);
    assert Texts([Head(t.section), line]) == [a, b] && Texts([Head(t.section), line, Entry(t)]) == [a, b, c];
    ReadsTwo(START, a, b);
    ReadsThree(START, a, b, c);
    HeadReads(t);
    var r := Reading(Some(t.section), Some(id), Indent(b), {t.section}, map[id := [Says(b).value]]);
    assert ReadLine(Headed(t), b) == Some(r);
    OneValue(id, [Says(b).value]);
    NewEntryWritten(t, "\n");
    SecondRefused(r, t);
  }

  lemma SecondRefused(r: Reading, t: Target)
    requires Settable(t) && r.section == Some(t.section) && (t.section, t.key) in r.settings
    ensures ReadLine(r, Entry(t).text) == None
  {
    NewEntryWritten(t, "\n");
  }

  lemma SetsAtEnd(t: Target, line: Line)
    requires Settable(t) && line.eol == "\n" && HeaderOf(line.text).None? && EntryEnd(line.text, t.key).None?
    ensures Set([Head(t.section), line], t) == [Head(t.section), line, Entry(t)]
  {
    var lines := [Head(t.section), line];
    HeadIs(t);
    AlikeItself(t);
    EntryIsNoHeader(Head(t.section), t);
    NewlineOf(lines);
    assert lines == [Head(t.section)] + [line] && [line] == [line] + [];
    OtherFirst(Head(t.section), [line], t, "\n", false);
    OtherFirst(line, [], t, "\n", true);
    SectionSplits(Head(t.section), [line], t.section);
    assert lines + [Entry(t)] == [Head(t.section), line, Entry(t)];
  }

  lemma ColonStrips(t: Target)
    requires Settable(t)
    ensures var text := t.key + ": " + t.value;
            && Indent(text) == 0 && Strip(text) == text && text[|t.key|] == ':' && text[..|t.key|] == t.key && text[|t.key| + 1..] == " " + t.value
            && forall k :: 0 <= k < |t.key| ==> text[k] == t.key[k]
  {
    var text := t.key + ": " + t.value;
    StripIs(t.value);
    assert text[0] == t.key[0] && text[|text| - 1] == t.value[|t.value| - 1];
    StripsTo(text, 0, |text|);
    assert text[0..|text|] == text;
  }

  /** The plain case of such an entry. */
  lemma ColonSays(t: Target)
    requires Settable(t)
    ensures var text := t.key + ": " + t.value; Says(text) == Pair(t.key, t.value) && EntryEnd(text, t.key).None?
  {
    var text := t.key + ": " + t.value;
    ColonStrips(t);
    DelimiterIs(text, |t.key|);
    PairSays(text, t.key, |t.key| + 1);
    ValueStrips(t);
    ColonIsNoEntry(text, t);
  }

  lemma ColonIsNoEntry(text: string, t: Target)
    requires Indent(text) == 0 && |t.key| < |text| && text[|t.key|] == ':'
    ensures EntryEnd(text, t.key).None?
  {
    SkipsTo(text, |t.key|, |t.key|);
  }

  lemma BlankEndRead(u: Target, blank: string)
    requires Settable(u) && Indent(blank) == |blank|
    ensures Read([Head(u.section), Entry(u), Line(blank, "")]) == Some(map[(u.section, u.key) := u.value])
  {
    var lines := [Head(u.section), Entry(u)];
    var all := [Head(u.section), Entry(u), Line(blank, "")];
    assert all == lines + [Line(blank, "")];
    BeginningRead(u);
    TextsJoin(lines, [Line(blank, "")]);
    assert Texts([Line(blank, "")]) == [blank];
    BlankSays(blank);
    BlankRead(Texts(lines), blank);
  }

  /** A blank last line without an end becomes the indentation of the new header, which continues the value before it. */
  lemma BlankEndHidesHeader(u: Target, t: Target, blank: string)
    requires Settable(u) && Settable(t) && !Alike(u.section, t.section) && u.key != t.key
    requires Indent(blank) == |blank| > 0
    ensures var lines := [Head(u.section), Entry(u), Line(blank, "")];
            && Read(lines) == Some(map[(u.section, u.key) := u.value])
            && Read(Set(lines, t)) ==
               Some(map[(u.section, u.key) := u.value + "\n" + ("[" + t.section + "]"), (u.section, t.key) := t.value])
  {
    NewHeadingSays(blank, t);
    NewHeadingStrips(blank, t.section);
    BlankEndRead(u, blank);
    SetsAfterBlank(u, t, blank);
    HiddenRead(u, t, Line(blank + "[" + t.section + "]", "\n"));
  }

  lemma NoSectionThere(u: Target, t: Target, blank: string)
    requires Settable(u) && Settable(t) && !Alike(u.section, t.section) && Indent(blank) == |blank|
    ensures !HasSection([Head(u.section), Entry(u), Line(blank, "")], t.section)
  {
    NewEntryIs(u, "\n");
    assert !Opens(Line(blank, ""), t.section);
    assert [Head(u.section), Entry(u), Line(blank, "")] == [Head(u.section)] + [Entry(u), Line(blank, "")];
    assert [Entry(u), Line(blank, "")] == [Entry(u)] + [Line(blank, "")] && [Line(blank, "")] == [Line(blank, "")] + [];
    SectionSplits(Head(u.section), [Entry(u), Line(blank, "")], t.section);
    SectionSplits(Entry(u), [Line(blank, "")], t.section);
    SectionSplits(Line(blank, ""), [], t.section);
  }

  lemma SetsForBlank(lines: seq<Line>, t: Target, n: nat)
    requires |lines| == n + 1 && IsBlank(lines[n]) && lines[n].eol == "" && !HasSection(lines, t.section)
    ensures Set(lines, t) == lines[..n] + NewSection(t, Newline(lines), lines[n].text)
  {
    SetAddsSection(lines, t);
  }

  lemma SetsAfterBlank(u: Target, t: Target, blank: string)
    requires Settable(u) && Settable(t) && !Alike(u.section, t.section) && Indent(blank) == |blank|
    ensures Set([Head(u.section), Entry(u), Line(blank, "")], t) ==
            [Head(u.section), Entry(u), Line(blank + "[" + t.section + "]", "\n"), Entry(t)]
  {
    var lines := [Head(u.section), Entry(u), Line(blank, "")];
    NewlineOf(lines);
    NoSectionThere(u, t, blank);
    SetsForBlank(lines, t, 2);
    assert lines[..2] == [Head(u.section), Entry(u)];
  }

  lemma HiddenRead(u: Target, t: Target, line: Line)
    requires Settable(u) && Settable(t) && u.key != t.key && !Silent(line.text) && Indent(line.text) > 0
    ensures Read([Head(u.section), Entry(u), line, Entry(t)]) ==
            Some(map[(u.section, u.key) := u.value + "\n" + Strip(line.text), (u.section, t.key) := t.value])
  {
    var before, lines := [Head(u.section), Entry(u), line], [Head(u.section), Entry(u), line, Entry(t)];
    assert lines == before + [Entry(t)];
    TextsJoin(before, [Entry(t)]);
    assert Texts([Entry(t)]) == [Entry(t).text] && [Entry(t).text] + [] == [Entry(t).text];
    ContinuedRead(u, line);
    ReadJoins(START, Texts(before), [Entry(t).text]);
    var r := With(Begun(u), (u.section, u.key), [u.value, Strip(line.text)]);
    ReadNext(r, Entry(t).text, []);
    NewEntryWritten(t, "\n");
    AddedLine(r, Entry(t).text, t);
    StripIs(t.value);
    OnePart(t.value);
    ValuesWith(r, (u.section, t.key), [t.value]);
  }
}
