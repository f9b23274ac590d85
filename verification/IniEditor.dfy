/**
 Setting one value of an INI file (supervisor_control_service.py, GemmaChat._replace_ini_value):
 the first entry of the key is rewritten; without one, the value is added at the end of the first
 section of that name, and without a section, at the end of the file.
 */
module IniEditor {
  import opened Wrappers
  import opened TextLines

  /** A line with its line end, which only the last line may lack. */
  datatype Line = Line(text: string, eol: string)

  datatype Target = Target(section: string, key: string, value: string)

  // ---------------------------------------------------------------- how the editor sees a line

  /** The name in `[...]` at the start of a line, without white space around it. */
  function HeaderOf(text: string): Option<string> {
    var i := Indent(text);
    if i < |text| && text[i] == '[' then
      var k := Next(text, ']', i + 1);
      if i + 2 <= k < |text| then Some(Strip(text[i + 1..k])) else None
    else None
  }

  /** The end of `key =` at the start of a line, in letters of either case. */
  function EntryEnd(text: string, key: string): (r: Option<nat>)
    ensures r.Some? ==> Indent(text) + |key| < r.value <= |text|
  {
    var i := Indent(text);
    if i + |key| <= |text| && Spells(text, i, key, |key|) then
      var j := SkipSpace(text, i + |key|);
      if j < |text| && text[j] == '=' then Some(j + 1) else None
    else None
  }

  /** White space, an opening bracket, and the first closing one after it, with something between them. */
  ghost predicate BracketsAt(text: string, i: nat, k: nat) {
    && i + 1 < k < |text| && text[i] == '[' && text[k] == ']'
    && (forall j :: 0 <= j < i ==> IsSpace(text[j])) && (forall j :: i < j < k ==> text[j] != ']')
  }

  /** The pattern of a header. */
  lemma HeaderIff(text: string, name: string)
    ensures HeaderOf(text) == Some(name) <==> exists i: nat, k: nat :: BracketsAt(text, i, k) && name == Strip(text[i + 1..k])
  {
    var i := Indent(text);
    SkipSpaceIs(text, 0);
    if i < |text| {
      var k := Next(text, ']', i + 1);
      NextIs(text, ']', i + 1);
      if HeaderOf(text) == Some(name) {
        assert BracketsAt(text, i, k);
      }
      forall h: nat, l: nat | BracketsAt(text, h, l)
        ensures h == i && l == k
      {
        SkipsTo(text, 0, h);
      }
    }
  }

  /** White space, the key in letters of either case, white space, and an equals sign. */
  ghost predicate KeyAt(text: string, key: string, i: nat, n: nat) {
    && i + |key| < n <= |text| && text[n - 1] == '='
    && (forall k :: 0 <= k < i || i + |key| <= k < n - 1 ==> IsSpace(text[k]))
    && (forall k :: 0 <= k < |key| ==> LowerChar(text[i + k]) == LowerChar(key[k]))
  }

  /** The pattern of an entry. */
  lemma EntryIff(text: string, key: string, n: nat)
    requires key != "" && !IsSpace(key[0])
    ensures EntryEnd(text, key) == Some(n) <==> exists i: nat :: KeyAt(text, key, i, n)
  {
    var i := Indent(text);
    SkipSpaceIs(text, 0);
    if i + |key| <= |text| {
      SpellsIff(text, i, key, |key|);
      SkipSpaceIs(text, i + |key|);
      if EntryEnd(text, key) == Some(n) {
        assert KeyAt(text, key, i, n);
      }
    }
    forall h: nat | KeyAt(text, key, h, n)
      ensures EntryEnd(text, key) == Some(n)
    {
      assert LowerChar(text[h + 0]) == LowerChar(key[0]);
      SkipsTo(text, 0, h);
      SpellsIff(text, h, key, |key|);
      SkipsTo(text, h + |key|, n - 1);
    }
  }

  predicate IsHeader(line: Line) { HeaderOf(line.text).Some? }

  /** The header of a section, in letters of either case. */
  predicate Opens(line: Line, section: string) {
    var name := HeaderOf(line.text);
    name.Some? && |name.value| == |section| && Spells(name.value, 0, section, |section|)
  }

  predicate IsEntry(line: Line, key: string) { EntryEnd(line.text, key).Some? }

  predicate IsBlank(line: Line) { Indent(line.text) == |line.text| }

  /** Whether the editor takes itself to be in the section after a line. */
  predicate Now(line: Line, section: string, inside: bool) { if IsHeader(line) then Opens(line, section) else inside }

  function WithEol(line: Line, eol: string): Line { line.(eol := eol) }

  function Newline(lines: seq<Line>): string {
    if exists i :: 0 <= i < |lines| && lines[i].eol == "\r\n" then "\r\n" else "\n"
  }

  /** The lines so far, with a line end on the last. */
  function Ended(lines: seq<Line>, newline: string): seq<Line> {
    if lines != [] && lines[|lines| - 1].eol == "" then lines[..|lines| - 1] + [WithEol(lines[|lines| - 1], newline)] else lines
  }

  function NewEntry(t: Target, newline: string): Line { Line(t.key + " = " + t.value, newline) }

  function Rewritten(line: Line, t: Target, newline: string): Line
    requires IsEntry(line, t.key)
  {
    Line(line.text[..EntryEnd(line.text, t.key).value] + " " + t.value, if line.eol == "" then newline else line.eol)
  }

  /** The rest of a file from a line on, inside or outside the section, while the value is still to be set. */
  function SetFrom(lines: seq<Line>, t: Target, newline: string, inside: bool): Option<seq<Line>> {
    if lines == [] then None else
    var line, rest := lines[0], lines[1..];
    if inside && IsHeader(line) then Some([NewEntry(t, newline)] + lines)
    else if Now(line, t.section, inside) && IsEntry(line, t.key) then Some([Rewritten(line, t, newline)] + rest)
    else
      match SetFrom(rest, t, newline, Now(line, t.section, inside))
      case Some(done) => Some([line] + done)
      case None => None
  }

  predicate HasSection(lines: seq<Line>, section: string) {
    lines != [] && (Opens(lines[|lines| - 1], section) || HasSection(lines[..|lines| - 1], section))
  }

  function NewSection(t: Target, newline: string, indent: string): seq<Line> {
    [Line(indent + "[" + t.section + "]", newline), NewEntry(t, newline)]
  }

  /** What comes before an addition at the end: a blank last line without an end becomes the indentation of the new header. */
  function Base(lines: seq<Line>, t: Target, newline: string): seq<Line> {
    if HasSection(lines, t.section) then Ended(lines, newline)
    else if lines == [] then []
    else if !IsBlank(lines[|lines| - 1]) then Ended(lines, newline) + [Line("", newline)]
    else if lines[|lines| - 1].eol == "" then lines[..|lines| - 1]
    else lines
  }

  function Addition(lines: seq<Line>, t: Target, newline: string): seq<Line> {
    if HasSection(lines, t.section) then [NewEntry(t, newline)]
    else NewSection(t, newline, if lines != [] && IsBlank(lines[|lines| - 1]) && lines[|lines| - 1].eol == "" then lines[|lines| - 1].text else "")
  }

  function Set(lines: seq<Line>, t: Target): seq<Line> {
    match SetFrom(lines, t, Newline(lines), false)
    case Some(done) => done
    case None => Base(lines, t, Newline(lines)) + Addition(lines, t, Newline(lines))
  }

  function Prefixed(before: seq<Line>, rest: Option<seq<Line>>): Option<seq<Line>> {
    if rest.Some? then Some(before + rest.value) else None
  }

  // What one line does to the scan.

  lemma HeaderFirst(line: Line, rest: seq<Line>, t: Target, newline: string)
    requires IsHeader(line)
    ensures SetFrom([line] + rest, t, newline, true) == Some([NewEntry(t, newline)] + ([line] + rest))
  {
  }

  lemma EntryFirst(line: Line, rest: seq<Line>, t: Target, newline: string, inside: bool)
    requires !(inside && IsHeader(line)) && Now(line, t.section, inside) && IsEntry(line, t.key)
    ensures SetFrom([line] + rest, t, newline, inside) == Some([Rewritten(line, t, newline)] + rest)
  {
    assert ([line] + rest)[1..] == rest;
  }

  predicate Passes(line: Line, section: string, key: string, inside: bool) {
    !(inside && IsHeader(line)) && !(Now(line, section, inside) && IsEntry(line, key))
  }

  lemma OtherFirst(line: Line, rest: seq<Line>, t: Target, newline: string, inside: bool)
    requires Passes(line, t.section, t.key, inside)
    ensures SetFrom([line] + rest, t, newline, inside) == Prefixed([line], SetFrom(rest, t, newline, Now(line, t.section, inside)))
  {
    assert ([line] + rest)[1..] == rest;
  }

  lemma PrefixedTwice(a: seq<Line>, b: seq<Line>, rest: Option<seq<Line>>)
    ensures Prefixed(a, Prefixed(b, rest)) == Prefixed(a + b, rest)
  {
    if rest.Some? {
      assert a + (b + rest.value) == (a + b) + rest.value;
    }
  }

  lemma Sliced(lines: seq<Line>, i: nat)
    requires i < |lines|
    ensures lines[i..] == [lines[i]] + lines[i + 1..] && lines[..i + 1] == lines[..i] + [lines[i]]
  {
  }

  lemma Shifted(a: seq<Line>, line: Line, b: seq<Line>)
    ensures a + ([line] + b) == (a + [line]) + b
  {
  }

  lemma HeaderAdds(lines: seq<Line>, i: nat, section: string)
    requires i < |lines|
    ensures HasSection(lines[..i + 1], section) == (HasSection(lines[..i], section) || Opens(lines[i], section))
  {
    assert lines[..i + 1][..i] == lines[..i];
  }

  lemma {:induction false} SectionJoins(a: seq<Line>, b: seq<Line>, section: string)
    ensures HasSection(a + b, section) <==> HasSection(a, section) || HasSection(b, section)
    decreases |b|
  {
    if b == [] {
      assert a + b == a;
    } else {
      assert (a + b)[..|a + b| - 1] == a + b[..|b| - 1];
      SectionJoins(a, b[..|b| - 1], section);
    }
  }

  lemma NothingBefore(lines: seq<Line>, rest: Option<seq<Line>>)
    ensures Prefixed(lines[..0], rest) == rest
  {
    if rest.Some? {
      assert lines[..0] + rest.value == rest.value;
    }
  }

  /** The output and the three flags. */
  datatype Scan = Scan(output: seq<Line>, inSection: bool, foundSection: bool, replaced: bool)

  /** One line of the loop. */
  function Scanned(s: Scan, line: Line, t: Target, newline: string): Scan {
    var leaves := IsHeader(line) && s.inSection && !s.replaced;
    var output := if leaves then s.output + [NewEntry(t, newline)] else s.output;
    var inside, replaced := Now(line, t.section, s.inSection), s.replaced || leaves;
    var found := s.foundSection || (IsHeader(line) && inside);
    if inside && IsEntry(line, t.key) && !replaced then Scan(output + [Rewritten(line, t, newline)], inside, found, true)
    else Scan(output + [line], inside, found, replaced)
  }

  function Scanning(lines: seq<Line>, t: Target, newline: string, i: nat): Scan
    requires i <= |lines|
  {
    if i == 0 then Scan([], false, false, false) else Scanned(Scanning(lines, t, newline, i - 1), lines[i - 1], t, newline)
  }

  /** Where the scan stands: nothing written yet but what was read, or the value set and the rest to be copied. */
  ghost predicate Stands(lines: seq<Line>, t: Target, newline: string, i: nat, s: Scan)
    requires i <= |lines|
  {
    var goal := SetFrom(lines, t, newline, false);
    if s.replaced then goal == Some(s.output + lines[i..])
    else s.output == lines[..i] && goal == Prefixed(lines[..i], SetFrom(lines[i..], t, newline, s.inSection))
  }

  lemma ScanStands(lines: seq<Line>, t: Target, newline: string, i: nat, s: Scan)
    requires i < |lines| && Stands(lines, t, newline, i, s)
    ensures Stands(lines, t, newline, i + 1, Scanned(s, lines[i], t, newline))
  {
    var line, rest := lines[i], lines[i + 1..];
    Sliced(lines, i);
    if s.replaced {
      Shifted(s.output, line, rest);
    } else if Passes(line, t.section, t.key, s.inSection) {
      OtherFirst(line, rest, t, newline, s.inSection);
      PrefixedTwice(lines[..i], [line], SetFrom(rest, t, newline, Now(line, t.section, s.inSection)));
    } else if s.inSection && IsHeader(line) {
      HeaderFirst(line, rest, t, newline);
      Shifted(s.output, NewEntry(t, newline), [line] + rest);
      Shifted(s.output + [NewEntry(t, newline)], line, rest);
    } else {
      EntryFirst(line, rest, t, newline, s.inSection);
      Shifted(s.output, Rewritten(line, t, newline), rest);
    }
  }

  lemma {:induction false} ScanningSets(lines: seq<Line>, t: Target, newline: string, i: nat)
    requires i <= |lines|
    ensures Stands(lines, t, newline, i, Scanning(lines, t, newline, i))
  {
    if i == 0 {
      assert lines[0..] == lines;
      NothingBefore(lines, SetFrom(lines, t, newline, false));
    } else {
      ScanningSets(lines, t, newline, i - 1);
      ScanStands(lines, t, newline, i - 1, Scanning(lines, t, newline, i - 1));
    }
  }

  /** The flags after lines with or without the section. */
  predicate FlagsAgree(s: Scan, found: bool) {
    s.foundSection == found && (s.inSection || s.replaced ==> found) && (!s.replaced && found ==> s.inSection)
  }

  lemma FlagsMove(s: Scan, line: Line, t: Target, newline: string, found: bool)
    requires FlagsAgree(s, found)
    ensures FlagsAgree(Scanned(s, line, t, newline), found || Opens(line, t.section))
  {
  }

  lemma {:induction false} ScanningFinds(lines: seq<Line>, t: Target, newline: string, i: nat)
    requires i <= |lines|
    ensures FlagsAgree(Scanning(lines, t, newline, i), HasSection(lines[..i], t.section))
  {
    if i > 0 {
      ScanningFinds(lines, t, newline, i - 1);
      HeaderAdds(lines, i - 1, t.section);
      FlagsMove(Scanning(lines, t, newline, i - 1), lines[i - 1], t, newline, HasSection(lines[..i - 1], t.section));
    }
  }

  /** The loop over the lines. */
  method ScanLines(lines: seq<Line>, t: Target, newline: string) returns (output: seq<Line>, inSection: bool, foundSection: bool, replaced: bool)
    ensures Scan(output, inSection, foundSection, replaced) == Scanning(lines, t, newline, |lines|)
  {
    output := [];
    inSection, foundSection, replaced := false, false, false;
    for i := 0 to |lines|
      invariant Scan(output, inSection, foundSection, replaced) == Scanning(lines, t, newline, i)
    {
      var line := lines[i];
      if IsHeader(line) {
        if inSection && !replaced {
          output := output + [NewEntry(t, newline)];
          replaced := true;
        }
        inSection := Opens(line, t.section);
        foundSection := foundSection || inSection;
      }
      if inSection && IsEntry(line, t.key) && !replaced {
        output := output + [Rewritten(line, t, newline)];
        replaced := true;
      } else {
        output := output + [line];
      }
    }
  }

  method ReplaceIniValue(lines: seq<Line>, t: Target) returns (output: seq<Line>)
    ensures output == Set(lines, t)
  {
    var newline := Newline(lines);
    var inSection, foundSection, replaced;
    output, inSection, foundSection, replaced := ScanLines(lines, t, newline);
    ScanningEnds(lines, t, newline);
    if inSection && !replaced {
      output := Ended(output, newline);
      output := output + [NewEntry(t, newline)];
    } else if !foundSection {
      if output != [] && !IsBlank(output[|output| - 1]) {
        output := Ended(output, newline);
        output := output + [Line("", newline)];
      }
      if output != [] && output[|output| - 1].eol == "" {
        output := output[..|output| - 1] + NewSection(t, newline, output[|output| - 1].text);
      } else {
        output := output + NewSection(t, newline, "");
      }
    }
  }

  /** What the flags say after the loop. */
  lemma ScanningEnds(lines: seq<Line>, t: Target, newline: string)
    ensures var s := Scanning(lines, t, newline, |lines|);
            && (if s.replaced then SetFrom(lines, t, newline, false) == Some(s.output)
                else s.output == lines && SetFrom(lines, t, newline, false) == None)
            && s.foundSection == HasSection(lines, t.section)
            && (s.replaced ==> s.foundSection) && (!s.replaced ==> s.inSection == s.foundSection)
  {
    var s := Scanning(lines, t, newline, |lines|);
    ScanningSets(lines, t, newline, |lines|);
    ScanningFinds(lines, t, newline, |lines|);
    assert lines[..|lines|] == lines && lines[|lines|..] == [] && s.output + [] == s.output;
  }

  // ---------------------------------------------------------------- what the editor writes

  predicate InKey(c: char) { !IsSpace(c) && c != '=' && c != ':' && c != '[' && c != '#' && c != ';' }

  /** A section and a key as the program names them, and a value without white space around it, on one line. */
  predicate Settable(t: Target) {
    && t.section != "" && ']' !in t.section && Strip(t.section) == t.section
    && t.key != "" && Lower(t.key) == t.key && (forall i :: 0 <= i < |t.key| ==> InKey(t.key[i]))
    && t.value != "" && Strip(t.value) == t.value && '\r' !in t.value && '\n' !in t.value
  }

  /** An entry up to its equals sign. */
  predicate IsLead(lead: string, key: string) { EntryEnd(lead, key) == Some(|lead|) }

  /** What follows the equals sign does not matter. */
  lemma LeadDecides(text: string, other: string, key: string)
    requires EntryEnd(text, key).Some?
    requires EntryEnd(text, key).value <= |other| && other[..EntryEnd(text, key).value] == text[..EntryEnd(text, key).value]
    ensures EntryEnd(other, key) == EntryEnd(text, key) && Indent(other) == Indent(text)
  {
    var i, n := Indent(text), EntryEnd(text, key).value;
    assert forall k :: 0 <= k < n ==> text[..n][k] == other[..n][k] && other[..n][k] == other[k];
    SkipsAlike(text, other, 0, n);
    SkipsAlike(text, other, i + |key|, n);
    SpellsIff(text, i, key, |key|);
    SpellsIff(other, i, key, |key|);
  }

  lemma SkipsAlike(text: string, other: string, i: nat, n: nat)
    requires i <= n <= |text| && n <= |other| && SkipSpace(text, i) < n
    requires forall k :: 0 <= k < n ==> text[k] == other[k]
    ensures SkipSpace(other, i) == SkipSpace(text, i)
  {
    SkipSpaceIs(text, i);
    SkipsTo(other, i, SkipSpace(text, i));
  }

  lemma LeadOf(text: string, key: string)
    requires EntryEnd(text, key).Some?
    ensures var lead := text[..EntryEnd(text, key).value]; IsLead(lead, key) && Indent(lead) == Indent(text)
  {
    LeadDecides(text, text[..EntryEnd(text, key).value], key);
  }

  /** An entry keeps its lead, whatever value is written after it. */
  lemma ValueFollows(lead: string, key: string, rest: string)
    requires IsLead(lead, key)
    ensures EntryEnd(lead + rest, key) == Some(|lead|) && (lead + rest)[..|lead|] == lead && Indent(lead + rest) == Indent(lead)
  {
    LeadDecides(lead, lead + rest, key);
  }

  lemma NewLead(t: Target)
    requires Settable(t)
    ensures IsLead(t.key + " =", t.key) && Indent(t.key + " =") == 0
  {
    var lead := t.key + " =";
    SkipsTo(lead, 0, 0);
    assert lead[0..|t.key|] == t.key;
    SpellsItself(lead, 0, t.key);
    SkipsTo(lead, |t.key|, |t.key| + 1);
  }

  lemma NewEntryIs(t: Target, newline: string)
    requires Settable(t)
    ensures EntryEnd(NewEntry(t, newline).text, t.key) == Some(|t.key| + 2) && !IsHeader(NewEntry(t, newline)) && !IsBlank(NewEntry(t, newline))
    ensures NewEntry(t, newline).text[..|t.key| + 2] == t.key + " ="
  {
    NewLead(t);
    ValueFollows(t.key + " =", t.key, " " + t.value);
    assert t.key + " = " + t.value == t.key + " =" + (" " + t.value);
    NoHeader(NewEntry(t, newline).text, t);
  }

  /** A line is not both a header and an entry. */
  lemma NoHeader(text: string, t: Target)
    requires Settable(t) && EntryEnd(text, t.key).Some?
    ensures HeaderOf(text).None? && Indent(text) < |text| && LowerChar(text[Indent(text)]) == t.key[0]
  {
    var i := Indent(text);
    SpellsIff(text, i, t.key, |t.key|);
    assert Lower(t.key)[0] == LowerChar(t.key[0]);
  }

  lemma RewrittenIs(line: Line, t: Target, newline: string)
    requires IsEntry(line, t.key) && newline != ""
    ensures var after := Rewritten(line, t, newline);
            && EntryEnd(after.text, t.key) == EntryEnd(line.text, t.key) && after.eol != "" && (line.eol != "" ==> after.eol == line.eol)
            && after.text[..EntryEnd(line.text, t.key).value] == line.text[..EntryEnd(line.text, t.key).value]
            && Indent(after.text) == Indent(line.text) && !IsBlank(after)
  {
    LeadOf(line.text, t.key);
    ValueFollows(line.text[..EntryEnd(line.text, t.key).value], t.key, " " + t.value);
    var lead := line.text[..EntryEnd(line.text, t.key).value];
    assert lead + " " + t.value == lead + (" " + t.value);
  }

  lemma RewrittenAgain(line: Line, first: Target, second: Target, newline: string)
    requires first.key == second.key && IsEntry(line, first.key) && newline != ""
    ensures IsEntry(Rewritten(line, first, newline), second.key)
    ensures Rewritten(Rewritten(line, first, newline), second, newline) == Rewritten(line, second, newline)
  {
    RewrittenIs(line, first, newline);
  }

  lemma HeaderText(indent: string, section: string)
    requires Indent(indent) == |indent| && section != "" && ']' !in section && Strip(section) == section
    ensures var text := indent + "[" + section + "]"; HeaderOf(text) == Some(section) && Indent(text) == |indent| < |text|
  {
    var text, i, n := indent + "[" + section + "]", |indent|, |section|;
    SkipSpaceIs(indent, 0);
    assert forall k :: 0 <= k < i ==> text[k] == indent[k];
    SkipsTo(text, 0, i);
    assert text[i + 1..i + 1 + n] == section;
    assert forall k :: i + 1 <= k < i + 1 + n ==> text[k] == section[k - (i + 1)];
    assert text[i + 1 + n] == ']';
    NextIs(text, ']', i + 1);
  }

  lemma NewHeaderIs(t: Target, newline: string, indent: string)
    requires Settable(t) && Indent(indent) == |indent|
    ensures Opens(NewSection(t, newline, indent)[0], t.section) && Indent(NewSection(t, newline, indent)[0].text) == |indent|
    ensures !IsBlank(NewSection(t, newline, indent)[0])
  {
    HeaderText(indent, t.section);
    SpellsItself(t.section, 0, t.section);
  }

  // ---------------------------------------------------------------- laws of setting

  function InsideAfter(lines: seq<Line>, section: string, inside: bool): bool {
    if lines == [] then inside else InsideAfter(lines[1..], section, Now(lines[0], section, inside))
  }

  lemma {:induction false} InsideJoins(a: seq<Line>, b: seq<Line>, section: string, inside: bool)
    ensures InsideAfter(a + b, section, inside) == InsideAfter(b, section, InsideAfter(a, section, inside))
  {
    if a == [] {
      assert a + b == b;
    } else {
      assert (a + b)[1..] == a[1..] + b;
      InsideJoins(a[1..], b, section, Now(a[0], section, inside));
    }
  }

  /** Without an entry to set, the file ends inside the section if it has one. */
  lemma {:induction false} NothingToSet(lines: seq<Line>, t: Target, newline: string, inside: bool)
    requires SetFrom(lines, t, newline, inside).None?
    ensures InsideAfter(lines, t.section, inside) == (inside || HasSection(lines, t.section))
  {
    if lines != [] {
      NothingToSet(lines[1..], t, newline, Now(lines[0], t.section, inside));
      assert lines == [lines[0]] + lines[1..];
      SectionSplits(lines[0], lines[1..], t.section);
    }
  }

  lemma SectionSplits(line: Line, rest: seq<Line>, section: string)
    ensures HasSection([line] + rest, section) <==> Opens(line, section) || HasSection(rest, section)
  {
    SectionJoins([line], rest, section);
    HeaderAdds([line], 0, section);
  }

  lemma InsideLast(lines: seq<Line>, line: Line, section: string)
    ensures InsideAfter(lines + [line], section, false) == Now(line, section, InsideAfter(lines, section, false))
  {
    InsideJoins(lines, [line], section, false);
    assert [line][1..] == [];
  }

  lemma BaseInside(lines: seq<Line>, t: Target, newline: string)
    ensures InsideAfter(Base(lines, t, newline), t.section, false) == InsideAfter(lines, t.section, false)
  {
    InsideLast(Ended(lines, newline), Line("", newline), t.section);
    if lines != [] {
      var n := |lines| - 1;
      assert lines == lines[..n] + [lines[n]];
      InsideLast(lines[..n], lines[n], t.section);
      InsideLast(lines[..n], WithEol(lines[n], newline), t.section);
    }
  }

  lemma {:induction false} SetFromAgain(lines: seq<Line>, first: Target, second: Target, newline: string, inside: bool)
    requires Settable(first) && Settable(second) && first.section == second.section && first.key == second.key && newline != ""
    ensures SetFrom(lines, first, newline, inside).Some? <==> SetFrom(lines, second, newline, inside).Some?
    ensures SetFrom(lines, first, newline, inside).Some? ==>
              SetFrom(SetFrom(lines, first, newline, inside).value, second, newline, inside) == SetFrom(lines, second, newline, inside)
  {
    if lines != [] {
      var line, rest := lines[0], lines[1..];
      assert lines == [line] + rest;
      if Passes(line, first.section, first.key, inside) {
        var next := Now(line, first.section, inside);
        SetFromAgain(rest, first, second, newline, next);
        OtherFirst(line, rest, first, newline, inside);
        OtherFirst(line, rest, second, newline, inside);
        if SetFrom(rest, first, newline, next).Some? {
          OtherFirst(line, SetFrom(rest, first, newline, next).value, second, newline, inside);
        }
      } else {
        SetHereAgain(line, rest, first, second, newline, inside);
      }
    }
  }

  lemma SetHereAgain(line: Line, rest: seq<Line>, first: Target, second: Target, newline: string, inside: bool)
    requires Settable(first) && Settable(second) && first.section == second.section && first.key == second.key && newline != ""
    requires !Passes(line, first.section, first.key, inside)
    ensures SetFrom([line] + rest, first, newline, inside).Some?
    ensures SetFrom(SetFrom([line] + rest, first, newline, inside).value, second, newline, inside) ==
            SetFrom([line] + rest, second, newline, inside) != None
  {
    if inside && IsHeader(line) {
      HeaderFirst(line, rest, first, newline);
      HeaderFirst(line, rest, second, newline);
      NewEntryIs(first, newline);
      EntryFirst(NewEntry(first, newline), [line] + rest, second, newline, inside);
      NewIsRewritten(first, second, newline);
    } else {
      EntryFirst(line, rest, first, newline, inside);
      EntryFirst(line, rest, second, newline, inside);
      RewrittenAgain(line, first, second, newline);
      NoHeader(line.text, first);
      NoHeader(Rewritten(line, first, newline).text, first);
      EntryFirst(Rewritten(line, first, newline), rest, second, newline, inside);
    }
  }

  lemma NewIsRewritten(first: Target, second: Target, newline: string)
    requires Settable(first) && first.key == second.key && newline != ""
    ensures IsEntry(NewEntry(first, newline), second.key)
    ensures Rewritten(NewEntry(first, newline), second, newline) == NewEntry(second, newline)
  {
    NewEntryIs(first, newline);
    assert second.key + " =" + " " + second.value == second.key + " = " + second.value;
  }

  /** Lines with nothing to set are passed over, and the lines after them decide. */
  lemma {:induction false} SetFromJoins(a: seq<Line>, b: seq<Line>, t: Target, newline: string, inside: bool)
    requires SetFrom(a, t, newline, inside).None?
    ensures SetFrom(a + b, t, newline, inside) == Prefixed(a, SetFrom(b, t, newline, InsideAfter(a, t.section, inside)))
  {
    if a == [] {
      assert a + b == b;
      NothingBefore(b, SetFrom(b, t, newline, inside));
      assert b[..0] == a;
    } else {
      var next := Now(a[0], t.section, inside);
      assert a == [a[0]] + a[1..] && a + b == [a[0]] + (a[1..] + b);
      assert Passes(a[0], t.section, t.key, inside);
      OtherFirst(a[0], a[1..], t, newline, inside);
      OtherFirst(a[0], a[1..] + b, t, newline, inside);
      SetFromJoins(a[1..], b, t, newline, next);
      PrefixedTwice([a[0]], a[1..], SetFrom(b, t, newline, InsideAfter(a[1..], t.section, next)));
    }
  }

  lemma {:induction false} EndedSetsSame(lines: seq<Line>, t: Target, newline: string, inside: bool)
    requires SetFrom(lines, t, newline, inside).None?
    ensures SetFrom(Ended(lines, newline), t, newline, inside).None?
  {
    if lines != [] && lines[|lines| - 1].eol == "" {
      var ended := Ended(lines, newline);
      if |lines| > 1 {
        assert ended[1..] == Ended(lines[1..], newline);
        EndedSetsSame(lines[1..], t, newline, Now(lines[0], t.section, inside));
      } else {
        assert ended == [WithEol(lines[0], newline)] && ended[1..] == [] && lines[1..] == [];
      }
    }
  }

  lemma BaseSetsNothing(lines: seq<Line>, t: Target, newline: string)
    requires SetFrom(lines, t, newline, false).None?
    ensures SetFrom(Base(lines, t, newline), t, newline, false).None?
  {
    EndedSetsSame(lines, t, newline, false);
    SetFromJoins(Ended(lines, newline), [Line("", newline)], t, newline, false);
    assert [Line("", newline)][1..] == [];
    if lines != [] {
      var n := |lines| - 1;
      assert lines == lines[..n] + [lines[n]];
      if SetFrom(lines[..n], t, newline, false).Some? {
        SetFromEarly(lines[..n], [lines[n]], t, newline, false);
      }
    }
  }

  lemma {:induction false} SetFromEarly(a: seq<Line>, b: seq<Line>, t: Target, newline: string, inside: bool)
    ensures SetFrom(a, t, newline, inside).Some? ==> SetFrom(a + b, t, newline, inside).Some?
  {
    if a != [] {
      assert (a + b)[1..] == a[1..] + b;
      SetFromEarly(a[1..], b, t, newline, Now(a[0], t.section, inside));
    }
  }

  lemma AdditionSetsAgain(lines: seq<Line>, first: Target, second: Target, newline: string, inside: bool)
    requires Settable(first) && Settable(second) && first.section == second.section && first.key == second.key && newline != ""
    requires HasSection(lines, first.section) ==> inside
    requires !HasSection(lines, first.section) ==> !inside
    ensures SetFrom(Addition(lines, first, newline), second, newline, inside) == Some(Addition(lines, second, newline))
  {
    EntrySetsAgain(first, second, newline);
    if !HasSection(lines, first.section) {
      AdditionIs(lines, first, newline);
      var header := Addition(lines, first, newline)[0];
      EntryIsNoHeader(header, second);
      OtherFirst(header, [NewEntry(first, newline)], second, newline, false);
      assert [header] + [NewEntry(second, newline)] == Addition(lines, second, newline);
      assert [header] + [NewEntry(first, newline)] == Addition(lines, first, newline);
    }
  }

  lemma EntrySetsAgain(first: Target, second: Target, newline: string)
    requires Settable(first) && first.key == second.key && newline != ""
    ensures SetFrom([NewEntry(first, newline)], second, newline, true) == Some([NewEntry(second, newline)])
  {
    NewEntryIs(first, newline);
    NewIsRewritten(first, second, newline);
    EntryFirst(NewEntry(first, newline), [], second, newline, true);
    assert [NewEntry(first, newline)] + [] == [NewEntry(first, newline)] && [NewEntry(second, newline)] + [] == [NewEntry(second, newline)];
  }

  lemma AdditionIs(lines: seq<Line>, t: Target, newline: string)
    requires Settable(t) && !HasSection(lines, t.section)
    ensures var added := Addition(lines, t, newline);
            |added| == 2 && Opens(added[0], t.section) && !IsBlank(added[0]) && added[1] == NewEntry(t, newline)
  {
    var blank := lines != [] && IsBlank(lines[|lines| - 1]) && lines[|lines| - 1].eol == "";
    assert Indent("") == 0;
    NewHeaderIs(t, newline, if blank then lines[|lines| - 1].text else "");
  }

  lemma EntryIsNoHeader(line: Line, t: Target)
    requires Settable(t) && IsHeader(line)
    ensures !IsEntry(line, t.key)
  {
    if IsEntry(line, t.key) {
      NoHeader(line.text, t);
    }
  }

  // ---- the line end stays

  predicate Dos(lines: seq<Line>) { exists i :: 0 <= i < |lines| && lines[i].eol == "\r\n" }

  lemma DosJoins(a: seq<Line>, b: seq<Line>)
    ensures Dos(a + b) <==> Dos(a) || Dos(b)
  {
    var all := a + b;
    if Dos(a) {
      var i :| 0 <= i < |a| && a[i].eol == "\r\n";
      assert all[i].eol == "\r\n";
    }
    if Dos(b) {
      var i :| 0 <= i < |b| && b[i].eol == "\r\n";
      assert all[|a| + i].eol == "\r\n";
    }
  }

  lemma DosOne(line: Line)
    ensures Dos([line]) <==> line.eol == "\r\n"
  {
    assert [line][0] == line;
  }

  lemma {:induction false} SetFromKeepsDos(lines: seq<Line>, t: Target, newline: string, inside: bool)
    requires SetFrom(lines, t, newline, inside).Some? && newline != "" && (newline == "\r\n" ==> Dos(lines))
    ensures Dos(SetFrom(lines, t, newline, inside).value) <==> Dos(lines)
  {
    var line, rest := lines[0], lines[1..];
    assert lines == [line] + rest;
    DosJoins([line], rest);
    DosOne(line);
    if inside && IsHeader(line) {
      DosJoins([NewEntry(t, newline)], lines);
      DosOne(NewEntry(t, newline));
    } else if Now(line, t.section, inside) && IsEntry(line, t.key) {
      DosJoins([Rewritten(line, t, newline)], rest);
      DosOne(Rewritten(line, t, newline));
    } else {
      var next := Now(line, t.section, inside);
      if newline == "\r\n" ==> Dos(rest) {
        SetFromKeepsDos(rest, t, newline, next);
      }
      DosJoins([line], SetFrom(rest, t, newline, next).value);
    }
  }

  lemma NewlineIsDos(lines: seq<Line>)
    ensures Newline(lines) == if Dos(lines) then "\r\n" else "\n"
  {
  }

  lemma EndedKeepsDos(lines: seq<Line>)
    ensures Dos(Ended(lines, Newline(lines))) <==> Dos(lines)
  {
    var newline := Newline(lines);
    if lines != [] && lines[|lines| - 1].eol == "" {
      var n := |lines| - 1;
      assert lines == lines[..n] + [lines[n]];
      DosJoins(lines[..n], [lines[n]]);
      DosJoins(lines[..n], [WithEol(lines[n], newline)]);
      DosOne(lines[n]);
      DosOne(WithEol(lines[n], newline));
    }
  }

  lemma EndingKeepsDos(lines: seq<Line>, t: Target)
    ensures Dos(Base(lines, t, Newline(lines)) + Addition(lines, t, Newline(lines))) <==> Dos(lines)
  {
    var newline := Newline(lines);
    var base, added := Base(lines, t, newline), Addition(lines, t, newline);
    DosJoins(base, added);
    EndedKeepsDos(lines);
    DosJoins(Ended(lines, newline), [Line("", newline)]);
    DosOne(Line("", newline));
    DosOne(NewEntry(t, newline));
    if !HasSection(lines, t.section) {
      assert added == [added[0]] + [NewEntry(t, newline)];
      DosJoins([added[0]], [NewEntry(t, newline)]);
      DosOne(added[0]);
    }
    if lines != [] {
      var n := |lines| - 1;
      assert lines == lines[..n] + [lines[n]];
      DosJoins(lines[..n], [lines[n]]);
      DosOne(lines[n]);
    }
  }

  lemma SetKeepsNewline(lines: seq<Line>, t: Target)
    ensures Newline(Set(lines, t)) == Newline(lines)
  {
    NewlineIsDos(lines);
    NewlineIsDos(Set(lines, t));
    if SetFrom(lines, t, Newline(lines), false).Some? {
      SetFromKeepsDos(lines, t, Newline(lines), false);
    } else {
      EndingKeepsDos(lines, t);
    }
  }

  /** The last set wins: an earlier one of the same key leaves no trace. */
  lemma LastSetWins(lines: seq<Line>, first: Target, second: Target)
    requires Settable(first) && Settable(second) && first.section == second.section && first.key == second.key
    ensures Set(Set(lines, first), second) == Set(lines, second)
  {
    var newline := Newline(lines);
    SetKeepsNewline(lines, first);
    SetFromAgain(lines, first, second, newline, false);
    if SetFrom(lines, first, newline, false).None? {
      var base := Base(lines, first, newline);
      NothingToSet(lines, first, newline, false);
      BaseInside(lines, first, newline);
      BaseSetsNothing(lines, second, newline);
      AdditionSetsAgain(lines, first, second, newline, InsideAfter(base, first.section, false));
      SetFromJoins(base, Addition(lines, first, newline), second, newline, false);
    }
  }

  // ---- everything that is no entry of the key

  /** All lines but blank ones and entries of the key, without their ends: comments, headers, other settings. */
  function Skeleton(lines: seq<Line>, key: string): seq<Line> {
    if lines == [] then [] else
    (if IsBlank(lines[0]) || IsEntry(lines[0], key) then [] else [WithEol(lines[0], "")]) + Skeleton(lines[1..], key)
  }

  lemma {:induction false} SkeletonJoins(a: seq<Line>, b: seq<Line>, key: string)
    ensures Skeleton(a + b, key) == Skeleton(a, key) + Skeleton(b, key)
  {
    if a == [] {
      assert a + b == b;
    } else {
      assert (a + b)[1..] == a[1..] + b;
      SkeletonJoins(a[1..], b, key);
    }
  }

  lemma SkeletonOne(line: Line, key: string)
    ensures Skeleton([line], key) == if IsBlank(line) || IsEntry(line, key) then [] else [WithEol(line, "")]
  {
    assert [line][1..] == [];
  }

  lemma {:induction false} SetFromKeepsSkeleton(lines: seq<Line>, t: Target, newline: string, inside: bool)
    requires Settable(t) && newline != "" && SetFrom(lines, t, newline, inside).Some?
    ensures Skeleton(SetFrom(lines, t, newline, inside).value, t.key) == Skeleton(lines, t.key)
  {
    var line, rest := lines[0], lines[1..];
    assert lines == [line] + rest;
    SkeletonJoins([line], rest, t.key);
    if Passes(line, t.section, t.key, inside) {
      OtherFirst(line, rest, t, newline, inside);
      var next := Now(line, t.section, inside);
      SetFromKeepsSkeleton(rest, t, newline, next);
      SkeletonJoins([line], SetFrom(rest, t, newline, next).value, t.key);
    } else if inside && IsHeader(line) {
      HeaderFirst(line, rest, t, newline);
      SkeletonJoins([NewEntry(t, newline)], lines, t.key);
      SkeletonOne(NewEntry(t, newline), t.key);
      NewEntryIs(t, newline);
    } else {
      EntryFirst(line, rest, t, newline, inside);
      SkeletonJoins([Rewritten(line, t, newline)], rest, t.key);
      SkeletonOne(Rewritten(line, t, newline), t.key);
      SkeletonOne(line, t.key);
      RewrittenIs(line, t, newline);
    }
  }

  lemma EndedKeepsSkeleton(lines: seq<Line>, newline: string, key: string)
    ensures Skeleton(Ended(lines, newline), key) == Skeleton(lines, key)
  {
    if lines != [] {
      var n := |lines| - 1;
      assert lines == lines[..n] + [lines[n]];
      SkeletonJoins(lines[..n], [lines[n]], key);
      SkeletonJoins(lines[..n], [WithEol(lines[n], newline)], key);
      SkeletonOne(lines[n], key);
      SkeletonOne(WithEol(lines[n], newline), key);
    }
  }

  /** Comments, headers and other settings stay, in their order; a new section comes after them. */
  lemma SetKeepsSkeleton(lines: seq<Line>, t: Target)
    requires Settable(t)
    ensures var before, after := Skeleton(lines, t.key), Skeleton(Set(lines, t), t.key);
            if HasSection(lines, t.section) then after == before
            else |after| == |before| + 1 && after[..|before|] == before && Opens(after[|before|], t.section)
  {
    var newline := Newline(lines);
    if SetFrom(lines, t, newline, false).Some? {
      SetFromKeepsSkeleton(lines, t, newline, false);
      SettingNeedsSection(lines, t, newline, false);
    } else {
      var base, added := Base(lines, t, newline), Addition(lines, t, newline);
      SkeletonJoins(base, added, t.key);
      BaseKeepsSkeleton(lines, t, newline);
      SkeletonOne(NewEntry(t, newline), t.key);
      NewEntryIs(t, newline);
      if !HasSection(lines, t.section) {
        AdditionIs(lines, t, newline);
        EntryIsNoHeader(added[0], t);
        assert added == [added[0]] + [NewEntry(t, newline)];
        SkeletonJoins([added[0]], [NewEntry(t, newline)], t.key);
        SkeletonOne(added[0], t.key);
      }
    }
  }

  lemma BaseKeepsSkeleton(lines: seq<Line>, t: Target, newline: string)
    ensures Skeleton(Base(lines, t, newline), t.key) == Skeleton(lines, t.key)
  {
    EndedKeepsSkeleton(lines, newline, t.key);
    SkeletonJoins(Ended(lines, newline), [Line("", newline)], t.key);
    SkeletonOne(Line("", newline), t.key);
    if lines != [] {
      var n := |lines| - 1;
      assert lines == lines[..n] + [lines[n]];
      SkeletonJoins(lines[..n], [lines[n]], t.key);
      SkeletonOne(lines[n], t.key);
    }
  }

  lemma {:induction false} SettingNeedsSection(lines: seq<Line>, t: Target, newline: string, inside: bool)
    requires SetFrom(lines, t, newline, inside).Some?
    ensures inside || HasSection(lines, t.section)
  {
    assert lines == [lines[0]] + lines[1..];
    SectionSplits(lines[0], lines[1..], t.section);
    if !inside && !Opens(lines[0], t.section) {
      SettingNeedsSection(lines[1..], t, newline, false);
    }
  }

  // ---- the frame

  /** One line of a file is new, or takes the place of an entry of the key; all before and after it stay. */
  ghost predicate OneLineSet(before: seq<Line>, after: seq<Line>, key: string, i: nat) {
    && i <= |before| && i < |after| && IsEntry(after[i], key) && after[..i] == before[..i]
    && (after[i + 1..] == before[i..]
        || (i < |before| && IsEntry(before[i], key) && after[i + 1..] == before[i + 1..]))
  }

  lemma {:induction false} SetFromSetsOneLine(lines: seq<Line>, t: Target, newline: string, inside: bool) returns (i: nat)
    requires Settable(t) && newline != "" && SetFrom(lines, t, newline, inside).Some?
    ensures OneLineSet(lines, SetFrom(lines, t, newline, inside).value, t.key, i)
    ensures InsideAfter(lines[..i], t.section, inside)
  {
    var line, rest := lines[0], lines[1..];
    assert lines == [line] + rest;
    if Passes(line, t.section, t.key, inside) {
      OtherFirst(line, rest, t, newline, inside);
      var next := Now(line, t.section, inside);
      var k := SetFromSetsOneLine(rest, t, newline, next);
      i := k + 1;
      OneLineSetLater(line, rest, SetFrom(rest, t, newline, next).value, t.key, k);
      assert lines[..i] == [line] + rest[..k];
      assert ([line] + rest[..k])[1..] == rest[..k];
    } else {
      i := 0;
      SetsFirstLine(line, rest, t, newline, inside);
    }
  }

  lemma SetsFirstLine(line: Line, rest: seq<Line>, t: Target, newline: string, inside: bool)
    requires Settable(t) && newline != "" && !Passes(line, t.section, t.key, inside)
    ensures inside && SetFrom([line] + rest, t, newline, inside).Some?
    ensures OneLineSet([line] + rest, SetFrom([line] + rest, t, newline, inside).value, t.key, 0)
  {
    var after := SetFrom([line] + rest, t, newline, inside);
    if inside && IsHeader(line) {
      HeaderFirst(line, rest, t, newline);
      NewEntryIs(t, newline);
      assert after.value[1..] == ([line] + rest)[0..];
    } else {
      EntryFirst(line, rest, t, newline, inside);
      NoHeader(line.text, t);
      RewrittenIs(line, t, newline);
      assert after.value[1..] == ([line] + rest)[1..];
    }
  }

  lemma OneLineSetLater(line: Line, before: seq<Line>, after: seq<Line>, key: string, k: nat)
    requires OneLineSet(before, after, key, k)
    ensures OneLineSet([line] + before, [line] + after, key, k + 1)
  {
    var b, a := [line] + before, [line] + after;
    assert a[..k + 1] == [line] + after[..k] && b[..k + 1] == [line] + before[..k];
    assert a[k + 2..] == after[k + 1..] && b[k + 1..] == before[k..];
    assert k < |before| ==> b[k + 2..] == before[k + 1..];
  }

  /**
   The frame: in a file with the section, setting replaces one entry of the key by another, or adds one,
   within that section; every other line, entries of the key elsewhere included, stays as it was, but
   for a line end that the last one may have lacked.
   */
  lemma SetChangesOneLine(lines: seq<Line>, t: Target) returns (i: nat)
    requires Settable(t) && HasSection(lines, t.section)
    ensures OneLineSet(lines, Set(lines, t), t.key, i) || OneLineSet(Ended(lines, Newline(lines)), Set(lines, t), t.key, i)
    ensures i <= |lines| && InsideAfter(lines[..i], t.section, false)
  {
    var newline := Newline(lines);
    if SetFrom(lines, t, newline, false).Some? {
      i := SetFromSetsOneLine(lines, t, newline, false);
    } else {
      i := |lines|;
      NothingToSet(lines, t, newline, false);
      NewEntryIs(t, newline);
      assert lines[..i] == lines;
      LastLineSet(Ended(lines, newline), NewEntry(t, newline), t.key);
    }
  }

  lemma LastLineSet(lines: seq<Line>, line: Line, key: string)
    requires IsEntry(line, key)
    ensures OneLineSet(lines, lines + [line], key, |lines|)
  {
    var after := lines + [line];
    assert after[..|lines|] == lines[..|lines|] && after[|lines| + 1..] == lines[|lines|..];
  }

  /** Without the section, all lines stay but for a line end, or a blank last line turned into indentation. */
  lemma SetAddsSection(lines: seq<Line>, t: Target)
    requires !HasSection(lines, t.section)
    ensures Set(lines, t) == Base(lines, t, Newline(lines)) + Addition(lines, t, Newline(lines))
    ensures Ended(lines, Newline(lines)) <= Base(lines, t, Newline(lines))
            || (lines != [] && IsBlank(lines[|lines| - 1]) && lines[|lines| - 1].eol == "" && Base(lines, t, Newline(lines)) == lines[..|lines| - 1])
  {
    if SetFrom(lines, t, Newline(lines), false).Some? {
      SettingNeedsSection(lines, t, Newline(lines), false);
    }
  }
}
