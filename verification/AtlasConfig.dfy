/**
 Two line editors of configure_atlas_supervisor.py: the section of one host in the Atlas
 configuration, and the marked entry of one host in the hosts file.
 */
module AtlasConfig {
  import opened Wrappers
  import opened TextLines

  // ---------------------------------------------------------------- the section of a host

  /** The name in a section header; None for any other line. */
  type Headers = string -> Option<string>

  /** Trailing white space makes no header and hides none, and a blank line is none. */
  ghost predicate Classifies(header: Headers) {
    (forall line :: header(Rstrip(line)) == header(line)) && header("") == None
  }

  /** The lines outside (or inside) the sections of one name, from a line on whose section is known. */
  function Filtered(header: Headers, lines: seq<string>, target: string, inside: bool, skipping: bool): seq<string> {
    if lines == [] then []
    else
      var name := header(lines[0]);
      var skips := if name.Some? then name.value == target else skipping;
      (if skips == inside then [lines[0]] else []) + Filtered(header, lines[1..], target, inside, skips)
  }

  function Outside(header: Headers, lines: seq<string>, target: string): seq<string> {
    Filtered(header, lines, target, false, false)
  }

  function SectionOf(header: Headers, lines: seq<string>, target: string): seq<string> {
    Filtered(header, lines, target, true, false)
  }

  function Replaced(header: Headers, lines: seq<string>, target: string, section: seq<string>): seq<string> {
    var existing := TrimEnd(Outside(header, lines, target));
    (if existing != [] then existing + [""] else []) + TrimEnd(section)
  }

  ghost function SkippingAfter(header: Headers, lines: seq<string>, target: string, skipping: bool): bool {
    if lines == [] then skipping
    else SkippingAfter(header, lines[1..], target, if header(lines[0]).Some? then header(lines[0]).value == target else skipping)
  }

  lemma {:induction false} FilterJoins(header: Headers, a: seq<string>, b: seq<string>, target: string, inside: bool, skipping: bool)
    ensures Filtered(header, a + b, target, inside, skipping) ==
            Filtered(header, a, target, inside, skipping) + Filtered(header, b, target, inside, SkippingAfter(header, a, target, skipping))
  {
    if a == [] {
      assert a + b == b;
    } else {
      assert (a + b)[1..] == a[1..] + b;
      FilterJoins(header, a[1..], b, target, inside, if header(a[0]).Some? then header(a[0]).value == target else skipping);
    }
  }

  lemma FilterStep(header: Headers, lines: seq<string>, line: string, target: string)
    ensures var skips := if header(line).Some? then header(line).value == target else SkippingAfter(header, lines, target, false);
            && SkippingAfter(header, lines + [line], target, false) == skips
            && Outside(header, lines + [line], target) == Outside(header, lines, target) + (if skips then [] else [line])
            && SectionOf(header, lines + [line], target) == SectionOf(header, lines, target) + (if skips then [line] else [])
  {
    FilterJoins(header, lines, [line], target, false, false);
    FilterJoins(header, lines, [line], target, true, false);
    SkippingJoins(header, lines, line, target, false);
    assert Filtered(header, [], target, false, true) == [] && Filtered(header, [], target, false, false) == [];
    assert Filtered(header, [], target, true, true) == [] && Filtered(header, [], target, true, false) == [];
  }

  lemma {:induction false} SkippingJoins(header: Headers, lines: seq<string>, line: string, target: string, skipping: bool)
    ensures SkippingAfter(header, lines + [line], target, skipping) ==
            if header(line).Some? then header(line).value == target else SkippingAfter(header, lines, target, skipping)
  {
    if lines == [] {
      assert lines + [line] == [line];
      assert SkippingAfter(header, [line][1..], target, true) && !SkippingAfter(header, [line][1..], target, false);
    } else {
      assert (lines + [line])[1..] == lines[1..] + [line];
      SkippingJoins(header, lines[1..], line, target, if header(lines[0]).Some? then header(lines[0]).value == target else skipping);
    }
  }

  method ReplaceAtlasSection(header: Headers, lines: seq<string>, target: string, section: seq<string>) returns (r: seq<string>)
    ensures r == Replaced(header, lines, target, section)
  {
    var output: seq<string> := [];
    var skipping := false;
    for i := 0 to |lines|
      invariant output == Outside(header, lines[..i], target)
      invariant skipping == SkippingAfter(header, lines[..i], target, false)
    {
      FilterStep(header, lines[..i], lines[i], target);
      assert lines[..i + 1] == lines[..i] + [lines[i]];
      var name := header(lines[i]);
      if name.Some? {
        skipping := name.value == target;
      }
      if !skipping {
        output := output + [lines[i]];
      }
    }
    assert lines[..|lines|] == lines;
    var existing := TrimEnd(output);
    r := TrimEnd(section);
    if existing != [] {
      r := existing + [""] + r;
    }
  }

  /** A rendered section: its header, then lines that are no headers. */
  ghost predicate IsSection(header: Headers, target: string, section: seq<string>) {
    && section != [] && header(section[0]) == Some(target)
    && forall i :: 1 <= i < |section| ==> header(section[i]) == None
  }

  /** Lines without a header of the target stay outside. */
  ghost predicate NoHeader(header: Headers, lines: seq<string>, target: string) {
    forall i :: 0 <= i < |lines| ==> header(lines[i]) != Some(target)
  }

  lemma {:induction false} AllOutside(header: Headers, lines: seq<string>, target: string)
    requires NoHeader(header, lines, target)
    ensures Filtered(header, lines, target, false, false) == lines && Filtered(header, lines, target, true, false) == []
    ensures !SkippingAfter(header, lines, target, false)
  {
    if lines != [] {
      assert NoHeader(header, lines[1..], target);
      AllOutside(header, lines[1..], target);
    }
  }

  lemma {:induction false} NoHeadersInside(header: Headers, lines: seq<string>, target: string)
    requires forall i :: 0 <= i < |lines| ==> header(lines[i]) == None
    ensures Filtered(header, lines, target, false, true) == [] && Filtered(header, lines, target, true, true) == lines
  {
    if lines != [] {
      NoHeadersInside(header, lines[1..], target);
    }
  }

  lemma {:induction false} OutsideHasNoHeader(header: Headers, lines: seq<string>, target: string, skipping: bool)
    ensures NoHeader(header, Filtered(header, lines, target, false, skipping), target)
  {
    if lines != [] {
      OutsideHasNoHeader(header, lines[1..], target, if header(lines[0]).Some? then header(lines[0]).value == target else skipping);
    }
  }

  lemma {:induction false} TrimKeepsHeaders(header: Headers, lines: seq<string>)
    requires Classifies(header)
    ensures forall i :: 0 <= i < |TrimEnd(lines)| ==> header(TrimEnd(lines)[i]) == header(lines[i])
    ensures lines != [] && header(lines[0]).Some? ==> TrimEnd(lines) != []
    decreases |lines|
  {
    if lines != [] {
      var rest, last := lines[..|lines| - 1], lines[|lines| - 1];
      assert header(Rstrip(last)) == header(last);
      TrimKeepsHeaders(header, rest);
    }
  }

  lemma SectionAlone(header: Headers, s: seq<string>, target: string)
    requires IsSection(header, target, s)
    ensures Outside(header, s, target) == [] && SectionOf(header, s, target) == s
  {
    NoHeadersInside(header, s[1..], target);
    assert s == [s[0]] + s[1..];
  }

  lemma TrimmedIsSection(header: Headers, target: string, section: seq<string>)
    requires Classifies(header) && IsSection(header, target, section)
    ensures IsSection(header, target, TrimEnd(section))
  {
    TrimKeepsHeaders(header, section);
  }

  /** The trimmed section stands alone after any lines that are not of the target. */
  lemma SectionStands(header: Headers, existing: seq<string>, target: string, section: seq<string>)
    requires Classifies(header) && IsSection(header, target, section) && NoHeader(header, existing, target)
    ensures Outside(header, existing + TrimEnd(section), target) == existing
    ensures SectionOf(header, existing + TrimEnd(section), target) == TrimEnd(section)
  {
    var s := TrimEnd(section);
    TrimmedIsSection(header, target, section);
    SectionAlone(header, s, target);
    AllOutside(header, existing, target);
    FilterJoins(header, existing, s, target, false, false);
    FilterJoins(header, existing, s, target, true, false);
  }

  /**
   Replacing leaves the new section as the only one of the host, and all other lines as they were,
   up to white space at their end.
   */
  lemma ReplacedReadsBack(header: Headers, lines: seq<string>, target: string, section: seq<string>)
    requires Classifies(header) && IsSection(header, target, section)
    ensures var r := Replaced(header, lines, target, section);
            && SectionOf(header, r, target) == TrimEnd(section)
            && TrimEnd(Outside(header, r, target)) == TrimEnd(Outside(header, lines, target))
  {
    var outside := Outside(header, lines, target);
    var existing := TrimEnd(outside);
    OutsideHasNoHeader(header, lines, target, false);
    TrimKeepsHeaders(header, outside);
    TrimTwice(outside);
    if existing != [] {
      SectionStands(header, existing + [""], target, section);
      TrimAppended(existing, "");
    } else {
      SectionStands(header, existing, target, section);
      assert [] + TrimEnd(section) == TrimEnd(section);
    }
  }

  /** The rest comes first, then the section, with one blank line between them if there is a rest. */
  lemma SectionComesLast(header: Headers, lines: seq<string>, target: string, section: seq<string>)
    ensures var rest, r := TrimEnd(Outside(header, lines, target)), Replaced(header, lines, target, section);
            && rest <= r && |r| == |rest| + |TrimEnd(section)| + (if rest == [] then 0 else 1)
            && r[|r| - |TrimEnd(section)|..] == TrimEnd(section) && (rest != [] ==> r[|rest|] == "")
  {
  }

  /** The last write wins; with the same section twice this is idempotence. */
  lemma LastSectionWins(header: Headers, lines: seq<string>, target: string, first: seq<string>, second: seq<string>)
    requires Classifies(header) && IsSection(header, target, first)
    ensures Replaced(header, Replaced(header, lines, target, first), target, second) == Replaced(header, lines, target, second)
  {
    ReplacedReadsBack(header, lines, target, first);
  }

  // ---- other hosts

  lemma {:induction false} OthersStay(header: Headers, lines: seq<string>, target: string, other: string, skipping: bool, kept: bool, inOther: bool)
    requires target != other && (if skipping then !inOther else kept == inOther)
    ensures Filtered(header, Filtered(header, lines, target, false, skipping), other, true, kept) == Filtered(header, lines, other, true, inOther)
  {
    if lines != [] {
      var name, rest := header(lines[0]), lines[1..];
      var skips := if name.Some? then name.value == target else skipping;
      var enters := if name.Some? then name.value == other else inOther;
      var keeps := if name.Some? && name.value != target then name.value == other else kept;
      OthersStay(header, rest, target, other, skips, keeps, enters);
      var all, tail := Filtered(header, lines, target, false, skipping), Filtered(header, rest, target, false, skips);
      if skips {
        assert all == tail;
        assert Filtered(header, lines, other, true, inOther) == Filtered(header, rest, other, true, enters);
      } else {
        assert all == [lines[0]] + tail;
        assert all[0] == lines[0] && all[1..] == tail;
      }
    }
  }

  /** Dropping the sections of one host leaves every line of the sections of another. */
  lemma OtherSectionsStay(header: Headers, lines: seq<string>, target: string, other: string)
    requires target != other
    ensures SectionOf(header, Outside(header, lines, target), other) == SectionOf(header, lines, other)
  {
    OthersStay(header, lines, target, other, false, false, false);
  }

  lemma LastLineStripped(header: Headers, rest: seq<string>, last: string, name: string)
    requires Classifies(header)
    ensures TrimEnd(SectionOf(header, rest + [Rstrip(last)], name)) == TrimEnd(SectionOf(header, rest + [last], name))
    ensures Rstrip(last) == "" ==>
              TrimEnd(SectionOf(header, rest + [last], name)) == TrimEnd(SectionOf(header, rest, name))
  {
    assert header(Rstrip(last)) == header(last);
    FilterStep(header, rest, last, name);
    FilterStep(header, rest, Rstrip(last), name);
    TrimAppended(SectionOf(header, rest, name), last);
    TrimAppended(SectionOf(header, rest, name), Rstrip(last));
    RstripTwice(last);
    assert SectionOf(header, rest, name) + [] == SectionOf(header, rest, name);
  }

  /** Up to white space at the end, a section does not change when the whole text is stripped. */
  lemma {:induction false} TrimmedSections(header: Headers, lines: seq<string>, name: string)
    requires Classifies(header)
    ensures TrimEnd(SectionOf(header, TrimEnd(lines), name)) == TrimEnd(SectionOf(header, lines, name))
    decreases |lines|
  {
    if lines != [] {
      var rest, last := lines[..|lines| - 1], lines[|lines| - 1];
      assert lines == rest + [last];
      LastLineStripped(header, rest, last, name);
      if Rstrip(last) == "" {
        TrimmedSections(header, rest, name);
      }
    }
  }

  /** Replacing the section of one host keeps the sections of all others. */
  lemma OtherHostsKeepTheirSections(header: Headers, lines: seq<string>, target: string, section: seq<string>, other: string)
    requires Classifies(header) && IsSection(header, target, section) && target != other
    ensures TrimEnd(SectionOf(header, Replaced(header, lines, target, section), other)) == TrimEnd(SectionOf(header, lines, other))
  {
    var r := Replaced(header, lines, target, section);
    ReplacedReadsBack(header, lines, target, section);
    OtherSectionsStay(header, r, target, other);
    OtherSectionsStay(header, lines, target, other);
    TrimmedSections(header, Outside(header, r, target), other);
    TrimmedSections(header, Outside(header, lines, target), other);
  }

  // ---------------------------------------------------------------- the hosts file

  /** What a hosts line says before its comment, and whether it ends in the managed marker of the host. */
  datatype Mapping = Mapping(fields: seq<string>, marked: bool)

  type Mappings = string -> Mapping

  predicate Maps(m: Mapping, hostname: string) { |m.fields| > 1 && hostname in m.fields[1..] }

  datatype Conflict = MappedElsewhere

  /** The lines that are not the managed entry. */
  function Unmarked(parse: Mappings, lines: seq<string>): seq<string> {
    if lines == [] then []
    else if parse(lines[|lines| - 1]).marked then Unmarked(parse, lines[..|lines| - 1])
    else Unmarked(parse, lines[..|lines| - 1]) + [lines[|lines| - 1]]
  }

  predicate MappedTo(parse: Mappings, lines: seq<string>, hostname: string, address: string) {
    exists i :: 0 <= i < |lines| && Maps(parse(lines[i]), hostname) && parse(lines[i]).fields[0] == address
  }

  /** Some line maps the hostname to another address. */
  predicate Conflicting(parse: Mappings, lines: seq<string>, hostname: string, address: string) {
    exists i :: 0 <= i < |lines| && Maps(parse(lines[i]), hostname) && parse(lines[i]).fields[0] != address
  }

  function EntryReplaced(parse: Mappings, lines: seq<string>, hostname: string, address: string, entry: string): Result<seq<string>, Conflict> {
    var kept := Unmarked(parse, lines);
    if Conflicting(parse, kept, hostname, address) then Err(MappedElsewhere)
    else if MappedTo(parse, kept, hostname, address) then Ok(TrimEnd(kept))
    else Ok(TrimEnd(kept + [entry]))
  }

  method ReplaceHostsEntry(parse: Mappings, lines: seq<string>, hostname: string, address: string, entry: string)
    returns (r: Result<seq<string>, Conflict>)
    ensures r == EntryReplaced(parse, lines, hostname, address, entry)
  {
    var output: seq<string> := [];
    var alreadyMapped := false;
    for i := 0 to |lines|
      invariant output == Unmarked(parse, lines[..i]) && !Conflicting(parse, output, hostname, address)
      invariant alreadyMapped == MappedTo(parse, output, hostname, address)
    {
      var m := parse(lines[i]);
      assert lines[..i + 1][..i] == lines[..i];
      if !m.marked {
        LineAdded(parse, output, lines[i], hostname, address);
        if Maps(m, hostname) {
          if m.fields[0] != address {
            UnmarkedGrows(parse, lines, i + 1, hostname, address);
            return Err(MappedElsewhere);
          }
          alreadyMapped := true;
        }
        output := output + [lines[i]];
      }
    }
    assert lines[..|lines|] == lines;
    if !alreadyMapped {
      output := output + [entry];
    }
    return Ok(TrimEnd(output));
  }

  lemma LineAdded(parse: Mappings, lines: seq<string>, line: string, hostname: string, address: string)
    ensures Conflicting(parse, lines + [line], hostname, address) <==>
            Conflicting(parse, lines, hostname, address) || (Maps(parse(line), hostname) && parse(line).fields[0] != address)
    ensures MappedTo(parse, lines + [line], hostname, address) <==>
            MappedTo(parse, lines, hostname, address) || (Maps(parse(line), hostname) && parse(line).fields[0] == address)
  {
    var all := lines + [line];
    assert all[|lines|] == line;
    assert forall i :: 0 <= i < |lines| ==> all[i] == lines[i];
  }

  /** A conflict found early is a conflict of the whole file. */
  lemma {:induction false} UnmarkedGrows(parse: Mappings, lines: seq<string>, n: nat, hostname: string, address: string)
    requires n <= |lines| && Conflicting(parse, Unmarked(parse, lines[..n]), hostname, address)
    ensures Conflicting(parse, Unmarked(parse, lines), hostname, address)
    decreases |lines|
  {
    if n == |lines| {
      assert lines[..n] == lines;
    } else {
      var rest := lines[..|lines| - 1];
      assert rest[..n] == lines[..n];
      UnmarkedGrows(parse, rest, n, hostname, address);
      LineAdded(parse, Unmarked(parse, rest), lines[|lines| - 1], hostname, address);
    }
  }

  /** The entry is the marked line of the hostname; white space at the end of a line says nothing. */
  ghost predicate Parses(parse: Mappings, hostname: string, address: string, entry: string) {
    && (forall line :: parse(Rstrip(line)) == parse(line)) && parse("") == Mapping([], false)
    && parse(entry) == Mapping([address, hostname], true) && Rstrip(entry) == entry != ""
  }

  ghost predicate NoneMarked(parse: Mappings, lines: seq<string>) {
    forall i :: 0 <= i < |lines| ==> !parse(lines[i]).marked
  }

  lemma {:induction false} UnmarkedHasNone(parse: Mappings, lines: seq<string>)
    ensures NoneMarked(parse, Unmarked(parse, lines))
    ensures NoneMarked(parse, lines) ==> Unmarked(parse, lines) == lines
  {
    if lines != [] {
      UnmarkedHasNone(parse, lines[..|lines| - 1]);
      assert lines == lines[..|lines| - 1] + [lines[|lines| - 1]];
    }
  }

  /** Stripping the end of the file neither maps nor unmaps anything. */
  lemma {:induction false} TrimKeepsMappings(parse: Mappings, lines: seq<string>, hostname: string, address: string)
    requires (forall line :: parse(Rstrip(line)) == parse(line)) && parse("") == Mapping([], false)
    ensures MappedTo(parse, TrimEnd(lines), hostname, address) <==> MappedTo(parse, lines, hostname, address)
    ensures Conflicting(parse, TrimEnd(lines), hostname, address) <==> Conflicting(parse, lines, hostname, address)
    ensures NoneMarked(parse, lines) ==> NoneMarked(parse, TrimEnd(lines))
    decreases |lines|
  {
    if lines != [] {
      var rest, last := lines[..|lines| - 1], lines[|lines| - 1];
      assert lines == rest + [last] && parse(Rstrip(last)) == parse(last);
      LineAdded(parse, rest, last, hostname, address);
      if Rstrip(last) == "" {
        TrimKeepsMappings(parse, rest, hostname, address);
      } else {
        LineAdded(parse, rest, Rstrip(last), hostname, address);
      }
    }
  }

  /** Appending the entry: nothing to strip, and nothing but the entry is marked. */
  lemma EntryAppended(parse: Mappings, kept: seq<string>, hostname: string, address: string, entry: string)
    requires Parses(parse, hostname, address, entry) && NoneMarked(parse, kept)
    ensures TrimEnd(kept + [entry]) == kept + [entry] && Unmarked(parse, kept + [entry]) == kept
  {
    TrimAppended(kept, entry);
    UnmarkedHasNone(parse, kept);
    assert (kept + [entry])[..|kept|] == kept;
  }

  /**
   Unless another line maps the hostname elsewhere, which is refused, the hostname ends up mapped, to
   the given address only; the lines that are not managed stay, up to white space at the end.
   */
  lemma HostnameIsMapped(parse: Mappings, lines: seq<string>, hostname: string, address: string, entry: string)
    requires Parses(parse, hostname, address, entry)
    ensures var r := EntryReplaced(parse, lines, hostname, address, entry);
            && (r.Err? <==> Conflicting(parse, Unmarked(parse, lines), hostname, address))
            && (r.Ok? ==>
                  && MappedTo(parse, r.value, hostname, address) && !Conflicting(parse, r.value, hostname, address)
                  && TrimEnd(Unmarked(parse, r.value)) == TrimEnd(Unmarked(parse, lines)))
  {
    var kept := Unmarked(parse, lines);
    UnmarkedHasNone(parse, lines);
    if !Conflicting(parse, kept, hostname, address) {
      if MappedTo(parse, kept, hostname, address) {
        TrimKeepsMappings(parse, kept, hostname, address);
        UnmarkedHasNone(parse, TrimEnd(kept));
        TrimTwice(kept);
      } else {
        EntryAppended(parse, kept, hostname, address, entry);
        LineAdded(parse, kept, entry, hostname, address);
      }
    }
  }

  /** The hosts file as a resolver reads it: the case of letters in a name does not matter. */
  function Folded(parse: Mappings): Mappings {
    (line: string) => Mapping(FoldedFields(parse(line).fields), parse(line).marked)
  }

  function FoldedFields(fields: seq<string>): seq<string> {
    seq(|fields|, i requires 0 <= i < |fields| => if i == 0 then fields[0] else Lower(fields[i]))
  }

  lemma FoldedMaps(parse: Mappings, line: string, hostname: string)
    requires Lower(hostname) == hostname && Maps(parse(line), hostname)
    ensures Maps(Folded(parse)(line), hostname) && Folded(parse)(line).fields[0] == parse(line).fields[0]
  {
    var fields := parse(line).fields;
    var i :| 0 <= i < |fields[1..]| && fields[1..][i] == hostname;
    assert FoldedFields(fields)[1..][i] == hostname;
  }

  /**
   A resolver finds the hostname at the given address, and at no other if and only if no unmanaged line maps
   it elsewhere in letters of either case: the editor compares a lower-case hostname letter by letter.
   */
  lemma ResolverFinds(parse: Mappings, lines: seq<string>, hostname: string, address: string, entry: string)
    requires Parses(parse, hostname, address, entry) && Lower(hostname) == hostname
    requires EntryReplaced(parse, lines, hostname, address, entry).Ok?
    ensures var r := EntryReplaced(parse, lines, hostname, address, entry).value;
            && MappedTo(Folded(parse), r, hostname, address)
            && (Conflicting(Folded(parse), r, hostname, address) <==> Conflicting(Folded(parse), Unmarked(parse, lines), hostname, address))
  {
    var kept := Unmarked(parse, lines);
    FoldedParses(parse, hostname, address, entry);
    if MappedTo(parse, kept, hostname, address) {
      var i :| 0 <= i < |kept| && Maps(parse(kept[i]), hostname) && parse(kept[i]).fields[0] == address;
      FoldedMaps(parse, kept[i], hostname);
      TrimKeepsMappings(Folded(parse), kept, hostname, address);
    } else {
      UnmarkedHasNone(parse, lines);
      EntryAppended(parse, kept, hostname, address, entry);
      LineAdded(Folded(parse), kept, entry, hostname, address);
    }
  }

  lemma FoldedParses(parse: Mappings, hostname: string, address: string, entry: string)
    requires Parses(parse, hostname, address, entry) && Lower(hostname) == hostname
    ensures Parses(Folded(parse), hostname, address, entry)
  {
    assert FoldedFields([address, hostname]) == [address, hostname] && FoldedFields([]) == [];
  }

  /** A line with another spelling is overlooked: the hostname has two addresses then. */
  lemma OtherSpellingIsOverlooked(parse: Mappings, line: string, hostname: string, address: string, entry: string)
    requires Parses(parse, hostname, address, entry) && Lower(hostname) == hostname
    requires !parse(line).marked && |parse(line).fields| == 2 && parse(line).fields[0] != address
    requires parse(line).fields[1] != hostname && Lower(parse(line).fields[1]) == hostname
    ensures EntryReplaced(parse, [line], hostname, address, entry) == Ok([line, entry])
    ensures MappedTo(Folded(parse), [line, entry], hostname, address) && Conflicting(Folded(parse), [line, entry], hostname, address)
  {
    assert Unmarked(parse, [line]) == [line] by {
      assert [line][..0] == [];
    }
    assert !Maps(parse(line), hostname);
    TrimAppended([line], entry);
    assert [line] + [entry] == [line, entry];
    FoldedParses(parse, hostname, address, entry);
    var fields := Folded(parse)(line).fields;
    assert fields[1..][0] == hostname && [line, entry][0] == line && [line, entry][1] == entry;
    assert Folded(parse)(entry).fields[1..][0] == hostname;
  }

  /** After a first edit, a second one has the effect it would have had alone; the same one twice has none. */
  lemma LastEntryWins(parse: Mappings, lines: seq<string>, hostname: string, first: string, entry1: string, second: string, entry2: string)
    requires Parses(parse, hostname, first, entry1) && Parses(parse, hostname, second, entry2)
    requires EntryReplaced(parse, lines, hostname, first, entry1).Ok?
    ensures EntryReplaced(parse, EntryReplaced(parse, lines, hostname, first, entry1).value, hostname, second, entry2) ==
            EntryReplaced(parse, lines, hostname, second, entry2)
  {
    var kept := Unmarked(parse, lines);
    UnmarkedHasNone(parse, lines);
    if MappedTo(parse, kept, hostname, first) {
      TrimKeepsMappings(parse, kept, hostname, second);
      UnmarkedHasNone(parse, TrimEnd(kept));
      TrimTwice(kept);
      OneAddress(parse, kept, hostname, first, second);
    } else {
      EntryAppended(parse, kept, hostname, first, entry1);
    }
  }

  lemma OneAddress(parse: Mappings, lines: seq<string>, hostname: string, first: string, second: string)
    requires MappedTo(parse, lines, hostname, first)
    ensures first != second ==> Conflicting(parse, lines, hostname, second)
  {
  }
}
