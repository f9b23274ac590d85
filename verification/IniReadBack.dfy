/**
 Exactly when configparser reads a value that GemmaChat._replace_ini_value has set, and every other
 setting as before (supervisor_control_service.py).
 */
module IniReadBack {
  import opened Wrappers
  import opened TextLines
  import opened IniEditor
  import opened IniReader

  // ---------------------------------------------------------------- the condition

  /** Where the editor writes: the first entry of the key in the section, or the header after the section, or the end. */
  function Place(lines: seq<Line>, section: string, key: string, inside: bool): (i: nat)
    ensures i <= |lines|
  {
    if lines == [] || !Passes(lines[0], section, key, inside) then 0
    else 1 + Place(lines[1..], section, key, Now(lines[0], section, inside))
  }

  /**
   Can the editor set this key?  It can rewrite a line that is, to the reader too, an entry of that very section and
   has no continuation; add one to that very section if the reader finds none there and no indented header
   follows; and add the section, unless a blank last line would indent the header into a continuation.
   */
  predicate Writable(lines: seq<Line>, section: string, key: string)
    requires Read(lines).Some?
  {
    var i := Place(lines, section, key, false);
    if i < |lines| && IsEntry(lines[i], key) then
      var before := ReadFrom(START, Texts(lines[..i]));
      && before.Some? && before.value.section == Some(section) && !Continues(before.value, lines[i].text)
      && !Continued(Texts(lines[i + 1..]), Indent(lines[i].text))
    else if HasSection(lines, section) then
      var before := ReadFrom(START, Texts(lines[..i]));
      && before.Some? && before.value.section == Some(section) && (section, key) !in Read(lines).value
      && (i < |lines| ==> Indent(lines[i].text) == 0)
    else
      lines != [] && IsBlank(lines[|lines| - 1]) && lines[|lines| - 1].eol == "" ==>
        var before := ReadFrom(START, Texts(lines[..|lines| - 1]));
        before.Some? && !Continues(before.value, lines[|lines| - 1].text)
  }

  predicate ReadsBack(lines: seq<Line>, t: Target) {
    var after := Read(Set(lines, t));
    after.Some? && (t.section, t.key) in after.value && after.value[(t.section, t.key)] == t.value
  }

  // ---------------------------------------------------------------- what is read after a rewritten line

  /** A setting as it is read in the end. */
  predicate Finds(r: Option<Reading>, t: Target) {
    r.Some? && (t.section, t.key) in r.value.settings && Value(r.value.settings[(t.section, t.key)]) == t.value
  }

  /** The end of reading with one setting set, and all others as they were. */
  ghost predicate SetOnly(end: Reading, after: Option<Reading>, t: Target) {
    after.Some? && Values(after.value.settings) == Values(end.settings)[(t.section, t.key) := t.value]
  }

  lemma ValuesWith(r: Reading, id: Id, parts: seq<string>)
    ensures Values(With(r, id, parts).settings) == Values(r.settings)[id := Value(parts)]
  {
  }

  /** Two readings that differ in one setting go on differing in that one. */
  lemma OtherValueEnds(r: Reading, id: Id, parts: seq<string>, rest: seq<string>, t: Target)
    requires Settable(t) && Sound(r) && id in r.settings && parts != [] && ReadFrom(r, rest).Some?
    ensures var end, after := ReadFrom(r, rest), ReadFrom(With(r, id, parts), rest);
            && (id != (t.section, t.key) ==> (Finds(after, t) <==> Finds(end, t)))
            && (id == (t.section, t.key) && Value(parts) == t.value && AllEmpty(Tail(r, id, rest)) ==> SetOnly(end.value, after, t))
            && (id == (t.section, t.key) && |Value(parts)| >= |t.value| && !AllEmpty(Tail(r, id, rest)) ==> !Finds(after, t))
            && (id == (t.section, t.key) && |Value(parts)| > |t.value| ==> !Finds(after, t))
  {
    OtherValue(r, id, parts, rest);
    TailIs(r, id, rest);
    MoreParts(parts, Tail(r, id, rest));
    ValuesWith(ReadFrom(r, rest).value, id, parts + Tail(r, id, rest));
  }

  /** What the editor writes in place of an entry, and before a header or the end. */
  predicate Written(text: string, t: Target) {
    Says(text) == Pair(t.key, t.value) && |Strip(text)| > |t.value| && Strip(t.value) == t.value
  }

  lemma RewrittenLine(r: Reading, was: string, text: string, t: Target)
    requires Sound(r) && Written(text, t) && Says(was).Pair? && Says(was).key == t.key && Indent(text) == Indent(was)
    requires !Continues(r, was) && ReadLine(r, was).Some?
    ensures r.section.Some? && var id, next := (r.section.value, t.key), ReadLine(r, was).value;
            && next.current == Some(id) && next.level == Indent(was) && id in next.settings
            && ReadLine(r, text) == Some(With(next, id, [t.value]))
  {
    var id := (r.section.value, t.key);
    assert r.settings[id := [Says(was).value]][id := [t.value]] == r.settings[id := [t.value]];
  }

  /** An entry rewritten where it continued no value. */
  lemma RewrittenReads(r: Reading, was: string, text: string, rest: seq<string>, t: Target)
    requires Settable(t) && Sound(r) && Written(text, t) && Says(was).Pair? && Says(was).key == t.key && Indent(text) == Indent(was)
    requires !Continues(r, was) && ReadFrom(r, [was] + rest).Some?
    ensures var end, after := ReadFrom(r, [was] + rest), ReadFrom(r, [text] + rest);
            if r.section == Some(t.section) && !Continued(rest, Indent(was)) then SetOnly(end.value, after, t)
            else Finds(after, t) ==> Finds(end, t)
  {
    ReadNext(r, was, rest);
    ReadNext(r, text, rest);
    RewrittenLine(r, was, text, t);
    var id, next := (r.section.value, t.key), ReadLine(r, was).value;
    LineKeepsSound(r, was);
    OnePart(t.value);
    StripIs(t.value);
    TailIs(next, id, rest);
    OtherValueEnds(next, id, [t.value], rest, t);
  }

  /** An entry rewritten where it continued a value. */
  lemma ContinuationReads(r: Reading, was: string, text: string, rest: seq<string>, t: Target)
    requires Settable(t) && Sound(r) && Written(text, t) && Says(was).Pair? && Indent(text) == Indent(was)
    requires Continues(r, was) && ReadFrom(r, [was] + rest).Some?
    ensures Finds(ReadFrom(r, [text] + rest), t) ==> Finds(ReadFrom(r, [was] + rest), t)
  {
    ReadNext(r, was, rest);
    ReadNext(r, text, rest);
    var id := r.current.value;
    var next, parts := ReadLine(r, was).value, r.settings[id] + [Strip(text)];
    LineKeepsSound(r, was);
    assert ReadLine(r, text) == Some(With(next, id, parts)) by {
      assert r.settings[id := parts] == next.settings[id := parts];
    }
    StripIs(text);
    OneMore(r.settings[id], Strip(text));
    OtherValueEnds(next, id, parts, rest, t);
  }

  // ---------------------------------------------------------------- what is read after an added entry

  lemma AppendingAdds(r: Reading, id: Id, parts: seq<string>, part: string)
    requires Sound(r) && id !in r.settings
    ensures Append(With(r, id, parts), part) == With(Append(r, part), id, parts)
  {
    if r.current.Some? {
      var c := r.current.value;
      var p := r.settings[c] + [part];
      assert r.settings[id := parts][c := p] == r.settings[c := p][id := parts];
    }
  }

  lemma StartingAdds(r: Reading, id: Id, parts: seq<string>, says: Saying, indent: nat)
    requires id !in r.settings && Start(r, says, indent).Some?
    ensures var next := Start(r, says, indent).value;
            Start(With(r, id, parts), says, indent) == if id in next.settings then None else Some(With(next, id, parts))
  {
    var next := Start(r, says, indent).value;
    if says.Pair? && id !in next.settings {
      var c := (r.section.value, says.key);
      assert r.settings[id := parts][c := [says.value]] == r.settings[c := [says.value]][id := parts];
    }
  }

  /** A setting read before that is not the current one: reading goes on as without it, up to a duplicate. */
  lemma {:induction false} OneMoreSetting(r: Reading, id: Id, parts: seq<string>, texts: seq<string>)
    requires Sound(r) && id !in r.settings && ReadFrom(r, texts).Some?
    ensures var end := ReadFrom(r, texts).value;
            ReadFrom(With(r, id, parts), texts) == if id in end.settings then None else Some(With(end, id, parts))
    decreases |texts|
  {
    if texts != [] {
      var next := ReadLine(r, texts[0]).value;
      LineKeepsSound(r, texts[0]);
      OneMoreSettingLine(r, id, parts, texts[0]);
      if id in next.settings {
        SettingGrows(next, id, texts[1..]);
      } else {
        OneMoreSetting(next, id, parts, texts[1..]);
      }
    }
  }

  lemma OneMoreSettingLine(r: Reading, id: Id, parts: seq<string>, text: string)
    requires Sound(r) && id !in r.settings && ReadLine(r, text).Some?
    ensures var next := ReadLine(r, text).value;
            ReadLine(With(r, id, parts), text) == if id in next.settings then None else Some(With(next, id, parts))
  {
    if Says(text).Nothing? {
      AppendingAdds(r, id, parts, "");
    } else if !Says(text).Remark? {
      if Continues(r, text) {
        AppendingAdds(r, id, parts, Strip(text));
      } else {
        StartingAdds(r, id, parts, Says(text), Indent(text));
      }
    }
  }

  /** The second reading is in another section than x, or back in step; what it knows of x, the first one knows. */
  ghost predicate Behind(a: Reading, b: Reading, x: Id) {
    && (x in b.settings ==> x in a.settings && a.settings[x] == b.settings[x])
    && ((b.section == a.section && b.current == a.current && b.level == a.level)
        || (b.section.Some? && b.section.value != x.0 && b.current.Some? && b.level == 0 && (x in b.settings ==> a.current != Some(x))))
  }

  lemma BehindAppends(a: Reading, b: Reading, x: Id, p: string, q: string)
    requires Sound(a) && Sound(b) && Behind(a, b, x) && (b.current == a.current ==> p == q)
    ensures Behind(Append(a, p), Append(b, q), x)
  {
  }

  lemma BehindStarts(a: Reading, b: Reading, x: Id, says: Saying, indent: nat)
    requires Sound(a) && Sound(b) && Behind(a, b, x)
    requires Start(a, says, indent).Some? && Start(b, says, indent).Some? && (indent == 0 || (b.section == a.section && b.current == a.current && b.level == a.level))
    ensures Behind(Start(a, says, indent).value, Start(b, says, indent).value, x)
  {
  }

  /** A line that continues the added entry, and did something else without it. */
  lemma BehindOvertakes(a: Reading, b: Reading, x: Id, says: Saying, indent: nat, q: string)
    requires Sound(a) && Sound(b) && Behind(a, b, x) && Start(a, says, indent).Some?
    requires b.section.Some? && b.section.value != x.0 && b.current.Some? && b.level == 0 && (x in b.settings ==> a.current != Some(x))
    ensures Behind(Start(a, says, indent).value, Append(b, q), x)
  {
  }

  lemma BehindLine(a: Reading, b: Reading, x: Id, text: string)
    requires Sound(a) && Sound(b) && Behind(a, b, x) && ReadLine(a, text).Some? && ReadLine(b, text).Some?
    ensures Behind(ReadLine(a, text).value, ReadLine(b, text).value, x)
  {
    if Says(text).Nothing? {
      BehindAppends(a, b, x, "", "");
    } else if !Says(text).Remark? {
      if !Continues(b, text) {
        BehindStarts(a, b, x, Says(text), Indent(text));
      } else if Continues(a, text) {
        BehindAppends(a, b, x, Strip(text), Strip(text));
      } else {
        BehindOvertakes(a, b, x, Says(text), Indent(text), Strip(text));
      }
    }
  }

  /** In another section than its own, an entry brings the reader no value for x. */
  lemma {:induction false} NothingGained(a: Reading, b: Reading, t: Target, texts: seq<string>)
    requires Sound(a) && Sound(b) && Behind(a, b, (t.section, t.key)) && ReadFrom(a, texts).Some?
    ensures Finds(ReadFrom(b, texts), t) ==> Finds(ReadFrom(a, texts), t)
    decreases |texts|
  {
    if texts != [] && ReadLine(b, texts[0]).Some? {
      BehindLine(a, b, (t.section, t.key), texts[0]);
      LineKeepsSound(a, texts[0]);
      LineKeepsSound(b, texts[0]);
      NothingGained(ReadLine(a, texts[0]).value, ReadLine(b, texts[0]).value, t, texts[1..]);
    }
  }

  /** The reading after the added entry. */
  lemma AddedLine(r: Reading, text: string, t: Target)
    requires Sound(r) && Written(text, t) && Indent(text) == 0
    ensures ReadLine(r, text) ==
            if r.section.None? || (r.section.value, t.key) in r.settings then None
            else Some(With(Reading(r.section, Some((r.section.value, t.key)), 0, r.sections, r.settings), (r.section.value, t.key), [t.value]))
  {
  }

  /** An entry added at the end of its section. */
  lemma AddedReads(r: Reading, text: string, rest: seq<string>, t: Target)
    requires Settable(t) && Sound(r) && Written(text, t) && Indent(text) == 0
    requires r.section == Some(t.section) && (rest != [] ==> Says(rest[0]).Heading? && Indent(rest[0]) == 0)
    requires ReadFrom(r, rest).Some?
    ensures var end, after := ReadFrom(r, rest), ReadFrom(r, [text] + rest);
            if (t.section, t.key) in end.value.settings then after.None? else SetOnly(end.value, after, t)
  {
    var id := (t.section, t.key);
    ReadNext(r, text, rest);
    AddedLine(r, text, t);
    if id in r.settings {
      SettingGrows(r, id, rest);
    } else {
      StripIs(t.value);
      OnePart(t.value);
      ValuesWith(ReadFrom(r, rest).value, id, [t.value]);
      if rest != [] {
        var added, next := ReadLine(r, text).value, ReadLine(r, rest[0]).value;
        LineKeepsSound(r, rest[0]);
        assert ReadLine(added, rest[0]) == Some(With(next, id, [t.value]));
        OneMoreSetting(next, id, [t.value], rest[1..]);
      }
    }
  }

  /** An entry added before an indented header, which continues it then. */
  lemma AddedSwallows(r: Reading, text: string, rest: seq<string>, t: Target)
    requires Settable(t) && Sound(r) && Written(text, t) && Indent(text) == 0
    requires r.section == Some(t.section) && rest != [] && Says(rest[0]).Heading? && Indent(rest[0]) > 0
    ensures !Finds(ReadFrom(r, [text] + rest), t)
  {
    ReadNext(r, text, rest);
    AddedLine(r, text, t);
    var id := (t.section, t.key);
    if ReadLine(r, text).Some? && ReadFrom(ReadLine(r, text).value, rest).Some? {
      var added := ReadLine(r, text).value;
      LineKeepsSound(r, text);
      StripIs(t.value);
      OnePart(t.value);
      assert added == With(added, id, [t.value]) by {
        assert added.settings == With(added, id, [t.value]).settings;
      }
      TailIs(added, id, rest);
      OtherValueEnds(added, id, [t.value], rest, t);
    }
  }

  /** An entry added to another section. */
  lemma AddedElsewhere(r: Reading, text: string, rest: seq<string>, t: Target)
    requires Settable(t) && Sound(r) && Written(text, t) && Indent(text) == 0
    requires r.section != Some(t.section) && ReadFrom(r, rest).Some?
    ensures Finds(ReadFrom(r, [text] + rest), t) ==> Finds(ReadFrom(r, rest), t)
  {
    ReadNext(r, text, rest);
    AddedLine(r, text, t);
    if ReadLine(r, text).Some? {
      LineKeepsSound(r, text);
      NothingGained(r, ReadLine(r, text).value, t, rest);
    }
  }

  // ---------------------------------------------------------------- what is read after an added section

  lemma BlankReadsSame(r: Reading)
    requires Sound(r)
    ensures Values(Append(r, "").settings) == Values(r.settings)
    ensures forall id :: id in Append(r, "").settings <==> id in r.settings
  {
    if r.current.Some? {
      OneMore(r.settings[r.current.value], "");
    }
  }

  lemma SectionAdded(r: Reading, header: string, text: string, t: Target)
    requires Settable(t) && Sound(r) && Written(text, t) && Indent(text) == 0
    requires Says(header) == Heading(t.section) && Strip(header) != "" && t.section !in r.sections
    ensures var after := ReadFrom(r, [header, text]);
            if Continues(r, header) then !Finds(after, t) else SetOnly(r, after, t)
  {
    var id := (t.section, t.key);
    assert [header, text] == [header] + [text] && [text] + [] == [text];
    ReadNext(r, header, [text]);
    var next := ReadLine(r, header).value;
    LineKeepsSound(r, header);
    ReadNext(next, text, []);
    AddedLine(next, text, t);
    assert id !in r.settings && id !in next.settings;
    if !Continues(r, header) {
      StripIs(t.value);
      OnePart(t.value);
      ValuesWith(next, id, [t.value]);
    }
  }

  lemma SectionAppears(r: Reading, text: string, section: string)
    requires ReadLine(r, text).Some? && section in ReadLine(r, text).value.sections
    ensures section in r.sections || Says(text) == Heading(section)
  {
  }

  lemma LastRead(lines: seq<Line>, n: nat)
    requires |lines| == n + 1 && ReadFrom(START, Texts(lines)).Some?
    ensures ReadFrom(START, Texts(lines[..n])).Some?
    ensures ReadFrom(START, Texts(lines)) == ReadLine(ReadFrom(START, Texts(lines[..n])).value, lines[n].text)
  {
    var text := lines[n].text;
    assert Texts(lines) == Texts(lines[..n]) + [text];
    ReadJoins(START, Texts(lines[..n]), [text]);
    assert [text] + [] == [text];
    ReadNext(ReadFrom(START, Texts(lines[..n])).value, text, []);
  }

  /** A section that the reader knows, the editor finds. */
  lemma {:induction false} SectionsSeen(lines: seq<Line>, t: Target)
    requires Settable(t) && ReadFrom(START, Texts(lines)).Some? && t.section in ReadFrom(START, Texts(lines)).value.sections
    ensures HasSection(lines, t.section)
    decreases |lines|
  {
    if lines != [] {
      var n := |lines| - 1;
      LastRead(lines, n);
      var before := ReadFrom(START, Texts(lines[..n])).value;
      SectionAppears(before, lines[n].text, t.section);
      if t.section in before.sections {
        SectionsSeen(lines[..n], t);
      } else {
        HeadingSeen(lines[n].text, t);
        SpellsItself(t.section, 0, t.section);
        assert Opens(lines[n], t.section);
      }
    }
  }

  // ---------------------------------------------------------------- what is read after setting

  /** Setting, in terms of the place. */
  ghost predicate SetThere(lines: seq<Line>, t: Target, newline: string, i: nat, after: Option<seq<Line>>)
    requires i <= |lines|
  {
    if i == |lines| then after.None?
    else if IsEntry(lines[i], t.key) then after == Some(lines[..i] + [Rewritten(lines[i], t, newline)] + lines[i + 1..])
    else IsHeader(lines[i]) && after == Some(lines[..i] + [NewEntry(t, newline)] + lines[i..])
  }

  lemma {:induction false} SetAt(lines: seq<Line>, t: Target, newline: string, inside: bool)
    requires Settable(t) && newline != ""
    ensures SetThere(lines, t, newline, Place(lines, t.section, t.key, inside), SetFrom(lines, t, newline, inside))
  {
    if lines != [] {
      var line, rest := lines[0], lines[1..];
      assert lines == [line] + rest;
      if Passes(line, t.section, t.key, inside) {
        var next := Now(line, t.section, inside);
        SetAt(rest, t, newline, next);
        OtherFirst(line, rest, t, newline, inside);
        SetLater(line, rest, t, newline, Place(rest, t.section, t.key, next), SetFrom(rest, t, newline, next));
      } else {
        SetFirst(line, rest, t, newline, inside);
      }
    }
  }

  lemma SetFirst(line: Line, rest: seq<Line>, t: Target, newline: string, inside: bool)
    requires Settable(t) && newline != "" && !Passes(line, t.section, t.key, inside)
    ensures SetThere([line] + rest, t, newline, 0, SetFrom([line] + rest, t, newline, inside))
  {
    var lines := [line] + rest;
    if inside && IsHeader(line) {
      HeaderFirst(line, rest, t, newline);
      EntryIsNoHeader(line, t);
      assert [NewEntry(t, newline)] + lines == lines[..0] + [NewEntry(t, newline)] + lines[0..];
    } else {
      EntryFirst(line, rest, t, newline, inside);
      assert [Rewritten(line, t, newline)] + rest == lines[..0] + [Rewritten(line, t, newline)] + lines[1..];
    }
  }

  lemma SetLater(line: Line, rest: seq<Line>, t: Target, newline: string, k: nat, after: Option<seq<Line>>)
    requires k <= |rest| && SetThere(rest, t, newline, k, after)
    ensures SetThere([line] + rest, t, newline, k + 1, Prefixed([line], after))
  {
    var lines := [line] + rest;
    if k < |rest| {
      assert lines[k + 1] == rest[k];
      assert lines[..k + 1] == [line] + rest[..k] && lines[k + 1..] == rest[k..] && lines[k + 2..] == rest[k + 1..];
      if IsEntry(rest[k], t.key) {
        Grouped(line, rest[..k], Rewritten(rest[k], t, newline), rest[k + 1..]);
      } else {
        Grouped(line, rest[..k], NewEntry(t, newline), rest[k..]);
      }
    }
  }

  lemma Grouped(first: Line, a: seq<Line>, line: Line, b: seq<Line>)
    ensures [first] + (a + [line] + b) == ([first] + a) + [line] + b
  {
  }

  lemma TextsJoin(a: seq<Line>, b: seq<Line>)
    ensures Texts(a + b) == Texts(a) + Texts(b)
  {
  }

  lemma TextsAround(a: seq<Line>, line: Line, b: seq<Line>)
    ensures Texts(a + [line] + b) == Texts(a) + ([line.text] + Texts(b))
  {
    TextsJoin(a + [line], b);
    TextsJoin(a, [line]);
    assert Texts([line]) == [line.text];
  }

  /** What is proved of a file that is readable, before the value is set. */
  ghost predicate Answered(lines: seq<Line>, t: Target)
    requires Read(lines).Some?
  {
    var before, id := Read(lines).value, (t.section, t.key);
    if Writable(lines, t.section, t.key) then Read(Set(lines, t)) == Some(before[id := t.value])
    else ReadsBack(lines, t) ==> id in before && before[id] == t.value
  }

  lemma EntryWritten(line: Line, t: Target, newline: string)
    requires Settable(t) && IsEntry(line, t.key)
    ensures Written(Rewritten(line, t, newline).text, t) && Indent(Rewritten(line, t, newline).text) == Indent(line.text)
    ensures Says(line.text).Pair? && Says(line.text).key == t.key
  {
    var lead := line.text[..EntryEnd(line.text, t.key).value];
    LeadOf(line.text, t.key);
    WrittenSays(Rewritten(line, t, newline).text, lead, t);
    EntrySays(line.text, t, EntryEnd(line.text, t.key).value - Indent(line.text));
  }

  lemma NewEntryWritten(t: Target, newline: string)
    requires Settable(t)
    ensures Written(NewEntry(t, newline).text, t) && Indent(NewEntry(t, newline).text) == 0
  {
    NewLead(t);
    WrittenSays(NewEntry(t, newline).text, t.key + " =", t);
  }

  ghost predicate Sets(was: Option<Reading>, after: Option<Reading>, t: Target, right: bool)
    requires was.Some?
  {
    if right then SetOnly(was.value, after, t) else Finds(after, t) ==> Finds(was, t)
  }

  lemma RewrittenIn(before: seq<string>, was: string, text: string, rest: seq<string>, t: Target)
    requires Settable(t) && Written(text, t) && Says(was).Pair? && Says(was).key == t.key && Indent(text) == Indent(was)
    requires ReadFrom(START, before + ([was] + rest)).Some?
    ensures ReadFrom(START, before).Some?
    ensures var r := ReadFrom(START, before).value;
            Sets(ReadFrom(START, before + ([was] + rest)), ReadFrom(START, before + ([text] + rest)), t,
                 r.section == Some(t.section) && !Continues(r, was) && !Continued(rest, Indent(was)))
  {
    ReadJoins(START, before, [was] + rest);
    ReadJoins(START, before, [text] + rest);
    var r := ReadFrom(START, before).value;
    if Continues(r, was) {
      ContinuationReads(r, was, text, rest, t);
    } else {
      RewrittenReads(r, was, text, rest, t);
    }
  }

  lemma AddedIn(before: seq<string>, text: string, rest: seq<string>, t: Target)
    requires Settable(t) && Written(text, t) && Indent(text) == 0 && (rest != [] ==> Says(rest[0]).Heading?)
    requires ReadFrom(START, before + rest).Some?
    ensures ReadFrom(START, before).Some?
    ensures var r, end := ReadFrom(START, before).value, ReadFrom(START, before + rest);
            Sets(end, ReadFrom(START, before + ([text] + rest)), t,
                 r.section == Some(t.section) && (t.section, t.key) !in end.value.settings && (rest != [] ==> Indent(rest[0]) == 0))
  {
    ReadJoins(START, before, rest);
    ReadJoins(START, before, [text] + rest);
    var r := ReadFrom(START, before).value;
    if r.section != Some(t.section) {
      AddedElsewhere(r, text, rest, t);
    } else if rest != [] && Indent(rest[0]) > 0 {
      AddedSwallows(r, text, rest, t);
    } else {
      AddedReads(r, text, rest, t);
    }
  }

  lemma SetsAnswers(lines: seq<Line>, t: Target, after: Option<Reading>, right: bool)
    requires Read(lines).Some? && ReadFrom(START, Texts(Set(lines, t))) == after
    requires Sets(ReadFrom(START, Texts(lines)), after, t, right) && right == Writable(lines, t.section, t.key)
    ensures Answered(lines, t)
  {
  }

  lemma TextsParted(lines: seq<Line>, i: nat)
    requires i < |lines|
    ensures Texts(lines) == Texts(lines[..i]) + ([lines[i].text] + Texts(lines[i + 1..]))
  {
    assert lines == lines[..i] + [lines[i]] + lines[i + 1..];
    TextsAround(lines[..i], lines[i], lines[i + 1..]);
  }

  lemma RewritingTexts(lines: seq<Line>, t: Target, i: nat)
    requires Settable(t) && i == Place(lines, t.section, t.key, false) < |lines| && IsEntry(lines[i], t.key)
    ensures Texts(Set(lines, t)) == Texts(lines[..i]) + ([Rewritten(lines[i], t, Newline(lines)).text] + Texts(lines[i + 1..]))
  {
    var written := Rewritten(lines[i], t, Newline(lines));
    SetAt(lines, t, Newline(lines), false);
    assert Set(lines, t) == lines[..i] + [written] + lines[i + 1..];
    TextsAround(lines[..i], written, lines[i + 1..]);
  }

  /** An entry is rewritten. */
  lemma RewritingAnswered(lines: seq<Line>, t: Target, i: nat)
    requires Settable(t) && Read(lines).Some?
    requires i == Place(lines, t.section, t.key, false) < |lines| && IsEntry(lines[i], t.key)
    ensures Answered(lines, t)
  {
    var before, was, rest := Texts(lines[..i]), lines[i].text, Texts(lines[i + 1..]);
    var text := Rewritten(lines[i], t, Newline(lines)).text;
    TextsParted(lines, i);
    RewritingTexts(lines, t, i);
    EntryWritten(lines[i], t, Newline(lines));
    RewrittenIn(before, was, text, rest, t);
    var r := ReadFrom(START, before).value;
    SetsAnswers(lines, t, ReadFrom(START, before + ([text] + rest)),
                r.section == Some(t.section) && !Continues(r, was) && !Continued(rest, Indent(was)));
  }

  lemma TextsSplit(lines: seq<Line>, i: nat)
    requires i <= |lines|
    ensures Texts(lines) == Texts(lines[..i]) + Texts(lines[i..])
  {
    assert lines == lines[..i] + lines[i..];
    TextsJoin(lines[..i], lines[i..]);
  }

  /** An entry is added before a header, or at the end. */
  lemma AddingAnswered(lines: seq<Line>, t: Target, i: nat, ended: seq<Line>)
    requires Settable(t) && Read(lines).Some? && HasSection(lines, t.section)
    requires i == Place(lines, t.section, t.key, false) && (i < |lines| ==> !IsEntry(lines[i], t.key) && IsHeader(lines[i]))
    requires |ended| == |lines| && Texts(ended[..i]) == Texts(lines[..i]) && Texts(ended[i..]) == Texts(lines[i..])
    requires Set(lines, t) == ended[..i] + [NewEntry(t, Newline(lines))] + ended[i..]
    ensures Answered(lines, t)
  {
    var line, before, after := NewEntry(t, Newline(lines)), Texts(lines[..i]), Texts(lines[i..]);
    TextsAround(ended[..i], line, ended[i..]);
    TextsSplit(lines, i);
    NewEntryWritten(t, Newline(lines));
    if i < |lines| {
      HeaderSays(lines[i].text);
      assert after[0] == lines[i].text;
    }
    AddedIn(before, line.text, after, t);
    var r := ReadFrom(START, before).value;
    SetsAnswers(lines, t, ReadFrom(START, before + ([line.text] + after)),
                r.section == Some(t.section) && (t.section, t.key) !in Read(lines).value && (i < |lines| ==> Indent(lines[i].text) == 0));
  }

  lemma BlankRead(before: seq<string>, blank: string)
    requires Says(blank).Nothing?
    ensures ReadFrom(START, before).Some? <==> ReadFrom(START, before + [blank]).Some?
    ensures ReadFrom(START, before).Some? ==>
              var r := ReadFrom(START, before).value;
              && ReadFrom(START, before + [blank]) == Some(Append(r, "")) && Sound(r) && Values(Append(r, "").settings) == Values(r.settings)
  {
    ReadJoins(START, before, [blank]);
    if ReadFrom(START, before).Some? {
      var r := ReadFrom(START, before).value;
      assert [blank] + [] == [blank];
      ReadNext(r, blank, []);
      BlankReadsSame(r);
    }
  }

  /** The header takes the place of a blank last line without an end, which becomes its indentation. */
  lemma SectionForBlank(before: seq<string>, blank: string, header: string, text: string, t: Target)
    requires Settable(t) && Written(text, t) && Indent(text) == 0 && Says(blank).Nothing?
    requires Says(header) == Heading(t.section) && Strip(header) != "" && Indent(header) == Indent(blank)
    requires ReadFrom(START, before + [blank]).Some? && t.section !in ReadFrom(START, before + [blank]).value.sections
    ensures ReadFrom(START, before).Some?
    ensures Sets(ReadFrom(START, before + [blank]), ReadFrom(START, before + [header, text]), t,
                 !Continues(ReadFrom(START, before).value, blank))
  {
    BlankRead(before, blank);
    ReadJoins(START, before, [header, text]);
    SectionAdded(ReadFrom(START, before).value, header, text, t);
  }

  lemma SectionAtEnd(before: seq<string>, space: seq<string>, header: string, text: string, t: Target)
    requires Settable(t) && Written(text, t) && Indent(text) == 0 && (space == [] || space == [""])
    requires Says(header) == Heading(t.section) && Strip(header) != "" && Indent(header) == 0
    requires ReadFrom(START, before).Some? && t.section !in ReadFrom(START, before).value.sections
    ensures SetOnly(ReadFrom(START, before).value, ReadFrom(START, before + space + [header, text]), t)
  {
    assert before + [] == before;
    BlankSays("");
    BlankRead(before, "");
    ReadJoins(START, before + space, [header, text]);
    SectionAdded(ReadFrom(START, before + space).value, header, text, t);
  }

  lemma AdditionTexts(lines: seq<Line>, t: Target, newline: string)
    requires Settable(t) && !HasSection(lines, t.section)
    ensures var added := Addition(lines, t, newline);
            && |added| == 2 && Texts(added) == [added[0].text, NewEntry(t, newline).text]
            && Says(added[0].text) == Heading(t.section) && Strip(added[0].text) != ""
            && Indent(added[0].text) == if lines != [] && IsBlank(lines[|lines| - 1]) && lines[|lines| - 1].eol == "" then |lines[|lines| - 1].text| else 0
  {
    var indent := if lines != [] && IsBlank(lines[|lines| - 1]) && lines[|lines| - 1].eol == "" then lines[|lines| - 1].text else "";
    assert Indent("") == 0;
    NewHeadingSays(indent, t);
  }

  lemma BlankAnswered(lines: seq<Line>, t: Target, n: nat)
    requires Settable(t) && Read(lines).Some? && !HasSection(lines, t.section) && Place(lines, t.section, t.key, false) == |lines|
    requires |lines| == n + 1 && IsBlank(lines[n]) && lines[n].eol == ""
    ensures Answered(lines, t)
  {
    var newline, before, blank := Newline(lines), Texts(lines[..n]), lines[n].text;
    var added := Addition(lines, t, newline);
    SetAddsSection(lines, t);
    TextsJoin(lines[..n], added);
    TextsSplit(lines, n);
    assert Texts(lines[n..]) == [blank];
    AdditionTexts(lines, t, newline);
    NewEntryWritten(t, newline);
    BlankSays(blank);
    SectionUnread(lines, t);
    SectionForBlank(before, blank, added[0].text, added[1].text, t);
    SetsAnswers(lines, t, ReadFrom(START, before + Texts(added)), !Continues(ReadFrom(START, before).value, blank));
  }

  lemma SectionUnread(lines: seq<Line>, t: Target)
    requires Settable(t) && Read(lines).Some? && !HasSection(lines, t.section)
    ensures t.section !in ReadFrom(START, Texts(lines)).value.sections
  {
    if t.section in ReadFrom(START, Texts(lines)).value.sections {
      SectionsSeen(lines, t);
    }
  }

  lemma EndedTexts(lines: seq<Line>, newline: string)
    ensures |Ended(lines, newline)| == |lines| && Texts(Ended(lines, newline)) == Texts(lines)
  {
  }

  lemma BaseTexts(lines: seq<Line>, t: Target, newline: string) returns (space: seq<string>)
    requires !HasSection(lines, t.section)
    requires lines != [] ==> !(IsBlank(lines[|lines| - 1]) && lines[|lines| - 1].eol == "")
    ensures (space == [] || space == [""]) && Texts(Base(lines, t, newline)) == Texts(lines) + space
  {
    EndedTexts(lines, newline);
    TextsJoin(Ended(lines, newline), [Line("", newline)]);
    assert Texts([Line("", newline)]) == [""];
    space := if lines == [] || IsBlank(lines[|lines| - 1]) then [] else [""];
    assert Texts(lines) + [] == Texts(lines);
  }

  /** A section is added. */
  lemma SectionAnswered(lines: seq<Line>, t: Target)
    requires Settable(t) && Read(lines).Some? && !HasSection(lines, t.section) && Place(lines, t.section, t.key, false) == |lines|
    requires lines != [] ==> !(IsBlank(lines[|lines| - 1]) && lines[|lines| - 1].eol == "")
    ensures Answered(lines, t)
  {
    var newline := Newline(lines);
    var added := Addition(lines, t, newline);
    SetAddsSection(lines, t);
    TextsJoin(Base(lines, t, newline), added);
    var space := BaseTexts(lines, t, newline);
    AdditionTexts(lines, t, newline);
    NewEntryWritten(t, newline);
    SectionUnread(lines, t);
    SectionAtEnd(Texts(lines), space, added[0].text, added[1].text, t);
    SetsAnswers(lines, t, ReadFrom(START, Texts(lines) + space + Texts(added)), true);
  }

  lemma SettingAnswered(lines: seq<Line>, t: Target)
    requires Settable(t) && Read(lines).Some?
    ensures Answered(lines, t)
  {
    var newline, i := Newline(lines), Place(lines, t.section, t.key, false);
    SetAt(lines, t, newline, false);
    if i < |lines| {
      SettingNeedsSection(lines, t, newline, false);
      if IsEntry(lines[i], t.key) {
        RewritingAnswered(lines, t, i);
      } else {
        AddingAnswered(lines, t, i, lines);
      }
    } else if HasSection(lines, t.section) {
      var ended := Ended(lines, newline);
      EndedTexts(lines, newline);
      assert ended[..i] == ended && lines[..i] == lines && ended[i..] == [] && lines[i..] == [];
      assert ended[..i] + [NewEntry(t, newline)] + ended[i..] == ended + [NewEntry(t, newline)];
      AddingAnswered(lines, t, i, ended);
    } else if lines != [] && IsBlank(lines[|lines| - 1]) && lines[|lines| - 1].eol == "" {
      BlankAnswered(lines, t, |lines| - 1);
    } else {
      SectionAnswered(lines, t);
    }
  }

  /**
   The value set is read if and only if the condition holds, unless it was read before already.
   Then every other setting, too, is read as before.
   */
  lemma SetReadsBack(lines: seq<Line>, t: Target)
    requires Settable(t) && Read(lines).Some?
    ensures Writable(lines, t.section, t.key) ==> Read(Set(lines, t)) == Some(Read(lines).value[(t.section, t.key) := t.value])
    ensures ReadsBack(lines, t) ==> Writable(lines, t.section, t.key) || ((t.section, t.key), t.value) in Read(lines).value.Items
  {
    SettingAnswered(lines, t);
  }

  /** The condition is that of every value. */
  lemma WritableIff(lines: seq<Line>, section: string, key: string)
    requires Read(lines).Some? && Settable(Target(section, key, "a"))
    ensures Writable(lines, section, key) <==>
            forall t: Target :: t.section == section && t.key == key && Settable(t) ==> ReadsBack(lines, t)
  {
    var id := (section, key);
    var t := Target(section, key, if id in Read(lines).value && Read(lines).value[id] == "a" then "b" else "a");
    assert Settable(t);
    SetReadsBack(lines, t);
    forall t: Target | Writable(lines, section, key) && t.section == section && t.key == key && Settable(t)
      ensures ReadsBack(lines, t)
    {
      SetReadsBack(lines, t);
    }
  }
}
