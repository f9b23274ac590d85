/**
 How Python's configparser (strict, no interpolation) reads an INI file: it loads the settings that
 GemmaChat._replace_ini_value (supervisor_control_service.py) writes.

 The editor looks at each line alone.  The reader also sees continuation lines, colons, and the
 spelling of section names, and refuses duplicates.
 */
module IniReader {
  import opened Wrappers
  import opened TextLines
  import opened IniEditor

  // ---------------------------------------------------------------- how the reader sees a file

  /** What a line says where it does not continue a value. */
  datatype Saying = Nothing | Remark | Heading(name: string) | Pair(key: string, value: string) | Nonsense

  function Says(text: string): Saying { SaysOf(Strip(text)) }

  function NextDelimiter(v: string): (k: nat)
    ensures k <= |v|
  {
    if Next(v, '=', 0) < Next(v, ':', 0) then Next(v, '=', 0) else Next(v, ':', 0)
  }

  function SaysOf(v: string): Saying {
    if v == "" then Nothing
    else if v[0] == '#' || v[0] == ';' then Remark
    else if v[0] == '[' && UpToLast(v, ']') >= 3 then Heading(v[1..UpToLast(v, ']') - 1])
    else
      var k := NextDelimiter(v);
      if 0 < k < |v| then Pair(Lower(Rstrip(v[..k])), Strip(v[k + 1..])) else Nonsense
  }

  /** A section and a key. */
  type Id = (string, string)

  /** Where reading stands; a setting is kept as its lines until the end. */
  datatype Reading = Reading(section: Option<string>, current: Option<Id>, level: nat, sections: set<string>, settings: map<Id, seq<string>>)

  const START := Reading(None, None, 0, {}, map[])

  function With(r: Reading, id: Id, parts: seq<string>): Reading { r.(settings := r.settings[id := parts]) }

  /** A further line of the current setting. */
  function Append(r: Reading, part: string): Reading {
    if r.current.Some? && r.current.value in r.settings then With(r, r.current.value, r.settings[r.current.value] + [part]) else r
  }

  predicate Continues(r: Reading, text: string) { r.current.Some? && Indent(text) > r.level }

  /** A line that continues nothing; refused are a section or a setting twice, a setting outside all sections, and nonsense. */
  function Start(r: Reading, says: Saying, indent: nat): Option<Reading> {
    match says
    case Heading(name) =>
      if name in r.sections && name != "DEFAULT" then None
      else Some(Reading(Some(name), None, indent, r.sections + {name}, r.settings))
    case Pair(key, value) =>
      if r.section.None? || (r.section.value, key) in r.settings then None
      else Some(Reading(r.section, Some((r.section.value, key)), indent, r.sections, r.settings[(r.section.value, key) := [value]]))
    case _ => None
  }

  function ReadLine(r: Reading, text: string): Option<Reading> {
    var says := Says(text);
    if says.Nothing? then Some(Append(r, ""))
    else if says.Remark? then Some(r)
    else if Continues(r, text) then Some(Append(r, Strip(text)))
    else Start(r, says, Indent(text))
  }

  function ReadFrom(r: Reading, texts: seq<string>): Option<Reading>
    decreases |texts|
  {
    if texts == [] then Some(r) else
    match ReadLine(r, texts[0])
    case Some(next) => ReadFrom(next, texts[1..])
    case None => None
  }

  function Joined(parts: seq<string>): string {
    if parts == [] then "" else if |parts| == 1 then parts[0]
    else Joined(parts[..|parts| - 1]) + "\n" + parts[|parts| - 1]
  }

  function Value(parts: seq<string>): string { Rstrip(Joined(parts)) }

  function Values(settings: map<Id, seq<string>>): map<Id, string> { map id | id in settings :: Value(settings[id]) }

  function Texts(lines: seq<Line>): seq<string> { seq(|lines|, i requires 0 <= i < |lines| => lines[i].text) }

  /** The settings of a file, by section and key. */
  function Read(lines: seq<Line>): Option<map<Id, string>> {
    match ReadFrom(START, Texts(lines)) case Some(r) => Some(Values(r.settings)) case None => None
  }

  predicate Silent(text: string) { Says(text).Nothing? || Says(text).Remark? }

  /** Blank lines and comments aside, the next line is indented deeper. */
  predicate Continued(texts: seq<string>, level: nat) {
    texts != [] &&
    (if Silent(texts[0]) then Continued(texts[1..], level) else Indent(texts[0]) > level)
  }

  // ---------------------------------------------------------------- what the editor's lines say to the reader

  lemma StripIs(s: string)
    ensures var i, v := Indent(s), Strip(s);
            && v == s[i..i + |v|] && (v != "" ==> !IsSpace(v[0]) && !IsSpace(v[|v| - 1])) && Rstrip(v) == v
            && (v == "" <==> i == |s|)
            && (forall k :: 0 <= k < i ==> IsSpace(s[k])) && (forall k :: i + |v| <= k < |s| ==> IsSpace(s[k]))
  {
    var i := Indent(s);
    SkipSpaceIs(s, 0);
    RstripIs(s[i..]);
    RstripTwice(s[i..]);
    assert forall k :: i <= k < |s| ==> s[k] == s[i..][k - i];
    assert s[i..][..|Strip(s)|] == s[i..i + |Strip(s)|];
  }

  lemma StripAt(s: string)
    ensures var i, v := Indent(s), Strip(s); forall k :: 0 <= k < |v| ==> v[k] == s[i + k]
  {
    var i, v := Indent(s), Strip(s);
    StripIs(s);
  }

  lemma StripsTo(s: string, i: nat, n: nat)
    requires i <= n <= |s| && (i < n ==> !IsSpace(s[i]) && !IsSpace(s[n - 1])) && (i == n ==> n == |s|)
    requires forall k :: 0 <= k < i || n <= k < |s| ==> IsSpace(s[k])
    ensures Indent(s) == i && Strip(s) == s[i..n]
  {
    SkipsTo(s, 0, i);
    assert forall k :: 0 <= k < |s| - i ==> s[i..][k] == s[k + i];
    RstripsTo(s[i..], n - i);
    assert s[i..][..n - i] == s[i..n];
  }

  lemma SpelledKey(text: string, i: nat, t: Target)
    requires Settable(t) && i + |t.key| <= |text| && Spells(text, i, t.key, |t.key|)
    ensures Lower(text[i..i + |t.key|]) == t.key
    ensures forall k :: i <= k < i + |t.key| ==> InKey(text[k])
  {
    SpellsIff(text, i, t.key, |t.key|);
    forall k | i <= k < i + |t.key|
      ensures LowerChar(text[k]) == t.key[k - i] && InKey(text[k])
    {
      assert LowerChar(text[i + (k - i)]) == LowerChar(t.key[k - i]);
      assert Lower(t.key)[k - i] == LowerChar(t.key[k - i]);
    }
  }

  /** The parts of an entry: indentation, the key, white space, the equals sign. */
  lemma EntryParts(text: string, t: Target)
    requires Settable(t) && EntryEnd(text, t.key).Some?
    ensures var i, j := Indent(text), EntryEnd(text, t.key).value - 1;
            && i + |t.key| <= j < |text| && text[j] == '=' && Lower(text[i..i + |t.key|]) == t.key
            && (forall k :: i <= k < i + |t.key| ==> InKey(text[k]))
            && (forall k :: i + |t.key| <= k < j ==> IsSpace(text[k]))
  {
    SkipSpaceIs(text, Indent(text) + |t.key|);
    SpelledKey(text, Indent(text), t);
  }

  lemma DelimiterIs(v: string, n: nat)
    requires n < |v| && (v[n] == '=' || v[n] == ':')
    requires forall k :: 0 <= k < n ==> v[k] != '=' && v[k] != ':'
    ensures NextDelimiter(v) == n
  {
    NextIs(v, '=', 0);
    NextIs(v, ':', 0);
  }

  /** An entry without its indentation. */
  lemma PairSays(v: string, key: string, n: nat)
    requires 0 < |key| < n <= |v| && NextDelimiter(v) == n - 1 && v[..|key|] == key
    requires forall i :: 0 <= i < |key| ==> InKey(key[i])
    requires forall k :: |key| <= k < n - 1 ==> IsSpace(v[k])
    ensures SaysOf(v) == Pair(Lower(key), Strip(v[n..]))
  {
    assert v[0] == v[..|key|][0];
    KeyStrips(v[..n - 1], key);
  }

  lemma KeyStrips(s: string, key: string)
    requires 0 < |key| <= |s| && s[..|key|] == key && !IsSpace(key[|key| - 1])
    requires forall k :: |key| <= k < |s| ==> IsSpace(s[k])
    ensures Rstrip(s) == key
  {
    assert s[|key| - 1] == s[..|key|][|key| - 1];
    RstripsTo(s, |key|);
  }

  lemma PartsSay(text: string, key: string, i: nat, n: nat)
    requires i == Indent(text) && 0 < |key| < n && i + n <= |text| && text[i..i + |key|] == key && text[i + n - 1] == '='
    requires forall k :: 0 <= k < |key| ==> InKey(key[k])
    requires forall k :: i + |key| <= k < i + n - 1 ==> IsSpace(text[k])
    ensures n <= |Strip(text)| && Says(text) == Pair(Lower(key), Strip(Strip(text)[n..]))
  {
    var v := Strip(text);
    EntryReaches(text, i, i + n - 1);
    StripAt(text);
    assert v[..|key|] == key;
    assert forall k :: 0 <= k < |key| ==> v[k] == v[..|key|][k];
    DelimiterIs(v, n - 1);
    PairSays(v, key, n);
  }

  /** To the reader too, what the editor takes for an entry of the key is one, unless it continues a value. */
  lemma EntrySays(text: string, t: Target, n: nat)
    requires Settable(t) && EntryEnd(text, t.key) == Some(Indent(text) + n)
    ensures n <= |Strip(text)| && Says(text) == Pair(t.key, Strip(Strip(text)[n..]))
  {
    var i := Indent(text);
    EntryParts(text, t);
    var key := text[i..i + |t.key|];
    assert forall k :: 0 <= k < |t.key| ==> key[k] == text[i + k];
    PartsSay(text, key, i, n);
  }

  lemma EntryReaches(text: string, i: nat, j: nat)
    requires i == Indent(text) <= j < |text| && text[j] == '='
    ensures j < i + |Strip(text)|
  {
    StripIs(text);
    assert !IsSpace(text[j]);
  }

  lemma WrittenStrips(text: string, lead: string, t: Target, n: nat)
    requires Settable(t) && IsLead(lead, t.key) && text == lead + " " + t.value && n == |lead| - Indent(lead)
    ensures EntryEnd(text, t.key) == Some(Indent(text) + n) && Indent(text) == Indent(lead)
    ensures n <= |Strip(text)| && Strip(text)[n..] == " " + t.value
  {
    ValueFollows(lead, t.key, " " + t.value);
    assert text == lead + (" " + t.value);
    StripIs(text);
    StripIs(t.value);
    assert text[|text| - 1] == t.value[|t.value| - 1];
    assert Strip(text) == text[Indent(lead)..];
  }

  lemma ValueStrips(t: Target)
    requires Settable(t)
    ensures Strip(" " + t.value) == t.value
  {
    var s := " " + t.value;
    StripIs(t.value);
    assert s[1] == t.value[0] && s[|s| - 1] == t.value[|t.value| - 1];
    StripsTo(s, 1, |s|);
  }

  /** What the editor writes says what was to be set. */
  lemma WrittenSays(text: string, lead: string, t: Target)
    requires Settable(t) && IsLead(lead, t.key) && text == lead + " " + t.value
    ensures Says(text) == Pair(t.key, t.value) && Indent(text) == Indent(lead) && |Strip(text)| > |t.value|
  {
    var n := |lead| - Indent(lead);
    WrittenStrips(text, lead, t, n);
    EntrySays(text, t, n);
    ValueStrips(t);
  }

  /** A header to the editor is one to the reader, unless it continues a value. */
  lemma HeaderSays(text: string)
    requires HeaderOf(text).Some?
    ensures Says(text).Heading?
  {
    var i, v := Indent(text), Strip(text);
    var k := Next(text, ']', i + 1);
    NextIs(text, ']', i + 1);
    StripIs(text);
    assert text[k] == ']' && !IsSpace(text[k]);
    assert k < i + |v| && v[k - i] == text[k] && v[0] == text[i];
    UpToLastIs(v, ']');
  }

  lemma InBrackets(v: string, section: string)
    requires SaysOf(v) == Heading(section) && ']' !in section
    ensures |v| >= |section| + 2 && v[0] == '[' && section != "" && v[1..|section| + 1] == section && v[|section| + 1] == ']'
  {
    UpToLastIs(v, ']');
  }

  /** A section that the reader finds, spelled as the program does, the editor finds. */
  lemma HeadingSeen(text: string, t: Target)
    requires Settable(t) && Says(text) == Heading(t.section)
    ensures HeaderOf(text) == Some(t.section)
  {
    var i, n := Indent(text), |t.section|;
    InBrackets(Strip(text), t.section);
    StripAt(text);
    assert text[i + 1..i + n + 1] == t.section;
    assert forall k :: i + 1 <= k < i + n + 1 ==> text[k] == text[i + 1..i + n + 1][k - (i + 1)];
    NextIs(text, ']', i + 1);
  }

  lemma NewHeadingStrips(indent: string, section: string)
    requires Indent(indent) == |indent|
    ensures var text := indent + "[" + section + "]"; Indent(text) == |indent| && Strip(text) == "[" + section + "]"
  {
    var text, i := indent + "[" + section + "]", |indent|;
    SkipSpaceIs(indent, 0);
    assert forall k :: 0 <= k < i ==> text[k] == indent[k];
    assert text[i] == '[' && text[|text| - 1] == ']';
    StripsTo(text, i, |text|);
    assert text[i..|text|] == "[" + section + "]";
  }

  lemma NewHeadingSays(indent: string, t: Target)
    requires Settable(t) && Indent(indent) == |indent|
    ensures var text := indent + "[" + t.section + "]"; Says(text) == Heading(t.section) && Indent(text) == |indent| && Strip(text) != ""
  {
    NewHeadingStrips(indent, t.section);
    var v := "[" + t.section + "]";
    assert v[|v| - 1] == ']' && v[1..|v| - 1] == t.section;
    assert UpToLast(v, ']') == |v|;
  }

  lemma BlankSays(text: string)
    ensures Says(text).Nothing? <==> Indent(text) == |text|
  {
    StripIs(text);
  }

  // ---------------------------------------------------------------- values

  ghost predicate Stripped(parts: seq<string>) { forall i :: 0 <= i < |parts| ==> Rstrip(parts[i]) == parts[i] }

  ghost predicate AllEmpty(parts: seq<string>) { forall i :: 0 <= i < |parts| ==> parts[i] == "" }

  lemma OneMore(parts: seq<string>, part: string)
    requires parts != [] && Rstrip(part) == part
    ensures if part == "" then Value(parts + [part]) == Value(parts)
            else |Value(parts + [part])| > |Value(parts)| && |Value(parts + [part])| > |part|
  {
    var all, j := parts + [part], Joined(parts);
    assert all[..|all| - 1] == parts;
    assert Joined(all) == j + "\n" + part;
    if part == "" {
      assert (j + "\n" + part)[..|j|] == j;
    } else {
      RstripIs(part);
      assert (j + "\n" + part)[|j + "\n" + part| - 1] == part[|part| - 1];
    }
  }

  /** Blank lines at the end do not show; any other makes a value longer. */
  lemma {:induction false} MoreParts(parts: seq<string>, tail: seq<string>)
    requires parts != [] && Stripped(tail)
    ensures if AllEmpty(tail) then Value(parts + tail) == Value(parts) else |Value(parts + tail)| > |Value(parts)|
    decreases |tail|
  {
    if tail == [] {
      assert parts + tail == parts;
    } else {
      var n := |tail| - 1;
      MoreParts(parts, tail[..n]);
      assert tail == tail[..n] + [tail[n]];
      assert parts + tail == (parts + tail[..n]) + [tail[n]];
      OneMore(parts + tail[..n], tail[n]);
      assert AllEmpty(tail[..n]) && tail[n] == "" ==> AllEmpty(tail);
      assert AllEmpty(tail) ==> AllEmpty(tail[..n]) && tail[n] == "";
    }
  }

  lemma OnePart(part: string)
    requires Rstrip(part) == part
    ensures Value([part]) == part
  {
  }

  // ---------------------------------------------------------------- readings

  ghost predicate Sound(r: Reading) {
    && (r.current.Some? ==> r.current.value in r.settings && r.section == Some(r.current.value.0))
    && (r.section.Some? ==> r.section.value in r.sections)
    && (forall id :: id in r.settings ==> id.0 in r.sections && r.settings[id] != [])
  }

  lemma LineKeepsSound(r: Reading, text: string)
    requires Sound(r) && ReadLine(r, text).Some?
    ensures Sound(ReadLine(r, text).value)
  {
  }

  lemma {:induction false} ReadJoins(r: Reading, a: seq<string>, b: seq<string>)
    requires Sound(r)
    ensures ReadFrom(r, a + b) == if ReadFrom(r, a).Some? then ReadFrom(ReadFrom(r, a).value, b) else None
    ensures ReadFrom(r, a).Some? ==> Sound(ReadFrom(r, a).value)
    decreases |a|
  {
    if a == [] {
      assert a + b == b;
    } else {
      assert (a + b)[0] == a[0] && (a + b)[1..] == a[1..] + b;
      if ReadLine(r, a[0]).Some? {
        LineKeepsSound(r, a[0]);
        ReadJoins(ReadLine(r, a[0]).value, a[1..], b);
      }
    }
  }

  lemma ReadNext(r: Reading, text: string, rest: seq<string>)
    ensures ReadFrom(r, [text] + rest) == if ReadLine(r, text).Some? then ReadFrom(ReadLine(r, text).value, rest) else None
  {
    assert ([text] + rest)[1..] == rest;
  }

  lemma OtherValueAppends(r: Reading, id: Id, parts: seq<string>, part: string)
    requires Sound(r) && id in r.settings
    ensures var added, next := if r.current == Some(id) then [part] else [], Append(r, part);
            && id in next.settings && next.settings[id] == r.settings[id] + added && next.current == r.current && next.level == r.level
            && Append(With(r, id, parts), part) == With(next, id, parts + added)
  {
    var next := Append(r, part);
    if r.current == Some(id) {
      assert Append(With(r, id, parts), part).settings == With(next, id, parts + [part]).settings;
    } else {
      assert parts + [] == parts && r.settings[id] + [] == r.settings[id];
      assert Append(With(r, id, parts), part).settings == With(next, id, parts).settings;
    }
  }

  lemma OtherValueStarts(r: Reading, id: Id, parts: seq<string>, says: Saying, indent: nat)
    requires id in r.settings
    ensures var next, other := Start(r, says, indent), Start(With(r, id, parts), says, indent);
            && (next.None? <==> other.None?)
            && (next.Some? ==> id in next.value.settings && next.value.settings[id] == r.settings[id]
                               && other == Some(With(next.value, id, parts)) && next.value.current != Some(id))
  {
    var next, other := Start(r, says, indent), Start(With(r, id, parts), says, indent);
    if next.Some? {
      assert other.value.settings == With(next.value, id, parts).settings;
    }
  }

  /** What a line adds to the current setting. */
  function Added(r: Reading, id: Id, text: string): seq<string> {
    if r.current != Some(id) || Says(text).Remark? then []
    else if Says(text).Nothing? then [""]
    else if Continues(r, text) then [Strip(text)]
    else []
  }

  function Changed(r: Option<Reading>, id: Id, parts: seq<string>): Option<Reading> {
    if r.Some? then Some(With(r.value, id, parts)) else None
  }

  /** A line read with another value of one setting: it adds the same to it, and does the same to everything else. */
  lemma OtherValueLine(r: Reading, id: Id, parts: seq<string>, text: string)
    requires Sound(r) && id in r.settings
    ensures ReadLine(With(r, id, parts), text) == Changed(ReadLine(r, text), id, parts + Added(r, id, text))
    ensures ReadLine(r, text).Some? ==> id in ReadLine(r, text).value.settings
  {
    assert r.settings[id] + [] == r.settings[id] && parts + [] == parts;
    if Says(text).Nothing? {
      OtherValueAppends(r, id, parts, "");
    } else if Continues(r, text) {
      OtherValueAppends(r, id, parts, Strip(text));
    } else if !Says(text).Remark? {
      OtherValueStarts(r, id, parts, Says(text), Indent(text));
    }
  }

  lemma AddedIs(r: Reading, id: Id, text: string)
    requires Sound(r) && id in r.settings && ReadLine(r, text).Some?
    ensures var next, added := ReadLine(r, text).value, Added(r, id, text);
            && Stripped(added) && (AllEmpty(added) <==> r.current != Some(id) || Silent(text) || !Continues(r, text))
            && (next.current == Some(id) <==> r.current == Some(id) && (Silent(text) || Continues(r, text)))
            && (next.current == Some(id) ==> next.level == r.level)
  {
    StripIs(text);
    var added := Added(r, id, text);
    assert added == [Strip(text)] ==> added[0] == Strip(text);
  }

  /** What lines add to a setting. */
  function Tail(r: Reading, id: Id, texts: seq<string>): seq<string>
    decreases |texts|
  {
    if texts == [] || ReadLine(r, texts[0]).None? then []
    else Added(r, id, texts[0]) + Tail(ReadLine(r, texts[0]).value, id, texts[1..])
  }

  /** Reading on with another value of one setting: the same lines follow it, and nothing else differs. */
  lemma {:induction false} OtherValue(r: Reading, id: Id, parts: seq<string>, texts: seq<string>)
    requires Sound(r) && id in r.settings
    ensures ReadFrom(With(r, id, parts), texts) == Changed(ReadFrom(r, texts), id, parts + Tail(r, id, texts))
    decreases |texts|
  {
    if texts == [] {
      assert parts + [] == parts;
    } else {
      OtherValueLine(r, id, parts, texts[0]);
      if ReadLine(r, texts[0]).Some? {
        var next, added := ReadLine(r, texts[0]).value, Added(r, id, texts[0]);
        LineKeepsSound(r, texts[0]);
        OtherValue(next, id, parts + added, texts[1..]);
        Regroup(parts, added, Tail(next, id, texts[1..]));
      }
    }
  }

  lemma Regroup(a: seq<string>, b: seq<string>, c: seq<string>)
    ensures (a + b) + c == a + (b + c)
  {
  }

  lemma SettingGrows(r: Reading, id: Id, texts: seq<string>)
    requires Sound(r) && id in r.settings && ReadFrom(r, texts).Some?
    ensures var end := ReadFrom(r, texts).value; id in end.settings && end.settings[id] == r.settings[id] + Tail(r, id, texts)
  {
    OtherValue(r, id, r.settings[id], texts);
    assert With(r, id, r.settings[id]).settings == r.settings;
  }

  /** Only the current setting grows, and visibly only by a continuation. */
  lemma {:induction false} TailIs(r: Reading, id: Id, texts: seq<string>)
    requires Sound(r) && id in r.settings && ReadFrom(r, texts).Some?
    ensures Stripped(Tail(r, id, texts)) && (AllEmpty(Tail(r, id, texts)) <==> r.current != Some(id) || !Continued(texts, r.level))
    decreases |texts|
  {
    if texts != [] {
      var next := ReadLine(r, texts[0]).value;
      AddedIs(r, id, texts[0]);
      OtherValueLine(r, id, [], texts[0]);
      LineKeepsSound(r, texts[0]);
      TailIs(next, id, texts[1..]);
      EmptyJoins(Added(r, id, texts[0]), Tail(next, id, texts[1..]));
    }
  }

  lemma EmptyJoins(a: seq<string>, b: seq<string>)
    requires Stripped(a) && Stripped(b)
    ensures Stripped(a + b) && (AllEmpty(a + b) <==> AllEmpty(a) && AllEmpty(b))
  {
    var all := a + b;
    assert forall i :: 0 <= i < |b| ==> all[|a| + i] == b[i];
    assert forall i :: 0 <= i < |a| ==> all[i] == a[i];
  }
}
