/** Lines of text files: white space around them, letters of either case, and the empty end that editors drop. */
module TextLines {

  predicate IsSpace(c: char) { c == ' ' || c == '\t' || c == '\r' || c == '\n' }

  function Rstrip(s: string): (r: string)
    ensures |r| <= |s|
  {
    if s != "" && IsSpace(s[|s| - 1]) then Rstrip(s[..|s| - 1]) else s
  }

  lemma {:induction false} RstripIs(s: string)
    ensures var r := Rstrip(s); r == s[..|r|] && (r != "" ==> !IsSpace(r[|r| - 1])) && forall k :: |r| <= k < |s| ==> IsSpace(s[k])
    decreases |s|
  {
    if s != "" && IsSpace(s[|s| - 1]) {
      RstripIs(s[..|s| - 1]);
    }
  }

  lemma RstripsTo(s: string, n: nat)
    requires n <= |s| && (n > 0 ==> !IsSpace(s[n - 1]))
    requires forall k :: n <= k < |s| ==> IsSpace(s[k])
    ensures Rstrip(s) == s[..n]
  {
    RstripIs(s);
  }

  /** The first place from i on that is not white space. */
  function SkipSpace(s: string, i: nat): (j: nat)
    requires i <= |s|
    ensures i <= j <= |s|
    decreases |s| - i
  {
    if i < |s| && IsSpace(s[i]) then SkipSpace(s, i + 1) else i
  }

  lemma {:induction false} SkipSpaceIs(s: string, i: nat)
    requires i <= |s|
    ensures var j := SkipSpace(s, i); (j < |s| ==> !IsSpace(s[j])) && forall k :: i <= k < j ==> IsSpace(s[k])
    decreases |s| - i
  {
    if i < |s| && IsSpace(s[i]) {
      SkipSpaceIs(s, i + 1);
    }
  }

  lemma SkipsTo(s: string, i: nat, j: nat)
    requires i <= j <= |s| && (j < |s| ==> !IsSpace(s[j]))
    requires forall k :: i <= k < j ==> IsSpace(s[k])
    ensures SkipSpace(s, i) == j
  {
    SkipSpaceIs(s, i);
  }

  function Indent(s: string): (n: nat)
    ensures n <= |s|
  {
    SkipSpace(s, 0)
  }

  function Strip(s: string): (r: string)
    ensures |r| <= |s| - Indent(s)
  {
    Rstrip(s[Indent(s)..])
  }

  /** The first place from i on of a character. */
  function Next(s: string, c: char, i: nat): (j: nat)
    requires i <= |s|
    ensures i <= j <= |s|
    decreases |s| - i
  {
    if i < |s| && s[i] != c then Next(s, c, i + 1) else i
  }

  lemma {:induction false} NextIs(s: string, c: char, i: nat)
    requires i <= |s|
    ensures var j := Next(s, c, i); (j < |s| ==> s[j] == c) && forall k :: i <= k < j ==> s[k] != c
    decreases |s| - i
  {
    if i < |s| && s[i] != c {
      NextIs(s, c, i + 1);
    }
  }

  /** How much of a text ends with the last of a character. */
  function UpToLast(s: string, c: char): (n: nat)
    ensures n <= |s|
  {
    if s != "" && s[|s| - 1] != c then UpToLast(s[..|s| - 1], c) else |s|
  }

  lemma {:induction false} UpToLastIs(s: string, c: char)
    ensures var n := UpToLast(s, c); (n > 0 ==> s[n - 1] == c) && forall k :: n <= k < |s| ==> s[k] != c
    decreases |s|
  {
    if s != "" && s[|s| - 1] != c {
      UpToLastIs(s[..|s| - 1], c);
    }
  }

  function LowerChar(c: char): char { if 'A' <= c <= 'Z' then c - 'A' + 'a' else c }

  /** The text from i on begins with n characters of a key, in letters of either case. */
  predicate Spells(text: string, i: nat, key: string, n: nat)
    requires i + n <= |text| && n <= |key|
  {
    n == 0 || (LowerChar(text[i + n - 1]) == LowerChar(key[n - 1]) && Spells(text, i, key, n - 1))
  }

  lemma {:induction false} SpellsIff(text: string, i: nat, key: string, n: nat)
    requires i + n <= |text| && n <= |key|
    ensures Spells(text, i, key, n) <==> forall k :: 0 <= k < n ==> LowerChar(text[i + k]) == LowerChar(key[k])
  {
    if n > 0 {
      SpellsIff(text, i, key, n - 1);
    }
  }

  lemma SpellsItself(text: string, i: nat, key: string)
    requires i + |key| <= |text| && text[i..i + |key|] == key
    ensures Spells(text, i, key, |key|)
  {
    SpellsIff(text, i, key, |key|);
    assert forall k :: 0 <= k < |key| ==> key[k] == text[i..i + |key|][k];
  }

  function Lower(s: string): (r: string)
    ensures |r| == |s|
  {
    seq(|s|, i requires 0 <= i < |s| => LowerChar(s[i]))
  }

  lemma {:induction false} RstripTwice(s: string)
    ensures Rstrip(Rstrip(s)) == Rstrip(s)
    decreases |s|
  {
    if s != "" && IsSpace(s[|s| - 1]) {
      RstripTwice(s[..|s| - 1]);
    }
  }

  /** Stripping a whole text: blank lines at the end go, and the last line is stripped. */
  function TrimEnd(lines: seq<string>): (r: seq<string>)
    ensures |r| <= |lines|
  {
    if lines == [] then []
    else
      var rest, last := lines[..|lines| - 1], Rstrip(lines[|lines| - 1]);
      if last == "" then TrimEnd(rest) else rest + [last]
  }

  lemma {:induction false} TrimTwice(lines: seq<string>)
    ensures TrimEnd(TrimEnd(lines)) == TrimEnd(lines)
    decreases |lines|
  {
    if lines != [] {
      var rest, last := lines[..|lines| - 1], lines[|lines| - 1];
      RstripTwice(last);
      if Rstrip(last) == "" {
        TrimTwice(rest);
      } else {
        assert (rest + [Rstrip(last)])[..|rest|] == rest;
      }
    }
  }

  lemma TrimAppended(a: seq<string>, line: string)
    ensures TrimEnd(a + [line]) == if Rstrip(line) == "" then TrimEnd(a) else a + [Rstrip(line)]
  {
    assert (a + [line])[..|a|] == a;
  }
}
