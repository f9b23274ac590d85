/**
 Reversible escaping of untrusted text for a terminal (api/wiktionary_review_cli.py,
 _terminal_safe): newlines and printable characters stay, everything else becomes a \x, \u or \U
 escape, and the backslash itself is doubled.
 */
module TerminalSafe {

  /** A Python character is a code point; lone surrogates included. */
  type CodePoint = c: int | 0 <= c <= 0x10FFFF

  type Text = seq<CodePoint>

  const NEWLINE: CodePoint := 0x0A
  const BACKSLASH: CodePoint := 0x5C
  const SMALL_X: CodePoint := 0x78
  const SMALL_U: CodePoint := 0x75
  const BIG_U: CodePoint := 0x55

  /** str.isprintable is a table of the Unicode database; only its ASCII part is ever assumed. */
  type Printable = CodePoint -> bool

  ghost predicate AsciiPrintable(printable: Printable) {
    forall c: CodePoint :: 0x20 <= c <= 0x7E ==> printable(c)
  }

  // ---------------------------------------------------------------- hexadecimal numbers

  function Digit(d: nat): CodePoint
    requires d < 16
  {
    if d < 10 then 0x30 + d else 0x61 + d - 10
  }

  /** Lower-case hexadecimal, padded with zeros to at least the width. */
  function Hex(n: nat, width: nat): Text
    decreases n, width
  {
    if n < 16 && width <= 1 then [Digit(n)]
    else Hex(n / 16, if width == 0 then 0 else width - 1) + [Digit(n % 16)]
  }

  /** Each character takes as few places as its kind of escape allows: 1, 2, 4, 6 or 10. */
  lemma EscapeLengths(printable: Printable, c: CodePoint)
    ensures |EscapeOne(printable, c)| ==
            if c == 0x0A then 1 else if c == 0x5C then 2 else if printable(c) then 1
            else if c < 0x100 then 4 else if c < 0x1_0000 then 6 else 10
  {
    if c < 0x100 {
      HexReadsBack(c, 2);
    } else if c < 0x1_0000 {
      HexReadsBack(c, 4);
    } else {
      HexReadsBack(c, 8);
    }
  }

  function DigitValue(c: CodePoint): nat {
    if 0x30 <= c <= 0x39 then c - 0x30 else if 0x61 <= c <= 0x66 then c - 0x61 + 10 else 0
  }

  function HexValue(digits: Text): nat {
    if digits == [] then 0 else HexValue(digits[..|digits| - 1]) * 16 + DigitValue(digits[|digits| - 1])
  }

  function Capacity(width: nat): nat { if width == 0 then 1 else Capacity(width - 1) * 16 }

  lemma {:induction false} HexReadsBack(n: nat, width: nat)
    requires width > 0 && n < Capacity(width)
    ensures |Hex(n, width)| == width && HexValue(Hex(n, width)) == n
    decreases width
  {
    if width > 1 {
      HexReadsBack(n / 16, width - 1);
      var before := Hex(n / 16, width - 1);
      assert Hex(n, width) == before + [Digit(n % 16)];
      assert (before + [Digit(n % 16)])[..width - 1] == before;
    } else {
      assert n < 16 && [Digit(n)][..0] == [];
    }
  }

  // ---------------------------------------------------------------- escaping

  function EscapeOne(printable: Printable, c: CodePoint): Text {
    if c == NEWLINE then [c]
    else if c == BACKSLASH then [BACKSLASH, BACKSLASH]
    else if printable(c) then [c]
    else if c <= 0xFF then [BACKSLASH, SMALL_X] + Hex(c, 2)
    else if c <= 0xFFFF then [BACKSLASH, SMALL_U] + Hex(c, 4)
    else [BACKSLASH, BIG_U] + Hex(c, 8)
  }

  function Escape(printable: Printable, value: Text): Text {
    if value == [] then [] else EscapeOne(printable, value[0]) + Escape(printable, value[1..])
  }

  function Join(pieces: seq<Text>): Text {
    if pieces == [] then [] else Join(pieces[..|pieces| - 1]) + pieces[|pieces| - 1]
  }

  lemma Reassociate(a: Text, b: Text, c: Text)
    ensures a + (b + c) == (a + b) + c
  {
  }

  lemma EscapeUnfolds(printable: Printable, value: Text)
    requires value != []
    ensures Escape(printable, value) == EscapeOne(printable, value[0]) + Escape(printable, value[1..])
  {
  }

  lemma {:induction false} EscapeJoins(printable: Printable, a: Text, b: Text)
    ensures Escape(printable, a + b) == Escape(printable, a) + Escape(printable, b)
  {
    if a == [] {
      assert a + b == b;
    } else {
      calc {
        Escape(printable, a + b);
      ==  { EscapeUnfolds(printable, a + b); assert (a + b)[1..] == a[1..] + b; }
        EscapeOne(printable, a[0]) + Escape(printable, a[1..] + b);
      ==  { EscapeJoins(printable, a[1..], b); }
        EscapeOne(printable, a[0]) + (Escape(printable, a[1..]) + Escape(printable, b));
      ==  { Reassociate(EscapeOne(printable, a[0]), Escape(printable, a[1..]), Escape(printable, b)); }
        (EscapeOne(printable, a[0]) + Escape(printable, a[1..])) + Escape(printable, b);
      ==  { EscapeUnfolds(printable, a); }
        Escape(printable, a) + Escape(printable, b);
      }
    }
  }

  lemma EscapeAppends(printable: Printable, value: Text, c: CodePoint)
    ensures Escape(printable, value + [c]) == Escape(printable, value) + EscapeOne(printable, c)
  {
    EscapeJoins(printable, value, [c]);
    assert Escape(printable, [c]) == EscapeOne(printable, c) + Escape(printable, []);
  }

  method TerminalSafe(printable: Printable, value: Text) returns (safe: Text)
    ensures safe == Escape(printable, value)
    ensures Unescape(safe) == value
    ensures AsciiPrintable(printable) ==> forall c :: c in safe ==> c == NEWLINE || printable(c)
  {
    var rendered: seq<Text> := [];
    for i := 0 to |value|
      invariant Join(rendered) == Escape(printable, value[..i])
    {
      var character := value[i];
      var piece: Text;
      if character == NEWLINE {
        piece := [character];
      } else if character == BACKSLASH {
        piece := [BACKSLASH, BACKSLASH];
      } else if printable(character) {
        piece := [character];
      } else if character <= 0xFF {
        piece := [BACKSLASH, SMALL_X] + Hex(character, 2);
      } else if character <= 0xFFFF {
        piece := [BACKSLASH, SMALL_U] + Hex(character, 4);
      } else {
        piece := [BACKSLASH, BIG_U] + Hex(character, 8);
      }
      assert (rendered + [piece])[..|rendered|] == rendered;
      assert value[..i + 1] == value[..i] + [character];
      EscapeAppends(printable, value[..i], character);
      rendered := rendered + [piece];
    }
    safe := Join(rendered);
    assert value[..|value|] == value;
    EscapeReadsBack(printable, value);
    if AsciiPrintable(printable) {
      EscapeIsSafe(printable, value);
    }
  }

  // ---------------------------------------------------------------- reading escapes back

  /** The code point after a backslash tells how many digits follow it. */
  function DigitsAfter(kind: CodePoint): nat {
    if kind == SMALL_X then 2 else if kind == SMALL_U then 4 else if kind == BIG_U then 8 else 0
  }

  function Clamp(n: nat): CodePoint { if n <= 0x10FFFF then n else 0 }

  function Unescape(text: Text): Text
    decreases |text|
  {
    if text == [] then []
    else if text[0] != BACKSLASH || |text| < 2 || |text| < 2 + DigitsAfter(text[1]) then [text[0]] + Unescape(text[1..])
    else
      var digits := DigitsAfter(text[1]);
      var c := if digits == 0 then text[1] else Clamp(HexValue(text[2..2 + digits]));
      [c] + Unescape(text[2 + digits..])
  }

  lemma OneReadsBack(printable: Printable, c: CodePoint, rest: Text)
    ensures Unescape(EscapeOne(printable, c) + rest) == [c] + Unescape(rest)
  {
    var one := EscapeOne(printable, c);
    var text := one + rest;
    if |one| == 1 {
      assert text[1..] == rest;
    } else if c == BACKSLASH {
      assert text[2..] == rest;
    } else {
      var digits := DigitsAfter(one[1]);
      assert Capacity(2) == 0x100 && Capacity(4) == 0x10000 && Capacity(8) == 0x100000000;
      HexReadsBack(c, digits);
      assert text[2..2 + digits] == Hex(c, digits) && text[2 + digits..] == rest;
    }
  }

  /** Escaping is reversible: whatever the text, it can be read back. */
  lemma {:induction false} EscapeReadsBack(printable: Printable, value: Text)
    ensures Unescape(Escape(printable, value)) == value
  {
    if value != [] {
      EscapeReadsBack(printable, value[1..]);
      OneReadsBack(printable, value[0], Escape(printable, value[1..]));
    }
  }

  /** Different texts never look the same on the terminal. */
  lemma EscapeIsInjective(printable: Printable, a: Text, b: Text)
    requires Escape(printable, a) == Escape(printable, b)
    ensures a == b
  {
    EscapeReadsBack(printable, a);
    EscapeReadsBack(printable, b);
  }

  // ---------------------------------------------------------------- what reaches the terminal

  lemma {:induction false} HexIsAscii(n: nat, width: nat)
    ensures forall c :: c in Hex(n, width) ==> 0x20 <= c <= 0x7E && c != BACKSLASH
    decreases n, width
  {
    if !(n < 16 && width <= 1) {
      HexIsAscii(n / 16, if width == 0 then 0 else width - 1);
    }
  }

  /** No control character survives: only printable characters and newlines are written. */
  lemma {:induction false} EscapeIsSafe(printable: Printable, value: Text)
    requires AsciiPrintable(printable)
    ensures forall c :: c in Escape(printable, value) ==> c == NEWLINE || printable(c)
  {
    if value != [] {
      EscapeIsSafe(printable, value[1..]);
      HexIsAscii(value[0], 2);
      HexIsAscii(value[0], 4);
      HexIsAscii(value[0], 8);
    }
  }

  lemma OneNewline(printable: Printable, c: CodePoint)
    ensures NEWLINE in EscapeOne(printable, c) <==> c == NEWLINE
  {
    HexIsAscii(c, 2);
    HexIsAscii(c, 4);
    HexIsAscii(c, 8);
  }

  /** Escaping neither hides a line break nor makes one. */
  lemma {:induction false} NewlinesAreKept(printable: Printable, value: Text)
    ensures NEWLINE in Escape(printable, value) <==> NEWLINE in value
  {
    if value != [] {
      OneNewline(printable, value[0]);
      NewlinesAreKept(printable, value[1..]);
      assert value == [value[0]] + value[1..];
    }
  }

  /** The displayed lines are the lines of the text, each escaped by itself. */
  lemma LinesAreKept(printable: Printable, a: Text, b: Text)
    ensures Escape(printable, a + [NEWLINE] + b) == Escape(printable, a) + [NEWLINE] + Escape(printable, b)
  {
    EscapeJoins(printable, a + [NEWLINE], b);
    EscapeAppends(printable, a, NEWLINE);
  }

  predicate Plain(printable: Printable, c: CodePoint) { c == NEWLINE || (c != BACKSLASH && printable(c)) }

  predicate AllPlain(printable: Printable, value: Text) {
    forall i :: 0 <= i < |value| ==> Plain(printable, value[i])
  }

  lemma AllPlainTail(printable: Printable, value: Text)
    requires value != []
    ensures AllPlain(printable, value) <==> Plain(printable, value[0]) && AllPlain(printable, value[1..])
  {
    assert forall i :: 1 <= i < |value| ==> value[i] == value[1..][i - 1];
  }

  lemma {:induction false} EscapeLengthens(printable: Printable, value: Text)
    ensures |Escape(printable, value)| >= |value|
    ensures |Escape(printable, value)| == |value| <==> AllPlain(printable, value)
  {
    if value != [] {
      EscapeLengthens(printable, value[1..]);
      AllPlainTail(printable, value);
    }
  }

  /** Text is shown as it is exactly when it has no backslash and nothing unprintable but newlines. */
  lemma {:induction false} UnchangedWhenPlain(printable: Printable, value: Text)
    ensures Escape(printable, value) == value <==> AllPlain(printable, value)
  {
    EscapeLengthens(printable, value);
    if value != [] && AllPlain(printable, value) {
      AllPlainTail(printable, value);
      UnchangedWhenPlain(printable, value[1..]);
      assert value == [value[0]] + value[1..];
    }
  }
}
