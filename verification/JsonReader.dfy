/** A reader for compact JSON text (RFC 8259), written without regard to how the text was made, and the proof
    that what the encoder writes for strings and numbers reads back. UTF-8 is given by its arithmetic. */
module JsonReader {
  import opened Options
  import opened Json

  // ---------------------------------------------------------------------------------
  // UTF-8 by arithmetic (RFC 3629)

  /** Unicode scalar values: code points that are no surrogates. */
  predicate Scalar(c: int) {
    0 <= c < 0xD800 || 0xE000 <= c < 0x11_0000
  }

  function Utf8(c: int): (r: Bytes)
    requires Scalar(c)
    ensures 1 <= |r| <= 4
  {
    if c < 0x80 then [c]
    else if c < 0x800 then [0xC0 + c / 64, 0x80 + c % 64]
    else if c < 0x1_0000 then [0xE0 + c / 4096, 0x80 + c / 64 % 64, 0x80 + c % 64]
    else [0xF0 + c / 26_2144, 0x80 + c / 4096 % 64, 0x80 + c / 64 % 64, 0x80 + c % 64]
  }

  /** The length a lead byte announces. */
  function Announced(b: Byte): nat {
    if 0xC0 <= b < 0xE0 then 2 else if 0xE0 <= b < 0xF0 then 3 else if 0xF0 <= b < 0xF8 then 4 else 0
  }

  /** The payload of a byte. */
  function Bits(b: Byte, marker: int): int {
    b as int - marker
  }

  /** The number in the payload bits of a sequence of two to four bytes. */
  function CodePoint(s: Bytes): int
    requires 2 <= |s| <= 4
  {
    if |s| == 2 then Bits(s[0], 0xC0) * 64 + Bits(s[1], 0x80)
    else if |s| == 3 then Bits(s[0], 0xE0) * 4096 + Bits(s[1], 0x80) * 64 + Bits(s[2], 0x80)
    else Bits(s[0], 0xF0) * 26_2144 + Bits(s[1], 0x80) * 4096 + Bits(s[2], 0x80) * 64 + Bits(s[3], 0x80)
  }

  /** The length of the multibyte sequence that starts a text, 0 if there is none: the announced
      bytes spell a scalar. */
  function Sequence(s: Bytes): (n: nat)
    ensures n <= |s| && (n == 0 || 2 <= n <= 4)
  {
    if s == [] then 0
    else
      var n := Announced(s[0]);
      if n == 0 || |s| < n then 0
      else
        var c := CodePoint(s[..n]);
        if Scalar(c) && Utf8(c) == s[..n] then n else 0
  }

  /** The table of well-formed byte sequences is exactly the arithmetic. */
  lemma TableIsArithmetic(s: Bytes)
    requires s != [] && s[0] >= 0x80
    ensures MultibyteLength(s) == Sequence(s)
  {
    var n := Announced(s[0]);
    if n == 2 && |s| >= 2 {
      TwoBytes(s);
    } else if n == 3 && |s| >= 3 {
      ThreeBytes(s);
    } else if n == 4 && |s| >= 4 {
      FourBytes(s);
    }
  }

  lemma TwoBytes(s: Bytes)
    requires |s| >= 2 && Announced(s[0]) == 2
    ensures MultibyteLength(s) == Sequence(s)
  {
    var c := CodePoint(s[..2]);
    if Continuation(s[1]) { assert c / 64 == Bits(s[0], 0xC0) && c % 64 == Bits(s[1], 0x80); }
    if MultibyteLength(s) == 2 { assert Utf8(c) == s[..2]; }
  }

  /** Two digits to the base 64. */
  lemma Digits(hi: int, lo: int)
    requires 0 <= lo < 64
    ensures (hi * 64 + lo) / 64 == hi && (hi * 64 + lo) % 64 == lo
  {
  }

  lemma ThreeBytes(s: Bytes)
    requires |s| >= 3 && Announced(s[0]) == 3
    ensures MultibyteLength(s) == Sequence(s)
  {
    var c := CodePoint(s[..3]);
    if Continuation(s[1]) && Continuation(s[2]) {
      var hi := Bits(s[0], 0xE0) * 64 + Bits(s[1], 0x80);
      assert c == hi * 64 + Bits(s[2], 0x80);
      Digits(hi, Bits(s[2], 0x80));
      Digits(Bits(s[0], 0xE0), Bits(s[1], 0x80));
      assert c / 4096 == c / 64 / 64;
    }
    if MultibyteLength(s) == 3 { assert Utf8(c) == s[..3]; }
  }

  lemma FourBytes(s: Bytes)
    requires |s| >= 4 && Announced(s[0]) == 4
    ensures MultibyteLength(s) == Sequence(s)
  {
    var c := CodePoint(s[..4]);
    if Continuation(s[1]) && Continuation(s[2]) && Continuation(s[3]) { FourDigits(s); }
    if MultibyteLength(s) == 4 { assert Utf8(c) == s[..4]; }
  }

  lemma FourDigits(s: Bytes)
    requires |s| >= 4 && Continuation(s[1]) && Continuation(s[2]) && Continuation(s[3])
    ensures var c := CodePoint(s[..4]);
            && c / 26_2144 == Bits(s[0], 0xF0) && c / 4096 % 64 == Bits(s[1], 0x80)
            && c / 64 % 64 == Bits(s[2], 0x80) && c % 64 == Bits(s[3], 0x80)
  {
    var c := CodePoint(s[..4]);
    var top := Bits(s[0], 0xF0) * 64 + Bits(s[1], 0x80);
    var hi := top * 64 + Bits(s[2], 0x80);
    assert c == hi * 64 + Bits(s[3], 0x80);
    Digits(hi, Bits(s[3], 0x80));
    Digits(top, Bits(s[2], 0x80));
    Digits(Bits(s[0], 0xF0), Bits(s[1], 0x80));
    assert c / 4096 == c / 64 / 64 && c / 26_2144 == c / 64 / 64 / 64;
  }

  /** A text with every byte that belongs to no UTF-8 sequence replaced by U+FFFD. */
  function Repaired(s: Bytes): Bytes
    decreases |s|
  {
    if s == [] then [] else RepairedHead(s).0 + Repaired(s[RepairedHead(s).1..])
  }

  /** What the first character of a text is repaired to, and how many bytes it takes. */
  function RepairedHead(s: Bytes): (r: (Bytes, nat))
    requires s != []
    ensures 1 <= r.1 <= |s|
  {
    if s[0] < 0x80 then (s[..1], 1)
    else if Sequence(s) == 0 then ([0xEF, 0xBF, 0xBD], 1)
    else (s[..Sequence(s)], Sequence(s))
  }

  ghost predicate Scalars(cs: seq<int>) {
    forall i | 0 <= i < |cs| :: Scalar(cs[i])
  }

  function Utf8Text(cs: seq<int>): Bytes
    requires Scalars(cs)
  {
    if cs == [] then [] else Utf8(cs[0]) + Utf8Text(cs[1..])
  }

  ghost predicate ValidUtf8(s: Bytes) {
    exists cs :: Scalars(cs) && Utf8Text(cs) == s
  }

  lemma ScalarStarts(c: int, rest: Bytes)
    requires Scalar(c)
    ensures RepairedHead(Utf8(c) + rest) == (Utf8(c), |Utf8(c)|)
  {
    var u := Utf8(c);
    var s := u + rest;
    assert s[..|u|] == u;
    if c >= 0x80 {
      assert Announced(s[0]) == |u|;
      Unpacks(c);
    }
  }

  lemma Unpacks(c: int)
    requires Scalar(c) && c >= 0x80
    ensures CodePoint(Utf8(c)) == c
  {
    if c >= 0x800 {
      assert c == c / 64 * 64 + c % 64 && c / 64 == c / 64 / 64 * 64 + c / 64 % 64 && c / 64 / 64 == c / 4096;
      if c >= 0x1_0000 { assert c / 4096 == c / 4096 / 64 * 64 + c / 4096 % 64 && c / 4096 / 64 == c / 26_2144; }
    }
  }

  /** Valid UTF-8 needs no repair. */
  lemma {:induction false} ValidIsUnrepaired(cs: seq<int>)
    requires Scalars(cs)
    ensures Repaired(Utf8Text(cs)) == Utf8Text(cs)
  {
    if cs != [] {
      ScalarStarts(cs[0], Utf8Text(cs[1..]));
      assert (Utf8(cs[0]) + Utf8Text(cs[1..]))[|Utf8(cs[0])|..] == Utf8Text(cs[1..]);
      ValidIsUnrepaired(cs[1..]);
    }
  }

  // ---------------------------------------------------------------------------------
  // Strings

  function HexValue(b: Byte): Option<nat> {
    if 0x30 <= b <= 0x39 then Some(b - 0x30)
    else if 0x61 <= b <= 0x66 then Some(b - 0x57)
    else if 0x41 <= b <= 0x46 then Some(b - 0x37)
    else None
  }

  /** The code unit of an escape "\uXXXX" at the start of a text. */
  function CodeUnit(t: Bytes): (r: Option<nat>)
    ensures r.Some? ==> |t| >= 6 && r.value < 0x1_0000
  {
    if |t| < 6 || t[0] != BACKSLASH || t[1] != 0x75 then None
    else
      var a, b, c, d := HexValue(t[2]), HexValue(t[3]), HexValue(t[4]), HexValue(t[5]);
      if a.None? || b.None? || c.None? || d.None? then None
      else Some(a.value * 4096 + b.value * 256 + c.value * 16 + d.value)
  }

  /** The character after a backslash in a two-character escape. */
  function ShortEscape(b: Byte): Option<Byte> {
    if b == QUOTE || b == BACKSLASH || b == 0x2F then Some(b)
    else if b == 0x62 then Some(0x08)
    else if b == 0x66 then Some(0x0C)
    else if b == 0x6E then Some(0x0A)
    else if b == 0x72 then Some(0x0D)
    else if b == 0x74 then Some(0x09)
    else None
  }

  /** One escape: what it stands for and how long it is. Surrogates count in pairs only. */
  function ReadEscape(t: Bytes): (r: Option<(Bytes, nat)>)
    requires t != [] && t[0] == BACKSLASH
    ensures r.Some? ==> 1 <= r.value.1 <= |t|
  {
    if |t| < 2 then None
    else if ShortEscape(t[1]).Some? then Some(([ShortEscape(t[1]).value], 2))
    else
      var hi := CodeUnit(t);
      if hi.None? then None
      else if Scalar(hi.value) then Some((Utf8(hi.value), 6))
      else
        var lo := CodeUnit(t[6..]);
        if hi.value < 0xDC00 && lo.Some? && 0xDC00 <= lo.value < 0xE000
        then Some((Utf8(0x1_0000 + (hi.value - 0xD800) * 1024 + (lo.value - 0xDC00)), 12))
        else None
  }

  /** One character inside a string, up to the closing quote. */
  function ReadCharacter(t: Bytes): (r: Option<(Bytes, nat)>)
    requires t != [] && t[0] != QUOTE
    ensures r.Some? ==> 1 <= r.value.1 <= |t|
  {
    if t[0] == BACKSLASH then ReadEscape(t)
    else if t[0] < 0x20 then None
    else if t[0] < 0x80 then Some((t[..1], 1))
    else if Sequence(t) == 0 then None
    else Some((t[..Sequence(t)], Sequence(t)))
  }

  /** The characters up to the first unescaped quote, and what follows that quote. */
  function ReadCharacters(t: Bytes): (r: Option<(Bytes, Bytes)>)
    ensures r.Some? ==> |r.value.1| < |t|
    decreases |t|
  {
    if t == [] then None
    else if t[0] == QUOTE then Some(([], t[1..]))
    else
      var one := ReadCharacter(t);
      if one.None? then None
      else
        var more := ReadCharacters(t[one.value.1..]);
        if more.None? then None else Some((one.value.0 + more.value.0, more.value.1))
  }

  function ReadString(t: Bytes): (r: Option<(Bytes, Bytes)>)
    ensures r.Some? ==> |r.value.1| < |t|
  {
    if t == [] || t[0] != QUOTE then None else ReadCharacters(t[1..])
  }

  lemma EscapeReads(hi: Byte, lo: Byte, rest: Bytes)
    ensures CodeUnit(UnicodeEscape(hi, lo) + rest) == Some(hi * 256 + lo)
  {
    var t := UnicodeEscape(hi, lo) + rest;
    assert HexValue(t[2]) == Some(hi / 16) && HexValue(t[3]) == Some(hi % 16);
    assert HexValue(t[4]) == Some(lo / 16) && HexValue(t[5]) == Some(lo % 16);
    assert hi == hi / 16 * 16 + hi % 16 && lo == lo / 16 * 16 + lo % 16;
  }

  lemma AsciiReads(b: Byte, rest: Bytes)
    requires b < 0x80
    ensures var e := EscapedAscii(b);
            (e + rest)[0] != QUOTE && ReadCharacter(e + rest) == Some(([b], |e|))
  {
    var e := EscapedAscii(b);
    if |e| == 6 {
      EscapeReads(0, b, rest);
    } else if |e| == 1 {
      assert (e + rest)[..1] == [b];
    }
  }

  /** What the escaper writes for one character reads as that character, repaired. */
  lemma StepReads(s: Bytes, rest: Bytes)
    requires s != []
    ensures var step := Step(s);
            && step.0 == RepairedHead(s).1 && (step.1 + rest)[0] != QUOTE
            && ReadCharacter(step.1 + rest) == Some((RepairedHead(s).0, |step.1|))
  {
    if s[0] < 0x80 {
      AsciiReads(s[0], rest);
      assert s[..1] == [s[0]];
    } else {
      TableIsArithmetic(s);
      var n := Sequence(s);
      if n == 0 {
        EscapeReads(0xFF, 0xFD, rest);
      } else if Step(s).1 == s[..n] {
        CopyReads(s, rest);
      } else {
        EscapeReads(0x20, s[2] - 0x80, rest);
        assert s[..3] == [0xE2, 0x80, s[2]];
      }
    }
  }

  lemma CopyReads(s: Bytes, rest: Bytes)
    requires s != [] && Sequence(s) > 0
    ensures Sequence(s[..Sequence(s)] + rest) == Sequence(s)
    ensures (s[..Sequence(s)] + rest)[..Sequence(s)] == s[..Sequence(s)]
  {
  }

  lemma {:induction false} EscapedReads(s: Bytes, rest: Bytes)
    ensures ReadCharacters(Escaped(s) + ([QUOTE] + rest)) == Some((Repaired(s), rest))
    decreases |s|
  {
    if s == [] {
      assert Escaped(s) + ([QUOTE] + rest) == [QUOTE] + rest;
    } else {
      var step := Step(s);
      var more := Escaped(s[step.0..]) + ([QUOTE] + rest);
      assert Escaped(s) + ([QUOTE] + rest) == step.1 + more;
      StepReads(s, more);
      assert (step.1 + more)[|step.1|..] == more;
      EscapedReads(s[step.0..], rest);
    }
  }

  /** The text of a string, whatever follows it, reads back as the string with malformed bytes repaired, and
      the first unescaped quote after the opening one is its last byte. */
  lemma {:induction false} StringReads(s: Bytes, rest: Bytes)
    ensures ReadString(StringText(s) + rest) == Some((Repaired(s), rest))
    ensures ValidUtf8(s) ==> Repaired(s) == s
  {
    EscapedReads(s, rest);
    QuotedReads(Escaped(s), rest);
    ValidStays(s);
  }

  lemma {:induction false} QuotedReads(inner: Bytes, rest: Bytes)
    ensures ReadString([QUOTE] + inner + [QUOTE] + rest) == ReadCharacters(inner + ([QUOTE] + rest))
  {
    assert ([QUOTE] + inner + [QUOTE] + rest)[1..] == inner + ([QUOTE] + rest);
  }

  lemma {:induction false} ValidStays(s: Bytes)
    ensures ValidUtf8(s) ==> Repaired(s) == s
  {
    if ValidUtf8(s) {
      var cs :| Scalars(cs) && Utf8Text(cs) == s;
      ValidIsUnrepaired(cs);
    }
  }

  /** The bytes a text may hold: no control characters, and none of the characters that HTML could read. */
  predicate Harmless(b: Byte) {
    b >= 0x20 && b != 0x3C && b != 0x3E && b != 0x26
  }

  lemma StepHarmless(s: Bytes)
    requires s != []
    ensures forall b | b in Step(s).1 :: Harmless(b)
  {
    if s[0] >= 0x80 && MultibyteLength(s) > 0 {
      forall i | 0 <= i < MultibyteLength(s) ensures s[i] >= 0x80 {
      }
    }
  }

  /** No control character, no angle bracket and no ampersand is ever written inside a string. */
  lemma {:induction false} StringHarmless(s: Bytes)
    ensures forall b | b in Escaped(s) :: Harmless(b)
    decreases |s|
  {
    if s != [] {
      StepHarmless(s);
      StringHarmless(s[Step(s).0..]);
    }
  }

  /** The bytes written for a character: two for a quote, a backslash and the named control characters, six for other
      control characters, for what HTML or JavaScript could misread, and else the character itself. */
  function WrittenLength(c: int): nat
    requires Scalar(c)
  {
    if c in {0x22, 0x5C, 0x08, 0x09, 0x0A, 0x0C, 0x0D} then 2
    else if c < 0x20 || c in {0x3C, 0x3E, 0x26, 0x2028, 0x2029} then 6
    else |Utf8(c)|
  }

  function WrittenLengths(cs: seq<int>): nat
    requires Scalars(cs)
  {
    if cs == [] then 0 else WrittenLength(cs[0]) + WrittenLengths(cs[1..])
  }

  lemma CharacterLength(c: int, rest: Bytes)
    requires Scalar(c)
    ensures Step(Utf8(c) + rest).0 == |Utf8(c)| && |Step(Utf8(c) + rest).1| == WrittenLength(c)
  {
    var s := Utf8(c) + rest;
    ScalarStarts(c, rest);
    if c >= 0x80 {
      TableIsArithmetic(s);
      assert s[..|Utf8(c)|] == Utf8(c);
      SeparatorBytes(c);
    }
  }

  lemma SeparatorBytes(c: int)
    requires Scalar(c)
    ensures c in {0x2028, 0x2029} <==> Utf8(c) == [0xE2, 0x80, 0xA8] || Utf8(c) == [0xE2, 0x80, 0xA9]
  {
    if c >= 0x80 { Unpacks(c); }
  }

  /** The exact length of the text of every valid string. */
  lemma {:induction false} TextLength(cs: seq<int>)
    requires Scalars(cs)
    ensures |StringText(Utf8Text(cs))| == WrittenLengths(cs) + 2
  {
    if cs != [] {
      CharacterLength(cs[0], Utf8Text(cs[1..]));
      assert (Utf8(cs[0]) + Utf8Text(cs[1..]))[|Utf8(cs[0])|..] == Utf8Text(cs[1..]);
      TextLength(cs[1..]);
    }
  }

  // ---------------------------------------------------------------------------------
  // Numbers

  predicate Digit(b: Byte) {
    0x30 <= b <= 0x39
  }

  /** A text that does not prolong a number before it. */
  predicate Apart(t: Bytes) {
    t == [] || !Digit(t[0])
  }

  function ReadDigits(n: nat, t: Bytes): (r: (nat, Bytes))
    ensures |r.1| <= |t|
    decreases |t|
  {
    if Apart(t) then (n, t) else ReadDigits(n * 10 + (t[0] - 0x30), t[1..])
  }

  /** A natural number without leading zeros. */
  function ReadNat(t: Bytes): (r: Option<(nat, Bytes)>)
    ensures r.Some? ==> |r.value.1| < |t|
  {
    if Apart(t) then None
    else if t[0] == 0x30 then Some((0, t[1..]))
    else Some(ReadDigits(t[0] - 0x30, t[1..]))
  }

  function ReadInt(t: Bytes): (r: Option<(int, Bytes)>)
    ensures r.Some? ==> |r.value.1| < |t|
  {
    if t != [] && t[0] == 0x2D then
      var n := ReadNat(t[1..]);
      if n.None? then None else Some((0 - n.value.0 as int, n.value.1))
    else
      var n := ReadNat(t);
      if n.None? then None else Some((n.value.0 as int, n.value.1))
  }

  lemma {:induction false} DigitsRead(n: nat, rest: Bytes)
    requires n > 0
    ensures 0x31 <= Decimal(n)[0] <= 0x39
    ensures ReadDigits(0, Decimal(n) + rest) == ReadDigits(n, rest)
  {
    if n < 10 {
      assert (Decimal(n) + rest)[1..] == rest;
    } else {
      var last := [0x30 + n % 10];
      DigitsRead(n / 10, last + rest);
      assert Decimal(n) + rest == Decimal(n / 10) + (last + rest);
      assert (last + rest)[1..] == rest;
    }
  }

  /** The digits of a number read back as the number, without a leading zero. */
  lemma NatReads(n: nat, rest: Bytes)
    requires Apart(rest)
    ensures ReadNat(Decimal(n) + rest) == Some((n, rest))
  {
    var t := Decimal(n) + rest;
    if n == 0 {
      assert t[1..] == rest;
    } else {
      DigitsRead(n, rest);
      assert ReadDigits(0, t) == ReadDigits(t[0] - 0x30, t[1..]);
    }
  }

  /** A number reads back, and has a sign only below zero. */
  lemma IntReads(n: int, rest: Bytes)
    requires Apart(rest)
    ensures ReadInt(IntText(n) + rest) == Some((n, rest))
    ensures IntText(n)[0] == 0x2D <==> n < 0
  {
    if n < 0 {
      NatReads(-n, rest);
      SignReads(Decimal(-n), -n, rest);
    } else {
      NatReads(n, rest);
      DecimalStarts(n);
      UnsignedReads(Decimal(n), n, rest);
    }
  }

  lemma {:induction false} SignReads(digits: Bytes, n: nat, rest: Bytes)
    requires ReadNat(digits + rest) == Some((n, rest))
    ensures ReadInt([0x2D] + digits + rest) == Some((0 - n as int, rest))
  {
    assert ([0x2D] + digits + rest)[1..] == digits + rest;
  }

  lemma {:induction false} UnsignedReads(digits: Bytes, n: nat, rest: Bytes)
    requires digits != [] && Digit(digits[0]) && ReadNat(digits + rest) == Some((n, rest))
    ensures ReadInt(digits + rest) == Some((n, rest))
  {
    assert (digits + rest)[0] == digits[0];
  }

  lemma {:induction false} DecimalStarts(n: nat)
    ensures Digit(Decimal(n)[0])
  {
    if n >= 10 { DecimalStarts(n / 10); }
  }

  // ---------------------------------------------------------------------------------
  // Values

  datatype Tree =
    | NullTree
    | BoolTree(flag: bool)
    | IntTree(n: int)
    | TextTree(text: Bytes)
    | ListTree(items: seq<Tree>)
    | ObjectTree(members: seq<(Bytes, Tree)>)

  /** What follows a literal, if the text starts with it. */
  function AfterLiteral(t: Bytes, literal: string, tree: Tree): (r: Option<(Tree, Bytes)>)
    requires literal != ""
    ensures r.Some? ==> |r.value.1| < |t|
  {
    if Ascii(literal) <= t then Some((tree, t[|literal|..])) else None
  }

  function ReadValue(t: Bytes): (r: Option<(Tree, Bytes)>)
    ensures r.Some? ==> |r.value.1| < |t|
    decreases |t|, 1
  {
    if t == [] then None
    else if t[0] == 0x6E then AfterLiteral(t, "null", NullTree)
    else if t[0] == 0x74 then AfterLiteral(t, "true", BoolTree(true))
    else if t[0] == 0x66 then AfterLiteral(t, "false", BoolTree(false))
    else if t[0] == QUOTE then
      var s := ReadString(t);
      if s.None? then None else Some((TextTree(s.value.0), s.value.1))
    else if t[0] == 0x5B then
      if |t| > 1 && t[1] == 0x5D then Some((ListTree([]), t[2..]))
      else
        var items := ReadItems(t[1..]);
        if items.None? then None else Some((ListTree(items.value.0), items.value.1))
    else if t[0] == 0x7B then
      if |t| > 1 && t[1] == 0x7D then Some((ObjectTree([]), t[2..]))
      else
        var members := ReadMembers(t[1..]);
        if members.None? then None else Some((ObjectTree(members.value.0), members.value.1))
    else
      var n := ReadInt(t);
      if n.None? then None else Some((IntTree(n.value.0), n.value.1))
  }

  /** One or more items, separated by commas, up to the closing bracket. */
  function ReadItems(t: Bytes): (r: Option<(seq<Tree>, Bytes)>)
    ensures r.Some? ==> |r.value.1| < |t|
    decreases |t|, 2
  {
    var one := ReadValue(t);
    if one.None? || one.value.1 == [] then None
    else if one.value.1[0] == 0x5D then Some(([one.value.0], one.value.1[1..]))
    else if one.value.1[0] != 0x2C then None
    else
      var more := ReadItems(one.value.1[1..]);
      if more.None? then None else Some(([one.value.0] + more.value.0, more.value.1))
  }

  function ReadMember(t: Bytes): (r: Option<((Bytes, Tree), Bytes)>)
    ensures r.Some? ==> |r.value.1| < |t|
    decreases |t|, 2
  {
    var name := ReadString(t);
    if name.None? || name.value.1 == [] || name.value.1[0] != 0x3A then None
    else
      var value := ReadValue(name.value.1[1..]);
      if value.None? then None else Some(((name.value.0, value.value.0), value.value.1))
  }

  /** One or more members, separated by commas, up to the closing brace. */
  function ReadMembers(t: Bytes): (r: Option<(seq<(Bytes, Tree)>, Bytes)>)
    ensures r.Some? ==> |r.value.1| < |t|
    decreases |t|, 3
  {
    var one := ReadMember(t);
    if one.None? || one.value.1 == [] then None
    else if one.value.1[0] == 0x7D then Some(([one.value.0], one.value.1[1..]))
    else if one.value.1[0] != 0x2C then None
    else
      var more := ReadMembers(one.value.1[1..]);
      if more.None? then None else Some(([one.value.0] + more.value.0, more.value.1))
  }

  /** Whatever follows it, the text reads as the tree; a number must not be prolonged. */
  ghost predicate ReadsAs(text: Bytes, tree: Tree) {
    forall rest: Bytes | Apart(rest) :: ReadValue(text + rest) == Some((tree, rest))
  }

  ghost predicate MemberReadsAs(text: Bytes, member: (Bytes, Tree)) {
    forall rest: Bytes | Apart(rest) :: ReadMember(text + rest) == Some((member, rest))
  }

  lemma LiteralReads(literal: string, tree: Tree, rest: Bytes)
    requires literal != ""
    ensures AfterLiteral(Ascii(literal) + rest, literal, tree) == Some((tree, rest))
  {
  }

  lemma ConstantsRead()
    ensures ReadsAs(Null, NullTree) && ReadsAs(TrueText, BoolTree(true)) && ReadsAs(FalseText, BoolTree(false))
  {
    assert Ascii("null") == Null && Ascii("true") == TrueText && Ascii("false") == FalseText;
    forall rest: Bytes
      ensures ReadValue(Null + rest) == Some((NullTree, rest))
      ensures ReadValue(TrueText + rest) == Some((BoolTree(true), rest))
      ensures ReadValue(FalseText + rest) == Some((BoolTree(false), rest))
    {
      LiteralReads("null", NullTree, rest);
      LiteralReads("true", BoolTree(true), rest);
      LiteralReads("false", BoolTree(false), rest);
    }
  }

  lemma TextReads(s: Bytes)
    ensures ReadsAs(StringText(s), TextTree(Repaired(s)))
  {
    forall rest: Bytes ensures ReadValue(StringText(s) + rest) == Some((TextTree(Repaired(s)), rest)) {
      StringReads(s, rest);
    }
  }

  lemma NumberReads(n: int)
    ensures ReadsAs(IntText(n), IntTree(n))
  {
    forall rest: Bytes | Apart(rest) ensures ReadValue(IntText(n) + rest) == Some((IntTree(n), rest)) {
      IntReads(n, rest);
      if n >= 0 { DecimalStarts(n); }
    }
  }

  lemma JoinSplits(texts: seq<Bytes>, tail: Bytes)
    requires |texts| > 1
    ensures Join(texts) + tail == texts[0] + ([0x2C] + (Join(texts[1..]) + tail))
  {
  }

  lemma ItemThenItems(text: Bytes, tree: Tree, more: Bytes, trees: seq<Tree>, rest: Bytes)
    requires ReadsAs(text, tree) && ReadItems(more) == Some((trees, rest))
    ensures ReadItems(text + ([0x2C] + more)) == Some(([tree] + trees, rest))
  {
    assert ReadValue(text + ([0x2C] + more)) == Some((tree, [0x2C] + more));
    assert ([0x2C] + more)[1..] == more;
  }

  lemma LastItem(text: Bytes, tree: Tree, rest: Bytes)
    requires ReadsAs(text, tree)
    ensures ReadItems(text + ([0x5D] + rest)) == Some(([tree], rest))
  {
    assert ReadValue(text + ([0x5D] + rest)) == Some((tree, [0x5D] + rest));
    assert ([0x5D] + rest)[1..] == rest;
  }

  lemma {:induction false} ItemsRead(texts: seq<Bytes>, trees: seq<Tree>, rest: Bytes)
    requires |texts| == |trees| > 0 && forall i | 0 <= i < |texts| :: ReadsAs(texts[i], trees[i])
    ensures ReadItems(Join(texts) + ([0x5D] + rest)) == Some((trees, rest))
    decreases |texts|
  {
    if |texts| == 1 {
      LastItem(texts[0], trees[0], rest);
      assert trees == [trees[0]];
    } else {
      var more := Join(texts[1..]) + ([0x5D] + rest);
      JoinSplits(texts, [0x5D] + rest);
      ItemsRead(texts[1..], trees[1..], rest);
      ItemThenItems(texts[0], trees[0], more, trees[1..], rest);
      assert trees == [trees[0]] + trees[1..];
    }
  }

  lemma MemberThenMembers(text: Bytes, member: (Bytes, Tree), more: Bytes, members: seq<(Bytes, Tree)>, rest: Bytes)
    requires MemberReadsAs(text, member) && ReadMembers(more) == Some((members, rest))
    ensures ReadMembers(text + ([0x2C] + more)) == Some(([member] + members, rest))
  {
    assert ReadMember(text + ([0x2C] + more)) == Some((member, [0x2C] + more));
    assert ([0x2C] + more)[1..] == more;
  }

  lemma LastMember(text: Bytes, member: (Bytes, Tree), rest: Bytes)
    requires MemberReadsAs(text, member)
    ensures ReadMembers(text + ([0x7D] + rest)) == Some(([member], rest))
  {
    assert ReadMember(text + ([0x7D] + rest)) == Some((member, [0x7D] + rest));
    assert ([0x7D] + rest)[1..] == rest;
  }

  lemma {:induction false} MembersRead(texts: seq<Bytes>, members: seq<(Bytes, Tree)>, rest: Bytes)
    requires |texts| == |members| > 0 && forall i | 0 <= i < |texts| :: MemberReadsAs(texts[i], members[i])
    ensures ReadMembers(Join(texts) + ([0x7D] + rest)) == Some((members, rest))
    decreases |texts|
  {
    if |texts| == 1 {
      LastMember(texts[0], members[0], rest);
      assert members == [members[0]];
    } else {
      var more := Join(texts[1..]) + ([0x7D] + rest);
      JoinSplits(texts, [0x7D] + rest);
      MembersRead(texts[1..], members[1..], rest);
      MemberThenMembers(texts[0], members[0], more, members[1..], rest);
      assert members == [members[0]] + members[1..];
    }
  }

  lemma {:induction false} MemberReads(name: Bytes, value: Bytes, tree: Tree)
    requires ReadsAs(value, tree)
    ensures MemberReadsAs(StringText(name) + [0x3A] + value, (Repaired(name), tree))
  {
    forall rest: Bytes | Apart(rest)
      ensures ReadMember(StringText(name) + [0x3A] + value + rest) == Some(((Repaired(name), tree), rest))
    {
      assert StringText(name) + [0x3A] + value + rest == StringText(name) + ([0x3A] + (value + rest));
      OneMemberReads(name, value + rest, tree, rest);
    }
  }

  lemma {:induction false} OneMemberReads(name: Bytes, text: Bytes, tree: Tree, rest: Bytes)
    requires ReadValue(text) == Some((tree, rest))
    ensures ReadMember(StringText(name) + ([0x3A] + text)) == Some(((Repaired(name), tree), rest))
  {
    StringReads(name, [0x3A] + text);
    assert ([0x3A] + text)[1..] == text;
  }
}
