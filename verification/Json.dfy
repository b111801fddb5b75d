/** JSON text as Go's encoding/json writes it (section 7 of RFC 8259, plus the escapes Go adds
    for HTML and for the JavaScript line separators). Text is a sequence of bytes. */
module Json {
  type Byte = x: int | 0 <= x < 256
  type Bytes = seq<Byte>

  const QUOTE: Byte := 0x22
  const BACKSLASH: Byte := 0x5C

  const Null: Bytes := [0x6E, 0x75, 0x6C, 0x6C]
  const TrueText: Bytes := [0x74, 0x72, 0x75, 0x65]
  const FalseText: Bytes := [0x66, 0x61, 0x6C, 0x73, 0x65]

  /** An ASCII literal as bytes. */
  function Ascii(s: string): (r: Bytes)
    ensures |r| == |s|
  {
    seq(|s|, i requires 0 <= i < |s| => (s[i] as int) % 256)
  }

  predicate Continuation(b: Byte) {
    0x80 <= b <= 0xBF
  }

  /** The length of the UTF-8 sequence a byte string of two or more bytes starts with, 0 if malformed
      (Table 3-7 of the Unicode standard, section 3.9). */
  function MultibyteLength(s: Bytes): (n: nat)
    ensures n <= |s| && n <= 4 && n != 1
  {
    if |s| < 2 then 0
    else if 0xC2 <= s[0] <= 0xDF && Continuation(s[1]) then 2
    else if |s| < 3 then 0
    else if 0xE0 <= s[0] <= 0xEF && Continuation(s[1]) && Continuation(s[2])
            && (s[0] == 0xE0 ==> s[1] >= 0xA0) && (s[0] == 0xED ==> s[1] <= 0x9F) then 3
    else if |s| < 4 then 0
    else if 0xF0 <= s[0] <= 0xF4 && Continuation(s[1]) && Continuation(s[2]) && Continuation(s[3])
            && (s[0] == 0xF0 ==> s[1] >= 0x90) && (s[0] == 0xF4 ==> s[1] <= 0x8F) then 4
    else 0
  }

  function Hex(d: nat): Byte
    requires d < 16
  {
    if d < 10 then 0x30 + d else 0x57 + d
  }

  function UnicodeEscape(hi: Byte, lo: Byte): (r: Bytes)
    ensures |r| == 6
  {
    [BACKSLASH, 0x75, Hex(hi / 16), Hex(hi % 16), Hex(lo / 16), Hex(lo % 16)]
  }

  function EscapedAscii(b: Byte): (r: Bytes)
    requires b < 0x80
    ensures 1 <= |r| <= 6
  {
    if b == QUOTE || b == BACKSLASH then [BACKSLASH, b]
    else if b == 0x08 then [BACKSLASH, 0x62]
    else if b == 0x0C then [BACKSLASH, 0x66]
    else if b == 0x0A then [BACKSLASH, 0x6E]
    else if b == 0x0D then [BACKSLASH, 0x72]
    else if b == 0x09 then [BACKSLASH, 0x74]
    else if b < 0x20 || b == 0x3C || b == 0x3E || b == 0x26 then UnicodeEscape(0, b)
    else [b]
  }

  /** How many bytes the next step of the escaper consumes, and what it writes. */
  function Step(s: Bytes): (r: (nat, Bytes))
    requires s != []
    ensures 1 <= r.0 <= |s|
    ensures r.0 <= |r.1| <= 6 * r.0
  {
    if s[0] < 0x80 then (1, EscapedAscii(s[0]))
    else
      var n := MultibyteLength(s);
      if n == 0 then (1, UnicodeEscape(0xFF, 0xFD))
      else if n == 3 && s[0] == 0xE2 && s[1] == 0x80 && (s[2] == 0xA8 || s[2] == 0xA9) then
        (3, UnicodeEscape(0x20, s[2] - 0x80))
      else (n, s[..n])
  }

  /** The escaped contents of a string. Escaping never shrinks a string and grows it at most sixfold. */
  function Escaped(s: Bytes): (r: Bytes)
    ensures |s| <= |r| <= 6 * |s|
    decreases |s|
  {
    if s == [] then []
    else
      var step := Step(s);
      step.1 + Escaped(s[step.0..])
  }

  function StringText(s: Bytes): (r: Bytes)
    ensures |s| + 2 <= |r| <= 6 * |s| + 2
  {
    [QUOTE] + Escaped(s) + [QUOTE]
  }

  function Decimal(n: nat): (r: Bytes)
    ensures |r| >= 1
  {
    if n < 10 then [0x30 + n] else Decimal(n / 10) + [0x30 + n % 10]
  }

  function IntText(n: int): Bytes {
    if n < 0 then [0x2D] + Decimal(-n) else Decimal(n)
  }

  function Join(items: seq<Bytes>): Bytes {
    if items == [] then []
    else if |items| == 1 then items[0]
    else items[0] + [0x2C] + Join(items[1..])
  }

  function ListText(items: seq<Bytes>): Bytes {
    [0x5B] + Join(items) + [0x5D]
  }

  function ObjectText(members: seq<Bytes>): Bytes {
    [0x7B] + Join(members) + [0x7D]
  }

  function TotalLength(items: seq<Bytes>): nat {
    if items == [] then 0 else |items[0]| + TotalLength(items[1..])
  }

  /** Joining writes every item and one comma between neighbours. */
  lemma {:induction false} JoinLength(items: seq<Bytes>)
    ensures |Join(items)| == TotalLength(items) + if |items| == 0 then 0 else |items| - 1
  {
    if |items| > 1 { JoinLength(items[1..]); }
  }

  lemma {:induction false} TotalLengthAppends(a: seq<Bytes>, b: seq<Bytes>)
    ensures TotalLength(a + b) == TotalLength(a) + TotalLength(b)
  {
    if a == [] {
      assert a + b == b;
    } else {
      assert (a + b)[1..] == a[1..] + b;
      TotalLengthAppends(a[1..], b);
    }
  }
}
