/** The impact query on the wire: characters as UTF-8, reserved bytes as percent triplets, pairs joined by ampersands. A
    reader written on its own gives back what was written, and the lengths the model counts are those of the text. */
module QueryWire {
  import opened Options
  import opened Json
  import opened JsonReader
  import Q = ImpactQuery

  const PERCENT: Byte := 0x25
  const AMPERSAND: Byte := 0x26
  const PLUS: Byte := 0x2B
  const SEMICOLON: Byte := 0x3B
  const EQUALS: Byte := 0x3D
  const BLANK: Byte := 0x20

  // ---------------------------------------------------------------------------------
  // Characters

  function Encoded(s: string): Bytes {
    if s == [] then [] else Encoded(s[..|s| - 1]) + Utf8(s[|s| - 1] as int)
  }

  /** The bytes a segment is measured by are those of its UTF-8 text. */
  lemma {:induction false} BytesAreUtf8(s: string)
    ensures Q.ByteLength(s) == |Encoded(s)|
  {
    if s != [] { BytesAreUtf8(s[..|s| - 1]); }
  }

  /** A blank or control character, by code point. */
  predicate Invisible(c: int) {
    || 0x00 <= c < 0x21 || 0x7F <= c < 0xA1 || c in {0x1680, 0x2028, 0x2029, 0x202F, 0x205F, 0x3000}
    || 0x2000 <= c < 0x200B
  }

  predicate MayOccur(c: char, colon: bool) {
    c !in "/\\" && (c == ':' ==> colon) && !Invisible(c as int)
  }

  /** A segment is valid exactly when it has between 1 and 253 bytes of UTF-8, no separator, a colon only where one may
      be, and nothing invisible; a client also refuses the two names a path would resolve away. */
  lemma SegmentsSpelledOut(s: string, colon: bool)
    ensures Q.ValidSegment(s, colon) <==> 1 <= |Encoded(s)| <= 253 && forall c | c in s :: MayOccur(c, colon)
    ensures Q.ClientSegment(s, colon) <==> Q.ValidSegment(s, colon) && s !in {".", ".."}
  {
    BytesAreUtf8(s);
    assert s == [] <==> |Encoded(s)| == 0 by { if s != [] { assert |Utf8(s[|s| - 1] as int)| >= 1; } }
    assert forall c: char :: Invisible(c as int) <==> Q.Control(c) || Q.Space(c);
    if Q.Printable(s) {
      forall c | c in s ensures !Invisible(c as int) { }
    }
    if forall c | c in s :: MayOccur(c, colon) {
      forall i | 0 <= i < |s| ensures !Q.Control(s[i]) && !Q.Space(s[i]) { assert MayOccur(s[i], colon); }
      assert '/' !in s && '\\' !in s && (colon || ':' !in s);
    }
  }

  // ---------------------------------------------------------------------------------
  // Escaping

  /** Letters, digits and four marks stand for themselves. */
  predicate Unreserved(b: Byte) {
    0x41 <= b <= 0x5A || 0x61 <= b <= 0x7A || 0x30 <= b <= 0x39 || b in {0x2D, 0x2E, 0x5F, 0x7E}
  }

  function UpperHex(n: int): Byte
    requires 0 <= n < 16
  {
    if n < 10 then 0x30 + n else 0x37 + n
  }

  /** url.QueryEscape of one byte. */
  function EscapeByte(b: Byte): Bytes {
    if Unreserved(b) then [b] else if b == BLANK then [PLUS]
    else [PERCENT, UpperHex(b as int / 16), UpperHex(b as int % 16)]
  }

  function Escape(bs: Bytes): Bytes {
    if bs == [] then [] else EscapeByte(bs[0]) + Escape(bs[1..])
  }

  /** The value of a hexadecimal digit of either case. */
  function HexDigit(b: Byte): Option<int> {
    if 0x30 <= b <= 0x39 then Some(b as int - 0x30)
    else if 0x41 <= b <= 0x46 then Some(b as int - 0x37)
    else if 0x61 <= b <= 0x66 then Some(b as int - 0x57)
    else None
  }

  /** The first byte an escaped text stands for, and the text after it. */
  function UnescapeHead(t: Bytes): Option<(Byte, Bytes)>
    requires t != []
    ensures UnescapeHead(t).Some? ==> |UnescapeHead(t).value.1| < |t|
  {
    if t[0] == PLUS then Some((BLANK, t[1..]))
    else if t[0] != PERCENT then Some((t[0], t[1..]))
    else if |t| < 3 || HexDigit(t[1]).None? || HexDigit(t[2]).None? then None
    else Some((16 * HexDigit(t[1]).value + HexDigit(t[2]).value, t[3..]))
  }

  /** url.QueryUnescape */
  function Unescape(t: Bytes): Option<Bytes>
    decreases |t|
  {
    if t == [] then Some([])
    else match UnescapeHead(t)
         case None => None
         case Some(head) =>
           match Unescape(head.1)
           case None => None
           case Some(rest) => Some([head.0] + rest)
  }

  lemma HexReads(n: int)
    requires 0 <= n < 16
    ensures HexDigit(UpperHex(n)) == Some(n) && UpperHex(n) !in {AMPERSAND, EQUALS, SEMICOLON, PERCENT, PLUS}
  {
  }

  lemma HeadReads(b: Byte, rest: Bytes)
    ensures EscapeByte(b) != [] && UnescapeHead(EscapeByte(b) + rest) == Some((b, rest))
    ensures AMPERSAND !in EscapeByte(b) && EQUALS !in EscapeByte(b) && SEMICOLON !in EscapeByte(b)
  {
    HexReads(b as int / 16);
    HexReads(b as int % 16);
    assert 16 * (b as int / 16) + b as int % 16 == b;
    assert (EscapeByte(b) + rest)[|EscapeByte(b)|..] == rest;
  }

  /** What is escaped reads back, and holds no separator. */
  lemma {:induction false} EscapeReads(bs: Bytes)
    ensures Unescape(Escape(bs)) == Some(bs)
    ensures AMPERSAND !in Escape(bs) && EQUALS !in Escape(bs) && SEMICOLON !in Escape(bs)
  {
    if bs != [] {
      HeadReads(bs[0], Escape(bs[1..]));
      EscapeReads(bs[1..]);
      assert bs == [bs[0]] + bs[1..];
    }
  }

  lemma {:induction false} EscapeAppend(a: Bytes, b: Bytes)
    ensures Escape(a + b) == Escape(a) + Escape(b)
  {
    if a == [] {
      assert a + b == b;
    } else {
      assert (a + b)[1..] == a[1..] + b;
      EscapeAppend(a[1..], b);
    }
  }

  lemma EscapeMany(bs: Bytes)
    requires 1 <= |bs| <= 4 && forall i | 0 <= i < |bs| :: !Unreserved(bs[i]) && bs[i] != BLANK
    ensures |Escape(bs)| == 3 * |bs|
    decreases |bs|
  {
    if |bs| == 1 {
      assert Escape(bs[1..]) == [];
    } else {
      EscapeMany(bs[1..]);
    }
  }

  lemma CharacterEscaped(c: char)
    ensures |Escape(Utf8(c as int))| == Q.EscapedWidth(c)
  {
    var u := Utf8(c as int);
    if c as int < 0x80 {
      assert u == [c as int] && u[1..] == [];
      assert Escape(u) == EscapeByte(u[0]) + Escape([]);
    } else {
      EscapeMany(u);
    }
  }

  /** The width the model counts for a text is the length of its escaped UTF-8. */
  lemma {:induction false} EscapedText(s: string)
    ensures |Escape(Encoded(s))| == Q.EscapedLength(s)
  {
    if s != [] {
      EscapedText(s[..|s| - 1]);
      CharacterEscaped(s[|s| - 1]);
      EscapeAppend(Encoded(s[..|s| - 1]), Utf8(s[|s| - 1] as int));
    }
  }

  // ---------------------------------------------------------------------------------
  // Pairs

  datatype WirePair = WirePair(key: Bytes, value: Bytes)

  function OnWire(pairs: seq<Q.KeyValue>): seq<WirePair> {
    seq(|pairs|, i requires 0 <= i < |pairs| => WirePair(Encoded(pairs[i].key), Encoded(pairs[i].value)))
  }

  function PairText(p: WirePair): Bytes {
    Escape(p.key) + [EQUALS] + Escape(p.value)
  }

  /** url.Values.Encode, for keys already in order. */
  function QueryText(pairs: seq<WirePair>): Bytes {
    if pairs == [] then []
    else if |pairs| == 1 then PairText(pairs[0])
    else PairText(pairs[0]) + [AMPERSAND] + QueryText(pairs[1..])
  }

  /** The text before the first mark, and the text after it. */
  function CutAt(t: Bytes, mark: Byte): (r: (Bytes, Bytes))
    ensures t != [] ==> |r.1| < |t|
    ensures t == [] ==> r == ([], [])
  {
    if t == [] then ([], [])
    else if t[0] == mark then ([], t[1..])
    else
      var r := CutAt(t[1..], mark);
      ([t[0]] + r.0, r.1)
  }

  /** One piece between ampersands; a piece without an equals sign is a key with no value. */
  function ReadPair(piece: Bytes): Option<WirePair> {
    if SEMICOLON in piece then None
    else
      var (k, v) := CutAt(piece, EQUALS);
      match Unescape(k)
      case None => None
      case Some(key) =>
        match Unescape(v)
        case None => None
        case Some(value) => Some(WirePair(key, value))
  }

  /** url.ParseQuery as the handler uses it: any piece that cannot be read fails the query; empty pieces are skipped. */
  function ReadQuery(t: Bytes): Option<seq<WirePair>>
    decreases |t|
  {
    if t == [] then Some([])
    else
      var (piece, rest) := CutAt(t, AMPERSAND);
      match ReadQuery(rest)
      case None => None
      case Some(pairs) =>
        if piece == [] then Some(pairs)
        else match ReadPair(piece)
             case None => None
             case Some(p) => Some([p] + pairs)
  }

  lemma {:induction false} CutMarked(a: Bytes, mark: Byte, b: Bytes)
    requires mark !in a
    ensures CutAt(a + [mark] + b, mark) == (a, b)
  {
    var t := a + [mark] + b;
    if a == [] {
      assert t[1..] == b;
    } else {
      assert t[1..] == a[1..] + [mark] + b && a == [a[0]] + a[1..];
      CutMarked(a[1..], mark, b);
    }
  }

  lemma {:induction false} CutUnmarked(a: Bytes, mark: Byte)
    requires mark !in a
    ensures CutAt(a, mark) == (a, [])
  {
    if a != [] {
      CutUnmarked(a[1..], mark);
      assert a == [a[0]] + a[1..];
    }
  }

  lemma PairReads(p: WirePair)
    ensures ReadPair(PairText(p)) == Some(p) && AMPERSAND !in PairText(p) && PairText(p) != []
  {
    EscapeReads(p.key);
    EscapeReads(p.value);
    CutMarked(Escape(p.key), EQUALS, Escape(p.value));
  }

  /** Whatever its keys and values hold, a query reads back as the pairs it was written from. */
  lemma {:induction false} QueryReads(pairs: seq<WirePair>)
    ensures ReadQuery(QueryText(pairs)) == Some(pairs)
  {
    if pairs != [] {
      var text := PairText(pairs[0]);
      PairReads(pairs[0]);
      if |pairs| == 1 {
        CutUnmarked(text, AMPERSAND);
        var none: Bytes := [];
        assert ReadQuery(none) == Some([]) && pairs == [pairs[0]] + [];
      } else {
        CutMarked(text, AMPERSAND, QueryText(pairs[1..]));
        QueryReads(pairs[1..]);
        assert pairs == [pairs[0]] + pairs[1..];
      }
    }
  }

  lemma {:induction false} QueryTextAppend(pairs: seq<WirePair>, p: WirePair)
    ensures QueryText(pairs + [p]) == if pairs == [] then PairText(p) else QueryText(pairs) + [AMPERSAND] + PairText(p)
  {
    if pairs == [] {
      assert pairs + [p] == [p];
    } else {
      assert (pairs + [p])[1..] == pairs[1..] + [p];
      QueryTextAppend(pairs[1..], p);
    }
  }

  lemma {:induction false} PairLength(p: Q.KeyValue)
    ensures |PairText(WirePair(Encoded(p.key), Encoded(p.value)))|
            == Q.EscapedLength(p.key) + 1 + Q.EscapedLength(p.value)
  {
    EscapedText(p.key);
    EscapedText(p.value);
  }

  lemma {:induction false} OnWireLast(pairs: seq<Q.KeyValue>)
    requires pairs != []
    ensures var p := pairs[|pairs| - 1];
            OnWire(pairs) == OnWire(pairs[..|pairs| - 1]) + [WirePair(Encoded(p.key), Encoded(p.value))]
  {
  }

  lemma {:induction false} OneMoreLength(a: nat, b: nat, text: Bytes, pairs: seq<WirePair>, p: WirePair)
    requires |QueryText(pairs)| == a && |PairText(p)| == b && text == QueryText(pairs + [p])
    ensures |text| == if pairs == [] then b else a + 1 + b
  {
    QueryTextAppend(pairs, p);
  }

  lemma {:induction false} QueryLength(pairs: seq<Q.KeyValue>)
    ensures |QueryText(OnWire(pairs))| == Q.EncodedLength(pairs)
  {
    if pairs != [] {
      var n := |pairs| - 1;
      var p := WirePair(Encoded(pairs[n].key), Encoded(pairs[n].value));
      QueryLength(pairs[..n]);
      OnWireLast(pairs);
      PairLength(pairs[n]);
      OneMoreLength(Q.EncodedLength(pairs[..n]), |PairText(p)|, QueryText(OnWire(pairs)), OnWire(pairs[..n]), p);
      assert |OnWire(pairs[..n])| == n;
    }
  }

  /** The query a client prints has, on the wire, the length the server is shown, which is within the server's limit,
      and reads back as the pairs the server is given. */
  lemma PrintedOnTheWire(q: Q.Query)
    requires Q.Validate(q)
    ensures var r := Q.Printed(q);
            && r.query.Some? && r.rawLength == |QueryText(OnWire(r.query.value))| <= 8192
            && ReadQuery(QueryText(OnWire(r.query.value))) == Some(OnWire(r.query.value))
  {
    Q.PrintedIsShort(q);
    QueryLength(Q.Pairs(q));
    QueryReads(OnWire(Q.Pairs(q)));
  }

  // ---------------------------------------------------------------------------------
  // Keys

  ghost predicate Occurs(pairs: seq<Q.KeyValue>, k: string) {
    exists i | 0 <= i < |pairs| :: pairs[i].key == k
  }

  lemma {:induction false} KeysOccur(pairs: seq<Q.KeyValue>, k: string)
    ensures k in Q.Values(pairs) <==> Occurs(pairs, k)
    ensures k in Q.Values(pairs) ==> |Q.Values(pairs)[k]| > 0
  {
    if pairs != [] {
      var n := |pairs| - 1;
      KeysOccur(pairs[..n], k);
      if Occurs(pairs[..n], k) {
        var i :| 0 <= i < n && pairs[..n][i].key == k;
        assert pairs[i].key == k;
      }
      if Occurs(pairs, k) && pairs[n].key != k {
        var i :| 0 <= i < |pairs| && pairs[i].key == k;
        assert pairs[..n][i].key == k;
      }
    }
  }

  /** Each pair has one of the five keys and a value, and no key occurs twice. */
  ghost predicate OnceEach(pairs: seq<Q.KeyValue>) {
    && (forall i | 0 <= i < |pairs| ::
          pairs[i].value != "" && pairs[i].key in {"cluster", "relation", "max_depth", "limit", "expected_uid"})
    && forall i, j | 0 <= i < j < |pairs| :: pairs[i].key != pairs[j].key
  }

  lemma OnceEachMore(pairs: seq<Q.KeyValue>)
    requires pairs != []
    ensures var n, p := |pairs| - 1, pairs[|pairs| - 1];
            OnceEach(pairs) <==>
              OnceEach(pairs[..n]) && !Occurs(pairs[..n], p.key) && p.value != "" && Q.KnownKey(p.key)
  {
    var n := |pairs| - 1;
    assert pairs == pairs[..n] + [pairs[n]];
    if Occurs(pairs[..n], pairs[n].key) {
      var i :| 0 <= i < n && pairs[..n][i].key == pairs[n].key;
      assert pairs[i].key == pairs[n].key;
    }
  }

  /** The server takes the keys of a query exactly when each is one of the five, has a value, and occurs once. */
  lemma {:induction false} KeysSpelledOut(pairs: seq<Q.KeyValue>)
    ensures Q.WellKeyed(Q.Values(pairs)) <==> OnceEach(pairs)
  {
    if pairs != [] {
      var n, p := |pairs| - 1, pairs[|pairs| - 1];
      var before, after := Q.Values(pairs[..n]), Q.Values(pairs);
      KeysSpelledOut(pairs[..n]);
      KeysOccur(pairs[..n], p.key);
      OnceEachMore(pairs);
      if p.key in before {
        assert |after[p.key]| >= 2;
      } else {
        assert after == before[p.key := [] + [p.value]] && [] + [p.value] == [p.value];
        if Q.WellKeyed(after) {
          forall k | k in before ensures Q.KnownKey(k) && |before[k]| == 1 && before[k][0] != "" {
            assert after[k] == before[k];
          }
        }
      }
    }
  }
}
