/**
 * The impact query as the client prints it and as the server reads it. A request holds the decoded
 * path, the decoded key and value pairs in their order, and the length of the encoded query string;
 * QueryWire has the string itself. Percent-encoding of the path is left to the URL library.
 */
module ImpactQuery {

  import opened Options

  const MAX_DEPTH: int := 10
  const MAX_LIMIT: int := 1000
  const DEFAULT_DEPTH: int := 5
  const DEFAULT_LIMIT: int := 200
  const MAX_SEGMENT: nat := 253
  const MAX_QUERY: nat := 8192

  const DEPENDENTS := "dependents"
  const DEPENDENCIES := "dependencies"

  datatype Query = Query(namespace: string, kind: string, name: string, cluster: string, expectedUid: string,
                         relation: string, maxDepth: int, limit: int)

  datatype KeyValue = KeyValue(key: string, value: string)

  /** `path` is what follows the API prefix; `query` is None when the query string does not parse. */
  datatype Request = Request(path: string, rawLength: nat, query: Option<seq<KeyValue>>)

  datatype Root = Root(cluster: string, namespace: string, kind: string, name: string)

  datatype ImpactOptions = ImpactOptions(cluster: string, relation: string, maxDepth: int, limit: int,
                                         expectedUid: string)

  datatype Parsed = Parsed(root: Root, options: ImpactOptions)

  // ---------------------------------------------------------------------------------
  // Segments

  /** Bytes of a character in UTF-8. */
  function Width(c: char): nat {
    if c < 128 as char then 1 else if c < 2048 as char then 2 else if c < 65536 as char then 3 else 4
  }

  function ByteLength(s: string): nat {
    if s == [] then 0 else ByteLength(s[..|s| - 1]) + Width(s[|s| - 1])
  }

  predicate Control(c: char) {
    c < 32 as char || 127 as char <= c <= 159 as char
  }

  predicate Space(c: char) {
    || c == ' ' || '\t' <= c <= '\r' || c == 0x85 as char || c == 0xA0 as char || c == 0x1680 as char
    || 0x2000 as char <= c <= 0x200A as char || c == 0x2028 as char || c == 0x2029 as char
    || c == 0x202F as char || c == 0x205F as char || c == 0x3000 as char
  }

  predicate Printable(s: string) {
    forall i | 0 <= i < |s| :: !Control(s[i]) && !Space(s[i])
  }

  /** What both sides ask of a segment. */
  predicate ValidSegment(s: string, colon: bool) {
    s != "" && ByteLength(s) <= MAX_SEGMENT && '/' !in s && '\\' !in s && (colon || ':' !in s) && Printable(s)
  }

  predicate Dots(s: string) {
    s == "." || s == ".."
  }

  /** The client's own rule: no segment that a path would resolve away. */
  predicate ClientSegment(s: string, colon: bool) {
    ValidSegment(s, colon) && !Dots(s)
  }

  predicate KnownRelation(relation: string) {
    relation == DEPENDENTS || relation == DEPENDENCIES
  }

  /** Validate */
  predicate Validate(q: Query) {
    && ClientSegment(q.kind, false) && ClientSegment(q.name, true)
    && (q.namespace != "" ==> ClientSegment(q.namespace, false) && q.namespace != "_")
    && (q.cluster != "" ==> ClientSegment(q.cluster, false) && ',' !in q.cluster)
    && (q.expectedUid != "" ==> ClientSegment(q.expectedUid, true))
    && KnownRelation(q.relation)
    && 1 <= q.maxDepth <= MAX_DEPTH && 1 <= q.limit <= MAX_LIMIT
  }

  method CountBytes(s: string) returns (n: nat)
    ensures n == ByteLength(s)
  {
    n := 0;
    for i := 0 to |s|
      invariant n == ByteLength(s[..i])
    {
      assert s[..i + 1][..i] == s[..i];
      n := n + Width(s[i]);
    }
    assert s[..|s|] == s;
  }

  /** validImpactSegment */
  method CheckSegment(value: string, colon: bool) returns (ok: bool)
    ensures ok <==> ValidSegment(value, colon)
  {
    var n := CountBytes(value);
    if value == "" || n > MAX_SEGMENT || '/' in value || '\\' in value || (!colon && ':' in value) { return false; }
    for i := 0 to |value|
      invariant forall j | 0 <= j < i :: !Control(value[j]) && !Space(value[j])
    {
      if Control(value[i]) || Space(value[i]) { return false; }
    }
    return true;
  }

  // ---------------------------------------------------------------------------------
  // Numbers

  predicate Digit(c: char) {
    '0' <= c <= '9'
  }

  function DigitOf(n: nat): char
    requires n < 10
  {
    '0' + n as char
  }

  function ValueOf(c: char): nat
    requires Digit(c)
  {
    c as nat - '0' as nat
  }

  /** strconv.Itoa for a number that is not negative. */
  function Itoa(n: nat): (s: string)
    ensures s != "" && forall i | 0 <= i < |s| :: Digit(s[i])
  {
    if n < 10 then [DigitOf(n)] else Itoa(n / 10) + [DigitOf(n % 10)]
  }

  predicate AllDigits(s: string) {
    forall i | 0 <= i < |s| :: Digit(s[i])
  }

  function Digits(s: string): nat
    requires AllDigits(s)
  {
    if s == "" then 0 else 10 * Digits(s[..|s| - 1]) + ValueOf(s[|s| - 1])
  }

  /** strconv.Atoi: an optional sign and at least one digit, within 64 bits. */
  function Atoi(s: string): Option<int> {
    var body := if s != "" && (s[0] == '+' || s[0] == '-') then s[1..] else s;
    if body == "" || !AllDigits(body) then None
    else
      var n: int := if s[0] == '-' then 0 - Digits(body) else Digits(body);
      if -0x8000_0000_0000_0000 <= n < 0x8000_0000_0000_0000 then Some(n) else None
  }

  lemma {:induction false} DigitsOfItoa(n: nat)
    ensures Digits(Itoa(n)) == n
  {
    if n < 10 {
      assert Itoa(n)[..0] == "";
    } else {
      DigitsOfItoa(n / 10);
      assert Itoa(n)[..|Itoa(n)| - 1] == Itoa(n / 10);
    }
  }

  lemma AtoiOfItoa(n: nat)
    requires n < 0x8000_0000_0000_0000
    ensures Atoi(Itoa(n)) == Some(n)
  {
    DigitsOfItoa(n);
    assert Digit(Itoa(n)[0]);
  }

  lemma {:induction false} ItoaLength(n: nat)
    requires n < 10000
    ensures |Itoa(n)| <= 4
  {
    assert n / 10 < 1000 && n / 10 / 10 < 100 && n / 10 / 10 / 10 < 10;
    if n >= 10 {
      ItoaShorter(n / 10);
    }
  }

  lemma ItoaShorter(n: nat)
    requires n < 1000
    ensures |Itoa(n)| <= 3
  {
    if n >= 10 { assert |Itoa(n / 10)| <= 2; }
  }

  /** The value of a bound: absent for the default, else the canonical decimal of a number within it. */
  ghost predicate CanonicalBound(raw: string, max: int, n: int) {
    1 <= n <= max && raw == Itoa(n)
  }

  /** One turn of the loop over the two bounds. */
  method ParseBound(raw: Option<string>, fallback: int, max: int) returns (r: Option<int>)
    requires max < 0x8000_0000_0000_0000
    ensures raw.None? ==> r == Some(fallback)
    ensures raw.Some? ==> (r.Some? <==> exists n :: CanonicalBound(raw.value, max, n))
    ensures raw.Some? && r.Some? ==> CanonicalBound(raw.value, max, r.value)
  {
    if raw.None? { return Some(fallback); }
    var n := Atoi(raw.value);
    if n.None? || n.value < 1 || n.value > max || Itoa(n.value) != raw.value {
      forall k ensures !CanonicalBound(raw.value, max, k) {
        if 1 <= k <= max { AtoiOfItoa(k); }
      }
      return None;
    }
    assert CanonicalBound(raw.value, max, n.value);
    return n;
  }

  // ---------------------------------------------------------------------------------
  // What the client prints

  /** Bytes of a character in an encoded query. */
  function EscapedWidth(c: char): nat {
    if 'a' <= c <= 'z' || 'A' <= c <= 'Z' || Digit(c) || c == '-' || c == '_' || c == '.' || c == '~' || c == ' '
    then 1 else 3 * Width(c)
  }

  function EscapedLength(s: string): nat {
    if s == [] then 0 else EscapedLength(s[..|s| - 1]) + EscapedWidth(s[|s| - 1])
  }

  /** Keys and values joined by equals signs and ampersands. */
  function EncodedLength(pairs: seq<KeyValue>): nat {
    if pairs == [] then 0
    else
      var p := pairs[|pairs| - 1];
      var own := EscapedLength(p.key) + 1 + EscapedLength(p.value);
      if |pairs| == 1 then own else EncodedLength(pairs[..|pairs| - 1]) + 1 + own
  }

  function Optional(key: string, value: string): seq<KeyValue> {
    if value == "" then [] else [KeyValue(key, value)]
  }

  /** The encoder writes the keys in order. */
  function Pairs(q: Query): seq<KeyValue>
    requires q.maxDepth >= 0 && q.limit >= 0
  {
    Three(Two("cluster", q.cluster, "expected_uid", q.expectedUid),
          "limit", Itoa(q.limit), "max_depth", Itoa(q.maxDepth), "relation", q.relation)
  }

  function PathOf(q: Query): string {
    (if q.namespace == "" then "_" else q.namespace) + "/" + q.kind + "/" + q.name
  }

  /** requestURL, below the base of the server. */
  function Printed(q: Query): Request
    requires Validate(q)
  {
    Request(PathOf(q), EncodedLength(Pairs(q)), Some(Pairs(q)))
  }

  lemma {:induction false} EscapedAtMostThrice(s: string)
    ensures EscapedLength(s) <= 3 * ByteLength(s)
  {
    if s != [] { EscapedAtMostThrice(s[..|s| - 1]); }
  }

  lemma {:induction false} AsciiBytes(s: string)
    requires forall i | 0 <= i < |s| :: s[i] < 128 as char
    ensures ByteLength(s) == |s|
  {
    if s != [] { AsciiBytes(s[..|s| - 1]); }
  }

  lemma PairLength(pairs: seq<KeyValue>, p: KeyValue)
    ensures EncodedLength(pairs + [p]) <= EncodedLength(pairs) + 3 * ByteLength(p.key) + 3 * ByteLength(p.value) + 2
  {
    assert (pairs + [p])[..|pairs|] == pairs;
    EscapedAtMostThrice(p.key);
    EscapedAtMostThrice(p.value);
  }

  lemma OptionalLength(pairs: seq<KeyValue>, key: string, value: string)
    requires ByteLength(key) <= 12 && ByteLength(value) <= MAX_SEGMENT
    ensures EncodedLength(pairs + Optional(key, value)) <= EncodedLength(pairs) + 797
  {
    if value == "" {
      assert pairs + Optional(key, value) == pairs;
    } else {
      PairLength(pairs, KeyValue(key, value));
    }
  }

  lemma ShortWords()
    ensures ByteLength("cluster") == 7 && ByteLength("expected_uid") == 12 && ByteLength("limit") == 5
    ensures ByteLength("max_depth") == 9 && ByteLength("relation") == 8
    ensures ByteLength(DEPENDENTS) == 10 && ByteLength(DEPENDENCIES) == 12
  {
    AsciiBytes("cluster");
    AsciiBytes("expected_uid");
    AsciiBytes("limit");
    AsciiBytes("max_depth");
    AsciiBytes("relation");
    AsciiBytes(DEPENDENTS);
    AsciiBytes(DEPENDENCIES);
  }

  lemma NumberLength(pairs: seq<KeyValue>, key: string, n: nat)
    requires ByteLength(key) <= 12 && n <= 1000
    ensures EncodedLength(pairs + [KeyValue(key, Itoa(n))]) <= EncodedLength(pairs) + 50
  {
    ItoaLength(n);
    AsciiBytes(Itoa(n));
    PairLength(pairs, KeyValue(key, Itoa(n)));
  }

  /** Two optional pairs. */
  function Two(k1: string, v1: string, k2: string, v2: string): seq<KeyValue> {
    [] + Optional(k1, v1) + Optional(k2, v2)
  }

  function Three(pairs: seq<KeyValue>, k3: string, v3: string, k4: string, v4: string, k5: string,
                 v5: string): seq<KeyValue> {
    pairs + [KeyValue(k3, v3)] + [KeyValue(k4, v4)] + [KeyValue(k5, v5)]
  }

  lemma OptionalsShort(k1: string, v1: string, k2: string, v2: string)
    requires ByteLength(k1) <= 12 && ByteLength(k2) <= 12 && ByteLength(v1) <= MAX_SEGMENT
               && ByteLength(v2) <= MAX_SEGMENT
    ensures EncodedLength(Two(k1, v1, k2, v2)) <= 1594
  {
    var none: seq<KeyValue> := [];
    OptionalLength(none, k1, v1);
    OptionalLength(none + Optional(k1, v1), k2, v2);
  }

  lemma NumbersShort(pairs: seq<KeyValue>, k3: string, n3: nat, k4: string, n4: nat, k5: string, v5: string)
    requires ByteLength(k3) <= 12 && ByteLength(k4) <= 12 && ByteLength(k5) <= 12 && n3 <= 1000 && n4 <= 1000
               && ByteLength(v5) <= 12
    ensures EncodedLength(Three(pairs, k3, Itoa(n3), k4, Itoa(n4), k5, v5)) <= EncodedLength(pairs) + 174
  {
    var c := pairs + [KeyValue(k3, Itoa(n3))];
    NumberLength(pairs, k3, n3);
    NumberLength(c, k4, n4);
    PairLength(c + [KeyValue(k4, Itoa(n4))], KeyValue(k5, v5));
  }

  /** Printed queries stay below the server's limit on the encoded query. */
  lemma PrintedIsShort(q: Query)
    requires Validate(q)
    ensures EncodedLength(Pairs(q)) <= MAX_QUERY
  {
    ShortWords();
    assert ByteLength("") == 0;
    OptionalsShort("cluster", q.cluster, "expected_uid", q.expectedUid);
    NumbersShort(Two("cluster", q.cluster, "expected_uid", q.expectedUid),
                 "limit", q.limit, "max_depth", q.maxDepth, "relation", q.relation);
  }

  // ---------------------------------------------------------------------------------
  // What the server reads

  function Append(m: map<string, seq<string>>, key: string, value: string): map<string, seq<string>> {
    m[key := (if key in m then m[key] else []) + [value]]
  }

  /** url.ParseQuery: the values of each key in their order. */
  function Values(pairs: seq<KeyValue>): map<string, seq<string>> {
    if pairs == [] then map[]
    else Append(Values(pairs[..|pairs| - 1]), pairs[|pairs| - 1].key, pairs[|pairs| - 1].value)
  }

  predicate KnownKey(key: string) {
    key in {"cluster", "relation", "max_depth", "limit", "expected_uid"}
  }

  /** Every key is known and has exactly one value, which is not empty. */
  predicate WellKeyed(m: map<string, seq<string>>) {
    forall k | k in m :: KnownKey(k) && |m[k]| == 1 && m[k][0] != ""
  }

  function Lookup(m: map<string, seq<string>>, key: string): Option<string> {
    if key in m && |m[key]| > 0 then Some(m[key][0]) else None
  }

  function OrEmpty(o: Option<string>): string {
    match o
    case None => ""
    case Some(s) => s
  }

  /** The route pattern: exactly three path segments. */
  function Segments(path: string): Option<(string, string, string)> {
    var a := Cut(path);
    if a.None? then None
    else
      var b := Cut(a.value.1);
      if b.None? || '/' in b.value.1 then None else Some((a.value.0, b.value.0, b.value.1))
  }

  /** The text before and after the first slash. */
  function Cut(s: string): Option<(string, string)> {
    if s == "" then None
    else if s[0] == '/' then Some(("", s[1..]))
    else match Cut(s[1..])
         case None => None
         case Some(p) => Some(([s[0]] + p.0, p.1))
  }

  lemma {:induction false} CutJoined(a: string, b: string)
    requires '/' !in a
    ensures Cut(a + "/" + b) == Some((a, b))
  {
    var s := a + "/" + b;
    if a == "" {
      assert s[1..] == b;
    } else {
      assert s[1..] == a[1..] + "/" + b;
      CutJoined(a[1..], b);
      assert a == [a[0]] + a[1..];
    }
  }

  lemma SegmentsJoined(a: string, b: string, c: string)
    requires '/' !in a && '/' !in b && '/' !in c
    ensures Segments(a + "/" + b + "/" + c) == Some((a, b, c))
  {
    assert a + "/" + b + "/" + c == a + "/" + (b + "/" + c);
    CutJoined(a, b + "/" + c);
    CutJoined(b, c);
  }

  ghost predicate ValidBound(raw: Option<string>, max: int) {
    raw.Some? ==> exists n :: CanonicalBound(raw.value, max, n)
  }

  predicate ValidScope(cluster: string, federated: bool) {
    if federated then ValidSegment(cluster, false) && ',' !in cluster else cluster == ""
  }

  /** When the server accepts a request. */
  ghost predicate Acceptable(r: Request, federated: bool) {
    && r.rawLength <= MAX_QUERY && r.query.Some? && WellKeyed(Values(r.query.value))
    && Segments(r.path).Some?
    && var m := Values(r.query.value); var path := Segments(r.path).value;
       && ValidSegment(path.0, false) && ValidSegment(path.1, false) && ValidSegment(path.2, true)
       && ValidScope(OrEmpty(Lookup(m, "cluster")), federated)
       && (Lookup(m, "expected_uid").Some? ==> ValidSegment(Lookup(m, "expected_uid").value, true))
       && (Lookup(m, "relation").Some? ==> KnownRelation(Lookup(m, "relation").value))
       && ValidBound(Lookup(m, "max_depth"), MAX_DEPTH) && ValidBound(Lookup(m, "limit"), MAX_LIMIT)
  }

  /** What an accepted request asks for; a bound that is given is the number it is the decimal of. */
  ghost predicate Asks(r: Request, p: Parsed)
    requires r.query.Some? && Segments(r.path).Some?
  {
    var m, path := Values(r.query.value), Segments(r.path).value;
    && p.root == Root(OrEmpty(Lookup(m, "cluster")), if path.0 == "_" then "" else path.0, path.1, path.2)
    && p.options.cluster == p.root.cluster && p.options.expectedUid == OrEmpty(Lookup(m, "expected_uid"))
    && p.options.relation == (if Lookup(m, "relation").Some? then Lookup(m, "relation").value else DEPENDENTS)
    && Bounded(Lookup(m, "max_depth"), DEFAULT_DEPTH, MAX_DEPTH, p.options.maxDepth)
    && Bounded(Lookup(m, "limit"), DEFAULT_LIMIT, MAX_LIMIT, p.options.limit)
  }

  ghost predicate Bounded(raw: Option<string>, fallback: int, max: int, n: int) {
    match raw
    case None => n == fallback
    case Some(s) => CanonicalBound(s, max, n)
  }

  method ParseQuery(pairs: seq<KeyValue>) returns (m: map<string, seq<string>>)
    ensures m == Values(pairs)
  {
    m := map[];
    for i := 0 to |pairs|
      invariant m == Values(pairs[..i])
    {
      assert pairs[..i + 1][..i] == pairs[..i];
      m := Append(m, pairs[i].key, pairs[i].value);
    }
    assert pairs[..|pairs|] == pairs;
  }

  method CheckKeys(m: map<string, seq<string>>) returns (ok: bool)
    ensures ok <==> WellKeyed(m)
  {
    var todo := m.Keys;
    while todo != {}
      invariant forall k | k in todo :: k in m
      invariant forall k | k in m && k !in todo :: KnownKey(k) && |m[k]| == 1 && m[k][0] != ""
      decreases |todo|
    {
      var k :| k in todo;
      if |m[k]| != 1 || m[k][0] == "" || !KnownKey(k) { return false; }
      todo := todo - {k};
    }
    return true;
  }

  method CheckPath(path: (string, string, string)) returns (ok: bool)
    ensures ok <==> ValidSegment(path.0, false) && ValidSegment(path.1, false) && ValidSegment(path.2, true)
  {
    ok := CheckSegment(path.0, false);
    if !ok { return; }
    ok := CheckSegment(path.1, false);
    if !ok { return; }
    ok := CheckSegment(path.2, true);
  }

  method CheckScope(cluster: string, federated: bool) returns (ok: bool)
    ensures ok <==> ValidScope(cluster, federated)
  {
    if !federated { return cluster == ""; }
    ok := CheckSegment(cluster, false);
    if ',' in cluster { ok := false; }
  }

  method ParseOptions(m: map<string, seq<string>>, cluster: string) returns (r: Option<ImpactOptions>)
    requires WellKeyed(m)
    ensures r.Some? <==> && (Lookup(m, "expected_uid").Some? ==> ValidSegment(Lookup(m, "expected_uid").value, true))
                         && (Lookup(m, "relation").Some? ==> KnownRelation(Lookup(m, "relation").value))
                         && ValidBound(Lookup(m, "max_depth"), MAX_DEPTH) && ValidBound(Lookup(m, "limit"), MAX_LIMIT)
    ensures r.Some? ==> r.value.cluster == cluster && r.value.expectedUid == OrEmpty(Lookup(m, "expected_uid"))
                        && r.value.relation == (if Lookup(m, "relation").Some? then Lookup(m, "relation").value
                           else DEPENDENTS)
                        && Bounded(Lookup(m, "max_depth"), DEFAULT_DEPTH, MAX_DEPTH, r.value.maxDepth)
                        && Bounded(Lookup(m, "limit"), DEFAULT_LIMIT, MAX_LIMIT, r.value.limit)
  {
    var uid, relation := OrEmpty(Lookup(m, "expected_uid")), DEPENDENTS;
    if uid != "" {
      var ok := CheckSegment(uid, true);
      if !ok { return None; }
    }
    if Lookup(m, "relation").Some? {
      relation := Lookup(m, "relation").value;
      if relation != DEPENDENTS && relation != DEPENDENCIES { return None; }
    }
    var depth := ParseBound(Lookup(m, "max_depth"), DEFAULT_DEPTH, MAX_DEPTH);
    if depth.None? { return None; }
    var limit := ParseBound(Lookup(m, "limit"), DEFAULT_LIMIT, MAX_LIMIT);
    if limit.None? { return None; }
    return Some(ImpactOptions(cluster, relation, depth.value, limit.value, uid));
  }

  /** parseImpactRequest, behind its route. */
  method ParseRequest(r: Request, federated: bool) returns (p: Option<Parsed>)
    ensures p.Some? <==> Acceptable(r, federated)
    ensures p.Some? ==> Asks(r, p.value)
  {
    if r.rawLength > MAX_QUERY || r.query.None? || Segments(r.path).None? { return None; }
    var m := ParseQuery(r.query.value);
    var ok := CheckKeys(m);
    if !ok { return None; }
    var path := Segments(r.path).value;
    ok := CheckPath(path);
    if !ok { return None; }
    var cluster := OrEmpty(Lookup(m, "cluster"));
    ok := CheckScope(cluster, federated);
    if !ok { return None; }
    var options := ParseOptions(m, cluster);
    if options.None? { return None; }
    return Some(Parsed(Root(cluster, if path.0 == "_" then "" else path.0, path.1, path.2), options.value));
  }

  // ---------------------------------------------------------------------------------
  // The round trip

  function Single(key: string, value: string): map<string, seq<string>> {
    if value == "" then map[] else map[key := [value]]
  }

  lemma KeysDiffer()
    ensures "cluster"[0] != "expected_uid"[0] && "limit"[0] != "max_depth"[0] && "relation"[0] != "limit"[0]
    ensures |"cluster"| == 7 && |"expected_uid"| == 12 && |"limit"| == 5 && |"max_depth"| == 9 && |"relation"| == 8
  {
  }

  lemma ValuesAppend(pairs: seq<KeyValue>, p: KeyValue)
    ensures Values(pairs + [p]) == Append(Values(pairs), p.key, p.value)
  {
    assert (pairs + [p])[..|pairs|] == pairs;
  }

  lemma ValuesOptional(pairs: seq<KeyValue>, key: string, value: string)
    requires key !in Values(pairs)
    ensures Values(pairs + Optional(key, value)) == Values(pairs) + Single(key, value)
  {
    if value == "" {
      assert pairs + Optional(key, value) == pairs;
    } else {
      ValuesAppend(pairs, KeyValue(key, value));
      assert [] + [value] == [value];
    }
  }

  lemma TwoValues(k1: string, v1: string, k2: string, v2: string)
    requires k1 != k2
    ensures Values(Two(k1, v1, k2, v2)) == Single(k1, v1) + Single(k2, v2)
  {
    var none: seq<KeyValue> := [];
    ValuesOptional(none, k1, v1);
    assert map[] + Single(k1, v1) == Single(k1, v1);
    ValuesOptional(none + Optional(k1, v1), k2, v2);
  }

  lemma ThreeValues(pairs: seq<KeyValue>, k3: string, v3: string, k4: string, v4: string, k5: string, v5: string)
    requires k3 != k4 && k3 != k5 && k4 != k5
    requires k3 !in Values(pairs) && k4 !in Values(pairs) && k5 !in Values(pairs)
    ensures Values(Three(pairs, k3, v3, k4, v4, k5, v5)) == Values(pairs)[k3 := [v3]][k4 := [v4]][k5 := [v5]]
  {
    var c := pairs + [KeyValue(k3, v3)];
    ValuesAppend(pairs, KeyValue(k3, v3));
    ValuesAppend(c, KeyValue(k4, v4));
    ValuesAppend(c + [KeyValue(k4, v4)], KeyValue(k5, v5));
    assert [] + [v3] == [v3] && [] + [v4] == [v4] && [] + [v5] == [v5];
  }

  ghost predicate SingleValued(m: map<string, seq<string>>, keys: set<string>) {
    forall k | k in m :: k in keys && |m[k]| == 1 && m[k][0] != ""
  }

  lemma TwoLookups(k1: string, v1: string, k2: string, v2: string)
    requires k1 != k2
    ensures var m := Single(k1, v1) + Single(k2, v2);
            && SingleValued(m, {k1, k2})
            && Lookup(m, k1) == (if v1 == "" then None else Some(v1))
               && Lookup(m, k2) == (if v2 == "" then None else Some(v2))
  {
  }

  lemma OneLookup(m: map<string, seq<string>>, keys: set<string>, k: string, v: string, other: string)
    requires SingleValued(m, keys) && v != "" && other != k
    ensures SingleValued(m[k := [v]], keys + {k}) && Lookup(m[k := [v]], k) == Some(v)
              && Lookup(m[k := [v]], other) == Lookup(m, other)
  {
  }

  /** The printed keys come back with their values, and no others. */
  lemma FiveLookups(k1: string, v1: string, k2: string, v2: string, k3: string, v3: string, k4: string, v4: string,
                    k5: string, v5: string)
    requires k1 != k2 && k3 != k1 && k3 != k2 && k4 != k1 && k4 != k2 && k4 != k3 && k5 != k1 && k5 != k2 && k5 != k3
               && k5 != k4
    requires v3 != "" && v4 != "" && v5 != ""
    ensures var m := Values(Three(Two(k1, v1, k2, v2), k3, v3, k4, v4, k5, v5));
            && SingleValued(m, {k1, k2} + {k3} + {k4} + {k5})
            && Lookup(m, k1) == (if v1 == "" then None else Some(v1))
               && Lookup(m, k2) == (if v2 == "" then None else Some(v2))
            && Lookup(m, k3) == Some(v3) && Lookup(m, k4) == Some(v4) && Lookup(m, k5) == Some(v5)
  {
    TwoValues(k1, v1, k2, v2);
    ThreeValues(Two(k1, v1, k2, v2), k3, v3, k4, v4, k5, v5);
    TwoLookups(k1, v1, k2, v2);
    var a := Single(k1, v1) + Single(k2, v2);
    forall k | k != k3 ensures Lookup(a[k3 := [v3]], k) == Lookup(a, k) { OneLookup(a, {k1, k2}, k3, v3, k); }
    OneLookup(a, {k1, k2}, k3, v3, k1);
    var b := a[k3 := [v3]];
    forall k | k != k4 ensures Lookup(b[k4 := [v4]], k) == Lookup(b, k) { OneLookup(b, {k1, k2} + {k3}, k4, v4, k); }
    OneLookup(b, {k1, k2} + {k3}, k4, v4, k1);
    var c := b[k4 := [v4]];
    forall k | k != k5 ensures Lookup(c[k5 := [v5]], k) == Lookup(c, k) {
      OneLookup(c, {k1, k2} + {k3} + {k4}, k5, v5, k);
    }
    OneLookup(c, {k1, k2} + {k3} + {k4}, k5, v5, k1);
  }

  lemma PrintedLookups(q: Query)
    requires Validate(q)
    ensures var m := Values(Pairs(q));
            && WellKeyed(m)
            && Lookup(m, "cluster") == (if q.cluster == "" then None else Some(q.cluster))
            && Lookup(m, "expected_uid") == (if q.expectedUid == "" then None else Some(q.expectedUid))
            && Lookup(m, "limit") == Some(Itoa(q.limit)) && Lookup(m, "max_depth") == Some(Itoa(q.maxDepth))
            && Lookup(m, "relation") == Some(q.relation)
  {
    KeysDiffer();
    FiveLookups("cluster", q.cluster, "expected_uid", q.expectedUid,
                "limit", Itoa(q.limit), "max_depth", Itoa(q.maxDepth), "relation", q.relation);
    FiveKnown(Values(Pairs(q)));
  }

  lemma FiveKnown(m: map<string, seq<string>>)
    requires SingleValued(m, {"cluster", "expected_uid"} + {"limit"} + {"max_depth"} + {"relation"})
    ensures WellKeyed(m)
  {
  }

  lemma UnderscoreIsASegment()
    ensures ValidSegment("_", false)
  {
    AsciiBytes("_");
  }

  lemma PrintedPath(q: Query)
    requires Validate(q)
    ensures Segments(PathOf(q)) == Some((if q.namespace == "" then "_" else q.namespace, q.kind, q.name))
  {
    UnderscoreIsASegment();
    SegmentsJoined(if q.namespace == "" then "_" else q.namespace, q.kind, q.name);
  }

  lemma {:induction false} ItoaInjective(m: nat, n: nat)
    requires Itoa(m) == Itoa(n)
    ensures m == n
  {
    DigitsOfItoa(m);
    DigitsOfItoa(n);
  }

  /** A server that is federated exactly when a cluster is named accepts every printed query. */
  lemma PrintedIsAcceptable(q: Query)
    requires Validate(q)
    ensures Acceptable(Printed(q), q.cluster != "")
  {
    PrintedIsShort(q);
    PrintedLookups(q);
    PrintedPath(q);
    UnderscoreIsASegment();
    assert CanonicalBound(Itoa(q.maxDepth), MAX_DEPTH, q.maxDepth);
    assert CanonicalBound(Itoa(q.limit), MAX_LIMIT, q.limit);
  }

  /** And whatever it reads from it is the query that was printed. */
  lemma PrintedAsksForTheQuery(q: Query, p: Parsed)
    requires Validate(q) && Segments(Printed(q).path).Some? && Asks(Printed(q), p)
    ensures p.root == Root(q.cluster, q.namespace, q.kind, q.name)
    ensures p.options == ImpactOptions(q.cluster, q.relation, q.maxDepth, q.limit, q.expectedUid)
  {
    PrintedLookups(q);
    PrintedPath(q);
    ItoaInjective(p.options.maxDepth, q.maxDepth);
    ItoaInjective(p.options.limit, q.limit);
  }

  /** The round trip, through the server's own code. */
  method RoundTrip(q: Query) returns (p: Option<Parsed>)
    requires Validate(q)
    ensures p == Some(Parsed(Root(q.cluster, q.namespace, q.kind, q.name),
                             ImpactOptions(q.cluster, q.relation, q.maxDepth, q.limit, q.expectedUid)))
  {
    PrintedIsAcceptable(q);
    p := ParseRequest(Printed(q), q.cluster != "");
    PrintedAsksForTheQuery(q, p.value);
  }

  /** A server of the other kind refuses it: the condition on federation is needed. */
  lemma OtherServerRefuses(q: Query)
    requires Validate(q)
    ensures !Acceptable(Printed(q), q.cluster == "")
  {
    PrintedLookups(q);
  }

  function QueryOf(p: Parsed): Query {
    Query(p.root.namespace, p.root.kind, p.root.name, p.root.cluster, p.options.expectedUid, p.options.relation,
          p.options.maxDepth, p.options.limit)
  }

  /** What the server accepts is a valid client query exactly when none of its segments is a dot or two. */
  lemma AcceptedIsValidExactlyWithoutDots(r: Request, federated: bool, p: Parsed)
    requires Acceptable(r, federated) && Asks(r, p)
    ensures Validate(QueryOf(p)) <==>
            !Dots(p.root.namespace) && !Dots(p.root.kind) && !Dots(p.root.name) && !Dots(p.root.cluster)
                && !Dots(p.options.expectedUid)
  {
  }
}
