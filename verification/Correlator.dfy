/** Runtime call edges inferred from a batch of spans (pkg/otel/correlator.go). */
module Correlator {

  import opened Options
  import opened Ordering
  import opened Tally

  datatype Span = Span(id: string, parent: string, service: string, namespace: string, deployment: string, pod: string,
                       start: int)

  datatype Call = Call(parent: Span, child: Span)

  datatype Pair = Pair(from: string, to: string)

  datatype RuntimeEdge = RuntimeEdge(from: string, to: string, fromService: string, toService: string,
                                     namespace: string, firstSeen: int, lastSeen: int, count: nat)

  // ---------------------------------------------------------------------------------
  // Calls

  /** The parent index: a later span with the same id wins. */
  function ById(spans: seq<Span>): map<string, Span> {
    if spans == [] then map[]
    else
      var s := spans[|spans| - 1];
      if s.id != "" then ById(spans[..|spans| - 1])[s.id := s] else ById(spans[..|spans| - 1])
  }

  /** A call: the span has a parent in the batch, and the two belong to different, named services. */
  function CallOf(byId: map<string, Span>, s: Span): Option<Call> {
    if s.parent != "" && s.parent in byId && byId[s.parent].service != "" && s.service != ""
        && byId[s.parent].service != s.service
    then Some(Call(byId[s.parent], s)) else None
  }

  function Calls(byId: map<string, Span>, spans: seq<Span>): seq<Call> {
    if spans == [] then []
    else
      var before := Calls(byId, spans[..|spans| - 1]);
      match CallOf(byId, spans[|spans| - 1])
      case None => before
      case Some(c) => before + [c]
  }

  /** inferCalls */
  method InferCalls(spans: seq<Span>) returns (out: seq<Call>)
    ensures out == Calls(ById(spans), spans)
  {
    var byId: map<string, Span> := map[];
    var i := 0;
    while i < |spans|
      invariant 0 <= i <= |spans| && byId == ById(spans[..i])
    {
      assert spans[..i + 1][..i] == spans[..i];
      if spans[i].id != "" { byId := byId[spans[i].id := spans[i]]; }
      i := i + 1;
    }
    assert spans[..i] == spans;
    out := [];
    i := 0;
    while i < |spans|
      invariant 0 <= i <= |spans| && out == Calls(byId, spans[..i])
    {
      assert spans[..i + 1][..i] == spans[..i];
      var s := spans[i];
      i := i + 1;
      if s.parent == "" || s.parent !in byId { continue; }
      var parent := byId[s.parent];
      if parent.service == "" || s.service == "" || parent.service == s.service { continue; }
      out := out + [Call(parent, s)];
    }
    assert spans[..i] == spans;
  }

  /** Span j was caused by span p of another service: p is the last span of the batch that carries the id j names as its
      parent. */
  predicate Causes(spans: seq<Span>, p: nat, j: nat) {
    && p < |spans| && j < |spans| && spans[p].id == spans[j].parent != ""
    && (forall q | p < q < |spans| :: spans[q].id != spans[p].id)
    && spans[p].service != "" && spans[j].service != "" && spans[p].service != spans[j].service
  }

  /** The index knows exactly the ids of the batch, each by its last span. */
  lemma {:induction false} IndexIsLast(spans: seq<Span>, p: nat)
    requires p < |spans| && spans[p].id != "" && forall q | p < q < |spans| :: spans[q].id != spans[p].id
    ensures spans[p].id in ById(spans) && ById(spans)[spans[p].id] == spans[p]
  {
    if p < |spans| - 1 {
      assert forall q | p < q < |spans| - 1 :: spans[..|spans| - 1][q] == spans[q];
      IndexIsLast(spans[..|spans| - 1], p);
    }
  }

  lemma {:induction false} IndexedOccurs(spans: seq<Span>, id: string) returns (p: nat)
    requires id in ById(spans)
    ensures p < |spans| && spans[p].id == id && id != "" && forall q | p < q < |spans| :: spans[q].id != id
  {
    var n := |spans| - 1;
    if spans[n].id == id && id != "" {
      p := n;
    } else {
      p := IndexedOccurs(spans[..n], id);
      forall q | p < q < |spans| ensures spans[q].id != id { if q < n { assert spans[..n][q] == spans[q]; } }
    }
  }

  lemma CallIsCause(spans: seq<Span>, j: nat)
    requires j < |spans|
    ensures CallOf(ById(spans), spans[j]).Some? ==>
              exists p: nat :: Causes(spans, p, j) && CallOf(ById(spans), spans[j]).value == Call(spans[p], spans[j])
    ensures forall p: nat | Causes(spans, p, j) :: CallOf(ById(spans), spans[j]) == Some(Call(spans[p], spans[j]))
  {
    forall p: nat | Causes(spans, p, j) ensures CallOf(ById(spans), spans[j]) == Some(Call(spans[p], spans[j])) {
      IndexIsLast(spans, p);
    }
    if CallOf(ById(spans), spans[j]).Some? {
      var p := IndexedOccurs(spans, spans[j].parent);
      IndexIsLast(spans, p);
      assert Causes(spans, p, j);
    }
  }

  /** The positions of the spans that make a call, in order. */
  function Children(byId: map<string, Span>, spans: seq<Span>): seq<nat> {
    if spans == [] then []
    else
      var n := |spans| - 1;
      Children(byId, spans[..n]) + if CallOf(byId, spans[n]).Some? then [n] else []
  }

  lemma {:induction false} ChildrenInOrder(byId: map<string, Span>, spans: seq<Span>)
    ensures forall k | 0 <= k < |Children(byId, spans)| :: Children(byId, spans)[k] < |spans|
    ensures forall i, k | 0 <= i < k < |Children(byId, spans)| :: Children(byId, spans)[i] < Children(byId, spans)[k]
  {
    if spans != [] { ChildrenInOrder(byId, spans[..|spans| - 1]); }
  }

  lemma {:induction false} ChildrenComplete(byId: map<string, Span>, spans: seq<Span>, j: nat)
    ensures j in Children(byId, spans) <==> j < |spans| && CallOf(byId, spans[j]).Some?
  {
    if spans != [] {
      var n := |spans| - 1;
      ChildrenComplete(byId, spans[..n], j);
      if j < n { assert spans[..n][j] == spans[j]; }
    }
  }

  lemma {:induction false} ChildrenCall(byId: map<string, Span>, spans: seq<Span>)
    ensures |Calls(byId, spans)| == |Children(byId, spans)|
    ensures forall k | 0 <= k < |Children(byId, spans)| ::
              Children(byId, spans)[k] < |spans|
              && CallOf(byId, spans[Children(byId, spans)[k]]) == Some(Calls(byId, spans)[k])
  {
    if spans != [] {
      var n := |spans| - 1;
      ChildrenCall(byId, spans[..n]);
      forall k | 0 <= k < |Children(byId, spans)|
        ensures Children(byId, spans)[k] < |spans|
        ensures CallOf(byId, spans[Children(byId, spans)[k]]) == Some(Calls(byId, spans)[k])
      {
        if k < |Children(byId, spans[..n])| {
          assert spans[..n][Children(byId, spans)[k]] == spans[Children(byId, spans)[k]];
        }
      }
    }
  }

  /** The calls of a batch are its pairs of a span and the span that caused it, one for each caused span, in the order
      of the batch. */
  lemma CallsAreTheCausedSpans(spans: seq<Span>) returns (children: seq<nat>)
    ensures |Calls(ById(spans), spans)| == |children|
    ensures forall i, k | 0 <= i < k < |children| :: children[i] < children[k]
    ensures forall j: nat :: j in children <==> exists p: nat :: Causes(spans, p, j)
    ensures forall k | 0 <= k < |children| :: exists p: nat ::
              Causes(spans, p, children[k]) && Calls(ById(spans), spans)[k] == Call(spans[p], spans[children[k]])
  {
    var byId := ById(spans);
    children := Children(byId, spans);
    ChildrenInOrder(byId, spans);
    ChildrenCall(byId, spans);
    forall j: nat ensures j in children <==> exists p: nat :: Causes(spans, p, j) {
      ChildrenComplete(byId, spans, j);
      if j < |spans| { CallIsCause(spans, j); }
    }
    forall k | 0 <= k < |children|
      ensures exists p: nat ::
                Causes(spans, p, children[k]) && Calls(byId, spans)[k] == Call(spans[p], spans[children[k]])
    {
      CallIsCause(spans, children[k]);
    }
  }

  // ---------------------------------------------------------------------------------
  // Resolution

  /** The ids a span may stand for, the most specific first. */
  function Candidates(s: Span): seq<string> {
    (if s.deployment != "" then [s.namespace + "/Deployment/" + s.deployment] else [])
    + (if s.pod != "" then [s.namespace + "/Pod/" + s.pod] else [])
    + (if s.service != "" then [s.namespace + "/Deployment/" + s.service, s.namespace + "/StatefulSet/" + s.service,
                                s.namespace + "/DaemonSet/" + s.service, s.namespace + "/Service/" + s.service] else [])
  }

  /** The first of the candidates that is a known resource. */
  function FirstKnown(ids: set<string>, candidates: seq<string>): Option<string> {
    if candidates == [] then None
    else if candidates[0] in ids then Some(candidates[0])
    else FirstKnown(ids, candidates[1..])
  }

  function Resolved(ids: set<string>, s: Span): Option<string> {
    if s.namespace == "" then None else FirstKnown(ids, Candidates(s))
  }

  method Resolve(ids: set<string>, s: Span) returns (r: Option<string>)
    ensures r == Resolved(ids, s)
  {
    if s.namespace == "" { return None; }
    var candidates := Candidates(s);
    var i := 0;
    while i < |candidates|
      invariant 0 <= i <= |candidates|
      invariant FirstKnown(ids, candidates) == FirstKnown(ids, candidates[i..])
    {
      if candidates[i] in ids { return Some(candidates[i]); }
      assert candidates[i..][1..] == candidates[i + 1..];
      i := i + 1;
    }
    return None;
  }

  /** What a resolved span resolves to is known, and nothing before it in the list is. */
  lemma {:induction false} FirstKnownIsFirst(ids: set<string>, candidates: seq<string>)
    ensures match FirstKnown(ids, candidates)
            case None => forall c | c in candidates :: c !in ids
            case Some(id) => id in ids && exists k | 0 <= k < |candidates| ::
                  candidates[k] == id && forall j | 0 <= j < k :: candidates[j] !in ids
  {
    if candidates != [] && candidates[0] !in ids {
      FirstKnownIsFirst(ids, candidates[1..]);
      var r := FirstKnown(ids, candidates[1..]);
      if r.Some? {
        var k :| 0 <= k < |candidates[1..]| && candidates[1..][k] == r.value
            && forall j | 0 <= j < k :: candidates[1..][j] !in ids;
        assert candidates[k + 1] == r.value;
        forall j | 0 <= j < k + 1 ensures candidates[j] !in ids {
          if j > 0 { assert candidates[j] == candidates[1..][j - 1]; }
        }
      } else {
        forall c | c in candidates ensures c !in ids {
          var j :| 0 <= j < |candidates| && candidates[j] == c;
          if j > 0 { assert candidates[1..][j - 1] == c; }
        }
      }
    }
  }

  const BY_SERVICE := ["Deployment", "StatefulSet", "DaemonSet", "Service"]

  /** A span may stand for its deployment, for its pod, or for what carries the name of its service; the smaller the
      rank the better. */
  predicate MayStandFor(s: Span, kind: string, name: string, rank: nat) {
    && name != ""
    && (|| (rank == 0 && kind == "Deployment" && name == s.deployment)
        || (rank == 1 && kind == "Pod" && name == s.pod)
        || (2 <= rank <= 5 && kind == BY_SERVICE[rank - 2] && name == s.service))
  }

  function IdIn(namespace: string, kind: string, name: string): string {
    namespace + "/" + kind + "/" + name
  }

  ghost predicate Best(ids: set<string>, s: Span, kind: string, name: string, rank: nat) {
    && MayStandFor(s, kind, name, rank) && IdIn(s.namespace, kind, name) in ids
    && forall k, n, r: nat | MayStandFor(s, k, n, r) && r < rank :: IdIn(s.namespace, k, n) !in ids
  }

  lemma {:induction false} FirstKnownConcat(ids: set<string>, a: seq<string>, b: seq<string>)
    ensures FirstKnown(ids, a + b) == if FirstKnown(ids, a).Some? then FirstKnown(ids, a) else FirstKnown(ids, b)
  {
    if a == [] {
      assert a + b == b;
    } else {
      assert (a + b)[1..] == a[1..] + b;
      FirstKnownConcat(ids, a[1..], b);
    }
  }

  /** The id of the resource a span stands for at one rank, if it is known. */
  function KnownAt(ids: set<string>, s: Span, kind: string, name: string): Option<string> {
    if name != "" && IdIn(s.namespace, kind, name) in ids then Some(IdIn(s.namespace, kind, name)) else None
  }

  lemma Spelled(namespace: string, name: string)
    ensures namespace + "/Deployment/" + name == IdIn(namespace, "Deployment", name)
    ensures namespace + "/Pod/" + name == IdIn(namespace, "Pod", name)
    ensures namespace + "/StatefulSet/" + name == IdIn(namespace, "StatefulSet", name)
    ensures namespace + "/DaemonSet/" + name == IdIn(namespace, "DaemonSet", name)
    ensures namespace + "/Service/" + name == IdIn(namespace, "Service", name)
  {
    assert "/" + "Deployment" + "/" == "/Deployment/" && "/" + "Pod" + "/" == "/Pod/";
    assert "/" + "StatefulSet" + "/" == "/StatefulSet/" && "/" + "DaemonSet" + "/" == "/DaemonSet/";
    assert "/" + "Service" + "/" == "/Service/";
    forall kind: string ensures namespace + ("/" + kind + "/") + name == IdIn(namespace, kind, name) { }
  }

  lemma OneCandidate(ids: set<string>, c: string)
    ensures FirstKnown(ids, [c]) == if c in ids then Some(c) else None
  {
    assert [c][1..] == [];
  }

  lemma ServiceCandidates(ids: set<string>, a: string, b: string, c: string, d: string)
    ensures FirstKnown(ids, [a, b, c, d])
            == if a in ids then Some(a) else if b in ids then Some(b) else if c in ids then Some(c)
               else if d in ids then Some(d) else None
  {
    FirstKnownConcat(ids, [a], [b, c, d]);
    FirstKnownConcat(ids, [b], [c, d]);
    FirstKnownConcat(ids, [c], [d]);
    assert [a, b, c, d] == [a] + [b, c, d] && [b, c, d] == [b] + [c, d] && [c, d] == [c] + [d];
    OneCandidate(ids, a);
    OneCandidate(ids, b);
    OneCandidate(ids, c);
    OneCandidate(ids, d);
  }

  function OrElse(a: Option<string>, b: Option<string>): Option<string> {
    if a.Some? then a else b
  }

  lemma ResolvedInOrder(ids: set<string>, s: Span)
    requires s.namespace != ""
    ensures Resolved(ids, s)
            == OrElse(KnownAt(ids, s, "Deployment", s.deployment), OrElse(KnownAt(ids, s, "Pod", s.pod),
                      OrElse(KnownAt(ids, s, "Deployment", s.service), OrElse(KnownAt(ids, s, "StatefulSet", s.service),
                             OrElse(KnownAt(ids, s, "DaemonSet", s.service), KnownAt(ids, s, "Service", s.service))))))
  {
    var a := if s.deployment != "" then [s.namespace + "/Deployment/" + s.deployment] else [];
    var b := if s.pod != "" then [s.namespace + "/Pod/" + s.pod] else [];
    var c :=
      if s.service == "" then []
      else [s.namespace + "/Deployment/" + s.service, s.namespace + "/StatefulSet/" + s.service,
            s.namespace + "/DaemonSet/" + s.service, s.namespace + "/Service/" + s.service];
    Spelled(s.namespace, s.deployment);
    Spelled(s.namespace, s.pod);
    Spelled(s.namespace, s.service);
    FirstKnownConcat(ids, a + b, c);
    FirstKnownConcat(ids, a, b);
    OneCandidate(ids, IdIn(s.namespace, "Deployment", s.deployment));
    OneCandidate(ids, IdIn(s.namespace, "Pod", s.pod));
    ServiceCandidates(ids, IdIn(s.namespace, "Deployment", s.service), IdIn(s.namespace, "StatefulSet", s.service),
                      IdIn(s.namespace, "DaemonSet", s.service), IdIn(s.namespace, "Service", s.service));
  }

  lemma BetterIsUnknown(ids: set<string>, s: Span, kind: string, name: string, rank: nat, k: string, n: string, r: nat)
    requires Best(ids, s, kind, name, rank) && r < rank && (n != "" ==> MayStandFor(s, k, n, r))
    ensures KnownAt(ids, s, k, n) == None
  {
  }

  lemma BestIsFirst(ids: set<string>, s: Span, kind: string, name: string, rank: nat)
    requires s.namespace != "" && Best(ids, s, kind, name, rank)
    ensures Resolved(ids, s) == Some(IdIn(s.namespace, kind, name))
  {
    ResolvedInOrder(ids, s);
    if rank > 0 { BetterIsUnknown(ids, s, kind, name, rank, "Deployment", s.deployment, 0); }
    if rank > 1 { BetterIsUnknown(ids, s, kind, name, rank, "Pod", s.pod, 1); }
    if rank > 2 { BetterIsUnknown(ids, s, kind, name, rank, "Deployment", s.service, 2); }
    if rank > 3 { BetterIsUnknown(ids, s, kind, name, rank, "StatefulSet", s.service, 3); }
    if rank > 4 { BetterIsUnknown(ids, s, kind, name, rank, "DaemonSet", s.service, 4); }
  }

  ghost predicate ResolvesWell(ids: set<string>, s: Span, id: string) {
    exists kind, name, rank: nat :: Best(ids, s, kind, name, rank) && id == IdIn(s.namespace, kind, name)
  }

  lemma FirstIsBest(ids: set<string>, s: Span)
    requires Resolved(ids, s).Some?
    ensures ResolvesWell(ids, s, Resolved(ids, s).value)
  {
    ResolvedInOrder(ids, s);
    if KnownAt(ids, s, "Deployment", s.deployment).Some? {
      assert Best(ids, s, "Deployment", s.deployment, 0);
    } else if KnownAt(ids, s, "Pod", s.pod).Some? {
      assert Best(ids, s, "Pod", s.pod, 1);
    } else if KnownAt(ids, s, "Deployment", s.service).Some? {
      assert Best(ids, s, "Deployment", s.service, 2);
    } else if KnownAt(ids, s, "StatefulSet", s.service).Some? {
      assert Best(ids, s, "StatefulSet", s.service, 3);
    } else if KnownAt(ids, s, "DaemonSet", s.service).Some? {
      assert Best(ids, s, "DaemonSet", s.service, 4);
    } else {
      assert Best(ids, s, "Service", s.service, 5);
    }
  }

  /** A span without a namespace is never resolved; any other span resolves exactly to the best known resource of its
      namespace that it may stand for. */
  lemma ResolvesToTheBest(ids: set<string>, s: Span)
    ensures s.namespace == "" ==> Resolved(ids, s) == None
    ensures s.namespace != "" ==> forall kind, name, rank: nat | Best(ids, s, kind, name, rank) ::
                Resolved(ids, s) == Some(IdIn(s.namespace, kind, name))
    ensures Resolved(ids, s).Some? ==> ResolvesWell(ids, s, Resolved(ids, s).value)
  {
    if s.namespace != "" {
      ResolvedInOrder(ids, s);
      forall kind, name, rank: nat | Best(ids, s, kind, name, rank)
        ensures Resolved(ids, s) == Some(IdIn(s.namespace, kind, name))
      {
        BestIsFirst(ids, s, kind, name, rank);
      }
      if Resolved(ids, s).Some? { FirstIsBest(ids, s); }
    }
  }

  // ---------------------------------------------------------------------------------
  // Aggregation

  /** The pair of resources a call counts for: both ends resolved, to different resources. */
  function PairOf(ids: set<string>): Call -> Option<Pair> {
    (c: Call) =>
      var from, to := Resolved(ids, c.parent), Resolved(ids, c.child);
      if from.Some? && to.Some? && from.value != to.value then Some(Pair(from.value, to.value)) else None
  }

  predicate Unresolved(ids: set<string>, c: Call) {
    Resolved(ids, c.parent).None? || Resolved(ids, c.child).None?
  }

  predicate Reentrant(ids: set<string>, c: Call) {
    Resolved(ids, c.parent).Some? && Resolved(ids, c.parent) == Resolved(ids, c.child)
  }

  function CountUnresolved(ids: set<string>, calls: seq<Call>): nat {
    if calls == [] then 0
    else CountUnresolved(ids, calls[..|calls| - 1]) + if Unresolved(ids, calls[|calls| - 1]) then 1 else 0
  }

  function CountReentrant(ids: set<string>, calls: seq<Call>): nat {
    if calls == [] then 0
    else CountReentrant(ids, calls[..|calls| - 1]) + if Reentrant(ids, calls[|calls| - 1]) then 1 else 0
  }

  function EndsMissing(ids: set<string>, c: Call): nat {
    (if Resolved(ids, c.parent).None? then 1 else 0) + if Resolved(ids, c.child).None? then 1 else 0
  }

  /** Endpoints that could not be resolved. */
  function CountMissing(ids: set<string>, calls: seq<Call>): nat {
    if calls == [] then 0 else CountMissing(ids, calls[..|calls| - 1]) + EndsMissing(ids, calls[|calls| - 1])
  }

  /** t is the earliest, u the latest start of the calls of pair k. */
  ghost predicate SpansTime(ids: set<string>, calls: seq<Call>, k: Pair, t: int, u: int) {
    && (exists c | c in calls :: PairOf(ids)(c) == Some(k) && c.child.start == t)
    && (exists c | c in calls :: PairOf(ids)(c) == Some(k) && c.child.start == u)
    && forall c | c in calls && PairOf(ids)(c) == Some(k) :: t <= c.child.start <= u
  }

  /** One entry of the aggregation map tells the whole story of its pair. */
  ghost predicate Tells(ids: set<string>, calls: seq<Call>, k: Pair, e: RuntimeEdge) {
    && e.from == k.from && e.to == k.to && e.count == CountOf(PairOf(ids), calls, k)
    && SpansTime(ids, calls, k, e.firstSeen, e.lastSeen) && NamedByFirst(ids, calls, k, e)
  }

  /** The services and the namespace shown for a pair are those of its first call in the batch. */
  ghost predicate NamedByFirst(ids: set<string>, calls: seq<Call>, k: Pair, e: RuntimeEdge) {
    exists i | 0 <= i < |calls| :: FirstCall(ids, calls, k, i) && e.fromService == calls[i].parent.service
                                   && e.toService == calls[i].child.service && e.namespace == calls[i].child.namespace
  }

  ghost predicate FirstCall(ids: set<string>, calls: seq<Call>, k: Pair, i: nat) {
    && i < |calls| && PairOf(ids)(calls[i]) == Some(k)
    && forall j | 0 <= j < i :: PairOf(ids)(calls[j]) != Some(k)
  }

  ghost predicate Aggregated(ids: set<string>, calls: seq<Call>, agg: map<Pair, RuntimeEdge>) {
    && (forall k | k in agg :: Tells(ids, calls, k, agg[k]))
    && (forall k :: k in agg <==> CountOf(PairOf(ids), calls, k) > 0)
  }

  /** The entry after one more call of its pair. */
  function Noted(agg: map<Pair, RuntimeEdge>, k: Pair, c: Call): RuntimeEdge {
    var ts := c.child.start;
    if k in agg then
      var e := agg[k];
      e.(count := e.count + 1,
         firstSeen := if ts < e.firstSeen then ts else e.firstSeen,
         lastSeen := if ts > e.lastSeen then ts else e.lastSeen)
    else RuntimeEdge(k.from, k.to, c.parent.service, c.child.service, c.child.namespace, ts, ts, 1)
  }

  lemma TimeOfOthers(ids: set<string>, calls: seq<Call>, c: Call, k: Pair, t: int, u: int)
    requires SpansTime(ids, calls, k, t, u) && PairOf(ids)(c) != Some(k)
    ensures SpansTime(ids, calls + [c], k, t, u)
  {
  }

  lemma TimeExtended(ids: set<string>, calls: seq<Call>, c: Call, k: Pair, t: int, u: int)
    requires SpansTime(ids, calls, k, t, u) && PairOf(ids)(c) == Some(k)
    ensures SpansTime(ids, calls + [c], k,
                      if c.child.start < t then c.child.start else t, if c.child.start > u then c.child.start else u)
  {
    assert c in calls + [c];
  }

  lemma TimeStarted(ids: set<string>, calls: seq<Call>, c: Call, k: Pair)
    requires CountOf(PairOf(ids), calls, k) == 0 && PairOf(ids)(c) == Some(k)
    ensures SpansTime(ids, calls + [c], k, c.child.start, c.child.start)
  {
    CountedOccurs(PairOf(ids), calls, k);
    assert c in calls + [c];
  }

  lemma NamesKept(ids: set<string>, calls: seq<Call>, c: Call, k: Pair, e: RuntimeEdge)
    requires NamedByFirst(ids, calls, k, e)
    ensures NamedByFirst(ids, calls + [c], k, e)
  {
    var i :| 0 <= i < |calls| && FirstCall(ids, calls, k, i) && e.fromService == calls[i].parent.service
        && e.toService == calls[i].child.service && e.namespace == calls[i].child.namespace;
    assert (calls + [c])[i] == calls[i] && FirstCall(ids, calls + [c], k, i);
  }

  lemma NamesStarted(ids: set<string>, calls: seq<Call>, c: Call, k: Pair, e: RuntimeEdge)
    requires CountOf(PairOf(ids), calls, k) == 0 && PairOf(ids)(c) == Some(k)
    requires e.fromService == c.parent.service && e.toService == c.child.service && e.namespace == c.child.namespace
    ensures NamedByFirst(ids, calls + [c], k, e)
  {
    CountedOccurs(PairOf(ids), calls, k);
    var all := calls + [c];
    assert all[|calls|] == c && forall j | 0 <= j < |calls| :: all[j] == calls[j] && calls[j] in calls;
    assert FirstCall(ids, all, k, |calls|);
  }

  lemma TellsOfOthers(ids: set<string>, calls: seq<Call>, c: Call, k: Pair, e: RuntimeEdge)
    requires Tells(ids, calls, k, e) && PairOf(ids)(c) != Some(k)
    ensures Tells(ids, calls + [c], k, e)
  {
    CountAppend(PairOf(ids), calls, c, k);
    NamesKept(ids, calls, c, k, e);
    TimeOfOthers(ids, calls, c, k, e.firstSeen, e.lastSeen);
  }

  lemma NotedTells(ids: set<string>, calls: seq<Call>, agg: map<Pair, RuntimeEdge>, c: Call, k: Pair)
    requires PairOf(ids)(c) == Some(k)
    requires if k in agg then Tells(ids, calls, k, agg[k]) else CountOf(PairOf(ids), calls, k) == 0
    ensures Tells(ids, calls + [c], k, Noted(agg, k, c))
  {
    CountAppend(PairOf(ids), calls, c, k);
    if k in agg {
      TimeExtended(ids, calls, c, k, agg[k].firstSeen, agg[k].lastSeen);
      NamesKept(ids, calls, c, k, agg[k]);
    } else {
      TimeStarted(ids, calls, c, k);
      NamesStarted(ids, calls, c, k, Noted(agg, k, c));
    }
  }

  lemma NotedAggregated(ids: set<string>, calls: seq<Call>, agg: map<Pair, RuntimeEdge>, c: Call, k: Pair)
    requires Aggregated(ids, calls, agg) && PairOf(ids)(c) == Some(k)
    ensures Aggregated(ids, calls + [c], agg[k := Noted(agg, k, c)])
  {
    var f, next := PairOf(ids), agg[k := Noted(agg, k, c)];
    forall q ensures q in next <==> CountOf(f, calls + [c], q) > 0 { CountAppend(f, calls, c, q); }
    NotedTells(ids, calls, agg, c, k);
    forall q | q in next ensures Tells(ids, calls + [c], q, next[q]) {
      if q != k { TellsOfOthers(ids, calls, c, q, agg[q]); }
    }
  }

  lemma SkippedAggregated(ids: set<string>, calls: seq<Call>, agg: map<Pair, RuntimeEdge>, c: Call)
    requires Aggregated(ids, calls, agg) && PairOf(ids)(c) == None
    ensures Aggregated(ids, calls + [c], agg)
  {
    var f := PairOf(ids);
    forall q ensures q in agg <==> CountOf(f, calls + [c], q) > 0 { CountAppend(f, calls, c, q); }
    forall q | q in agg ensures Tells(ids, calls + [c], q, agg[q]) { TellsOfOthers(ids, calls, c, q, agg[q]); }
  }

  /** The aggregation loop of correlate. */
  method Aggregate(ids: set<string>, calls: seq<Call>) returns (agg: map<Pair, RuntimeEdge>, unmatched: nat)
    ensures Aggregated(ids, calls, agg) && unmatched == CountMissing(ids, calls)
  {
    agg, unmatched := map[], 0;
    var i := 0;
    while i < |calls|
      invariant 0 <= i <= |calls|
      invariant Aggregated(ids, calls[..i], agg) && unmatched == CountMissing(ids, calls[..i])
    {
      var c := calls[i];
      assert calls[..i + 1] == calls[..i] + [c] && calls[..i + 1][..i] == calls[..i];
      var from := Resolve(ids, c.parent);
      var to := Resolve(ids, c.child);
      i := i + 1;
      if from.None? { unmatched := unmatched + 1; }
      if to.None? { unmatched := unmatched + 1; }
      if from.None? || to.None? || from.value == to.value {
        SkippedAggregated(ids, calls[..i - 1], agg, c);
        continue;
      }
      var key := Pair(from.value, to.value);
      NotedAggregated(ids, calls[..i - 1], agg, c, key);
      agg := agg[key := Noted(agg, key, c)];
    }
    assert calls[..i] == calls;
  }

  function PairKey(k: Pair): seq<string> {
    [k.from, k.to]
  }

  /** The aggregated pairs in order. */
  ghost predicate Emitted(keys: seq<Pair>, agg: map<Pair, RuntimeEdge>, out: seq<RuntimeEdge>) {
    && StrictlySorted(PairKey, keys) && (forall k :: k in keys <==> k in agg)
    && |out| == |keys| && forall i | 0 <= i < |keys| :: keys[i] in agg && out[i] == agg[keys[i]]
  }

  method Emit(agg: map<Pair, RuntimeEdge>) returns (keys: seq<Pair>, out: seq<RuntimeEdge>)
    ensures Emitted(keys, agg, out)
  {
    forall x, y | x in agg.Keys && y in agg.Keys && PairKey(x) == PairKey(y) ensures x == y {
      assert PairKey(x)[0] == x.from && PairKey(x)[1] == x.to && PairKey(y)[0] == y.from && PairKey(y)[1] == y.to;
    }
    keys := SortedMembers(PairKey, agg.Keys);
    out := [];
    for i := 0 to |keys|
      invariant |out| == i && forall j | 0 <= j < i :: keys[j] in agg && out[j] == agg[keys[j]]
    {
      assert keys[i] in keys;
      out := out + [agg[keys[i]]];
    }
  }

  function CallCounts(out: seq<RuntimeEdge>): seq<nat> {
    seq(|out|, i requires 0 <= i < |out| => out[i].count)
  }

  /** The result of a pass over a batch. */
  ghost predicate Correlated(ids: set<string>, calls: seq<Call>, keys: seq<Pair>, out: seq<RuntimeEdge>) {
    && StrictlySorted(PairKey, keys) && |out| == |keys|
    && (forall k :: k in keys <==> CountOf(PairOf(ids), calls, k) > 0)
    && forall i | 0 <= i < |keys| :: Tells(ids, calls, keys[i], out[i])
  }

  /** correlate, given the ids its resolver loaded. */
  method Correlate(ids: set<string>, spans: seq<Span>)
    returns (out: seq<RuntimeEdge>, unmatched: nat, ghost keys: seq<Pair>)
    ensures Correlated(ids, Calls(ById(spans), spans), keys, out)
    ensures unmatched == CountMissing(ids, Calls(ById(spans), spans))
    ensures var calls := Calls(ById(spans), spans);
            Sum(CallCounts(out)) + CountUnresolved(ids, calls) + CountReentrant(ids, calls) == |calls|
  {
    var calls := InferCalls(spans);
    if |calls| == 0 {
      out, unmatched, keys := [], 0, [];
      return;
    }
    var agg;
    agg, unmatched := Aggregate(ids, calls);
    keys, out := Emit(agg);
    CallsConserved(ids, calls, keys, out);
  }

  /** Every call is either counted for one pair, or has an unresolved end, or stays within one resource. */
  lemma {:induction false} EveryCallPlaced(ids: set<string>, calls: seq<Call>)
    ensures CountSome(PairOf(ids), calls) + CountUnresolved(ids, calls) + CountReentrant(ids, calls) == |calls|
  {
    if calls != [] { EveryCallPlaced(ids, calls[..|calls| - 1]); }
  }

  /** Both ends of every call. */
  function Endpoints(calls: seq<Call>): seq<Span> {
    if calls == [] then []
    else Endpoints(calls[..|calls| - 1]) + [calls[|calls| - 1].parent, calls[|calls| - 1].child]
  }

  function Resolution(ids: set<string>): Span -> Option<Option<string>> {
    (s: Span) => Some(Resolved(ids, s))
  }

  /** The unmatched number counts endpoints, not calls. */
  lemma {:induction false} MissingCountsEndpoints(ids: set<string>, calls: seq<Call>)
    ensures CountMissing(ids, calls) == CountOf(Resolution(ids), Endpoints(calls), None)
  {
    if calls != [] {
      var init, last := calls[..|calls| - 1], calls[|calls| - 1];
      MissingCountsEndpoints(ids, init);
      CountAppend(Resolution(ids), Endpoints(init), last.parent, None);
      CountAppend(Resolution(ids), Endpoints(init) + [last.parent], last.child, None);
      assert Endpoints(calls) == Endpoints(init) + [last.parent] + [last.child];
    }
  }

  lemma StrictPairsDistinct(keys: seq<Pair>)
    requires StrictlySorted(PairKey, keys)
    ensures forall i, j | 0 <= i < j < |keys| :: keys[i] != keys[j]
  {
    forall i, j | 0 <= i < j < |keys| ensures keys[i] != keys[j] { KeyBeforeIrreflexive(PairKey(keys[i])); }
  }

  lemma CallsConserved(ids: set<string>, calls: seq<Call>, keys: seq<Pair>, out: seq<RuntimeEdge>)
    requires Correlated(ids, calls, keys, out)
    ensures Sum(CallCounts(out)) + CountUnresolved(ids, calls) + CountReentrant(ids, calls) == |calls|
  {
    var f := PairOf(ids);
    StrictPairsDistinct(keys);
    forall c | c in calls && f(c).Some? ensures f(c).value in keys { CountedOccurs(f, calls, f(c).value); }
    CountsSum(f, calls, keys);
    assert CallCounts(out) == Counts(f, calls, keys);
    EveryCallPlaced(ids, calls);
  }

  // ---------------------------------------------------------------------------------
  // The order of the batch

  /** Span ids are unique, as the store promises. */
  ghost predicate UniqueIds(spans: seq<Span>) {
    forall a, b | a in spans && b in spans && a.id == b.id && a.id != "" :: a == b
  }

  lemma {:induction false} IndexMeaning(spans: seq<Span>, id: string)
    requires UniqueIds(spans)
    ensures id in ById(spans) <==> id != "" && exists s | s in spans :: s.id == id
    ensures id in ById(spans) ==> ById(spans)[id] in spans && ById(spans)[id].id == id
  {
    if spans != [] {
      var n := |spans| - 1;
      assert spans == spans[..n] + [spans[n]];
      IndexMeaning(spans[..n], id);
    }
  }

  lemma SameIndex(a: seq<Span>, b: seq<Span>)
    requires UniqueIds(a) && multiset(a) == multiset(b)
    ensures ById(a) == ById(b)
  {
    PermutationMembers(a, b);
    forall id ensures id in ById(a) <==> id in ById(b) {
      IndexMeaning(a, id);
      IndexMeaning(b, id);
    }
    forall id | id in ById(a) ensures ById(a)[id] == ById(b)[id] {
      IndexMeaning(a, id);
      IndexMeaning(b, id);
    }
  }

  lemma {:induction false} CallMultiplicity(byId: map<string, Span>, spans: seq<Span>, c: Call)
    ensures multiset(Calls(byId, spans))[c] == if CallOf(byId, c.child) == Some(c) then multiset(spans)[c.child] else 0
  {
    if spans != [] {
      var n := |spans| - 1;
      assert spans == spans[..n] + [spans[n]];
      CallMultiplicity(byId, spans[..n], c);
    }
  }

  lemma SameCalls(byId: map<string, Span>, a: seq<Span>, b: seq<Span>)
    requires multiset(a) == multiset(b)
    ensures multiset(Calls(byId, a)) == multiset(Calls(byId, b))
  {
    forall c ensures multiset(Calls(byId, a))[c] == multiset(Calls(byId, b))[c] {
      CallMultiplicity(byId, a, c);
      CallMultiplicity(byId, b, c);
    }
  }

  lemma SameTimes(ids: set<string>, xs: seq<Call>, ys: seq<Call>, k: Pair, t: int, u: int, v: int, w: int)
    requires multiset(xs) == multiset(ys) && SpansTime(ids, xs, k, t, u) && SpansTime(ids, ys, k, v, w)
    ensures t == v && u == w
  {
    PermutationMembers(xs, ys);
  }

  lemma SamePairs(ids: set<string>, xs: seq<Call>, ys: seq<Call>, ks: seq<Pair>, ls: seq<Pair>, a: seq<RuntimeEdge>,
                  b: seq<RuntimeEdge>)
    requires multiset(xs) == multiset(ys) && Correlated(ids, xs, ks, a) && Correlated(ids, ys, ls, b)
    ensures ks == ls
  {
    forall k ensures k in ks <==> k in ls { CountPermuted(PairOf(ids), xs, ys, k); }
    StrictlySortedUnique(PairKey, ks, ls);
  }

  /** With unique span ids, permuting the batch changes neither the pairs nor their counts and times. */
  lemma OrderDoesNotMatter(ids: set<string>, spans: seq<Span>, other: seq<Span>, ks: seq<Pair>, ls: seq<Pair>,
                           a: seq<RuntimeEdge>, b: seq<RuntimeEdge>)
    requires UniqueIds(spans) && multiset(spans) == multiset(other)
    requires Correlated(ids, Calls(ById(spans), spans), ks, a) && Correlated(ids, Calls(ById(other), other), ls, b)
    ensures |a| == |b|
    ensures forall i | 0 <= i < |a| :: a[i].from == b[i].from && a[i].to == b[i].to && a[i].count == b[i].count
                                       && a[i].firstSeen == b[i].firstSeen && a[i].lastSeen == b[i].lastSeen
  {
    SameIndex(spans, other);
    SameCalls(ById(spans), spans, other);
    var xs, ys := Calls(ById(spans), spans), Calls(ById(other), other);
    SamePairs(ids, xs, ys, ks, ls, a, b);
    forall i | 0 <= i < |a|
      ensures a[i].from == b[i].from && a[i].to == b[i].to && a[i].count == b[i].count
              && a[i].firstSeen == b[i].firstSeen && a[i].lastSeen == b[i].lastSeen
    {
      assert Tells(ids, xs, ks[i], a[i]) && Tells(ids, ys, ks[i], b[i]);
      CountPermuted(PairOf(ids), xs, ys, ks[i]);
      SameTimes(ids, xs, ys, ks[i], a[i].firstSeen, a[i].lastSeen, b[i].firstSeen, b[i].lastSeen);
    }
  }
}
