/** The observation-coverage tracker as a state machine over its critical sections.

    Every exported method of the tracker and of its sessions runs under the tracker's
    lock, so a run is a sequence of operations. A session opened by Begin/BeginSource is a
    `Root` that owns one row per resource type; BeginType hands out a `Child`, a token for
    one registration of one type. In the source a child and its parent share the row by
    pointer: here the row lives in the root and a registration is named by its serial, so
    "the parent still points at my row" is "the root's row still has my serial".
    Serial 0 marks the rows that begin() itself creates, which have no child. */
module CoverageModel {
  import opened Options

  const MAX_CLUSTERS: nat := 128
  const MAX_TYPES: nat := 256

  /** Instants; 0 is the zero time that IsZero() recognises. */
  type Time = int

  datatype Gvr = Gvr(group: string, version: string, resource: string)

  /** `Core` is the empty source name used by Begin. */
  datatype Source = Core | Crd | Gatekeeper | OtherSource(name: string)

  /** The closed vocabulary; `NoReason` is the empty string. */
  datatype Reason =
    | NoReason | NotWatched | InitialPending | ListFailed | ListDenied
    | WatchPending | WatchClosed | WatchFailed | WatchDenied | CollectorStopped
    | ProcessingFailed | ExtractionFailed | PersistenceFailed | OtherReason(text: string)

  /** The stored row of one resource type. */
  datatype Row = Row(
    gvr: Gvr, serial: nat, revision: nat, since: Time,
    initialDone: bool, established: bool, lastList: Time, watchGap: Time,
    processingGap: Time, extractionGap: Time, persistenceGap: Time,
    listReason: Reason, watchReason: Reason, epoch: nat, stopped: bool)

  datatype DiscoveryState = ApiUnknown | ApiAdvertised | ApiNotAdvertised | ApiDenied | ApiFailed | ApiInvalid

  datatype Discovery = Discovery(state: DiscoveryState, checkedAt: Time, revision: nat)

  datatype Session =
    | Root(generation: nat, cluster: string, source: Source, rows: map<Gvr, Row>,
           limited: bool, discovery: Option<Discovery>, stopped: bool)
    | Child(parent: nat, gvr: Gvr, serial: nat, stopped: bool)

  datatype State = State(
    clusters: map<string, nat>,
    sources: map<string, map<Source, nat>>,
    inventories: map<string, nat>,
    sessions: seq<Session>,
    nextGeneration: nat,
    nextSerial: nat)

  const Initial := State(map[], map[], map[], [], 0, 0)

  // ---------------------------------------------------------------------------------
  // Scopes and slots

  predicate Plain(s: string) {
    '/' !in s && ':' !in s && '\0' !in s
  }

  predicate ValidGvr(g: Gvr) {
    && g.version != "" && g.resource != ""
    && |g.group| + |g.version| + |g.resource| <= 768
    && Plain(g.group) && Plain(g.version) && Plain(g.resource)
  }

  predicate ValidScope(cluster: string, gvrs: seq<Gvr>) {
    && |cluster| <= 253 && '/' !in cluster && ':' !in cluster
    && |gvrs| <= MAX_TYPES
    && (forall i | 0 <= i < |gvrs| :: ValidGvr(gvrs[i]))
  }

  /** The session currently registered for a cluster and source. */
  function Current(s: State, cluster: string, source: Source): Option<nat> {
    if source == Core then
      if cluster in s.clusters then Some(s.clusters[cluster]) else None
    else if cluster in s.sources && source in s.sources[cluster] then
      Some(s.sources[cluster][source])
    else
      None
  }

  function KnownClusters(s: State): set<string> {
    s.clusters.Keys + s.sources.Keys + s.inventories.Keys
  }

  /** Every handle denotes a session, children hang off roots, slots hold roots. */
  ghost predicate Linked(s: State) {
    && (forall i | 0 <= i < |s.sessions| :: ParentOk(s.sessions, i))
    && (forall c, src | Current(s, c, src).Some? :: IsRootOf(s, Current(s, c, src).value, c, src))
  }

  ghost predicate ParentOk(sessions: seq<Session>, i: nat)
    requires i < |sessions|
  {
    sessions[i].Child? ==> sessions[i].parent < i && sessions[sessions[i].parent].Root?
  }

  ghost predicate IsRootOf(s: State, k: nat, cluster: string, source: Source) {
    && k < |s.sessions| && s.sessions[k].Root?
    && s.sessions[k].cluster == cluster && s.sessions[k].source == source
  }

  function Owner(s: State, sid: nat): (k: nat)
    requires Linked(s) && sid < |s.sessions|
    ensures k < |s.sessions| && s.sessions[k].Root?
  {
    assert ParentOk(s.sessions, sid);
    if s.sessions[sid].Child? then s.sessions[sid].parent else sid
  }

  /** activeLocked: neither the handle nor its owner stopped, and the owner still holds its slot. */
  predicate Active(s: State, sid: nat)
    requires Linked(s)
  {
    && sid < |s.sessions|
    && var k := Owner(s, sid);
       && !s.sessions[sid].stopped && !s.sessions[k].stopped
       && Current(s, s.sessions[k].cluster, s.sessions[k].source) == Some(k)
  }

  /** The row a handle may write: live, and still the registration the handle was made for. */
  predicate Writable(s: State, sid: nat, gvr: Gvr)
    requires Linked(s)
  {
    && Active(s, sid)
    && var rows := s.sessions[Owner(s, sid)].rows;
       && gvr in rows && !rows[gvr].stopped
       && (s.sessions[sid].Child? ==> s.sessions[sid].gvr == gvr && s.sessions[sid].serial == rows[gvr].serial)
  }

  // ---------------------------------------------------------------------------------
  // Operations

  datatype Change =
    | InitialDelivery
    | ListResult(success: bool, denied: bool, now: Time)
    | WatchStarted
    | WatchEnded(endedEpoch: nat, reason: Reason, now: Time)
    | RecordGap(reason: Reason, now: Time)

  datatype Op =
    | Begin(cluster: string, gvrs: seq<Gvr>, now: Time)
    | BeginSource(cluster: string, source: Source, now: Time)
    | BeginInventory(cluster: string)
    | BeginType(sid: nat, gvr: Gvr, now: Time)
    | Update(sid: nat, gvr: Gvr, change: Change)
    | RecordDiscovery(sid: nat, found: DiscoveryState, checked: Time)
    | Stop(sid: nat, now: Time)

  /** The reason WatchEnded stores: anything outside the watch vocabulary counts as a failure. */
  function WatchEndReason(reason: Reason): Reason {
    if reason in {WatchClosed, WatchDenied, WatchFailed} then reason else WatchFailed
  }

  function FirstGap(gap: Time, now: Time): Time {
    if gap == 0 then now else gap
  }

  function Touched(r: Row, c: Change): Row {
    match c
    case InitialDelivery =>
      if r.initialDone then r else r.(revision := r.revision + 1, initialDone := true)
    case ListResult(success, denied, now) =>
      if success then r.(revision := r.revision + 1, lastList := now, listReason := NoReason)
      else r.(revision := r.revision + 1, listReason := if denied then ListDenied else ListFailed)
    case WatchStarted =>
      r.(revision := r.revision + 1, epoch := r.epoch + 1, established := true, watchReason := NoReason, watchGap := 0)
    case WatchEnded(endedEpoch, reason, now) =>
      if endedEpoch != 0 && r.epoch != endedEpoch then r
      else
        var why := WatchEndReason(reason);
        r.(revision := r.revision + 1, established := false, watchGap := FirstGap(r.watchGap, now),
           watchReason := if why != WatchClosed || r.watchReason == NoReason || r.watchReason == WatchPending then why
                          else r.watchReason)
    case RecordGap(reason, now) =>
      match reason {
        case ExtractionFailed =>
          if r.extractionGap != 0 then r else r.(revision := r.revision + 1, extractionGap := now)
        case PersistenceFailed =>
          if r.persistenceGap != 0 then r else r.(revision := r.revision + 1, persistenceGap := now)
        case _ =>
          if r.processingGap != 0 then r else r.(revision := r.revision + 1, processingGap := now)
      }
  }

  /** A row that its collector stopped serving. */
  function Stopped(r: Row, now: Time): Row {
    r.(revision := r.revision + 1, stopped := true, established := false, watchGap := FirstGap(r.watchGap, now))
  }

  /** A row inherited by the session that replaces its own: stopped, revision restarted. */
  function Inherited(r: Row, now: Time): Row {
    r.(serial := 0, revision := 1, stopped := true, established := false, watchGap := FirstGap(r.watchGap, now))
  }

  /** A newly watched row; the known data gaps of its predecessor survive. */
  function Fresh(gvr: Gvr, prior: Option<Row>, serial: nat, revision: nat, now: Time): Row {
    var gaps := if prior.Some? then (prior.value.processingGap, prior.value.extractionGap, prior.value.persistenceGap)
        else (0, 0, 0);
    Row(gvr, serial, revision, now, false, false, 0, 0, gaps.0, gaps.1, gaps.2, NoReason, WatchPending, 0, false)
  }

  function RowAt(rows: map<Gvr, Row>, g: Gvr): Option<Row> {
    if g in rows then Some(rows[g]) else None
  }

  /** The rows of a session that replaces one holding `prior`. */
  function BegunRows(prior: map<Gvr, Row>, gvrs: seq<Gvr>, now: Time): map<Gvr, Row> {
    map g | g in prior.Keys + (set i | 0 <= i < |gvrs| :: gvrs[i]) ::
      if g in gvrs then Fresh(g, RowAt(prior, g), 0, 1, now) else Inherited(prior[g], now)
  }

  function PreviousRows(s: State, cluster: string, source: Source): map<Gvr, Row>
    requires Linked(s)
  {
    var k := Current(s, cluster, source);
    if k.Some? then s.sessions[k.value].rows else map[]
  }

  predicate HasRoom(s: State, cluster: string) {
    cluster in KnownClusters(s) || |KnownClusters(s)| < MAX_CLUSTERS
  }

  predicate BeginAccepted(s: State, cluster: string, source: Source, gvrs: seq<Gvr>, now: Time)
    requires Linked(s)
  {
    && ValidScope(cluster, gvrs) && now != 0 && HasRoom(s, cluster)
    && |BegunRows(PreviousRows(s, cluster, source), gvrs, now)| <= MAX_TYPES
  }

  /** The state after begin() installed a new root for the slot. */
  function Begun(s: State, cluster: string, source: Source, gvrs: seq<Gvr>, now: Time): State
    requires Linked(s)
  {
    var k := Current(s, cluster, source);
    var root := Root(s.nextGeneration + 1, cluster, source, BegunRows(PreviousRows(s, cluster, source), gvrs, now),
                     k.Some? && s.sessions[k.value].limited, None, false);
    var id := |s.sessions|;
    var t := s.(sessions := s.sessions + [root], nextGeneration := s.nextGeneration + 1);
    if source == Core then t.(clusters := s.clusters[cluster := id])
    else
      var slots := if cluster in s.sources then s.sources[cluster] else map[];
      t.(sources := s.sources[cluster := slots[source := id]])
  }

  /** BeginAPIInventory takes a generation and a place among the known clusters, but no session. */
  function InventoryBegun(s: State, cluster: string): State {
    s.(nextGeneration := s.nextGeneration + 1, inventories := s.inventories[cluster := s.nextGeneration + 1])
  }

  predicate TypeScopeOk(s: State, sid: nat, gvr: Gvr, now: Time)
    requires Linked(s)
  {
    && sid < |s.sessions| && s.sessions[sid].Root? && s.sessions[sid].source != Core
    && ValidScope(s.sessions[sid].cluster, [gvr]) && now != 0
    && !(gvr.group == "" && gvr.resource == "secrets")
    && Active(s, sid)
    && (gvr in s.sessions[sid].rows ==> s.sessions[sid].rows[gvr].stopped)
  }

  predicate TypeAccepted(s: State, sid: nat, gvr: Gvr, now: Time)
    requires Linked(s)
  {
    && TypeScopeOk(s, sid, gvr, now)
    && (gvr in s.sessions[sid].rows || |s.sessions[sid].rows| < MAX_TYPES)
  }

  function Replaced(s: State, k: nat, x: Session): State
    requires k < |s.sessions|
  {
    s.(sessions := s.sessions[k := x])
  }

  function WithRow(s: State, k: nat, gvr: Gvr, r: Row): State
    requires k < |s.sessions| && s.sessions[k].Root?
  {
    Replaced(s, k, s.sessions[k].(rows := s.sessions[k].rows[gvr := r]))
  }

  function TypeBegun(s: State, sid: nat, gvr: Gvr, now: Time): State
    requires Linked(s) && TypeAccepted(s, sid, gvr, now)
  {
    var prior := RowAt(s.sessions[sid].rows, gvr);
    var serial := s.nextSerial + 1;
    var r := Fresh(gvr, prior, serial, if prior.Some? then prior.value.revision + 1 else 1, now);
    var t := WithRow(s, sid, gvr, r);
    t.(sessions := t.sessions + [Child(sid, gvr, serial, false)], nextSerial := serial)
  }

  /** The row of a new registration. */
  function RegistrationRow(prior: map<Gvr, Row>, gvr: Gvr, serial: nat, now: Time): Row {
    Fresh(gvr, RowAt(prior, gvr), serial, if gvr in prior then prior[gvr].revision + 1 else 1, now)
  }

  /** Sessions in which root `sid` files `r`, with a new token for it. */
  function WithToken(sessions: seq<Session>, sid: nat, gvr: Gvr, r: Row): seq<Session>
    requires sid < |sessions| && sessions[sid].Root?
  {
    sessions[sid := sessions[sid].(rows := sessions[sid].rows[gvr := r])] + [Child(sid, gvr, r.serial, false)]
  }

  lemma RegisteredSessions(s: State, sid: nat, gvr: Gvr, now: Time)
    requires Linked(s) && TypeAccepted(s, sid, gvr, now)
    ensures TypeBegun(s, sid, gvr, now)
            == s.(sessions := WithToken(s.sessions, sid, gvr,
               RegistrationRow(s.sessions[sid].rows, gvr, s.nextSerial + 1, now)),
                  nextSerial := s.nextSerial + 1)
  {
  }

  function StoppedRows(rows: map<Gvr, Row>, now: Time): map<Gvr, Row> {
    map g | g in rows :: if rows[g].stopped then rows[g] else Stopped(rows[g], now)
  }

  function StopApplied(s: State, sid: nat, now: Time): State
    requires Linked(s) && Active(s, sid)
  {
    var x := s.sessions[sid];
    if x.Root? then
      Replaced(s, sid, x.(rows := StoppedRows(x.rows, now), stopped := true))
    else
      var t := Replaced(s, sid, Child(x.parent, x.gvr, x.serial, true));
      if Writable(s, sid, x.gvr)
      then WithRow(t, x.parent, x.gvr, Stopped(s.sessions[x.parent].rows[x.gvr], now)) else t
  }

  predicate DiscoveryAccepted(s: State, sid: nat, found: DiscoveryState, checked: Time)
    requires Linked(s)
  {
    && Active(s, sid) && s.sessions[sid].Root? && s.sessions[sid].source == Gatekeeper
    && found != ApiInvalid && (found == ApiUnknown <==> checked == 0)
  }

  function WithDiscovery(x: Session, found: DiscoveryState, checked: Time): Session
    requires x.Root?
  {
    x.(discovery := Some(Discovery(found, checked, if x.discovery.Some? then x.discovery.value.revision + 1 else 1)))
  }

  function DiscoveryRecorded(s: State, sid: nat, found: DiscoveryState, checked: Time): State
    requires Linked(s) && DiscoveryAccepted(s, sid, found, checked)
  {
    Replaced(s, sid, WithDiscovery(s.sessions[sid], found, checked))
  }

  /** One critical section. A rejected call, a nil handle or a late callback changes nothing. */
  function Apply(s: State, op: Op): State
    requires Linked(s)
  {
    match op
    case Begin(cluster, gvrs, now) =>
      if BeginAccepted(s, cluster, Core, gvrs, now) then Begun(s, cluster, Core, gvrs, now) else s
    case BeginSource(cluster, source, now) =>
      if source in {Crd, Gatekeeper} && BeginAccepted(s, cluster, source, [], now)
      then Begun(s, cluster, source, [], now) else s
    case BeginInventory(cluster) =>
      if ValidScope(cluster, []) && HasRoom(s, cluster)
      then InventoryBegun(s, cluster) else s
    case BeginType(sid, gvr, now) =>
      if TypeAccepted(s, sid, gvr, now) then TypeBegun(s, sid, gvr, now)
      else if TypeScopeOk(s, sid, gvr, now) then Replaced(s, sid, s.sessions[sid].(limited := true))
      else s
    case Update(sid, gvr, change) =>
      if Writable(s, sid, gvr)
      then WithRow(s, Owner(s, sid), gvr, Touched(s.sessions[Owner(s, sid)].rows[gvr], change)) else s
    case RecordDiscovery(sid, found, checked) =>
      if DiscoveryAccepted(s, sid, found, checked) then DiscoveryRecorded(s, sid, found, checked) else s
    case Stop(sid, now) =>
      if Active(s, sid) then StopApplied(s, sid, now) else s
  }
}
