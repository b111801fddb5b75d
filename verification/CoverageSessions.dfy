/** When sessions, type registrations and inventories of the coverage tracker begin, spelled out, and what then holds.
    */
module CoverageSessions {
  import opened Options
  import opened CoverageModel
  import opened CoverageRuns
  import CoverageHistory

  /** A cluster the tracker knows, or there is room for another one. */
  ghost predicate Admits(s: State, cluster: string) {
    || cluster in s.clusters || cluster in s.sources || cluster in s.inventories
    || |s.clusters.Keys + s.sources.Keys + s.inventories.Keys| < 128
  }

  /** A name a cluster may have. */
  ghost predicate ClusterName(cluster: string) {
    |cluster| < 254 && !('/' in cluster || ':' in cluster)
  }

  ghost predicate TypeName(g: Gvr) {
    && g.version != "" && g.resource != "" && |g.group| + |g.version| + |g.resource| < 769
    && forall c | c in g.group || c in g.version || c in g.resource :: c != '/' && c != ':' && c != '\0'
  }

  /** The types a new session would hold: those asked for, and those of the session it replaces. */
  ghost function TypesAfter(s: State, cluster: string, source: Source, gvrs: seq<Gvr>): set<Gvr>
    requires Linked(s)
  {
    (set g | g in gvrs) + match Current(s, cluster, source)
                          case None => {}
                          case Some(k) => s.sessions[k].rows.Keys
  }

  ghost predicate MayBegin(s: State, cluster: string, source: Source, gvrs: seq<Gvr>, now: Time)
    requires Linked(s)
  {
    && ClusterName(cluster) && |gvrs| < 257 && (forall g | g in gvrs :: TypeName(g))
    && now != 0 && Admits(s, cluster) && |TypesAfter(s, cluster, source, gvrs)| < 257
  }

  lemma {:induction false} BeginSpelledOut(s: State, cluster: string, source: Source, gvrs: seq<Gvr>, now: Time)
    requires Linked(s)
    ensures BeginAccepted(s, cluster, source, gvrs, now) <==> MayBegin(s, cluster, source, gvrs, now)
  {
    ScopeOfNames(cluster, gvrs);
    TypesCounted(s, cluster, source, gvrs, now);
    AdmitsIsRoom(s, cluster);
  }

  lemma {:induction false} ScopeOfNames(cluster: string, gvrs: seq<Gvr>)
    ensures ValidScope(cluster, gvrs) <==>
              ClusterName(cluster) && |gvrs| < 257 && forall g | g in gvrs :: TypeName(g)
  {
    CoverageHistory.ScopesSpelledOut(cluster, gvrs);
  }

  lemma {:induction false} TypesCounted(s: State, cluster: string, source: Source, gvrs: seq<Gvr>, now: Time)
    requires Linked(s)
    ensures |BegunRows(PreviousRows(s, cluster, source), gvrs, now)| == |TypesAfter(s, cluster, source, gvrs)|
  {
    var rows := BegunRows(PreviousRows(s, cluster, source), gvrs, now);
    assert rows.Keys == TypesAfter(s, cluster, source, gvrs);
    assert |rows| == |rows.Keys|;
  }

  lemma AdmitsIsRoom(s: State, cluster: string)
    ensures HasRoom(s, cluster) <==> Admits(s, cluster)
  {
  }

  /** A begin takes a new generation exactly when its scope, its time and the limits allow it, and is otherwise
      without any effect. */
  lemma {:induction false} BeginsExactly(s: State, cluster: string, gvrs: seq<Gvr>, source: Source, now: Time)
    requires Linked(s)
    ensures var t := Apply(s, Begin(cluster, gvrs, now));
            if MayBegin(s, cluster, Core, gvrs, now) then t.nextGeneration == s.nextGeneration + 1 else t == s
    ensures var t := Apply(s, BeginSource(cluster, source, now));
            if source in {Crd, Gatekeeper} && MayBegin(s, cluster, source, [], now)
            then t.nextGeneration == s.nextGeneration + 1 else t == s
  {
    BeginSpelledOut(s, cluster, Core, gvrs, now);
    BeginSpelledOut(s, cluster, source, [], now);
  }

  /** A begun session is the current one of its slot, is active, and takes over from its predecessor only whether the
      inventory was limited; all other slots stay. */
  lemma BegunIsCurrent(s: State, cluster: string, source: Source, gvrs: seq<Gvr>, now: Time)
    requires Inv(s) && BeginAccepted(s, cluster, source, gvrs, now)
    ensures var t, id, before := Begun(s, cluster, source, gvrs, now), |s.sessions|, Current(s, cluster, source);
            && Linked(t) && |t.sessions| == id + 1 && Current(t, cluster, source) == Some(id) && Active(t, id)
            && t.sessions[id].Root? && t.sessions[id].generation == t.nextGeneration == s.nextGeneration + 1
            && t.sessions[id].cluster == cluster && t.sessions[id].source == source
            && t.sessions[id].discovery == None
            && t.sessions[id].limited == (before.Some? && s.sessions[before.value].limited)
            && t.sessions[..id] == s.sessions && t.inventories == s.inventories
    ensures forall c, x | (c, x) != (cluster, source) ::
              Current(Begun(s, cluster, source, gvrs, now), c, x) == Current(s, c, x)
  {
    BegunKeepsInv(s, cluster, source, gvrs, now);
    CurrentAfterBegun(s, cluster, source, gvrs, now, cluster, source);
    forall c, x | (c, x) != (cluster, source)
      ensures Current(Begun(s, cluster, source, gvrs, now), c, x) == Current(s, c, x)
    {
      CurrentAfterBegun(s, cluster, source, gvrs, now, c, x);
    }
  }

  /** An inventory begins exactly for a cluster that may be named and is known or fits; it takes the next generation and
      touches no session. */
  lemma InventoryBeginsExactly(s: State, cluster: string)
    requires Linked(s)
    ensures var t := Apply(s, BeginInventory(cluster));
            if ClusterName(cluster) && Admits(s, cluster)
            then t.nextGeneration == s.nextGeneration + 1 && cluster in t.inventories
                 && t.inventories == s.inventories[cluster := t.nextGeneration]
                 && t.sessions == s.sessions && t.clusters == s.clusters && t.sources == s.sources
            else t == s
  {
    CoverageHistory.ScopesSpelledOut(cluster, []);
  }

  /** A type may be registered: by the active root of a dynamic source, with a name and a time, not the core Secrets,
      and not while it has a live row. */
  ghost predicate MayRegister(s: State, sid: nat, gvr: Gvr, now: Time)
    requires Linked(s)
  {
    && Active(s, sid) && s.sessions[sid].Root? && s.sessions[sid].source != Core
    && ClusterName(s.sessions[sid].cluster) && TypeName(gvr) && now != 0
    && !(gvr.group == "" && gvr.resource == "secrets")
    && (gvr in s.sessions[sid].rows ==> s.sessions[sid].rows[gvr].stopped)
  }

  lemma TypeScopeSpelledOut(s: State, sid: nat, gvr: Gvr, now: Time)
    requires Linked(s)
    ensures TypeScopeOk(s, sid, gvr, now) <==> MayRegister(s, sid, gvr, now)
  {
    if sid < |s.sessions| && s.sessions[sid].Root? {
      CoverageHistory.ScopesSpelledOut(s.sessions[sid].cluster, [gvr]);
      assert forall g | g in [gvr] :: g == gvr;
      assert gvr in [gvr];
    }
  }

  /** A type that may be registered gets a token when the session knows it or has room for it, and else only marks the
      session's inventory as limited; any other request is without effect. */
  lemma TypeRegistersExactly(s: State, sid: nat, gvr: Gvr, now: Time)
    requires Inv(s)
    ensures var t := Apply(s, BeginType(sid, gvr, now));
            if !MayRegister(s, sid, gvr, now) then t == s
            else if gvr in s.sessions[sid].rows || |s.sessions[sid].rows| < 256
            then Registered(s, t, sid, gvr, now)
            else t == s.(sessions := s.sessions[sid := s.sessions[sid].(limited := true)])
  {
    TypeScopeSpelledOut(s, sid, gvr, now);
    if TypeAccepted(s, sid, gvr, now) { TokenIsActive(s, sid, gvr, now); }
  }

  /** There is one more session, an active token of the root for the type, and the root holds a new row for it. */
  ghost predicate Registered(s: State, t: State, sid: nat, gvr: Gvr, now: Time) {
    && Linked(t) && |t.sessions| == |s.sessions| + 1 && Active(t, |s.sessions|) && Writable(t, |s.sessions|, gvr)
    && t.sessions[|s.sessions|].Child? && t.sessions[|s.sessions|].parent == sid && t.sessions[|s.sessions|].gvr == gvr
    && sid < |s.sessions| && s.sessions[sid].Root? && t.sessions[sid].Root?
    && t.sessions[sid].rows.Keys == s.sessions[sid].rows.Keys + {gvr}
    && t.sessions[sid].rows[gvr].since == now && !t.sessions[sid].rows[gvr].stopped
    && (forall g | g in s.sessions[sid].rows && g != gvr :: t.sessions[sid].rows[g] == s.sessions[sid].rows[g])
    && forall k | 0 <= k < |s.sessions| && k != sid :: t.sessions[k] == s.sessions[k]
  }

  lemma TokenIsActive(s: State, sid: nat, gvr: Gvr, now: Time)
    requires Inv(s) && TypeAccepted(s, sid, gvr, now)
    ensures Registered(s, TypeBegun(s, sid, gvr, now), sid, gvr, now)
  {
    RegisteredSessions(s, sid, gvr, now);
    TypeBegunKeepsInv(s, sid, gvr, now);
  }

  // ---------------------------------------------------------------------------------
  // What the end of a collector leaves

  /** The evidence of a row outlives its collector: the disconnection counts from its first moment, and everything
      recorded before stays. */
  ghost predicate EvidenceStays(r: Row, after: Row, now: Time) {
    && after.stopped && !after.established && after.watchGap == (if r.watchGap == 0 then now else r.watchGap)
    && after.gvr == r.gvr && after.since == r.since && after.initialDone == r.initialDone
    && after.lastList == r.lastList && after.listReason == r.listReason && LossesStay(r, after)
  }

  ghost predicate LossesStay(r: Row, after: Row) {
    && after.processingGap == r.processingGap && after.extractionGap == r.extractionGap
    && after.persistenceGap == r.persistenceGap
  }

  /** Stop of a session keeps the evidence of its live rows, and its stopped rows as they are. */
  lemma StopKeepsEvidence(s: State, sid: nat, now: Time, g: Gvr)
    requires Inv(s) && Active(s, sid) && s.sessions[sid].Root? && g in s.sessions[sid].rows
    ensures var t := Apply(s, Stop(sid, now));
            && |t.sessions| == |s.sessions| && t.sessions[sid].Root?
               && t.sessions[sid].rows.Keys == s.sessions[sid].rows.Keys
            && var r, after := s.sessions[sid].rows[g], t.sessions[sid].rows[g];
               if r.stopped then after == r else EvidenceStays(r, after, now) && after.revision == r.revision + 1
  {
  }

  /** Stop of a token does so for its own row. */
  lemma TokenStopKeepsEvidence(s: State, sid: nat, now: Time)
    requires Inv(s) && sid < |s.sessions| && s.sessions[sid].Child? && Writable(s, sid, s.sessions[sid].gvr)
    ensures var x, t := s.sessions[sid], Apply(s, Stop(sid, now));
            && x.parent < |t.sessions| && t.sessions[x.parent].Root? && x.gvr in t.sessions[x.parent].rows
            && EvidenceStays(s.sessions[x.parent].rows[x.gvr], t.sessions[x.parent].rows[x.gvr], now)
  {
    assert ParentOk(s.sessions, sid);
  }

  /** A session that replaces another one keeps the evidence of the types it does not watch any more, and the losses of
      those it does. */
  lemma ReplacementKeepsEvidence(s: State, cluster: string, source: Source, gvrs: seq<Gvr>, now: Time, k: nat, g: Gvr)
    requires Inv(s) && BeginAccepted(s, cluster, source, gvrs, now)
    requires Current(s, cluster, source) == Some(k) && g in s.sessions[k].rows
    ensures var rows := Begun(s, cluster, source, gvrs, now).sessions[|s.sessions|].rows;
            && g in rows
            && if g in gvrs then LossesStay(s.sessions[k].rows[g], rows[g])
               else EvidenceStays(s.sessions[k].rows[g], rows[g], now)
  {
  }
}
