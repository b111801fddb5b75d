/** What every run of the coverage tracker keeps.

    The theorems at the end speak about all runs from all states that satisfy the invariant,
    which the empty tracker satisfies and every operation preserves. */
module CoverageRuns {
  import opened Options
  import opened CoverageModel

  // ---------------------------------------------------------------------------------
  // The invariant

  ghost predicate RowOk(r: Row) {
    && r.revision >= 1
    && (r.watchGap != 0 ==> !r.established)
    && (r.stopped ==> !r.established)
    && (!r.established && !r.stopped ==> r.watchReason != NoReason)
  }

  ghost predicate RowsOk(rows: map<Gvr, Row>, maxSerial: nat) {
    forall g | g in rows :: RowOk(rows[g]) && ValidGvr(g) && rows[g].gvr == g && rows[g].serial <= maxSerial
  }

  /** A superseded registration was stopped, and a stopped row has a stopped collector. */
  ghost predicate ChildOk(owner: Session, x: Session, maxSerial: nat) {
    && x.Child? && owner.Root?
    && 1 <= x.serial <= maxSerial
    && x.gvr in owner.rows
    && (owner.rows[x.gvr].serial != x.serial ==> x.stopped)
    && (owner.rows[x.gvr].stopped ==> x.stopped || owner.stopped)
  }

  /** Only source sessions register types one by one, so the rows of a core session keep serial 0. */
  function SerialBound(s: State, source: Source): nat {
    if source == Core then 0 else s.nextSerial
  }

  ghost predicate SessionOk(s: State, i: nat)
    requires i < |s.sessions|
  {
    var x := s.sessions[i];
    if x.Root? then
      1 <= x.generation <= s.nextGeneration && |x.rows| <= MAX_TYPES && RowsOk(x.rows, SerialBound(s, x.source))
    else
      x.parent < i && ChildOk(s.sessions[x.parent], x, s.nextSerial)
  }

  /** Generations and registration serials grow with the order of creation. */
  ghost predicate Older(x: Session, y: Session) {
    && (x.Root? && y.Root? ==> x.generation < y.generation)
    && (x.Child? && y.Child? ==> x.serial < y.serial)
  }

  ghost predicate InOrder(sessions: seq<Session>) {
    forall i, j | 0 <= i < j < |sessions| :: Older(sessions[i], sessions[j])
  }

  ghost predicate SessionsOk(s: State) {
    forall i | 0 <= i < |s.sessions| :: SessionOk(s, i)
  }

  ghost predicate Inv(s: State) {
    Linked(s) && SessionsOk(s) && InOrder(s.sessions) && |KnownClusters(s)| <= MAX_CLUSTERS
  }

  lemma InitialInv()
    ensures Inv(Initial)
  {
  }

  lemma TouchedOk(r: Row, c: Change)
    requires RowOk(r) && !r.stopped
    ensures RowOk(Touched(r, c))
    ensures Touched(r, c).gvr == r.gvr && Touched(r, c).serial == r.serial && !Touched(r, c).stopped
  {
  }

  // ---------------------------------------------------------------------------------
  // Replacing one session by a later version of itself

  ghost predicate SameIdentity(x: Session, y: Session) {
    && (x.Root? <==> y.Root?)
    && (x.Root? ==> x.generation == y.generation && x.cluster == y.cluster && x.source == y.source)
    && (x.Child? ==> x.parent == y.parent && x.gvr == y.gvr && x.serial == y.serial)
  }

  lemma ReplaceLinked(s: State, k: nat, x: Session)
    requires Linked(s) && k < |s.sessions| && SameIdentity(s.sessions[k], x)
    ensures Linked(Replaced(s, k, x))
  {
    var t := Replaced(s, k, x);
    forall i | 0 <= i < |t.sessions| ensures ParentOk(t.sessions, i) {
      assert ParentOk(s.sessions, i);
    }
    forall c, src | Current(t, c, src).Some? ensures IsRootOf(t, Current(t, c, src).value, c, src) {
      assert Current(s, c, src) == Current(t, c, src);
    }
  }

  lemma ReplaceInOrder(s: State, k: nat, x: Session)
    requires InOrder(s.sessions) && k < |s.sessions| && SameIdentity(s.sessions[k], x)
    ensures InOrder(Replaced(s, k, x).sessions)
  {
    var t := Replaced(s, k, x);
    forall i, j | 0 <= i < j < |t.sessions| ensures Older(t.sessions[i], t.sessions[j]) {
      assert Older(s.sessions[i], s.sessions[j]);
    }
  }

  lemma ReplaceKeepsInv(s: State, k: nat, x: Session)
    requires Inv(s) && k < |s.sessions| && SameIdentity(s.sessions[k], x)
    requires SessionOk(Replaced(s, k, x), k)
    requires x.Root? ==> forall i | 0 <= i < |s.sessions| && i != k && s.sessions[i].Child?
               && s.sessions[i].parent == k ::
               ChildOk(x, s.sessions[i], s.nextSerial)
    ensures Inv(Replaced(s, k, x))
  {
    var t := Replaced(s, k, x);
    ReplaceLinked(s, k, x);
    ReplaceInOrder(s, k, x);
    forall i | 0 <= i < |t.sessions| ensures SessionOk(t, i) {
      assert SessionOk(s, i) && ParentOk(s.sessions, i);
    }
    assert KnownClusters(t) == KnownClusters(s);
  }

  lemma SameKeysSameSize(a: map<Gvr, Row>, b: map<Gvr, Row>)
    requires a.Keys == b.Keys
    ensures |a| == |b|
  {
    assert |a| == |a.Keys| && |b| == |b.Keys|;
  }

  /** Rows may change as long as registrations and stop flags stay. */
  lemma RowsKeepInv(s: State, k: nat, x: Session)
    requires Inv(s) && k < |s.sessions| && s.sessions[k].Root? && SameIdentity(s.sessions[k], x)
    requires x.stopped == s.sessions[k].stopped && x.rows.Keys == s.sessions[k].rows.Keys
    requires RowsOk(x.rows, SerialBound(s, x.source))
    requires forall g | g in x.rows ::
               x.rows[g].serial == s.sessions[k].rows[g].serial && x.rows[g].stopped == s.sessions[k].rows[g].stopped
    ensures Inv(Replaced(s, k, x))
  {
    SameKeysSameSize(x.rows, s.sessions[k].rows);
    assert SessionOk(s, k);
    forall i | 0 <= i < |s.sessions| && i != k && s.sessions[i].Child? && s.sessions[i].parent == k
      ensures ChildOk(x, s.sessions[i], s.nextSerial)
    {
      assert SessionOk(s, i);
    }
    ReplaceKeepsInv(s, k, x);
  }

  // ---------------------------------------------------------------------------------
  // Opening sessions

  lemma CurrentAfterBegun(s: State, cluster: string, source: Source, gvrs: seq<Gvr>, now: Time, c: string, src: Source)
    requires Linked(s)
    ensures Current(Begun(s, cluster, source, gvrs, now), c, src)
            == if c == cluster && src == source then Some(|s.sessions|) else Current(s, c, src)
  {
  }

  lemma BegunRowsOk(prior: map<Gvr, Row>, gvrs: seq<Gvr>, now: Time, maxSerial: nat)
    requires RowsOk(prior, maxSerial) && now != 0
    requires forall i | 0 <= i < |gvrs| :: ValidGvr(gvrs[i])
    ensures RowsOk(BegunRows(prior, gvrs, now), 0)
  {
    var rows := BegunRows(prior, gvrs, now);
    forall g | g in rows ensures RowOk(rows[g]) && ValidGvr(g) && rows[g].gvr == g && rows[g].serial == 0 {
      if g !in gvrs { assert g in prior; }
    }
  }

  lemma PreviousRowsOk(s: State, cluster: string, source: Source)
    requires Inv(s)
    ensures RowsOk(PreviousRows(s, cluster, source), s.nextSerial)
  {
    var k := Current(s, cluster, source);
    if k.Some? { assert SessionOk(s, k.value); }
  }

  lemma AppendKeepsSessions(s: State, t: State, x: Session)
    requires SessionsOk(s) && t.sessions == s.sessions + [x]
    requires t.nextGeneration >= s.nextGeneration && t.nextSerial >= s.nextSerial
    requires SessionOk(t, |s.sessions|)
    ensures SessionsOk(t)
  {
    forall i | 0 <= i < |t.sessions| ensures SessionOk(t, i) {
      if i < |s.sessions| { assert SessionOk(s, i); }
    }
  }

  lemma AppendKeepsOrder(s: State, x: Session)
    requires SessionsOk(s) && InOrder(s.sessions)
    requires x.Root? ==> x.generation > s.nextGeneration
    requires x.Child? ==> x.serial > s.nextSerial
    ensures InOrder(s.sessions + [x])
  {
    var after := s.sessions + [x];
    forall i, j | 0 <= i < j < |after| ensures Older(after[i], after[j]) {
      assert SessionOk(s, i);
      if j < |s.sessions| { assert Older(s.sessions[i], s.sessions[j]); }
    }
  }

  lemma BegunLinked(s: State, cluster: string, source: Source, gvrs: seq<Gvr>, now: Time)
    requires Linked(s)
    ensures Linked(Begun(s, cluster, source, gvrs, now))
  {
    var t := Begun(s, cluster, source, gvrs, now);
    forall i | 0 <= i < |t.sessions| ensures ParentOk(t.sessions, i) {
      if i < |s.sessions| { assert ParentOk(s.sessions, i); }
    }
    forall c, src | Current(t, c, src).Some? ensures IsRootOf(t, Current(t, c, src).value, c, src) {
      CurrentAfterBegun(s, cluster, source, gvrs, now, c, src);
    }
  }

  lemma BegunKeepsInv(s: State, cluster: string, source: Source, gvrs: seq<Gvr>, now: Time)
    requires Inv(s) && BeginAccepted(s, cluster, source, gvrs, now)
    ensures Inv(Begun(s, cluster, source, gvrs, now))
  {
    var t := Begun(s, cluster, source, gvrs, now);
    var x := t.sessions[|s.sessions|];
    BegunLinked(s, cluster, source, gvrs, now);
    PreviousRowsOk(s, cluster, source);
    BegunRowsOk(PreviousRows(s, cluster, source), gvrs, now, s.nextSerial);
    AppendKeepsSessions(s, t, x);
    AppendKeepsOrder(s, x);
    BegunHasRoom(s, cluster, source, gvrs, now);
  }

  lemma RoomForOne(known: set<string>, cluster: string)
    requires cluster in known || |known| < MAX_CLUSTERS
    requires |known| <= MAX_CLUSTERS
    ensures |known + {cluster}| <= MAX_CLUSTERS
  {
    if cluster in known { assert known + {cluster} == known; }
  }

  lemma BegunHasRoom(s: State, cluster: string, source: Source, gvrs: seq<Gvr>, now: Time)
    requires Linked(s) && HasRoom(s, cluster) && |KnownClusters(s)| <= MAX_CLUSTERS
    ensures |KnownClusters(Begun(s, cluster, source, gvrs, now))| <= MAX_CLUSTERS
  {
    var t := Begun(s, cluster, source, gvrs, now);
    RoomForOne(KnownClusters(s), cluster);
    UnionAdds(s.clusters.Keys, s.sources.Keys, s.inventories.Keys, cluster);
    if source == Core {
      KeysAfterUpdate(s.clusters, cluster, |s.sessions|);
    } else {
      KeysAfterUpdate(s.sources, cluster, t.sources[cluster]);
    }
  }

  lemma KeysAfterUpdate<T>(m: map<string, T>, c: string, v: T)
    ensures m[c := v].Keys == m.Keys + {c}
  {
  }

  lemma UnionAdds(a: set<string>, b: set<string>, c: set<string>, x: string)
    ensures (a + {x}) + b + c == a + b + c + {x}
    ensures a + (b + {x}) + c == a + b + c + {x}
    ensures a + b + (c + {x}) == a + b + c + {x}
  {
  }

  lemma TypeBegunLinked(s: State, sid: nat, gvr: Gvr, now: Time)
    requires Linked(s) && TypeAccepted(s, sid, gvr, now)
    ensures Linked(TypeBegun(s, sid, gvr, now))
  {
    var t := TypeBegun(s, sid, gvr, now);
    forall i | 0 <= i < |t.sessions| ensures ParentOk(t.sessions, i) {
      if i < |s.sessions| { assert ParentOk(s.sessions, i); }
    }
    forall c, src | Current(t, c, src).Some? ensures IsRootOf(t, Current(t, c, src).value, c, src) {
      assert Current(s, c, src) == Current(t, c, src);
    }
  }

  lemma SizeAfterUpdate(rows: map<Gvr, Row>, g: Gvr, r: Row)
    ensures |rows[g := r]| == |rows| + if g in rows then 0 else 1
  {
    assert rows[g := r].Keys == rows.Keys + {g};
    assert |rows[g := r]| == |rows[g := r].Keys| && |rows| == |rows.Keys|;
  }

  lemma RowsOkAfterUpdate(rows: map<Gvr, Row>, g: Gvr, r: Row, bound: nat, newBound: nat)
    requires RowsOk(rows, bound) && bound <= newBound
    requires RowOk(r) && ValidGvr(g) && r.gvr == g && r.serial <= newBound
    ensures RowsOk(rows[g := r], newBound)
  {
  }

  lemma TypeBegunRootOk(s: State, sid: nat, gvr: Gvr, now: Time)
    requires Inv(s) && TypeAccepted(s, sid, gvr, now)
    ensures SessionOk(TypeBegun(s, sid, gvr, now), sid)
  {
    var r := TypeBegun(s, sid, gvr, now).sessions[sid].rows[gvr];
    assert SessionOk(s, sid);
    assert [gvr][0] == gvr;
    SizeAfterUpdate(s.sessions[sid].rows, gvr, r);
    RowsOkAfterUpdate(s.sessions[sid].rows, gvr, r, s.nextSerial, s.nextSerial + 1);
  }

  /** Registering a type anew leaves its stopped predecessors superseded. */
  lemma TypeBegunChildOk(s: State, sid: nat, gvr: Gvr, now: Time, i: nat)
    requires Inv(s) && TypeAccepted(s, sid, gvr, now) && i < |s.sessions| && s.sessions[i].Child?
    ensures SessionOk(TypeBegun(s, sid, gvr, now), i)
  {
    assert SessionOk(s, i) && ParentOk(s.sessions, i);
  }

  lemma TypeBegunSessionsOk(s: State, sid: nat, gvr: Gvr, now: Time)
    requires Inv(s) && TypeAccepted(s, sid, gvr, now)
    ensures SessionsOk(TypeBegun(s, sid, gvr, now))
  {
    var t := TypeBegun(s, sid, gvr, now);
    TypeBegunRootOk(s, sid, gvr, now);
    forall i | 0 <= i < |t.sessions| ensures SessionOk(t, i) {
      if i < |s.sessions| && i != sid {
        assert SessionOk(s, i);
        if s.sessions[i].Child? { TypeBegunChildOk(s, sid, gvr, now, i); }
      }
    }
  }

  lemma TypeBegunKeepsInv(s: State, sid: nat, gvr: Gvr, now: Time)
    requires Inv(s) && TypeAccepted(s, sid, gvr, now)
    ensures Inv(TypeBegun(s, sid, gvr, now))
  {
    var t := TypeBegun(s, sid, gvr, now);
    TypeBegunLinked(s, sid, gvr, now);
    TypeBegunSessionsOk(s, sid, gvr, now);
    var mid := WithRow(s, sid, gvr, t.sessions[sid].rows[gvr]);
    ReplaceInOrder(s, sid, mid.sessions[sid]);
    forall i, j | 0 <= i < j < |t.sessions| ensures Older(t.sessions[i], t.sessions[j]) {
      assert SessionOk(s, i);
      if j < |s.sessions| { assert Older(mid.sessions[i], mid.sessions[j]); }
    }
    assert KnownClusters(t) == KnownClusters(s);
  }

  // ---------------------------------------------------------------------------------
  // Stopping

  lemma RootStopKeepsInv(s: State, sid: nat, now: Time)
    requires Inv(s) && Active(s, sid) && s.sessions[sid].Root?
    ensures Inv(StopApplied(s, sid, now))
  {
    var x := StopApplied(s, sid, now).sessions[sid];
    SameKeysSameSize(x.rows, s.sessions[sid].rows);
    assert SessionOk(s, sid);
    forall i | 0 <= i < |s.sessions| && i != sid && s.sessions[i].Child? && s.sessions[i].parent == sid
      ensures ChildOk(x, s.sessions[i], s.nextSerial)
    {
      assert SessionOk(s, i);
    }
    ReplaceKeepsInv(s, sid, x);
  }

  lemma ChildStopKeepsInv(s: State, sid: nat, now: Time)
    requires Inv(s) && Active(s, sid) && s.sessions[sid].Child?
    ensures Inv(StopApplied(s, sid, now))
  {
    var x := s.sessions[sid];
    assert SessionOk(s, sid);
    var y := Child(x.parent, x.gvr, x.serial, true);
    ReplaceKeepsInv(s, sid, y);
    var t := Replaced(s, sid, y);
    if Writable(s, sid, x.gvr) {
      var owner := t.sessions[x.parent];
      StoppedTypeKeepsInv(t, sid, now);
      assert StopApplied(s, sid, now) == WithRow(t, x.parent, x.gvr, Stopped(owner.rows[x.gvr], now));
    }
  }

  /** Stopping the row of a stopped token: every other token of the type has another serial, so it was
      stopped before. */
  lemma StoppedTypeKeepsInv(t: State, sid: nat, now: Time)
    requires Inv(t) && sid < |t.sessions| && t.sessions[sid].Child? && t.sessions[sid].stopped
    requires t.sessions[sid].parent < |t.sessions| && t.sessions[t.sessions[sid].parent].Root?
    requires var x := t.sessions[sid];
             x.gvr in t.sessions[x.parent].rows && t.sessions[x.parent].rows[x.gvr].serial == x.serial
    ensures var x := t.sessions[sid];
            Inv(WithRow(t, x.parent, x.gvr, Stopped(t.sessions[x.parent].rows[x.gvr], now)))
  {
    var x := t.sessions[sid];
    var owner := t.sessions[x.parent];
    var z := owner.(rows := owner.rows[x.gvr := Stopped(owner.rows[x.gvr], now)]);
    assert SessionOk(t, x.parent);
    assert z.rows.Keys == owner.rows.Keys;
    SameKeysSameSize(z.rows, owner.rows);
    forall i | 0 <= i < |t.sessions| && i != x.parent && t.sessions[i].Child? && t.sessions[i].parent == x.parent
      ensures ChildOk(z, t.sessions[i], t.nextSerial)
    {
      assert SessionOk(t, i);
      if i < sid { assert Older(t.sessions[i], t.sessions[sid]); }
      if sid < i { assert Older(t.sessions[sid], t.sessions[i]); }
    }
    ReplaceKeepsInv(t, x.parent, z);
  }

  /** Every operation preserves the invariant. */
  lemma ApplyKeepsInv(s: State, op: Op)
    requires Inv(s)
    ensures Inv(Apply(s, op))
  {
    match op
    case Begin(cluster, gvrs, now) =>
      if BeginAccepted(s, cluster, Core, gvrs, now) { BegunKeepsInv(s, cluster, Core, gvrs, now); }
    case BeginSource(cluster, source, now) =>
      if source in {Crd, Gatekeeper} && BeginAccepted(s, cluster, source, [], now) {
        BegunKeepsInv(s, cluster, source, [], now);
      }
    case BeginInventory(cluster) =>
      if ValidScope(cluster, []) && HasRoom(s, cluster) { InventoryKeepsInv(s, cluster); }
    case BeginType(sid, gvr, now) =>
      if TypeAccepted(s, sid, gvr, now) {
        TypeBegunKeepsInv(s, sid, gvr, now);
      } else if TypeScopeOk(s, sid, gvr, now) {
        assert SessionOk(s, sid);
        RowsKeepInv(s, sid, s.sessions[sid].(limited := true));
      }
    case Update(sid, gvr, change) =>
      if Writable(s, sid, gvr) { UpdateKeepsInv(s, sid, gvr, change); }
    case RecordDiscovery(sid, found, checked) =>
      if DiscoveryAccepted(s, sid, found, checked) {
        assert SessionOk(s, sid);
        RowsKeepInv(s, sid, DiscoveryRecorded(s, sid, found, checked).sessions[sid]);
      }
    case Stop(sid, now) =>
      if Active(s, sid) {
        if s.sessions[sid].Root? { RootStopKeepsInv(s, sid, now); } else { ChildStopKeepsInv(s, sid, now); }
      }
  }

  lemma InventoryLinked(s: State, cluster: string)
    requires Linked(s)
    ensures Linked(InventoryBegun(s, cluster))
  {
    var t := InventoryBegun(s, cluster);
    forall c, src | Current(t, c, src).Some? ensures IsRootOf(t, Current(t, c, src).value, c, src) {
      assert Current(s, c, src) == Current(t, c, src);
    }
  }

  lemma InventoryKeepsInv(s: State, cluster: string)
    requires Inv(s) && HasRoom(s, cluster)
    ensures Inv(InventoryBegun(s, cluster))
  {
    var t := InventoryBegun(s, cluster);
    InventoryLinked(s, cluster);
    forall i | 0 <= i < |t.sessions| ensures SessionOk(t, i) {
      assert SessionOk(s, i);
    }
    InventoryHasRoom(s, cluster);
  }

  lemma InventoryHasRoom(s: State, cluster: string)
    requires HasRoom(s, cluster) && |KnownClusters(s)| <= MAX_CLUSTERS
    ensures |KnownClusters(InventoryBegun(s, cluster))| <= MAX_CLUSTERS
  {
    KeysAfterUpdate(s.inventories, cluster, s.nextGeneration + 1);
    RoomForKey(s.clusters.Keys + s.sources.Keys, s.inventories.Keys, cluster);
  }

  lemma RoomForKey(a: set<string>, b: set<string>, cluster: string)
    requires cluster in a + b || |a + b| < MAX_CLUSTERS
    requires |a + b| <= MAX_CLUSTERS
    ensures |a + (b + {cluster})| <= MAX_CLUSTERS
  {
    RoomForOne(a + b, cluster);
    assert a + (b + {cluster}) == a + b + {cluster};
  }

  lemma UpdateKeepsInv(s: State, sid: nat, gvr: Gvr, change: Change)
    requires Inv(s) && Writable(s, sid, gvr)
    ensures Inv(Apply(s, Update(sid, gvr, change)))
  {
    var k := Owner(s, sid);
    assert SessionOk(s, k);
    TouchedOk(s.sessions[k].rows[gvr], change);
    var x := Apply(s, Update(sid, gvr, change)).sessions[k];
    assert x.rows.Keys == s.sessions[k].rows.Keys;
    RowsKeepInv(s, k, x);
  }
}
