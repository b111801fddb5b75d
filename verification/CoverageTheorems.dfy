/** Safety of the coverage tracker over whole runs: no ABA between captures, isolation of
    late callbacks, sticky data gaps and monotone watch epochs. */
module CoverageTheorems {
  import opened Options
  import opened CoverageModel
  import opened CoverageRuns

  // ---------------------------------------------------------------------------------
  // How one state may evolve into another

  /** A recorded data gap keeps its first timestamp. */
  ghost predicate GapsKept(a: Row, b: Row) {
    && (a.processingGap != 0 ==> b.processingGap == a.processingGap)
    && (a.extractionGap != 0 ==> b.extractionGap == a.extractionGap)
    && (a.persistenceGap != 0 ==> b.persistenceGap == a.persistenceGap)
  }

  /** Within one session a row only changes together with its revision. */
  ghost predicate RowEvolves(a: Row, b: Row) {
    && (a == b || a.revision < b.revision)
    && a.serial <= b.serial
    && (a.serial == b.serial ==> a.epoch <= b.epoch && (a.stopped ==> b.stopped))
    && GapsKept(a, b)
  }

  ghost predicate RowsEvolve(a: map<Gvr, Row>, b: map<Gvr, Row>) {
    forall g | g in a :: g in b && RowEvolves(a[g], b[g])
  }

  ghost predicate SessionEvolves(x: Session, y: Session) {
    && SameIdentity(x, y)
    && (x.stopped ==> y.stopped)
    && (x.Root? ==> RowsEvolve(x.rows, y.rows) && (x.limited ==> y.limited))
  }

  ghost predicate RowsInherit(a: map<Gvr, Row>, b: map<Gvr, Row>) {
    forall g | g in a :: g in b && GapsKept(a[g], b[g])
  }

  /** A slot keeps its session or passes to a newer one that inherits every known gap. */
  ghost predicate SlotEvolves(s: State, t: State, c: string, src: Source)
    requires Linked(s) && Linked(t)
  {
    var k := Current(s, c, src);
    var l := Current(t, c, src);
    && (l == k || (l.Some? && l.value >= |s.sessions|))
    && (k.Some? ==> l.Some? && RowsInherit(s.sessions[k.value].rows, t.sessions[l.value].rows))
  }

  ghost predicate Evolves(s: State, t: State) {
    && Linked(s) && Linked(t)
    && |s.sessions| <= |t.sessions|
    && (forall i | 0 <= i < |s.sessions| :: SessionEvolves(s.sessions[i], t.sessions[i]))
    && (forall c, src :: SlotEvolves(s, t, c, src))
  }

  lemma EvolvesReflexive(s: State)
    requires Linked(s)
    ensures Evolves(s, s)
  {
  }

  lemma RowsEvolveTransitive(a: map<Gvr, Row>, b: map<Gvr, Row>, c: map<Gvr, Row>)
    requires RowsEvolve(a, b) && RowsEvolve(b, c)
    ensures RowsEvolve(a, c)
  {
    forall g | g in a ensures g in c && RowEvolves(a[g], c[g]) {
      assert RowEvolves(a[g], b[g]) && RowEvolves(b[g], c[g]);
    }
  }

  lemma SessionEvolvesTransitive(x: Session, y: Session, z: Session)
    requires SessionEvolves(x, y) && SessionEvolves(y, z)
    ensures SessionEvolves(x, z)
  {
    if x.Root? { RowsEvolveTransitive(x.rows, y.rows, z.rows); }
  }

  lemma SlotEvolvesTransitive(s: State, t: State, u: State, c: string, src: Source)
    requires Evolves(s, t) && Evolves(t, u)
    ensures SlotEvolves(s, u, c, src)
  {
    assert SlotEvolves(s, t, c, src) && SlotEvolves(t, u, c, src);
    var k := Current(s, c, src);
    if k.Some? {
      var a := s.sessions[k.value].rows;
      var b := t.sessions[Current(t, c, src).value].rows;
      var d := u.sessions[Current(u, c, src).value].rows;
      forall g | g in a ensures g in d && GapsKept(a[g], d[g]) {
        assert GapsKept(a[g], b[g]) && GapsKept(b[g], d[g]);
      }
    }
  }

  lemma EvolvesTransitive(s: State, t: State, u: State)
    requires Evolves(s, t) && Evolves(t, u)
    ensures Evolves(s, u)
  {
    forall i | 0 <= i < |s.sessions| ensures SessionEvolves(s.sessions[i], u.sessions[i]) {
      SessionEvolvesTransitive(s.sessions[i], t.sessions[i], u.sessions[i]);
    }
    forall c, src ensures SlotEvolves(s, u, c, src) {
      SlotEvolvesTransitive(s, t, u, c, src);
    }
  }

  /** Replacing one session by a later version of itself leaves every slot where it was. */
  lemma ReplaceEvolves(s: State, k: nat, x: Session)
    requires Linked(s) && k < |s.sessions| && SessionEvolves(s.sessions[k], x)
    ensures Evolves(s, Replaced(s, k, x))
  {
    var t := Replaced(s, k, x);
    ReplaceLinked(s, k, x);
    forall c, src ensures SlotEvolves(s, t, c, src) {
      assert Current(s, c, src) == Current(t, c, src);
    }
  }

  lemma TouchedEvolves(r: Row, c: Change)
    ensures RowEvolves(r, Touched(r, c))
  {
  }

  lemma RowUpdateEvolves(x: Session, gvr: Gvr, r: Row)
    requires x.Root? && gvr in x.rows && RowEvolves(x.rows[gvr], r)
    ensures SessionEvolves(x, x.(rows := x.rows[gvr := r]))
  {
  }

  lemma BegunEvolves(s: State, cluster: string, source: Source, gvrs: seq<Gvr>, now: Time)
    requires Linked(s)
    ensures Evolves(s, Begun(s, cluster, source, gvrs, now))
  {
    var t := Begun(s, cluster, source, gvrs, now);
    BegunLinked(s, cluster, source, gvrs, now);
    forall i | 0 <= i < |s.sessions| ensures SessionEvolves(s.sessions[i], t.sessions[i]) {
      assert t.sessions[i] == s.sessions[i];
    }
    forall c, src ensures SlotEvolves(s, t, c, src) {
      CurrentAfterBegun(s, cluster, source, gvrs, now, c, src);
      BegunRowsInherit(PreviousRows(s, cluster, source), gvrs, now);
    }
  }

  lemma BegunRowsInherit(prior: map<Gvr, Row>, gvrs: seq<Gvr>, now: Time)
    ensures RowsInherit(prior, BegunRows(prior, gvrs, now))
  {
  }

  lemma TypeBegunEvolves(s: State, sid: nat, gvr: Gvr, now: Time)
    requires Inv(s) && TypeAccepted(s, sid, gvr, now)
    ensures Evolves(s, TypeBegun(s, sid, gvr, now))
  {
    var t := TypeBegun(s, sid, gvr, now);
    TypeBegunLinked(s, sid, gvr, now);
    ReregistrationEvolves(s, sid, gvr, now);
    forall i | 0 <= i < |s.sessions| ensures SessionEvolves(s.sessions[i], t.sessions[i]) {
      if i != sid { assert t.sessions[i] == s.sessions[i]; }
    }
    forall c, src ensures SlotEvolves(s, t, c, src) {
      assert Current(s, c, src) == Current(t, c, src);
    }
  }

  lemma ReregistrationEvolves(s: State, sid: nat, gvr: Gvr, now: Time)
    requires Inv(s) && TypeAccepted(s, sid, gvr, now)
    ensures SessionEvolves(s.sessions[sid], TypeBegun(s, sid, gvr, now).sessions[sid])
  {
    assert SessionOk(s, sid);
    RegisteredSessions(s, sid, gvr, now);
    RegistrationEvolves(s.sessions[sid], SerialBound(s, s.sessions[sid].source), gvr, s.nextSerial + 1, now);
  }

  lemma RegistrationEvolves(x: Session, bound: nat, gvr: Gvr, serial: nat, now: Time)
    requires x.Root? && RowsOk(x.rows, bound) && bound < serial
    ensures SessionEvolves(x, x.(rows := x.rows[gvr := RegistrationRow(x.rows, gvr, serial, now)]))
  {
  }

  lemma RootStopEvolves(s: State, sid: nat, now: Time)
    requires Linked(s) && Active(s, sid) && s.sessions[sid].Root?
    ensures Evolves(s, StopApplied(s, sid, now))
  {
    ReplaceEvolves(s, sid, StopApplied(s, sid, now).sessions[sid]);
  }

  lemma ChildStopEvolves(s: State, sid: nat, now: Time)
    requires Linked(s) && Active(s, sid) && s.sessions[sid].Child?
    ensures Evolves(s, StopApplied(s, sid, now))
  {
    var x := s.sessions[sid];
    assert ParentOk(s.sessions, sid);
    var y := Child(x.parent, x.gvr, x.serial, true);
    ReplaceEvolves(s, sid, y);
    if Writable(s, sid, x.gvr) {
      var t := Replaced(s, sid, y);
      var r := t.sessions[x.parent].rows[x.gvr];
      RowUpdateEvolves(t.sessions[x.parent], x.gvr, Stopped(r, now));
      ReplaceEvolves(t, x.parent, StopApplied(s, sid, now).sessions[x.parent]);
      EvolvesTransitive(s, t, StopApplied(s, sid, now));
    }
  }

  lemma InventoryEvolves(s: State, cluster: string)
    requires Linked(s)
    ensures Evolves(s, InventoryBegun(s, cluster))
  {
    var t := InventoryBegun(s, cluster);
    InventoryLinked(s, cluster);
    forall c, src ensures SlotEvolves(s, t, c, src) {
      assert Current(s, c, src) == Current(t, c, src);
    }
  }

  /** Every operation makes the state evolve. */
  lemma ApplyEvolves(s: State, op: Op)
    requires Inv(s)
    ensures Evolves(s, Apply(s, op))
  {
    EvolvesReflexive(s);
    match op
    case Begin(cluster, gvrs, now) =>
      if BeginAccepted(s, cluster, Core, gvrs, now) { BegunEvolves(s, cluster, Core, gvrs, now); }
    case BeginSource(cluster, source, now) =>
      if source in {Crd, Gatekeeper} && BeginAccepted(s, cluster, source, [], now) {
        BegunEvolves(s, cluster, source, [], now);
      }
    case BeginInventory(cluster) =>
      if ValidScope(cluster, []) && HasRoom(s, cluster) { InventoryEvolves(s, cluster); }
    case BeginType(sid, gvr, now) =>
      if TypeAccepted(s, sid, gvr, now) {
        TypeBegunEvolves(s, sid, gvr, now);
      } else if TypeScopeOk(s, sid, gvr, now) {
        ReplaceEvolves(s, sid, s.sessions[sid].(limited := true));
      }
    case Update(sid, gvr, change) =>
      if Writable(s, sid, gvr) {
        var k := Owner(s, sid);
        TouchedEvolves(s.sessions[k].rows[gvr], change);
        RowUpdateEvolves(s.sessions[k], gvr, Touched(s.sessions[k].rows[gvr], change));
        ReplaceEvolves(s, k, Apply(s, op).sessions[k]);
      }
    case RecordDiscovery(sid, found, checked) =>
      if DiscoveryAccepted(s, sid, found, checked) {
        ReplaceEvolves(s, sid, DiscoveryRecorded(s, sid, found, checked).sessions[sid]);
      }
    case Stop(sid, now) =>
      if Active(s, sid) {
        if s.sessions[sid].Root? { RootStopEvolves(s, sid, now); } else { ChildStopEvolves(s, sid, now); }
      }
  }

  // ---------------------------------------------------------------------------------
  // Runs

  /** The state after a sequence of operations, in the order in which they took the lock. */
  ghost function Run(s: State, ops: seq<Op>): (t: State)
    requires Inv(s)
    ensures Inv(t)
    decreases |ops|
  {
    if ops == [] then s
    else
      ApplyKeepsInv(s, ops[0]);
      Run(Apply(s, ops[0]), ops[1..])
  }

  lemma {:induction false} RunEvolves(s: State, ops: seq<Op>)
    requires Inv(s)
    ensures Evolves(s, Run(s, ops))
    decreases |ops|
  {
    if ops == [] {
      EvolvesReflexive(s);
    } else {
      ApplyKeepsInv(s, ops[0]);
      ApplyEvolves(s, ops[0]);
      RunEvolves(Apply(s, ops[0]), ops[1..]);
      EvolvesTransitive(s, Apply(s, ops[0]), Run(s, ops));
    }
  }

  // ---------------------------------------------------------------------------------
  // No ABA

  /** What a capture reads for one type: the session generation and the stored row, if any. */
  datatype Stored = Stored(generation: nat, row: Option<Row>) {
    function Revision(): nat {
      if row.Some? then row.value.revision else 0
    }
  }

  function Lookup(s: State, cluster: string, source: Source, gvr: Gvr): Stored
    requires Linked(s)
  {
    var k := Current(s, cluster, source);
    if k.Some? then Stored(s.sessions[k.value].generation, RowAt(s.sessions[k.value].rows, gvr)) else Stored(0, None)
  }

  /** Along the evolution of a state, a look with the same generation sees the revision grow with every change of the
      row. */
  lemma SameGenerationSameRow(s: State, t: State, cluster: string, source: Source, gvr: Gvr)
    requires Inv(s) && Inv(t) && Evolves(s, t)
    requires Lookup(s, cluster, source, gvr).generation == Lookup(t, cluster, source, gvr).generation
    ensures Lookup(s, cluster, source, gvr).Revision() <= Lookup(t, cluster, source, gvr).Revision()
    ensures Lookup(s, cluster, source, gvr).Revision() == Lookup(t, cluster, source, gvr).Revision() ==>
              Lookup(s, cluster, source, gvr).row == Lookup(t, cluster, source, gvr).row
  {
    SameGenerationSameSession(s, t, cluster, source);
    var k := Current(s, cluster, source);
    if k.Some? {
      assert SessionEvolves(s.sessions[k.value], t.sessions[k.value]) && SessionOk(t, k.value);
      RowLookEvolves(s.sessions[k.value].rows, t.sessions[k.value].rows, SerialBound(t, source), gvr);
    }
  }

  lemma RowLookEvolves(a: map<Gvr, Row>, b: map<Gvr, Row>, maxSerial: nat, gvr: Gvr)
    requires RowsEvolve(a, b) && RowsOk(b, maxSerial)
    ensures Stored(0, RowAt(a, gvr)).Revision() <= Stored(0, RowAt(b, gvr)).Revision()
    ensures Stored(0, RowAt(a, gvr)).Revision() == Stored(0, RowAt(b, gvr)).Revision() ==>
              RowAt(a, gvr) == RowAt(b, gvr)
  {
    if gvr in a { assert RowEvolves(a[gvr], b[gvr]); }
    if gvr in b { assert RowOk(b[gvr]); }
  }

  /** Between two captures with the same generation the revision never falls, and an equal revision means an identical
      stored row. */
  lemma NoAba(s: State, ops: seq<Op>, cluster: string, source: Source, gvr: Gvr)
    requires Inv(s)
    requires Lookup(s, cluster, source, gvr).generation == Lookup(Run(s, ops), cluster, source, gvr).generation
    ensures Lookup(s, cluster, source, gvr).Revision() <= Lookup(Run(s, ops), cluster, source, gvr).Revision()
    ensures Lookup(s, cluster, source, gvr).Revision() == Lookup(Run(s, ops), cluster, source, gvr).Revision() ==>
              Lookup(s, cluster, source, gvr).row == Lookup(Run(s, ops), cluster, source, gvr).row
  {
    RunEvolves(s, ops);
    SameGenerationSameRow(s, Run(s, ops), cluster, source, gvr);
  }

  lemma {:induction false} RunAppend(s: State, a: seq<Op>, b: seq<Op>)
    requires Inv(s)
    ensures Run(s, a + b) == Run(Run(s, a), b)
    decreases |a|
  {
    if a == [] {
      assert a + b == b;
    } else {
      ApplyKeepsInv(s, a[0]);
      assert (a + b)[1..] == a[1..] + b;
      RunAppend(Apply(s, a[0]), a[1..], b);
    }
  }

  /** A slot that holds the same session at both ends of a run held it all the time. */
  lemma SameSlotThroughout(s: State, m: State, t: State, cluster: string, source: Source)
    requires Evolves(s, m) && Evolves(m, t) && Current(s, cluster, source) == Current(t, cluster, source)
    ensures Current(m, cluster, source) == Current(s, cluster, source)
  {
    assert SlotEvolves(s, m, cluster, source) && SlotEvolves(m, t, cluster, source);
  }

  lemma SameSlotSameGeneration(s: State, m: State, cluster: string, source: Source, gvr: Gvr)
    requires Evolves(s, m) && Current(m, cluster, source) == Current(s, cluster, source)
    ensures Lookup(m, cluster, source, gvr).generation == Lookup(s, cluster, source, gvr).generation
  {
    var k := Current(s, cluster, source);
    if k.Some? { assert SessionEvolves(s.sessions[k.value], m.sessions[k.value]); }
  }

  lemma SameInTheMiddle(s: State, m: State, t: State, cluster: string, source: Source, gvr: Gvr)
    requires Inv(s) && Inv(m) && Inv(t) && Evolves(s, m) && Evolves(m, t) && Evolves(s, t)
    requires Lookup(s, cluster, source, gvr).generation == Lookup(t, cluster, source, gvr).generation
    requires Lookup(s, cluster, source, gvr).Revision() == Lookup(t, cluster, source, gvr).Revision()
    ensures Lookup(m, cluster, source, gvr) == Lookup(s, cluster, source, gvr)
  {
    SameGenerationSameSession(s, t, cluster, source);
    SameSlotThroughout(s, m, t, cluster, source);
    SameSlotSameGeneration(s, m, cluster, source, gvr);
    SameGenerationSameRow(s, m, cluster, source, gvr);
    SameGenerationSameRow(m, t, cluster, source, gvr);
  }

  /**
   * Nothing can fail and recover unseen: when a look at a type before and after a run shows one generation and one
   * revision, every look in between would have shown the very same row.
   */
  lemma NothingUnseen(s: State, a: seq<Op>, b: seq<Op>, cluster: string, source: Source, gvr: Gvr)
    requires Inv(s)
    requires Lookup(s, cluster, source, gvr).generation == Lookup(Run(s, a + b), cluster, source, gvr).generation
    requires Lookup(s, cluster, source, gvr).Revision() == Lookup(Run(s, a + b), cluster, source, gvr).Revision()
    ensures Lookup(Run(s, a), cluster, source, gvr) == Lookup(s, cluster, source, gvr)
  {
    RunAppend(s, a, b);
    RunEvolves(s, a);
    RunEvolves(Run(s, a), b);
    RunEvolves(s, a + b);
    SameInTheMiddle(s, Run(s, a), Run(s, a + b), cluster, source, gvr);
  }

  /** Generations name sessions: a slot that shows the same generation holds the same session. */
  lemma SameGenerationSameSession(s: State, t: State, cluster: string, source: Source)
    requires Inv(s) && Inv(t) && Evolves(s, t)
    requires Lookup(s, cluster, source, Gvr("", "", "")).generation
               == Lookup(t, cluster, source, Gvr("", "", "")).generation
    ensures Current(s, cluster, source) == Current(t, cluster, source)
  {
    assert SlotEvolves(s, t, cluster, source);
    var k, l := Current(s, cluster, source), Current(t, cluster, source);
    if l.Some? { assert SessionOk(t, l.value); }
    if k.Some? {
      assert SessionEvolves(s.sessions[k.value], t.sessions[k.value]);
    }
  }

  // ---------------------------------------------------------------------------------
  // Late callbacks

  ghost predicate Addresses(op: Op, sid: nat) {
    && (op.BeginType? || op.Update? || op.RecordDiscovery? || op.Stop?)
    && op.sid == sid
  }

  /** A handle that is no longer active stays inactive for ever. */
  lemma InactiveForEver(s: State, ops: seq<Op>, sid: nat)
    requires Inv(s) && sid < |s.sessions| && !Active(s, sid)
    ensures !Active(Run(s, ops), sid)
  {
    var t := Run(s, ops);
    RunEvolves(s, ops);
    var k := Owner(s, sid);
    assert SessionEvolves(s.sessions[sid], t.sessions[sid]) && SessionEvolves(s.sessions[k], t.sessions[k]);
    assert Owner(t, sid) == k;
    assert SlotEvolves(s, t, s.sessions[k].cluster, s.sessions[k].source);
  }

  /** Every call on an inactive handle leaves the whole tracker unchanged, at any later time. */
  lemma LateCallbackIsolated(s: State, ops: seq<Op>, sid: nat, late: Op)
    requires Inv(s) && sid < |s.sessions| && !Active(s, sid) && Addresses(late, sid)
    ensures Apply(Run(s, ops), late) == Run(s, ops)
  {
    InactiveForEver(s, ops, sid);
  }

  /** Stopping a handle, and opening a new session for its slot, make it inactive. */
  lemma StopDeactivates(s: State, sid: nat, now: Time)
    requires Inv(s) && sid < |s.sessions|
    ensures Inv(Apply(s, Stop(sid, now))) && !Active(Apply(s, Stop(sid, now)), sid)
  {
    ApplyKeepsInv(s, Stop(sid, now));
    if Active(s, sid) {
      assert ParentOk(s.sessions, sid);
      StoppedHandle(s, sid, now);
    }
  }

  lemma StoppedHandle(s: State, sid: nat, now: Time)
    requires Linked(s) && Active(s, sid) && ParentOk(s.sessions, sid)
    ensures sid < |StopApplied(s, sid, now).sessions| && StopApplied(s, sid, now).sessions[sid].stopped
  {
  }

  lemma ReplacementDeactivates(s: State, cluster: string, source: Source, gvrs: seq<Gvr>, now: Time, sid: nat)
    requires Inv(s) && BeginAccepted(s, cluster, source, gvrs, now)
    requires sid < |s.sessions| && s.sessions[Owner(s, sid)].cluster == cluster
               && s.sessions[Owner(s, sid)].source == source
    ensures Inv(Begun(s, cluster, source, gvrs, now)) && !Active(Begun(s, cluster, source, gvrs, now), sid)
  {
    var t := Begun(s, cluster, source, gvrs, now);
    BegunKeepsInv(s, cluster, source, gvrs, now);
    BegunEvolves(s, cluster, source, gvrs, now);
    assert Owner(t, sid) == Owner(s, sid);
    CurrentAfterBegun(s, cluster, source, gvrs, now, cluster, source);
  }

  /** The root no longer holds the row this handle was made for. */
  ghost predicate Superseded(s: State, sid: nat)
    requires Linked(s) && sid < |s.sessions|
  {
    && s.sessions[sid].Child?
    && var rows := s.sessions[Owner(s, sid)].rows;
       s.sessions[sid].gvr in rows ==> rows[s.sessions[sid].gvr].serial != s.sessions[sid].serial
  }

  /** A superseded registration is inactive: nobody can write through it. */
  lemma SupersededIsInactive(s: State, sid: nat)
    requires Inv(s) && sid < |s.sessions| && Superseded(s, sid)
    ensures !Active(s, sid)
  {
    assert SessionOk(s, sid);
  }

  /** BeginType supersedes every earlier registration of its type. */
  lemma BeginTypeSupersedes(s: State, sid: nat, gvr: Gvr, now: Time, child: nat)
    requires Inv(s) && TypeAccepted(s, sid, gvr, now)
    requires child < |s.sessions| && s.sessions[child].Child? && s.sessions[child].parent == sid
               && s.sessions[child].gvr == gvr
    ensures Inv(TypeBegun(s, sid, gvr, now)) && !Active(TypeBegun(s, sid, gvr, now), child)
  {
    var t := TypeBegun(s, sid, gvr, now);
    TypeBegunKeepsInv(s, sid, gvr, now);
    assert SessionOk(s, child);
    assert t.sessions[child] == s.sessions[child];
    SupersededIsInactive(t, child);
  }

  // ---------------------------------------------------------------------------------
  // Sticky gaps

  ghost predicate HasGap(r: Row) {
    r.processingGap != 0 || r.extractionGap != 0 || r.persistenceGap != 0
  }

  /** A gap known for a type keeps its first timestamp through every later operation. */
  lemma StickyGaps(s: State, ops: seq<Op>, cluster: string, source: Source, gvr: Gvr)
    requires Inv(s) && Lookup(s, cluster, source, gvr).row.Some?
    ensures Lookup(Run(s, ops), cluster, source, gvr).row.Some?
    ensures GapsKept(Lookup(s, cluster, source, gvr).row.value, Lookup(Run(s, ops), cluster, source, gvr).row.value)
  {
    RunEvolves(s, ops);
    assert SlotEvolves(s, Run(s, ops), cluster, source);
  }

  // ---------------------------------------------------------------------------------
  // Watch epochs

  /** While a registration lasts its epoch never falls, so a closed stream's epoch never returns. */
  lemma EpochsGrow(s: State, ops: seq<Op>, k: nat, gvr: Gvr)
    requires Inv(s) && k < |s.sessions| && s.sessions[k].Root? && gvr in s.sessions[k].rows
    ensures k < |Run(s, ops).sessions| && SameIdentity(s.sessions[k], Run(s, ops).sessions[k])
    ensures gvr in Run(s, ops).sessions[k].rows
    ensures var r, q := s.sessions[k].rows[gvr], Run(s, ops).sessions[k].rows[gvr];
            r.serial <= q.serial && (q.serial == r.serial ==> r.epoch <= q.epoch)
  {
    RunEvolves(s, ops);
    assert SessionEvolves(s.sessions[k], Run(s, ops).sessions[k]);
  }

  /** The handle addresses one fixed registration of the type: a type token, or a core session. */
  ghost predicate BoundTo(s: State, sid: nat, gvr: Gvr)
    requires Linked(s) && sid < |s.sessions|
  {
    && gvr in s.sessions[Owner(s, sid)].rows
    && (s.sessions[sid].Child? ==>
          s.sessions[sid].gvr == gvr && s.sessions[sid].serial == s.sessions[Owner(s, sid)].rows[gvr].serial)
    && (s.sessions[sid].Root? ==> s.sessions[sid].source == Core)
  }

  /** Once a newer stream was established, closing an older one changes nothing, at any later time. */
  lemma OldStreamIgnored(s: State, ops: seq<Op>, sid: nat, gvr: Gvr, epoch: nat, reason: Reason, now: Time)
    requires Inv(s) && sid < |s.sessions| && BoundTo(s, sid, gvr)
    requires 0 < epoch < s.sessions[Owner(s, sid)].rows[gvr].epoch
    ensures Apply(Run(s, ops), Update(sid, gvr, WatchEnded(epoch, reason, now))) == Run(s, ops)
  {
    var t := Run(s, ops);
    var k := Owner(s, sid);
    EpochsGrow(s, ops, k, gvr);
    RunEvolves(s, ops);
    assert SessionEvolves(s.sessions[sid], t.sessions[sid]);
    assert SessionOk(s, k) && SessionOk(t, k);
    OtherStreamIgnored(t, sid, gvr, epoch, reason, now);
  }

  lemma OtherStreamIgnored(t: State, sid: nat, gvr: Gvr, epoch: nat, reason: Reason, now: Time)
    requires Linked(t)
    requires Writable(t, sid, gvr) ==> 0 < epoch != t.sessions[Owner(t, sid)].rows[gvr].epoch
    ensures Apply(t, Update(sid, gvr, WatchEnded(epoch, reason, now))) == t
  {
    if Writable(t, sid, gvr) {
      RewriteChangesNothing(t, Owner(t, sid), gvr);
    }
  }

  lemma RewriteChangesNothing(s: State, k: nat, gvr: Gvr)
    requires k < |s.sessions| && s.sessions[k].Root? && gvr in s.sessions[k].rows
    ensures WithRow(s, k, gvr, s.sessions[k].rows[gvr]) == s
  {
    assert s.sessions[k].rows[gvr := s.sessions[k].rows[gvr]] == s.sessions[k].rows;
    assert s.sessions[k := s.sessions[k]] == s.sessions;
  }

  lemma RegisteredStream(s: State, sid: nat, g: Gvr, now: Time, handle: nat)
    requires Inv(s) && TypeAccepted(s, sid, g, now)
    requires handle == sid || handle == |s.sessions|
    ensures Inv(TypeBegun(s, sid, g, now))
    ensures var u := Apply(TypeBegun(s, sid, g, now), Update(handle, g, WatchStarted));
            && OpenedThrough(s, u, sid, handle, g, now) && |u.sessions| == |s.sessions| + 1
            && SameIdentity(u.sessions[sid], s.sessions[sid]) && u.sessions[|s.sessions|].Child?
  {
    var t := TypeBegun(s, sid, g, now);
    TypeBegunKeepsInv(s, sid, g, now);
    TypeOpens(s, sid, g, now);
    ApplyKeepsInv(t, Update(handle, g, WatchStarted));
    StreamOpens(t, handle, sid, g);
    StreamOpens(t, handle, |s.sessions|, g);
  }

  lemma TypeOpens(s: State, sid: nat, g: Gvr, now: Time)
    requires Linked(s) && TypeAccepted(s, sid, g, now) && Linked(TypeBegun(s, sid, g, now))
    ensures var t := TypeBegun(s, sid, g, now);
            && Writable(t, sid, g) && Writable(t, |s.sessions|, g) && Owner(t, |s.sessions|) == sid
            && t.sessions[sid].rows[g].epoch == 0 && |t.sessions| == |s.sessions| + 1
            && SameIdentity(t.sessions[sid], s.sessions[sid]) && t.sessions[|s.sessions|].Child?
  {
    var t := TypeBegun(s, sid, g, now);
    assert Current(t, t.sessions[sid].cluster, t.sessions[sid].source)
           == Current(s, s.sessions[sid].cluster, s.sessions[sid].source);
  }

  lemma StreamOpens(t: State, handle: nat, other: nat, g: Gvr)
    requires Linked(t) && Linked(Apply(t, Update(handle, g, WatchStarted)))
    requires Writable(t, handle, g) && Writable(t, other, g) && Owner(t, handle) == Owner(t, other)
    ensures var u := Apply(t, Update(handle, g, WatchStarted));
            && |u.sessions| == |t.sessions| && Writable(u, other, g) && Owner(u, other) == Owner(t, other)
            && SameIdentity(t.sessions[other], u.sessions[other])
            && var k := Owner(t, other);
               u.sessions[k].rows[g].epoch == t.sessions[k].rows[g].epoch + 1 && u.sessions[k].rows[g].established
  {
    var k := Owner(t, handle);
    var u := Apply(t, Update(handle, g, WatchStarted));
    assert Current(u, t.sessions[k].cluster, t.sessions[k].source)
           == Current(t, t.sessions[k].cluster, t.sessions[k].source);
  }

  lemma StoppedTypeReopens(u: State, sid: nat, child: nat, g: Gvr, now: Time)
    requires Inv(u) && Writable(u, child, g) && u.sessions[child].Child? && Owner(u, child) == sid
    requires u.sessions[sid].source != Core && ValidScope(u.sessions[sid].cluster, [g]) && now != 0
    requires !(g.group == "" && g.resource == "secrets")
    ensures Inv(Apply(u, Stop(child, now))) && TypeAccepted(Apply(u, Stop(child, now)), sid, g, now)
    ensures SameIdentity(Apply(u, Stop(child, now)).sessions[sid], u.sessions[sid])
  {
    ApplyKeepsInv(u, Stop(child, now));
    var v := Apply(u, Stop(child, now));
    assert Current(v, u.sessions[sid].cluster, u.sessions[sid].source)
           == Current(u, u.sessions[sid].cluster, u.sessions[sid].source);
  }

  /** The root of a source session is not bound to a registration: a stream it opened, closed late
      with that stream's own epoch, disconnects the stream of the registration that replaced it,
      because epochs restart. This happens wherever a type can be registered at all. */
  lemma RootHandleClosesNewerStream(s: State, sid: nat, g: Gvr, now: Time) returns (u: State, v: State, w: State)
    requires Inv(s) && TypeAccepted(s, sid, g, now)
    ensures OpenedThrough(s, u, sid, sid, g, now)
    ensures v == Apply(u, Stop(|s.sessions|, now)) && Inv(v) && TypeAccepted(v, sid, g, now)
    ensures OpenedThrough(v, w, sid, |v.sessions|, g, now)
    ensures DisconnectedBy(w, sid, g, 1, now)
  {
    RegisteredStream(s, sid, g, now, sid);
    u := Apply(TypeBegun(s, sid, g, now), Update(sid, g, WatchStarted));
    StoppedTypeReopens(u, sid, |s.sessions|, g, now);
    v := Apply(u, Stop(|s.sessions|, now));
    RegisteredStream(v, sid, g, now, |v.sessions|);
    w := Apply(TypeBegun(v, sid, g, now), Update(|v.sessions|, g, WatchStarted));
    CurrentEpochDisconnects(w, sid, g, now);
  }

  /** `u` follows from `s` by registering `g` and opening its first stream through `handle`. */
  ghost predicate OpenedThrough(s: State, u: State, sid: nat, handle: nat, g: Gvr, now: Time) {
    && Inv(s) && TypeAccepted(s, sid, g, now) && Inv(TypeBegun(s, sid, g, now))
    && u == Apply(TypeBegun(s, sid, g, now), Update(handle, g, WatchStarted))
    && Inv(u) && Writable(u, sid, g) && Writable(u, |s.sessions|, g) && Owner(u, |s.sessions|) == sid
    && u.sessions[sid].rows[g].epoch == 1 && u.sessions[sid].rows[g].established
  }

  ghost predicate DisconnectedBy(w: State, sid: nat, g: Gvr, epoch: nat, now: Time) {
    && Linked(w) && Writable(w, sid, g)
    && w.sessions[Owner(w, sid)].rows[g].established
    && Apply(w, Update(sid, g, WatchEnded(epoch, WatchClosed, now)))
       == WithRow(w, Owner(w, sid), g, Touched(w.sessions[Owner(w, sid)].rows[g], WatchEnded(epoch, WatchClosed, now)))
    && !Touched(w.sessions[Owner(w, sid)].rows[g], WatchEnded(epoch, WatchClosed, now)).established
  }

  lemma CurrentEpochDisconnects(w: State, sid: nat, g: Gvr, now: Time)
    requires Linked(w) && Writable(w, sid, g)
    requires w.sessions[Owner(w, sid)].rows[g].epoch == 1 && w.sessions[Owner(w, sid)].rows[g].established
    ensures DisconnectedBy(w, sid, g, 1, now)
  {
  }
}
