/** Exactly which handles may close a watch stream late without harm: the close of an older stream is
    ignored on all runs when the handle is bound to one registration, and only then. */
module CoverageStreams {
  import opened Options
  import opened CoverageModel
  import opened CoverageRuns
  import opened CoverageTheorems

  // ---------------------------------------------------------------------------------
  // Live registrations have tokens

  ghost predicate TokenOf(s: State, c: nat, k: nat, g: Gvr, serial: nat) {
    c < |s.sessions| && s.sessions[c] == Child(k, g, serial, false)
  }

  ghost predicate LiveRow(s: State, k: nat, g: Gvr) {
    && k < |s.sessions| && s.sessions[k].Root? && s.sessions[k].source != Core
    && g in s.sessions[k].rows && !s.sessions[k].rows[g].stopped
  }

  ghost predicate HasToken(s: State, k: nat, g: Gvr)
    requires LiveRow(s, k, g)
  {
    exists c :: TokenOf(s, c, k, g, s.sessions[k].rows[g].serial)
  }

  /** Every live row of a source session still has the token it was registered with. */
  ghost predicate Tokened(s: State) {
    forall k: nat, g | LiveRow(s, k, g) :: HasToken(s, k, g)
  }

  /** A live row that was there before, under the same serial, keeps its token if the token was not touched. */
  lemma TokenCarries(s: State, t: State, k: nat, g: Gvr)
    requires Tokened(s) && LiveRow(t, k, g) && LiveRow(s, k, g)
               && s.sessions[k].rows[g].serial == t.sessions[k].rows[g].serial
    requires forall c: nat | c < |s.sessions| && s.sessions[c] == Child(k, g, s.sessions[k].rows[g].serial, false) ::
               c < |t.sessions| && t.sessions[c] == s.sessions[c]
    ensures HasToken(t, k, g)
  {
    assert HasToken(s, k, g);
    var c :| TokenOf(s, c, k, g, s.sessions[k].rows[g].serial);
    assert TokenOf(t, c, k, g, t.sessions[k].rows[g].serial);
  }

  lemma BegunTokened(s: State, cluster: string, source: Source, gvrs: seq<Gvr>, now: Time)
    requires Linked(s) && Tokened(s) && (source != Core ==> gvrs == [])
    ensures Tokened(Begun(s, cluster, source, gvrs, now))
  {
    var t := Begun(s, cluster, source, gvrs, now);
    forall k: nat, g | LiveRow(t, k, g) ensures HasToken(t, k, g) {
      if k < |s.sessions| { TokenCarries(s, t, k, g); }
    }
  }

  lemma TypeBegunTokened(s: State, sid: nat, gvr: Gvr, now: Time)
    requires Linked(s) && Tokened(s) && TypeAccepted(s, sid, gvr, now)
    ensures Tokened(TypeBegun(s, sid, gvr, now))
  {
    var t := TypeBegun(s, sid, gvr, now);
    forall k: nat, g | LiveRow(t, k, g) ensures HasToken(t, k, g) {
      if k == sid && g == gvr {
        assert TokenOf(t, |s.sessions|, k, g, t.sessions[k].rows[g].serial);
      } else {
        TokenCarries(s, t, k, g);
      }
    }
  }

  lemma UpdateTokened(s: State, sid: nat, gvr: Gvr, change: Change)
    requires Linked(s) && Tokened(s) && Writable(s, sid, gvr)
    ensures Tokened(Apply(s, Update(sid, gvr, change)))
  {
    var t := Apply(s, Update(sid, gvr, change));
    SerialKept(s.sessions[Owner(s, sid)].rows[gvr], change);
    forall k: nat, g | LiveRow(t, k, g) ensures HasToken(t, k, g) { TokenCarries(s, t, k, g); }
  }

  lemma SerialKept(r: Row, change: Change)
    ensures Touched(r, change).serial == r.serial && Touched(r, change).stopped == r.stopped
  {
  }

  lemma RootStopTokened(s: State, sid: nat, now: Time)
    requires Linked(s) && Tokened(s) && Active(s, sid) && s.sessions[sid].Root?
    ensures Tokened(StopApplied(s, sid, now))
  {
    var t := StopApplied(s, sid, now);
    forall k: nat, g | LiveRow(t, k, g) ensures HasToken(t, k, g) { TokenCarries(s, t, k, g); }
  }

  lemma ChildStopTokened(s: State, sid: nat, now: Time)
    requires Linked(s) && Tokened(s) && Active(s, sid) && s.sessions[sid].Child?
    ensures Tokened(StopApplied(s, sid, now))
  {
    assert ParentOk(s.sessions, sid);
    var x, t := s.sessions[sid], StopApplied(s, sid, now);
    forall k: nat, g | LiveRow(t, k, g) ensures HasToken(t, k, g) {
      assert LiveRow(s, k, g);
      assert !(k == x.parent && g == x.gvr && s.sessions[k].rows[g].serial == x.serial);
      TokenCarries(s, t, k, g);
    }
  }

  lemma SameRowsTokened(s: State, k: nat, x: Session)
    requires Linked(s) && Tokened(s) && k < |s.sessions| && s.sessions[k].Root? && x.Root?
    requires x.rows == s.sessions[k].rows && x.source == s.sessions[k].source
    ensures Tokened(Replaced(s, k, x))
  {
    var t := Replaced(s, k, x);
    forall j: nat, g | LiveRow(t, j, g) ensures HasToken(t, j, g) { TokenCarries(s, t, j, g); }
  }

  lemma ApplyTokened(s: State, op: Op)
    requires Inv(s) && Tokened(s)
    ensures Tokened(Apply(s, op))
  {
    match op
    case Begin(cluster, gvrs, now) => BegunTokened(s, cluster, Core, gvrs, now);
    case BeginSource(cluster, source, now) => if source != Core { BegunTokened(s, cluster, source, [], now); }
    case BeginInventory(cluster) => InventoryTokened(s, cluster);
    case BeginType(sid, gvr, now) =>
      if TypeAccepted(s, sid, gvr, now) { TypeBegunTokened(s, sid, gvr, now); }
      else if TypeScopeOk(s, sid, gvr, now) { SameRowsTokened(s, sid, s.sessions[sid].(limited := true)); }
    case Update(sid, gvr, change) => if Writable(s, sid, gvr) { UpdateTokened(s, sid, gvr, change); }
    case RecordDiscovery(sid, found, checked) =>
      if DiscoveryAccepted(s, sid, found, checked) {
        SameRowsTokened(s, sid, WithDiscovery(s.sessions[sid], found, checked));
      }
    case Stop(sid, now) =>
      if Active(s, sid) {
        if s.sessions[sid].Root? { RootStopTokened(s, sid, now); } else { ChildStopTokened(s, sid, now); }
      }
  }

  lemma InventoryTokened(s: State, cluster: string)
    requires Tokened(s)
    ensures Tokened(InventoryBegun(s, cluster))
  {
    var t := InventoryBegun(s, cluster);
    forall k: nat, g | LiveRow(t, k, g) ensures HasToken(t, k, g) { TokenCarries(s, t, k, g); }
  }

  lemma {:induction false} RunTokened(s: State, ops: seq<Op>)
    requires Inv(s) && Tokened(s)
    ensures Tokened(Run(s, ops))
    decreases |ops|
  {
    if ops != [] {
      ApplyKeepsInv(s, ops[0]);
      ApplyTokened(s, ops[0]);
      RunTokened(Apply(s, ops[0]), ops[1..]);
    }
  }

  /** In every reachable state. */
  lemma ReachableTokened(ops: seq<Op>)
    ensures Inv(Initial) && Tokened(Run(Initial, ops))
  {
    InitialInv();
    RunTokened(Initial, ops);
  }

  // ---------------------------------------------------------------------------------
  // Which closes are ignored

  /** Stream e, opened by the time of u, is older than the stream that w shows for the type. */
  ghost predicate OlderStream(u: State, w: State, k: nat, g: Gvr, e: nat) {
    && k < |u.sessions| && k < |w.sessions| && u.sessions[k].Root? && w.sessions[k].Root?
    && g in u.sessions[k].rows && g in w.sessions[k].rows
    && var r, q := u.sessions[k].rows[g], w.sessions[k].rows[g];
       0 < e <= r.epoch && (r.serial < q.serial || (r.serial == q.serial && e < q.epoch))
  }

  /** After any run a the handle can write the type, after any further run b a newer stream is shown: closing the old
      stream through the handle changes nothing. */
  ghost predicate IgnoredAfter(s: State, sid: nat, g: Gvr, a: seq<Op>, b: seq<Op>, e: nat, reason: Reason, now: Time)
    requires Inv(s) && sid < |s.sessions|
  {
    var u := Run(s, a);
    var w := Run(u, b);
    Writable(u, sid, g) && OlderStream(u, w, Owner(s, sid), g, e) ==>
        Apply(w, Update(sid, g, WatchEnded(e, reason, now))) == w
  }

  ghost predicate IgnoresOldStreams(s: State, sid: nat, g: Gvr)
    requires Inv(s) && sid < |s.sessions|
  {
    forall a, b, e: nat, reason, now: Time :: IgnoredAfter(s, sid, g, a, b, e, reason, now)
  }

  /** The handle is bound to one registration of a type: a type token, or a session whose types are never registered
      again. */
  predicate Bound(x: Session) {
    x.Child? || x.source == Core
  }

  lemma BoundIgnores(u: State, w: State, sid: nat, k: nat, g: Gvr, e: nat, reason: Reason, now: Time)
    requires Inv(u) && Inv(w) && Evolves(u, w) && Writable(u, sid, g) && k == Owner(u, sid) && Bound(u.sessions[sid])
    requires OlderStream(u, w, k, g, e)
    ensures Apply(w, Update(sid, g, WatchEnded(e, reason, now))) == w
  {
    assert SessionEvolves(u.sessions[sid], w.sessions[sid]);
    assert SessionOk(u, k) && SessionOk(w, k);
    assert SessionEvolves(u.sessions[k], w.sessions[k]);
    OtherStreamIgnored(w, sid, g, e, reason, now);
  }

  lemma BoundIgnoresAlways(s: State, sid: nat, g: Gvr, a: seq<Op>, b: seq<Op>, e: nat, reason: Reason, now: Time)
    requires Inv(s) && sid < |s.sessions| && Bound(s.sessions[sid])
    ensures IgnoredAfter(s, sid, g, a, b, e, reason, now)
  {
    var u := Run(s, a);
    RunEvolves(s, a);
    assert SessionEvolves(s.sessions[sid], u.sessions[sid]);
    if Writable(u, sid, g) && OlderStream(u, Run(u, b), Owner(s, sid), g, e) {
      RunEvolves(u, b);
      BoundIgnores(u, Run(u, b), sid, Owner(s, sid), g, e, reason, now);
    }
  }

  /** A type the owner of the handle can register, now or after its live registration ended. */
  ghost predicate Registrable(s: State, sid: nat, g: Gvr)
    requires Linked(s) && sid < |s.sessions|
  {
    var x := s.sessions[Owner(s, sid)];
    ValidScope(x.cluster, [g]) && !(g.group == "" && g.resource == "secrets") && (g in x.rows || |x.rows| < MAX_TYPES)
  }

  lemma RunOne(s: State, p: Op)
    requires Inv(s)
    ensures Inv(Apply(s, p)) && Run(s, [p]) == Apply(s, p)
  {
    ApplyKeepsInv(s, p);
    assert [p][1..] == [];
  }

  lemma OpenedRun(s: State, u: State, sid: nat, handle: nat, g: Gvr, now: Time)
    requires OpenedThrough(s, u, sid, handle, g, now)
    ensures Run(s, [BeginType(sid, g, now)] + [Update(handle, g, WatchStarted)]) == u
  {
    RunOne(s, BeginType(sid, g, now));
    RunOne(TypeBegun(s, sid, g, now), Update(handle, g, WatchStarted));
    RunAppend(s, [BeginType(sid, g, now)], [Update(handle, g, WatchStarted)]);
  }

  lemma OpenedSerial(s: State, u: State, sid: nat, handle: nat, g: Gvr, now: Time)
    requires OpenedThrough(s, u, sid, handle, g, now) && Owner(u, handle) == sid
    ensures u.sessions[sid].rows[g].serial == s.nextSerial + 1
  {
    var t := TypeBegun(s, sid, g, now);
    RegisteredSessions(s, sid, g, now);
    SerialKept(t.sessions[sid].rows[g], WatchStarted);
  }

  lemma StopKeepsCounters(s: State, c: nat, now: Time)
    requires Linked(s)
    ensures Apply(s, Stop(c, now)).nextSerial == s.nextSerial
  {
  }

  lemma SerialsBelowCounter(s: State, sid: nat, g: Gvr)
    requires Inv(s) && sid < |s.sessions| && s.sessions[sid].Root? && g in s.sessions[sid].rows
    ensures s.sessions[sid].rows[g].serial <= s.nextSerial
  {
    assert SessionOk(s, sid);
  }

  /** Where a type can be registered through a source's root handle, that handle fails to ignore an old stream. */
  lemma SourceRootFails(s: State, sid: nat, g: Gvr) returns (a: seq<Op>, b: seq<Op>)
    requires Inv(s) && TypeAccepted(s, sid, g, 1)
    ensures !IgnoredAfter(s, sid, g, a, b, 1, WatchClosed, 1)
  {
    var u, v, w := RootHandleClosesNewerStream(s, sid, g, 1);
    a := [BeginType(sid, g, 1)] + [Update(sid, g, WatchStarted)];
    OpenedRun(s, u, sid, sid, g, 1);
    b := [Stop(|s.sessions|, 1)] + ([BeginType(sid, g, 1)] + [Update(|v.sessions|, g, WatchStarted)]);
    RunOne(u, Stop(|s.sessions|, 1));
    OpenedRun(v, w, sid, |v.sessions|, g, 1);
    RunAppend(u, [Stop(|s.sessions|, 1)], [BeginType(sid, g, 1)] + [Update(|v.sessions|, g, WatchStarted)]);
    SerialsBelowCounter(u, sid, g);
    StopKeepsCounters(u, |s.sessions|, 1);
    OpenedSerial(v, w, sid, |v.sessions|, g, 1);
    NotIgnored(s, u, w, sid, g, a, b);
  }

  lemma NotIgnored(s: State, u: State, w: State, sid: nat, g: Gvr, a: seq<Op>, b: seq<Op>)
    requires Inv(s) && sid < |s.sessions| && s.sessions[sid].Root? && u == Run(s, a) && w == Run(u, b)
    requires Writable(u, sid, g) && OlderStream(u, w, sid, g, 1) && DisconnectedBy(w, sid, g, 1, 1)
    ensures !IgnoredAfter(s, sid, g, a, b, 1, WatchClosed, 1)
  {
    assert Owner(s, sid) == sid;
  }

  /** A registration that is still live can be ended by stopping its token. */
  lemma TypeCanBeFreed(s: State, sid: nat, g: Gvr) returns (ops: seq<Op>)
    requires Inv(s) && Tokened(s) && Active(s, sid) && s.sessions[sid].Root? && s.sessions[sid].source != Core
               && Registrable(s, sid, g)
    ensures TypeAccepted(Run(s, ops), sid, g, 1)
  {
    if g in s.sessions[sid].rows && !s.sessions[sid].rows[g].stopped {
      assert LiveRow(s, sid, g);
      assert HasToken(s, sid, g);
      var c :| TokenOf(s, c, sid, g, s.sessions[sid].rows[g].serial);
      ops := [Stop(c, 1)];
      StoppedTypeReopens(s, sid, c, g, 1);
      assert ops[1..] == [];
      assert Run(s, ops) == Apply(s, Stop(c, 1));
    } else {
      ops := [];
    }
  }

  lemma {:induction false} FailsLaterFailsNow(s: State, sid: nat, g: Gvr, ops: seq<Op>, a: seq<Op>, b: seq<Op>)
    requires Inv(s) && sid < |s.sessions| && sid < |Run(s, ops).sessions| && Owner(Run(s, ops), sid) == Owner(s, sid)
    requires !IgnoredAfter(Run(s, ops), sid, g, a, b, 1, WatchClosed, 1)
    ensures !IgnoredAfter(s, sid, g, ops + a, b, 1, WatchClosed, 1)
  {
    RunAppend(s, ops, a);
  }

  /**
   * For an active handle and a type its owner can register or already holds: the close of an older stream is ignored on
   * all runs exactly when the handle is a type token or a core session.
   */
  lemma OldStreamsIgnoredExactlyWhenBound(s: State, sid: nat, g: Gvr)
    requires Inv(s) && Tokened(s) && Active(s, sid) && Registrable(s, sid, g)
    ensures IgnoresOldStreams(s, sid, g) <==> Bound(s.sessions[sid])
  {
    if Bound(s.sessions[sid]) {
      forall a, b, e: nat, reason, now: Time ensures IgnoredAfter(s, sid, g, a, b, e, reason, now) {
        BoundIgnoresAlways(s, sid, g, a, b, e, reason, now);
      }
    } else {
      var ops := TypeCanBeFreed(s, sid, g);
      var a, b := SourceRootFails(Run(s, ops), sid, g);
      RunEvolves(s, ops);
      assert SessionEvolves(s.sessions[sid], Run(s, ops).sessions[sid]);
      FailsLaterFailsNow(s, sid, g, ops, a, b);
    }
  }
}
