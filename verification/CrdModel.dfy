/**
 * Dynamic CRD informers as a state machine. Registrations come and go under one lock; every
 * registration owns an informer run that lives on after it was stopped, until its last callback
 * returned. All live runs of one CRD name share a callback family, whose lock serialises them.
 */
module CrdModel {

  import opened Options

  datatype Gvr = Gvr(group: string, version: string, resource: string)

  datatype Scope = Namespaced | ClusterWide | OtherScope

  datatype Identity = Identity(name: string, uid: string, gvr: Gvr, kind: string, scope: Scope)

  /** One delivery of a run: waiting for the family lock, about to check its context, cleared to write, writing. */
  datatype Phase = Idle | Blocked | Ready | Cleared | Writing

  datatype Watch = Watch(identity: Identity, family: nat, cancelled: bool, ended: bool, phase: Phase)

  datatype Family = Family(refs: int, holder: Option<nat>)

  /** What the graph store could observe: run n began a delivery, or began a store write. */
  datatype Entry = Began(run: nat) | Wrote(run: nat)

  /** `informers` and `families` are the two maps of Discovery; `arena` holds every family ever made. */
  datatype State = State(watches: seq<Watch>, arena: seq<Family>, informers: map<string, nat>,
                         families: map<string, nat>, shutdown: bool, trace: seq<Entry>)

  datatype Op =
    | Reconcile(identity: Identity, served: bool, wellFormed: bool, handled: bool)
    | Deregister(name: string, uid: string)
    | Deliver(run: nat, write: bool)
    | End(run: nat)
    | Shutdown

  const INITIAL := State([], [], map[], map[], false, [])

  predicate Holds(p: Phase) {
    p == Ready || p == Cleared || p == Writing
  }

  /** stopLocked */
  function Stopped(s: State, name: string): State {
    if name in s.informers && s.informers[name] < |s.watches| then
      var i := s.informers[name];
      s.(watches := s.watches[i := s.watches[i].(cancelled := true)], informers := s.informers - {name})
    else s
  }

  function WithRun(s: State, id: Identity, f: nat, arena: seq<Family>): State {
    State(s.watches + [Watch(id, f, false, false, Idle)], arena,
          s.informers[id.name := |s.watches|], s.families[id.name := f],
          s.shutdown, s.trace)
  }

  /** A new run joins the family of its name, or founds one. */
  function Registered(s: State, id: Identity): State {
    if id.name in s.families && s.families[id.name] < |s.arena| then
      var f := s.families[id.name];
      WithRun(s, id, f, s.arena[f := s.arena[f].(refs := s.arena[f].refs + 1)])
    else WithRun(s, id, |s.arena|, s.arena + [Family(1, None)])
  }

  /** `wellFormed` is the naming rule for API descriptors. */
  predicate Observable(id: Identity, wellFormed: bool) {
    && id.gvr.group != "" && id.kind != "Secret" && id.name == id.gvr.resource + "." + id.gvr.group
    && (id.scope == Namespaced || id.scope == ClusterWide) && wellFormed
  }

  /** The registration asked for is the one already running. */
  predicate Unchanged(s: State, id: Identity, served: bool) {
    served && id.name in s.informers && s.informers[id.name] < |s.watches|
        && s.watches[s.informers[id.name]].identity == id
  }

  predicate Accepted(id: Identity, served: bool, wellFormed: bool, handled: bool) {
    id.name != "" && id.uid != "" && served && Observable(id, wellFormed) && handled
  }

  function Reconciled(s: State, id: Identity, served: bool, wellFormed: bool, handled: bool): State {
    if s.shutdown || Unchanged(s, id, served) then s
    else if Accepted(id, served, wellFormed, handled) then Registered(Stopped(s, id.name), id)
    else Stopped(s, id.name)
  }

  function Deregistered(s: State, name: string, uid: string): State {
    if name in s.informers && s.informers[name] < |s.watches| && s.watches[s.informers[name]].identity.uid == uid
    then Stopped(s, name) else s
  }

  /** A run changes phase, its family changes holder, and the store may see something. */
  function Moved(s: State, i: nat, phase: Phase, holder: Option<nat>, seen: seq<Entry>): State
    requires i < |s.watches| && s.watches[i].family < |s.arena|
  {
    var f := s.watches[i].family;
    s.(watches := s.watches[i := s.watches[i].(phase := phase)], arena := s.arena[f := s.arena[f].(holder := holder)],
       trace := s.trace + seen)
  }

  /** One step of a callback: each store write is preceded by a check of the run's context. */
  function Delivered(s: State, i: nat, write: bool): State
    requires i < |s.watches| && s.watches[i].family < |s.arena|
  {
    var w := s.watches[i];
    var holder := s.arena[w.family].holder;
    match w.phase
    case Idle => if w.ended then s else Moved(s, i, Blocked, holder, [])
    case Blocked => if holder == None then Moved(s, i, Ready, Some(i), [Began(i)]) else s
    case Ready => if write && !w.cancelled && !s.shutdown then Moved(s, i, Cleared, holder, [])
        else Moved(s, i, Idle, None, [])
    case Cleared => Moved(s, i, Writing, holder, [Wrote(i)])
    case Writing => Moved(s, i, Ready, holder, [])
  }

  /** The informer's Run returns: only when stopped and with no callback in flight. */
  predicate CanEnd(s: State, i: nat) {
    i < |s.watches| && s.watches[i].family < |s.arena| && !s.watches[i].ended && s.watches[i].phase == Idle
    && (s.watches[i].cancelled || s.shutdown)
  }

  function Ended(s: State, i: nat): State
    requires CanEnd(s, i)
  {
    var w := s.watches[i];
    var refs := s.arena[w.family].refs - 1;
    s.(watches := s.watches[i := w.(ended := true)], arena := s.arena[w.family := s.arena[w.family].(refs := refs)],
       families := if refs == 0 then s.families - {w.identity.name} else s.families)
  }

  function Apply(s: State, op: Op): State {
    match op
    case Reconcile(id, served, wellFormed, handled) => Reconciled(s, id, served, wellFormed, handled)
    case Deregister(name, uid) => Deregistered(s, name, uid)
    case Deliver(i, write) => if i < |s.watches| && s.watches[i].family < |s.arena| then Delivered(s, i, write) else s
    case End(i) => if CanEnd(s, i) then Ended(s, i) else s
    case Shutdown => s.(shutdown := true)
  }
}

/** What holds in every reachable state of the CRD informers. */
module CrdRuns {

  import opened Options
  import opened CrdModel
  import Runs

  predicate Live(w: Watch, f: nat) {
    !w.ended && w.family == f
  }

  function LiveCount(ws: seq<Watch>, f: nat): nat {
    if ws == [] then 0 else LiveCount(ws[..|ws| - 1], f) + if Live(ws[|ws| - 1], f) then 1 else 0
  }

  ghost predicate InRange(s: State) {
    && (forall i | 0 <= i < |s.watches| :: s.watches[i].family < |s.arena|)
    && (forall n | n in s.informers :: s.informers[n] < |s.watches|)
    && (forall n | n in s.families :: s.families[n] < |s.arena|)
  }

  /** Every live run belongs to the family currently filed under its name. */
  ghost predicate Shared(s: State) {
    forall i | 0 <= i < |s.watches| && !s.watches[i].ended ::
      s.watches[i].identity.name in s.families && s.families[s.watches[i].identity.name] == s.watches[i].family
  }

  ghost predicate OwnFamilies(s: State) {
    forall m, n | m in s.families && n in s.families && s.families[m] == s.families[n] :: m == n
  }

  ghost predicate RefCounts(s: State)
    requires InRange(s)
  {
    forall n | n in s.families :: s.arena[s.families[n]].refs == LiveCount(s.watches, s.families[n]) > 0
  }

  /** The registered run is the only one that was not cancelled. */
  ghost predicate OnlyCurrent(s: State)
    requires InRange(s)
  {
    && (forall n | n in s.informers ::
         s.watches[s.informers[n]].identity.name == n && !s.watches[s.informers[n]].cancelled)
    && (forall i | 0 <= i < |s.watches| && !s.watches[i].cancelled ::
          s.watches[i].identity.name in s.informers && s.informers[s.watches[i].identity.name] == i)
  }

  ghost predicate Locks(s: State)
    requires InRange(s)
  {
    && (forall i | 0 <= i < |s.watches| :: Holds(s.watches[i].phase) <==>
       s.arena[s.watches[i].family].holder == Some(i))
    && (forall i | 0 <= i < |s.watches| && s.watches[i].ended :: s.watches[i].phase == Idle)
    && (forall f | 0 <= f < |s.arena| && s.arena[f].holder.Some? ::
          s.arena[f].holder.value < |s.watches| && s.watches[s.arena[f].holder.value].family == f)
  }

  ghost predicate SameName(s: State, i: nat, j: nat)
    requires i < |s.watches| && j < |s.watches|
  {
    s.watches[i].identity.name == s.watches[j].identity.name
  }

  ghost predicate Replaced(s: State) {
    forall i, j | 0 <= i < j < |s.watches| && SameName(s, i, j) :: s.watches[i].cancelled
  }

  predicate MayYetWrite(p: Phase) {
    p == Cleared || p == Writing
  }

  /** Once a run delivered, the runs it replaced are past their last write. */
  ghost predicate Overtaken(s: State) {
    && (forall a | 0 <= a < |s.trace| :: s.trace[a].run < |s.watches|)
    && (forall a, i | 0 <= a < |s.trace| && s.trace[a].Began? && s.trace[a].run < |s.watches| && 0 <= i < s.trace[a].run
                      && SameName(s, i, s.trace[a].run) :: !MayYetWrite(s.watches[i].phase))
  }

  /** No write of a replaced run comes after the first delivery of a run that replaced it. */
  ghost predicate Ordered(s: State) {
    forall a, b | 0 <= a < b < |s.trace| && s.trace[a].Began? && s.trace[b].Wrote?
        && s.trace[b].run < s.trace[a].run < |s.watches| ::
      !SameName(s, s.trace[b].run, s.trace[a].run)
  }

  ghost predicate Families(s: State) {
    InRange(s) && Shared(s) && OwnFamilies(s) && RefCounts(s)
  }

  ghost predicate Inv(s: State) {
    Families(s) && OnlyCurrent(s) && Locks(s) && Replaced(s) && Overtaken(s) && Ordered(s)
  }

  // ---------------------------------------------------------------------------------
  // Counting

  lemma {:induction false} CountUpdate(ws: seq<Watch>, i: nat, w: Watch, f: nat)
    requires i < |ws|
    ensures LiveCount(ws[i := w], f) + (if Live(ws[i], f) then 1 else 0)
            == LiveCount(ws, f) + if Live(w, f) then 1 else 0
    decreases |ws|
  {
    var n := |ws| - 1;
    if i == n {
      assert ws[i := w][..n] == ws[..n];
    } else {
      assert ws[i := w][..n] == ws[..n][i := w];
      CountUpdate(ws[..n], i, w, f);
    }
  }

  lemma CountAppend(ws: seq<Watch>, w: Watch, f: nat)
    ensures LiveCount(ws + [w], f) == LiveCount(ws, f) + if Live(w, f) then 1 else 0
  {
    assert (ws + [w])[..|ws|] == ws;
  }

  lemma {:induction false} OneLive(ws: seq<Watch>, i: nat, f: nat)
    requires i < |ws| && Live(ws[i], f)
    ensures LiveCount(ws, f) >= 1
  {
    if i < |ws| - 1 { OneLive(ws[..|ws| - 1], i, f); }
  }

  lemma {:induction false} TwoLive(ws: seq<Watch>, i: nat, j: nat, f: nat)
    requires i < j < |ws| && Live(ws[i], f) && Live(ws[j], f)
    ensures LiveCount(ws, f) >= 2
  {
    if j < |ws| - 1 { TwoLive(ws[..|ws| - 1], i, j, f); } else { OneLive(ws[..|ws| - 1], i, f); }
  }

  lemma {:induction false} NoneLive(ws: seq<Watch>, f: nat)
    requires forall i | 0 <= i < |ws| :: ws[i].family != f
    ensures LiveCount(ws, f) == 0
  {
    if ws != [] { NoneLive(ws[..|ws| - 1], f); }
  }

  // ---------------------------------------------------------------------------------
  // Registration and its end

  /** Changing a run without ending it or moving it to another family changes no count. */
  lemma SameCounts(s: State, i: nat, w: Watch)
    requires InRange(s) && RefCounts(s) && i < |s.watches| && w.family == s.watches[i].family
               && w.ended == s.watches[i].ended
    ensures forall n | n in s.families :: s.arena[s.families[n]].refs == LiveCount(s.watches[i := w], s.families[n]) > 0
  {
    forall n | n in s.families ensures s.arena[s.families[n]].refs == LiveCount(s.watches[i := w], s.families[n]) > 0 {
      CountUpdate(s.watches, i, w, s.families[n]);
    }
  }

  lemma StoppedKeepsFamilies(s: State, name: string)
    requires Families(s)
    ensures Families(Stopped(s, name))
  {
    if name in s.informers {
      var i := s.informers[name];
      SameCounts(s, i, s.watches[i].(cancelled := true));
    }
  }

  lemma StoppedKeepsCurrent(s: State, name: string)
    requires InRange(s) && OnlyCurrent(s)
    ensures InRange(Stopped(s, name)) && OnlyCurrent(Stopped(s, name))
  {
    var t := Stopped(s, name);
    forall n | n in t.informers
      ensures t.watches[t.informers[n]].identity.name == n && !t.watches[t.informers[n]].cancelled
    {
      assert n in s.informers && t.watches[s.informers[n]] == s.watches[s.informers[n]];
    }
  }

  lemma StoppedKeepsLocks(s: State, name: string)
    requires InRange(s) && Locks(s)
    ensures InRange(Stopped(s, name)) && Locks(Stopped(s, name))
  {
    var t := Stopped(s, name);
    assert forall k | 0 <= k < |s.watches| ::
             t.watches[k].phase == s.watches[k].phase && t.watches[k].family == s.watches[k].family;
  }

  lemma StoppedKeepsReplaced(s: State, name: string)
    requires Replaced(s)
    ensures Replaced(Stopped(s, name))
  {
    var t := Stopped(s, name);
    forall a, b | 0 <= a < b < |t.watches| && SameName(t, a, b) ensures t.watches[a].cancelled {
      assert SameName(s, a, b);
    }
  }

  /** Stopping a name touches no identity, no phase and no trace. */
  lemma StoppedKeepsRuns(s: State, name: string)
    ensures |Stopped(s, name).watches| == |s.watches| && Stopped(s, name).trace == s.trace
    ensures forall i | 0 <= i < |s.watches| :: SameRun(s.watches[i], Stopped(s, name).watches[i])
  {
  }

  ghost predicate SameRun(a: Watch, b: Watch) {
    a.identity == b.identity && a.phase == b.phase
  }

  lemma StoppedKeepsOvertaken(s: State, name: string)
    requires Overtaken(s)
    ensures Overtaken(Stopped(s, name))
  {
    var t := Stopped(s, name);
    StoppedKeepsRuns(s, name);
    forall a, i | 0 <= a < |t.trace| && t.trace[a].Began? && t.trace[a].run < |t.watches| && 0 <= i < t.trace[a].run
                  && SameName(t, i, t.trace[a].run)
      ensures !MayYetWrite(t.watches[i].phase)
    {
      assert SameRun(s.watches[i], t.watches[i]) && SameRun(s.watches[s.trace[a].run], t.watches[s.trace[a].run]);
      assert SameName(s, i, s.trace[a].run);
    }
  }

  lemma StoppedKeepsOrdered(s: State, name: string)
    requires Ordered(s)
    ensures Ordered(Stopped(s, name))
  {
    var t := Stopped(s, name);
    StoppedKeepsRuns(s, name);
    forall a, b | 0 <= a < b < |t.trace| && t.trace[a].Began? && t.trace[b].Wrote?
        && t.trace[b].run < t.trace[a].run < |t.watches|
      ensures !SameName(t, t.trace[b].run, t.trace[a].run)
    {
      assert SameRun(s.watches[s.trace[a].run], t.watches[s.trace[a].run]);
      assert SameRun(s.watches[s.trace[b].run], t.watches[s.trace[b].run]);
      assert !SameName(s, s.trace[b].run, s.trace[a].run);
    }
  }

  lemma StoppedKeepsInv(s: State, name: string)
    requires Inv(s)
    ensures Inv(Stopped(s, name)) && name !in Stopped(s, name).informers && Stopped(s, name).shutdown == s.shutdown
  {
    StoppedKeepsFamilies(s, name);
    StoppedKeepsCurrent(s, name);
    StoppedKeepsLocks(s, name);
    StoppedKeepsReplaced(s, name);
    StoppedKeepsOvertaken(s, name);
    StoppedKeepsOrdered(s, name);
  }

  lemma JoinKeepsFamilies(s: State, id: Identity)
    requires Families(s) && id.name in s.families
    ensures Families(Registered(s, id))
  {
    var t := Registered(s, id);
    var f := s.families[id.name];
    forall n | n in t.families ensures t.arena[t.families[n]].refs == LiveCount(t.watches, t.families[n]) > 0 {
      CountAppend(s.watches, Watch(id, f, false, false, Idle), t.families[n]);
    }
  }

  lemma FoundKeepsFamilies(s: State, id: Identity)
    requires Families(s) && id.name !in s.families
    ensures Families(Registered(s, id))
  {
    var t := Registered(s, id);
    var f := |s.arena|;
    NoneLive(s.watches, f);
    forall n | n in t.families ensures t.arena[t.families[n]].refs == LiveCount(t.watches, t.families[n]) > 0 {
      CountAppend(s.watches, Watch(id, f, false, false, Idle), t.families[n]);
    }
  }

  lemma RegisteredKeepsCurrent(s: State, id: Identity)
    requires InRange(s) && OnlyCurrent(s) && id.name !in s.informers
    ensures InRange(Registered(s, id)) && OnlyCurrent(Registered(s, id))
  {
    var t := Registered(s, id);
    forall n | n in t.informers ensures t.watches[t.informers[n]].identity.name == n
        && !t.watches[t.informers[n]].cancelled {
      if n != id.name { assert n in s.informers && t.watches[s.informers[n]] == s.watches[s.informers[n]]; }
    }
    forall i | 0 <= i < |t.watches| && !t.watches[i].cancelled
      ensures t.watches[i].identity.name in t.informers && t.informers[t.watches[i].identity.name] == i
    {
      if i < |s.watches| { assert t.watches[i] == s.watches[i]; }
    }
  }

  lemma RegisteredKeepsReplaced(s: State, id: Identity)
    requires InRange(s) && OnlyCurrent(s) && Replaced(s) && id.name !in s.informers
    ensures Replaced(Registered(s, id))
  {
    var t := Registered(s, id);
    forall i, j | 0 <= i < j < |t.watches| && SameName(t, i, j) ensures t.watches[i].cancelled {
      if j < |s.watches| { assert SameName(s, i, j); }
    }
  }

  lemma RegisteredKeepsLocks(s: State, id: Identity)
    requires InRange(s) && Locks(s)
    ensures InRange(Registered(s, id)) && Locks(Registered(s, id))
  {
    var t := Registered(s, id);
    var n := |s.watches|;
    assert forall f | 0 <= f < |s.arena| :: t.arena[f].holder == s.arena[f].holder;
    forall i | 0 <= i < |t.watches| ensures Holds(t.watches[i].phase) <==>
        t.arena[t.watches[i].family].holder == Some(i) {
      if i < n {
        assert t.watches[i] == s.watches[i];
      } else {
        assert t.watches[i].phase == Idle;
      }
    }
  }

  lemma RegisteredKeepsTrace(s: State, id: Identity)
    requires Inv(s)
    ensures Overtaken(Registered(s, id)) && Ordered(Registered(s, id))
  {
    var t := Registered(s, id);
    assert t.trace == s.trace;
    assert forall i | 0 <= i < |s.watches| :: t.watches[i] == s.watches[i];
    forall a, i | 0 <= a < |t.trace| && t.trace[a].Began? && t.trace[a].run < |t.watches| && 0 <= i < t.trace[a].run
                  && SameName(t, i, t.trace[a].run)
      ensures !MayYetWrite(t.watches[i].phase)
    {
      assert SameName(s, i, s.trace[a].run);
    }
    forall a, b | 0 <= a < b < |t.trace| && t.trace[a].Began? && t.trace[b].Wrote?
        && t.trace[b].run < t.trace[a].run < |t.watches|
      ensures !SameName(t, t.trace[b].run, t.trace[a].run)
    {
      assert !SameName(s, s.trace[b].run, s.trace[a].run);
    }
  }

  lemma RegisteredKeepsInv(s: State, id: Identity)
    requires Inv(s) && id.name !in s.informers
    ensures Inv(Registered(s, id))
  {
    if id.name in s.families { JoinKeepsFamilies(s, id); } else { FoundKeepsFamilies(s, id); }
    RegisteredKeepsCurrent(s, id);
    RegisteredKeepsReplaced(s, id);
    RegisteredKeepsLocks(s, id);
    RegisteredKeepsTrace(s, id);
  }

  lemma EndedKeepsShared(s: State, i: nat)
    requires Families(s) && CanEnd(s, i)
    ensures InRange(Ended(s, i)) && Shared(Ended(s, i)) && OwnFamilies(Ended(s, i))
  {
    var t := Ended(s, i);
    var w := s.watches[i];
    var f := w.family;
    forall k | 0 <= k < |t.watches| && !t.watches[k].ended
      ensures t.watches[k].identity.name in t.families && t.families[t.watches[k].identity.name] == t.watches[k].family
    {
      assert t.watches[k] == s.watches[k];
      if s.watches[k].identity.name == w.identity.name {
        assert Live(s.watches[k], f) && Live(s.watches[i], f);
        if k < i { TwoLive(s.watches, k, i, f); } else { TwoLive(s.watches, i, k, f); }
      }
    }
  }

  lemma EndedKeepsCounts(s: State, i: nat)
    requires Families(s) && CanEnd(s, i)
    ensures InRange(Ended(s, i)) && RefCounts(Ended(s, i))
  {
    var t := Ended(s, i);
    var w := s.watches[i];
    forall n | n in t.families ensures t.arena[t.families[n]].refs == LiveCount(t.watches, t.families[n]) > 0 {
      CountUpdate(s.watches, i, w.(ended := true), s.families[n]);
      assert s.families[n] == w.family ==> n == w.identity.name;
    }
  }

  lemma EndedKeepsCurrent(s: State, i: nat)
    requires InRange(s) && OnlyCurrent(s) && CanEnd(s, i)
    ensures InRange(Ended(s, i)) && OnlyCurrent(Ended(s, i))
  {
    var t := Ended(s, i);
    assert forall k | 0 <= k < |s.watches| ::
      t.watches[k].identity == s.watches[k].identity && t.watches[k].cancelled == s.watches[k].cancelled;
  }

  lemma EndedKeepsLocks(s: State, i: nat)
    requires InRange(s) && Locks(s) && CanEnd(s, i)
    ensures InRange(Ended(s, i)) && Locks(Ended(s, i))
  {
    var t := Ended(s, i);
    assert forall f | 0 <= f < |s.arena| :: t.arena[f].holder == s.arena[f].holder;
    forall k | 0 <= k < |t.watches| ensures Holds(t.watches[k].phase) <==>
        t.arena[t.watches[k].family].holder == Some(k) {
      assert t.watches[k].phase == s.watches[k].phase && t.watches[k].family == s.watches[k].family;
    }
  }

  lemma EndedKeepsReplaced(s: State, i: nat)
    requires Replaced(s) && CanEnd(s, i)
    ensures Replaced(Ended(s, i))
  {
    var t := Ended(s, i);
    forall a, b | 0 <= a < b < |t.watches| && SameName(t, a, b) ensures t.watches[a].cancelled {
      assert SameName(s, a, b);
    }
  }

  /** Steps that keep identities, phases and the trace keep what the trace says. */
  lemma SameTrace(s: State, t: State)
    requires Overtaken(s) && Ordered(s) && t.trace == s.trace && |t.watches| == |s.watches|
    requires forall k | 0 <= k < |s.watches| :: t.watches[k].identity == s.watches[k].identity
               && t.watches[k].phase == s.watches[k].phase
    ensures Overtaken(t) && Ordered(t)
  {
    forall a, i | 0 <= a < |t.trace| && t.trace[a].Began? && t.trace[a].run < |t.watches| && 0 <= i < t.trace[a].run
                  && SameName(t, i, t.trace[a].run)
      ensures !MayYetWrite(t.watches[i].phase)
    {
      assert SameName(s, i, s.trace[a].run);
    }
    forall a, b | 0 <= a < b < |t.trace| && t.trace[a].Began? && t.trace[b].Wrote?
        && t.trace[b].run < t.trace[a].run < |t.watches|
      ensures !SameName(t, t.trace[b].run, t.trace[a].run)
    {
      assert !SameName(s, s.trace[b].run, s.trace[a].run);
    }
  }

  lemma EndedKeepsInv(s: State, i: nat)
    requires Inv(s) && CanEnd(s, i)
    ensures Inv(Ended(s, i))
  {
    EndedKeepsShared(s, i);
    EndedKeepsCounts(s, i);
    EndedKeepsCurrent(s, i);
    EndedKeepsLocks(s, i);
    EndedKeepsReplaced(s, i);
    SameTrace(s, Ended(s, i));
  }

  // ---------------------------------------------------------------------------------
  // Deliveries

  lemma MovedKeepsFamilies(s: State, i: nat, phase: Phase, holder: Option<nat>, seen: seq<Entry>)
    requires Families(s) && i < |s.watches|
    ensures Families(Moved(s, i, phase, holder, seen))
  {
    SameCounts(s, i, s.watches[i].(phase := phase));
  }

  lemma MovedKeepsRest(s: State, i: nat, phase: Phase, holder: Option<nat>, seen: seq<Entry>)
    requires Inv(s) && i < |s.watches|
    ensures InRange(Moved(s, i, phase, holder, seen))
    ensures OnlyCurrent(Moved(s, i, phase, holder, seen)) && Replaced(Moved(s, i, phase, holder, seen))
  {
    var t := Moved(s, i, phase, holder, seen);
    assert forall k | 0 <= k < |s.watches| ::
      t.watches[k].identity == s.watches[k].identity && t.watches[k].cancelled == s.watches[k].cancelled;
    forall a, b | 0 <= a < b < |t.watches| && SameName(t, a, b) ensures t.watches[a].cancelled {
      assert SameName(s, a, b);
    }
  }

  lemma MovedKeepsLocks(s: State, i: nat, phase: Phase, holder: Option<nat>, seen: seq<Entry>)
    requires InRange(s) && Locks(s) && i < |s.watches| && !s.watches[i].ended
    requires holder == if Holds(phase) then Some(i)
               else if Holds(s.watches[i].phase) then None else s.arena[s.watches[i].family].holder
    requires Holds(phase) && !Holds(s.watches[i].phase) ==> s.arena[s.watches[i].family].holder == None
    ensures InRange(Moved(s, i, phase, holder, seen)) && Locks(Moved(s, i, phase, holder, seen))
  {
    var t := Moved(s, i, phase, holder, seen);
    forall k | 0 <= k < |t.watches|
      ensures Holds(t.watches[k].phase) <==> t.arena[t.watches[k].family].holder == Some(k)
    {
      assert Holds(s.watches[k].phase) <==> s.arena[s.watches[k].family].holder == Some(k);
    }
    forall f | 0 <= f < |t.arena| && t.arena[f].holder.Some?
      ensures t.arena[f].holder.value < |t.watches| && t.watches[t.arena[f].holder.value].family == f
    {
      if f != s.watches[i].family { assert t.arena[f] == s.arena[f]; }
    }
  }

  /** A step that shows the store nothing new, and is no new right to write for a cancelled run. */
  lemma SilentMove(s: State, i: nat, phase: Phase, holder: Option<nat>)
    requires Inv(s) && i < |s.watches|
    requires MayYetWrite(phase) ==> !s.watches[i].cancelled || MayYetWrite(s.watches[i].phase)
    ensures Overtaken(Moved(s, i, phase, holder, [])) && Ordered(Moved(s, i, phase, holder, []))
  {
    var t := Moved(s, i, phase, holder, []);
    assert t.trace == s.trace;
    assert forall k | 0 <= k < |s.watches| :: t.watches[k].identity == s.watches[k].identity;
    forall a, k | 0 <= a < |t.trace| && t.trace[a].Began? && t.trace[a].run < |t.watches| && 0 <= k < t.trace[a].run
                  && SameName(t, k, t.trace[a].run)
      ensures !MayYetWrite(t.watches[k].phase)
    {
      assert SameName(s, k, s.trace[a].run);
    }
    forall a, b | 0 <= a < b < |t.trace| && t.trace[a].Began? && t.trace[b].Wrote?
        && t.trace[b].run < t.trace[a].run < |t.watches|
      ensures !SameName(t, t.trace[b].run, t.trace[a].run)
    {
      assert !SameName(s, s.trace[b].run, s.trace[a].run);
    }
  }

  /** Whoever takes the family lock finds no older run of its name in the middle of a delivery. */
  lemma NobodyElseHolds(s: State, i: nat, k: nat)
    requires Inv(s) && k < i < |s.watches| && SameName(s, k, i) && !s.watches[i].ended
    requires s.arena[s.watches[i].family].holder == None
    ensures !Holds(s.watches[k].phase)
  {
    if !s.watches[k].ended {
      assert s.watches[k].family == s.watches[i].family;
    }
  }

  lemma BeginOvertakes(s: State, i: nat)
    requires Inv(s) && i < |s.watches| && s.watches[i].phase == Blocked && s.arena[s.watches[i].family].holder == None
    ensures Overtaken(Moved(s, i, Ready, Some(i), [Began(i)]))
  {
    var t := Moved(s, i, Ready, Some(i), [Began(i)]);
    forall a, k | 0 <= a < |t.trace| && t.trace[a].Began? && t.trace[a].run < |t.watches| && 0 <= k < t.trace[a].run
                  && SameName(t, k, t.trace[a].run)
      ensures !MayYetWrite(t.watches[k].phase)
    {
      assert SameName(s, k, t.trace[a].run);
      if a == |s.trace| { NobodyElseHolds(s, i, k); }
    }
  }

  lemma BeginKeepsOrder(s: State, i: nat)
    requires InRange(s) && Ordered(s) && i < |s.watches|
    ensures Ordered(Moved(s, i, Ready, Some(i), [Began(i)]))
  {
    var t := Moved(s, i, Ready, Some(i), [Began(i)]);
    forall a, b | 0 <= a < b < |t.trace| && t.trace[a].Began? && t.trace[b].Wrote?
        && t.trace[b].run < t.trace[a].run < |t.watches|
      ensures !SameName(t, t.trace[b].run, t.trace[a].run)
    {
      assert t.trace[a] == s.trace[a] && t.trace[b] == s.trace[b];
      assert !SameName(s, s.trace[b].run, s.trace[a].run);
    }
  }

  lemma WriteKeepsOvertaken(s: State, i: nat, holder: Option<nat>)
    requires InRange(s) && Overtaken(s) && i < |s.watches| && s.watches[i].phase == Cleared
    ensures Overtaken(Moved(s, i, Writing, holder, [Wrote(i)]))
  {
    var t := Moved(s, i, Writing, holder, [Wrote(i)]);
    forall a, k | 0 <= a < |t.trace| && t.trace[a].Began? && t.trace[a].run < |t.watches| && 0 <= k < t.trace[a].run
                  && SameName(t, k, t.trace[a].run)
      ensures !MayYetWrite(t.watches[k].phase)
    {
      assert t.trace[a] == s.trace[a];
      assert SameName(s, k, s.trace[a].run);
    }
  }

  lemma WriteKeepsOrder(s: State, i: nat, holder: Option<nat>)
    requires InRange(s) && Overtaken(s) && Ordered(s) && i < |s.watches| && s.watches[i].phase == Cleared
    ensures Ordered(Moved(s, i, Writing, holder, [Wrote(i)]))
  {
    var t := Moved(s, i, Writing, holder, [Wrote(i)]);
    forall a, b | 0 <= a < b < |t.trace| && t.trace[a].Began? && t.trace[b].Wrote?
        && t.trace[b].run < t.trace[a].run < |t.watches|
      ensures !SameName(t, t.trace[b].run, t.trace[a].run)
    {
      assert t.trace[a] == s.trace[a];
      if b < |s.trace| {
        assert !SameName(s, s.trace[b].run, s.trace[a].run);
      } else {
        assert SameName(s, i, s.trace[a].run) ==> !MayYetWrite(s.watches[i].phase);
      }
    }
  }

  lemma MovedKeepsInv(s: State, i: nat, phase: Phase, holder: Option<nat>, seen: seq<Entry>)
    requires Inv(s) && i < |s.watches| && !s.watches[i].ended
    requires holder == if Holds(phase) then Some(i)
               else if Holds(s.watches[i].phase) then None else s.arena[s.watches[i].family].holder
    requires Holds(phase) && !Holds(s.watches[i].phase) ==> s.arena[s.watches[i].family].holder == None
    requires Overtaken(Moved(s, i, phase, holder, seen)) && Ordered(Moved(s, i, phase, holder, seen))
    ensures Inv(Moved(s, i, phase, holder, seen))
  {
    MovedKeepsFamilies(s, i, phase, holder, seen);
    MovedKeepsRest(s, i, phase, holder, seen);
    MovedKeepsLocks(s, i, phase, holder, seen);
  }

  lemma DeliveredKeepsInv(s: State, i: nat, write: bool)
    requires Inv(s) && i < |s.watches|
    ensures Inv(Delivered(s, i, write))
  {
    var w := s.watches[i];
    var holder := s.arena[w.family].holder;
    if Delivered(s, i, write) != s {
      match w.phase
      case Idle => SilentMove(s, i, Blocked, holder); MovedKeepsInv(s, i, Blocked, holder, []);
      case Blocked => BeginOvertakes(s, i); BeginKeepsOrder(s, i); MovedKeepsInv(s, i, Ready, Some(i), [Began(i)]);
      case Ready =>
        if write && !w.cancelled && !s.shutdown {
          SilentMove(s, i, Cleared, holder);
          MovedKeepsInv(s, i, Cleared, holder, []);
        } else {
          SilentMove(s, i, Idle, None);
          MovedKeepsInv(s, i, Idle, None, []);
        }
      case Cleared =>
        WriteKeepsOvertaken(s, i, holder);
        WriteKeepsOrder(s, i, holder);
        MovedKeepsInv(s, i, Writing, holder, [Wrote(i)]);
      case Writing => SilentMove(s, i, Ready, holder); MovedKeepsInv(s, i, Ready, holder, []);
    }
  }

  lemma ShutdownKeepsInv(s: State)
    requires Inv(s)
    ensures Inv(s.(shutdown := true))
  {
    SameTrace(s, s.(shutdown := true));
    assert Replaced(s.(shutdown := true)) by {
      forall a, b | 0 <= a < b < |s.watches| && SameName(s.(shutdown := true), a, b) ensures s.watches[a].cancelled {
        assert SameName(s, a, b);
      }
    }
  }

  lemma ApplyKeepsInv(s: State, op: Op)
    requires Inv(s)
    ensures Inv(Apply(s, op))
  {
    match op
    case Reconcile(id, served, wellFormed, handled) =>
      StoppedKeepsInv(s, id.name);
      RegisteredKeepsInv(Stopped(s, id.name), id);
    case Deregister(name, uid) => StoppedKeepsInv(s, name);
    case Deliver(i, write) => if i < |s.watches| { DeliveredKeepsInv(s, i, write); }
    case End(i) => if CanEnd(s, i) { EndedKeepsInv(s, i); }
    case Shutdown => ShutdownKeepsInv(s);
  }

  function Reached(ops: seq<Op>): State {
    Runs.Run(Apply, INITIAL, ops)
  }

  lemma {:induction false} RunKeepsInv(ops: seq<Op>)
    ensures Inv(Reached(ops))
  {
    if ops != [] {
      RunKeepsInv(ops[..|ops| - 1]);
      ApplyKeepsInv(Reached(ops[..|ops| - 1]), ops[|ops| - 1]);
      Runs.RunLast(Apply, INITIAL, ops);
    }
  }

  // ---------------------------------------------------------------------------------
  // What the source promises

  /** All live runs of one CRD name share one family, and its reference count is their number. */
  lemma LiveRunsShareOneFamily(ops: seq<Op>, i: nat, j: nat)
    requires i < |Reached(ops).watches| && j < |Reached(ops).watches| && SameName(Reached(ops), i, j)
    requires !Reached(ops).watches[i].ended && !Reached(ops).watches[j].ended
    ensures var s := Reached(ops); var f := s.watches[i].family;
            f == s.watches[j].family && f < |s.arena| && s.arena[f].refs == LiveCount(s.watches, f)
  {
    RunKeepsInv(ops);
    var s := Reached(ops);
    assert s.watches[i].identity.name in s.families;
  }

  /** Deliveries of one CRD name never overlap. */
  lemma DeliveriesNeverOverlap(ops: seq<Op>, i: nat, j: nat)
    requires i < j < |Reached(ops).watches| && SameName(Reached(ops), i, j)
    ensures !(Holds(Reached(ops).watches[i].phase) && Holds(Reached(ops).watches[j].phase))
  {
    RunKeepsInv(ops);
    var s := Reached(ops);
    assert Holds(s.watches[i].phase) ==> s.arena[s.watches[i].family].holder == Some(i);
    assert Holds(s.watches[j].phase) ==> s.arena[s.watches[j].family].holder == Some(j);
    if !s.watches[i].ended && !s.watches[j].ended { LiveRunsShareOneFamily(ops, i, j); }
  }

  /** No store write of a replaced registration begins after its successor's first delivery has begun. */
  lemma NoStaleWrite(ops: seq<Op>, a: nat, b: nat)
    requires a < b < |Reached(ops).trace| && Reached(ops).trace[a].Began? && Reached(ops).trace[b].Wrote?
    requires Reached(ops).trace[b].run < Reached(ops).trace[a].run
    ensures var s := Reached(ops);
            s.trace[a].run < |s.watches|
                && s.watches[s.trace[a].run].identity.name != s.watches[s.trace[b].run].identity.name
  {
    RunKeepsInv(ops);
    var s := Reached(ops);
    assert !SameName(s, s.trace[b].run, s.trace[a].run);
  }

  /** A replaced registration is cancelled, and only the latest of its name can still be running uncancelled. */
  lemma OnlyTheLatestRuns(ops: seq<Op>, i: nat, j: nat)
    requires i < j < |Reached(ops).watches| && SameName(Reached(ops), i, j)
    ensures Reached(ops).watches[i].cancelled
  {
    RunKeepsInv(ops);
  }

  /** A tombstone stops the registration exactly when it carries the registered UID; with an old UID nothing changes. */
  lemma TombstoneNeedsTheUid(ops: seq<Op>, name: string, uid: string)
    ensures var s := Reached(ops); var t := Apply(s, Deregister(name, uid));
            if name in s.informers && s.informers[name] < |s.watches|
                && s.watches[s.informers[name]].identity.uid == uid
            then name !in t.informers && s.informers[name] < |t.watches| && t.watches[s.informers[name]].cancelled
            else t == s
  {
    RunKeepsInv(ops);
    StoppedKeepsInv(Reached(ops), name);
  }
}
