/** The registration methods of pkg/crd Discovery, and the choice of the served version. */
module CrdDiscovery {

  import opened Options
  import opened CrdModel
  import opened CrdRuns
  import opened CrdLaws

  datatype Outcome = Done | ContextEnded | InvalidIdentity | HandlerFailed

  /** Discovery, with its informer runs and callback families kept in arenas and named by index. */
  class Discovery {
    var watches: seq<Watch>
    var arena: seq<Family>
    var informers: map<string, nat>
    var families: map<string, nat>
    var shutdown: bool
    ghost var trace: seq<Entry>

    ghost function View(): State
      reads this
    {
      State(watches, arena, informers, families, shutdown, trace)
    }

    constructor ()
      ensures View() == INITIAL && Inv(View())
    {
      watches, arena, informers, families, shutdown, trace := [], [], map[], map[], false, [];
    }

    /** stopLocked: the name has no run any more, the run it had is cancelled, nothing else moves. */
    method StopLocked(name: string)
      requires InRange(View())
      modifies this`watches, this`informers
      ensures name !in informers
      ensures forall other | other != name :: (other in informers <==> other in old(informers))
                                              && (other in informers ==> informers[other] == old(informers)[other])
      ensures |watches| == |old(watches)|
      ensures forall i | 0 <= i < |watches| ::
                watches[i] == if name in old(informers) && old(informers)[name] == i
                              then old(watches)[i].(cancelled := true) else old(watches)[i]
      ensures View() == Stopped(old(View()), name)
    {
      if name !in informers { return; }
      var e := informers[name];
      informers := informers - {name};
      watches := watches[e := watches[e].(cancelled := true)];
    }

    /** The part of reconcileCRD that starts an informer run. */
    method Register(id: Identity)
      requires InRange(View())
      modifies this`watches, this`arena, this`informers, this`families
      ensures View() == Registered(old(View()), id) && Observed(View(), id)
    {
      var f;
      if id.name in families {
        f := families[id.name];
        arena := arena[f := arena[f].(refs := arena[f].refs + 1)];
      } else {
        f := |arena|;
        arena := arena + [Family(1, None)];
      }
      families := families[id.name := f];
      informers := informers[id.name := |watches|];
      watches := watches + [Watch(id, f, false, false, Idle)];
    }

    /** What reconcileCRD says to a report that finds no registration to keep. */
    static method Judge(id: Identity, served: bool, wellFormed: bool, handled: bool) returns (r: Outcome)
      ensures served && !(MayRegister(id) && wellFormed) ==> r == InvalidIdentity
      ensures served && MayRegister(id) && wellFormed ==> r == if handled then Done else HandlerFailed
      ensures !served ==> r == if id.name != "" && id.uid != "" then Done else InvalidIdentity
      ensures r == Done && served <==> Accepted(id, served, wellFormed, handled)
    {
      if id.name == "" || id.uid == "" { return InvalidIdentity; }
      if !served { return Done; }
      if !Observable(id, wellFormed) { return InvalidIdentity; }
      if !handled { return HandlerFailed; }
      return Done;
    }

    /** reconcileCRD */
    method ReconcileCrd(id: Identity, served: bool, wellFormed: bool, handled: bool) returns (r: Outcome)
      requires Inv(View())
      modifies this`watches, this`arena, this`informers, this`families
      ensures Inv(View())
      ensures View() == Apply(old(View()), Reconcile(id, served, wellFormed, handled))
      ensures r == ContextEnded <==> old(shutdown)
      ensures r == Done && served ==> Observed(View(), id)
      ensures r == InvalidIdentity || r == HandlerFailed ==> id.name !in informers
      ensures !old(shutdown) && served && wellFormed && handled && MayRegister(id) ==> r == Done
      ensures !old(shutdown) && served && !old(Observed(View(), id)) && !(MayRegister(id) && wellFormed) ==>
                r == InvalidIdentity
      ensures !old(shutdown) && served && !old(Observed(View(), id)) && MayRegister(id) && wellFormed && !handled ==>
                r == HandlerFailed
      ensures !old(shutdown) && !served ==>
                id.name !in informers && r == if id.name != "" && id.uid != "" then Done else InvalidIdentity
    {
      ghost var before := View();
      ApplyKeepsInv(before, Reconcile(id, served, wellFormed, handled));
      if shutdown { return ContextEnded; }
      if served && id.name in informers && watches[informers[id.name]].identity == id { return Done; }
      StoppedKeepsInv(before, id.name);
      StopLocked(id.name);
      r := Judge(id, served, wellFormed, handled);
      if r == Done && served { Register(id); }
    }

    /** deregisterCRD */
    method DeregisterCrd(name: string, uid: string)
      requires Inv(View())
      modifies this`watches, this`informers
      ensures Inv(View()) && View() == Apply(old(View()), Deregister(name, uid))
    {
      ApplyKeepsInv(View(), Deregister(name, uid));
      if name in informers && watches[informers[name]].identity.uid == uid {
        StopLocked(name);
      }
    }

    method LeaveFamily(i: nat)
      requires CanEnd(View(), i)
      modifies this`watches, this`arena, this`families
      ensures View() == Ended(old(View()), i)
    {
      var w := watches[i];
      watches := watches[i := w.(ended := true)];
      arena := arena[w.family := arena[w.family].(refs := arena[w.family].refs - 1)];
      if arena[w.family].refs == 0 {
        families := families - {w.identity.name};
      }
    }

    /** The goroutine of an informer run, once Run has returned. */
    method RunReturned(i: nat)
      requires Inv(View()) && CanEnd(View(), i)
      modifies this`watches, this`arena, this`families
      ensures Inv(View()) && View() == Apply(old(View()), End(i))
    {
      EndedKeepsInv(View(), i);
      LeaveFamily(i);
    }
  }

  // ---------------------------------------------------------------------------------
  // The served version

  datatype Version = Version(name: string, served: bool, storage: bool)

  predicate ServedStorage(v: Version) {
    v.served && v.storage
  }

  predicate ServedNamed(v: Version) {
    v.served && v.name != ""
  }

  /** The first served storage version, or without one the first served version with a name. */
  ghost predicate Preferred(versions: seq<Version>, k: nat)
    requires k < |versions|
  {
    if ServedStorage(versions[k])
    then forall i | 0 <= i < k :: !ServedStorage(versions[i])
    else ServedNamed(versions[k]) && (forall i | 0 <= i < k :: !ServedNamed(versions[i]))
         && forall i | 0 <= i < |versions| :: !ServedStorage(versions[i])
  }

  /** pickServedGVR */
  method PickServed(versions: seq<Version>) returns (chosen: string, ok: bool)
    ensures ok <==> chosen != ""
    ensures ok ==> exists k | 0 <= k < |versions| :: Preferred(versions, k) && versions[k].name == chosen
    ensures !ok ==> forall k | 0 <= k < |versions| && Preferred(versions, k) :: versions[k].name == ""
    ensures ok ==> exists k | 0 <= k < |versions| :: versions[k].served && versions[k].name == chosen
    ensures (forall k | 0 <= k < |versions| :: !(versions[k].served && versions[k].storage)) ==>
              (ok <==> exists k | 0 <= k < |versions| :: versions[k].served && versions[k].name != "")
    ensures forall k | 0 <= k < |versions| && versions[k].served && versions[k].storage
                       && forall j | 0 <= j < k :: !(versions[j].served && versions[j].storage) ::
              chosen == versions[k].name
  {
    chosen := "";
    ghost var at := 0;
    var i := 0;
    while i < |versions|
      invariant 0 <= i <= |versions|
      invariant forall j | 0 <= j < i :: !ServedStorage(versions[j])
      invariant chosen == "" ==> forall j | 0 <= j < i :: !ServedNamed(versions[j])
      invariant chosen != "" ==> 0 <= at < i && versions[at].name == chosen && ServedNamed(versions[at])
                                 && forall j | 0 <= j < at :: !ServedNamed(versions[j])
    {
      var v := versions[i];
      if v.served {
        if v.storage {
          chosen := v.name;
          assert Preferred(versions, i);
          assert forall k | 0 <= k < |versions| && Preferred(versions, k) :: k == i by {
            forall k | 0 <= k < |versions| && Preferred(versions, k) ensures k == i {
              assert ServedStorage(versions[i]);
            }
          }
          return chosen, chosen != "";
        }
        if chosen == "" {
          chosen := v.name;
          at := i;
        }
      }
      i := i + 1;
    }
    if chosen != "" { assert Preferred(versions, at); }
    return chosen, chosen != "";
  }
}
