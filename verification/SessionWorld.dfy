/** All sessions of one supervisor process and the lease registry they share
    (src/governor/exclusive_gpu_lease.cpp, src/governor/gpu_admission_session.cpp). */
module SessionWorld {
  import opened CheckedArithmetic
  import opened SupervisorAdmission
  import opened GpuLease
  import opened SessionModel
  import opened SessionRuns

  /** A session, or what is left of it after its destructor ran. */
  datatype Slot = Slot(t: Tracked, alive: bool)

  /** `failStopped`: adapters quarantined on behalf of a fail-stopped supervisor. */
  datatype World = World(registry: set<Luid>, slots: seq<Slot>, failStopped: set<Luid>)

  datatype Event =
    | Acquire(cell: Cell, luid: Luid, os: OsAnswer, issuerId: u64, hasMemory: bool)
    | Act(index: nat, call: Call)
    | Destroy(index: nat)
    | FailStop(luid: Luid, os: OsAnswer)

  predicate Enabled(w: World, e: Event) {
    match e
    case Acquire(_, _, _, _, _) => true
    case Act(i, c) => i < |w.slots| && w.slots[i].alive && Allowed(w.slots[i].t, c)
    case Destroy(i) => i < |w.slots| && w.slots[i].alive
    case FailStop(_, _) => true
  }

  function After(w: World, e: Event): World
    requires Enabled(w, e)
  {
    match e
    case Acquire(cell, luid, os, issuerId, hasMemory) =>
      // without memory for the session the fresh lease is destroyed, hence released, again
      if !CellValid(cell) || !AcquireStatus(w.registry, luid, os).Acquired? || !hasMemory then w
      else w.(registry := w.registry + {luid},
              slots := w.slots + [Slot(Tracked(NewSession(cell, luid, issuerId), NewHistory()), true)])
    case Act(i, c) =>
      var t := w.slots[i].t;
      w.(registry := if Releases(t.s, c) then w.registry - {t.s.luid} else w.registry,
         slots := w.slots[i := Slot(Step(t, c), true)])
    case Destroy(i) =>
      // the destructor quarantines unless Cleaned; a lease still active is then released
      var s := w.slots[i].t.s;
      w.(registry := if s.lease == Lease(true) && s.state.Cleaned? then w.registry - {s.luid} else w.registry,
         slots := w.slots[i := w.slots[i].(alive := false)])
    case FailStop(luid, os) =>
      if !AcquireStatus(w.registry, luid, os).Acquired? then w
      else w.(registry := w.registry + {luid}, failStopped := w.failStopped + {luid})
  }

  ghost predicate Execution(ws: seq<World>, es: seq<Event>) {
    && |ws| == |es| + 1 && ws[0] == World({}, [], {})
    && forall n :: 0 <= n < |es| ==> Enabled(ws[n], es[n]) && ws[n + 1] == After(ws[n], es[n])
  }

  /** Session `i` took the adapter and has not given it back. */
  predicate Holds(w: World, i: nat, luid: Luid) {
    i < |w.slots| && w.slots[i].t.s.luid == luid && !w.slots[i].t.h.released
  }

  ghost predicate Free(w: World, luid: Luid) {
    forall j :: !Holds(w, j, luid)
  }

  ghost predicate SlotsInv(w: World) {
    forall i :: 0 <= i < |w.slots| ==> Inv(w.slots[i].t)
  }

  /** The registry is exactly the adapters of sessions never released and of fail-stops, and
      no two of these share an adapter. */
  ghost predicate RegistryInv(w: World) {
    && w.failStopped <= w.registry
    && (forall i, luid :: Holds(w, i, luid) ==> luid in w.registry && luid !in w.failStopped)
    && (forall luid :: luid in w.registry && luid !in w.failStopped ==> exists i :: Holds(w, i, luid))
    && (forall i, j, luid :: Holds(w, i, luid) && Holds(w, j, luid) ==> i == j)
  }

  ghost predicate WorldInv(w: World) { SlotsInv(w) && RegistryInv(w) }

  lemma SameHoldersKeep(w: World, w': World)
    requires RegistryInv(w) && w'.registry == w.registry && w'.failStopped == w.failStopped
    requires forall i, luid :: Holds(w', i, luid) <==> Holds(w, i, luid)
    ensures RegistryInv(w')
  {
    forall luid | luid in w'.registry && luid !in w'.failStopped ensures exists i :: Holds(w', i, luid) {
      var i :| Holds(w, i, luid);
      assert Holds(w', i, luid);
    }
  }

  lemma NewSessionFits(cell: Cell, luid: Luid, issuerId: u64)
    ensures Inv(Tracked(NewSession(cell, luid, issuerId), NewHistory()))
  {}

  lemma AcquireKeeps(w: World, cell: Cell, luid: Luid, os: OsAnswer, issuerId: u64, hasMemory: bool)
    requires WorldInv(w)
    ensures WorldInv(After(w, Acquire(cell, luid, os, issuerId, hasMemory)))
  {
    var w' := After(w, Acquire(cell, luid, os, issuerId, hasMemory));
    if w' != w {
      var n := |w.slots|;
      NewSessionFits(cell, luid, issuerId);
      assert forall i, l :: Holds(w', i, l) <==> Holds(w, i, l) || (i == n && l == luid);
      forall l | l in w'.registry && l !in w'.failStopped ensures exists i :: Holds(w', i, l) {
        if l == luid {
          assert Holds(w', n, l);
        } else {
          var i :| Holds(w, i, l);
          assert Holds(w', i, l);
        }
      }
    }
  }

  /** One holder gives its adapter back, the others keep theirs. */
  lemma HolderLeaves(w: World, w': World, i: nat)
    requires RegistryInv(w) && i < |w.slots| && Holds(w, i, w.slots[i].t.s.luid)
    requires w'.registry == w.registry - {w.slots[i].t.s.luid} && w'.failStopped == w.failStopped
    requires forall j, l :: Holds(w', j, l) <==> Holds(w, j, l) && j != i
    ensures RegistryInv(w')
  {
    forall l | l in w'.registry && l !in w'.failStopped ensures exists j :: Holds(w', j, l) {
      var j :| Holds(w, j, l);
      assert Holds(w', j, l);
    }
  }

  lemma ActKeeps(w: World, i: nat, c: Call)
    requires WorldInv(w) && Enabled(w, Act(i, c))
    ensures WorldInv(After(w, Act(i, c)))
  {
    var w', t := After(w, Act(i, c)), w.slots[i].t;
    assert Releases(t.s, c) ==> Holds(w, i, t.s.luid) by { assert Inv(t); }
    hide Inv, Allowed;
    StepKeeps(t, c);
    LuidIsConstant(t.s, c);
    if Releases(t.s, c) {
      assert forall j, l :: Holds(w', j, l) <==> Holds(w, j, l) && j != i;
      HolderLeaves(w, w', i);
    } else {
      assert forall j, l :: Holds(w', j, l) <==> Holds(w, j, l);
      SameHoldersKeep(w, w');
    }
  }

  lemma LuidIsConstant(s: Session, c: Call)
    ensures Next(s, c).luid == s.luid
  {}

  lemma DestroyKeeps(w: World, i: nat)
    requires WorldInv(w) && Enabled(w, Destroy(i))
    ensures WorldInv(After(w, Destroy(i)))
    ensures After(w, Destroy(i)).registry == w.registry
  {
    var w' := After(w, Destroy(i));
    assert Inv(w.slots[i].t);
    assert forall j, l :: Holds(w', j, l) <==> Holds(w, j, l);
    SameHoldersKeep(w, w');
  }

  lemma FailStopKeeps(w: World, luid: Luid, os: OsAnswer)
    requires WorldInv(w)
    ensures WorldInv(After(w, FailStop(luid, os)))
  {
    var w' := After(w, FailStop(luid, os));
    assert forall j, l :: Holds(w', j, l) <==> Holds(w, j, l);
    forall l | l in w'.registry && l !in w'.failStopped ensures exists i :: Holds(w', i, l) {
      var i :| Holds(w, i, l);
      assert Holds(w', i, l);
    }
  }

  lemma {:induction false} ExecutionKeepsInv(ws: seq<World>, es: seq<Event>, n: nat)
    requires Execution(ws, es) && n < |ws|
    ensures WorldInv(ws[n])
  {
    if n > 0 {
      ExecutionKeepsInv(ws, es, n - 1);
      match es[n - 1]
      case Acquire(cell, luid, os, issuerId, hasMemory) => AcquireKeeps(ws[n - 1], cell, luid, os, issuerId, hasMemory);
      case Act(i, c) => ActKeeps(ws[n - 1], i, c);
      case Destroy(i) => DestroyKeeps(ws[n - 1], i);
      case FailStop(luid, os) => FailStopKeeps(ws[n - 1], luid, os);
    }
  }

  /** Session `i` has ended without being cleaned: destroyed, its lease quarantined or dropped, or
      failed or quarantined while its lease is still live. */
  predicate EndedUncleaned(w: World, i: nat) {
    && i < |w.slots| && !w.slots[i].t.h.released
    && (!w.slots[i].alive || w.slots[i].t.s.lease != Lease(true) || Doomed(w.slots[i].t))
  }

  lemma EndedStaysEnded(w: World, e: Event, i: nat)
    requires WorldInv(w) && Enabled(w, e) && EndedUncleaned(w, i)
    ensures EndedUncleaned(After(w, e), i) && After(w, e).slots[i].t.s.luid == w.slots[i].t.s.luid
  {
    assert Inv(w.slots[i].t);
    hide Inv;
    if e.Act? && e.index == i {
      LuidIsConstant(w.slots[i].t.s, e.call);
      LeaseNeverReturns(w.slots[i].t.s, e.call);
      if Doomed(w.slots[i].t) {
        DoomedStays(w.slots[i].t, e.call);
      }
    }
  }

  lemma LeaseNeverReturns(s: Session, c: Call)
    ensures s.lease != Lease(true) ==> Next(s, c).lease != Lease(true)
  {}

  /** Every end but Cleaned keeps the adapter from being acquired for the rest of the process. */
  lemma {:induction false} UncleanedAdapterIsGone(ws: seq<World>, es: seq<Event>, m: nat, n: nat, i: nat, os: OsAnswer)
    requires Execution(ws, es) && m <= n < |ws| && EndedUncleaned(ws[m], i)
    ensures i < |ws[n].slots| && ws[n].slots[i].t.s.luid == ws[m].slots[i].t.s.luid && EndedUncleaned(ws[n], i)
    ensures AcquireStatus(ws[n].registry, ws[m].slots[i].t.s.luid, os) in {AlreadyHeldInProcess, InvalidAdapter}
    decreases n - m
  {
    ExecutionKeepsInv(ws, es, m);
    if m < n {
      EndedStaysEnded(ws[m], es[m], i);
      UncleanedAdapterIsGone(ws, es, m + 1, n, i, os);
    } else {
      assert Holds(ws[n], i, ws[n].slots[i].t.s.luid);
    }
  }

  /** The same for one call. */
  lemma ActThatFrees(w: World, i: nat, c: Call, luid: Luid)
    requires WorldInv(w) && Enabled(w, Act(i, c)) && luid in w.registry && luid !in After(w, Act(i, c)).registry
    ensures i < |w.slots| && Holds(w, i, luid) && CleanedProperly(w.slots[i].t, c)
    ensures After(w, Act(i, c)).slots[i].t.s.state.Cleaned?
  {
    assert Inv(w.slots[i].t) && Releases(w.slots[i].t.s, c);
    ReleaseIsProper(w.slots[i].t, c);
    hide Inv, CleanedProperly, Releases, Step;
  }

  /** The registry entry of an adapter disappears only in a step of its one holder that enters
      Cleaned, with everything CleanedProperly says; and then the adapter is free. */
  lemma {:induction false} OnlyCleanedFreesAdapter(ws: seq<World>, es: seq<Event>, n: nat, luid: Luid)
    requires Execution(ws, es) && n < |es| && luid in ws[n].registry && luid !in ws[n + 1].registry
    ensures es[n].Act? && es[n].index < |ws[n].slots| && es[n].index < |ws[n + 1].slots|
    ensures var i := es[n].index;
      && Holds(ws[n], i, luid) && CleanedProperly(ws[n].slots[i].t, es[n].call)
      && ws[n + 1].slots[i].t.s.state.Cleaned?
      && Free(ws[n + 1], luid)
  {
    ExecutionKeepsInv(ws, es, n);
    ExecutionKeepsInv(ws, es, n + 1);
    match es[n]
    case Act(i, c) =>
      hide CleanedProperly, Releases, Inv, Step;
      ActThatFrees(ws[n], i, c, luid);
    case Destroy(i) => DestroyKeeps(ws[n], i);
    case _ =>
  }

  /** At most one session holds an adapter at any time. */
  lemma AdapterIsExclusive(ws: seq<World>, es: seq<Event>, n: nat, i: nat, j: nat, luid: Luid)
    requires Execution(ws, es) && n < |ws| && Holds(ws[n], i, luid) && Holds(ws[n], j, luid)
    ensures i == j && luid in ws[n].registry
  {
    ExecutionKeepsInv(ws, es, n);
  }
}
