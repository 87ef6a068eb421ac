/** Each session of an interleaved execution is a run of its own calls, so the theorems about runs hold
    of it; and an ordered clock is ordered for each of them. */
module SlotRuns {
  import opened CheckedArithmetic
  import opened SupervisorAdmission
  import opened SessionModel
  import opened SessionRuns
  import opened SessionClock
  import opened SessionWorld

  /** Call `c` is one that session `i` made before event `n`. */
  ghost predicate MadeBy(es: seq<Event>, n: nat, i: nat, c: Call) {
    exists k :: 0 <= k < n && k < |es| && es[k] == Act(i, c)
  }

  function Reading(e: Event): Option<u64> { if e.Act? then Clock(e.call) else None }

  /** The clock never runs backwards, whichever session reads it. */
  ghost predicate ReadingsOrdered(es: seq<Event>) {
    forall i, j :: 0 <= i < j < |es| && Reading(es[i]).Some? && Reading(es[j]).Some? ==>
      Reading(es[i]).value <= Reading(es[j]).value
  }

  lemma SlotMoves(w: World, e: Event, i: nat)
    requires Enabled(w, e) && i < |w.slots|
    ensures i < |After(w, e).slots|
    ensures After(w, e).slots[i].t == if e.Act? && e.index == i then Step(w.slots[i].t, e.call) else w.slots[i].t
    ensures e.Act? && e.index == i ==> Allowed(w.slots[i].t, e.call)
  {
    hide Step, Allowed, Releases;
  }

  lemma SlotStarts(w: World, e: Event, i: nat)
    requires Enabled(w, e) && |w.slots| <= i < |After(w, e).slots|
    ensures exists cell, luid, id :: After(w, e).slots[i].t == Tracked(NewSession(cell, luid, id), NewHistory())
  {
    hide Step, Allowed, Releases;
    assert e.Acquire?;
    assert After(w, e).slots[i].t == Tracked(NewSession(e.cell, e.luid, e.issuerId), NewHistory());
  }

  /** The run of session `i` up to world `n`. */
  lemma {:induction false} SlotRun(ws: seq<World>, es: seq<Event>, n: nat, i: nat)
    returns (ts: seq<Tracked>, calls: seq<Call>)
    requires Execution(ws, es) && n < |ws| && i < |ws[n].slots|
    ensures Run(ts, calls) && |ts| == |calls| + 1 && ts[|calls|] == ws[n].slots[i].t
    ensures forall m :: 0 <= m < |calls| ==> MadeBy(es, n, i, calls[m])
    ensures ReadingsOrdered(es) ==> ClockOrdered(calls)
  {
    if |ws[n - 1].slots| <= i {
      SlotStarts(ws[n - 1], es[n - 1], i);
      ts, calls := [ws[n].slots[i].t], [];
    } else {
      SlotMoves(ws[n - 1], es[n - 1], i);
      ts, calls := SlotRun(ws, es, n - 1, i);
      hide Execution, Step, Allowed, Run, Clock, MadeBy, ClockOrdered;
      ts, calls := RunMoves(es, n - 1, i, ts, calls);
    }
  }

  lemma RunMoves(es: seq<Event>, n: nat, i: nat, ts: seq<Tracked>, calls: seq<Call>)
    returns (ts': seq<Tracked>, calls': seq<Call>)
    requires n < |es| && Run(ts, calls) && |ts| == |calls| + 1
    requires es[n].Act? && es[n].index == i ==> Allowed(ts[|calls|], es[n].call)
    requires forall m :: 0 <= m < |calls| ==> MadeBy(es, n, i, calls[m])
    requires ReadingsOrdered(es) ==> ClockOrdered(calls)
    ensures Run(ts', calls') && |ts'| == |calls'| + 1
    ensures ts'[|calls'|] ==
      if es[n].Act? && es[n].index == i then Step(ts[|calls|], es[n].call) else ts[|calls|]
    ensures forall m :: 0 <= m < |calls'| ==> MadeBy(es, n + 1, i, calls'[m])
    ensures ReadingsOrdered(es) ==> ClockOrdered(calls')
  {
    hide Step, Allowed, Run, MadeBy, ClockOrdered, ReadingsOrdered;
    Remembered(es, n, i, calls);
    ts', calls' := ts, calls;
    if es[n].Act? && es[n].index == i {
      var c := es[n].call;
      RunExtends(ts, calls, c);
      if ReadingsOrdered(es) {
        OrderExtends(es, n, i, calls, c);
      }
      ts', calls' := ts + [Step(ts[|calls|], c)], calls + [c];
    }
  }

  lemma Remembered(es: seq<Event>, n: nat, i: nat, calls: seq<Call>)
    requires forall m :: 0 <= m < |calls| ==> MadeBy(es, n, i, calls[m])
    ensures forall m :: 0 <= m < |calls| ==> MadeBy(es, n + 1, i, calls[m])
    ensures n < |es| && es[n].Act? && es[n].index == i ==> MadeBy(es, n + 1, i, es[n].call)
  {
    forall m | 0 <= m < |calls| ensures MadeBy(es, n + 1, i, calls[m]) {
      var k :| 0 <= k < n && k < |es| && es[k] == Act(i, calls[m]);
      assert k < n + 1;
    }
  }

  lemma OrderExtends(es: seq<Event>, n: nat, i: nat, calls: seq<Call>, c: Call)
    requires ReadingsOrdered(es) && ClockOrdered(calls) && n < |es| && es[n] == Act(i, c)
    requires forall m :: 0 <= m < |calls| ==> MadeBy(es, n, i, calls[m])
    ensures ClockOrdered(calls + [c])
  {
    hide Clock;
    forall m | 0 <= m < |calls| && Clock(calls[m]).Some? && Clock(c).Some?
      ensures Clock(calls[m]).value <= Clock(c).value
    {
      var k :| 0 <= k < n && k < |es| && es[k] == Act(i, calls[m]);
    }
  }

  /** Under any interleaving with an ordered clock, an adapter leaves the registry only when its holder's
      cancellation, if there was one, is no older than the cleanup bound. */
  lemma {:induction false} FreedAdapterHonoursCancel(ws: seq<World>, es: seq<Event>, n: nat, luid: Luid)
    requires Execution(ws, es) && ReadingsOrdered(es) && n < |es|
    requires luid in ws[n].registry && luid !in ws[n + 1].registry
    ensures es[n].Act? && es[n].index < |ws[n].slots| && es[n].call.CallCleanup?
    ensures CancelsWithin(ws[n].slots[es[n].index].t, es[n].call.now)
  {
    OnlyCleanedFreesAdapter(ws, es, n, luid);
    var i, c := es[n].index, es[n].call;
    var t := ws[n].slots[i].t;
    var ts, calls := SlotRun(ws, es, n, i);
    hide Execution, Run, ClockOrdered, ReadingsOrdered;
    StampsAreNonzero(ts, calls, |calls|);
  }

  /** Likewise every other theorem about runs: in particular a session that failed or was quarantined
      is never Cleaned again, whatever the other sessions do. */
  lemma {:induction false} FailedSlotNeverCleaned(ws: seq<World>, es: seq<Event>, m: nat, n: nat, i: nat)
    requires Execution(ws, es) && m <= n < |ws| && i < |ws[m].slots| && Doomed(ws[m].slots[i].t)
    ensures i < |ws[n].slots| && Doomed(ws[n].slots[i].t)
    ensures ws[n].slots[i].t.h.released == ws[m].slots[i].t.h.released
    decreases n - m
  {
    if m < n {
      ExecutionKeepsInv(ws, es, m);
      assert Inv(ws[m].slots[i].t);
      SlotMoves(ws[m], es[m], i);
      if es[m].Act? && es[m].index == i {
        DoomedStays(ws[m].slots[i].t, es[m].call);
      }
      hide Doomed, Inv, Step;
      FailedSlotNeverCleaned(ws, es, m + 1, n, i);
    }
  }
}
