/** Cancellation deadlines over whole runs: what an ordered clock guarantees, and exactly what is lost
    without one. */
module SessionClock {
  import opened CheckedArithmetic
  import opened SupervisorAdmission
  import opened AdmissionToken
  import opened SessionModel
  import opened SessionRuns

  /** The clock reading a call carries. */
  function Clock(c: Call): Option<u64> {
    match c
    case CallIssue(now, _) => Some(now)
    case CallConsume(_, _, now) => Some(now)
    case CallWatchdog(_, evaluated, _) => Some(evaluated)
    case CallRequestCancel(now) => Some(now)
    case CallAdvance(now, _, _, _) => Some(now)
    case CallJobAbort(now, _) => Some(now)
    case CallNormalExit(now, _) => Some(now)
    case CallStartCleanup(now) => Some(now)
    case CallCleanup(_, now) => Some(now)
    case _ => None
  }

  /** The clock never runs backwards. */
  ghost predicate ClockOrdered(calls: seq<Call>) {
    forall i, j :: 0 <= i < j < |calls| && Clock(calls[i]).Some? && Clock(calls[j]).Some? ==>
      Clock(calls[i]).value <= Clock(calls[j]).value
  }

  /** A token was issued at some call, and never at time zero. */
  lemma {:induction false} IssuedAtNonzero(ts: seq<Tracked>, calls: seq<Call>, n: nat) returns (k: nat)
    requires Run(ts, calls) && n < |ts| && ts[n].h.issued != []
    ensures k < n && Clock(calls[k]).Some? && Clock(calls[k]).value > 0
  {
    if ts[n - 1].h.issued != [] {
      k := IssuedAtNonzero(ts, calls, n - 1);
    } else {
      k := n - 1;
      assert calls[k].CallIssue? && IssueSucceeds(ts[k].s, calls[k].now, calls[k].validity);
    }
  }

  /** A stamp is the call's own clock reading, and only a session that spends a token is stamped. */
  lemma StampIsClock(t: Tracked, c: Call)
    requires Inv(t)
    ensures Step(t, c).h.cancels == t.h.cancels + Stamped(t.s, c)
    ensures Stamped(t.s, c) == [] || (Clock(c).Some? && Stamped(t.s, c) == [Clock(c).value] && t.h.issued != [])
  {
    hide ReceiptsFit, StateFits, CancellationFits;
    assert t.h.cancels + [] == t.h.cancels;
  }

  predicate Nonzero(xs: seq<u64>) { forall i :: 0 <= i < |xs| ==> xs[i] > 0 }

  lemma NonzeroJoins(a: seq<u64>, b: seq<u64>)
    requires Nonzero(a) && Nonzero(b)
    ensures Nonzero(a + b)
  {}

  lemma NonzeroStamp(calls: seq<Call>, k: nat, n: nat, s: Session)
    requires ClockOrdered(calls) && k < n < |calls| && Clock(calls[k]).Some? && Clock(calls[k]).value > 0
    requires Clock(calls[n]).Some? && Stamped(s, calls[n]) == [Clock(calls[n]).value]
    ensures Nonzero(Stamped(s, calls[n]))
  {
    hide Clock, Stamped;
  }

  /** With an ordered clock no cancellation is stamped with time zero: a token was issued before. */
  lemma {:induction false} StampsAreNonzero(ts: seq<Tracked>, calls: seq<Call>, n: nat)
    requires Run(ts, calls) && ClockOrdered(calls) && n < |ts|
    ensures Nonzero(ts[n].h.cancels)
  {
    hide Run, Inv, Step, Stamped, Clock, ClockOrdered, Nonzero;
    RunMovesOn(ts, calls, n);
    if n == 0 {
      NoStamps();
    } else {
      var t, c := ts[n - 1], calls[n - 1];
      StampsAreNonzero(ts, calls, n - 1);
      RunKeepsInv(ts, calls, n - 1);
      StampIsClock(t, c);
      if Stamped(t.s, c) == [] {
        NoStamps();
      } else {
        var k := IssuedAtNonzero(ts, calls, n - 1);
        NonzeroStamp(calls, k, n - 1, t.s);
      }
      NonzeroJoins(t.h.cancels, Stamped(t.s, c));
    }
  }

  lemma NoStamps()
    ensures Nonzero([])
  {}

  lemma RunMovesOn(ts: seq<Tracked>, calls: seq<Call>, n: nat)
    requires Run(ts, calls) && n < |ts|
    ensures n == 0 ==> ts[n].h.cancels == []
    ensures n > 0 ==> n <= |calls| && ts[n] == Step(ts[n - 1], calls[n - 1])
  {
    hide Step, Allowed;
  }

  /** In every run with an ordered clock, whatever is given back had its one cancellation, if any,
      stamped at a real time no older than the cleanup bound. */
  lemma {:induction false} OrderedReleaseHonoursCancel(ts: seq<Tracked>, calls: seq<Call>, n: nat)
    requires Run(ts, calls) && ClockOrdered(calls) && n < |calls| && Releases(ts[n].s, calls[n])
    ensures CleanedProperly(ts[n], calls[n]) && CancelsWithin(ts[n], calls[n].now)
    ensures ts[n].h.cancels == [] || ts[n].h.cancels[0] > 0
  {
    ReleaseIsCleaned(ts, calls, n);
    StampsAreNonzero(ts, calls, n);
  }

  /** With any clock: the bound is kept if and only if the stamp is not zero, or the process is
      still younger than the bound. */
  lemma {:induction false} ReleaseHonoursCancel(ts: seq<Tracked>, calls: seq<Call>, n: nat)
    requires Run(ts, calls) && n < |calls| && Releases(ts[n].s, calls[n])
    ensures ts[n].s.post.Some?
    ensures CancelsWithin(ts[n], calls[n].now)
       <==> ts[n].h.cancels != [0] || calls[n].now <= ts[n].s.post.value.timing.cleanup
  {
    ReleaseIsCleaned(ts, calls, n);
    assert ts[n].h.cancels == [0] ==> ts[n].h.cancels[0] == 0;
  }

  lemma ActiveSession(t: Tracked)
    requires Inv(t) && t.s.state.WatchdogActive?
    ensures t.s.post.Some? && t.s.worker.Some? && t.s.lease == Lease(true) && t.h.cancels == []
  {
    hide TokensFit, SpendingFits;
  }

  const ALL_WELL := WorkerFlags(true, true, true, true, true)

  /** A refused sample begins a cancellation as of its own time. */
  lemma RefusedSampleStep(t: Tracked, processId: u32, evaluated: u64)
    requires WatchdogInOrder(t.s, processId)
    ensures Step(t, CallWatchdog(processId, evaluated, false))
         == Tracked(t.s.(state := CancelRequested, cancelAt := evaluated), t.h.(cancels := t.h.cancels + [evaluated]))
  {}

  lemma GoodEndStep(t: Tracked)
    requires ExitState(t.s.state)
    ensures Step(t, CallEndRun(ALL_WELL))
         == Tracked(t.s.(state := WorkerExited, pending := None, flags := ALL_WELL), t.h)
  {}

  lemma CleanupBeginsStep(t: Tracked, now: u64)
    requires t.s.state.WorkerExited? && now != 0
    ensures Step(t, CallStartCleanup(now)) == Tracked(t.s.(state := CleanupStarted, cleanupAt := now), t.h)
  {}

  lemma CleanupEndsStep(t: Tracked, e: CleanupEvidence, now: u64)
    requires t.s.state.CleanupStarted? && t.s.lease == Lease(true) && CleanupSucceeds(t.s, e, now)
    ensures Releases(t.s, CallCleanup(e, now)) && Step(t, CallCleanup(e, now)).s.state.Cleaned?
  {
    hide CleanupSucceeds;
  }

  /** From an exit state, at one moment: end of run, cleanup begun, cleanup done. */
  lemma CleanupPath(ts: seq<Tracked>, calls: seq<Call>, d: DeviceEvidence, now: u64)
    returns (ts': seq<Tracked>, calls': seq<Call>)
    requires Run(ts, calls) && |ts| == |calls| + 1 && now != 0
    requires var s := ts[|calls|].s;
      && ExitState(s.state) && s.post.Some? && s.lease == Lease(true) && s.cancelAt <= now
      && (s.cancelAt == 0 || now <= s.cancelAt + s.post.value.timing.cleanup)
    requires EvidenceComplete(CleanupEvidence(ALL_WELL, d))
    ensures Run(ts', calls') && calls <= calls' && ts <= ts' && |calls'| == |calls| + 3 && |ts'| == |calls'| + 1
    ensures var n := |calls'| - 1;
      && calls'[n] == CallCleanup(CleanupEvidence(ALL_WELL, d), now) && Releases(ts'[n].s, calls'[n])
      && ts'[n + 1].s.state.Cleaned? && ts'[n].h == ts[|calls|].h && ts'[n].s.post == ts[|calls|].s.post
  {
    var t, e := ts[|calls|], CleanupEvidence(ALL_WELL, d);
    hide Run, Step, Releases, EvidenceComplete;
    GoodEndStep(t);
    var t1 := Step(t, CallEndRun(ALL_WELL));
    CleanupBeginsStep(t1, now);
    var t2 := Step(t1, CallStartCleanup(now));
    CleanupEndsStep(t2, e, now);
    var t3 := Step(t2, CallCleanup(e, now));
    RunExtends(ts, calls, CallEndRun(ALL_WELL));
    RunExtends(ts + [t1], calls + [CallEndRun(ALL_WELL)], CallStartCleanup(now));
    RunExtends(ts + [t1] + [t2], calls + [CallEndRun(ALL_WELL)] + [CallStartCleanup(now)], CallCleanup(e, now));
    ts' := ts + [t1] + [t2] + [t3];
    calls' := calls + [CallEndRun(ALL_WELL)] + [CallStartCleanup(now)] + [CallCleanup(e, now)];
  }

  /** And the exception is real: from any active session, a sample stamped with time zero and refused,
      the end of the run and a cleanup at any later time end in Cleaned. */
  lemma {:induction false} ZeroStampEscapes(ts: seq<Tracked>, calls: seq<Call>, d: DeviceEvidence, now: u64)
    returns (ts': seq<Tracked>, calls': seq<Call>)
    requires Run(ts, calls) && |ts| == |calls| + 1 && ts[|calls|].s.state.WatchdogActive? && now != 0
    requires EvidenceComplete(CleanupEvidence(ALL_WELL, d))
    ensures Run(ts', calls') && calls <= calls' && ts <= ts' && |calls'| == |calls| + 4 && |ts'| == |calls'| + 1
    ensures var n := |calls'| - 1;
      && Releases(ts'[n].s, calls'[n]) && ts'[n + 1].s.state.Cleaned? && ts'[n].h.cancels == [0]
      && calls'[n].CallCleanup? && calls'[n].now == now
  {
    var t := ts[|calls|];
    RunKeepsInv(ts, calls, |calls|);
    hide Inv, Step, Releases, EvidenceComplete, Run;
    ActiveSession(t);
    var c := CallWatchdog(t.s.worker.value.processId, 0, false);
    RefusedSampleStep(t, t.s.worker.value.processId, 0);
    RunExtends(ts, calls, c);
    ts', calls' := CleanupPath(ts + [Step(t, c)], calls + [c], d, now);
  }
}
