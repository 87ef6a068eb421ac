/** Complete runs from a new session through the evaluators' own answers: to Cleaned, to
    JobAbortRequired, and to the ends the run theorems warn of. */
module ExampleRuns {
  import opened CheckedArithmetic
  import opened SupervisorAdmission
  import opened SupervisorWatchdog
  import opened AdmissionToken
  import opened SessionModel
  import opened SessionRuns
  import opened SessionClock
  import opened SessionEvidence
  import opened CasePolicy
  import opened SupervisedRun
  import opened WorkerProtocol
  import opened CaseReachability
  import AdmissionExample

  /** The run up to the first accepted heartbeat: every decision in it is an evaluator's. */
  ghost predicate FromScratch(ts: seq<Tracked>, calls: seq<Call>) {
    && Run(ts, calls) && |ts| == |calls| + 1 && |calls| >= 8
    && ts[0].s == NewSession(AdmissionExample.ExampleCell(), AdmissionExample.ADAPTER, 1)
    && calls[0] == PreCall(ts[0].s, AdmissionExample.ExampleRequest()) && calls[1] == CallBind(WORKER)
    && calls[2] == PostCall(ts[2].s, ExampleEvidence().request, ExampleEvidence().sequence)
    && calls[7] == WatchdogCall(ts[7].s, ExampleEvidence().sample) && ts[8].s.state.WatchdogActive?
  }

  /** What an active example session looks like. */
  predicate Watching(s: Session) {
    && s.state.WatchdogActive? && s.lease == Lease(true) && s.cancelAt == 0 && s.worker == Some(WORKER)
    && s.post == Some(AdmissionExample.ExampleAdmission())
  }

  lemma ExampleAnswer(t: Tracked)
    requires t.s.pre == Some(AdmissionExample.ExampleReceipt())
    ensures Answer(t, ExampleEvidence()) == PostAdmitted(AdmissionExample.ExampleAdmission())
  {
    AdmissionExample.StageBSaysYes();
    hide EvaluatePost;
    assert AdmissionExample.ExampleFollowUp().(pre := t.s.pre) == AdmissionExample.ExampleFollowUp();
  }

  lemma ActiveExample() returns (ts: seq<Tracked>, calls: seq<Call>)
    ensures FromScratch(ts, calls) && |calls| == 8 && Watching(ts[8].s)
  {
    hide Run, Accepts, Answer, Ready, PostCall, WatchdogCall, PreCall;
    var us, more := BoundRun();
    ExampleAnswer(us[2]);
    ts, calls := ActiveRun(us, more, ExampleEvidence());
  }

  lemma StillFromScratch(ts: seq<Tracked>, calls: seq<Call>, us: seq<Tracked>, more: seq<Call>)
    requires FromScratch(ts, calls) && Run(us, more) && |us| == |more| + 1 && ts <= us && calls <= more
    ensures FromScratch(us, more)
  {
    hide Run, PostCall, WatchdogCall, PreCall;
  }

  /** A run to Cleaned in which Stage A, Stage B and the watchdog all decide for themselves. */
  lemma CleanedRunExists() returns (ts: seq<Tracked>, calls: seq<Call>)
    ensures FromScratch(ts, calls) && ts[|calls|].s.state.Cleaned? && ts[|calls|].h.released
  {
    hide Run, FromScratch, EvidenceComplete, Proof, Releases;
    var us, more := ActiveExample();
    IsRun(us, more);
    ProofIsComplete();
    ts, calls := CleanupPath(us, more, Proof(), 1);
    StillFromScratch(us, more, ts, calls);
    ReleaseIsCleaned(ts, calls, |calls| - 1);
  }

  lemma IsRun(ts: seq<Tracked>, calls: seq<Call>)
    requires FromScratch(ts, calls)
    ensures Run(ts, calls) && |ts| == |calls| + 1
  {}

  /** The starting run of LateCallsHideCleaned exists, hence also the run it warns of: Quarantined is
      reported and the lease is gone. */
  lemma HiddenCleanedRunExists() returns (ts: seq<Tracked>, calls: seq<Call>)
    ensures Run(ts, calls) && |ts| == |calls| + 1 && ts[|calls|].s.state.Quarantined? && ts[|calls|].h.released
  {
    hide FromScratch, Step;
    var us, more := CleanedRunExists();
    IsRun(us, more);
    ts, calls := LateCallsHideCleaned(us, more, AdmissionExample.ExampleCell(), AdmissionExample.ADAPTER,
                                      CleanupEvidence(ALL_WELL, Proof()), 1);
  }

  /** The worker is gone. */
  function LostSample(): WatchdogSample { AdmissionExample.ExampleSample().(workerAlive := false) }

  lemma LostIsRefused(s: Session)
    requires Watching(s)
    ensures WatchdogCall(s, LostSample()) == CallWatchdog(7, 1, false)
  {}

  lemma OverdueStep(t: Tracked)
    requires t.s.state.CancelRequested? && t.s.post.Some? && t.s.cancelAt == 1 && t.s.post.value.timing.workerExit == 2_000
    ensures Step(t, CallAdvance(2_002, false, false, false)).s.state.JobAbortRequired?
  {}

  /** A run to JobAbortRequired: the watchdog refuses a sample, and the worker outlives its bound. */
  lemma AbortedRunExists() returns (ts: seq<Tracked>, calls: seq<Call>)
    ensures FromScratch(ts, calls) && |calls| == 10 && ts[10].s.state.JobAbortRequired?
    ensures calls[8] == WatchdogCall(ts[8].s, LostSample())
  {
    hide Run, FromScratch, WatchdogCall, Step, Allowed;
    var us, more := ActiveExample();
    IsRun(us, more);
    var t, c, d := us[8], CallWatchdog(7, 1, false), CallAdvance(2_002, false, false, false);
    LostIsRefused(t.s);
    RefusedSampleStep(t, 7, 1);
    OverdueStep(Step(t, c));
    PlainCallsAllowed(t, Step(t, c));
    RunExtends(us, more, c);
    RunExtends(us + [Step(t, c)], more + [c], d);
    ts, calls := us + [Step(t, c)] + [Step(Step(t, c), d)], more + [c] + [d];
    StillFromScratch(us, more, ts, calls);
  }

  lemma PlainCallsAllowed(t: Tracked, u: Tracked)
    ensures Allowed(t, CallWatchdog(7, 1, false)) && Allowed(u, CallAdvance(2_002, false, false, false))
  {}

  /** The starting run of LateAbortCanExit exists, hence also the late exit. */
  lemma LateExitExists() returns (ts: seq<Tracked>, calls: seq<Call>)
    ensures Run(ts, calls) && |ts| == |calls| + 1 && |calls| == 11
    ensures ts[10].s.state.JobAbortRequired? && ts[11].s.state.WorkerExited?
  {
    hide FromScratch, Step, Run;
    var us, more := AbortedRunExists();
    IsRun(us, more);
    LateAbortCanExit(us, more);
    var c := CallEndRun(ALL_WELL);
    ts, calls := us + [Step(us[10], c)], more + [c];
  }

  /** A clock that reads zero once really loses the cancellation bound. */
  lemma ZeroStampRunExists() returns (ts: seq<Tracked>, calls: seq<Call>, n: nat)
    ensures Run(ts, calls) && |ts| == |calls| + 1 && n < |calls|
    ensures Releases(ts[n].s, calls[n]) && !CancelsWithin(ts[n], calls[n].now)
  {
    hide Run, FromScratch, EvidenceComplete, Proof, Releases;
    var us, more := ActiveExample();
    IsRun(us, more);
    ProofIsComplete();
    ts, calls := ZeroStampEscapes(us, more, Proof(), 1_000_000);
    n := |calls| - 1;
    ReleaseHonoursCancel(ts, calls, n);
    ReleaseIsCleaned(ts, calls, n);
    assert ts[n].s.post.value.timing.cleanup <= 5_000 by { RunKeepsInv(ts, calls, n); CleanupIsShort(ts[n]); }
  }

  lemma CleanupIsShort(t: Tracked)
    requires Inv(t) && t.s.post.Some?
    ensures t.s.post.value.timing.cleanup <= 5_000
  {
    hide StateFits, TokensFit, SpendingFits, CancellationFits;
  }

  /** Evidence required with every line, and the timeouts of a second and more. */
  const STRICT := Config(true, 4_096, 4_096, 2_000, 1_000, 500, 2_000)

  /** An accepted success exists, with evidence required and every decision the evaluators' own. */
  lemma SuccessExists() returns (ss: seq<System>, es: seq<Event>)
    ensures Conversation(ss, es, STRICT, 1)
    ensures var s := ss[|es|]; var r := FinalResult(s.p, FINE);
      MatchesContract(Success, r, ReportedCleanup(s.t, r, Proof(), 1), true)
  {
    hide Conversation, ReportedCleanup, FinalResult, Proof, Accepts, Run;
    var us, more := BoundRun();
    var v := Shown(Present(true, ContextEvidence(AdmissionExample.ADAPTER, 1, 1)), Present(true, HeartbeatEvidence(4_096, 1, 1)));
    ss, es := SuccessIsReachable(us[2], ExampleEvidence(), STRICT, v, 1, 1);
  }
}
