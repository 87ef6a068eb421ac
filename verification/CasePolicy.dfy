/** How a supervised run ends (src/runtime/native_worker.cpp) and what the attended-case contract
    (src/validation/c2_case_policy.cpp) lets one conclude from it. */
module CasePolicy {
  import opened CheckedArithmetic
  import opened SupervisorAdmission
  import opened SessionModel
  import opened SessionRuns
  import opened WorkerProtocol
  import opened SupervisedRun

  /** What the operating system answered once the polling loop was left. */
  datatype Observed = Observed(
    protocolRead: bool, treeComplete: bool, jobQueryFailed: bool, outputExceeded: bool, waitFailed: bool,
    deadlinePassed: bool, simulateFailure: bool, terminated: bool, outputRead: bool, outputExceededLate: bool,
    outputSaved: bool, exitCode: u32, accountingReconciled: bool, perProcessReconciled: bool, published: bool)

  datatype WorkerResult = WorkerResult(ok: bool, reason: Reason, timedOut: bool, exitCode: u32, flags: WorkerFlags)

  const NO_FLAGS := WorkerFlags(false, false, false, false, false)

  function LaunchFailed(reason: Reason): WorkerResult { WorkerResult(false, reason, false, 0, NO_FLAGS) }

  /** The worker is gone and its tree is empty; only the accounting may still be open. */
  function Gone(accounting: bool): WorkerFlags { WorkerFlags(true, true, accounting, true, true) }

  function FinalResult(p: Proto, o: Observed): WorkerResult {
    if !o.protocolRead then LaunchFailed(LauncherFailed)
    else if !p.failure.NoFailure? then
      if !o.treeComplete && !o.terminated then LaunchFailed(LauncherFailed)
      else WorkerResult(false, p.failure, false, 0, Gone(o.accountingReconciled))
    else if o.treeComplete && !p.state.Active? then
      WorkerResult(false, ProtocolIncomplete, false, 0, Gone(o.accountingReconciled))
    else if o.jobQueryFailed then LaunchFailed(LauncherFailed)
    else if o.outputExceeded then
      if !o.terminated then LaunchFailed(LauncherFailed) else LaunchFailed(OutputLimitExceeded)
    else
      var timedOut := !o.treeComplete && !o.waitFailed && o.deadlinePassed;
      if timedOut && (o.simulateFailure || !o.terminated) then LaunchFailed(LauncherFailed)
      else if !timedOut && !o.treeComplete then LaunchFailed(LauncherFailed)
      else if !o.outputRead then LaunchFailed(LauncherFailed)
      else if o.outputExceededLate then WorkerResult(false, OutputLimitExceeded, timedOut, 0, NO_FLAGS)
      else if !o.outputSaved then LaunchFailed(LauncherFailed)
      else if !o.accountingReconciled || (o.exitCode == 0 && !o.perProcessReconciled) then LaunchFailed(LauncherFailed)
      else
        var ok := !timedOut && o.exitCode == 0;
        if ok && !o.published then LaunchFailed(LauncherFailed)
        else WorkerResult(ok, if ok then NoFailure else if timedOut then Timeout else ChildFailed,
                          timedOut, o.exitCode, Gone(true))
  }

  datatype Case = Success | WatchdogCancel | HeartbeatLoss | PostContextTelemetryLoss | OtherCase

  datatype Needle = WatchdogNeedle | HeartbeatNeedle | AdmissionNeedle

  function NeedleText(n: Needle): string {
    match n
    case WatchdogNeedle => "watchdog_rejected"
    case HeartbeatNeedle => "heartbeat_timeout"
    case AdmissionNeedle => "admission_rejected"
  }

  predicate OccursAt(needle: string, text: string, i: nat) {
    i + |needle| <= |text| && text[i..i + |needle|] == needle
  }

  ghost predicate Occurs(needle: string, text: string) { exists i: nat :: OccursAt(needle, text, i) }

  /** failure_reason.find(needle): each needle occurs in one fixed reason only, but the detail
      appended to an admission rejection is free text and may contain any of them. */
  ghost predicate Mentions(reason: Reason, n: Needle) {
    match reason
    case WatchdogRejected => n.WatchdogNeedle?
    case HeartbeatTimeout => n.HeartbeatNeedle?
    case AdmissionRejected(detail) => n.AdmissionNeedle? || Occurs(NeedleText(n), detail)
    case _ => false
  }

  /** c2_case_result_matches_contract */
  ghost predicate MatchesContract(c: Case, r: WorkerResult, cleanup: State, outputRemoved: bool) {
    && outputRemoved && r.flags.handlesClosed && r.flags.filesReconciled && r.flags.accountingReconciled
    && match c
       case Success => r.ok && cleanup.Cleaned?
       case WatchdogCancel => !r.ok && Mentions(r.reason, WatchdogNeedle) && cleanup.Cleaned?
       case HeartbeatLoss => !r.ok && Mentions(r.reason, HeartbeatNeedle) && cleanup.Cleaned?
       case PostContextTelemetryLoss => !r.ok && Mentions(r.reason, AdmissionNeedle) && cleanup.Quarantined?
       case OtherCase => false
  }

  /** The session after the run ended with result `r` and finalize_cleanup was called. */
  function Finalized(t: Tracked, r: WorkerResult, d: DeviceEvidence, now: u64): Tracked {
    var t1 := Step(t, CallEndRun(r.flags));
    if now == 0 then t1
    else
      var t2 := Step(t1, CallStartCleanup(now));
      if !CleanupMayBegin(t1.s) then t2 else Step(t2, CallCleanup(CleanupEvidence(t1.s.flags, d), now))
  }

  /** The value finalize_cleanup returns. */
  function ReportedCleanup(t: Tracked, r: WorkerResult, d: DeviceEvidence, now: u64): State {
    if now == 0 then FailedClosed else Finalized(t, r, d, now).s.state
  }

  /** The history-keeping version is finalize_cleanup itself. */
  lemma FinalizedIsFinalizeCleanup(t: Tracked, r: WorkerResult, d: DeviceEvidence, now: u64)
    ensures Finalized(t, r, d, now).s == FinalizeCleanup(EndRun(t.s, r.flags), d, now)
  {}

  lemma FinalizedKeeps(t: Tracked, r: WorkerResult, d: DeviceEvidence, now: u64)
    requires Inv(t)
    ensures Inv(Finalized(t, r, d, now)) && Finalized(t, r, d, now).h.consumed == t.h.consumed
  {
    EndRunKeeps(t, r.flags);
    var t1 := Step(t, CallEndRun(r.flags));
    StartCleanupKeeps(t1, now);
    CleanupKeeps(Step(t1, CallStartCleanup(now)), CleanupEvidence(t1.s.flags, d), now);
  }

  lemma OkMeansActive(p: Proto, o: Observed)
    ensures FinalResult(p, o).ok ==> p.state.Active? && p.failure.NoFailure?
    ensures p.failure == FinalResult(p, o).reason || !(FinalResult(p, o).reason.WatchdogRejected?
              || FinalResult(p, o).reason.HeartbeatTimeout? || FinalResult(p, o).reason.AdmissionRejected?)
  {}

  /** Without an accepted heartbeat the session is still TokenConsumed, which is no exit state. */
  lemma UnheardNeverCleaned(t: Tracked, r: WorkerResult, d: DeviceEvidence, now: u64)
    requires Inv(t) && t.s.state.TokenConsumed?
    ensures !ReportedCleanup(t, r, d, now).Cleaned?
  {}

  /** What an accepted "success" proves about the run behind it: exactly one token consumed, at
      least one heartbeat accepted, none refused. */
  lemma {:induction false} SuccessContract(ss: seq<System>, es: seq<Event>, cfg: Config, started: u64,
                        o: Observed, d: DeviceEvidence, now: u64, removed: bool)
    requires Conversation(ss, es, cfg, started)
    requires var s := ss[|es|]; var r := FinalResult(s.p, o);
      MatchesContract(Success, r, ReportedCleanup(s.t, r, d, now), removed)
    ensures var s := ss[|es|];
      && |s.t.h.consumed| == 1 && s.t.h.consumed[0].tokenId == s.p.tokenId
      && s.accepted >= 1 && s.refused == 0 && Cancels(s.p.sent) == 0
  {
    var s := ss[|es|];
    var r := FinalResult(s.p, o);
    ConversationKeepsInv(ss, es, cfg, started, |es|);
    OkMeansActive(s.p, o);
    CountsOfShort(s.p.sent);
    if s.accepted == 0 {
      UnheardNeverCleaned(s.t, r, d, now);
    }
  }

  /** The other three cases. A free-text detail that happens to contain a needle cannot pass for a
      watchdog cancellation or a heartbeat loss: an admission rejection is never Cleaned. */
  lemma {:induction false} CancelledContracts(c: Case, ss: seq<System>, es: seq<Event>, cfg: Config, started: u64,
                           o: Observed, d: DeviceEvidence, now: u64, removed: bool)
    requires Conversation(ss, es, cfg, started) && !c.Success?
    requires var s := ss[|es|]; var r := FinalResult(s.p, o);
      MatchesContract(c, r, ReportedCleanup(s.t, r, d, now), removed)
    ensures var s := ss[|es|];
      && (c.WatchdogCancel? ==>
            s.p.failure.WatchdogRejected? && |s.t.h.consumed| == 1 && (s.refused == 1 || s.p.emergency))
      && (c.HeartbeatLoss? ==> s.p.failure.HeartbeatTimeout? && |s.t.h.consumed| == 1 && s.refused == 0)
      && (c.PostContextTelemetryLoss? ==>
            s.p.failure.AdmissionRejected? && s.t.h.consumed == []
            && !Finalized(s.t, FinalResult(s.p, o), d, now).h.released)
  {
    var s := ss[|es|];
    var r := FinalResult(s.p, o);
    ConversationKeepsInv(ss, es, cfg, started, |es|);
    OkMeansActive(s.p, o);
    FinalizedKeeps(s.t, r, d, now);
  }
}
