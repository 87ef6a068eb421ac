/** The transitions of GpuAdmissionSession (src/governor/gpu_admission_session.cpp), each method
    atomic under the session mutex, as functions of the session's fields. GpuSession carries them
    out on an object; SessionRuns proves what every sequence of them keeps. The evaluators'
    decisions are arguments here; SessionEvidence supplies them from live requests and samples. */
module SessionModel {
  import opened CheckedArithmetic
  import opened SupervisorAdmission
  import opened AdmissionToken

  datatype State =
    | LeaseHeld | PreContextAdmitted | WorkerContained | PostContextAdmitted | TokenIssued | TokenConsumed
    | WatchdogActive | CancelRequested | CancelAcknowledged | JobAbortRequired | WorkerExited | CleanupStarted
    | FailedClosed | Cleaned | Quarantined

  datatype Action = AwaitCooperativeExit | AbortJob | BeginCleanup | Quarantine

  /** The optional lease: absent once cleanup reset it, inactive once quarantined. */
  datatype LeaseSlot = NoLease | Lease(active: bool)

  datatype Containment = Containment(
    processId: u32, job: string, executable: string, maxProcesses: u32, memoryLimit: u64, cpuLimit: u32)

  function Identity(c: Containment): WorkerId { WorkerId(c.processId, c.job, c.executable) }

  predicate ContainmentValid(c: Containment) {
    && WorkerValid(Identity(c)) && c.maxProcesses != 0 && c.memoryLimit != 0 && c.cpuLimit != 0
  }

  datatype WorkerFlags = WorkerFlags(
    exitObserved: bool, treeEmpty: bool, accountingReconciled: bool, handlesClosed: bool, filesReconciled: bool)

  datatype DeviceEvidence = DeviceEvidence(
    deviceReconciled: bool, terminalReason: string, sampleHash: string, bundleHash: string)

  datatype CleanupEvidence = CleanupEvidence(worker: WorkerFlags, device: DeviceEvidence)

  datatype IssuerState = IssuerState(id: u64, nextTokenId: u64, used: seq<u64>)

  datatype Session = Session(
    cell: Cell, luid: Luid, lease: LeaseSlot, state: State,
    pre: Option<PreReceipt>, post: Option<PostReceipt>, postClaimed: bool,
    worker: Option<Containment>, pending: Option<Token>, flags: WorkerFlags,
    cancelAt: u64, cleanupAt: u64, evidence: Option<CleanupEvidence>, issuer: IssuerState)

  function NewSession(cell: Cell, luid: Luid, issuerId: u64): Session {
    Session(cell, luid, Lease(true), LeaseHeld, None, None, false, None, None,
            WorkerFlags(false, false, false, false, false), 0, 0, None, IssuerState(issuerId, 1, []))
  }

  function Fail(s: Session): Session { s.(state := FailedClosed) }

  /** Quarantined together with its lease, if there still is one. */
  function QuarantineLease(s: Session): Session {
    s.(state := Quarantined, lease := if s.lease.Lease? then Lease(false) else NoLease)
  }

  // ----- admission -----

  /** `d` is Stage A's decision on a request for `cell` with telemetry of adapter `luid`. */
  function AdmitPreContext(s: Session, cell: Cell, luid: Luid, d: PreDecision): Session {
    if !s.state.LeaseHeld? || cell != s.cell || luid != s.luid || d.PreRejected? then Fail(s)
    else s.(pre := Some(d.receipt), state := PreContextAdmitted)
  }

  function BindOwnedWorker(s: Session, c: Containment): Session {
    if s.state.PreContextAdmitted? && ContainmentValid(c) then s.(worker := Some(c), state := WorkerContained)
    else Fail(s)
  }

  predicate PostContextInOrder(s: Session, cell: Cell, luid: Luid, processId: u32) {
    && s.state.WorkerContained? && s.worker.Some? && s.pre.Some? && cell == s.cell
    && processId == s.worker.value.processId && luid == s.luid
  }

  /** `d` is Stage B's decision on this session's own Stage A receipt. */
  function AdmitPostContext(s: Session, cell: Cell, luid: Luid, processId: u32, d: PostDecision): Session {
    if !PostContextInOrder(s, cell, luid, processId) || d.PostRejected? then Fail(s)
    else s.(post := Some(d.receipt), postClaimed := false, state := PostContextAdmitted)
  }

  /** issue_token reads the worker unconditionally; no reachable session lacks one there. */
  predicate IssueInOrder(s: Session) { s.state.PostContextAdmitted? && s.post.Some? && s.worker.Some? }

  function SessionIssueCall(s: Session, now: u64, validity: u64): IssueCall
    requires IssueInOrder(s)
  {
    IssueCall(s.post.value, s.cell, Identity(s.worker.value), now, validity)
  }

  predicate IssueSucceeds(s: Session, now: u64, validity: u64) {
    && IssueInOrder(s) && !s.postClaimed
    && IssueVerdict(s.issuer.id, s.issuer.nextTokenId, s.issuer.used, SessionIssueCall(s, now, validity)).Issued?
  }

  function IssuedToken(s: Session, now: u64, validity: u64): Token
    requires IssueSucceeds(s, now, validity)
  {
    MintIsFaithful(s.issuer.id, s.issuer.nextTokenId, s.issuer.used, SessionIssueCall(s, now, validity));
    Mint(s.issuer.id, s.issuer.nextTokenId, SessionIssueCall(s, now, validity))
  }

  function IssueToken(s: Session, now: u64, validity: u64): Session {
    if !IssueSucceeds(s, now, validity) then Fail(s)
    else s.(issuer := IssuerState(s.issuer.id, s.issuer.nextTokenId + 1, s.issuer.used + [s.post.value.id]),
            postClaimed := true, state := TokenIssued)
  }

  function StorePending(s: Session, t: Token): Session { s.(pending := Some(t)) }

  function TakePending(s: Session, tokenId: u64): Session {
    if s.pending.None? || s.pending.value.tokenId != tokenId then Fail(s) else s.(pending := None)
  }

  /** `active` is the token's own flag when consume() reads it. */
  predicate ConsumeSucceeds(s: Session, t: Token, active: bool, now: u64) {
    && s.state.TokenIssued? && s.worker.Some? && active
    && ConsumeVerdict(t, s.issuer.id, s.cell, Identity(s.worker.value), now).Consumed?
  }

  function ConsumeToken(s: Session, t: Token, active: bool, now: u64): Session {
    if ConsumeSucceeds(s, t, active, now) then s.(state := TokenConsumed) else Fail(s)
  }

  // ----- watchdog and cancellation -----

  predicate WatchdogInOrder(s: Session, processId: u32) {
    && (s.state.TokenConsumed? || s.state.WatchdogActive?) && s.post.Some? && s.worker.Some?
    && processId == s.worker.value.processId
  }

  /** `accepted` is the watchdog's decision on a sample of `processId` taken at `evaluated`. */
  function WatchdogStep(s: Session, processId: u32, evaluated: u64, accepted: bool): Session {
    if !WatchdogInOrder(s, processId) then Fail(s)
    else if accepted then s.(state := WatchdogActive)
    else s.(state := CancelRequested, cancelAt := evaluated)
  }

  function RequestCancel(s: Session, now: u64): Session {
    if s.state.TokenConsumed? || s.state.WatchdogActive? then s.(state := CancelRequested, cancelAt := now) else s
  }

  predicate CancellationInOrder(s: Session, now: u64) {
    (s.state.CancelRequested? || s.state.CancelAcknowledged?) && s.post.Some? && now >= s.cancelAt
  }

  /** The answer of advance_cancellation. */
  function CancellationAnswer(s: Session, now: u64, acknowledged: bool, exited: bool, treeEmpty: bool): Action {
    if !CancellationInOrder(s, now) then Quarantine
    else
      var elapsed := now - s.cancelAt;
      var timing := s.post.value.timing;
      if elapsed > timing.workerExit then AbortJob
      else if exited then (if treeEmpty then BeginCleanup else AbortJob)
      else if elapsed == timing.workerExit then AbortJob
      else if acknowledged && elapsed <= timing.cancelAck then AwaitCooperativeExit
      else if !s.state.CancelAcknowledged? && elapsed >= timing.cancelAck then AbortJob
      else AwaitCooperativeExit
  }

  predicate AcknowledgedInTime(s: Session, now: u64, acknowledged: bool, exited: bool) {
    && CancellationInOrder(s, now) && acknowledged && !exited
    && now - s.cancelAt < s.post.value.timing.workerExit
    && now - s.cancelAt <= s.post.value.timing.cancelAck
  }

  function AdvanceCancellation(s: Session, now: u64, acknowledged: bool, exited: bool, treeEmpty: bool): Session {
    match CancellationAnswer(s, now, acknowledged, exited, treeEmpty)
    case Quarantine => s.(state := Quarantined)
    case AbortJob => s.(state := JobAbortRequired)
    case BeginCleanup => s.(state := WorkerExited)
    case AwaitCooperativeExit =>
      if AcknowledgedInTime(s, now, acknowledged, exited) then s.(state := CancelAcknowledged) else s
  }

  predicate JobAbortInTime(s: Session, now: u64, treeEmpty: bool) {
    && s.state.JobAbortRequired? && s.post.Some? && now >= s.cancelAt && treeEmpty
    && now - s.cancelAt <= s.post.value.timing.cleanup
  }

  function RecordJobAbort(s: Session, now: u64, treeEmpty: bool): Session {
    s.(state := if JobAbortInTime(s, now, treeEmpty) then WorkerExited else Quarantined)
  }

  function RecordNormalExit(s: Session, now: u64, treeEmpty: bool): Session {
    if now == 0 then s
    else if s.state.WatchdogActive? && s.post.Some? && treeEmpty then s.(state := WorkerExited)
    else QuarantineLease(s)
  }

  /** An exit while still TokenConsumed is not an exit state. */
  predicate ExitState(state: State) {
    state.WatchdogActive? || state.CancelRequested? || state.CancelAcknowledged? || state.JobAbortRequired?
  }

  /** The flags and the state at the end of run_contained_worker. */
  function RunRecorded(s: Session, f: WorkerFlags): Session {
    var state :=
      if f.exitObserved && f.treeEmpty && ExitState(s.state) then WorkerExited
      else if !f.exitObserved || !f.treeEmpty then Quarantined
      else s.state;
    s.(pending := None, flags := f, state := state)
  }

  /** The end of run_contained_worker. */
  function EndRun(s: Session, f: WorkerFlags): Session {
    var s' := RunRecorded(s, f);
    if s'.state.Quarantined? then QuarantineLease(s') else s'
  }

  // ----- cleanup -----

  predicate CleanupMayBegin(s: Session) {
    s.state.WorkerExited? || (s.state.FailedClosed? && s.worker.None?)
  }

  function StartCleanup(s: Session, now: u64): Session {
    if now == 0 then s
    else if CleanupMayBegin(s) then s.(cleanupAt := now, state := CleanupStarted)
    else QuarantineLease(s)
  }

  predicate HexDigit(c: char) { '0' <= c <= '9' || 'a' <= c <= 'f' }

  predicate IsSha256(h: string) { |h| == 64 && forall i :: 0 <= i < |h| ==> HexDigit(h[i]) }

  predicate EvidenceComplete(e: CleanupEvidence) {
    && e.worker.exitObserved && e.worker.treeEmpty && e.worker.accountingReconciled
    && e.device.deviceReconciled && e.worker.handlesClosed && e.worker.filesReconciled
    && e.device.terminalReason != "" && IsSha256(e.device.sampleHash) && IsSha256(e.device.bundleHash)
  }

  predicate CleanupInTime(s: Session, now: u64) {
    && s.state.CleanupStarted? && s.cleanupAt != 0 && now >= s.cleanupAt && s.post.Some?
    && now - s.cleanupAt <= s.post.value.timing.cleanup
    && (s.cancelAt == 0 || (now >= s.cancelAt && now - s.cancelAt <= s.post.value.timing.cleanup))
  }

  predicate CleanupSucceeds(s: Session, e: CleanupEvidence, now: u64) {
    EvidenceComplete(e) && CleanupInTime(s, now)
  }

  function CleanupOwned(s: Session, e: CleanupEvidence, now: u64): Session {
    if s.state.Cleaned? || s.state.Quarantined? then s.(state := Quarantined)
    else s.(pre := None, post := None, postClaimed := false, worker := None, evidence := Some(e), lease := NoLease,
            state := if CleanupSucceeds(s, e, now) then Cleaned else Quarantined)
  }

  /** finalize_cleanup, when no other call interleaves. */
  function FinalizeCleanup(s: Session, d: DeviceEvidence, now: u64): Session {
    if now == 0 then s
    else
      var s' := StartCleanup(s, now);
      if !CleanupMayBegin(s) then s' else CleanupOwned(s', CleanupEvidence(s.flags, d), now)
  }

  // ----- all steps -----

  /** One acquisition of the session mutex. `RejectEvidence` is any of the fail-closed exits of
      the context-ready callback. */
  datatype Call =
    | CallAdmitPre(cell: Cell, luid: Luid, pre: PreDecision)
    | CallBind(containment: Containment)
    | CallAdmitPost(cell: Cell, luid: Luid, processId: u32, post: PostDecision)
    | CallIssue(now: u64, validity: u64)
    | CallStorePending(token: Token)
    | CallTakePending(tokenId: u64)
    | CallConsume(token: Token, active: bool, now: u64)
    | CallWatchdog(processId: u32, evaluated: u64, accepted: bool)
    | CallRejectEvidence
    | CallRequestCancel(now: u64)
    | CallAdvance(now: u64, acknowledged: bool, exited: bool, treeEmpty: bool)
    | CallJobAbort(now: u64, treeEmpty: bool)
    | CallNormalExit(now: u64, treeEmpty: bool)
    | CallEndRun(flags: WorkerFlags)
    | CallStartCleanup(now: u64)
    | CallCleanup(evidence: CleanupEvidence, now: u64)

  function Next(s: Session, c: Call): Session {
    match c
    case CallAdmitPre(cell, luid, d) => AdmitPreContext(s, cell, luid, d)
    case CallBind(k) => BindOwnedWorker(s, k)
    case CallAdmitPost(cell, luid, processId, d) => AdmitPostContext(s, cell, luid, processId, d)
    case CallIssue(now, validity) => IssueToken(s, now, validity)
    case CallStorePending(t) => StorePending(s, t)
    case CallTakePending(id) => TakePending(s, id)
    case CallConsume(t, active, now) => ConsumeToken(s, t, active, now)
    case CallWatchdog(processId, evaluated, accepted) => WatchdogStep(s, processId, evaluated, accepted)
    case CallRejectEvidence => Fail(s)
    case CallRequestCancel(now) => RequestCancel(s, now)
    case CallAdvance(now, acknowledged, exited, treeEmpty) => AdvanceCancellation(s, now, acknowledged, exited, treeEmpty)
    case CallJobAbort(now, treeEmpty) => RecordJobAbort(s, now, treeEmpty)
    case CallNormalExit(now, treeEmpty) => RecordNormalExit(s, now, treeEmpty)
    case CallEndRun(f) => EndRun(s, f)
    case CallStartCleanup(now) => StartCleanup(s, now)
    case CallCleanup(e, now) => CleanupOwned(s, e, now)
  }
}
