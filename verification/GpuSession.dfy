/** GpuAdmissionSession as an object (src/governor/gpu_admission_session.cpp). Each method carries
    out one transition of SessionModel on the fields, the lease, the issuer and the receipt flag. */
module GpuSession {
  import opened CheckedArithmetic
  import opened SupervisorAdmission
  import opened SupervisorWatchdog
  import opened AdmissionToken
  import opened GpuLease
  import opened SessionModel
  import Model = SessionModel

  class GpuAdmissionSession {
    const cell: Cell
    const luid: Luid
    const issuer: TokenIssuer
    const registry: LeaseRegistry
    var lease: ExclusiveGpuLease?
    var state: State
    var pre: Option<PreReceipt>
    var post: Option<PostReceipt>
    /** the flag shared by all copies of the Stage B receipt */
    var postFlag: ReceiptFlag?
    var worker: Option<Containment>
    var pending: TokenObject?
    var flags: WorkerFlags
    var cancelAt: u64
    var cleanupAt: u64
    var terminalEvidence: Option<CleanupEvidence>

    ghost predicate Valid()
      reads this, lease, issuer, issuer.usedReceiptIds
    {
      && issuer.Valid()
      && (lease != null ==> lease.luid == luid)
      && (post.Some? <==> postFlag != null)
      && (post.Some? ==> worker.Some?)
    }

    /** The session as SessionModel sees it. */
    ghost function Snapshot(): Session
      requires Valid()
      reads this, lease, postFlag, pending, issuer, issuer.usedReceiptIds
    {
      Session(cell, luid, if lease == null then NoLease else Lease(lease.held), state,
              pre, post, postFlag != null && postFlag.claimed, worker,
              if pending == null then None else Some(pending.fields), flags, cancelAt, cleanupAt,
              terminalEvidence, IssuerState(issuer.issuerId, issuer.nextTokenId, issuer.Used()))
    }

    constructor (cell: Cell, lease: ExclusiveGpuLease, registry: LeaseRegistry, issuerId: u64)
      requires lease.held
      ensures Valid() && Snapshot() == NewSession(cell, lease.luid, issuerId)
      ensures fresh(issuer) && fresh(issuer.usedReceiptIds) && this.lease == lease && this.registry == registry
    {
      this.cell, this.luid, this.registry, this.lease := cell, lease.luid, registry, lease;
      issuer := new TokenIssuer(issuerId);
      state := LeaseHeld;
      pre, post, postFlag, worker, pending := None, None, null, None, null;
      flags := WorkerFlags(false, false, false, false, false);
      cancelAt, cleanupAt, terminalEvidence := 0, 0, None;
    }

    method AdmitPreContext(request: PreRequest) returns (admitted: bool)
      requires Valid()
      modifies this
      ensures Valid() && Snapshot() == Model.AdmitPreContext(
        old(Snapshot()), request.cell, request.gpu.luid,
        EvaluatePre(request.(leaseHeld := old(Snapshot()).lease == Lease(true))))
      ensures admitted <==> state.PreContextAdmitted?
    {
      hide EvaluatePre;
      if !state.LeaseHeld? || request.cell != cell || request.gpu.luid != luid {
        state := FailedClosed;
        return false;
      }
      var held := lease != null && lease.held;
      var decision := EvaluatePre(request.(leaseHeld := held));
      if decision.PreRejected? {
        state := FailedClosed;
        return false;
      }
      pre := Some(decision.receipt);
      state := PreContextAdmitted;
      return true;
    }

    method BindOwnedWorker(evidence: Containment) returns (bound: bool)
      requires Valid()
      modifies this
      ensures Valid() && Snapshot() == Model.BindOwnedWorker(old(Snapshot()), evidence)
      ensures bound <==> state.WorkerContained?
    {
      bound := state.PreContextAdmitted? && evidence.processId != 0 && evidence.maxProcesses != 0
               && evidence.memoryLimit != 0 && evidence.cpuLimit != 0
               && evidence.job != "" && evidence.executable != "";
      if !bound {
        state := FailedClosed;
        return;
      }
      worker := Some(evidence);
      state := WorkerContained;
    }

    method AdmitPostContext(request: PostRequest, sequence: u64) returns (admitted: bool)
      requires Valid()
      modifies this
      ensures Valid() && Snapshot() == Model.AdmitPostContext(
        old(Snapshot()), request.cell, request.gpu.luid, request.owned.processId,
        EvaluatePost(request.(pre := old(pre)), sequence))
      ensures admitted <==> state.PostContextAdmitted?
    {
      hide EvaluatePost;
      if !state.WorkerContained? || worker.None? || pre.None? || request.cell != cell
         || request.owned.processId != worker.value.processId || request.gpu.luid != luid {
        state := FailedClosed;
        return false;
      }
      var decision := EvaluatePost(request.(pre := pre), sequence);
      if decision.PostRejected? {
        state := FailedClosed;
        return false;
      }
      postFlag := new ReceiptFlag();
      post := Some(decision.receipt);
      state := PostContextAdmitted;
      return true;
    }

    method IssueToken(now: u64, validity: u64) returns (token: TokenObject?)
      requires Valid()
      modifies this, issuer, issuer.usedReceiptIds, postFlag
      ensures Valid() && Snapshot() == Model.IssueToken(old(Snapshot()), now, validity)
      ensures token != null <==> old(IssueSucceeds(Snapshot(), now, validity))
      ensures token != null ==> fresh(token) && token.active && token.fields == old(IssuedToken(Snapshot(), now, validity))
    {
      if !state.PostContextAdmitted? || post.None? {
        state := FailedClosed;
        return null;
      }
      var call := IssueCall(post.value, cell, Identity(worker.value), now, validity);
      var status;
      status, token := issuer.Issue(call, postFlag);
      if !status.Issued? || token == null {
        state := FailedClosed;
        return null;
      }
      state := TokenIssued;
    }

    /** The grant's token moves into the session, and out again when the worker names it. */
    method StorePendingToken(token: TokenObject)
      requires Valid()
      modifies this
      ensures Valid() && Snapshot() == Model.StorePending(old(Snapshot()), token.fields)
      ensures pending == token
    {
      pending := token;
    }

    method TakePendingToken(tokenId: u64) returns (token: TokenObject?)
      requires Valid()
      modifies this
      ensures Valid() && Snapshot() == Model.TakePending(old(Snapshot()), tokenId)
      ensures token == if old(pending) != null && old(pending.fields.tokenId) == tokenId then old(pending) else null
    {
      if pending == null || pending.fields.tokenId != tokenId {
        state := FailedClosed;
        return null;
      }
      token := pending;
      pending := null;
    }

    method ConsumeToken(token: TokenObject, now: u64) returns (consumed: bool)
      requires Valid() && pending != token
      modifies this, token
      ensures Valid() && Snapshot() == Model.ConsumeToken(old(Snapshot()), old(token.fields), old(token.active), now)
      ensures consumed <==> state.TokenConsumed?
      ensures consumed ==> !token.active
    {
      if !state.TokenIssued? || worker.None? {
        state := FailedClosed;
        return false;
      }
      var status, cap := issuer.Consume(token, cell, Identity(worker.value), now);
      if !status.Consumed? {
        state := FailedClosed;
        return false;
      }
      state := TokenConsumed;
      return true;
    }

    method EvaluateWatchdogSample(sample: WatchdogSample) returns (continueWork: bool)
      requires Valid()
      modifies this
      ensures Valid() && Snapshot() == Model.WatchdogStep(
        old(Snapshot()), sample.owned.processId, sample.evaluated,
        post.Some? && EvaluateWatchdog(post.value, sample).ContinueWork())
      ensures continueWork <==> state.WatchdogActive?
    {
      if (!state.TokenConsumed? && !state.WatchdogActive?) || post.None? || worker.None?
         || sample.owned.processId != worker.value.processId {
        state := FailedClosed;
        return false;
      }
      var decision := EvaluateWatchdog(post.value, sample);
      if decision.ContinueWork() {
        state := WatchdogActive;
      } else {
        state := CancelRequested;
        cancelAt := sample.evaluated;
      }
      return decision.ContinueWork();
    }

    method CooperativeCancelRequested(now: u64)
      requires Valid()
      modifies this
      ensures Valid() && Snapshot() == Model.RequestCancel(old(Snapshot()), now)
    {
      if state.TokenConsumed? || state.WatchdogActive? {
        state := CancelRequested;
        cancelAt := now;
      }
    }

    method AdvanceCancellation(now: u64, acknowledged: bool, workerExited: bool, treeEmpty: bool)
      returns (action: Action)
      requires Valid()
      modifies this
      ensures Valid() && Snapshot() == Model.AdvanceCancellation(old(Snapshot()), now, acknowledged, workerExited, treeEmpty)
      ensures action == CancellationAnswer(old(Snapshot()), now, acknowledged, workerExited, treeEmpty)
    {
      if (!state.CancelRequested? && !state.CancelAcknowledged?) || post.None? || now < cancelAt {
        state := Quarantined;
        return Quarantine;
      }
      var elapsed := now - cancelAt;
      var timing := post.value.timing;
      var wasAcknowledged := state.CancelAcknowledged?;
      if elapsed > timing.workerExit {
        state := JobAbortRequired;
        action := AbortJob;
      } else if workerExited {
        if !treeEmpty {
          state := JobAbortRequired;
          action := AbortJob;
        } else {
          state := WorkerExited;
          action := BeginCleanup;
        }
      } else if elapsed == timing.workerExit {
        state := JobAbortRequired;
        action := AbortJob;
      } else if acknowledged && elapsed <= timing.cancelAck {
        state := CancelAcknowledged;
        action := AwaitCooperativeExit;
      } else if !wasAcknowledged && elapsed >= timing.cancelAck {
        state := JobAbortRequired;
        action := AbortJob;
      } else {
        action := AwaitCooperativeExit;
      }
    }

    method RecordJobAbort(now: u64, treeEmpty: bool) returns (action: Action)
      requires Valid()
      modifies this
      ensures Valid() && Snapshot() == Model.RecordJobAbort(old(Snapshot()), now, treeEmpty)
      ensures action == if state.WorkerExited? then BeginCleanup else Quarantine
    {
      if !state.JobAbortRequired? || post.None? || now < cancelAt {
        state := Quarantined;
        return Quarantine;
      }
      var elapsed := now - cancelAt;
      if !treeEmpty || elapsed > post.value.timing.cleanup {
        state := Quarantined;
        action := Quarantine;
      } else {
        state := WorkerExited;
        action := BeginCleanup;
      }
    }

    method RecordNormalWorkerExit(now: u64, treeEmpty: bool) returns (recorded: bool)
      requires Valid()
      modifies this, lease
      ensures Valid() && Snapshot() == Model.RecordNormalExit(old(Snapshot()), now, treeEmpty)
      ensures recorded <==> now != 0 && old(state).WatchdogActive? && old(post).Some? && treeEmpty
      ensures recorded ==> state.WorkerExited?
    {
      if now == 0 { return false; }
      if !state.WatchdogActive? || post.None? || !treeEmpty {
        state := Quarantined;
        if lease != null { lease.Quarantine(); }
        return false;
      }
      state := WorkerExited;
      return true;
    }

    /** A quarantined session gives its lease up for the life of the process. */
    method QuarantineHeldLease()
      requires Valid() && state.Quarantined?
      modifies lease
      ensures Valid() && Snapshot() == Model.QuarantineLease(old(Snapshot()))
    {
      if lease != null { lease.Quarantine(); }
    }

    /** What the end of the run records before the lease is looked at. */
    method RecordRun(result: WorkerFlags)
      requires Valid()
      modifies this`pending, this`flags, this`state
      ensures Valid() && Snapshot() == Model.RunRecorded(old(Snapshot()), result)
    {
      pending := null;
      flags := result;
      if result.exitObserved && result.treeEmpty && ExitState(state) {
        state := WorkerExited;
      } else if !result.exitObserved || !result.treeEmpty {
        state := Quarantined;
      }
    }

    /** The locked block at the end of run_contained_worker. */
    method EndWorkerRun(result: WorkerFlags)
      requires Valid()
      modifies this, lease
      ensures Valid() && Snapshot() == Model.EndRun(old(Snapshot()), result)
    {
      RecordRun(result);
      if state.Quarantined? { QuarantineHeldLease(); }
    }

    method StartCleanup(now: u64) returns (begun: bool)
      requires Valid()
      modifies this, lease
      ensures Valid() && Snapshot() == Model.StartCleanup(old(Snapshot()), now)
      ensures begun <==> now != 0 && CleanupMayBegin(old(Snapshot()))
      ensures lease == old(lease)
    {
      if now == 0 { return false; }
      if !state.WorkerExited? && (!state.FailedClosed? || worker.Some?) {
        state := Quarantined;
        if lease != null { lease.Quarantine(); }
        return false;
      }
      cleanupAt := now;
      state := CleanupStarted;
      return true;
    }

    /** The lease is quarantined on failure and destroyed either way. */
    method DropLease(cleaned: bool)
      requires Valid()
      modifies this`lease, lease, registry
      ensures Valid() && Snapshot() == old(Snapshot()).(lease := NoLease)
      ensures registry.active ==
        if cleaned && old(lease) != null && old(lease.held) then old(registry.active) - {luid}
        else old(registry.active)
    {
      if !cleaned && lease != null { lease.Quarantine(); }
      if lease != null { lease.Release(registry); }
      lease := null;
    }

    /** cleanup_owned: the lease is quarantined unless everything checks out, then destroyed;
        destroying a lease still held is what erases the registry entry. */
    method CleanupOwnedResources(evidence: CleanupEvidence, now: u64) returns (result: State)
      requires Valid()
      modifies this, lease, registry
      ensures Valid() && Snapshot() == Model.CleanupOwned(old(Snapshot()), evidence, now) && result == state
      ensures registry.active ==
        if state.Cleaned? && old(lease) != null && old(lease.held) then old(registry.active) - {luid}
        else old(registry.active)
    {
      if state.Cleaned? || state.Quarantined? {
        state := Quarantined;
        return state;
      }
      var deadlineMet :=
        && state.CleanupStarted? && cleanupAt != 0 && now >= cleanupAt && post.Some?
        && now - cleanupAt <= post.value.timing.cleanup
        && (cancelAt == 0 || (now >= cancelAt && now - cancelAt <= post.value.timing.cleanup));
      FinishCleanup(evidence, EvidenceComplete(evidence) && deadlineMet);
      return state;
    }

    method DropReceipts(evidence: CleanupEvidence)
      requires Valid()
      modifies this`pre, this`post, this`postFlag, this`worker, this`terminalEvidence
      ensures Valid() && Snapshot() == old(Snapshot()).(
        pre := None, post := None, postClaimed := false, worker := None, evidence := Some(evidence))
    {
      pre, post, postFlag, worker := None, None, null, None;
      terminalEvidence := Some(evidence);
    }

    method FinishCleanup(evidence: CleanupEvidence, cleaned: bool)
      requires Valid()
      modifies this, lease, registry
      ensures Valid() && Snapshot() == old(Snapshot()).(
        pre := None, post := None, postClaimed := false, worker := None, evidence := Some(evidence),
        lease := NoLease, state := if cleaned then Cleaned else Quarantined)
      ensures registry.active ==
        if cleaned && old(lease) != null && old(lease.held) then old(registry.active) - {luid}
        else old(registry.active)
    {
      DropReceipts(evidence);
      DropLease(cleaned);
      state := if cleaned then Cleaned else Quarantined;
    }

    method FinalizeCleanupSession(evidence: DeviceEvidence, now: u64) returns (result: State)
      requires Valid()
      modifies this, lease, registry
      ensures Valid() && Snapshot() == FinalizeCleanup(old(Snapshot()), evidence, now)
      ensures result == if now == 0 then FailedClosed else state
    {
      if now == 0 { return FailedClosed; }
      var owned := CleanupEvidence(flags, evidence);
      var begun := StartCleanup(now);
      if !begun { return state; }
      result := CleanupOwnedResources(owned, now);
    }

    /** The destructor: only a cleaned session may let its lease go. */
    method Destroy()
      requires Valid()
      modifies this, lease, registry
      ensures registry.active ==
        if old(Snapshot()).lease == Lease(true) && old(state).Cleaned? then old(registry.active) - {luid}
        else old(registry.active)
    {
      if lease != null && !state.Cleaned? { lease.Quarantine(); }
      if lease != null { lease.Release(registry); }
    }
  }
}
