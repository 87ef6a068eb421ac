/** What every sequence of session calls keeps, whoever makes them, in whatever order and with
    whatever arguments, including calls after Cleaned, Quarantined or FailedClosed. */
module SessionRuns {
  import opened CheckedArithmetic
  import opened SupervisorAdmission
  import opened AdmissionToken
  import opened SessionModel
  import TokenWorld

  /** What has happened so far: tokens issued and consumed, the times cancellations were stamped
      with, cancellation answers, and whether the lease's registry entry was given back. */
  datatype History = History(
    issued: seq<Token>, consumed: seq<Token>, cancels: seq<u64>, acknowledged: bool, aborts: nat,
    everCleaned: bool, released: bool)

  datatype Tracked = Tracked(s: Session, h: History)

  function NewHistory(): History { History([], [], [], false, 0, false, false) }

  /** cleanup_owned drops the lease; an active one then erases its registry entry. */
  predicate Releases(s: Session, c: Call) {
    c.CallCleanup? && !s.state.Cleaned? && !s.state.Quarantined? && s.lease == Lease(true)
    && CleanupSucceeds(s, c.evidence, c.now)
  }

  /** The time a call stamps a cancellation with, if it begins one. */
  function Stamped(s: Session, c: Call): seq<u64> {
    if c.CallRequestCancel? && (s.state.TokenConsumed? || s.state.WatchdogActive?) then [c.now]
    else if c.CallWatchdog? && WatchdogInOrder(s, c.processId) && !c.accepted then [c.evaluated]
    else []
  }

  function Record(h: History, s: Session, c: Call): History {
    h.(issued := if c.CallIssue? && IssueSucceeds(s, c.now, c.validity)
                 then h.issued + [IssuedToken(s, c.now, c.validity)] else h.issued,
       consumed := if c.CallConsume? && ConsumeSucceeds(s, c.token, c.active, c.now)
                   then h.consumed + [c.token] else h.consumed,
       cancels := if Stamped(s, c) == [] then h.cancels else h.cancels + Stamped(s, c),
       acknowledged := h.acknowledged || (c.CallAdvance? && AcknowledgedInTime(s, c.now, c.acknowledged, c.exited)),
       aborts := h.aborts + (if c.CallAdvance? && CancellationAnswer(s, c.now, c.acknowledged, c.exited, c.treeEmpty).AbortJob?
                             then 1 else 0),
       everCleaned := h.everCleaned || Next(s, c).state.Cleaned?,
       released := h.released || Releases(s, c))
  }

  function Step(t: Tracked, c: Call): Tracked { Tracked(Next(t.s, c), Record(t.h, t.s, c)) }

  /** Stage A's receipts are well formed and for the cell and adapter asked about. */
  predicate PreDecisionSound(d: PreDecision, cell: Cell, luid: Luid) {
    d.PreAdmitted? ==> PreReceiptWellFormed(d.receipt) && d.receipt.cell == cell && d.receipt.luid == luid
  }

  /** Stage B's receipts are well formed and refine the Stage A receipt they were made from. */
  predicate PostDecisionSound(d: PostDecision, pre: Option<PreReceipt>) {
    d.PostAdmitted? && pre.Some? ==> PostReceiptWellFormed(d.receipt) && Refines(pre.value, d.receipt)
  }

  /** Calls the program can make: decisions come from the evaluators (SessionEvidence shows that
      theirs are sound), and an active token with this issuer's id is one it issued (WorldAllows). */
  predicate Allowed(t: Tracked, c: Call) {
    match c
    case CallAdmitPre(cell, luid, d) => PreDecisionSound(d, cell, luid)
    case CallAdmitPost(_, _, _, d) => PostDecisionSound(d, t.s.pre)
    case CallConsume(token, active, _) => active && token.issuerId == t.s.issuer.id ==> token in t.h.issued
    case _ => true
  }

  /** In the world of all tokens, the session's issuer is issuer `i` and has minted what the session
      issued. */
  predicate Mirrors(t: Tracked, w: TokenWorld.World, i: TokenWorld.Handle) {
    i in w.issuers && w.issuers[i].id == t.s.issuer.id && t.h.issued == TokenWorld.MintedBy(w.minted, i)
  }

  /** Every token object that exists may then be presented to the session. SessionTokens shows that
      every joint step keeps the two in agreement. */
  lemma WorldAllows(w: TokenWorld.World, i: TokenWorld.Handle, o: TokenWorld.Handle, t: Tracked, now: u64)
    requires TokenWorld.Inv(w) && Mirrors(t, w, i) && o in w.objects
    ensures Allowed(t, CallConsume(w.objects[o].fields, w.objects[o].active, now))
  {
    if w.objects[o].active && w.objects[o].fields.issuerId == t.s.issuer.id {
      TokenWorld.ActiveTokenIsItsIssuers(w, o, i);
    }
  }

  ghost predicate Run(ts: seq<Tracked>, calls: seq<Call>) {
    && |ts| == |calls| + 1
    && (exists cell, luid, issuerId :: ts[0] == Tracked(NewSession(cell, luid, issuerId), NewHistory()))
    && forall n :: 0 <= n < |calls| ==> Allowed(ts[n], calls[n]) && ts[n + 1] == Step(ts[n], calls[n])
  }

  // ----- order of the admitting states -----

  /** Position in the admitting order; 7 for every state outside it. */
  function Rank(state: State): nat {
    match state
    case LeaseHeld => 0
    case PreContextAdmitted => 1
    case WorkerContained => 2
    case PostContextAdmitted => 3
    case TokenIssued => 4
    case TokenConsumed => 5
    case WatchdogActive => 6
    case _ => 7
  }

  predicate Admitting(state: State) { Rank(state) < 7 }

  /** One call stays, advances by exactly one, or leaves the admitting states for good. */
  lemma {:induction false} CallRespectsOrder(s: Session, c: Call)
    ensures var r, r' := Rank(s.state), Rank(Next(s, c).state); r' == r || r' == r + 1 || r' == 7
    ensures Rank(s.state) == 7 ==> Rank(Next(s, c).state) == 7
  {}

  ghost predicate Visited(ts: seq<Tracked>, i: nat, j: nat, state: State)
    requires j < |ts|
  {
    exists k :: i <= k <= j && ts[k].s.state == state
  }

  /** Over a whole run the admitting states are entered in order, none is skipped, and none is
      seen again once left. */
  lemma {:induction false} AdmittingStatesInOrder(ts: seq<Tracked>, calls: seq<Call>, i: nat, j: nat)
    requires Run(ts, calls) && i <= j < |ts| && Admitting(ts[j].s.state)
    ensures Rank(ts[i].s.state) <= Rank(ts[j].s.state)
    ensures forall state :: Rank(ts[i].s.state) <= Rank(state) <= Rank(ts[j].s.state) ==> Visited(ts, i, j, state)
    ensures forall k :: i <= k <= j && ts[i].s.state == ts[j].s.state ==> ts[k].s.state == ts[i].s.state
    decreases j - i
  {
    if i < j {
      CallRespectsOrder(ts[i].s, calls[i]);
      AdmittingStatesInOrder(ts, calls, i + 1, j);
    }
    forall state | Rank(ts[i].s.state) <= Rank(state) <= Rank(ts[j].s.state) ensures Visited(ts, i, j, state) {
      if Rank(state) == Rank(ts[i].s.state) {
        RankIsInjective(state, ts[i].s.state);
      } else {
        assert Visited(ts, i + 1, j, state);
      }
    }
    if i < j && ts[i].s.state == ts[j].s.state {
      RankIsInjective(ts[i].s.state, ts[i + 1].s.state);
    }
  }

  lemma RankIsInjective(a: State, b: State)
    ensures Admitting(a) && Rank(a) == Rank(b) ==> a == b
  {}

  // ----- the invariant -----

  /** Receipts and worker are those of this session, and chained: Stage B refines Stage A. */
  predicate ReceiptsFit(s: Session) {
    && (s.pre.Some? ==>
          PreReceiptWellFormed(s.pre.value) && s.pre.value.cell == s.cell && s.pre.value.luid == s.luid)
    && (s.worker.Some? ==> s.pre.Some? && ContainmentValid(s.worker.value))
    && (s.post.Some? ==>
          s.worker.Some? && PostReceiptWellFormed(s.post.value) && Refines(s.pre.value, s.post.value))
  }

  /** From the token's consumption to the worker's exit. */
  predicate Spending(state: State) {
    || state.TokenConsumed? || state.WatchdogActive? || state.CancelRequested? || state.CancelAcknowledged?
    || state.JobAbortRequired? || state.WorkerExited?
  }

  /** What each state says about the lease, the worker and the receipts. */
  predicate StateFits(s: Session) {
    && (Admitting(s.state) || Spending(s.state) ==> s.lease == Lease(true))
    && (s.state.LeaseHeld? ==> s.pre.None?)
    && (s.state.PreContextAdmitted? ==> s.pre.Some? && s.worker.None?)
    && (s.state.WorkerContained? ==> s.worker.Some? && s.post.None?)
    && (s.state.PostContextAdmitted? || s.state.TokenIssued? || Spending(s.state) ==> s.post.Some?)
    && (s.state.CleanupStarted? && s.post.Some? ==> s.lease == Lease(true))
    && (s.state.Cleaned? ==> s.lease.NoLease? && s.evidence.Some? && EvidenceComplete(s.evidence.value))
    && (s.lease.NoLease? ==> s.pre.None?)
  }

  predicate TokensFit(t: Tracked) {
    && |t.h.consumed| <= |t.h.issued| <= 1
    && t.s.issuer.nextTokenId == 1 + |t.h.issued|
    && (t.h.consumed != [] ==> t.h.consumed == t.h.issued)
    && (t.h.issued != [] ==> t.h.issued[0].issuerId == t.s.issuer.id != 0 && t.h.issued[0].tokenId == 1)
    && (Rank(t.s.state) <= 3 ==> t.h.issued == [])
    && (t.s.state.TokenIssued? ==> |t.h.issued| == 1 && t.h.consumed == [])
    && (t.h.issued != [] && t.s.post.Some? && t.s.worker.Some? ==>
          FaithfulMint(t.h.issued[0], t.s.post.value) && t.h.issued[0].worker == Identity(t.s.worker.value))
  }

  predicate SpendingFits(t: Tracked) {
    && (Spending(t.s.state) || t.h.everCleaned || (t.s.state.CleanupStarted? && t.s.post.Some?) ==>
          |t.h.consumed| == 1)
    && (t.s.state.Cleaned? ==> t.h.everCleaned)
    && t.h.everCleaned == t.h.released && (t.h.released ==> t.s.lease.NoLease?)
  }

  predicate CancellationFits(t: Tracked) {
    && |t.h.cancels| <= 1 && t.s.cancelAt == (if t.h.cancels == [] then 0 else t.h.cancels[0])
    && (Admitting(t.s.state) ==> t.h.cancels == []) && (t.h.cancels != [] ==> |t.h.consumed| == 1)
    && (t.s.state.CancelRequested? || t.s.state.CancelAcknowledged? || t.s.state.JobAbortRequired? ==> t.h.cancels != [])
    && (t.s.state.CancelAcknowledged? ==> t.h.acknowledged)
    && t.h.aborts <= 1
    && (Admitting(t.s.state) || t.s.state.CancelRequested? || t.s.state.CancelAcknowledged? ==> t.h.aborts == 0)
  }

  predicate Inv(t: Tracked) {
    ReceiptsFit(t.s) && StateFits(t.s) && TokensFit(t) && SpendingFits(t) && CancellationFits(t)
  }

  // ----- preservation -----

  /** A move that touches neither receipts, worker, issuer nor evidence: it fails closed,
      quarantines, advances towards the worker's exit, or begins cleanup. */
  predicate Quiet(s: Session, s': Session) {
    && s'.cell == s.cell && s'.luid == s.luid && s'.pre == s.pre && s'.post == s.post && s'.worker == s.worker
    && s'.issuer == s.issuer && s'.evidence == s.evidence
    && (s'.lease == s.lease || (s'.state.Quarantined? && s.lease.Lease? && s'.lease == Lease(false)))
    && (|| s'.state == s.state || s'.state.FailedClosed? || s'.state.Quarantined?
        || (Spending(s.state) && Spending(s'.state) && !s'.state.TokenConsumed?)
        || (s'.state.CleanupStarted? && CleanupMayBegin(s)))
  }

  lemma QuietKeeps(t: Tracked, t': Tracked)
    requires Inv(t) && Quiet(t.s, t'.s) && CancellationFits(t')
    requires t'.h == t.h.(cancels := t'.h.cancels, acknowledged := t'.h.acknowledged, aborts := t'.h.aborts)
    ensures Inv(t')
  {
    hide PreReceiptWellFormed, PostReceiptWellFormed, Refines, FaithfulMint, EvidenceComplete;
  }

  lemma AdmitPreKeeps(t: Tracked, cell: Cell, luid: Luid, d: PreDecision)
    requires Inv(t) && PreDecisionSound(d, cell, luid)
    ensures Inv(Step(t, CallAdmitPre(cell, luid, d)))
  {
    hide PreReceiptWellFormed, PostReceiptWellFormed, Refines, FaithfulMint, EvidenceComplete;
  }

  lemma AdmitPostKeeps(t: Tracked, cell: Cell, luid: Luid, processId: u32, d: PostDecision)
    requires Inv(t) && PostDecisionSound(d, t.s.pre)
    ensures Inv(Step(t, CallAdmitPost(cell, luid, processId, d)))
  {
    hide PreReceiptWellFormed, PostReceiptWellFormed, Refines, FaithfulMint, EvidenceComplete;
  }

  lemma IssueKeeps(t: Tracked, now: u64, validity: u64)
    requires Inv(t)
    ensures Inv(Step(t, CallIssue(now, validity)))
  {
    if IssueSucceeds(t.s, now, validity) {
      MintIsFaithful(t.s.issuer.id, t.s.issuer.nextTokenId, t.s.issuer.used, SessionIssueCall(t.s, now, validity));
    }
  }

  lemma SpentKeeps(t: Tracked, token: Token)
    requires Inv(t) && t.s.state.TokenIssued? && t.h.issued == [token]
    ensures Inv(Tracked(t.s.(state := TokenConsumed), t.h.(consumed := [token]))) && t.h.consumed == []
  {
    hide PreReceiptWellFormed, PostReceiptWellFormed, Refines, FaithfulMint, EvidenceComplete;
  }

  lemma OnlyIssuedToken(t: Tracked, token: Token, active: bool, now: u64)
    requires Inv(t) && Allowed(t, CallConsume(token, active, now)) && ConsumeSucceeds(t.s, token, active, now)
    ensures t.h.issued == [token]
  {
    hide ReceiptsFit, StateFits, SpendingFits, CancellationFits;
  }

  lemma ConsumeSteps(t: Tracked, token: Token, active: bool, now: u64)
    ensures ConsumeSucceeds(t.s, token, active, now) ==>
      Step(t, CallConsume(token, active, now))
        == Tracked(t.s.(state := TokenConsumed), t.h.(consumed := t.h.consumed + [token]))
    ensures !ConsumeSucceeds(t.s, token, active, now) ==>
      Step(t, CallConsume(token, active, now)) == Tracked(Fail(t.s), t.h)
  {
    hide ConsumeSucceeds;
  }

  lemma FailKeeps(t: Tracked)
    requires Inv(t)
    ensures Inv(Tracked(Fail(t.s), t.h))
  {
    hide ReceiptsFit, StateFits, TokensFit, SpendingFits;
    QuietKeeps(t, Tracked(Fail(t.s), t.h));
  }

  lemma ConsumeKeeps(t: Tracked, token: Token, active: bool, now: u64)
    requires Inv(t) && Allowed(t, CallConsume(token, active, now))
    ensures Inv(Step(t, CallConsume(token, active, now)))
  {
    hide Inv, ConsumeSucceeds, Step;
    ConsumeSteps(t, token, active, now);
    FailKeeps(t);
    if ConsumeSucceeds(t.s, token, active, now) {
      OnlyIssuedToken(t, token, active, now);
      assert t.s.state.TokenIssued? by { OnlyWhenIssued(t.s, token, active, now); }
      SpentKeeps(t, token);
      assert t.h.consumed + [token] == [token];
    }
  }

  lemma OnlyWhenIssued(s: Session, token: Token, active: bool, now: u64)
    requires ConsumeSucceeds(s, token, active, now)
    ensures s.state.TokenIssued?
  {}

  lemma WatchdogKeeps(t: Tracked, processId: u32, evaluated: u64, accepted: bool)
    requires Inv(t)
    ensures Inv(Step(t, CallWatchdog(processId, evaluated, accepted)))
  {
    hide ReceiptsFit, StateFits, TokensFit;
    QuietKeeps(t, Step(t, CallWatchdog(processId, evaluated, accepted)));
  }

  lemma RequestCancelKeeps(t: Tracked, now: u64)
    requires Inv(t)
    ensures Inv(Step(t, CallRequestCancel(now)))
  {
    hide ReceiptsFit, StateFits, TokensFit;
    QuietKeeps(t, Step(t, CallRequestCancel(now)));
  }

  lemma AdvanceKeeps(t: Tracked, now: u64, acknowledged: bool, exited: bool, treeEmpty: bool)
    requires Inv(t)
    ensures Inv(Step(t, CallAdvance(now, acknowledged, exited, treeEmpty)))
  {
    hide ReceiptsFit, StateFits, TokensFit;
    if !CancellationInOrder(t.s, now) {
      assert Next(t.s, CallAdvance(now, acknowledged, exited, treeEmpty)) == t.s.(state := Quarantined);
    }
    QuietKeeps(t, Step(t, CallAdvance(now, acknowledged, exited, treeEmpty)));
  }

  lemma JobAbortKeeps(t: Tracked, now: u64, treeEmpty: bool)
    requires Inv(t)
    ensures Inv(Step(t, CallJobAbort(now, treeEmpty)))
  {
    hide ReceiptsFit, StateFits, TokensFit;
    QuietKeeps(t, Step(t, CallJobAbort(now, treeEmpty)));
  }

  lemma NormalExitKeeps(t: Tracked, now: u64, treeEmpty: bool)
    requires Inv(t)
    ensures Inv(Step(t, CallNormalExit(now, treeEmpty)))
  {
    hide ReceiptsFit, StateFits, TokensFit;
    QuietKeeps(t, Step(t, CallNormalExit(now, treeEmpty)));
  }

  lemma EndRunKeeps(t: Tracked, f: WorkerFlags)
    requires Inv(t)
    ensures Inv(Step(t, CallEndRun(f)))
  {
    hide ReceiptsFit, StateFits, TokensFit;
    QuietKeeps(t, Step(t, CallEndRun(f)));
  }

  lemma StartCleanupKeeps(t: Tracked, now: u64)
    requires Inv(t)
    ensures Inv(Step(t, CallStartCleanup(now)))
  {
    hide ReceiptsFit, StateFits, TokensFit;
    QuietKeeps(t, Step(t, CallStartCleanup(now)));
  }

  lemma SuccessIsSpent(t: Tracked, e: CleanupEvidence, now: u64)
    requires Inv(t) && !t.s.state.Cleaned?
    ensures CleanupSucceeds(t.s, e, now) ==> t.s.lease == Lease(true) && |t.h.consumed| == 1 && EvidenceComplete(e)
  {
    hide EvidenceComplete, PreReceiptWellFormed, PostReceiptWellFormed, Refines, FaithfulMint;
  }

  lemma CleanupKeeps(t: Tracked, e: CleanupEvidence, now: u64)
    requires Inv(t)
    ensures Inv(Step(t, CallCleanup(e, now)))
  {
    if t.s.state.Cleaned? || t.s.state.Quarantined? {
      QuietKeeps(t, Step(t, CallCleanup(e, now)));
    } else {
      SuccessIsSpent(t, e, now);
      CleanupDropsLease(t, e, CleanupSucceeds(t.s, e, now));
      hide Inv, CleanupSucceeds;
    }
  }

  /** Cleanup drops receipts, worker and lease; only a complete one counts as cleaned. */
  lemma CleanupDropsLease(t: Tracked, e: CleanupEvidence, cleaned: bool)
    requires Inv(t) && (cleaned ==> EvidenceComplete(e) && |t.h.consumed| == 1)
    ensures Inv(Tracked(
      t.s.(pre := None, post := None, postClaimed := false, worker := None, evidence := Some(e), lease := NoLease,
           state := if cleaned then Cleaned else Quarantined),
      t.h.(everCleaned := t.h.everCleaned || cleaned, released := t.h.released || cleaned)))
  {}

  lemma BindKeeps(t: Tracked, k: Containment)
    requires Inv(t)
    ensures Inv(Step(t, CallBind(k)))
  {
    hide PreReceiptWellFormed, PostReceiptWellFormed, Refines, FaithfulMint, EvidenceComplete;
  }

  lemma StorePendingKeeps(t: Tracked, token: Token)
    requires Inv(t)
    ensures Inv(Step(t, CallStorePending(token)))
  {
    hide ReceiptsFit, StateFits, TokensFit;
    QuietKeeps(t, Step(t, CallStorePending(token)));
  }

  lemma TakePendingKeeps(t: Tracked, id: u64)
    requires Inv(t)
    ensures Inv(Step(t, CallTakePending(id)))
  {
    hide ReceiptsFit, StateFits, TokensFit;
    QuietKeeps(t, Step(t, CallTakePending(id)));
  }

  lemma RejectEvidenceKeeps(t: Tracked)
    requires Inv(t)
    ensures Inv(Step(t, CallRejectEvidence))
  {
    hide ReceiptsFit, StateFits, TokensFit;
    QuietKeeps(t, Step(t, CallRejectEvidence));
  }

  lemma {:induction false} StepKeeps(t: Tracked, c: Call)
    requires Inv(t) && Allowed(t, c)
    ensures Inv(Step(t, c))
  {
    match c
    case CallAdmitPre(cell, luid, d) => AdmitPreKeeps(t, cell, luid, d);
    case CallBind(k) => BindKeeps(t, k);
    case CallAdmitPost(cell, luid, processId, d) => AdmitPostKeeps(t, cell, luid, processId, d);
    case CallIssue(now, validity) => IssueKeeps(t, now, validity);
    case CallStorePending(token) => StorePendingKeeps(t, token);
    case CallTakePending(id) => TakePendingKeeps(t, id);
    case CallConsume(token, active, now) => ConsumeKeeps(t, token, active, now);
    case CallWatchdog(processId, evaluated, accepted) => WatchdogKeeps(t, processId, evaluated, accepted);
    case CallRejectEvidence => RejectEvidenceKeeps(t);
    case CallRequestCancel(now) => RequestCancelKeeps(t, now);
    case CallAdvance(now, acknowledged, exited, treeEmpty) => AdvanceKeeps(t, now, acknowledged, exited, treeEmpty);
    case CallJobAbort(now, treeEmpty) => JobAbortKeeps(t, now, treeEmpty);
    case CallNormalExit(now, treeEmpty) => NormalExitKeeps(t, now, treeEmpty);
    case CallEndRun(f) => EndRunKeeps(t, f);
    case CallStartCleanup(now) => StartCleanupKeeps(t, now);
    case CallCleanup(e, now) => CleanupKeeps(t, e, now);
  }

  lemma {:induction false} RunKeepsInv(ts: seq<Tracked>, calls: seq<Call>, n: nat)
    requires Run(ts, calls) && n < |ts|
    ensures Inv(ts[n])
  {
    if n > 0 {
      RunKeepsInv(ts, calls, n - 1);
      StepKeeps(ts[n - 1], calls[n - 1]);
    }
  }

  // ----- theorems about every run -----

  /** Everything Cleaned stands for, at the step that enters it. */
  predicate CleanedProperly(t: Tracked, c: Call) {
    && c.CallCleanup? && t.s.state.CleanupStarted? && t.s.lease == Lease(true) && !t.h.released
    && |t.h.consumed| == 1 && t.h.consumed == t.h.issued
    && EvidenceComplete(c.evidence)
    && t.s.post.Some?
    && 0 < t.s.cleanupAt <= c.now <= t.s.cleanupAt + t.s.post.value.timing.cleanup
    && (t.h.cancels == [0] || CancelsWithin(t, c.now))
  }

  /** Every cancellation so far is no older than the cleanup bound. */
  predicate CancelsWithin(t: Tracked, now: u64) {
    t.s.post.Some? && forall i :: 0 <= i < |t.h.cancels| ==>
      t.h.cancels[i] <= now <= t.h.cancels[i] + t.s.post.value.timing.cleanup
  }

  lemma ReleaseIsProper(t: Tracked, c: Call)
    requires Inv(t) && Releases(t.s, c)
    ensures CleanedProperly(t, c) && Step(t, c).s.state.Cleaned? && !t.h.released
  {
    hide EvidenceComplete, PreReceiptWellFormed, PostReceiptWellFormed, Refines, FaithfulMint;
  }

  /** The registry entry is given back by exactly the steps that enter Cleaned, and each of them
      had a consumed token, complete evidence and both cleanup deadlines met. */
  lemma {:induction false} ReleaseIsCleaned(ts: seq<Tracked>, calls: seq<Call>, n: nat)
    requires Run(ts, calls) && n < |calls|
    ensures Releases(ts[n].s, calls[n]) <==> !ts[n].s.state.Cleaned? && ts[n + 1].s.state.Cleaned?
    ensures Releases(ts[n].s, calls[n]) ==> CleanedProperly(ts[n], calls[n])
    ensures ts[n + 1].h.released == (ts[n].h.released || Releases(ts[n].s, calls[n]))
  {
    RunKeepsInv(ts, calls, n);
    assert Inv(ts[n]);
    CleanedOnlyByCleanup(ts[n].s, calls[n]);
  }

  lemma CleanedOnlyByCleanup(s: Session, c: Call)
    ensures Next(s, c).state.Cleaned? && !s.state.Cleaned? ==>
      c.CallCleanup? && !s.state.Quarantined? && CleanupSucceeds(s, c.evidence, c.now)
  {}

  /** Once outside the admitting states without a consumed token, a session is never Cleaned:
      in particular one whose Stage B was refused after a worker was bound. */
  lemma {:induction false} UnspentNeverCleaned(ts: seq<Tracked>, calls: seq<Call>, k: nat, n: nat)
    requires Run(ts, calls) && k <= n < |ts|
    requires !Admitting(ts[k].s.state) && ts[k].h.consumed == []
    ensures !ts[n].s.state.Cleaned? && !ts[n].h.released && ts[n].h.consumed == []
    decreases n - k
  {
    RunKeepsInv(ts, calls, k);
    if k < n {
      CallRespectsOrder(ts[k].s, calls[k]);
      UnspentNeverCleaned(ts, calls, k + 1, n);
    }
  }

  /** Beyond recovery: failed, quarantined, or in a cleanup that has no Stage B receipt to go by. */
  predicate Doomed(t: Tracked) {
    t.s.state.FailedClosed? || t.s.state.Quarantined? || (t.s.state.CleanupStarted? && t.s.post.None?)
  }

  lemma DoomedStays(t: Tracked, c: Call)
    requires Inv(t) && Doomed(t)
    ensures Doomed(Step(t, c)) && Step(t, c).h.released == t.h.released && Step(t, c).h.consumed == t.h.consumed
  {
    hide TokensFit, SpendingFits, CancellationFits, EvidenceComplete;
  }

  /** Once FailedClosed or Quarantined, whatever is called and whether or not a token was consumed:
      never Cleaned again, the lease never given back, no token consumed. */
  lemma {:induction false} FailureIsFinal(ts: seq<Tracked>, calls: seq<Call>, k: nat, n: nat)
    requires Run(ts, calls) && k <= n < |ts| && Doomed(ts[k])
    ensures Doomed(ts[n]) && ts[n].h.released == ts[k].h.released && ts[n].h.consumed == ts[k].h.consumed
    decreases n - k
  {
    if k < n {
      RunKeepsInv(ts, calls, k);
      hide Inv, Doomed, Step;
      DoomedStays(ts[k], calls[k]);
      FailureIsFinal(ts, calls, k + 1, n);
    }
  }

  /** A Stage B call that does not end in PostContextAdmitted, be it refused by the evaluator or by
      the session itself for its state or an identity, ends every hope of Cleaned. */
  lemma {:induction false} RefusedStageBNeverCleaned(ts: seq<Tracked>, calls: seq<Call>, k: nat, n: nat)
    requires Run(ts, calls) && k < n < |ts| && calls[k].CallAdmitPost? && !ts[k + 1].s.state.PostContextAdmitted?
    ensures !ts[n].s.state.Cleaned? && ts[n].h.released == ts[k].h.released && ts[n].h.consumed == ts[k].h.consumed
    ensures Rank(ts[k].s.state) <= 4 ==> !ts[n].h.released && ts[n].h.consumed == []
  {
    RunKeepsInv(ts, calls, k);
    assert ts[k + 1].s == Fail(ts[k].s) && ts[k + 1].h.released == ts[k].h.released;
    FailureIsFinal(ts, calls, k + 1, n);
  }

  /** advance_cancellation answers "await" only before the exit bound, and past the
      acknowledgement bound only when an acknowledgement arrived in time. */
  lemma {:induction false} AwaitIsBounded(ts: seq<Tracked>, calls: seq<Call>, n: nat)
    requires Run(ts, calls) && n < |calls| && calls[n].CallAdvance?
    requires var c := calls[n];
      CancellationAnswer(ts[n].s, c.now, c.acknowledged, c.exited, c.treeEmpty).AwaitCooperativeExit?
    ensures ts[n].s.post.Some? && ts[n].s.cancelAt <= calls[n].now
    ensures var elapsed, timing := calls[n].now - ts[n].s.cancelAt, ts[n].s.post.value.timing;
      elapsed < timing.workerExit && (elapsed < timing.cancelAck || ts[n + 1].h.acknowledged)
  {
    RunKeepsInv(ts, calls, n);
  }

  /** The job is told to abort at most once in the life of a session. */
  lemma AbortAnsweredAtMostOnce(ts: seq<Tracked>, calls: seq<Call>, n: nat)
    requires Run(ts, calls) && n < |ts|
    ensures ts[n].h.aborts <= 1
  {
    RunKeepsInv(ts, calls, n);
  }

  /** An aborted run reaches WorkerExited in exactly two ways: record_job_abort with an empty tree
      within the cleanup bound, or the end of the worker run with an observed exit and an empty tree,
      for which there is no bound. */
  lemma {:induction false} AbortedRunExits(ts: seq<Tracked>, calls: seq<Call>, n: nat)
    requires Run(ts, calls) && n < |calls| && ts[n].s.state.JobAbortRequired?
    ensures ts[n + 1].s.state.WorkerExited? <==>
      || (calls[n].CallJobAbort? && calls[n].treeEmpty && ts[n].s.post.Some?
          && ts[n].s.cancelAt <= calls[n].now <= ts[n].s.cancelAt + ts[n].s.post.value.timing.cleanup)
      || (calls[n].CallEndRun? && calls[n].flags.exitObserved && calls[n].flags.treeEmpty)
  {}

  /** The second way has no clock: every aborted run, however old its cancellation, can still go on
      to WorkerExited. (Cleaned is another matter: CleanedProperly keeps the bound.) */
  lemma LateAbortCanExit(ts: seq<Tracked>, calls: seq<Call>)
    requires Run(ts, calls) && ts[|calls|].s.state.JobAbortRequired?
    ensures var c := CallEndRun(WorkerFlags(true, true, true, true, true));
      && Run(ts + [Step(ts[|calls|], c)], calls + [c]) && Step(ts[|calls|], c).s.state.WorkerExited?
  {
    RunExtends(ts, calls, CallEndRun(WorkerFlags(true, true, true, true, true)));
  }

  lemma LateSteps(t: Tracked, cell: Cell, luid: Luid, e: CleanupEvidence, now: u64)
    requires Inv(t) && t.s.state.Cleaned? && now != 0
    ensures var t1 := Step(t, CallAdmitPre(cell, luid, PreRejected(CellInvalid)));
      var t3 := Step(Step(t1, CallStartCleanup(now)), CallCleanup(e, now));
      t3.h.released && t3.s.state.Quarantined?
  {
    assert t.h.released && t.s.post.None?;
    hide Inv, EvidenceComplete;
  }

  /** The session state alone does not tell who holds the adapter: any run that was Cleaned can be
      continued by a late admission and a second cleanup into one that reports Quarantined
      although its lease was given back. */
  lemma LateCallsHideCleaned(ts: seq<Tracked>, calls: seq<Call>, cell: Cell, luid: Luid, e: CleanupEvidence, now: u64)
    returns (ts': seq<Tracked>, calls': seq<Call>)
    requires Run(ts, calls) && ts[|calls|].s.state.Cleaned? && now != 0
    ensures Run(ts', calls') && calls <= calls' && ts <= ts'
    ensures ts'[|calls'|].s.state.Quarantined? && ts'[|calls'|].h.released
  {
    var last := ts[|calls|];
    RunKeepsInv(ts, calls, |calls|);
    LateSteps(last, cell, luid, e, now);
    hide Inv, Step, Run;
    var c1, c2, c3 := CallAdmitPre(cell, luid, PreRejected(CellInvalid)), CallStartCleanup(now), CallCleanup(e, now);
    var t1 := Step(last, c1);
    var t2 := Step(t1, c2);
    var t3 := Step(t2, c3);
    RunExtends(ts, calls, c1);
    RunExtends(ts + [t1], calls + [c1], c2);
    RunExtends(ts + [t1] + [t2], calls + [c1] + [c2], c3);
    calls' := calls + [c1] + [c2] + [c3];
    ts' := ts + [t1] + [t2] + [t3];
  }

  lemma RunExtends(ts: seq<Tracked>, calls: seq<Call>, c: Call)
    requires Run(ts, calls) && Allowed(ts[|calls|], c)
    ensures Run(ts + [Step(ts[|calls|], c)], calls + [c])
  {
    hide Step, Allowed;
  }
}
