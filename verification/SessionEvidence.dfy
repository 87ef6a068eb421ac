/** Where the decisions in session calls come from: the two admission stages on the session's own
    requests, and the watchdog on its own receipt. */
module SessionEvidence {
  import opened CheckedArithmetic
  import opened HostAdmission
  import opened SupervisorAdmission
  import opened SupervisorWatchdog
  import opened SessionModel
  import opened SessionRuns

  function PreCall(s: Session, r: PreRequest): Call {
    CallAdmitPre(r.cell, r.gpu.luid, EvaluatePre(r.(leaseHeld := s.lease == Lease(true))))
  }

  function PostCall(s: Session, r: PostRequest, sequence: u64): Call {
    CallAdmitPost(r.cell, r.gpu.luid, r.owned.processId, EvaluatePost(r.(pre := s.pre), sequence))
  }

  function WatchdogCall(s: Session, sample: WatchdogSample): Call {
    CallWatchdog(sample.owned.processId, sample.evaluated,
                 s.post.Some? && EvaluateWatchdog(s.post.value, sample).ContinueWork())
  }

  /** Whatever the request, Stage A's decision is one the session may act on. */
  lemma PreCallAllowed(t: Tracked, r: PreRequest)
    ensures Allowed(t, PreCall(t.s, r))
  {
    var r' := r.(leaseHeld := t.s.lease == Lease(true));
    if EvaluatePre(r').PreAdmitted? {
      StageAReceiptSound(r');
    }
  }

  /** Likewise Stage B's, in every session state that runs reach. */
  lemma PostCallAllowed(t: Tracked, r: PostRequest, sequence: u64)
    requires Inv(t)
    ensures Allowed(t, PostCall(t.s, r, sequence))
  {
    var r' := r.(pre := t.s.pre);
    if EvaluatePost(r', sequence).PostAdmitted? && t.s.pre.Some? {
      StageBReceiptSound(r', sequence);
    }
  }

  /** The whole chain of caps and reserves behind one accepted heartbeat. */
  predicate CapChain(pre: PreReceipt, post: PostReceipt, cap: nat) {
    && 0 < post.predictedPeak <= cap <= post.cap <= pre.cap <= pre.tier <= pre.ceiling <= MAX_GPU_CAP
    && GIB <= pre.reserve <= post.reserve
    && post.tier == pre.tier && post.ceiling == pre.ceiling && post.predictedPeak == pre.predictedPeak
  }

  /** In every run, a heartbeat that keeps the work going leaves the cap within every earlier cap,
      and leaves free, by CUDA and by DXGI, the admitted reserve plus all growth up to that cap. */
  lemma {:induction false} AcceptedHeartbeatKeepsChain(ts: seq<Tracked>, calls: seq<Call>, n: nat, sample: WatchdogSample)
    requires Run(ts, calls) && n < |calls| && calls[n] == WatchdogCall(ts[n].s, sample)
    requires ts[n + 1].s.state.WatchdogActive?
    ensures ts[n].s.pre.Some? && ts[n].s.post.Some? && ts[n].s.worker.Some?
    ensures var pre, post, d := ts[n].s.pre.value, ts[n].s.post.value, EvaluateWatchdog(ts[n].s.post.value, sample);
      && d.ContinueWork() && CapChain(pre, post, d.cap) && SampleKeepsReserve(post, sample, d.cap)
      && sample.owned.processId == ts[n].s.worker.value.processId
      && post.luid == ts[n].s.luid && |ts[n].h.consumed| == 1
  {
    RunKeepsInv(ts, calls, n);
    AcceptedSampleKeepsReserve(ts[n].s.post.value, sample);
  }
}
