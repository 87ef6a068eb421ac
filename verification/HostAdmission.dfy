/** Host memory admission (src/governor/host_admission.cpp). */
module HostAdmission {
  import opened CheckedArithmetic

  const MIB: nat := 0x10_0000
  const GIB: nat := 0x4000_0000
  const MAX_TELEMETRY_AGE: nat := 500

  /** `OtherLane` stands for an enumerator outside the declared two. */
  datatype Lane = DevelopmentNonPromotable | EvidencePromotable | OtherLane

  datatype HostSample = HostSample(
    available: bool, commitSource: string, captured: u64,
    memoryTotal: u64, memoryAvailable: u64,
    commitTotal: u64, commitLimit: u64, commitAvailable: u64)

  datatype HostPolicy = HostPolicy(
    lane: Lane, physicalFloor: u64, physicalBp: u32,
    commitFloor: u64, commitLimitBp: u32, commitPhysicalBp: u32)

  datatype HostRequest = HostRequest(
    resident: u64, commit: u64, residentUncertainty: u64, commitUncertainty: u64,
    pinned: u64, explicitPhysical: u64, explicitCommit: u64,
    evaluated: u64, maxAge: u64, promotionRequested: bool)

  datatype HostReason =
    | HostAdmitted | LaneInvalid | TelemetryUnavailable | TimestampUnavailable
    | FreshnessPolicyInvalid | ClockAnomaly | TelemetryStale | CommitSourceNotAuthoritative
    | TelemetryContradictory | CommitHeadroomMismatch | ReservePolicyInvalid
    | PhysicalReserveUnavailable | CommitReserveUnavailable | PinnedCapOverflowed | PinnedCapExceeded
    | ResidentOverflowed | CommitOverflowed | ResidentExceedsPayload | CommitExceedsPayload
    | DevelopmentLaneNonPromotable

  datatype HostDecision = HostDecision(
    reason: HostReason, promotable: bool,
    physicalReserve: nat, commitReserve: nat,
    requiredResident: nat, requiredCommit: nat)
  {
    predicate Admitted() { reason.HostAdmitted? }
  }

  function Max(a: nat, b: nat): nat { if a < b then b else a }

  function Min(a: nat, b: nat): nat { if a < b then a else b }

  function Rejected(reason: HostReason): HostDecision {
    HostDecision(reason, false, 0, 0, 0, 0)
  }

  function DefaultPolicy(lane: Lane): HostPolicy {
    if lane.EvidencePromotable? then
      HostPolicy(lane, 4 * GIB, 1_500, 4 * GIB, 1_000, 1_500)
    else
      HostPolicy(lane, 2 * GIB, 800, 2 * GIB, 500, 0)
  }

  /** Three terms, each addition overflow-checked. */
  function CheckedAdd3(a: u64, b: u64, c: u64): (r: Option<u64>)
    ensures r.Some? <==> a + b + c <= U64_MAX
    ensures r.Some? ==> r.value == a + b + c
  {
    var ab := CheckedAdd(a, b);
    if ab.None? then None else CheckedAdd(ab.value, c)
  }

  /** evaluate_host_admission, one early return per line. */
  function EvaluateHost(s: HostSample, p: HostPolicy, r: HostRequest): HostDecision {
    if p.lane.OtherLane? then Rejected(LaneInvalid)
    else if !s.available then Rejected(TelemetryUnavailable)
    else if s.captured == 0 || r.evaluated == 0 then Rejected(TimestampUnavailable)
    else if r.maxAge == 0 || r.maxAge > MAX_TELEMETRY_AGE then Rejected(FreshnessPolicyInvalid)
    else if r.evaluated < s.captured then Rejected(ClockAnomaly)
    else if r.evaluated - s.captured > r.maxAge then Rejected(TelemetryStale)
    else if s.commitSource != "get_performance_info" then Rejected(CommitSourceNotAuthoritative)
    else if s.memoryTotal == 0 || s.memoryAvailable > s.memoryTotal || s.commitTotal > s.commitLimit then
      Rejected(TelemetryContradictory)
    else if s.commitAvailable != s.commitLimit - s.commitTotal then Rejected(CommitHeadroomMismatch)
    else
      var headroom := s.commitLimit - s.commitTotal;
      var canonical := DefaultPolicy(p.lane);
      var physicalFraction := CheckedBasisPoints(s.memoryTotal, Max(canonical.physicalBp, p.physicalBp), Up);
      var limitFraction := CheckedBasisPoints(s.commitLimit, Max(canonical.commitLimitBp, p.commitLimitBp), Up);
      var commitPhysicalFraction :=
        CheckedBasisPoints(s.memoryTotal, Max(canonical.commitPhysicalBp, p.commitPhysicalBp), Up);
      if physicalFraction.None? || limitFraction.None? || commitPhysicalFraction.None? then
        Rejected(ReservePolicyInvalid)
      else
        var physicalReserve := Max(Max(canonical.physicalFloor, p.physicalFloor),
                                   Max(physicalFraction.value, r.explicitPhysical));
        var commitReserve := Max(Max(Max(canonical.commitFloor, p.commitFloor), limitFraction.value),
                                 Max(commitPhysicalFraction.value, r.explicitCommit));
        EvaluatePayload(s, p, r, headroom, physicalReserve, commitReserve)
  }

  /** The second half of the source function, once both reserves are known. */
  function EvaluatePayload(s: HostSample, p: HostPolicy, r: HostRequest,
                           headroom: nat, physicalReserve: nat, commitReserve: nat): HostDecision
  {
    if s.memoryAvailable < physicalReserve then Rejected(PhysicalReserveUnavailable)
    else if headroom < commitReserve then Rejected(CommitReserveUnavailable)
    else
      var physicalPayload := s.memoryAvailable - physicalReserve;
      var commitPayload := headroom - commitReserve;
      var pinnedCap := CheckedBasisPoints(s.memoryTotal, 200, Down);
      if pinnedCap.None? then Rejected(PinnedCapOverflowed)
      else if r.pinned > Min(512 * MIB, pinnedCap.value) then Rejected(PinnedCapExceeded)
      else
        var requiredResident := CheckedAdd3(r.resident, r.residentUncertainty, r.pinned);
        if requiredResident.None? then Rejected(ResidentOverflowed)
        else
          var requiredCommit := CheckedAdd3(r.commit, r.commitUncertainty, r.pinned);
          if requiredCommit.None? then Rejected(CommitOverflowed)
          else if requiredResident.value > physicalPayload then Rejected(ResidentExceedsPayload)
          else if requiredCommit.value > commitPayload then Rejected(CommitExceedsPayload)
          else if r.promotionRequested && p.lane.DevelopmentNonPromotable? then
            Rejected(DevelopmentLaneNonPromotable)
          else
            HostDecision(HostAdmitted, p.lane.EvidencePromotable? && r.promotionRequested,
                         physicalReserve, commitReserve, requiredResident.value, requiredCommit.value)
  }

  // ----- independent statement of what admission means -----

  predicate TelemetryUsable(s: HostSample, r: HostRequest) {
    && s.available && s.captured > 0
    && 0 < r.maxAge <= MAX_TELEMETRY_AGE
    && s.captured <= r.evaluated <= s.captured + r.maxAge
    && s.commitSource == "get_performance_info"
    && 0 < s.memoryTotal && s.memoryAvailable <= s.memoryTotal
    && s.commitTotal + s.commitAvailable == s.commitLimit
  }

  /** `reserve` dominates a fixed floor and a rounded-up share of `total`. */
  predicate CoversShare(reserve: nat, floor: nat, total: nat, bp: nat) {
    floor <= reserve && total * bp <= reserve * BASIS_POINTS
  }

  /** Room for the workload above any reserve that meets the canonical floors and the overrides. */
  ghost predicate FitsAboveReserves(s: HostSample, p: HostPolicy, r: HostRequest,
                                    physicalReserve: nat, commitReserve: nat)
  {
    var c := DefaultPolicy(p.lane);
    && CoversShare(physicalReserve, Max(c.physicalFloor, p.physicalFloor), s.memoryTotal, Max(c.physicalBp, p.physicalBp))
    && CoversShare(commitReserve, Max(c.commitFloor, p.commitFloor), s.commitLimit, Max(c.commitLimitBp, p.commitLimitBp))
    && CoversShare(commitReserve, 0, s.memoryTotal, Max(c.commitPhysicalBp, p.commitPhysicalBp))
    && r.explicitPhysical <= physicalReserve && r.explicitCommit <= commitReserve
    && r.resident + r.residentUncertainty + r.pinned + physicalReserve <= s.memoryAvailable
    && r.commit + r.commitUncertainty + r.pinned + commitReserve <= s.commitAvailable
  }

  ghost predicate PolicyUsable(p: HostPolicy, r: HostRequest) {
    && !p.lane.OtherLane?
    && p.physicalBp <= BASIS_POINTS && p.commitLimitBp <= BASIS_POINTS && p.commitPhysicalBp <= BASIS_POINTS
    && !(p.lane.DevelopmentNonPromotable? && r.promotionRequested)
  }

  ghost predicate PinnedWithinCap(s: HostSample, r: HostRequest) {
    r.pinned <= 512 * MIB && r.pinned * BASIS_POINTS <= s.memoryTotal * 200
  }

  lemma CeilRatioIsLeastCover(total: nat, bp: nat, reserve: nat)
    ensures CeilRatio(total, bp) <= reserve <==> total * bp <= reserve * BASIS_POINTS
  {}

  lemma FloorRatioIsGreatestShare(total: nat, bp: nat, n: nat)
    ensures n <= FloorRatio(total, bp) <==> n * BASIS_POINTS <= total * bp
  {}

  /** The decision's own reserves satisfy the declarative statement ... */
  lemma {:induction false} HostAdmissionSound(s: HostSample, p: HostPolicy, r: HostRequest)
    requires EvaluateHost(s, p, r).Admitted()
    ensures TelemetryUsable(s, r) && PolicyUsable(p, r) && PinnedWithinCap(s, r)
    ensures var d := EvaluateHost(s, p, r);
      && FitsAboveReserves(s, p, r, d.physicalReserve, d.commitReserve)
      && d.requiredResident == r.resident + r.residentUncertainty + r.pinned
      && d.requiredCommit == r.commit + r.commitUncertainty + r.pinned
      && d.physicalReserve >= 2 * GIB && d.commitReserve >= 2 * GIB
  {
    var d, c := EvaluateHost(s, p, r), DefaultPolicy(p.lane);
    CeilRatioIsLeastCover(s.memoryTotal, Max(c.physicalBp, p.physicalBp), d.physicalReserve);
    CeilRatioIsLeastCover(s.commitLimit, Max(c.commitLimitBp, p.commitLimitBp), d.commitReserve);
    CeilRatioIsLeastCover(s.memoryTotal, Max(c.commitPhysicalBp, p.commitPhysicalBp), d.commitReserve);
    FloorRatioIsGreatestShare(s.memoryTotal, 200, r.pinned);
  }

  /** ... and admission is refused only when no reserve whatsoever could satisfy it. */
  lemma {:induction false} HostAdmissionComplete(
      s: HostSample, p: HostPolicy, r: HostRequest, physicalReserve: nat, commitReserve: nat)
    requires TelemetryUsable(s, r) && PolicyUsable(p, r) && PinnedWithinCap(s, r)
    requires FitsAboveReserves(s, p, r, physicalReserve, commitReserve)
    ensures EvaluateHost(s, p, r).Admitted()
    ensures EvaluateHost(s, p, r).physicalReserve <= physicalReserve
    ensures EvaluateHost(s, p, r).commitReserve <= commitReserve
  {
    var c := DefaultPolicy(p.lane);
    CeilRatioIsLeastCover(s.memoryTotal, Max(c.physicalBp, p.physicalBp), physicalReserve);
    CeilRatioIsLeastCover(s.commitLimit, Max(c.commitLimitBp, p.commitLimitBp), commitReserve);
    CeilRatioIsLeastCover(s.memoryTotal, Max(c.commitPhysicalBp, p.commitPhysicalBp), commitReserve);
    FloorRatioIsGreatestShare(s.memoryTotal, 200, r.pinned);
  }

  /** All that host admission asks: usable telemetry and policy, a pinned share within its cap, and
      some reserve above all floors and shares that leaves room for the workload. */
  ghost predicate HostEligible(s: HostSample, p: HostPolicy, r: HostRequest) {
    && TelemetryUsable(s, r) && PolicyUsable(p, r) && PinnedWithinCap(s, r)
    && exists physicalReserve: nat, commitReserve: nat :: FitsAboveReserves(s, p, r, physicalReserve, commitReserve)
  }

  /** Host admission admits exactly those requests. */
  lemma {:induction false} HostExactly(s: HostSample, p: HostPolicy, r: HostRequest)
    ensures EvaluateHost(s, p, r).Admitted() <==> HostEligible(s, p, r)
  {
    hide EvaluateHost, FitsAboveReserves, TelemetryUsable, PolicyUsable, PinnedWithinCap;
    if EvaluateHost(s, p, r).Admitted() {
      HostAdmissionSound(s, p, r);
    }
    if HostEligible(s, p, r) {
      var a: nat, b: nat :| FitsAboveReserves(s, p, r, a, b);
      HostAdmissionComplete(s, p, r, a, b);
    }
  }

  /** `q` asks for at least as much reserve as `p`, in the same or a stricter lane. */
  predicate Tightens(p: HostPolicy, q: HostPolicy) {
    && (q.lane == p.lane || (p.lane.DevelopmentNonPromotable? && q.lane.EvidencePromotable?))
    && p.physicalFloor <= q.physicalFloor && p.physicalBp <= q.physicalBp
    && p.commitFloor <= q.commitFloor && p.commitLimitBp <= q.commitLimitBp
    && p.commitPhysicalBp <= q.commitPhysicalBp
  }

  lemma CoversLess(reserve: nat, floor: nat, floor': nat, total: nat, bp: nat, bp': nat)
    requires floor <= floor' && bp <= bp' && CoversShare(reserve, floor', total, bp')
    ensures CoversShare(reserve, floor, total, bp)
  {
    MulMonotone(total, bp, bp');
  }

  /** Tightening turns a rejection into an admission in exactly one situation: the looser
      policy is the development lane and the caller asked for promotion. */
  lemma {:induction false} TighteningNeverAdmits(s: HostSample, p: HostPolicy, q: HostPolicy, r: HostRequest)
    requires Tightens(p, q) && EvaluateHost(s, q, r).Admitted()
    ensures EvaluateHost(s, p, r).Admitted() <==> !(p.lane.DevelopmentNonPromotable? && r.promotionRequested)
    ensures EvaluateHost(s, p, r).Admitted() ==>
      EvaluateHost(s, p, r).physicalReserve <= EvaluateHost(s, q, r).physicalReserve
      && EvaluateHost(s, p, r).commitReserve <= EvaluateHost(s, q, r).commitReserve
  {
    HostAdmissionSound(s, q, r);
    if EvaluateHost(s, p, r).Admitted() {
      HostAdmissionSound(s, p, r);
    }
    var d, c, e := EvaluateHost(s, q, r), DefaultPolicy(p.lane), DefaultPolicy(q.lane);
    CoversLess(d.physicalReserve, Max(c.physicalFloor, p.physicalFloor), Max(e.physicalFloor, q.physicalFloor),
               s.memoryTotal, Max(c.physicalBp, p.physicalBp), Max(e.physicalBp, q.physicalBp));
    CoversLess(d.commitReserve, Max(c.commitFloor, p.commitFloor), Max(e.commitFloor, q.commitFloor),
               s.commitLimit, Max(c.commitLimitBp, p.commitLimitBp), Max(e.commitLimitBp, q.commitLimitBp));
    CoversLess(d.commitReserve, 0, 0, s.memoryTotal,
               Max(c.commitPhysicalBp, p.commitPhysicalBp), Max(e.commitPhysicalBp, q.commitPhysicalBp));
    if !(p.lane.DevelopmentNonPromotable? && r.promotionRequested) {
      HostAdmissionComplete(s, p, r, d.physicalReserve, d.commitReserve);
    }
  }

  /** The situation does occur: a promotion request with ample memory is refused in the
      development lane and admitted, under the same overrides, in the evidence lane. */
  lemma StricterLaneCanAdmit() returns (s: HostSample, p: HostPolicy, q: HostPolicy, r: HostRequest)
    ensures Tightens(p, q)
    ensures EvaluateHost(s, p, r).reason.DevelopmentLaneNonPromotable?
    ensures EvaluateHost(s, q, r).Admitted()
  {
    s := HostSample(true, "get_performance_info", 1, 64 * GIB, 64 * GIB, 0, 64 * GIB, 64 * GIB);
    p := HostPolicy(DevelopmentNonPromotable, 0, 0, 0, 0, 0);
    q := p.(lane := EvidencePromotable);
    r := HostRequest(0, 0, 0, 0, 0, 0, 0, 1, 500, true);
    assert FitsAboveReserves(s, q, r, 16 * GIB, 16 * GIB);
    HostAdmissionComplete(s, q, r, 16 * GIB, 16 * GIB);
  }
}
