/** Two-stage GPU admission (src/governor/supervisor_admission.cpp): Stage A before the GPU
    context exists, Stage B after it, and the receipts they hand out. */
module SupervisorAdmission {
  import opened CheckedArithmetic
  import opened HostAdmission

  const MAX_GPU_CAP: nat := 17_179_869_184   // 16 GiB
  const RESERVE_BP: u32 := 1_000             // ten percent

  type i32 = n: int | -0x8000_0000 <= n <= 0x7FFF_FFFF
  type Digest = d: seq<u8> | |d| == 32 witness seq(32, i => 0)

  datatype Cell = Cell(
    runSequence: u64, runContract: Digest, thresholdRegistry: Digest, hardware: Digest,
    runtime: Digest, artifact: Digest, serviceProfile: Digest)

  predicate NonZero(d: Digest) { exists i :: 0 <= i < |d| && d[i] != 0 }

  predicate CellValid(c: Cell) {
    && c.runSequence != 0
    && NonZero(c.runContract) && NonZero(c.thresholdRegistry) && NonZero(c.hardware)
    && NonZero(c.runtime) && NonZero(c.artifact) && NonZero(c.serviceProfile)
  }

  datatype Luid = Luid(high: i32, low: u32)

  datatype Timing = Timing(
    samplePeriod: u64, heartbeatPeriod: u64, guardAge: u64, cancelAck: u64,
    workerExit: u64, cleanup: u64, dispatchBound: u64, retryCount: u32)

  datatype Provenance = Unavailable | ApprovedArtifactCensus | PinnedRuntimeEstimate | ExactZero

  datatype Predicted = Predicted(bytes: Option<u64>, provenance: Provenance)

  datatype Footprint = Footprint(
    contextRuntime: Predicted, backend: Predicted, model: Predicted,
    state: Predicted, workspace: Predicted, fragmentation: Predicted)

  datatype GpuSample = GpuSample(
    available: bool, identityAvailable: bool, luid: Luid, captured: u64,
    physical: u64, budget: u64, usage: u64)

  datatype Thermal = Thermal(
    available: bool, captured: u64, current: i32, target: Option<i32>, slowdown: Option<i32>,
    throttling: bool, powerBrake: bool)

  datatype Storage = Storage(available: bool, free: u64, reserve: u64, required: u64)

  datatype OwnedGpu = OwnedGpu(
    available: bool, captured: u64, reconciled: bool, corroborated: bool, source: string,
    processId: u32, processCaptured: u64, processCurrent: u64, identityAvailable: bool, luid: Luid,
    hardCap: u64, current: u64, peak: u64,
    backendBuffer: u64, backendPool: u64, kernelWorkspace: u64, activation: u64, kv: u64,
    graph: u64, profilerWorkspace: u64, contextRuntime: u64,
    cudaFree: u64, cudaTotal: u64, unreconciled: u64)

  datatype PreRequest = PreRequest(
    ceiling: u64, tier: u64, contextTokens: u64, runDeadline: u64, evaluated: u64,
    leaseHeld: bool, competingWork: bool, timing: Timing, predicted: Footprint,
    gpu: GpuSample, thermal: Thermal, storage: Storage,
    host: HostSample, hostPolicy: HostPolicy, hostRequest: HostRequest, cell: Cell)

  datatype PreReceipt = PreReceipt(
    ceiling: u64, tier: u64, timing: Timing, luid: Luid, predictedPeak: u64,
    reserve: u64, cap: u64, started: u64, deadline: u64,
    hostPolicy: HostPolicy, hostRequest: HostRequest, warning: i32, stop: i32, cell: Cell)

  datatype PreReason =
    | CellInvalid | CeilingInvalid | TierInvalid | ContextTokensInvalid | RunDeadlineInvalid
    | RunDeadlineOverflowed | TimingInvalid | LeaseNotHeld | CompetingWork | PredictionIncomplete
    | PredictionOverflowed | GpuTelemetryInvalid | ReserveOverflowed | PeakExceedsCap
    | ThermalTelemetryInvalid | ThermalBoundsInvalid | ThermalUnsafe | StorageUnavailable
    | StorageReserveUnavailable | StoragePayloadExceeded | HostRejected

  datatype PreDecision = PreRejected(reason: PreReason) | PreAdmitted(receipt: PreReceipt)

  datatype PostRequest = PostRequest(
    pre: Option<PreReceipt>, ceiling: u64, tier: u64, evaluated: u64, timing: Timing,
    gpu: GpuSample, thermal: Thermal, owned: OwnedGpu,
    host: HostSample, hostPolicy: HostPolicy, hostRequest: HostRequest, cell: Cell)

  datatype PostReceipt = PostReceipt(
    id: u64, ceiling: u64, tier: u64, timing: Timing, luid: Luid, predictedPeak: u64,
    reserve: u64, cap: u64, evaluated: u64, started: u64, deadline: u64,
    hostPolicy: HostPolicy, hostRequest: HostRequest, warning: i32, stop: i32, cell: Cell)

  datatype PostReason =
    | PostCellInvalid | PostCeilingInvalid | PreReceiptMissing | PreReceiptCellMismatched
    | PreReceiptMismatched | PostGpuTelemetryInvalid | OwnedEvidenceInvalid | LiveCapacityContradictory
    | PostReserveOverflowed | PostPeakExceedsCap | PostThermalTelemetryInvalid | PostThermalUnsafe
    | PostHostRejected | ReceiptSequenceExhausted

  datatype PostDecision = PostRejected(reason: PostReason) | PostAdmitted(receipt: PostReceipt)

  // ----- shared guards -----

  predicate HardCapAccepted(cap: nat) { 0 < cap <= MAX_GPU_CAP }

  predicate Bounded(value: nat, maximum: nat) { 0 < value <= maximum }

  predicate TimingAdmitted(t: Timing) {
    && Bounded(t.samplePeriod, 100) && Bounded(t.heartbeatPeriod, 250) && Bounded(t.guardAge, 500)
    && Bounded(t.cancelAck, 500) && Bounded(t.workerExit, 2_000) && Bounded(t.cleanup, 5_000)
    && Bounded(t.dispatchBound, 500)
    && t.samplePeriod <= t.guardAge && t.heartbeatPeriod <= t.guardAge
    && t.cancelAck <= t.workerExit <= t.cleanup
    && t.retryCount == 0
  }

  predicate SampleFresh(captured: nat, evaluated: nat, maxAge: nat) {
    captured > 0 && evaluated > 0 && evaluated >= captured && evaluated - captured <= maxAge
  }

  predicate TemperatureValid(t: int) { -100 <= t <= 200 }

  function MinInt(a: int, b: int): int { if a < b then a else b }

  /** The bounds an adapter's own limits leave below 78 and 82 degrees. */
  function WarningBound(t: Thermal): int {
    if t.target.Some? then MinInt(78, t.target.value - 8) else 78
  }

  function StopBound(t: Thermal): int {
    var byTarget := if t.target.Some? then MinInt(82, t.target.value - 5) else 82;
    if t.slowdown.Some? then MinInt(byTarget, t.slowdown.value - 5) else byTarget
  }

  predicate ThermalReadable(t: Thermal, evaluated: nat, maxAge: nat) {
    && t.available && SampleFresh(t.captured, evaluated, maxAge) && TemperatureValid(t.current)
    && (t.target.Some? ==> TemperatureValid(t.target.value))
    && (t.slowdown.Some? ==> TemperatureValid(t.slowdown.value))
  }

  predicate ThermalBoundsOrdered(t: Thermal) {
    0 < WarningBound(t) < StopBound(t)
  }

  predicate ThermalSafe(t: Thermal) {
    ThermalBoundsOrdered(t) && !t.throttling && !t.powerBrake && t.current < WarningBound(t)
  }

  predicate PredictionValid(p: Predicted) {
    p.bytes.Some? && !p.provenance.Unavailable? && (p.provenance.ExactZero? ==> p.bytes.value == 0)
  }

  predicate PredictionComplete(f: Footprint) {
    && PredictionValid(f.contextRuntime) && PredictionValid(f.backend) && PredictionValid(f.model)
    && PredictionValid(f.state) && PredictionValid(f.workspace) && PredictionValid(f.fragmentation)
    && f.contextRuntime.bytes.value > 0
  }

  function PredictedPeak(f: Footprint): (r: Option<u64>)
    requires PredictionComplete(f)
    ensures r.Some? ==> r.value > 0
    ensures var total := f.contextRuntime.bytes.value + f.backend.bytes.value + f.model.bytes.value
                         + f.state.bytes.value + f.workspace.bytes.value + f.fragmentation.bytes.value;
      r == if total <= U64_MAX then Some(total) else None
  {
    var three := CheckedAdd3(f.contextRuntime.bytes.value, f.backend.bytes.value, f.model.bytes.value);
    if three.None? then None else
    var five := CheckedAdd3(three.value, f.state.bytes.value, f.workspace.bytes.value);
    if five.None? then None else CheckedAdd(five.value, f.fragmentation.bytes.value)
  }

  predicate GpuSampleUsable(g: GpuSample, evaluated: nat, maxAge: nat) {
    && g.available && g.identityAvailable && SampleFresh(g.captured, evaluated, maxAge)
    && g.physical > 0 && g.budget > 0 && g.usage <= g.budget
  }

  function SaturatingSub(a: nat, b: nat): nat { if a > b then a - b else 0 }

  // ----- Stage A -----

  function PreLive(g: GpuSample): nat { Min(g.physical, g.budget) }

  function PreReserve(g: GpuSample): nat { Max(GIB, CeilRatio(PreLive(g), RESERVE_BP)) }

  function PreCap(r: PreRequest): nat {
    var reserve := PreReserve(r.gpu);
    Min(r.tier, Min(SaturatingSub(Min(r.ceiling, PreLive(r.gpu)), reserve),
                    SaturatingSub(r.gpu.budget - Min(r.gpu.usage, r.gpu.budget), reserve)))
  }

  function EvaluatePre(r: PreRequest): (d: PreDecision) {
    if !CellValid(r.cell) then PreRejected(CellInvalid)
    else if !HardCapAccepted(r.ceiling) then PreRejected(CeilingInvalid)
    else if r.tier == 0 || r.tier > r.ceiling then PreRejected(TierInvalid)
    else if r.contextTokens > U32_MAX || r.contextTokens == 0 then PreRejected(ContextTokensInvalid)
    else if r.runDeadline > U32_MAX || r.runDeadline == 0 then PreRejected(RunDeadlineInvalid)
    else
      var deadline := CheckedAdd(r.evaluated, r.runDeadline);
      if r.evaluated == 0 || deadline.None? || deadline.value <= r.evaluated then PreRejected(RunDeadlineOverflowed)
      else if !TimingAdmitted(r.timing) then PreRejected(TimingInvalid)
      else if !r.leaseHeld then PreRejected(LeaseNotHeld)
      else if r.competingWork then PreRejected(CompetingWork)
      else if !PredictionComplete(r.predicted) then PreRejected(PredictionIncomplete)
      else
        var peak := PredictedPeak(r.predicted);
        if peak.None? then PreRejected(PredictionOverflowed)
        else if !GpuSampleUsable(r.gpu, r.evaluated, r.timing.guardAge) then PreRejected(GpuTelemetryInvalid)
        else EvaluatePreCapacity(r, deadline.value, peak.value)
  }

  function EvaluatePreCapacity(r: PreRequest, deadline: u64, peak: u64): (d: PreDecision) {
    var fractional := CheckedBasisPoints(PreLive(r.gpu), RESERVE_BP, Up);
    if fractional.None? then PreRejected(ReserveOverflowed)
    else
      var reserve := Max(GIB, fractional.value);
      if peak > PreCap(r) then PreRejected(PeakExceedsCap)
      else if !ThermalReadable(r.thermal, r.evaluated, r.timing.guardAge) then PreRejected(ThermalTelemetryInvalid)
      else if !ThermalBoundsOrdered(r.thermal) then PreRejected(ThermalBoundsInvalid)
      else if !ThermalSafe(r.thermal) then PreRejected(ThermalUnsafe)
      else if !r.storage.available then PreRejected(StorageUnavailable)
      else if r.storage.free < r.storage.reserve then PreRejected(StorageReserveUnavailable)
      else if r.storage.required > r.storage.free - r.storage.reserve then PreRejected(StoragePayloadExceeded)
      else
        var hostRequest := r.hostRequest.(evaluated := r.evaluated, maxAge := r.timing.guardAge);
        if !EvaluateHost(r.host, r.hostPolicy, hostRequest).Admitted() then PreRejected(HostRejected)
        else
          PreAdmitted(PreReceipt(r.ceiling, r.tier, r.timing, r.gpu.luid, peak, reserve, PreCap(r),
                                 r.evaluated, deadline, r.hostPolicy, hostRequest,
                                 WarningBound(r.thermal), StopBound(r.thermal), r.cell))
  }

  /** What every Stage A receipt satisfies, whatever the request was. */
  predicate PreReceiptWellFormed(p: PreReceipt) {
    && 0 < p.predictedPeak <= p.cap <= p.tier <= p.ceiling <= MAX_GPU_CAP
    && GIB <= p.reserve && TimingAdmitted(p.timing)
    && 0 < p.started < p.deadline && CellValid(p.cell)
    && 0 < p.warning < p.stop <= 82
  }

  /** `cap` plus `reserve` fits under the ceiling, the device and the unused budget. */
  predicate CapLeavesReserve(cap: nat, reserve: nat, ceiling: nat, g: GpuSample) {
    && cap + reserve <= ceiling && cap + reserve <= g.physical
    && cap + reserve <= g.budget && g.usage + cap + reserve <= g.budget
    && PreLive(g) * RESERVE_BP <= reserve * BASIS_POINTS
  }

  lemma {:induction false} StageAReceiptSound(r: PreRequest)
    requires EvaluatePre(r).PreAdmitted?
    ensures var p := EvaluatePre(r).receipt;
      && PreReceiptWellFormed(p)
      && CapLeavesReserve(p.cap, p.reserve, r.ceiling, r.gpu)
      && p.ceiling == r.ceiling && p.tier == r.tier && p.luid == r.gpu.luid && p.cell == r.cell
      && p.timing == r.timing && r.leaseHeld && !r.competingWork
      && p.started == r.evaluated && p.deadline == r.evaluated + r.runDeadline
      && EvaluateHost(r.host, p.hostPolicy, p.hostRequest).Admitted()
  {
    CeilRatioIsLeastCover(PreLive(r.gpu), RESERVE_BP, EvaluatePre(r).receipt.reserve);
  }

  /** The capacity test is the closed inequality, for every positive peak. */
  lemma {:induction false} StageACapacityExact(r: PreRequest, peak: nat)
    requires peak > 0 && r.gpu.usage <= r.gpu.budget
    ensures peak <= PreCap(r) <==>
      peak <= r.tier && CapLeavesReserve(peak, PreReserve(r.gpu), r.ceiling, r.gpu)
  {
    CeilRatioIsLeastCover(PreLive(r.gpu), RESERVE_BP, PreReserve(r.gpu));
  }

  /** All that Stage A asks, as inequalities over the unbounded integers. */
  ghost predicate StageAEligible(r: PreRequest) {
    && CellValid(r.cell) && 0 < r.tier <= r.ceiling <= MAX_GPU_CAP
    && 0 < r.contextTokens <= U32_MAX && 0 < r.runDeadline <= U32_MAX
    && 0 < r.evaluated && r.evaluated + r.runDeadline <= U64_MAX && TimingAdmitted(r.timing)
    && r.leaseHeld && !r.competingWork
    && GpuSampleUsable(r.gpu, r.evaluated, r.timing.guardAge)
    && PredictionComplete(r.predicted) && PredictedPeak(r.predicted).Some?
    && PredictedPeak(r.predicted).value <= r.tier
    && CapLeavesReserve(PredictedPeak(r.predicted).value, PreReserve(r.gpu), r.ceiling, r.gpu)
    && ThermalReadable(r.thermal, r.evaluated, r.timing.guardAge) && ThermalSafe(r.thermal)
    && r.storage.available && r.storage.reserve + r.storage.required <= r.storage.free
    && HostEligible(r.host, r.hostPolicy, r.hostRequest.(evaluated := r.evaluated, maxAge := r.timing.guardAge))
  }

  /** Stage A admits exactly those requests: no guard is missing and none is too many. */
  lemma {:induction false} StageAExactly(r: PreRequest)
    ensures EvaluatePre(r).PreAdmitted? <==> StageAEligible(r)
  {
    HostExactly(r.host, r.hostPolicy, r.hostRequest.(evaluated := r.evaluated, maxAge := r.timing.guardAge));
    hide EvaluateHost, HostEligible, CellValid, TimingAdmitted, CeilRatio;
    if PredictionComplete(r.predicted) && PredictedPeak(r.predicted).Some? && r.gpu.usage <= r.gpu.budget {
      StageACapacityExact(r, PredictedPeak(r.predicted).value);
    }
  }

  /** `h` reports at least as much of everything as `g`. */
  predicate AtLeastAsRoomy(g: GpuSample, h: GpuSample) {
    g.physical <= h.physical && g.budget <= h.budget && g.usage <= g.budget && h.usage <= h.budget
    && g.budget - g.usage <= h.budget - h.usage
  }

  lemma LiveAfterReserveMonotone(a: nat, b: nat)
    requires a <= b
    ensures SaturatingSub(a, Max(GIB, CeilRatio(a, RESERVE_BP))) <= SaturatingSub(b, Max(GIB, CeilRatio(b, RESERVE_BP)))
  {}

  /** Roomier telemetry keeps an admission exactly while the larger ten-percent reserve still fits
      under the ceiling and in the unused budget: the reserve grows with the device, these need not. */
  lemma {:induction false} RoomierTelemetryKeepsCapacity(r: PreRequest, h: GpuSample, peak: nat)
    requires peak > 0 && AtLeastAsRoomy(r.gpu, h) && peak <= PreCap(r)
    ensures peak <= PreCap(r.(gpu := h)) <==>
      peak + PreReserve(h) <= r.ceiling && h.usage + peak + PreReserve(h) <= h.budget
  {
    LiveAfterReserveMonotone(PreLive(r.gpu), PreLive(h));
  }

  /** The same for Stage A as a whole: with roomier telemetry of the same adapter an admitted request
      stays admitted exactly then, and is otherwise refused for its peak. */
  lemma {:induction false} RoomierTelemetryKeepsAdmission(r: PreRequest, h: GpuSample)
    requires EvaluatePre(r).PreAdmitted? && AtLeastAsRoomy(r.gpu, h)
    requires h.available && h.identityAvailable && h.captured == r.gpu.captured
    ensures PredictionComplete(r.predicted) && PredictedPeak(r.predicted).Some?
    ensures var peak := PredictedPeak(r.predicted).value;
      && (EvaluatePre(r.(gpu := h)).PreAdmitted? <==>
            peak + PreReserve(h) <= r.ceiling && h.usage + peak + PreReserve(h) <= h.budget)
      && (!EvaluatePre(r.(gpu := h)).PreAdmitted? ==> EvaluatePre(r.(gpu := h)) == PreRejected(PeakExceedsCap))
  {
    hide EvaluateHost, CellValid, TimingAdmitted, CeilRatio, ThermalReadable, ThermalSafe;
    RoomierTelemetryKeepsCapacity(r, h, PredictedPeak(r.predicted).value);
  }

  // ----- Stage B -----

  function Categories(o: OwnedGpu): (c: seq<u64>) {
    [o.backendBuffer, o.backendPool, o.kernelWorkspace, o.activation, o.kv, o.graph,
     o.profilerWorkspace, o.contextRuntime]
  }

  function Sum(c: seq<u64>): nat {
    if c == [] then 0 else Sum(c[..|c| - 1]) + c[|c| - 1]
  }

  function ReconciledOwned(o: OwnedGpu): Option<u64> {
    var total := Sum(Categories(o));
    if total <= U64_MAX then Some(total) else None
  }

  lemma {:induction false} SumPrefix(c: seq<u64>, i: nat)
    requires i <= |c|
    ensures Sum(c[..i]) <= Sum(c)
  {
    if i == |c| {
      assert c[..i] == c;
    } else {
      assert c[..|c| - 1][..i] == c[..i];
      SumPrefix(c[..|c| - 1], i);
    }
  }

  /** reconcile_owned_current / reconciled_owned_current: giving up at the first overflowing
      partial sum loses nothing, because a partial sum never exceeds the whole. */
  method ReconcileOwnedCurrent(o: OwnedGpu) returns (total: Option<u64>)
    ensures total == ReconciledOwned(o)
  {
    var categories := Categories(o);
    total := Some(0);
    var i := 0;
    while i < |categories|
      invariant 0 <= i <= |categories|
      invariant total.Some? && total.value == Sum(categories[..i])
    {
      total := CheckedAdd(total.value, categories[i]);
      assert categories[..i + 1][..i] == categories[..i];
      if total.None? {
        SumPrefix(categories, i + 1);
        return None;
      }
      i := i + 1;
    }
    assert categories[..i] == categories;
  }

  predicate SameWorkload(a: HostRequest, b: HostRequest) {
    b == a.(evaluated := b.evaluated, maxAge := b.maxAge)
  }

  /** The clauses of Stage B about the Stage A receipt alone, restated from the source. */
  predicate PreReceiptAcceptable(p: PreReceipt) {
    && p.reserve >= GIB && p.cap != 0 && p.cap <= p.tier && p.tier <= p.ceiling && p.predictedPeak <= p.cap
  }

  predicate MatchesPre(r: PostRequest, p: PreReceipt) {
    && r.ceiling == p.ceiling && r.tier == p.tier && r.timing == p.timing && r.hostPolicy == p.hostPolicy
    && SameWorkload(r.hostRequest, p.hostRequest)
    && p.started <= r.evaluated < p.deadline
  }

  predicate SourceAccepted(source: string) { source == "nvml-process" || source == "wddm-process" }

  /** Evidence clauses shared by Stage B and the watchdog. */
  predicate OwnedConsistent(o: OwnedGpu, g: GpuSample, cap: nat) {
    && o.available && o.reconciled && o.corroborated && SourceAccepted(o.source) && o.processId != 0
    && o.processCaptured == o.captured && o.processCurrent == o.current && o.identityAvailable
    && o.unreconciled == 0 && ReconciledOwned(o) == Some(o.current) && o.contextRuntime != 0
    && o.current <= o.peak && o.hardCap == cap && o.peak <= cap
    && o.cudaTotal != 0 && o.cudaFree <= o.cudaTotal && g.usage >= o.current
  }

  predicate OnlyContextOwned(o: OwnedGpu) {
    && o.backendBuffer == 0 && o.backendPool == 0 && o.kernelWorkspace == 0 && o.activation == 0
    && o.kv == 0 && o.graph == 0 && o.profilerWorkspace == 0
  }

  /** Capacity the run could reach: what it owns plus what is still free, by each source. */
  function LiveCapacity(g: GpuSample, o: OwnedGpu): nat
    requires g.usage <= g.budget
  {
    Min(Min(g.physical, g.budget), Min(o.current + o.cudaFree, o.current + (g.budget - g.usage)))
  }

  function PostReserve(p: PreReceipt, live: nat): nat {
    Max(Max(p.reserve, GIB), CeilRatio(live, RESERVE_BP))
  }

  function PostCap(p: PreReceipt, r: PostRequest, live: nat): nat {
    Min(Min(p.cap, r.tier), SaturatingSub(Min(r.ceiling, live), PostReserve(p, live)))
  }

  /** evaluate_post_context_admission; `sequence` is the process-wide receipt counter. */
  function EvaluatePost(r: PostRequest, sequence: u64): (d: PostDecision) {
    if !CellValid(r.cell) then PostRejected(PostCellInvalid)
    else if !HardCapAccepted(r.ceiling) then PostRejected(PostCeilingInvalid)
    else if r.pre.None? then PostRejected(PreReceiptMissing)
    else if r.pre.value.cell != r.cell then PostRejected(PreReceiptCellMismatched)
    else if !MatchesPre(r, r.pre.value) || !PreReceiptAcceptable(r.pre.value) then PostRejected(PreReceiptMismatched)
    else if !GpuSampleUsable(r.gpu, r.evaluated, r.timing.guardAge) || r.gpu.luid != r.pre.value.luid then
      PostRejected(PostGpuTelemetryInvalid)
    else if !OwnedConsistent(r.owned, r.gpu, r.pre.value.cap) || !OnlyContextOwned(r.owned)
            || !SampleFresh(r.owned.captured, r.evaluated, r.timing.guardAge) || r.owned.luid != r.gpu.luid then
      PostRejected(OwnedEvidenceInvalid)
    else
      var cuda := CheckedAdd(r.owned.current, r.owned.cudaFree);
      var dxgi := CheckedAdd(r.owned.current, r.gpu.budget - r.gpu.usage);
      if cuda.None? || dxgi.None? || cuda.value > r.owned.cudaTotal then PostRejected(LiveCapacityContradictory)
      else EvaluatePostCapacity(r, r.pre.value, LiveCapacity(r.gpu, r.owned), sequence)
  }

  function EvaluatePostCapacity(r: PostRequest, p: PreReceipt, live: u64, sequence: u64): (d: PostDecision) {
    var fractional := CheckedBasisPoints(live, RESERVE_BP, Up);
    if fractional.None? then PostRejected(PostReserveOverflowed)
    else
      var reserve := Max(Max(p.reserve, GIB), fractional.value);
      var cap := PostCap(p, r, live);
      if r.owned.current > cap || p.predictedPeak > cap then PostRejected(PostPeakExceedsCap)
      else if !ThermalReadable(r.thermal, r.evaluated, r.timing.guardAge) then PostRejected(PostThermalTelemetryInvalid)
      else if WarningBound(r.thermal) > p.warning || StopBound(r.thermal) > p.stop || !ThermalSafe(r.thermal) then
        PostRejected(PostThermalUnsafe)
      else
        var hostRequest := r.hostRequest.(evaluated := r.evaluated, maxAge := r.timing.guardAge);
        if !EvaluateHost(r.host, r.hostPolicy, hostRequest).Admitted() then PostRejected(PostHostRejected)
        else if sequence == 0 || sequence == U64_MAX then PostRejected(ReceiptSequenceExhausted)
        else
          PostAdmitted(PostReceipt(sequence, r.ceiling, r.tier, r.timing, r.gpu.luid, p.predictedPeak, reserve, cap,
                                   r.evaluated, p.started, p.deadline, p.hostPolicy, p.hostRequest,
                                   p.warning, p.stop, r.cell))
  }

  predicate PostReceiptWellFormed(q: PostReceipt) {
    && q.id != 0
    && 0 < q.predictedPeak <= q.cap <= q.tier <= q.ceiling <= MAX_GPU_CAP
    && GIB <= q.reserve && TimingAdmitted(q.timing) && CellValid(q.cell)
    && 0 < q.started <= q.evaluated < q.deadline
    && 0 < q.warning < q.stop <= 82
  }

  /** How a Stage B receipt relates to the Stage A receipt it was made from: caps only shrink,
      reserves only grow, everything else is carried over. */
  predicate Refines(p: PreReceipt, q: PostReceipt) {
    && q.cap <= p.cap && p.reserve <= q.reserve
    && q.ceiling == p.ceiling && q.tier == p.tier && q.timing == p.timing && q.luid == p.luid
    && q.predictedPeak == p.predictedPeak && q.started == p.started && q.deadline == p.deadline
    && q.hostPolicy == p.hostPolicy && q.hostRequest == p.hostRequest && q.cell == p.cell
    && q.warning == p.warning && q.stop == p.stop
  }

  /** Free memory, by both sources, covers the reserve plus all growth up to `bound`. */
  predicate HeadroomCovers(g: GpuSample, o: OwnedGpu, reserve: nat, bound: nat) {
    && o.current + o.cudaFree >= reserve + bound && o.cudaFree >= reserve
    && g.usage <= g.budget
    && o.current + (g.budget - g.usage) >= reserve + bound && g.budget - g.usage >= reserve
  }

  /** A receipt made by Stage A always passes Stage B's clauses about receipts. */
  lemma StageAReceiptAcceptable(r: PreRequest)
    requires EvaluatePre(r).PreAdmitted?
    ensures PreReceiptAcceptable(EvaluatePre(r).receipt)
  {
    StageAReceiptSound(r);
  }

  lemma {:induction false} StageBReceiptSound(r: PostRequest, sequence: u64)
    requires r.pre.Some? && PreReceiptWellFormed(r.pre.value)
    requires EvaluatePost(r, sequence).PostAdmitted?
    ensures var p, q := r.pre.value, EvaluatePost(r, sequence).receipt;
      && PostReceiptWellFormed(q) && Refines(p, q) && q.id == sequence < U64_MAX
      && q.evaluated == r.evaluated && r.owned.current <= q.cap
      && HeadroomCovers(r.gpu, r.owned, q.reserve, q.cap)
      && LiveCapacity(r.gpu, r.owned) * RESERVE_BP <= q.reserve * BASIS_POINTS
  {
    var live := LiveCapacity(r.gpu, r.owned);
    CeilRatioIsLeastCover(live, RESERVE_BP, EvaluatePost(r, sequence).receipt.reserve);
  }

  /** Stage B's capacity test is the closed inequality. */
  lemma {:induction false} StageBCapacityExact(p: PreReceipt, r: PostRequest, live: nat, bytes: nat)
    requires bytes > 0
    ensures bytes <= PostCap(p, r, live) <==>
      && bytes <= p.cap && bytes <= r.tier
      && bytes + PostReserve(p, live) <= r.ceiling && bytes + PostReserve(p, live) <= live
  {}

  /** `bytes` may be used: within the admitted cap and tier, and above the reserve both under the
      ceiling and in what is live. */
  predicate FitsLive(bytes: nat, p: PreReceipt, r: PostRequest, live: nat) {
    bytes == 0 || (&& bytes <= p.cap && bytes <= r.tier
                   && bytes + PostReserve(p, live) <= r.ceiling && bytes + PostReserve(p, live) <= live)
  }

  /** All that Stage B asks, as inequalities over the unbounded integers. */
  ghost predicate StageBEligible(r: PostRequest, sequence: u64) {
    && CellValid(r.cell) && HardCapAccepted(r.ceiling) && r.pre.Some? && 0 < sequence < U64_MAX
    && var p, o := r.pre.value, r.owned;
       && p.cell == r.cell && MatchesPre(r, p) && PreReceiptAcceptable(p)
       && GpuSampleUsable(r.gpu, r.evaluated, r.timing.guardAge)
       && r.gpu.luid == p.luid == o.luid && OwnedConsistent(o, r.gpu, p.cap) && OnlyContextOwned(o)
       && SampleFresh(o.captured, r.evaluated, r.timing.guardAge)
       && o.current + o.cudaFree <= o.cudaTotal && o.current + (r.gpu.budget - r.gpu.usage) <= U64_MAX
       && FitsLive(o.current, p, r, LiveCapacity(r.gpu, o)) && FitsLive(p.predictedPeak, p, r, LiveCapacity(r.gpu, o))
       && ThermalReadable(r.thermal, r.evaluated, r.timing.guardAge) && ThermalSafe(r.thermal)
       && WarningBound(r.thermal) <= p.warning && StopBound(r.thermal) <= p.stop
       && HostEligible(r.host, r.hostPolicy, r.hostRequest.(evaluated := r.evaluated, maxAge := r.timing.guardAge))
  }

  /** Stage B admits exactly those requests. */
  lemma {:induction false} StageBExactly(r: PostRequest, sequence: u64)
    ensures EvaluatePost(r, sequence).PostAdmitted? <==> StageBEligible(r, sequence)
  {
    HostExactly(r.host, r.hostPolicy, r.hostRequest.(evaluated := r.evaluated, maxAge := r.timing.guardAge));
    hide EvaluateHost, HostEligible, CellValid, CeilRatio, ReconciledOwned, SourceAccepted;
  }

  /** The room above Stage B's reserve grows with the live capacity. */
  lemma PostRoomGrows(p: PreReceipt, a: nat, b: nat, bytes: nat)
    requires a <= b && bytes + PostReserve(p, a) <= a
    ensures bytes + PostReserve(p, b) <= b
  {}

  lemma OwnedIsPositive(o: OwnedGpu)
    requires ReconciledOwned(o) == Some(o.current) && o.contextRuntime != 0
    ensures o.current > 0
  {
    var c := Categories(o);
    assert Sum(c) == Sum(c[..7]) + c[7];
  }

  /** The capacity test on a larger live capacity: only the ceiling can refuse. */
  lemma PostCapacityOn(p: PreReceipt, r: PostRequest, a: nat, b: nat, current: nat)
    requires a <= b && 0 < current <= PostCap(p, r, a) && p.predictedPeak <= PostCap(p, r, a)
    ensures current <= PostCap(p, r, b) && p.predictedPeak <= PostCap(p, r, b) <==>
      current + PostReserve(p, b) <= r.ceiling && p.predictedPeak + PostReserve(p, b) <= r.ceiling
  {
    StageBCapacityExact(p, r, b, current);
    PostRoomGrows(p, a, b, current);
    if p.predictedPeak > 0 {
      StageBCapacityExact(p, r, b, p.predictedPeak);
      PostRoomGrows(p, a, b, p.predictedPeak);
    }
  }

  /** Up to the capacity test, roomier telemetry is refused only for showing too little use. */
  lemma RoomierReachesCapacity(r: PostRequest, h: GpuSample, sequence: u64)
    requires EvaluatePost(r, sequence).PostAdmitted? && AtLeastAsRoomy(r.gpu, h)
    requires h.luid == r.gpu.luid && h.available && h.identityAvailable && h.captured == r.gpu.captured
    ensures r.pre.Some? && r.owned.current > 0 && LiveCapacity(r.gpu, r.owned) <= LiveCapacity(h, r.owned) <= U64_MAX
    ensures EvaluatePostCapacity(r, r.pre.value, LiveCapacity(r.gpu, r.owned), sequence).PostAdmitted?
    ensures EvaluatePost(r.(gpu := h), sequence) ==
      if r.owned.current > h.usage then PostRejected(OwnedEvidenceInvalid)
      else EvaluatePostCapacity(r.(gpu := h), r.pre.value, LiveCapacity(h, r.owned), sequence)
  {
    OwnedIsPositive(r.owned);
    hide EvaluatePostCapacity, CellValid, ReconciledOwned, SourceAccepted;
  }

  /** The capacity test and what follows it, on a larger live capacity. */
  lemma RoomierCapacity(r: PostRequest, h: GpuSample, p: PreReceipt, a: u64, b: u64, sequence: u64)
    requires EvaluatePostCapacity(r, p, a, sequence).PostAdmitted?
    ensures var d := EvaluatePostCapacity(r.(gpu := h), p, b, sequence);
      && r.owned.current <= PostCap(p, r, a) && p.predictedPeak <= PostCap(p, r, a)
      && PostCap(p, r.(gpu := h), b) == PostCap(p, r, b)
      && (d.PostAdmitted? <==> r.owned.current <= PostCap(p, r, b) && p.predictedPeak <= PostCap(p, r, b))
      && (!d.PostAdmitted? ==> d == PostRejected(PostPeakExceedsCap))
  {
    hide EvaluateHost, CeilRatio, ThermalReadable, ThermalSafe;
  }

  /** With roomier telemetry of the same adapter an admitted follow-up stays admitted if and only if
      that telemetry shows at least the use the worker owns, and the larger reserve still fits under the
      ceiling; otherwise it is refused for exactly that. */
  lemma {:induction false} RoomierTelemetryKeepsStageB(r: PostRequest, h: GpuSample, sequence: u64)
    requires EvaluatePost(r, sequence).PostAdmitted? && AtLeastAsRoomy(r.gpu, h)
    requires h.luid == r.gpu.luid && h.available && h.identityAvailable && h.captured == r.gpu.captured
    ensures r.pre.Some?
    ensures var d, reserve := EvaluatePost(r.(gpu := h), sequence), PostReserve(r.pre.value, LiveCapacity(h, r.owned));
      && (d.PostAdmitted? <==>
            && r.owned.current <= h.usage
            && r.owned.current + reserve <= r.ceiling && r.pre.value.predictedPeak + reserve <= r.ceiling)
      && (r.owned.current > h.usage ==> d == PostRejected(OwnedEvidenceInvalid))
      && (!d.PostAdmitted? && r.owned.current <= h.usage ==> d == PostRejected(PostPeakExceedsCap))
  {
    hide EvaluatePost, EvaluatePostCapacity, PostCap, PostReserve, LiveCapacity;
    RoomierReachesCapacity(r, h, sequence);
    var p, a, b := r.pre.value, LiveCapacity(r.gpu, r.owned), LiveCapacity(h, r.owned);
    RoomierCapacity(r, h, p, a, b, sequence);
    PostCapacityOn(p, r, a, b, r.owned.current);
  }
}
