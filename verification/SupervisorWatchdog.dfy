/** The per-heartbeat watchdog (src/governor/supervisor_watchdog.cpp). */
module SupervisorWatchdog {
  import opened CheckedArithmetic
  import opened HostAdmission
  import opened SupervisorAdmission

  datatype WatchdogReason =
    | Continue | WorkerUnavailable | ContextFatal | DeadlineReached | HeartbeatInvalid | GpuTelemetryStale
    | AdapterMismatch | OwnedEvidence | LiveCapacityOverflow | CapBreached | ThermalTelemetryStale
    | ThermalStop | HostReserveBreached

  datatype WatchdogSample = WatchdogSample(
    evaluated: u64, deadline: u64, heartbeat: u64, workerAlive: bool, contextFatal: bool,
    gpu: GpuSample, owned: OwnedGpu, thermal: Thermal, host: HostSample)

  datatype WatchdogDecision = WatchdogDecision(reason: WatchdogReason, cap: nat)
  {
    predicate ContinueWork() { reason.Continue? }
  }

  predicate Fresh(captured: nat, evaluated: nat, maxAge: nat) {
    captured != 0 && evaluated >= captured && evaluated - captured <= maxAge
  }

  /** Stricter than admission: the end points -100 and 200 are out. */
  predicate WatchdogTemperatureValid(t: int) { -100 < t < 200 }

  predicate ThermalLegible(t: Thermal) {
    && WatchdogTemperatureValid(t.current)
    && (t.target.Some? ==> WatchdogTemperatureValid(t.target.value))
    && (t.slowdown.Some? ==> WatchdogTemperatureValid(t.slowdown.value))
    && ThermalBoundsOrdered(t)
  }

  function WatchdogCap(q: PostReceipt, live: nat): nat {
    Min(q.cap, SaturatingSub(Min(q.ceiling, live), q.reserve))
  }

  function EvaluateWatchdog(q: PostReceipt, s: WatchdogSample): (d: WatchdogDecision) {
    var maxAge := q.timing.guardAge;
    if !s.workerAlive then WatchdogDecision(WorkerUnavailable, 0)
    else if s.contextFatal then WatchdogDecision(ContextFatal, 0)
    else if s.evaluated == 0 || s.deadline == 0 || s.deadline != q.deadline || s.evaluated >= s.deadline then
      WatchdogDecision(DeadlineReached, 0)
    else if !Fresh(s.heartbeat, s.evaluated, maxAge) then WatchdogDecision(HeartbeatInvalid, 0)
    else if !s.gpu.available || !s.gpu.identityAvailable || !Fresh(s.gpu.captured, s.evaluated, maxAge)
            || s.gpu.physical == 0 || s.gpu.budget == 0 || s.gpu.usage > s.gpu.budget then
      WatchdogDecision(GpuTelemetryStale, 0)
    else if s.gpu.luid != q.luid then WatchdogDecision(AdapterMismatch, 0)
    else if !OwnedConsistent(s.owned, s.gpu, q.cap) || !Fresh(s.owned.captured, s.evaluated, maxAge)
            || s.owned.luid != q.luid then
      WatchdogDecision(OwnedEvidence, 0)
    else
      var cuda := CheckedAdd(s.owned.current, s.owned.cudaFree);
      if cuda.None? then WatchdogDecision(LiveCapacityOverflow, 0) else
      var dxgi := CheckedAdd(s.owned.current, s.gpu.budget - s.gpu.usage);
      if dxgi.None? then WatchdogDecision(LiveCapacityOverflow, 0)
      else if cuda.value > s.owned.cudaTotal then WatchdogDecision(OwnedEvidence, 0)
      else EvaluateWatchdogCapacity(q, s, WatchdogCap(q, LiveCapacity(s.gpu, s.owned)))
  }

  function EvaluateWatchdogCapacity(q: PostReceipt, s: WatchdogSample, cap: nat): (d: WatchdogDecision) {
    if s.owned.current > cap || q.predictedPeak > cap then WatchdogDecision(CapBreached, cap)
    else if !s.thermal.available || !Fresh(s.thermal.captured, s.evaluated, q.timing.guardAge) then
      WatchdogDecision(ThermalTelemetryStale, cap)
    else if !ThermalLegible(s.thermal) then WatchdogDecision(ThermalTelemetryStale, cap)
    else if WarningBound(s.thermal) > q.warning || StopBound(s.thermal) > q.stop then
      WatchdogDecision(ThermalTelemetryStale, cap)
    else if s.thermal.current >= q.stop || s.thermal.throttling || s.thermal.powerBrake then
      WatchdogDecision(ThermalStop, cap)
    else
      var hostRequest := q.hostRequest.(evaluated := s.evaluated, maxAge := q.timing.guardAge);
      if !EvaluateHost(s.host, q.hostPolicy, hostRequest).Admitted() then WatchdogDecision(HostReserveBreached, cap)
      else WatchdogDecision(Continue, cap)
  }

  /** What a sample must show for work to continue, for any well-formed receipt: the cap only
      shrinks, and both sources still have the admitted reserve free on top of all growth. */
  predicate SampleKeepsReserve(q: PostReceipt, s: WatchdogSample, cap: nat) {
    && s.owned.current <= cap && q.predictedPeak <= cap <= q.cap
    && HeadroomCovers(s.gpu, s.owned, q.reserve, cap)
    && 0 < s.evaluated < q.deadline
    && s.thermal.current < q.stop
    && s.gpu.luid == q.luid && s.owned.luid == q.luid
  }

  lemma {:induction false} AcceptedSampleKeepsReserve(q: PostReceipt, s: WatchdogSample)
    requires PostReceiptWellFormed(q) && EvaluateWatchdog(q, s).ContinueWork()
    ensures SampleKeepsReserve(q, s, EvaluateWatchdog(q, s).cap)
    ensures EvaluateWatchdog(q, s).cap > 0
  {}

  /** The watchdog's cap test is the closed inequality over the admitted reserve. */
  lemma {:induction false} WatchdogCapacityExact(q: PostReceipt, live: nat, bytes: nat)
    requires bytes > 0
    ensures bytes <= WatchdogCap(q, live) <==> bytes <= q.cap && bytes + q.reserve <= q.ceiling && bytes + q.reserve <= live
  {}

  /** The same machine, later telemetry reporting at least as much room. */
  predicate SameMachineRoomier(s: WatchdogSample, h: GpuSample) {
    && AtLeastAsRoomy(s.gpu, h)
    && h.luid == s.gpu.luid && h.available && h.identityAvailable && h.captured == s.gpu.captured
  }

  /** All that the watchdog asks of a sample, as inequalities over the unbounded integers. */
  ghost predicate SampleEligible(q: PostReceipt, s: WatchdogSample) {
    var maxAge, o, g := q.timing.guardAge, s.owned, s.gpu;
    && s.workerAlive && !s.contextFatal && 0 < s.evaluated < s.deadline == q.deadline
    && Fresh(s.heartbeat, s.evaluated, maxAge) && Fresh(g.captured, s.evaluated, maxAge)
    && Fresh(o.captured, s.evaluated, maxAge) && Fresh(s.thermal.captured, s.evaluated, maxAge)
    && g.available && g.identityAvailable && g.physical > 0 && g.budget > 0 && g.usage <= g.budget
    && g.luid == o.luid == q.luid && OwnedConsistent(o, g, q.cap)
    && o.current + o.cudaFree <= o.cudaTotal && o.current + (g.budget - g.usage) <= U64_MAX
    && FitsAdmitted(o.current, q, LiveCapacity(g, o)) && FitsAdmitted(q.predictedPeak, q, LiveCapacity(g, o))
    && s.thermal.available && ThermalLegible(s.thermal) && !s.thermal.throttling && !s.thermal.powerBrake
    && s.thermal.current < q.stop && WarningBound(s.thermal) <= q.warning && StopBound(s.thermal) <= q.stop
    && HostEligible(s.host, q.hostPolicy, q.hostRequest.(evaluated := s.evaluated, maxAge := maxAge))
  }

  predicate FitsAdmitted(bytes: nat, q: PostReceipt, live: nat) {
    bytes == 0 || (bytes <= q.cap && bytes + q.reserve <= q.ceiling && bytes + q.reserve <= live)
  }

  /** Work continues on exactly those samples. */
  lemma {:induction false} WatchdogExactly(q: PostReceipt, s: WatchdogSample)
    ensures EvaluateWatchdog(q, s).ContinueWork() <==> SampleEligible(q, s)
  {
    HostExactly(s.host, q.hostPolicy, q.hostRequest.(evaluated := s.evaluated, maxAge := q.timing.guardAge));
    hide EvaluateHost, HostEligible, ReconciledOwned, SourceAccepted;
  }

  /** Unlike Stage A, the watchdog's reserve is fixed: roomier telemetry keeps the work going, with a
      cap no lower, unless it shows less use than the worker owns. (Owned bytes and headroom cannot
      then pass 64 bits, so that guard never decides.) */
  lemma {:induction false} WatchdogMonotone(q: PostReceipt, s: WatchdogSample, h: GpuSample)
    requires EvaluateWatchdog(q, s).ContinueWork() && SameMachineRoomier(s, h)
    ensures EvaluateWatchdog(q, s.(gpu := h)).ContinueWork() <==> s.owned.current <= h.usage
    ensures s.owned.current <= h.usage ==> s.owned.current + (h.budget - h.usage) <= U64_MAX
    ensures EvaluateWatchdog(q, s.(gpu := h)).ContinueWork() ==>
      EvaluateWatchdog(q, s).cap <= EvaluateWatchdog(q, s.(gpu := h)).cap
  {
    WatchdogExactly(q, s);
    WatchdogExactly(q, s.(gpu := h));
    CapWhileContinuing(q, s);
    CapWhileContinuing(q, s.(gpu := h));
    hide EvaluateWatchdog, HostEligible, ReconciledOwned, SourceAccepted, ThermalLegible;
    assert LiveCapacity(s.gpu, s.owned) <= LiveCapacity(h, s.owned);
  }

  lemma CapWhileContinuing(q: PostReceipt, s: WatchdogSample)
    ensures EvaluateWatchdog(q, s).ContinueWork() ==>
      s.gpu.usage <= s.gpu.budget && EvaluateWatchdog(q, s).cap == WatchdogCap(q, LiveCapacity(s.gpu, s.owned))
  {
    hide EvaluateHost, OwnedConsistent;
  }
}
