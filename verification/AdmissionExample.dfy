/** One healthy machine on which host admission, both stages and the watchdog say yes: the theorems
    about admitted requests speak of something. */
module AdmissionExample {
  import opened CheckedArithmetic
  import opened HostAdmission
  import opened SupervisorAdmission
  import opened SupervisorWatchdog

  function ExampleDigest(): Digest { seq(32, i => 1) }

  function ExampleCell(): Cell {
    var d := ExampleDigest();
    Cell(1, d, d, d, d, d, d)
  }

  lemma ExampleCellIsValid()
    ensures CellValid(ExampleCell())
  {
    assert ExampleDigest()[0] != 0;
  }

  const TIMING := Timing(100, 250, 500, 500, 2_000, 5_000, 500, 0)
  const ADAPTER := Luid(0, 1)
  const COOL := Thermal(true, 1, 40, None, None, false, false)
  const HOST := HostSample(true, "get_performance_info", 1, 64 * GIB, 64 * GIB, 0, 64 * GIB, 64 * GIB)
  const POLICY := HostPolicy(EvidencePromotable, 0, 0, 0, 0, 0)
  const WORK := HostRequest(0, 0, 0, 0, 0, 0, 0, 1, 500, true)
  const NOTHING := Predicted(Some(0), ExactZero)
  const FOOTPRINT := Footprint(Predicted(Some(MIB), PinnedRuntimeEstimate), NOTHING, NOTHING, NOTHING, NOTHING, NOTHING)
  const CAP: u64 := 15_461_882_265       // 16 GiB less the reserve
  const RESERVE: u64 := 1_717_986_919    // a tenth of 16 GiB, rounded up

  function ExampleRequest(): PreRequest {
    PreRequest(16 * GIB, 16 * GIB, 1, 1_000, 1, true, false, TIMING, FOOTPRINT,
               GpuSample(true, true, ADAPTER, 1, 16 * GIB, 16 * GIB, 0), COOL, Storage(true, 0, 0, 0),
               HOST, POLICY, WORK, ExampleCell())
  }

  function ExampleReceipt(): PreReceipt {
    PreReceipt(16 * GIB, 16 * GIB, TIMING, ADAPTER, MIB, RESERVE, CAP, 1, 1_001, POLICY, WORK, 78, 82, ExampleCell())
  }

  lemma HostSaysYes()
    ensures EvaluateHost(HOST, POLICY, WORK).Admitted()
  {
    assert FitsAboveReserves(HOST, POLICY, WORK, 16 * GIB, 16 * GIB);
    HostAdmissionComplete(HOST, POLICY, WORK, 16 * GIB, 16 * GIB);
  }

  lemma ReserveIs()
    ensures CeilRatio(16 * GIB, RESERVE_BP) == RESERVE
  {}

  lemma StageASaysYes()
    ensures EvaluatePre(ExampleRequest()) == PreAdmitted(ExampleReceipt())
  {
    HostSaysYes();
    ReserveIs();
    ExampleCellIsValid();
    hide EvaluateHost, CellValid, CeilRatio;
  }

  /** One byte of context is all the worker owns. */
  function ExampleOwned(): OwnedGpu {
    OwnedGpu(true, 1, true, true, "nvml-process", 7, 1, 1, true, ADAPTER, CAP, 1, 1,
             0, 0, 0, 0, 0, 0, 0, 1, 16 * GIB - 1, 16 * GIB, 0)
  }

  lemma OwnedAddsUp()
    ensures ReconciledOwned(ExampleOwned()) == Some(1)
  {
    var c := Categories(ExampleOwned());
    assert c[..7] == [0, 0, 0, 0, 0, 0, 0];
    ZerosAddUp(c[..7]);
  }

  lemma {:induction false} ZerosAddUp(c: seq<u64>)
    requires forall i :: 0 <= i < |c| ==> c[i] == 0
    ensures Sum(c) == 0
  {
    if c != [] { ZerosAddUp(c[..|c| - 1]); }
  }

  const BUSY := GpuSample(true, true, ADAPTER, 1, 16 * GIB, 16 * GIB, 1)

  function ExampleFollowUp(): PostRequest {
    PostRequest(Some(ExampleReceipt()), 16 * GIB, 16 * GIB, 1, TIMING, BUSY, COOL, ExampleOwned(),
                HOST, POLICY, WORK, ExampleCell())
  }

  function ExampleAdmission(): PostReceipt {
    PostReceipt(1, 16 * GIB, 16 * GIB, TIMING, ADAPTER, MIB, RESERVE, CAP, 1, 1, 1_001, POLICY, WORK, 78, 82,
                ExampleCell())
  }

  lemma StageBSaysYes()
    ensures EvaluatePost(ExampleFollowUp(), 1) == PostAdmitted(ExampleAdmission())
  {
    HostSaysYes();
    ReserveIs();
    ExampleCellIsValid();
    OwnedAddsUp();
    hide EvaluateHost, CellValid, CeilRatio, ReconciledOwned;
  }

  function ExampleSample(): WatchdogSample {
    WatchdogSample(1, 1_001, 1, true, false, BUSY, ExampleOwned(), COOL, HOST)
  }

  lemma WatchdogSaysYes()
    ensures EvaluateWatchdog(ExampleAdmission(), ExampleSample()).ContinueWork()
  {
    HostSaysYes();
    OwnedAddsUp();
    hide EvaluateHost, CellValid, CeilRatio, ReconciledOwned;
  }

  /** Telemetry that shows no use although the worker owns a byte: roomier, and cancelled. */
  lemma IdleTelemetryCancels()
    ensures SameMachineRoomier(ExampleSample(), BUSY.(usage := 0))
    ensures EvaluateWatchdog(ExampleAdmission(), ExampleSample().(gpu := BUSY.(usage := 0))).reason.OwnedEvidence?
  {
    WatchdogSaysYes();
    OwnedAddsUp();
    hide EvaluateHost, ReconciledOwned;
  }

  /** A crowded adapter, and the same one reporting more memory. */
  const CROWDED := GpuSample(true, true, ADAPTER, 1, 12 * GIB, 32 * GIB, 28 * GIB)
  const LARGER := CROWDED.(physical := 32 * GIB)

  function CrowdedRequest(): PreRequest {
    ExampleRequest().(gpu := CROWDED,
                      predicted := FOOTPRINT.(contextRuntime := Predicted(Some(2 * GIB), PinnedRuntimeEstimate)))
  }

  lemma CrowdedReserves()
    ensures CeilRatio(12 * GIB, RESERVE_BP) == 1_288_490_189 && CeilRatio(32 * GIB, RESERVE_BP) == 3_435_973_837
  {}

  lemma CrowdedPeak()
    ensures PredictedPeak(CrowdedRequest().predicted) == Some(2 * GIB)
  {}

  lemma CrowdedIsAdmitted()
    ensures EvaluatePre(CrowdedRequest()).PreAdmitted?
  {
    CrowdedReserves();
    CrowdedPeak();
    HostSaysYes();
    ExampleCellIsValid();
    hide EvaluateHost, CellValid, CeilRatio, PredictedPeak;
  }

  /** The reserve grows with the device and can outgrow the unused budget: Stage A admits the request
      and refuses it when the adapter reports more memory. */
  lemma RoomierTelemetryCanReject()
    ensures AtLeastAsRoomy(CROWDED, LARGER)
    ensures EvaluatePre(CrowdedRequest()).PreAdmitted?
    ensures EvaluatePre(CrowdedRequest().(gpu := LARGER)) == PreRejected(PeakExceedsCap)
  {
    CrowdedReserves();
    CrowdedPeak();
    CrowdedIsAdmitted();
    hide EvaluateHost, CellValid, CeilRatio, PredictedPeak, EvaluatePre;
    RoomierTelemetryKeepsAdmission(CrowdedRequest(), LARGER);
  }

  // ----- Stage B and roomier telemetry -----

  /** The follow-up of a nearly full request on an adapter whose runtime sees 32 GiB. */
  function TightFollowUp(): PostRequest {
    ExampleFollowUp().(pre := Some(ExampleReceipt().(predictedPeak := 14 * GIB)),
                       owned := ExampleOwned().(cudaFree := 32 * GIB - 1, cudaTotal := 32 * GIB))
  }

  lemma TightAddsUp()
    ensures ReconciledOwned(TightFollowUp().owned) == Some(1)
  {
    OwnedAddsUp();
    assert Categories(TightFollowUp().owned) == Categories(ExampleOwned());
  }

  lemma TightIsAdmitted()
    ensures EvaluatePost(TightFollowUp(), 1).PostAdmitted?
  {
    HostSaysYes();
    ReserveIs();
    ExampleCellIsValid();
    TightAddsUp();
    hide EvaluateHost, CellValid, CeilRatio, ReconciledOwned;
  }

  /** Stage B refuses it when the adapter reports 32 GiB, and when the telemetry shows no use. */
  lemma RoomierTelemetryCanRejectStageB()
    ensures EvaluatePost(TightFollowUp(), 1).PostAdmitted?
    ensures AtLeastAsRoomy(BUSY, BUSY.(physical := 32 * GIB, budget := 32 * GIB))
    ensures EvaluatePost(TightFollowUp().(gpu := BUSY.(physical := 32 * GIB, budget := 32 * GIB)), 1)
         == PostRejected(PostPeakExceedsCap)
    ensures AtLeastAsRoomy(BUSY, BUSY.(usage := 0))
    ensures EvaluatePost(TightFollowUp().(gpu := BUSY.(usage := 0)), 1) == PostRejected(OwnedEvidenceInvalid)
  {
    TightIsAdmitted();
    CrowdedReserves();
    hide EvaluatePost, CeilRatio;
    RoomierTelemetryKeepsStageB(TightFollowUp(), BUSY.(physical := 32 * GIB, budget := 32 * GIB), 1);
    RoomierTelemetryKeepsStageB(TightFollowUp(), BUSY.(usage := 0), 1);
  }
}
