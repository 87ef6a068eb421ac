/** validate_records and the records emit_bundle builds (scripts/evidence-runner.py), on parsed JSON. */
module EvidenceRecords {
  import opened CheckedArithmetic

  const MAX_RECORDS := 1_000_001
  const MAX_TRIALS := 1_000_000
  const POLICY := "evidence-policy-v1"
  const SAMPLE_PLAN := "sample-plan-v1"

  /** The key names the script knows, and any other. */
  datatype Key =
    | RecordType | RunId | ValidationCellId | EvidencePolicyVersion | SamplePlanVersion | Sequence
    | TrialIndex | Status | Outcome | Reason | OtherKey(name: string)

  datatype Json = Text(text: string) | Integer(n: int) | Boolean(b: bool) | Float(x: real) | OtherJson

  type Record = map<Key, Json>

  const IDENTITY_KEYS := {RecordType, RunId, ValidationCellId, EvidencePolicyVersion, SamplePlanVersion, Sequence}
  const TRIAL_KEYS := IDENTITY_KEYS + {TrialIndex, Status}
  const TERMINAL_KEYS := IDENTITY_KEYS + {Outcome, Reason}

  datatype Manifest = Manifest(
    runId: string, validationCellId: string, evidencePolicyVersion: string, samplePlanVersion: string,
    terminalSequence: int, declaredTrialCount: int, runOutcome: string, claimCeiling: string, failureReason: string)

  datatype Error =
    | MissingFinalNewline | RecordCountRejected | RecordUnreadable(index: nat) | RecordFieldsRejected(index: nat)
    | IdentityMismatch(index: nat, key: Key) | SequenceMismatch(index: nat) | SequenceTypeRejected(index: nat)
    | TrialRejected(index: nat) | TerminalRejected(index: nat) | TerminalOrCountMismatch

  datatype Verdict = Accepted | Rejected(error: Error)

  /** Python's == between a JSON value and an integer: true is 1, 1.0 is 1. */
  predicate EqualsInteger(j: Json, n: int) {
    match j
    case Integer(k) => k == n
    case Boolean(b) => n == if b then 1 else 0
    case Float(x) => x == n as real
    case _ => false
  }

  predicate SameIdentity(r: Record, m: Manifest)
    requires IDENTITY_KEYS <= r.Keys
  {
    && r[RunId] == Text(m.runId) && r[ValidationCellId] == Text(m.validationCellId)
    && r[EvidencePolicyVersion] == Text(m.evidencePolicyVersion) && r[SamplePlanVersion] == Text(m.samplePlanVersion)
  }

  // ----- the shape -----

  predicate IsTrial(line: Option<Record>, index: nat, m: Manifest) {
    && line.Some? && line.value.Keys == TRIAL_KEYS && SameIdentity(line.value, m)
    && line.value[RecordType] == Text("trial") && line.value[Sequence] == Integer(index)
    && line.value[TrialIndex] == Integer(index) && line.value[Status] == Text("ok")
  }

  /** The closing record; its type may be anything but a trial. */
  predicate IsClosing(line: Option<Record>, index: nat, m: Manifest) {
    && line.Some? && line.value.Keys == TERMINAL_KEYS && SameIdentity(line.value, m)
    && line.value[RecordType] != Text("trial") && line.value[Sequence] == Integer(index)
    && line.value[Outcome] == Text(m.runOutcome) && line.value[Reason] == Text(m.failureReason)
  }

  predicate AllTrials(lines: seq<Option<Record>>, m: Manifest) {
    forall i :: 0 <= i < |lines| ==> IsTrial(lines[i], i + 1, m)
  }

  /** Trials 1..n, then one closing record, as many as the manifest declares. */
  predicate Shaped(lines: seq<Option<Record>>, m: Manifest) {
    var n := |lines| - 1;
    && 0 <= n < MAX_RECORDS && n == m.declaredTrialCount && n + 1 == m.terminalSequence
    && AllTrials(lines[..n], m) && (n > 0 ==> m.runOutcome == "completed") && IsClosing(lines[n], n + 1, m)
  }

  // ----- one record -----

  /** The body of the loop for the record at `index`, when `last` is the number of lines. */
  function CheckRecord(line: Option<Record>, index: nat, last: nat, terminalSeen: bool, m: Manifest): Verdict {
    if line.None? then Rejected(RecordUnreadable(index))
    else
      var r := line.value;
      var trial := RecordType in r && r[RecordType] == Text("trial");
      if r.Keys != (if trial then TRIAL_KEYS else TERMINAL_KEYS) then Rejected(RecordFieldsRejected(index))
      else if r[RunId] != Text(m.runId) then Rejected(IdentityMismatch(index, RunId))
      else if r[ValidationCellId] != Text(m.validationCellId) then Rejected(IdentityMismatch(index, ValidationCellId))
      else if r[EvidencePolicyVersion] != Text(m.evidencePolicyVersion) then
        Rejected(IdentityMismatch(index, EvidencePolicyVersion))
      else if r[SamplePlanVersion] != Text(m.samplePlanVersion) then Rejected(IdentityMismatch(index, SamplePlanVersion))
      else if !EqualsInteger(r[Sequence], index) then Rejected(SequenceMismatch(index))
      else if !r[Sequence].Integer? then Rejected(SequenceTypeRejected(index))
      else if trial then
        if !r[TrialIndex].Integer? || terminalSeen || m.runOutcome != "completed"
           || !EqualsInteger(r[TrialIndex], index) || r[Status] != Text("ok")
        then Rejected(TrialRejected(index)) else Accepted
      else if terminalSeen || index != last || r[Outcome] != Text(m.runOutcome) || r[Reason] != Text(m.failureReason)
      then Rejected(TerminalRejected(index)) else Accepted
  }

  predicate SaysTrial(line: Option<Record>) {
    line.Some? && RecordType in line.value && line.value[RecordType] == Text("trial")
  }

  lemma CheckRecordIff(line: Option<Record>, index: nat, last: nat, terminalSeen: bool, m: Manifest)
    ensures CheckRecord(line, index, last, terminalSeen, m).Accepted? <==>
      && !terminalSeen
      && if SaysTrial(line) then IsTrial(line, index, m) && m.runOutcome == "completed"
         else IsClosing(line, index, m) && index == last
  {}

  // ----- the loop -----

  method ValidateRecords(finalNewline: bool, lines: seq<Option<Record>>, m: Manifest) returns (r: Verdict)
    ensures r.Accepted? <==> finalNewline && Shaped(lines, m)
  {
    if !finalNewline { return Rejected(MissingFinalNewline); }
    if lines == [] || |lines| > MAX_RECORDS { return Rejected(RecordCountRejected); }
    var trials, terminalSeen, index := 0, false, 1;
    while index <= |lines|
      invariant 1 <= index <= |lines| + 1
      invariant terminalSeen ==> index == |lines| + 1 && IsClosing(lines[|lines| - 1], |lines|, m)
      invariant trials == if terminalSeen then index - 2 else index - 1
      invariant AllTrials(lines[..trials], m) && (trials > 0 ==> m.runOutcome == "completed")
      invariant forall i :: 0 <= i < trials ==> SaysTrial(lines[i])
    {
      hide CheckRecord, IsClosing, IsTrial, Shaped;
      var line := lines[index - 1];
      CheckRecordIff(line, index, |lines|, terminalSeen, m);
      r := CheckRecord(line, index, |lines|, terminalSeen, m);
      if r.Rejected? {
        RefusedAt(lines, index - 1, m);
        return;
      }
      if SaysTrial(line) {
        assert lines[..trials + 1] == lines[..trials] + [line];
        trials := trials + 1;
      } else {
        terminalSeen := true;
      }
      index := index + 1;
    }
    if !terminalSeen || trials != m.declaredTrialCount || |lines| != m.terminalSequence {
      if !terminalSeen { assert SaysTrial(lines[|lines| - 1]); }
      return Rejected(TerminalOrCountMismatch);
    }
    return Accepted;
  }

  /** In a shaped sequence every record passes its own check. */
  lemma RefusedAt(lines: seq<Option<Record>>, i: nat, m: Manifest)
    requires i < |lines| && !CheckRecord(lines[i], i + 1, |lines|, false, m).Accepted?
    ensures !Shaped(lines, m)
  {
    hide CheckRecord;
    CheckRecordIff(lines[i], i + 1, |lines|, false, m);
    assert i < |lines| - 1 ==> lines[..|lines| - 1][i] == lines[i];
  }

  /** The closing record's type is not checked: any other value is accepted in its place. */
  lemma ClosingTypeIsFree(lines: seq<Option<Record>>, m: Manifest, t: Json)
    requires Shaped(lines, m) && t != Text("trial")
    ensures var n := |lines| - 1; Shaped(lines[n := Some(lines[n].value[RecordType := t])], m)
  {
    var n := |lines| - 1;
    var r := lines[n].value;
    assert r[RecordType := t].Keys == r.Keys;
    assert lines[n := Some(r[RecordType := t])][..n] == lines[..n];
  }

  // ----- what emit_bundle builds -----

  function TrialRecord(m: Manifest, index: nat): Record {
    map[RecordType := Text("trial"), RunId := Text(m.runId), ValidationCellId := Text(m.validationCellId),
        EvidencePolicyVersion := Text(m.evidencePolicyVersion), SamplePlanVersion := Text(m.samplePlanVersion),
        Sequence := Integer(index), TrialIndex := Integer(index), Status := Text("ok")]
  }

  function ClosingRecord(m: Manifest, index: nat): Record {
    map[RecordType := Text("terminal"), RunId := Text(m.runId), ValidationCellId := Text(m.validationCellId),
        EvidencePolicyVersion := Text(m.evidencePolicyVersion), SamplePlanVersion := Text(m.samplePlanVersion),
        Sequence := Integer(index), Outcome := Text(m.runOutcome), Reason := Text(m.failureReason)]
  }

  /** The raw input of one trial. */
  predicate IsTrialInput(line: Option<Record>, index: nat) {
    && line.Some? && line.value.Keys == {TrialIndex, Status}
    && line.value[TrialIndex] == Integer(index) && line.value[Status] == Text("ok")
  }

  const FAILURES := {"skipped", "unsupported", "rejected", "aborted"}

  predicate IsFailureInput(line: Option<Record>) {
    && line.Some? && line.value.Keys == {Outcome, Reason}
    && line.value[Outcome].Text? && line.value[Outcome].text in FAILURES
    && line.value[Reason].Text? && 0 < |line.value[Reason].text| <= 512
  }

  /** validate_manifest's rules on counts and outcome. */
  predicate CountsAgree(m: Manifest) {
    && 0 <= m.declaredTrialCount <= MAX_TRIALS && m.terminalSequence == m.declaredTrialCount + 1
    && if m.runOutcome == "completed" then
         m.declaredTrialCount != 0 && m.failureReason == "" && m.claimCeiling == "research-only"
       else m.runOutcome in FAILURES && m.declaredTrialCount == 0 && m.failureReason != "" && m.claimCeiling == "rejected"
  }

  /** A parsed input file; an unreadable line is None. */
  datatype Input = Input(finalNewline: bool, lines: seq<Option<Record>>)

  predicate InputOk(i: Input) { i.finalNewline && 0 < |i.lines| <= MAX_RECORDS && None !in i.lines }

  datatype Bundle = Bundle(records: seq<Record>, manifest: Manifest) | NotBuilt

  function Lines(records: seq<Record>): (r: seq<Option<Record>>)
    ensures |r| == |records| && forall i :: 0 <= i < |r| ==> r[i] == Some(records[i])
  {
    seq(|records|, i requires 0 <= i < |records| => Some(records[i]))
  }

  function CompletedManifest(runId: string, cell: string, count: nat): Manifest {
    Manifest(runId, cell, POLICY, SAMPLE_PLAN, count + 1, count, "completed", "research-only", "")
  }

  function FailedManifest(runId: string, cell: string, outcome: string, reason: string): Manifest {
    Manifest(runId, cell, POLICY, SAMPLE_PLAN, 1, 0, outcome, "rejected", reason)
  }

  /** The inputs emit_bundle makes records from. */
  predicate Buildable(declared: int, raw: Option<Input>, failure: Option<Input>) {
    || (raw.Some? && failure.None? && InputOk(raw.value) && declared == |raw.value.lines|
        && forall i :: 0 <= i < |raw.value.lines| ==> IsTrialInput(raw.value.lines[i], i + 1))
    || (raw.None? && failure.Some? && InputOk(failure.value) && declared == 0 && |failure.value.lines| == 1
        && IsFailureInput(failure.value.lines[0]))
  }

  /** One record for each trial, until one is not as it should be. */
  method TrialRecords(lines: seq<Option<Record>>, m: Manifest) returns (ok: bool, records: seq<Record>)
    ensures ok <==> forall i :: 0 <= i < |lines| ==> IsTrialInput(lines[i], i + 1)
    ensures ok ==> |records| == |lines| && forall i :: 0 <= i < |lines| ==> records[i] == TrialRecord(m, i + 1)
  {
    hide TrialRecord;
    records := [];
    for index := 1 to |lines| + 1
      invariant |records| == index - 1
      invariant forall i :: 0 <= i < index - 1 ==> IsTrialInput(lines[i], i + 1)
      invariant forall i :: 0 <= i < index - 1 ==> records[i] == TrialRecord(m, i + 1)
    {
      if !IsTrialInput(lines[index - 1], index) { return false, []; }
      records := records + [TrialRecord(m, index)];
    }
    ok := true;
  }

  /** The records and manifest of emit_bundle, before they are validated and published: they pass
      that validation unless there is one trial more than it allows. */
  method BuildBundle(runId: string, cell: string, declared: int, raw: Option<Input>, failure: Option<Input>)
    returns (r: Bundle)
    ensures r.Bundle? <==> Buildable(declared, raw, failure)
    ensures r.Bundle? ==>
      && r.manifest.declaredTrialCount == declared == |r.records| - 1
      && (CountsAgree(r.manifest) <==> declared <= MAX_TRIALS)
      && (Shaped(Lines(r.records), r.manifest) <==> declared <= MAX_TRIALS)
  {
    if raw.None? == failure.None? { return NotBuilt; }
    var records: seq<Record> := [];
    var m: Manifest;
    if raw.Some? {
      var lines := raw.value.lines;
      if !InputOk(raw.value) || declared <= 0 || |lines| != declared { return NotBuilt; }
      m := CompletedManifest(runId, cell, |lines|);
      var ok;
      ok, records := TrialRecords(lines, m);
      if !ok { return NotBuilt; }
    } else {
      var lines := failure.value.lines;
      if !InputOk(failure.value) || declared != 0 || |lines| != 1 || !IsFailureInput(lines[0]) { return NotBuilt; }
      m := FailedManifest(runId, cell, lines[0].value[Outcome].text, lines[0].value[Reason].text);
    }
    hide TrialRecord, ClosingRecord, Shaped, IsTrialInput, IsFailureInput;
    ghost var trials := records;
    records := records + [ClosingRecord(m, |records| + 1)];
    BuiltIsShaped(trials, m);
    return Bundle(records, m);
  }

  lemma BuiltIsShaped(trials: seq<Record>, m: Manifest)
    requires forall i :: 0 <= i < |trials| ==> trials[i] == TrialRecord(m, i + 1)
    requires |trials| == m.declaredTrialCount && m.terminalSequence == |trials| + 1
    requires |trials| > 0 ==> m.runOutcome == "completed"
    ensures |trials| <= MAX_TRIALS <==> Shaped(Lines(trials + [ClosingRecord(m, |trials| + 1)]), m)
  {
    var n := |trials|;
    var lines := Lines(trials + [ClosingRecord(m, n + 1)]);
    forall i | 0 <= i < n ensures IsTrial(lines[..n][i], i + 1, m) {
      TrialIsTrial(m, i + 1);
    }
    ClosingIsClosing(m, n + 1);
  }

  lemma TrialIsTrial(m: Manifest, index: nat)
    ensures IsTrial(Some(TrialRecord(m, index)), index, m)
  {}

  lemma ClosingIsClosing(m: Manifest, index: nat)
    ensures IsClosing(Some(ClosingRecord(m, index)), index, m)
  {
    assert |"terminal"| != |"trial"|;
  }

  function TrialInput(index: nat): Record { map[TrialIndex := Integer(index), Status := Text("ok")] }

  function TrialInputs(n: nat): (r: seq<Option<Record>>)
    ensures |r| == n && forall i :: 0 <= i < n ==> r[i] == Some(TrialInput(i + 1))
  {
    seq(n, i requires 0 <= i < n => Some(TrialInput(i + 1)))
  }

  /** The input limit lets one trial more through than the manifest limit: this many good trials are
      made into a bundle, which its own validation then refuses. */
  lemma TooManyTrialsAreBuilt()
    ensures Buildable(MAX_TRIALS + 1, Some(Input(true, TrialInputs(MAX_TRIALS + 1))), None)
  {
    var lines := TrialInputs(MAX_TRIALS + 1);
    forall i | 0 <= i < |lines| ensures IsTrialInput(lines[i], i + 1) {
      assert TrialInput(i + 1).Keys == {TrialIndex, Status};
    }
  }

  method EmitTooMany(runId: string, cell: string) returns (r: Bundle)
    ensures r.Bundle? && !CountsAgree(r.manifest) && !Shaped(Lines(r.records), r.manifest)
  {
    TooManyTrialsAreBuilt();
    r := BuildBundle(runId, cell, MAX_TRIALS + 1, Some(Input(true, TrialInputs(MAX_TRIALS + 1))), None);
  }
}
