/** The supervisor's side of the nonce-bound worker protocol (src/runtime/native_worker.cpp):
    line handling, cancellation, timers and the final outcome. Lines arrive already split
    (LineFramer) and parsed; clock readings, write results and callback answers are arguments. */
module WorkerProtocol {
  import opened CheckedArithmetic
  import opened SupervisorAdmission

  datatype ProtocolState = AwaitContext | TokenDelivered | Active | CancelSent | CancelAcked

  datatype Reason =
    | MessageInvalid | IdentityMismatch | ContextDuplicate | ContextEvidenceInvalid | ContextEvidenceRequired
    | AdmissionRejected(detail: string) | AuthorityCallbackTimeout | TokenWriteFailed | TokenRejected
    | HeartbeatInvalid | HeartbeatEvidenceInvalid | HeartbeatEvidenceRequired | WatchdogRejected
    | CancelAckInvalid | MessageUnknown | BufferExceeded | ContextTimeout | TokenConsumptionTimeout
    | HeartbeatTimeout | ProtocolIncomplete | OutputLimitExceeded | Timeout | ChildFailed | LauncherFailed | NoFailure

  datatype ContextEvidence = ContextEvidence(luid: Luid, cudaFree: u64, cudaTotal: u64)
  datatype HeartbeatEvidence = HeartbeatEvidence(payload: u64, cudaFree: u64, cudaTotal: u64)

  /** Optional trailing numbers of a line; `complete` when all are there and nothing follows. */
  datatype Trailing<E> = Absent | Present(complete: bool, value: E)

  datatype Message =
    | Malformed
    | WrongIdentity
    | ContextReady(context: Trailing<ContextEvidence>)
    | TokenConsumedLine(tokenId: Option<u64>, extra: bool)
    | Heartbeat(sequence: Option<u64>, beat: Trailing<HeartbeatEvidence>)
    | CancelAckLine(extra: bool)
    | UnknownType

  datatype Config = Config(
    requireEvidence: bool, expectedPayload: u64, maximumPayload: u64,
    contextTimeout: u32, heartbeatTimeout: u32, cancelAckTimeout: u32, workerExitTimeout: u32)

  datatype Grant = Grant(admitted: bool, tokenId: u64, cap: u64, expires: u64, failure: string)

  /** What the supervisor writes to the worker, and the callbacks it makes to the session. */
  datatype Sent = SentAdmit(tokenId: u64, cap: u64) | SentCancel
  datatype Callback =
    | OnContextReady | OnTokenConsumed(tokenId: u64) | OnHeartbeat(sequence: u64) | OnCancelRequested | OnCancelAck

  datatype Proto = Proto(
    state: ProtocolState, tokenId: u64, heartbeat: u64, lastHeartbeat: u64, consumptionDeadline: u64,
    cancelSentAt: u64, failure: Reason, emergency: bool, tokenConsumedObserved: bool,
    sent: seq<Sent>, callbacks: seq<Callback>)

  /** Answers from outside while one line is handled. The clock is read on receipt (`now`), just
      before a heartbeat callback (`mid`) and afterwards (`later`); `emergency` tells whether the
      authority watchdog aborted the job meanwhile. */
  datatype Answers = Answers(
    now: u64, mid: u64, later: u64, grant: Grant, consumed: bool, accepted: bool, emergency: bool, admitWritten: bool)

  function NewProto(started: u64): Proto {
    Proto(AwaitContext, 0, 0, started, 0, 0, NoFailure, false, false, [], [])
  }

  predicate Cancelled(p: Proto) { p.state.CancelSent? || p.state.CancelAcked? }

  /** request_protocol_cancel */
  function RequestCancel(p: Proto, reason: Reason, later: u64): Proto {
    if Cancelled(p) then p
    else p.(failure := reason, callbacks := p.callbacks + [OnCancelRequested], sent := p.sent + [SentCancel],
            state := CancelSent, cancelSentAt := later)
  }

  function Notify(p: Proto, c: Callback, emergency: bool): Proto {
    p.(callbacks := p.callbacks + [c], emergency := p.emergency || emergency)
  }

  predicate ContextFieldsValid(c: Trailing<ContextEvidence>) {
    c.Present? ==> c.complete && c.value.cudaTotal != 0 && c.value.cudaFree <= c.value.cudaTotal
  }

  predicate HeartbeatFieldsValid(h: Trailing<HeartbeatEvidence>, cfg: Config) {
    h.Present? ==>
      && h.complete && h.value.cudaTotal != 0 && h.value.cudaFree <= h.value.cudaTotal
      && h.value.payload != 0 && h.value.payload == cfg.expectedPayload && h.value.payload <= cfg.maximumPayload
  }

  predicate GrantUsable(g: Grant, now: u64) { g.admitted && g.tokenId != 0 && g.cap != 0 && g.expires > now }

  function OnContextLine(p: Proto, cfg: Config, c: Trailing<ContextEvidence>, a: Answers): Proto {
    if !p.state.AwaitContext? then RequestCancel(p, ContextDuplicate, a.later)
    else if !ContextFieldsValid(c) then RequestCancel(p, ContextEvidenceInvalid, a.later)
    else if cfg.requireEvidence && c.Absent? then RequestCancel(p, ContextEvidenceRequired, a.later)
    else
      OnGrant(Notify(p, OnContextReady, a.emergency), a)
  }

  /** What follows the session's answer to a context. */
  function OnGrant(q: Proto, a: Answers): Proto {
    if !GrantUsable(a.grant, a.now) then RequestCancel(q, AdmissionRejected(a.grant.failure), a.later)
    else if q.emergency then RequestCancel(q, AuthorityCallbackTimeout, a.later)
    else
      var r := q.(tokenId := a.grant.tokenId, sent := q.sent + [SentAdmit(a.grant.tokenId, a.grant.cap)]);
      if !a.admitWritten then RequestCancel(r, TokenWriteFailed, a.later)
      else r.(state := TokenDelivered, consumptionDeadline := a.grant.expires)
  }

  function OnTokenLine(p: Proto, id: Option<u64>, extra: bool, a: Answers): Proto {
    if !p.state.TokenDelivered? || id.None? || extra || id.value != p.tokenId then RequestCancel(p, TokenRejected, a.later)
    else
      var q := Notify(p, OnTokenConsumed(id.value), a.emergency);
      if !a.consumed || q.emergency then
        RequestCancel(q, if q.emergency then AuthorityCallbackTimeout else TokenRejected, a.later)
      else q.(state := Active, lastHeartbeat := a.later, tokenConsumedObserved := true)
  }

  /** The next sequence number, in 64-bit arithmetic. */
  function Successor(n: u64): u64 { if n == U64_MAX then 0 else n + 1 }

  predicate HeartbeatInOrder(p: Proto, sequence: Option<u64>) {
    p.state.Active? && sequence == Some(Successor(p.heartbeat))
  }

  function OnHeartbeatLine(p: Proto, cfg: Config, sequence: Option<u64>, h: Trailing<HeartbeatEvidence>, a: Answers): Proto {
    if !HeartbeatInOrder(p, sequence) then RequestCancel(p, HeartbeatInvalid, a.later)
    else if !HeartbeatFieldsValid(h, cfg) then RequestCancel(p, HeartbeatEvidenceInvalid, a.later)
    else if cfg.requireEvidence && h.Absent? then RequestCancel(p, HeartbeatEvidenceRequired, a.later)
    else OnBeat(p, sequence.value, a)
  }

  /** What follows a good heartbeat line. */
  function OnBeat(p: Proto, number: u64, a: Answers): Proto {
    var q := Notify(p.(heartbeat := number, lastHeartbeat := a.mid), OnHeartbeat(number), a.emergency);
    if !a.accepted || q.emergency then RequestCancel(q, WatchdogRejected, a.later) else q
  }

  /** process_protocol_line */
  function ProcessLine(p: Proto, cfg: Config, m: Message, a: Answers): Proto {
    match m
    case Malformed => RequestCancel(p, MessageInvalid, a.later)
    case WrongIdentity => RequestCancel(p, IdentityMismatch, a.later)
    case ContextReady(c) => OnContextLine(p, cfg, c, a)
    case TokenConsumedLine(id, extra) => OnTokenLine(p, id, extra, a)
    case Heartbeat(sequence, h) => OnHeartbeatLine(p, cfg, sequence, h, a)
    case CancelAckLine(extra) =>
      if !p.state.CancelSent? || extra then RequestCancel(p, CancelAckInvalid, a.later)
      else Notify(p.(state := CancelAcked), OnCancelAck, a.emergency)
    case UnknownType => RequestCancel(p, MessageUnknown, a.later)
  }

  /** Unsigned 64-bit difference. */
  function Elapsed(now: u64, since: u64): u64 {
    if now >= since then now - since else now + (U64_MAX + 1) - since
  }

  /** The timers of the polling loop; `started` is when the worker was resumed. */
  function Poll(p: Proto, cfg: Config, started: u64, now: u64, later: u64): Proto {
    if p.state.AwaitContext? && Elapsed(now, started) >= cfg.contextTimeout then RequestCancel(p, ContextTimeout, later)
    else if p.state.TokenDelivered? && now >= p.consumptionDeadline then
      RequestCancel(p, TokenConsumptionTimeout, later)
    else if p.state.Active? && Elapsed(now, p.lastHeartbeat) >= cfg.heartbeatTimeout then
      RequestCancel(p, HeartbeatTimeout, later)
    else p
  }

  /** The callback a line leads to, which its answers cannot change. */
  function CallbackFor(p: Proto, cfg: Config, m: Message): Option<Callback> {
    match m
    case ContextReady(c) =>
      if p.state.AwaitContext? && ContextFieldsValid(c) && !(cfg.requireEvidence && c.Absent?)
      then Some(OnContextReady) else None
    case TokenConsumedLine(id, extra) =>
      if p.state.TokenDelivered? && id == Some(p.tokenId) && !extra then Some(OnTokenConsumed(p.tokenId)) else None
    case Heartbeat(sequence, h) =>
      if HeartbeatInOrder(p, sequence) && HeartbeatFieldsValid(h, cfg) && !(cfg.requireEvidence && h.Absent?)
      then Some(OnHeartbeat(sequence.value)) else None
    case CancelAckLine(extra) => if p.state.CancelSent? && !extra then Some(OnCancelAck) else None
    case _ => None
  }

  function Listed(c: Option<Callback>): seq<Callback> { if c.Some? then [c.value] else [] }

  /** The reasons that tell which callback was refused. */
  predicate ReasonFits(reason: Reason, c: Option<Callback>, refused: bool) {
    && !reason.HeartbeatTimeout?
    && (reason.AdmissionRejected? ==> c == Some(OnContextReady))
    && (reason.WatchdogRejected? ==> c.Some? && c.value.OnHeartbeat? && refused)
  }

  /** The shape of one line's effect: its own callback `c` if it has one, then the cancellation
      callback if it cancelled; and unless it cancelled, the one state the callback leads to. */
  predicate Outcome(p: Proto, p': Proto, c: Option<Callback>, a: Answers) {
    && p'.callbacks == p.callbacks + Listed(c) + (if Cancelled(p') && !Cancelled(p) then [OnCancelRequested] else [])
    && (if Cancelled(p) then p'.failure == p.failure && (p.emergency ==> p'.emergency)
        else Cancelled(p') ==> ReasonFits(p'.failure, c, !a.accepted || p'.emergency))
    && match c
       case None => p' == p || (Cancelled(p') && !Cancelled(p))
       case Some(OnContextReady) =>
         p.state.AwaitContext?
         && (!Cancelled(p') ==> p'.state.TokenDelivered? && p'.tokenId == a.grant.tokenId && a.grant.admitted)
       case Some(OnTokenConsumed(id)) =>
         p.state.TokenDelivered? && id == p.tokenId
         && (!Cancelled(p') ==> p'.state.Active? && p'.tokenId == p.tokenId && a.consumed)
       case Some(OnHeartbeat(n)) =>
         p.state.Active? && n == Successor(p.heartbeat) && p'.heartbeat == n
         && (!Cancelled(p') ==> p'.state.Active? && p'.tokenId == p.tokenId && a.accepted)
       case Some(OnCancelAck) => p.state.CancelSent? && p'.state.CancelAcked?
       case Some(OnCancelRequested) => false
  }

  lemma ContextLineOutcome(p: Proto, cfg: Config, c: Trailing<ContextEvidence>, a: Answers)
    ensures Outcome(p, OnContextLine(p, cfg, c, a), CallbackFor(p, cfg, ContextReady(c)), a)
  {
    hide ContextFieldsValid;
  }

  lemma TokenLineOutcome(p: Proto, cfg: Config, id: Option<u64>, extra: bool, a: Answers)
    ensures Outcome(p, OnTokenLine(p, id, extra, a), CallbackFor(p, cfg, TokenConsumedLine(id, extra)), a)
  {}

  lemma HeartbeatLineOutcome(
      p: Proto, cfg: Config, sequence: Option<u64>, h: Trailing<HeartbeatEvidence>, a: Answers)
    ensures Outcome(p, OnHeartbeatLine(p, cfg, sequence, h, a), CallbackFor(p, cfg, Heartbeat(sequence, h)), a)
  {
    hide HeartbeatFieldsValid;
  }

  lemma {:induction false} LineOutcome(p: Proto, cfg: Config, m: Message, a: Answers)
    ensures Outcome(p, ProcessLine(p, cfg, m, a), CallbackFor(p, cfg, m), a)
  {
    hide OnContextLine, OnTokenLine, OnHeartbeatLine;
    match m
    case ContextReady(c) => ContextLineOutcome(p, cfg, c, a);
    case TokenConsumedLine(id, extra) => TokenLineOutcome(p, cfg, id, extra, a);
    case Heartbeat(sequence, h) => HeartbeatLineOutcome(p, cfg, sequence, h, a);
    case _ =>
  }

  /** A timer does nothing or cancels, and only one reason names a callback's absence. */
  lemma PollOutcome(p: Proto, cfg: Config, started: u64, now: u64, later: u64)
    ensures var p' := Poll(p, cfg, started, now, later);
      p' == p || (&& Cancelled(p') && !Cancelled(p) && p'.callbacks == p.callbacks + [OnCancelRequested]
                  && (ReasonFits(p'.failure, None, true) || (p'.failure.HeartbeatTimeout? && p.state.Active?)))
  {
    hide Elapsed;
  }

  /** The worker has kept its side waiting too long: for the context, for the token, for a heartbeat. */
  predicate Overdue(p: Proto, cfg: Config, started: u64, now: u64) {
    || (p.state.AwaitContext? && started <= now && now - started >= cfg.contextTimeout)
    || (p.state.TokenDelivered? && now >= p.consumptionDeadline)
    || (p.state.Active? && p.lastHeartbeat <= now && now - p.lastHeartbeat >= cfg.heartbeatTimeout)
  }

  /** While the clock does not run backwards, a pass cancels exactly the overdue and nothing else:
      no uncancelled conversation outlives a pass with a deadline behind it. */
  lemma PollIsExact(p: Proto, cfg: Config, started: u64, now: u64, later: u64)
    requires started <= now && p.lastHeartbeat <= now
    ensures var p' := Poll(p, cfg, started, now, later);
      && (Cancelled(p') <==> Cancelled(p) || Overdue(p, cfg, started, now))
      && (!Cancelled(p') ==> p' == p && !Overdue(p', cfg, started, now))
  {}

  // ----- what every conversation looks like -----

  /** The number of the n-th heartbeat: n itself, in 64-bit arithmetic. */
  function Number(n: nat): u64 { if n == 0 then 0 else Successor(Number(n - 1)) }

  lemma {:induction false} NumberIsIndex(n: nat)
    ensures Number(n) == n % (U64_MAX + 1)
  {
    if n > 0 {
      NumberIsIndex(n - 1);
      SuccessorIsModular(n - 1);
    }
  }

  lemma SuccessorIsModular(n: nat)
    ensures (n + 1) % (U64_MAX + 1) == Successor(n % (U64_MAX + 1))
  {}

  /** Callbacks for the heartbeats 1, 2, ..., n. */
  function Beats(n: nat): seq<Callback> {
    if n == 0 then [] else Beats(n - 1) + [OnHeartbeat(Number(n))]
  }

  /** The callbacks made before any cancellation: a context, then its token, then heartbeats. */
  ghost predicate Opening(cs: seq<Callback>, tokenId: u64) {
    cs == [] || cs == [OnContextReady] || exists n: nat :: cs == [OnContextReady, OnTokenConsumed(tokenId)] + Beats(n)
  }

  ghost predicate ConversationInv(p: Proto) {
    match p.state
    case AwaitContext => p.sent == [] && p.callbacks == [] && p.heartbeat == 0 && p.failure.NoFailure?
    case TokenDelivered =>
      && |p.sent| == 1 && p.sent[0].SentAdmit? && p.sent[0].tokenId == p.tokenId != 0
      && p.callbacks == [OnContextReady] && p.heartbeat == 0 && p.failure.NoFailure?
    case Active =>
      && |p.sent| == 1 && p.sent[0].SentAdmit? && p.sent[0].tokenId == p.tokenId != 0 && p.failure.NoFailure?
      && BeatsFrom(p.callbacks, p.tokenId, p.heartbeat)
    case CancelSent =>
      && CancelledConversation(p) && Opening(p.callbacks[..|p.callbacks| - 1], p.tokenId)
      && p.callbacks[|p.callbacks| - 1] == OnCancelRequested
    case CancelAcked =>
      && CancelledConversation(p) && |p.callbacks| >= 2 && Opening(p.callbacks[..|p.callbacks| - 2], p.tokenId)
      && p.callbacks[|p.callbacks| - 2..] == [OnCancelRequested, OnCancelAck]
  }

  /** Exactly `heartbeat` beats (modulo 2^64) since the token was consumed. */
  ghost predicate BeatsFrom(cs: seq<Callback>, tokenId: u64, heartbeat: u64) {
    exists n: nat :: cs == [OnContextReady, OnTokenConsumed(tokenId)] + Beats(n) && heartbeat == Number(n)
  }

  /** One CANCEL, last of all, after at most one ADMIT. */
  ghost predicate CancelledConversation(p: Proto) {
    && !p.failure.NoFailure? && |p.callbacks| >= 1
    && (p.sent == [SentCancel] || (|p.sent| == 2 && p.sent[0].SentAdmit? && p.sent[0].tokenId == p.tokenId
                                   && p.sent[1].SentCancel?))
  }

  lemma CancelKeeps(p: Proto, reason: Reason, later: u64)
    requires !reason.NoFailure? && (Cancelled(p) ==> ConversationInv(p))
    requires !Cancelled(p) ==>
      && Opening(p.callbacks, p.tokenId)
      && (p.sent == [] || (|p.sent| == 1 && p.sent[0].SentAdmit? && p.sent[0].tokenId == p.tokenId))
    ensures ConversationInv(RequestCancel(p, reason, later))
  {
    var q := RequestCancel(p, reason, later);
    if !Cancelled(p) {
      assert q.callbacks[..|q.callbacks| - 1] == p.callbacks;
    }
  }

  /** Any conversation not yet cancelled is an opening with at most one ADMIT. */
  lemma LiveIsOpening(p: Proto)
    requires ConversationInv(p) && !Cancelled(p)
    ensures Opening(p.callbacks, p.tokenId)
    ensures p.sent == [] || (|p.sent| == 1 && p.sent[0].SentAdmit? && p.sent[0].tokenId == p.tokenId)
  {}

  lemma CancelFromLive(p: Proto, reason: Reason, later: u64)
    requires ConversationInv(p) && !reason.NoFailure?
    ensures ConversationInv(RequestCancel(p, reason, later))
  {
    if !Cancelled(p) { LiveIsOpening(p); }
    CancelKeeps(p, reason, later);
  }

  lemma ContextLineKeeps(p: Proto, cfg: Config, c: Trailing<ContextEvidence>, a: Answers)
    requires ConversationInv(p)
    ensures ConversationInv(OnContextLine(p, cfg, c, a))
  {
    if !p.state.AwaitContext? || !ContextFieldsValid(c) || (cfg.requireEvidence && c.Absent?) {
      var reason := if !p.state.AwaitContext? then ContextDuplicate
                    else if !ContextFieldsValid(c) then ContextEvidenceInvalid else ContextEvidenceRequired;
      CancelFromLive(p, reason, a.later);
    } else {
      var q := Notify(p, OnContextReady, a.emergency);
      CancelKeeps(q, AdmissionRejected(a.grant.failure), a.later);
      CancelKeeps(q, AuthorityCallbackTimeout, a.later);
      var r := q.(tokenId := a.grant.tokenId, sent := q.sent + [SentAdmit(a.grant.tokenId, a.grant.cap)]);
      CancelKeeps(r, TokenWriteFailed, a.later);
    }
  }

  lemma TokenLineKeeps(p: Proto, id: Option<u64>, extra: bool, a: Answers)
    requires ConversationInv(p)
    ensures ConversationInv(OnTokenLine(p, id, extra, a))
  {
    if !p.state.TokenDelivered? || id.None? || extra || id.value != p.tokenId {
      CancelFromLive(p, TokenRejected, a.later);
    } else {
      var q := Notify(p, OnTokenConsumed(id.value), a.emergency);
      assert q.callbacks == [OnContextReady, OnTokenConsumed(p.tokenId)] + Beats(0);
      CancelKeeps(q, if q.emergency then AuthorityCallbackTimeout else TokenRejected, a.later);
    }
  }

  lemma HeartbeatLineKeeps(p: Proto, cfg: Config, sequence: Option<u64>, h: Trailing<HeartbeatEvidence>, a: Answers)
    requires ConversationInv(p)
    ensures ConversationInv(OnHeartbeatLine(p, cfg, sequence, h, a))
  {
    if !HeartbeatInOrder(p, sequence) || !HeartbeatFieldsValid(h, cfg) || (cfg.requireEvidence && h.Absent?) {
      var reason := if !HeartbeatInOrder(p, sequence) then HeartbeatInvalid
                    else if !HeartbeatFieldsValid(h, cfg) then HeartbeatEvidenceInvalid else HeartbeatEvidenceRequired;
      CancelFromLive(p, reason, a.later);
    } else {
      var q := Notify(p.(heartbeat := sequence.value, lastHeartbeat := a.mid), OnHeartbeat(sequence.value), a.emergency);
      var n: nat :| p.callbacks == [OnContextReady, OnTokenConsumed(p.tokenId)] + Beats(n)
                    && p.heartbeat == Number(n);
      assert q.callbacks == [OnContextReady, OnTokenConsumed(p.tokenId)] + Beats(n + 1);
      CancelKeeps(q, WatchdogRejected, a.later);
    }
  }

  lemma AcknowledgedKeeps(p: Proto, emergency: bool)
    requires ConversationInv(p) && p.state.CancelSent?
    ensures ConversationInv(Notify(p.(state := CancelAcked), OnCancelAck, emergency))
  {
    hide Opening;
    var q := Notify(p.(state := CancelAcked), OnCancelAck, emergency);
    assert q.callbacks[..|q.callbacks| - 2] == p.callbacks[..|p.callbacks| - 1];
    assert q.callbacks[|q.callbacks| - 2..] == [OnCancelRequested, OnCancelAck];
  }

  lemma CancelAckKeeps(p: Proto, cfg: Config, extra: bool, a: Answers)
    requires ConversationInv(p)
    ensures ConversationInv(ProcessLine(p, cfg, CancelAckLine(extra), a))
  {
    hide ConversationInv, RequestCancel, Notify;
    if !p.state.CancelSent? || extra {
      CancelFromLive(p, CancelAckInvalid, a.later);
    } else {
      AcknowledgedKeeps(p, a.emergency);
    }
  }

  lemma {:induction false} LineKeeps(p: Proto, cfg: Config, m: Message, a: Answers)
    requires ConversationInv(p)
    ensures ConversationInv(ProcessLine(p, cfg, m, a))
  {
    match m
    case Malformed => CancelFromLive(p, MessageInvalid, a.later);
    case WrongIdentity => CancelFromLive(p, IdentityMismatch, a.later);
    case ContextReady(c) => ContextLineKeeps(p, cfg, c, a);
    case TokenConsumedLine(id, extra) => TokenLineKeeps(p, id, extra, a);
    case Heartbeat(sequence, h) => HeartbeatLineKeeps(p, cfg, sequence, h, a);
    case CancelAckLine(extra) => CancelAckKeeps(p, cfg, extra, a);
    case UnknownType => CancelFromLive(p, MessageUnknown, a.later);
  }

  lemma PollKeeps(p: Proto, cfg: Config, started: u64, now: u64, later: u64)
    requires ConversationInv(p)
    ensures ConversationInv(Poll(p, cfg, started, now, later))
  {
    CancelFromLive(p, ContextTimeout, later);
    CancelFromLive(p, TokenConsumptionTimeout, later);
    CancelFromLive(p, HeartbeatTimeout, later);
  }

  /** drain_protocol's answer to a pending line of more than 1024 bytes. */
  lemma BufferExceededKeeps(p: Proto, later: u64)
    requires ConversationInv(p)
    ensures ConversationInv(RequestCancel(p, BufferExceeded, later))
  {
    CancelFromLive(p, BufferExceeded, later);
  }
}
