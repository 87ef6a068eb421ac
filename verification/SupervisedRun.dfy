/** One caller drives a session through run_contained_worker: the protocol loop of WorkerProtocol
    with the session's own callbacks behind it
    (src/governor/gpu_admission_session.cpp, src/runtime/native_worker.cpp). */
module SupervisedRun {
  import opened CheckedArithmetic
  import opened SupervisorAdmission
  import opened AdmissionToken
  import opened SessionModel
  import opened SessionRuns
  import Protocol = WorkerProtocol
  import opened WorkerProtocol

  /** Live evidence for the context-ready callback: refused outright, or a Stage B decision. */
  datatype ContextInput =
    | EvidenceRejected(failure: string)
    | Evaluated(cell: Cell, luid: Luid, processId: u32, decision: PostDecision, at: u64, validity: u64, failure: string)

  /** Live evidence for a heartbeat: none, or a sample and the watchdog's decision on it. */
  datatype BeatInput = BeatUnavailable | Sampled(processId: u32, evaluated: u64, accepted: bool)

  /** Everything from outside while one line is handled. */
  datatype Input = Input(
    now: u64, mid: u64, later: u64, cancelAt: u64, context: ContextInput, beat: BeatInput,
    emergency: bool, admitWritten: bool)

  function NoGrant(failure: string): Grant { Grant(false, 0, 0, 0, failure) }

  // ----- the callbacks -----

  function ContextCallback(t: Tracked, c: ContextInput): (Tracked, Grant) {
    if t.s.worker.None? then (t, NoGrant(""))
    else match c
      case EvidenceRejected(failure) => (Step(t, CallRejectEvidence), NoGrant(failure))
      case Evaluated(cell, luid, processId, d, at, validity, failure) =>
        var t1 := Step(t, CallAdmitPost(cell, luid, processId, d));
        if !t1.s.state.PostContextAdmitted? then (t1, NoGrant(failure))
        else
          var t2 := Step(t1, CallIssue(at, validity));
          if !IssueSucceeds(t1.s, at, validity) then (t2, NoGrant("token_issue_failed"))
          else
            var token := IssuedToken(t1.s, at, validity);
            (Step(t2, CallStorePending(token)), Grant(true, token.tokenId, token.cap, token.expires, ""))
  }

  function ConsumedCallback(t: Tracked, tokenId: u64, now: u64): (Tracked, bool) {
    var t1 := Step(t, CallTakePending(tokenId));
    if t.s.pending.None? || t.s.pending.value.tokenId != tokenId then (t1, false)
    else
      var token := t.s.pending.value;
      (Step(t1, CallConsume(token, true, now)), ConsumeSucceeds(t1.s, token, true, now))
  }

  function BeatCallback(t: Tracked, b: BeatInput): (Tracked, bool) {
    if t.s.worker.None? || t.s.post.None? || b.BeatUnavailable? then (t, false)
    else (Step(t, CallWatchdog(b.processId, b.evaluated, b.accepted)), WatchdogInOrder(t.s, b.processId) && b.accepted)
  }

  function Deliver(t: Tracked, c: Callback, i: Input): Tracked {
    match c
    case OnContextReady => ContextCallback(t, i.context).0
    case OnTokenConsumed(id) => ConsumedCallback(t, id, i.now).0
    case OnHeartbeat(_) => BeatCallback(t, i.beat).0
    case OnCancelRequested => Step(t, CallRequestCancel(i.cancelAt))
    case OnCancelAck => Step(t, CallAdvance(i.now, true, false, false))
  }

  function DeliverAll(t: Tracked, cs: seq<Callback>, i: Input): Tracked
    decreases |cs|
  {
    if cs == [] then t else DeliverAll(Deliver(t, cs[0], i), cs[1..], i)
  }

  // ----- the loop -----

  /** `accepted` and `refused` count heartbeat callbacks by their answer. */
  datatype System = System(p: Proto, t: Tracked, accepted: nat, refused: nat)

  function AnswersFrom(s: System, i: Input): Answers {
    Answers(i.now, i.mid, i.later, ContextCallback(s.t, i.context).1, ConsumedCallback(s.t, s.p.tokenId, i.now).1,
            BeatCallback(s.t, i.beat).1, i.emergency, i.admitWritten)
  }

  /** The callbacks made between two protocol states. */
  function Made(p: Proto, p': Proto): seq<Callback> {
    if |p.callbacks| <= |p'.callbacks| then p'.callbacks[|p.callbacks|..] else []
  }

  /** The protocol moves on; the callbacks it made are delivered to the session. */
  function Advance(s: System, p': Proto, i: Input): System {
    var made := Made(s.p, p');
    var beat := made != [] && made[0].OnHeartbeat?;
    System(p', DeliverAll(s.t, made, i),
           s.accepted + (if beat && BeatCallback(s.t, i.beat).1 then 1 else 0),
           s.refused + (if beat && !BeatCallback(s.t, i.beat).1 then 1 else 0))
  }

  datatype Event =
    | Line(message: Message, input: Input)
    | Timer(now: u64, input: Input)
    | Overflow(input: Input)

  /** What the protocol itself does on an event. */
  function ProtoAfter(s: System, cfg: Config, started: u64, e: Event): Proto {
    match e
    case Line(m, i) => ProcessLine(s.p, cfg, m, AnswersFrom(s, i))
    case Timer(now, i) => Poll(s.p, cfg, started, now, i.later)
    case Overflow(i) => Protocol.RequestCancel(s.p, BufferExceeded, i.later)
  }

  function After(s: System, cfg: Config, started: u64, e: Event): System {
    Advance(s, ProtoAfter(s, cfg, started, e), e.input)
  }

  /** Stage B's decisions are made on this session's own Stage A receipt (SessionEvidence). */
  predicate Genuine(s: System, e: Event) {
    e.input.context.Evaluated? ==> PostDecisionSound(e.input.context.decision, s.t.s.pre)
  }

  /** The loop starts once the worker is bound. */
  predicate Started(s: System, started: u64) {
    s.p == NewProto(started) && s.accepted == s.refused == 0 && Inv(s.t) && s.t.s.state.WorkerContained?
  }

  ghost predicate Conversation(ss: seq<System>, es: seq<Event>, cfg: Config, started: u64) {
    && |ss| == |es| + 1 && Started(ss[0], started)
    && forall n :: 0 <= n < |es| ==> Genuine(ss[n], es[n]) && ss[n + 1] == After(ss[n], cfg, started, es[n])
  }

  // ----- protocol state and session state agree -----

  predicate HoldsToken(t: Tracked, tokenId: u64) {
    t.s.state.TokenIssued? && |t.h.issued| == 1 && t.h.issued[0].tokenId == tokenId
    && t.s.pending == Some(t.h.issued[0])
  }

  predicate HasConsumed(t: Tracked, tokenId: u64) {
    |t.h.consumed| == 1 && t.h.consumed == t.h.issued && t.h.consumed[0].tokenId == tokenId
  }

  predicate Agrees(s: System) {
    match s.p.state
    case AwaitContext => s.t.s.state.WorkerContained? && s.accepted == s.refused == 0
    case TokenDelivered => HoldsToken(s.t, s.p.tokenId) && s.accepted == s.refused == 0
    case Active =>
      && HasConsumed(s.t, s.p.tokenId) && s.refused == 0
      && (if s.accepted == 0 then s.t.s.state.TokenConsumed? else s.t.s.state.WatchdogActive?)
    case _ => CancelFits(s)
  }

  /** What the reason for cancelling says about the token and the heartbeats. */
  predicate CancelFits(s: System) {
    && s.refused <= 1
    && (s.p.failure.AdmissionRejected? ==> s.t.h.consumed == [])
    && (s.p.failure.HeartbeatTimeout? ==> |s.t.h.consumed| == 1 && s.refused == 0)
    && (s.p.failure.WatchdogRejected? ==> |s.t.h.consumed| == 1 && (s.refused == 1 || s.p.emergency))
  }

  ghost predicate SystemInv(s: System) { ConversationInv(s.p) && Inv(s.t) && Agrees(s) }

  /** A token issued and stored is the one the session then holds. */
  lemma IssuedIsHeld(t: Tracked, at: u64, validity: u64)
    requires t.h.issued == [] && IssueSucceeds(t.s, at, validity)
    ensures var token := IssuedToken(t.s, at, validity);
      var t' := Step(Step(t, CallIssue(at, validity)), CallStorePending(token));
      HoldsToken(t', token.tokenId) && t'.h.consumed == t.h.consumed
  {}

  lemma PostLeavesHistory(t: Tracked, cell: Cell, luid: Luid, processId: u32, d: PostDecision)
    ensures Step(t, CallAdmitPost(cell, luid, processId, d)).h == t.h
  {}

  lemma ContextCallbackKeeps(t: Tracked, c: ContextInput)
    requires Inv(t) && t.s.state.WorkerContained?
    requires c.Evaluated? ==> PostDecisionSound(c.decision, t.s.pre)
    ensures Inv(ContextCallback(t, c).0) && ContextCallback(t, c).0.h.consumed == []
    ensures var (t', grant) := ContextCallback(t, c); grant.admitted ==> HoldsToken(t', grant.tokenId)
  {
    assert t.h.issued == [] && t.h.consumed == [];
    hide Inv, PostDecisionSound, HoldsToken, Next;
    if t.s.worker.Some? {
      match c
      case EvidenceRejected(_) => RejectEvidenceKeeps(t);
      case Evaluated(cell, luid, processId, d, at, validity, _) =>
        AdmitPostKeeps(t, cell, luid, processId, d);
        PostLeavesHistory(t, cell, luid, processId, d);
        var t1 := Step(t, CallAdmitPost(cell, luid, processId, d));
        IssueKeeps(t1, at, validity);
        if t1.s.state.PostContextAdmitted? && IssueSucceeds(t1.s, at, validity) {
          IssuedIsHeld(t1, at, validity);
          StorePendingKeeps(Step(t1, CallIssue(at, validity)), IssuedToken(t1.s, at, validity));
        }
    }
  }

  lemma ConsumedCallbackKeeps(t: Tracked, tokenId: u64, now: u64)
    requires Inv(t) && HoldsToken(t, tokenId)
    ensures Inv(ConsumedCallback(t, tokenId, now).0)
    ensures var (t', ok) := ConsumedCallback(t, tokenId, now);
      ok ==> HasConsumed(t', tokenId) && t'.s.state.TokenConsumed?
  {
    assert t.h.consumed == [];
    hide Inv;
    TakePendingKeeps(t, tokenId);
    var t1 := Step(t, CallTakePending(tokenId));
    ConsumeKeeps(t1, t.s.pending.value, true, now);
  }

  lemma BeatCallbackKeeps(t: Tracked, b: BeatInput)
    requires Inv(t)
    ensures Inv(BeatCallback(t, b).0)
    ensures var (t', ok) := BeatCallback(t, b); t'.h == t.h.(cancels := t'.h.cancels) && (ok ==> t'.s.state.WatchdogActive?)
  {
    hide Inv;
    if b.Sampled? { WatchdogKeeps(t, b.processId, b.evaluated, b.accepted); }
  }

  lemma CancelCallbackKeeps(t: Tracked, i: Input)
    requires Inv(t)
    ensures Inv(Deliver(t, OnCancelRequested, i)) && Inv(Deliver(t, OnCancelAck, i))
  {
    RequestCancelKeeps(t, i.cancelAt);
    AdvanceKeeps(t, i.now, true, false, false);
  }

  /** After the line's own callback, a cancellation may follow. */
  lemma DeliverThenCancel(t: Tracked, c: Callback, i: Input)
    requires Inv(Deliver(t, c, i))
    ensures DeliverAll(t, [c], i) == Deliver(t, c, i)
    ensures DeliverAll(t, [c, OnCancelRequested], i) == Deliver(Deliver(t, c, i), OnCancelRequested, i)
    ensures Inv(DeliverAll(t, [c, OnCancelRequested], i))
    ensures DeliverAll(t, [c, OnCancelRequested], i).h.consumed == Deliver(t, c, i).h.consumed
  {
    hide Inv;
    CancelCallbackKeeps(Deliver(t, c, i), i);
    assert [c, OnCancelRequested][1..] == [OnCancelRequested];
    assert [c][1..] == [];
    var t' := Deliver(t, c, i);
    assert DeliverAll(t', [OnCancelRequested], i) == Deliver(t', OnCancelRequested, i);
  }

  /** The protocol made callback `c`, and cancelled after it or not. */
  predicate MadeCallback(p: Proto, p': Proto, c: Callback) {
    p'.callbacks == p.callbacks + [c] + (if Cancelled(p') && !Cancelled(p) then [OnCancelRequested] else [])
  }

  lemma MadeIsListed(p: Proto, p': Proto, c: Callback)
    requires MadeCallback(p, p', c)
    ensures Made(p, p') == if Cancelled(p') && !Cancelled(p) then [c, OnCancelRequested] else [c]
  {}

  lemma ContextOutcome(s: System, p': Proto, i: Input)
    requires Inv(s.t) && Agrees(s) && s.p.state.AwaitContext? && MadeCallback(s.p, p', OnContextReady)
    requires i.context.Evaluated? ==> PostDecisionSound(i.context.decision, s.t.s.pre)
    requires var grant := ContextCallback(s.t, i.context).1;
      !Cancelled(p') ==> p'.state.TokenDelivered? && p'.tokenId == grant.tokenId && grant.admitted
    requires Cancelled(p') ==> ReasonFits(p'.failure, Some(OnContextReady), true)
    ensures Inv(Advance(s, p', i).t) && Agrees(Advance(s, p', i))
  {
    hide Inv, ContextCallback;
    MadeIsListed(s.p, p', OnContextReady);
    ContextCallbackKeeps(s.t, i.context);
    DeliverThenCancel(s.t, OnContextReady, i);
  }

  lemma TokenOutcome(s: System, p': Proto, i: Input)
    requires Inv(s.t) && Agrees(s) && s.p.state.TokenDelivered? && MadeCallback(s.p, p', OnTokenConsumed(s.p.tokenId))
    requires !Cancelled(p') ==>
      p'.state.Active? && p'.tokenId == s.p.tokenId && ConsumedCallback(s.t, s.p.tokenId, i.now).1
    requires Cancelled(p') ==> ReasonFits(p'.failure, Some(OnTokenConsumed(s.p.tokenId)), true)
    ensures Inv(Advance(s, p', i).t) && Agrees(Advance(s, p', i))
  {
    hide Inv, ConsumedCallback;
    MadeIsListed(s.p, p', OnTokenConsumed(s.p.tokenId));
    ConsumedCallbackKeeps(s.t, s.p.tokenId, i.now);
    DeliverThenCancel(s.t, OnTokenConsumed(s.p.tokenId), i);
  }

  lemma BeatOutcome(s: System, p': Proto, c: Callback, i: Input)
    requires Inv(s.t) && Agrees(s) && s.p.state.Active? && c.OnHeartbeat? && MadeCallback(s.p, p', c)
    requires !Cancelled(p') ==> p'.state.Active? && p'.tokenId == s.p.tokenId && BeatCallback(s.t, i.beat).1
    requires Cancelled(p') ==> ReasonFits(p'.failure, Some(c), !BeatCallback(s.t, i.beat).1 || p'.emergency)
    ensures Inv(Advance(s, p', i).t) && Agrees(Advance(s, p', i))
  {
    hide Inv, BeatCallback;
    MadeIsListed(s.p, p', c);
    BeatCallbackKeeps(s.t, i.beat);
    DeliverThenCancel(s.t, c, i);
  }

  lemma AckOutcome(s: System, p': Proto, i: Input)
    requires Inv(s.t) && Agrees(s) && Cancelled(s.p) && Cancelled(p') && MadeCallback(s.p, p', OnCancelAck)
    requires p'.failure == s.p.failure && (s.p.emergency ==> p'.emergency)
    ensures Inv(Advance(s, p', i).t) && Agrees(Advance(s, p', i))
  {
    hide Inv;
    MadeIsListed(s.p, p', OnCancelAck);
    CancelCallbackKeeps(s.t, i);
    DeliverThenCancel(s.t, OnCancelAck, i);
  }

  /** At most a cancellation. */
  lemma PlainOutcome(s: System, p': Proto, i: Input)
    requires Inv(s.t) && Agrees(s)
    requires p' == s.p || (Cancelled(p') && !Cancelled(s.p) && p'.callbacks == s.p.callbacks + [OnCancelRequested])
    requires p' == s.p || ReasonFits(p'.failure, None, true) || (p'.failure.HeartbeatTimeout? && s.p.state.Active?)
    ensures Inv(Advance(s, p', i).t) && Agrees(Advance(s, p', i))
  {
    hide Inv;
    CancelCallbackKeeps(s.t, i);
    if p' != s.p {
      assert Made(s.p, p') == [OnCancelRequested];
      assert DeliverAll(s.t, [OnCancelRequested], i) == Deliver(s.t, OnCancelRequested, i);
    }
  }

  lemma OutcomeAgrees(s: System, p': Proto, c: Option<Callback>, i: Input)
    requires Inv(s.t) && Agrees(s) && Outcome(s.p, p', c, AnswersFrom(s, i))
    requires i.context.Evaluated? ==> PostDecisionSound(i.context.decision, s.t.s.pre)
    ensures Inv(Advance(s, p', i).t) && Agrees(Advance(s, p', i))
  {
    hide Inv, ContextCallback, ConsumedCallback, BeatCallback, Advance, Agrees;
    match c
    case None => PlainOutcome(s, p', i);
    case Some(OnContextReady) => ContextOutcome(s, p', i);
    case Some(OnTokenConsumed(_)) => TokenOutcome(s, p', i);
    case Some(OnHeartbeat(_)) => BeatOutcome(s, p', c.value, i);
    case Some(OnCancelAck) => AckOutcome(s, p', i);
  }

  lemma AdvanceMovesTo(s: System, p': Proto, i: Input)
    ensures Advance(s, p', i).p == p'
  {}

  lemma LineAgrees(s: System, cfg: Config, m: Message, i: Input)
    requires SystemInv(s)
    requires i.context.Evaluated? ==> PostDecisionSound(i.context.decision, s.t.s.pre)
    ensures SystemInv(Advance(s, ProcessLine(s.p, cfg, m, AnswersFrom(s, i)), i))
  {
    hide Inv, ConversationInv, ProcessLine, CallbackFor, Outcome, Agrees, Advance, AnswersFrom;
    AdvanceMovesTo(s, ProcessLine(s.p, cfg, m, AnswersFrom(s, i)), i);
    LineKeeps(s.p, cfg, m, AnswersFrom(s, i));
    LineOutcome(s.p, cfg, m, AnswersFrom(s, i));
    OutcomeAgrees(s, ProcessLine(s.p, cfg, m, AnswersFrom(s, i)), CallbackFor(s.p, cfg, m), i);
  }

  lemma TimerAgrees(s: System, cfg: Config, started: u64, now: u64, i: Input)
    requires SystemInv(s)
    ensures SystemInv(Advance(s, Poll(s.p, cfg, started, now, i.later), i))
  {
    hide Inv, ConversationInv, Agrees, Advance, Poll;
    AdvanceMovesTo(s, Poll(s.p, cfg, started, now, i.later), i);
    PollKeeps(s.p, cfg, started, now, i.later);
    PollOutcome(s.p, cfg, started, now, i.later);
    PlainOutcome(s, Poll(s.p, cfg, started, now, i.later), i);
  }

  lemma OverflowAgrees(s: System, i: Input)
    requires SystemInv(s)
    ensures SystemInv(Advance(s, Protocol.RequestCancel(s.p, BufferExceeded, i.later), i))
  {
    hide Inv, ConversationInv, Agrees, Advance;
    AdvanceMovesTo(s, Protocol.RequestCancel(s.p, BufferExceeded, i.later), i);
    BufferExceededKeeps(s.p, i.later);
    PlainOutcome(s, Protocol.RequestCancel(s.p, BufferExceeded, i.later), i);
  }

  lemma EventAgrees(s: System, cfg: Config, started: u64, e: Event)
    requires SystemInv(s) && Genuine(s, e)
    ensures SystemInv(After(s, cfg, started, e))
  {
    hide SystemInv, Advance, ProcessLine, Poll, Protocol.RequestCancel, AnswersFrom, PostDecisionSound;
    match e
    case Line(m, i) => LineAgrees(s, cfg, m, i);
    case Timer(now, i) => TimerAgrees(s, cfg, started, now, i);
    case Overflow(i) => OverflowAgrees(s, i);
  }

  lemma {:induction false} ConversationKeepsInv(ss: seq<System>, es: seq<Event>, cfg: Config, started: u64, n: nat)
    requires Conversation(ss, es, cfg, started) && n < |ss|
    ensures SystemInv(ss[n])
  {
    if n > 0 {
      hide SystemInv, After, Genuine;
      ConversationKeepsInv(ss, es, cfg, started, n - 1);
      EventAgrees(ss[n - 1], cfg, started, es[n - 1]);
    }
  }

  // ----- theorems -----

  function Admits(sent: seq<Sent>): nat {
    if sent == [] then 0 else (if sent[0].SentAdmit? then 1 else 0) + Admits(sent[1..])
  }

  function Cancels(sent: seq<Sent>): nat {
    if sent == [] then 0 else (if sent[0].SentCancel? then 1 else 0) + Cancels(sent[1..])
  }

  /** Whatever the worker says and whatever the clock and the evidence answer: at most one ADMIT
      and one CANCEL are written, nothing after CANCEL; the callbacks are a context, its token,
      heartbeats 1, 2, 3, ..., one cancellation and one acknowledgement, in that order; and the
      protocol is Active only while the session has consumed exactly the token ADMIT carried. */
  lemma {:induction false} EveryConversation(ss: seq<System>, es: seq<Event>, cfg: Config, started: u64, n: nat)
    requires Conversation(ss, es, cfg, started) && n < |ss|
    ensures var p, t := ss[n].p, ss[n].t;
      && Admits(p.sent) <= 1 && Cancels(p.sent) <= 1
      && (Cancels(p.sent) == 1 <==> Cancelled(p)) && (Cancelled(p) ==> p.sent[|p.sent| - 1] == SentCancel)
      && ConversationInv(p)
      && (p.state.Active? ==>
            && |p.sent| == 1 && p.sent[0].SentAdmit?
            && |t.h.consumed| == 1 && t.h.consumed[0].tokenId == p.sent[0].tokenId
            && BeatsFrom(p.callbacks, p.tokenId, p.heartbeat) && ss[n].refused == 0)
  {
    hide Conversation, Inv;
    ConversationKeepsInv(ss, es, cfg, started, n);
    CountsOfShort(ss[n].p.sent);
  }

  lemma CountsOfShort(sent: seq<Sent>)
    requires sent == [] || sent == [SentCancel] || (|sent| == 1 && sent[0].SentAdmit?)
             || (|sent| == 2 && sent[0].SentAdmit? && sent[1].SentCancel?)
    ensures Admits(sent) == if sent != [] && sent[0].SentAdmit? then 1 else 0
    ensures Cancels(sent) == if sent != [] && sent[|sent| - 1].SentCancel? then 1 else 0
  {
    if |sent| == 2 {
      assert sent[1..] == [SentCancel];
    }
  }
}
