/** The theorems about admitted, cancelled and cleaned runs speak of something: a bound session whose
    evidence Stage B and the watchdog accept goes on to an accepted success, and complete runs through
    the evaluators' own answers reach Cleaned and JobAbortRequired. */
module CaseReachability {
  import opened CheckedArithmetic
  import opened HostAdmission
  import opened SupervisorAdmission
  import opened SupervisorWatchdog
  import opened AdmissionToken
  import opened SessionModel
  import opened SessionRuns
  import opened SessionClock
  import opened SessionEvidence
  import opened WorkerProtocol
  import opened SupervisedRun
  import opened CasePolicy
  import AdmissionExample
  import Sha256Spec
  import Sha256File

  /** What is gathered for one context and one heartbeat. */
  datatype Gathered = Gathered(request: PostRequest, sequence: u64, sample: WatchdogSample)

  /** Stage B's answer for this session. */
  function Answer(t: Tracked, g: Gathered): PostDecision { EvaluatePost(g.request.(pre := t.s.pre), g.sequence) }

  /** A freshly bound session, and evidence about it that Stage B and the watchdog accept. */
  predicate Accepts(t: Tracked, g: Gathered) {
    && Inv(t) && t.s.state.WorkerContained? && t.s.issuer.id != 0 && t.s.issuer.used == []
    && t.s.worker.Some? && t.s.pre.Some?
    && g.request.cell == t.s.cell && g.request.gpu.luid == t.s.luid
    && g.request.owned.processId == t.s.worker.value.processId == g.sample.owned.processId
    && Answer(t, g).PostAdmitted?
    && EvaluateWatchdog(Answer(t, g).receipt, g.sample).ContinueWork()
    && Answer(t, g).receipt.evaluated + Answer(t, g).receipt.timing.guardAge <= U64_MAX
  }

  lemma AnswerIsSound(t: Tracked, g: Gathered)
    requires Accepts(t, g)
    ensures var q := Answer(t, g).receipt;
      PostReceiptWellFormed(q) && Refines(t.s.pre.value, q) && q.cell == t.s.cell && q.evaluated > 0
  {
    hide TokensFit, SpendingFits, CancellationFits, StateFits, EvaluatePost, EvaluateWatchdog;
    StageBReceiptSound(g.request.(pre := t.s.pre), g.sequence);
  }

  function TokenFor(t: Tracked, q: PostReceipt): Token
    requires t.s.worker.Some? && q.evaluated < U64_MAX
  {
    Token(t.s.issuer.id, 1, q.id, t.s.cell, Identity(t.s.worker.value), q.evaluated, q.evaluated + 1, q.cap)
  }

  /** A session that may act on receipt `q`. */
  predicate Ready(t: Tracked, q: PostReceipt) {
    && t.s.state.WorkerContained? && t.s.issuer == IssuerState(t.s.issuer.id, 1, []) && t.s.issuer.id != 0
    && t.s.worker.Some? && ContainmentValid(t.s.worker.value) && t.s.pre.Some? && t.h.issued == [] && t.h.consumed == []
    && PostReceiptWellFormed(q) && q.cell == t.s.cell && q.evaluated + q.timing.guardAge <= U64_MAX
  }

  lemma AcceptsIsReady(t: Tracked, g: Gathered)
    requires Accepts(t, g)
    ensures Ready(t, Answer(t, g).receipt)
  {
    AnswerIsSound(t, g);
    hide Answer, EvaluateWatchdog, PostReceiptWellFormed, SpendingFits, CancellationFits;
  }

  // ----- the session's steps -----

  function Pending(t: Tracked, q: PostReceipt): Tracked
    requires Ready(t, q)
  {
    Tracked(t.s.(post := Some(q), postClaimed := true, state := TokenIssued,
                 issuer := IssuerState(t.s.issuer.id, 2, [q.id]), pending := Some(TokenFor(t, q))),
            t.h.(issued := [TokenFor(t, q)]))
  }

  function Spent(t: Tracked, q: PostReceipt): Tracked
    requires Ready(t, q)
  {
    Tracked(Pending(t, q).s.(pending := None, state := TokenConsumed), Pending(t, q).h.(consumed := [TokenFor(t, q)]))
  }

  function Watched(t: Tracked, q: PostReceipt): Tracked
    requires Ready(t, q)
  {
    Tracked(Spent(t, q).s.(state := WatchdogActive), Spent(t, q).h)
  }

  lemma IssueWorks(t: Tracked, q: PostReceipt)
    requires Ready(t, q)
    ensures var t1 := Tracked(t.s.(post := Some(q), postClaimed := false, state := PostContextAdmitted), t.h);
      && IssueSucceeds(t1.s, q.evaluated, 1) && IssuedToken(t1.s, q.evaluated, 1) == TokenFor(t, q)
  {}

  lemma PostStep(t: Tracked, q: PostReceipt)
    requires Ready(t, q)
    ensures Step(t, CallAdmitPost(t.s.cell, t.s.luid, t.s.worker.value.processId, PostAdmitted(q)))
         == Tracked(t.s.(post := Some(q), postClaimed := false, state := PostContextAdmitted), t.h)
  {}

  lemma IssueStep(t: Tracked, q: PostReceipt)
    requires Ready(t, q)
    ensures var t1 := Tracked(t.s.(post := Some(q), postClaimed := false, state := PostContextAdmitted), t.h);
      Step(t1, CallIssue(q.evaluated, 1))
        == Tracked(Pending(t, q).s.(pending := t.s.pending), Pending(t, q).h)
  {
    assert t.s.issuer == IssuerState(t.s.issuer.id, 1, []) && t.h.issued == [];
    hide IssueSucceeds, IssuedToken, Ready;
    IssueWorks(t, q);
  }

  lemma GrantWorks(t: Tracked, q: PostReceipt)
    requires Ready(t, q)
    ensures ContextCallback(t, Evaluated(t.s.cell, t.s.luid, t.s.worker.value.processId, PostAdmitted(q), q.evaluated, 1, ""))
         == (Pending(t, q), Grant(true, 1, q.cap, q.evaluated + 1, ""))
  {
    PostStep(t, q);
    IssueStep(t, q);
    IssueWorks(t, q);
    hide IssueSucceeds, IssuedToken, Ready;
  }

  lemma SpendWorks(t: Tracked, q: PostReceipt)
    requires Ready(t, q)
    ensures ConsumedCallback(Pending(t, q), 1, q.evaluated) == (Spent(t, q), true)
  {
    TakeStep(t, q);
    SpendStep(t, q);
    SpendSucceeds(t, q);
    hide Step, ConsumeSucceeds, Ready;
  }

  lemma SpendSucceeds(t: Tracked, q: PostReceipt)
    requires Ready(t, q)
    ensures ConsumeSucceeds(Pending(t, q).s.(pending := None), TokenFor(t, q), true, q.evaluated)
  {}

  lemma BeatWorks(t: Tracked, q: PostReceipt, now: u64)
    requires Ready(t, q)
    ensures BeatCallback(Spent(t, q), Sampled(t.s.worker.value.processId, now, true)) == (Watched(t, q), true)
  {}

  // ----- the conversation -----

  /** The numbers the worker appends to its context line and to its heartbeat. */
  datatype Shown = Shown(context: Trailing<ContextEvidence>, beat: Trailing<HeartbeatEvidence>)

  predicate Suffices(cfg: Config, v: Shown) {
    && ContextFieldsValid(v.context) && HeartbeatFieldsValid(v.beat, cfg)
    && (cfg.requireEvidence ==> v.context.Present? && v.beat.Present?)
  }

  /** The configured payload is one a heartbeat can show. */
  predicate Payable(cfg: Config) { cfg.requireEvidence ==> 0 < cfg.expectedPayload <= cfg.maximumPayload }

  /** Some numbers suffice if and only if the configuration can be paid. */
  lemma SomethingSuffices(cfg: Config)
    ensures Payable(cfg) <==> exists v :: Suffices(cfg, v)
  {
    if !cfg.requireEvidence {
      assert Suffices(cfg, Shown(Absent, Absent));
    } else if Payable(cfg) {
      assert Suffices(cfg, Shown(Present(true, ContextEvidence(Luid(0, 0), 1, 1)),
                                 Present(true, HeartbeatEvidence(cfg.expectedPayload, 1, 1))));
    }
  }

  /** What the outside answers while the three lines are handled: Stage B's and the watchdog's own
      decisions on the evidence gathered. */
  function Calm(t: Tracked, g: Gathered): Input
    requires Answer(t, g).PostAdmitted?
  {
    var q := Answer(t, g).receipt;
    Input(q.evaluated, q.evaluated, q.evaluated, q.evaluated,
          Evaluated(g.request.cell, g.request.gpu.luid, g.request.owned.processId, Answer(t, g), q.evaluated, 1, ""),
          Sampled(g.sample.owned.processId, g.sample.evaluated, EvaluateWatchdog(q, g.sample).ContinueWork()),
          false, true)
  }

  function Greeting(v: Shown, i: Input): Event { Line(ContextReady(v.context), i) }

  function Spending(i: Input): Event { Line(TokenConsumedLine(Some(1), false), i) }

  function Beating(v: Shown, i: Input): Event { Line(Heartbeat(Some(1), v.beat), i) }

  /** A line that makes one callback and does not cancel. */
  lemma OneCallback(s: System, p': Proto, c: Callback, i: Input)
    requires MadeCallback(s.p, p', c) && !Cancelled(p')
    ensures Advance(s, p', i).p == p' && Advance(s, p', i).t == Deliver(s.t, c, i)
    ensures !c.OnHeartbeat? ==> Advance(s, p', i).accepted == s.accepted && Advance(s, p', i).refused == s.refused
    ensures c.OnHeartbeat? && BeatCallback(s.t, i.beat).1 ==>
      Advance(s, p', i).accepted == s.accepted + 1 && Advance(s, p', i).refused == s.refused
  {
    MadeIsListed(s.p, p', c);
    assert [c][1..] == [];
    hide Deliver;
    assert DeliverAll(s.t, [c], i) == DeliverAll(Deliver(s.t, c, i), [], i);
  }

  /** An input without interference. */
  predicate Quick(i: Input) { i.now == i.mid == i.later && !i.emergency && i.admitWritten }

  lemma AfterGreeting(s: System, cfg: Config, v: Shown, i: Input, started: u64, t': Tracked, grant: Grant) returns (s': System)
    requires Suffices(cfg, v) && Quick(i) && s.p == NewProto(started) && ContextCallback(s.t, i.context) == (t', grant)
    requires GrantUsable(grant, i.now)
    ensures s' == After(s, cfg, started, Greeting(v, i))
    ensures s'.p.state.TokenDelivered? && s'.p.tokenId == grant.tokenId && s'.p.heartbeat == 0 && s'.p.failure.NoFailure?
    ensures !s'.p.emergency && s'.accepted == s.accepted && s'.refused == s.refused && s'.t == t'
  {
    hide ContextCallback, ConsumedCallback, BeatCallback;
    s' := After(s, cfg, started, Greeting(v, i));
    OneCallback(s, ProtoAfter(s, cfg, started, Greeting(v, i)), OnContextReady, i);
  }

  lemma AfterSpending(s: System, cfg: Config, i: Input, started: u64, t': Tracked) returns (s': System)
    requires Quick(i) && s.p.state.TokenDelivered? && s.p.tokenId == 1 && !s.p.emergency
    requires ConsumedCallback(s.t, 1, i.now) == (t', true)
    ensures s' == After(s, cfg, started, Spending(i))
    ensures s'.p.state.Active? && s'.p.heartbeat == s.p.heartbeat && s'.p.failure == s.p.failure && !s'.p.emergency
    ensures s'.accepted == s.accepted && s'.refused == s.refused && s'.t == t'
  {
    hide ConsumedCallback, ContextCallback, BeatCallback;
    s' := After(s, cfg, started, Spending(i));
    OneCallback(s, ProtoAfter(s, cfg, started, Spending(i)), OnTokenConsumed(1), i);
  }

  lemma AfterBeating(s: System, cfg: Config, v: Shown, i: Input, started: u64, t': Tracked) returns (s': System)
    requires Suffices(cfg, v) && Quick(i) && s.p.state.Active? && s.p.heartbeat == 0 && !s.p.emergency && s.p.failure.NoFailure?
    requires BeatCallback(s.t, i.beat) == (t', true)
    ensures s' == After(s, cfg, started, Beating(v, i))
    ensures s'.p.state.Active? && s'.p.failure.NoFailure?
    ensures s'.accepted == s.accepted + 1 && s'.refused == s.refused && s'.t == t'
  {
    hide ConsumedCallback, ContextCallback, BeatCallback;
    s' := After(s, cfg, started, Beating(v, i));
    OneCallback(s, ProtoAfter(s, cfg, started, Beating(v, i)), OnHeartbeat(1), i);
  }

  /** The input that carries receipt `q` and an accepted heartbeat. */
  predicate Carries(i: Input, t: Tracked, q: PostReceipt) {
    && t.s.worker.Some? && Quick(i) && i.now == q.evaluated && i.beat.Sampled? && i.beat.accepted
    && i.beat.processId == t.s.worker.value.processId
    && i.context == Evaluated(t.s.cell, t.s.luid, t.s.worker.value.processId, PostAdmitted(q), q.evaluated, 1, "")
  }

  lemma ThreeLines(t: Tracked, q: PostReceipt, cfg: Config, v: Shown, i: Input, started: u64)
    returns (s1: System, s2: System, s3: System)
    requires Suffices(cfg, v) && Ready(t, q) && Carries(i, t, q)
    ensures var s0 := System(NewProto(started), t, 0, 0);
      && s1 == After(s0, cfg, started, Greeting(v, i)) && s2 == After(s1, cfg, started, Spending(i))
      && s3 == After(s2, cfg, started, Beating(v, i))
    ensures s1.t == Pending(t, q) && s2.t == Spent(t, q) && s3.t == Watched(t, q)
    ensures s3.p.state.Active? && s3.p.failure.NoFailure? && s3.accepted == 1 && s3.refused == 0
  {
    CapIsPositive(q);
    GrantWorks(t, q);
    SpendWorks(t, q);
    BeatWorks(t, q, i.beat.evaluated);
    hide After, ContextCallback, ConsumedCallback, BeatCallback, Ready;
    var s0 := System(NewProto(started), t, 0, 0);
    s1 := AfterGreeting(s0, cfg, v, i, started, Pending(t, q), Grant(true, 1, q.cap, q.evaluated + 1, ""));
    s2 := AfterSpending(s1, cfg, i, started, Spent(t, q));
    s3 := AfterBeating(s2, cfg, v, i, started, Watched(t, q));
  }

  lemma GenuineFor(s: System, e: Event, p: PreReceipt, q: PostReceipt)
    requires e.input.context.Evaluated? && e.input.context.decision == PostAdmitted(q) && s.t.s.pre == Some(p)
    requires PostReceiptWellFormed(q) && Refines(p, q)
    ensures Genuine(s, e)
  {}

  lemma CalmCarries(t: Tracked, g: Gathered)
    requires Accepts(t, g)
    ensures Carries(Calm(t, g), t, Answer(t, g).receipt)
  {
    hide Inv, Answer, EvaluateWatchdog;
  }

  lemma StartedHere(t: Tracked, started: u64)
    requires Inv(t) && t.s.state.WorkerContained?
    ensures Started(System(NewProto(started), t, 0, 0), started)
  {}

  lemma Assembled(ss: seq<System>, es: seq<Event>, cfg: Config, started: u64)
    requires |ss| == 4 && |es| == 3 && Started(ss[0], started)
    requires Genuine(ss[0], es[0]) && Genuine(ss[1], es[1]) && Genuine(ss[2], es[2])
    requires ss[1] == After(ss[0], cfg, started, es[0]) && ss[2] == After(ss[1], cfg, started, es[1])
    requires ss[3] == After(ss[2], cfg, started, es[2])
    ensures Conversation(ss, es, cfg, started)
  {
    hide After, Started, Genuine;
  }

  lemma AllGenuine(t: Tracked, q: PostReceipt, v: Shown, i: Input, s0: System, s1: System, s2: System)
    requires Carries(i, t, q) && t.s.pre.Some? && PostReceiptWellFormed(q) && Refines(t.s.pre.value, q)
    requires s0.t == t && Ready(t, q) && s1.t == Pending(t, q) && s2.t == Spent(t, q)
    ensures Genuine(s0, Greeting(v, i)) && Genuine(s1, Spending(i)) && Genuine(s2, Beating(v, i))
  {
    hide Genuine, PostReceiptWellFormed, Refines, Inv;
    var p := t.s.pre.value;
    GenuineFor(s0, Greeting(v, i), p, q);
    GenuineFor(s1, Spending(i), p, q);
    GenuineFor(s2, Beating(v, i), p, q);
  }

  /** From a bound session whose evidence is accepted, three honest lines lead to an active worker, under
      every configuration their numbers suffice for. */
  lemma ActiveIsReachable(t: Tracked, g: Gathered, cfg: Config, v: Shown, started: u64)
    returns (ss: seq<System>, es: seq<Event>)
    requires Accepts(t, g) && Suffices(cfg, v)
    ensures Conversation(ss, es, cfg, started) && |es| == 3 && |ss| == 4
    ensures es == [Greeting(v, Calm(t, g)), Spending(Calm(t, g)), Beating(v, Calm(t, g))]
    ensures ss[0] == System(NewProto(started), t, 0, 0)
    ensures ss[3].p.state.Active? && ss[3].p.failure.NoFailure? && ss[3].accepted == 1 && ss[3].refused == 0
    ensures Ready(t, Answer(t, g).receipt) && ss[3].t == Watched(t, Answer(t, g).receipt)
  {
    hide Inv, PostReceiptWellFormed, Refines, EvaluatePost, EvaluateWatchdog, Started, Genuine, Carries, After,
      Conversation, Watched, Greeting, Spending, Beating, Calm;
    AcceptsIsReady(t, g);
    AnswerIsSound(t, g);
    CalmCarries(t, g);
    StartedHere(t, started);
    hide Ready, Answer;
    var q, i := Answer(t, g).receipt, Calm(t, g);
    var s0 := System(NewProto(started), t, 0, 0);
    var s1, s2, s3 := ThreeLines(t, q, cfg, v, i, started);
    AllGenuine(t, q, v, i, s0, s1, s2);
    ss, es := [s0, s1, s2, s3], [Greeting(v, i), Spending(i), Beating(v, i)];
    Assembled(ss, es, cfg, started);
  }

  lemma CapIsPositive(q: PostReceipt)
    requires PostReceiptWellFormed(q)
    ensures q.cap > 0
  {}

  // ----- the success case -----

  /** Everything went well. */
  const FINE := Observed(true, true, false, false, false, false, false, false, true, false, true, 0, true, true, true)

  /** Device evidence whose hashes are real digests. */
  function Proof(): DeviceEvidence {
    DeviceEvidence(true, "completed", Sha256Spec.Digest([]), Sha256Spec.Digest([1]))
  }

  lemma ProofIsComplete()
    ensures EvidenceComplete(CleanupEvidence(ALL_WELL, Proof()))
  {
    Sha256File.DigestIsEvidence([]);
    Sha256File.DigestIsEvidence([1]);
    hide IsSha256, Sha256Spec.Digest;
  }

  lemma FineIsOk(p: Proto)
    requires p.state.Active? && p.failure.NoFailure?
    ensures FinalResult(p, FINE) == WorkerResult(true, NoFailure, false, 0, ALL_WELL)
  {}

  lemma CleanedAtOnce(t: Tracked, r: WorkerResult, d: DeviceEvidence, now: u64)
    requires t.s.state.WatchdogActive? && t.s.post.Some? && t.s.cancelAt == 0 && now != 0 && r.flags == ALL_WELL
    requires EvidenceComplete(CleanupEvidence(ALL_WELL, d))
    ensures ReportedCleanup(t, r, d, now).Cleaned?
  {
    hide EvidenceComplete, Record;
  }

  lemma NotCancelled(t: Tracked)
    requires Inv(t) && t.s.state.WorkerContained?
    ensures t.s.cancelAt == 0 && t.h.cancels == []
  {
    hide ReceiptsFit, StateFits, TokensFit, SpendingFits;
  }

  /** Every bound session whose evidence Stage B and the watchdog accept can end in an accepted success,
      under every configuration the worker's numbers suffice for. */
  lemma SuccessIsReachable(t: Tracked, g: Gathered, cfg: Config, v: Shown, started: u64, now: u64)
    returns (ss: seq<System>, es: seq<Event>)
    requires Accepts(t, g) && Suffices(cfg, v) && now != 0
    ensures Conversation(ss, es, cfg, started) && ss[0].t == t
    ensures var s := ss[|es|]; var r := FinalResult(s.p, FINE);
      MatchesContract(Success, r, ReportedCleanup(s.t, r, Proof(), now), true)
  {
    NotCancelled(t);
    hide Conversation, ReportedCleanup, FinalResult, Proof, EvidenceComplete, Inv, Ready, Answer, EvaluateWatchdog;
    ss, es := ActiveIsReachable(t, g, cfg, v, started);
    FineIsOk(ss[3].p);
    ProofIsComplete();
    CleanedAtOnce(ss[3].t, FinalResult(ss[3].p, FINE), Proof(), now);
  }

  lemma {:induction false} NeverHeard(ss: seq<System>, es: seq<Event>, cfg: Config, started: u64, n: nat)
    requires Conversation(ss, es, cfg, started) && n < |ss| && !Payable(cfg)
    ensures ss[n].accepted == 0
  {
    hide Conversation, After, Payable;
    ConversationMoves(ss, es, cfg, started, n);
    if n > 0 {
      NeverHeard(ss, es, cfg, started, n - 1);
      UnpaidIsUnheard(ss[n - 1], cfg, started, es[n - 1]);
    }
  }

  lemma ConversationMoves(ss: seq<System>, es: seq<Event>, cfg: Config, started: u64, n: nat)
    requires Conversation(ss, es, cfg, started) && n < |ss|
    ensures n == 0 ==> ss[n].accepted == 0
    ensures n > 0 ==> n <= |es| && ss[n] == After(ss[n - 1], cfg, started, es[n - 1])
  {
    hide After, Genuine, Inv;
  }

  /** No event makes a heartbeat callback. */
  lemma UnpaidIsUnheard(s: System, cfg: Config, started: u64, e: Event)
    requires !Payable(cfg)
    ensures After(s, cfg, started, e).accepted == s.accepted
  {
    hide DeliverAll, BeatCallback, ContextCallback, ConsumedCallback;
    match e
    case Line(m, i) =>
      LineOutcome(s.p, cfg, m, AnswersFrom(s, i));
      hide ProcessLine, AnswersFrom;
    case Timer(now, i) =>
      PollOutcome(s.p, cfg, started, now, i.later);
      hide Poll;
    case Overflow(i) =>
  }

  /** Under any other configuration no run at all is accepted as a success: it needs a heartbeat, and
      no heartbeat is heard. */
  lemma {:induction false} UnpaidNeverSucceeds(ss: seq<System>, es: seq<Event>, cfg: Config, started: u64,
                           o: Observed, d: DeviceEvidence, now: u64, removed: bool)
    requires Conversation(ss, es, cfg, started) && !Payable(cfg)
    ensures var s := ss[|es|]; var r := FinalResult(s.p, o);
      !MatchesContract(Success, r, ReportedCleanup(s.t, r, d, now), removed)
  {
    hide MatchesContract, FinalResult, ReportedCleanup, Payable;
    var s := ss[|es|];
    var r := FinalResult(s.p, o);
    NeverHeard(ss, es, cfg, started, |es|);
    if MatchesContract(Success, r, ReportedCleanup(s.t, r, d, now), removed) {
      SuccessContract(ss, es, cfg, started, o, d, now, removed);
    }
  }

  // ----- complete runs -----

  lemma StoreStep(t: Tracked, q: PostReceipt)
    requires Ready(t, q)
    ensures Step(Tracked(Pending(t, q).s.(pending := t.s.pending), Pending(t, q).h), CallStorePending(TokenFor(t, q)))
         == Pending(t, q)
  {}

  lemma TakeStep(t: Tracked, q: PostReceipt)
    requires Ready(t, q)
    ensures Step(Pending(t, q), CallTakePending(1)) == Tracked(Pending(t, q).s.(pending := None), Pending(t, q).h)
  {}

  lemma SpendStep(t: Tracked, q: PostReceipt)
    requires Ready(t, q)
    ensures Step(Tracked(Pending(t, q).s.(pending := None), Pending(t, q).h),
                 CallConsume(TokenFor(t, q), true, q.evaluated)) == Spent(t, q)
  {
    assert t.h.consumed == [] && t.h.consumed + [TokenFor(t, q)] == [TokenFor(t, q)];
    hide ConsumeSucceeds, Ready, Step, TokenFor;
    SpendSucceeds(t, q);
    ConsumeSteps(Tracked(Pending(t, q).s.(pending := None), Pending(t, q).h), TokenFor(t, q), true, q.evaluated);
  }

  lemma WatchStep(t: Tracked, q: PostReceipt, now: u64)
    requires Ready(t, q)
    ensures Step(Spent(t, q), CallWatchdog(t.s.worker.value.processId, now, true)) == Watched(t, q)
  {}

  /** Stage B, issue and store, with Stage B's own decision. */
  lemma GrantedRun(ts: seq<Tracked>, calls: seq<Call>, q: PostReceipt)
    returns (ts': seq<Tracked>, calls': seq<Call>)
    requires Run(ts, calls) && |ts| == |calls| + 1 && Ready(ts[|calls|], q)
    requires PostDecisionSound(PostAdmitted(q), ts[|calls|].s.pre)
    ensures Run(ts', calls') && calls <= calls' && ts <= ts' && |ts'| == |calls'| + 1 && |calls'| == |calls| + 3
    ensures var s := ts[|calls|].s;
      calls'[|calls|] == CallAdmitPost(s.cell, s.luid, s.worker.value.processId, PostAdmitted(q))
    ensures ts'[|calls'|] == Pending(ts[|calls|], q)
  {
    var t := ts[|calls|];
    var c0 := CallAdmitPost(t.s.cell, t.s.luid, t.s.worker.value.processId, PostAdmitted(q));
    var c1, c2 := CallIssue(q.evaluated, 1), CallStorePending(TokenFor(t, q));
    PostStep(t, q);
    IssueStep(t, q);
    StoreStep(t, q);
    hide Run, Step, Ready;
    var u0 := Step(t, c0);
    var u1 := Step(u0, c1);
    RunExtends(ts, calls, c0);
    RunExtends(ts + [u0], calls + [c0], c1);
    RunExtends(ts + [u0] + [u1], calls + [c0] + [c1], c2);
    ts', calls' := ts + [u0] + [u1] + [Step(u1, c2)], calls + [c0] + [c1] + [c2];
  }

  /** The token taken and spent, and a heartbeat accepted. */
  lemma WatchedRun(ts: seq<Tracked>, calls: seq<Call>, t: Tracked, q: PostReceipt, now: u64)
    returns (ts': seq<Tracked>, calls': seq<Call>)
    requires Run(ts, calls) && |ts| == |calls| + 1 && Ready(t, q) && ts[|calls|] == Pending(t, q)
    ensures Run(ts', calls') && calls <= calls' && ts <= ts' && |ts'| == |calls'| + 1 && |calls'| == |calls| + 3
    ensures calls'[|calls'| - 1] == CallWatchdog(t.s.worker.value.processId, now, true)
    ensures ts'[|calls'| - 1] == Spent(t, q) && ts'[|calls'|] == Watched(t, q)
  {
    var c0, c1 := CallTakePending(1), CallConsume(TokenFor(t, q), true, q.evaluated);
    var c2 := CallWatchdog(t.s.worker.value.processId, now, true);
    TakeStep(t, q);
    SpendStep(t, q);
    WatchStep(t, q, now);
    hide Run, Step, Ready;
    var u0 := Step(ts[|calls|], c0);
    var u1 := Step(u0, c1);
    RunExtends(ts, calls, c0);
    RunExtends(ts + [u0], calls + [c0], c1);
    RunExtends(ts + [u0] + [u1], calls + [c0] + [c1], c2);
    ts', calls' := ts + [u0] + [u1] + [Step(u1, c2)], calls + [c0] + [c1] + [c2];
  }

  /** Stage B's and the watchdog's own answers, as calls of a run, lead to WatchdogActive. */
  lemma ActiveRun(ts: seq<Tracked>, calls: seq<Call>, g: Gathered) returns (ts': seq<Tracked>, calls': seq<Call>)
    requires Run(ts, calls) && |ts| == |calls| + 1 && Accepts(ts[|calls|], g)
    ensures Run(ts', calls') && calls <= calls' && ts <= ts' && |ts'| == |calls'| + 1 && |calls'| == |calls| + 6
    ensures calls'[|calls|] == PostCall(ts[|calls|].s, g.request, g.sequence)
    ensures calls'[|calls'| - 1] == WatchdogCall(ts'[|calls'| - 1].s, g.sample)
    ensures Ready(ts[|calls|], Answer(ts[|calls|], g).receipt)
    ensures ts'[|calls'|] == Watched(ts[|calls|], Answer(ts[|calls|], g).receipt)
  {
    var t := ts[|calls|];
    AcceptsIsReady(t, g);
    AnswerIsSound(t, g);
    var q := Answer(t, g).receipt;
    assert PostDecisionSound(PostAdmitted(q), t.s.pre);
    assert PostCall(t.s, g.request, g.sequence)
        == CallAdmitPost(t.s.cell, t.s.luid, t.s.worker.value.processId, PostAdmitted(q));
    hide Run, Ready, Inv, PostDecisionSound, EvaluatePost, EvaluateWatchdog;
    ts', calls' := GrantedRun(ts, calls, q);
    ts', calls' := WatchedRun(ts', calls', t, q, g.sample.evaluated);
  }

  const WORKER := Containment(7, "job", "worker", 1, 1, 1)

  function ExampleEvidence(): Gathered {
    Gathered(AdmissionExample.ExampleFollowUp(), 1, AdmissionExample.ExampleSample())
  }

  /** A new session admitted by Stage A on a concrete request, its worker bound. */
  lemma BoundRun() returns (ts: seq<Tracked>, calls: seq<Call>)
    ensures Run(ts, calls) && |ts| == 3 && |calls| == 2 && Accepts(ts[2], ExampleEvidence())
    ensures ts[0].s == NewSession(AdmissionExample.ExampleCell(), AdmissionExample.ADAPTER, 1)
    ensures calls == [PreCall(ts[0].s, AdmissionExample.ExampleRequest()), CallBind(WORKER)]
    ensures ts[2].s == ts[0].s.(pre := Some(AdmissionExample.ExampleReceipt()), worker := Some(WORKER), state := WorkerContained)
  {
    var s0 := NewSession(AdmissionExample.ExampleCell(), AdmissionExample.ADAPTER, 1);
    var t0, c0, c1 := Tracked(s0, NewHistory()), PreCall(s0, AdmissionExample.ExampleRequest()), CallBind(WORKER);
    var t1 := Step(t0, c0);
    var t2 := Step(t1, c1);
    FirstSteps(t0);
    PreCallAllowed(t0, AdmissionExample.ExampleRequest());
    assert Run([t0], []);
    hide EvaluatePre, Step, PreCall, Run, Inv, Accepts;
    RunExtends([t0], [], c0);
    RunExtends([t0] + [t1], [] + [c0], c1);
    ts, calls := [t0, t1, t2], [c0, c1];
    assert ts == [t0] + [t1] + [t2] && calls == [] + [c0] + [c1];
    RunKeepsInv(ts, calls, 2);
    ExampleIsAccepted(t2);
  }

  lemma ExampleIsAccepted(t: Tracked)
    requires Inv(t) && t.s == NewSession(AdmissionExample.ExampleCell(), AdmissionExample.ADAPTER, 1).(
      pre := Some(AdmissionExample.ExampleReceipt()), worker := Some(WORKER), state := WorkerContained)
    ensures Accepts(t, ExampleEvidence())
  {
    AdmissionExample.StageBSaysYes();
    AdmissionExample.WatchdogSaysYes();
    hide Inv, EvaluatePost, EvaluateWatchdog;
  }

  /** Stage A's own answer, then the worker bound. */
  lemma FirstSteps(t: Tracked)
    requires t.s == NewSession(AdmissionExample.ExampleCell(), AdmissionExample.ADAPTER, 1)
    ensures var t1 := Step(t, PreCall(t.s, AdmissionExample.ExampleRequest()));
      Step(t1, CallBind(WORKER)).s
        == t.s.(pre := Some(AdmissionExample.ExampleReceipt()), worker := Some(WORKER), state := WorkerContained)
  {
    AdmissionExample.StageASaysYes();
    hide EvaluatePre;
  }
}
