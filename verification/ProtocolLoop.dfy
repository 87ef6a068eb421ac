/** The closures of run_native_worker (src/runtime/native_worker.cpp) that update the protocol
    state in place, proved against WorkerProtocol, with the reader that feeds them. */
module ProtocolLoop {
  import opened CheckedArithmetic
  import opened SupervisorAdmission
  import opened WorkerProtocol
  import opened LineFramer

  /** The loop's whole state: the conversation, the bytes of an unfinished line and how often the
      outside world has been asked for answers. */
  datatype Loop = Loop(p: Proto, pending: string, steps: nat)

  /** How a line reads, and what the outside answers while the k-th step is handled. */
  datatype Outside = Outside(parse: string -> Message, answers: nat -> Answers)

  function HandleLines(p: Proto, cfg: Config, lines: seq<string>, o: Outside, k: nat): Proto
    decreases |lines|
  {
    if lines == [] then p
    else HandleLines(ProcessLine(p, cfg, o.parse(lines[0]), o.answers(k)), cfg, lines[1..], o, k + 1)
  }

  function ReadChunk(l: Loop, cfg: Config, chunk: string, o: Outside): Loop {
    var s := l.pending + chunk;
    if |s| > PENDING_LIMIT then Loop(RequestCancel(l.p, BufferExceeded, o.answers(l.steps).later), "", l.steps + 1)
    else Settled(l.(pending := s), cfg, o)
  }

  /** Every whole line taken. */
  function Settled(l: Loop, cfg: Config, o: Outside): Loop {
    Loop(HandleLines(l.p, cfg, Lines(l.pending), o, l.steps), Rest(l.pending), l.steps + |Lines(l.pending)|)
  }

  /** The first whole line taken. */
  function LineTaken(l: Loop, cfg: Config, o: Outside): Loop
    requires FirstNewline(l.pending) < |l.pending|
  {
    var n := FirstNewline(l.pending);
    Loop(ProcessLine(l.p, cfg, o.parse(l.pending[..n]), o.answers(l.steps)), l.pending[n + 1..], l.steps + 1)
  }

  lemma TakingLinesSettles(l: Loop, cfg: Config, o: Outside)
    ensures FirstNewline(l.pending) == |l.pending| ==> Settled(l, cfg, o) == l
    ensures FirstNewline(l.pending) < |l.pending| ==> Settled(LineTaken(l, cfg, o), cfg, o) == Settled(l, cfg, o)
  {
    hide ProcessLine;
    var n := FirstNewline(l.pending);
    if n < |l.pending| {
      assert Lines(l.pending)[1..] == Lines(l.pending[n + 1..]);
    }
  }

  function ReadChunks(l: Loop, cfg: Config, chunks: seq<string>, o: Outside): Loop {
    if chunks == [] then l
    else ReadChunk(ReadChunks(l, cfg, chunks[..|chunks| - 1], o), cfg, chunks[|chunks| - 1], o)
  }

  lemma {:induction false} HandleLinesResumes(p: Proto, cfg: Config, a: seq<string>, b: seq<string>, o: Outside, k: nat)
    ensures HandleLines(p, cfg, a + b, o, k) == HandleLines(HandleLines(p, cfg, a, o, k), cfg, b, o, k + |a|)
    decreases |a|
  {
    hide ProcessLine;
    if a == [] {
      assert a + b == b;
    } else {
      assert (a + b)[1..] == a[1..] + b;
      HandleLinesResumes(ProcessLine(p, cfg, o.parse(a[0]), o.answers(k)), cfg, a[1..], b, o, k + 1);
    }
  }

  /** The loop after the lines of a stream. */
  function Handled(p: Proto, cfg: Config, s: string, o: Outside): Loop {
    Loop(HandleLines(p, cfg, Lines(s), o, 0), Rest(s), |Lines(s)|)
  }

  lemma OneMoreChunk(p: Proto, cfg: Config, f: string, last: string, o: Outside)
    requires |Rest(f)| + |last| <= PENDING_LIMIT
    ensures ReadChunk(Handled(p, cfg, f, o), cfg, last, o) == Handled(p, cfg, f + last, o)
  {
    hide ProcessLine, Lines, Rest, HandleLines, FirstNewline;
    var a, b, l := Lines(f), Lines(Rest(f) + last), Handled(p, cfg, f, o);
    assert ReadChunk(l, cfg, last, o) == Settled(l.(pending := Rest(f) + last), cfg, o);
    assert HandleLines(p, cfg, a + b, o, 0) == HandleLines(l.p, cfg, b, o, l.steps) by {
      HandleLinesResumes(p, cfg, a, b, o, 0);
    }
    hide ReadChunk;
    SplitResumes(f, last);
  }

  /** While the bound does not trip, the conversation is the one its lines make: how the pipe
      delivered them changes nothing. */
  lemma {:induction false} ChunkingDoesNotMatter(p: Proto, cfg: Config, chunks: seq<string>, o: Outside)
    requires Fits(chunks)
    ensures ReadChunks(Loop(p, "", 0), cfg, chunks, o) == Handled(p, cfg, Flatten(chunks), o)
  {
    if chunks == [] {
      NoLine("");
    } else {
      var init, last := chunks[..|chunks| - 1], chunks[|chunks| - 1];
      FitsIsStepwise(chunks);
      assert chunks[..|chunks| - 1] == init;
      hide Fits, ReadChunk, Handled, Rest;
      ChunkingDoesNotMatter(p, cfg, init, o);
      OneMoreChunk(p, cfg, Flatten(init), last, o);
    }
  }

  lemma {:induction false} HandleLinesKeeps(p: Proto, cfg: Config, lines: seq<string>, o: Outside, k: nat)
    requires ConversationInv(p)
    ensures ConversationInv(HandleLines(p, cfg, lines, o, k))
    decreases |lines|
  {
    if lines != [] {
      LineKeeps(p, cfg, o.parse(lines[0]), o.answers(k));
      HandleLinesKeeps(ProcessLine(p, cfg, o.parse(lines[0]), o.answers(k)), cfg, lines[1..], o, k + 1);
    }
  }

  /** Whatever the bytes are and however they arrive, tripped or not, the conversation stays well formed. */
  lemma {:induction false} AnyBytesKeepConversation(l: Loop, cfg: Config, chunks: seq<string>, o: Outside)
    requires ConversationInv(l.p)
    ensures ConversationInv(ReadChunks(l, cfg, chunks, o).p)
  {
    if chunks != [] {
      var m := ReadChunks(l, cfg, chunks[..|chunks| - 1], o);
      AnyBytesKeepConversation(l, cfg, chunks[..|chunks| - 1], o);
      BufferExceededKeeps(m.p, o.answers(m.steps).later);
      HandleLinesKeeps(m.p, cfg, Lines(m.pending + chunks[|chunks| - 1]), o, m.steps);
    }
  }

  class ProtocolSupervisor {
    const cfg: Config
    const started: u64
    var state: ProtocolState
    var tokenId: u64
    var heartbeat: u64
    var lastHeartbeat: u64
    var consumptionDeadline: u64
    var cancelSentAt: u64
    var failure: Reason
    var emergency: bool
    var tokenConsumedObserved: bool
    var sent: seq<Sent>
    var callbacks: seq<Callback>
    var pending: string
    var steps: nat

    ghost function Conversation(): Proto
      reads this
    {
      Proto(state, tokenId, heartbeat, lastHeartbeat, consumptionDeadline, cancelSentAt, failure, emergency,
            tokenConsumedObserved, sent, callbacks)
    }

    ghost function Snapshot(): Loop
      reads this
    {
      Loop(Conversation(), pending, steps)
    }

    constructor (cfg: Config, started: u64)
      ensures this.cfg == cfg && this.started == started && Snapshot() == Loop(NewProto(started), "", 0)
    {
      this.cfg, this.started := cfg, started;
      state, tokenId, heartbeat, lastHeartbeat := AwaitContext, 0, 0, started;
      consumptionDeadline, cancelSentAt := 0, 0;
      failure, emergency, tokenConsumedObserved := NoFailure, false, false;
      sent, callbacks, pending, steps := [], [], "", 0;
    }

    method RequestProtocolCancel(reason: Reason, later: u64)
      modifies this
      ensures Snapshot() == old(Snapshot()).(p := RequestCancel(old(Conversation()), reason, later))
    {
      if state.CancelSent? || state.CancelAcked? { return; }
      failure := reason;
      callbacks := callbacks + [OnCancelRequested];
      sent := sent + [SentCancel];
      state := CancelSent;
      cancelSentAt := later;
    }

    method HandleContextReady(context: Trailing<ContextEvidence>, a: Answers)
      modifies this
      ensures Snapshot() == old(Snapshot()).(p := OnContextLine(old(Conversation()), cfg, context, a))
    {
      if !state.AwaitContext? { RequestProtocolCancel(ContextDuplicate, a.later); return; }
      if !ContextFieldsValid(context) { RequestProtocolCancel(ContextEvidenceInvalid, a.later); return; }
      if cfg.requireEvidence && context.Absent? { RequestProtocolCancel(ContextEvidenceRequired, a.later); return; }
      callbacks := callbacks + [OnContextReady];
      emergency := emergency || a.emergency;
      AnswerContext(a);
    }

    method AnswerContext(a: Answers)
      modifies this
      ensures Snapshot() == old(Snapshot()).(p := OnGrant(old(Conversation()), a))
    {
      if !a.grant.admitted || a.grant.tokenId == 0 || a.grant.cap == 0 || a.grant.expires <= a.now {
        RequestProtocolCancel(AdmissionRejected(a.grant.failure), a.later);
        return;
      }
      if emergency { RequestProtocolCancel(AuthorityCallbackTimeout, a.later); return; }
      tokenId := a.grant.tokenId;
      sent := sent + [SentAdmit(tokenId, a.grant.cap)];
      if !a.admitWritten { RequestProtocolCancel(TokenWriteFailed, a.later); return; }
      consumptionDeadline := a.grant.expires;
      state := TokenDelivered;
    }

    method HandleTokenConsumed(id: Option<u64>, extra: bool, a: Answers)
      modifies this
      ensures Snapshot() == old(Snapshot()).(p := OnTokenLine(old(Conversation()), id, extra, a))
    {
      if !state.TokenDelivered? || id.None? || extra || id.value != tokenId {
        RequestProtocolCancel(TokenRejected, a.later);
        return;
      }
      callbacks := callbacks + [OnTokenConsumed(id.value)];
      emergency := emergency || a.emergency;
      if !a.consumed || emergency {
        RequestProtocolCancel(if emergency then AuthorityCallbackTimeout else TokenRejected, a.later);
        return;
      }
      state := Active;
      lastHeartbeat := a.later;
      tokenConsumedObserved := true;
    }

    method HandleHeartbeat(sequence: Option<u64>, beat: Trailing<HeartbeatEvidence>, a: Answers)
      modifies this
      ensures Snapshot() == old(Snapshot()).(p := OnHeartbeatLine(old(Conversation()), cfg, sequence, beat, a))
    {
      if !state.Active? || sequence != Some(Successor(heartbeat)) {
        RequestProtocolCancel(HeartbeatInvalid, a.later);
        return;
      }
      if !HeartbeatFieldsValid(beat, cfg) { RequestProtocolCancel(HeartbeatEvidenceInvalid, a.later); return; }
      if cfg.requireEvidence && beat.Absent? { RequestProtocolCancel(HeartbeatEvidenceRequired, a.later); return; }
      TakeBeat(sequence.value, a);
    }

    /** What follows a good heartbeat line. */
    method TakeBeat(number: u64, a: Answers)
      modifies this
      ensures Snapshot() == old(Snapshot()).(p := OnBeat(old(Conversation()), number, a))
    {
      heartbeat := number;
      lastHeartbeat := a.mid;
      callbacks := callbacks + [OnHeartbeat(number)];
      emergency := emergency || a.emergency;
      if !a.accepted || emergency { RequestProtocolCancel(WatchdogRejected, a.later); }
    }

    method ProcessProtocolLine(m: Message, a: Answers)
      modifies this
      ensures Snapshot() == old(Snapshot()).(p := ProcessLine(old(Conversation()), cfg, m, a))
    {
      match m {
        case Malformed => RequestProtocolCancel(MessageInvalid, a.later);
        case WrongIdentity => RequestProtocolCancel(IdentityMismatch, a.later);
        case ContextReady(c) => HandleContextReady(c, a);
        case TokenConsumedLine(id, extra) => HandleTokenConsumed(id, extra, a);
        case Heartbeat(sequence, h) => HandleHeartbeat(sequence, h, a);
        case CancelAckLine(extra) =>
          if !state.CancelSent? || extra { RequestProtocolCancel(CancelAckInvalid, a.later); return; }
          state := CancelAcked;
          callbacks := callbacks + [OnCancelAck];
          emergency := emergency || a.emergency;
        case UnknownType => RequestProtocolCancel(MessageUnknown, a.later);
      }
    }

    /** The timers of one pass; true when the loop is to be left. */
    method PollTimers(now: u64, later: u64) returns (leave: bool)
      modifies this
      ensures Snapshot() == old(Snapshot()).(p := Poll(old(Conversation()), cfg, started, now, later))
      ensures leave <==>
        || (state.CancelSent? && Elapsed(now, cancelSentAt) >= cfg.cancelAckTimeout)
        || (state.CancelAcked? && Elapsed(now, cancelSentAt) >= cfg.workerExitTimeout)
    {
      if state.AwaitContext? && Elapsed(now, started) >= cfg.contextTimeout {
        RequestProtocolCancel(ContextTimeout, later);
      } else if state.TokenDelivered? && now >= consumptionDeadline {
        RequestProtocolCancel(TokenConsumptionTimeout, later);
      } else if state.Active? && Elapsed(now, lastHeartbeat) >= cfg.heartbeatTimeout {
        RequestProtocolCancel(HeartbeatTimeout, later);
      }
      leave := (state.CancelSent? && Elapsed(now, cancelSentAt) >= cfg.cancelAckTimeout)
        || (state.CancelAcked? && Elapsed(now, cancelSentAt) >= cfg.workerExitTimeout);
    }

    /** One read of the pipe: append, check the bound, take every whole line. */
    method TakeChunk(chunk: string, o: Outside)
      modifies this
      ensures Snapshot() == ReadChunk(old(Snapshot()), cfg, chunk, o)
    {
      pending := pending + chunk;
      if |pending| > PENDING_LIMIT {
        RequestProtocolCancel(BufferExceeded, o.answers(steps).later);
        pending := "";
        steps := steps + 1;
        return;
      }
      ghost var end := Settled(Snapshot(), cfg, o);
      var newline := FirstNewline(pending);
      while newline < |pending|
        invariant newline == FirstNewline(pending) && Settled(Snapshot(), cfg, o) == end
        decreases |pending|
      {
        TakingLinesSettles(Snapshot(), cfg, o);
        TakeLine(newline, o);
        newline := FirstNewline(pending);
      }
      TakingLinesSettles(Snapshot(), cfg, o);
    }

    method TakeLine(newline: nat, o: Outside)
      requires newline == FirstNewline(pending) < |pending|
      modifies this
      ensures Snapshot() == LineTaken(old(Snapshot()), cfg, o)
    {
      var line := pending[..newline];
      pending := pending[newline + 1..];
      ProcessProtocolLine(o.parse(line), o.answers(steps));
      steps := steps + 1;
    }

    /** drain_protocol over the reads the pipe had to offer. */
    method DrainProtocol(chunks: seq<string>, o: Outside)
      modifies this
      ensures Snapshot() == ReadChunks(old(Snapshot()), cfg, chunks, o)
    {
      var i := 0;
      while i < |chunks|
        invariant 0 <= i <= |chunks|
        invariant Snapshot() == ReadChunks(old(Snapshot()), cfg, chunks[..i], o)
      {
        TakeChunk(chunks[i], o);
        i := i + 1;
        assert chunks[..i][..i - 1] == chunks[..i - 1];
      }
      assert chunks[..i] == chunks;
    }
  }
}
