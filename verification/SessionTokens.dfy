/** A session inside the world of all tokens: its issuer and its Stage B receipt are private to it
    (admit_post_context and issue_token are private and keep both to themselves), everybody else does
    what TokenWorld allows. So what the run theorems ask of presented tokens always holds. */
module SessionTokens {
  import opened CheckedArithmetic
  import opened SupervisorAdmission
  import opened AdmissionToken
  import opened SessionModel
  import opened SessionRuns
  import TokenWorld

  type World = TokenWorld.World
  type Handle = TokenWorld.Handle

  datatype Times = Times(now: u64, validity: u64)

  /** The world, the session, the handles of its issuer and of its receipt, and the issue_token call
      it is in the middle of. */
  datatype Joint = Joint(w: World, t: Tracked, issuer: Handle, receipt: Handle, issuing: Option<Times>)

  datatype JointStep =
    | Elsewhere(step: TokenWorld.Step)
    | Called(call: Call)
    | StageB(call: Call, at: Handle)
    | IssueBegins(times: Times)
    | IssueEnds(at: Handle)

  /** The issuer's call, if the session's state lets it come to that. */
  function IssuerCall(j: Joint): Option<IssueCall> {
    if j.issuing.Some? && IssueInOrder(j.t.s)
    then Some(SessionIssueCall(j.t.s, j.issuing.value.now, j.issuing.value.validity)) else None
  }

  /** That call inside the issuer's mutex, if it has passed every check. */
  function Inside(j: Joint): Option<TokenWorld.Pending> {
    var i, c := j.t.s.issuer, IssuerCall(j);
    if c.Some? && IssueVerdict(i.id, i.nextTokenId, i.used, c.value).Issued?
    then Some(TokenWorld.Pending(j.receipt, c.value)) else None
  }

  /** The others keep off the session's issuer and receipt. */
  predicate Others(j: Joint, s: TokenWorld.Step) {
    match s
    case IssueBegin(i, r, _) => i != j.issuer && (j.t.s.post.Some? ==> r != j.receipt)
    case IssueClaim(i, _) => i != j.issuer
    case _ => true
  }

  predicate Admits(s: Session, c: Call)
    requires c.CallAdmitPost?
  {
    PostContextInOrder(s, c.cell, c.luid, c.processId) && c.post.PostAdmitted?
  }

  /** A presented token is some token object. */
  ghost predicate Exists(w: World, token: Token, active: bool) {
    exists o :: o in w.objects && w.objects[o] == TokenWorld.Object(token, active)
  }

  ghost predicate Enabled(j: Joint, s: JointStep) {
    match s
    case Elsewhere(step) => TokenWorld.Enabled(j.w, step) && Others(j, step)
    case Called(c) =>
      && j.issuing.None? && !c.CallAdmitPost? && !c.CallIssue?
      && (c.CallAdmitPre? ==> PreDecisionSound(c.pre, c.cell, c.luid))
      && (c.CallConsume? ==> Exists(j.w, c.token, c.active))
    case StageB(c, at) =>
      && j.issuing.None? && c.CallAdmitPost? && PostDecisionSound(c.post, j.t.s.pre)
      && (Admits(j.t.s, c) ==> TokenWorld.Enabled(j.w, TokenWorld.NewReceipt(at, c.post.receipt)))
    case IssueBegins(_) => j.issuing.None? && (IssueInOrder(j.t.s) ==> CanBegin(j))
    case IssueEnds(at) => j.issuing.Some? && (Inside(j).Some? ==> CanEnd(j, at))
  }

  /** These restrict nothing: IssueIsNeverStuck. */
  predicate CanBegin(j: Joint) {
    && j.issuer in j.w.issuers && j.w.issuers[j.issuer].pending.None?
    && j.receipt in j.w.receipts && j.t.s.post == Some(j.w.receipts[j.receipt].value)
  }

  predicate CanEnd(j: Joint, at: Handle) { TokenWorld.Enabled(j.w, TokenWorld.IssueClaim(j.issuer, at)) }

  ghost function Next(j: Joint, s: JointStep): Joint
    requires Enabled(j, s)
  {
    match s
    case Elsewhere(step) => j.(w := TokenWorld.Next(j.w, step))
    case Called(c) => j.(t := Step(j.t, c))
    case StageB(c, at) =>
      if Admits(j.t.s, c)
      then j.(t := Step(j.t, c), w := TokenWorld.Next(j.w, TokenWorld.NewReceipt(at, c.post.receipt)), receipt := at)
      else j.(t := Step(j.t, c))
    case IssueBegins(times) =>
      var j' := j.(issuing := Some(times));
      if IssueInOrder(j.t.s)
      then j'.(w := TokenWorld.Next(j.w, TokenWorld.IssueBegin(j.issuer, j.receipt, IssuerCall(j').value))) else j'
    case IssueEnds(at) =>
      var j' := j.(t := Step(j.t, CallIssue(j.issuing.value.now, j.issuing.value.validity)), issuing := None);
      if Inside(j).Some? then j'.(w := TokenWorld.Next(j.w, TokenWorld.IssueClaim(j.issuer, at))) else j'
  }

  /** The world's issuer is the session's, it has minted what the session issued, and the receipt and
      its flag are the session's own. */
  ghost predicate Mirrored(j: Joint) {
    && TokenWorld.Inv(j.w)
    && IssuerMirrored(j.w, j.t, j.issuer, Inside(j))
    && (j.t.s.post.Some? ==> ReceiptMirrored(j.w, j.t.s, j.issuer, j.receipt))
  }

  predicate IssuerMirrored(w: World, t: Tracked, i: Handle, inside: Option<TokenWorld.Pending>) {
    && i in w.issuers
    && w.issuers[i] == TokenWorld.Issuer(t.s.issuer.id, t.s.issuer.nextTokenId, t.s.issuer.used, inside)
    && t.h.issued == TokenWorld.MintedBy(w.minted, i)
  }

  /** Nobody else is about to claim the receipt. */
  predicate Untouched(w: World, i: Handle, r: Handle) {
    forall k :: k in w.issuers && k != i && w.issuers[k].pending.Some? ==> w.issuers[k].pending.value.receipt != r
  }

  predicate ReceiptMirrored(w: World, s: Session, i: Handle, r: Handle)
    requires s.post.Some?
  {
    && r in w.receipts && w.receipts[r] == TokenWorld.Receipt(s.post.value, s.postClaimed)
    && Untouched(w, i, r)
  }

  lemma MirroredMirrors(j: Joint)
    requires Mirrored(j)
    ensures Mirrors(j.t, j.w, j.issuer)
  {}

  // ----- every joint step keeps it -----

  lemma CallLeavesIssuer(t: Tracked, c: Call)
    requires !c.CallAdmitPost? && !c.CallIssue?
    ensures var t' := Step(t, c);
      && t'.s.issuer == t.s.issuer && t'.h.issued == t.h.issued
      && (t'.s.post.None? || (t'.s.post == t.s.post && t'.s.postClaimed == t.s.postClaimed))
  {}

  lemma CalledKeeps(j: Joint, c: Call)
    requires Mirrored(j) && Enabled(j, Called(c))
    ensures Mirrored(Next(j, Called(c))) && Allowed(j.t, c)
  {
    hide TokenWorld.Inv, Step;
    CallLeavesIssuer(j.t, c);
    if c.CallConsume? {
      var o :| o in j.w.objects && j.w.objects[o] == TokenWorld.Object(c.token, c.active);
      MirroredMirrors(j);
      WorldAllows(j.w, j.issuer, o, j.t, c.now);
    }
  }

  lemma StageBKeeps(j: Joint, c: Call, at: Handle)
    requires Mirrored(j) && Enabled(j, StageB(c, at))
    ensures Mirrored(Next(j, StageB(c, at))) && Allowed(j.t, c)
  {
    var t' := Step(j.t, c);
    assert t'.s.issuer == j.t.s.issuer && t'.h.issued == j.t.h.issued;
    if Admits(j.t.s, c) {
      var r := TokenWorld.NewReceipt(at, c.post.receipt);
      assert t'.s.post == Some(c.post.receipt) && !t'.s.postClaimed;
      FreshReceipt(j.w, at);
      TokenWorld.StepKeeps(j.w, r);
      hide TokenWorld.Inv, Step;
    } else {
      assert t'.s.post == j.t.s.post && t'.s.postClaimed == j.t.s.postClaimed;
      hide TokenWorld.Inv, Step;
    }
  }

  lemma FreshReceipt(w: World, at: Handle)
    requires TokenWorld.Inv(w) && at !in w.receipts
    ensures forall k :: k in w.issuers && w.issuers[k].pending.Some? ==> w.issuers[k].pending.value.receipt != at
  {}

  lemma OthersMint(minted: seq<TokenWorld.Minted>, m: TokenWorld.Minted, i: Handle)
    ensures TokenWorld.MintedBy(minted + [m], i) == TokenWorld.MintedBy(minted, i) + if m.issuer == i then [m.token] else []
  {
    assert (minted + [m])[..|minted|] == minted;
  }

  /** What the others leave alone. */
  lemma OthersLeaveIssuer(w: World, s: TokenWorld.Step, i: Handle)
    requires TokenWorld.Enabled(w, s) && i in w.issuers
    requires (s.IssueBegin? ==> s.issuer != i) && (s.IssueClaim? ==> s.issuer != i)
    ensures var w' := TokenWorld.Next(w, s);
      i in w'.issuers && w'.issuers[i] == w.issuers[i] && TokenWorld.MintedBy(w'.minted, i) == TokenWorld.MintedBy(w.minted, i)
  {
    hide IssueVerdict, TokenWorld.MintedBy;
    match s
    case IssueClaim(k, at) => OthersClaim(w, k, at, i);
    case _ =>
  }

  lemma OthersClaim(w: World, k: Handle, at: Handle, i: Handle)
    requires TokenWorld.Enabled(w, TokenWorld.IssueClaim(k, at)) && i in w.issuers && i != k
    ensures var w' := TokenWorld.Next(w, TokenWorld.IssueClaim(k, at));
      i in w'.issuers && w'.issuers[i] == w.issuers[i] && TokenWorld.MintedBy(w'.minted, i) == TokenWorld.MintedBy(w.minted, i)
  {
    var issuer := w.issuers[k];
    var p := issuer.pending.value;
    if !w.receipts[p.receipt].claimed {
      MintIsFaithful(issuer.id, issuer.nextTokenId, issuer.used, p.call);
      OthersMint(w.minted, TokenWorld.Minted(k, p.receipt, Mint(issuer.id, issuer.nextTokenId, p.call)), i);
    }
    hide IssueVerdict, TokenWorld.MintedBy, Mint;
  }

  lemma OthersLeaveReceipt(w: World, s: TokenWorld.Step, i: Handle, r: Handle)
    requires TokenWorld.Enabled(w, s) && r in w.receipts && Untouched(w, i, r)
    requires (s.IssueBegin? ==> s.issuer != i && s.receipt != r) && (s.IssueClaim? ==> s.issuer != i)
    ensures var w' := TokenWorld.Next(w, s);
      r in w'.receipts && w'.receipts[r] == w.receipts[r] && Untouched(w', i, r)
  {
    hide IssueVerdict;
    match s
    case IssueClaim(k, at) => assert w.issuers[k].pending.value.receipt != r;
    case _ =>
  }

  lemma ElsewhereKeeps(j: Joint, s: TokenWorld.Step)
    requires Mirrored(j) && Enabled(j, Elsewhere(s))
    ensures Mirrored(Next(j, Elsewhere(s)))
  {
    hide TokenWorld.Inv, TokenWorld.MintedBy, TokenWorld.Next, TokenWorld.Enabled, Untouched, Inside;
    TokenWorld.StepKeeps(j.w, s);
    OthersLeaveIssuer(j.w, s, j.issuer);
    if j.t.s.post.Some? {
      OthersLeaveReceipt(j.w, s, j.issuer, j.receipt);
    }
    SameInside(j, j.(w := TokenWorld.Next(j.w, s)));
  }

  lemma SameInside(j: Joint, k: Joint)
    requires k.t == j.t && k.receipt == j.receipt && k.issuing == j.issuing
    ensures Inside(k) == Inside(j)
  {}

  lemma BeginInWorld(w: World, i: Handle, r: Handle, c: IssueCall)
    requires TokenWorld.Enabled(w, TokenWorld.IssueBegin(i, r, c))
    ensures var w', k := TokenWorld.Next(w, TokenWorld.IssueBegin(i, r, c)), w.issuers[i];
      && i in w'.issuers && w'.receipts == w.receipts && w'.minted == w.minted
      && w'.issuers[i] == k.(pending := if IssueVerdict(k.id, k.nextTokenId, k.used, c).Issued?
                                        then Some(TokenWorld.Pending(r, c)) else None)
      && (Untouched(w, i, r) ==> Untouched(w', i, r))
  {
    hide IssueVerdict;
  }

  lemma IssueBeginsKeeps(j: Joint, times: Times)
    requires Mirrored(j) && Enabled(j, IssueBegins(times))
    ensures Mirrored(Next(j, IssueBegins(times)))
  {
    hide TokenWorld.Inv, TokenWorld.Next, TokenWorld.MintedBy, IssueVerdict, Untouched;
    if IssueInOrder(j.t.s) {
      var c := IssuerCall(j.(issuing := Some(times))).value;
      TokenWorld.StepKeeps(j.w, TokenWorld.IssueBegin(j.issuer, j.receipt, c));
      BeginInWorld(j.w, j.issuer, j.receipt, c);
    }
  }

  /** A claim is won if and only if the receipt's flag was clear; then it mints. */
  lemma ClaimInWorld(w: World, i: Handle, at: Handle)
    requires TokenWorld.Enabled(w, TokenWorld.IssueClaim(i, at))
    ensures var w', k := TokenWorld.Next(w, TokenWorld.IssueClaim(i, at)), w.issuers[i];
      var p := k.pending.value;
      && p.receipt in w.receipts && i in w'.issuers && p.receipt in w'.receipts
      && w'.receipts[p.receipt] == TokenWorld.Receipt(w.receipts[p.receipt].value, true)
      && (w.receipts[p.receipt].claimed ==>
            w'.issuers[i] == k.(pending := None) && TokenWorld.MintedBy(w'.minted, i) == TokenWorld.MintedBy(w.minted, i))
      && (!w.receipts[p.receipt].claimed ==>
            && w'.issuers[i] == TokenWorld.Issuer(k.id, k.nextTokenId + 1, k.used + [p.call.receipt.id], None)
            && p.call.now + p.call.validity <= U64_MAX
            && TokenWorld.MintedBy(w'.minted, i) == TokenWorld.MintedBy(w.minted, i) + [Mint(k.id, k.nextTokenId, p.call)])
  {
    var w', k := TokenWorld.Next(w, TokenWorld.IssueClaim(i, at)), w.issuers[i];
    var p := k.pending.value;
    if !w.receipts[p.receipt].claimed {
      MintIsFaithful(k.id, k.nextTokenId, k.used, p.call);
      OthersMint(w.minted, TokenWorld.Minted(i, p.receipt, Mint(k.id, k.nextTokenId, p.call)), i);
    }
    hide IssueVerdict, TokenWorld.MintedBy, Mint;
  }

  lemma IssueInSession(t: Tracked, c: Call)
    requires c.CallIssue? && IssueSucceeds(t.s, c.now, c.validity)
    ensures var t' := Step(t, c);
      && t'.s.issuer == IssuerState(t.s.issuer.id, t.s.issuer.nextTokenId + 1, t.s.issuer.used + [t.s.post.value.id])
      && t'.s.post == t.s.post && t'.s.postClaimed && t'.h.issued == t.h.issued + [IssuedToken(t.s, c.now, c.validity)]
  {
    hide IssueVerdict;
  }

  /** The two sides of the claim agree. */
  ghost predicate ClaimAgrees(j: Joint, w': World, t': Tracked) {
    && IssuerMirrored(w', t', j.issuer, None) && t'.s.post == j.t.s.post && t'.s.post.Some?
    && j.receipt in w'.receipts && w'.receipts[j.receipt] == TokenWorld.Receipt(t'.s.post.value, t'.s.postClaimed)
  }

  lemma ClaimDoes(j: Joint, at: Handle)
    requires Mirrored(j) && Enabled(j, IssueEnds(at)) && Inside(j).Some?
    ensures ClaimAgrees(j, TokenWorld.Next(j.w, TokenWorld.IssueClaim(j.issuer, at)),
                        Step(j.t, CallIssue(j.issuing.value.now, j.issuing.value.validity)))
  {
    hide ClaimAgrees, TokenWorld.Next, Step;
    if j.t.s.postClaimed { ClaimLost(j, at); } else { ClaimWon(j, at); }
  }

  lemma ClaimLost(j: Joint, at: Handle)
    requires Mirrored(j) && Enabled(j, IssueEnds(at)) && Inside(j).Some? && j.t.s.postClaimed
    ensures ClaimAgrees(j, TokenWorld.Next(j.w, TokenWorld.IssueClaim(j.issuer, at)),
                        Step(j.t, CallIssue(j.issuing.value.now, j.issuing.value.validity)))
  {
    hide TokenWorld.Inv, TokenWorld.MintedBy, TokenWorld.Next, TokenWorld.Enabled, IssueVerdict, Step, Mint, Untouched;
    ClaimInWorld(j.w, j.issuer, at);
    RefusedIssue(j.t, CallIssue(j.issuing.value.now, j.issuing.value.validity));
  }

  lemma ClaimWon(j: Joint, at: Handle)
    requires Mirrored(j) && Enabled(j, IssueEnds(at)) && Inside(j).Some? && !j.t.s.postClaimed
    ensures ClaimAgrees(j, TokenWorld.Next(j.w, TokenWorld.IssueClaim(j.issuer, at)),
                        Step(j.t, CallIssue(j.issuing.value.now, j.issuing.value.validity)))
  {
    SameToken(j);
    hide TokenWorld.Inv, TokenWorld.MintedBy, TokenWorld.Next, TokenWorld.Enabled, IssueVerdict, Step, Mint, Untouched,
      IssueSucceeds, IssuedToken;
    ClaimInWorld(j.w, j.issuer, at);
    IssueInSession(j.t, CallIssue(j.issuing.value.now, j.issuing.value.validity));
  }

  /** The token the session records is the one the world mints. */
  lemma SameToken(j: Joint)
    requires Inside(j).Some? && !j.t.s.postClaimed
    ensures var i, c := j.t.s.issuer, Inside(j).value.call;
      && IssueSucceeds(j.t.s, j.issuing.value.now, j.issuing.value.validity)
      && c.now + c.validity <= U64_MAX && c.receipt.id == j.t.s.post.value.id
      && IssuedToken(j.t.s, j.issuing.value.now, j.issuing.value.validity) == Mint(i.id, i.nextTokenId, c)
  {
    MintIsFaithful(j.t.s.issuer.id, j.t.s.issuer.nextTokenId, j.t.s.issuer.used, Inside(j).value.call);
    hide IssueVerdict, Mint;
  }

  lemma ClaimLeavesOthers(w: World, i: Handle, at: Handle, r: Handle)
    requires TokenWorld.Enabled(w, TokenWorld.IssueClaim(i, at)) && Untouched(w, i, r)
    ensures Untouched(TokenWorld.Next(w, TokenWorld.IssueClaim(i, at)), i, r)
  {
    hide IssueVerdict, Mint;
  }

  /** Without a call inside the issuer nothing is minted, and the session fails. */
  lemma RefusedIssue(t: Tracked, c: Call)
    requires c.CallIssue? && !IssueSucceeds(t.s, c.now, c.validity)
    ensures Step(t, c) == Tracked(Fail(t.s), t.h)
  {}

  lemma ClaimKeeps(j: Joint, at: Handle)
    requires Mirrored(j) && Enabled(j, IssueEnds(at)) && Inside(j).Some?
    ensures Mirrored(Next(j, IssueEnds(at)))
  {
    hide TokenWorld.Inv, TokenWorld.Next, TokenWorld.Enabled, TokenWorld.MintedBy, Step, IssueVerdict, Untouched,
      IssuerMirrored;
    ClaimDoes(j, at);
    TokenWorld.StepKeeps(j.w, TokenWorld.IssueClaim(j.issuer, at));
    ClaimLeavesOthers(j.w, j.issuer, at, j.receipt);
  }

  lemma IssueEndsKeeps(j: Joint, at: Handle)
    requires Mirrored(j) && Enabled(j, IssueEnds(at))
    ensures Mirrored(Next(j, IssueEnds(at)))
  {
    if Inside(j).Some? {
      ClaimKeeps(j, at);
    } else {
      hide TokenWorld.Inv, TokenWorld.Next, TokenWorld.Enabled, TokenWorld.MintedBy, Step, IssueVerdict, Untouched;
      RefusedIssue(j.t, CallIssue(j.issuing.value.now, j.issuing.value.validity));
    }
  }

  /** A call once begun is never stuck. */
  lemma IssueIsNeverStuck(j: Joint, at: Handle)
    requires Mirrored(j)
    ensures j.issuing.None? && IssueInOrder(j.t.s) ==> CanBegin(j)
    ensures Inside(j).Some? && at !in j.w.objects ==> CanEnd(j, at)
  {
    if at !in j.w.objects { TokenWorld.PendingCallsCanFinish(j.w, at); }
    hide IssueVerdict;
  }

  // ----- every joint run -----

  /** A new session with a new issuer, in any world. */
  ghost predicate EntersAs(j: Joint, w: World, h: Handle, cell: Cell, luid: Luid) {
    && TokenWorld.Inv(w) && h !in w.issuers
    && var w' := TokenWorld.Next(w, TokenWorld.NewIssuer(h));
       j == Joint(w', Tracked(NewSession(cell, luid, w'.issuers[h].id), NewHistory()), h, j.receipt, None)
  }

  lemma {:induction false} NoneByStranger(issuers: TokenWorld.Issuers, minted: seq<TokenWorld.Minted>, h: Handle)
    requires (forall n :: 0 <= n < |minted| ==> TokenWorld.NumberedBy(issuers, minted[n])) && h !in issuers
    ensures TokenWorld.MintedBy(minted, h) == []
  {
    if minted != [] { NoneByStranger(issuers, minted[..|minted| - 1], h); }
  }

  lemma EntryIsMirrored(j: Joint, w: World, h: Handle, cell: Cell, luid: Luid)
    requires EntersAs(j, w, h, cell, luid)
    ensures Mirrored(j)
  {
    TokenWorld.StepKeeps(w, TokenWorld.NewIssuer(h));
    NoneByStranger(w.issuers, w.minted, h);
    hide TokenWorld.Inv, TokenWorld.MintedBy;
  }

  lemma StepKeepsMirror(j: Joint, s: JointStep)
    requires Mirrored(j) && Enabled(j, s)
    ensures Mirrored(Next(j, s))
  {
    hide Mirrored, Enabled, Next;
    match s
    case Elsewhere(step) => ElsewhereKeeps(j, step);
    case Called(c) => CalledKeeps(j, c);
    case StageB(c, at) => StageBKeeps(j, c, at);
    case IssueBegins(times) => IssueBeginsKeeps(j, times);
    case IssueEnds(at) => IssueEndsKeeps(j, at);
  }

  ghost predicate JointRun(js: seq<Joint>, steps: seq<JointStep>) {
    && |js| == |steps| + 1 && (exists w, h, cell, luid :: EntersAs(js[0], w, h, cell, luid))
    && forall n :: 0 <= n < |steps| ==> Enabled(js[n], steps[n]) && js[n + 1] == Next(js[n], steps[n])
  }

  /** In every joint run the session and the world of tokens agree throughout. */
  lemma {:induction false} JointRunKeepsMirror(js: seq<Joint>, steps: seq<JointStep>, n: nat)
    requires JointRun(js, steps) && n < |js|
    ensures Mirrored(js[n])
  {
    hide Mirrored, Enabled, Next, EntersAs;
    if n > 0 {
      JointRunKeepsMirror(js, steps, n - 1);
      StepKeepsMirror(js[n - 1], steps[n - 1]);
    } else {
      var w, h, cell, luid :| EntersAs(js[0], w, h, cell, luid);
      EntryIsMirrored(js[0], w, h, cell, luid);
    }
  }

  /** The call a joint step makes on the session. */
  function CallOf(j: Joint, s: JointStep): Option<Call> {
    match s
    case Elsewhere(_) => None
    case Called(c) => Some(c)
    case StageB(c, _) => Some(c)
    case IssueBegins(_) => None
    case IssueEnds(_) => if j.issuing.Some? then Some(CallIssue(j.issuing.value.now, j.issuing.value.validity)) else None
  }

  lemma NextCalls(j: Joint, s: JointStep)
    requires Enabled(j, s)
    ensures Next(j, s).t == if CallOf(j, s).Some? then Step(j.t, CallOf(j, s).value) else j.t
  {
    hide Step, TokenWorld.Next, TokenWorld.Enabled;
  }

  lemma CallIsAllowed(j: Joint, s: JointStep)
    requires Mirrored(j) && Enabled(j, s)
    ensures CallOf(j, s).Some? ==> Allowed(j.t, CallOf(j, s).value)
  {
    hide Mirrored, Enabled, Next;
    match s
    case Called(c) => CalledKeeps(j, c);
    case StageB(c, at) => StageBKeeps(j, c, at);
    case _ =>
  }

  /** And what the session does there is a run: the theorems about runs hold of it. */
  lemma {:induction false} SessionInWorldRuns(js: seq<Joint>, steps: seq<JointStep>, n: nat)
    returns (ts: seq<Tracked>, calls: seq<Call>)
    requires JointRun(js, steps) && n < |js|
    ensures Run(ts, calls) && |ts| == |calls| + 1 && ts[|calls|] == js[n].t
  {
    hide Mirrored, Enabled, Next, Run, Step, Allowed, EntersAs;
    if n == 0 {
      var w, h, cell, luid :| EntersAs(js[0], w, h, cell, luid);
      ts, calls := [js[0].t], [];
      RunBegins(js[0], w, h, cell, luid);
    } else {
      ts, calls := SessionInWorldRuns(js, steps, n - 1);
      JointRunKeepsMirror(js, steps, n - 1);
      var j, s := js[n - 1], steps[n - 1];
      CallIsAllowed(j, s);
      NextCalls(j, s);
      if CallOf(j, s).Some? {
        var c := CallOf(j, s).value;
        RunExtends(ts, calls, c);
        ts, calls := ts + [Step(j.t, c)], calls + [c];
      }
    }
  }

  lemma RunBegins(j: Joint, w: World, h: Handle, cell: Cell, luid: Luid)
    requires EntersAs(j, w, h, cell, luid)
    ensures Run([j.t], [])
  {}
}
