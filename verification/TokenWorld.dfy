/** Any number of issuers, receipts, token objects and concurrent callers, one atomic operation
    per step (src/governor/admission_token.cpp, src/governor/supervisor_admission.cpp).

    issue() runs under its issuer's mutex, so only the exchange on the receipt's shared flag can
    interleave: a call is a Begin step that holds the mutex and a Claim step. consume() takes no
    lock: a call is a Begin step that reads the token and a Finish step that exchanges its flag. */
module TokenWorld {
  import opened CheckedArithmetic
  import opened SupervisorAdmission
  import opened AdmissionToken

  type Handle = nat

  /** `pending` is the issue call inside the mutex, past every check. */
  datatype Issuer = Issuer(id: u64, nextTokenId: u64, used: seq<u64>, pending: Option<Pending>)

  datatype Pending = Pending(receipt: Handle, call: IssueCall)

  /** A receipt and the flag its copies share. */
  datatype Receipt = Receipt(value: PostReceipt, claimed: bool)

  datatype Object = Object(fields: Token, active: bool)

  /** A consume call between its reads and its exchange. */
  datatype Consumer = Consumer(at: Handle, seen: Token, issuerId: u64, cell: Cell, worker: WorkerId, now: u64)

  /** History: which issuer minted each token and from which receipt, and each consumption that
      succeeded. */
  datatype Minted = Minted(issuer: Handle, receipt: Handle, token: Token)
  datatype Spent = Spent(token: Token, cell: Cell, worker: WorkerId, now: u64)

  datatype World = World(
    issuers: map<Handle, Issuer>, receipts: map<Handle, Receipt>, objects: map<Handle, Object>,
    consumers: map<Handle, Consumer>, issuerSequence: u64, receiptSequence: u64,
    minted: seq<Minted>, spent: seq<Spent>)

  datatype Step =
    | NewIssuer(h: Handle)
    | NewReceipt(h: Handle, value: PostReceipt)
    | IssueBegin(issuer: Handle, receipt: Handle, call: IssueCall)
    | IssueClaim(issuer: Handle, at: Handle)
    | MoveToken(from: Handle, to: Handle)
    | ConsumeBegin(caller: Handle, at: Handle, issuer: Handle, cell: Cell, worker: WorkerId, now: u64)
    | ConsumeFinish(caller: Handle)

  predicate Init(w: World) {
    w == World(map[], map[], map[], map[], 1, 1, [], [])
  }

  /** A consume call reads plain fields, so its caller keeps the token in place meanwhile. */
  predicate Settled(w: World, at: Handle) {
    forall c :: c in w.consumers ==> w.consumers[c].at != at
  }

  /** When a step can happen. The last conjuncts of IssueClaim and ConsumeFinish restrict nothing:
      PendingCallsCanFinish shows that a call once begun can always finish. */
  predicate Enabled(w: World, s: Step) {
    match s
    case NewIssuer(h) => h !in w.issuers
    case NewReceipt(h, value) =>
      h !in w.receipts && PostReceiptWellFormed(value) && value.id == w.receiptSequence < U64_MAX
    case IssueBegin(i, r, c) =>
      i in w.issuers && w.issuers[i].pending.None? && r in w.receipts && c.receipt == w.receipts[r].value
    case IssueClaim(i, at) =>
      && i in w.issuers && w.issuers[i].pending.Some? && at !in w.objects
      && PendingValid(w.issuers[i], w.receipts)
    case MoveToken(from, to) =>
      from in w.objects && from != to && Settled(w, from) && Settled(w, to)
    case ConsumeBegin(c, at, i, _, _, _) => c !in w.consumers && at in w.objects && i in w.issuers
    case ConsumeFinish(c) => c in w.consumers && w.consumers[c].at in w.objects
  }

  function Next(w: World, s: Step): World
    requires Enabled(w, s)
  {
    match s
    case NewIssuer(h) =>
      // next_issuer_id: zero once the counter is exhausted
      if w.issuerSequence == U64_MAX then w.(issuers := w.issuers[h := Issuer(0, 1, [], None)])
      else w.(issuers := w.issuers[h := Issuer(w.issuerSequence, 1, [], None)],
              issuerSequence := w.issuerSequence + 1)
    case NewReceipt(h, value) =>
      w.(receipts := w.receipts[h := Receipt(value, false)], receiptSequence := w.receiptSequence + 1)
    case IssueBegin(i, r, c) =>
      var issuer := w.issuers[i];
      if IssueVerdict(issuer.id, issuer.nextTokenId, issuer.used, c).Issued? then
        w.(issuers := w.issuers[i := issuer.(pending := Some(Pending(r, c)))])
      else w
    case IssueClaim(i, at) =>
      var issuer := w.issuers[i];
      var p := issuer.pending.value;
      var receipt := w.receipts[p.receipt];
      if receipt.claimed then w.(issuers := w.issuers[i := issuer.(pending := None)])
      else
        MintIsFaithful(issuer.id, issuer.nextTokenId, issuer.used, p.call);
        var token := Mint(issuer.id, issuer.nextTokenId, p.call);
        w.(issuers := w.issuers[i := Issuer(issuer.id, issuer.nextTokenId + 1, issuer.used + [token.receiptId], None)],
           receipts := w.receipts[p.receipt := receipt.(claimed := true)],
           objects := w.objects[at := Object(token, true)],
           minted := w.minted + [Minted(i, p.receipt, token)])
    case MoveToken(from, to) =>
      w.(objects := w.objects[to := w.objects[from]][from := Object(BlankToken(), false)])
    case ConsumeBegin(c, at, i, cell, worker, now) =>
      var token := w.objects[at];
      if !token.active || token.fields.issuerId != w.issuers[i].id then w
      else w.(consumers := w.consumers[c := Consumer(at, token.fields, w.issuers[i].id, cell, worker, now)])
    case ConsumeFinish(c) =>
      var k := w.consumers[c];
      var w' := w.(consumers := w.consumers - {c});
      if !w.objects[k.at].active then w'
      else
        var spent := ConsumeVerdict(k.seen, k.issuerId, k.cell, k.worker, k.now).Consumed?;
        w'.(objects := w.objects[k.at := w.objects[k.at].(active := false)],
            spent := if spent then w.spent + [Spent(k.seen, k.cell, k.worker, k.now)] else w.spent)
  }

  // ----- invariant, each part over the fields it speaks of -----

  type Issuers = map<Handle, Issuer>
  type Receipts = map<Handle, Receipt>
  type Objects = map<Handle, Object>

  predicate SameToken(a: Token, b: Token) { a.issuerId == b.issuerId && a.tokenId == b.tokenId }

  /** A call inside the mutex has passed every check against the issuer's current fields. */
  predicate PendingValid(issuer: Issuer, receipts: Receipts) {
    issuer.pending.Some? ==>
      var p := issuer.pending.value;
      && p.receipt in receipts && p.call.receipt == receipts[p.receipt].value
      && IssueVerdict(issuer.id, issuer.nextTokenId, issuer.used, p.call).Issued?
  }

  ghost predicate IssuersInv(issuers: Issuers, receipts: Receipts, sequence: nat) {
    && 0 < sequence
    && (forall i :: i in issuers ==> issuers[i].id < sequence && PendingValid(issuers[i], receipts))
    && (forall i, j :: i in issuers && j in issuers && issuers[i].id == issuers[j].id != 0 ==> i == j)
  }

  ghost predicate ReceiptsInv(receipts: Receipts, sequence: nat) {
    && (forall r :: r in receipts ==> receipts[r].value.id < sequence)
    && (forall r, q :: r in receipts && q in receipts && receipts[r].value.id == receipts[q].value.id ==> r == q)
  }

  /** The issuer that numbered the token has moved past that number. */
  predicate NumberedBy(issuers: Issuers, m: Minted) {
    m.issuer in issuers && issuers[m.issuer].id == m.token.issuerId != 0 && m.token.tokenId < issuers[m.issuer].nextTokenId
  }

  ghost predicate MintedInv(issuers: Issuers, receipts: Receipts, minted: seq<Minted>) {
    && (forall n :: 0 <= n < |minted| ==> NumberedBy(issuers, minted[n]))
    && (forall n :: 0 <= n < |minted| ==>
          && minted[n].receipt in receipts && receipts[minted[n].receipt].claimed
          && FaithfulMint(minted[n].token, receipts[minted[n].receipt].value))
    && (forall n, m :: 0 <= n < m < |minted| ==>
          minted[n].receipt != minted[m].receipt && !SameToken(minted[n].token, minted[m].token))
  }

  ghost predicate ClaimedInv(receipts: Receipts, minted: seq<Minted>) {
    forall r :: r in receipts && receipts[r].claimed ==> MintedFrom(minted, r)
  }

  ghost predicate MintedFrom(minted: seq<Minted>, r: Handle) {
    exists n :: 0 <= n < |minted| && minted[n].receipt == r
  }

  ghost predicate IsMinted(minted: seq<Minted>, t: Token) {
    exists n :: 0 <= n < |minted| && minted[n].token == t
  }

  ghost predicate ObjectsInv(objects: Objects, minted: seq<Minted>) {
    && (forall o :: o in objects && objects[o].active ==> IsMinted(minted, objects[o].fields))
    && (forall o, p :: o in objects && p in objects && o != p && objects[o].active && objects[p].active ==>
          !SameToken(objects[o].fields, objects[p].fields))
  }

  ghost predicate ConsumersInv(consumers: map<Handle, Consumer>, objects: Objects) {
    forall c :: c in consumers ==>
      var k := consumers[c];
      k.at in objects && k.seen.issuerId == k.issuerId && (objects[k.at].active ==> objects[k.at].fields == k.seen)
  }

  /** The consumption met every condition of consume() against the token as minted. */
  predicate SpentLegitimately(x: Spent) {
    ConsumeVerdict(x.token, x.token.issuerId, x.cell, x.worker, x.now).Consumed?
  }

  ghost predicate SpentInv(spent: seq<Spent>, objects: Objects, minted: seq<Minted>) {
    && (forall n :: 0 <= n < |spent| ==> IsMinted(minted, spent[n].token) && SpentLegitimately(spent[n]))
    && (forall n, o :: 0 <= n < |spent| && o in objects && objects[o].active ==>
          !SameToken(spent[n].token, objects[o].fields))
    && (forall n, m :: 0 <= n < m < |spent| ==> !SameToken(spent[n].token, spent[m].token))
  }

  ghost predicate Inv(w: World) {
    && IssuersInv(w.issuers, w.receipts, w.issuerSequence) && ReceiptsInv(w.receipts, w.receiptSequence)
    && MintedInv(w.issuers, w.receipts, w.minted) && ClaimedInv(w.receipts, w.minted)
    && ObjectsInv(w.objects, w.minted) && ConsumersInv(w.consumers, w.objects)
    && SpentInv(w.spent, w.objects, w.minted)
  }

  // ----- preservation, one lemma per kind of step -----

  /** Issuers keep their ids and only ever count upwards. */
  ghost predicate IssuersAdvance(issuers: Issuers, issuers': Issuers) {
    forall i :: i in issuers ==>
      i in issuers' && issuers'[i].id == issuers[i].id && issuers[i].nextTokenId <= issuers'[i].nextTokenId
  }

  lemma MintedKept(issuers: Issuers, issuers': Issuers, receipts: Receipts, receipts': Receipts, minted: seq<Minted>)
    requires MintedInv(issuers, receipts, minted) && IssuersAdvance(issuers, issuers')
    requires forall r :: r in receipts ==> r in receipts' && receipts'[r].value == receipts[r].value
                                           && (receipts[r].claimed ==> receipts'[r].claimed)
    ensures MintedInv(issuers', receipts', minted)
  {}

  lemma AddIssuer(issuers: Issuers, receipts: Receipts, sequence: nat, h: Handle, issuer: Issuer)
    requires IssuersInv(issuers, receipts, sequence) && h !in issuers && issuer.pending.None?
    requires issuer.id == 0 || issuer.id == sequence
    ensures IssuersInv(issuers[h := issuer], receipts, if issuer.id == 0 then sequence else sequence + 1)
    ensures IssuersAdvance(issuers, issuers[h := issuer])
  {}

  lemma NewIssuerKeeps(w: World, h: Handle)
    requires Inv(w) && Enabled(w, NewIssuer(h))
    ensures Inv(Next(w, NewIssuer(h)))
  {
    var w' := Next(w, NewIssuer(h));
    AddIssuer(w.issuers, w.receipts, w.issuerSequence, h, w'.issuers[h]);
    MintedKept(w.issuers, w'.issuers, w.receipts, w.receipts, w.minted);
  }

  lemma AddReceipt(w: World, h: Handle, r: Receipt)
    requires IssuersInv(w.issuers, w.receipts, w.issuerSequence) && ReceiptsInv(w.receipts, w.receiptSequence)
    requires ClaimedInv(w.receipts, w.minted) && h !in w.receipts && r.value.id == w.receiptSequence && !r.claimed
    ensures IssuersInv(w.issuers, w.receipts[h := r], w.issuerSequence)
    ensures ReceiptsInv(w.receipts[h := r], w.receiptSequence + 1) && ClaimedInv(w.receipts[h := r], w.minted)
  {}

  lemma NewReceiptKeeps(w: World, h: Handle, value: PostReceipt)
    requires Inv(w) && Enabled(w, NewReceipt(h, value))
    ensures Inv(Next(w, NewReceipt(h, value)))
  {
    var w' := Next(w, NewReceipt(h, value));
    AddReceipt(w, h, Receipt(value, false));
    MintedKept(w.issuers, w.issuers, w.receipts, w'.receipts, w.minted);
  }

  lemma EnterMutex(issuers: Issuers, receipts: Receipts, sequence: nat, i: Handle, p: Pending)
    requires IssuersInv(issuers, receipts, sequence) && i in issuers
    requires PendingValid(issuers[i].(pending := Some(p)), receipts)
    ensures IssuersInv(issuers[i := issuers[i].(pending := Some(p))], receipts, sequence)
    ensures IssuersAdvance(issuers, issuers[i := issuers[i].(pending := Some(p))])
  {}

  lemma IssueBeginKeeps(w: World, i: Handle, r: Handle, c: IssueCall)
    requires Inv(w) && Enabled(w, IssueBegin(i, r, c))
    ensures Inv(Next(w, IssueBegin(i, r, c)))
  {
    var issuer := w.issuers[i];
    if IssueVerdict(issuer.id, issuer.nextTokenId, issuer.used, c).Issued? {
      EnterMutex(w.issuers, w.receipts, w.issuerSequence, i, Pending(r, c));
      MintedKept(w.issuers, Next(w, IssueBegin(i, r, c)).issuers, w.receipts, w.receipts, w.minted);
    }
  }

  lemma IssueClaimKeeps(w: World, i: Handle, at: Handle)
    requires Inv(w) && Enabled(w, IssueClaim(i, at))
    ensures Inv(Next(w, IssueClaim(i, at)))
  {
    var w', issuer := Next(w, IssueClaim(i, at)), w.issuers[i];
    var p := issuer.pending.value;
    ClaimKeepsIssuers(w.issuers, w.receipts, w.issuerSequence, i, w'.issuers[i]);
    if w.receipts[p.receipt].claimed {
      MintedKept(w.issuers, w'.issuers, w.receipts, w.receipts, w.minted);
    } else {
      WonClaimKeeps(w, i, at);
    }
  }

  lemma WonClaimKeeps(w: World, i: Handle, at: Handle)
    requires Inv(w) && Enabled(w, IssueClaim(i, at)) && !w.receipts[w.issuers[i].pending.value.receipt].claimed
    ensures var w' := Next(w, IssueClaim(i, at));
      && ReceiptsInv(w'.receipts, w'.receiptSequence)
      && MintedInv(w'.issuers, w'.receipts, w'.minted) && ClaimedInv(w'.receipts, w'.minted)
      && ObjectsInv(w'.objects, w'.minted) && ConsumersInv(w'.consumers, w'.objects)
      && SpentInv(w'.spent, w'.objects, w'.minted)
  {
    var issuer := w.issuers[i];
    var p := issuer.pending.value;
    MintIsFaithful(issuer.id, issuer.nextTokenId, issuer.used, p.call);
    ClaimMints(w, i, at, Minted(i, p.receipt, Mint(issuer.id, issuer.nextTokenId, p.call)),
               Next(w, IssueClaim(i, at)).issuers);
  }

  lemma ClaimMints(w: World, i: Handle, at: Handle, m: Minted, issuers': Issuers)
    requires Inv(w) && i in w.issuers && at !in w.objects && IssuersAdvance(w.issuers, issuers')
    requires m.receipt in w.receipts && !w.receipts[m.receipt].claimed
    requires FaithfulMint(m.token, w.receipts[m.receipt].value)
    requires m.issuer == i && m.token.issuerId == w.issuers[i].id != 0 && m.token.tokenId == w.issuers[i].nextTokenId
    requires i in issuers' && issuers'[i].nextTokenId == m.token.tokenId + 1
    ensures var receipts' := w.receipts[m.receipt := w.receipts[m.receipt].(claimed := true)];
      && ReceiptsInv(receipts', w.receiptSequence)
      && MintedInv(issuers', receipts', w.minted + [m]) && ClaimedInv(receipts', w.minted + [m])
      && var objects' := w.objects[at := Object(m.token, true)];
         && ObjectsInv(objects', w.minted + [m]) && ConsumersInv(w.consumers, objects')
         && SpentInv(w.spent, objects', w.minted + [m])
  {
    hide FaithfulMint, ObjectsInv, ConsumersInv, SpentInv;
    var receipts' := w.receipts[m.receipt := w.receipts[m.receipt].(claimed := true)];
    MintedKept(w.issuers, issuers', w.receipts, receipts', w.minted);
    forall n | 0 <= n < |w.minted| ensures !SameToken(w.minted[n].token, m.token) {
      assert NumberedBy(w.issuers, w.minted[n]);
    }
    assert NumberedBy(issuers', m);
    MintedExtends(issuers', receipts', w.minted, m);
    ClaimedExtends(w.receipts, w.minted, m);
    AuthorityExtends(w, m, at);
  }

  /** Leaving the mutex and claiming a receipt disturb no other call. */
  lemma ClaimKeepsIssuers(issuers: Issuers, receipts: Receipts, sequence: nat, i: Handle, after: Issuer)
    requires IssuersInv(issuers, receipts, sequence) && i in issuers && issuers[i].pending.Some?
    requires after.id == issuers[i].id && after.pending.None?
    ensures var r := issuers[i].pending.value.receipt;
      && IssuersInv(issuers[i := after], receipts, sequence)
      && r in receipts
      && IssuersInv(issuers[i := after], receipts[r := receipts[r].(claimed := true)], sequence)
  {
    var r := issuers[i].pending.value.receipt;
    assert PendingValid(issuers[i], receipts);
  }

  lemma MintedExtends(issuers: Issuers, receipts: Receipts, minted: seq<Minted>, m: Minted)
    requires MintedInv(issuers, receipts, minted) && NumberedBy(issuers, m)
    requires m.receipt in receipts && receipts[m.receipt].claimed && FaithfulMint(m.token, receipts[m.receipt].value)
    requires forall n :: 0 <= n < |minted| ==> minted[n].receipt != m.receipt && !SameToken(minted[n].token, m.token)
    ensures MintedInv(issuers, receipts, minted + [m])
  {}

  lemma ClaimedExtends(receipts: Receipts, minted: seq<Minted>, m: Minted)
    requires ClaimedInv(receipts, minted) && m.receipt in receipts
    ensures ClaimedInv(receipts[m.receipt := receipts[m.receipt].(claimed := true)], minted + [m])
  {
    assert (minted + [m])[|minted|].receipt == m.receipt;
    forall r | MintedFrom(minted, r) ensures MintedFrom(minted + [m], r) {
      var n :| 0 <= n < |minted| && minted[n].receipt == r;
      assert (minted + [m])[n].receipt == r;
    }
  }

  lemma MintedStays(minted: seq<Minted>, m: Minted, t: Token)
    requires IsMinted(minted, t)
    requires forall n :: 0 <= n < |minted| ==> !SameToken(minted[n].token, m.token)
    ensures IsMinted(minted + [m], t) && !SameToken(t, m.token)
  {
    var n :| 0 <= n < |minted| && minted[n].token == t;
    assert (minted + [m])[n].token == t;
  }

  /** A new active object for a token nobody has numbered before. */
  lemma AuthorityExtends(w: World, m: Minted, at: Handle)
    requires ObjectsInv(w.objects, w.minted) && ConsumersInv(w.consumers, w.objects)
    requires SpentInv(w.spent, w.objects, w.minted) && at !in w.objects
    requires forall n :: 0 <= n < |w.minted| ==> !SameToken(w.minted[n].token, m.token)
    ensures var objects := w.objects[at := Object(m.token, true)];
      && ObjectsInv(objects, w.minted + [m]) && ConsumersInv(w.consumers, objects)
      && SpentInv(w.spent, objects, w.minted + [m])
  {
    assert (w.minted + [m])[|w.minted|].token == m.token;
    forall t | IsMinted(w.minted, t) ensures IsMinted(w.minted + [m], t) && !SameToken(t, m.token) {
      MintedStays(w.minted, m, t);
    }
  }

  /** Moving a token relocates its authority and leaves the source blank. */
  lemma MoveRelocates(w: World, from: Handle, to: Handle)
    requires ObjectsInv(w.objects, w.minted) && ConsumersInv(w.consumers, w.objects)
    requires SpentInv(w.spent, w.objects, w.minted)
    requires from in w.objects && from != to && Settled(w, from) && Settled(w, to)
    ensures var objects := w.objects[to := w.objects[from]][from := Object(BlankToken(), false)];
      && ObjectsInv(objects, w.minted) && ConsumersInv(w.consumers, objects)
      && SpentInv(w.spent, objects, w.minted)
  {}

  lemma MoveKeeps(w: World, from: Handle, to: Handle)
    requires Inv(w) && Enabled(w, MoveToken(from, to))
    ensures Inv(Next(w, MoveToken(from, to)))
  {
    MoveRelocates(w, from, to);
  }

  lemma ConsumeBeginKeeps(w: World, c: Handle, at: Handle, i: Handle, cell: Cell, worker: WorkerId, now: u64)
    requires Inv(w) && Enabled(w, ConsumeBegin(c, at, i, cell, worker, now))
    ensures Inv(Next(w, ConsumeBegin(c, at, i, cell, worker, now)))
  {}

  lemma ConsumeFinishKeeps(w: World, c: Handle)
    requires Inv(w) && Enabled(w, ConsumeFinish(c))
    ensures Inv(Next(w, ConsumeFinish(c)))
  {
    var k := w.consumers[c];
    if w.objects[k.at].active {
      SpendingKeeps(w, k);
    }
  }

  lemma SpendingKeeps(w: World, k: Consumer)
    requires ObjectsInv(w.objects, w.minted) && ConsumersInv(w.consumers, w.objects)
    requires SpentInv(w.spent, w.objects, w.minted)
    requires k.at in w.objects && w.objects[k.at].active && w.objects[k.at].fields == k.seen
    ensures var objects := w.objects[k.at := w.objects[k.at].(active := false)];
      && ObjectsInv(objects, w.minted) && ConsumersInv(w.consumers, objects)
      && SpentInv(w.spent, objects, w.minted)
      && (k.seen.issuerId == k.issuerId && ConsumeVerdict(k.seen, k.issuerId, k.cell, k.worker, k.now).Consumed? ==>
          SpentInv(w.spent + [Spent(k.seen, k.cell, k.worker, k.now)], objects, w.minted))
  {}

  lemma StepKeeps(w: World, s: Step)
    requires Inv(w) && Enabled(w, s)
    ensures Inv(Next(w, s))
  {
    match s
    case NewIssuer(h) => NewIssuerKeeps(w, h);
    case NewReceipt(h, value) => NewReceiptKeeps(w, h, value);
    case IssueBegin(i, r, c) => IssueBeginKeeps(w, i, r, c);
    case IssueClaim(i, at) => IssueClaimKeeps(w, i, at);
    case MoveToken(from, to) => MoveKeeps(w, from, to);
    case ConsumeBegin(c, at, i, cell, worker, now) => ConsumeBeginKeeps(w, c, at, i, cell, worker, now);
    case ConsumeFinish(c) => ConsumeFinishKeeps(w, c);
  }

  /** A call once begun is never stuck: its last step is enabled in every reachable world. */
  lemma PendingCallsCanFinish(w: World, at: Handle)
    requires Inv(w) && at !in w.objects
    ensures forall i :: i in w.issuers && w.issuers[i].pending.Some? ==> Enabled(w, IssueClaim(i, at))
    ensures forall c :: c in w.consumers ==> Enabled(w, ConsumeFinish(c))
  {}

  // ----- every run -----

  /** `ws` is a run of `steps` from the empty world. */
  ghost predicate Run(ws: seq<World>, steps: seq<Step>) {
    && |ws| == |steps| + 1 && Init(ws[0])
    && forall n :: 0 <= n < |steps| ==> Enabled(ws[n], steps[n]) && ws[n + 1] == Next(ws[n], steps[n])
  }

  lemma {:induction false} RunKeepsInv(ws: seq<World>, steps: seq<Step>, n: nat)
    requires Run(ws, steps) && n < |ws|
    ensures Inv(ws[n])
  {
    if n > 0 {
      RunKeepsInv(ws, steps, n - 1);
      StepKeeps(ws[n - 1], steps[n - 1]);
    }
  }

  /** A receipt mints at most one token, under any interleaving of any number of issuers, and
      its flag is set exactly when it has minted one: a refused issue burns nothing. */
  lemma ReceiptMintsAtMostOnce(ws: seq<World>, steps: seq<Step>, n: nat)
    requires Run(ws, steps) && n < |ws|
    ensures forall a, b :: 0 <= a < b < |ws[n].minted| ==>
      ws[n].minted[a].token.receiptId != ws[n].minted[b].token.receiptId
    ensures forall r :: r in ws[n].receipts ==> (ws[n].receipts[r].claimed <==> MintedFrom(ws[n].minted, r))
  {
    RunKeepsInv(ws, steps, n);
    var w := ws[n];
    forall a, b | 0 <= a < b < |w.minted| ensures w.minted[a].token.receiptId != w.minted[b].token.receiptId {
      assert w.receipts[w.minted[a].receipt].value.id == w.minted[a].token.receiptId;
      assert w.receipts[w.minted[b].receipt].value.id == w.minted[b].token.receiptId;
    }
  }

  /** What a successful consumption guarantees about the receipt the token came from. */
  ghost predicate SpentWithinReceipt(w: World, x: Spent) {
    exists m :: 0 <= m < |w.minted| && w.minted[m].token == x.token
      && w.minted[m].receipt in w.receipts
      && var q := w.receipts[w.minted[m].receipt].value;
         && x.cell == x.token.cell == q.cell && x.worker == x.token.worker
         && q.evaluated <= x.token.issued <= x.now <= x.token.expires
         && x.now <= q.evaluated + q.timing.guardAge
         && x.token.cap == q.cap
  }

  /** A token is consumed at most once, by the worker and for the cell it was minted for, no
      later than the receipt's evaluation time plus its guard age. */
  lemma TokenSpentAtMostOnce(ws: seq<World>, steps: seq<Step>, n: nat)
    requires Run(ws, steps) && n < |ws|
    ensures forall a, b :: 0 <= a < b < |ws[n].spent| ==> !SameToken(ws[n].spent[a].token, ws[n].spent[b].token)
    ensures forall a :: 0 <= a < |ws[n].spent| ==> SpentWithinReceipt(ws[n], ws[n].spent[a])
  {
    RunKeepsInv(ws, steps, n);
    hide Run, ObjectsInv, ConsumersInv, IssuersInv, ClaimedInv;
    var w := ws[n];
    forall a | 0 <= a < |w.spent| ensures SpentWithinReceipt(w, w.spent[a]) {
      assert IsMinted(w.minted, w.spent[a].token);
      var m :| 0 <= m < |w.minted| && w.minted[m].token == w.spent[a].token;
      assert FaithfulMint(w.minted[m].token, w.receipts[w.minted[m].receipt].value);
    }
  }

  // ----- one issuer's tokens -----

  /** The tokens an issuer has minted, in order. */
  function MintedBy(minted: seq<Minted>, i: Handle): seq<Token> {
    if minted == [] then []
    else
      var last := minted[|minted| - 1];
      MintedBy(minted[..|minted| - 1], i) + if last.issuer == i then [last.token] else []
  }

  lemma {:induction false} MintedByHas(minted: seq<Minted>, n: nat)
    requires n < |minted|
    ensures minted[n].token in MintedBy(minted, minted[n].issuer)
  {
    if n < |minted| - 1 {
      assert minted[..|minted| - 1][n] == minted[n];
      MintedByHas(minted[..|minted| - 1], n);
    }
  }

  /** An active token that carries an issuer's id was minted by that very issuer. */
  lemma ActiveTokenIsItsIssuers(w: World, o: Handle, i: Handle)
    requires Inv(w) && o in w.objects && w.objects[o].active
    requires i in w.issuers && w.objects[o].fields.issuerId == w.issuers[i].id
    ensures w.objects[o].fields in MintedBy(w.minted, i)
  {
    assert IsMinted(w.minted, w.objects[o].fields);
    var n :| 0 <= n < |w.minted| && w.minted[n].token == w.objects[o].fields;
    assert NumberedBy(w.issuers, w.minted[n]);
    MintedByHas(w.minted, n);
  }
}
