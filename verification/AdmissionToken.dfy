/** One-shot admission tokens (src/governor/admission_token.cpp): the decisions of issue and
    consume, and the objects that carry them out. TokenWorld interleaves their atomic steps. */
module AdmissionToken {
  import opened CheckedArithmetic
  import opened HostAdmission
  import opened SupervisorAdmission

  const MAX_RECEIPTS: nat := 64

  datatype WorkerId = WorkerId(processId: u32, job: string, executable: string)

  predicate WorkerValid(w: WorkerId) { w.processId != 0 && w.job != "" && w.executable != "" }

  datatype Token = Token(
    issuerId: u64, tokenId: u64, receiptId: u64, cell: Cell, worker: WorkerId,
    issued: u64, expires: u64, cap: u64)

  datatype IssueStatus =
    | Issued | InvalidReceipt | InvalidCellIdentity | InvalidWorkerIdentity | InvalidTime
    | ReceiptAlreadyUsed | IssuerCapacityExhausted | TokenSequenceExhausted

  datatype ConsumeStatus =
    | Consumed | TokenAlreadyConsumed | ForeignIssuer | TokenCellMismatch | TokenWorkerMismatch | TokenExpired

  /** Arguments of one issue call. */
  datatype IssueCall = IssueCall(receipt: PostReceipt, cell: Cell, worker: WorkerId, now: u64, validity: u64)

  /** Every check of issue() that precedes the exchange on the receipt's shared flag;
      `Issued` here means that only that exchange is left. */
  function IssueVerdict(issuerId: u64, nextTokenId: u64, used: seq<u64>, c: IssueCall): IssueStatus {
    var q := c.receipt;
    if issuerId == 0 || q.id == 0 || !HardCapAccepted(q.ceiling) || q.tier == 0 || q.tier > q.ceiling
       || q.cap == 0 || q.cap > q.tier || q.predictedPeak > q.cap then InvalidReceipt
    else if !CellValid(c.cell) || q.cell != c.cell then InvalidCellIdentity
    else if !WorkerValid(c.worker) then InvalidWorkerIdentity
    else if c.now == 0 || c.now < q.evaluated || c.validity == 0 || c.validity > q.timing.guardAge then InvalidTime
    else
      var requested := CheckedAdd(c.now, c.validity);
      var limit := CheckedAdd(q.evaluated, q.timing.guardAge);
      if requested.None? || limit.None? || c.now >= limit.value then InvalidTime
      else if q.id in used then ReceiptAlreadyUsed
      else if |used| >= MAX_RECEIPTS then IssuerCapacityExhausted
      else if nextTokenId == 0 || nextTokenId == U64_MAX then TokenSequenceExhausted
      else Issued
  }

  function Mint(issuerId: u64, tokenId: u64, c: IssueCall): Token
    requires c.now + c.validity <= U64_MAX
  {
    Token(issuerId, tokenId, c.receipt.id, c.cell, c.worker, c.now,
          Min(c.now + c.validity, c.receipt.evaluated + c.receipt.timing.guardAge), c.receipt.cap)
  }

  /** A minted token is usable at once, never past the receipt's guard age, and never with
      more than the admitted cap. */
  predicate FaithfulMint(t: Token, q: PostReceipt) {
    && t.receiptId == q.id && t.cell == q.cell && CellValid(t.cell) && WorkerValid(t.worker)
    && q.evaluated <= t.issued < t.expires <= q.evaluated + q.timing.guardAge
    && t.expires <= t.issued + q.timing.guardAge
    && 0 < t.cap == q.cap <= q.tier <= q.ceiling <= MAX_GPU_CAP
  }

  lemma {:induction false} MintIsFaithful(issuerId: u64, tokenId: u64, used: seq<u64>, c: IssueCall)
    requires IssueVerdict(issuerId, tokenId, used, c).Issued?
    ensures c.now + c.validity <= U64_MAX
    ensures FaithfulMint(Mint(issuerId, tokenId, c), c.receipt)
  {}

  /** consume() on a token seen active, before the exchange on the token's own flag. */
  function ConsumeVerdict(t: Token, issuerId: u64, cell: Cell, worker: WorkerId, now: u64): ConsumeStatus {
    if t.issuerId != issuerId then ForeignIssuer
    else if !CellValid(cell) || t.cell != cell then TokenCellMismatch
    else if !WorkerValid(worker) || t.worker != worker then TokenWorkerMismatch
    else if now < t.issued || now > t.expires then TokenExpired
    else Consumed
  }

  /** Receipts are well formed by construction, so a working issuer never calls one invalid. */
  lemma {:induction false} StageBReceiptIsIssuable(r: PostRequest, sequence: u64, issuerId: u64, nextTokenId: u64,
                                used: seq<u64>, worker: WorkerId, now: u64, validity: u64)
    requires r.pre.Some? && PreReceiptWellFormed(r.pre.value) && EvaluatePost(r, sequence).PostAdmitted?
    ensures var c := IssueCall(EvaluatePost(r, sequence).receipt, r.cell, worker, now, validity);
      && (IssueVerdict(issuerId, nextTokenId, used, c).InvalidReceipt? <==> issuerId == 0)
      && !IssueVerdict(issuerId, nextTokenId, used, c).InvalidCellIdentity?
  {
    StageBReceiptSound(r, sequence);
  }

  /** The shared `token_consumed_` flag of a Stage B receipt and all its copies. */
  class ReceiptFlag {
    var claimed: bool

    constructor ()
      ensures !claimed
    {
      claimed := false;
    }

    /** consume_for_token: the exchange succeeds for one caller only. */
    method ConsumeForToken() returns (won: bool)
      modifies this
      ensures won == !old(claimed)
      ensures claimed
    {
      won := !claimed;
      claimed := true;
    }
  }

  function ZeroDigest(): Digest { seq(32, i => 0) }

  /** The fields of a default-constructed or moved-from token. */
  function BlankToken(): Token {
    var z := ZeroDigest();
    Token(0, 0, 0, Cell(0, z, z, z, z, z, z), WorkerId(0, "", ""), 0, 0, 0)
  }

  class TokenObject {
    var fields: Token
    var active: bool

    constructor (t: Token)
      ensures fields == t && active
    {
      fields, active := t, true;
    }

    /** Move construction and assignment: the authority changes hands, it is never copied. */
    method MoveFrom(other: TokenObject)
      modifies this, other
      ensures this == other ==> fields == old(fields) && active == old(active)
      ensures this != other ==>
        && fields == old(other.fields) && active == old(other.active)
        && other.fields == BlankToken() && !other.active
    {
      if this == other { return; }
      fields := other.fields;
      active := other.active;
      other.active := false;
      other.fields := BlankToken();
    }
  }

  class TokenIssuer {
    const issuerId: u64
    var nextTokenId: u64
    const usedReceiptIds: array<u64>
    var usedReceiptCount: nat

    ghost predicate Valid()
      reads this, usedReceiptIds
    {
      usedReceiptIds.Length == MAX_RECEIPTS && usedReceiptCount <= MAX_RECEIPTS
    }

    ghost function Used(): seq<u64>
      requires Valid()
      reads this, usedReceiptIds
    {
      usedReceiptIds[..usedReceiptCount]
    }

    constructor (id: u64)
      ensures Valid() && fresh(usedReceiptIds)
      ensures issuerId == id && nextTokenId == 1 && Used() == []
    {
      issuerId, nextTokenId, usedReceiptCount := id, 1, 0;
      usedReceiptIds := new u64[MAX_RECEIPTS](i => 0);
    }

    /** The linear search over the ids already used. */
    method FindUsed(id: u64) returns (found: bool)
      requires Valid()
      ensures found <==> id in Used()
    {
      var i := 0;
      while i < usedReceiptCount
        invariant 0 <= i <= usedReceiptCount
        invariant id !in usedReceiptIds[..i]
      {
        if usedReceiptIds[i] == id {
          assert usedReceiptIds[..usedReceiptCount][i] == id;
          return true;
        }
        assert usedReceiptIds[..i + 1] == usedReceiptIds[..i] + [usedReceiptIds[i]];
        i := i + 1;
      }
      return false;
    }

    /** issue(): mints exactly when every check passes and the receipt was still unclaimed;
        a refused issue leaves issuer, receipt flag and used list as they were. */
    method Issue(c: IssueCall, flag: ReceiptFlag) returns (status: IssueStatus, token: TokenObject?)
      requires Valid()
      modifies this, usedReceiptIds, flag
      ensures Valid()
      ensures var verdict := old(IssueVerdict(issuerId, nextTokenId, Used(), c));
        status == if verdict.Issued? && old(flag.claimed) then ReceiptAlreadyUsed else verdict
      ensures status.Issued? <==> token != null
      ensures status.Issued? ==>
        && fresh(token) && token.active && token.fields == Mint(issuerId, old(nextTokenId), c)
        && flag.claimed && !old(flag.claimed)
        && nextTokenId == old(nextTokenId) + 1 && Used() == old(Used()) + [c.receipt.id]
      ensures !status.Issued? ==>
        flag.claimed == old(flag.claimed) && nextTokenId == old(nextTokenId) && Used() == old(Used())
    {
      token := null;
      var q := c.receipt;
      if issuerId == 0 || q.id == 0 || !HardCapAccepted(q.ceiling) || q.tier == 0 || q.tier > q.ceiling
         || q.cap == 0 || q.cap > q.tier || q.predictedPeak > q.cap {
        return InvalidReceipt, null;
      }
      if !CellValid(c.cell) || q.cell != c.cell { return InvalidCellIdentity, null; }
      if c.worker.processId == 0 || c.worker.job == "" || c.worker.executable == "" {
        return InvalidWorkerIdentity, null;
      }
      if c.now == 0 || c.now < q.evaluated || c.validity == 0 || c.validity > q.timing.guardAge {
        return InvalidTime, null;
      }
      var requested := CheckedAdd(c.now, c.validity);
      var limit := CheckedAdd(q.evaluated, q.timing.guardAge);
      if requested.None? || limit.None? || c.now >= limit.value { return InvalidTime, null; }
      var expires := Min(requested.value, limit.value);
      var found := FindUsed(q.id);
      if found { return ReceiptAlreadyUsed, null; }
      if usedReceiptCount == MAX_RECEIPTS { return IssuerCapacityExhausted, null; }
      if nextTokenId == 0 || nextTokenId == U64_MAX { return TokenSequenceExhausted, null; }
      var won := flag.ConsumeForToken();
      if !won { return ReceiptAlreadyUsed, null; }
      var tokenId := nextTokenId;
      nextTokenId := nextTokenId + 1;
      usedReceiptIds[usedReceiptCount] := q.id;
      usedReceiptCount := usedReceiptCount + 1;
      assert Used() == old(Used()) + [q.id];
      token := new TokenObject(Token(issuerId, tokenId, q.id, c.cell, c.worker, c.now, expires, q.cap));
      status := Issued;
    }

    /** consume(): an active token of this issuer is spent whatever the verdict; a foreign or
        already spent one is left alone. */
    method Consume(token: TokenObject, cell: Cell, worker: WorkerId, now: u64)
      returns (status: ConsumeStatus, cap: u64)
      modifies token
      ensures status == if !old(token.active) then TokenAlreadyConsumed
                        else ConsumeVerdict(old(token.fields), issuerId, cell, worker, now)
      ensures token.fields == old(token.fields)
      ensures token.active == (old(token.active) && status.ForeignIssuer?)
      ensures cap == if status.Consumed? then token.fields.cap else 0
    {
      cap := 0;
      if !token.active { return TokenAlreadyConsumed, 0; }
      if token.fields.issuerId != issuerId { return ForeignIssuer, 0; }
      var terminal := Consumed;
      if !CellValid(cell) || token.fields.cell != cell {
        terminal := TokenCellMismatch;
      } else if worker.processId == 0 || worker.job == "" || worker.executable == "" || token.fields.worker != worker {
        terminal := TokenWorkerMismatch;
      } else if now < token.fields.issued || now > token.fields.expires {
        terminal := TokenExpired;
      }
      token.active := false;
      status := terminal;
      if status.Consumed? { cap := token.fields.cap; }
    }
  }
}
