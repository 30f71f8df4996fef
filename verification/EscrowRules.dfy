/**
 * The payout rules of the escrow (src/modules/crypto/chain.ts, authorization.ts) on chain values: signed releases and
 * refunds, all-or-nothing batches and freezes, the accounts they keep, and what is left of them when calls overlap.
 */
module EscrowRules {
  import opened Common
  import opened MapSums
  import opened SimChain

  datatype Domain = Domain(chainId: nat, verifyingContract: Address)

  datatype Message =
    | ReleaseMessage(payoutRef: nat, escrowRef: EscrowRef, recipient: Address, token: Address, amount: int, nonce: nat,
        expiry: int)
    | RefundMessage(payoutRef: nat, escrowRef: EscrowRef, amount: int, nonce: nat, expiry: int)

  /** `recovered` is the address that typed-data recovery yields for this domain, message and signature. */
  datatype Signed = Signed(domain: Domain, message: Message, recovered: Address)

  datatype SignedFreeze = SignedFreeze(domain: Domain, escrowRef: EscrowRef, frozen: bool, nonce: nat, expiry: int,
      recovered: Address)

  /** What the verifier compares with: the server's signer and the time in seconds. */
  datatype Auth = Auth(signer: Address, now: int)

  datatype PayoutError =
    | Unavailable | EnforcedPause | UnknownBucket | TokenMismatch | NonceUsed | AlreadyReleased(txHash: Hash)
    | ContractNotDeployed | WrongChain | WrongContract | AuthorizationExpired | BadSignature
    | BucketFrozen | InsufficientBucketBalance | TokenTransferFailed

  /** The domain, expiry and signer guards in front of every payout and freeze. */
  function Verify(s: Sim, domain: Domain, expiry: int, recovered: Address, auth: Auth): Option<PayoutError>
  {
    if s.settlement.None? then Some(ContractNotDeployed)
    else if domain.chainId != s.chainId then Some(WrongChain)
    else if domain.verifyingContract != s.settlement.value then Some(WrongContract)
    else if expiry < auth.now then Some(AuthorizationExpired)
    else if recovered != auth.signer then Some(BadSignature)
    else None
  }

  function Kind(m: Message): PayoutKind { if m.ReleaseMessage? then Release else Refund }

  function TokenOf(m: Message, bucket: Bucket): Address { if m.ReleaseMessage? then m.token else bucket.token }

  /** The checks made before the signature is awaited. */
  function CheckPayout(s: Sim, m: Message): Option<PayoutError>
  {
    if s.offline then Some(Unavailable)
    else if s.paused then Some(EnforcedPause)
    else if m.escrowRef !in s.buckets then Some(UnknownBucket)
    else if TokenOf(m, s.buckets[m.escrowRef]) != s.buckets[m.escrowRef].token then Some(TokenMismatch)
    else if m.nonce in s.nonces then Some(NonceUsed)
    else if m.payoutRef in s.paid then Some(AlreadyReleased(s.paid[m.payoutRef]))
    else None
  }

  function Available(b: Bucket): int { b.deposited - b.released - b.refunded }

  /** The checks made after the await, on the bucket as it is by then. */
  function CheckFunds(s: Sim, m: Message): Option<PayoutError>
    requires m.escrowRef in s.buckets
  {
    var bucket := s.buckets[m.escrowRef];
    if bucket.frozen then Some(BucketFrozen)
    else if m.amount <= 0 || m.amount > Available(bucket) then Some(InsufficientBucketBalance)
    else if TokenOf(m, bucket) in s.failing then Some(TokenTransferFailed)
    else None
  }

  function Spend(b: Bucket, m: Message): Bucket
    requires m.amount >= 0
  {
    if m.ReleaseMessage? then b.(released := b.released + m.amount) else b.(refunded := b.refunded + m.amount)
  }

  function TransferOf(s: Sim, m: Message): Transfer
    requires m.escrowRef in s.buckets && m.amount >= 0
  {
    var bucket := s.buckets[m.escrowRef];
    Transfer(Kind(m), m.payoutRef, if m.ReleaseMessage? then m.recipient else bucket.payer, bucket.token, m.amount,
        Fresh(s.salt + 1))
  }

  /** The effects of an accepted payout: nonce, hash, reference, bucket, transfer and one mined block. */
  function ApplyPayout(s: Sim, m: Message): Sim
    requires s.blocks != [] && m.escrowRef in s.buckets && m.amount >= 0
  {
    Mine(s.(nonces := s.nonces + {m.nonce},
            salt := s.salt + 1,
            paid := s.paid[m.payoutRef := Fresh(s.salt + 1)],
            buckets := s.buckets[m.escrowRef := Spend(s.buckets[m.escrowRef], m)],
            transfers := s.transfers + [TransferOf(s, m)]), 1)
  }

  function FinishPayout(s: Sim, signed: Signed, auth: Auth): Result<Sim, PayoutError>
    requires s.blocks != [] && signed.message.escrowRef in s.buckets
  {
    var refused := Verify(s, signed.domain, signed.message.expiry, signed.recovered, auth);
    if refused.Some? then Err(refused.value)
    else
      var short := CheckFunds(s, signed.message);
      if short.Some? then Err(short.value) else Ok(ApplyPayout(s, signed.message))
  }

  /** One payout with nothing else running: its hash is the first one it draws, `Fresh(s.salt + 1)`. */
  function Payout(s: Sim, signed: Signed, auth: Auth): Result<Sim, PayoutError>
    requires s.blocks != []
  {
    var refused := CheckPayout(s, signed.message);
    if refused.Some? then Err(refused.value) else FinishPayout(s, signed, auth)
  }

  /** The checks of a freeze made before the signature is awaited. */
  function CheckFreeze(s: Sim, f: SignedFreeze): Option<PayoutError>
  {
    if s.offline then Some(Unavailable)
    else if f.escrowRef !in s.buckets then Some(UnknownBucket)
    else if f.nonce in s.nonces then Some(NonceUsed)
    else None
  }

  function ApplyFreeze(s: Sim, f: SignedFreeze): Sim
    requires s.blocks != [] && f.escrowRef in s.buckets
  {
    Mine(s.(nonces := s.nonces + {f.nonce},
            buckets := s.buckets[f.escrowRef := s.buckets[f.escrowRef].(frozen := f.frozen)],
            salt := s.salt + 1), 1)
  }

  function FinishFreeze(s: Sim, f: SignedFreeze, auth: Auth): Result<Sim, PayoutError>
    requires s.blocks != [] && f.escrowRef in s.buckets
  {
    var refused := Verify(s, f.domain, f.expiry, f.recovered, auth);
    if refused.Some? then Err(refused.value) else Ok(ApplyFreeze(s, f))
  }

  function ExecuteFreeze(s: Sim, f: SignedFreeze, auth: Auth): Result<Sim, PayoutError>
    requires s.blocks != []
  {
    var refused := CheckFreeze(s, f);
    if refused.Some? then Err(refused.value) else FinishFreeze(s, f, auth)
  }

  // ------------------------------------------------------------------------------------------------------------
  // Batches

  /** The state after the longest accepted prefix of the batch, and the refusal that ended it, if any. */
  function RunReleases(s: Sim, batch: seq<Signed>, auth: Auth): (r: (Sim, Option<PayoutError>))
    requires s.blocks != []
    ensures r.0.blocks != []
    decreases |batch|
  {
    if batch == [] then (s, None)
    else
      match Payout(s, batch[0], auth)
      case Err(e) => (s, Some(e))
      case Ok(next) => RunReleases(next, batch[1..], auth)
  }

  lemma RunReleasesFrom(s: Sim, batch: seq<Signed>, i: nat, auth: Auth)
    requires s.blocks != [] && i < |batch|
    ensures RunReleases(s, batch[i..], auth) ==
      match Payout(s, batch[i], auth)
      case Err(e) => (s, Some(e))
      case Ok(next) => RunReleases(next, batch[i + 1..], auth)
  {
    assert batch[i..][0] == batch[i] && batch[i..][1..] == batch[i + 1..];
  }

  /** `restore` after `snapshot`: the escrow tables go back, blocks and the hash counter do not. */
  function Restore(before: Sim, after: Sim): Sim
    requires |before.transfers| <= |after.transfers|
  {
    after.(nonces := before.nonces, paid := before.paid, buckets := before.buckets,
           transfers := after.transfers[..|before.transfers|])
  }

  lemma {:induction false} RunReleasesOnlyAppends(s: Sim, batch: seq<Signed>, auth: Auth)
    requires s.blocks != []
    ensures s.transfers <= RunReleases(s, batch, auth).0.transfers
    ensures s.blocks <= RunReleases(s, batch, auth).0.blocks
    ensures RunReleases(s, batch, auth).0.settlement == s.settlement
            && RunReleases(s, batch, auth).0.chainId == s.chainId
    ensures s.nonces <= RunReleases(s, batch, auth).0.nonces && s.paid.Keys <= RunReleases(s, batch, auth).0.paid.Keys
    decreases |batch|
  {
    if batch != [] {
      match Payout(s, batch[0], auth)
      case Err(_) =>
      case Ok(next) => RunReleasesOnlyAppends(next, batch[1..], auth);
    }
  }

  /** The state left by `executeReleaseBatch`, and its refusal or None. */
  function Batch(s: Sim, batch: seq<Signed>, auth: Auth): (r: (Sim, Option<PayoutError>))
    requires s.blocks != []
    ensures r.0.blocks != []
  {
    var (after, refused) := RunReleases(s, batch, auth);
    if refused.None? then (after, None)
    else
      RunReleasesOnlyAppends(s, batch, auth);
      (Restore(s, after), refused)
  }

  /** How many releases of the batch are accepted before the first refusal. */
  function Accepted(s: Sim, batch: seq<Signed>, auth: Auth): (n: nat)
    requires s.blocks != []
    ensures n <= |batch|
    ensures n == |batch| <==> RunReleases(s, batch, auth).1.None?
    decreases |batch|
  {
    if batch == [] then 0
    else
      match Payout(s, batch[0], auth)
      case Err(_) => 0
      case Ok(next) => 1 + Accepted(next, batch[1..], auth)
  }

  lemma {:induction false} AcceptedBlocks(s: Sim, batch: seq<Signed>, auth: Auth)
    requires s.blocks != []
    ensures var after := RunReleases(s, batch, auth).0;
            && |after.blocks| == |s.blocks| + Accepted(s, batch, auth)
            && s.blocks <= after.blocks
            && (forall i :: |s.blocks| <= i < |after.blocks| ==> after.blocks[i].receipts == [])
            && after.offline == s.offline && after.paused == s.paused && after.failing == s.failing
            && after.settlement == s.settlement && after.chainId == s.chainId
    decreases |batch|
  {
    if batch != [] {
      match Payout(s, batch[0], auth)
      case Err(_) =>
      case Ok(next) => AcceptedBlocks(next, batch[1..], auth);
    }
  }

  /**
   * All or nothing. A refused batch leaves every escrow table as it was; all that remains of it is one empty block for
   * each release accepted before the refusal. An accepted batch is the releases made one at a time.
   */
  lemma BatchIsAtomic(s: Sim, batch: seq<Signed>, auth: Auth)
    requires s.blocks != []
    ensures var (after, refused) := Batch(s, batch, auth);
            && (refused.None? <==> Accepted(s, batch, auth) == |batch|)
            && (refused.None? ==> after == RunReleases(s, batch, auth).0)
            && (refused.Some? ==>
                  && after == s.(blocks := after.blocks, salt := after.salt)
                  && s.blocks <= after.blocks
                  && |after.blocks| == |s.blocks| + Accepted(s, batch, auth)
                  && forall i :: |s.blocks| <= i < |after.blocks| ==> after.blocks[i].receipts == [])
  {
    RunReleasesOnlyAppends(s, batch, auth);
    AcceptedBlocks(s, batch, auth);
  }

  lemma {:induction false} SpentStaysSpent(s: Sim, batch: seq<Signed>, auth: Auth, j: nat)
    requires s.blocks != [] && j < |batch|
    requires batch[j].message.payoutRef in s.paid || batch[j].message.nonce in s.nonces
    ensures RunReleases(s, batch, auth).1.Some?
    decreases |batch|
  {
    if j > 0 {
      match Payout(s, batch[0], auth)
      case Err(_) =>
      case Ok(next) => SpentStaysSpent(next, batch[1..], auth, j - 1);
    }
  }

  /** A batch naming one payout reference or one nonce twice is refused as a whole. */
  lemma {:induction false} RepeatInBatchIsRefused(s: Sim, batch: seq<Signed>, auth: Auth, i: nat, j: nat)
    requires s.blocks != [] && i < j < |batch|
    requires batch[i].message.payoutRef == batch[j].message.payoutRef
        || batch[i].message.nonce == batch[j].message.nonce
    ensures Batch(s, batch, auth).1.Some?
    decreases |batch|
  {
    match Payout(s, batch[0], auth)
    case Err(_) =>
    case Ok(next) =>
      if i == 0 {
        SpentStaysSpent(next, batch[1..], auth, j - 1);
      } else {
        RepeatInBatchIsRefused(next, batch[1..], auth, i - 1, j - 1);
      }
  }

  // ------------------------------------------------------------------------------------------------------------
  // Accounts

  ghost function SpentBy(buckets: map<EscrowRef, Bucket>): map<EscrowRef, nat>
  {
    map e | e in buckets :: buckets[e].released + buckets[e].refunded
  }

  function TransferTotal(transfers: seq<Transfer>): nat
  {
    if transfers == [] then 0 else TransferTotal(transfers[..|transfers| - 1]) + transfers[|transfers| - 1].amount
  }

  function DepositedFor(s: Sim, e: EscrowRef): nat { if e in s.buckets then s.buckets[e].deposited else 0 }

  predicate Fits(b: Bucket) { b.released + b.refunded <= b.deposited }

  /** No bucket pays out more than it took in. */
  ghost predicate Bounded(buckets: map<EscrowRef, Bucket>)
  {
    forall e :: e in buckets ==> Fits(buckets[e])
  }

  /** The transfers are the money the buckets paid. */
  ghost predicate Totals(s: Sim)
  {
    TransferTotal(s.transfers) == Sum(SpentBy(s.buckets))
  }

  ghost predicate Covered(s: Sim)
  {
    Bounded(s.buckets) && Totals(s)
  }

  ghost predicate DistinctRefs(transfers: seq<Transfer>)
  {
    forall i, j :: 0 <= i < j < |transfers| ==> transfers[i].payoutRef != transfers[j].payoutRef
  }

  /** The references recorded as paid are those of the transfers, each with the hash of a transfer. */
  ghost predicate RefsMatch(s: Sim)
  {
    && (forall i :: 0 <= i < |s.transfers| ==> s.transfers[i].payoutRef in s.paid)
    && (forall p :: p in s.paid ==>
        exists i :: 0 <= i < |s.transfers| && s.transfers[i].payoutRef == p && s.transfers[i].txHash == s.paid[p])
  }

  /** The escrow's books: covered buckets, and every reference paid exactly once. */
  ghost predicate EscrowInv(s: Sim)
  {
    Covered(s) && RefsMatch(s) && DistinctRefs(s.transfers)
  }

  /** What an accepted payout does to the tables. */
  lemma ApplyPayoutTables(s: Sim, m: Message)
    requires s.blocks != [] && m.escrowRef in s.buckets && m.amount >= 0
    ensures var after := ApplyPayout(s, m);
            && after.blocks != [] && after.buckets == s.buckets[m.escrowRef := Spend(s.buckets[m.escrowRef], m)]
            && after.transfers == s.transfers + [TransferOf(s, m)]
            && after.paid == s.paid[m.payoutRef := Fresh(s.salt + 1)]
            && TransferOf(s, m).payoutRef == m.payoutRef && TransferOf(s, m).txHash == Fresh(s.salt + 1)
            && TransferOf(s, m).amount == m.amount
  {
  }

  lemma OneMorePaid(s: Sim, after: Sim, t: Transfer)
    requires RefsMatch(s) && after.transfers == s.transfers + [t] && after.paid == s.paid[t.payoutRef := t.txHash]
    ensures RefsMatch(after)
  {
    forall i | 0 <= i < |after.transfers|
      ensures after.transfers[i].payoutRef in after.paid
    {
      assert i < |s.transfers| ==> after.transfers[i] == s.transfers[i];
    }
    forall p | p in after.paid
      ensures exists i ::
                && 0 <= i < |after.transfers| && after.transfers[i].payoutRef == p
                && after.transfers[i].txHash == after.paid[p]
    {
      if p == t.payoutRef {
        assert after.transfers[|s.transfers|].payoutRef == p;
      } else {
        var i :| 0 <= i < |s.transfers| && s.transfers[i].payoutRef == p && s.transfers[i].txHash == s.paid[p];
        assert after.transfers[i] == s.transfers[i];
      }
    }
  }

  lemma OneMoreSpent(s: Sim, after: Sim, m: Message, t: Transfer)
    requires m.escrowRef in s.buckets && m.amount >= 0 && t.amount == m.amount && Totals(s)
    requires after.transfers == s.transfers + [t]
             && after.buckets == s.buckets[m.escrowRef := Spend(s.buckets[m.escrowRef], m)]
    ensures Totals(after)
  {
    var e := m.escrowRef;
    var spent := s.buckets[e].released + s.buckets[e].refunded + m.amount;
    assert SpentBy(after.buckets) == SpentBy(s.buckets)[e := spent];
    SumUpdate(SpentBy(s.buckets), e, spent);
    assert after.transfers[..|s.transfers|] == s.transfers;
  }

  lemma ApplyPayoutCovered(s: Sim, m: Message)
    requires s.blocks != [] && m.escrowRef in s.buckets && Covered(s) && RefsMatch(s)
    requires 0 < m.amount <= Available(s.buckets[m.escrowRef])
    ensures Covered(ApplyPayout(s, m)) && RefsMatch(ApplyPayout(s, m))
  {
    ApplyPayoutTables(s, m);
    OneMorePaid(s, ApplyPayout(s, m), TransferOf(s, m));
    OneMoreSpent(s, ApplyPayout(s, m), m, TransferOf(s, m));
  }

  lemma PayoutKeepsBooks(s: Sim, signed: Signed, auth: Auth)
    requires s.blocks != [] && EscrowInv(s) && Payout(s, signed, auth).Ok?
    ensures EscrowInv(Payout(s, signed, auth).value)
  {
    ApplyPayoutCovered(s, signed.message);
  }

  lemma {:induction false} RunReleasesKeepsBooks(s: Sim, batch: seq<Signed>, auth: Auth)
    requires s.blocks != [] && EscrowInv(s)
    ensures EscrowInv(RunReleases(s, batch, auth).0)
    decreases |batch|
  {
    if batch != [] {
      match Payout(s, batch[0], auth)
      case Err(_) =>
      case Ok(next) =>
        PayoutKeepsBooks(s, batch[0], auth);
        RunReleasesKeepsBooks(next, batch[1..], auth);
    }
  }

  lemma BatchKeepsBooks(s: Sim, batch: seq<Signed>, auth: Auth)
    requires s.blocks != [] && EscrowInv(s)
    ensures EscrowInv(Batch(s, batch, auth).0)
  {
    BatchIsAtomic(s, batch, auth);
    RunReleasesKeepsBooks(s, batch, auth);
  }

  lemma FreezeKeepsBooks(s: Sim, f: SignedFreeze, auth: Auth)
    requires s.blocks != [] && EscrowInv(s) && ExecuteFreeze(s, f, auth).Ok?
    ensures EscrowInv(ExecuteFreeze(s, f, auth).value)
  {
    assert SpentBy(ExecuteFreeze(s, f, auth).value.buckets) == SpentBy(s.buckets);
  }

  lemma DepositTotals(s: Sim, input: DepositInput)
    requires s.blocks != [] && Totals(s)
    ensures Totals(SubmitDeposit(s, input))
  {
    var after, e := SubmitDeposit(s, input), input.funded.escrowRef;
    assert input.funded.amount * (1 + input.duplicateLogs) >= 0;
    if after.buckets != s.buckets {
      if e in s.buckets {
        assert SpentBy(after.buckets) == SpentBy(s.buckets);
      } else {
        assert SpentBy(after.buckets) == SpentBy(s.buckets)[e := 0];
        SumAdd(SpentBy(s.buckets), e, 0);
      }
    }
  }

  lemma DepositKeepsBooks(s: Sim, input: DepositInput)
    requires s.blocks != [] && EscrowInv(s)
    ensures EscrowInv(SubmitDeposit(s, input))
  {
    DepositTotals(s, input);
    assert input.funded.amount * (1 + input.duplicateLogs) >= 0;
  }

  /**
   * A payout moves exactly its amount, once, under a server signature for this chain and contract, from an open bucket.
   */
  lemma PayoutMovesItsAmount(s: Sim, signed: Signed, auth: Auth)
    requires s.blocks != [] && Payout(s, signed, auth).Ok?
    ensures var m := signed.message;
            var after := Payout(s, signed, auth).value;
            && s.settlement == Some(signed.domain.verifyingContract) && signed.domain.chainId == s.chainId
            && signed.recovered == auth.signer && auth.now <= m.expiry
            && !s.buckets[m.escrowRef].frozen && m.payoutRef !in s.paid && m.nonce !in s.nonces
            && TransferTotal(after.transfers) == TransferTotal(s.transfers) + m.amount
            && Available(after.buckets[m.escrowRef]) == Available(s.buckets[m.escrowRef]) - m.amount
            && (forall e :: e in s.buckets && e != m.escrowRef ==> after.buckets[e] == s.buckets[e])
            && after.paid == s.paid[m.payoutRef := Fresh(s.salt + 1)]
  {
    var after := Payout(s, signed, auth).value;
    assert after.transfers[..|s.transfers|] == s.transfers;
  }

  // ------------------------------------------------------------------------------------------------------------
  // Hashes of a batch

  /** The i-th release of an accepted batch draws its hash, and mines a block with the next one. */
  function HashOf(s: Sim, i: nat): Hash { Fresh(s.salt + 1 + 2 * i) }

  lemma FirstHash(s: Sim, signed: Signed, auth: Auth)
    requires s.blocks != [] && Payout(s, signed, auth).Ok?
    ensures var next := Payout(s, signed, auth).value;
            && next.blocks != [] && next.salt == s.salt + 2 && signed.message.payoutRef !in s.paid
            && next.transfers == s.transfers + [TransferOf(s, signed.message)]
            && TransferOf(s, signed.message).payoutRef == signed.message.payoutRef
            && TransferOf(s, signed.message).txHash == HashOf(s, 0)
            && next.paid == s.paid[signed.message.payoutRef := HashOf(s, 0)]
  {
  }

  lemma {:induction false} BatchSalt(s: Sim, batch: seq<Signed>, auth: Auth)
    requires s.blocks != [] && RunReleases(s, batch, auth).1.None?
    ensures RunReleases(s, batch, auth).0.salt == s.salt + 2 * |batch|
    decreases |batch|
  {
    if batch != [] {
      FirstHash(s, batch[0], auth);
      BatchSalt(Payout(s, batch[0], auth).value, batch[1..], auth);
    }
  }

  lemma LastHash(s: Sim, batch: seq<Signed>, auth: Auth, after: Sim)
    requires s.blocks != [] && RunReleases(s, batch, auth) == (after, None)
    ensures Batch(s, batch, auth) == (after, None)
    ensures batch != [] ==> after.salt == s.salt + 2 * |batch| && HashOf(s, |batch| - 1) == Fresh(after.salt - 1)
  {
    BatchSalt(s, batch, auth);
  }

  /** The i-th transfer of a batch is the i-th release's, and its reference is recorded with its hash. */
  predicate Lists(s: Sim, after: Sim, batch: seq<Signed>, i: nat)
    requires i < |batch| && |after.transfers| == |s.transfers| + |batch|
  {
    var t, p := after.transfers[|s.transfers| + i], batch[i].message.payoutRef;
    t.payoutRef == p && t.txHash == HashOf(s, i) && p in after.paid && after.paid[p] == HashOf(s, i)
  }

  /**
   * An accepted batch appends one transfer per release, in order, each under a hash of its own; nothing is shared, and
   * the recorded hash of every reference is that of its transfer.
   */
  lemma {:induction false} BatchHashes(s: Sim, batch: seq<Signed>, auth: Auth)
    requires s.blocks != [] && RunReleases(s, batch, auth).1.None?
    ensures var after := RunReleases(s, batch, auth).0;
            && |after.transfers| == |s.transfers| + |batch| && s.transfers <= after.transfers
            && (forall p :: p in s.paid ==> p in after.paid && after.paid[p] == s.paid[p])
            && (forall i :: 0 <= i < |batch| ==> Lists(s, after, batch, i))
    decreases |batch|
  {
    if batch != [] {
      var next, after := Payout(s, batch[0], auth).value, RunReleases(s, batch, auth).0;
      FirstHash(s, batch[0], auth);
      BatchHashes(next, batch[1..], auth);
      forall i | 0 <= i < |batch|
        ensures Lists(s, after, batch, i)
      {
        if i == 0 {
          assert after.transfers[|s.transfers|] == next.transfers[|s.transfers|];
        } else {
          assert Lists(next, after, batch[1..], i - 1);
        }
      }
    }
  }

  /** No two releases of an accepted batch are recorded under one hash. */
  lemma BatchHashesDiffer(s: Sim, batch: seq<Signed>, auth: Auth, i: nat, j: nat)
    requires s.blocks != [] && Batch(s, batch, auth).1.None? && i < j < |batch|
    ensures var after := Batch(s, batch, auth).0;
            && batch[i].message.payoutRef in after.paid && batch[j].message.payoutRef in after.paid
            && after.paid[batch[i].message.payoutRef] != after.paid[batch[j].message.payoutRef]
  {
    BatchHashes(s, batch, auth);
    var after := Batch(s, batch, auth).0;
    assert Lists(s, after, batch, i) && Lists(s, after, batch, j);
  }
}
