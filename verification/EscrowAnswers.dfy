/**
 * What the escrow answers to a deposit, a payout and a freeze (src/modules/crypto/chain.ts), said of the tables before
 * and after: exactly when each is accepted or refused, who is paid what, and what does not move.
 */
module EscrowAnswers {
  import opened Common
  import opened SimChain
  import opened EscrowRules

  // ---- deposits -----------------------------------------------------------------------------------------------------

  /** The deposit reaches the contract: it is not reverted, and emitted by the settlement address. */
  predicate Counts(s: Sim, input: DepositInput) { !input.reverted && s.settlement == Some(input.emitter) }

  /** Payer and token of a bucket, which its first deposit fixes. */
  predicate SameOwner(a: Bucket, b: Bucket) { a.payer == b.payer && a.token == b.token }

  /** A bucket after a deposit of `amount` to it, or the new one that a first deposit makes. */
  predicate TookIn(before: Option<Bucket>, after: Bucket, funded: Funded, amount: nat)
  {
    match before
    case Some(b) => after == Bucket(b.payer, b.token, b.deposited + amount, b.released, b.refunded, b.frozen)
    case None => after == Bucket(funded.payer, funded.token, amount, 0, 0, false)
  }

  function BucketOf(s: Sim, e: EscrowRef): Option<Bucket> { if e in s.buckets then Some(s.buckets[e]) else None }

  /**
   * A deposit changes at most the bucket of its own escrow: an existing one only in what it took in, a new one has the
   * deposit's payer and token, nothing spent and no freeze. Its transaction is alone in a new block.
   */
  lemma DepositExact(s: Sim, input: DepositInput)
    requires s.blocks != []
    ensures var after, e := SubmitDeposit(s, input), input.funded.escrowRef;
            && (forall x :: x != e ==> BucketOf(after, x) == BucketOf(s, x))
            && (!Counts(s, input) ==> after.buckets == s.buckets)
            && (Counts(s, input) ==>
                  && e in after.buckets
                  && TookIn(BucketOf(s, e), after.buckets[e], input.funded,
                      input.funded.amount * (1 + input.duplicateLogs)))
    ensures var after := SubmitDeposit(s, input);
            && after.nonces == s.nonces && after.paid == s.paid && after.transfers == s.transfers
            && |after.blocks| == |s.blocks| + 1 && after.blocks[..|s.blocks|] == s.blocks
            && var last := after.blocks[|s.blocks|];
            && last.number == s.blocks[|s.blocks| - 1].number + 1 && |last.receipts| == 1
            && var r := last.receipts[0];
            && r.blockNumber == last.number && r.blockHash == last.hash && r.success == !input.reverted
            && last.hash == Fresh(s.salt + 1) && after.salt > s.salt
            && (input.txHash.Some? ==> r.txHash == input.txHash.value)
            && (input.txHash.None? ==> r.txHash == Fresh(s.salt + 2) && after.salt > s.salt + 1)
            && |r.logs| == (if input.reverted then 0 else 1 + input.duplicateLogs)
            && forall i :: 0 <= i < |r.logs| ==> r.logs[i] == Entry(input.emitter, Some(input.funded))
  {
  }

  // ---- payouts ------------------------------------------------------------------------------------------------------

  /** The bucket is there, in the token that a release names. */
  predicate Addressed(s: Sim, m: Message)
  {
    m.escrowRef in s.buckets && (m.ReleaseMessage? ==> m.token == s.buckets[m.escrowRef].token)
  }

  predicate Unused(s: Sim, m: Message) { m.nonce !in s.nonces && m.payoutRef !in s.paid }

  predicate Up(s: Sim) { !s.offline && !s.paused }

  /** Signed by the server for this chain and contract, and not expired. */
  predicate Authorized(s: Sim, domain: Domain, expiry: int, recovered: Address, auth: Auth)
  {
    && s.settlement == Some(domain.verifyingContract) && domain.chainId == s.chainId
    && auth.now <= expiry && recovered == auth.signer
  }

  /** The bucket is open and holds that much. */
  predicate Pays(b: Bucket, amount: int) { !b.frozen && 0 < amount && b.released + b.refunded + amount <= b.deposited }

  /** A payout is accepted exactly under all of these. */
  lemma PayoutExact(s: Sim, signed: Signed, auth: Auth)
    requires s.blocks != []
    ensures var m := signed.message;
            Payout(s, signed, auth).Ok? <==>
              && Up(s) && Addressed(s, m) && Unused(s, m)
              && Authorized(s, signed.domain, m.expiry, signed.recovered, auth)
              && Pays(s.buckets[m.escrowRef], m.amount) && s.buckets[m.escrowRef].token !in s.failing
  {
  }

  /** And each refusal is given exactly when its test is the first to fail. */
  lemma RefusalExact(s: Sim, signed: Signed, auth: Auth)
    requires s.blocks != []
    ensures var m, r := signed.message, Payout(s, signed, auth);
            && (r == Err(Unavailable) <==> s.offline)
            && (r == Err(EnforcedPause) <==> !s.offline && s.paused)
            && (r == Err(UnknownBucket) <==> Up(s) && m.escrowRef !in s.buckets)
            && (r == Err(TokenMismatch) <==> Up(s) && m.escrowRef in s.buckets && !Addressed(s, m))
            && (r == Err(NonceUsed) <==> Up(s) && Addressed(s, m) && m.nonce in s.nonces)
            && (r.Err? && r.error.AlreadyReleased? <==>
                  Up(s) && Addressed(s, m) && m.nonce !in s.nonces && m.payoutRef in s.paid)
            && (r.Err? && r.error.AlreadyReleased? ==> r.error.txHash == s.paid[m.payoutRef])
    ensures var m, d, r := signed.message, signed.domain, Payout(s, signed, auth);
            var ready := Up(s) && Addressed(s, m) && Unused(s, m);
            && (r == Err(ContractNotDeployed) <==> ready && s.settlement.None?)
            && (r == Err(WrongChain) <==> ready && s.settlement.Some? && d.chainId != s.chainId)
            && (r == Err(WrongContract) <==>
                  ready && s.settlement.Some? && d.chainId == s.chainId && d.verifyingContract != s.settlement.value)
            && (r == Err(AuthorizationExpired) <==>
                  ready && d.chainId == s.chainId && s.settlement == Some(d.verifyingContract) && m.expiry < auth.now)
            && (r == Err(BadSignature) <==>
                  && ready && d.chainId == s.chainId && s.settlement == Some(d.verifyingContract)
                  && auth.now <= m.expiry && signed.recovered != auth.signer)
    ensures var m, r := signed.message, Payout(s, signed, auth);
            var ready := && Up(s) && Addressed(s, m) && Unused(s, m)
                         && Authorized(s, signed.domain, m.expiry, signed.recovered, auth);
            && (r == Err(BucketFrozen) <==> ready && s.buckets[m.escrowRef].frozen)
            && (r == Err(InsufficientBucketBalance) <==>
                  ready && !s.buckets[m.escrowRef].frozen && !Pays(s.buckets[m.escrowRef], m.amount))
            && (r == Err(TokenTransferFailed) <==>
                  ready && Pays(s.buckets[m.escrowRef], m.amount) && s.buckets[m.escrowRef].token in s.failing)
  {
  }

  /** The transfer of a message from a bucket: a release to the recipient it names, a refund to the bucket's payer. */
  predicate PaidOut(m: Message, b: Bucket, t: Transfer)
  {
    && t.payoutRef == m.payoutRef && t.amount == m.amount
    && match m
       case ReleaseMessage(_, _, recipient, _, _, _, _) =>
           t.kind == Release && t.recipient == recipient && t.token == b.token
       case RefundMessage(_, _, _, _, _) => t.kind == Refund && t.recipient == b.payer && t.token == b.token
  }

  /** The bucket after it: only `released`, or only `refunded`, grows by the amount. */
  predicate Debited(m: Message, b: Bucket, after: Bucket)
  {
    match m
    case ReleaseMessage(_, _, _, _, amount, _, _) =>
      amount >= 0 && after == Bucket(b.payer, b.token, b.deposited, b.released + amount, b.refunded, b.frozen)
    case RefundMessage(_, _, amount, _, _) =>
      amount >= 0 && after == Bucket(b.payer, b.token, b.deposited, b.released, b.refunded + amount, b.frozen)
  }

  /** One transfer more, its hash recorded under its reference, the nonce used up, and one empty block more. */
  predicate OnePayment(s: Sim, after: Sim, m: Message, t: Transfer)
  {
    && after.transfers == s.transfers + [t] && after.paid == s.paid[m.payoutRef := t.txHash]
    && after.nonces == s.nonces + {m.nonce}
    && |after.blocks| == |s.blocks| + 1 && after.blocks[..|s.blocks|] == s.blocks
    && after.blocks[|s.blocks|].receipts == []
    && after.chainId == s.chainId && after.settlement == s.settlement
    && after.offline == s.offline && after.paused == s.paused && after.failing == s.failing
  }

  /** What the second half of a payout does to the tables it sees. */
  lemma FinishPays(s: Sim, signed: Signed, auth: Auth) returns (t: Transfer)
    requires s.blocks != [] && signed.message.escrowRef in s.buckets && FinishPayout(s, signed, auth).Ok?
    ensures var m, after := signed.message, FinishPayout(s, signed, auth).value;
            && PaidOut(m, s.buckets[m.escrowRef], t) && OnePayment(s, after, m, t)
            && after.buckets.Keys == s.buckets.Keys
            && Debited(m, s.buckets[m.escrowRef], after.buckets[m.escrowRef])
            && forall e :: e in s.buckets && e != m.escrowRef ==> after.buckets[e] == s.buckets[e]
  {
    t := FinishPayout(s, signed, auth).value.transfers[|s.transfers|];
  }

  /**
   * An accepted payout is exactly one transfer: a release in the token and to the recipient of its message, a refund in
   * the bucket's token to the bucket's payer.
   */
  lemma PayoutPays(s: Sim, signed: Signed, auth: Auth) returns (t: Transfer)
    requires s.blocks != [] && Payout(s, signed, auth).Ok?
    ensures var m, after := signed.message, Payout(s, signed, auth).value;
            && m.escrowRef in s.buckets && PaidOut(m, s.buckets[m.escrowRef], t) && OnePayment(s, after, m, t)
            && (m.ReleaseMessage? ==> t.token == m.token)
            && after.buckets.Keys == s.buckets.Keys
            && Debited(m, s.buckets[m.escrowRef], after.buckets[m.escrowRef])
            && forall e :: e in s.buckets && e != m.escrowRef ==> after.buckets[e] == s.buckets[e]
  {
    PayoutExact(s, signed, auth);
    t := FinishPays(s, signed, auth);
  }

  // ---- freezes ------------------------------------------------------------------------------------------------------

  /** Only the flag of one bucket moved, and the nonce is used up. */
  predicate OnlyFlag(s: Sim, after: Sim, f: SignedFreeze)
    requires f.escrowRef in s.buckets
  {
    var b := s.buckets[f.escrowRef];
    && after.nonces == s.nonces + {f.nonce} && after.paid == s.paid && after.transfers == s.transfers
    && after.buckets == s.buckets[f.escrowRef := Bucket(b.payer, b.token, b.deposited, b.released, b.refunded,
        f.frozen)]
    && |after.blocks| == |s.blocks| + 1 && after.blocks[..|s.blocks|] == s.blocks
    && after.blocks[|s.blocks|].receipts == []
  }

  /** A freeze order is accepted exactly under these, also while the escrow is paused, and sets its flag either way. */
  lemma FreezeExact(s: Sim, f: SignedFreeze, auth: Auth)
    requires s.blocks != []
    ensures ExecuteFreeze(s, f, auth).Ok? <==>
              && !s.offline && f.escrowRef in s.buckets && f.nonce !in s.nonces
              && Authorized(s, f.domain, f.expiry, f.recovered, auth)
    ensures ExecuteFreeze(s, f, auth).Ok? ==> OnlyFlag(s, ExecuteFreeze(s, f, auth).value, f)
  {
  }
}
