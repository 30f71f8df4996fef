/**
 * The in-process devnet simulator (class `LocalDevChain` in src/modules/crypto/chain.ts) as it is written: fields,
 * bucket objects shared by reference, and methods that change them in place, each tied to its function on chain values.
 */
module LocalDevChain {
  import opened Common
  import opened SimChain
  import opened EscrowRules

  class SimBucket {
    var payer: Address
    var token: Address
    var deposited: nat
    var released: nat
    var refunded: nat
    var frozen: bool

    constructor (v: Bucket)
      ensures Value() == v
    {
      payer, token, deposited, released, refunded, frozen := v.payer, v.token, v.deposited, v.released, v.refunded,
          v.frozen;
    }

    function Value(): Bucket
      reads this
    {
      Bucket(payer, token, deposited, released, refunded, frozen)
    }
  }

  type BucketMap = map<EscrowRef, SimBucket>

  ghost function ObjectsOf(m: BucketMap): set<SimBucket> { set e | e in m :: m[e] }

  /** Distinct references have distinct objects. */
  ghost predicate Separate(m: BucketMap) { forall e, f :: e in m && f in m && e != f ==> m[e] != m[f] }

  ghost function Values(m: BucketMap): map<EscrowRef, Bucket>
    reads ObjectsOf(m)
  {
    map e | e in m :: m[e].Value()
  }

  /** What `snapshot` returns: copies of the tables, with bucket copies of its own, and the number of transfers. */
  datatype Snapshot = Snapshot(nonces: set<nat>, released: map<nat, Hash>, buckets: BucketMap, transfers: nat)

  class Simulator {
    const chainId: nat
    var settlement: Option<Address>
    var blocks: seq<Block>
    var offline: bool
    var salt: nat
    var usedNonces: set<nat>
    var releasedPayouts: map<nat, Hash>
    var buckets: BucketMap
    var paused: bool
    var failingTokens: set<Address>
    var transfers: seq<Transfer>

    ghost predicate Valid()
      reads this
    {
      blocks != [] && Separate(buckets)
    }

    ghost function Objects(): set<SimBucket>
      reads this
    {
      ObjectsOf(buckets)
    }

    ghost function State(): Sim
      reads this, Objects()
    {
      Sim(chainId, settlement, blocks, salt, offline, paused, failingTokens, usedNonces, releasedPayouts,
          Values(buckets), transfers)
    }

    constructor (chainId: nat, settlement: Option<Address>)
      ensures Valid() && Objects() == {}
      ensures State() == NewSim(chainId, settlement)
    {
      this.chainId, this.settlement := chainId, settlement;
      offline, salt, usedNonces, releasedPayouts, buckets := false, 1, {}, map[], map[];
      paused, failingTokens, transfers := false, {}, [];
      blocks := [Block(0, Fresh(1), [])];
    }

    method NextHash() returns (h: Hash)
      modifies this`salt
      ensures salt == old(salt) + 1 && h == Fresh(salt)
    {
      salt := salt + 1;
      h := Fresh(salt);
    }

    method MineBlocks(count: nat)
      requires Valid()
      modifies this`salt, this`blocks
      ensures Valid() && State() == Mine(old(State()), count)
    {
      ghost var start := State();
      var i := 0;
      while i < count
        invariant i <= count && blocks != []
        invariant blocks == start.blocks + EmptyBlocks(Head(start), start.salt, i) && salt == start.salt + i
      {
        var number := blocks[|blocks| - 1].number + 1;
        var hash := NextHash();
        blocks := blocks + [Block(number, hash, [])];
        i := i + 1;
      }
    }

    /** Adds to a bucket, which the first deposit creates with its payer and token. */
    method CreditBucket(funded: Funded, amount: nat)
      requires Valid()
      modifies this`buckets, Objects()
      ensures Valid() && fresh(Objects() - old(Objects()))
      ensures var e, was := funded.escrowRef, old(Values(buckets));
              var v := if e in was then was[e] else Bucket(funded.payer, funded.token, 0, 0, 0, false);
              Values(buckets) == was[e := v.(deposited := v.deposited + amount)]
    {
      var e := funded.escrowRef;
      var bucket;
      if e in buckets {
        bucket := buckets[e];
      } else {
        bucket := new SimBucket(Bucket(funded.payer, funded.token, 0, 0, 0, false));
      }
      bucket.deposited := bucket.deposited + amount;
      buckets := buckets[e := bucket];
    }

    /** The hashes of a new deposit: its block's and, unless the caller brought one, its transaction's. */
    method DrawHashes(txHash: Option<Hash>) returns (blockHash: Hash, tx: Hash)
      modifies this`salt
      ensures blockHash == Fresh(old(salt) + 1)
      ensures salt == old(salt) + if txHash.Some? then 1 else 2
      ensures tx == if txHash.Some? then txHash.value else Fresh(old(salt) + 2)
    {
      blockHash := NextHash();
      if txHash.Some? {
        tx := txHash.value;
      } else {
        tx := NextHash();
      }
    }

    /** The bucket side of a deposit. */
    method CreditDeposit(input: DepositInput)
      requires Valid()
      modifies this`buckets, Objects()
      ensures Valid() && fresh(Objects() - old(Objects()))
      ensures Values(buckets) == CreditedBuckets(old(State()), input)
    {
      if !input.reverted && settlement == Some(input.emitter) {
        assert input.funded.amount * (1 + input.duplicateLogs) >= 0;
        CreditBucket(input.funded, input.funded.amount * (1 + input.duplicateLogs));
      }
    }

    method Submit(input: DepositInput) returns (tx: Hash)
      requires Valid()
      modifies this, Objects()
      ensures Valid() && fresh(Objects() - old(Objects()))
      ensures State() == SubmitDeposit(old(State()), input) && tx == DepositTx(old(State()), input)
    {
      CreditDeposit(input);
      var number := blocks[|blocks| - 1].number + 1;
      var blockHash;
      blockHash, tx := DrawHashes(input.txHash);
      blocks := blocks + [Block(number, blockHash,
          [Receipt(tx, number, blockHash, !input.reverted, DepositLogs(input))])];
    }

    method ReorgBlocks(depth: nat)
      requires Valid()
      modifies this`salt, this`blocks
      ensures Valid() && State() == Reorg(old(State()), depth)
    {
      blocks := blocks[..Max(1, |blocks| - depth)];
      MineBlocks(depth + 1);
    }

    method ReincludeReceipt(receipt: Receipt)
      requires Valid()
      modifies this`salt, this`blocks
      ensures Valid() && State() == Reinclude(old(State()), receipt)
    {
      var number := blocks[|blocks| - 1].number + 1;
      var hash := NextHash();
      blocks := blocks + [Block(number, hash, [receipt.(blockNumber := number, blockHash := hash)])];
    }

    /** The signature check; it reads the server's signer and clock. */
    method VerifySigned(domain: Domain, expiry: int, recovered: Address, auth: Auth)
        returns (refused: Option<PayoutError>)
      requires Valid()
      ensures refused == Verify(State(), domain, expiry, recovered, auth)
      ensures refused.None? <==>
              && settlement == Some(domain.verifyingContract) && domain.chainId == chainId && auth.now <= expiry
              && recovered == auth.signer
    {
      if settlement.None? { return Some(ContractNotDeployed); }
      if domain.chainId != chainId { return Some(WrongChain); }
      if domain.verifyingContract != settlement.value { return Some(WrongContract); }
      if expiry < auth.now { return Some(AuthorizationExpired); }
      if recovered != auth.signer { return Some(BadSignature); }
      return None;
    }

    method DebitBucket(m: Message)
      requires Valid() && m.escrowRef in buckets && m.amount >= 0
      modifies buckets[m.escrowRef]
      ensures buckets[m.escrowRef].Value() == Spend(old(buckets[m.escrowRef].Value()), m)
      ensures Values(buckets) == old(Values(buckets))[m.escrowRef := Spend(old(Values(buckets))[m.escrowRef], m)]
    {
      var bucket := buckets[m.escrowRef];
      if m.ReleaseMessage? {
        bucket.released := bucket.released + m.amount;
      } else {
        bucket.refunded := bucket.refunded + m.amount;
      }
    }

    /**
     * The tests of a payout, in the order of the contract: bucket, token, nonce, reference, signature, freeze, balance,
     * token.
     */
    method Screen(signed: Signed, auth: Auth) returns (refused: Option<PayoutError>)
      requires Valid()
      ensures match Payout(State(), signed, auth)
              case Ok(_) => refused.None?
              case Err(e) => refused == Some(e)
      ensures refused.None? ==> signed.message.escrowRef in buckets && signed.message.amount > 0
    {
      var m := signed.message;
      if offline { return Some(Unavailable); }
      if paused { return Some(EnforcedPause); }
      if m.escrowRef !in buckets { return Some(UnknownBucket); }
      var bucket := buckets[m.escrowRef];
      var token := if m.ReleaseMessage? then m.token else bucket.token;
      if token != bucket.token { return Some(TokenMismatch); }
      if m.nonce in usedNonces { return Some(NonceUsed); }
      if m.payoutRef in releasedPayouts { return Some(AlreadyReleased(releasedPayouts[m.payoutRef])); }
      refused := VerifySigned(signed.domain, m.expiry, signed.recovered, auth);
      if refused.Some? { return; }
      if bucket.frozen { return Some(BucketFrozen); }
      if m.amount <= 0 || m.amount > bucket.deposited - bucket.released - bucket.refunded {
        return Some(InsufficientBucketBalance);
      }
      if token in failingTokens { return Some(TokenTransferFailed); }
    }

    /** Uses up the nonce and records the reference under a new hash. */
    method MarkPaid(nonce: nat, payoutRef: nat) returns (txHash: Hash)
      modifies this`usedNonces, this`salt, this`releasedPayouts
      ensures txHash == Fresh(old(salt) + 1) && salt == old(salt) + 1
      ensures usedNonces == old(usedNonces) + {nonce} && releasedPayouts == old(releasedPayouts)[payoutRef := txHash]
    {
      usedNonces := usedNonces + {nonce};
      txHash := NextHash();
      releasedPayouts := releasedPayouts[payoutRef := txHash];
    }

    /** Takes the amount from the bucket and lists the transfer, a refund always to the bucket's payer. */
    method MoveFunds(m: Message, txHash: Hash)
      requires Valid() && m.escrowRef in buckets && m.amount > 0
      modifies this`transfers, buckets[m.escrowRef]
      ensures Values(buckets) == old(Values(buckets))[m.escrowRef := Spend(old(Values(buckets))[m.escrowRef], m)]
      ensures transfers == old(transfers) + [TransferOf(old(State()), m).(txHash := txHash)]
    {
      DebitBucket(m);
      var bucket := buckets[m.escrowRef];
      var recipient := if m.ReleaseMessage? then m.recipient else bucket.payer;
      transfers := transfers + [Transfer(Kind(m), m.payoutRef, recipient, bucket.token, m.amount, txHash)];
    }

    /** The effects of an accepted payout on the tables. */
    method Book(m: Message) returns (txHash: Hash)
      requires Valid() && m.escrowRef in buckets && m.amount > 0
      modifies this`usedNonces, this`salt, this`releasedPayouts, this`transfers, buckets[m.escrowRef]
      ensures txHash == Fresh(old(salt) + 1) && salt == old(salt) + 1
      ensures usedNonces == old(usedNonces) + {m.nonce}
              && releasedPayouts == old(releasedPayouts)[m.payoutRef := txHash]
      ensures Values(buckets) == old(Values(buckets))[m.escrowRef := Spend(old(Values(buckets))[m.escrowRef], m)]
      ensures transfers == old(transfers) + [TransferOf(old(State()), m)]
    {
      txHash := MarkPaid(m.nonce, m.payoutRef);
      MoveFunds(m, txHash);
    }

    /** The effects of an accepted payout, and its block. */
    method Settle(m: Message) returns (txHash: Hash)
      requires Valid() && m.escrowRef in buckets && m.amount > 0
      modifies this, Objects()
      ensures Valid() && buckets == old(buckets)
      ensures State() == ApplyPayout(old(State()), m) && txHash == Fresh(old(salt) + 1)
    {
      txHash := Book(m);
      MineBlocks(1);
    }

    method PayOut(signed: Signed, auth: Auth) returns (r: Result<Hash, PayoutError>)
      requires Valid()
      modifies this, Objects()
      ensures Valid() && buckets == old(buckets)
      ensures match Payout(old(State()), signed, auth)
              case Ok(after) => State() == after && r == Ok(Fresh(old(salt) + 1))
              case Err(e) => State() == old(State()) && r == Err(e)
      ensures r.Ok? ==> r.value.Fresh? && r.value.salt + 1 == salt
    {
      var refused := Screen(signed, auth);
      if refused.Some? { return Err(refused.value); }
      var txHash := Settle(signed.message);
      return Ok(txHash);
    }

    /** Copies every table and every bucket, so that later payouts do not reach the copies. */
    method TakeSnapshot() returns (s: Snapshot)
      requires Valid()
      ensures s.nonces == usedNonces && s.released == releasedPayouts && s.transfers == |transfers|
      ensures fresh(ObjectsOf(s.buckets)) && Separate(s.buckets)
      ensures Values(s.buckets) == Values(buckets)
    {
      var copies: BucketMap := map[];
      var todo := buckets.Keys;
      while todo != {}
        invariant todo <= buckets.Keys && copies.Keys == buckets.Keys - todo
        invariant forall e :: e in copies ==> fresh(copies[e])
        invariant Separate(copies)
        invariant forall e :: e in copies ==> copies[e].Value() == buckets[e].Value()
        decreases todo
      {
        var e :| e in todo;
        var copy := new SimBucket(buckets[e].Value());
        copies := copies[e := copy];
        todo := todo - {e};
        assert copies.Keys == buckets.Keys - todo;
      }
      s := Snapshot(usedNonces, releasedPayouts, copies, |transfers|);
    }

    method RestoreSnapshot(s: Snapshot)
      requires Valid() && Separate(s.buckets) && s.transfers <= |transfers|
      modifies this`usedNonces, this`releasedPayouts, this`buckets, this`transfers
      ensures Valid() && Objects() == ObjectsOf(s.buckets)
      ensures State() == old(State()).(nonces := s.nonces, paid := s.released, buckets := Values(s.buckets),
                                       transfers := old(transfers)[..s.transfers])
    {
      usedNonces := s.nonces;
      releasedPayouts := s.released;
      buckets := s.buckets;
      transfers := transfers[..s.transfers];
    }

    /** Applies the releases in turn until one is refused. */
    method RunBatch(batch: seq<Signed>, auth: Auth) returns (last: Option<Hash>, refused: Option<PayoutError>)
      requires Valid()
      modifies this, Objects()
      ensures Valid() && buckets == old(buckets)
      ensures (State(), refused) == RunReleases(old(State()), batch, auth)
      ensures refused.None? ==>
          (last.None? <==> batch == []) && (last.Some? ==> last.value.Fresh? && last.value.salt + 1 == salt)
    {
      ghost var start := State();
      last, refused := None, None;
      var i := 0;
      while i < |batch|
        invariant i <= |batch| && Valid() && buckets == old(buckets)
        invariant last.None? == (i == 0) && (last.Some? ==> last.value.Fresh? && last.value.salt + 1 == salt)
        invariant RunReleases(start, batch, auth) == RunReleases(State(), batch[i..], auth)
      {
        RunReleasesFrom(State(), batch, i, auth);
        var paid := PayOut(batch[i], auth);
        if paid.Err? {
          return None, Some(paid.error);
        }
        last := Some(paid.value);
        i := i + 1;
      }
    }

    /** The batch under its snapshot: run, and put back when a release is refused. */
    method RunOrRestore(batch: seq<Signed>, auth: Auth) returns (last: Option<Hash>, refused: Option<PayoutError>)
      requires Valid()
      modifies this, Objects()
      ensures Valid() && fresh(Objects() - old(Objects()))
      ensures (State(), refused) == Batch(old(State()), batch, auth)
      ensures refused.None? ==> (State(), None) == RunReleases(old(State()), batch, auth)
      ensures refused.None? ==>
          (last.None? <==> batch == []) && (last.Some? ==> last.value.Fresh? && last.value.salt + 1 == salt)
    {
      var before := TakeSnapshot();
      last, refused := RunBatch(batch, auth);
      if refused.Some? {
        RunReleasesOnlyAppends(old(State()), batch, auth);
        RestoreSnapshot(before);
      }
    }

    method ExecuteReleaseBatch(batch: seq<Signed>, auth: Auth) returns (r: Result<Option<Hash>, PayoutError>)
      requires Valid()
      modifies this, Objects()
      ensures Valid() && fresh(Objects() - old(Objects()))
      ensures State() == Batch(old(State()), batch, auth).0
      ensures match Batch(old(State()), batch, auth).1
              case None => r == Ok(if batch == [] then None else Some(HashOf(old(State()), |batch| - 1)))
              case Some(e) => r == Err(e)
    {
      var last, refused := RunOrRestore(batch, auth);
      if refused.Some? { return Err(refused.value); }
      LastHash(old(State()), batch, auth, State());
      return Ok(last);
    }

    method ScreenFreeze(f: SignedFreeze, auth: Auth) returns (refused: Option<PayoutError>)
      requires Valid()
      ensures match ExecuteFreeze(State(), f, auth)
              case Ok(_) => refused.None?
              case Err(e) => refused == Some(e)
      ensures refused.None? ==> f.escrowRef in buckets
    {
      if offline { return Some(Unavailable); }
      if f.escrowRef !in buckets { return Some(UnknownBucket); }
      if f.nonce in usedNonces { return Some(NonceUsed); }
      refused := VerifySigned(f.domain, f.expiry, f.recovered, auth);
    }

    method SetFrozen(e: EscrowRef, frozen: bool)
      requires Valid() && e in buckets
      modifies buckets[e]
      ensures Values(buckets) == old(Values(buckets))[e := old(Values(buckets))[e].(frozen := frozen)]
    {
      var bucket := buckets[e];
      bucket.frozen := frozen;
    }

    method BookFreeze(f: SignedFreeze) returns (txHash: Hash)
      requires Valid() && f.escrowRef in buckets
      modifies this`usedNonces, this`salt, buckets[f.escrowRef]
      ensures txHash == Fresh(old(salt) + 1) && salt == old(salt) + 1 && usedNonces == old(usedNonces) + {f.nonce}
      ensures Values(buckets) ==
          old(Values(buckets))[f.escrowRef := old(Values(buckets))[f.escrowRef].(frozen := f.frozen)]
    {
      usedNonces := usedNonces + {f.nonce};
      SetFrozen(f.escrowRef, f.frozen);
      txHash := NextHash();
    }

    method ApplyFreeze(f: SignedFreeze) returns (txHash: Hash)
      requires Valid() && f.escrowRef in buckets
      modifies this, Objects()
      ensures Valid() && buckets == old(buckets) && txHash == Fresh(old(salt) + 1)
      ensures State() == EscrowRules.ApplyFreeze(old(State()), f)
    {
      txHash := BookFreeze(f);
      MineBlocks(1);
    }

    method Freeze(f: SignedFreeze, auth: Auth) returns (r: Result<Hash, PayoutError>)
      requires Valid()
      modifies this, Objects()
      ensures Valid() && buckets == old(buckets)
      ensures match ExecuteFreeze(old(State()), f, auth)
              case Ok(after) => State() == after && r == Ok(Fresh(old(salt) + 1))
              case Err(e) => State() == old(State()) && r == Err(e)
    {
      var refused := ScreenFreeze(f, auth);
      if refused.Some? { return Err(refused.value); }
      var txHash := ApplyFreeze(f);
      return Ok(txHash);
    }

    /** The readers; None for the outer option means the node is unreachable. */
    method GetBlockHash(number: nat) returns (r: Option<Option<Hash>>)
      requires Valid()
      ensures r == if offline then None else Some(BlockHashAt(blocks, number))
    {
      if offline { return None; }
      var i := 0;
      while i < |blocks|
        invariant i <= |blocks|
        invariant BlockHashAt(blocks, number) == BlockHashAt(blocks[i..], number)
      {
        if blocks[i].number == number { return Some(Some(blocks[i].hash)); }
        i := i + 1;
      }
      return Some(None);
    }

    method GetTransactionReceipt(hash: Hash) returns (r: Option<Option<Receipt>>)
      requires Valid()
      ensures r == if offline then None else Some(FindReceipt(blocks, hash))
    {
      if offline { return None; }
      var i := 0;
      while i < |blocks|
        invariant i <= |blocks|
        invariant FindReceipt(blocks, hash) == FindReceipt(blocks[i..], hash)
      {
        var here := ReceiptIn(blocks[i].receipts, hash);
        if here.Some? { return Some(here); }
        i := i + 1;
      }
      return Some(None);
    }
  }
}
