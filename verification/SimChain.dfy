/**
 * The state of the in-process devnet (src/modules/crypto/chain.ts) as a value: blocks, receipts and the escrow tables.
 * Block operations are here; the payout rules are in EscrowRules and the mutable simulator is in LocalDevChain.
 */
module SimChain {
  import opened Common

  /** A lower-cased 20-byte address. */
  type Address = nat

  /** A hash minted by the simulator's counter, or one supplied by the caller of `submitDeposit`. */
  datatype Hash = Fresh(salt: nat) | Given(id: nat)

  /** Escrow bucket references; the hash over the kind and the identifiers is taken to be injective. */
  datatype EscrowRef = OrderEscrow(order: nat) | PoolEscrow(pool: nat, poolAsset: nat) | OtherEscrow(id: nat)

  /** Payment references, injective in the same sense. */
  datatype Reference = OrderPayment(order: nat, intent: nat) | PoolPayment(intent: nat) | OtherReference(id: nat)

  /** The arguments of a decoded `Funded` event. */
  datatype Funded = Funded(escrowRef: EscrowRef, reference: Reference, payer: Address, token: Address, amount: nat)

  /** A log entry; `funded` is None when the entry does not decode as `Funded`. Its log index is its position. */
  datatype Entry = Entry(address: Address, funded: Option<Funded>)

  datatype Receipt = Receipt(txHash: Hash, blockNumber: nat, blockHash: Hash, success: bool, logs: seq<Entry>)

  datatype Block = Block(number: nat, hash: Hash, receipts: seq<Receipt>)

  datatype Bucket = Bucket(payer: Address, token: Address, deposited: nat, released: nat, refunded: nat, frozen: bool)

  datatype PayoutKind = Release | Refund

  datatype Transfer = Transfer(kind: PayoutKind, payoutRef: nat, recipient: Address, token: Address, amount: nat,
      txHash: Hash)

  datatype Sim = Sim(
    chainId: nat,
    settlement: Option<Address>,
    blocks: seq<Block>,
    salt: nat,
    offline: bool,
    paused: bool,
    failing: set<Address>,
    nonces: set<nat>,
    paid: map<nat, Hash>,
    buckets: map<EscrowRef, Bucket>,
    transfers: seq<Transfer>)

  function NewSim(chainId: nat, settlement: Option<Address>): Sim
  {
    Sim(chainId, settlement, [Block(0, Fresh(1), [])], 1, false, false, {}, {}, map[], map[], [])
  }

  function Head(s: Sim): nat
    requires s.blocks != []
  {
    s.blocks[|s.blocks| - 1].number
  }

  /** The `count` empty blocks that `mine` appends after block `head`. */
  function EmptyBlocks(head: nat, salt: nat, count: nat): (r: seq<Block>)
    ensures |r| == count
    ensures forall i :: 0 <= i < count ==> r[i] == Block(head + 1 + i, Fresh(salt + 1 + i), [])
  {
    seq(count, (i: nat) => Block(head + 1 + i, Fresh(salt + 1 + i), []))
  }

  function Mine(s: Sim, count: nat): Sim
    requires s.blocks != []
  {
    s.(blocks := s.blocks + EmptyBlocks(Head(s), s.salt, count), salt := s.salt + count)
  }

  datatype DepositInput = DepositInput(emitter: Address, funded: Funded, reverted: bool, txHash: Option<Hash>,
      duplicateLogs: nat)

  function DepositLogs(input: DepositInput): (r: seq<Entry>)
    ensures |r| == if input.reverted then 0 else 1 + input.duplicateLogs
    ensures forall i :: 0 <= i < |r| ==> r[i] == Entry(input.emitter, Some(input.funded))
  {
    if input.reverted then []
    else seq(1 + input.duplicateLogs, (i: nat) => Entry(input.emitter, Some(input.funded)))
  }

  /** The hash the deposit's transaction gets: the caller's, or the second one drawn after the block's. */
  function DepositTx(s: Sim, input: DepositInput): Hash
  {
    if input.txHash.Some? then input.txHash.value else Fresh(s.salt + 2)
  }

  /** The bucket credit of a deposit; only an unreverted deposit emitted by the settlement contract credits one. */
  function CreditedBuckets(s: Sim, input: DepositInput): map<EscrowRef, Bucket>
  {
    if !input.reverted && s.settlement == Some(input.emitter) then
      var e := input.funded.escrowRef;
      var bucket := if e in s.buckets then s.buckets[e]
          else Bucket(input.funded.payer, input.funded.token, 0, 0, 0, false);
      s.buckets[e := bucket.(deposited := bucket.deposited + input.funded.amount * (1 + input.duplicateLogs))]
    else s.buckets
  }

  function SubmitDeposit(s: Sim, input: DepositInput): Sim
    requires s.blocks != []
  {
    var number := Head(s) + 1;
    var blockHash := Fresh(s.salt + 1);
    var receipt := Receipt(DepositTx(s, input), number, blockHash, !input.reverted, DepositLogs(input));
    s.(blocks := s.blocks + [Block(number, blockHash, [receipt])],
       salt := if input.txHash.Some? then s.salt + 1 else s.salt + 2,
       buckets := CreditedBuckets(s, input))
  }

  function Max(a: int, b: int): int { if a < b then b else a }

  /**
   * Drops the last `depth` blocks, never the genesis block, and mines `depth + 1` empty ones. Buckets keep their
   * credits.
   */
  function Reorg(s: Sim, depth: nat): Sim
    requires s.blocks != []
  {
    Mine(s.(blocks := s.blocks[..Max(1, |s.blocks| - depth)]), depth + 1)
  }

  function Reinclude(s: Sim, receipt: Receipt): Sim
    requires s.blocks != []
  {
    var number := Head(s) + 1;
    var hash := Fresh(s.salt + 1);
    s.(blocks := s.blocks + [Block(number, hash, [receipt.(blockNumber := number, blockHash := hash)])],
        salt := s.salt + 1)
  }

  /** The reader: None stands for `null`; the caller checks `offline` first. */
  function BlockHashAt(blocks: seq<Block>, number: nat): Option<Hash>
  {
    if blocks == [] then None
    else if blocks[0].number == number then Some(blocks[0].hash)
    else BlockHashAt(blocks[1..], number)
  }

  function ReceiptIn(receipts: seq<Receipt>, hash: Hash): Option<Receipt>
  {
    if receipts == [] then None
    else if receipts[0].txHash == hash then Some(receipts[0])
    else ReceiptIn(receipts[1..], hash)
  }

  function FindReceipt(blocks: seq<Block>, hash: Hash): Option<Receipt>
  {
    if blocks == [] then None
    else
      var here := ReceiptIn(blocks[0].receipts, hash);
      if here.Some? then here else FindReceipt(blocks[1..], hash)
  }

  predicate HasLogOf(receipt: Receipt, address: Address)
  {
    exists i :: 0 <= i < |receipt.logs| && receipt.logs[i].address == address
  }

  /**
   * The distinct hashes of the transactions with a log of `address` in blocks from..to, in order of first appearance.
   */
  function LogHashesIn(receipts: seq<Receipt>, address: Address, found: seq<Hash>): seq<Hash>
  {
    if receipts == [] then found
    else
      var next := if HasLogOf(receipts[0], address) && receipts[0].txHash !in found then found + [receipts[0].txHash]
          else found;
      LogHashesIn(receipts[1..], address, next)
  }

  function LogHashes(blocks: seq<Block>, address: Address, from: nat, to: nat, found: seq<Hash>): seq<Hash>
  {
    if blocks == [] then found
    else
      var next := if from <= blocks[0].number <= to then LogHashesIn(blocks[0].receipts, address, found) else found;
      LogHashes(blocks[1..], address, from, to, next)
  }

  // ------------------------------------------------------------------------------------------------------------
  // What the reader's answers mean

  /** Block numbers are positions. */
  predicate Numbered(blocks: seq<Block>)
  {
    blocks != [] && forall i :: 0 <= i < |blocks| ==> blocks[i].number == i
  }

  lemma {:induction false} BlockHashAtFrom(blocks: seq<Block>, base: nat, number: nat)
    requires forall i :: 0 <= i < |blocks| ==> blocks[i].number == base + i
    ensures BlockHashAt(blocks, number) == if base <= number < base + |blocks| then Some(blocks[number - base].hash)
        else None
    decreases |blocks|
  {
    if blocks != [] && number != base {
      BlockHashAtFrom(blocks[1..], base + 1, number);
    }
  }

  /** `getBlockHash` answers exactly the hash at that height, and null past the head. */
  lemma BlockHashAtExact(blocks: seq<Block>, number: nat)
    requires Numbered(blocks)
    ensures BlockHashAt(blocks, number) == if number < |blocks| then Some(blocks[number].hash) else None
  {
    BlockHashAtFrom(blocks, 0, number);
  }

  lemma {:induction false} ReceiptInSound(receipts: seq<Receipt>, hash: Hash)
    ensures ReceiptIn(receipts, hash).Some? ==>
        ReceiptIn(receipts, hash).value in receipts && ReceiptIn(receipts, hash).value.txHash == hash
    ensures ReceiptIn(receipts, hash).None? ==> forall r :: r in receipts ==> r.txHash != hash
  {
    if receipts != [] && receipts[0].txHash != hash {
      ReceiptInSound(receipts[1..], hash);
      assert forall r :: r in receipts ==> r == receipts[0] || r in receipts[1..];
    }
  }

  /** `getTransactionReceipt` finds a canonical receipt of that hash exactly when there is one. */
  lemma {:induction false} FindReceiptSound(blocks: seq<Block>, hash: Hash)
    ensures FindReceipt(blocks, hash).Some? ==> FindReceipt(blocks, hash).value.txHash == hash
    ensures FindReceipt(blocks, hash).Some? ==> exists b :: b in blocks && FindReceipt(blocks, hash).value in b.receipts
    ensures FindReceipt(blocks, hash).None? ==> forall b, r :: b in blocks && r in b.receipts ==> r.txHash != hash
  {
    if blocks != [] {
      ReceiptInSound(blocks[0].receipts, hash);
      FindReceiptSound(blocks[1..], hash);
      assert forall b :: b in blocks ==> b == blocks[0] || b in blocks[1..];
      assert blocks[0] in blocks;
    }
  }

  lemma {:induction false} LogHashesInSound(receipts: seq<Receipt>, address: Address, found: seq<Hash>)
    ensures forall h :: h in found ==> h in LogHashesIn(receipts, address, found)
    ensures forall r :: r in receipts && HasLogOf(r, address) ==> r.txHash in LogHashesIn(receipts, address, found)
  {
    if receipts != [] {
      var next := if HasLogOf(receipts[0], address) && receipts[0].txHash !in found then found + [receipts[0].txHash]
          else found;
      LogHashesInSound(receipts[1..], address, next);
      assert forall r :: r in receipts ==> r == receipts[0] || r in receipts[1..];
    }
  }

  /** `getLogs` misses no transaction with a log of the address in the range. */
  lemma {:induction false} LogHashesSound(blocks: seq<Block>, address: Address, from: nat, to: nat, found: seq<Hash>)
    ensures forall h :: h in found ==> h in LogHashes(blocks, address, from, to, found)
    ensures forall b, r :: b in blocks && from <= b.number <= to && r in b.receipts && HasLogOf(r, address)
                           ==> r.txHash in LogHashes(blocks, address, from, to, found)
  {
    if blocks != [] {
      var next := if from <= blocks[0].number <= to then LogHashesIn(blocks[0].receipts, address, found) else found;
      LogHashesInSound(blocks[0].receipts, address, found);
      LogHashesSound(blocks[1..], address, from, to, next);
      assert forall b :: b in blocks ==> b == blocks[0] || b in blocks[1..];
    }
  }

  predicate Distinct(hashes: seq<Hash>) { forall i, j :: 0 <= i < j < |hashes| ==> hashes[i] != hashes[j] }

  predicate Carries(b: Block, r: Receipt, address: Address, h: Hash)
  {
    r in b.receipts && HasLogOf(r, address) && r.txHash == h
  }

  lemma {:induction false} LogHashesInOnly(b: Block, receipts: seq<Receipt>, address: Address, found: seq<Hash>)
    requires Distinct(found) && forall r :: r in receipts ==> r in b.receipts
    ensures Distinct(LogHashesIn(receipts, address, found))
    ensures forall h :: h in LogHashesIn(receipts, address, found) ==>
        h in found || exists r :: Carries(b, r, address, h)
    decreases |receipts|
  {
    if receipts != [] {
      var first := receipts[0];
      var next := if HasLogOf(first, address) && first.txHash !in found then found + [first.txHash] else found;
      LogHashesInOnly(b, receipts[1..], address, next);
      assert first in receipts;
      assert HasLogOf(first, address) ==> Carries(b, first, address, first.txHash);
    }
  }

  lemma {:induction false} LogHashesOnly(blocks: seq<Block>, address: Address, from: nat, to: nat, found: seq<Hash>)
    requires Distinct(found)
    ensures Distinct(LogHashes(blocks, address, from, to, found))
    ensures forall h :: h in LogHashes(blocks, address, from, to, found) ==>
              h in found || exists b, r :: b in blocks && from <= b.number <= to && Carries(b, r, address, h)
    decreases |blocks|
  {
    if blocks != [] {
      var first := blocks[0];
      var next := if from <= first.number <= to then LogHashesIn(first.receipts, address, found) else found;
      LogHashesInOnly(first, first.receipts, address, found);
      LogHashesOnly(blocks[1..], address, from, to, next);
      assert first in blocks;
    }
  }

  /** The scan reads exactly the transactions with a log of the address in the range, each once. */
  lemma LogHashesExact(blocks: seq<Block>, address: Address, from: nat, to: nat)
    ensures Distinct(LogHashes(blocks, address, from, to, []))
    ensures forall h :: h in LogHashes(blocks, address, from, to, []) <==>
              exists b, r :: b in blocks && from <= b.number <= to && Carries(b, r, address, h)
  {
    LogHashesSound(blocks, address, from, to, []);
    LogHashesOnly(blocks, address, from, to, []);
  }
}
