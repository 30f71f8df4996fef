/**
 * The escrow chain and the deposit service together. Chain events, buyers and any number of workers interleave freely:
 * a worker's every reader call and every database transaction is a step of its own
 * (src/modules/crypto/deposits.ts:188-281).
 */
module DepositWorld {
  import opened Common
  import opened SimChain
  import opened EscrowRules
  import opened EscrowAwait
  import opened DepositRules
  import opened DepositBooks

  /** What a worker is verifying transactions for. */
  datatype Job = Hint | ScanJob(to: nat, todo: seq<Hash>) | RecheckJob(keys: seq<Key>)

  /** Where a worker is: each constructor is the point after one await and before the next. */
  datatype Pc =
    | Idle
    | GotHead(scanHead: nat, maxBlocks: nat)
    | GotRange(from: nat, to: nat)
    | Loop(job: Job)
    | Lost(key: Key, keys: seq<Key>)
    | WantReceipt(job: Job, tx: Hash)
    | WantHead(job: Job, events: seq<Event>)
    | InEvents(job: Job, events: seq<Event>, head: nat)
    | InEvent(job: Job, event: Event, rest: seq<Event>, head: nat, read: HashRead)

  /**
   * `sim` and `flight` are the simulator; the service reads `sim` alone. `minted` remembers every block there ever was
   * and `txs` every transaction body; neither is read by the service.
   * Workers that are not in the map are idle.
   */
  datatype World = World(sim: Sim, flight: Flight, minted: set<Block>, txs: Txs, books: Books, workers: map<nat, Pc>)

  datatype Step =
    | Chain(op: ChainOp)
    | PayOrder(order: OrderView, asset: nat, payer: Option<Address>)
    | CancelOrder(orderId: nat)
    | FundPool(pool: nat, poolAsset: nat, chainId: nat, asset: nat, amount: nat)
    | StartHint(worker: nat, tx: Hash)
    | StartScan(worker: nat, maxBlocks: nat)
    | StartRecheck(worker: nat, keys: seq<Key>)
    | Advance(worker: nat, funding: FundingResult)
    | Crash(worker: nat)

  // ------------------------------------------------------------------------------------------------------------
  // Steps

  function DevnetOf(w: World): Devnet { Devnet(w.sim, w.flight) }

  /** A transaction carries the same logs whenever it is included, and a reused hash is the same transaction. */
  predicate Honest(w: World, op: ChainOp)
  {
    match op
    case DepositOp(input) =>
      var tx := DepositTx(w.sim, input);
      && (input.txHash.Some? ==> input.txHash.value.Given? || input.txHash.value in w.txs)
      && (tx in w.txs ==> w.txs[tx] == Body(!input.reverted, DepositLogs(input)))
    case ReincludeOp(receipt) => receipt.txHash in w.txs && w.txs[receipt.txHash] == Body(receipt.success, receipt.logs)
    case _ => true
  }

  function ChainStep(w: World, op: ChainOp): World
    requires w.sim.blocks != []
  {
    var after := Apply(DevnetOf(w), op);
    var txs := match op
      case DepositOp(input) => w.txs[DepositTx(w.sim, input) := Body(!input.reverted, DepositLogs(input))]
      case _ => w.txs;
    w.(sim := after.sim, flight := after.flight, minted := w.minted + (set b | b in after.sim.blocks), txs := txs)
  }

  function PcOf(w: World, worker: nat): Pc { if worker in w.workers then w.workers[worker] else Idle }

  function Go(w: World, worker: nat, pc: Pc): World { w.(workers := w.workers[worker := pc]) }

  /** The scan bounds once the checkpoint is read; `maxBlocks` 0 means no limit. */
  function ScanFrom(b: Books): nat { if b.checkpoint.Some? then b.checkpoint.value + 1 else 0 }

  function ScanTo(from: nat, head: nat, maxBlocks: nat): nat
  {
    if maxBlocks > 0 && from + maxBlocks - 1 < head then from + maxBlocks - 1 else head
  }

  /** The next action of a worker. An offline node, like a thrown error, sends it home. */
  function AdvanceWorker(net: Network, w: World, worker: nat, funding: FundingResult): World
    requires w.sim.blocks != []
  {
    match PcOf(w, worker)
    case Idle => w
    case GotHead(head, maxBlocks) =>
      var from := ScanFrom(w.books);
      if from > head then Go(w, worker, Idle) else Go(w, worker, GotRange(from, ScanTo(from, head, maxBlocks)))
    case GotRange(from, to) =>
      if w.sim.offline then Go(w, worker, Idle)
      else Go(w, worker, Loop(ScanJob(to, LogHashes(w.sim.blocks, net.settlement, from, to, []))))
    case Loop(job) =>
      (match job
       case Hint => Go(w, worker, Idle)
       case ScanJob(to, todo) =>
         if todo == [] then Go(w.(books := AdvanceCheckpoint(w.books, to)), worker, Idle)
         else Go(w, worker, WantReceipt(ScanJob(to, todo[1..]), todo[0]))
       case RecheckJob(todo) =>
         if todo == [] || w.sim.offline then Go(w, worker, Idle)
         else if FindReceipt(w.sim.blocks, todo[0].tx).None? then Go(w, worker, Lost(todo[0], todo[1..]))
         else Go(w, worker, WantReceipt(RecheckJob(todo[1..]), todo[0].tx)))
    case Lost(key, rest) => Go(w.(books := MarkReorged(w.books, key)), worker, Loop(RecheckJob(rest)))
    case WantReceipt(job, tx) =>
      if w.sim.offline then Go(w, worker, Idle)
      else
        var receipt := FindReceipt(w.sim.blocks, tx);
        if receipt.None? || !receipt.value.success || DecodeFrom(receipt.value, net.settlement, 0) == []
        then Go(w, worker, Loop(job))
        else Go(w, worker, WantHead(job, DecodeFrom(receipt.value, net.settlement, 0)))
    case WantHead(job, events) =>
      if w.sim.offline then Go(w, worker, Idle) else Go(w, worker, InEvents(job, events, Head(w.sim)))
    case InEvents(job, events, head) =>
      if events == [] then Go(w, worker, Loop(job))
      else
        var read := if w.sim.offline then Down else Answer(BlockHashAt(w.sim.blocks, events[0].blockNumber));
        Go(w, worker, InEvent(job, events[0], events[1..], head, read))
    case InEvent(job, event, rest, head, read) =>
      (match ProcessEvent(net, w.books, event, head, read, funding)
       case Threw => Go(w, worker, Idle)
       case Done(books, _) => Go(w.(books := books), worker, InEvents(job, rest, head)))
  }

  /** One step of the whole; a step that cannot happen leaves everything as it is. */
  function Next(net: Network, w: World, step: Step): World
    requires w.sim.blocks != []
  {
    match step
    case Chain(op) => if Honest(w, op) then ChainStep(w, op) else w
    case PayOrder(order, asset, payer) =>
      (match CreatePayment(net, w.books, order, asset, payer) case Ok(made) => w.(books := made.0) case Err(_) => w)
    case CancelOrder(order) => w.(books := CancelFunding(w.books, order))
    case FundPool(pool, poolAsset, chainId, asset, amount) =>
        w.(books := CreatePoolIntent(w.books, pool, poolAsset, chainId, asset, amount))
    case StartHint(worker, tx) => if PcOf(w, worker).Idle? then Go(w, worker, WantReceipt(Hint, tx)) else w
    case StartScan(worker, maxBlocks) =>
      if PcOf(w, worker).Idle? && !w.sim.offline then Go(w, worker, GotHead(Head(w.sim), maxBlocks)) else w
    case StartRecheck(worker, keys) => if PcOf(w, worker).Idle? then Go(w, worker, Loop(RecheckJob(keys))) else w
    case Advance(worker, funding) => AdvanceWorker(net, w, worker, funding)
    case Crash(worker) => Go(w, worker, Idle)
  }

  /** Whose step it is. */
  function WorkerOf(step: Step): Option<nat>
  {
    match step
    case StartHint(o, _) => Some(o)
    case StartScan(o, _) => Some(o)
    case StartRecheck(o, _) => Some(o)
    case Advance(o, _) => Some(o)
    case Crash(o) => Some(o)
    case _ => None
  }

  lemma OthersKeepOut(net: Network, w: World, step: Step, me: nat)
    requires w.sim.blocks != [] && WorkerOf(step) != Some(me)
    ensures PcOf(Next(net, w, step), me) == PcOf(w, me)
  {
  }

  function Start(net: Network): World
  {
    var sim := NewSim(net.chainId, Some(net.settlement));
    World(sim, NOTHING_IN_FLIGHT, set b | b in sim.blocks, map[], EMPTY_BOOKS, map[])
  }

  // ------------------------------------------------------------------------------------------------------------
  // The chain's own invariant

  ghost predicate ChainInv(net: Network, w: World)
  {
    && w.sim.settlement == Some(net.settlement)
    && Numbered(w.sim.blocks)
    && (forall b :: b in w.sim.blocks ==> b in w.minted)
    && (forall b :: b in w.minted ==> b.hash.Fresh? && b.hash.salt <= w.sim.salt)
    && (forall a, b :: a in w.minted && b in w.minted && a.hash == b.hash ==> a == b)
    && (forall b, r :: b in w.minted && r in b.receipts ==>
          && r.blockNumber == b.number && r.blockHash == b.hash && r.txHash in w.txs
          && w.txs[r.txHash] == Body(r.success, r.logs))
    && (forall t :: t in w.txs ==> (t.Fresh? ==> t.salt <= w.sim.salt) && (!w.txs[t].success ==> w.txs[t].logs == []))
  }

  /** What a chain step can do to the blocks: heights never fall, and a height only ever loses its receipts. */
  ghost predicate Evolves(w: World, w': World)
  {
    && |w.sim.blocks| <= |w'.sim.blocks|
    && (forall n :: 0 <= n < |w.sim.blocks| ==> w'.sim.blocks[n] == w.sim.blocks[n] || w'.sim.blocks[n].receipts == [])
    && w.minted <= w'.minted
    && (forall t :: t in w.txs ==> t in w'.txs && w'.txs[t] == w.txs[t])
    && w'.books == w.books && w'.workers == w.workers
  }

  lemma AppendBlock(net: Network, w: World, w': World, block: Block)
    requires ChainInv(net, w)
    requires w'.sim.blocks == w.sim.blocks + [block] && w'.sim.settlement == w.sim.settlement
             && w.sim.salt < w'.sim.salt
    requires block.number == |w.sim.blocks| && block.hash.Fresh? && w.sim.salt < block.hash.salt <= w'.sim.salt
    requires w'.minted == w.minted + (set b | b in w'.sim.blocks)
    requires forall t :: t in w.txs ==> t in w'.txs && w'.txs[t] == w.txs[t]
    requires forall t :: t in w'.txs && t !in w.txs ==>
        (t.Fresh? ==> t.salt <= w'.sim.salt) && (!w'.txs[t].success ==> w'.txs[t].logs == [])
    requires forall r :: r in block.receipts ==>
               && r.blockNumber == block.number && r.blockHash == block.hash && r.txHash in w'.txs
               && w'.txs[r.txHash] == Body(r.success, r.logs)
    ensures ChainInv(net, w')
  {
    assert forall b :: b in w'.minted ==> b in w.minted || b == block;
  }

  /** Everything from a height on is fresh and empty, and nothing below it moved. */
  ghost predicate TailFresh(s: Sim, s': Sim, keep: nat)
  {
    && 1 <= keep <= |s.blocks| <= |s'.blocks| && s'.settlement == s.settlement && s.salt <= s'.salt
    && (forall n :: 0 <= n < keep ==> s'.blocks[n] == s.blocks[n])
    && (forall n :: keep <= n < |s'.blocks| ==>
          && s'.blocks[n].number == n && s'.blocks[n].receipts == []
          && s'.blocks[n].hash.Fresh? && s.salt < s'.blocks[n].hash.salt <= s'.salt)
    && (forall n, m :: keep <= n < m < |s'.blocks| ==> s'.blocks[n].hash != s'.blocks[m].hash)
  }

  lemma TailMinted(net: Network, w: World, s': Sim, keep: nat, b: Block)
    requires ChainInv(net, w) && TailFresh(w.sim, s', keep) && b in s'.blocks && b !in w.minted
    ensures exists n :: keep <= n < |s'.blocks| && s'.blocks[n] == b
    ensures b.receipts == [] && b.hash.Fresh? && w.sim.salt < b.hash.salt <= s'.salt
  {
    assert forall m :: 0 <= m < keep ==> w.sim.blocks[m] in w.sim.blocks;
    var n :| 0 <= n < |s'.blocks| && s'.blocks[n] == b;
  }

  /** Replacing everything past some height by fresh empty blocks. */
  lemma EmptyTail(net: Network, w: World, w': World, keep: nat)
    requires ChainInv(net, w) && TailFresh(w.sim, w'.sim, keep) && w'.txs == w.txs
    requires w'.minted == w.minted + (set b | b in w'.sim.blocks)
    ensures ChainInv(net, w')
  {
    forall b | b in w'.minted && b !in w.minted
      ensures exists n :: keep <= n < |w'.sim.blocks| && w'.sim.blocks[n] == b
      ensures b.receipts == [] && b.hash.Fresh? && w.sim.salt < b.hash.salt <= w'.sim.salt
    {
      TailMinted(net, w, w'.sim, keep, b);
    }
  }

  /** Only fresh empty blocks were added. */
  ghost predicate Mined(s: Sim, s': Sim)
  {
    && s'.settlement == s.settlement && s.salt <= s'.salt && s.blocks <= s'.blocks
    && (forall n :: |s.blocks| <= n < |s'.blocks| ==>
          && s'.blocks[n].number == n && s'.blocks[n].receipts == []
          && s'.blocks[n].hash.Fresh? && s.salt < s'.blocks[n].hash.salt <= s'.salt)
    && (forall n, m :: |s.blocks| <= n < m < |s'.blocks| ==> s'.blocks[n].hash != s'.blocks[m].hash)
  }

  lemma MineMines(s: Sim, s0: Sim, count: nat)
    requires Numbered(s.blocks) && s0.blocks == s.blocks && s0.settlement == s.settlement && s.salt <= s0.salt
    ensures Mined(s, Mine(s0, count)) && Numbered(Mine(s0, count).blocks)
  {
  }

  lemma PaymentMines(s: Sim, seen: Sim, signed: Signed, auth: Auth)
    requires Numbered(s.blocks) && signed.message.escrowRef in seen.buckets && seen == s.(buckets := seen.buckets)
    requires FinishPayout(seen, signed, auth).Ok?
    ensures Mined(s, FinishPayout(seen, signed, auth).value)
  {
    var after := ApplyPayout(seen, signed.message);
    MineMines(s, after.(blocks := s.blocks, salt := s.salt + 1), 1);
  }

  lemma FreezeMines(s: Sim, seen: Sim, order: SignedFreeze, auth: Auth)
    requires Numbered(s.blocks) && order.escrowRef in seen.buckets && seen == s.(buckets := seen.buckets)
    requires FinishFreeze(seen, order, auth).Ok?
    ensures Mined(s, FinishFreeze(seen, order, auth).value)
  {
    MineMines(s, ApplyFreeze(seen, order).(blocks := s.blocks, salt := s.salt + 1), 1);
  }

  lemma PayOnMines(c: Devnet, signed: Signed, gen: nat, auth: Auth)
    requires Numbered(c.sim.blocks) && PayOn(c, signed, gen, auth).Some?
    ensures Mined(c.sim, PayOn(c, signed, gen, auth).value.sim)
  {
    PaymentMines(c.sim, Seen(c, gen, signed.message.escrowRef), signed, auth);
  }

  lemma FreezeOnMines(c: Devnet, order: SignedFreeze, gen: nat, auth: Auth)
    requires Numbered(c.sim.blocks) && FreezeOn(c, order, gen, auth).Some?
    ensures Mined(c.sim, FreezeOn(c, order, gen, auth).value.sim)
  {
    FreezeMines(c.sim, Seen(c, gen, order.escrowRef), order, auth);
  }

  lemma FinishMines(c: Devnet, id: nat, auth: Auth)
    requires Numbered(c.sim.blocks) && id in c.flight.calls
    ensures Mined(c.sim, FinishCall(c, id, auth).sim)
  {
    var d := Drop(c, id);
    match c.flight.calls[id]
    case PayCall(signed, gen) => if PayOn(d, signed, gen, auth).Some? { PayOnMines(d, signed, gen, auth); }
    case FreezeCall(order, gen) => if FreezeOn(d, order, gen, auth).Some? { FreezeOnMines(d, order, gen, auth); }
  }

  lemma ReleaseMines(c: Devnet, auth: Auth)
    requires Numbered(c.sim.blocks) && c.flight.batch.Some?
    ensures Mined(c.sim, StepFinish(c, auth).sim)
  {
    if ReleasesNow(c, FinishRelease(auth)) {
      PaymentMines(c.sim, c.sim, c.flight.batch.value.batch[c.flight.batch.value.done], auth);
    }
  }

  /** Payouts, freezes, batches, their undoing and the switches only mine. */
  lemma EscrowOpsMine(c: Devnet, op: ChainOp)
    requires Numbered(c.sim.blocks) && !op.DepositOp? && !op.ReincludeOp? && !op.ReorgOp?
    ensures Mined(c.sim, Apply(c, op).sim)
  {
    match op
    case MineOp(count) => MineMines(c.sim, c.sim, count);
    case Finish(id, auth) => if id in c.flight.calls { FinishMines(c, id, auth); }
    case FinishRelease(auth) => if c.flight.batch.Some? { ReleaseMines(c, auth); }
    case _ =>
  }

  lemma ReorgBlocks(s: Sim, depth: nat)
    requires Numbered(s.blocks)
    ensures var keep, s' := Max(1, |s.blocks| - depth), Reorg(s, depth);
            && 1 <= keep <= |s.blocks| < |s'.blocks| && s'.blocks[..keep] == s.blocks[..keep]
            && (forall n :: keep <= n < |s'.blocks| ==> s'.blocks[n] == Block(n, Fresh(s.salt + 1 + n - keep), []))
            && s'.salt == s.salt + depth + 1 && |s'.blocks| == keep + depth + 1 && s'.settlement == s.settlement
  {
    var keep := Max(1, |s.blocks| - depth);
    assert Reorg(s, depth).blocks == s.blocks[..keep] + EmptyBlocks(keep - 1, s.salt, depth + 1);
  }

  lemma ReorgKeepsChain(net: Network, w: World, depth: nat)
    requires ChainInv(net, w)
    ensures ChainInv(net, ChainStep(w, ReorgOp(depth)))
  {
    ReorgBlocks(w.sim, depth);
    EmptyTail(net, w, ChainStep(w, ReorgOp(depth)), Max(1, |w.sim.blocks| - depth));
  }

  lemma ReorgShape(net: Network, w: World, depth: nat)
    requires ChainInv(net, w)
    ensures var keep, w' := Max(1, |w.sim.blocks| - depth), ChainStep(w, ReorgOp(depth));
            && 1 <= keep <= |w.sim.blocks| < |w'.sim.blocks| && Evolves(w, w')
            && (forall n :: 0 <= n < keep ==> w'.sim.blocks[n] == w.sim.blocks[n])
            && (forall n :: keep <= n < |w'.sim.blocks| ==>
                w'.sim.blocks[n].hash.Fresh? && w.sim.salt < w'.sim.blocks[n].hash.salt)
  {
    ReorgBlocks(w.sim, depth);
    var keep, w' := Max(1, |w.sim.blocks| - depth), ChainStep(w, ReorgOp(depth));
    forall n | 0 <= n < keep ensures w'.sim.blocks[n] == w.sim.blocks[n] {
      assert w'.sim.blocks[..keep][n] == w.sim.blocks[..keep][n];
    }
  }

  lemma MiningKeepsChain(net: Network, w: World, op: ChainOp)
    requires ChainInv(net, w) && !op.DepositOp? && !op.ReincludeOp? && !op.ReorgOp?
    ensures ChainInv(net, ChainStep(w, op)) && Evolves(w, ChainStep(w, op))
  {
    EscrowOpsMine(DevnetOf(w), op);
    EmptyTail(net, w, ChainStep(w, op), |w.sim.blocks|);
  }

  /** Every honest chain step keeps the chain well formed; heights never fall and never gain receipts once passed. */
  lemma ChainStepKeeps(net: Network, w: World, op: ChainOp)
    requires ChainInv(net, w) && Honest(w, op)
    ensures ChainInv(net, ChainStep(w, op)) && Evolves(w, ChainStep(w, op))
  {
    var w' := ChainStep(w, op);
    if op.DepositOp? || op.ReincludeOp? {
      AppendBlock(net, w, w', w'.sim.blocks[|w.sim.blocks|]);
    } else if op.ReorgOp? {
      ReorgShape(net, w, op.depth);
      ReorgKeepsChain(net, w, op.depth);
    } else {
      MiningKeepsChain(net, w, op);
    }
  }

  // ------------------------------------------------------------------------------------------------------------
  // Finality

  /** Block `number` is canonical with this hash, and buried under at least `finality` confirmations. */
  ghost predicate Buried(net: Network, w: World, number: nat, hash: Hash)
  {
    && number < |w.sim.blocks| && w.sim.blocks[number].hash == hash
    && number + net.finality <= |w.sim.blocks|
  }

  /** Reorganizations are shallower than the finality bound. */
  predicate Shallow(net: Network, step: Step) { step.Chain? && step.op.ReorgOp? ==> step.op.depth < net.finality }

  lemma BuriedStays(net: Network, w: World, op: ChainOp, number: nat, hash: Hash)
    requires ChainInv(net, w) && Honest(w, op) && Shallow(net, Chain(op)) && Buried(net, w, number, hash)
    ensures Buried(net, ChainStep(w, op), number, hash)
  {
    var w' := ChainStep(w, op);
    match op
    case ReorgOp(depth) => ReorgShape(net, w, depth);
    case DepositOp(_) =>
    case ReincludeOp(_) =>
    case _ => EscrowOpsMine(DevnetOf(w), op);
  }

  /** A reorganization keeps a block canonical exactly when it is shallower than the block's confirmations. */
  lemma ReorgReaches(net: Network, w: World, depth: nat, number: nat)
    requires ChainInv(net, w) && 0 < number < |w.sim.blocks|
    ensures ChainStep(w, ReorgOp(depth)).sim.blocks[number].hash == w.sim.blocks[number].hash <==>
        depth < |w.sim.blocks| - number
  {
    ReorgShape(net, w, depth);
    assert w.sim.blocks[number] in w.sim.blocks;
  }
}
