/**
 * What becomes of a deposit over a run: where a credited one sits on the chain, which block its row names, and what it
 * means to verify its transaction again.
 */
module DepositHistory {
  import opened Common
  import opened SimChain
  import opened EscrowAwait
  import opened DepositRules
  import opened DepositBooks
  import opened DepositWorld
  import opened DepositSafety
  import opened DepositTheorems
  import Along

  // ------------------------------------------------------------------------------------------------------------
  // Every credited deposit is buried somewhere

  /** The transaction is in a canonical block under at least `finality` confirmations. */
  ghost predicate DeepTx(net: Network, w: World, tx: Hash)
  {
    exists b :: b in w.minted && HasTx(b, tx) && Buried(net, w, b.number, b.hash)
  }

  ghost predicate DeepInv(net: Network, w: World)
  {
    forall k :: k in w.books.deposits && w.books.deposits[k].status == CreditedRow ==> DeepTx(net, w, k.tx)
  }

  lemma PoolCreditNew(net: Network, b: Books, ev: Event, head: nat, read: HashRead, p: nat, asset: nat, k: Key)
    requires p < |b.poolIntents| && ProcessPool(net, b, ev, head, read, p, asset).Done?
    requires k in ProcessPool(net, b, ev, head, read, p, asset).books.deposits
    requires ProcessPool(net, b, ev, head, read, p, asset).books.deposits[k].status == CreditedRow
    ensures || (k in b.deposits && b.deposits[k].status == CreditedRow)
            || (k == ev.key && read.Answer? && IsFinal(net, ev, head, read.hash))
  {
  }

  lemma OrderCreditNew(net: Network, b: Books, ev: Event, head: nat, read: HashRead, funding: FundingResult, i: nat,
      asset: nat, k: Key)
    requires i < |b.intents| && asset in net.assets && ProcessOrder(net, b, ev, head, read, funding, i, asset).Done?
    requires k in ProcessOrder(net, b, ev, head, read, funding, i, asset).books.deposits
    requires ProcessOrder(net, b, ev, head, read, funding, i, asset).books.deposits[k].status == CreditedRow
    ensures || (k in b.deposits && b.deposits[k].status == CreditedRow)
            || (k == ev.key && read.Answer? && IsFinal(net, ev, head, read.hash))
  {
  }

  /** A row, of an order or a pool, becomes credited only for an event found final. */
  lemma CreditNew(net: Network, b: Books, ev: Event, head: nat, read: HashRead, funding: FundingResult, k: Key)
    requires ProcessEvent(net, b, ev, head, read, funding).Done?
    requires k in ProcessEvent(net, b, ev, head, read, funding).books.deposits
    requires ProcessEvent(net, b, ev, head, read, funding).books.deposits[k].status == CreditedRow
    ensures || (k in b.deposits && b.deposits[k].status == CreditedRow)
            || (k == ev.key && read.Answer? && IsFinal(net, ev, head, read.hash))
  {
    var ref, asset := ev.funded.reference, AssetForToken(net, ev.funded.token);
    if Terminal(b, ev.key) || asset.None? || !net.assets[asset.value].allowlisted {
    } else if FindIntent(b, ref).Some? {
      OrderCreditNew(net, b, ev, head, read, funding, FindIntent(b, ref).value, asset.value, k);
    } else if FindPoolIntent(b, ref).Some? {
      PoolCreditNew(net, b, ev, head, read, FindPoolIntent(b, ref).value, asset.value, k);
    }
  }

  lemma DeepChain(net: Network, w: World, op: ChainOp)
    requires Inv(net, w) && DeepInv(net, w) && Honest(w, op) && Shallow(net, Chain(op))
    ensures DeepInv(net, ChainStep(w, op))
  {
    var w' := ChainStep(w, op);
    forall k | k in w'.books.deposits && w'.books.deposits[k].status == CreditedRow
      ensures DeepTx(net, w', k.tx)
    {
      assert DeepTx(net, w, k.tx);
      var b :| b in w.minted && HasTx(b, k.tx) && Buried(net, w, b.number, b.hash);
      BuriedStays(net, w, op, b.number, b.hash);
      assert b in w'.minted;
    }
  }

  /** A step that credits nothing new and leaves the blocks alone. */
  lemma DeepFrame(net: Network, w: World, w': World)
    requires DeepInv(net, w) && w'.sim.blocks == w.sim.blocks && w'.minted == w.minted
    requires forall k :: k in w'.books.deposits && w'.books.deposits[k].status == CreditedRow ==>
               (k in w.books.deposits && w.books.deposits[k].status == CreditedRow) || DeepTx(net, w, k.tx)
    ensures DeepInv(net, w')
  {
    forall k | k in w'.books.deposits && w'.books.deposits[k].status == CreditedRow
      ensures DeepTx(net, w', k.tx)
    {
      assert DeepTx(net, w, k.tx);
      var b :| b in w.minted && HasTx(b, k.tx) && Buried(net, w, b.number, b.hash);
      assert Buried(net, w', b.number, b.hash);
    }
  }

  lemma DeepCommit(net: Network, w: World, worker: nat, funding: FundingResult)
    requires Inv(net, w) && FinalInv(net, w) && DeepInv(net, w) && PcOf(w, worker).InEvent?
    ensures DeepInv(net, AdvanceWorker(net, w, worker, funding))
  {
    var pc, w' := PcOf(w, worker), AdvanceWorker(net, w, worker, funding);
    assert PcInv(net, w, pc) && FinalPc(net, w, pc);
    if ProcessEvent(net, w.books, pc.event, pc.head, pc.read, funding).Done? {
      forall k | k in w'.books.deposits && w'.books.deposits[k].status == CreditedRow
        ensures (k in w.books.deposits && w.books.deposits[k].status == CreditedRow) || DeepTx(net, w, k.tx)
      {
        CreditNew(net, w.books, pc.event, pc.head, pc.read, funding, k);
        if !(k in w.books.deposits && w.books.deposits[k].status == CreditedRow) { EventIsDeep(net, w, pc.event); }
      }
    }
    DeepFrame(net, w, w');
  }

  lemma EventIsDeep(net: Network, w: World, event: Event)
    requires EventSeen(net, w, event) && Buried(net, w, event.blockNumber, event.blockHash)
    ensures DeepTx(net, w, event.key.tx)
  {
    var b :| b in w.minted && b.number == event.blockNumber && b.hash == event.blockHash && HasTx(b, event.key.tx);
  }

  lemma DeepLost(net: Network, w: World, worker: nat, funding: FundingResult)
    requires w.sim.blocks != [] && DeepInv(net, w) && PcOf(w, worker).Lost?
    ensures DeepInv(net, AdvanceWorker(net, w, worker, funding))
  {
    DeepFrame(net, w, AdvanceWorker(net, w, worker, funding));
  }

  lemma DeepQuiet(net: Network, w: World, worker: nat, funding: FundingResult)
    requires w.sim.blocks != [] && DeepInv(net, w) && !PcOf(w, worker).InEvent? && !PcOf(w, worker).Lost?
    ensures DeepInv(net, AdvanceWorker(net, w, worker, funding))
  {
    if !PcOf(w, worker).InEvents? { QuietAdvance(net, w, worker, funding); }
    AdvanceMints(net, w, worker, funding);
    DeepFrame(net, w, AdvanceWorker(net, w, worker, funding));
  }

  lemma AdvanceMints(net: Network, w: World, worker: nat, funding: FundingResult)
    requires w.sim.blocks != []
    ensures AdvanceWorker(net, w, worker, funding).sim == w.sim
            && AdvanceWorker(net, w, worker, funding).minted == w.minted
  {
  }

  lemma DeepAdvance(net: Network, w: World, worker: nat, funding: FundingResult)
    requires Inv(net, w) && FinalInv(net, w) && DeepInv(net, w)
    ensures DeepInv(net, AdvanceWorker(net, w, worker, funding))
  {
    if PcOf(w, worker).InEvent? {
      DeepCommit(net, w, worker, funding);
    } else if PcOf(w, worker).Lost? {
      DeepLost(net, w, worker, funding);
    } else {
      DeepQuiet(net, w, worker, funding);
    }
  }

  lemma DeepStep(net: Network, w: World, step: Step)
    requires Inv(net, w) && FinalInv(net, w) && DeepInv(net, w) && Shallow(net, step)
    ensures DeepInv(net, Next(net, w, step))
  {
    match step
    case Chain(op) => if Honest(w, op) { DeepChain(net, w, op); }
    case Advance(worker, funding) => DeepAdvance(net, w, worker, funding);
    case _ =>
      QuietStep(net, w, step);
      DeepFrame(net, w, Next(net, w, step));
  }

  lemma NextDeep(net: Network, states: seq<World>, steps: seq<Step>, j: nat)
    requires Run(net, states, steps) && j < |steps| && DeepInv(net, states[j])
    requires forall i :: 0 <= i < |steps| ==> Shallow(net, steps[i])
    ensures DeepInv(net, states[j + 1])
  {
    RunHolds(net, states, steps, j);
    FinalHolds(net, states, steps, j);
    DeepStep(net, states[j], steps[j]);
  }

  lemma {:induction false} DeepHolds(net: Network, states: seq<World>, steps: seq<Step>, k: nat)
    requires Run(net, states, steps) && k < |states|
    requires forall i :: 0 <= i < |steps| ==> Shallow(net, steps[i])
    ensures DeepInv(net, states[k])
    decreases k
  {
    if k > 0 {
      DeepHolds(net, states, steps, k - 1);
      NextDeep(net, states, steps, k - 1);
    }
  }

  /**
   * With reorganizations shallower than the finality bound, every credited deposit, of a pool as of an order, is in
   * some canonical block under at least that many confirmations in every later state, with exactly the log that was
   * credited.
   */
  lemma CreditedIsBuried(net: Network, states: seq<World>, steps: seq<Step>, k: nat, key: Key)
    requires Run(net, states, steps) && k < |states|
    requires forall i :: 0 <= i < |steps| ==> Shallow(net, steps[i])
    requires key in states[k].books.deposits && states[k].books.deposits[key].status == CreditedRow
    ensures var blocks := states[k].sim.blocks;
            exists n, r ::
              && 0 <= n < |blocks| && n + net.finality <= |blocks| && r in blocks[n].receipts && r.txHash == key.tx
              && key.logIndex < |r.logs|
              && r.logs[key.logIndex] == Entry(net.settlement, Some(states[k].books.deposits[key].funded))
  {
    var w := states[k];
    DeepHolds(net, states, steps, k);
    RunHolds(net, states, steps, k);
    assert DeepTx(net, w, key.tx);
    var b :| b in w.minted && HasTx(b, key.tx) && Buried(net, w, b.number, b.hash);
    assert w.sim.blocks[b.number] in w.sim.blocks;
    assert b == w.sim.blocks[b.number];
    var r :| r in b.receipts && r.txHash == key.tx;
    assert RowSound(net, w.txs, w.books, key);
    assert w.txs[key.tx] == Body(r.success, r.logs);
  }

  // ------------------------------------------------------------------------------------------------------------
  // Which blocks are canonical

  predicate Canonical(w: World, number: nat, hash: Hash)
  {
    number < |w.sim.blocks| && w.sim.blocks[number].hash == hash
  }

  /** The step is a reorganization that reaches the block. */
  predicate Reaches(w: World, step: Step, number: nat)
  {
    step.Chain? && step.op.ReorgOp? && 0 < number && step.op.depth + number >= |w.sim.blocks|
  }

  /** What a chain step leaves of the blocks: a prefix, and then fresh ones. */
  lemma BlocksAfter(net: Network, w: World, op: ChainOp)
    requires ChainInv(net, w) && Honest(w, op)
    ensures var w' := ChainStep(w, op);
            var keep := if op.ReorgOp? then Max(1, |w.sim.blocks| - op.depth) else |w.sim.blocks|;
            && 0 < keep <= |w.sim.blocks| <= |w'.sim.blocks|
            && (forall n :: 0 <= n < keep ==> w'.sim.blocks[n] == w.sim.blocks[n])
            && (forall n :: keep <= n < |w'.sim.blocks| ==>
                w'.sim.blocks[n].hash.Fresh? && w'.sim.blocks[n].hash.salt > w.sim.salt)
  {
    match op
    case ReorgOp(depth) => ReorgShape(net, w, depth);
    case DepositOp(_) =>
    case ReincludeOp(_) =>
    case _ => EscrowOpsMine(DevnetOf(w), op);
  }

  /**
   * A block that exists is canonical after a step exactly when it was before and the step does not reorganize it away.
   */
  lemma CanonicalStep(net: Network, w: World, step: Step, b: Block)
    requires Inv(net, w) && b in w.minted
    ensures b in Next(net, w, step).minted
    ensures Canonical(Next(net, w, step), b.number, b.hash) <==>
        Canonical(w, b.number, b.hash) && !Reaches(w, step, b.number)
  {
    if step.Chain? && Honest(w, step.op) {
      BlocksAfter(net, w, step.op);
    } else {
      OthersLeaveBlocks(net, w, step);
    }
  }

  lemma OthersLeaveBlocks(net: Network, w: World, step: Step)
    requires w.sim.blocks != [] && !(step.Chain? && Honest(w, step.op))
    ensures Next(net, w, step).sim == w.sim && Next(net, w, step).minted == w.minted && !Reaches(w, step, 1)
    ensures forall n: nat :: !Reaches(w, step, n)
  {
    OthersLeaveChain(net, w, step);
  }

  lemma NextCanonical(net: Network, states: seq<World>, steps: seq<Step>, j: nat, b: Block)
    requires Run(net, states, steps) && j < |steps| && b in states[j].minted
    ensures b in states[j + 1].minted
    ensures Canonical(states[j + 1], b.number, b.hash) <==>
            Canonical(states[j], b.number, b.hash) && !Reaches(states[j], steps[j], b.number)
  {
    RunHolds(net, states, steps, j);
    CanonicalStep(net, states[j], steps[j], b);
  }

  /** No step of the stretch reorganizes the block away. */
  predicate Untouched(states: seq<World>, steps: seq<Step>, i: nat, k: nat, number: nat)
    requires i <= k <= |steps| && |states| == |steps| + 1
  {
    forall j :: i <= j < k ==> !Reaches(states[j], steps[j], number)
  }

  lemma {:induction false} MintedStays(net: Network, states: seq<World>, steps: seq<Step>, i: nat, k: nat, b: Block)
    requires Run(net, states, steps) && i <= k < |states| && b in states[i].minted
    ensures b in states[k].minted
    decreases k
  {
    if i < k {
      MintedStays(net, states, steps, i, k - 1, b);
      NextCanonical(net, states, steps, k - 1, b);
    }
  }

  /** Over any stretch of a run: canonical at its end exactly if canonical at its start and never reorganized away. */
  lemma CanonicalExactly(net: Network, states: seq<World>, steps: seq<Step>, i: nat, k: nat, b: Block)
    requires Run(net, states, steps) && i <= k < |states| && b in states[i].minted
    ensures Canonical(states[k], b.number, b.hash) <==>
        Canonical(states[i], b.number, b.hash) && Untouched(states, steps, i, k, b.number)
  {
    var good := seq(|states|, (j: nat) requires j < |states| => Canonical(states[j], b.number, b.hash));
    assert forall j :: 0 <= j < |good| ==> good[j] == Canonical(states[j], b.number, b.hash);
    var bad := seq(|steps|, (j: nat) requires j < |steps| && |states| == |steps| + 1 =>
        Reaches(states[j], steps[j], b.number));
    assert forall j :: 0 <= j < |bad| ==> bad[j] == Reaches(states[j], steps[j], b.number);
    forall j | i <= j < k
      ensures good[j + 1] <==> good[j] && !bad[j]
    {
      MintedStays(net, states, steps, i, j, b);
      NextCanonical(net, states, steps, j, b);
    }
    Along.EndsForGood(good, bad, i, k);
  }

  // ------------------------------------------------------------------------------------------------------------
  // The block a pool row names

  predicate IsPoolRow(b: Books, k: Key)
  {
    k in b.deposits && b.deposits[k].poolIntent.Some? && b.deposits[k].funded.reference.PoolPayment?
  }

  predicate SameBlock(b: Books, b': Books, k: Key)
  {
    && IsPoolRow(b, k) && IsPoolRow(b', k)
    && b'.deposits[k].blockNumber == b.deposits[k].blockNumber && b'.deposits[k].blockHash == b.deposits[k].blockHash
  }

  lemma PoolEventKeepsBlock(net: Network, b: Books, ev: Event, head: nat, read: HashRead, p: nat, asset: nat, k: Key)
    requires p < |b.poolIntents| && IsPoolRow(b, k) && ProcessPool(net, b, ev, head, read, p, asset).Done?
    ensures SameBlock(b, ProcessPool(net, b, ev, head, read, p, asset).books, k)
  {
  }

  lemma OrderEventKeepsOthers(net: Network, b: Books, ev: Event, head: nat, read: HashRead, funding: FundingResult,
      i: nat, asset: nat, k: Key)
    requires i < |b.intents| && asset in net.assets && IsPoolRow(b, k) && k != ev.key
    requires ProcessOrder(net, b, ev, head, read, funding, i, asset).Done?
    ensures SameBlock(b, ProcessOrder(net, b, ev, head, read, funding, i, asset).books, k)
  {
  }

  lemma EventKeepsPoolBlock(net: Network, txs: Txs, b: Books, ev: Event, head: nat, read: HashRead,
      funding: FundingResult, k: Key)
    requires BooksInv(net, txs, b) && EventKnown(net, txs, ev) && IsPoolRow(b, k)
    requires ProcessEvent(net, b, ev, head, read, funding).Done?
    ensures SameBlock(b, ProcessEvent(net, b, ev, head, read, funding).books, k)
  {
    var ref, asset := ev.funded.reference, AssetForToken(net, ev.funded.token);
    assert RowSound(net, txs, b, k);
    if Terminal(b, ev.key) || asset.None? || !net.assets[asset.value].allowlisted {
    } else if FindIntent(b, ref).Some? {
      OrderEventKeepsOthers(net, b, ev, head, read, funding, FindIntent(b, ref).value, asset.value, k);
    } else if FindPoolIntent(b, ref).Some? {
      PoolEventKeepsBlock(net, b, ev, head, read, FindPoolIntent(b, ref).value, asset.value, k);
    }
  }

  lemma AdvanceKeepsPoolBlock(net: Network, w: World, worker: nat, funding: FundingResult, k: Key)
    requires Inv(net, w) && IsPoolRow(w.books, k)
    ensures SameBlock(w.books, AdvanceWorker(net, w, worker, funding).books, k)
  {
    var pc := PcOf(w, worker);
    AdvanceBooks(net, w, worker, funding);
    assert PcInv(net, w, pc);
    if pc.InEvent? {
      if ProcessEvent(net, w.books, pc.event, pc.head, pc.read, funding).Done? {
        EventKeepsPoolBlock(net, w.txs, w.books, pc.event, pc.head, pc.read, funding, k);
      }
    } else if pc.Lost? {
      LostKeepsPoolBlock(w.books, pc.key, k);
    }
  }

  lemma LostKeepsPoolBlock(b: Books, lost: Key, k: Key)
    requires IsPoolRow(b, k)
    ensures SameBlock(b, MarkReorged(b, lost), k)
  {
  }

  lemma StepKeepsPoolBlock(net: Network, w: World, step: Step, k: Key)
    requires Inv(net, w) && IsPoolRow(w.books, k)
    ensures SameBlock(w.books, Next(net, w, step).books, k)
  {
    if step.Advance? {
      AdvanceKeepsPoolBlock(net, w, step.worker, step.funding, k);
    } else if !step.Chain? {
      QuietStep(net, w, step);
    }
  }

  lemma NextPoolBlock(net: Network, states: seq<World>, steps: seq<Step>, j: nat, k: Key)
    requires Run(net, states, steps) && j < |steps| && IsPoolRow(states[j].books, k)
    ensures SameBlock(states[j].books, states[j + 1].books, k)
  {
    RunHolds(net, states, steps, j);
    StepKeepsPoolBlock(net, states[j], steps[j], k);
  }

  lemma {:induction false} SameBlockAlong(history: seq<Books>, i: nat, k: nat, key: Key)
    requires i <= k < |history| && IsPoolRow(history[i], key)
    requires forall n :: 0 <= n < |history| - 1 && IsPoolRow(history[n], key) ==>
        SameBlock(history[n], history[n + 1], key)
    ensures SameBlock(history[i], history[k], key)
    decreases k
  {
    if i < k {
      SameBlockAlong(history, i, k - 1, key);
      assert SameBlock(history[k - 1], history[k - 1 + 1], key);
    }
  }

  lemma PoolBlockStays(net: Network, states: seq<World>, steps: seq<Step>, i: nat, k: nat, key: Key)
    requires Run(net, states, steps) && i <= k < |states| && IsPoolRow(states[i].books, key)
    ensures SameBlock(states[i].books, states[k].books, key)
  {
    var history := seq(|states|, (n: nat) requires n < |states| => states[n].books);
    forall n | 0 <= n < |history| - 1 && IsPoolRow(history[n], key)
      ensures SameBlock(history[n], history[n + 1], key)
    {
      NextPoolBlock(net, states, steps, n, key);
    }
    SameBlockAlong(history, i, k, key);
  }

  /**
   * A pool row, credited or not, names a canonical block exactly if the block it was first recorded with was canonical
   * then and no reorganization has reached it since. Crediting does not come into it.
   */
  lemma PoolRowNamesCanonical(net: Network, states: seq<World>, steps: seq<Step>, i: nat, k: nat, key: Key)
    requires Run(net, states, steps) && i <= k < |states| && IsPoolRow(states[i].books, key)
    ensures key in states[k].books.deposits
    ensures var first, row := states[i].books.deposits[key], states[k].books.deposits[key];
            Canonical(states[k], row.blockNumber, row.blockHash) <==>
              && Canonical(states[i], first.blockNumber, first.blockHash)
              && Untouched(states, steps, i, k, first.blockNumber)
  {
    var first := states[i].books.deposits[key];
    PoolBlockStays(net, states, steps, i, k, key);
    RunHolds(net, states, steps, i);
    assert SeenAt(states[i], first.blockNumber, first.blockHash, key.tx);
    var b :| b in states[i].minted && b.number == first.blockNumber && b.hash == first.blockHash && HasTx(b, key.tx);
    CanonicalExactly(net, states, steps, i, k, b);
  }

  // ------------------------------------------------------------------------------------------------------------
  // Verifying again

  /** Every settlement event of the transaction has a terminal row. */
  ghost predicate TerminalTx(net: Network, w: World, tx: Hash)
  {
    tx in w.txs && forall i :: 0 <= i < |w.txs[tx].logs| && IsSettlementLog(w.txs[tx].logs[i], net.settlement) ==>
        Terminal(w.books, Key(tx, i))
  }

  /** The worker is somewhere between asking for the receipt of the transaction and its last event. */
  predicate Reverifying(pc: Pc, tx: Hash)
  {
    match pc
    case WantReceipt(_, t) => t == tx
    case WantHead(_, events) => forall e :: e in events ==> e.key.tx == tx
    case InEvents(_, events, _) => forall e :: e in events ==> e.key.tx == tx
    case InEvent(_, event, rest, _, _) => event.key.tx == tx && forall e :: e in rest ==> e.key.tx == tx
    case _ => false
  }

  lemma TerminalTxStays(net: Network, w: World, step: Step, tx: Hash)
    requires Inv(net, w) && TerminalTx(net, w, tx)
    ensures TerminalTx(net, Next(net, w, step), tx)
  {
    StepGrows(net, w, step);
    if step.Chain? && Honest(w, step.op) { ChainStepKeeps(net, w, step.op); } else { OthersLeaveChain(net, w, step); }
  }

  lemma ReceiptOf(net: Network, w: World, tx: Hash)
    requires FindReceipt(w.sim.blocks, tx).Some?
    ensures forall e :: e in DecodeFrom(FindReceipt(w.sim.blocks, tx).value, net.settlement, 0) ==> e.key.tx == tx
  {
    FindReceiptSound(w.sim.blocks, tx);
    DecodeExact(FindReceipt(w.sim.blocks, tx).value, net.settlement, 0);
  }

  lemma ReverifyEvent(net: Network, w: World, o: nat, funding: FundingResult, tx: Hash)
    requires Inv(net, w) && TerminalTx(net, w, tx) && Reverifying(PcOf(w, o), tx) && PcOf(w, o).InEvent?
    ensures var w' := AdvanceWorker(net, w, o, funding); w'.books == w.books && Reverifying(PcOf(w', o), tx)
  {
    var pc := PcOf(w, o);
    assert PcInv(net, w, pc);
    assert EventKnown(net, w.txs, pc.event);
    assert Terminal(w.books, Key(tx, pc.event.key.logIndex));
  }

  lemma ReverifyRead(net: Network, w: World, o: nat, funding: FundingResult, tx: Hash)
    requires w.sim.blocks != [] && Reverifying(PcOf(w, o), tx) && !PcOf(w, o).InEvent?
    ensures var w' := AdvanceWorker(net, w, o, funding);
            w'.books == w.books && (Reverifying(PcOf(w', o), tx) || PcOf(w', o).Loop? || PcOf(w', o).Idle?)
  {
    if PcOf(w, o).WantReceipt? && FindReceipt(w.sim.blocks, tx).Some? { ReceiptOf(net, w, tx); }
  }

  /** Each of the worker's own steps there leaves the books as they are. */
  lemma ReverifyStep(net: Network, w: World, o: nat, funding: FundingResult, tx: Hash)
    requires Inv(net, w) && TerminalTx(net, w, tx) && Reverifying(PcOf(w, o), tx)
    ensures var w' := AdvanceWorker(net, w, o, funding);
            w'.books == w.books && (Reverifying(PcOf(w', o), tx) || PcOf(w', o).Loop? || PcOf(w', o).Idle?)
  {
    if PcOf(w, o).InEvent? { ReverifyEvent(net, w, o, funding, tx); } else { ReverifyRead(net, w, o, funding, tx); }
  }

  lemma WorldReverifies(net: Network, w: World, step: Step, o: nat, tx: Hash)
    requires Inv(net, w) && TerminalTx(net, w, tx) && Reverifying(PcOf(w, o), tx) && (WorkerOf(step) == Some(o) ==>
        step.Advance?)
    ensures var w' := Next(net, w, step);
            && TerminalTx(net, w', tx) && (Reverifying(PcOf(w', o), tx) || PcOf(w', o).Loop? || PcOf(w', o).Idle?)
            && (WorkerOf(step) == Some(o) ==> w'.books == w.books)
  {
    TerminalTxStays(net, w, step, tx);
    if WorkerOf(step) == Some(o) {
      ReverifyStep(net, w, o, step.funding, tx);
    } else {
      OthersKeepOut(net, w, step, o);
    }
  }

  lemma NextReverify(net: Network, states: seq<World>, steps: seq<Step>, j: nat, o: nat, tx: Hash)
    requires Run(net, states, steps) && j < |steps| && TerminalTx(net, states[j], tx)
             && Reverifying(PcOf(states[j], o), tx)
    requires WorkerOf(steps[j]) == Some(o) ==> steps[j].Advance?
    ensures TerminalTx(net, states[j + 1], tx)
    ensures var pc := PcOf(states[j + 1], o); Reverifying(pc, tx) || pc.Loop? || pc.Idle?
    ensures WorkerOf(steps[j]) == Some(o) ==> states[j + 1].books == states[j].books
  {
    RunHolds(net, states, steps, j);
    WorldReverifies(net, states[j], steps[j], o, tx);
  }

  /** Over the stretch the worker is not restarted, and has not finished with the transaction. */
  predicate Attends(states: seq<World>, steps: seq<Step>, o: nat, i: nat, k: nat)
    requires i <= k <= |steps| && |states| == |steps| + 1
  {
    forall j :: i <= j < k ==>
      (WorkerOf(steps[j]) == Some(o) ==> steps[j].Advance?) && !PcOf(states[j], o).Loop? && !PcOf(states[j], o).Idle?
  }

  /** None of the worker's steps in the stretch changes the books. */
  predicate Quiet(states: seq<World>, steps: seq<Step>, o: nat, i: nat, k: nat)
    requires i <= k <= |steps| && |states| == |steps| + 1
  {
    forall j :: i <= j < k && WorkerOf(steps[j]) == Some(o) ==> states[j + 1].books == states[j].books
  }

  lemma AttendsLast(states: seq<World>, steps: seq<Step>, o: nat, i: nat, k: nat)
    requires i < k <= |steps| && |states| == |steps| + 1 && Attends(states, steps, o, i, k)
    ensures Attends(states, steps, o, i, k - 1) && (WorkerOf(steps[k - 1]) == Some(o) ==> steps[k - 1].Advance?)
    ensures !PcOf(states[k - 1], o).Loop? && !PcOf(states[k - 1], o).Idle?
  {
  }

  lemma QuietLast(states: seq<World>, steps: seq<Step>, o: nat, i: nat, k: nat)
    requires i < k <= |steps| && |states| == |steps| + 1 && Quiet(states, steps, o, i, k - 1)
    requires WorkerOf(steps[k - 1]) == Some(o) ==> states[k].books == states[k - 1].books
    ensures Quiet(states, steps, o, i, k)
  {
  }

  /**
   * Verifying a transaction whose rows are all terminal changes nothing, from the request for its receipt to its last
   * event, whatever everyone else does in between.
   */
  lemma {:induction false} ReverifyChangesNothing(net: Network, states: seq<World>, steps: seq<Step>, i: nat, k: nat,
      o: nat, tx: Hash)
    requires Run(net, states, steps) && i <= k < |states| && TerminalTx(net, states[i], tx)
             && Reverifying(PcOf(states[i], o), tx)
    requires Attends(states, steps, o, i, k)
    ensures TerminalTx(net, states[k], tx)
    ensures Reverifying(PcOf(states[k], o), tx) || PcOf(states[k], o).Loop? || PcOf(states[k], o).Idle?
    ensures Quiet(states, steps, o, i, k)
    decreases k
  {
    if i < k {
      AttendsLast(states, steps, o, i, k);
      ReverifyChangesNothing(net, states, steps, i, k - 1, o, tx);
      NextReverify(net, states, steps, k - 1, o, tx);
      QuietLast(states, steps, o, i, k);
    }
  }
}
