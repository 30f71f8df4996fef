/** The deposit theorems over whole runs: any interleaving of chain, buyers and workers, from the empty books on. */
module DepositTheorems {
  import opened Common
  import opened MapSums
  import opened SimChain
  import opened EscrowRules
  import opened EscrowAwait
  import opened AwaitBooks
  import opened AwaitRuns
  import Along
  import opened DepositRules
  import opened DepositBooks
  import opened DepositWorld
  import opened DepositSafety

  // ------------------------------------------------------------------------------------------------------------
  // What a worker knows after each of its steps

  lemma ScanFindsAll(net: Network, w: World, from: nat, to: nat)
    requires ChainInv(net, w) && PcInv(net, w, GotRange(from, to))
    ensures CoveredTo(net, w, to, LogHashes(w.sim.blocks, net.settlement, from, to, []), [])
  {
    var hashes := LogHashes(w.sim.blocks, net.settlement, from, to, []);
    LogHashesSound(w.sim.blocks, net.settlement, from, to, []);
    forall n, r | 0 <= n <= to && r in w.sim.blocks[n].receipts && r.txHash !in hashes
      ensures RowsOr(net, w, r.txHash, [])
    {
      assert w.sim.blocks[n] in w.sim.blocks;
      if n < from {
        assert CoveredTo(net, w, from - 1, [], []);
      } else {
        assert !HasLogOf(r, net.settlement);
      }
    }
  }

  /** A transaction that is not found, failed, or has no settlement event leaves nothing to record. */
  lemma NothingToRecord(net: Network, w: World, job: Job, tx: Hash)
    requires ChainInv(net, w) && JobInv(net, w, job, [tx], [])
    requires var r := FindReceipt(w.sim.blocks, tx);
        r.None? || !r.value.success || DecodeFrom(r.value, net.settlement, 0) == []
    ensures JobInv(net, w, job, [], [])
  {
    if job.ScanJob? {
      FindReceiptSound(w.sim.blocks, tx);
      var found := FindReceipt(w.sim.blocks, tx);
      if found.Some? { DecodeExact(found.value, net.settlement, 0); }
      forall n, r | 0 <= n <= job.to && r in w.sim.blocks[n].receipts && r.txHash !in job.todo
        ensures RowsOr(net, w, r.txHash, [])
      {
        assert w.sim.blocks[n] in w.sim.blocks;
        if r.txHash == tx {
          assert w.txs[tx] == Body(r.success, r.logs) == Body(found.value.success, found.value.logs);
        } else {
          assert r.txHash !in [tx] + job.todo;
        }
      }
    }
  }

  lemma ReceiptSeen(net: Network, w: World, tx: Hash)
    requires ChainInv(net, w) && FindReceipt(w.sim.blocks, tx).Some?
    ensures EventsSeen(net, w, DecodeFrom(FindReceipt(w.sim.blocks, tx).value, net.settlement, 0))
  {
    FindReceiptSound(w.sim.blocks, tx);
    var r := FindReceipt(w.sim.blocks, tx).value;
    DecodeExact(r, net.settlement, 0);
    var b :| b in w.sim.blocks && r in b.receipts;
    forall e | e in DecodeFrom(r, net.settlement, 0) ensures EventSeen(net, w, e) {
      assert b in w.minted && HasTx(b, tx);
    }
  }

  lemma ReceiptCovers(net: Network, w: World, job: Job, tx: Hash)
    requires ChainInv(net, w) && JobInv(net, w, job, [tx], []) && FindReceipt(w.sim.blocks, tx).Some?
    ensures JobInv(net, w, job, [], DecodeFrom(FindReceipt(w.sim.blocks, tx).value, net.settlement, 0))
  {
    if job.ScanJob? {
      FindReceiptSound(w.sim.blocks, tx);
      var found := FindReceipt(w.sim.blocks, tx).value;
      var events := DecodeFrom(found, net.settlement, 0);
      DecodeExact(found, net.settlement, 0);
      var b :| b in w.sim.blocks && found in b.receipts;
      forall n, r | 0 <= n <= job.to && r in w.sim.blocks[n].receipts && r.txHash !in job.todo
        ensures RowsOr(net, w, r.txHash, events)
      {
        assert w.sim.blocks[n] in w.sim.blocks;
        if r.txHash == tx {
          assert w.txs[tx] == Body(found.success, found.logs);
          forall i | 0 <= i < |w.txs[tx].logs| && IsSettlementLog(w.txs[tx].logs[i], net.settlement)
            ensures exists e :: e in events && e.key == Key(tx, i)
          {
            assert Event(Key(tx, i), found.blockNumber, found.blockHash, found.logs[i].funded.value) in events;
          }
        } else {
          assert r.txHash !in [tx] + job.todo;
          assert RowsOr(net, w, r.txHash, []);
        }
      }
    }
  }

  /** Once the first event has its row, only the rest are still to be processed. */
  lemma EventRecorded(net: Network, w: World, job: Job, event: Event, rest: seq<Event>)
    requires JobInv(net, w, job, [], [event] + rest) && event.key in w.books.deposits
    ensures JobInv(net, w, job, [], rest)
  {
    if job.ScanJob? {
      forall n, r | 0 <= n <= job.to && r in w.sim.blocks[n].receipts && r.txHash !in [] + job.todo
        ensures RowsOr(net, w, r.txHash, rest)
      {
        assert RowsOr(net, w, r.txHash, [event] + rest);
      }
    }
  }

  // ------------------------------------------------------------------------------------------------------------
  // Steps keep the invariant

  lemma OrderTouchesOneRow(net: Network, b: Books, ev: Event, head: nat, read: HashRead, funding: FundingResult, i: nat,
      asset: nat, k: Key)
    requires i < |b.intents| && asset in net.assets && ProcessOrder(net, b, ev, head, read, funding, i, asset).Done?
    requires k in ProcessOrder(net, b, ev, head, read, funding, i, asset).books.deposits
    ensures var row := ProcessOrder(net, b, ev, head, read, funding, i, asset).books.deposits[k];
            || (k in b.deposits && row.blockNumber == b.deposits[k].blockNumber
                && row.blockHash == b.deposits[k].blockHash)
            || (k == ev.key && row.blockNumber == ev.blockNumber && row.blockHash == ev.blockHash)
  {
  }

  lemma PoolTouchesOneRow(net: Network, b: Books, ev: Event, head: nat, read: HashRead, p: nat, asset: nat, k: Key)
    requires p < |b.poolIntents| && ProcessPool(net, b, ev, head, read, p, asset).Done?
    requires k in ProcessPool(net, b, ev, head, read, p, asset).books.deposits
    ensures var row := ProcessPool(net, b, ev, head, read, p, asset).books.deposits[k];
            || (k in b.deposits && row.blockNumber == b.deposits[k].blockNumber
                && row.blockHash == b.deposits[k].blockHash)
            || (k == ev.key && row.blockNumber == ev.blockNumber && row.blockHash == ev.blockHash)
  {
  }

  /** A row's block is the one it was recorded with or the one of the event just processed. */
  lemma ProcessTouchesOneRow(net: Network, b: Books, ev: Event, head: nat, read: HashRead, funding: FundingResult,
      k: Key)
    requires ProcessEvent(net, b, ev, head, read, funding).Done?
    requires k in ProcessEvent(net, b, ev, head, read, funding).books.deposits
    ensures var row := ProcessEvent(net, b, ev, head, read, funding).books.deposits[k];
            || (k in b.deposits && row.blockNumber == b.deposits[k].blockNumber
                && row.blockHash == b.deposits[k].blockHash)
            || (k == ev.key && row.blockNumber == ev.blockNumber && row.blockHash == ev.blockHash)
  {
    var ref, asset := ev.funded.reference, AssetForToken(net, ev.funded.token);
    if Terminal(b, ev.key) || asset.None? || !net.assets[asset.value].allowlisted {
    } else if FindIntent(b, ref).Some? {
      OrderTouchesOneRow(net, b, ev, head, read, funding, FindIntent(b, ref).value, asset.value, k);
    } else if FindPoolIntent(b, ref).Some? {
      PoolTouchesOneRow(net, b, ev, head, read, FindPoolIntent(b, ref).value, asset.value, k);
    }
  }

  /** A step of the books alone, with its worker moved on. */
  lemma BooksStepKeeps(net: Network, w: World, w': World, worker: nat)
    requires Inv(net, w) && w'.sim == w.sim && w'.flight == w.flight && w'.minted == w.minted && w'.txs == w.txs
    requires BooksInv(net, w'.txs, w'.books) && Grows(w.books, w'.books)
    requires w'.books.checkpoint == w.books.checkpoint || CheckpointInv(net, w')
    requires forall k :: k in w'.books.deposits ==>
        SeenAt(w, w'.books.deposits[k].blockNumber, w'.books.deposits[k].blockHash, k.tx)
    requires PcInv(net, w', PcOf(w', worker))
    requires forall o :: o in w'.workers && o != worker ==> o in w.workers && w'.workers[o] == w.workers[o]
    ensures Inv(net, w')
  {
    assert Onward(w, w');
    if w.books.checkpoint.Some? && w'.books.checkpoint == w.books.checkpoint {
      CoveredOnward(net, w, w', w.books.checkpoint.value, [], []);
    }
    OthersOnward(net, w, w', worker);
  }

  /** A step of one worker that only reads. */
  lemma ReadStepKeeps(net: Network, w: World, worker: nat, pc: Pc)
    requires Inv(net, w) && PcInv(net, w, pc)
    ensures Inv(net, Go(w, worker, pc))
  {
    var w' := Go(w, worker, pc);
    assert Onward(w, w');
    OthersOnward(net, w, w', worker) by { PcOnward(net, w, w', pc); }
    if w.books.checkpoint.Some? { CoveredOnward(net, w, w', w.books.checkpoint.value, [], []); }
  }

  lemma CommitKeeps(net: Network, w: World, worker: nat, funding: FundingResult)
    requires Inv(net, w) && PcOf(w, worker).InEvent?
    ensures Inv(net, AdvanceWorker(net, w, worker, funding))
  {
    var pc := PcOf(w, worker);
    var outcome := ProcessEvent(net, w.books, pc.event, pc.head, pc.read, funding);
    assert PcInv(net, w, pc);
    if outcome.Threw? {
      ReadStepKeeps(net, w, worker, Idle);
    } else {
      var w' := Go(w.(books := outcome.books), worker, InEvents(pc.job, pc.rest, pc.head));
      ProcessKeeps(net, w.txs, w.books, pc.event, pc.head, pc.read, funding);
      ProcessLeavesRow(net, w.books, pc.event, pc.head, pc.read, funding);
      forall k | k in w'.books.deposits
        ensures SeenAt(w, w'.books.deposits[k].blockNumber, w'.books.deposits[k].blockHash, k.tx)
      {
        ProcessTouchesOneRow(net, w.books, pc.event, pc.head, pc.read, funding, k);
      }
      assert Onward(w, w');
      JobOnward(net, w, w', pc.job, [], [pc.event] + pc.rest);
      EventsOnward(net, w, w', pc.rest);
      EventRecorded(net, w', pc.job, pc.event, pc.rest);
      BooksStepKeeps(net, w, w', worker);
    }
  }

  lemma ScanDoneKeeps(net: Network, w: World, worker: nat, to: nat)
    requires Inv(net, w) && CoveredTo(net, w, to, [], [])
    ensures Inv(net, Go(w.(books := AdvanceCheckpoint(w.books, to)), worker, Idle))
  {
    var w' := Go(w.(books := AdvanceCheckpoint(w.books, to)), worker, Idle);
    CheckpointKeeps(net, w.txs, w.books, to);
    assert Onward(w, w');
    CoveredOnward(net, w, w', to, [], []);
    if w.books.checkpoint.Some? { CoveredOnward(net, w, w', w.books.checkpoint.value, [], []); }
    BooksStepKeeps(net, w, w', worker);
  }

  lemma LoopKeeps(net: Network, w: World, worker: nat, funding: FundingResult)
    requires Inv(net, w) && PcOf(w, worker).Loop?
    ensures Inv(net, AdvanceWorker(net, w, worker, funding))
  {
    var job := PcOf(w, worker).job;
    assert PcInv(net, w, Loop(job));
    match job
    case Hint => ReadStepKeeps(net, w, worker, Idle);
    case ScanJob(to, todo) =>
      assert [] + todo == todo;
      if todo == [] {
        ScanDoneKeeps(net, w, worker, to);
      } else {
        assert [todo[0]] + todo[1..] == todo;
        ReadStepKeeps(net, w, worker, WantReceipt(ScanJob(to, todo[1..]), todo[0]));
      }
    case RecheckJob(keys) =>
      if keys == [] || w.sim.offline {
        ReadStepKeeps(net, w, worker, Idle);
      } else if FindReceipt(w.sim.blocks, keys[0].tx).None? {
        ReadStepKeeps(net, w, worker, Lost(keys[0], keys[1..]));
      } else {
        ReadStepKeeps(net, w, worker, WantReceipt(RecheckJob(keys[1..]), keys[0].tx));
      }
  }

  lemma ReorgTouchesNoBlock(b: Books, key: Key, k: Key)
    requires k in MarkReorged(b, key).deposits
    ensures k in b.deposits
    ensures MarkReorged(b, key).deposits[k].blockNumber == b.deposits[k].blockNumber
    ensures MarkReorged(b, key).deposits[k].blockHash == b.deposits[k].blockHash
  {
  }

  lemma LostKeeps(net: Network, w: World, worker: nat, key: Key, keys: seq<Key>)
    requires Inv(net, w)
    ensures Inv(net, Go(w.(books := MarkReorged(w.books, key)), worker, Loop(RecheckJob(keys))))
  {
    var w' := Go(w.(books := MarkReorged(w.books, key)), worker, Loop(RecheckJob(keys)));
    MarkReorgedKeeps(net, w.txs, w.books, key);
    forall k | k in w'.books.deposits
      ensures SeenAt(w, w'.books.deposits[k].blockNumber, w'.books.deposits[k].blockHash, k.tx)
    {
      ReorgTouchesNoBlock(w.books, key, k);
    }
    BooksStepKeeps(net, w, w', worker);
  }

  lemma RangeKeeps(net: Network, w: World, worker: nat, funding: FundingResult)
    requires Inv(net, w) && (PcOf(w, worker).GotHead? || PcOf(w, worker).GotRange?)
    ensures Inv(net, AdvanceWorker(net, w, worker, funding))
  {
    var pc := PcOf(w, worker);
    assert PcInv(net, w, pc);
    if pc.GotHead? {
      ReadStepKeeps(net, w, worker, PcOf(AdvanceWorker(net, w, worker, funding), worker));
    } else if w.sim.offline {
      ReadStepKeeps(net, w, worker, Idle);
    } else {
      var hashes := LogHashes(w.sim.blocks, net.settlement, pc.from, pc.to, []);
      ScanFindsAll(net, w, pc.from, pc.to);
      assert [] + hashes == hashes;
      ReadStepKeeps(net, w, worker, Loop(ScanJob(pc.to, hashes)));
    }
  }

  lemma ReceiptKeeps(net: Network, w: World, worker: nat, funding: FundingResult)
    requires Inv(net, w) && PcOf(w, worker).WantReceipt?
    ensures Inv(net, AdvanceWorker(net, w, worker, funding))
  {
    var pc := PcOf(w, worker);
    assert PcInv(net, w, pc);
    var found := FindReceipt(w.sim.blocks, pc.tx);
    if w.sim.offline {
      ReadStepKeeps(net, w, worker, Idle);
    } else if found.None? || !found.value.success || DecodeFrom(found.value, net.settlement, 0) == [] {
      NothingToRecord(net, w, pc.job, pc.tx);
      ReadStepKeeps(net, w, worker, Loop(pc.job));
    } else {
      ReceiptSeen(net, w, pc.tx);
      ReceiptCovers(net, w, pc.job, pc.tx);
      ReadStepKeeps(net, w, worker, WantHead(pc.job, DecodeFrom(found.value, net.settlement, 0)));
    }
  }

  lemma EventsKeep(net: Network, w: World, worker: nat, funding: FundingResult)
    requires Inv(net, w) && (PcOf(w, worker).WantHead? || PcOf(w, worker).InEvents?)
    ensures Inv(net, AdvanceWorker(net, w, worker, funding))
  {
    var pc := PcOf(w, worker);
    var next := PcOf(AdvanceWorker(net, w, worker, funding), worker);
    assert PcInv(net, w, pc);
    if pc.InEvents? && pc.events != [] {
      assert [pc.events[0]] + pc.events[1..] == pc.events;
      assert pc.events[0] in pc.events && forall e :: e in pc.events[1..] ==> e in pc.events;
    }
    ReadStepKeeps(net, w, worker, next);
  }

  lemma AdvanceKeeps(net: Network, w: World, worker: nat, funding: FundingResult)
    requires Inv(net, w)
    ensures Inv(net, AdvanceWorker(net, w, worker, funding))
  {
    match PcOf(w, worker)
    case Idle =>
    case GotHead(_, _) => RangeKeeps(net, w, worker, funding);
    case GotRange(_, _) => RangeKeeps(net, w, worker, funding);
    case Loop(_) => LoopKeeps(net, w, worker, funding);
    case Lost(key, keys) => LostKeeps(net, w, worker, key, keys);
    case WantReceipt(_, _) => ReceiptKeeps(net, w, worker, funding);
    case WantHead(_, _) => EventsKeep(net, w, worker, funding);
    case InEvents(_, _, _) => EventsKeep(net, w, worker, funding);
    case InEvent(_, _, _, _, _) => CommitKeeps(net, w, worker, funding);
  }

  lemma ChainKeeps(net: Network, w: World, op: ChainOp)
    requires Inv(net, w) && Honest(w, op)
    ensures Inv(net, ChainStep(w, op))
  {
    var w' := ChainStep(w, op);
    ChainStepKeeps(net, w, op);
    ChainMoney(net, w, op);
    MoreTxs(net, w.txs, w'.txs, w.books);
    assert Onward(w, w');
    if w.books.checkpoint.Some? { CoveredOnward(net, w, w', w.books.checkpoint.value, [], []); }
    forall o | o in w'.workers ensures PcInv(net, w', w'.workers[o]) { PcOnward(net, w, w', w.workers[o]); }
  }

  /** A step of the buyers' side: the rows stay as they are. */
  lemma BuyerStepKeeps(net: Network, w: World, books: Books)
    requires Inv(net, w) && BooksInv(net, w.txs, books) && Grows(w.books, books)
    requires books.deposits == w.books.deposits && books.checkpoint == w.books.checkpoint
    ensures Inv(net, w.(books := books))
  {
    var w' := w.(books := books);
    assert Onward(w, w');
    if w.books.checkpoint.Some? { CoveredOnward(net, w, w', w.books.checkpoint.value, [], []); }
    forall o | o in w'.workers ensures PcInv(net, w', w'.workers[o]) { PcOnward(net, w, w', w.workers[o]); }
  }

  lemma PayKeeps(net: Network, w: World, order: OrderView, asset: nat, payer: Option<Address>)
    requires Inv(net, w)
    ensures Inv(net, Next(net, w, PayOrder(order, asset, payer)))
  {
    if CreatePayment(net, w.books, order, asset, payer).Ok? {
      CreatePaymentKeeps(net, w.txs, w.books, order, asset, payer);
      BuyerStepKeeps(net, w, CreatePayment(net, w.books, order, asset, payer).value.0);
    }
  }

  lemma CancelKeeps(net: Network, w: World, order: nat)
    requires Inv(net, w)
    ensures Inv(net, Next(net, w, CancelOrder(order)))
  {
    CancelFundingKeeps(net, w.txs, w.books, order);
    BuyerStepKeeps(net, w, CancelFunding(w.books, order));
  }

  lemma FundPoolKeeps(net: Network, w: World, pool: nat, poolAsset: nat, chainId: nat, asset: nat, amount: nat)
    requires Inv(net, w)
    ensures Inv(net, Next(net, w, FundPool(pool, poolAsset, chainId, asset, amount)))
  {
    CreatePoolIntentKeeps(net, w.txs, w.books, pool, poolAsset, chainId, asset, amount);
    BuyerStepKeeps(net, w, CreatePoolIntent(w.books, pool, poolAsset, chainId, asset, amount));
  }

  lemma StartKeeps(net: Network, w: World, step: Step)
    requires Inv(net, w) && (step.StartHint? || step.StartScan? || step.StartRecheck? || step.Crash?)
    ensures Inv(net, Next(net, w, step))
  {
    match step
    case StartHint(worker, tx) => if PcOf(w, worker).Idle? { ReadStepKeeps(net, w, worker, WantReceipt(Hint, tx)); }
    case StartScan(worker, maxBlocks) =>
      if PcOf(w, worker).Idle? && !w.sim.offline { ReadStepKeeps(net, w, worker, GotHead(Head(w.sim), maxBlocks)); }
    case StartRecheck(worker, keys) => if PcOf(w, worker).Idle? {
      ReadStepKeeps(net, w, worker, Loop(RecheckJob(keys)));
    }
    case Crash(worker) => ReadStepKeeps(net, w, worker, Idle);
  }

  /** Every step, by anyone, at any time, keeps the invariant of the whole. */
  lemma StepKeeps(net: Network, w: World, step: Step)
    requires Inv(net, w)
    ensures Inv(net, Next(net, w, step))
  {
    match step
    case Chain(op) => if Honest(w, op) { ChainKeeps(net, w, op); }
    case PayOrder(order, asset, payer) => PayKeeps(net, w, order, asset, payer);
    case CancelOrder(order) => CancelKeeps(net, w, order);
    case FundPool(pool, poolAsset, chainId, asset, amount) =>
        FundPoolKeeps(net, w, pool, poolAsset, chainId, asset, amount);
    case Advance(worker, funding) => AdvanceKeeps(net, w, worker, funding);
    case _ => StartKeeps(net, w, step);
  }

  // ------------------------------------------------------------------------------------------------------------
  // Runs

  lemma StartHolds(net: Network)
    ensures Inv(net, Start(net))
  {
    var w := Start(net);
    StartIsKept(net.chainId, Some(net.settlement));
    forall e ensures Sum(EmittedFor(net, w.txs, e)) <= Taken(w.flight, e) {
      assert EmittedFor(net, w.txs, e) == map[];
    }
    assert w.sim.blocks[0] in w.sim.blocks;
  }

  /** A run: each state follows from the one before by one step. */
  ghost predicate Run(net: Network, states: seq<World>, steps: seq<Step>)
  {
    && |states| == |steps| + 1
    && states[0] == Start(net)
    && (forall i :: 0 <= i < |states| ==> states[i].sim.blocks != [])
    && (forall i :: 0 <= i < |steps| ==> states[i + 1] == Next(net, states[i], steps[i]))
  }

  lemma {:induction false} RunHolds(net: Network, states: seq<World>, steps: seq<Step>, k: nat)
    requires Run(net, states, steps) && k < |states|
    ensures Inv(net, states[k])
    decreases k
  {
    if k == 0 {
      StartHolds(net);
    } else {
      RunHolds(net, states, steps, k - 1);
      StepKeeps(net, states[k - 1], steps[k - 1]);
    }
  }

  // ------------------------------------------------------------------------------------------------------------
  // History only grows

  lemma StepGrows(net: Network, w: World, step: Step)
    requires Inv(net, w)
    ensures Grows(w.books, Next(net, w, step).books)
  {
    match step
    case PayOrder(order, asset, payer) =>
      if CreatePayment(net, w.books, order, asset, payer).Ok? {
        CreatePaymentKeeps(net, w.txs, w.books, order, asset, payer);
      }
    case CancelOrder(order) => CancelFundingKeeps(net, w.txs, w.books, order);
    case FundPool(pool, poolAsset, chainId, asset, amount) =>
        CreatePoolIntentKeeps(net, w.txs, w.books, pool, poolAsset, chainId, asset, amount);
    case Advance(worker, funding) => AdvanceGrows(net, w, worker, funding);
    case _ => GrowsReflexive(w.books);
  }

  lemma GrowsReflexive(b: Books)
    ensures Grows(b, b)
  {
  }

  /** The books a worker's step leaves: only a processed event, a finished scan and a lost row touch them. */
  lemma AdvanceBooks(net: Network, w: World, worker: nat, funding: FundingResult)
    requires w.sim.blocks != []
    ensures AdvanceWorker(net, w, worker, funding).books ==
      match PcOf(w, worker)
      case InEvent(_, event, _, head, read) =>
        var r := ProcessEvent(net, w.books, event, head, read, funding);
        if r.Done? then r.books else w.books
      case Loop(job) => if job.ScanJob? && job.todo == [] then AdvanceCheckpoint(w.books, job.to) else w.books
      case Lost(key, _) => MarkReorged(w.books, key)
      case _ => w.books
  {
  }

  lemma AdvanceGrows(net: Network, w: World, worker: nat, funding: FundingResult)
    requires Inv(net, w)
    ensures Grows(w.books, AdvanceWorker(net, w, worker, funding).books)
  {
    var pc := PcOf(w, worker);
    assert PcInv(net, w, pc);
    AdvanceBooks(net, w, worker, funding);
    GrowsReflexive(w.books);
    match pc
    case InEvent(_, event, _, head, read) =>
      if ProcessEvent(net, w.books, event, head, read, funding).Done? {
        ProcessKeeps(net, w.txs, w.books, event, head, read, funding);
      }
    case Loop(job) => if job.ScanJob? { CheckpointKeeps(net, w.txs, w.books, job.to); }
    case Lost(key, _) => MarkReorgedKeeps(net, w.txs, w.books, key);
    case _ =>
  }

  lemma GrowsTransitive(a: Books, b: Books, c: Books)
    requires Grows(a, b) && Grows(b, c)
    ensures Grows(a, c)
  {
  }

  lemma {:induction false} GrowsAlong(history: seq<Books>, i: nat, k: nat)
    requires i <= k < |history| && forall n :: 0 <= n < |history| - 1 ==> Grows(history[n], history[n + 1])
    ensures Grows(history[i], history[k])
    decreases k
  {
    if i < k {
      GrowsAlong(history, i, k - 1);
      assert Grows(history[k - 1], history[k - 1 + 1]);
      GrowsTransitive(history[i], history[k - 1], history[k]);
    } else {
      GrowsReflexive(history[i]);
    }
  }

  lemma NextGrows(net: Network, states: seq<World>, steps: seq<Step>, k: nat)
    requires Run(net, states, steps) && k < |steps|
    ensures Grows(states[k].books, states[k + 1].books)
  {
    RunHolds(net, states, steps, k);
    StepGrows(net, states[k], steps[k]);
  }

  /**
   * Between any two moments of a run no row disappears or forgets its event, terminal rows are exactly what they were,
   * a confirmed intent is still confirmed, a closed intent has not opened again, and the checkpoint has not gone back.
   */
  lemma HistoryOnlyGrows(net: Network, states: seq<World>, steps: seq<Step>, i: nat, k: nat)
    requires Run(net, states, steps) && i <= k < |states|
    ensures Grows(states[i].books, states[k].books)
  {
    var history := seq(|states|, (n: nat) requires n < |states| => states[n].books);
    forall n | 0 <= n < |history| - 1
      ensures Grows(history[n], history[n + 1])
    {
      NextGrows(net, states, steps, n);
    }
    GrowsAlong(history, i, k);
  }

  // ------------------------------------------------------------------------------------------------------------
  // The theorems

  /** The step undoes a batch beside which a deposit credited the bucket. */
  predicate ErasedAt(w: World, step: Step, e: EscrowRef)
  {
    step.Chain? && Honest(w, step.op) && Erases(DevnetOf(w), step.op, e)
  }

  /** Only an honest chain step moves the simulator and the transactions. */
  lemma OthersLeaveChain(net: Network, w: World, step: Step)
    requires w.sim.blocks != [] && !(step.Chain? && Honest(w, step.op))
    ensures DevnetOf(Next(net, w, step)) == DevnetOf(w) && Next(net, w, step).txs == w.txs
  {
    if step.Advance? { AdvanceLeavesChain(net, w, step.worker, step.funding); }
  }

  lemma AdvanceLeavesChain(net: Network, w: World, worker: nat, funding: FundingResult)
    requires w.sim.blocks != []
    ensures DevnetOf(AdvanceWorker(net, w, worker, funding)) == DevnetOf(w)
            && AdvanceWorker(net, w, worker, funding).txs == w.txs
  {
  }

  lemma ChainMovesDevnet(net: Network, w: World, op: ChainOp)
    requires w.sim.blocks != [] && Honest(w, op)
    ensures var w' := Next(net, w, Chain(op));
            && DevnetOf(w') == Apply(DevnetOf(w), op)
            && (!op.DepositOp? ==> w'.txs == w.txs)
            && (op.DepositOp? ==>
                w'.txs == w.txs[DepositTx(w.sim, op.input) := Body(!op.input.reverted, DepositLogs(op.input))])
  {
  }

  lemma NextShort(net: Network, states: seq<World>, steps: seq<Step>, j: nat, e: EscrowRef)
    requires Run(net, states, steps) && j < |steps|
    ensures var before, after := Short(DevnetOf(states[j]), e), Short(DevnetOf(states[j + 1]), e);
            if ErasedAt(states[j], steps[j], e) then after > before else after == before
  {
    RunHolds(net, states, steps, j);
    if steps[j].Chain? && Honest(states[j], steps[j].op) {
      ChainMovesDevnet(net, states[j], steps[j].op);
      ShortStep(DevnetOf(states[j]), steps[j].op, e);
    } else {
      OthersLeaveChain(net, states[j], steps[j]);
    }
  }

  /** A bucket shows all it was credited exactly when no batch was undone after a deposit to it beside that batch. */
  lemma BucketShowsAll(net: Network, states: seq<World>, steps: seq<Step>, k: nat, e: EscrowRef)
    requires Run(net, states, steps) && k < |states|
    ensures DepositedFor(states[k].sim, e) <= Taken(states[k].flight, e)
    ensures DepositedFor(states[k].sim, e) == Taken(states[k].flight, e) <==> forall j :: 0 <= j < k ==>
        !ErasedAt(states[j], steps[j], e)
  {
    var count := seq(|states|, (j: nat) requires j < |states| => Short(DevnetOf(states[j]), e));
    assert forall j :: 0 <= j < |count| ==> count[j] == Short(DevnetOf(states[j]), e);
    var bad := seq(|steps|, (j: nat) requires j < |steps| && |states| == |steps| + 1 =>
        ErasedAt(states[j], steps[j], e));
    assert forall j :: 0 <= j < |bad| ==> bad[j] == ErasedAt(states[j], steps[j], e);
    forall j | 0 <= j < k
      ensures if bad[j] then count[j + 1] > count[j] else count[j + 1] == count[j]
    {
      NextShort(net, states, steps, j, e);
    }
    Along.SameExactly(count, bad, 0, k);
  }

  /**
   * In every reachable state, with payouts, freezes and batches interleaving at their awaits, the credits of a bucket
   * are within what it was ever credited on chain, and what it paid out is within what it holds. The credits are within
   * what it holds as long as no batch was undone after a deposit to it beside that batch.
   */
  lemma BooksNeverExceedChain(net: Network, states: seq<World>, steps: seq<Step>, k: nat, e: EscrowRef)
    requires Run(net, states, steps) && k < |states|
    ensures Sum(CreditedOf(states[k].books, e)) <= Taken(states[k].flight, e)
    ensures (forall j :: 0 <= j < k ==> !ErasedAt(states[j], steps[j], e)) ==>
              Sum(CreditedOf(states[k].books, e)) <= DepositedFor(states[k].sim, e)
    ensures e in states[k].sim.buckets ==>
              var bucket := states[k].sim.buckets[e]; bucket.released + bucket.refunded <= bucket.deposited
  {
    RunHolds(net, states, steps, k);
    BooksWithinChain(net, states[k], e);
    BucketShowsAll(net, states, steps, k, e);
  }

  /** The step deposits under a transaction hash that was used before. */
  predicate Reuses(w: World, step: Step)
  {
    step.Chain? && step.op.DepositOp? && DepositTx(w.sim, step.op.input) in w.txs
  }

  lemma {:induction false} EmittedIsTaken(net: Network, states: seq<World>, steps: seq<Step>, k: nat, e: EscrowRef)
    requires Run(net, states, steps) && k < |states| && forall j :: 0 <= j < k ==> !Reuses(states[j], steps[j])
    ensures Sum(EmittedFor(net, states[k].txs, e)) == Taken(states[k].flight, e)
    decreases k
  {
    if k == 0 {
      assert EmittedFor(net, states[0].txs, e) == map[];
    } else {
      EmittedIsTaken(net, states, steps, k - 1, e);
      NextEmitted(net, states, steps, k - 1, e);
    }
  }

  lemma NextEmitted(net: Network, states: seq<World>, steps: seq<Step>, j: nat, e: EscrowRef)
    requires Run(net, states, steps) && j < |steps| && !Reuses(states[j], steps[j])
    requires Sum(EmittedFor(net, states[j].txs, e)) == Taken(states[j].flight, e)
    ensures Sum(EmittedFor(net, states[j + 1].txs, e)) == Taken(states[j + 1].flight, e)
  {
    var w, step := states[j], steps[j];
    assert Kept(DevnetOf(w)) && w.sim.settlement == Some(net.settlement) by { RunHolds(net, states, steps, j); }
    if step.Chain? && Honest(w, step.op) { EmittedStep(net, w, step.op, e); } else { OthersLeaveChain(net, w, step); }
  }

  lemma EmittedStep(net: Network, w: World, op: ChainOp, e: EscrowRef)
    requires Kept(DevnetOf(w)) && w.sim.settlement == Some(net.settlement) && Honest(w, op) && !Reuses(w, Chain(op))
    requires Sum(EmittedFor(net, w.txs, e)) == Taken(w.flight, e)
    ensures Sum(EmittedFor(net, Next(net, w, Chain(op)).txs, e)) == Taken(Next(net, w, Chain(op)).flight, e)
  {
    ChainMovesDevnet(net, w, op);
    if op.DepositOp? {
      DepositMoney(net, DevnetOf(w), w.txs, op.input, e);
      assert Next(net, w, Chain(op)).flight == NoteDeposit(w.flight, op.input.funded.escrowRef,
          CreditOf(w.sim, op.input));
    } else {
      OnlyDepositsTake(DevnetOf(w), op);
    }
  }

  /**
   * With every deposit under a transaction hash of its own, the events emitted for a bucket, which are what the indexer
   * may come to credit, are within what the bucket holds if and only if no batch was undone after a deposit to it
   * beside it.
   */
  lemma EmittedWithinBucket(net: Network, states: seq<World>, steps: seq<Step>, k: nat, e: EscrowRef)
    requires Run(net, states, steps) && k < |states| && forall j :: 0 <= j < k ==> !Reuses(states[j], steps[j])
    ensures Sum(EmittedFor(net, states[k].txs, e)) <= DepositedFor(states[k].sim, e) <==> forall j :: 0 <= j < k ==>
        !ErasedAt(states[j], steps[j], e)
  {
    EmittedIsTaken(net, states, steps, k, e);
    BucketShowsAll(net, states, steps, k, e);
  }

  /**
   * Whatever the chunk sizes, outages, crashes, overlapping scans and reorganizations, no deposit up to the checkpoint
   * lacks a row.
   */
  lemma NoDepositMissed(net: Network, states: seq<World>, steps: seq<Step>, k: nat, n: nat, r: Receipt, i: nat)
    requires Run(net, states, steps) && k < |states|
    requires states[k].books.checkpoint.Some? && n <= states[k].books.checkpoint.value
    requires n < |states[k].sim.blocks| && r in states[k].sim.blocks[n].receipts
    requires i < |r.logs| && IsSettlementLog(r.logs[i], net.settlement)
    ensures states[k].books.checkpoint.value < |states[k].sim.blocks|
    ensures Key(r.txHash, i) in states[k].books.deposits
            && states[k].books.deposits[Key(r.txHash, i)].funded == r.logs[i].funded.value
  {
    var w := states[k];
    RunHolds(net, states, steps, k);
    assert w.sim.blocks[n] in w.sim.blocks;
    assert RowsOr(net, w, r.txHash, []);
    assert RowSound(net, w.txs, w.books, Key(r.txHash, i));
  }

  lemma FundingsApart(b: Books, n: nat, m: nat)
    requires OneCreditEach(b) && FundingsMatch(b) && n < m < |b.fundings|
    ensures b.fundings[n].intent != b.fundings[m].intent
  {
    var x, y := b.fundings[n].key, b.fundings[m].key;
    assert x in b.deposits && y in b.deposits && x != y;
    assert !SameCredit(b, x, y);
  }

  lemma MovesApart(b: Books, n: nat, m: nat)
    requires OneCreditEach(b) && MovesMatch(b) && n < m < |b.poolMoves|
    ensures b.poolMoves[n].poolIntent != b.poolMoves[m].poolIntent
  {
    var x, y := b.poolMoves[n].key, b.poolMoves[m].key;
    assert x in b.deposits && y in b.deposits && x != y;
    assert !SameCredit(b, x, y);
  }

  /** A credited order row: under its intent's reference, in a registered asset, and all that the intent asks for. */
  predicate CreditedAsAsked(net: Network, b: Books, x: Key)
    requires x in b.deposits && b.deposits[x].intent.Some?
  {
    var row, i := b.deposits[x], b.deposits[x].intent.value;
    && i < |b.intents| && row.funded.reference == OrderPayment(b.intents[i].order, i)
    && InAsset(net, row.funded, row.asset) && Fulfils(net, b.intents[i], row.funded, row.asset.value)
  }

  /** A credited pool row likewise. */
  predicate MovedAsAsked(net: Network, b: Books, x: Key)
    requires x in b.deposits && b.deposits[x].poolIntent.Some?
  {
    var row, p := b.deposits[x], b.deposits[x].poolIntent.value;
    && p < |b.poolIntents| && row.funded.reference == PoolPayment(p)
    && InAsset(net, row.funded, row.asset) && FulfilsPool(net, b.poolIntents[p], row.funded, row.asset.value)
  }

  /**
   * At most one deposit is credited per intent and one credit given per chain event, each in the chain, escrow,
   * balance, amount and from the sender that its intent asks for, passed on in the cents of the order it was made for;
   * and every credited row was passed to funding exactly once.
   */
  lemma CreditedExactlyOnce(net: Network, states: seq<World>, steps: seq<Step>, k: nat)
    requires Run(net, states, steps) && k < |states|
    ensures var b := states[k].books;
            && (forall x, y :: x in b.deposits && y in b.deposits && SameCredit(b, x, y) ==> x == y)
            && (forall n, m :: 0 <= n < m < |b.fundings| ==>
                  b.fundings[n].key != b.fundings[m].key && b.fundings[n].intent != b.fundings[m].intent)
            && (forall n :: 0 <= n < |b.fundings| ==>
                  && b.fundings[n].intent < |b.intents|
                  && b.fundings[n].amountMinor == b.intents[b.fundings[n].intent].orderMinor
                  && b.fundings[n].amountAtomic == b.intents[b.fundings[n].intent].amount)
            && (forall x :: x in b.deposits && b.deposits[x].status == CreditedRow && b.deposits[x].intent.Some? ==>
                Funds(b, x) && CreditedAsAsked(net, b, x))
  {
    RunHolds(net, states, steps, k);
    var w, b := states[k], states[k].books;
    forall x | x in b.deposits && b.deposits[x].status == CreditedRow && b.deposits[x].intent.Some?
      ensures Funds(b, x) && CreditedAsAsked(net, b, x)
    {
      assert RowSound(net, w.txs, b, x);
    }
    forall n | 0 <= n < |b.fundings|
      ensures b.fundings[n].intent < |b.intents| && b.fundings[n].amountAtomic == b.intents[b.fundings[n].intent].amount
    {
      assert RowSound(net, w.txs, b, b.fundings[n].key);
    }
    forall n, m | 0 <= n < m < |b.fundings|
      ensures b.fundings[n].intent != b.fundings[m].intent
    {
      FundingsApart(b, n, m);
    }
  }

  /**
   * Pools likewise: one DEPOSIT movement for each credited pool row, never two for one event or one intent, of the
   * amount deposited, which is in the chain, escrow, asset and amount that the intent asks for.
   */
  lemma MovedExactlyOnce(net: Network, states: seq<World>, steps: seq<Step>, k: nat)
    requires Run(net, states, steps) && k < |states|
    ensures var b := states[k].books;
            && (forall n, m :: 0 <= n < m < |b.poolMoves| ==>
                  b.poolMoves[n].key != b.poolMoves[m].key && b.poolMoves[n].poolIntent != b.poolMoves[m].poolIntent)
            && (forall n :: 0 <= n < |b.poolMoves| ==>
                  var move := b.poolMoves[n];
                  && move.key in b.deposits && b.deposits[move.key].status == CreditedRow
                  && b.deposits[move.key].poolIntent == Some(move.poolIntent)
                  && move.amountAtomic == b.deposits[move.key].funded.amount)
            && (forall x :: x in b.deposits && b.deposits[x].status == CreditedRow && b.deposits[x].poolIntent.Some? ==>
                Moves(b, x) && MovedAsAsked(net, b, x))
  {
    RunHolds(net, states, steps, k);
    var b := states[k].books;
    forall x | x in b.deposits && b.deposits[x].status == CreditedRow && b.deposits[x].poolIntent.Some?
      ensures Moves(b, x) && MovedAsAsked(net, b, x)
    {
      assert RowSound(net, states[k].txs, b, x);
    }
    forall n, m | 0 <= n < m < |b.poolMoves|
      ensures b.poolMoves[n].poolIntent != b.poolMoves[m].poolIntent
    {
      MovesApart(b, n, m);
    }
  }

  /** An order never has two open intents or two confirmed ones, and every intent's status is backed by a row. */
  lemma StatusesAlwaysBacked(net: Network, states: seq<World>, steps: seq<Step>, k: nat, i: nat)
    requires Run(net, states, steps) && k < |states| && i < |states[k].books.intents|
    ensures var b := states[k].books;
            && (b.intents[i].status == PendingFinality ==> HasRow(b, i, PendingRow))
            && (b.intents[i].status == Confirmed ==> HasRow(b, i, CreditedRow))
            && (Open(b.intents[i].status) ==> !HasRow(b, i, CreditedRow))
            && (forall j :: 0 <= j < |b.intents| && j != i && b.intents[j].order == b.intents[i].order ==>
                  && !(Open(b.intents[i].status) && Open(b.intents[j].status))
                  && !(b.intents[i].status == Confirmed == b.intents[j].status))
  {
    RunHolds(net, states, steps, k);
    assert BackedAt(states[k].books, i);
  }

  // ------------------------------------------------------------------------------------------------------------
  // Finality

  /** Credited order rows are buried, and so is what a worker is about to credit. */
  ghost predicate FinalInv(net: Network, w: World)
  {
    && (forall k ::
          k in w.books.deposits && w.books.deposits[k].status == CreditedRow && w.books.deposits[k].intent.Some? ==>
            Buried(net, w, w.books.deposits[k].blockNumber, w.books.deposits[k].blockHash))
    && (forall o :: o in w.workers ==> FinalPc(net, w, w.workers[o]))
  }

  ghost predicate FinalPc(net: Network, w: World, pc: Pc)
  {
    pc.InEvent? && pc.read.Answer? && IsFinal(net, pc.event, pc.head, pc.read.hash) ==>
        Buried(net, w, pc.event.blockNumber, pc.event.blockHash)
  }

  lemma OrderCreditsFinal(net: Network, txs: Txs, b: Books, ev: Event, head: nat, read: HashRead,
      funding: FundingResult, i: nat, asset: nat, k: Key)
    requires i < |b.intents| && asset in net.assets && ProcessOrder(net, b, ev, head, read, funding, i, asset).Done?
             && !Terminal(b, ev.key)
    requires k in ProcessOrder(net, b, ev, head, read, funding, i, asset).books.deposits
    requires ProcessOrder(net, b, ev, head, read, funding, i, asset).books.deposits[k].status == CreditedRow
    ensures var row := ProcessOrder(net, b, ev, head, read, funding, i, asset).books.deposits[k];
            || (k in b.deposits && row == b.deposits[k])
            || (k == ev.key && row.blockNumber == ev.blockNumber && row.blockHash == ev.blockHash && read.Answer?
                && IsFinal(net, ev, head, read.hash))
  {
  }

  lemma PoolCreditsPool(net: Network, b: Books, ev: Event, head: nat, read: HashRead, p: nat, asset: nat, k: Key)
    requires p < |b.poolIntents| && ProcessPool(net, b, ev, head, read, p, asset).Done? && !Terminal(b, ev.key)
    requires k in ProcessPool(net, b, ev, head, read, p, asset).books.deposits
    requires ProcessPool(net, b, ev, head, read, p, asset).books.deposits[k].status == CreditedRow
    ensures var row := ProcessPool(net, b, ev, head, read, p, asset).books.deposits[k];
            (k in b.deposits && row == b.deposits[k]) || row.poolIntent == Some(p)
  {
  }

  /** An order row becomes credited only for an event found final. */
  lemma CreditsFinal(net: Network, txs: Txs, b: Books, ev: Event, head: nat, read: HashRead, funding: FundingResult,
      k: Key)
    requires BooksInv(net, txs, b) && EventKnown(net, txs, ev) && ProcessEvent(net, b, ev, head, read, funding).Done?
    requires k in ProcessEvent(net, b, ev, head, read, funding).books.deposits
    requires var row := ProcessEvent(net, b, ev, head, read, funding).books.deposits[k];
        row.status == CreditedRow && row.intent.Some?
    ensures var row := ProcessEvent(net, b, ev, head, read, funding).books.deposits[k];
            || (k in b.deposits && row == b.deposits[k])
            || (k == ev.key && row.blockNumber == ev.blockNumber && row.blockHash == ev.blockHash && read.Answer?
                && IsFinal(net, ev, head, read.hash))
  {
    var ref, asset := ev.funded.reference, AssetForToken(net, ev.funded.token);
    if Terminal(b, ev.key) || asset.None? || !net.assets[asset.value].allowlisted {
    } else if FindIntent(b, ref).Some? {
      OrderCreditsFinal(net, txs, b, ev, head, read, funding, FindIntent(b, ref).value, asset.value, k);
    } else if FindPoolIntent(b, ref).Some? {
      ProcessKeeps(net, txs, b, ev, head, read, funding);
      assert RowSound(net, txs, ProcessEvent(net, b, ev, head, read, funding).books, k);
      PoolCreditsPool(net, b, ev, head, read, FindPoolIntent(b, ref).value, asset.value, k);
    }
  }

  lemma ReadHashFinal(net: Network, w: World, event: Event, head: nat)
    requires ChainInv(net, w) && head < |w.sim.blocks|
    requires IsFinal(net, event, head, BlockHashAt(w.sim.blocks, event.blockNumber))
    ensures Buried(net, w, event.blockNumber, event.blockHash)
  {
    BlockHashAtExact(w.sim.blocks, event.blockNumber);
  }

  /** Finality only looks at the blocks, the rows and the workers about to credit. */
  lemma FinalFrame(net: Network, w: World, w': World, worker: nat)
    requires FinalInv(net, w) && w'.sim.blocks == w.sim.blocks && FinalPc(net, w', PcOf(w', worker))
    requires forall o :: o in w'.workers && o != worker ==> o in w.workers && w'.workers[o] == w.workers[o]
    requires forall k ::
               k in w'.books.deposits && w'.books.deposits[k].status == CreditedRow ==>
                 || w'.books.deposits[k].intent.None?
                 || (k in w.books.deposits && w'.books.deposits[k] == w.books.deposits[k])
                 || Buried(net, w, w'.books.deposits[k].blockNumber, w'.books.deposits[k].blockHash)
    ensures FinalInv(net, w')
  {
    forall o | o in w'.workers ensures FinalPc(net, w', w'.workers[o]) {
      if o != worker { assert FinalPc(net, w, w.workers[o]); }
    }
  }

  lemma FinalChain(net: Network, w: World, op: ChainOp)
    requires Inv(net, w) && FinalInv(net, w) && Honest(w, op) && Shallow(net, Chain(op))
    ensures FinalInv(net, ChainStep(w, op))
  {
    var w' := ChainStep(w, op);
    forall k | k in w'.books.deposits && w'.books.deposits[k].status == CreditedRow && w'.books.deposits[k].intent.Some?
      ensures Buried(net, w', w'.books.deposits[k].blockNumber, w'.books.deposits[k].blockHash)
    {
      BuriedStays(net, w, op, w'.books.deposits[k].blockNumber, w'.books.deposits[k].blockHash);
    }
    forall o | o in w'.workers ensures FinalPc(net, w', w'.workers[o]) {
      var pc := w.workers[o];
      assert FinalPc(net, w, pc);
      if pc.InEvent? && Buried(net, w, pc.event.blockNumber, pc.event.blockHash) {
        BuriedStays(net, w, op, pc.event.blockNumber, pc.event.blockHash);
      }
    }
  }

  lemma FinalCommit(net: Network, w: World, worker: nat, funding: FundingResult)
    requires Inv(net, w) && FinalInv(net, w) && PcOf(w, worker).InEvent?
    ensures FinalInv(net, AdvanceWorker(net, w, worker, funding))
  {
    var pc := PcOf(w, worker);
    var w' := AdvanceWorker(net, w, worker, funding);
    assert PcInv(net, w, pc) && FinalPc(net, w, pc);
    if ProcessEvent(net, w.books, pc.event, pc.head, pc.read, funding).Done? {
      forall k | k in w'.books.deposits && w'.books.deposits[k].status == CreditedRow
          && w'.books.deposits[k].intent.Some?
        ensures (k in w.books.deposits && w'.books.deposits[k] == w.books.deposits[k])
             || Buried(net, w, w'.books.deposits[k].blockNumber, w'.books.deposits[k].blockHash)
      {
        CreditsFinal(net, w.txs, w.books, pc.event, pc.head, pc.read, funding, k);
      }
    }
    FinalFrame(net, w, w', worker);
  }

  /** A step that changes no row and reads no block hash. */
  lemma FinalSameRows(net: Network, w: World, w': World, worker: nat)
    requires FinalInv(net, w) && w'.sim.blocks == w.sim.blocks && w'.books.deposits == w.books.deposits
             && FinalPc(net, w', PcOf(w', worker))
    requires forall o :: o in w'.workers && o != worker ==> o in w.workers && w'.workers[o] == w.workers[o]
    ensures FinalInv(net, w')
  {
    FinalFrame(net, w, w', worker);
  }

  lemma FinalLost(net: Network, w: World, worker: nat, funding: FundingResult)
    requires FinalInv(net, w) && w.sim.blocks != [] && PcOf(w, worker).Lost?
    ensures FinalInv(net, AdvanceWorker(net, w, worker, funding))
  {
    FinalFrame(net, w, AdvanceWorker(net, w, worker, funding), worker);
  }

  lemma FinalRead(net: Network, w: World, worker: nat, funding: FundingResult)
    requires Inv(net, w) && FinalInv(net, w) && PcOf(w, worker).InEvents?
    ensures FinalInv(net, AdvanceWorker(net, w, worker, funding))
  {
    var pc := PcOf(w, worker);
    assert PcInv(net, w, pc);
    if pc.events != [] && !w.sim.offline
        && IsFinal(net, pc.events[0], pc.head, BlockHashAt(w.sim.blocks, pc.events[0].blockNumber)) {
      ReadHashFinal(net, w, pc.events[0], pc.head);
    }
    FinalSameRows(net, w, AdvanceWorker(net, w, worker, funding), worker);
  }

  /** The other actions change no row. */
  lemma QuietAdvance(net: Network, w: World, worker: nat, funding: FundingResult)
    requires w.sim.blocks != [] && !PcOf(w, worker).InEvent? && !PcOf(w, worker).InEvents? && !PcOf(w, worker).Lost?
    ensures var w' := AdvanceWorker(net, w, worker, funding);
            && w'.sim == w.sim && w'.books.deposits == w.books.deposits && !PcOf(w', worker).InEvent?
            && forall o :: o in w'.workers && o != worker ==> o in w.workers && w'.workers[o] == w.workers[o]
  {
  }

  lemma FinalAdvance(net: Network, w: World, worker: nat, funding: FundingResult)
    requires Inv(net, w) && FinalInv(net, w)
    ensures FinalInv(net, AdvanceWorker(net, w, worker, funding))
  {
    match PcOf(w, worker)
    case InEvent(_, _, _, _, _) => FinalCommit(net, w, worker, funding);
    case InEvents(_, _, _) => FinalRead(net, w, worker, funding);
    case Lost(_, _) => FinalLost(net, w, worker, funding);
    case _ =>
      QuietAdvance(net, w, worker, funding);
      FinalSameRows(net, w, AdvanceWorker(net, w, worker, funding), worker);
  }

  /** Starting and crashing workers, and what buyers do, changes no row and starts no credit. */
  lemma QuietStep(net: Network, w: World, step: Step)
    requires w.sim.blocks != [] && !step.Chain? && !step.Advance?
    ensures var w' := Next(net, w, step);
            && w'.sim == w.sim && w'.books.deposits == w.books.deposits
            && forall o :: o in w'.workers ==>
                (o in w.workers && w'.workers[o] == w.workers[o]) || !w'.workers[o].InEvent?
  {
  }

  lemma FinalQuiet(net: Network, w: World, step: Step)
    requires w.sim.blocks != [] && FinalInv(net, w) && !step.Chain? && !step.Advance?
    ensures FinalInv(net, Next(net, w, step))
  {
    var w' := Next(net, w, step);
    QuietStep(net, w, step);
    forall o | o in w'.workers ensures FinalPc(net, w', w'.workers[o]) {
      if w'.workers[o].InEvent? { assert FinalPc(net, w, w.workers[o]); }
    }
  }

  lemma FinalStep(net: Network, w: World, step: Step)
    requires Inv(net, w) && FinalInv(net, w) && Shallow(net, step)
    ensures FinalInv(net, Next(net, w, step))
  {
    match step
    case Chain(op) => if Honest(w, op) { FinalChain(net, w, op); }
    case Advance(worker, funding) => FinalAdvance(net, w, worker, funding);
    case _ => FinalQuiet(net, w, step);
  }

  lemma NextFinal(net: Network, states: seq<World>, steps: seq<Step>, k: nat)
    requires Run(net, states, steps) && k < |steps| && Shallow(net, steps[k]) && FinalInv(net, states[k])
    ensures FinalInv(net, states[k + 1])
  {
    RunHolds(net, states, steps, k);
    FinalStep(net, states[k], steps[k]);
  }

  lemma {:induction false} FinalHolds(net: Network, states: seq<World>, steps: seq<Step>, k: nat)
    requires Run(net, states, steps) && k < |states|
    requires forall i :: 0 <= i < |steps| ==> Shallow(net, steps[i])
    ensures FinalInv(net, states[k])
    decreases k
  {
    if k > 0 {
      FinalHolds(net, states, steps, k - 1);
      NextFinal(net, states, steps, k - 1);
    }
  }

  /**
   * If every reorganization is shallower than the finality bound, then in every reachable state each credited order
   * deposit is in the canonical block it was recorded with, under at least that many confirmations, even though the
   * head, the receipt and the block hash were read at different moments with the chain moving in between.
   */
  lemma CreditedStaysCanonical(net: Network, states: seq<World>, steps: seq<Step>, k: nat, key: Key)
    requires Run(net, states, steps) && k < |states|
    requires forall i :: 0 <= i < |steps| ==> Shallow(net, steps[i])
    requires key in states[k].books.deposits
    requires states[k].books.deposits[key].status == CreditedRow && states[k].books.deposits[key].intent.Some?
    ensures var blocks, row := states[k].sim.blocks, states[k].books.deposits[key];
            && row.blockNumber < |blocks| && blocks[row.blockNumber].hash == row.blockHash
            && row.blockNumber + net.finality <= |blocks|
            && exists r ::
                 && r in blocks[row.blockNumber].receipts && r.txHash == key.tx && key.logIndex < |r.logs|
                 && r.logs[key.logIndex] == Entry(net.settlement, Some(row.funded))
  {
    var w, row := states[k], states[k].books.deposits[key];
    FinalHolds(net, states, steps, k);
    RunHolds(net, states, steps, k);
    assert Buried(net, w, row.blockNumber, row.blockHash);
    assert SeenAt(w, row.blockNumber, row.blockHash, key.tx);
    var b :| b in w.minted && b.number == row.blockNumber && b.hash == row.blockHash && HasTx(b, key.tx);
    assert w.sim.blocks[row.blockNumber] in w.sim.blocks;
    assert b == w.sim.blocks[row.blockNumber];
    var r :| r in b.receipts && r.txHash == key.tx;
    assert RowSound(net, w.txs, w.books, key);
    assert w.txs[key.tx] == Body(r.success, r.logs);
  }
}
