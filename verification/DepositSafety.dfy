/**
 * What holds in every reachable state of chain and deposit service together: the books never exceed the chain, no
 * deposit below the checkpoint is missed, and a credited order deposit stays on the canonical chain.
 */
module DepositSafety {
  import opened Common
  import opened MapSums
  import opened SimChain
  import opened EscrowRules
  import opened EscrowAwait
  import opened AwaitBooks
  import opened AwaitRuns
  import opened DepositRules
  import opened DepositBooks
  import opened DepositWorld

  // ------------------------------------------------------------------------------------------------------------
  // Money: what was emitted to a bucket, what was credited from it

  predicate EmitsTo(net: Network, txs: Txs, k: Key, e: EscrowRef)
  {
    && k.tx in txs && k.logIndex < |txs[k.tx].logs|
    && IsSettlementLog(txs[k.tx].logs[k.logIndex], net.settlement)
    && txs[k.tx].logs[k.logIndex].funded.value.escrowRef == e
  }

  ghost function KeysOf(txs: Txs): set<Key>
  {
    set t, i | t in txs && 0 <= i < |txs[t].logs| :: Key(t, i)
  }

  /**
   * The amounts of all `Funded` events ever emitted for a bucket by the settlement contract, one per event identity.
   */
  ghost function EmittedFor(net: Network, txs: Txs, e: EscrowRef): map<Key, nat>
  {
    map k | k in KeysOf(txs) && EmitsTo(net, txs, k, e) :: txs[k.tx].logs[k.logIndex].funded.value.amount
  }

  /** The amounts credited in the books to deposits of a bucket. */
  ghost function CreditedOf(b: Books, e: EscrowRef): map<Key, nat>
  {
    map k | k in b.deposits && b.deposits[k].status == CreditedRow && b.deposits[k].funded.escrowRef == e ::
        b.deposits[k].funded.amount
  }

  ghost predicate MoneyInv(net: Network, w: World)
  {
    Kept(DevnetOf(w)) && forall e :: Sum(EmittedFor(net, w.txs, e)) <= Taken(w.flight, e)
  }

  /** `n` logs of one transaction with the same amount. */
  ghost function Copies(tx: Hash, n: nat, amount: nat): (m: map<Key, nat>)
    ensures forall k :: k in m <==> k.tx == tx && k.logIndex < n
    ensures forall k :: k in m ==> m[k] == amount
  {
    map i | 0 <= i < n :: Key(tx, i) := amount
  }

  lemma OneMoreCopy(m: map<Key, nat>, tx: Hash, n: nat, amount: nat)
    requires n > 0
    ensures m + Copies(tx, n, amount) == (m + Copies(tx, n - 1, amount))[Key(tx, n - 1) := amount]
  {
  }

  lemma SumOneMore(m: map<Key, nat>, tx: Hash, n: nat, amount: nat)
    requires n > 0 && forall k :: k in m ==> k.tx != tx
    ensures Sum(m + Copies(tx, n, amount)) == Sum(m + Copies(tx, n - 1, amount)) + amount
  {
    OneMoreCopy(m, tx, n, amount);
    SumAdd(m + Copies(tx, n - 1, amount), Key(tx, n - 1), amount);
  }

  lemma {:induction false} SumOfCopies(m: map<Key, nat>, tx: Hash, n: nat, amount: nat)
    requires forall k :: k in m ==> k.tx != tx
    ensures Sum(m + Copies(tx, n, amount)) == Sum(m) + n * amount
  {
    if n == 0 {
      assert m + Copies(tx, n, amount) == m;
    } else {
      SumOfCopies(m, tx, n - 1, amount);
      SumOneMore(m, tx, n, amount);
      assert n * amount == (n - 1) * amount + amount;
    }
  }

  lemma InEmitted(net: Network, txs: Txs, e: EscrowRef, k: Key)
    ensures k in EmittedFor(net, txs, e) <==> EmitsTo(net, txs, k, e)
    ensures EmitsTo(net, txs, k, e) ==> EmittedFor(net, txs, e)[k] == txs[k.tx].logs[k.logIndex].funded.value.amount
  {
    if EmitsTo(net, txs, k, e) { assert Key(k.tx, k.logIndex) in KeysOf(txs); }
  }

  predicate Credits(net: Network, input: DepositInput, e: EscrowRef)
  {
    !input.reverted && input.emitter == net.settlement && input.funded.escrowRef == e
  }

  ghost function NewCopies(net: Network, tx: Hash, input: DepositInput, e: EscrowRef): map<Key, nat>
  {
    if Credits(net, input, e) then Copies(tx, 1 + input.duplicateLogs, input.funded.amount) else map[]
  }

  lemma EmittedAtKey(net: Network, txs: Txs, tx: Hash, input: DepositInput, e: EscrowRef, k: Key)
    requires tx !in txs
    ensures var txs' := txs[tx := Body(!input.reverted, DepositLogs(input))];
            && (EmitsTo(net, txs', k, e) <==> EmitsTo(net, txs, k, e) || k in NewCopies(net, tx, input, e))
            && (EmitsTo(net, txs, k, e) ==> k.tx != tx && txs'[k.tx] == txs[k.tx])
            && (k in NewCopies(net, tx, input, e) ==>
                txs'[k.tx].logs[k.logIndex].funded.value.amount == input.funded.amount)
  {
  }

  lemma EmittedGrows(net: Network, txs: Txs, tx: Hash, input: DepositInput, e: EscrowRef)
    requires tx !in txs
    ensures EmittedFor(net, txs[tx := Body(!input.reverted, DepositLogs(input))], e) ==
        EmittedFor(net, txs, e) + NewCopies(net, tx, input, e)
  {
    var txs' := txs[tx := Body(!input.reverted, DepositLogs(input))];
    var before, after, added := EmittedFor(net, txs, e), EmittedFor(net, txs', e), NewCopies(net, tx, input, e);
    forall k
      ensures Joins(before, added, after, k)
    {
      EmittedHere(net, txs, tx, input, e, k);
    }
    JoinedMaps(before, added, after);
  }

  predicate Joins(before: map<Key, nat>, added: map<Key, nat>, after: map<Key, nat>, k: Key)
  {
    && (k in after <==> k in before || k in added)
    && (k in before ==> k !in added && after[k] == before[k])
    && (k in added ==> after[k] == added[k])
  }

  lemma JoinedMaps(before: map<Key, nat>, added: map<Key, nat>, after: map<Key, nat>)
    requires forall k :: Joins(before, added, after, k)
    ensures after == before + added
  {
    forall k
      ensures k in after <==> k in before + added
      ensures k in after ==> after[k] == (before + added)[k]
    {
      assert Joins(before, added, after, k);
    }
  }

  lemma EmittedHere(net: Network, txs: Txs, tx: Hash, input: DepositInput, e: EscrowRef, k: Key)
    requires tx !in txs
    ensures var before, added := EmittedFor(net, txs, e), NewCopies(net, tx, input, e);
            var after := EmittedFor(net, txs[tx := Body(!input.reverted, DepositLogs(input))], e);
            Joins(before, added, after, k)
  {
    EmittedAtKey(net, txs, tx, input, e, k);
    InEmitted(net, txs, e, k);
    InEmitted(net, txs[tx := Body(!input.reverted, DepositLogs(input))], e, k);
  }

  lemma NoneEmittedYet(net: Network, txs: Txs, tx: Hash, e: EscrowRef)
    requires tx !in txs
    ensures forall k :: k in EmittedFor(net, txs, e) ==> k.tx != tx
  {
    forall k | k in EmittedFor(net, txs, e) ensures k.tx != tx { InEmitted(net, txs, e, k); }
  }

  lemma NewCopiesSum(net: Network, m: map<Key, nat>, tx: Hash, input: DepositInput, e: EscrowRef)
    requires forall k :: k in m ==> k.tx != tx
    ensures Sum(m + NewCopies(net, tx, input, e)) == Sum(m) + if Credits(net, input, e)
        then (1 + input.duplicateLogs) * input.funded.amount else 0
  {
    if Credits(net, input, e) {
      SumOfCopies(m, tx, 1 + input.duplicateLogs, input.funded.amount);
    } else {
      assert m + map[] == m;
    }
  }

  lemma NewEmissionSum(net: Network, txs: Txs, tx: Hash, input: DepositInput, e: EscrowRef)
    requires tx !in txs
    ensures Sum(EmittedFor(net, txs[tx := Body(!input.reverted, DepositLogs(input))], e))
         == Sum(EmittedFor(net, txs, e)) + if Credits(net, input, e)
             then (1 + input.duplicateLogs) * input.funded.amount else 0
  {
    EmittedGrows(net, txs, tx, input, e);
    NoneEmittedYet(net, txs, tx, e);
    NewCopiesSum(net, EmittedFor(net, txs, e), tx, input, e);
  }

  lemma DepositMoney(net: Network, c: Devnet, txs: Txs, input: DepositInput, e: EscrowRef)
    requires c.sim.settlement == Some(net.settlement) && Sum(EmittedFor(net, txs, e)) <= Taken(c.flight, e)
    requires var tx, body := DepositTx(c.sim, input), Body(!input.reverted, DepositLogs(input)); tx in txs ==>
        txs[tx] == body
    ensures var tx, body := DepositTx(c.sim, input), Body(!input.reverted, DepositLogs(input));
            var after := NoteDeposit(c.flight, input.funded.escrowRef, CreditOf(c.sim, input));
            && Sum(EmittedFor(net, txs[tx := body], e)) <= Taken(after, e)
            && (tx !in txs && Sum(EmittedFor(net, txs, e)) == Taken(c.flight, e) ==>
                  Sum(EmittedFor(net, txs[tx := body], e)) == Taken(after, e))
  {
    var tx, body := DepositTx(c.sim, input), Body(!input.reverted, DepositLogs(input));
    DepositNoted(c.flight, input.funded.escrowRef, CreditOf(c.sim, input));
    assert input.funded.amount * (1 + input.duplicateLogs) == (1 + input.duplicateLogs) * input.funded.amount >= 0;
    if tx in txs {
      assert txs[tx := body] == txs;
    } else {
      NewEmissionSum(net, txs, tx, input, e);
    }
  }

  lemma OnlyDepositsTake(c: Devnet, op: ChainOp)
    requires Kept(c) && !op.DepositOp?
    ensures Apply(c, op).flight.taken == c.flight.taken
  {
    match op
    case Finish(id, auth) => if id in c.flight.calls { FinishTakesNothing(c, id, auth); }
    case FinishRelease(auth) => if c.flight.batch.Some? { ReleaseTakesNothing(c, auth); }
    case _ =>
  }

  lemma ChainMoney(net: Network, w: World, op: ChainOp)
    requires ChainInv(net, w) && MoneyInv(net, w) && Honest(w, op)
    ensures MoneyInv(net, ChainStep(w, op))
  {
    var w' := ChainStep(w, op);
    AwaitBooks.StepKeeps(DevnetOf(w), op);
    forall e ensures Sum(EmittedFor(net, w'.txs, e)) <= Taken(w'.flight, e) {
      if op.DepositOp? {
        DepositMoney(net, DevnetOf(w), w.txs, op.input, e);
      } else {
        OnlyDepositsTake(DevnetOf(w), op);
      }
    }
  }

  /**
   * The credits of a bucket never exceed what it was ever credited on chain, and it never paid out more than it holds.
   */
  lemma BooksWithinChain(net: Network, w: World, e: EscrowRef)
    requires MoneyInv(net, w) && RowsSound(net, w.txs, w.books)
    ensures Sum(CreditedOf(w.books, e)) <= Sum(EmittedFor(net, w.txs, e)) <= Taken(w.flight, e)
    ensures e in w.sim.buckets ==> w.sim.buckets[e].released + w.sim.buckets[e].refunded <= w.sim.buckets[e].deposited
  {
    var part, whole := CreditedOf(w.books, e), EmittedFor(net, w.txs, e);
    forall k | k in part ensures k in whole && whole[k] == part[k] {
      assert RowSound(net, w.txs, w.books, k);
      assert Key(k.tx, k.logIndex) in KeysOf(w.txs);
    }
    SumSubmap(part, whole);
    assert e in w.sim.buckets ==> Fits(w.sim.buckets[e]);
  }

  // ------------------------------------------------------------------------------------------------------------
  // Coverage: no deposit below the checkpoint is missed

  ghost predicate HasTx(b: Block, tx: Hash) { exists r :: r in b.receipts && r.txHash == tx }

  /** Every settlement event of the transaction has a row, or is among the events still to be processed. */
  ghost predicate RowsOr(net: Network, w: World, tx: Hash, events: seq<Event>)
  {
    tx in w.txs ==> forall i :: 0 <= i < |w.txs[tx].logs| && IsSettlementLog(w.txs[tx].logs[i], net.settlement)
                                ==> Key(tx, i) in w.books.deposits || exists e :: e in events && e.key == Key(tx, i)
  }

  /** In canonical blocks 0..to, every settlement event has a row, up to the given transactions and events. */
  ghost predicate CoveredTo(net: Network, w: World, to: nat, todo: seq<Hash>, events: seq<Event>)
  {
    && to < |w.sim.blocks|
    && forall n, r :: 0 <= n <= to && r in w.sim.blocks[n].receipts && r.txHash !in todo ==>
        RowsOr(net, w, r.txHash, events)
  }

  ghost predicate CheckpointInv(net: Network, w: World)
  {
    w.books.checkpoint.Some? ==> CoveredTo(net, w, w.books.checkpoint.value, [], [])
  }

  /** A block that contained the transaction was once mined at this height with this hash. */
  ghost predicate SeenAt(w: World, number: nat, hash: Hash, tx: Hash)
  {
    exists b :: b in w.minted && b.number == number && b.hash == hash && HasTx(b, tx)
  }

  ghost predicate EventSeen(net: Network, w: World, ev: Event)
  {
    EventKnown(net, w.txs, ev) && SeenAt(w, ev.blockNumber, ev.blockHash, ev.key.tx)
  }

  ghost predicate EventsSeen(net: Network, w: World, events: seq<Event>)
  {
    forall e :: e in events ==> EventSeen(net, w, e)
  }

  ghost predicate JobInv(net: Network, w: World, job: Job, next: seq<Hash>, events: seq<Event>)
  {
    job.ScanJob? ==> CoveredTo(net, w, job.to, next + job.todo, events)
  }

  ghost predicate PcInv(net: Network, w: World, pc: Pc)
  {
    match pc
    case Idle => true
    case GotHead(head, _) => head < |w.sim.blocks|
    case GotRange(from, to) =>
        to < |w.sim.blocks| && (from > 0 ==> from - 1 < |w.sim.blocks| && CoveredTo(net, w, from - 1, [], []))
    case Loop(job) => JobInv(net, w, job, [], [])
    case Lost(_, _) => true
    case WantReceipt(job, tx) => JobInv(net, w, job, [tx], [])
    case WantHead(job, events) => JobInv(net, w, job, [], events) && EventsSeen(net, w, events)
    case InEvents(job, events, head) =>
        JobInv(net, w, job, [], events) && EventsSeen(net, w, events) && head < |w.sim.blocks|
    case InEvent(job, event, rest, head, _) =>
      && JobInv(net, w, job, [], [event] + rest) && EventSeen(net, w, event) && EventsSeen(net, w, rest)
      && head < |w.sim.blocks|
  }

  /** Every row was made from a log in a block that once existed. */
  ghost predicate RowsSeen(w: World)
  {
    forall k :: k in w.books.deposits ==>
        SeenAt(w, w.books.deposits[k].blockNumber, w.books.deposits[k].blockHash, k.tx)
  }

  ghost predicate Inv(net: Network, w: World)
  {
    && ChainInv(net, w) && MoneyInv(net, w) && BooksInv(net, w.txs, w.books)
    && CheckpointInv(net, w) && RowsSeen(w)
    && forall worker :: worker in w.workers ==> PcInv(net, w, w.workers[worker])
  }

  /** What any step does to the facts that workers rely on. */
  ghost predicate Onward(w: World, w': World)
  {
    && |w.sim.blocks| <= |w'.sim.blocks|
    && (forall n :: 0 <= n < |w.sim.blocks| ==> w'.sim.blocks[n] == w.sim.blocks[n] || w'.sim.blocks[n].receipts == [])
    && w.minted <= w'.minted
    && (forall t :: t in w.txs ==> t in w'.txs && w'.txs[t] == w.txs[t])
    && w.books.deposits.Keys <= w'.books.deposits.Keys
  }

  lemma RowsOrOnward(net: Network, w: World, w': World, tx: Hash, events: seq<Event>)
    requires Onward(w, w') && tx in w.txs && RowsOr(net, w, tx, events)
    ensures RowsOr(net, w', tx, events)
  {
  }

  lemma CoveredOnward(net: Network, w: World, w': World, to: nat, todo: seq<Hash>, events: seq<Event>)
    requires ChainInv(net, w) && Onward(w, w') && CoveredTo(net, w, to, todo, events)
    ensures CoveredTo(net, w', to, todo, events)
  {
    forall n, r | 0 <= n <= to && r in w'.sim.blocks[n].receipts && r.txHash !in todo
      ensures RowsOr(net, w', r.txHash, events)
    {
      assert w'.sim.blocks[n] == w.sim.blocks[n];
      assert w.sim.blocks[n] in w.sim.blocks;
      RowsOrOnward(net, w, w', r.txHash, events);
    }
  }

  lemma SeenOnward(w: World, w': World, number: nat, hash: Hash, tx: Hash)
    requires Onward(w, w') && SeenAt(w, number, hash, tx)
    ensures SeenAt(w', number, hash, tx)
  {
  }

  lemma EventsOnward(net: Network, w: World, w': World, events: seq<Event>)
    requires Onward(w, w') && EventsSeen(net, w, events)
    ensures EventsSeen(net, w', events)
  {
    forall e | e in events ensures EventSeen(net, w', e) {
      assert EventSeen(net, w, e);
      SeenOnward(w, w', e.blockNumber, e.blockHash, e.key.tx);
    }
  }

  lemma JobOnward(net: Network, w: World, w': World, job: Job, next: seq<Hash>, events: seq<Event>)
    requires ChainInv(net, w) && Onward(w, w') && JobInv(net, w, job, next, events)
    ensures JobInv(net, w', job, next, events)
  {
    if job.ScanJob? { CoveredOnward(net, w, w', job.to, next + job.todo, events); }
  }

  /** What a worker has established survives whatever the chain, the buyers and the other workers do. */
  lemma PcOnward(net: Network, w: World, w': World, pc: Pc)
    requires ChainInv(net, w) && Onward(w, w') && PcInv(net, w, pc)
    ensures PcInv(net, w', pc)
  {
    match pc
    case GotRange(from, to) => if from > 0 { CoveredOnward(net, w, w', from - 1, [], []); }
    case Loop(job) => JobOnward(net, w, w', job, [], []);
    case WantReceipt(job, tx) => JobOnward(net, w, w', job, [tx], []);
    case WantHead(job, events) => JobOnward(net, w, w', job, [], events); EventsOnward(net, w, w', events);
    case InEvents(job, events, head) => JobOnward(net, w, w', job, [], events); EventsOnward(net, w, w', events);
    case InEvent(job, event, rest, head, read) =>
      JobOnward(net, w, w', job, [], [event] + rest);
      EventsOnward(net, w, w', [event]);
      EventsOnward(net, w, w', rest);
      assert event in [event];
    case _ =>
  }

  lemma OthersOnward(net: Network, w: World, w': World, worker: nat)
    requires Inv(net, w) && Onward(w, w') && PcInv(net, w', PcOf(w', worker))
    requires forall o :: o in w'.workers && o != worker ==> o in w.workers && w'.workers[o] == w.workers[o]
    ensures forall o :: o in w'.workers ==> PcInv(net, w', w'.workers[o])
  {
    forall o | o in w'.workers ensures PcInv(net, w', w'.workers[o]) {
      if o != worker { PcOnward(net, w, w', w.workers[o]); }
    }
  }
}
