/**
 * The deposit service as it is written (src/modules/crypto/deposits.ts, commands.ts): tables updated statement by
 * statement inside one transaction, and the verify, scan and recheck loops, which run while everyone else keeps going.
 */
module DepositService {
  import opened Common
  import opened SimChain
  import opened DepositRules
  import opened DepositBooks
  import opened DepositWorld
  import opened DepositSafety
  import opened DepositTheorems
  import Registry

  /** The tables. Each method is one transaction, or a part of one. */
  class Tables {
    var deposits: map<Key, Row>
    var intents: seq<Intent>
    var poolIntents: seq<PoolIntent>
    var fundings: seq<FundingCall>
    var poolMoves: seq<PoolMove>
    var cases: seq<Case>
    var checkpoint: Option<nat>

    function State(): Books
      reads this
    {
      Books(deposits, intents, poolIntents, fundings, poolMoves, cases, checkpoint)
    }

    constructor ()
      ensures State() == EMPTY_BOOKS
    {
      deposits, intents, poolIntents, fundings, poolMoves, cases, checkpoint := map[], [], [], [], [], [], None;
    }

    method Reject(ev: Event, intent: Option<nat>, asset: Option<nat>, reason: Reason) returns (r: DepositResult)
      requires intent.Some? ==> intent.value < |intents|
      modifies this
      ensures Done(State(), r) == RecordRejection(old(State()), ev, intent, asset, reason)
    {
      var recorded := ev.key !in deposits;
      if recorded {
        deposits := deposits[ev.key := NewRow(ev, asset, intent, None, RejectedRow, Some(reason))];
      }
      if intent.Some? {
        var row := intents[intent.value];
        if row.status == AwaitingDeposit || row.status == PendingFinality {
          intents := intents[intent.value := row.(status := Exceptional)];
        }
        cases := cases + [OrderCase(row.order, reason, ev.key)];
      } else if recorded {
        cases := cases + [UnmatchedCase(reason, ev.key)];
      }
      r := DepositResult(Rejected, Some(reason), ev.key.logIndex);
    }

    method RejectPoolDeposit(ev: Event, p: nat, asset: nat, reason: Reason) returns (r: DepositResult)
      requires p < |poolIntents|
      modifies this
      ensures Done(State(), r) == RejectPool(old(State()), ev, p, asset, reason)
    {
      if ev.key !in deposits {
        deposits := deposits[ev.key := NewRow(ev, Some(asset), None, Some(p), RejectedRow, Some(reason))];
      }
      var row := poolIntents[p];
      if row.status == AwaitingDeposit || row.status == PendingFinality {
        poolIntents := poolIntents[p := row.(status := Exceptional)];
      }
      cases := cases + [PoolCase(row.pool, reason, ev.key)];
      r := DepositResult(Rejected, Some(reason), ev.key.logIndex);
    }

    /** None is a thrown error: the transaction rolls back. */
    method ProcessOrderDeposit(net: Network, ev: Event, head: nat, read: HashRead, funding: FundingResult, i: nat,
        asset: nat)
      returns (r: Option<DepositResult>)
      requires i < |intents| && asset in net.assets
      modifies this
      ensures match ProcessOrder(net, old(State()), ev, head, read, funding, i, asset)
              case Threw => r.None? && State() == old(State())
              case Done(after, result) => r == Some(result) && State() == after
    {
      var intent := intents[i];
      if intent.asset !in net.assets { return None; }
      var objection := OrderObjection(net, State(), ev, i, asset);
      if objection.Some? {
        var refused := Reject(ev, Some(i), Some(asset), objection.value);
        return Some(refused);
      }
      if read.Down? { return None; }
      var confirmations := head - ev.blockNumber + 1;
      if read.hash != Some(ev.blockHash) || confirmations < net.finality {
        if ev.key in deposits {
          deposits := deposits[ev.key := deposits[ev.key].(blockNumber := ev.blockNumber, blockHash := ev.blockHash)];
        } else {
          deposits := deposits[ev.key := NewRow(ev, Some(asset), Some(i), None, PendingRow, None)];
        }
        if intent.status == AwaitingDeposit {
          intents := intents[i := intent.(status := PendingFinality)];
        }
        return Some(DepositResult(Pending, None, ev.key.logIndex));
      }
      r := CreditDeposit(net, ev, funding, i, asset);
    }

    method CreditDeposit(net: Network, ev: Event, funding: FundingResult, i: nat, asset: nat)
        returns (r: Option<DepositResult>)
      requires i < |intents| && asset in net.assets
      modifies this
      ensures match CreditOrder(net, old(State()), ev, i, asset, funding)
              case Threw => r.None? && State() == old(State())
              case Done(after, result) => r == Some(result) && State() == after
    {
      var decimals := net.assets[asset].decimals;
      if decimals < 2 { return None; }
      var amountMinor := Registry.AtomicToUsdMinor(ev.funded.amount, decimals);
      if amountMinor.None? {
        var refused := Reject(ev, Some(i), Some(asset), NotCentExact);
        return Some(refused);
      }
      if funding == FundedOrder && ConfirmedElsewhere(State(), i) { return None; }
      fundings := fundings + [FundingCall(ev.key, i, amountMinor.value, ev.funded.amount)];
      if ev.key in deposits {
        deposits := deposits[ev.key := deposits[ev.key].(status := CreditedRow, asset := Some(asset), intent := Some(i),
                                                         blockNumber := ev.blockNumber, blockHash := ev.blockHash)];
      } else {
        deposits := deposits[ev.key := NewRow(ev, Some(asset), Some(i), None, CreditedRow, None)];
      }
      intents := intents[i := intents[i].(status := if funding == FundedOrder then Confirmed else Exceptional)];
      return Some(DepositResult(Credited, None, ev.key.logIndex));
    }

    method ProcessPoolDeposit(net: Network, ev: Event, head: nat, read: HashRead, p: nat, asset: nat)
        returns (r: Option<DepositResult>)
      requires p < |poolIntents|
      modifies this
      ensures match ProcessPool(net, old(State()), ev, head, read, p, asset)
              case Threw => r.None? && State() == old(State())
              case Done(after, result) => r == Some(result) && State() == after
    {
      var objection := PoolObjection(net, State(), ev, p, asset);
      if objection.Some? {
        var refused := RejectPoolDeposit(ev, p, asset, objection.value);
        return Some(refused);
      }
      if read.Down? { return None; }
      var confirmations := head - ev.blockNumber + 1;
      if read.hash != Some(ev.blockHash) || confirmations < net.finality {
        if ev.key !in deposits {
          deposits := deposits[ev.key := NewRow(ev, Some(asset), None, Some(p), PendingRow, None)];
        }
        if poolIntents[p].status == AwaitingDeposit {
          poolIntents := poolIntents[p := poolIntents[p].(status := PendingFinality)];
        }
        return Some(DepositResult(Pending, None, ev.key.logIndex));
      }
      if ev.funded.amount == 0 { return None; }
      poolMoves := poolMoves + [PoolMove(ev.key, p, ev.funded.amount)];
      if ev.key in deposits {
        deposits := deposits[ev.key := deposits[ev.key].(status := CreditedRow, asset := Some(asset),
            poolIntent := Some(p))];
      } else {
        deposits := deposits[ev.key := NewRow(ev, Some(asset), None, Some(p), CreditedRow, None)];
      }
      poolIntents := poolIntents[p := poolIntents[p].(status := Confirmed)];
      return Some(DepositResult(Credited, None, ev.key.logIndex));
    }

    method ProcessOne(net: Network, ev: Event, head: nat, read: HashRead, funding: FundingResult)
        returns (r: Option<DepositResult>)
      modifies this
      ensures match ProcessEvent(net, old(State()), ev, head, read, funding)
              case Threw => r.None? && State() == old(State())
              case Done(after, result) => r == Some(result) && State() == after
    {
      var intent := FindIntent(State(), ev.funded.reference);
      if ev.key in deposits && deposits[ev.key].status != PendingRow {
        var row := deposits[ev.key];
        return Some(DepositResult(TerminalStatus(row.status), row.reason, ev.key.logIndex));
      }
      var asset := AssetForToken(net, ev.funded.token);
      if asset.None? || !net.assets[asset.value].allowlisted {
        var refused := Reject(ev, intent, asset, UnsupportedAsset);
        return Some(refused);
      }
      if intent.None? {
        var pool := FindPoolIntent(State(), ev.funded.reference);
        if pool.Some? {
          r := ProcessPoolDeposit(net, ev, head, read, pool.value, asset.value);
        } else {
          var refused := Reject(ev, None, asset, UnknownReference);
          r := Some(refused);
        }
      } else {
        r := ProcessOrderDeposit(net, ev, head, read, funding, intent.value, asset.value);
      }
    }

    method MarkLost(key: Key)
      modifies this
      ensures State() == MarkReorged(old(State()), key)
    {
      if key in deposits && deposits[key].status == PendingRow {
        var row := deposits[key];
        deposits := deposits[key := row.(status := ReorgedRow, reason := Some(NoLongerCanonical))];
        if row.intent.Some? && row.intent.value < |intents| && intents[row.intent.value].status == PendingFinality {
          intents := intents[row.intent.value := intents[row.intent.value].(status := AwaitingDeposit)];
        }
        if row.poolIntent.Some? && row.poolIntent.value < |poolIntents| {
          var p := row.poolIntent.value;
          if poolIntents[p].status == PendingFinality {
            poolIntents := poolIntents[p := poolIntents[p].(status := AwaitingDeposit)];
          }
        }
      }
    }

    method CreateCryptoPayment(net: Network, order: OrderView, asset: nat, payer: Option<Address>)
        returns (r: Result<nat, PaymentError>)
      modifies this
      ensures match CreatePayment(net, old(State()), order, asset, payer)
              case Ok(made) => r == Ok(made.1) && State() == made.0
              case Err(e) => r == Err(e) && State() == old(State())
    {
      if !order.awaitingPayment || order.paid { return Err(OrderStateConflict); }
      if !order.usd { return Err(UnsupportedAssetError); }
      if !order.held { return Err(SlotExpired); }
      if order.cardAttempt { return Err(OrderStateConflict); }
      if asset !in net.assets || !net.assets[asset].usdPegged || !net.assets[asset].allowlisted {
        return Err(UnsupportedAssetError);
      }
      FirstOpenSound(intents, order.id);
      var open := FirstOpen(intents, order.id);
      var chain := net.assets[asset].chainId;
      if open.Some? {
        var row := intents[open.value];
        if row.status == PendingFinality { return Err(OrderStateConflict); }
        if row.chainId == chain && row.asset == asset && row.payer == payer { return Ok(open.value); }
      }
      if net.assets[asset].decimals < 2 { return Err(FeatureDisabled); }
      if open.Some? {
        intents := intents[open.value := intents[open.value].(status := Cancelled)];
      }
      var amount := Registry.UsdMinorToAtomic(order.amountMinor, net.assets[asset].decimals);
      r := Ok(|intents|);
      intents := intents + [Intent(order.id, chain, asset, amount, payer, order.amountMinor, AwaitingDeposit)];
    }
  }

  // ------------------------------------------------------------------------------------------------------------
  // The loops

  /** What the receipt of a transaction says when it is read. */
  function Decoded(net: Network, s: Sim, tx: Hash): seq<Event>
  {
    var receipt := FindReceipt(s.blocks, tx);
    if receipt.None? || !receipt.value.success then [] else DecodeFrom(receipt.value, net.settlement, 0)
  }

  predicate HaveRows(b: Books, events: seq<Event>) { forall e :: e in events ==> e.key in b.deposits }

  /** Every settlement log of the transaction has its row. */
  predicate LogsHaveRows(net: Network, s: Sim, tx: Hash, b: Books)
  {
    var receipt := FindReceipt(s.blocks, tx);
    receipt.Some? && receipt.value.success ==>
      forall j :: 0 <= j < |receipt.value.logs| && IsSettlementLog(receipt.value.logs[j], net.settlement) ==>
          Key(tx, j) in b.deposits
  }

  lemma DecodedAll(net: Network, s: Sim, tx: Hash, b: Books)
    requires HaveRows(b, Decoded(net, s, tx))
    ensures LogsHaveRows(net, s, tx, b)
  {
    var receipt := FindReceipt(s.blocks, tx);
    if receipt.Some? && receipt.value.success {
      FindReceiptSound(s.blocks, tx);
      DecodeExact(receipt.value, net.settlement, 0);
    }
  }

  /** The checkpoint moves forward, rows stay, and a row that is settled stays as it is. */
  predicate Later(a: Books, b: Books)
  {
    && (a.checkpoint.Some? ==> b.checkpoint.Some? && a.checkpoint.value <= b.checkpoint.value)
    && forall k :: k in a.deposits ==>
        k in b.deposits && (a.deposits[k].status != PendingRow ==> b.deposits[k] == a.deposits[k])
  }

  predicate Settled(b: Books, key: Key) { key in b.deposits && b.deposits[key].status != PendingRow }

  predicate Same(a: World, b: World) { a == b }

  /** The invariant, which the solver opens only where a proof compares a world with this one. */
  ghost predicate Safe(net: Network, w: World) { forall v {:trigger Same(v, w)} :: Same(v, w) ==> Inv(net, v) }

  lemma SafeMeansInv(net: Network, w: World)
    ensures Safe(net, w) <==> Inv(net, w)
  {
    assert Same(w, w);
  }

  lemma SafeIsNotEmpty(net: Network, w: World)
    requires Safe(net, w)
    ensures w.sim.blocks != []
  {
    SafeMeansInv(net, w);
  }

  lemma StepSafe(net: Network, w: World, step: Step)
    requires Safe(net, w) && w.sim.blocks != []
    ensures Safe(net, Next(net, w, step)) && Later(w.books, Next(net, w, step).books)
  {
    SafeMeansInv(net, w);
    SafeMeansInv(net, Next(net, w, step));
    StepKeeps(net, w, step);
    StepGrows(net, w, step);
  }

  /** A worker that has verified everything in its range is about to write the checkpoint. */
  predicate Saves(pc: Pc) { pc.Loop? && pc.job.ScanJob? && pc.job.todo == [] }

  /** Where a worker's own step can lead it, and what the books say from then on. */
  predicate Leads(net: Network, w: World, from: Pc, to: Pc, books: Books)
  {
    match from
    case Idle => to == Idle
    case GotHead(head, maxBlocks) =>
      var first := if w.books.checkpoint.Some? then w.books.checkpoint.value + 1 else 0;
      if first > head then to == Idle && books.checkpoint.Some? && books.checkpoint.value >= head
      else to == GotRange(first, if maxBlocks > 0 && first + maxBlocks <= head then first + maxBlocks - 1 else head)
    case GotRange(first, last) =>
      to == if w.sim.offline then Idle
            else Loop(ScanJob(last, LogHashes(w.sim.blocks, net.settlement, first, last, [])))
    case Loop(job) =>
      (match job
       case Hint => to == Idle
       case ScanJob(bound, todo) =>
         if todo == [] then to == Idle && books.checkpoint.Some? && books.checkpoint.value >= bound
         else to == WantReceipt(ScanJob(bound, todo[1..]), todo[0])
       case RecheckJob(keys) =>
         to == if keys == [] || w.sim.offline then Idle
               else if FindReceipt(w.sim.blocks, keys[0].tx).None? then Lost(keys[0], keys[1..])
               else WantReceipt(RecheckJob(keys[1..]), keys[0].tx))
    case Lost(key, keys) => to == Loop(RecheckJob(keys)) && (key in w.books.deposits ==> Settled(books, key))
    case WantReceipt(job, tx) =>
      to == if w.sim.offline then Idle
            else if Decoded(net, w.sim, tx) == [] then Loop(job) else WantHead(job, Decoded(net, w.sim, tx))
    case WantHead(job, events) =>
      to == if w.sim.offline || w.sim.blocks == [] then Idle
            else InEvents(job, events, w.sim.blocks[|w.sim.blocks| - 1].number)
    case InEvents(job, events, head) =>
      to == if events == [] then Loop(job)
            else InEvent(job, events[0], events[1..], head,
                         if w.sim.offline then Down else Answer(BlockHashAt(w.sim.blocks, events[0].blockNumber)))
    case InEvent(job, event, rest, head, _) =>
        to == Idle || (to == InEvents(job, rest, head) && event.key in books.deposits)
  }

  lemma LeadsOn(net: Network, w: World, from: Pc, to: Pc, a: Books, b: Books)
    requires Leads(net, w, from, to, a) && Later(a, b)
    ensures Leads(net, w, from, to, b)
  {
  }

  lemma WhereNext(net: Network, w: World, me: nat, f: FundingResult)
    requires w.sim.blocks != []
    ensures var w' := AdvanceWorker(net, w, me, f);
            Leads(net, w, PcOf(w, me), PcOf(w', me), w'.books)
            && (!Saves(PcOf(w, me)) ==> w'.books.checkpoint == w.books.checkpoint)
  {
    var pc := PcOf(w, me);
    if pc.InEvent? && ProcessEvent(net, w.books, pc.event, pc.head, pc.read, f).Done? {
      ProcessLeavesRow(net, w.books, pc.event, pc.head, pc.read, f);
    }
  }

  lemma ActSafe(net: Network, w: World, me: nat, f: FundingResult)
    requires Safe(net, w) && w.sim.blocks != []
    ensures var w' := AdvanceWorker(net, w, me, f);
            Safe(net, w') && Later(w.books, w'.books) && Leads(net, w, PcOf(w, me), PcOf(w', me), w'.books)
            && (!Saves(PcOf(w, me)) ==> w'.books.checkpoint == w.books.checkpoint)
  {
    SafeMeansInv(net, w);
    SafeMeansInv(net, AdvanceWorker(net, w, me, f));
    AdvanceKeeps(net, w, me, f);
    AdvanceGrows(net, w, me, f);
    WhereNext(net, w, me, f);
  }

  /** What a recheck did for one deposit: its transaction was gone, or these events were verified again. */
  datatype Outcome = Gone | Verified(events: seq<Event>)

  predicate OutcomeHolds(net: Network, key: Key, outcome: Outcome, read: Sim, b: Books)
  {
    match outcome
    case Gone => FindReceipt(read.blocks, key.tx).None? && Settled(b, key)
    case Verified(events) => events == Decoded(net, read, key.tx) && HaveRows(b, events)
  }

  /** Row by row, what was done and the chain it was done on. */
  predicate OutcomesHold(net: Network, keys: seq<Key>, outcomes: seq<Outcome>, chains: seq<Sim>, b: Books)
  {
    && |chains| == |outcomes| <= |keys|
    && forall i :: 0 <= i < |outcomes| ==> OutcomeHolds(net, keys[i], outcomes[i], chains[i], b)
  }

  lemma OutcomesStay(net: Network, keys: seq<Key>, outcomes: seq<Outcome>, chains: seq<Sim>, a: Books, b: Books)
    requires OutcomesHold(net, keys, outcomes, chains, a) && Later(a, b) && Known(a, keys)
    ensures OutcomesHold(net, keys, outcomes, chains, b) && Known(b, keys)
  {
    assert forall i :: 0 <= i < |keys| ==> keys[i] in b.deposits;
    forall i | 0 <= i < |outcomes|
      ensures OutcomeHolds(net, keys[i], outcomes[i], chains[i], b)
    {
      assert OutcomeHolds(net, keys[i], outcomes[i], chains[i], a) && keys[i] in a.deposits;
    }
  }

  /** The deposits to recheck are read from the table. */
  predicate Known(b: Books, keys: seq<Key>) { forall i :: 0 <= i < |keys| ==> keys[i] in b.deposits }

  function Added<T>(s: seq<T>, x: Option<T>): seq<T> { if x.Some? then s + [x.value] else s }

  lemma OutcomeAdded(net: Network, keys: seq<Key>, outcomes: seq<Outcome>, chains: seq<Sim>, one: Option<Outcome>,
      chain: Sim, a: Books, b: Books)
    requires OutcomesHold(net, keys, outcomes, chains, a) && |outcomes| < |keys| && Later(a, b) && Known(a, keys)
    requires one.Some? ==> OutcomeHolds(net, keys[|outcomes|], one.value, chain, b)
    ensures Known(b, keys)
    ensures OutcomesHold(net, keys, Added(outcomes, one), Added(chains, if one.Some? then Some(chain) else None), b)
  {
    OutcomesStay(net, keys, outcomes, chains, a, b);
  }

  /**
   * One worker in the world. `schedule` holds what everyone else does at each of its awaits, and `funding` what
   * `applyChainFunding` answers to each of its transactions; both are arbitrary. `saved` remembers the checkpoints that
   * this worker itself wrote.
   */
  class Worker {
    const net: Network
    const me: nat
    var w: World
    var schedule: seq<seq<Step>>
    var funding: seq<FundingResult>
    ghost var saved: seq<nat>

    ghost predicate Valid()
      reads this
    {
      Safe(net, w)
    }

    constructor (net: Network, me: nat, w: World, schedule: seq<seq<Step>>, funding: seq<FundingResult>)
      requires Inv(net, w)
      ensures Valid() && this.net == net && this.me == me && this.w == w && saved == []
    {
      SafeMeansInv(net, w);
      this.net, this.me, this.w, this.schedule, this.funding, this.saved := net, me, w, schedule, funding, [];
    }

    function Pc(): Pc
      reads this
    {
      PcOf(w, me)
    }

    /** A step of someone else; one of this worker's own is skipped. */
    method Other(step: Step)
      requires Valid()
      modifies this`w
      ensures Valid() && Pc() == old(Pc()) && Later(old(w).books, w.books)
    {
      if WorkerOf(step) != Some(me) {
        SafeIsNotEmpty(net, w);
        StepSafe(net, w, step);
        OthersKeepOut(net, w, step, me);
        w := Next(net, w, step);
      }
    }

    /** An await: the others take any number of steps of any kind. */
    method Await()
      requires Valid()
      modifies this`w, this`schedule
      ensures Valid() && Pc() == old(Pc()) && Later(old(w).books, w.books)
    {
      if schedule == [] { return; }
      var others := schedule[0];
      schedule := schedule[1..];
      var i := 0;
      while i < |others|
        invariant i <= |others| && Valid() && Pc() == old(Pc()) && Later(old(w).books, w.books)
      {
        Other(others[i]);
        i := i + 1;
      }
    }

    /** This worker's next step. */
    method Act()
      requires Valid()
      modifies this`w, this`funding, this`saved
      ensures Valid() && Later(old(w).books, w.books) && Leads(net, old(w), old(Pc()), Pc(), w.books)
      ensures saved == old(saved) + if Saves(old(Pc())) then [old(Pc()).job.to] else []
      ensures saved == old(saved) ==> w.books.checkpoint == old(w).books.checkpoint
    {
      var f := DuplicateFact;
      if funding != [] {
        f := funding[0];
        funding := funding[1..];
      }
      if Saves(Pc()) { saved := saved + [Pc().job.to]; }
      SafeIsNotEmpty(net, w);
      ActSafe(net, w, me, f);
      w := AdvanceWorker(net, w, me, f);
    }

    /** This worker's next step, then an await. */
    method Do()
      requires Valid()
      modifies this`w, this`schedule, this`funding, this`saved
      ensures Valid() && Later(old(w).books, w.books) && Leads(net, old(w), old(Pc()), Pc(), w.books)
      ensures saved == old(saved) + if Saves(old(Pc())) then [old(Pc()).job.to] else []
    {
      Act();
      ghost var b := w.books;
      Await();
      LeadsOn(net, old(w), old(Pc()), Pc(), b, w.books);
    }

    /**
     * `verifyChainTransaction`: receipt, head, then every settlement event in turn. When it returns, every settlement
     * log of the receipt it read has its row, whatever the others did meanwhile; None means that it threw.
     */
    method VerifyTransaction(job: Job, tx: Hash) returns (events: Option<seq<Event>>)
      requires Valid() && Pc() == WantReceipt(job, tx)
      modifies this`w, this`schedule, this`funding, this`saved
      ensures Valid() && Later(old(w).books, w.books) && saved == old(saved)
      ensures Pc() == if events.Some? then Loop(job) else Idle
      ensures old(w).sim.offline ==> events.None?
      ensures events.Some? ==> events.value == Decoded(net, old(w).sim, tx) && HaveRows(w.books, events.value)
      ensures events.Some? ==> LogsHaveRows(net, old(w).sim, tx, w.books)
    {
      var all := Decoded(net, w.sim, tx);
      Do();
      if Pc().WantHead? { Do(); }
      while Pc().InEvents? && Pc().events != []
        invariant Valid() && Later(old(w).books, w.books) && saved == old(saved)
        invariant Pc() == Idle || (Pc() == Loop(job) && all == []) || (Pc().InEvents? && Pc().job == job)
        invariant Pc().InEvents? ==> forall e :: e in all ==> e.key in w.books.deposits || e in Pc().events
        invariant old(w).sim.offline ==> Pc() == Idle
        decreases if Pc().InEvents? then 1 + |Pc().events| else 0
      {
        ProcessFirst(job, all);
      }
      if Pc().InEvents? { Do(); }
      events := if Pc() == Idle then None else Some(all);
      if events.Some? { DecodedAll(net, old(w).sim, tx, w.books); }
    }

    /** The next event of a transaction: it reads the block hash, and then runs the event's transaction. */
    method ProcessFirst(job: Job, ghost all: seq<Event>)
      requires Valid() && Pc().InEvents? && Pc().events != [] && Pc().job == job
      requires forall e :: e in all ==> e.key in w.books.deposits || e in Pc().events
      modifies this`w, this`schedule, this`funding, this`saved
      ensures Valid() && Later(old(w).books, w.books) && saved == old(saved)
      ensures Pc() == Idle || (Pc().InEvents? && Pc().job == job && Pc().events == old(Pc()).events[1..])
      ensures Pc().InEvents? ==> forall e :: e in all ==> e.key in w.books.deposits || e in Pc().events
    {
      ghost var events := Pc().events;
      Do();
      Do();
      assert Pc().InEvents? ==> events[0].key in w.books.deposits;
      assert forall e :: e in events ==> e == events[0] || e in events[1..];
    }

    /** Reads the head, and waits. */
    method BeginScan(maxBlocks: nat)
      requires Valid() && Pc() == Idle
      modifies this`w, this`schedule
      ensures Valid() && Later(old(w).books, w.books)
      ensures if old(w).sim.offline then Pc() == Idle else Pc().GotHead?
    {
      SafeIsNotEmpty(net, w);
      StepSafe(net, w, StartScan(me, maxBlocks));
      w := Next(net, w, StartScan(me, maxBlocks));
      Await();
    }

    method ReadCheckpoint()
      requires Valid() && Pc().GotHead?
      modifies this`w, this`schedule, this`funding, this`saved
      ensures Valid() && Later(old(w).books, w.books) && saved == old(saved)
      ensures Pc().GotRange?
          || (Pc() == Idle && w.books.checkpoint.Some? && w.books.checkpoint.value >= old(Pc()).scanHead)
    {
      Do();
    }

    method ListTransactions()
      requires Valid() && Pc().GotRange?
      modifies this`w, this`schedule, this`funding, this`saved
      ensures Valid() && Later(old(w).books, w.books) && saved == old(saved)
      ensures Pc() == Idle || (Pc().Loop? && Pc().job.ScanJob? && Pc().job.to == old(Pc()).to)
    {
      Do();
    }

    /** Verifies every transaction of the scan, then moves the checkpoint. */
    method ScanAll(to: nat) returns (done: bool)
      requires Valid() && Pc().Loop? && Pc().job.ScanJob? && Pc().job.to == to
      modifies this`w, this`schedule, this`funding, this`saved
      ensures Valid() && Later(old(w).books, w.books) && Pc() == Idle
      ensures done ==> w.books.checkpoint.Some? && w.books.checkpoint.value >= to
      ensures saved == if done then old(saved) + [to] else old(saved)
    {
      while Pc().Loop? && Pc().job.todo != []
        invariant Valid() && Later(old(w).books, w.books) && saved == old(saved)
        invariant Pc() == Idle || (Pc().Loop? && Pc().job.ScanJob? && Pc().job.to == to)
        decreases if Pc().Loop? then 1 + |Pc().job.todo| else 0
      {
        Do();
        var _ := VerifyTransaction(Pc().job, Pc().tx);
      }
      if Pc() == Idle { return false; }
      Do();
      return true;
    }

    /**
     * `scanChainDeposits`: a scan that is not stopped by an outage or an error ends with the checkpoint at its upper
     * bound or beyond, whatever the others did meanwhile, and one that is stopped has written no checkpoint.
     */
    method ScanChainDeposits(maxBlocks: nat) returns (scannedTo: Option<nat>)
      requires Valid() && Pc() == Idle
      modifies this`w, this`schedule, this`funding, this`saved
      ensures Valid() && Later(old(w).books, w.books) && Pc() == Idle
      ensures scannedTo.Some? ==> w.books.checkpoint.Some? && w.books.checkpoint.value >= scannedTo.value
      ensures scannedTo.Some? ==> saved == old(saved) || saved == old(saved) + [scannedTo.value]
      ensures scannedTo.None? ==> saved == old(saved)
      ensures old(w).sim.offline ==> scannedTo.None?
    {
      BeginScan(maxBlocks);
      if Pc() == Idle { return None; }
      var head := Pc().scanHead;
      ReadCheckpoint();
      if Pc() == Idle { return Some(head); }
      var to := Pc().to;
      ListTransactions();
      if Pc() == Idle { return None; }
      var done := ScanAll(to);
      return if done then Some(to) else None;
    }

    /**
     * `recheckPendingDeposits`: for each deposit in turn, the row is no longer pending if its transaction was gone when
     * it was read, and otherwise its transaction is verified again. Only an outage or an error leaves some of them out.
     */
    method RecheckPending(keys: seq<Key>) returns (outcomes: seq<Outcome>, complete: bool, ghost chains: seq<Sim>)
      requires Valid() && Pc() == Idle && Known(w.books, keys)
      modifies this`w, this`schedule, this`funding, this`saved
      ensures Valid() && Later(old(w).books, w.books) && Pc() == Idle && saved == old(saved)
      ensures OutcomesHold(net, keys, outcomes, chains, w.books)
      ensures complete <==> |outcomes| == |keys|
    {
      BeginRecheck(keys);
      outcomes, chains := [], [];
      assert keys[|outcomes|..] == keys;
      while Pc().Loop? && |outcomes| < |keys|
        invariant Valid() && Later(old(w).books, w.books) && saved == old(saved)
        invariant OutcomesHold(net, keys, outcomes, chains, w.books) && Known(w.books, keys)
        invariant if Pc() == Idle then |outcomes| < |keys| else Pc() == Loop(RecheckJob(keys[|outcomes|..]))
        decreases if Pc().Loop? then 1 + |keys| - |outcomes| else 0
      {
        outcomes, chains := RecheckNext(keys, outcomes, chains);
      }
      complete := Pc().Loop?;
      if complete {
        ghost var books := w.books;
        assert keys[|outcomes|..] == [];
        EndJob();
        OutcomesStay(net, keys, outcomes, chains, books, w.books);
      }
    }

    method BeginRecheck(keys: seq<Key>)
      requires Valid() && Pc() == Idle && Known(w.books, keys)
      modifies this`w
      ensures Valid() && w.books == old(w).books && Pc() == Loop(RecheckJob(keys))
    {
      SafeIsNotEmpty(net, w);
      StepSafe(net, w, StartRecheck(me, keys));
      w := Next(net, w, StartRecheck(me, keys));
    }

    method EndJob()
      requires Valid() && Pc() == Loop(RecheckJob([]))
      modifies this`w, this`schedule, this`funding, this`saved
      ensures Valid() && Later(old(w).books, w.books) && saved == old(saved) && Pc() == Idle
    {
      Do();
    }

    method RecheckNext(keys: seq<Key>, sofar: seq<Outcome>, ghost before: seq<Sim>)
        returns (outcomes: seq<Outcome>, ghost chains: seq<Sim>)
      requires Valid() && |sofar| < |keys| && Pc() == Loop(RecheckJob(keys[|sofar|..]))
      requires OutcomesHold(net, keys, sofar, before, w.books) && Known(w.books, keys)
      modifies this`w, this`schedule, this`funding, this`saved
      ensures Valid() && Later(old(w).books, w.books) && saved == old(saved)
      ensures OutcomesHold(net, keys, outcomes, chains, w.books) && Known(w.books, keys)
      ensures |outcomes| == if Pc() == Idle then |sofar| else |sofar| + 1
      ensures Pc() != Idle ==> Pc() == Loop(RecheckJob(keys[|outcomes|..]))
    {
      ghost var books := w.books;
      assert [keys[|sofar|]] + keys[|sofar| + 1..] == keys[|sofar|..];
      var outcome, read := RecheckOne(keys[|sofar|], keys[|sofar| + 1..]);
      OutcomeAdded(net, keys, sofar, before, outcome, read, books, w.books);
      outcomes := Added(sofar, outcome);
      chains := Added(before, if outcome.Some? then Some(read) else None);
    }

    /** Whether the transaction of the next deposit is still there. */
    method LookUp(key: Key, rest: seq<Key>)
      requires Valid() && Pc() == Loop(RecheckJob([key] + rest))
      modifies this`w, this`schedule, this`funding, this`saved
      ensures Valid() && Later(old(w).books, w.books) && saved == old(saved)
      ensures Pc() in {Idle, Lost(key, rest), WantReceipt(RecheckJob(rest), key.tx)}
      ensures Pc().Lost? ==> FindReceipt(old(w).sim.blocks, key.tx).None?
    {
      assert ([key] + rest)[1..] == rest;
      Do();
    }

    method DropLost(key: Key, rest: seq<Key>)
      requires Valid() && Pc() == Lost(key, rest) && key in w.books.deposits
      modifies this`w, this`schedule, this`funding, this`saved
      ensures Valid() && Later(old(w).books, w.books) && saved == old(saved)
      ensures Pc() == Loop(RecheckJob(rest)) && Settled(w.books, key)
    {
      Do();
    }

    /**
     * One deposit of a recheck; None means that an outage or an error stopped it. `read` is the chain it was decided
     * on.
     */
    method RecheckOne(key: Key, rest: seq<Key>) returns (outcome: Option<Outcome>, ghost read: Sim)
      requires Valid() && Pc() == Loop(RecheckJob([key] + rest)) && key in w.books.deposits
      modifies this`w, this`schedule, this`funding, this`saved
      ensures Valid() && Later(old(w).books, w.books) && saved == old(saved)
      ensures Pc() == if outcome.Some? then Loop(RecheckJob(rest)) else Idle
      ensures outcome.Some? ==> OutcomeHolds(net, key, outcome.value, read, w.books)
    {
      read := w.sim;
      LookUp(key, rest);
      if Pc() == Idle { return None, read; }
      if Pc().Lost? {
        DropLost(key, rest);
        return Some(Gone), read;
      }
      read := w.sim;
      var events := VerifyTransaction(RecheckJob(rest), key.tx);
      outcome := if events.Some? then Some(Verified(events.value)) else None;
    }
  }
}
