/**
 * Runs of the whole, from the empty books: a deposit is credited, and then what the promises leave open happens to it.
 */
module DepositExamples {
  import opened Common
  import opened MapSums
  import opened SimChain
  import opened EscrowRules
  import opened EscrowAwait
  import opened DepositRules
  import opened DepositBooks
  import opened DepositWorld
  import opened DepositSafety
  import opened DepositTheorems
  import opened DepositHistory

  const SERVER := Auth(6, 500)
  const TX := Given(1)
  const KEY := Key(TX, 0)

  function Net(finality: nat): Network
  {
    Network(5, 9, finality, map[0 := Asset(5, 2, 0, true, true)], map[8 := 0])
  }

  /** One hundred cents for order 1, and sixty units for pool 1, each deposited under its own reference. */
  function OrderFunds(): Funded { Funded(OrderEscrow(1), OrderPayment(1, 0), 7, 8, 100) }

  function PoolFunds(): Funded { Funded(PoolEscrow(1, 1), PoolPayment(0), 7, 8, 60) }

  function Deposit(funded: Funded): ChainOp { DepositOp(DepositInput(9, funded, false, Some(TX), 0)) }

  function OrderBooks(): Books { EMPTY_BOOKS.(intents := [Intent(1, 5, 0, 100, None, 100, AwaitingDeposit)]) }

  function PoolBooks(): Books { EMPTY_BOOKS.(poolIntents := [PoolIntent(1, 1, 5, 0, 60, AwaitingDeposit)]) }

  const ORDER := OrderView(1, true, false, true, true, false, 100)

  lemma OrderIsBooked(w: World, finality: nat)
    requires w.sim.blocks != [] && w.books == EMPTY_BOOKS
    ensures Next(Net(finality), w, PayOrder(ORDER, 0, None)) == w.(books := OrderBooks())
  {
    assert Registry.Pow10(0) == 1;
  }

  /** The transaction is in block n, which carries it alone. */
  predicate Included(w: World, n: nat, funded: Funded)
  {
    && Numbered(w.sim.blocks) && n < |w.sim.blocks| && !w.sim.offline
    && FindReceipt(w.sim.blocks, TX) == Some(Receipt(TX, n, w.sim.blocks[n].hash, true, [Entry(9, Some(funded))]))
  }

  function EventIn(w: World, n: nat, funded: Funded): Event
    requires n < |w.sim.blocks|
  {
    Event(KEY, n, w.sim.blocks[n].hash, funded)
  }

  lemma OneEvent(n: nat, hash: Hash, funded: Funded)
    ensures DecodeFrom(Receipt(TX, n, hash, true, [Entry(9, Some(funded))]), 9, 0) == [Event(KEY, n, hash, funded)]
  {
    var r := Receipt(TX, n, hash, true, [Entry(9, Some(funded))]);
    assert DecodeFrom(r, 9, 1) == [];
  }

  function HintSteps(o: nat): seq<Step>
  {
    [StartHint(o, TX), Advance(o, FundedOrder), Advance(o, FundedOrder), Advance(o, FundedOrder),
        Advance(o, FundedOrder)]
  }

  /** A buyer's hint reads the receipt, the head and the block hash, and then processes the one event. */
  lemma HintReads(net: Network, w: World, o: nat, n: nat, funded: Funded) returns (states: seq<World>)
    requires net.settlement == 9 && Included(w, n, funded) && PcOf(w, o).Idle?
    ensures |states| == 5 && states[0] == w
    ensures forall i :: 0 <= i < 5 ==>
              && states[i].sim == w.sim && states[i].flight == w.flight && states[i].txs == w.txs
              && states[i].books == w.books
    ensures forall i :: 0 <= i < 4 ==> states[i + 1] == Next(net, states[i], HintSteps(o)[i])
    ensures PcOf(states[4], o) == InEvent(Hint, EventIn(w, n, funded), [], |w.sim.blocks| - 1,
        Answer(Some(w.sim.blocks[n].hash)))
    ensures states[4].workers == w.workers[o := PcOf(states[4], o)] && states[4].minted == w.minted
  {
    var a := Next(net, w, StartHint(o, TX));
    OneEvent(n, w.sim.blocks[n].hash, funded);
    var b := Next(net, a, Advance(o, FundedOrder));
    var c := Next(net, b, Advance(o, FundedOrder));
    BlockHashAtExact(w.sim.blocks, n);
    var d := Next(net, c, Advance(o, FundedOrder));
    states := [w, a, b, c, d];
  }

  // ---- an order is credited, and a deep reorganization takes its block ----------------------------------------------

  lemma OrderIsCredited(net: Network, ev: Event, head: nat)
    requires net == Net(1) && ev == Event(KEY, ev.blockNumber, ev.blockHash, OrderFunds()) && ev.blockNumber <= head
    ensures var r := ProcessEvent(net, OrderBooks(), ev, head, Answer(Some(ev.blockHash)), FundedOrder);
            r.Done? && r.books.deposits == map[KEY := NewRow(ev, Some(0), Some(0), None, CreditedRow, None)]
  {
    assert Registry.Pow10(0) == 1;
    assert !CreditedFor(OrderBooks(), 0);
  }

  lemma AfterDeposit(net: Network, w: World, funded: Funded)
    requires Numbered(w.sim.blocks) && w.sim.settlement == Some(9) && TX !in w.txs && !w.sim.offline
    requires FindReceipt(w.sim.blocks, TX).None?
    ensures var w', n := Next(net, w, Chain(Deposit(funded))), |w.sim.blocks|;
            && Included(w', n, funded) && |w'.sim.blocks| == n + 1 && w'.books == w.books && w'.workers == w.workers
            && w'.sim.settlement == Some(9) && w'.sim.chainId == w.sim.chainId
            && w'.txs == w.txs[TX := Body(true, [Entry(9, Some(funded))])] && w'.sim.salt == w.sim.salt + 1
            && w'.sim.blocks == w.sim.blocks + [Block(n, Fresh(w.sim.salt + 1),
                [Receipt(TX, n, Fresh(w.sim.salt + 1), true, [Entry(9, Some(funded))])])]
  {
    var input := DepositInput(9, funded, false, Some(TX), 0);
    assert DepositLogs(input) == [Entry(9, Some(funded))];
    var block := Block(|w.sim.blocks|, Fresh(w.sim.salt + 1),
        [Receipt(TX, |w.sim.blocks|, Fresh(w.sim.salt + 1), true, DepositLogs(input))]);
    assert SubmitDeposit(w.sim, input).blocks == w.sim.blocks + [block];
    FindAtEnd(w.sim.blocks, block);
  }

  lemma {:induction false} FindAtEnd(blocks: seq<Block>, last: Block)
    requires FindReceipt(blocks, TX).None? && |last.receipts| == 1 && last.receipts[0].txHash == TX
    ensures FindReceipt(blocks + [last], TX) == Some(last.receipts[0])
  {
    if blocks == [] {
      assert [] + [last] == [last];
    } else {
      assert (blocks + [last])[1..] == blocks[1..] + [last];
      FindAtEnd(blocks[1..], last);
    }
  }

  function CreditSteps(): seq<Step>
  {
    [PayOrder(ORDER, 0, None), Chain(Deposit(OrderFunds()))] + HintSteps(0)
  }

  /** A deposit is seen and credited. */
  lemma CreditRun() returns (states: seq<World>)
    ensures Run(Net(1), states, CreditSteps())
    ensures var w := states[7];
            && w.books.deposits ==
                map[KEY := NewRow(Event(KEY, 1, Fresh(2), OrderFunds()), Some(0), Some(0), None, CreditedRow, None)]
            && |w.sim.blocks| == 2 && w.sim.blocks[1].hash == Fresh(2) && w.sim.salt == 2 && Numbered(w.sim.blocks)
  {
    var net, a := Net(1), Start(Net(1));
    OrderIsBooked(a, 1);
    var b := Next(net, a, PayOrder(ORDER, 0, None));
    assert FindReceipt(b.sim.blocks, TX).None?;
    AfterDeposit(net, b, OrderFunds());
    var c := Next(net, b, Chain(Deposit(OrderFunds())));
    var hint := HintReads(net, c, 0, 1, OrderFunds());
    OrderIsCredited(net, EventIn(c, 1, OrderFunds()), 1);
    var last := Next(net, hint[4], Advance(0, FundedOrder));
    Committed(net, hint[4], 0, OrderBooks(), EventIn(c, 1, OrderFunds()), 1);
    states := [a, b] + hint + [last];
    JoinHint(net, [a, b], [PayOrder(ORDER, 0, None), Chain(Deposit(OrderFunds()))], hint, last, 0);
  }

  lemma Committed(net: Network, w: World, o: nat, b: Books, ev: Event, head: nat)
    requires w.sim.blocks != [] && w.books == b && PcOf(w, o) == InEvent(Hint, ev, [], head, Answer(Some(ev.blockHash)))
    requires ProcessEvent(net, b, ev, head, Answer(Some(ev.blockHash)), FundedOrder).Done?
    ensures var w' := Next(net, w, Advance(o, FundedOrder));
            && w'.sim == w.sim && w'.flight == w.flight && w'.txs == w.txs && w'.minted == w.minted
            && w'.books == ProcessEvent(net, b, ev, head, Answer(Some(ev.blockHash)), FundedOrder).books
            && w'.workers == w.workers[o := InEvents(Hint, [], head)]
  {
  }

  /** Each state follows from the one before. */
  predicate Follows(net: Network, states: seq<World>, steps: seq<Step>)
  {
    && |states| == |steps| + 1
    && (forall i :: 0 <= i < |states| ==> states[i].sim.blocks != [])
    && (forall i :: 0 <= i < |steps| ==> states[i + 1] == Next(net, states[i], steps[i]))
  }

  /** A hint after some other steps. */
  lemma JoinHint(net: Network, before: seq<World>, steps: seq<Step>, hint: seq<World>, last: World, o: nat)
    requires |hint| == 5 && |before| == |steps| && before != []
    requires forall i :: 0 <= i < |before| ==> before[i].sim.blocks != []
    requires forall i :: 0 <= i < 5 ==> hint[i].sim.blocks != []
    requires forall i :: 0 <= i < |steps| ==> (before + hint)[i + 1] == Next(net, before[i], steps[i])
    requires forall i :: 0 <= i < 4 ==> hint[i + 1] == Next(net, hint[i], HintSteps(o)[i])
    requires last == Next(net, hint[4], Advance(o, FundedOrder)) && last.sim.blocks != []
    ensures Follows(net, before + hint + [last], steps + HintSteps(o))
  {
    var states, all, n := before + hint + [last], steps + HintSteps(o), |before|;
    forall i | 0 <= i < |all|
      ensures states[i + 1] == Next(net, states[i], all[i])
    {
      JoinedAt(before, hint, last, i);
      JoinedAt(before, hint, last, i + 1);
      JoinedSteps(steps, HintSteps(o), i);
      if i < n { assert states[i + 1] == (before + hint)[i + 1] && all[i] == steps[i]; }
    }
  }

  lemma JoinedAt(before: seq<World>, hint: seq<World>, last: World, i: nat)
    requires |hint| == 5 && i <= |before| + 5
    ensures (before + hint + [last])[i] ==
            if i < |before| then before[i] else if i < |before| + 5 then hint[i - |before|] else last
    ensures i < |before| + 5 ==> (before + hint + [last])[i] == (before + hint)[i]
  {
  }

  lemma JoinedSteps(steps: seq<Step>, more: seq<Step>, i: nat)
    requires i < |steps| + |more|
    ensures (steps + more)[i] == if i < |steps| then steps[i] else more[i - |steps|]
  {
  }

  /**
   * A reorganization as deep as the finality bound takes the credited deposit's block away, and the books do not
   * notice.
   */
  lemma DeepReorgLosesCredit() returns (states: seq<World>)
    ensures Run(Net(1), states, CreditSteps() + [Chain(ReorgOp(1))])
    ensures var before, after := states[7], states[8];
            && KEY in after.books.deposits && after.books.deposits[KEY].status == CreditedRow
            && after.books == before.books
            && Canonical(before, after.books.deposits[KEY].blockNumber, after.books.deposits[KEY].blockHash)
            && !Canonical(after, after.books.deposits[KEY].blockNumber, after.books.deposits[KEY].blockHash)
  {
    var run := CreditRun();
    var after := Next(Net(1), run[7], Chain(ReorgOp(1)));
    ReorgOne(run[7]);
    states := run + [after];
  }

  lemma ReorgOne(w: World)
    requires |w.sim.blocks| == 2 && Numbered(w.sim.blocks)
    ensures var after := Reorg(w.sim, 1);
            && |after.blocks| == 3 && after.blocks[0] == w.sim.blocks[0] && after.salt == w.sim.salt + 2
            && after.blocks[1] == Block(1, Fresh(w.sim.salt + 1), [])
            && after.blocks[2] == Block(2, Fresh(w.sim.salt + 2), [])
  {
    ReorgBlocks(w.sim, 1);
  }

  // ---- a pool row names a block that is gone ------------------------------------------------------------------------

  lemma {:induction false} FindBeforeEnd(blocks: seq<Block>, last: Block)
    requires FindReceipt(blocks, TX).Some?
    ensures FindReceipt(blocks + [last], TX) == FindReceipt(blocks, TX)
  {
    assert (blocks + [last])[1..] == blocks[1..] + [last];
    if ReceiptIn(blocks[0].receipts, TX).None? { FindBeforeEnd(blocks[1..], last); }
  }

  /** Two blocks, the second reorganized away; the transaction is included again, and one more block is mined. */
  lemma IncludedAgain(net: Network, w: World, funded: Funded) returns (states: seq<World>)
    requires Included(w, 1, funded) && |w.sim.blocks| == 2 && w.sim.blocks[0].receipts == []
    requires TX in w.txs && w.txs[TX] == Body(true, [Entry(9, Some(funded))])
    ensures |states| == 4 && states[0] == w && states[1] == Next(net, w, Chain(ReorgOp(1)))
    ensures states[2] ==
        Next(net, states[1], Chain(ReincludeOp(Receipt(TX, 1, w.sim.blocks[1].hash, true, [Entry(9, Some(funded))]))))
    ensures states[3] == Next(net, states[2], Chain(MineOp(1)))
    ensures forall i :: 0 <= i < 4 ==>
        states[i].sim.blocks != [] && states[i].books == w.books && states[i].workers == w.workers
    ensures Included(states[3], 3, funded) && |states[3].sim.blocks| == 5
    ensures states[3].sim.blocks[1].hash == Fresh(w.sim.salt + 1)
            && states[3].sim.blocks[3].hash == Fresh(w.sim.salt + 3)
  {
    var receipt := Receipt(TX, 1, w.sim.blocks[1].hash, true, [Entry(9, Some(funded))]);
    var q := Next(net, w, Chain(ReorgOp(1)));
    ReorgOne(w);
    assert FindReceipt(q.sim.blocks, TX).None? by { NoneInThree(q.sim.blocks); }
    var r := Next(net, q, Chain(ReincludeOp(receipt)));
    var block := Block(3, Fresh(w.sim.salt + 3), [receipt.(blockNumber := 3, blockHash := Fresh(w.sim.salt + 3))]);
    assert r.sim.blocks == q.sim.blocks + [block];
    FindAtEnd(q.sim.blocks, block);
    var t := Next(net, r, Chain(MineOp(1)));
    var empty := Block(4, Fresh(w.sim.salt + 4), []);
    assert t.sim.blocks == r.sim.blocks + [empty];
    FindBeforeEnd(r.sim.blocks, empty);
    states := [w, q, r, t];
  }

  lemma NoneInThree(blocks: seq<Block>)
    requires |blocks| == 3 && blocks[0].receipts == [] && blocks[1].receipts == [] && blocks[2].receipts == []
    ensures FindReceipt(blocks, TX).None?
  {
    assert FindReceipt(blocks[1..][1..][1..], TX).None?;
    assert FindReceipt(blocks[1..][1..], TX).None?;
    assert FindReceipt(blocks[1..], TX).None?;
  }

  /** The books while the pool's deposit waits in the block with the given hash, and once it is credited. */
  function WaitingBooks(hash: Hash): Books
  {
    PoolBooks().(deposits := map[KEY := Row(1, hash, PoolFunds(), Some(0), None, Some(0), PendingRow, None)],
                 poolIntents := [PoolIntent(1, 1, 5, 0, 60, PendingFinality)])
  }

  lemma PoolWaits(ev: Event)
    requires ev == Event(KEY, 1, ev.blockHash, PoolFunds())
    ensures ProcessEvent(Net(2), PoolBooks(), ev, 1, Answer(Some(ev.blockHash)), FundedOrder) ==
            Done(WaitingBooks(ev.blockHash), DepositResult(Pending, None, 0))
  {
    assert !CreditedForPool(PoolBooks(), 0);
  }

  lemma PoolIsCredited(ev: Event, first: Hash)
    requires ev == Event(KEY, 3, ev.blockHash, PoolFunds())
    ensures var r := ProcessEvent(Net(2), WaitingBooks(first), ev, 4, Answer(Some(ev.blockHash)), FundedOrder);
            && r.Done? && KEY in r.books.deposits && r.books.deposits[KEY].status == CreditedRow
            && r.books.deposits[KEY].poolIntent == Some(0)
            && r.books.deposits[KEY].blockNumber == 1 && r.books.deposits[KEY].blockHash == first
  {
    assert !CreditedForPool(WaitingBooks(first), 0);
  }

  function PoolSteps(): seq<Step> { [FundPool(1, 1, 5, 0, 60), Chain(Deposit(PoolFunds()))] + HintSteps(0) }

  lemma PoolPending() returns (states: seq<World>)
    ensures Run(Net(2), states, PoolSteps())
    ensures var w := states[7];
            && Included(w, 1, PoolFunds()) && |w.sim.blocks| == 2 && w.sim.blocks[0].receipts == [] && w.sim.salt == 2
            && w.sim.blocks[1].hash == Fresh(2) && TX in w.txs && w.txs[TX] == Body(true, [Entry(9, Some(PoolFunds()))])
            && w.books == WaitingBooks(Fresh(2)) && PcOf(w, 1).Idle?
  {
    var net, a := Net(2), Start(Net(2));
    var b := Next(net, a, FundPool(1, 1, 5, 0, 60));
    assert b == a.(books := PoolBooks());
    assert FindReceipt(b.sim.blocks, TX).None?;
    AfterDeposit(net, b, PoolFunds());
    var c := Next(net, b, Chain(Deposit(PoolFunds())));
    var hint := HintReads(net, c, 0, 1, PoolFunds());
    PoolWaits(EventIn(c, 1, PoolFunds()));
    var last := Next(net, hint[4], Advance(0, FundedOrder));
    Committed(net, hint[4], 0, PoolBooks(), EventIn(c, 1, PoolFunds()), 1);
    states := [a, b] + hint + [last];
    JoinHint(net, [a, b], [FundPool(1, 1, 5, 0, 60), Chain(Deposit(PoolFunds()))], hint, last, 0);
  }

  function AgainSteps(): seq<Step>
  {
    [Chain(ReorgOp(1)), Chain(ReincludeOp(Receipt(TX, 1, Fresh(2), true, [Entry(9, Some(PoolFunds()))]))),
        Chain(MineOp(1))] + HintSteps(1)
  }

  /** The second half of the run, from the pending row. */
  lemma PoolAgain(w: World) returns (states: seq<World>)
    requires Included(w, 1, PoolFunds()) && |w.sim.blocks| == 2 && w.sim.blocks[0].receipts == [] && w.sim.salt == 2
    requires w.sim.blocks[1].hash == Fresh(2) && TX in w.txs && w.txs[TX] == Body(true, [Entry(9, Some(PoolFunds()))])
    requires w.books == WaitingBooks(Fresh(2)) && PcOf(w, 1).Idle?
    ensures Follows(Net(2), states, AgainSteps()) && states[0] == w
    ensures var after := states[8];
            && KEY in after.books.deposits && after.books.deposits[KEY].status == CreditedRow
            && after.books.deposits[KEY].blockNumber == 1 && after.books.deposits[KEY].blockHash == Fresh(2)
            && !Canonical(after, 1, Fresh(2)) && Canonical(after, 3, Fresh(5))
  {
    var net := Net(2);
    var again := IncludedAgain(net, w, PoolFunds());
    var hint := HintReads(net, again[3], 1, 3, PoolFunds());
    PoolIsCredited(EventIn(again[3], 3, PoolFunds()), Fresh(2));
    var last := Next(net, hint[4], Advance(1, FundedOrder));
    Committed(net, hint[4], 1, WaitingBooks(Fresh(2)), EventIn(again[3], 3, PoolFunds()), 4);
    states := again[..3] + hint + [last];
    ThreeThenHint(net, again, AgainSteps()[..3], hint);
    assert AgainSteps() == AgainSteps()[..3] + HintSteps(1);
    JoinHint(net, again[..3], AgainSteps()[..3], hint, last, 1);
  }

  lemma ThreeThenHint(net: Network, again: seq<World>, three: seq<Step>, hint: seq<World>)
    requires |again| == 4 && |three| == 3 && |hint| == 5 && hint[0] == again[3] && forall i :: 0 <= i < 4 ==>
        again[i].sim.blocks != []
    requires again[1] == Next(net, again[0], three[0]) && again[2] == Next(net, again[1], three[1])
             && again[3] == Next(net, again[2], three[2])
    ensures forall i :: 0 <= i < 3 ==>
        again[..3][i].sim.blocks != [] && (again[..3] + hint)[i + 1] == Next(net, again[..3][i], three[i])
  {
  }

  lemma JoinedState(states: seq<World>, n: nat, more: seq<World>, i: nat)
    requires |states| == n + 1 && more != [] && more[0] == states[n] && i < n + |more|
    ensures |states + more[1..]| == n + |more| && (states + more[1..])[i] == if i < n then states[i] else more[i - n]
  {
  }

  lemma JoinRuns(net: Network, states: seq<World>, steps: seq<Step>, more: seq<World>, then': seq<Step>)
    requires Run(net, states, steps) && Follows(net, more, then') && more[0] == states[|steps|]
    ensures Run(net, states + more[1..], steps + then')
  {
    var all, every, n := states + more[1..], steps + then', |steps|;
    forall i | 0 <= i < |all|
      ensures all[i].sim.blocks != []
    {
      JoinedState(states, n, more, i);
    }
    forall i | 0 <= i < |every|
      ensures all[i + 1] == Next(net, all[i], every[i])
    {
      JoinedState(states, n, more, i);
      JoinedState(states, n, more, i + 1);
      assert every[i] == if i < n then steps[i] else then'[i - n];
      if i < n {
        assert states[i + 1] == Next(net, states[i], steps[i]);
      } else {
        assert more[i - n + 1] == Next(net, more[i - n], then'[i - n]);
      }
    }
    JoinedState(states, n, more, 0);
  }

  /**
   * A pool's deposit is seen, reorganized away by a reorganization shallower than the finality bound, included again
   * and credited; its row still names the block that is gone.
   */
  lemma PoolRowNamesLostBlock() returns (states: seq<World>)
    ensures Run(Net(2), states, PoolSteps() + AgainSteps())
    ensures forall step :: step in PoolSteps() + AgainSteps() ==> Shallow(Net(2), step)
    ensures var after := states[15];
            && KEY in after.books.deposits && after.books.deposits[KEY].status == CreditedRow
            && !Canonical(after, after.books.deposits[KEY].blockNumber, after.books.deposits[KEY].blockHash)
  {
    var first := PoolPending();
    var second := PoolAgain(first[7]);
    states := first + second[1..];
    JoinRuns(Net(2), first, PoolSteps(), second, AgainSteps());
    assert states[15] == second[8];
  }

  // ---- the books exceed a bucket ------------------------------------------------------------------------------------

  /** Forty units in another bucket, which nobody expects. */
  function Other(): DepositInput
  {
    DepositInput(9, Funded(OrderEscrow(2), OtherReference(1), 7, 8, 40), false, Some(Given(2)), 0)
  }

  /** A release from that bucket that passes every check but the signature. */
  function Forged(): Signed { Signed(Domain(5, 9), ReleaseMessage(77, OrderEscrow(2), 4, 8, 40, 77, 1000), 99) }

  function BatchSteps(): seq<Step>
  {
    [PayOrder(ORDER, 0, None), Chain(DepositOp(Other())), Chain(StartBatch([Forged()])), Chain(BeginRelease),
     Chain(Deposit(OrderFunds())), Chain(FinishRelease(SERVER)), Chain(UndoBatch)]
  }

  lemma OtherDeposit(net: Network, w: World)
    requires w == Start(net).(books := OrderBooks()) && net == Net(1)
    ensures var w' := Next(net, w, Chain(DepositOp(Other())));
            && |w'.sim.blocks| == 2 && Numbered(w'.sim.blocks) && FindReceipt(w'.sim.blocks, TX).None? && TX !in w'.txs
            && w'.sim.buckets == map[OrderEscrow(2) := Bucket(7, 8, 40, 0, 0, false)] && w'.flight.batch.None?
            && w'.flight.calls == map[]
            && w'.sim.settlement == Some(9) && w'.sim.chainId == 5 && !w'.sim.offline && !w'.sim.paused
            && w'.sim.transfers == []
            && w'.sim.nonces == {} && w'.sim.paid == map[] && w'.books == OrderBooks() && w'.workers == map[]
  {
    var w' := Next(net, w, Chain(DepositOp(Other())));
    assert w'.sim.blocks == w.sim.blocks + [w'.sim.blocks[1]];
    MissAtEnd(w.sim.blocks, w'.sim.blocks[1]);
  }

  lemma {:induction false} MissAtEnd(blocks: seq<Block>, last: Block)
    requires FindReceipt(blocks, TX).None? && |last.receipts| == 1 && last.receipts[0].txHash != TX
    ensures FindReceipt(blocks + [last], TX).None?
  {
    if blocks == [] {
      assert ReceiptIn(last.receipts[1..], TX).None?;
      assert [] + [last] == [last] && FindReceipt([last][1..], TX).None?;
    } else {
      assert (blocks + [last])[1..] == blocks[1..] + [last];
      MissAtEnd(blocks[1..], last);
    }
  }

  /** The batch waits for its release's signature check. */
  lemma BatchWaits(net: Network, w: World)
    requires w.sim.blocks != [] && w.flight.batch.None? && CheckPayout(w.sim, Forged().message).None?
    ensures var started := Next(net, w, Chain(StartBatch([Forged()])));
            var waiting := Next(net, started, Chain(BeginRelease));
            && started.sim == w.sim && waiting.sim == w.sim && waiting.txs == w.txs && waiting.books == w.books
            && waiting.workers == w.workers
            && waiting.flight == w.flight.(batch := Some(BatchRun(w.sim, [Forged()], 0, Waiting, {}, {}, {})))
  {
  }

  lemma BatchIsUndone(net: Network, w: World)
    requires w.sim.blocks != [] && w.flight.batch.Some? && OrderEscrow(2) in w.sim.buckets
             && w.sim.settlement == Some(9) && w.sim.chainId == 5
    requires var run := w.flight.batch.value;
             && run.batch == [Forged()] && run.done == 0 && run.stage == Waiting
             && run.snap.transfers == []
    ensures var refused := Next(net, w, Chain(FinishRelease(SERVER)));
            var undone := Next(net, refused, Chain(UndoBatch));
            && refused.sim == w.sim && undone.sim == Restore(w.flight.batch.value.snap, w.sim)
            && undone.books == w.books && undone.workers == w.workers
  {
  }

  /** A batch whose release waits, on a chain that knows only the other bucket. */
  predicate Waits(w: World)
  {
    && |w.sim.blocks| == 2 && Numbered(w.sim.blocks) && FindReceipt(w.sim.blocks, TX).None? && TX !in w.txs
    && w.sim.settlement == Some(9) && w.sim.chainId == 5 && !w.sim.offline
    && w.books == OrderBooks() && w.workers == map[]
    && w.sim.buckets == map[OrderEscrow(2) := Bucket(7, 8, 40, 0, 0, false)]
    && w.flight.batch == Some(BatchRun(w.sim, [Forged()], 0, Waiting, {}, {}, {})) && w.sim.transfers == []
  }

  lemma BatchOpens(net: Network, a: World) returns (b: World, c: World, d: World, e: World)
    requires net == Net(1) && a == Start(net)
    ensures b.sim.blocks != [] && c.sim.blocks != [] && d.sim.blocks != [] && e.sim.blocks != []
    ensures b == Next(net, a, BatchSteps()[0]) && c == Next(net, b, BatchSteps()[1])
    ensures d == Next(net, c, BatchSteps()[2]) && e == Next(net, d, BatchSteps()[3]) && Waits(e)
  {
    OrderIsBooked(a, 1);
    b := Next(net, a, PayOrder(ORDER, 0, None));
    OtherDeposit(net, b);
    c := Next(net, b, Chain(DepositOp(Other())));
    BatchWaits(net, c);
    d := Next(net, c, Chain(StartBatch([Forged()])));
    e := Next(net, d, Chain(BeginRelease));
  }

  lemma BatchCloses(net: Network, e: World) returns (f: World, g: World, h: World)
    requires net == Net(1) && Waits(e)
    ensures f.sim.blocks != [] && g.sim.blocks != [] && h.sim.blocks != []
    ensures f == Next(net, e, BatchSteps()[4]) && g == Next(net, f, BatchSteps()[5])
            && h == Next(net, g, BatchSteps()[6])
    ensures Included(h, 2, OrderFunds()) && |h.sim.blocks| == 3
    ensures h.books == OrderBooks() && h.workers == map[] && OrderEscrow(1) !in h.sim.buckets
  {
    AfterDeposit(net, e, OrderFunds());
    f := Next(net, e, Chain(Deposit(OrderFunds())));
    DepositBeside(net, e);
    BatchIsUndone(net, f);
    g := Next(net, f, Chain(FinishRelease(SERVER)));
    h := Next(net, g, Chain(UndoBatch));
  }

  lemma BatchErases() returns (states: seq<World>)
    ensures Follows(Net(1), states, BatchSteps()) && states[0] == Start(Net(1))
    ensures Included(states[7], 2, OrderFunds()) && |states[7].sim.blocks| == 3
    ensures states[7].books == OrderBooks() && states[7].workers == map[] && OrderEscrow(1) !in states[7].sim.buckets
  {
    var net, a := Net(1), Start(Net(1));
    var b, c, d, e := BatchOpens(net, a);
    var f, g, h := BatchCloses(net, e);
    SevenSteps(net, a, b, c, d, e, f, g, h);
    states := [a, b, c, d, e, f, g, h];
  }

  lemma SevenSteps(net: Network, a: World, b: World, c: World, d: World, e: World, f: World, g: World, h: World)
    requires a.sim.blocks != [] && b.sim.blocks != [] && c.sim.blocks != [] && d.sim.blocks != []
    requires e.sim.blocks != [] && f.sim.blocks != [] && g.sim.blocks != [] && h.sim.blocks != []
    requires b == Next(net, a, BatchSteps()[0]) && c == Next(net, b, BatchSteps()[1])
             && d == Next(net, c, BatchSteps()[2])
    requires e == Next(net, d, BatchSteps()[3]) && f == Next(net, e, BatchSteps()[4])
             && g == Next(net, f, BatchSteps()[5])
    requires h == Next(net, g, BatchSteps()[6])
    ensures Follows(net, [a, b, c, d, e, f, g, h], BatchSteps())
  {
  }

  lemma DepositBeside(net: Network, w: World)
    requires w.sim.blocks != [] && w.flight.batch.Some? && OrderEscrow(2) in w.sim.buckets && TX !in w.txs
    ensures var w', run := Next(net, w, Chain(Deposit(OrderFunds()))), w.flight.batch.value;
            && OrderEscrow(2) in w'.sim.buckets && w'.flight.batch.Some?
            && w'.flight.batch.value == run.(deposits := w'.flight.batch.value.deposits)
  {
  }

  /**
   * A deposit that arrives while a batch waits is credited to its order although its bucket never shows it: one hundred
   * units in the books against nothing on chain.
   */
  lemma BooksExceedChain() returns (states: seq<World>)
    ensures Run(Net(1), states, BatchSteps() + HintSteps(0))
    ensures var after := states[12];
            Sum(CreditedOf(after.books, OrderEscrow(1))) == 100 && DepositedFor(after.sim, OrderEscrow(1)) == 0
  {
    var net := Net(1);
    var first := BatchErases();
    var hint := HintReads(net, first[7], 0, 2, OrderFunds());
    OrderIsCredited(net, EventIn(first[7], 2, OrderFunds()), 2);
    var last := Next(net, hint[4], Advance(0, FundedOrder));
    Committed(net, hint[4], 0, OrderBooks(), EventIn(first[7], 2, OrderFunds()), 2);
    JoinHint(net, first[..7], BatchSteps(), hint, last, 0);
    states := first[..7] + hint + [last];
    OneCredit(last.books, EventIn(first[7], 2, OrderFunds()));
  }

  lemma OneCredit(b: Books, ev: Event)
    requires ev.funded == OrderFunds()
             && b.deposits == map[KEY := NewRow(ev, Some(0), Some(0), None, CreditedRow, None)]
    ensures Sum(CreditedOf(b, OrderEscrow(1))) == 100
  {
    assert CreditedOf(b, OrderEscrow(1)) == map[][KEY := 100];
    SumAdd(map[], KEY, 100);
  }
}
