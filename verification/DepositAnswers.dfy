/**
 * What one settlement event gets from `processEvent` (src/modules/crypto/deposits.ts:67-180), in every case: credited,
 * held, refused and why, or thrown; and what each answer writes.
 */
module DepositAnswers {
  import opened Common
  import opened SimChain
  import opened DepositRules
  import opened DepositBooks
  import Registry

  // ---- how an event is read -----------------------------------------------------------------------------------------

  /** The event's reference is that of order intent `i`. */
  predicate NamesIntent(b: Books, ev: Event, i: nat)
  {
    i < |b.intents| && ev.funded.reference == OrderPayment(b.intents[i].order, i)
  }

  predicate NamesPool(b: Books, ev: Event, p: nat) { p < |b.poolIntents| && ev.funded.reference == PoolPayment(p) }

  /** A reference that nobody was given. */
  predicate NamesNothing(b: Books, ev: Event)
  {
    match ev.funded.reference
    case OrderPayment(order, i) => i >= |b.intents| || b.intents[i].order != order
    case PoolPayment(p) => p >= |b.poolIntents|
    case OtherReference(_) => true
  }

  /** The event has been decided before. */
  predicate Decided(b: Books, key: Key) { key in b.deposits && b.deposits[key].status != PendingRow }

  /** The registry row of the event's token, if this network has one. */
  function AssetOf(net: Network, ev: Event): Option<nat>
  {
    if ev.funded.token in net.tokens && net.tokens[ev.funded.token] in net.assets then Some(net.tokens[ev.funded.token])
    else None
  }

  predicate Supported(net: Network, ev: Event) { InAsset(net, ev.funded, AssetOf(net, ev)) }

  predicate HasCredit(b: Books, i: nat)
  {
    exists k :: k in b.deposits && b.deposits[k].intent == Some(i) && b.deposits[k].status == CreditedRow
  }

  predicate HasPoolCredit(b: Books, p: nat)
  {
    exists k :: k in b.deposits && b.deposits[k].poolIntent == Some(p) && b.deposits[k].status == CreditedRow
  }

  /** The block read now at the event's height is the event's, under enough confirmations by the head read before. */
  predicate Deep(net: Network, ev: Event, head: nat, read: HashRead)
  {
    read == Answer(Some(ev.blockHash)) && head + 1 >= ev.blockNumber + net.finality
  }

  // ---- the answers --------------------------------------------------------------------------------------------------

  predicate Is(r: Outcome, status: ResultStatus) { r.Done? && r.result.status == status }

  predicate RefusedFor(r: Outcome, reason: Reason) { Is(r, Rejected) && r.result.reason == Some(reason) }

  /** Events that never reach an intent. */
  lemma OtherAnswers(net: Network, b: Books, ev: Event, head: nat, read: HashRead, funding: FundingResult)
    ensures var r := ProcessEvent(net, b, ev, head, read, funding);
            && (Decided(b, ev.key) ==>
                  var row := b.deposits[ev.key];
                  && r.Done? && r.books == b && r.result.reason == row.reason && r.result.logIndex == ev.key.logIndex
                  && (row.status == CreditedRow ==> r.result.status == Duplicate)
                  && (row.status == RejectedRow ==> r.result.status == Rejected)
                  && (row.status == ReorgedRow ==> r.result.status == Reorganized))
            && (!Decided(b, ev.key) && !Supported(net, ev) ==> RefusedFor(r, UnsupportedAsset))
            && (!Decided(b, ev.key) && Supported(net, ev) && NamesNothing(b, ev) ==> RefusedFor(r, UnknownReference))
  {
  }

  /** An event that is not decided yet, in a supported asset, under the reference of order intent `i`. */
  predicate ForOrder(net: Network, b: Books, ev: Event, i: nat)
  {
    !Decided(b, ev.key) && Supported(net, ev) && NamesIntent(b, ev, i)
  }

  predicate ForPool(net: Network, b: Books, ev: Event, p: nat)
  {
    !Decided(b, ev.key) && Supported(net, ev) && NamesPool(b, ev, p)
  }

  /** Same chain and escrow; with the balance and its decimals; with the amount: the tests in their order. */
  predicate InPlace(net: Network, intent: Intent, ev: Event)
  {
    intent.chainId == net.chainId && ev.funded.escrowRef == OrderEscrow(intent.order)
  }

  predicate SameBalance(net: Network, intent: Intent, asset: nat)
    requires intent.asset in net.assets && asset in net.assets
  {
    && net.assets[intent.asset].balanceKey == net.assets[asset].balanceKey
    && net.assets[intent.asset].decimals == net.assets[asset].decimals
  }

  predicate FromSender(intent: Intent, ev: Event) { intent.payer.Some? ==> intent.payer.value == ev.funded.payer }

  /**
   * An order deposit is credited exactly if it is all that the intent asks for, the intent has no credit yet, the block
   * is canonical and deep enough, and the order is not being confirmed for a second time.
   */
  lemma OrderCreditedExactly(net: Network, b: Books, ev: Event, head: nat, read: HashRead, funding: FundingResult,
      i: nat)
    requires Exact(net, b) && ForOrder(net, b, ev, i)
    ensures var r, intent, asset := ProcessEvent(net, b, ev, head, read, funding), b.intents[i], AssetOf(net, ev).value;
            var owed := Fulfils(net, intent, ev.funded, asset) && !HasCredit(b, i);
            var second := funding == FundedOrder && ConfirmedTwin(b, i);
            && (Is(r, Credited) <==> owed && Deep(net, ev, head, read) && !second)
            && (Is(r, Pending) <==> owed && read.Answer? && !Deep(net, ev, head, read))
            && (r.Threw? <==> owed && (read.Down? || (Deep(net, ev, head, read) && second)))
            && (Is(r, Rejected) <==> !owed)
  {
    if OrderObjection(net, b, ev, i, AssetOf(net, ev).value).None? {
      CreditIsExact(net, b, ev, i, AssetOf(net, ev).value);
    }
  }

  /** Another intent of the same order is confirmed. */
  predicate ConfirmedTwin(b: Books, i: nat)
    requires i < |b.intents|
  {
    exists j :: 0 <= j < |b.intents| && j != i && b.intents[j].order == b.intents[i].order
        && b.intents[j].status == Confirmed
  }

  /** And it is refused for the first thing that does not match. */
  lemma OrderRefusedExactly(net: Network, b: Books, ev: Event, head: nat, read: HashRead, funding: FundingResult,
      i: nat)
    requires Exact(net, b) && ForOrder(net, b, ev, i)
    ensures var r, intent, asset := ProcessEvent(net, b, ev, head, read, funding), b.intents[i], AssetOf(net, ev).value;
            && (RefusedFor(r, WrongChain) <==> intent.chainId != net.chainId)
            && (RefusedFor(r, WrongEscrow) <==>
                  intent.chainId == net.chainId && ev.funded.escrowRef != OrderEscrow(intent.order))
            && (RefusedFor(r, WrongAsset) <==> InPlace(net, intent, ev) && !SameBalance(net, intent, asset))
            && (RefusedFor(r, Underpaid) <==>
                  InPlace(net, intent, ev) && SameBalance(net, intent, asset) && ev.funded.amount < intent.amount)
            && (RefusedFor(r, Overpaid) <==>
                  InPlace(net, intent, ev) && SameBalance(net, intent, asset) && ev.funded.amount > intent.amount)
            && (RefusedFor(r, WrongSender) <==>
                  && InPlace(net, intent, ev) && SameBalance(net, intent, asset) && ev.funded.amount == intent.amount
                  && !FromSender(intent, ev))
            && (RefusedFor(r, DuplicatePayment) <==> Fulfils(net, intent, ev.funded, asset) && HasCredit(b, i))
            && !RefusedFor(r, NotCentExact)
  {
    if OrderObjection(net, b, ev, i, AssetOf(net, ev).value).None? {
      CreditIsExact(net, b, ev, i, AssetOf(net, ev).value);
    }
  }

  /** A pool deposit: the same with the pool's asset itself, and no sender. */
  lemma PoolAnsweredExactly(net: Network, b: Books, ev: Event, head: nat, read: HashRead, funding: FundingResult,
      p: nat)
    requires ForPool(net, b, ev, p)
    ensures var r, intent, asset :=
              ProcessEvent(net, b, ev, head, read, funding), b.poolIntents[p], AssetOf(net, ev).value;
            var owed := FulfilsPool(net, intent, ev.funded, asset) && !HasPoolCredit(b, p);
            && (Is(r, Credited) <==> owed && Deep(net, ev, head, read) && ev.funded.amount > 0)
            && (Is(r, Pending) <==> owed && read.Answer? && !Deep(net, ev, head, read))
            && (r.Threw? <==> owed && (read.Down? || (Deep(net, ev, head, read) && ev.funded.amount == 0)))
            && (Is(r, Rejected) <==> !owed)
    ensures var r, intent, asset :=
              ProcessEvent(net, b, ev, head, read, funding), b.poolIntents[p], AssetOf(net, ev).value;
            var placed := && intent.chainId == net.chainId
                          && ev.funded.escrowRef == PoolEscrow(intent.pool, intent.poolAsset);
            && (RefusedFor(r, WrongChain) <==> intent.chainId != net.chainId)
            && (RefusedFor(r, WrongEscrow) <==> intent.chainId == net.chainId && !placed)
            && (RefusedFor(r, WrongAsset) <==> placed && intent.asset != asset)
            && (RefusedFor(r, Underpaid) <==> placed && intent.asset == asset && ev.funded.amount < intent.amount)
            && (RefusedFor(r, Overpaid) <==> placed && intent.asset == asset && ev.funded.amount > intent.amount)
            && (RefusedFor(r, DuplicatePayment) <==> FulfilsPool(net, intent, ev.funded, asset) && HasPoolCredit(b, p))
  {
  }

  // ---- what each answer writes --------------------------------------------------------------------------------------

  /** Row `k` reads as given and every other row stays. */
  predicate OneRow(b: Books, b': Books, k: Key, row: Row) { b'.deposits == b.deposits[k := row] }

  /** Intent `i` has the status and every other intent stays; `i` of None touches none. */
  predicate OneIntent(b: Books, b': Books, i: Option<nat>, status: IntentStatus)
  {
    && |b'.intents| == |b.intents|
    && forall j :: 0 <= j < |b.intents| ==>
         b'.intents[j] == if i == Some(j) then b.intents[j].(status := status) else b.intents[j]
  }

  predicate OnePool(b: Books, b': Books, p: Option<nat>, status: IntentStatus)
  {
    && |b'.poolIntents| == |b.poolIntents|
    && forall j :: 0 <= j < |b.poolIntents| ==>
         b'.poolIntents[j] == if p == Some(j) then b.poolIntents[j].(status := status) else b.poolIntents[j]
  }

  /** An open intent becomes exceptional, any other stays as it is. */
  function AfterRefusal(s: IntentStatus): IntentStatus
  {
    if s in {AwaitingDeposit, PendingFinality} then Exceptional else s
  }

  /** Money records and the checkpoint stay. */
  predicate NothingMoved(b: Books, b': Books)
  {
    b'.fundings == b.fundings && b'.poolMoves == b.poolMoves && b'.checkpoint == b.checkpoint
  }

  /** The event is recorded as refused unless it has a row already. */
  predicate RecordedAs(b: Books, b': Books, ev: Event, row: Row)
  {
    if ev.key in b.deposits then b'.deposits == b.deposits else OneRow(b, b', ev.key, row)
  }

  /** A refused order deposit: the row, an open intent made exceptional, and always a case for the order. */
  lemma OrderRefusalWrites(net: Network, b: Books, ev: Event, head: nat, read: HashRead, funding: FundingResult, i: nat)
    requires !Decided(b, ev.key) && NamesIntent(b, ev, i) && Is(ProcessEvent(net, b, ev, head, read, funding), Rejected)
    ensures var r := ProcessEvent(net, b, ev, head, read, funding);
            && r.result.reason.Some? && r.result.logIndex == ev.key.logIndex && NothingMoved(b, r.books)
            && RecordedAs(b, r.books, ev, Row(ev.blockNumber, ev.blockHash, ev.funded, AssetOf(net, ev), Some(i), None,
                                              RejectedRow, r.result.reason))
            && OneIntent(b, r.books, Some(i), AfterRefusal(b.intents[i].status)) && r.books.poolIntents == b.poolIntents
            && r.books.cases == b.cases + [OrderCase(b.intents[i].order, r.result.reason.value, ev.key)]
  {
    RefusalIsRecorded(net, b, ev, head, read, funding, i);
  }

  lemma RefusalIsRecorded(net: Network, b: Books, ev: Event, head: nat, read: HashRead, funding: FundingResult, i: nat)
    requires !Decided(b, ev.key) && NamesIntent(b, ev, i) && Is(ProcessEvent(net, b, ev, head, read, funding), Rejected)
    ensures var r := ProcessEvent(net, b, ev, head, read, funding);
            r.result.reason.Some? && r == RecordRejection(b, ev, Some(i), AssetOf(net, ev), r.result.reason.value)
  {
  }

  /** A refused pool deposit: the row, an open intent made exceptional, and always a case for the pool. */
  lemma PoolRefusalWrites(net: Network, b: Books, ev: Event, head: nat, read: HashRead, funding: FundingResult, p: nat)
    requires ForPool(net, b, ev, p) && Is(ProcessEvent(net, b, ev, head, read, funding), Rejected)
    ensures var r := ProcessEvent(net, b, ev, head, read, funding);
            && r.result.reason.Some? && r.result.logIndex == ev.key.logIndex && NothingMoved(b, r.books)
            && RecordedAs(b, r.books, ev, Row(ev.blockNumber, ev.blockHash, ev.funded, AssetOf(net, ev), None, Some(p),
                                              RejectedRow, r.result.reason))
            && OnePool(b, r.books, Some(p), AfterRefusal(b.poolIntents[p].status)) && r.books.intents == b.intents
            && r.books.cases == b.cases + [PoolCase(b.poolIntents[p].pool, r.result.reason.value, ev.key)]
  {
  }

  /** A refused deposit that names no order, in an unsupported asset or under no known reference: one case, once. */
  lemma UnmatchedRefusalWrites(net: Network, b: Books, ev: Event, head: nat, read: HashRead, funding: FundingResult)
    requires !Decided(b, ev.key) && (NamesNothing(b, ev) || (!Supported(net, ev) && !ev.funded.reference.OrderPayment?))
    ensures var r := ProcessEvent(net, b, ev, head, read, funding);
            && Is(r, Rejected) && r.result.reason.Some? && r.result.logIndex == ev.key.logIndex
            && NothingMoved(b, r.books)
            && RecordedAs(b, r.books, ev, Row(ev.blockNumber, ev.blockHash, ev.funded, AssetOf(net, ev), None, None,
                                              RejectedRow, r.result.reason))
            && r.books.intents == b.intents && r.books.poolIntents == b.poolIntents
            && r.books.cases == if ev.key in b.deposits then b.cases
                                else b.cases + [UnmatchedCase(r.result.reason.value, ev.key)]
  {
  }

  /** What a pending row keeps of itself, and a new one takes from the event. */
  function RowFunded(b: Books, ev: Event): Funded
  {
    if ev.key in b.deposits then b.deposits[ev.key].funded else ev.funded
  }

  /**
   * A held order deposit: a pending row that names the block just read, and an intent that waits for it to become
   * final.
   */
  lemma OrderHoldWrites(net: Network, b: Books, ev: Event, head: nat, read: HashRead, funding: FundingResult, i: nat)
    requires ForOrder(net, b, ev, i) && Is(ProcessEvent(net, b, ev, head, read, funding), Pending)
    ensures var r := ProcessEvent(net, b, ev, head, read, funding);
            && r.result.reason.None? && r.result.logIndex == ev.key.logIndex
            && NothingMoved(b, r.books) && r.books.cases == b.cases && r.books.poolIntents == b.poolIntents
            && ev.key in r.books.deposits && OneRow(b, r.books, ev.key, r.books.deposits[ev.key])
            && var row := r.books.deposits[ev.key];
            && row.status == PendingRow && row.blockNumber == ev.blockNumber && row.blockHash == ev.blockHash
            && row.funded == RowFunded(b, ev)
            && (ev.key !in b.deposits ==> row.intent == Some(i) && row.asset == AssetOf(net, ev))
            && OneIntent(b, r.books, Some(i),
                         if b.intents[i].status == AwaitingDeposit then PendingFinality else b.intents[i].status)
  {
  }

  /**
   * A credited order deposit: a credited row for the intent in the block just read, one funding call with the order's
   * own cents, and an intent that is confirmed exactly if the order was funded by it.
   */
  lemma OrderCreditWrites(net: Network, b: Books, ev: Event, head: nat, read: HashRead, funding: FundingResult, i: nat)
    requires Exact(net, b) && ForOrder(net, b, ev, i) && Is(ProcessEvent(net, b, ev, head, read, funding), Credited)
    ensures var r := ProcessEvent(net, b, ev, head, read, funding);
            && r.result.reason.None? && r.result.logIndex == ev.key.logIndex
            && r.books.cases == b.cases && r.books.poolIntents == b.poolIntents && r.books.poolMoves == b.poolMoves
            && r.books.checkpoint == b.checkpoint
            && r.books.fundings == b.fundings + [FundingCall(ev.key, i, b.intents[i].orderMinor, ev.funded.amount)]
            && OneIntent(b, r.books, Some(i), if funding == FundedOrder then Confirmed else Exceptional)
            && ev.key in r.books.deposits && OneRow(b, r.books, ev.key, r.books.deposits[ev.key])
            && var row := r.books.deposits[ev.key];
            && row.status == CreditedRow && row.intent == Some(i) && row.asset == AssetOf(net, ev)
            && row.blockNumber == ev.blockNumber && row.blockHash == ev.blockHash && row.funded == RowFunded(b, ev)
  {
    CreditIsExact(net, b, ev, i, AssetOf(net, ev).value);
  }

  /** A held pool deposit: a pending row, the block of which stays the first one seen. */
  lemma PoolHoldWrites(net: Network, b: Books, ev: Event, head: nat, read: HashRead, funding: FundingResult, p: nat)
    requires ForPool(net, b, ev, p) && Is(ProcessEvent(net, b, ev, head, read, funding), Pending)
    ensures var r := ProcessEvent(net, b, ev, head, read, funding);
            && r.result.reason.None? && r.result.logIndex == ev.key.logIndex
            && NothingMoved(b, r.books) && r.books.cases == b.cases && r.books.intents == b.intents
            && RecordedAs(b, r.books, ev, Row(ev.blockNumber, ev.blockHash, ev.funded, AssetOf(net, ev), None, Some(p),
                                              PendingRow, None))
            && OnePool(b, r.books, Some(p),
                       if b.poolIntents[p].status == AwaitingDeposit then PendingFinality else b.poolIntents[p].status)
  {
  }

  /** A credited pool deposit: a credited row, one DEPOSIT movement of the amount, and a confirmed intent. */
  lemma PoolCreditWrites(net: Network, b: Books, ev: Event, head: nat, read: HashRead, funding: FundingResult, p: nat)
    requires ForPool(net, b, ev, p) && Is(ProcessEvent(net, b, ev, head, read, funding), Credited)
    ensures var r := ProcessEvent(net, b, ev, head, read, funding);
            && r.result.reason.None? && r.result.logIndex == ev.key.logIndex
            && r.books.cases == b.cases && r.books.intents == b.intents && r.books.fundings == b.fundings
            && r.books.checkpoint == b.checkpoint
            && r.books.poolMoves == b.poolMoves + [PoolMove(ev.key, p, ev.funded.amount)]
            && OnePool(b, r.books, Some(p), Confirmed)
            && ev.key in r.books.deposits && OneRow(b, r.books, ev.key, r.books.deposits[ev.key])
            && var row := r.books.deposits[ev.key];
            && row.status == CreditedRow && row.poolIntent == Some(p) && row.asset == AssetOf(net, ev)
            && row.funded == RowFunded(b, ev)
            && (ev.key !in b.deposits ==> row.blockNumber == ev.blockNumber && row.blockHash == ev.blockHash)
            && (ev.key in b.deposits ==>
                  row.blockNumber == b.deposits[ev.key].blockNumber && row.blockHash == b.deposits[ev.key].blockHash)
  {
  }

  // ---- payment choices ----------------------------------------------------------------------------------------------

  predicate Awaits(order: OrderView) { order.awaitingPayment && !order.paid }

  predicate Accepted(net: Network, asset: nat)
  {
    asset in net.assets && net.assets[asset].usdPegged && net.assets[asset].allowlisted
  }

  /** Intent `i` of the order is open, in the given status. */
  predicate OpenFor(b: Books, order: nat, i: nat, status: IntentStatus)
  {
    i < |b.intents| && b.intents[i].order == order && b.intents[i].status == status
  }

  /** The order's open intent already asks for this asset from this sender. */
  predicate SameChoice(net: Network, b: Books, order: nat, i: nat, asset: nat, payer: Option<Address>)
    requires asset in net.assets
  {
    && OpenFor(b, order, i, AwaitingDeposit) && b.intents[i].chainId == net.assets[asset].chainId
    && b.intents[i].asset == asset && b.intents[i].payer == payer
  }

  predicate Confirming(b: Books, order: nat)
  {
    exists i :: 0 <= i < |b.intents| && OpenFor(b, order, i, PendingFinality)
  }

  predicate Chosen(net: Network, b: Books, order: nat, asset: nat, payer: Option<Address>)
    requires asset in net.assets
  {
    exists i :: 0 <= i < |b.intents| && SameChoice(net, b, order, i, asset, payer)
  }

  lemma OpenIsUnique(b: Books, order: nat, i: nat)
    requires OneOpenEach(b) && i < |b.intents| && b.intents[i].order == order && Open(b.intents[i].status)
    ensures FirstOpen(b.intents, order) == Some(i)
  {
    FirstOpenSound(b.intents, order);
  }

  /** What the first open intent of the order says. */
  lemma OpenReads(net: Network, b: Books, order: nat, asset: nat, payer: Option<Address>)
    requires OneOpenEach(b)
    ensures var open := FirstOpen(b.intents, order);
            && (open.Some? ==>
                  && open.value < |b.intents| && b.intents[open.value].order == order
                  && Open(b.intents[open.value].status))
            && (open.None? ==>
                  forall i :: 0 <= i < |b.intents| && b.intents[i].order == order ==> !Open(b.intents[i].status))
            && (forall i: nat :: OpenFor(b, order, i, AwaitingDeposit) ==> open == Some(i))
            && (Confirming(b, order) <==> open.Some? && b.intents[open.value].status == PendingFinality)
            && (asset in net.assets ==>
                  (Chosen(net, b, order, asset, payer) <==>
                     open.Some? && SameChoice(net, b, order, open.value, asset, payer)))
  {
    FirstOpenSound(b.intents, order);
    var open := FirstOpen(b.intents, order);
    forall i: nat | i < |b.intents| && b.intents[i].order == order && Open(b.intents[i].status)
      ensures open == Some(i)
    {
      OpenIsUnique(b, order, i);
    }
    if open.Some? && b.intents[open.value].status == PendingFinality {
      assert OpenFor(b, order, open.value, PendingFinality);
    }
  }

  /** A payment choice is refused for the first of these that applies, and accepted if none does. */
  lemma ChoiceRefusedExactly(net: Network, b: Books, order: OrderView, asset: nat, payer: Option<Address>)
    requires OneOpenEach(b)
    ensures var r := CreatePayment(net, b, order, asset, payer);
            var ready := Awaits(order) && order.usd && order.held && !order.cardAttempt && Accepted(net, asset);
            && (r == Err(OrderStateConflict) <==>
                  || !Awaits(order) || (order.usd && order.held && order.cardAttempt)
                  || (ready && Confirming(b, order.id)))
            && (r == Err(UnsupportedAssetError) <==>
                  Awaits(order) && (!order.usd || (order.held && !order.cardAttempt && !Accepted(net, asset))))
            && (r == Err(SlotExpired) <==> Awaits(order) && order.usd && !order.held)
            && (r == Err(FeatureDisabled) <==>
                  && ready && !Confirming(b, order.id) && !Chosen(net, b, order.id, asset, payer)
                  && net.assets[asset].decimals < 2)
            && (r.Ok? <==>
                  && ready && !Confirming(b, order.id)
                  && (Chosen(net, b, order.id, asset, payer) || net.assets[asset].decimals >= 2))
  {
    OpenReads(net, b, order.id, asset, payer);
  }

  /** The intent that a new choice makes: the asset's chain, the order's exact amount, and the chosen sender. */
  predicate NewIntent(net: Network, order: OrderView, asset: nat, payer: Option<Address>, made: Intent)
    requires asset in net.assets && net.assets[asset].decimals >= 2
  {
    && made.order == order.id && made.chainId == net.assets[asset].chainId && made.asset == asset && made.payer == payer
    && made.amount == order.amountMinor * Registry.Pow10(net.assets[asset].decimals - 2)
    && made.orderMinor == order.amountMinor && made.status == AwaitingDeposit
  }

  /**
   * The same choice again changes nothing and shows the same intent. Another one cancels the order's waiting intent, if
   * it has one, and adds one for exactly the order's amount; nothing else moves.
   */
  lemma ChoiceWrites(net: Network, b: Books, order: OrderView, asset: nat, payer: Option<Address>)
    requires OneOpenEach(b) && CreatePayment(net, b, order, asset, payer).Ok?
    ensures asset in net.assets
    ensures var (b', shown) := CreatePayment(net, b, order, asset, payer).value;
            if Chosen(net, b, order.id, asset, payer) then b' == b && SameChoice(net, b, order.id, shown, asset, payer)
            else
              && b' == b.(intents := b'.intents) && shown == |b.intents| && |b'.intents| == |b.intents| + 1
              && net.assets[asset].decimals >= 2 && NewIntent(net, order, asset, payer, b'.intents[shown])
              && forall i :: 0 <= i < |b.intents| ==>
                   b'.intents[i] == if OpenFor(b, order.id, i, AwaitingDeposit) then b.intents[i].(status := Cancelled)
                                    else b.intents[i]
  {
    OpenReads(net, b, order.id, asset, payer);
  }

  /**
   * Cancelling an unpaid order cancels its waiting intents and nothing else, unless a deposit for it is confirming, and
   * then nothing at all.
   */
  lemma CancelExact(b: Books, order: nat)
    ensures Confirming(b, order) ==> CancelFunding(b, order) == b
    ensures !Confirming(b, order) ==>
              var b' := CancelFunding(b, order);
              && b' == b.(intents := b'.intents) && |b'.intents| == |b.intents|
              && forall i :: 0 <= i < |b.intents| ==>
                   b'.intents[i] == if OpenFor(b, order, i, AwaitingDeposit) then b.intents[i].(status := Cancelled)
                                    else b.intents[i]
  {
    if exists j :: 0 <= j < |b.intents| && b.intents[j].order == order && b.intents[j].status == PendingFinality {
      var j :| 0 <= j < |b.intents| && b.intents[j].order == order && b.intents[j].status == PendingFinality;
      assert OpenFor(b, order, j, PendingFinality);
    }
  }

  /** Funding a pool adds one waiting intent for exactly that asset and amount, which must be positive. */
  lemma PoolIntentExact(b: Books, pool: nat, poolAsset: nat, chainId: nat, asset: nat, amount: nat)
    ensures var b' := CreatePoolIntent(b, pool, poolAsset, chainId, asset, amount);
            && b' == b.(poolIntents := b'.poolIntents)
            && (amount == 0 ==> b' == b)
            && (amount > 0 ==>
                  b'.poolIntents ==
                    b.poolIntents + [PoolIntent(pool, poolAsset, chainId, asset, amount, AwaitingDeposit)])
  {
  }
}
