/**
 * The off-chain half of the escrow deposits (src/modules/crypto/deposits.ts, commands.ts): deposit and intent rows, and
 * what one database transaction does to them. A transaction that throws changes nothing.
 */
module DepositRules {
  import opened Common
  import opened SimChain
  import Registry

  datatype Asset = Asset(chainId: nat, decimals: nat, balanceKey: nat, usdPegged: bool, allowlisted: bool)

  /**
   * One enabled network and the asset registry. `tokens` maps the token field of an event on this network, the zero
   * address for the native asset, to its registry row.
   */
  datatype Network = Network(chainId: nat, settlement: Address, finality: nat, assets: map<nat, Asset>,
      tokens: map<Address, nat>)

  datatype IntentStatus = AwaitingDeposit | PendingFinality | Confirmed | Exceptional | Cancelled

  /**
   * `orderMinor` is the order amount in cents that `amount` was computed from. The row's identifier is its position.
   */
  datatype Intent = Intent(order: nat, chainId: nat, asset: nat, amount: nat, payer: Option<Address>, orderMinor: nat,
      status: IntentStatus)

  datatype PoolIntent = PoolIntent(pool: nat, poolAsset: nat, chainId: nat, asset: nat, amount: nat,
      status: IntentStatus)

  /** A chain event identity on this network. */
  datatype Key = Key(tx: Hash, logIndex: nat)

  datatype Event = Event(key: Key, blockNumber: nat, blockHash: Hash, funded: Funded)

  datatype Reason =
    | UnsupportedAsset | UnknownReference | WrongChain | WrongEscrow | WrongAsset | Underpaid | Overpaid | WrongSender
    | DuplicatePayment | NotCentExact | NoLongerCanonical

  datatype RowStatus = PendingRow | CreditedRow | RejectedRow | ReorgedRow

  datatype Row = Row(
    blockNumber: nat, blockHash: Hash, funded: Funded, asset: Option<nat>, intent: Option<nat>, poolIntent: Option<nat>,
    status: RowStatus, reason: Option<Reason>)

  /** What `applyChainFunding` answers; only `Funded` confirms the intent. */
  datatype FundingResult = FundedOrder | LateFunding | DuplicateFunding | AmountMismatch | DuplicateFact

  /** A call of `applyChainFunding`, and a DEPOSIT movement into a pool. */
  datatype FundingCall = FundingCall(key: Key, intent: nat, amountMinor: int, amountAtomic: nat)
  datatype PoolMove = PoolMove(key: Key, poolIntent: nat, amountAtomic: nat)

  /** A case opened for an operator. */
  datatype Case = OrderCase(order: nat, reason: Reason, key: Key) | UnmatchedCase(reason: Reason,
      key: Key) | PoolCase(pool: nat, reason: Reason, key: Key)

  datatype Books = Books(
    deposits: map<Key, Row>,
    intents: seq<Intent>,
    poolIntents: seq<PoolIntent>,
    fundings: seq<FundingCall>,
    poolMoves: seq<PoolMove>,
    cases: seq<Case>,
    checkpoint: Option<nat>)

  const EMPTY_BOOKS := Books(map[], [], [], [], [], [], None)

  datatype ResultStatus = NotFound | Rejected | Pending | Credited | Duplicate | Reorganized

  datatype DepositResult = DepositResult(status: ResultStatus, reason: Option<Reason>, logIndex: nat)

  /** What the reader's `getBlockHash` answered, or that the node was down. */
  datatype HashRead = Down | Answer(hash: Option<Hash>)

  datatype Outcome = Threw | Done(books: Books, result: DepositResult)

  // ------------------------------------------------------------------------------------------------------------
  // Lookups

  function FindIntent(b: Books, ref: Reference): Option<nat>
  {
    if ref.OrderPayment? && ref.intent < |b.intents| && b.intents[ref.intent].order == ref.order then Some(ref.intent)
    else None
  }

  function FindPoolIntent(b: Books, ref: Reference): Option<nat>
  {
    if ref.PoolPayment? && ref.intent < |b.poolIntents| then Some(ref.intent) else None
  }

  function AssetForToken(net: Network, token: Address): Option<nat>
  {
    if token in net.tokens && net.tokens[token] in net.assets then Some(net.tokens[token]) else None
  }

  predicate CreditedFor(b: Books, intent: nat)
  {
    exists k :: k in b.deposits && b.deposits[k].intent == Some(intent) && b.deposits[k].status == CreditedRow
  }

  predicate CreditedForPool(b: Books, poolIntent: nat)
  {
    exists k :: k in b.deposits && b.deposits[k].poolIntent == Some(poolIntent) && b.deposits[k].status == CreditedRow
  }

  predicate Open(s: IntentStatus) { s == AwaitingDeposit || s == PendingFinality }

  function SetIntent(b: Books, i: nat, s: IntentStatus): Books
    requires i < |b.intents|
  {
    b.(intents := b.intents[i := b.intents[i].(status := s)])
  }

  function SetPool(b: Books, i: nat, s: IntentStatus): Books
    requires i < |b.poolIntents|
  {
    b.(poolIntents := b.poolIntents[i := b.poolIntents[i].(status := s)])
  }

  function NewRow(ev: Event, asset: Option<nat>, intent: Option<nat>, poolIntent: Option<nat>, status: RowStatus,
      reason: Option<Reason>): Row
  {
    Row(ev.blockNumber, ev.blockHash, ev.funded, asset, intent, poolIntent, status, reason)
  }

  /** `insert ... on conflict do nothing`. */
  function InsertIfAbsent(b: Books, key: Key, row: Row): Books
  {
    if key in b.deposits then b else b.(deposits := b.deposits[key := row])
  }

  // ------------------------------------------------------------------------------------------------------------
  // Rejections

  function RecordRejection(b: Books, ev: Event, intent: Option<nat>, asset: Option<nat>, reason: Reason): Outcome
    requires intent.Some? ==> intent.value < |b.intents|
  {
    var recorded := ev.key !in b.deposits;
    var b1 := InsertIfAbsent(b, ev.key, NewRow(ev, asset, intent, None, RejectedRow, Some(reason)));
    var b2 := if intent.Some? && Open(b.intents[intent.value].status) then SetIntent(b1, intent.value, Exceptional)
        else b1;
    var b3 := if intent.Some? then b2.(cases := b2.cases + [OrderCase(b.intents[intent.value].order, reason, ev.key)])
              else if recorded then b2.(cases := b2.cases + [UnmatchedCase(reason, ev.key)])
              else b2;
    Done(b3, DepositResult(Rejected, Some(reason), ev.key.logIndex))
  }

  function RejectPool(b: Books, ev: Event, p: nat, asset: nat, reason: Reason): Outcome
    requires p < |b.poolIntents|
  {
    var b1 := InsertIfAbsent(b, ev.key, NewRow(ev, Some(asset), None, Some(p), RejectedRow, Some(reason)));
    var b2 := if Open(b.poolIntents[p].status) then SetPool(b1, p, Exceptional) else b1;
    Done(b2.(cases := b2.cases + [PoolCase(b.poolIntents[p].pool, reason, ev.key)]),
        DepositResult(Rejected, Some(reason), ev.key.logIndex))
  }

  // ------------------------------------------------------------------------------------------------------------
  // Finality

  function Confirmations(head: nat, ev: Event): int { head - ev.blockNumber + 1 }

  /** The event's block is canonical and deep enough, by the hash read now and the head read earlier. */
  predicate IsFinal(net: Network, ev: Event, head: nat, hash: Option<Hash>)
  {
    hash == Some(ev.blockHash) && Confirmations(head, ev) >= net.finality
  }

  // ------------------------------------------------------------------------------------------------------------
  // One event, one transaction

  /** The checks of an order deposit before finality, in order; None lets it through. */
  function OrderObjection(net: Network, b: Books, ev: Event, i: nat, asset: nat): Option<Reason>
    requires i < |b.intents| && asset in net.assets && b.intents[i].asset in net.assets
  {
    var intent := b.intents[i];
    var expected, actual := net.assets[intent.asset], net.assets[asset];
    if intent.chainId != net.chainId then Some(WrongChain)
    else if ev.funded.escrowRef != OrderEscrow(intent.order) then Some(WrongEscrow)
    else if expected.balanceKey != actual.balanceKey || expected.decimals != actual.decimals then Some(WrongAsset)
    else if ev.funded.amount < intent.amount then Some(Underpaid)
    else if ev.funded.amount > intent.amount then Some(Overpaid)
    else if intent.payer.Some? && intent.payer.value != ev.funded.payer then Some(WrongSender)
    else if CreditedFor(b, i) then Some(DuplicatePayment)
    else None
  }

  function HoldOrder(b: Books, ev: Event, i: nat, asset: nat): Outcome
    requires i < |b.intents|
  {
    var row := if ev.key in b.deposits
               then b.deposits[ev.key].(blockNumber := ev.blockNumber, blockHash := ev.blockHash)
               else NewRow(ev, Some(asset), Some(i), None, PendingRow, None);
    var b1 := b.(deposits := b.deposits[ev.key := row]);
    var b2 := if b.intents[i].status == AwaitingDeposit then SetIntent(b1, i, PendingFinality) else b1;
    Done(b2, DepositResult(Pending, None, ev.key.logIndex))
  }

  /** Another intent of the same order is CONFIRMED: the unique index on confirmed intents refuses a second one. */
  predicate ConfirmedElsewhere(b: Books, i: nat)
    requires i < |b.intents|
  {
    exists j :: 0 <= j < |b.intents| && j != i && b.intents[j].order == b.intents[i].order
        && b.intents[j].status == Confirmed
  }

  function CreditOrder(net: Network, b: Books, ev: Event, i: nat, asset: nat, funding: FundingResult): Outcome
    requires i < |b.intents| && asset in net.assets
  {
    var decimals := net.assets[asset].decimals;
    if decimals < 2 then Threw
    else
      var minor := Registry.AtomicToUsdMinor(ev.funded.amount, decimals);
      if minor.None? then RecordRejection(b, ev, Some(i), Some(asset), NotCentExact)
      else if funding == FundedOrder && ConfirmedElsewhere(b, i) then Threw
      else
        var row := if ev.key in b.deposits
                   then b.deposits[ev.key].(status := CreditedRow, asset := Some(asset), intent := Some(i),
                                            blockNumber := ev.blockNumber, blockHash := ev.blockHash)
                   else NewRow(ev, Some(asset), Some(i), None, CreditedRow, None);
        var b1 := b.(deposits := b.deposits[ev.key := row],
                     fundings := b.fundings + [FundingCall(ev.key, i, minor.value, ev.funded.amount)]);
        Done(SetIntent(b1, i, if funding == FundedOrder then Confirmed else Exceptional),
             DepositResult(Credited, None, ev.key.logIndex))
  }

  function PoolObjection(net: Network, b: Books, ev: Event, p: nat, asset: nat): Option<Reason>
    requires p < |b.poolIntents|
  {
    var intent := b.poolIntents[p];
    if intent.chainId != net.chainId then Some(WrongChain)
    else if ev.funded.escrowRef != PoolEscrow(intent.pool, intent.poolAsset) then Some(WrongEscrow)
    else if intent.asset != asset then Some(WrongAsset)
    else if ev.funded.amount < intent.amount then Some(Underpaid)
    else if ev.funded.amount > intent.amount then Some(Overpaid)
    else if CreditedForPool(b, p) then Some(DuplicatePayment)
    else None
  }

  /** A pending pool row keeps the block it was first seen in. */
  function HoldPool(b: Books, ev: Event, p: nat, asset: nat): Outcome
    requires p < |b.poolIntents|
  {
    var b1 := InsertIfAbsent(b, ev.key, NewRow(ev, Some(asset), None, Some(p), PendingRow, None));
    var b2 := if b.poolIntents[p].status == AwaitingDeposit then SetPool(b1, p, PendingFinality) else b1;
    Done(b2, DepositResult(Pending, None, ev.key.logIndex))
  }

  /** So does a credited one. */
  function CreditPool(b: Books, ev: Event, p: nat, asset: nat): Outcome
    requires p < |b.poolIntents|
  {
    var row := if ev.key in b.deposits
               then b.deposits[ev.key].(status := CreditedRow, asset := Some(asset), poolIntent := Some(p))
               else NewRow(ev, Some(asset), None, Some(p), CreditedRow, None);
    var b1 := b.(deposits := b.deposits[ev.key := row],
        poolMoves := b.poolMoves + [PoolMove(ev.key, p, ev.funded.amount)]);
    Done(SetPool(b1, p, Confirmed), DepositResult(Credited, None, ev.key.logIndex))
  }

  function ProcessPool(net: Network, b: Books, ev: Event, head: nat, read: HashRead, p: nat, asset: nat): Outcome
    requires p < |b.poolIntents|
  {
    var objection := PoolObjection(net, b, ev, p, asset);
    if objection.Some? then RejectPool(b, ev, p, asset, objection.value)
    else if read.Down? then Threw
    else if !IsFinal(net, ev, head, read.hash) then HoldPool(b, ev, p, asset)
    else if ev.funded.amount == 0 then Threw
    else CreditPool(b, ev, p, asset)
  }

  function ProcessOrder(net: Network, b: Books, ev: Event, head: nat, read: HashRead, funding: FundingResult, i: nat,
      asset: nat): Outcome
    requires i < |b.intents| && asset in net.assets
  {
    if b.intents[i].asset !in net.assets then Threw
    else
      var objection := OrderObjection(net, b, ev, i, asset);
      if objection.Some? then RecordRejection(b, ev, Some(i), Some(asset), objection.value)
      else if read.Down? then Threw
      else if !IsFinal(net, ev, head, read.hash) then HoldOrder(b, ev, i, asset)
      else CreditOrder(net, b, ev, i, asset, funding)
  }

  function TerminalStatus(s: RowStatus): ResultStatus
  {
    if s == CreditedRow then Duplicate else if s == RejectedRow then Rejected else Reorganized
  }

  predicate Terminal(b: Books, key: Key) { key in b.deposits && b.deposits[key].status != PendingRow }

  /**
   * `processEvent`: `head` was read before the transaction and `read` inside it; `funding` is `applyChainFunding`'s
   * answer.
   */
  function ProcessEvent(net: Network, b: Books, ev: Event, head: nat, read: HashRead, funding: FundingResult): Outcome
  {
    var intent := FindIntent(b, ev.funded.reference);
    if Terminal(b, ev.key) then
      Done(b, DepositResult(TerminalStatus(b.deposits[ev.key].status), b.deposits[ev.key].reason, ev.key.logIndex))
    else
      var asset := AssetForToken(net, ev.funded.token);
      if asset.None? || !net.assets[asset.value].allowlisted
      then RecordRejection(b, ev, intent, asset, UnsupportedAsset)
      else if intent.None? then
        var pool := FindPoolIntent(b, ev.funded.reference);
        if pool.Some? then ProcessPool(net, b, ev, head, read, pool.value, asset.value)
        else RecordRejection(b, ev, None, asset, UnknownReference)
      else ProcessOrder(net, b, ev, head, read, funding, intent.value, asset.value)
  }

  /** The body of `recheckPendingDeposits` for a transaction that is no longer found. */
  function MarkReorged(b: Books, key: Key): Books
  {
    if key !in b.deposits || b.deposits[key].status != PendingRow then b
    else
      var row := b.deposits[key];
      var b1 := b.(deposits := b.deposits[key := row.(status := ReorgedRow, reason := Some(NoLongerCanonical))]);
      var b2 := if row.intent.Some? && row.intent.value < |b.intents|
          && b.intents[row.intent.value].status == PendingFinality
                then SetIntent(b1, row.intent.value, AwaitingDeposit) else b1;
      if row.poolIntent.Some? && row.poolIntent.value < |b.poolIntents|
          && b.poolIntents[row.poolIntent.value].status == PendingFinality
      then SetPool(b2, row.poolIntent.value, AwaitingDeposit) else b2
  }

  function AdvanceCheckpoint(b: Books, to: nat): Books
  {
    b.(checkpoint := if b.checkpoint.Some? && b.checkpoint.value > to then b.checkpoint else Some(to))
  }

  // ------------------------------------------------------------------------------------------------------------
  // Intents

  /** What `createCryptoPayment` reads about the order and its hold. */
  datatype OrderView = OrderView(id: nat, awaitingPayment: bool, paid: bool, usd: bool, held: bool, cardAttempt: bool,
      amountMinor: nat)

  datatype PaymentError = OrderStateConflict | UnsupportedAssetError | SlotExpired | FeatureDisabled

  function FirstOpen(intents: seq<Intent>, order: nat): Option<nat>
  {
    if intents == [] then None
    else
      var before := FirstOpen(intents[..|intents| - 1], order);
      if before.Some? then before
      else if intents[|intents| - 1].order == order && Open(intents[|intents| - 1].status) then Some(|intents| - 1)
      else None
  }

  lemma {:induction false} FirstOpenSound(intents: seq<Intent>, order: nat)
    ensures FirstOpen(intents, order).Some? ==> FirstOpen(intents, order).value < |intents|
    ensures FirstOpen(intents, order).Some? ==>
        intents[FirstOpen(intents, order).value].order == order && Open(intents[FirstOpen(intents, order).value].status)
    ensures FirstOpen(intents, order).None? ==> forall j :: 0 <= j < |intents| && intents[j].order == order ==>
        !Open(intents[j].status)
  {
    if intents != [] {
      FirstOpenSound(intents[..|intents| - 1], order);
    }
  }

  /**
   * `createCryptoPayment`: the books and the intent shown to the buyer, who gets the open intent back when nothing
   * about the choice changed. `payer` is the chosen wallet's address.
   */
  function CreatePayment(net: Network, b: Books, order: OrderView, asset: nat, payer: Option<Address>): Result<(Books,
      nat), PaymentError>
  {
    if !order.awaitingPayment || order.paid then Err(OrderStateConflict)
    else if !order.usd then Err(UnsupportedAssetError)
    else if !order.held then Err(SlotExpired)
    else if order.cardAttempt then Err(OrderStateConflict)
    else if asset !in net.assets || !net.assets[asset].usdPegged || !net.assets[asset].allowlisted
    then Err(UnsupportedAssetError)
    else
      FirstOpenSound(b.intents, order.id);
      var open := FirstOpen(b.intents, order.id);
      var chain := net.assets[asset].chainId;
      if open.Some? && b.intents[open.value].status == PendingFinality then Err(OrderStateConflict)
      else if open.Some? && b.intents[open.value].chainId == chain && b.intents[open.value].asset == asset
          && b.intents[open.value].payer == payer then
        Ok((b, open.value))
      else
        var b1 := if open.Some? then SetIntent(b, open.value, Cancelled) else b;
        if net.assets[asset].decimals < 2 then Err(FeatureDisabled)
        else
          var amount := Registry.UsdMinorToAtomic(order.amountMinor, net.assets[asset].decimals);
          Ok((b1.(intents := b1.intents + [Intent(order.id, chain, asset, amount, payer, order.amountMinor,
              AwaitingDeposit)]), |b1.intents|))
  }

  /** Cancelling an unpaid order: refused while a deposit is confirming, otherwise its waiting intents are cancelled. */
  function CancelFunding(b: Books, order: nat): Books
  {
    if exists j :: 0 <= j < |b.intents| && b.intents[j].order == order && b.intents[j].status == PendingFinality then b
    else b.(intents := seq(|b.intents|, (j: nat) requires j < |b.intents| =>
                             if b.intents[j].order == order && b.intents[j].status == AwaitingDeposit
                             then b.intents[j].(status := Cancelled) else b.intents[j]))
  }

  function CreatePoolIntent(b: Books, pool: nat, poolAsset: nat, chainId: nat, asset: nat, amount: nat): Books
  {
    if amount == 0 then b
    else b.(poolIntents := b.poolIntents + [PoolIntent(pool, poolAsset, chainId, asset, amount, AwaitingDeposit)])
  }

  // ------------------------------------------------------------------------------------------------------------
  // Decoding

  /** `decodeSettlementLogs`: the settlement events of a receipt in log order, from log index `k` on. */
  function DecodeFrom(r: Receipt, settlement: Address, k: nat): seq<Event>
    decreases |r.logs| - k
  {
    if k >= |r.logs| then []
    else
      var rest := DecodeFrom(r, settlement, k + 1);
      if r.logs[k].funded.Some? && r.logs[k].address == settlement
      then [Event(Key(r.txHash, k), r.blockNumber, r.blockHash, r.logs[k].funded.value)] + rest
      else rest
  }

  predicate IsSettlementLog(e: Entry, settlement: Address) { e.funded.Some? && e.address == settlement }

  /** Exactly the settlement's `Funded` logs are decoded, each once. */
  lemma {:induction false} DecodeExact(r: Receipt, settlement: Address, k: nat)
    ensures forall e :: e in DecodeFrom(r, settlement, k) ==>
              && k <= e.key.logIndex < |r.logs| && IsSettlementLog(r.logs[e.key.logIndex], settlement)
              && e == Event(Key(r.txHash, e.key.logIndex), r.blockNumber, r.blockHash,
                  r.logs[e.key.logIndex].funded.value)
    ensures forall j :: k <= j < |r.logs| && IsSettlementLog(r.logs[j], settlement)
                        ==> Event(Key(r.txHash, j), r.blockNumber, r.blockHash, r.logs[j].funded.value) in DecodeFrom(r,
                            settlement, k)
    ensures forall i, j :: 0 <= i < j < |DecodeFrom(r, settlement, k)| ==>
              DecodeFrom(r, settlement, k)[i].key.logIndex < DecodeFrom(r, settlement, k)[j].key.logIndex
    decreases |r.logs| - k
  {
    if k < |r.logs| {
      DecodeExact(r, settlement, k + 1);
    }
  }
}
