/**
 * One auction and the rows that hang on it (src/modules/auctions/commands.ts, src/modules/capacity/index.ts,
 * `invalidateBid` in src/modules/admin/commands.ts). Every transaction is one step with its own timestamp; timestamps
 * need not follow the order in which the row lock is taken. The row guards of drizzle/0008 and drizzle/0012 are part of
 * each update, so that a later proof can show that they never refuse one.
 */
module AuctionRules {
  import opened Common

  type User = int

  const WINNER_PAYMENT_MS := 24 * 3_600_000
  const CHECKOUT_HOLD_MS := 15 * 60_000
  const MAX_AUCTION_MS := 7 * 86_400_000
  const BACKDATE_TOLERANCE_MS := 5 * 60_000
  const MAX_MINOR := 100_000_000_000

  datatype Status = Scheduled | Live | AwaitingPayment | Settled | NoBids | Defaulted | Cancelled

  datatype Auction = Auction(
    seller: User, starting: int, increment: int, buyNow: Option<int>, starts: int, ends: int, units: nat,
    status: Status, firstBidAt: Option<int>, currentBid: Option<nat>, currentPrice: Option<int>, bidCount: nat,
    version: nat, winner: Option<User>, winningBid: Option<nat>, paymentDue: Option<int>, closedAt: Option<int>)

  datatype Bid = Bid(bidder: User, amount: int, sequence: nat, requestKey: string, accepted: bool, createdAt: int)

  datatype ClaimState = Held | ExpiryReconciling | Active | Done | Released

  datatype Claim = Claim(creator: User, units: nat, onAuction: bool, order: Option<nat>, state: ClaimState,
      expiresAt: Option<int>)

  datatype Kind = Winner | BuyNow

  datatype PurchaseStatus = AwaitingFunds | Funded | Unfunded | Expired

  datatype Purchase = Purchase(buyer: User, kind: Kind, bid: Option<nat>, amount: int, status: PurchaseStatus,
      order: nat, expiresAt: int)

  datatype OrderStatus = Unpaid | Paid | Finished | Refunded | Dropped

  datatype Order = Order(buyer: User, creator: User, amount: int, status: OrderStatus)

  datatype House = House(auction: Auction, bids: seq<Bid>, claims: seq<Claim>, purchases: seq<Purchase>,
      orders: seq<Order>)

  datatype Refusal =
    | InvalidAmount | BadTerms | NotAccepting | Forbidden | AuctionEnded | AuctionNotLive | BidTooLow | DuplicateRequest
    | NoBuyNowPrice | BuyNowUnavailable | NotFound | StateConflict
    | SlotLost       // the claim check inside `createSale`
    | SecondSale     // the unique index on open purchase intents
    | GuardFired     // an auction, claim or bid row guard

  // ---- ranking -----------------------------------------------------------------------------------------------------

  predicate Beats(b: Bid, c: Bid) { b.amount > c.amount || (b.amount == c.amount && b.sequence < c.sequence) }

  /** The index of the highest accepted bid. */
  function Top(bids: seq<Bid>): (top: Option<nat>)
    ensures top.Some? ==> top.value < |bids| && bids[top.value].accepted
  {
    if bids == [] then None
    else
      var rest, last := Top(bids[..|bids| - 1]), bids[|bids| - 1];
      if last.accepted && (rest.None? || Beats(last, bids[rest.value])) then Some(|bids| - 1) else rest
  }

  function AcceptedCount(bids: seq<Bid>): nat
  {
    if bids == [] then 0 else AcceptedCount(bids[..|bids| - 1]) + if bids[|bids| - 1].accepted then 1 else 0
  }

  function MaxSequence(bids: seq<Bid>): nat
  {
    if bids == [] then 0
    else
      var rest, last := MaxSequence(bids[..|bids| - 1]), bids[|bids| - 1].sequence;
      if last > rest then last else rest
  }

  function TopAmount(bids: seq<Bid>): Option<int>
  {
    if Top(bids).Some? then Some(bids[Top(bids).value].amount) else None
  }

  function NextMinimum(h: House): int
  {
    if Top(h.bids).Some? then h.bids[Top(h.bids).value].amount + h.auction.increment else h.auction.starting
  }

  /** `Top` is None exactly when no bid is accepted, and otherwise beats every other accepted bid. */
  lemma {:induction false} TopIsBest(bids: seq<Bid>)
    requires forall i, j :: 0 <= i < j < |bids| ==> bids[i].sequence < bids[j].sequence
    ensures Top(bids).None? <==> forall i :: 0 <= i < |bids| ==> !bids[i].accepted
    ensures Top(bids).Some? ==> forall i :: 0 <= i < |bids| && bids[i].accepted && i != Top(bids).value ==>
        Beats(bids[Top(bids).value], bids[i])
  {
    if bids != [] {
      TopIsBest(bids[..|bids| - 1]);
    }
  }

  // ---- row guards ---------------------------------------------------------------------------------------------------

  predicate Moves(before: Auction, after: Status)
  {
    match before.status
    case Scheduled => after in {Live, NoBids, Cancelled}
    case Live => after in {AwaitingPayment, NoBids} || (after == Cancelled && before.firstBidAt.None?)
    case AwaitingPayment => after in {Settled, Defaulted}
    case _ => false
  }

  predicate SameTerms(a: Auction, b: Auction)
  {
    && a.starting == b.starting && a.increment == b.increment && a.buyNow == b.buyNow && a.starts == b.starts
    && a.ends == b.ends && a.units == b.units
  }

  predicate AuctionGuard(before: Auction, after: Auction)
  {
    && (before.firstBidAt.Some? ==> after.firstBidAt == before.firstBidAt && SameTerms(before, after))
    && (after.status != before.status ==> Moves(before, after.status))
  }

  predicate ClaimGuard(before: Claim, after: Claim)
  {
    && before.creator == after.creator && before.units == after.units
    && (after.state == before.state
        || (before.state == Held && after.state in {ExpiryReconciling, Active, Released})
        || (before.state == ExpiryReconciling && after.state in {Held, Active, Released})
        || (before.state == Active && after.state in {Done, Released}))
  }

  predicate BidGuard(before: Bid, after: Bid)
  {
    after == before.(accepted := after.accepted) && (!before.accepted ==> after == before)
  }

  function UpdateAuction(h: House, row: Auction): Result<House, Refusal>
  {
    if AuctionGuard(h.auction, row) then Ok(h.(auction := row)) else Err(GuardFired)
  }

  function UpdateClaim(h: House, i: nat, row: Claim): Result<House, Refusal>
    requires i < |h.claims|
  {
    if ClaimGuard(h.claims[i], row) then Ok(h.(claims := h.claims[i := row])) else Err(GuardFired)
  }

  function UpdateBid(h: House, i: nat, row: Bid): Result<House, Refusal>
    requires i < |h.bids|
  {
    if BidGuard(h.bids[i], row) then Ok(h.(bids := h.bids[i := row])) else Err(GuardFired)
  }

  // ---- claims -------------------------------------------------------------------------------------------------------

  function FindClaim(claims: seq<Claim>, order: Option<nat>): (found: Option<nat>)
    ensures found.Some? ==> found.value < |claims|
  {
    if claims == [] then None
    else
      var rest, last := FindClaim(claims[..|claims| - 1], order), claims[|claims| - 1];
      if rest.Some? then rest
      else if (order.None? && last.onAuction) || (order.Some? && last.order == order) then Some(|claims| - 1) else None
  }

  predicate Holding(c: Claim) { c.state == Held || c.state == ExpiryReconciling }

  function ReleaseAuctionClaim(h: House): Result<House, Refusal>
  {
    var found := FindClaim(h.claims, None);
    if found.None? || !Holding(h.claims[found.value]) then Ok(h)
    else UpdateClaim(h, found.value, h.claims[found.value].(state := Released))
  }

  // ---- transactions -------------------------------------------------------------------------------------------------

  predicate IsOpen(h: House) { h.auction.status == Scheduled || h.auction.status == Live }

  predicate ValidMinor(amount: int) { 0 < amount <= MAX_MINOR }

  function CreateAuction(seller: User, starting: int, increment: int, buyNow: Option<int>, starts: int, ends: int,
      units: nat, accepting: bool, now: int): Result<House, Refusal>
  {
    if !ValidMinor(starting) || !ValidMinor(increment) || (buyNow.Some? && !ValidMinor(buyNow.value))
    then Err(InvalidAmount)
    else if buyNow.Some? && buyNow.value <= starting then Err(BadTerms)
    else if starts < now - BACKDATE_TOLERANCE_MS || ends <= starts || ends <= now || ends - starts > MAX_AUCTION_MS
    then Err(BadTerms)
    else if !accepting then Err(NotAccepting)
    else
      var status := if starts <= now then Live else Scheduled;
      var auction := Auction(seller, starting, increment, buyNow, starts, ends, units, status,
                             None, None, None, 0, 1, None, None, None, None);
      Ok(House(auction, [], [Claim(seller, units, true, None, Held, None)], [], []))
  }

  function OpenWindow(h: House, now: int): Result<House, Refusal>
  {
    if !IsOpen(h) then Err(AuctionEnded)
    else if now < h.auction.starts then Err(AuctionNotLive)
    else if now >= h.auction.ends then Err(AuctionEnded)
    else if h.auction.status == Scheduled
    then UpdateAuction(h, h.auction.(status := Live, version := h.auction.version + 1))
    else Ok(h)
  }

  predicate KeyTaken(bids: seq<Bid>, bidder: User, requestKey: string)
  {
    exists i :: 0 <= i < |bids| && bids[i].bidder == bidder && bids[i].requestKey == requestKey
  }

  function InsertBid(h: House, actor: User, amount: int, requestKey: string, now: int): Result<House, Refusal>
  {
    if KeyTaken(h.bids, actor, requestKey) then Err(DuplicateRequest)
    else
      var a := h.auction;
      var inserted := h.(bids := h.bids + [Bid(actor, amount, MaxSequence(h.bids) + 1, requestKey, true, now)]);
      UpdateAuction(inserted, a.(currentBid := Some(|h.bids|), currentPrice := Some(amount), bidCount := a.bidCount + 1,
                                 firstBidAt := if a.firstBidAt.Some? then a.firstBidAt else Some(now),
                                 version := a.version + 1))
  }

  function PlaceBid(h: House, actor: User, amount: int, requestKey: string, now: int): Result<House, Refusal>
  {
    if !ValidMinor(amount) then Err(InvalidAmount)
    else if actor == h.auction.seller then Err(Forbidden)
    else
      var live :- OpenWindow(h, now);
      if amount < NextMinimum(live) then Err(BidTooLow) else InsertBid(live, actor, amount, requestKey, now)
  }

  /** The order, the moved claim, the purchase intent and the auction row of a sale. */
  function CreateSale(h: House, buyer: User, amount: int, kind: Kind, bid: Option<nat>, expiresAt: int,
      now: int): Result<House, Refusal>
  {
    var found := FindClaim(h.claims, None);
    if found.None? || !Holding(h.claims[found.value]) then Err(SlotLost)
    else
      var order := |h.orders|;
      var ordered := h.(orders := h.orders + [Order(buyer, h.auction.seller, amount, Unpaid)]);
      var moved :- UpdateClaim(ordered, found.value,
                               h.claims[found.value].(order := Some(order), onAuction := false, state := Held,
                                   expiresAt := Some(expiresAt)));
      if exists i :: 0 <= i < |h.purchases| && h.purchases[i].status in {AwaitingFunds, Funded} then Err(SecondSale)
      else
        var purchase := Purchase(buyer, kind, bid, amount, AwaitingFunds, order, expiresAt);
        var intended := moved.(purchases := h.purchases + [purchase]);
        UpdateAuction(intended, h.auction.(status := AwaitingPayment, winner := Some(buyer), winningBid := bid,
                                           paymentDue := Some(expiresAt), closedAt := Some(now),
                                           version := h.auction.version + 1))
  }

  function BuyItNow(h: House, actor: User, now: int): Result<House, Refusal>
  {
    if actor == h.auction.seller then Err(Forbidden)
    else if h.auction.buyNow.None? then Err(NoBuyNowPrice)
    else if h.auction.firstBidAt.Some? then Err(BuyNowUnavailable)
    else
      var live :- OpenWindow(h, now);
      CreateSale(live, actor, h.auction.buyNow.value, BuyNow, None, now + CHECKOUT_HOLD_MS, now)
  }

  datatype CloseOutcome = NotDue | ClosedWithoutBids | WinnerSelected(order: nat) | AlreadyClosed(sale: Option<nat>)

  function LatestOrder(purchases: seq<Purchase>): Option<nat>
  {
    if purchases == [] then None else Some(purchases[|purchases| - 1].order)
  }

  function CloseAuction(h: House, now: int): Result<(House, CloseOutcome), Refusal>
  {
    if !IsOpen(h) then Ok((h, AlreadyClosed(LatestOrder(h.purchases))))
    else if now < h.auction.ends then Ok((h, NotDue))
    else
      var top := Top(h.bids);
      if top.None? then
        var ended :- UpdateAuction(h,
            h.auction.(status := NoBids, closedAt := Some(now), version := h.auction.version + 1));
        var freed :- ReleaseAuctionClaim(ended);
        Ok((freed, ClosedWithoutBids))
      else
        var best := h.bids[top.value];
        var sold :- CreateSale(h, best.bidder, best.amount, Winner, Some(top.value), now + WINNER_PAYMENT_MS, now);
        Ok((sold, WinnerSelected(|h.orders|)))
  }

  function CancelAuction(h: House, actor: User, now: int): Result<House, Refusal>
  {
    if actor != h.auction.seller then Err(NotFound)
    else if !IsOpen(h) || h.auction.firstBidAt.Some? then Err(StateConflict)
    else
      var ended :- UpdateAuction(h,
          h.auction.(status := Cancelled, closedAt := Some(now), version := h.auction.version + 1));
      ReleaseAuctionClaim(ended)
  }

  /** `recomputeHighestBid`: the cached leader, price and count from the accepted bids. */
  function Recompute(h: House): Result<House, Refusal>
  {
    UpdateAuction(h, h.auction.(currentBid := Top(h.bids), currentPrice := TopAmount(h.bids),
                                bidCount := AcceptedCount(h.bids), version := h.auction.version + 1))
  }

  function InvalidateBid(h: House, bid: nat): Result<House, Refusal>
  {
    if bid >= |h.bids| then Err(NotFound)
    else if !IsOpen(h) || !h.bids[bid].accepted then Err(StateConflict)
    else
      var struck :- UpdateBid(h, bid, h.bids[bid].(accepted := false));
      Recompute(struck)
  }

  /** The job that opens a scheduled auction (src/modules/jobs/index.ts). */
  function GoLive(h: House, now: int): Result<House, Refusal>
  {
    if h.auction.status == Scheduled && h.auction.starts <= now < h.auction.ends
    then UpdateAuction(h, h.auction.(status := Live, version := h.auction.version + 1))
    else Ok(h)
  }

  // ---- what happens to the order of a sale --------------------------------------------------------------------------

  function ActivateOrderClaim(h: House, order: nat): Result<House, Refusal>
  {
    var found := FindClaim(h.claims, Some(order));
    if found.None? || !Holding(h.claims[found.value]) then Ok(h)
    else UpdateClaim(h, found.value, h.claims[found.value].(state := Active, expiresAt := None))
  }

  function EndClaim(h: House, order: nat, from: set<ClaimState>, to: ClaimState): Result<House, Refusal>
  {
    var found := FindClaim(h.claims, Some(order));
    if found.None? || h.claims[found.value].state !in from then Ok(h)
    else UpdateClaim(h, found.value, h.claims[found.value].(state := to))
  }

  function Synced(p: Purchase, order: nat, funded: bool): Purchase
  {
    if p.order == order && p.status == AwaitingFunds
    then p.(status := if funded then Funded else if p.kind == Winner then Unfunded else Expired)
    else p
  }

  function SyncPurchases(purchases: seq<Purchase>, order: nat, funded: bool): (r: seq<Purchase>)
    ensures |r| == |purchases| && forall i :: 0 <= i < |r| ==> r[i] == Synced(purchases[i], order, funded)
  {
    seq(|purchases|, i requires 0 <= i < |purchases| => Synced(purchases[i], order, funded))
  }

  /** The trigger of drizzle/0008 on an unpaid order that is funded or cancelled. */
  function SyncAuction(h: House, order: nat, funded: bool, now: int): Result<House, Refusal>
  {
    var synced := h.(purchases := SyncPurchases(h.purchases, order, funded));
    if h.auction.status != AwaitingPayment then Ok(synced)
    else UpdateAuction(synced, h.auction.(status := if funded then Settled else Defaulted,
                                          closedAt := if h.auction.closedAt.Some? then h.auction.closedAt
                                              else Some(now),
                                          version := h.auction.version + 1))
  }

  function SetOrder(h: House, order: nat, status: OrderStatus): House
    requires order < |h.orders|
  {
    h.(orders := h.orders[order := h.orders[order].(status := status)])
  }

  function FundOrder(h: House, order: nat, now: int): Result<House, Refusal>
  {
    if order >= |h.orders| || h.orders[order].status != Unpaid then Err(StateConflict)
    else
      var active :- ActivateOrderClaim(h, order);
      SyncAuction(SetOrder(active, order, Paid), order, true, now)
  }

  function DropUnpaidOrder(h: House, order: nat, now: int): Result<House, Refusal>
  {
    if order >= |h.orders| || h.orders[order].status != Unpaid then Err(StateConflict)
    else
      var synced :- SyncAuction(SetOrder(h, order, Dropped), order, false, now);
      EndClaim(synced, order, {Held, ExpiryReconciling, Active}, Released)
  }

  function FinishOrder(h: House, order: nat): Result<House, Refusal>
  {
    if order >= |h.orders| || h.orders[order].status != Paid then Err(StateConflict)
    else EndClaim(SetOrder(h, order, Finished), order, {Active}, Done)
  }

  function RefundOrder(h: House, order: nat): Result<House, Refusal>
  {
    if order >= |h.orders| || h.orders[order].status !in {Paid, Finished} then Err(StateConflict)
    else EndClaim(SetOrder(h, order, Refunded), order, {Held, ExpiryReconciling, Active}, Released)
  }

  /** An expired hold whose payment is still unresolved. */
  function ReconcileHold(h: House, order: nat, now: int): Result<House, Refusal>
  {
    var found := FindClaim(h.claims, Some(order));
    if found.None? then Ok(h)
    else
      var claim := h.claims[found.value];
      if order < |h.orders| && h.orders[order].status == Unpaid && claim.state == Held && claim.expiresAt.Some?
          && claim.expiresAt.value < now
      then UpdateClaim(h, found.value, claim.(state := ExpiryReconciling))
      else Ok(h)
  }

  datatype Step =
    | DoBid(actor: User, amount: int, requestKey: string, now: int)
    | DoBuyNow(actor: User, now: int)
    | DoClose(now: int)
    | DoCancel(actor: User, now: int)
    | DoInvalidate(bid: nat)
    | DoGoLive(now: int)
    | DoFund(order: nat, now: int)
    | DoDrop(order: nat, now: int)
    | DoFinish(order: nat)
    | DoRefund(order: nat)
    | DoReconcile(order: nat, now: int)

  function Apply(h: House, step: Step): Result<House, Refusal>
  {
    match step
    case DoBid(actor, amount, requestKey, now) => PlaceBid(h, actor, amount, requestKey, now)
    case DoBuyNow(actor, now) => BuyItNow(h, actor, now)
    case DoClose(now) => (var closed :- CloseAuction(h, now); Ok(closed.0))
    case DoCancel(actor, now) => CancelAuction(h, actor, now)
    case DoInvalidate(bid) => InvalidateBid(h, bid)
    case DoGoLive(now) => GoLive(h, now)
    case DoFund(order, now) => FundOrder(h, order, now)
    case DoDrop(order, now) => DropUnpaidOrder(h, order, now)
    case DoFinish(order) => FinishOrder(h, order)
    case DoRefund(order) => RefundOrder(h, order)
    case DoReconcile(order, now) => ReconcileHold(h, order, now)
  }

  /** A refused transaction rolls back. */
  function Next(h: House, step: Step): House
  {
    var r := Apply(h, step);
    if r.Ok? then r.value else h
  }

  function Run(h: House, steps: seq<Step>): House
    decreases |steps|
  {
    if steps == [] then h else Run(Next(h, steps[0]), steps[1..])
  }
}
