/**
 * The command handlers of an auction, updating its rows one statement at a time (src/modules/auctions/commands.ts,
 * src/modules/capacity/index.ts, `invalidateBid` in src/modules/admin/commands.ts). Each is tied to its transaction in
 * `AuctionRules`; a handler that refuses puts back the rows it had already written, as the rollback does.
 */
module AuctionDesk {
  import opened Common
  import opened AuctionRules

  class Desk {
    var auction: Auction
    var bids: seq<Bid>
    var claims: seq<Claim>
    var purchases: seq<Purchase>
    var orders: seq<Order>

    function State(): House
      reads this
    {
      House(auction, bids, claims, purchases, orders)
    }

    constructor (h: House)
      ensures State() == h
    {
      auction, bids, claims, purchases, orders := h.auction, h.bids, h.claims, h.purchases, h.orders;
    }

    method Rollback(to: House)
      modifies this
      ensures State() == to
    {
      auction, bids, claims, purchases, orders := to.auction, to.bids, to.claims, to.purchases, to.orders;
    }

    /** An update of the auction row and its guard. */
    method SaveAuction(row: Auction) returns (refused: Option<Refusal>)
      modifies this`auction
      ensures refused == (if AuctionGuard(old(auction), row) then None else Some(GuardFired))
      ensures auction == if refused.None? then row else old(auction)
    {
      if !AuctionGuard(auction, row) { return Some(GuardFired); }
      auction := row;
      return None;
    }

    method SaveClaim(i: nat, row: Claim) returns (refused: Option<Refusal>)
      requires i < |claims|
      modifies this`claims
      ensures refused == (if ClaimGuard(old(claims)[i], row) then None else Some(GuardFired))
      ensures claims == if refused.None? then old(claims)[i := row] else old(claims)
    {
      if !ClaimGuard(claims[i], row) { return Some(GuardFired); }
      claims := claims[i := row];
      return None;
    }

    method AssertBiddingWindow(now: int) returns (refused: Option<Refusal>)
      modifies this`auction
      ensures OpenWindow(old(State()), now) == if refused.None? then Ok(State()) else Err(refused.value)
      ensures refused.Some? ==> auction == old(auction)
    {
      if !(auction.status == Scheduled || auction.status == Live) { return Some(AuctionEnded); }
      if now < auction.starts { return Some(AuctionNotLive); }
      if now >= auction.ends { return Some(AuctionEnded); }
      refused := None;
      if auction.status == Scheduled {
        refused := SaveAuction(auction.(status := Live, version := auction.version + 1));
      }
    }

    method ReleaseClaim() returns (refused: Option<Refusal>)
      modifies this`claims
      ensures ReleaseAuctionClaim(old(State())) == if refused.None? then Ok(State()) else Err(refused.value)
    {
      refused := None;
      var found := FindClaim(claims, None);
      if found.Some? && Holding(claims[found.value]) {
        refused := SaveClaim(found.value, claims[found.value].(state := Released));
      }
    }

    method ActivateClaim(order: nat) returns (active: bool, refused: Option<Refusal>)
      modifies this`claims
      ensures ActivateOrderClaim(old(State()), order) == if refused.None? then Ok(State()) else Err(refused.value)
      ensures active ==>
                && FindClaim(old(claims), Some(order)).Some?
                && claims[FindClaim(old(claims), Some(order)).value].state == Active
      ensures !active ==> claims == old(claims)
    {
      var found := FindClaim(claims, Some(order));
      if found.None? || !Holding(claims[found.value]) { return false, None; }
      refused := SaveClaim(found.value, claims[found.value].(state := Active, expiresAt := None));
      active := refused.None?;
    }

    /** `createSale`: the order, the claim moved onto it, the one purchase intent, the auction row. */
    method Sell(buyer: User, amount: int, kind: Kind, bid: Option<nat>, expiresAt: int, now: int)
      returns (order: nat, refused: Option<Refusal>)
      modifies this
      ensures CreateSale(old(State()), buyer, amount, kind, bid, expiresAt, now) == if refused.None? then Ok(State())
          else Err(refused.value)
      ensures order == |old(orders)|
    {
      order := |orders|;
      var found := FindClaim(claims, None);
      if found.None? || !Holding(claims[found.value]) { return order, Some(SlotLost); }
      orders := orders + [Order(buyer, auction.seller, amount, Unpaid)];
      refused := SaveClaim(found.value, claims[found.value].(order := Some(order), onAuction := false, state := Held,
          expiresAt := Some(expiresAt)));
      if refused.Some? { return; }
      if exists i :: 0 <= i < |purchases|
          && purchases[i].status in {AwaitingFunds, Funded} { return order, Some(SecondSale); }
      purchases := purchases + [Purchase(buyer, kind, bid, amount, AwaitingFunds, order, expiresAt)];
      refused := SaveAuction(auction.(status := AwaitingPayment, winner := Some(buyer), winningBid := bid,
                                      paymentDue := Some(expiresAt), closedAt := Some(now),
                                      version := auction.version + 1));
    }

    method Bid(actor: User, amount: int, requestKey: string, now: int) returns (refused: Option<Refusal>)
      modifies this
      ensures PlaceBid(old(State()), actor, amount, requestKey, now) == if refused.None? then Ok(State())
          else Err(refused.value)
      ensures refused.Some? ==> State() == old(State())
    {
      var before := State();
      if !ValidMinor(amount) { return Some(InvalidAmount); }
      if auction.seller == actor { return Some(Forbidden); }
      refused := AssertBiddingWindow(now);
      if refused.Some? { return; }
      var minimum := NextMinimum(State());
      if amount < minimum {
        Rollback(before);
        return Some(BidTooLow);
      }
      if KeyTaken(bids, actor, requestKey) {
        Rollback(before);
        return Some(DuplicateRequest);
      }
      var id := |bids|;
      // The guard lets this update through whatever the row holds, so there is nothing to roll back.
      bids := bids + [AuctionRules.Bid(actor, amount, MaxSequence(bids) + 1, requestKey, true, now)];
      refused := SaveAuction(auction.(currentBid := Some(id), currentPrice := Some(amount),
                                      bidCount := auction.bidCount + 1,
                                      firstBidAt := if auction.firstBidAt.Some? then auction.firstBidAt else Some(now),
                                      version := auction.version + 1));
    }

    method BuyNow(actor: User, now: int) returns (order: nat, refused: Option<Refusal>)
      modifies this
      ensures BuyItNow(old(State()), actor, now) == if refused.None? then Ok(State()) else Err(refused.value)
      ensures refused.None? ==> order == |old(orders)|
      ensures refused.Some? ==> State() == old(State())
    {
      var before := State();
      order := 0;
      if auction.seller == actor { return 0, Some(Forbidden); }
      if auction.buyNow.None? { return 0, Some(NoBuyNowPrice); }
      if auction.firstBidAt.Some? { return 0, Some(BuyNowUnavailable); }
      refused := AssertBiddingWindow(now);
      if refused.Some? { return; }
      order, refused := Sell(actor, auction.buyNow.value, Kind.BuyNow, None, now + CHECKOUT_HOLD_MS, now);
      if refused.Some? { Rollback(before); }
    }

    method Close(now: int) returns (outcome: CloseOutcome, refused: Option<Refusal>)
      modifies this
      ensures CloseAuction(old(State()), now) == if refused.None? then Ok((State(), outcome)) else Err(refused.value)
      ensures refused.Some? ==> State() == old(State())
    {
      var before := State();
      if !IsOpen(State()) { return AlreadyClosed(LatestOrder(purchases)), None; }
      if now < auction.ends { return NotDue, None; }
      var top := Top(bids);
      if top.None? {
        outcome := ClosedWithoutBids;
        refused := SaveAuction(auction.(status := NoBids, closedAt := Some(now), version := auction.version + 1));
        if refused.None? { refused := ReleaseClaim(); }
      } else {
        var best := bids[top.value];
        var order: nat;
        order, refused := Sell(best.bidder, best.amount, Winner, Some(top.value), now + WINNER_PAYMENT_MS, now);
        outcome := WinnerSelected(order);
      }
      if refused.Some? { Rollback(before); }
    }

    method Cancel(actor: User, now: int) returns (refused: Option<Refusal>)
      modifies this
      ensures CancelAuction(old(State()), actor, now) == if refused.None? then Ok(State()) else Err(refused.value)
      ensures refused.Some? ==> State() == old(State())
    {
      var before := State();
      if auction.seller != actor { return Some(NotFound); }
      if !IsOpen(State()) || auction.firstBidAt.Some? { return Some(StateConflict); }
      refused := SaveAuction(auction.(status := Cancelled, closedAt := Some(now), version := auction.version + 1));
      if refused.None? { refused := ReleaseClaim(); }
      if refused.Some? { Rollback(before); }
    }

    /** `recomputeHighestBid`. */
    method RecomputeHighestBid() returns (top: Option<nat>, refused: Option<Refusal>)
      modifies this`auction
      ensures Recompute(old(State())) == if refused.None? then Ok(State()) else Err(refused.value)
      ensures top == Top(bids)
    {
      top := Top(bids);
      refused := SaveAuction(auction.(currentBid := top, currentPrice := TopAmount(bids),
                                      bidCount := AcceptedCount(bids), version := auction.version + 1));
    }

    method Invalidate(bid: nat) returns (refused: Option<Refusal>)
      modifies this
      ensures InvalidateBid(old(State()), bid) == if refused.None? then Ok(State()) else Err(refused.value)
      ensures refused.Some? ==> State() == old(State())
    {
      var before := State();
      if bid >= |bids| { return Some(NotFound); }
      if !IsOpen(State()) { return Some(StateConflict); }
      if !bids[bid].accepted { return Some(StateConflict); }
      var struck := bids[bid].(accepted := false);
      if !BidGuard(bids[bid], struck) { return Some(GuardFired); }
      bids := bids[bid := struck];
      var top: Option<nat>;
      top, refused := RecomputeHighestBid();
      if refused.Some? { Rollback(before); }
    }
  }
}
