/** What every transaction on an auction keeps, and what follows for every run. */
module AuctionBooks {
  import opened Common
  import opened AuctionRules

  predicate TermsSound(a: Auction)
  {
    && ValidMinor(a.starting) && ValidMinor(a.increment) && a.starts < a.ends <= a.starts + MAX_AUCTION_MS
    && (a.buyNow.Some? ==> ValidMinor(a.buyNow.value) && a.buyNow.value > a.starting)
  }

  /** The cached leader, price and count are the recomputed ones. */
  predicate CacheSound(h: House)
  {
    && h.auction.currentBid == Top(h.bids)
    && h.auction.currentPrice == TopAmount(h.bids)
    && h.auction.bidCount == AcceptedCount(h.bids)
  }

  /** Two bids that both still stand are at least one increment apart, in the order in which they were placed. */
  predicate Ladder(bids: seq<Bid>, increment: int)
  {
    forall i, j :: 0 <= i < j < |bids| && bids[i].accepted && bids[j].accepted ==>
        bids[j].amount >= bids[i].amount + increment
  }

  predicate BidSound(a: Auction, b: Bid)
  {
    b.bidder != a.seller && ValidMinor(b.amount) && b.amount >= a.starting && a.starts <= b.createdAt < a.ends
  }

  predicate BidsSound(h: House)
  {
    && (forall i :: 0 <= i < |h.bids| ==> BidSound(h.auction, h.bids[i]))
    && (forall i :: 0 <= i < |h.bids| ==> h.bids[i].sequence == i + 1)
    && (forall i, j :: 0 <= i < j < |h.bids| ==>
        h.bids[i].bidder != h.bids[j].bidder || h.bids[i].requestKey != h.bids[j].requestKey)
  }

  /** `first_valid_bid_at` is the time of the first bid ever, and a scheduled auction has none. */
  predicate FirstBidSound(h: House)
  {
    && h.auction.firstBidAt == (if h.bids == [] then None else Some(h.bids[0].createdAt))
    && (h.auction.status == Scheduled ==> h.bids == [])
  }

  predicate Sold(s: Status) { s == AwaitingPayment || s == Settled || s == Defaulted }

  /** The sale is the winner's with their bid, or a Buy Now on an auction nobody ever bid on. */
  predicate SaleFits(h: House)
    requires |h.purchases| == 1 && |h.orders| == 1
  {
    var a, p, o := h.auction, h.purchases[0], h.orders[0];
    && p.order == 0 && o.buyer == p.buyer && o.creator == a.seller && o.amount == p.amount && p.buyer != a.seller
    && a.winner == Some(p.buyer) && a.winningBid == p.bid && a.paymentDue == Some(p.expiresAt)
    && p.bid == Top(h.bids)
    && match p.kind
       case Winner => p.bid.Some? && p.buyer == h.bids[p.bid.value].bidder && p.amount == h.bids[p.bid.value].amount
       case BuyNow => h.bids == [] && a.buyNow == Some(p.amount)
  }

  predicate StagesAgree(status: Status, p: Purchase, o: Order, c: Claim)
  {
    match status
    case AwaitingPayment =>
      p.status == AwaitingFunds && o.status == Unpaid && Holding(c) && c.expiresAt == Some(p.expiresAt)
    case Settled =>
      && p.status == Funded && (o.status == Paid ==> c.state == Active) && (o.status == Finished ==> c.state == Done)
      && (o.status == Refunded ==> c.state in {Done, Released}) && o.status in {Paid, Finished, Refunded}
    case Defaulted =>
      && p.status == (if p.kind == Winner then Unfunded else Expired) && o.status == Dropped
      && c.state == Released
    case _ => false
  }

  /** The one claim sits on the auction while it is open, moves with the sale, and is freed when there is none. */
  predicate ClaimSound(h: House)
  {
    && |h.claims| == 1
    && var c := h.claims[0];
    && c.creator == h.auction.seller && c.units == h.auction.units
    && c.onAuction == !Sold(h.auction.status)
    && c.order == (if Sold(h.auction.status) then Some(0) else None)
    && (IsOpen(h) ==> c.state == Held && c.expiresAt.None?)
    && (h.auction.status in {NoBids, Cancelled} ==> c.state == Released)
  }

  predicate SaleSound(h: House)
  {
    && (Sold(h.auction.status) ==> |h.purchases| == 1 && |h.orders| == 1 && |h.claims| == 1 && SaleFits(h)
                                   && StagesAgree(h.auction.status, h.purchases[0], h.orders[0], h.claims[0]))
    && (!Sold(h.auction.status) ==> h.purchases == [] && h.orders == [])
    && (h.auction.status == Cancelled ==> h.bids == [])
    && (h.auction.status == NoBids ==> Top(h.bids).None?)
    && (IsOpen(h) <==> h.auction.closedAt.None?)
  }

  predicate Sound(h: House)
  {
    && TermsSound(h.auction) && CacheSound(h) && Ladder(h.bids, h.auction.increment) && BidsSound(h) && FirstBidSound(h)
    && ClaimSound(h) && SaleSound(h)
  }

  /** A transaction may be refused for the caller's reasons, never by a guard, a lost slot or a second sale. */
  predicate Clean<T>(r: Result<T, Refusal>)
  {
    r.Err? ==> r.error !in {GuardFired, SlotLost, SecondSale}
  }

  predicate Keeps(r: Result<House, Refusal>)
  {
    Clean(r) && (r.Ok? ==> Sound(r.value))
  }

  // ---- bids ---------------------------------------------------------------------------------------------------------

  lemma {:induction false} MaxSequenceIsLast(bids: seq<Bid>)
    requires forall i :: 0 <= i < |bids| ==> bids[i].sequence == i + 1
    ensures MaxSequence(bids) == |bids|
  {
    if bids != [] {
      MaxSequenceIsLast(bids[..|bids| - 1]);
    }
  }

  /** The job opens exactly a scheduled auction inside its window, and nothing else moves. */
  lemma GoLiveExact(h: House, now: int)
    requires Sound(h)
    ensures var due := h.auction.status == Scheduled && h.auction.starts <= now < h.auction.ends;
            GoLive(h, now) ==
            Ok(if due then h.(auction := h.auction.(status := Live, version := h.auction.version + 1)) else h)
  {
  }

  lemma LiveKeeps(h: House, now: int)
    requires Sound(h)
    ensures Keeps(OpenWindow(h, now)) && Keeps(GoLive(h, now))
    ensures OpenWindow(h, now).Ok? <==> IsOpen(h) && h.auction.starts <= now < h.auction.ends
    ensures OpenWindow(h, now).Ok? ==>
              OpenWindow(h, now).value == h.(auction := OpenWindow(h, now).value.auction)
              && OpenWindow(h, now).value.auction.status == Live
              && SameTerms(OpenWindow(h, now).value.auction, h.auction)
              && OpenWindow(h, now).value.auction.seller == h.auction.seller
              && OpenWindow(h, now).value.auction.firstBidAt == h.auction.firstBidAt
  {
  }

  /** A bid at or above the next minimum becomes the leader and extends the ladder. */
  lemma NewLeader(h: House, b: Bid)
    requires Sound(h) && b.accepted && b.amount >= NextMinimum(h)
    ensures Top(h.bids + [b]) == Some(|h.bids|) && AcceptedCount(h.bids + [b]) == AcceptedCount(h.bids) + 1
    ensures Ladder(h.bids + [b], h.auction.increment) && b.amount >= h.auction.starting
  {
    var all := h.bids + [b];
    assert all[..|all| - 1] == h.bids;
    TopIsBest(h.bids);
  }

  lemma BidsExtend(h: House, b: Bid)
    requires BidsSound(h) && BidSound(h.auction, b) && b.sequence == |h.bids| + 1
             && !KeyTaken(h.bids, b.bidder, b.requestKey)
    ensures BidsSound(h.(bids := h.bids + [b]))
  {
    var all := h.bids + [b];
    forall i, j | 0 <= i < j < |all|
      ensures all[i].bidder != all[j].bidder || all[i].requestKey != all[j].requestKey
    {
      assert all[i] == h.bids[i];
    }
  }

  /** The auction row after an accepted bid. */
  function Led(a: Auction, bids: seq<Bid>, b: Bid): Auction
  {
    a.(currentBid := Some(|bids|), currentPrice := Some(b.amount), bidCount := a.bidCount + 1,
       firstBidAt := if a.firstBidAt.Some? then a.firstBidAt else Some(b.createdAt), version := a.version + 1)
  }

  lemma CacheFollows(h: House, b: Bid)
    requires b.accepted && h.auction.bidCount == AcceptedCount(h.bids)
    requires Top(h.bids + [b]) == Some(|h.bids|) && AcceptedCount(h.bids + [b]) == AcceptedCount(h.bids) + 1
    ensures CacheSound(h.(bids := h.bids + [b], auction := Led(h.auction, h.bids, b)))
  {
  }

  lemma LedBidsSound(h: House, b: Bid)
    requires BidsSound(h.(bids := h.bids + [b]))
    ensures BidsSound(h.(bids := h.bids + [b], auction := Led(h.auction, h.bids, b)))
  {
    var all := h.bids + [b];
    assert forall i :: 0 <= i < |all| ==> BidSound(h.auction, all[i]);
  }

  lemma RestFollows(h: House, b: Bid)
    requires TermsSound(h.auction) && ClaimSound(h) && SaleSound(h) && FirstBidSound(h) && h.auction.status == Live
    ensures var k := h.(bids := h.bids + [b], auction := Led(h.auction, h.bids, b));
            && TermsSound(k.auction) && ClaimSound(k) && SaleSound(k) && FirstBidSound(k)
            && AuctionGuard(h.auction, k.auction)
  {
  }

  lemma InsertKeeps(h: House, actor: User, amount: int, requestKey: string, now: int)
    requires Sound(h) && h.auction.status == Live && h.auction.starts <= now < h.auction.ends
    requires actor != h.auction.seller && ValidMinor(amount) && amount >= NextMinimum(h)
    ensures Keeps(InsertBid(h, actor, amount, requestKey, now))
    ensures InsertBid(h, actor, amount, requestKey, now).Ok? <==> !KeyTaken(h.bids, actor, requestKey)
  {
    InsertShape(h, actor, amount, requestKey, now);
    if !KeyTaken(h.bids, actor, requestKey) {
      Placed(h, Bid(actor, amount, |h.bids| + 1, requestKey, true, now));
    }
  }

  /** The rows that an accepted insert leaves. */
  lemma InsertShape(h: House, actor: User, amount: int, requestKey: string, now: int)
    requires forall i :: 0 <= i < |h.bids| ==> h.bids[i].sequence == i + 1
    ensures var b := Bid(actor, amount, |h.bids| + 1, requestKey, true, now);
            InsertBid(h, actor, amount, requestKey, now) ==
            if KeyTaken(h.bids, actor, requestKey) then Err(DuplicateRequest)
            else if AuctionGuard(h.auction, Led(h.auction, h.bids, b))
            then Ok(h.(bids := h.bids + [b], auction := Led(h.auction, h.bids, b)))
            else Err(GuardFired)
  {
    MaxSequenceIsLast(h.bids);
  }

  lemma Placed(h: House, b: Bid)
    requires Sound(h) && h.auction.status == Live && BidSound(h.auction, b.(amount := h.auction.starting))
             && ValidMinor(b.amount)
    requires b.accepted && b.amount >= NextMinimum(h) && b.sequence == |h.bids| + 1
             && !KeyTaken(h.bids, b.bidder, b.requestKey)
    ensures var k := h.(bids := h.bids + [b], auction := Led(h.auction, h.bids, b));
        Sound(k) && AuctionGuard(h.auction, k.auction)
  {
    NewLeader(h, b);
    CacheFollows(h, b);
    BidsExtend(h, b);
    LedBidsSound(h, b);
    RestFollows(h, b);
  }

  lemma BidKeeps(h: House, actor: User, amount: int, requestKey: string, now: int)
    requires Sound(h)
    ensures Keeps(PlaceBid(h, actor, amount, requestKey, now))
  {
    LiveKeeps(h, now);
    var live := OpenWindow(h, now);
    if live.Ok? && ValidMinor(amount) && actor != h.auction.seller && amount >= NextMinimum(live.value) {
      InsertKeeps(live.value, actor, amount, requestKey, now);
    }
  }

  lemma InvalidateKeeps(h: House, bid: nat)
    requires Sound(h)
    ensures Keeps(InvalidateBid(h, bid))
    ensures InvalidateBid(h, bid).Ok? <==> bid < |h.bids| && IsOpen(h) && h.bids[bid].accepted
    ensures InvalidateBid(h, bid).Ok? ==>
        InvalidateBid(h, bid).value.bids == h.bids[bid := h.bids[bid].(accepted := false)]
  {
  }

  // ---- sales --------------------------------------------------------------------------------------------------------

  lemma OneClaim(h: House, order: Option<nat>)
    requires |h.claims| == 1
    ensures FindClaim(h.claims, order) ==
      if (order.None? && h.claims[0].onAuction) || (order.Some? && h.claims[0].order == order) then Some(0) else None
  {
    assert h.claims[..0] == [];
    assert FindClaim(h.claims[..0], order) == None;
  }

  /** The slot of an open auction is always there to be sold, and the sale keeps the books. */
  lemma SaleKeeps(h: House, buyer: User, amount: int, kind: Kind, bid: Option<nat>, expiresAt: int, now: int)
    requires Sound(h) && h.auction.status == Live && buyer != h.auction.seller && bid == Top(h.bids)
    requires match kind
             case Winner => bid.Some? && buyer == h.bids[bid.value].bidder && amount == h.bids[bid.value].amount
             case BuyNow => h.bids == [] && h.auction.buyNow == Some(amount)
    ensures var r := CreateSale(h, buyer, amount, kind, bid, expiresAt, now);
            r.Ok? && Sound(r.value) && r.value.auction.status == AwaitingPayment
  {
    OneClaim(h, None);
  }

  lemma BuyShape(h: House, actor: User, now: int)
    requires Sound(h) && OpenWindow(h, now).Ok? && actor != h.auction.seller && h.auction.buyNow.Some?
             && h.auction.firstBidAt.None?
    ensures BuyItNow(h, actor, now) ==
            CreateSale(OpenWindow(h, now).value, actor, h.auction.buyNow.value, BuyNow, None, now + CHECKOUT_HOLD_MS,
                now)
  {
  }

  lemma BuyKeeps(h: House, actor: User, now: int)
    requires Sound(h)
    ensures Keeps(BuyItNow(h, actor, now))
    ensures BuyItNow(h, actor, now).Ok? <==>
            && actor != h.auction.seller && h.auction.buyNow.Some? && h.bids == [] && IsOpen(h)
            && h.auction.starts <= now < h.auction.ends
  {
    LiveKeeps(h, now);
    if actor != h.auction.seller && h.auction.buyNow.Some? && h.auction.firstBidAt.None? && OpenWindow(h, now).Ok? {
      BuyShape(h, actor, now);
      SaleKeeps(OpenWindow(h, now).value, actor, h.auction.buyNow.value, BuyNow, None, now + CHECKOUT_HOLD_MS, now);
    }
  }

  /** An open auction that ends without a sale frees its slot. */
  lemma EndKeeps(h: House, to: Status, now: int)
    requires Sound(h) && IsOpen(h) && Top(h.bids).None?
    requires to == NoBids || (to == Cancelled && h.bids == [])
    ensures var row := h.auction.(status := to, closedAt := Some(now), version := h.auction.version + 1);
            && UpdateAuction(h, row).Ok?
            && var freed := ReleaseAuctionClaim(UpdateAuction(h, row).value);
               Keeps(freed) && freed == Ok(h.(auction := row, claims := [h.claims[0].(state := Released)]))
  {
    OneClaim(h, None);
    assert h.claims[0 := h.claims[0].(state := Released)] == [h.claims[0].(state := Released)];
  }

  lemma CloseShape(h: House, now: int)
    requires IsOpen(h) && now >= h.auction.ends && Top(h.bids).Some?
    ensures var top := Top(h.bids).value;
            var sold := CreateSale(h, h.bids[top].bidder, h.bids[top].amount, Winner, Some(top),
                now + WINNER_PAYMENT_MS, now);
            CloseAuction(h, now) == if sold.Ok? then Ok((sold.value, WinnerSelected(|h.orders|))) else Err(sold.error)
  {
  }

  lemma EndShape(h: House, now: int)
    requires IsOpen(h) && now >= h.auction.ends && Top(h.bids).None?
    ensures var row := h.auction.(status := NoBids, closedAt := Some(now), version := h.auction.version + 1);
            var ended := UpdateAuction(h, row);
            ended.Ok? && ReleaseAuctionClaim(ended.value).Ok? ==>
              CloseAuction(h, now) == Ok((ReleaseAuctionClaim(ended.value).value, ClosedWithoutBids))
  {
  }

  lemma WinnersAreNotSellers(h: House, i: nat)
    requires Sound(h) && IsOpen(h) && i < |h.bids|
    ensures h.bids[i].bidder != h.auction.seller && h.auction.status == Live
  {
    assert BidSound(h.auction, h.bids[i]);
  }

  lemma SoldKeeps(h: House, now: int)
    requires Sound(h) && IsOpen(h) && now >= h.auction.ends && Top(h.bids).Some?
    ensures CloseAuction(h, now).Ok? && Sound(CloseAuction(h, now).value.0)
  {
    var top := Top(h.bids).value;
    CloseShape(h, now);
    WinnersAreNotSellers(h, top);
    SaleKeeps(h, h.bids[top].bidder, h.bids[top].amount, Winner, Some(top), now + WINNER_PAYMENT_MS, now);
  }

  lemma UnsoldKeeps(h: House, now: int)
    requires Sound(h) && IsOpen(h) && now >= h.auction.ends && Top(h.bids).None?
    ensures CloseAuction(h, now).Ok? && Sound(CloseAuction(h, now).value.0)
  {
    EndKeeps(h, NoBids, now);
    EndShape(h, now);
  }

  lemma CloseKeeps(h: House, now: int)
    requires Sound(h)
    ensures var r := CloseAuction(h, now); r.Ok? && Sound(r.value.0)
  {
    if !IsOpen(h) || now < h.auction.ends {
      assert CloseAuction(h, now).Ok? && CloseAuction(h, now).value.0 == h;
    } else if Top(h.bids).None? {
      UnsoldKeeps(h, now);
    } else {
      SoldKeeps(h, now);
    }
  }

  /** The seller can cancel exactly an open auction that nobody ever bid on; the slot is free from then on. */
  lemma CancelKeeps(h: House, actor: User, now: int)
    requires Sound(h)
    ensures Keeps(CancelAuction(h, actor, now))
    ensures CancelAuction(h, actor, now).Ok? <==> actor == h.auction.seller && IsOpen(h) && h.bids == []
    ensures CancelAuction(h, actor, now).Ok? ==>
              var k := CancelAuction(h, actor, now).value;
              && k.auction == h.auction.(status := Cancelled, closedAt := Some(now), version := h.auction.version + 1)
              && k.claims == [h.claims[0].(state := Released)] && k.bids == [] && k.purchases == [] && k.orders == []
  {
    if IsOpen(h) && h.auction.firstBidAt.None? {
      EndKeeps(h, Cancelled, now);
    }
  }

  // ---- orders -------------------------------------------------------------------------------------------------------

  /** Only the stage of a sale moved. */
  predicate StageOnly(h: House, k: House)
    requires |h.purchases| == |h.orders| == |h.claims| == 1
  {
    && k.bids == h.bids
    && k.auction == h.auction.(status := k.auction.status, closedAt := k.auction.closedAt, version := k.auction.version)
    && |k.purchases| == |k.orders| == |k.claims| == 1
    && k.purchases[0] == h.purchases[0].(status := k.purchases[0].status)
    && k.orders[0] == h.orders[0].(status := k.orders[0].status)
    && k.claims[0] == h.claims[0].(state := k.claims[0].state, expiresAt := k.claims[0].expiresAt)
  }

  lemma StageKeeps(h: House, k: House)
    requires Sound(h) && Sold(h.auction.status) && StageOnly(h, k) && k.auction.closedAt.Some?
    requires Sold(k.auction.status) && StagesAgree(k.auction.status, k.purchases[0], k.orders[0], k.claims[0])
    ensures Sound(k)
  {
    assert TermsSound(k.auction) && CacheSound(k) && Ladder(k.bids, k.auction.increment);
    assert BidsSound(k) by {
      assert forall i :: 0 <= i < |k.bids| ==> BidSound(h.auction, h.bids[i]);
    }
    assert FirstBidSound(k);
    assert ClaimSound(k);
    assert SaleFits(k);
  }

  /** The rows of an order that exists. */
  lemma OrderRows(h: House, order: nat)
    requires Sound(h) && order < |h.orders|
    ensures order == 0 && Sold(h.auction.status) && |h.purchases| == |h.orders| == |h.claims| == 1
    ensures FindClaim(h.claims, Some(order)) == Some(0) && h.purchases[0].order == 0 && h.auction.closedAt.Some?
    ensures StagesAgree(h.auction.status, h.purchases[0], h.orders[0], h.claims[0])
  {
    OneClaim(h, Some(order));
  }

  /** Where a sale stands. */
  predicate Stage(h: House, status: Status, purchase: PurchaseStatus, order: OrderStatus, claim: ClaimState)
  {
    && |h.purchases| == |h.orders| == |h.claims| == 1 && h.auction.status == status
    && h.purchases[0].status == purchase && h.orders[0].status == order && h.claims[0].state == claim
  }

  /** A sale is funded exactly while its order is unpaid: the auction settles and the slot is taken for good. */
  lemma FundKeeps(h: House, order: nat, now: int)
    requires Sound(h)
    ensures Keeps(FundOrder(h, order, now))
    ensures FundOrder(h, order, now).Ok? <==> order < |h.orders| && h.orders[order].status == Unpaid
    ensures FundOrder(h, order, now).Ok? ==>
              var k := FundOrder(h, order, now).value;
              && |h.purchases| == |h.orders| == |h.claims| == 1 && StageOnly(h, k)
              && Stage(k, Settled, Funded, Paid, Active) && k.claims[0].expiresAt.None?
              && k.auction == h.auction.(status := Settled, version := h.auction.version + 1)
  {
    if order < |h.orders| && h.orders[order].status == Unpaid {
      OrderRows(h, order);
      var k := FundOrder(h, order, now);
      assert k.Ok? && StageOnly(h, k.value) && k.value.auction.status == Settled;
      StageKeeps(h, k.value);
    }
  }

  /** A sale is dropped exactly while its order is unpaid: the auction defaults and the slot is free. */
  lemma DropKeeps(h: House, order: nat, now: int)
    requires Sound(h)
    ensures Keeps(DropUnpaidOrder(h, order, now))
    ensures DropUnpaidOrder(h, order, now).Ok? <==> order < |h.orders| && h.orders[order].status == Unpaid
    ensures DropUnpaidOrder(h, order, now).Ok? ==>
              var k := DropUnpaidOrder(h, order, now).value;
              && |h.purchases| == |h.orders| == |h.claims| == 1 && StageOnly(h, k)
              && Stage(k, Defaulted, if h.purchases[0].kind == Winner then Unfunded else Expired, Dropped, Released)
              && k.auction == h.auction.(status := Defaulted, version := h.auction.version + 1)
              && k.claims[0].expiresAt == h.claims[0].expiresAt
  {
    if order < |h.orders| && h.orders[order].status == Unpaid {
      OrderRows(h, order);
      var k := DropUnpaidOrder(h, order, now);
      assert k.Ok? && StageOnly(h, k.value) && k.value.auction.status == Defaulted;
      StageKeeps(h, k.value);
    }
  }

  lemma FinishKeeps(h: House, order: nat)
    requires Sound(h)
    ensures Keeps(FinishOrder(h, order))
    ensures FinishOrder(h, order).Ok? <==> order < |h.orders| && h.orders[order].status == Paid
    ensures FinishOrder(h, order).Ok? ==> Stage(FinishOrder(h, order).value, Settled, Funded, Finished, Done)
  {
    if order < |h.orders| && h.orders[order].status == Paid {
      OrderRows(h, order);
      var k := FinishOrder(h, order);
      assert k.Ok? && StageOnly(h, k.value) && k.value.auction.status == Settled;
      StageKeeps(h, k.value);
    }
  }

  lemma RefundKeeps(h: House, order: nat)
    requires Sound(h)
    ensures Keeps(RefundOrder(h, order))
    ensures RefundOrder(h, order).Ok? <==> order < |h.orders| && h.orders[order].status in {Paid, Finished}
    ensures RefundOrder(h, order).Ok? ==>
              Stage(RefundOrder(h, order).value, Settled, Funded, Refunded, if h.orders[order].status == Paid
                  then Released else Done)
  {
    if order < |h.orders| && h.orders[order].status in {Paid, Finished} {
      OrderRows(h, order);
      var k := RefundOrder(h, order);
      assert k.Ok? && StageOnly(h, k.value) && k.value.auction.status == Settled;
      StageKeeps(h, k.value);
    }
  }

  lemma ReconcileKeeps(h: House, order: nat, now: int)
    requires Sound(h)
    ensures Keeps(ReconcileHold(h, order, now))
  {
    OneClaim(h, Some(order));
    if order < |h.orders| {
      OrderRows(h, order);
      var k := ReconcileHold(h, order, now);
      assert k.Ok? && StageOnly(h, k.value) && k.value.auction == h.auction;
      StageKeeps(h, k.value);
    }
  }

  /** An expired hold of an unpaid order is marked for reconciliation, and nothing else ever is. */
  lemma ReconcileExact(h: House, order: nat, now: int)
    requires Sound(h)
    ensures var due := && order < |h.orders| && h.orders[order].status == Unpaid && |h.claims| == 1
                       && h.claims[0].state == Held && h.claims[0].expiresAt.Some? && h.claims[0].expiresAt.value < now;
            ReconcileHold(h, order, now) ==
            Ok(if due then h.(claims := [h.claims[0].(state := ExpiryReconciling)]) else h)
  {
    OneClaim(h, Some(order));
    if order < |h.orders| { OrderRows(h, order); }
    assert |h.claims| == 1 ==> h.claims[0 := h.claims[0].(state := ExpiryReconciling)] ==
                               [h.claims[0].(state := ExpiryReconciling)];
  }

  /** Whatever changes the auction's row raises its version. */
  predicate VersionRises(h: House, r: Result<House, Refusal>)
  {
    r.Ok? && r.value.auction != h.auction ==> r.value.auction.version > h.auction.version
  }

  lemma SaleRaises(h: House, buyer: User, amount: int, kind: Kind, bid: Option<nat>, expiresAt: int, now: int)
    ensures VersionRises(h, CreateSale(h, buyer, amount, kind, bid, expiresAt, now))
    ensures CreateSale(h, buyer, amount, kind, bid, expiresAt, now).Ok? ==>
              CreateSale(h, buyer, amount, kind, bid, expiresAt, now).value.auction.version == h.auction.version + 1
  {
  }

  lemma WindowRaises(h: House, now: int)
    ensures VersionRises(h, OpenWindow(h, now))
  {
  }

  lemma BidRaises(h: House, actor: User, amount: int, requestKey: string, now: int)
    ensures VersionRises(h, PlaceBid(h, actor, amount, requestKey, now))
  {
    WindowRaises(h, now);
  }

  lemma BuyRaises(h: House, actor: User, now: int)
    ensures VersionRises(h, BuyItNow(h, actor, now))
  {
    WindowRaises(h, now);
    if OpenWindow(h, now).Ok? && h.auction.buyNow.Some? {
      SaleRaises(OpenWindow(h, now).value, actor, h.auction.buyNow.value, BuyNow, None, now + CHECKOUT_HOLD_MS, now);
    }
  }

  lemma CloseRaises(h: House, now: int)
    ensures CloseAuction(h, now).Ok? ==> VersionRises(h, Ok(CloseAuction(h, now).value.0))
  {
    if IsOpen(h) && now >= h.auction.ends && Top(h.bids).Some? {
      var top := Top(h.bids).value;
      CloseShape(h, now);
      SaleRaises(h, h.bids[top].bidder, h.bids[top].amount, Winner, Some(top), now + WINNER_PAYMENT_MS, now);
    }
  }

  lemma OrderRaises(h: House, order: nat, now: int)
    ensures VersionRises(h, FundOrder(h, order, now)) && VersionRises(h, DropUnpaidOrder(h, order, now))
    ensures VersionRises(h, FinishOrder(h, order)) && VersionRises(h, RefundOrder(h, order))
    ensures VersionRises(h, ReconcileHold(h, order, now))
  {
  }

  lemma StepRaisesVersion(h: House, step: Step)
    ensures VersionRises(h, Apply(h, step))
  {
    match step
    case DoBid(actor, amount, requestKey, now) => BidRaises(h, actor, amount, requestKey, now);
    case DoBuyNow(actor, now) => BuyRaises(h, actor, now);
    case DoClose(now) => CloseRaises(h, now);
    case DoCancel(actor, now) =>
    case DoInvalidate(bid) =>
    case DoGoLive(now) =>
    case DoFund(order, now) => OrderRaises(h, order, now);
    case DoDrop(order, now) => OrderRaises(h, order, now);
    case DoFinish(order) => OrderRaises(h, order, 0);
    case DoRefund(order) => OrderRaises(h, order, 0);
    case DoReconcile(order, now) => OrderRaises(h, order, now);
  }

  /** Every transaction, at any time, keeps the books and is never stopped by a guard. */
  lemma StepKeeps(h: House, step: Step)
    requires Sound(h)
    ensures Keeps(Apply(h, step)) && Sound(Next(h, step))
  {
    match step
    case DoBid(actor, amount, requestKey, now) => BidKeeps(h, actor, amount, requestKey, now);
    case DoBuyNow(actor, now) => BuyKeeps(h, actor, now);
    case DoClose(now) => CloseKeeps(h, now);
    case DoCancel(actor, now) => CancelKeeps(h, actor, now);
    case DoInvalidate(bid) => InvalidateKeeps(h, bid);
    case DoGoLive(now) => LiveKeeps(h, now);
    case DoFund(order, now) => FundKeeps(h, order, now);
    case DoDrop(order, now) => DropKeeps(h, order, now);
    case DoFinish(order) => FinishKeeps(h, order);
    case DoRefund(order) => RefundKeeps(h, order);
    case DoReconcile(order, now) => ReconcileKeeps(h, order, now);
  }
}
