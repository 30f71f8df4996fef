/** Safety of the auction over every run, with timestamps in any order, and what its read views promise. */
module AuctionTheorems {
  import opened Common
  import opened AuctionRules
  import opened AuctionBooks

  lemma CreateSound(seller: User, starting: int, increment: int, buyNow: Option<int>, starts: int, ends: int,
      units: nat, accepting: bool, now: int)
    ensures var r := CreateAuction(seller, starting, increment, buyNow, starts, ends, units, accepting, now);
            r.Ok? ==> Sound(r.value) && IsOpen(r.value)
  {
  }

  /** An amount in cents, up to a billion dollars. */
  predicate Amount(minor: int) { 0 < minor <= 100_000_000_000 }

  /**
   * An auction is created exactly under these terms: amounts in range, a Buy Now price above the starting price, a
   * start at most five minutes ago, an end after the start and now, and at most seven days. Its row has exactly the
   * terms of the form, it is live exactly if its start has come, and its one claim holds the units of the service.
   */
  lemma CreateExact(seller: User, starting: int, increment: int, buyNow: Option<int>, starts: int, ends: int,
      units: nat, accepting: bool, now: int)
    ensures CreateAuction(seller, starting, increment, buyNow, starts, ends, units, accepting, now).Ok? <==>
              && Amount(starting) && Amount(increment) && (buyNow.Some? ==>
                  Amount(buyNow.value) && buyNow.value > starting)
              && now - 300_000 <= starts < ends <= starts + 604_800_000 && now < ends && accepting
    ensures var r := CreateAuction(seller, starting, increment, buyNow, starts, ends, units, accepting, now);
            var amounts := Amount(starting) && Amount(increment) && (buyNow.Some? ==> Amount(buyNow.value));
            var terms := && (buyNow.Some? ==> buyNow.value > starting)
                         && now - 300_000 <= starts < ends <= starts + 604_800_000 && now < ends;
            && (r == Err(InvalidAmount) <==> !amounts)
            && (r == Err(BadTerms) <==> amounts && !terms)
            && (r == Err(NotAccepting) <==> amounts && terms && !accepting)
    ensures var r := CreateAuction(seller, starting, increment, buyNow, starts, ends, units, accepting, now);
            r.Ok? ==>
              var a := r.value.auction;
              && a.seller == seller && a.starting == starting && a.increment == increment && a.buyNow == buyNow
              && a.starts == starts && a.ends == ends && a.units == units
              && a.status == (if starts <= now then Live else Scheduled)
              && a.version == 1 && a.firstBidAt.None? && a.currentBid.None? && a.currentPrice.None? && a.bidCount == 0
              && a.winner.None? && a.winningBid.None? && a.paymentDue.None? && a.closedAt.None?
              && r.value.claims == [Claim(seller, units, true, None, Held, None)]
              && r.value.bids == [] && r.value.purchases == [] && r.value.orders == []
  {
  }

  lemma {:induction false} RunKeeps(h: House, steps: seq<Step>)
    requires Sound(h)
    ensures Sound(Run(h, steps))
    decreases |steps|
  {
    if steps != [] {
      StepKeeps(h, steps[0]);
      RunKeeps(Next(h, steps[0]), steps[1..]);
    }
  }

  /** No reachable auction meets a guard: not the lost slot, not a second sale, not a row trigger. */
  lemma GuardsNeverFire(h: House, steps: seq<Step>, step: Step)
    requires Sound(h)
    ensures Clean(Apply(Run(h, steps), step))
  {
    RunKeeps(h, steps);
    StepKeeps(Run(h, steps), step);
  }

  // ---- bidding ------------------------------------------------------------------------------------------------------

  lemma PlaceShape(h: House, actor: User, amount: int, requestKey: string, now: int)
    requires ValidMinor(amount) && actor != h.auction.seller && OpenWindow(h, now).Ok?
    ensures var live := OpenWindow(h, now).value;
            && live == h.(auction := live.auction)
            && PlaceBid(h, actor, amount, requestKey, now) ==
               if amount < NextMinimum(h) then Err(BidTooLow) else InsertBid(live, actor, amount, requestKey, now)
  {
  }

  lemma PlaceRefused(h: House, actor: User, amount: int, requestKey: string, now: int)
    requires !ValidMinor(amount) || actor == h.auction.seller || OpenWindow(h, now).Err?
    ensures PlaceBid(h, actor, amount, requestKey, now).Err?
  {
  }

  lemma InsertLeads(h: House, actor: User, amount: int, requestKey: string, now: int)
    requires Sound(h) && ValidMinor(amount) && amount >= NextMinimum(h)
    ensures var r := InsertBid(h, actor, amount, requestKey, now);
            r.Ok? ==>
              && r.value.bids == h.bids + [Bid(actor, amount, |h.bids| + 1, requestKey, true, now)]
              && Top(r.value.bids) == Some(|h.bids|)
  {
    InsertShape(h, actor, amount, requestKey, now);
    NewLeader(h, Bid(actor, amount, |h.bids| + 1, requestKey, true, now));
  }

  /** Exactly when a bid is accepted, and that it then leads. */
  lemma BidExact(h: House, actor: User, amount: int, requestKey: string, now: int)
    requires Sound(h)
    ensures PlaceBid(h, actor, amount, requestKey, now).Ok? <==>
              ValidMinor(amount) && actor != h.auction.seller && IsOpen(h) && h.auction.starts <= now < h.auction.ends
              && amount >= NextMinimum(h) && !KeyTaken(h.bids, actor, requestKey)
    ensures var r := PlaceBid(h, actor, amount, requestKey, now);
            r.Ok? ==>
              && r.value.bids == h.bids + [Bid(actor, amount, |h.bids| + 1, requestKey, true, now)]
              && Top(r.value.bids) == Some(|h.bids|)
  {
    LiveKeeps(h, now);
    if !ValidMinor(amount) || actor == h.auction.seller || OpenWindow(h, now).Err? {
      PlaceRefused(h, actor, amount, requestKey, now);
    } else {
      PlaceShape(h, actor, amount, requestKey, now);
      var live := OpenWindow(h, now).value;
      if amount >= NextMinimum(h) {
        InsertKeeps(live, actor, amount, requestKey, now);
        InsertLeads(live, actor, amount, requestKey, now);
      }
    }
  }

  /** The leader is strictly above every other standing bid, so sequence numbers never break a tie. */
  lemma TiesNeverDecide(h: House, i: nat)
    requires Sound(h) && i < |h.bids| && h.bids[i].accepted
    ensures Top(h.bids).Some? && Top(h.bids).value >= i
    ensures i != Top(h.bids).value ==> h.bids[Top(h.bids).value].amount >= h.bids[i].amount + h.auction.increment
  {
    TopIsBest(h.bids);
  }

  /** Bids are only ever added at the end or struck out. */
  predicate Grew(before: seq<Bid>, after: seq<Bid>)
  {
    |before| <= |after| && forall i :: 0 <= i < |before| ==>
        after[i] == before[i].(accepted := after[i].accepted) && (after[i].accepted ==> before[i].accepted)
  }

  /** Everything but a bid and its invalidation leaves the bids alone. */
  lemma OtherStepsKeepBids(h: House, step: Step)
    requires !step.DoBid? && !step.DoInvalidate?
    ensures Next(h, step).bids == h.bids
  {
    match step
    case DoBuyNow(actor, now) => assert BuyItNow(h, actor, now).Ok? ==> BuyItNow(h, actor, now).value.bids == h.bids;
    case DoClose(now) => assert CloseAuction(h, now).Ok? ==> CloseAuction(h, now).value.0.bids == h.bids;
    case DoFund(order, now) => assert FundOrder(h, order, now).Ok? ==> FundOrder(h, order, now).value.bids == h.bids;
    case DoDrop(order, now) => assert DropUnpaidOrder(h, order, now).Ok? ==>
        DropUnpaidOrder(h, order, now).value.bids == h.bids;
    case _ =>
  }

  lemma StepGrows(h: House, step: Step)
    requires Sound(h)
    ensures Grew(h.bids, Next(h, step).bids)
    ensures |Next(h, step).bids| > |h.bids| ==>
        step.DoBid? && IsOpen(h) && h.auction.starts <= step.now < h.auction.ends
  {
    if step.DoBid? {
      BidExact(h, step.actor, step.amount, step.requestKey, step.now);
    } else if step.DoInvalidate? {
      assert InvalidateBid(h, step.bid).Ok? ==>
          InvalidateBid(h, step.bid).value.bids == h.bids[step.bid := h.bids[step.bid].(accepted := false)];
    } else {
      OtherStepsKeepBids(h, step);
    }
  }

  lemma {:induction false} RunGrows(h: House, steps: seq<Step>)
    requires Sound(h)
    ensures Grew(h.bids, Run(h, steps).bids)
    decreases |steps|
  {
    if steps != [] {
      StepKeeps(h, steps[0]);
      StepGrows(h, steps[0]);
      RunGrows(Next(h, steps[0]), steps[1..]);
    }
  }

  // ---- sales --------------------------------------------------------------------------------------------------------

  /** The sale recorded before is still the only one. */
  predicate SameSale(h: House, k: House)
  {
    && k.bids == h.bids && |k.purchases| == |h.purchases| && |k.orders| == |h.orders|
    && forall i :: 0 <= i < |h.purchases| ==> k.purchases[i] == h.purchases[i].(status := k.purchases[i].status)
  }

  lemma ClosedOrderStep(h: House, step: Step)
    requires !IsOpen(h) && (step.DoFund? || step.DoDrop? || step.DoFinish? || step.DoRefund? || step.DoReconcile?)
    ensures !IsOpen(Next(h, step)) && SameSale(h, Next(h, step))
  {
    match step
    case DoFund(order, now) =>
      assert FundOrder(h, order, now).Ok? ==>
          FundOrder(h, order, now).value.purchases == SyncPurchases(h.purchases, order, true);
    case DoDrop(order, now) =>
      assert DropUnpaidOrder(h, order, now).Ok? ==>
          DropUnpaidOrder(h, order, now).value.purchases == SyncPurchases(h.purchases, order, false);
    case _ =>
  }

  lemma ClosedStep(h: House, step: Step)
    requires !IsOpen(h)
    ensures !IsOpen(Next(h, step)) && SameSale(h, Next(h, step))
  {
    if step.DoFund? || step.DoDrop? || step.DoFinish? || step.DoRefund? || step.DoReconcile? {
      ClosedOrderStep(h, step);
    } else {
      assert Next(h, step) == h;
    }
  }

  /** Once closed, an auction takes no bid, gains no sale and never reopens, whatever runs later with whatever clock. */
  lemma {:induction false} ClosedForever(h: House, steps: seq<Step>)
    requires Sound(h) && !IsOpen(h)
    ensures !IsOpen(Run(h, steps)) && SameSale(h, Run(h, steps))
    decreases |steps|
  {
    if steps != [] {
      StepKeeps(h, steps[0]);
      ClosedStep(h, steps[0]);
      ClosedForever(Next(h, steps[0]), steps[1..]);
    }
  }

  /** At every moment of every run there is at most one sale and it is the right one. */
  lemma SingleSale(h: House, steps: seq<Step>)
    requires Sound(h)
    ensures var k := Run(h, steps);
            && |k.claims| == 1 && |k.purchases| <= 1 && |k.orders| == |k.purchases|
            && (|k.purchases| == 1 <==> Sold(k.auction.status))
            && (|k.purchases| == 1 && k.purchases[0].kind == BuyNow ==> k.bids == [])
            && (|k.purchases| == 1 && k.purchases[0].kind == Winner ==>
                  && Top(k.bids).Some? && k.purchases[0].bid == Top(k.bids)
                  && k.purchases[0].buyer == k.bids[Top(k.bids).value].bidder
                  && k.purchases[0].amount == k.bids[Top(k.bids).value].amount)
  {
    RunKeeps(h, steps);
  }

  /** What `closeAuction` decides, in each case. */
  lemma CloseExact(h: House, now: int)
    requires Sound(h)
    ensures var r := CloseAuction(h, now);
            && r.Ok?
            && (r.value.1.AlreadyClosed? <==> !IsOpen(h))
            && (r.value.1 == NotDue <==> IsOpen(h) && now < h.auction.ends)
            && (r.value.1 == ClosedWithoutBids <==>
                IsOpen(h) && now >= h.auction.ends && forall i :: 0 <= i < |h.bids| ==> !h.bids[i].accepted)
            && (r.value.1.AlreadyClosed? || r.value.1 == NotDue ==> r.value.0 == h)
  {
    CloseKeeps(h, now);
    TopIsBest(h.bids);
  }

  lemma ClosedUnsold(h: House, now: int)
    requires Sound(h) && CloseAuction(h, now).Ok? && CloseAuction(h, now).value.1 == ClosedWithoutBids
    ensures var k := CloseAuction(h, now).value.0;
            k.auction.status == NoBids && |k.claims| == 1 && k.claims[0].state == Released && k.orders == []
  {
    OneClaim(h, None);
  }

  lemma SaleRows(h: House, buyer: User, amount: int, kind: Kind, bid: Option<nat>, expiresAt: int, now: int)
    requires CreateSale(h, buyer, amount, kind, bid, expiresAt, now).Ok?
    ensures var k := CreateSale(h, buyer, amount, kind, bid, expiresAt, now).value;
            k.bids == h.bids && k.purchases ==
                h.purchases + [Purchase(buyer, kind, bid, amount, AwaitingFunds, |h.orders|, expiresAt)]
            && k.auction.status == AwaitingPayment
  {
  }

  lemma WinnerRows(h: House, now: int)
    requires CloseAuction(h, now).Ok? && CloseAuction(h, now).value.1.WinnerSelected? && h.purchases == []
    ensures IsOpen(h) && now >= h.auction.ends && Top(h.bids).Some? && CloseAuction(h, now).value.1.order == |h.orders|
    ensures var k, best := CloseAuction(h, now).value.0, h.bids[Top(h.bids).value];
            && k.bids == h.bids && !IsOpen(k)
            && k.purchases == [Purchase(best.bidder, Winner, Top(h.bids), best.amount, AwaitingFunds, |h.orders|,
                now + WINNER_PAYMENT_MS)]
  {
    var top := Top(h.bids).value;
    SaleRows(h, h.bids[top].bidder, h.bids[top].amount, Winner, Some(top), now + WINNER_PAYMENT_MS, now);
  }

  /** A close that picks a winner sells to the highest standing bidder at their price. */
  lemma ClosedToWinner(h: House, now: int)
    requires Sound(h) && CloseAuction(h, now).Ok? && CloseAuction(h, now).value.1.WinnerSelected?
    ensures var k := CloseAuction(h, now).value.0;
            && Sound(k) && !IsOpen(k) && k.bids == h.bids && |k.purchases| == 1
            && LatestOrder(k.purchases) == Some(CloseAuction(h, now).value.1.order)
            && k.purchases[0].expiresAt == now + 86_400_000
            && Top(h.bids).Some? && k.purchases[0].buyer == h.bids[Top(h.bids).value].bidder
            && forall i :: 0 <= i < |h.bids| && h.bids[i].accepted ==> k.purchases[0].amount >= h.bids[i].amount
  {
    assert h.purchases == [] by { CloseExact(h, now); }
    CloseKeeps(h, now);
    WinnerRows(h, now);
    BestAmount(h.bids);
  }

  lemma BestAmount(bids: seq<Bid>)
    requires forall i, j :: 0 <= i < j < |bids| ==> bids[i].sequence < bids[j].sequence
    ensures Top(bids).Some? ==> forall i :: 0 <= i < |bids| && bids[i].accepted ==>
        bids[Top(bids).value].amount >= bids[i].amount
  {
    TopIsBest(bids);
  }

  /** A repeated close, at any later point and with any clock, changes nothing and names the same order. */
  lemma RepeatedClose(h: House, now: int, steps: seq<Step>, later: int)
    requires Sound(h) && CloseAuction(h, now).Ok? && CloseAuction(h, now).value.1.WinnerSelected?
    ensures var k := Run(CloseAuction(h, now).value.0, steps);
            CloseAuction(k, later) == Ok((k, AlreadyClosed(Some(CloseAuction(h, now).value.1.order))))
  {
    ClosedToWinner(h, now);
    ClosedForever(CloseAuction(h, now).value.0, steps);
  }

  /** Buy Now and a bid exclude each other for good, in both orders. */
  lemma BidOrBuy(h: House, steps: seq<Step>, actor: User, now: int)
    requires Sound(h)
    ensures h.bids != [] ==> BuyItNow(Run(h, steps), actor, now).Err?
    ensures BuyItNow(h, actor, now).Ok? ==> Run(BuyItNow(h, actor, now).value, steps).bids == []
  {
    RunKeeps(h, steps);
    RunGrows(h, steps);
    BuyKeeps(Run(h, steps), actor, now);
    BuyKeeps(h, actor, now);
    if BuyItNow(h, actor, now).Ok? {
      BoughtIsClosed(h, actor, now);
      ClosedForever(BuyItNow(h, actor, now).value, steps);
    }
  }

  /** Buy Now sells to the buyer at the Buy Now price, due in fifteen minutes, and closes the auction. */
  lemma BoughtIsClosed(h: House, actor: User, now: int)
    requires Sound(h) && BuyItNow(h, actor, now).Ok?
    ensures var k := BuyItNow(h, actor, now).value;
            && Sound(k) && !IsOpen(k) && k.bids == h.bids == [] && h.auction.buyNow.Some?
            && k.purchases == [Purchase(actor, BuyNow, None, h.auction.buyNow.value, AwaitingFunds, 0, now + 900_000)]
  {
    BuyKeeps(h, actor, now);
    LiveKeeps(h, now);
    BuyShape(h, actor, now);
    var live := OpenWindow(h, now).value;
    SaleRows(live, actor, h.auction.buyNow.value, BuyNow, None, now + CHECKOUT_HOLD_MS, now);
    assert live.purchases == [] && live.orders == [];
  }

  /** The slot is never lost or doubled: where it is and who holds it follows from the status alone. */
  lemma {:induction false} ClaimConserved(h: House, steps: seq<Step>)
    requires Sound(h)
    ensures var k := Run(h, steps);
            && |k.claims| == 1 && k.claims[0].units == h.claims[0].units && k.claims[0].creator == h.claims[0].creator
            && (k.claims[0].onAuction && k.claims[0].state == Held <==> IsOpen(k))
            && (k.claims[0].onAuction && k.claims[0].state == Released <==> k.auction.status in {NoBids, Cancelled})
            && (k.claims[0].order == Some(0) <==> |k.orders| == 1)
    decreases |steps|
  {
    if steps != [] {
      StepKeeps(h, steps[0]);
      UnitsStay(h, steps[0]);
      ClaimConserved(Next(h, steps[0]), steps[1..]);
    }
  }

  lemma UnitsStay(h: House, step: Step)
    ensures Next(h, step).auction.units == h.auction.units && Next(h, step).auction.seller == h.auction.seller
  {
    match step
    case DoBid(actor, amount, requestKey, now) => assert OpenWindow(h, now).Ok? ==>
        OpenWindow(h, now).value.auction.units == h.auction.units;
    case DoBuyNow(actor, now) => assert OpenWindow(h, now).Ok? ==>
        OpenWindow(h, now).value.auction.units == h.auction.units;
    case DoFund(order, now) => assert ActivateOrderClaim(h, order).Ok? ==>
        ActivateOrderClaim(h, order).value.auction == h.auction;
    case _ =>
  }
}
