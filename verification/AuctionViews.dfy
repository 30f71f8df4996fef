/**
 * The read side of an auction (src/lib/read-model.ts, `getAuctionData` and `getMyBids`) against what the commands
 * accept.
 */
module AuctionViews {
  import opened Common
  import opened AuctionRules
  import opened AuctionBooks
  import opened AuctionTheorems

  datatype Standing = NoStanding | Seller | BoughtPay | WonPay | Won | LostByDefault | Winning | Outbid | Called | Lost

  datatype Viewer = Viewer(standing: Standing, myHighest: Option<int>, order: Option<nat>)

  datatype Snapshot = Snapshot(acceptingBids: bool, nextMinimum: int, highestBid: Option<int>, buyNowAvailable: bool,
      viewer: Option<Viewer>)

  datatype MyBid = MyBid(standing: Standing, myHighest: int)

  /** `order by amount_minor desc, sequence asc`. */
  function Place(b: Bid, ranked: seq<Bid>): (r: seq<Bid>)
    ensures multiset(r) == multiset(ranked) + multiset{b}
  {
    if ranked == [] || Beats(b, ranked[0]) then [b] + ranked
    else
      assert ranked == [ranked[0]] + ranked[1..];
      [ranked[0]] + Place(b, ranked[1..])
  }

  function Ranked(bids: seq<Bid>): seq<Bid>
  {
    if bids == [] then []
    else
      var rest, last := Ranked(bids[..|bids| - 1]), bids[|bids| - 1];
      if last.accepted then Place(last, rest) else rest
  }

  function FirstOf(ranked: seq<Bid>, actor: User): Option<int>
  {
    if ranked == [] then None
    else if ranked[0].bidder == actor then Some(ranked[0].amount)
    else FirstOf(ranked[1..], actor)
  }

  function LatestPurchase(purchases: seq<Purchase>, buyer: User): Option<Purchase>
  {
    if purchases == [] then None
    else
      var last := purchases[|purchases| - 1];
      if last.buyer == buyer then Some(last) else LatestPurchase(purchases[..|purchases| - 1], buyer)
  }

  function ViewerOf(h: House, actor: User): Viewer
  {
    var ranked := Ranked(h.bids);
    var intent, mine := LatestPurchase(h.purchases, actor), FirstOf(ranked, actor);
    var standing :=
      if actor == h.auction.seller then Seller
      else if intent.Some? then
        if intent.value.status == AwaitingFunds then (if intent.value.kind == BuyNow then BoughtPay else WonPay)
        else if intent.value.status == Funded then Won
        else LostByDefault
      else if mine.Some? then
        if IsOpen(h) then (if ranked != [] && ranked[0].bidder == actor then Winning else Outbid)
        else if h.auction.status == Cancelled then Called
        else Lost
      else NoStanding;
    Viewer(standing, mine, if intent.Some? then Some(intent.value.order) else None)
  }

  /** None is the view's null: a cancelled auction is shown to its seller only. */
  function AuctionData(h: House, actor: Option<User>, now: int): Option<Snapshot>
  {
    if h.auction.status == Cancelled && actor != Some(h.auction.seller) then None
    else
      var ranked := Ranked(h.bids);
      var live := IsOpen(h) && now >= h.auction.starts && now < h.auction.ends;
      Some(Snapshot(live,
                    if ranked != [] then ranked[0].amount + h.auction.increment else h.auction.starting,
                    if ranked != [] then Some(ranked[0].amount) else None,
                    live && h.auction.buyNow.Some? && h.auction.firstBidAt.None?,
                    if actor.Some? then Some(ViewerOf(h, actor.value)) else None))
  }

  /** `max(amount_minor)` over the actor's standing bids; None when the join has no row. */
  function MaxAmount(bids: seq<Bid>, actor: User): Option<int>
  {
    if bids == [] then None
    else
      var rest, last := MaxAmount(bids[..|bids| - 1], actor), bids[|bids| - 1];
      if last.accepted && last.bidder == actor && (rest.None? || last.amount > rest.value) then Some(last.amount)
      else rest
  }

  function MyBidOn(h: House, actor: User): Option<MyBid>
  {
    var highest := MaxAmount(h.bids, actor);
    if highest.None? then None
    else
      var intent := LatestPurchase(h.purchases, actor);
      var leading := Top(h.bids).Some? && h.bids[Top(h.bids).value].bidder == actor;
      var standing :=
        if intent.Some? && intent.value.status == AwaitingFunds then WonPay
        else if intent.Some? && intent.value.status == Funded then Won
        else if intent.Some? then LostByDefault
        else if IsOpen(h) then (if leading then Winning else Outbid)
        else if h.auction.status == Cancelled then Called
        else Lost;
      Some(MyBid(standing, highest.value))
  }

  // ---- ranking ------------------------------------------------------------------------------------------------------

  predicate InOrder(ranked: seq<Bid>) { forall i, j :: 0 <= i < j < |ranked| ==> !Beats(ranked[j], ranked[i]) }

  lemma {:induction false} PlaceInOrder(b: Bid, ranked: seq<Bid>)
    requires InOrder(ranked)
    ensures InOrder(Place(b, ranked))
  {
    if ranked != [] && !Beats(b, ranked[0]) {
      PlaceInOrder(b, ranked[1..]);
      var rest := Place(b, ranked[1..]);
      forall j | 0 <= j < |rest|
        ensures !Beats(rest[j], ranked[0])
      {
        assert rest[j] in multiset(ranked[1..]) + multiset{b};
      }
    }
  }

  /** The ranking holds exactly the standing bids, best first. */
  lemma {:induction false} RankedExact(bids: seq<Bid>)
    ensures InOrder(Ranked(bids))
    ensures forall b :: b in Ranked(bids) <==> b in bids && b.accepted
    ensures Ranked(bids) == [] <==> Top(bids).None?
    ensures Top(bids).Some? ==> Ranked(bids)[0] == bids[Top(bids).value]
  {
    if bids != [] {
      var rest, last := bids[..|bids| - 1], bids[|bids| - 1];
      RankedExact(rest);
      PlaceInOrder(last, Ranked(rest));
      assert bids == rest + [last];
      forall b
        ensures b in Ranked(bids) <==> b in bids && b.accepted
      {
        assert b in Place(last, Ranked(rest)) <==> b in multiset(Place(last, Ranked(rest)));
      }
    }
  }

  predicate IsMax(bids: seq<Bid>, actor: User, best: Option<int>)
  {
    && (best.Some? ==> exists b :: b in bids && b.accepted && b.bidder == actor && b.amount == best.value)
    && forall b :: b in bids && b.accepted && b.bidder == actor ==> best.Some? && b.amount <= best.value
  }

  lemma {:induction false} MaxAmountExact(bids: seq<Bid>, actor: User)
    ensures IsMax(bids, actor, MaxAmount(bids, actor))
  {
    if bids != [] {
      var rest, last := bids[..|bids| - 1], bids[|bids| - 1];
      MaxAmountExact(rest, actor);
      assert bids == rest + [last];
    }
  }

  lemma {:induction false} FirstOfExact(ranked: seq<Bid>, actor: User)
    requires InOrder(ranked)
    ensures FirstOf(ranked, actor).Some? ==>
        exists b :: b in ranked && b.bidder == actor && b.amount == FirstOf(ranked, actor).value
    ensures forall b :: b in ranked && b.bidder == actor ==>
        FirstOf(ranked, actor).Some? && b.amount <= FirstOf(ranked, actor).value
  {
    if ranked != [] {
      FirstOfExact(ranked[1..], actor);
      assert ranked == [ranked[0]] + ranked[1..];
    }
  }

  /** The page's own best bid and the dashboard's `max` are the same number. */
  lemma HighestAgree(bids: seq<Bid>, actor: User)
    ensures FirstOf(Ranked(bids), actor) == MaxAmount(bids, actor)
  {
    RankedExact(bids);
    FirstOfExact(Ranked(bids), actor);
    MaxAmountExact(bids, actor);
  }

  // ---- agreement ----------------------------------------------------------------------------------------------------

  /** The snapshot says exactly which bids and which Buy Now the commands would accept at that moment. */
  lemma SnapshotIsExact(h: House, viewer: Option<User>, actor: User, amount: int, requestKey: string, now: int)
    requires Sound(h) && AuctionData(h, viewer, now).Some? && actor != h.auction.seller
    requires ValidMinor(amount) && !KeyTaken(h.bids, actor, requestKey)
    ensures var view := AuctionData(h, viewer, now).value;
            && (PlaceBid(h, actor, amount, requestKey, now).Ok? <==> view.acceptingBids && amount >= view.nextMinimum)
            && (BuyItNow(h, actor, now).Ok? <==> view.buyNowAvailable)
            && view.highestBid == h.auction.currentPrice
  {
    RankedExact(h.bids);
    BidExact(h, actor, amount, requestKey, now);
    BuyKeeps(h, actor, now);
  }

  /** A page that is not shown at all hides nothing that could be bid on or bought. */
  lemma HiddenIsClosed(h: House, viewer: Option<User>, actor: User, amount: int, requestKey: string, now: int)
    requires Sound(h) && AuctionData(h, viewer, now).None?
    ensures PlaceBid(h, actor, amount, requestKey, now).Err? && BuyItNow(h, actor, now).Err? && MyBidOn(h, actor).None?
  {
    BidExact(h, actor, amount, requestKey, now);
    BuyKeeps(h, actor, now);
  }

  /** Whoever has a standing bid sees the same standing and the same highest bid on both pages. */
  lemma StandingsAgree(h: House, actor: User, now: int)
    requires Sound(h) && MyBidOn(h, actor).Some?
    ensures AuctionData(h, Some(actor), now).Some?
    ensures AuctionData(h, Some(actor), now).value.viewer ==
            Some(Viewer(MyBidOn(h, actor).value.standing, Some(MyBidOn(h, actor).value.myHighest),
                        if LatestPurchase(h.purchases, actor).Some? then Some(0) else None))
  {
    MaxAmountExact(h.bids, actor);
    var mine :| mine in h.bids && mine.accepted && mine.bidder == actor;
    BiddersAreNotSellers(h, mine);
    HighestAgree(h.bids, actor);
    RankedExact(h.bids);
    PurchaseFits(h, actor);
  }

  lemma BiddersAreNotSellers(h: House, b: Bid)
    requires Sound(h) && b in h.bids
    ensures b.bidder != h.auction.seller && h.auction.status != Cancelled
  {
  }

  lemma PurchaseFits(h: House, buyer: User)
    requires Sound(h) && h.bids != []
    ensures var p := LatestPurchase(h.purchases, buyer); p.Some? ==> p.value.kind == Winner && p.value.order == 0
  {
    if h.purchases != [] {
      assert h.purchases[..0] == [];
      assert LatestPurchase(h.purchases[..0], buyer) == None;
    }
  }

  // ---- every viewer -------------------------------------------------------------------------------------------------

  /** The page is there for everyone, except that a cancelled auction is there for its seller only. */
  lemma VisibleExactly(h: House, actor: Option<User>, now: int)
    ensures AuctionData(h, actor, now).None? <==> h.auction.status == Cancelled && actor != Some(h.auction.seller)
    ensures AuctionData(h, actor, now).Some? ==> (AuctionData(h, actor, now).value.viewer.Some? <==> actor.Some?)
  {
  }

  predicate HasStandingBid(h: House, actor: User) { exists b :: b in h.bids && b.accepted && b.bidder == actor }

  predicate Leads(h: House, actor: User)
  {
    && h.auction.currentBid.Some? && h.auction.currentBid.value < |h.bids|
    && h.bids[h.auction.currentBid.value].bidder == actor
  }

  /**
   * What the page tells each kind of viewer: the seller; whoever bought or won, by how far the payment came; whoever
   * has a standing bid, leading or not while the auction is open and lost after it; and a visitor, who has no standing.
   */
  lemma ViewerIsExact(h: House, actor: User, now: int)
    requires Sound(h) && AuctionData(h, Some(actor), now).Some?
    ensures var v := AuctionData(h, Some(actor), now).value.viewer;
            var bought := |h.purchases| == 1 && h.purchases[0].buyer == actor;
            && v.Some? && v.value.myHighest == MaxAmount(h.bids, actor)
            && v.value.order == (if bought then Some(0) else None)
            && (actor == h.auction.seller ==> v.value.standing == Seller && !bought && v.value.myHighest.None?)
            && (bought ==>
                  var p := h.purchases[0];
                  && (p.status == AwaitingFunds && p.kind == BuyNow ==> v.value.standing == BoughtPay)
                  && (p.status == AwaitingFunds && p.kind == AuctionRules.Winner ==> v.value.standing == WonPay)
                  && (p.status == Funded ==> v.value.standing == Won)
                  && (p.status in {Unfunded, Expired} ==> v.value.standing == LostByDefault))
            && (actor != h.auction.seller && !bought && HasStandingBid(h, actor) ==>
                  v.value.standing == if !IsOpen(h) then Lost else if Leads(h, actor) then Winning else Outbid)
            && (actor != h.auction.seller && !bought && !HasStandingBid(h, actor) ==>
                  v.value.standing == NoStanding && v.value.myHighest.None?)
  {
    HighestAgree(h.bids, actor);
    MaxAmountExact(h.bids, actor);
    RankedExact(h.bids);
    if HasStandingBid(h, actor) {
      var b :| b in h.bids && b.accepted && b.bidder == actor;
      BiddersAreNotSellers(h, b);
    }
    OnePurchase(h, actor);
  }

  lemma OnePurchase(h: House, buyer: User)
    requires Sound(h)
    ensures LatestPurchase(h.purchases, buyer) ==
            if |h.purchases| == 1 && h.purchases[0].buyer == buyer then Some(h.purchases[0]) else None
    ensures |h.purchases| == 1 ==> h.purchases[0].order == 0 && h.purchases[0].buyer != h.auction.seller
  {
    if h.purchases != [] {
      assert h.purchases[..0] == [];
      assert LatestPurchase(h.purchases[..0], buyer) == None;
    }
  }
}
