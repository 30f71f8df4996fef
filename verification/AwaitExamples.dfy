/**
 * Runs in which overlapping calls break what serialized calls keep. Each starts from a sound chain with one bucket of
 * 100.
 */
module AwaitExamples {
  import opened Common
  import opened MapSums
  import opened SimChain
  import opened EscrowRules
  import opened EscrowAwait
  import opened AwaitBooks
  import opened AwaitRuns
  import opened AwaitOnce
  import opened AwaitReports

  const ESCROW := OrderEscrow(1)
  const SERVER := Auth(6, 500)

  function OneBucket(): Sim
  {
    Sim(5, Some(9), [Block(0, Fresh(1), [])], 1, false, false, {}, {}, map[],
        map[ESCROW := Bucket(7, 8, 100, 0, 0, false)], [])
  }

  function Base(): Devnet
  {
    Devnet(OneBucket(), NOTHING_IN_FLIGHT.(taken := map[ESCROW := 100]))
  }

  /** A release of 40 units under payout reference 3. */
  function Forty(nonce: nat): Signed
  {
    Signed(Domain(5, 9), ReleaseMessage(3, ESCROW, 4, 8, 40, nonce, 1000), 6)
  }

  /** A release that passes every check but the signature. */
  function Forged(): Signed
  {
    Signed(Domain(5, 9), ReleaseMessage(77, ESCROW, 4, 8, 40, 77, 1000), 99)
  }

  function Fifty(): DepositInput
  {
    DepositInput(9, Funded(ESCROW, OtherReference(1), 7, 8, 50), false, Some(Given(1)), 0)
  }

  function FreezeIt(): SignedFreeze
  {
    SignedFreeze(Domain(5, 9), ESCROW, true, 50, 1000, 6)
  }

  /** Nothing is in flight, nothing was paid twice, and every bucket shows what it took in. */
  ghost predicate Sound(c: Devnet)
  {
    AtRest(c) && Accounts(c) && Apart(c) && forall e :: Short(c, e) == 0
  }

  lemma BaseIsSound()
    ensures Sound(Base())
  {
    assert SpentBy(OneBucket().buckets) == map[][ESCROW := 0];
    SumAdd(map[], ESCROW, 0);
  }

  /** The first two steps of a batch that will be refused. */
  lemma BatchWaits(c: Devnet)
    requires c.sim.blocks != [] && c.flight.batch.None? && CheckPayout(c.sim, Forged().message).None?
    ensures Apply(Apply(c, StartBatch([Forged()])), BeginRelease) ==
            WithBatch(c, Some(BatchRun(c.sim, [Forged()], 0, Waiting, {}, {}, {})))
  {
  }

  /** Its last two: the tables of the snapshot are back, and the objects that were live are replaced. */
  lemma BatchIsUndone(c: Devnet)
    requires c.sim.blocks != [] && c.flight.batch.Some? && ESCROW in c.sim.buckets && c.sim.settlement == Some(9)
             && c.sim.chainId == 5
    requires var run := c.flight.batch.value; run.batch == [Forged()] && run.done == 0 && run.stage == Waiting
    requires |c.flight.batch.value.snap.transfers| <= |c.sim.transfers|
    ensures var refused, run := Apply(c, FinishRelease(SERVER)), c.flight.batch.value;
            && refused == WithBatch(c, Some(run.(stage := Refused(BadSignature)))) && Undoes(refused, UndoBatch)
            && var undone := Apply(refused, UndoBatch);
            && undone.sim == Restore(run.snap, c.sim) && undone.flight.batch.None?
            && undone.flight.gen == c.flight.gen + 1
            && undone.flight.calls == c.flight.calls && undone.flight.accepted == c.flight.accepted
            && undone.flight.taken == c.flight.taken
            && Object(undone, c.flight.gen, ESCROW) == Some(c.sim.buckets[ESCROW])
  {
  }

  /** Nothing is paid yet, nothing is frozen, and no single call is in flight. */
  predicate Untouched(c: Devnet)
  {
    && c.sim.blocks != [] && !c.sim.offline && !c.sim.paused && c.sim.chainId == 5 && c.sim.settlement == Some(9)
    && c.sim.failing == {} && c.sim.paid == map[] && c.sim.nonces == {} && c.sim.transfers == []
    && ESCROW in c.sim.buckets && c.sim.buckets[ESCROW] == Bucket(7, 8, 100, 0, 0, false) && c.flight.calls == map[]
  }

  lemma PayForty(c: Devnet, id: nat)
    requires Untouched(c)
    ensures var began := Apply(c, BeginPayout(id, Forty(11)));
            && began == c.(flight := c.flight.(calls := map[id := PayCall(Forty(11), c.flight.gen)]))
            && var paid := Apply(began, Finish(id, SERVER));
            && PaysNow(began, Finish(id, SERVER)) && RefOf(began, id) == 3
            && paid.flight.calls == map[] && paid.flight.accepted == c.flight.accepted + [3]
            && paid.flight.gen == c.flight.gen
            && |paid.sim.transfers| == 1 && paid.sim.transfers[0].amount == 40 && ESCROW in paid.sim.buckets
            && paid.sim.settlement == Some(9) && paid.sim.chainId == 5
            && (c.flight.batch.Some? && 3 !in c.flight.batch.value.snap.paid ==>
                  paid.flight.batch == Some(c.flight.batch.value.(payouts := c.flight.batch.value.payouts + {3})))
  {
    var began := Apply(c, BeginPayout(id, Forty(11)));
    assert began.flight.calls == map[id := PayCall(Forty(11), c.flight.gen)];
  }

  lemma FreezeNow(c: Devnet, id: nat)
    requires c.sim.blocks != [] && !c.sim.offline && c.sim.chainId == 5 && c.sim.settlement == Some(9)
             && id !in c.flight.calls
    requires FreezeIt().nonce !in c.sim.nonces && ESCROW in c.sim.buckets
    ensures var began := Apply(c, BeginFreeze(id, FreezeIt()));
            && began == c.(flight := c.flight.(calls := c.flight.calls[id := FreezeCall(FreezeIt(), c.flight.gen)]))
            && var done := Apply(began, Finish(id, SERVER));
            && done.sim == EscrowRules.ApplyFreeze(c.sim, FreezeIt()) && done.flight.calls == c.flight.calls - {id}
            && done.flight.stale == c.flight.stale && done.flight.gen == c.flight.gen
            && done.flight.batch.Some? == c.flight.batch.Some?
            && (c.flight.batch.Some? ==>
                  done.flight.batch.value == c.flight.batch.value.(freezes := c.flight.batch.value.freezes + {ESCROW}))
  {
    var began := Apply(c, BeginFreeze(id, FreezeIt()));
    assert began.flight.calls - {id} == c.flight.calls - {id};
  }

  lemma OneTransfer(transfers: seq<Transfer>)
    requires |transfers| == 1
    ensures TransferTotal(transfers) == transfers[0].amount
  {
    assert transfers[..0] == [] && TransferTotal([]) == 0;
  }

  function OverlapOps(): seq<ChainOp>
  {
    [BeginPayout(0, Forty(11)), BeginPayout(1, Forty(12)), Finish(0, SERVER), Finish(1, SERVER)]
  }

  /** The step finishes the call with the given id, which pays reference 3. */
  predicate Pays(c: Devnet, op: ChainOp, id: nat)
  {
    op == Finish(id, SERVER) && PaysNow(c, op) && RefOf(c, id) == 3
  }

  lemma OverlapRun() returns (states: seq<Devnet>)
    ensures Path(states, OverlapOps()) && states[0] == Base() && states[4].flight.accepted == [3, 3]
    ensures Pays(states[2], OverlapOps()[2], 0) && Pays(states[3], OverlapOps()[3], 1)
    ensures 1 !in states[1].flight.calls && 1 in states[2].flight.calls && 1 in states[3].flight.calls
  {
    var a := Base();
    var b := Apply(a, BeginPayout(0, Forty(11)));
    var c := Apply(b, BeginPayout(1, Forty(12)));
    assert c.flight.calls == map[0 := PayCall(Forty(11), 0), 1 := PayCall(Forty(12), 0)];
    var d := Apply(c, Finish(0, SERVER));
    assert d.sim.buckets[ESCROW] == Bucket(7, 8, 100, 40, 0, false)
           && d.flight.calls == map[1 := PayCall(Forty(12), 0)];
    var e := Apply(d, Finish(1, SERVER));
    states := [a, b, c, d, e];
  }

  lemma SaidTwice(c: Devnet)
    requires c.flight.accepted == [3, 3]
    ensures !Once(c)
  {
    assert c.flight.accepted[0] == c.flight.accepted[1];
  }

  lemma OverlapIsReported(states: seq<Devnet>)
    requires |states| == 5 && Pays(states[2], OverlapOps()[2], 0) && Pays(states[3], OverlapOps()[3], 1)
    requires 1 !in states[1].flight.calls && 1 in states[2].flight.calls && 1 in states[3].flight.calls
    ensures Checks(states, OverlapOps(), 1, 3, 3) && Reported(states, OverlapOps(), 1, 3, 3)
  {
    assert 3 in Reports(states[2], OverlapOps()[2]) && 3 in Reports(states[3], OverlapOps()[3]);
    assert BeginsCall(states, OverlapOps(), 1, 3, 1);
  }

  /** Two overlapping calls for one payout are both paid: the reference is tested before the await only. */
  lemma OverlapPaysTwice() returns (states: seq<Devnet>)
    ensures Path(states, OverlapOps())
    ensures states[0] == Base() && Sound(states[0]) && states[4].flight.accepted == [3, 3] && !Once(states[4])
    ensures Checks(states, OverlapOps(), 1, 3, 3) && Reported(states, OverlapOps(), 1, 3, 3)
  {
    states := OverlapRun();
    BaseIsSound();
    SaidTwice(states[4]);
    OverlapIsReported(states);
  }

  /** A deposit made while a batch waits loses its credit when the batch is undone; its block and its event stay. */
  lemma UndoErasesDeposit() returns (states: seq<Devnet>)
    ensures Path(states, [StartBatch([Forged()]), BeginRelease, DepositOp(Fifty()), FinishRelease(SERVER), UndoBatch])
    ensures states[0] == Base() && Sound(states[0])
    ensures DepositedFor(states[0].sim, ESCROW) == 100 && DepositedFor(states[3].sim, ESCROW) == 150
    ensures DepositedFor(states[5].sim, ESCROW) == 100 && Taken(states[5].flight, ESCROW) == 150
    ensures |states[5].sim.blocks| == 2 && |states[5].sim.blocks[1].receipts| == 1
    ensures states[5].sim.blocks[1].receipts[0].logs == [Entry(9, Some(Fifty().funded))]
  {
    var a := Base();
    BatchWaits(a);
    var b := Apply(a, StartBatch([Forged()]));
    var c := Apply(b, BeginRelease);
    var d := Apply(c, DepositOp(Fifty()));
    BatchIsUndone(d);
    var e := Apply(d, FinishRelease(SERVER));
    var f := Apply(e, UndoBatch);
    assert DepositLogs(Fifty()) == [Entry(9, Some(Fifty().funded))];
    states := [a, b, c, d, e, f];
    assert Sound(states[0]) by { BaseIsSound(); }
  }

  function ErasedOps(): seq<ChainOp>
  {
    [StartBatch([Forged()]), BeginRelease, BeginPayout(0, Forty(11)), Finish(0, SERVER),
     FinishRelease(SERVER), UndoBatch, BeginPayout(1, Forty(11)), Finish(1, SERVER)]
  }

  lemma ErasedRun() returns (states: seq<Devnet>)
    ensures Path(states, ErasedOps()) && states[0] == Base() && states[8].flight.accepted == [3, 3]
    ensures Serialized(states[2], BeginPayout(0, Forty(11))) && Serialized(states[6], BeginPayout(1, Forty(11)))
    ensures Forgets(states[5], UndoBatch) && TransferTotal(states[8].sim.transfers) == 40
    ensures Pays(states[3], ErasedOps()[3], 0) && Pays(states[7], ErasedOps()[7], 1)
    ensures ForgetsRef(states[5], ErasedOps()[5], 3) && 1 !in states[6].flight.calls && 1 in states[7].flight.calls
  {
    var a := Base();
    BatchWaits(a);
    var b := Apply(a, StartBatch([Forged()]));
    var c := Apply(b, BeginRelease);
    PayForty(c, 0);
    var d := Apply(c, BeginPayout(0, Forty(11)));
    var e := Apply(d, Finish(0, SERVER));
    assert 3 in e.flight.batch.value.payouts;
    BatchIsUndone(e);
    var f := Apply(e, FinishRelease(SERVER));
    var g := Apply(f, UndoBatch);
    assert Untouched(g);
    PayForty(g, 1);
    var h := Apply(g, BeginPayout(1, Forty(11)));
    var i := Apply(h, Finish(1, SERVER));
    OneTransfer(i.sim.transfers);
    states := [a, b, c, d, e, f, g, h, i];
  }

  lemma ErasedIsLost(states: seq<Devnet>)
    requires |states| == 9 && Pays(states[3], ErasedOps()[3], 0) && Pays(states[7], ErasedOps()[7], 1)
    requires ForgetsRef(states[5], ErasedOps()[5], 3) && 1 !in states[6].flight.calls && 1 in states[7].flight.calls
    ensures Checks(states, ErasedOps(), 6, 7, 3) && Lost(states, ErasedOps(), 6, 3)
    ensures !Reported(states, ErasedOps(), 6, 7, 3)
  {
    assert 3 in Reports(states[3], ErasedOps()[3]) && 3 in Reports(states[7], ErasedOps()[7]);
    assert Reported(states, ErasedOps(), 0, 5, 3);
    assert BeginsCall(states, ErasedOps(), 6, 7, 1);
    assert Reports(states[6], ErasedOps()[6]) == [];
  }

  /**
   * A payout that completes while a batch waits is forgotten with the batch, and the same message is paid again,
   * although nothing is reported while the second call waits.
   */
  lemma UndoErasesPayment() returns (states: seq<Devnet>)
    ensures Path(states, ErasedOps())
    ensures states[0] == Base() && Sound(states[0]) && states[8].flight.accepted == [3, 3] && !Once(states[8])
    ensures Serialized(states[2], BeginPayout(0, Forty(11))) && Serialized(states[6], BeginPayout(1, Forty(11)))
    ensures Forgets(states[5], UndoBatch) && TransferTotal(states[8].sim.transfers) == 40
    ensures Checks(states, ErasedOps(), 6, 7, 3) && Lost(states, ErasedOps(), 6, 3)
    ensures !Reported(states, ErasedOps(), 6, 7, 3)
  {
    states := ErasedRun();
    BaseIsSound();
    SaidTwice(states[8]);
    ErasedIsLost(states);
  }

  /** A payout waited through an undone batch: it holds a replaced object. */
  predicate Replaced(c: Devnet)
  {
    && Untouched(c.(flight := c.flight.(calls := map[]))) && c.flight.calls == map[0 := PayCall(Forty(11), 0)]
    && c.flight.gen == 1
    && c.flight.batch.None? && Object(c, 0, ESCROW) == Some(Bucket(7, 8, 100, 0, 0, false))
    && c.sim.buckets == OneBucket().buckets
  }

  lemma ReplacedIsReached() returns (states: seq<Devnet>)
    ensures Path(states, [BeginPayout(0, Forty(11)), StartBatch([Forged()]), BeginRelease, FinishRelease(SERVER),
        UndoBatch])
    ensures states[0] == Base() && Sound(states[0]) && Replaced(states[5])
  {
    var a := Base();
    PayForty(a, 0);
    var b := Apply(a, BeginPayout(0, Forty(11)));
    BatchWaits(b);
    var c := Apply(b, StartBatch([Forged()]));
    var d := Apply(c, BeginRelease);
    BatchIsUndone(d);
    var e := Apply(d, FinishRelease(SERVER));
    var f := Apply(e, UndoBatch);
    states := [a, b, c, d, e, f];
    assert Sound(states[0]) by { BaseIsSound(); }
  }

  lemma OldObjectPays(c: Devnet)
    requires Replaced(c.(sim := c.sim.(buckets := OneBucket().buckets, nonces := {})))
    requires ESCROW in c.sim.buckets && 11 !in c.sim.nonces
    ensures PaysReplaced(c, Finish(0, SERVER))
    ensures var after := Apply(c, Finish(0, SERVER));
            TransferTotal(after.sim.transfers) == 40 && after.sim.buckets == c.sim.buckets && after.flight.batch.None?
  {
    OneTransfer(Apply(c, Finish(0, SERVER)).sim.transfers);
  }

  /** Paying from the replaced object leaves a transfer that is in no live bucket's books. */
  lemma ReplacedBucketPays(c: Devnet)
    requires Replaced(c)
    ensures PaysReplaced(c, Finish(0, SERVER))
    ensures var after := Apply(c, Finish(0, SERVER));
            TransferTotal(after.sim.transfers) == 40 && after.sim.buckets == OneBucket().buckets && !Accounts(after)
  {
    assert c.(sim := c.sim.(buckets := OneBucket().buckets, nonces := {})) == c;
    OldObjectPays(c);
    assert SpentBy(OneBucket().buckets) == map[][ESCROW := 0];
    SumAdd(map[], ESCROW, 0);
  }

  /** So is a payout from a bucket that is frozen by the time the call resumes. */
  lemma FrozenBucketPays(c: Devnet) returns (states: seq<Devnet>)
    requires Replaced(c)
    ensures Path(states, [BeginFreeze(1, FreezeIt()), Finish(1, SERVER), Finish(0, SERVER)])
    ensures states[0] == c && ESCROW in states[2].sim.buckets && states[2].sim.buckets[ESCROW].frozen
    ensures PaysReplaced(states[2], Finish(0, SERVER))
    ensures TransferTotal(states[3].sim.transfers) == 40 && states[3].sim.buckets == states[2].sim.buckets
  {
    FreezeNow(c, 1);
    var b := Apply(c, BeginFreeze(1, FreezeIt()));
    var d := Apply(b, Finish(1, SERVER));
    assert d.sim.nonces == {50} && d.sim.transfers == [] && d.flight.calls == c.flight.calls;
    OldObjectPays(d);
    states := [c, b, d, Apply(d, Finish(0, SERVER))];
  }

  /** A freeze that waits through an undone batch is accepted, uses its nonce up, and freezes nothing. */
  lemma FreezeIsLost() returns (states: seq<Devnet>)
    ensures Path(states, [BeginFreeze(0, FreezeIt()), StartBatch([Forged()]), BeginRelease, FinishRelease(SERVER),
        UndoBatch, Finish(0, SERVER)])
    ensures states[0] == Base() && Sound(states[0]) && FreezeIt().nonce in states[6].sim.nonces
    ensures ESCROW in states[6].sim.buckets && !states[6].sim.buckets[ESCROW].frozen
  {
    var a := Base();
    FreezeNow(a, 0);
    var b := Apply(a, BeginFreeze(0, FreezeIt()));
    BatchWaits(b);
    var c := Apply(b, StartBatch([Forged()]));
    var d := Apply(c, BeginRelease);
    BatchIsUndone(d);
    var e := Apply(d, FinishRelease(SERVER));
    var f := Apply(e, UndoBatch);
    FreezeMisses(f);
    states := [a, b, c, d, e, f, Apply(f, Finish(0, SERVER))];
    assert Sound(states[0]) by { BaseIsSound(); }
  }

  lemma FreezeMisses(c: Devnet)
    requires c.sim.blocks != [] && c.sim.settlement == Some(9) && c.sim.chainId == 5
             && c.sim.buckets == OneBucket().buckets
    requires c.flight.calls == map[0 := FreezeCall(FreezeIt(), 0)] && c.flight.gen == 1 && Object(c, 0, ESCROW).Some?
    ensures var after := Apply(c, Finish(0, SERVER));
        after.sim.buckets == OneBucket().buckets && FreezeIt().nonce in after.sim.nonces
  {
  }

  /** A freeze that is complete before a batch is undone is taken back with it. */
  lemma UndoErasesFreeze() returns (states: seq<Devnet>)
    ensures Path(states, [StartBatch([Forged()]), BeginRelease, BeginFreeze(0, FreezeIt()), Finish(0, SERVER),
        FinishRelease(SERVER), UndoBatch])
    ensures states[0] == Base() && Sound(states[0]) && ESCROW in states[4].sim.buckets
            && states[4].sim.buckets[ESCROW].frozen
    ensures ESCROW in states[6].sim.buckets && !states[6].sim.buckets[ESCROW].frozen
  {
    var a := Base();
    BatchWaits(a);
    var b := Apply(a, StartBatch([Forged()]));
    var c := Apply(b, BeginRelease);
    FreezeNow(c, 0);
    var d := Apply(c, BeginFreeze(0, FreezeIt()));
    var e := Apply(d, Finish(0, SERVER));
    BatchIsUndone(e);
    var f := Apply(e, FinishRelease(SERVER));
    states := [a, b, c, d, e, f, Apply(f, UndoBatch)];
    assert Sound(states[0]) by { BaseIsSound(); }
  }
}
