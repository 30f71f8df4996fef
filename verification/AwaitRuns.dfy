/** Safety of the simulator over whole runs, and exactly what overlap breaks. */
module AwaitRuns {
  import opened Common
  import Along
  import opened SimChain
  import opened EscrowRules
  import opened EscrowAwait
  import opened AwaitBooks

  lemma StartIsKept(chainId: nat, settlement: Option<Address>)
    ensures var c := Devnet(NewSim(chainId, settlement), NOTHING_IN_FLIGHT); Kept(c) && Accounts(c) && Apart(c)
    ensures forall e :: Short(Devnet(NewSim(chainId, settlement), NOTHING_IN_FLIGHT), e) == 0
  {
    assert SpentBy(map[]) == map[];
  }

  /** In every reachable state no bucket paid out more than it took in, whatever interleaved. */
  lemma {:induction false} RunKeeps(states: seq<Devnet>, ops: seq<ChainOp>, k: nat)
    requires Path(states, ops) && k < |states| && Kept(states[0])
    ensures Kept(states[k])
    decreases k
  {
    if k > 0 {
      RunKeeps(states, ops, k - 1);
      StepKeeps(states[k - 1], ops[k - 1]);
    }
  }

  lemma NextAccounts(states: seq<Devnet>, ops: seq<ChainOp>, j: nat)
    requires Path(states, ops) && j < |ops| && Kept(states[0]) && Accounts(states[j])
    ensures Accounts(states[j + 1]) <==> !PaysReplaced(states[j], ops[j])
  {
    RunKeeps(states, ops, j);
    StepKeeps(states[j], ops[j]);
  }

  /**
   * The transfers are what the live buckets paid, at every moment of a run, exactly when no call paid from a replaced
   * bucket.
   */
  lemma RunAccounts(states: seq<Devnet>, ops: seq<ChainOp>, k: nat)
    requires Path(states, ops) && k < |states| && Kept(states[0]) && Accounts(states[0])
    ensures (forall j :: 0 <= j <= k ==> Accounts(states[j])) <==>
        (forall j :: 0 <= j < k ==> !PaysReplaced(states[j], ops[j]))
  {
    var good := seq(|states|, (j: nat) requires j < |states| => Accounts(states[j]));
    assert forall j :: 0 <= j < |good| ==> good[j] == (Accounts(states[j]));
    var bad := seq(|ops|, (j: nat) requires j < |ops| && |states| == |ops| + 1 => PaysReplaced(states[j], ops[j]));
    assert forall j :: 0 <= j < |bad| ==> bad[j] == PaysReplaced(states[j], ops[j]);
    forall j | 0 <= j < k && good[j]
      ensures good[j + 1] <==> !bad[j]
    {
      NextAccounts(states, ops, j);
    }
    Along.HoldsExactly(good, bad, 0, k);
  }

  // ---- authorizations -----------------------------------------------------------------------------------------------

  predicate SameDeployment(s: Sim, t: Sim) { t.chainId == s.chainId && t.settlement == s.settlement }

  lemma DeploymentStep(c: Devnet, op: ChainOp)
    requires c.sim.blocks != []
    ensures SameDeployment(c.sim, Apply(c, op).sim)
  {
    match op
    case Finish(id, auth) => if id in c.flight.calls { FinishDeployment(c, id, auth); }
    case _ =>
  }

  lemma FinishDeployment(c: Devnet, id: nat, auth: Auth)
    requires c.sim.blocks != [] && id in c.flight.calls
    ensures SameDeployment(c.sim, FinishCall(c, id, auth).sim)
  {
    match c.flight.calls[id]
    case PayCall(signed, gen) => assert Drop(c, id).sim == c.sim;
    case FreezeCall(order, gen) => assert Drop(c, id).sim == c.sim;
  }

  lemma {:induction false} DeploymentStays(states: seq<Devnet>, ops: seq<ChainOp>, k: nat)
    requires Path(states, ops) && k < |states|
    ensures SameDeployment(states[0].sim, states[k].sim)
    decreases k
  {
    if k > 0 {
      DeploymentStays(states, ops, k - 1);
      DeploymentStep(states[k - 1], ops[k - 1]);
    }
  }

  /**
   * What an authorization is bound to. Once it is accepted somewhere in a run, any run of any simulator accepts it at
   * any point exactly when it is the same chain and contract, the signer is the same, and it has not expired.
   */
  lemma AuthorizationIsBound(states: seq<Devnet>, ops: seq<ChainOp>, i: nat, others: seq<Devnet>, theirs: seq<ChainOp>,
      k: nat, domain: Domain, expiry: int, recovered: Address, auth: Auth, later: Auth)
    requires Path(states, ops) && i < |states| && Path(others, theirs) && k < |others|
    requires Verify(states[i].sim, domain, expiry, recovered, auth).None?
    ensures Verify(others[k].sim, domain, expiry, recovered, later).None? <==>
            SameDeployment(states[0].sim, others[0].sim) && later.signer == auth.signer && later.now <= expiry
  {
    DeploymentStays(states, ops, i);
    DeploymentStays(others, theirs, k);
  }

  // ---- freezes ------------------------------------------------------------------------------------------------------

  lemma GenStep(c: Devnet, op: ChainOp)
    requires c.sim.blocks != []
    ensures Apply(c, op).flight.gen == if Undoes(c, op) then c.flight.gen + 1 else c.flight.gen
  {
    match op
    case Finish(id, auth) => if id in c.flight.calls { FinishGen(c, id, auth); }
    case _ =>
  }

  lemma FinishGen(c: Devnet, id: nat, auth: Auth)
    requires c.sim.blocks != [] && id in c.flight.calls
    ensures FinishCall(c, id, auth).flight.gen == c.flight.gen
    ensures FinishCall(c, id, auth).flight.calls == c.flight.calls - {id}
  {
    var d := Drop(c, id);
    match c.flight.calls[id]
    case PayCall(signed, gen) => if PayOn(d, signed, gen, auth).Some? { PayOnGen(d, signed, gen, auth); }
    case FreezeCall(order, gen) => if FreezeOn(d, order, gen, auth).Some? { FreezeOnGen(d, order, gen, auth); }
  }

  lemma PayOnGen(c: Devnet, signed: Signed, gen: nat, auth: Auth)
    requires c.sim.blocks != [] && PayOn(c, signed, gen, auth).Some?
    ensures var f := PayOn(c, signed, gen, auth).value.flight; f.gen == c.flight.gen && f.calls == c.flight.calls
  {
  }

  lemma FreezeOnGen(c: Devnet, order: SignedFreeze, gen: nat, auth: Auth)
    requires c.sim.blocks != [] && FreezeOn(c, order, gen, auth).Some?
    ensures var f := FreezeOn(c, order, gen, auth).value.flight; f.gen == c.flight.gen && f.calls == c.flight.calls
  {
  }

  lemma CallStep(c: Devnet, op: ChainOp, id: nat)
    requires c.sim.blocks != [] && id in c.flight.calls && id in Apply(c, op).flight.calls
    ensures Apply(c, op).flight.calls[id] == c.flight.calls[id]
  {
    match op
    case Finish(other, auth) => if other in c.flight.calls { FinishGen(c, other, auth); }
    case _ =>
  }

  /** The call begins at one moment of the run, on the live object, and is in flight from there to another. */
  ghost predicate Waits(states: seq<Devnet>, i: nat, k: nat, id: nat)
    requires i <= k < |states|
  {
    && (forall j :: i <= j <= k ==> id in states[j].flight.calls)
    && states[i].flight.calls[id].gen == states[i].flight.gen
  }

  lemma NextWaits(states: seq<Devnet>, ops: seq<ChainOp>, j: nat, id: nat)
    requires Path(states, ops) && j < |ops| && id in states[j].flight.calls && id in states[j + 1].flight.calls
    ensures states[j + 1].flight.calls[id] == states[j].flight.calls[id]
    ensures states[j + 1].flight.gen == states[j].flight.gen + if Undoes(states[j], ops[j]) then 1 else 0
  {
    GenStep(states[j], ops[j]);
    CallStep(states[j], ops[j], id);
  }

  lemma {:induction false} SameCall(calls: seq<Call>, k: nat)
    requires k < |calls| && forall j :: 0 <= j < k ==> calls[j + 1] == calls[j]
    ensures calls[k] == calls[0]
    decreases k
  {
    if k > 0 {
      SameCall(calls, k - 1);
      assert calls[k - 1 + 1] == calls[k - 1];
    }
  }

  lemma WaitsSame(states: seq<Devnet>, ops: seq<ChainOp>, i: nat, k: nat, id: nat)
    requires Path(states, ops) && i <= k < |states| && Waits(states, i, k, id)
    ensures states[k].flight.calls[id] == states[i].flight.calls[id]
  {
    var calls := seq(k - i + 1, (j: nat) requires j <= k - i && k < |states| && id in states[i + j].flight.calls =>
        states[i + j].flight.calls[id]);
    assert forall j :: 0 <= j <= k - i ==> calls[j] == states[i + j].flight.calls[id];
    forall j | 0 <= j < k - i
      ensures calls[j + 1] == calls[j]
    {
      assert id in states[i + j].flight.calls && id in states[i + j + 1].flight.calls;
      NextWaits(states, ops, i + j, id);
      assert calls[j + 1] == states[i + (j + 1)].flight.calls[id];
    }
    SameCall(calls, k - i);
  }

  /** A waiting call holds the live object exactly as long as no batch is undone. */
  lemma WaitsOnLiveExactly(states: seq<Devnet>, ops: seq<ChainOp>, i: nat, k: nat, id: nat)
    requires Path(states, ops) && i <= k < |states| && Waits(states, i, k, id)
    ensures states[k].flight.calls[id] == states[i].flight.calls[id]
    ensures states[k].flight.calls[id].gen == states[k].flight.gen <==>
            forall j :: i <= j < k ==> !Undoes(states[j], ops[j])
  {
    WaitsSame(states, ops, i, k, id);
    var count := seq(|states|, (j: nat) requires j < |states| => states[j].flight.gen);
    assert forall j :: 0 <= j < |count| ==> count[j] == states[j].flight.gen;
    var bad := seq(|ops|, (j: nat) requires j < |ops| && |states| == |ops| + 1 => Undoes(states[j], ops[j]));
    assert forall j :: 0 <= j < |bad| ==> bad[j] == Undoes(states[j], ops[j]);
    forall j | i <= j < k
      ensures if bad[j] then count[j + 1] > count[j] else count[j + 1] == count[j]
    {
      NextWaits(states, ops, j, id);
    }
    Along.SameExactly(count, bad, i, k);
  }

  /**
   * A payout that pays was paid from a replaced object exactly if a batch was undone while it waited; and if none was,
   * a bucket that is frozen when the call resumes pays nothing.
   */
  lemma FrozenPaysNothing(states: seq<Devnet>, ops: seq<ChainOp>, i: nat, k: nat, id: nat, auth: Auth)
    requires Path(states, ops) && i <= k < |states| && Kept(states[0]) && Waits(states, i, k, id)
    ensures PaysNow(states[k], Finish(id, auth)) ==>
              (PaysReplaced(states[k], Finish(id, auth)) <==> exists j :: i <= j < k && Undoes(states[j], ops[j]))
    ensures var e := CallRef(states[i].flight.calls[id]);
            PaysNow(states[k], Finish(id, auth)) && (e in states[k].sim.buckets ==> states[k].sim.buckets[e].frozen) ==>
              exists j :: i <= j < k && Undoes(states[j], ops[j])
  {
    WaitsOnLiveExactly(states, ops, i, k, id);
    RunKeeps(states, ops, k);
  }

  /**
   * An accepted freeze order takes hold exactly when its call holds the live object, or the flag stood there already.
   */
  lemma FreezeTakesHold(c: Devnet, id: nat, auth: Auth)
    requires Kept(c) && id in c.flight.calls && c.flight.calls[id].FreezeCall?
    requires FreezeOn(Drop(c, id), c.flight.calls[id].order, c.flight.calls[id].gen, auth).Some?
    ensures var call, c' := c.flight.calls[id], FinishCall(c, id, auth);
            && var e := call.order.escrowRef;
            && call.order.nonce in c'.sim.nonces
            && (e in c'.sim.buckets && c'.sim.buckets[e].frozen == call.order.frozen
                <==> call.gen == c.flight.gen || (e in c.sim.buckets && c.sim.buckets[e].frozen == call.order.frozen))
  {
    FreezeTables(Drop(c, id), c.flight.calls[id].order, c.flight.calls[id].gen, auth);
  }

  /**
   * An accepted freeze order takes hold over a run if no batch is undone while it waits, and otherwise exactly if the
   * flag stood there already.
   */
  lemma FreezeHoldsOverRuns(states: seq<Devnet>, ops: seq<ChainOp>, i: nat, k: nat, id: nat, auth: Auth)
    requires Path(states, ops) && i <= k < |states| && Kept(states[0]) && Waits(states, i, k, id)
    requires states[i].flight.calls[id].FreezeCall? && states[k].flight.calls[id].FreezeCall?
    requires var call := states[k].flight.calls[id]; FreezeOn(Drop(states[k], id), call.order, call.gen, auth).Some?
    ensures var c, order, c' := states[k], states[i].flight.calls[id].order, FinishCall(states[k], id, auth);
            && order.nonce in c'.sim.nonces
            && (order.escrowRef in c'.sim.buckets && c'.sim.buckets[order.escrowRef].frozen == order.frozen <==>
                  || (forall j :: i <= j < k ==> !Undoes(states[j], ops[j]))
                  || (order.escrowRef in c.sim.buckets && c.sim.buckets[order.escrowRef].frozen == order.frozen))
  {
    WaitsOnLiveExactly(states, ops, i, k, id);
    RunKeeps(states, ops, k);
    FreezeTakesHold(states[k], id, auth);
  }

  // ---- what a bucket took in ----------------------------------------------------------------------------------------

  /** What a bucket was credited and no longer shows. */
  function Short(c: Devnet, e: EscrowRef): int { Taken(c.flight, e) - DepositedFor(c.sim, e) }

  /** The step undoes a batch beside which a deposit credited the bucket. */
  predicate Erases(c: Devnet, op: ChainOp, e: EscrowRef)
  {
    Undoes(c, op) && e in c.flight.batch.value.deposits
  }

  lemma FinishTakesNothing(c: Devnet, id: nat, auth: Auth)
    requires Kept(c) && id in c.flight.calls
    ensures FinishCall(c, id, auth).flight.taken == c.flight.taken
    ensures forall e :: DepositedFor(FinishCall(c, id, auth).sim, e) == DepositedFor(c.sim, e)
  {
    var d := Drop(c, id);
    match c.flight.calls[id]
    case PayCall(signed, gen) =>
      var paid := PayOn(d, signed, gen, auth);
      if paid.Some? {
        PayTables(d, signed, gen, auth);
        SameDeposited(d.sim, paid.value.sim);
      }
    case FreezeCall(order, gen) =>
      var frozen := FreezeOn(d, order, gen, auth);
      if frozen.Some? {
        FreezeTables(d, order, gen, auth);
        SameDeposited(d.sim, frozen.value.sim);
      }
  }

  lemma ReleaseTakesNothing(c: Devnet, auth: Auth)
    requires Kept(c) && c.flight.batch.Some?
    ensures StepFinish(c, auth).flight.taken == c.flight.taken
    ensures forall e :: DepositedFor(StepFinish(c, auth).sim, e) == DepositedFor(c.sim, e)
  {
    var run := c.flight.batch.value;
    if ReleasesNow(c, FinishRelease(auth)) {
      ReleaseIsPay(c, run.batch[run.done], auth);
      ReleaseShape(c, auth);
      PayTables(c, run.batch[run.done], c.flight.gen, auth);
      SameDeposited(c.sim, StepFinish(c, auth).sim);
    }
  }

  lemma ShortStep(c: Devnet, op: ChainOp, e: EscrowRef)
    requires Kept(c)
    ensures if Erases(c, op, e) then Short(Apply(c, op), e) > Short(c, e) else Short(Apply(c, op), e) == Short(c, e)
  {
    if IsBlockOp(op) {
      BlockOpTables(c, op);
    } else if op.DepositOp? {
      DepositAdds(c.sim, op.input);
      DepositNoted(c.flight, op.input.funded.escrowRef, CreditOf(c.sim, op.input));
    } else if op.Finish? {
      if op.id in c.flight.calls { FinishTakesNothing(c, op.id, op.auth); }
    } else if op.FinishRelease? {
      if c.flight.batch.Some? { ReleaseTakesNothing(c, op.auth); }
    } else if Undoes(c, op) {
      UndoShape(c);
    }
  }

  lemma NextShort(states: seq<Devnet>, ops: seq<ChainOp>, j: nat, e: EscrowRef)
    requires Path(states, ops) && j < |ops| && Kept(states[0])
    ensures var before, after := Short(states[j], e), Short(states[j + 1], e);
            if Erases(states[j], ops[j], e) then after > before else after == before
  {
    RunKeeps(states, ops, j);
    ShortStep(states[j], ops[j], e);
  }

  /**
   * A bucket shows everything it was ever credited exactly when no batch was undone after a deposit to it beside that
   * batch.
   */
  lemma BucketShowsAll(states: seq<Devnet>, ops: seq<ChainOp>, k: nat, e: EscrowRef)
    requires Path(states, ops) && k < |states| && Kept(states[0]) && Short(states[0], e) == 0
    ensures Short(states[k], e) >= 0
    ensures Short(states[k], e) == 0 <==> forall j :: 0 <= j < k ==> !Erases(states[j], ops[j], e)
  {
    var count := seq(|states|, (j: nat) requires j < |states| => Short(states[j], e));
    assert forall j :: 0 <= j < |count| ==> count[j] == Short(states[j], e);
    var bad := seq(|ops|, (j: nat) requires j < |ops| && |states| == |ops| + 1 => Erases(states[j], ops[j], e));
    assert forall j :: 0 <= j < |bad| ==> bad[j] == Erases(states[j], ops[j], e);
    forall j | 0 <= j < k
      ensures if bad[j] then count[j + 1] > count[j] else count[j + 1] == count[j]
    {
      NextShort(states, ops, j, e);
    }
    Along.SameExactly(count, bad, 0, k);
  }

  // ---- once ---------------------------------------------------------------------------------------------------------

  /** Every payout that was reported as done is still recorded. */
  ghost predicate Remembered(c: Devnet)
  {
    forall p :: p in c.flight.accepted ==> p in c.sim.paid
  }

  /** What the snapshot does not know of the accepted payouts is exactly what completed beside the batch. */
  ghost predicate PayoutsKnown(c: Devnet)
  {
    c.flight.batch.Some? ==>
      var run := c.flight.batch.value;
      && (forall p :: p in run.payouts ==> p in c.flight.accepted && p !in run.snap.paid)
      && (forall p :: p in c.flight.accepted ==> p in run.snap.paid || p in run.payouts)
  }

  /** The step undoes a batch beside which a single payout completed. */
  predicate Forgets(c: Devnet, op: ChainOp)
  {
    Undoes(c, op) && c.flight.batch.value.payouts != {}
  }

  ghost predicate Once(c: Devnet)
  {
    forall i, j :: 0 <= i < j < |c.flight.accepted| ==> c.flight.accepted[i] != c.flight.accepted[j]
  }

  predicate Paying(c: Devnet, id: nat) { id in c.flight.calls && c.flight.calls[id].PayCall? }

  function RefOf(c: Devnet, id: nat): nat
    requires Paying(c, id)
  {
    c.flight.calls[id].signed.message.payoutRef
  }

  ghost predicate CallsApart(c: Devnet)
  {
    && (forall i, j :: Paying(c, i) && Paying(c, j) && i != j ==> RefOf(c, i) != RefOf(c, j))
    && (forall i :: Paying(c, i) ==> RefOf(c, i) !in c.sim.paid)
  }

  ghost predicate BatchApart(c: Devnet, run: BatchRun)
  {
    && (forall i, n :: Paying(c, i) && run.done <= n < |run.batch| ==> RefOf(c, i) != run.batch[n].message.payoutRef)
    && (run.stage.Waiting? && run.done < |run.batch| ==> run.batch[run.done].message.payoutRef !in c.sim.paid)
    && (forall n :: 0 <= n < run.done && n < |run.batch| ==> run.batch[n].message.payoutRef !in c.flight.accepted)
    && (forall n, m :: 0 <= n < m < run.done && m < |run.batch| ==>
        run.batch[n].message.payoutRef != run.batch[m].message.payoutRef)
  }

  /** Nothing is paid twice so far, and nothing in flight names what is paid or also in flight. */
  ghost predicate Apart(c: Devnet)
  {
    Remembered(c) && PayoutsKnown(c) && Once(c) && CallsApart(c) && (c.flight.batch.Some? ==>
        BatchApart(c, c.flight.batch.value))
  }

  /** The caller starts nothing under a reference that is in flight or in the running batch. */
  ghost predicate Serialized(c: Devnet, op: ChainOp)
  {
    match op
    case BeginPayout(_, signed) =>
      && (forall i :: Paying(c, i) ==> RefOf(c, i) != signed.message.payoutRef)
      && (c.flight.batch.Some? ==>
            forall n :: 0 <= n < |c.flight.batch.value.batch| ==>
                c.flight.batch.value.batch[n].message.payoutRef != signed.message.payoutRef)
    case StartBatch(batch) => forall i, n :: Paying(c, i) && 0 <= n < |batch| ==>
        RefOf(c, i) != batch[n].message.payoutRef
    case _ => true
  }
}
