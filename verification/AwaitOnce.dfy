/** Which payouts the simulator remembers over a run, and when each is made at most once. */
module AwaitOnce {
  import opened Common
  import opened EscrowRules
  import opened EscrowAwait
  import opened AwaitBooks
  import opened AwaitRuns
  import Along

  // ---- what one step does to the records ----------------------------------------------------------------------------

  /** The step touches neither the recorded references nor the records. */
  predicate Silent(c: Devnet, c': Devnet)
  {
    && c'.sim.paid == c.sim.paid && c'.flight.accepted == c.flight.accepted
    && c'.flight.batch.Some? == c.flight.batch.Some?
    && (c.flight.batch.Some? ==>
          var run, run' := c.flight.batch.value, c'.flight.batch.value;
          run'.batch == run.batch && run'.payouts == run.payouts && run'.snap == run.snap && run'.done == run.done)
  }

  lemma BlockSilent(c: Devnet, op: ChainOp)
    requires c.sim.blocks != [] && (IsBlockOp(op) || op.DepositOp? || op.BeginPayout? || op.BeginFreeze?)
    ensures Silent(c, Apply(c, op))
  {
  }

  lemma FreezeSilent(c: Devnet, id: nat, auth: Auth)
    requires c.sim.blocks != [] && id in c.flight.calls && !PaysNow(c, Finish(id, auth))
    ensures Silent(c, FinishCall(c, id, auth))
    ensures FinishCall(c, id, auth).flight.calls == c.flight.calls - {id}
    ensures c.flight.batch.Some? ==> FinishCall(c, id, auth).flight.batch.value.stage == c.flight.batch.value.stage
  {
    if c.flight.calls[id].FreezeCall? {
      var call := c.flight.calls[id];
      if FreezeOn(Drop(c, id), call.order, call.gen, auth).Some? {
        FreezeTables(Drop(c, id), call.order, call.gen, auth);
      }
    }
  }

  /** A paying call adds its reference to what is recorded and to what is reported. */
  lemma PayRecords(c: Devnet, id: nat, auth: Auth)
    requires PaysNow(c, Finish(id, auth))
    ensures var p, c' := RefOf(c, id), FinishCall(c, id, auth);
            && c'.sim.paid.Keys == c.sim.paid.Keys + {p} && c'.flight.accepted == c.flight.accepted + [p]
            && c'.flight.calls == c.flight.calls - {id} && c'.flight.batch.Some? == c.flight.batch.Some?
            && (c.flight.batch.Some? ==>
                  var run, run' := c.flight.batch.value, c'.flight.batch.value;
                  run' == run.(payouts := if p in run.snap.paid then run.payouts else run.payouts + {p}))
  {
    var call := c.flight.calls[id];
    PayTables(Drop(c, id), call.signed, call.gen, auth);
  }

  lemma ReleaseRecords(c: Devnet, auth: Auth)
    requires ReleasesNow(c, FinishRelease(auth))
    ensures var run, c' := c.flight.batch.value, StepFinish(c, auth);
            && c'.sim.paid.Keys == c.sim.paid.Keys + {run.batch[run.done].message.payoutRef}
            && c'.flight == c.flight.(batch := Some(run.(stage := Ready, done := run.done + 1)))
  {
    var run := c.flight.batch.value;
    ReleaseShape(c, auth);
    ApplyPayoutTables(c.sim, run.batch[run.done].message);
  }

  lemma RefusalSilent(c: Devnet, auth: Auth)
    requires c.sim.blocks != [] && c.flight.batch.Some? && !ReleasesNow(c, FinishRelease(auth))
    ensures Silent(c, StepFinish(c, auth)) && StepFinish(c, auth).flight.calls == c.flight.calls
    ensures !StepFinish(c, auth).flight.batch.value.stage.Waiting? || StepFinish(c, auth) == c
  {
  }

  // ---- remembered ---------------------------------------------------------------------------------------------------

  lemma SilentRemembers(c: Devnet, c': Devnet)
    requires Silent(c, c')
    ensures (Remembered(c) <==> Remembered(c')) && (PayoutsKnown(c) <==> PayoutsKnown(c'))
  {
  }

  /** A payout that was reported as done stays recorded exactly unless a batch is undone beside which one completed. */
  lemma RememberStep(c: Devnet, op: ChainOp)
    requires Kept(c) && Remembered(c) && PayoutsKnown(c)
    ensures Remembered(Apply(c, op)) <==> !Forgets(c, op)
    ensures !Forgets(c, op) ==> PayoutsKnown(Apply(c, op))
  {
    if IsBlockOp(op) || op.DepositOp? || op.BeginPayout? || op.BeginFreeze? {
      BlockSilent(c, op);
      SilentRemembers(c, Apply(c, op));
    } else if op.Finish? {
      if op.id in c.flight.calls { FinishRemembers(c, op.id, op.auth); }
    } else if op.FinishRelease? {
      if c.flight.batch.Some? { ReleaseRemembers(c, op.auth); }
    } else if op.UndoBatch? {
      if Undoes(c, op) { UndoRemembers(c); }
    } else {
      BatchRemembers(c, op);
    }
  }

  lemma FinishRemembers(c: Devnet, id: nat, auth: Auth)
    requires Kept(c) && Remembered(c) && PayoutsKnown(c) && id in c.flight.calls
    ensures Remembered(FinishCall(c, id, auth)) && PayoutsKnown(FinishCall(c, id, auth))
  {
    if PaysNow(c, Finish(id, auth)) {
      PayRecords(c, id, auth);
    } else {
      FreezeSilent(c, id, auth);
      SilentRemembers(c, FinishCall(c, id, auth));
    }
  }

  lemma ReleaseRemembers(c: Devnet, auth: Auth)
    requires Kept(c) && Remembered(c) && PayoutsKnown(c) && c.flight.batch.Some?
    ensures Remembered(StepFinish(c, auth)) && PayoutsKnown(StepFinish(c, auth))
  {
    if ReleasesNow(c, FinishRelease(auth)) {
      ReleaseRecords(c, auth);
    } else {
      RefusalSilent(c, auth);
      SilentRemembers(c, StepFinish(c, auth));
    }
  }

  lemma UndoRemembers(c: Devnet)
    requires Kept(c) && Remembered(c) && PayoutsKnown(c) && Undoes(c, UndoBatch)
    ensures Remembered(StepUndo(c)) <==> c.flight.batch.value.payouts == {}
    ensures PayoutsKnown(StepUndo(c))
  {
    UndoShape(c);
    if c.flight.batch.value.payouts != {} {
      var p :| p in c.flight.batch.value.payouts;
      assert p in c.flight.accepted && p !in c.flight.batch.value.snap.paid;
    }
  }

  lemma BatchRemembers(c: Devnet, op: ChainOp)
    requires Kept(c) && Remembered(c) && PayoutsKnown(c) && (op.StartBatch? || op.BeginRelease? || op.EndBatch?)
    ensures Remembered(Apply(c, op)) && PayoutsKnown(Apply(c, op))
  {
  }

  /** Reported payouts are recorded, and known to be apart from what the snapshot has. */
  ghost predicate Recalled(c: Devnet) { Remembered(c) && PayoutsKnown(c) }

  lemma NextRecalled(states: seq<Devnet>, ops: seq<ChainOp>, j: nat)
    requires Path(states, ops) && j < |ops| && Kept(states[0]) && Recalled(states[j])
    ensures Recalled(states[j + 1]) <==> !Forgets(states[j], ops[j])
    ensures Remembered(states[j + 1]) <==> !Forgets(states[j], ops[j])
  {
    RunKeeps(states, ops, j);
    RememberStep(states[j], ops[j]);
  }

  /**
   * Over a run: every reported payout is recorded at every moment, exactly if no batch was undone beside a completed
   * payout.
   */
  lemma RunRemembers(states: seq<Devnet>, ops: seq<ChainOp>, k: nat)
    requires Path(states, ops) && k < |states| && Kept(states[0]) && Recalled(states[0])
    ensures (forall j :: 0 <= j <= k ==> Recalled(states[j])) <==>
        (forall j :: 0 <= j < k ==> !Forgets(states[j], ops[j]))
    ensures (forall j :: 0 <= j <= k ==> Remembered(states[j])) <==>
        (forall j :: 0 <= j < k ==> !Forgets(states[j], ops[j]))
    decreases k, 1
  {
    var good := seq(|states|, (j: nat) requires j < |states| => Recalled(states[j]));
    assert forall j :: 0 <= j < |good| ==> good[j] == (Recalled(states[j]));
    var bad := seq(|ops|, (j: nat) requires j < |ops| && |states| == |ops| + 1 => Forgets(states[j], ops[j]));
    assert forall j :: 0 <= j < |bad| ==> bad[j] == Forgets(states[j], ops[j]);
    forall j | 0 <= j < k && good[j]
      ensures good[j + 1] <==> !bad[j]
    {
      NextRecalled(states, ops, j);
    }
    Along.HoldsExactly(good, bad, 0, k);
    if !(forall j :: 0 <= j < k ==> !Forgets(states[j], ops[j])) { FirstForgets(states, ops, k); }
  }

  /** The first step that forgets leaves a reported payout unrecorded. */
  lemma {:induction false} FirstForgets(states: seq<Devnet>, ops: seq<ChainOp>, k: nat)
    requires Path(states, ops) && k < |states| && Kept(states[0]) && Recalled(states[0])
    requires exists j :: 0 <= j < k && Forgets(states[j], ops[j])
    ensures exists j :: 0 <= j <= k && !Remembered(states[j])
    decreases k, 0
  {
    if exists j :: 0 <= j < k - 1 && Forgets(states[j], ops[j]) {
      FirstForgets(states, ops, k - 1);
    } else {
      RunRemembers(states, ops, k - 1);
      assert Forgets(states[k - 1], ops[k - 1]) && Recalled(states[k - 1]);
      NextRecalled(states, ops, k - 1);
      assert !Remembered(states[k]);
    }
  }

  // ---- once ---------------------------------------------------------------------------------------------------------

  lemma PayStaysApart(c: Devnet, id: nat, auth: Auth)
    requires Kept(c) && Apart(c) && PaysNow(c, Finish(id, auth))
    ensures Apart(FinishCall(c, id, auth))
  {
    var p, c' := RefOf(c, id), FinishCall(c, id, auth);
    PayRecords(c, id, auth);
    FinishRemembers(c, id, auth);
    assert p !in c.flight.accepted;
    assert forall i :: Paying(c', i) ==> Paying(c, i) && RefOf(c', i) == RefOf(c, i) && i != id;
  }

  lemma QuietCallsApart(c: Devnet, c': Devnet)
    requires Apart(c) && Silent(c, c')
    requires forall i :: Paying(c', i) ==> Paying(c, i) && RefOf(c', i) == RefOf(c, i)
    requires c'.flight.batch.Some? && c'.flight.batch.value.stage.Waiting? ==> c.flight.batch.value.stage.Waiting?
    ensures Apart(c')
  {
    SilentRemembers(c, c');
  }

  lemma FinishStaysApart(c: Devnet, id: nat, auth: Auth)
    requires Kept(c) && Apart(c) && id in c.flight.calls
    ensures Apart(FinishCall(c, id, auth))
  {
    if PaysNow(c, Finish(id, auth)) {
      PayStaysApart(c, id, auth);
    } else {
      FreezeSilent(c, id, auth);
      QuietCallsApart(c, FinishCall(c, id, auth));
    }
  }

  lemma BeginStaysApart(c: Devnet, op: ChainOp)
    requires Kept(c) && Apart(c) && (op.BeginPayout? || op.BeginFreeze?) && Serialized(c, op)
    ensures Apart(Apply(c, op))
  {
    var c' := Apply(c, op);
    BlockSilent(c, op);
    SilentRemembers(c, c');
    assert forall i :: Paying(c', i) && i != op.id ==> Paying(c, i) && RefOf(c', i) == RefOf(c, i);
  }

  lemma ReleaseStaysApart(c: Devnet, auth: Auth)
    requires Kept(c) && Apart(c) && c.flight.batch.Some?
    ensures Apart(StepFinish(c, auth))
  {
    var c' := StepFinish(c, auth);
    ReleaseRemembers(c, auth);
    if ReleasesNow(c, FinishRelease(auth)) {
      ReleaseRecords(c, auth);
      assert forall i :: Paying(c', i) ==> Paying(c, i) && RefOf(c', i) == RefOf(c, i);
    } else {
      RefusalSilent(c, auth);
      QuietCallsApart(c, c');
    }
  }

  lemma UndoStaysApart(c: Devnet)
    requires Kept(c) && Apart(c) && Undoes(c, UndoBatch) && c.flight.batch.value.payouts == {}
    ensures Apart(StepUndo(c))
  {
    UndoShape(c);
    UndoRemembers(c);
    assert forall i :: Paying(StepUndo(c), i) ==> Paying(c, i) && RefOf(StepUndo(c), i) == RefOf(c, i);
  }

  lemma EndStaysApart(c: Devnet)
    requires Kept(c) && Apart(c) && c.flight.batch.Some?
    ensures Apart(StepEnd(c))
  {
    var run, c' := c.flight.batch.value, StepEnd(c);
    if run.stage.Ready? && run.done >= |run.batch| {
      BatchRemembers(c, EndBatch);
      var old', refs := c.flight.accepted, RefsOf(run.batch);
      forall i, j | 0 <= i < j < |c'.flight.accepted|
        ensures c'.flight.accepted[i] != c'.flight.accepted[j]
      {
        if i < |old'| <= j { assert refs[j - |old'|] !in old'; }
      }
      assert forall i :: Paying(c', i) ==> Paying(c, i) && RefOf(c', i) == RefOf(c, i);
    }
  }

  lemma BatchStaysApart(c: Devnet, op: ChainOp)
    requires Kept(c) && Apart(c) && (op.StartBatch? || op.BeginRelease?) && Serialized(c, op)
    ensures Apart(Apply(c, op))
  {
    BatchRemembers(c, op);
    assert forall i :: Paying(Apply(c, op), i) ==> Paying(c, i) && RefOf(Apply(c, op), i) == RefOf(c, i);
  }

  lemma StepStaysApart(c: Devnet, op: ChainOp)
    requires Kept(c) && Apart(c) && Serialized(c, op) && !Forgets(c, op)
    ensures Apart(Apply(c, op))
  {
    if IsBlockOp(op) || op.DepositOp? {
      BlockSilent(c, op);
      QuietCallsApart(c, Apply(c, op));
    } else if op.BeginPayout? || op.BeginFreeze? {
      BeginStaysApart(c, op);
    } else if op.Finish? {
      if op.id in c.flight.calls { FinishStaysApart(c, op.id, op.auth); }
    } else if op.FinishRelease? {
      if c.flight.batch.Some? { ReleaseStaysApart(c, op.auth); }
    } else if op.UndoBatch? {
      if Undoes(c, op) { UndoStaysApart(c); }
    } else if op.EndBatch? {
      if c.flight.batch.Some? { EndStaysApart(c); }
    } else {
      BatchStaysApart(c, op);
    }
  }

  /**
   * When the caller never starts a reference that is in flight, and no batch is undone beside a completed payout, every
   * reference is reported as paid at most once, counting also what an undone batch has erased since.
   */
  lemma {:induction false} SerializedRunsPayOnce(states: seq<Devnet>, ops: seq<ChainOp>, k: nat)
    requires Path(states, ops) && k < |states| && Kept(states[0]) && Apart(states[0])
    requires forall j :: 0 <= j < |ops| ==> Serialized(states[j], ops[j]) && !Forgets(states[j], ops[j])
    ensures Apart(states[k]) && Once(states[k])
    decreases k
  {
    if k > 0 {
      SerializedRunsPayOnce(states, ops, k - 1);
      RunKeeps(states, ops, k - 1);
      StepStaysApart(states[k - 1], ops[k - 1]);
    }
  }

  // ---- replays ------------------------------------------------------------------------------------------------------

  /** The step undoes a batch whose snapshot does not know the reference. */
  predicate ForgetsRef(c: Devnet, op: ChainOp, p: nat) { Undoes(c, op) && p !in c.flight.batch.value.snap.paid }

  lemma PaidStep(c: Devnet, op: ChainOp, p: nat)
    requires Kept(c) && p in c.sim.paid
    ensures p in Apply(c, op).sim.paid <==> !ForgetsRef(c, op, p)
  {
    if IsBlockOp(op) || op.DepositOp? || op.BeginPayout? || op.BeginFreeze? {
      BlockSilent(c, op);
    } else if op.Finish? {
      if op.id in c.flight.calls {
        if PaysNow(c, op) { PayRecords(c, op.id, op.auth); } else { FreezeSilent(c, op.id, op.auth); }
      }
    } else if op.FinishRelease? {
      if c.flight.batch.Some? {
        if ReleasesNow(c, op) { ReleaseRecords(c, op.auth); } else { RefusalSilent(c, op.auth); }
      }
    } else if Undoes(c, op) {
      UndoShape(c);
    }
  }

  lemma NextPaid(states: seq<Devnet>, ops: seq<ChainOp>, j: nat, p: nat)
    requires Path(states, ops) && j < |ops| && Kept(states[0]) && p in states[j].sim.paid
    ensures p in states[j + 1].sim.paid <==> !ForgetsRef(states[j], ops[j], p)
  {
    RunKeeps(states, ops, j);
    PaidStep(states[j], ops[j], p);
  }

  /**
   * A reference once paid stays refused through a whole run, to every message that names it, exactly if no batch is
   * undone whose snapshot did not know it.
   */
  lemma ReplayIsRefused(states: seq<Devnet>, ops: seq<ChainOp>, i: nat, k: nat, p: nat)
    requires Path(states, ops) && i <= k < |states| && Kept(states[0]) && p in states[i].sim.paid
    ensures (forall j :: i <= j <= k ==> p in states[j].sim.paid) <==>
        (forall j :: i <= j < k ==> !ForgetsRef(states[j], ops[j], p))
    ensures (forall j :: i <= j < k ==> !ForgetsRef(states[j], ops[j], p)) ==>
              forall m: Message :: m.payoutRef == p ==> CheckPayout(states[k].sim, m).Some?
  {
    var good := seq(|states|, (j: nat) requires j < |states| => p in states[j].sim.paid);
    assert forall j :: 0 <= j < |good| ==> good[j] == (p in states[j].sim.paid);
    var bad := seq(|ops|, (j: nat) requires j < |ops| && |states| == |ops| + 1 => ForgetsRef(states[j], ops[j], p));
    assert forall j :: 0 <= j < |bad| ==> bad[j] == ForgetsRef(states[j], ops[j], p);
    forall j | i <= j < k && good[j]
      ensures good[j + 1] <==> !bad[j]
    {
      NextPaid(states, ops, j, p);
    }
    Along.HoldsExactly(good, bad, i, k);
  }

  // ---- alone --------------------------------------------------------------------------------------------------------

  /** A payout with nothing between its halves is the serialized payout. */
  lemma AlonePayout(c: Devnet, id: nat, signed: Signed, auth: Auth)
    requires c.sim.blocks != [] && id !in c.flight.calls
    ensures Apply(Apply(c, BeginPayout(id, signed)), Finish(id, auth)).sim ==
            match Payout(c.sim, signed, auth) case Ok(after) => after case Err(_) => c.sim
  {
    if CheckPayout(c.sim, signed.message).None? {
      var began := Apply(c, BeginPayout(id, signed));
      assert began.flight.calls[id] == PayCall(signed, c.flight.gen);
    }
  }

  lemma AloneFreeze(c: Devnet, id: nat, order: SignedFreeze, auth: Auth)
    requires c.sim.blocks != [] && id !in c.flight.calls
    ensures Apply(Apply(c, BeginFreeze(id, order)), Finish(id, auth)).sim ==
            match ExecuteFreeze(c.sim, order, auth) case Ok(after) => after case Err(_) => c.sim
  {
    if CheckFreeze(c.sim, order).None? {
      var began := Apply(c, BeginFreeze(id, order));
      assert began.flight.calls[id] == FreezeCall(order, c.flight.gen);
    }
  }

  /** The rest of a running batch with nothing in between. */
  function Alone(c: Devnet, auth: Auth): Devnet
    requires c.sim.blocks != [] && c.flight.batch.Some? && c.flight.batch.value.stage.Ready?
    decreases |c.flight.batch.value.batch| - c.flight.batch.value.done
  {
    var run := c.flight.batch.value;
    if run.done >= |run.batch| then StepEnd(c)
    else
      var tried := StepRelease(c);
      if tried.flight.batch.value.stage.Refused? then StepUndo(tried)
      else
        var after := StepFinish(tried, auth);
        if after.flight.batch.value.stage.Refused? then StepUndo(after) else Alone(after, auth)
  }

  lemma ReleaseAlone(c: Devnet, auth: Auth)
    requires c.sim.blocks != [] && c.flight.batch.Some? && c.flight.batch.value.stage.Ready?
    requires c.flight.batch.value.done < |c.flight.batch.value.batch|
    ensures var run := c.flight.batch.value;
            var signed, tried := run.batch[run.done], StepRelease(c);
            match Payout(c.sim, signed, auth)
            case Ok(next) => tried.flight.batch.value.stage.Waiting? &&
                             StepFinish(tried, auth) == WithBatch(c.(sim := next), Some(run.(done := run.done + 1)))
            case Err(e) =>
              || tried == WithBatch(c, Some(run.(stage := Refused(e))))
              || (tried.flight.batch.value.stage.Waiting?
                  && StepFinish(tried, auth) == WithBatch(c, Some(run.(stage := Refused(e)))))
  {
  }

  lemma {:induction false} AloneRest(c: Devnet, auth: Auth)
    requires c.sim.blocks != [] && c.flight.batch.Some? && c.flight.batch.value.stage.Ready?
    requires c.flight.batch.value.done <= |c.flight.batch.value.batch|
             && c.flight.batch.value.snap.transfers <= c.sim.transfers
    ensures var run := c.flight.batch.value;
            var (after, refused) := RunReleases(c.sim, run.batch[run.done..], auth);
            && run.snap.transfers <= after.transfers
            && Alone(c, auth).sim == if refused.None? then after else Restore(run.snap, after)
    decreases |c.flight.batch.value.batch| - c.flight.batch.value.done
  {
    var run := c.flight.batch.value;
    if run.done < |run.batch| {
      RunReleasesFrom(c.sim, run.batch, run.done, auth);
      ReleaseAlone(c, auth);
      match Payout(c.sim, run.batch[run.done], auth)
      case Ok(next) =>
        FirstHash(c.sim, run.batch[run.done], auth);
        AloneRest(StepFinish(StepRelease(c), auth), auth);
      case Err(_) =>
    }
  }

  /** A batch with nothing in between is the serialized batch. */
  lemma AloneIsBatch(c: Devnet, batch: seq<Signed>, auth: Auth)
    requires c.sim.blocks != [] && c.flight.batch.None?
    ensures Alone(Apply(c, StartBatch(batch)), auth).sim == Batch(c.sim, batch, auth).0
  {
    AloneRest(Apply(c, StartBatch(batch)), auth);
    assert batch[0..] == batch;
  }
}
