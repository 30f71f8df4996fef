/** What every step of the simulator keeps, however calls, deposits, blocks and a running batch interleave. */
module AwaitBooks {
  import opened Common
  import opened SimChain
  import opened EscrowRules
  import opened EscrowAwait

  // ---- the invariant ------------------------------------------------------------------------------------------------

  ghost predicate StaleKept(f: Flight)
  {
    forall o :: o in f.stale ==> o.0 < f.gen && Fits(f.stale[o])
  }

  /** Every call still reaches the object it looked up. */
  ghost predicate CallsHeld(c: Devnet)
  {
    forall id :: id in c.flight.calls ==> Object(c, c.flight.calls[id].gen, CallRef(c.flight.calls[id])).Some?
  }

  /** What the snapshot of a running batch has to do with the live tables. */
  ghost predicate BatchKept(s: Sim, run: BatchRun)
  {
    && Bounded(run.snap.buckets) && RefsMatch(run.snap)
    && run.snap.transfers <= s.transfers && run.snap.paid.Keys <= s.paid.Keys && run.snap.buckets.Keys <= s.buckets.Keys
    && run.done <= |run.batch|
    && (run.stage.Waiting? ==> run.done < |run.batch| && run.batch[run.done].message.escrowRef in s.buckets)
    && (forall n :: 0 <= n < run.done ==> run.batch[n].message.payoutRef in s.paid)
  }

  /** Exactly the buckets in `deposits` took something in since the snapshot. */
  ghost predicate DepositsKnown(s: Sim, run: BatchRun)
  {
    forall e :: DepositedFor(run.snap, e) <= DepositedFor(s, e) && (e in run.deposits <==>
        DepositedFor(run.snap, e) < DepositedFor(s, e))
  }

  ghost predicate TakenKept(c: Devnet)
  {
    forall e :: DepositedFor(c.sim, e) <= Taken(c.flight, e)
  }

  ghost predicate Kept(c: Devnet)
  {
    && c.sim.blocks != [] && Bounded(c.sim.buckets) && RefsMatch(c.sim)
    && StaleKept(c.flight) && CallsHeld(c) && TakenKept(c)
    && (c.flight.batch.Some? ==> BatchKept(c.sim, c.flight.batch.value) && DepositsKnown(c.sim, c.flight.batch.value))
  }

  /** The transfers are the money the live buckets paid, now and if the running batch is undone. */
  ghost predicate Accounts(c: Devnet)
  {
    Totals(c.sim) && (c.flight.batch.Some? ==> Totals(c.flight.batch.value.snap))
  }

  // ---- steps that leave the tables alone ----------------------------------------------------------------------------

  predicate SameTables(s: Sim, t: Sim)
  {
    t.paid == s.paid && t.buckets == s.buckets && t.transfers == s.transfers
  }

  predicate IsBlockOp(op: ChainOp)
  {
    op.MineOp? || op.ReorgOp? || op.ReincludeOp? || op.OfflineOp? || op.PauseOp? || op.FailOp?
  }

  lemma BlockOpTables(c: Devnet, op: ChainOp)
    requires c.sim.blocks != [] && IsBlockOp(op)
    ensures Apply(c, op).flight == c.flight && SameTables(c.sim, Apply(c, op).sim)
  {
  }

  lemma SameTablesKeep(c: Devnet, s: Sim)
    requires Kept(c) && SameTables(c.sim, s) && s.blocks != []
    ensures Kept(c.(sim := s)) && (Accounts(c) <==> Accounts(c.(sim := s)))
  {
    assert forall e :: DepositedFor(s, e) == DepositedFor(c.sim, e);
  }

  /** Every call reaches its object as long as no object goes away. */
  lemma ObjectsStay(c: Devnet, c': Devnet)
    requires CallsHeld(c) && c'.flight.calls == c.flight.calls && c'.flight.gen == c.flight.gen
    requires c.sim.buckets.Keys <= c'.sim.buckets.Keys && c.flight.stale.Keys <= c'.flight.stale.Keys
    ensures CallsHeld(c')
  {
    forall id | id in c'.flight.calls
      ensures Object(c', c'.flight.calls[id].gen, CallRef(c'.flight.calls[id])).Some?
    {
      assert Object(c, c.flight.calls[id].gen, CallRef(c.flight.calls[id])).Some?;
    }
  }

  // ---- deposits -----------------------------------------------------------------------------------------------------

  lemma DepositAdds(s: Sim, input: DepositInput)
    requires s.blocks != []
    ensures var after := SubmitDeposit(s, input);
            && after.blocks != [] && after.paid == s.paid && after.transfers == s.transfers
            && s.buckets.Keys <= after.buckets.Keys
            && forall x :: DepositedFor(after, x) == DepositedFor(s, x) + if x == input.funded.escrowRef
                then CreditOf(s, input) else 0
    ensures Bounded(s.buckets) ==> Bounded(SubmitDeposit(s, input).buckets)
  {
    assert input.funded.amount * (1 + input.duplicateLogs) >= 0;
  }

  lemma DepositNoted(f: Flight, e: EscrowRef, credit: nat)
    ensures var g := NoteDeposit(f, e, credit);
            && g.gen == f.gen && g.stale == f.stale && g.calls == f.calls && g.accepted == f.accepted
            && g.batch.Some? == f.batch.Some?
            && (forall x :: Taken(g, x) == Taken(f, x) + if x == e then credit else 0)
            && (f.batch.Some? ==>
                  var more := if credit > 0 then f.batch.value.deposits + {e} else f.batch.value.deposits;
                  g.batch.value == f.batch.value.(deposits := more))
  {
  }

  lemma DepositBatch(s: Sim, input: DepositInput, run: BatchRun)
    requires s.blocks != [] && BatchKept(s, run) && DepositsKnown(s, run)
    ensures var e, credit := input.funded.escrowRef, CreditOf(s, input);
            var noted := run.(deposits := if credit > 0 then run.deposits + {e} else run.deposits);
            BatchKept(SubmitDeposit(s, input), noted) && DepositsKnown(SubmitDeposit(s, input), noted)
  {
    DepositAdds(s, input);
  }

  lemma DepositKeeps(c: Devnet, input: DepositInput)
    requires Kept(c)
    ensures Kept(Apply(c, DepositOp(input))) && (Accounts(c) ==> Accounts(Apply(c, DepositOp(input))))
  {
    var c' := Apply(c, DepositOp(input));
    DepositNoted(c.flight, input.funded.escrowRef, CreditOf(c.sim, input));
    assert c'.sim.blocks != [] && Bounded(c'.sim.buckets) && RefsMatch(c'.sim) && TakenKept(c') && CallsHeld(c') by {
      DepositAdds(c.sim, input);
      ObjectsStay(c, c');
    }
    if c.flight.batch.Some? { DepositBatch(c.sim, input, c.flight.batch.value); }
    if Totals(c.sim) { DepositTotals(c.sim, input); }
  }

  // ---- payouts ------------------------------------------------------------------------------------------------------

  lemma SpendFits(b: Bucket, m: Message)
    requires 0 < m.amount <= Available(b)
    ensures Fits(Spend(b, m)) && Spend(b, m).deposited == b.deposited && Spend(b, m).frozen == b.frozen
  {
  }

  lemma PaidFacts(s: Sim, signed: Signed, auth: Auth)
    requires s.blocks != [] && signed.message.escrowRef in s.buckets && FinishPayout(s, signed, auth).Ok?
    ensures FinishPayout(s, signed, auth).value == ApplyPayout(s, signed.message)
    ensures var m := signed.message; 0 < m.amount <= Available(s.buckets[m.escrowRef]) && !s.buckets[m.escrowRef].frozen
  {
  }

  /** A paying second half: one transfer, one reference, and its own object. */
  lemma PayTables(c: Devnet, signed: Signed, gen: nat, auth: Auth)
    requires c.sim.blocks != [] && PayOn(c, signed, gen, auth).Some?
    ensures var m, c' := signed.message, PayOn(c, signed, gen, auth).value;
            && Object(c, gen, m.escrowRef).Some?
            && var o := Object(c, gen, m.escrowRef).value;
            && 0 < m.amount <= Available(o) && !o.frozen && c'.sim.blocks != []
            && (exists t: Transfer :: t.payoutRef == m.payoutRef && t.amount == m.amount
                            && c'.sim.transfers == c.sim.transfers + [t]
                            && c'.sim.paid == c.sim.paid[m.payoutRef := t.txHash])
            && c'.sim.buckets == (if gen == c.flight.gen then c.sim.buckets[m.escrowRef := Spend(o, m)]
                else c.sim.buckets)
            && c'.flight == (if gen == c.flight.gen then c.flight
                else c.flight.(stale := c.flight.stale[(gen, m.escrowRef) := Spend(o, m)]))
  {
    var m, s := signed.message, Seen(c, gen, signed.message.escrowRef);
    PaidFacts(s, signed, auth);
    ApplyPayoutTables(s, m);
    assert TransferOf(s, m).payoutRef == m.payoutRef;
  }

  lemma SameDeposited(s: Sim, t: Sim)
    requires s.buckets.Keys == t.buckets.Keys && forall e :: e in s.buckets ==>
        t.buckets[e].deposited == s.buckets[e].deposited
    ensures forall e :: DepositedFor(t, e) == DepositedFor(s, e)
  {
  }

  /** A batch's relation to the tables survives more transfers and references. */
  lemma BatchKeptOnward(s: Sim, t: Sim, run: BatchRun)
    requires BatchKept(s, run) && DepositsKnown(s, run)
    requires s.transfers <= t.transfers && s.paid.Keys <= t.paid.Keys && s.buckets.Keys == t.buckets.Keys
    requires forall e :: e in s.buckets ==> t.buckets[e].deposited == s.buckets[e].deposited
    ensures BatchKept(t, run) && DepositsKnown(t, run)
  {
    SameDeposited(s, t);
  }

  lemma PaidStaleKept(c: Devnet, m: Message, gen: nat, o: Bucket)
    requires StaleKept(c.flight) && Object(c, gen, m.escrowRef) == Some(o) && 0 < m.amount <= Available(o)
    ensures StaleKept(if gen == c.flight.gen then c.flight
        else c.flight.(stale := c.flight.stale[(gen, m.escrowRef) := Spend(o, m)]))
  {
    SpendFits(o, m);
  }

  lemma PaidBounded(buckets: map<EscrowRef, Bucket>, m: Message)
    requires Bounded(buckets) && m.escrowRef in buckets && 0 < m.amount <= Available(buckets[m.escrowRef])
    ensures Bounded(buckets[m.escrowRef := Spend(buckets[m.escrowRef], m)])
  {
    SpendFits(buckets[m.escrowRef], m);
  }

  lemma PayKeeps(c: Devnet, signed: Signed, gen: nat, auth: Auth)
    requires Kept(c) && PayOn(c, signed, gen, auth).Some?
    ensures Kept(PayOn(c, signed, gen, auth).value)
  {
    var m, c' := signed.message, PayOn(c, signed, gen, auth).value;
    PayTables(c, signed, gen, auth);
    PaidStaleKept(c, m, gen, Object(c, gen, m.escrowRef).value);
    if gen == c.flight.gen { PaidBounded(c.sim.buckets, m); }
    var t: Transfer :| t.payoutRef == m.payoutRef && t.amount == m.amount
             && c'.sim.transfers == c.sim.transfers + [t] && c'.sim.paid == c.sim.paid[m.payoutRef := t.txHash];
    assert RefsMatch(c'.sim) by { OneMorePaid(c.sim, c'.sim, t); }
    assert CallsHeld(c') by { ObjectsStay(c, c'); }
    assert TakenKept(c') by { SameDeposited(c.sim, c'.sim); }
    if c.flight.batch.Some? { BatchKeptOnward(c.sim, c'.sim, c.flight.batch.value); }
  }

  /** Paying from the live object keeps the totals; paying from a replaced one breaks them. */
  lemma PayTotals(c: Devnet, signed: Signed, gen: nat, auth: Auth)
    requires c.sim.blocks != [] && Totals(c.sim) && PayOn(c, signed, gen, auth).Some?
    ensures Totals(PayOn(c, signed, gen, auth).value.sim) <==> gen == c.flight.gen
  {
    var m, c' := signed.message, PayOn(c, signed, gen, auth).value;
    PayTables(c, signed, gen, auth);
    var t: Transfer :| t.payoutRef == m.payoutRef && t.amount == m.amount
             && c'.sim.transfers == c.sim.transfers + [t] && c'.sim.paid == c.sim.paid[m.payoutRef := t.txHash];
    if gen == c.flight.gen {
      OneMoreSpent(c.sim, c'.sim, m, t);
    } else {
      assert c'.sim.transfers[..|c.sim.transfers|] == c.sim.transfers;
    }
  }

  // ---- freezes ------------------------------------------------------------------------------------------------------

  lemma FreezeTables(c: Devnet, order: SignedFreeze, gen: nat, auth: Auth)
    requires c.sim.blocks != [] && FreezeOn(c, order, gen, auth).Some?
    ensures var e, c' := order.escrowRef, FreezeOn(c, order, gen, auth).value;
            && Object(c, gen, e).Some?
            && var o := Object(c, gen, e).value.(frozen := order.frozen);
            && c'.sim.blocks != [] && c'.sim.paid == c.sim.paid && c'.sim.transfers == c.sim.transfers
            && c'.sim.nonces == c.sim.nonces + {order.nonce}
            && c'.sim.buckets == (if gen == c.flight.gen then c.sim.buckets[e := o] else c.sim.buckets)
            && c'.flight == (if gen == c.flight.gen then c.flight
                else c.flight.(stale := c.flight.stale[(gen, e) := o]))
  {
  }

  lemma FrozenStaleKept(c: Devnet, order: SignedFreeze, gen: nat, o: Bucket)
    requires StaleKept(c.flight) && Object(c, gen, order.escrowRef) == Some(o)
    ensures var frozen := o.(frozen := order.frozen);
            StaleKept(if gen == c.flight.gen then c.flight
                      else c.flight.(stale := c.flight.stale[(gen, order.escrowRef) := frozen]))
  {
  }

  lemma FreezeKeeps(c: Devnet, order: SignedFreeze, gen: nat, auth: Auth)
    requires Kept(c) && FreezeOn(c, order, gen, auth).Some?
    ensures Kept(FreezeOn(c, order, gen, auth).value)
    ensures Totals(c.sim) ==> Totals(FreezeOn(c, order, gen, auth).value.sim)
  {
    var c' := FreezeOn(c, order, gen, auth).value;
    FreezeTables(c, order, gen, auth);
    FrozenStaleKept(c, order, gen, Object(c, gen, order.escrowRef).value);
    assert Bounded(c'.sim.buckets);
    assert CallsHeld(c') by { ObjectsStay(c, c'); }
    assert TakenKept(c') by { SameDeposited(c.sim, c'.sim); }
    if c.flight.batch.Some? { BatchKeptOnward(c.sim, c'.sim, c.flight.batch.value); }
    assert SpentBy(c'.sim.buckets) == SpentBy(c.sim.buckets);
  }

  // ---- calls --------------------------------------------------------------------------------------------------------

  lemma DropKeeps(c: Devnet, id: nat)
    requires Kept(c)
    ensures Kept(Drop(c, id)) && (Accounts(c) <==> Accounts(Drop(c, id)))
  {
  }

  /** The records of what completed do not matter to the books. */
  predicate SameButRecords(f: Flight, g: Flight)
  {
    && g.gen == f.gen && g.stale == f.stale && g.calls == f.calls && g.taken == f.taken
    && g.batch.Some? == f.batch.Some?
    && (f.batch.Some? ==>
        g.batch.value == f.batch.value.(payouts := g.batch.value.payouts, freezes := g.batch.value.freezes))
  }

  lemma RecordsKeep(c: Devnet, g: Flight)
    requires Kept(c) && SameButRecords(c.flight, g)
    ensures Kept(c.(flight := g)) && (Accounts(c) <==> Accounts(c.(flight := g)))
  {
    var c' := c.(flight := g);
    assert forall id :: id in g.calls ==>
        Object(c', g.calls[id].gen, CallRef(g.calls[id])) == Object(c, g.calls[id].gen, CallRef(g.calls[id]));
  }

  lemma FinishKeeps(c: Devnet, id: nat, auth: Auth)
    requires Kept(c) && id in c.flight.calls
    ensures Kept(FinishCall(c, id, auth))
    ensures Accounts(c) ==> (Accounts(FinishCall(c, id, auth)) <==> !PaysReplaced(c, Finish(id, auth)))
  {
    var d := Drop(c, id);
    DropKeeps(c, id);
    match c.flight.calls[id]
    case PayCall(signed, gen) =>
      var paid := PayOn(d, signed, gen, auth);
      if paid.Some? {
        PayKeeps(d, signed, gen, auth);
        if Accounts(c) { PayTotals(d, signed, gen, auth); }
        PayTables(d, signed, gen, auth);
        RecordsKeep(paid.value, NotePayout(paid.value.flight, signed.message.payoutRef));
      }
    case FreezeCall(order, gen) =>
      var frozen := FreezeOn(d, order, gen, auth);
      if frozen.Some? {
        FreezeKeeps(d, order, gen, auth);
        FreezeTables(d, order, gen, auth);
        RecordsKeep(frozen.value, NoteFreeze(frozen.value.flight, order.escrowRef));
      }
  }

  lemma BeginKeeps(c: Devnet, op: ChainOp)
    requires Kept(c) && (op.BeginPayout? || op.BeginFreeze?)
    ensures Kept(Apply(c, op)) && (Accounts(c) <==> Accounts(Apply(c, op)))
  {
    var c' := Apply(c, op);
    assert forall id :: id in c'.flight.calls && id in c.flight.calls ==> c'.flight.calls[id] == c.flight.calls[id];
  }

  // ---- the batch ----------------------------------------------------------------------------------------------------

  lemma StartKeeps(c: Devnet, batch: seq<Signed>)
    requires Kept(c)
    ensures Kept(Apply(c, StartBatch(batch))) && (Accounts(c) <==> Accounts(Apply(c, StartBatch(batch))))
  {
  }

  lemma StepReleaseKeeps(c: Devnet)
    requires Kept(c) && c.flight.batch.Some?
    ensures Kept(StepRelease(c)) && (Accounts(c) <==> Accounts(StepRelease(c)))
  {
  }

  /** The batch's own release pays like a call on a live object. */
  lemma ReleaseIsPay(c: Devnet, signed: Signed, auth: Auth)
    requires c.sim.blocks != [] && signed.message.escrowRef in c.sim.buckets && FinishPayout(c.sim, signed, auth).Ok?
    ensures PayOn(c, signed, c.flight.gen, auth) == Some(c.(sim := FinishPayout(c.sim, signed, auth).value))
  {
  }

  lemma ReleaseShape(c: Devnet, auth: Auth)
    requires ReleasesNow(c, FinishRelease(auth))
    ensures var run := c.flight.batch.value;
            StepFinish(c, auth) == WithBatch(c.(sim := FinishPayout(c.sim, run.batch[run.done], auth).value),
                                             Some(run.(stage := Ready, done := run.done + 1)))
  {
  }

  lemma RefusalKeeps(c: Devnet, auth: Auth)
    requires Kept(c) && c.flight.batch.Some? && !ReleasesNow(c, FinishRelease(auth))
    ensures Kept(StepFinish(c, auth)) && (Accounts(c) ==> Accounts(StepFinish(c, auth)))
  {
  }

  lemma ReleasePaid(c: Devnet, signed: Signed, auth: Auth)
    requires Kept(c) && signed.message.escrowRef in c.sim.buckets && FinishPayout(c.sim, signed, auth).Ok?
    ensures var paid := c.(sim := FinishPayout(c.sim, signed, auth).value);
            Kept(paid) && signed.message.payoutRef in paid.sim.paid && (Totals(c.sim) ==> Totals(paid.sim))
  {
    ReleaseIsPay(c, signed, auth);
    PayKeeps(c, signed, c.flight.gen, auth);
    PayTables(c, signed, c.flight.gen, auth);
    if Totals(c.sim) { PayTotals(c, signed, c.flight.gen, auth); }
  }

  lemma ReleaseKeeps(c: Devnet, auth: Auth)
    requires Kept(c) && ReleasesNow(c, FinishRelease(auth))
    ensures Kept(StepFinish(c, auth)) && (Accounts(c) ==> Accounts(StepFinish(c, auth)))
  {
    var run := c.flight.batch.value;
    ReleaseShape(c, auth);
    ReleasePaid(c, run.batch[run.done], auth);
    OneMoreDone(c.(sim := FinishPayout(c.sim, run.batch[run.done], auth).value), run);
  }

  /** The next release is recorded as done. */
  lemma OneMoreDone(c: Devnet, run: BatchRun)
    requires Kept(c) && c.flight.batch == Some(run) && run.done < |run.batch|
             && run.batch[run.done].message.payoutRef in c.sim.paid
    ensures Kept(WithBatch(c, Some(run.(stage := Ready, done := run.done + 1))))
  {
  }

  lemma StepFinishKeeps(c: Devnet, auth: Auth)
    requires Kept(c) && c.flight.batch.Some?
    ensures Kept(StepFinish(c, auth)) && (Accounts(c) ==> Accounts(StepFinish(c, auth)))
  {
    if ReleasesNow(c, FinishRelease(auth)) { ReleaseKeeps(c, auth); } else { RefusalKeeps(c, auth); }
  }

  lemma UndoShape(c: Devnet)
    requires Kept(c) && Undoes(c, UndoBatch)
    ensures var c', snap := StepUndo(c), c.flight.batch.value.snap;
            && c'.sim.paid == snap.paid && c'.sim.buckets == snap.buckets && c'.sim.transfers == snap.transfers
            && c'.sim.nonces == snap.nonces && c'.sim.blocks == c.sim.blocks && c'.flight.gen == c.flight.gen + 1
            && c'.flight.calls == c.flight.calls && c'.flight.batch.None? && c'.flight.taken == c.flight.taken
            && c'.flight.accepted == c.flight.accepted
            && (forall e :: e in c.sim.buckets ==> Object(c', c.flight.gen, e) == Some(c.sim.buckets[e]))
            && (forall o :: o in c.flight.stale ==> Object(c', o.0, o.1) == Some(c.flight.stale[o]))
  {
  }

  lemma UndoKeeps(c: Devnet)
    requires Kept(c) && Undoes(c, UndoBatch)
    ensures Kept(StepUndo(c)) && (Accounts(c) ==> Accounts(StepUndo(c)))
  {
    var c' := StepUndo(c);
    UndoShape(c);
    forall id | id in c'.flight.calls
      ensures Object(c', c'.flight.calls[id].gen, CallRef(c'.flight.calls[id])).Some?
    {
      var call := c.flight.calls[id];
      assert Object(c, call.gen, CallRef(call)).Some?;
      if call.gen != c.flight.gen { assert (call.gen, CallRef(call)) in c.flight.stale; }
    }
    assert forall e :: DepositedFor(c'.sim, e) == DepositedFor(c.flight.batch.value.snap, e);
  }

  lemma EndKeeps(c: Devnet)
    requires Kept(c) && c.flight.batch.Some?
    ensures Kept(StepEnd(c)) && (Accounts(c) ==> Accounts(StepEnd(c)))
  {
  }

  lemma BatchStepKeeps(c: Devnet, op: ChainOp)
    requires Kept(c) && (op.StartBatch? || op.BeginRelease? || op.FinishRelease? || op.UndoBatch? || op.EndBatch?)
    ensures Kept(Apply(c, op)) && (Accounts(c) ==> Accounts(Apply(c, op)))
  {
    match op
    case StartBatch(batch) => StartKeeps(c, batch);
    case BeginRelease => if c.flight.batch.Some? { StepReleaseKeeps(c); }
    case FinishRelease(auth) => if c.flight.batch.Some? { StepFinishKeeps(c, auth); }
    case UndoBatch => if Undoes(c, op) { UndoKeeps(c); }
    case EndBatch => if c.flight.batch.Some? { EndKeeps(c); }
  }

  /**
   * Every step, in every interleaving, keeps each bucket within what it took in and the recorded references those of
   * the transfers. The transfers stay the money the live buckets paid exactly when the step does not pay from a
   * replaced bucket.
   */
  lemma StepKeeps(c: Devnet, op: ChainOp)
    requires Kept(c)
    ensures Kept(Apply(c, op))
    ensures Accounts(c) ==> (Accounts(Apply(c, op)) <==> !PaysReplaced(c, op))
  {
    if IsBlockOp(op) {
      BlockOpTables(c, op);
      SameTablesKeep(c, Apply(c, op).sim);
    } else if op.DepositOp? {
      DepositKeeps(c, op.input);
    } else if op.Finish? {
      if op.id in c.flight.calls { FinishKeeps(c, op.id, op.auth); }
    } else if op.BeginPayout? || op.BeginFreeze? {
      BeginKeeps(c, op);
    } else {
      BatchStepKeeps(c, op);
    }
  }
}
