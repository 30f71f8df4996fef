/** Whose a bucket is, and whom each payment pays, over whole runs with calls and a batch interleaving. */
module AwaitTransfers {
  import opened Common
  import opened SimChain
  import opened EscrowRules
  import opened EscrowAnswers
  import opened EscrowAwait
  import opened AwaitBooks
  import opened AwaitRuns
  import AwaitOnce
  import Along
  import opened AwaitReports

  // ---- the owner of a bucket ----------------------------------------------------------------------------------------

  /** The buckets of a running batch's copy are those of the table, with the same payers and tokens. */
  ghost predicate CopyOwned(c: Devnet)
  {
    c.flight.batch.Some? ==>
      var snap := c.flight.batch.value.snap;
      forall e :: e in snap.buckets ==> e in c.sim.buckets && SameOwner(snap.buckets[e], c.sim.buckets[e])
  }

  /** Every bucket object stays reachable where it was, with its payer and token. */
  ghost predicate OwnersStay(c: Devnet, c': Devnet)
  {
    forall g: nat, e ::
      Object(c, g, e).Some? ==> Object(c', g, e).Some? && SameOwner(Object(c, g, e).value, Object(c', g, e).value)
  }

  /** The bucket leaves the table: a batch is undone whose copy does not have it. */
  predicate Drops(c: Devnet, op: ChainOp, e: EscrowRef)
  {
    Undoes(c, op) && e !in c.flight.batch.value.snap.buckets
  }

  /** What a step does to the table: a bucket goes exactly when it is dropped, and otherwise keeps payer and token. */
  ghost predicate TableOwned(c: Devnet, op: ChainOp)
    requires c.sim.blocks != []
  {
    forall e :: e in c.sim.buckets ==>
      && (e in Apply(c, op).sim.buckets <==> !Drops(c, op, e))
      && (!Drops(c, op, e) ==> SameOwner(c.sim.buckets[e], Apply(c, op).sim.buckets[e]))
  }

  lemma DepositOwned(c: Devnet, input: DepositInput)
    requires Kept(c)
    ensures TableOwned(c, DepositOp(input)) && OwnersStay(c, Apply(c, DepositOp(input)))
  {
    var c' := Apply(c, DepositOp(input));
    DepositExact(c.sim, input);
    DepositNoted(c.flight, input.funded.escrowRef, CreditOf(c.sim, input));
    forall e | e in c.sim.buckets
      ensures e in c'.sim.buckets && SameOwner(c.sim.buckets[e], c'.sim.buckets[e])
    {
      assert BucketOf(c'.sim, e) == BucketOf(c.sim, e) || e == input.funded.escrowRef;
    }
  }

  lemma PayOwned(c: Devnet, signed: Signed, gen: nat, auth: Auth)
    requires Kept(c) && PayOn(c, signed, gen, auth).Some?
    ensures Owned(c, PayOn(c, signed, gen, auth).value)
  {
    PayTables(c, signed, gen, auth);
  }

  lemma FreezeOwned(c: Devnet, order: SignedFreeze, gen: nat, auth: Auth)
    requires Kept(c) && FreezeOn(c, order, gen, auth).Some?
    ensures Owned(c, FreezeOn(c, order, gen, auth).value)
  {
    FreezeTables(c, order, gen, auth);
  }

  /** Objects do not depend on what calls wait or what was recorded. */
  lemma SameObjects(c: Devnet, c': Devnet)
    requires c'.sim.buckets == c.sim.buckets && c'.flight.stale == c.flight.stale && c'.flight.gen == c.flight.gen
    ensures forall g: nat, e :: Object(c', g, e) == Object(c, g, e)
  {
  }

  /** The same, with the tables and objects of `c` compared. */
  ghost predicate Owned(c: Devnet, c': Devnet)
  {
    && OwnersStay(c, c') && c'.sim.buckets.Keys == c.sim.buckets.Keys
    && forall e :: e in c.sim.buckets ==> SameOwner(c.sim.buckets[e], c'.sim.buckets[e])
  }

  /** Objects and tables apart from what waits and what was recorded. */
  predicate SameButFlight(c: Devnet, c': Devnet)
  {
    c'.sim == c.sim && c'.flight.stale == c.flight.stale && c'.flight.gen == c.flight.gen
  }

  lemma OwnedThrough(c: Devnet, d: Devnet, d': Devnet, c': Devnet)
    requires SameButFlight(c, d) && Owned(d, d') && SameButFlight(d', c')
    ensures Owned(c, c')
  {
    SameObjects(c, d);
    SameObjects(d', c');
  }

  lemma OwnedItself(c: Devnet, c': Devnet)
    requires SameButFlight(c, c')
    ensures Owned(c, c')
  {
    SameObjects(c, c');
  }

  lemma FinishOwned(c: Devnet, id: nat, auth: Auth)
    requires Kept(c) && id in c.flight.calls
    ensures Owned(c, FinishCall(c, id, auth))
  {
    var d := Drop(c, id);
    assert Kept(d) by { DropKeeps(c, id); }
    match c.flight.calls[id]
    case PayCall(signed, gen) => PayCallOwned(c, d, id, signed, gen, auth);
    case FreezeCall(order, gen) => FreezeCallOwned(c, d, id, order, gen, auth);
  }

  lemma PayCallOwned(c: Devnet, d: Devnet, id: nat, signed: Signed, gen: nat, auth: Auth)
    requires d == Drop(c, id) && Kept(d) && id in c.flight.calls && c.flight.calls[id] == PayCall(signed, gen)
    ensures Owned(c, FinishCall(c, id, auth))
  {
    var paid := PayOn(d, signed, gen, auth);
    if paid.Some? {
      PayOwned(d, signed, gen, auth);
      OwnedThrough(c, d, paid.value, FinishCall(c, id, auth));
    } else {
      OwnedItself(c, d);
    }
  }

  lemma FreezeCallOwned(c: Devnet, d: Devnet, id: nat, order: SignedFreeze, gen: nat, auth: Auth)
    requires d == Drop(c, id) && Kept(d) && id in c.flight.calls && c.flight.calls[id] == FreezeCall(order, gen)
    ensures Owned(c, FinishCall(c, id, auth))
  {
    var frozen := FreezeOn(d, order, gen, auth);
    if frozen.Some? {
      FreezeOwned(d, order, gen, auth);
      OwnedThrough(c, d, frozen.value, FinishCall(c, id, auth));
    } else {
      OwnedItself(c, d);
    }
  }

  lemma ReleaseOwned(c: Devnet, auth: Auth)
    requires Kept(c) && c.flight.batch.Some?
    ensures Owned(c, StepFinish(c, auth))
  {
    if ReleasesNow(c, FinishRelease(auth)) {
      var signed := c.flight.batch.value.batch[c.flight.batch.value.done];
      ReleaseIsPay(c, signed, auth);
      ReleaseShape(c, auth);
      PayOwned(c, signed, c.flight.gen, auth);
      OwnedThrough(c, c, PayOn(c, signed, c.flight.gen, auth).value, StepFinish(c, auth));
    } else {
      OwnedItself(c, StepFinish(c, auth));
    }
  }

  lemma UndoOwned(c: Devnet)
    requires Kept(c) && CopyOwned(c) && Undoes(c, UndoBatch)
    ensures TableOwned(c, UndoBatch) && OwnersStay(c, StepUndo(c))
  {
    UndoShape(c);
    var c' := StepUndo(c);
    forall g: nat, e | Object(c, g, e).Some?
      ensures Object(c', g, e).Some? && SameOwner(Object(c, g, e).value, Object(c', g, e).value)
    {
      if g != c.flight.gen { assert Object(c', (g, e).0, (g, e).1) == Some(c.flight.stale[(g, e)]); }
    }
  }

  lemma StepOwned(c: Devnet, op: ChainOp)
    requires Kept(c) && CopyOwned(c)
    ensures TableOwned(c, op) && OwnersStay(c, Apply(c, op))
  {
    if op.DepositOp? {
      DepositOwned(c, op.input);
    } else if Undoes(c, op) {
      UndoOwned(c);
    } else {
      OtherOwned(c, op);
      OwnedTable(c, op);
    }
  }

  lemma OtherOwned(c: Devnet, op: ChainOp)
    requires Kept(c) && !op.DepositOp? && !Undoes(c, op)
    ensures Owned(c, Apply(c, op))
  {
    if op.Finish? && op.id in c.flight.calls {
      FinishOwned(c, op.id, op.auth);
    } else if op.FinishRelease? && c.flight.batch.Some? {
      ReleaseOwned(c, op.auth);
    } else {
      QuietOwned(c, op);
    }
  }

  lemma OwnedTable(c: Devnet, op: ChainOp)
    requires c.sim.blocks != [] && !Undoes(c, op) && Owned(c, Apply(c, op))
    ensures TableOwned(c, op) && OwnersStay(c, Apply(c, op))
  {
  }

  lemma QuietOwned(c: Devnet, op: ChainOp)
    requires c.sim.blocks != [] && !op.DepositOp? && !(op.Finish? && op.id in c.flight.calls)
    requires !(op.FinishRelease? && c.flight.batch.Some?) && !Undoes(c, op)
    ensures Owned(c, Apply(c, op))
  {
    QuietTables(c, op);
    SameObjects(c, Apply(c, op));
  }

  lemma QuietTables(c: Devnet, op: ChainOp)
    requires c.sim.blocks != [] && !op.DepositOp? && !(op.Finish? && op.id in c.flight.calls)
    requires !(op.FinishRelease? && c.flight.batch.Some?) && !Undoes(c, op)
    ensures var c' := Apply(c, op);
            && c'.sim.buckets == c.sim.buckets && c'.sim.transfers == c.sim.transfers
            && c'.flight.stale == c.flight.stale && c'.flight.gen == c.flight.gen
  {
  }

  lemma CopyStays(c: Devnet, op: ChainOp)
    requires Kept(c) && CopyOwned(c)
    ensures CopyOwned(Apply(c, op))
  {
    StepOwned(c, op);
    if Apply(c, op).flight.batch.Some? { CopyFrom(c, op); }
  }

  /** A batch that is running after a step runs on the copy it had, or on one just taken. */
  lemma CopyFrom(c: Devnet, op: ChainOp)
    requires Kept(c) && Apply(c, op).flight.batch.Some?
    ensures !Undoes(c, op)
    ensures c.flight.batch.Some? ==> Apply(c, op).flight.batch.value.snap == c.flight.batch.value.snap
    ensures c.flight.batch.None? ==>
              Apply(c, op).flight.batch.value.snap == c.sim && Apply(c, op).sim == c.sim
  {
    if op.Finish? && op.id in c.flight.calls {
      if PaysNow(c, op) { AwaitOnce.PayRecords(c, op.id, op.auth); } else { AwaitOnce.FreezeSilent(c, op.id, op.auth); }
    }
  }

  // ---- runs of it ---------------------------------------------------------------------------------------------------

  lemma {:induction false} RunCopyOwned(states: seq<Devnet>, ops: seq<ChainOp>, k: nat)
    requires Path(states, ops) && k < |states| && Kept(states[0]) && CopyOwned(states[0])
    ensures CopyOwned(states[k])
    decreases k
  {
    if k > 0 {
      RunCopyOwned(states, ops, k - 1);
      RunKeeps(states, ops, k - 1);
      CopyStays(states[k - 1], ops[k - 1]);
    }
  }

  lemma NextOwned(states: seq<Devnet>, ops: seq<ChainOp>, j: nat)
    requires Path(states, ops) && j < |ops| && Kept(states[0]) && CopyOwned(states[0])
    ensures TableOwned(states[j], ops[j]) && OwnersStay(states[j], states[j + 1])
    ensures forall e :: e in states[j].sim.buckets && e in states[j + 1].sim.buckets ==>
              SameOwner(states[j].sim.buckets[e], states[j + 1].sim.buckets[e])
    ensures forall e :: e in states[j].sim.buckets && !Drops(states[j], ops[j], e) ==> e in states[j + 1].sim.buckets
  {
    RunKeeps(states, ops, j);
    RunCopyOwned(states, ops, j);
    StepOwned(states[j], ops[j]);
  }

  /** The bucket is in the table all the while. */
  predicate Stays(states: seq<Devnet>, i: nat, k: nat, e: EscrowRef)
    requires i <= k < |states|
  {
    forall j :: i <= j <= k ==> e in states[j].sim.buckets
  }

  predicate KeepsOwner(a: Option<Bucket>, b: Option<Bucket>) { a.Some? ==> b.Some? && SameOwner(a.value, b.value) }

  lemma {:induction false} OwnerAlong(objects: seq<Option<Bucket>>, k: nat)
    requires k < |objects| && forall j :: 0 <= j < k ==> KeepsOwner(objects[j], objects[j + 1])
    ensures KeepsOwner(objects[0], objects[k])
    decreases k
  {
    if k > 0 {
      OwnerAlong(objects, k - 1);
      assert KeepsOwner(objects[k - 1], objects[k - 1 + 1]);
    }
  }

  lemma NextBucket(states: seq<Devnet>, ops: seq<ChainOp>, j: nat, e: EscrowRef)
    requires Path(states, ops) && j < |ops| && Kept(states[0]) && CopyOwned(states[0])
    requires e in states[j].sim.buckets && e in states[j + 1].sim.buckets
    ensures KeepsOwner(BucketOf(states[j].sim, e), BucketOf(states[j + 1].sim, e))
  {
    NextOwned(states, ops, j);
  }

  lemma NextObject(states: seq<Devnet>, ops: seq<ChainOp>, j: nat, gen: nat, e: EscrowRef)
    requires Path(states, ops) && j < |ops| && Kept(states[0]) && CopyOwned(states[0])
    ensures KeepsOwner(Object(states[j], gen, e), Object(states[j + 1], gen, e))
  {
    NextOwned(states, ops, j);
  }

  /** The payer and the token of a bucket never change while it stays in the table. */
  lemma OwnerIsFixed(states: seq<Devnet>, ops: seq<ChainOp>, i: nat, k: nat, e: EscrowRef)
    requires Path(states, ops) && Kept(states[0]) && CopyOwned(states[0]) && i <= k < |states| && Stays(states, i, k, e)
    ensures SameOwner(states[i].sim.buckets[e], states[k].sim.buckets[e])
  {
    var owners := seq(k - i + 1, (j: nat) requires j <= k - i && k < |states| => BucketOf(states[i + j].sim, e));
    assert forall j :: 0 <= j <= k - i ==> owners[j] == BucketOf(states[i + j].sim, e);
    forall j | 0 <= j < k - i
      ensures KeepsOwner(owners[j], owners[j + 1])
    {
      assert e in states[i + j].sim.buckets && e in states[i + j + 1].sim.buckets;
      NextBucket(states, ops, i + j, e);
      assert owners[j + 1] == BucketOf(states[i + (j + 1)].sim, e);
    }
    OwnerAlong(owners, k - i);
  }

  lemma NextStays(states: seq<Devnet>, ops: seq<ChainOp>, j: nat, e: EscrowRef)
    requires Path(states, ops) && j < |ops| && Kept(states[0]) && CopyOwned(states[0]) && e in states[j].sim.buckets
    ensures e in states[j + 1].sim.buckets <==> !Drops(states[j], ops[j], e)
  {
    NextOwned(states, ops, j);
  }

  /** And it stays exactly as long as no batch is undone that began before the bucket was made. */
  lemma BucketStaysExactly(states: seq<Devnet>, ops: seq<ChainOp>, i: nat, k: nat, e: EscrowRef)
    requires Path(states, ops) && Kept(states[0]) && CopyOwned(states[0]) && i <= k < |states|
    requires e in states[i].sim.buckets
    ensures Stays(states, i, k, e) <==> forall j :: i <= j < k ==> !Drops(states[j], ops[j], e)
  {
    var good := seq(|states|, (j: nat) requires j < |states| => e in states[j].sim.buckets);
    assert forall j :: 0 <= j < |good| ==> good[j] == (e in states[j].sim.buckets);
    var bad := seq(|ops|, (j: nat) requires j < |ops| && |states| == |ops| + 1 => Drops(states[j], ops[j], e));
    assert forall j :: 0 <= j < |bad| ==> bad[j] == Drops(states[j], ops[j], e);
    forall j | i <= j < k && good[j]
      ensures good[j + 1] <==> !bad[j]
    {
      NextStays(states, ops, j, e);
    }
    Along.HoldsExactly(good, bad, i, k);
  }

  // ---- payments -----------------------------------------------------------------------------------------------------

  /** Which copy of its bucket a paying step holds, and that bucket object. */
  function PaidGen(c: Devnet, op: ChainOp): nat
    requires PaysNow(c, op) || ReleasesNow(c, op)
  {
    if PaysNow(c, op) then c.flight.calls[op.id].gen else c.flight.gen
  }

  function PaidFrom(c: Devnet, op: ChainOp): Option<Bucket>
    requires PaysNow(c, op) || ReleasesNow(c, op)
  {
    Object(c, PaidGen(c, op), PaidMessage(c, op).escrowRef)
  }

  /** Of all bucket objects only the one paid from moves, and of that only what was released, or what was refunded. */
  ghost predicate OnlyDebits(c: Devnet, c': Devnet, gen: nat, m: Message)
  {
    && Object(c, gen, m.escrowRef).Some? && Object(c', gen, m.escrowRef).Some?
    && Debited(m, Object(c, gen, m.escrowRef).value, Object(c', gen, m.escrowRef).value)
    && forall g: nat, e :: (g, e) != (gen, m.escrowRef) ==> Object(c', g, e) == Object(c, g, e)
  }

  /** A paying second half makes one transfer, from its own object, and moves nothing else. */
  lemma PaysOnce(c: Devnet, signed: Signed, gen: nat, auth: Auth) returns (t: Transfer)
    requires c.sim.blocks != [] && PayOn(c, signed, gen, auth).Some?
    ensures var m, c' := signed.message, PayOn(c, signed, gen, auth).value;
            && OnlyDebits(c, c', gen, m) && PaidOut(m, Object(c, gen, m.escrowRef).value, t)
            && OnePayment(c.sim, c'.sim, m, t)
  {
    t := FinishPays(Seen(c, gen, signed.message.escrowRef), signed, auth);
  }

  lemma FinishTransfers(c: Devnet, id: nat, auth: Auth) returns (t: Transfer)
    requires PaysNow(c, Finish(id, auth))
    ensures var op := Finish(id, auth);
            var m := PaidMessage(c, op);
            && PaidFrom(c, op).Some? && PaidOut(m, PaidFrom(c, op).value, t)
            && OnePayment(c.sim, Apply(c, op).sim, m, t) && OnlyDebits(c, Apply(c, op), PaidGen(c, op), m)
  {
    var call, d := c.flight.calls[id], Drop(c, id);
    SameObjects(c, d);
    t := PaysOnce(d, call.signed, call.gen, auth);
  }

  lemma ReleaseTransfers(c: Devnet, auth: Auth) returns (t: Transfer)
    requires ReleasesNow(c, FinishRelease(auth)) && !PaysNow(c, FinishRelease(auth))
    ensures var op := FinishRelease(auth);
            var m := PaidMessage(c, op);
            && PaidFrom(c, op).Some? && PaidOut(m, PaidFrom(c, op).value, t)
            && OnePayment(c.sim, Apply(c, op).sim, m, t) && OnlyDebits(c, Apply(c, op), PaidGen(c, op), m)
  {
    var run := c.flight.batch.value;
    ReleaseIsPay(c, run.batch[run.done], auth);
    ReleaseShape(c, auth);
    t := PaysOnce(c, run.batch[run.done], c.flight.gen, auth);
  }

  /** The message of a release, if it is one, names the token of the object. */
  predicate InToken(m: Message, o: Option<Bucket>) { o.Some? && (m.ReleaseMessage? ==> m.token == o.value.token) }

  /** Every release that waits for its signature check names the token of the object it holds. */
  ghost predicate TokensHeld(c: Devnet)
  {
    && (forall id :: Paying(c, id) ==>
          InToken(c.flight.calls[id].signed.message, Object(c, c.flight.calls[id].gen, CallRef(c.flight.calls[id]))))
    && (c.flight.batch.Some? && c.flight.batch.value.stage.Waiting?
        && c.flight.batch.value.done < |c.flight.batch.value.batch| ==>
          var m := c.flight.batch.value.batch[c.flight.batch.value.done].message;
          InToken(m, Object(c, c.flight.gen, m.escrowRef)))
  }

  lemma CallsInToken(c: Devnet, op: ChainOp, id: nat)
    requires Kept(c) && TokensHeld(c) && OwnersStay(c, Apply(c, op)) && Paying(Apply(c, op), id)
    ensures var call := Apply(c, op).flight.calls[id];
            InToken(call.signed.message, Object(Apply(c, op), call.gen, CallRef(call)))
  {
    CallAppears(c, op, id);
    var c' := Apply(c, op);
    if id in c.flight.calls {
      assert Paying(c, id);
    }
  }

  lemma ReleaseInToken(c: Devnet, op: ChainOp)
    requires Kept(c) && TokensHeld(c) && OwnersStay(c, Apply(c, op)) && Apply(c, op).flight.batch.Some?
    requires var run := Apply(c, op).flight.batch.value; run.stage.Waiting? && run.done < |run.batch|
    ensures var run := Apply(c, op).flight.batch.value;
            var m := run.batch[run.done].message;
            InToken(m, Object(Apply(c, op), Apply(c, op).flight.gen, m.escrowRef))
  {
    GenStep(c, op);
    CopyFrom(c, op);
    WaitingFrom(c, op);
  }

  /** A release that waits after a step waited before it, or has just passed its check. */
  lemma WaitingFrom(c: Devnet, op: ChainOp)
    requires c.sim.blocks != [] && Apply(c, op).flight.batch.Some? && Apply(c, op).flight.batch.value.stage.Waiting?
    ensures c.flight.batch.Some?
    ensures var run, run' := c.flight.batch.value, Apply(c, op).flight.batch.value;
            && run'.batch == run.batch && run'.done == run.done
            && (run.stage.Waiting?
                || (run.stage.Ready? && run.done < |run.batch|
                    && CheckPayout(c.sim, run.batch[run.done].message).None?))
  {
    if op.Finish? && op.id in c.flight.calls {
      if PaysNow(c, op) { AwaitOnce.PayRecords(c, op.id, op.auth); } else { AwaitOnce.FreezeSilent(c, op.id, op.auth); }
    }
  }

  lemma TokensStay(c: Devnet, op: ChainOp)
    requires Kept(c) && CopyOwned(c) && TokensHeld(c)
    ensures TokensHeld(Apply(c, op))
  {
    StepOwned(c, op);
    var c' := Apply(c, op);
    forall id | Paying(c', id)
      ensures InToken(c'.flight.calls[id].signed.message,
          Object(c', c'.flight.calls[id].gen, CallRef(c'.flight.calls[id])))
    {
      CallsInToken(c, op, id);
    }
    if c'.flight.batch.Some? && c'.flight.batch.value.stage.Waiting?
        && c'.flight.batch.value.done < |c'.flight.batch.value.batch| {
      ReleaseInToken(c, op);
    }
  }

  lemma {:induction false} RunTokensHeld(states: seq<Devnet>, ops: seq<ChainOp>, k: nat)
    requires Path(states, ops) && k < |states| && AtRest(states[0])
    ensures TokensHeld(states[k])
    decreases k
  {
    if k > 0 {
      RunTokensHeld(states, ops, k - 1);
      RunKeeps(states, ops, k - 1);
      RunCopyOwned(states, ops, k - 1);
      TokensStay(states[k - 1], ops[k - 1]);
    }
  }

  // ---- payments over runs -------------------------------------------------------------------------------------------

  predicate PaysAny(c: Devnet, op: ChainOp) { PaysNow(c, op) || ReleasesNow(c, op) }

  /** What a waiting call holds has the payer and token that the live bucket had when the call began. */
  lemma HeldOwner(states: seq<Devnet>, ops: seq<ChainOp>, i: nat, k: nat, id: nat)
    requires Path(states, ops) && AtRest(states[0]) && BeginsCall(states, ops, i, k, id)
    ensures var call := states[k].flight.calls[id];
            var held := Object(states[k], call.gen, CallRef(call));
            && CallRef(call) in states[i].sim.buckets && held.Some?
            && SameOwner(states[i].sim.buckets[CallRef(call)], held.value)
  {
    BegunUnrecorded(states, ops, i, k, id);
    CallAppears(states[i], ops[i], id);
    var gen, e := states[i].flight.gen, CallRef(states[i + 1].flight.calls[id]);
    assert Object(states[i], gen, e) == Some(states[i].sim.buckets[e]);
    ObjectAlong(states, ops, i, k, gen, e);
  }

  lemma ObjectAlong(states: seq<Devnet>, ops: seq<ChainOp>, i: nat, k: nat, gen: nat, e: EscrowRef)
    requires Path(states, ops) && AtRest(states[0]) && i <= k < |states| && Object(states[i], gen, e).Some?
    ensures Object(states[k], gen, e).Some?
            && SameOwner(Object(states[i], gen, e).value, Object(states[k], gen, e).value)
  {
    var objects := seq(k - i + 1, (j: nat) requires j <= k - i && k < |states| => Object(states[i + j], gen, e));
    assert forall j :: 0 <= j <= k - i ==> objects[j] == Object(states[i + j], gen, e);
    forall j | 0 <= j < k - i
      ensures KeepsOwner(objects[j], objects[j + 1])
    {
      NextObject(states, ops, i + j, gen, e);
      assert objects[j + 1] == Object(states[i + (j + 1)], gen, e);
    }
    OwnerAlong(objects, k - i);
  }

  /**
   * Over a run from rest every paying step, of a single call or of a batch, makes exactly one transfer: a release in
   * the token and to the recipient of its message, a refund in the bucket's token to the bucket's payer. A single call
   * pays by the payer and token that its bucket had when the call began.
   */
  lemma EveryPayment(states: seq<Devnet>, ops: seq<ChainOp>, k: nat) returns (t: Transfer)
    requires Path(states, ops) && AtRest(states[0]) && k < |ops| && PaysAny(states[k], ops[k])
    ensures var m, from := PaidMessage(states[k], ops[k]), PaidFrom(states[k], ops[k]);
            && OnePayment(states[k].sim, states[k + 1].sim, m, t)
            && OnlyDebits(states[k], states[k + 1], PaidGen(states[k], ops[k]), m)
            && from.Some? && PaidOut(m, from.value, t) && (m.ReleaseMessage? ==> t.token == m.token)
            && (PaysNow(states[k], ops[k]) ==>
                  exists i: nat ::
                    && BeginsCall(states, ops, i, k, ops[k].id) && m.escrowRef in states[i].sim.buckets
                    && SameOwner(states[i].sim.buckets[m.escrowRef], from.value))
  {
    RunTokensHeld(states, ops, k);
    if PaysNow(states[k], ops[k]) {
      t := FinishTransfers(states[k], ops[k].id, ops[k].auth);
      assert Paying(states[k], ops[k].id);
      var i := CallBegun(states, ops, k, ops[k].id);
      HeldOwner(states, ops, i, k, ops[k].id);
    } else {
      t := ReleaseTransfers(states[k], ops[k].auth);
    }
  }

  /** Where a listed transfer comes from. */
  lemma TransferFrom(c: Devnet, op: ChainOp, n: nat)
    requires Kept(c) && n < |Apply(c, op).sim.transfers|
    ensures || (n < |c.sim.transfers| && Apply(c, op).sim.transfers[n] == c.sim.transfers[n])
            || (PaysAny(c, op) && n == |c.sim.transfers|)
  {
    if PaysNow(c, op) {
      var t := FinishTransfers(c, op.id, op.auth);
    } else if ReleasesNow(c, op) {
      var t := ReleaseTransfers(c, op.auth);
    } else if Undoes(c, op) {
      UndoShape(c);
    } else {
      NoTransfer(c, op);
    }
  }

  lemma NoTransfer(c: Devnet, op: ChainOp)
    requires Kept(c) && !PaysAny(c, op) && !Undoes(c, op)
    ensures Apply(c, op).sim.transfers == c.sim.transfers
  {
    if op.DepositOp? {
      DepositExact(c.sim, op.input);
    } else if op.Finish? && op.id in c.flight.calls {
      if c.flight.calls[op.id].FreezeCall? {
        var call := c.flight.calls[op.id];
        if FreezeOn(Drop(c, op.id), call.order, call.gen, op.auth).Some? {
          FreezeTables(Drop(c, op.id), call.order, call.gen, op.auth);
        }
      }
    } else if op.FinishRelease? {
    } else {
      QuietTables(c, op);
    }
  }

  lemma NextTransfer(states: seq<Devnet>, ops: seq<ChainOp>, j: nat, n: nat)
    requires Path(states, ops) && j < |ops| && Kept(states[0]) && n < |states[j + 1].sim.transfers|
    ensures || (n < |states[j].sim.transfers| && states[j + 1].sim.transfers[n] == states[j].sim.transfers[n])
            || (PaysAny(states[j], ops[j]) && n == |states[j].sim.transfers|)
  {
    RunKeeps(states, ops, j);
    TransferFrom(states[j], ops[j], n);
  }

  /** Every transfer that is listed after a run, and was not before, was made by a paying step of the run. */
  lemma {:induction false} TransfersArePayments(states: seq<Devnet>, ops: seq<ChainOp>, k: nat, n: nat) returns (j: nat)
    requires Path(states, ops) && Kept(states[0]) && k < |states|
    requires |states[0].sim.transfers| <= n < |states[k].sim.transfers|
    ensures j < k && PaysAny(states[j], ops[j]) && |states[j].sim.transfers| == n < |states[j + 1].sim.transfers|
    ensures states[k].sim.transfers[n] == states[j + 1].sim.transfers[n]
    decreases k
  {
    NextTransfer(states, ops, k - 1, n);
    if n < |states[k - 1].sim.transfers| && states[k].sim.transfers[n] == states[k - 1].sim.transfers[n] {
      j := TransfersArePayments(states, ops, k - 1, n);
    } else {
      j := k - 1;
    }
  }

  // ---- switches -----------------------------------------------------------------------------------------------------

  /** Which calls can begin and which payments complete once a switch is set; the switch itself moves nothing else. */
  lemma SwitchesExact(c: Devnet, off: bool, token: Address)
    requires c.sim.blocks != []
    ensures var c' := Apply(c, OfflineOp(off));
            && c' == c.(sim := c'.sim) && c'.sim == c.sim.(offline := off)
            && (off ==> forall m :: CheckPayout(c'.sim, m) == Some(Unavailable))
            && (off ==> forall order :: CheckFreeze(c'.sim, order) == Some(Unavailable))
    ensures var c' := Apply(c, PauseOp(off));
            && c' == c.(sim := c'.sim) && c'.sim == c.sim.(paused := off)
            && (off ==> forall m :: CheckPayout(c'.sim, m).Some?)
            && forall order :: CheckFreeze(c'.sim, order) == CheckFreeze(c.sim, order)
    ensures var c' := Apply(c, FailOp(token, off));
            && c' == c.(sim := c'.sim) && c'.sim == c.sim.(failing := c'.sim.failing)
            && (forall t :: t in c'.sim.failing <==> if t == token then off else t in c.sim.failing)
            && (off ==> forall signed: Signed, gen: nat, auth: Auth ::
                  && Object(c', gen, signed.message.escrowRef).Some?
                  && Object(c', gen, signed.message.escrowRef).value.token == token
                  && InToken(signed.message, Object(c', gen, signed.message.escrowRef)) ==>
                    PayOn(c', signed, gen, auth).None?)
  {
  }
}
