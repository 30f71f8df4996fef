/**
 * The simulator with its awaits (src/modules/crypto/chain.ts). `payout` and `executeFreeze` look a bucket object up,
 * await the signature check, and then test and change that object; `executeReleaseBatch` takes a snapshot, awaits every
 * release in turn, and replaces every bucket object when one is refused. Each piece between two awaits is a step of its
 * own here, so calls, deposits, blocks and one running batch interleave in every way.
 */
module EscrowAwait {
  import opened Common
  import opened SimChain
  import opened EscrowRules

  /** A call waiting for its signature check. Its bucket object is the one its reference had in generation `gen`. */
  datatype Call = PayCall(signed: Signed, gen: nat) | FreezeCall(order: SignedFreeze, gen: nat)

  datatype Stage = Ready | Waiting | Refused(error: PayoutError)

  /**
   * A running batch: its snapshot, the releases, how many are done, and where it stands. The last three fields remember
   * what completed beside it since the snapshot: the buckets credited by deposits, the references paid by single
   * payouts, and the buckets whose freeze flag was set. The code keeps no such record.
   */
  datatype BatchRun = BatchRun(snap: Sim, batch: seq<Signed>, done: nat, stage: Stage,
                               deposits: set<EscrowRef>, payouts: set<nat>, freezes: set<EscrowRef>)

  /**
   * What is in flight. Generation `gen` is the live one; `stale` holds the bucket objects that an undone batch
   * replaced. `accepted` lists the references for which a caller was told that the payout succeeded, and `taken` what
   * each bucket was ever credited; the code keeps neither.
   */
  datatype Flight = Flight(
    gen: nat, stale: map<(nat, EscrowRef), Bucket>, calls: map<nat, Call>, batch: Option<BatchRun>,
    accepted: seq<nat>, taken: map<EscrowRef, nat>)

  const NOTHING_IN_FLIGHT := Flight(0, map[], map[], None, [], map[])

  datatype Devnet = Devnet(sim: Sim, flight: Flight)

  datatype ChainOp =
    | MineOp(count: nat)
    | DepositOp(input: DepositInput)
    | ReorgOp(depth: nat)
    | ReincludeOp(receipt: Receipt)
    | OfflineOp(offline: bool)
    | PauseOp(paused: bool)
    | FailOp(token: Address, failing: bool)
    | BeginPayout(id: nat, signed: Signed)
    | BeginFreeze(id: nat, order: SignedFreeze)
    | Finish(id: nat, auth: Auth)
    | StartBatch(batch: seq<Signed>)
    | BeginRelease
    | FinishRelease(auth: Auth)
    | UndoBatch
    | EndBatch

  function CallRef(call: Call): EscrowRef
  {
    if call.PayCall? then call.signed.message.escrowRef else call.order.escrowRef
  }

  /** The bucket object of a reference in a generation. */
  function Object(c: Devnet, gen: nat, e: EscrowRef): Option<Bucket>
  {
    if gen == c.flight.gen then (if e in c.sim.buckets then Some(c.sim.buckets[e]) else None)
    else if (gen, e) in c.flight.stale then Some(c.flight.stale[(gen, e)])
    else None
  }

  /** The chain as a call sees it, with its own object under its reference. */
  function Seen(c: Devnet, gen: nat, e: EscrowRef): Sim
    requires Object(c, gen, e).Some?
  {
    if gen == c.flight.gen then c.sim else c.sim.(buckets := c.sim.buckets[e := Object(c, gen, e).value])
  }

  /** The change a call made to what it saw, with its bucket written back to its own object. */
  function Put(c: Devnet, gen: nat, e: EscrowRef, after: Sim): Devnet
    requires e in after.buckets
  {
    if gen == c.flight.gen then c.(sim := after)
    else Devnet(after.(buckets := c.sim.buckets), c.flight.(stale := c.flight.stale[(gen, e) := after.buckets[e]]))
  }

  /** The second half of a payout; None is a refusal. */
  function PayOn(c: Devnet, signed: Signed, gen: nat, auth: Auth): Option<Devnet>
    requires c.sim.blocks != []
  {
    var e := signed.message.escrowRef;
    if Object(c, gen, e).None? then None
    else
      match FinishPayout(Seen(c, gen, e), signed, auth)
      case Err(_) => None
      case Ok(after) => Some(Put(c, gen, e, after))
  }

  function FreezeOn(c: Devnet, order: SignedFreeze, gen: nat, auth: Auth): Option<Devnet>
    requires c.sim.blocks != []
  {
    var e := order.escrowRef;
    if Object(c, gen, e).None? then None
    else
      match FinishFreeze(Seen(c, gen, e), order, auth)
      case Err(_) => None
      case Ok(after) => Some(Put(c, gen, e, after))
  }

  /** What a deposit adds to its bucket. */
  function CreditOf(s: Sim, input: DepositInput): nat
  {
    if !input.reverted && s.settlement == Some(input.emitter) then input.funded.amount * (1 + input.duplicateLogs)
    else 0
  }

  function Taken(f: Flight, e: EscrowRef): nat { if e in f.taken then f.taken[e] else 0 }

  function NoteDeposit(f: Flight, e: EscrowRef, credit: nat): Flight
  {
    var noted := f.(taken := f.taken[e := Taken(f, e) + credit]);
    if f.batch.Some? && credit > 0 then noted.(batch := Some(f.batch.value.(deposits := f.batch.value.deposits + {e})))
    else noted
  }

  /** A single payout reported as done. A reference that the snapshot already knows is not forgotten with the batch. */
  function NotePayout(f: Flight, p: nat): Flight
  {
    var noted := f.(accepted := f.accepted + [p]);
    if f.batch.Some? && p !in f.batch.value.snap.paid
    then noted.(batch := Some(f.batch.value.(payouts := f.batch.value.payouts + {p})))
    else noted
  }

  function NoteFreeze(f: Flight, e: EscrowRef): Flight
  {
    if f.batch.Some? then f.(batch := Some(f.batch.value.(freezes := f.batch.value.freezes + {e}))) else f
  }

  function Drop(c: Devnet, id: nat): Devnet { c.(flight := c.flight.(calls := c.flight.calls - {id})) }

  function FinishCall(c: Devnet, id: nat, auth: Auth): Devnet
    requires c.sim.blocks != [] && id in c.flight.calls
  {
    var call := c.flight.calls[id];
    match call
    case PayCall(signed, gen) =>
      var paid := PayOn(Drop(c, id), signed, gen, auth);
      if paid.None? then Drop(c, id) else paid.value.(flight := NotePayout(paid.value.flight, signed.message.payoutRef))
    case FreezeCall(order, gen) =>
      var frozen := FreezeOn(Drop(c, id), order, gen, auth);
      if frozen.None? then Drop(c, id) else frozen.value.(flight := NoteFreeze(frozen.value.flight, order.escrowRef))
  }

  function WithBatch(c: Devnet, run: Option<BatchRun>): Devnet { c.(flight := c.flight.(batch := run)) }

  function StepRelease(c: Devnet): Devnet
    requires c.flight.batch.Some?
  {
    var run := c.flight.batch.value;
    if !run.stage.Ready? || run.done >= |run.batch| then c
    else
      var refused := CheckPayout(c.sim, run.batch[run.done].message);
      WithBatch(c, Some(run.(stage := if refused.Some? then Refused(refused.value) else Waiting)))
  }

  /** The batch is undone by itself alone, so the object its release holds is the live one. */
  function StepFinish(c: Devnet, auth: Auth): Devnet
    requires c.sim.blocks != [] && c.flight.batch.Some?
  {
    var run := c.flight.batch.value;
    if !run.stage.Waiting? || run.done >= |run.batch| then c
    else
      var signed := run.batch[run.done];
      if signed.message.escrowRef !in c.sim.buckets then WithBatch(c, Some(run.(stage := Refused(UnknownBucket))))
      else
        match FinishPayout(c.sim, signed, auth)
        case Err(e) => WithBatch(c, Some(run.(stage := Refused(e))))
        case Ok(after) => WithBatch(c.(sim := after), Some(run.(stage := Ready, done := run.done + 1)))
  }

  /** `restore`: the tables of the snapshot come back, every bucket object is replaced. */
  function StepUndo(c: Devnet): Devnet
    requires c.flight.batch.Some?
  {
    var run, f := c.flight.batch.value, c.flight;
    if !run.stage.Refused? || |run.snap.transfers| > |c.sim.transfers| then c
    else
      var replaced := map e | e in c.sim.buckets :: (f.gen, e) := c.sim.buckets[e];
      Devnet(Restore(run.snap, c.sim), f.(gen := f.gen + 1, stale := f.stale + replaced, batch := None))
  }

  function RefsOf(batch: seq<Signed>): (refs: seq<nat>)
    ensures |refs| == |batch| && forall i :: 0 <= i < |batch| ==> refs[i] == batch[i].message.payoutRef
  {
    seq(|batch|, i requires 0 <= i < |batch| => batch[i].message.payoutRef)
  }

  function StepEnd(c: Devnet): Devnet
    requires c.flight.batch.Some?
  {
    var run := c.flight.batch.value;
    if run.stage.Ready? && run.done >= |run.batch|
    then c.(flight := c.flight.(batch := None, accepted := c.flight.accepted + RefsOf(run.batch)))
    else c
  }

  /** One step; a step that cannot happen leaves everything as it is. */
  function Apply(c: Devnet, op: ChainOp): (r: Devnet)
    requires c.sim.blocks != []
    ensures r.sim.blocks != []
  {
    match op
    case MineOp(count) => c.(sim := Mine(c.sim, count))
    case DepositOp(input) =>
      Devnet(SubmitDeposit(c.sim, input), NoteDeposit(c.flight, input.funded.escrowRef, CreditOf(c.sim, input)))
    case ReorgOp(depth) => c.(sim := Reorg(c.sim, depth))
    case ReincludeOp(receipt) => c.(sim := Reinclude(c.sim, receipt))
    case OfflineOp(offline) => c.(sim := c.sim.(offline := offline))
    case PauseOp(paused) => c.(sim := c.sim.(paused := paused))
    case FailOp(token, failing) =>
      c.(sim := c.sim.(failing := if failing then c.sim.failing + {token} else c.sim.failing - {token}))
    case BeginPayout(id, signed) =>
      if id in c.flight.calls || CheckPayout(c.sim, signed.message).Some? then c
      else c.(flight := c.flight.(calls := c.flight.calls[id := PayCall(signed, c.flight.gen)]))
    case BeginFreeze(id, order) =>
      if id in c.flight.calls || CheckFreeze(c.sim, order).Some? then c
      else c.(flight := c.flight.(calls := c.flight.calls[id := FreezeCall(order, c.flight.gen)]))
    case Finish(id, auth) => if id in c.flight.calls then FinishCall(c, id, auth) else c
    case StartBatch(batch) =>
      if c.flight.batch.Some? then c else WithBatch(c, Some(BatchRun(c.sim, batch, 0, Ready, {}, {}, {})))
    case BeginRelease => if c.flight.batch.Some? then StepRelease(c) else c
    case FinishRelease(auth) => if c.flight.batch.Some? then StepFinish(c, auth) else c
    case UndoBatch => if c.flight.batch.Some? then StepUndo(c) else c
    case EndBatch => if c.flight.batch.Some? then StepEnd(c) else c
  }

  /** The step undoes the running batch. */
  predicate Undoes(c: Devnet, op: ChainOp)
  {
    op.UndoBatch? && c.flight.batch.Some? && c.flight.batch.value.stage.Refused?
    && |c.flight.batch.value.snap.transfers| <= |c.sim.transfers|
  }

  /** The step is the second half of a single payout, and it pays. */
  predicate PaysNow(c: Devnet, op: ChainOp)
  {
    && c.sim.blocks != [] && op.Finish? && op.id in c.flight.calls && c.flight.calls[op.id].PayCall?
    && PayOn(Drop(c, op.id), c.flight.calls[op.id].signed, c.flight.calls[op.id].gen, op.auth).Some?
  }

  /** It pays from a bucket object that an undone batch has replaced. */
  predicate PaysReplaced(c: Devnet, op: ChainOp)
  {
    PaysNow(c, op) && c.flight.calls[op.id].gen != c.flight.gen
  }

  /** The step is a batch's own release, and it pays. */
  predicate ReleasesNow(c: Devnet, op: ChainOp)
  {
    && c.sim.blocks != [] && op.FinishRelease? && c.flight.batch.Some? && c.flight.batch.value.stage.Waiting?
    && c.flight.batch.value.done < |c.flight.batch.value.batch|
    && var signed := c.flight.batch.value.batch[c.flight.batch.value.done];
    signed.message.escrowRef in c.sim.buckets && FinishPayout(c.sim, signed, op.auth).Ok?
  }

  /** The message that a paying step pays. */
  function PaidMessage(c: Devnet, op: ChainOp): Message
    requires PaysNow(c, op) || ReleasesNow(c, op)
  {
    if PaysNow(c, op) then c.flight.calls[op.id].signed.message
    else c.flight.batch.value.batch[c.flight.batch.value.done].message
  }

  ghost predicate Path(states: seq<Devnet>, ops: seq<ChainOp>)
  {
    && |states| == |ops| + 1
    && (forall i :: 0 <= i < |states| ==> states[i].sim.blocks != [])
    && forall i :: 0 <= i < |ops| ==> states[i + 1] == Apply(states[i], ops[i])
  }
}
