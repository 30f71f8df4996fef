/** Which payouts are reported as done over a run, and exactly when one reference is reported twice. */
module AwaitReports {
  import opened Common
  import opened SimChain
  import opened EscrowRules
  import opened EscrowAwait
  import opened AwaitBooks
  import opened AwaitRuns
  import opened AwaitOnce

  // ---- reports ------------------------------------------------------------------------------------------------------

  /** The step ends the running batch: its caller is told that every release of it is done. */
  predicate Ends(c: Devnet, op: ChainOp)
  {
    && op.EndBatch? && c.flight.batch.Some?
    && c.flight.batch.value.stage.Ready? && c.flight.batch.value.done >= |c.flight.batch.value.batch|
  }

  /** The references that a caller is told are paid. */
  function Reports(c: Devnet, op: ChainOp): seq<nat>
  {
    if PaysNow(c, op) then [RefOf(c, op.id)] else if Ends(c, op) then RefsOf(c.flight.batch.value.batch) else []
  }

  lemma StepReports(c: Devnet, op: ChainOp)
    requires Kept(c)
    ensures Apply(c, op).flight.accepted == c.flight.accepted + Reports(c, op)
    ensures forall p :: p in Reports(c, op) ==> p in Apply(c, op).sim.paid
  {
    if IsBlockOp(op) || op.DepositOp? || op.BeginPayout? || op.BeginFreeze? {
      BlockSilent(c, op);
    } else if op.Finish? {
      if op.id in c.flight.calls {
        if PaysNow(c, op) { PayRecords(c, op.id, op.auth); } else { FreezeSilent(c, op.id, op.auth); }
      }
    } else if op.FinishRelease? {
      if c.flight.batch.Some? {
        if ReleasesNow(c, op) { ReleaseRecords(c, op.auth); } else { RefusalSilent(c, op.auth); }
      }
    } else if op.UndoBatch? {
      if Undoes(c, op) { UndoShape(c); }
    }
  }

  /** Some step from `lo` on and before `hi` reports the reference. */
  predicate Reported(states: seq<Devnet>, ops: seq<ChainOp>, lo: nat, hi: nat, p: nat)
    requires |states| == |ops| + 1 && hi <= |ops|
  {
    exists j :: lo <= j < hi && p in Reports(states[j], ops[j])
  }

  /** Before step `i` the reference was reported, and after that a batch was undone whose copy did not know it. */
  predicate Lost(states: seq<Devnet>, ops: seq<ChainOp>, i: nat, p: nat)
    requires |states| == |ops| + 1 && i <= |ops|
  {
    exists m :: 0 <= m < i && ForgetsRef(states[m], ops[m], p) && Reported(states, ops, 0, m, p)
  }

  lemma NextReports(states: seq<Devnet>, ops: seq<ChainOp>, j: nat)
    requires Path(states, ops) && j < |ops| && Kept(states[0])
    ensures states[j + 1].flight.accepted == states[j].flight.accepted + Reports(states[j], ops[j])
    ensures forall p :: p in Reports(states[j], ops[j]) ==> p in states[j + 1].sim.paid
  {
    RunKeeps(states, ops, j);
    StepReports(states[j], ops[j]);
  }

  /** What was reported and is not recorded any more was lost with an undone batch. */
  lemma UnrecordedIsLost(states: seq<Devnet>, ops: seq<ChainOp>, j: nat, i: nat, p: nat)
    requires Path(states, ops) && Kept(states[0]) && j < i <= |ops|
    requires p in Reports(states[j], ops[j]) && p !in states[i].sim.paid
    ensures Lost(states, ops, i, p)
  {
    NextReports(states, ops, j);
    ReplayIsRefused(states, ops, j + 1, i, p);
    var m :| j + 1 <= m < i && ForgetsRef(states[m], ops[m], p);
    assert Reported(states, ops, 0, m, p);
  }

  /** A reference not recorded at `i` has been reported by `k` exactly if it was since `i`, or was lost before. */
  lemma ReportedExactly(states: seq<Devnet>, ops: seq<ChainOp>, i: nat, k: nat, p: nat)
    requires Path(states, ops) && Kept(states[0]) && i <= k <= |ops| && p !in states[i].sim.paid
    ensures Reported(states, ops, 0, k, p) <==> Reported(states, ops, i, k, p) || Lost(states, ops, i, p)
  {
    if Reported(states, ops, 0, k, p) {
      var j :| 0 <= j < k && p in Reports(states[j], ops[j]);
      if j < i { UnrecordedIsLost(states, ops, j, i, p); }
    }
    if Lost(states, ops, i, p) {
      var m :| 0 <= m < i && ForgetsRef(states[m], ops[m], p) && Reported(states, ops, 0, m, p);
      var j :| 0 <= j < m && p in Reports(states[j], ops[j]);
    }
  }

  // ---- checks -------------------------------------------------------------------------------------------------------

  /** The run starts with nothing in flight and nothing reported. */
  ghost predicate AtRest(c: Devnet)
  {
    Kept(c) && c.flight.calls == map[] && c.flight.batch.None? && c.flight.accepted == []
  }

  /** Step `i` begins the call that step `k` finishes. */
  predicate BeginsCall(states: seq<Devnet>, ops: seq<ChainOp>, i: nat, k: nat, id: nat)
    requires |states| == |ops| + 1
  {
    && i < k < |states| && (ops[i].BeginPayout? || ops[i].BeginFreeze?) && ops[i].id == id
    && id !in states[i].flight.calls && forall j :: i < j <= k ==> id in states[j].flight.calls
  }

  /** Step `i` begins the n-th release of the batch that is running at `k`, and its check passes. */
  predicate BeginsRelease(states: seq<Devnet>, ops: seq<ChainOp>, i: nat, k: nat, n: nat)
    requires |states| == |ops| + 1
  {
    && i < k < |states| && ops[i].BeginRelease? && (forall j :: i <= j <= k ==> states[j].flight.batch.Some?)
    && var run := states[i].flight.batch.value;
    && run.stage.Ready? && run.done == n < |run.batch| && run.batch == states[k].flight.batch.value.batch
    && states[i + 1].flight.batch.value.stage.Waiting?
  }

  /** Step `k` reports the reference, and step `i` is where that payout was checked before its signature was awaited. */
  ghost predicate Checks(states: seq<Devnet>, ops: seq<ChainOp>, i: nat, k: nat, p: nat)
    requires |states| == |ops| + 1
  {
    && i < k < |ops| && p in Reports(states[k], ops[k])
    && ((PaysNow(states[k], ops[k]) && BeginsCall(states, ops, i, k, ops[k].id))
        || (Ends(states[k], ops[k])
            && exists n: nat ::
                 && BeginsRelease(states, ops, i, k, n)
                 && states[k].flight.batch.value.batch[n].message.payoutRef == p))
  }

  lemma CallAppears(c: Devnet, op: ChainOp, id: nat)
    requires c.sim.blocks != [] && id in Apply(c, op).flight.calls
    ensures id in c.flight.calls ==> Apply(c, op).flight.calls[id] == c.flight.calls[id]
    ensures id !in c.flight.calls ==>
              && (op.BeginPayout? || op.BeginFreeze?) && op.id == id
              && Apply(c, op).flight.calls[id].gen == c.flight.gen == Apply(c, op).flight.gen
              && (op.BeginPayout? ==>
                    && CheckPayout(c.sim, op.signed.message).None?
                    && Apply(c, op).flight.calls[id] == PayCall(op.signed, c.flight.gen))
              && (op.BeginFreeze? ==> Apply(c, op).flight.calls[id].FreezeCall?)
  {
    if op.Finish? && op.id in c.flight.calls { FinishGen(c, op.id, op.auth); }
  }

  lemma NextCall(states: seq<Devnet>, ops: seq<ChainOp>, j: nat, id: nat)
    requires Path(states, ops) && j < |ops| && id in states[j + 1].flight.calls
    ensures id in states[j].flight.calls || BeginsCall(states, ops, j, j + 1, id)
  {
    CallAppears(states[j], ops[j], id);
  }

  /** Every call in flight began somewhere in the run. */
  lemma {:induction false} CallBegun(states: seq<Devnet>, ops: seq<ChainOp>, k: nat, id: nat) returns (i: nat)
    requires Path(states, ops) && k < |states| && states[0].flight.calls == map[] && id in states[k].flight.calls
    ensures BeginsCall(states, ops, i, k, id)
    decreases k
  {
    NextCall(states, ops, k - 1, id);
    if id in states[k - 1].flight.calls {
      i := CallBegun(states, ops, k - 1, id);
    } else {
      i := k - 1;
    }
  }

  /** The call that began is the call that waits, and a payout's reference was not recorded when it began. */
  lemma BegunUnrecorded(states: seq<Devnet>, ops: seq<ChainOp>, i: nat, k: nat, id: nat)
    requires Path(states, ops) && BeginsCall(states, ops, i, k, id)
    ensures Waits(states, i + 1, k, id) && states[k].flight.calls[id] == states[i + 1].flight.calls[id]
    ensures Paying(states[k], id) ==> RefOf(states[k], id) !in states[i].sim.paid
  {
    assert id in states[i + 1].flight.calls;
    assert states[i + 1] == Apply(states[i], ops[i]);
    CallAppears(states[i], ops[i], id);
    WaitsSame(states, ops, i + 1, k, id);
  }

  // ---- freezes ------------------------------------------------------------------------------------------------------

  /**
   * Whatever leaves a bucket that is frozen at that moment, or not in the table, over a run from rest, leaves a
   * replaced object of a call during which a batch was undone; and nothing does while the transfers are what live
   * buckets paid.
   */
  lemma RunHonoursFreezes(states: seq<Devnet>, ops: seq<ChainOp>, k: nat)
    requires Path(states, ops) && k < |ops| && AtRest(states[0])
    requires PaysNow(states[k], ops[k]) || ReleasesNow(states[k], ops[k])
    ensures var e := PaidMessage(states[k], ops[k]).escrowRef;
            e !in states[k].sim.buckets || states[k].sim.buckets[e].frozen ==>
              && PaysReplaced(states[k], ops[k])
              && exists i: nat, j: nat ::
                   BeginsCall(states, ops, i, k, ops[k].id) && i < j < k && Undoes(states[j], ops[j])
    ensures (forall j :: 0 <= j <= |ops| ==> Accounts(states[j])) ==>
              var e := PaidMessage(states[k], ops[k]).escrowRef;
              e in states[k].sim.buckets && !states[k].sim.buckets[e].frozen
  {
    if forall j :: 0 <= j <= |ops| ==> Accounts(states[j]) { RunAccounts(states, ops, |ops|); }
    if PaysNow(states[k], ops[k]) {
      var i := CallBegun(states, ops, k, ops[k].id);
      BegunUnrecorded(states, ops, i, k, ops[k].id);
      FrozenPaysNothing(states, ops, i + 1, k, ops[k].id, ops[k].auth);
    }
  }

  // ---- releases -----------------------------------------------------------------------------------------------------

  /** How many releases of a batch have passed their check. */
  function Tried(run: BatchRun): nat { if run.stage.Waiting? then run.done + 1 else run.done }

  /** Where a running batch stands after a step, seen from before it. */
  lemma BatchMoves(c: Devnet, op: ChainOp)
    requires c.sim.blocks != [] && Apply(c, op).flight.batch.Some?
    ensures var run' := Apply(c, op).flight.batch.value;
            if c.flight.batch.None? then Tried(run') == 0
            else
              var run := c.flight.batch.value;
              && run'.batch == run.batch
              && (Tried(run') <= Tried(run)
                  || (op.BeginRelease? && run.stage.Ready? && run.done < |run.batch| && run'.stage.Waiting?
                      && run'.done == run.done && CheckPayout(c.sim, run.batch[run.done].message).None?))
  {
    if op.Finish? && op.id in c.flight.calls {
      if PaysNow(c, op) { PayRecords(c, op.id, op.auth); } else { FreezeSilent(c, op.id, op.auth); }
    } else if op.FinishRelease? && c.flight.batch.Some? && !ReleasesNow(c, op) {
      RefusalSilent(c, op.auth);
    }
  }

  /** The n-th release passed its check by `k`, in a batch that is running there. */
  predicate IsTried(states: seq<Devnet>, k: nat, n: nat)
    requires k < |states|
  {
    states[k].flight.batch.Some? && n < Tried(states[k].flight.batch.value)
  }

  /** Seen from after step `j`, the n-th release was tried before it in the same batch, or the step begins it. */
  predicate TriedBefore(states: seq<Devnet>, ops: seq<ChainOp>, j: nat, n: nat)
    requires |states| == |ops| + 1 && j < |ops|
  {
    IsTried(states, j + 1, n) ==>
      && states[j].flight.batch.Some?
      && states[j + 1].flight.batch.value.batch == states[j].flight.batch.value.batch
      && (IsTried(states, j, n) || BeginsRelease(states, ops, j, j + 1, n))
  }

  lemma NextRelease(states: seq<Devnet>, ops: seq<ChainOp>, j: nat, n: nat)
    requires Path(states, ops) && j < |ops|
    ensures TriedBefore(states, ops, j, n)
  {
    if states[j + 1].flight.batch.Some? { BatchMoves(states[j], ops[j]); }
  }

  lemma StillRuns(states: seq<Devnet>, ops: seq<ChainOp>, i: nat, k: nat, n: nat)
    requires |states| == |ops| + 1 && k < |ops| && BeginsRelease(states, ops, i, k, n)
    requires states[k + 1].flight.batch.Some?
    requires states[k + 1].flight.batch.value.batch == states[k].flight.batch.value.batch
    ensures BeginsRelease(states, ops, i, k + 1, n)
  {
  }

  lemma {:induction false} TriedSince(states: seq<Devnet>, ops: seq<ChainOp>, k: nat, n: nat) returns (i: nat)
    requires |states| == |ops| + 1 && k < |states| && !IsTried(states, 0, n) && IsTried(states, k, n)
    requires forall j :: 0 <= j < k ==> TriedBefore(states, ops, j, n)
    ensures BeginsRelease(states, ops, i, k, n)
    decreases k
  {
    assert TriedBefore(states, ops, k - 1, n);
    if IsTried(states, k - 1, n) {
      i := TriedSince(states, ops, k - 1, n);
      StillRuns(states, ops, i, k - 1, n);
    } else {
      i := k - 1;
    }
  }

  /** Every release that passed its check did so somewhere in the run, with its batch running ever since. */
  lemma ReleaseBegun(states: seq<Devnet>, ops: seq<ChainOp>, k: nat, n: nat) returns (i: nat)
    requires Path(states, ops) && k < |states| && states[0].flight.batch.None? && IsTried(states, k, n)
    ensures BeginsRelease(states, ops, i, k, n)
  {
    forall j | 0 <= j < k ensures TriedBefore(states, ops, j, n) { NextRelease(states, ops, j, n); }
    i := TriedSince(states, ops, k, n);
  }

  lemma ReleaseUnrecorded(states: seq<Devnet>, ops: seq<ChainOp>, i: nat, k: nat, n: nat)
    requires Path(states, ops) && BeginsRelease(states, ops, i, k, n)
    ensures states[k].flight.batch.value.batch[n].message.payoutRef !in states[i].sim.paid
  {
    assert states[i + 1] == Apply(states[i], ops[i]);
  }

  /** The releases of a running batch that passed their check are under different references. */
  ghost predicate BatchDistinct(c: Devnet)
  {
    c.flight.batch.Some? ==>
      var run := c.flight.batch.value;
      forall n, m :: 0 <= n < m < Tried(run) && m < |run.batch| ==>
          run.batch[n].message.payoutRef != run.batch[m].message.payoutRef
  }

  lemma StepDistinct(c: Devnet, op: ChainOp)
    requires Kept(c) && BatchDistinct(c)
    ensures BatchDistinct(Apply(c, op))
  {
    if Apply(c, op).flight.batch.Some? { BatchMoves(c, op); }
  }

  lemma {:induction false} RunDistinct(states: seq<Devnet>, ops: seq<ChainOp>, k: nat)
    requires Path(states, ops) && k < |states| && AtRest(states[0])
    ensures BatchDistinct(states[k])
    decreases k
  {
    if k > 0 {
      RunDistinct(states, ops, k - 1);
      RunKeeps(states, ops, k - 1);
      StepDistinct(states[k - 1], ops[k - 1]);
    }
  }

  // ---- twice --------------------------------------------------------------------------------------------------------

  /** Every report has its check, before which the reference was not recorded. */
  lemma ReportIsChecked(states: seq<Devnet>, ops: seq<ChainOp>, k: nat, p: nat) returns (i: nat)
    requires Path(states, ops) && AtRest(states[0]) && k < |ops| && p in Reports(states[k], ops[k])
    ensures Checks(states, ops, i, k, p)
  {
    if PaysNow(states[k], ops[k]) {
      i := CallBegun(states, ops, k, ops[k].id);
    } else {
      var refs := RefsOf(states[k].flight.batch.value.batch);
      var n: nat :| n < |refs| && refs[n] == p;
      i := ReleaseBegun(states, ops, k, n);
    }
  }

  lemma CheckedUnrecorded(states: seq<Devnet>, ops: seq<ChainOp>, i: nat, k: nat, p: nat)
    requires Path(states, ops) && Checks(states, ops, i, k, p)
    ensures p !in states[i].sim.paid
  {
    if PaysNow(states[k], ops[k]) && BeginsCall(states, ops, i, k, ops[k].id) {
      BegunUnrecorded(states, ops, i, k, ops[k].id);
    } else {
      var n: nat :| BeginsRelease(states, ops, i, k, n) && states[k].flight.batch.value.batch[n].message.payoutRef == p;
      ReleaseUnrecorded(states, ops, i, k, n);
    }
  }

  /**
   * A report, of a single payout or of a batch, repeats an earlier one exactly if that one came after this payout had
   * passed its check, or came before and was lost with an undone batch.
   */
  lemma RepeatsExactly(states: seq<Devnet>, ops: seq<ChainOp>, i: nat, k: nat, p: nat)
    requires Path(states, ops) && Kept(states[0]) && Checks(states, ops, i, k, p)
    ensures Reported(states, ops, 0, k, p) <==> Reported(states, ops, i, k, p) || Lost(states, ops, i, p)
    ensures (forall m :: 0 <= m < i ==> !ForgetsRef(states[m], ops[m], p)) ==>
              (Reported(states, ops, 0, k, p) <==> Reported(states, ops, i, k, p))
  {
    CheckedUnrecorded(states, ops, i, k, p);
    ReportedExactly(states, ops, i, k, p);
  }

  // ---- once over whole runs -----------------------------------------------------------------------------------------

  predicate Distinct(s: seq<nat>) { forall i, j :: 0 <= i < j < |s| ==> s[i] != s[j] }

  function Flat(said: seq<seq<nat>>): seq<nat>
  {
    if said == [] then [] else Flat(said[..|said| - 1]) + said[|said| - 1]
  }

  predicate SaidBefore(said: seq<seq<nat>>, k: nat, p: nat)
    requires k <= |said|
  {
    exists j :: 0 <= j < k && p in said[j]
  }

  lemma {:induction false} FlatHas(said: seq<seq<nat>>, p: nat)
    ensures p in Flat(said) <==> SaidBefore(said, |said|, p)
  {
    if said != [] {
      var n := |said| - 1;
      FlatHas(said[..n], p);
      assert forall j :: 0 <= j < n ==> said[..n][j] == said[j];
      if SaidBefore(said[..n], n, p) {
        var j :| 0 <= j < n && p in said[..n][j];
        assert p in said[j];
      }
    }
  }

  lemma DistinctJoin(s: seq<nat>, t: seq<nat>)
    requires Distinct(t)
    ensures Distinct(s + t) <==> Distinct(s) && forall p :: p in t ==> p !in s
  {
    var all := s + t;
    assert forall i :: 0 <= i < |s| ==> all[i] == s[i];
    assert forall j :: 0 <= j < |t| ==> all[|s| + j] == t[j];
    if Distinct(all) {
      forall p | p in t ensures p !in s {
        var j :| 0 <= j < |t| && t[j] == p;
        assert forall i :: 0 <= i < |s| ==> all[i] != all[|s| + j];
      }
    }
    if Distinct(s) && forall p :: p in t ==> p !in s {
      forall i, j | 0 <= i < j < |all| ensures all[i] != all[j] {
        if i < |s| <= j { assert t[j - |s|] in t && s[i] in s; }
      }
    }
  }

  lemma {:induction false} FlatDistinct(said: seq<seq<nat>>)
    requires forall j :: 0 <= j < |said| ==> Distinct(said[j])
    ensures Distinct(Flat(said)) <==> forall j, p :: 0 <= j < |said| && p in said[j] ==> !SaidBefore(said, j, p)
  {
    if said != [] {
      var n := |said| - 1;
      var front := said[..n];
      FlatDistinct(front);
      DistinctJoin(Flat(front), said[n]);
      forall p ensures p in Flat(front) <==> SaidBefore(said, n, p) {
        FlatHas(front, p);
        SaidInFront(said, n, n, p);
      }
      forall j, p | 0 <= j < n
        ensures SaidBefore(front, j, p) <==> SaidBefore(said, j, p)
      {
        SaidInFront(said, n, j, p);
      }
    }
  }

  lemma SaidInFront(said: seq<seq<nat>>, n: nat, j: nat, p: nat)
    requires j <= n <= |said|
    ensures SaidBefore(said[..n], j, p) <==> SaidBefore(said, j, p)
  {
    assert forall i :: 0 <= i < n ==> said[..n][i] == said[i];
  }

  lemma {:induction false} FlatIs(lists: seq<seq<nat>>, said: seq<seq<nat>>)
    requires |lists| == |said| + 1 && lists[0] == []
    requires forall j :: 0 <= j < |said| ==> lists[j + 1] == lists[j] + said[j]
    ensures lists[|said|] == Flat(said)
  {
    if said != [] {
      var n := |said| - 1;
      assert forall j :: 0 <= j < n ==> lists[..n + 1][j + 1] == lists[..n + 1][j] + said[..n][j];
      FlatIs(lists[..n + 1], said[..n]);
      assert lists[..n + 1][n] == lists[n] && lists[n + 1] == lists[n] + said[n];
    }
  }

  function SaidOf(states: seq<Devnet>, ops: seq<ChainOp>, k: nat): (said: seq<seq<nat>>)
    requires |states| == |ops| + 1 && k <= |ops|
    ensures |said| == k && forall j :: 0 <= j < k ==> said[j] == Reports(states[j], ops[j])
  {
    seq(k, (j: nat) requires j < k => Reports(states[j], ops[j]))
  }

  lemma AcceptedIsFlat(states: seq<Devnet>, ops: seq<ChainOp>, k: nat)
    requires Path(states, ops) && AtRest(states[0]) && k < |states|
    ensures states[k].flight.accepted == Flat(SaidOf(states, ops, k))
  {
    var lists := seq(k + 1, (j: nat) requires j <= k && k < |states| => states[j].flight.accepted);
    assert forall j :: 0 <= j <= k ==> lists[j] == states[j].flight.accepted;
    forall j | 0 <= j < k
      ensures lists[j + 1] == lists[j] + SaidOf(states, ops, k)[j]
    {
      NextReports(states, ops, j);
    }
    FlatIs(lists, SaidOf(states, ops, k));
  }

  lemma ReportsDistinct(states: seq<Devnet>, ops: seq<ChainOp>, j: nat)
    requires Path(states, ops) && AtRest(states[0]) && j < |ops|
    ensures Distinct(Reports(states[j], ops[j]))
  {
    RunDistinct(states, ops, j);
  }

  lemma OnceIsNoRepeat(states: seq<Devnet>, ops: seq<ChainOp>, k: nat)
    requires Path(states, ops) && AtRest(states[0]) && k < |states|
    ensures Once(states[k]) <==>
            forall j, p :: 0 <= j < k && p in Reports(states[j], ops[j]) ==> !Reported(states, ops, 0, j, p)
  {
    var said := SaidOf(states, ops, k);
    AcceptedIsFlat(states, ops, k);
    forall j | 0 <= j < k ensures Distinct(said[j]) { ReportsDistinct(states, ops, j); }
    FlatDistinct(said);
    assert Once(states[k]) <==> Distinct(Flat(said));
    forall j, p | 0 <= j <= k
      ensures SaidBefore(said, j, p) <==> Reported(states, ops, 0, j, p)
    {
      SameSaid(states, ops, k, j, p);
    }
  }

  lemma SameSaid(states: seq<Devnet>, ops: seq<ChainOp>, k: nat, j: nat, p: nat)
    requires |states| == |ops| + 1 && j <= k <= |ops|
    ensures SaidBefore(SaidOf(states, ops, k), j, p) <==> Reported(states, ops, 0, j, p)
  {
    var said := SaidOf(states, ops, k);
    if SaidBefore(said, j, p) {
      var i :| 0 <= i < j && p in said[i];
      assert p in Reports(states[i], ops[i]);
    }
    if Reported(states, ops, 0, j, p) {
      var i :| 0 <= i < j && p in Reports(states[i], ops[i]);
      assert p in said[i];
    }
  }

  /**
   * Over a whole run from rest every reference is reported at most once exactly if no reported payout saw another
   * report of its reference between its own check and its own report, or had its reference lost with an undone batch
   * before.
   */
  lemma OnceExactly(states: seq<Devnet>, ops: seq<ChainOp>, k: nat)
    requires Path(states, ops) && AtRest(states[0]) && k < |states|
    ensures Once(states[k]) <==>
            forall i: nat, j: nat, p :: j < k && Checks(states, ops, i, j, p) ==>
              !Reported(states, ops, i, j, p) && !Lost(states, ops, i, p)
  {
    OnceIsNoRepeat(states, ops, k);
    forall i: nat, j: nat, p | j < k && Checks(states, ops, i, j, p)
      ensures p in Reports(states[j], ops[j])
      ensures Reported(states, ops, 0, j, p) <==> Reported(states, ops, i, j, p) || Lost(states, ops, i, p)
    {
      RepeatsExactly(states, ops, i, j, p);
    }
    forall j, p | 0 <= j < k && p in Reports(states[j], ops[j])
      ensures exists i: nat :: Checks(states, ops, i, j, p)
    {
      var i := ReportIsChecked(states, ops, j, p);
    }
  }

  /** When no batch is undone beside a completed payout, overlap is all that can repeat a report. */
  lemma OnceWithoutForgetting(states: seq<Devnet>, ops: seq<ChainOp>, k: nat)
    requires Path(states, ops) && AtRest(states[0]) && k < |states|
    requires forall j :: 0 <= j < k ==> !Forgets(states[j], ops[j])
    ensures Once(states[k]) <==>
            forall i: nat, j: nat, p :: j < k && Checks(states, ops, i, j, p) ==> !Reported(states, ops, i, j, p)
  {
    OnceExactly(states, ops, k);
    forall i: nat, j: nat, p | j < k && Checks(states, ops, i, j, p)
      ensures !Lost(states, ops, i, p)
    {
      CheckedUnrecorded(states, ops, i, j, p);
      NothingLost(states, ops, i, k, p);
    }
  }

  lemma NothingLost(states: seq<Devnet>, ops: seq<ChainOp>, i: nat, k: nat, p: nat)
    requires Path(states, ops) && AtRest(states[0]) && i <= k < |states| && p !in states[i].sim.paid
    requires forall j :: 0 <= j < k ==> !Forgets(states[j], ops[j])
    ensures !Lost(states, ops, i, p)
  {
    RunRemembers(states, ops, k);
    assert Remembered(states[i]);
    AcceptedIsFlat(states, ops, i);
    FlatHas(SaidOf(states, ops, i), p);
    SameSaid(states, ops, i, i, p);
    assert !Reported(states, ops, 0, i, p);
  }
}
