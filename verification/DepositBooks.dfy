/**
 * What every transaction on the deposit and intent tables keeps (src/modules/crypto/deposits.ts, commands.ts): rows
 * that tell what the chain said, one credit per intent, one open intent per order, and exact amounts.
 */
module DepositBooks {
  import opened Common
  import opened SimChain
  import opened DepositRules
  import Registry

  /** The content of a transaction, the same at each inclusion. */
  datatype Body = Body(success: bool, logs: seq<Entry>)

  type Txs = map<Hash, Body>

  /** `key` names a `Funded` log of the settlement contract in a known transaction, with these arguments. */
  ghost predicate Emitted(net: Network, txs: Txs, key: Key, funded: Funded)
  {
    && key.tx in txs && key.logIndex < |txs[key.tx].logs|
    && txs[key.tx].logs[key.logIndex] == Entry(net.settlement, Some(funded))
  }

  // ------------------------------------------------------------------------------------------------------------
  // The invariant

  /** The deposit is in a registered, allowlisted asset of this network. */
  predicate InAsset(net: Network, funded: Funded, asset: Option<nat>)
  {
    && asset.Some? && funded.token in net.tokens && net.tokens[funded.token] == asset.value
    && asset.value in net.assets && net.assets[asset.value].allowlisted
  }

  /** It is what the intent asks for: chain, escrow, balance and decimals, amount, and sender if one was named. */
  predicate Fulfils(net: Network, intent: Intent, funded: Funded, asset: nat)
  {
    && intent.chainId == net.chainId && funded.escrowRef == OrderEscrow(intent.order)
    && intent.asset in net.assets && asset in net.assets
    && net.assets[intent.asset].balanceKey == net.assets[asset].balanceKey
    && net.assets[intent.asset].decimals == net.assets[asset].decimals
    && funded.amount == intent.amount && (intent.payer.Some? ==> intent.payer.value == funded.payer)
  }

  /** It is what the pool's intent asks for: chain, escrow, asset and amount. */
  predicate FulfilsPool(net: Network, intent: PoolIntent, funded: Funded, asset: nat)
  {
    && intent.chainId == net.chainId && funded.escrowRef == PoolEscrow(intent.pool, intent.poolAsset)
    && intent.asset == asset && funded.amount == intent.amount
  }

  ghost predicate RowSound(net: Network, txs: Txs, b: Books, k: Key)
    requires k in b.deposits
  {
    var row := b.deposits[k];
    && Emitted(net, txs, k, row.funded)
    && (row.intent.Some? ==> row.intent == FindIntent(b, row.funded.reference))
    && (row.poolIntent.Some? ==> row.poolIntent == FindPoolIntent(b, row.funded.reference))
    && (row.status.PendingRow? || row.status.CreditedRow? ==> row.intent.Some? || row.poolIntent.Some?)
    && (row.status.CreditedRow? ==> InAsset(net, row.funded, row.asset))
    && (row.status.CreditedRow? && row.intent.Some? ==>
          Fulfils(net, b.intents[row.intent.value], row.funded, row.asset.value))
    && (row.status.CreditedRow? && row.poolIntent.Some? ==>
          FulfilsPool(net, b.poolIntents[row.poolIntent.value], row.funded, row.asset.value))
  }

  ghost predicate RowsSound(net: Network, txs: Txs, b: Books)
  {
    forall k :: k in b.deposits ==> RowSound(net, txs, b, k)
  }

  ghost predicate SameCredit(b: Books, k: Key, l: Key)
    requires k in b.deposits && l in b.deposits
  {
    && b.deposits[k].status == CreditedRow && b.deposits[l].status == CreditedRow
    && (|| (b.deposits[k].intent.Some? && b.deposits[k].intent == b.deposits[l].intent)
        || (b.deposits[k].poolIntent.Some? && b.deposits[k].poolIntent == b.deposits[l].poolIntent))
  }

  /** One credit per intent, of either kind. */
  ghost predicate OneCreditEach(b: Books)
  {
    forall k, l :: k in b.deposits && l in b.deposits && SameCredit(b, k, l) ==> k == l
  }

  ghost predicate HasRow(b: Books, i: nat, status: RowStatus)
  {
    exists k :: k in b.deposits && b.deposits[k].intent == Some(i) && b.deposits[k].status == status
  }

  ghost predicate HasPoolRow(b: Books, i: nat, status: RowStatus)
  {
    exists k :: k in b.deposits && b.deposits[k].poolIntent == Some(i) && b.deposits[k].status == status
  }

  /** A confirming intent has a pending row, a confirmed one a credited row, and a credited one is never open again. */
  ghost predicate StatusesBacked(b: Books)
  {
    && (forall i :: 0 <= i < |b.intents| ==> BackedAt(b, i))
    && (forall i :: 0 <= i < |b.poolIntents| ==> PoolBackedAt(b, i))
  }

  ghost predicate OneOpenEach(b: Books)
  {
    && (forall i, j ::
          0 <= i < j < |b.intents| && b.intents[i].order == b.intents[j].order && Open(b.intents[i].status) ==>
            !Open(b.intents[j].status))
    && (forall i, j ::
          0 <= i < j < |b.intents| && b.intents[i].order == b.intents[j].order && b.intents[i].status == Confirmed ==>
            b.intents[j].status != Confirmed)
  }

  /** Each intent asks for exactly its order's amount, in an asset with cents. */
  ghost predicate Exact(net: Network, b: Books)
  {
    forall i :: 0 <= i < |b.intents| ==>
      && b.intents[i].asset in net.assets && net.assets[b.intents[i].asset].decimals >= 2
      && b.intents[i].amount == Registry.UsdMinorToAtomic(b.intents[i].orderMinor,
          net.assets[b.intents[i].asset].decimals)
  }

  /** The funding calls are the credited order rows, once each, with the order's own amount. */
  ghost predicate FundingsMatch(b: Books)
  {
    && (forall n :: 0 <= n < |b.fundings| ==>
          var f := b.fundings[n];
          && f.key in b.deposits && b.deposits[f.key].status == CreditedRow
          && b.deposits[f.key].intent == Some(f.intent)
          && f.amountAtomic == b.deposits[f.key].funded.amount
          && f.intent < |b.intents| && f.amountMinor == b.intents[f.intent].orderMinor)
    && (forall n, m :: 0 <= n < m < |b.fundings| ==> b.fundings[n].key != b.fundings[m].key)
    && (forall k :: k in b.deposits && b.deposits[k].status == CreditedRow && b.deposits[k].intent.Some? ==>
        Funds(b, k))
  }

  /** The pool movements are the credited pool rows, once each, with the deposited amount. */
  ghost predicate MovesMatch(b: Books)
  {
    && (forall n :: 0 <= n < |b.poolMoves| ==>
          var m := b.poolMoves[n];
          && m.key in b.deposits && b.deposits[m.key].status == CreditedRow
          && b.deposits[m.key].poolIntent == Some(m.poolIntent)
          && m.amountAtomic == b.deposits[m.key].funded.amount)
    && (forall n, m :: 0 <= n < m < |b.poolMoves| ==> b.poolMoves[n].key != b.poolMoves[m].key)
    && (forall k :: k in b.deposits && b.deposits[k].status == CreditedRow && b.deposits[k].poolIntent.Some? ==>
        Moves(b, k))
  }

  ghost predicate Funds(b: Books, k: Key) { exists n :: 0 <= n < |b.fundings| && b.fundings[n].key == k }
  ghost predicate Moves(b: Books, k: Key) { exists n :: 0 <= n < |b.poolMoves| && b.poolMoves[n].key == k }

  /** The part that does not look at intent statuses. */
  ghost predicate Recorded(net: Network, txs: Txs, b: Books)
  {
    RowsSound(net, txs, b) && OneCreditEach(b) && Exact(net, b) && FundingsMatch(b) && MovesMatch(b)
  }

  ghost predicate BooksInv(net: Network, txs: Txs, b: Books)
  {
    Recorded(net, txs, b) && StatusesBacked(b) && OneOpenEach(b)
  }

  // ------------------------------------------------------------------------------------------------------------
  // The order of history

  /** Rows are never removed, keep their event, and never change once terminal; intents only change their status. */
  ghost predicate Grows(b: Books, b': Books)
  {
    && (forall k :: k in b.deposits ==>
          && k in b'.deposits && b'.deposits[k].funded == b.deposits[k].funded
          && (b.deposits[k].status != PendingRow ==> b'.deposits[k] == b.deposits[k]))
    && |b.intents| <= |b'.intents|
    && (forall i :: 0 <= i < |b.intents| ==>
          && b'.intents[i] == b.intents[i].(status := b'.intents[i].status)
          && (b.intents[i].status == Confirmed ==> b'.intents[i].status == Confirmed)
          && (Open(b'.intents[i].status) ==> Open(b.intents[i].status)))
    && |b.poolIntents| <= |b'.poolIntents|
    && (forall i :: 0 <= i < |b.poolIntents| ==>
          && b'.poolIntents[i] == b.poolIntents[i].(status := b'.poolIntents[i].status)
          && (b.poolIntents[i].status == Confirmed ==> b'.poolIntents[i].status == Confirmed))
    && b.fundings <= b'.fundings && b.poolMoves <= b'.poolMoves && b.cases <= b'.cases
    && (b.checkpoint.Some? ==> b'.checkpoint.Some? && b.checkpoint.value <= b'.checkpoint.value)
  }

  /** A known transaction keeps its body, so what was emitted stays emitted. */
  lemma MoreTxs(net: Network, txs: Txs, txs': Txs, b: Books)
    requires BooksInv(net, txs, b)
    requires forall t :: t in txs ==> t in txs' && txs'[t] == txs[t]
    ensures BooksInv(net, txs', b)
  {
  }

  // ------------------------------------------------------------------------------------------------------------
  // Each change keeps it

  /** The same rows and calls, and intents that differ in status only. */
  ghost predicate OnlyStatuses(b: Books, b': Books)
  {
    && b'.deposits == b.deposits && b'.fundings == b.fundings && b'.poolMoves == b.poolMoves
    && |b'.intents| == |b.intents| && |b'.poolIntents| == |b.poolIntents|
    && (forall i :: 0 <= i < |b.intents| ==> b'.intents[i] == b.intents[i].(status := b'.intents[i].status))
    && forall i :: 0 <= i < |b.poolIntents| ==>
        b'.poolIntents[i] == b.poolIntents[i].(status := b'.poolIntents[i].status)
  }

  lemma StatusesDoNotMatter(net: Network, txs: Txs, b: Books, b': Books)
    requires Recorded(net, txs, b) && OnlyStatuses(b, b')
    ensures Recorded(net, txs, b')
  {
    forall k | k in b'.deposits ensures RowSound(net, txs, b', k) { assert RowSound(net, txs, b, k); }
    forall k, l | k in b'.deposits && l in b'.deposits && SameCredit(b', k, l)
      ensures k == l
    {
      assert SameCredit(b, k, l);
    }
    forall k | k in b'.deposits && b'.deposits[k].status == CreditedRow && b'.deposits[k].intent.Some?
      ensures Funds(b', k)
    {
      assert Funds(b, k);
    }
    forall k | k in b'.deposits && b'.deposits[k].status == CreditedRow && b'.deposits[k].poolIntent.Some?
      ensures Moves(b', k)
    {
      assert Moves(b, k);
    }
  }

  /** Writing an uncredited row where there was none, or a pending one. */
  lemma PutKeepsRecorded(net: Network, txs: Txs, b: Books, key: Key, row: Row)
    requires Recorded(net, txs, b) && !Terminal(b, key) && row.status != CreditedRow
    requires RowSound(net, txs, b.(deposits := b.deposits[key := row]), key)
    ensures Recorded(net, txs, b.(deposits := b.deposits[key := row]))
  {
    var b' := b.(deposits := b.deposits[key := row]);
    forall k | k in b'.deposits ensures RowSound(net, txs, b', k) { if k != key { assert RowSound(net, txs, b, k); } }
    forall k, l | k in b'.deposits && l in b'.deposits && SameCredit(b', k, l)
      ensures k == l
    {
      assert SameCredit(b, k, l);
    }
    forall k | k in b'.deposits && b'.deposits[k].status == CreditedRow && b'.deposits[k].intent.Some?
      ensures Funds(b', k)
    {
      assert Funds(b, k);
    }
    forall k | k in b'.deposits && b'.deposits[k].status == CreditedRow && b'.deposits[k].poolIntent.Some?
      ensures Moves(b', k)
    {
      assert Moves(b, k);
    }
  }

  lemma CreditKeepsRecorded(net: Network, txs: Txs, b: Books, row: Row, call: FundingCall)
    requires Recorded(net, txs, b) && !Terminal(b, call.key) && row.status == CreditedRow
    requires row.intent == Some(call.intent) && row.poolIntent.None? && !CreditedFor(b, call.intent)
    requires RowSound(net, txs, b.(deposits := b.deposits[call.key := row]), call.key)
    requires call.amountAtomic == row.funded.amount && call.intent < |b.intents|
             && call.amountMinor == b.intents[call.intent].orderMinor
    ensures Recorded(net, txs, b.(deposits := b.deposits[call.key := row], fundings := b.fundings + [call]))
  {
    var b' := b.(deposits := b.deposits[call.key := row], fundings := b.fundings + [call]);
    forall k | k in b'.deposits ensures RowSound(net, txs, b', k) {
      if k != call.key { assert RowSound(net, txs, b, k); }
      assert RowSound(net, txs, b.(deposits := b.deposits[call.key := row]), call.key);
    }
    forall k, l | k in b'.deposits && l in b'.deposits && SameCredit(b', k, l) ensures k == l {
      if k != call.key && l != call.key { assert SameCredit(b, k, l); }
    }
    CreditFundings(b, row, call);
    forall k | k in b'.deposits && b'.deposits[k].status == CreditedRow && b'.deposits[k].poolIntent.Some?
      ensures Moves(b', k)
    {
      assert Moves(b, k);
    }
  }

  lemma CreditFundings(b: Books, row: Row, call: FundingCall)
    requires FundingsMatch(b) && !Terminal(b, call.key) && row.status == CreditedRow && row.intent == Some(call.intent)
    requires call.amountAtomic == row.funded.amount && call.intent < |b.intents|
             && call.amountMinor == b.intents[call.intent].orderMinor
    ensures FundingsMatch(b.(deposits := b.deposits[call.key := row], fundings := b.fundings + [call]))
  {
    var b' := b.(deposits := b.deposits[call.key := row], fundings := b.fundings + [call]);
    forall k | k in b'.deposits && b'.deposits[k].status == CreditedRow && b'.deposits[k].intent.Some?
      ensures Funds(b', k)
    {
      if k == call.key {
        assert b'.fundings[|b.fundings|].key == k;
      } else {
        assert Funds(b, k);
        var n :| 0 <= n < |b.fundings| && b.fundings[n].key == k;
        assert b'.fundings[n].key == k;
      }
    }
  }

  lemma CreditPoolKeepsRecorded(net: Network, txs: Txs, b: Books, row: Row, move: PoolMove)
    requires Recorded(net, txs, b) && !Terminal(b, move.key) && row.status == CreditedRow
    requires row.poolIntent == Some(move.poolIntent) && row.intent.None? && !CreditedForPool(b, move.poolIntent)
    requires RowSound(net, txs, b.(deposits := b.deposits[move.key := row]), move.key)
    requires move.amountAtomic == row.funded.amount
    ensures Recorded(net, txs, b.(deposits := b.deposits[move.key := row], poolMoves := b.poolMoves + [move]))
  {
    var b' := b.(deposits := b.deposits[move.key := row], poolMoves := b.poolMoves + [move]);
    forall k | k in b'.deposits ensures RowSound(net, txs, b', k) {
      if k != move.key { assert RowSound(net, txs, b, k); }
      assert RowSound(net, txs, b.(deposits := b.deposits[move.key := row]), move.key);
    }
    forall k, l | k in b'.deposits && l in b'.deposits && SameCredit(b', k, l) ensures k == l {
      if k != move.key && l != move.key { assert SameCredit(b, k, l); }
    }
    forall k | k in b'.deposits && b'.deposits[k].status == CreditedRow && b'.deposits[k].intent.Some?
      ensures Funds(b', k)
    {
      assert Funds(b, k);
    }
    forall k | k in b'.deposits && b'.deposits[k].status == CreditedRow && b'.deposits[k].poolIntent.Some?
      ensures Moves(b', k)
    {
      if k == move.key {
        assert b'.poolMoves[|b.poolMoves|].key == k;
      } else {
        assert Moves(b, k);
        var n :| 0 <= n < |b.poolMoves| && b.poolMoves[n].key == k;
        assert b'.poolMoves[n].key == k;
      }
    }
  }

  ghost predicate At(b: Books, key: Key, i: nat, s: RowStatus)
  {
    key in b.deposits && b.deposits[key].intent == Some(i) && b.deposits[key].status == s
  }
  ghost predicate PoolAt(b: Books, key: Key, i: nat, s: RowStatus)
  {
    key in b.deposits && b.deposits[key].poolIntent == Some(i) && b.deposits[key].status == s
  }

  lemma RowsKept(b: Books, b': Books, key: Key, i: nat, s: RowStatus)
    requires forall k :: k in b.deposits && k != key ==> k in b'.deposits && b'.deposits[k] == b.deposits[k]
    ensures HasRow(b, i, s) && !At(b, key, i, s) ==> HasRow(b', i, s)
    ensures HasPoolRow(b, i, s) && !PoolAt(b, key, i, s) ==> HasPoolRow(b', i, s)
  {
    if HasRow(b, i, s) && !At(b, key, i, s) {
      var k :| k in b.deposits && b.deposits[k].intent == Some(i) && b.deposits[k].status == s;
      assert k in b'.deposits && b'.deposits[k] == b.deposits[k];
    }
    if HasPoolRow(b, i, s) && !PoolAt(b, key, i, s) {
      var k :| k in b.deposits && b.deposits[k].poolIntent == Some(i) && b.deposits[k].status == s;
      assert k in b'.deposits && b'.deposits[k] == b.deposits[k];
    }
  }

  /** The status `s` of intent `i` may follow `s0`: rows back it. */
  ghost predicate BackedAt(b: Books, i: nat)
    requires i < |b.intents|
  {
    && (b.intents[i].status == PendingFinality ==> HasRow(b, i, PendingRow))
    && (b.intents[i].status == Confirmed ==> HasRow(b, i, CreditedRow))
    && (HasRow(b, i, CreditedRow) ==> b.intents[i].status == Confirmed || b.intents[i].status == Exceptional)
  }

  ghost predicate PoolBackedAt(b: Books, i: nat)
    requires i < |b.poolIntents|
  {
    && (b.poolIntents[i].status == PendingFinality ==> HasPoolRow(b, i, PendingRow))
    && (b.poolIntents[i].status == Confirmed <==> HasPoolRow(b, i, CreditedRow))
  }

  /** A row of another intent is no row of this one. */
  ghost predicate AwayFrom(b: Books, key: Key, i: nat) { key in b.deposits ==> b.deposits[key].intent != Some(i) }
  ghost predicate PoolAwayFrom(b: Books, key: Key, i: nat)
  {
    key in b.deposits ==> b.deposits[key].poolIntent != Some(i)
  }

  lemma Elsewhere(b: Books, b': Books, key: Key, i: nat)
    requires OnlyRowDiffers(b, b', key) && AwayFrom(b, key, i) && AwayFrom(b', key, i)
    ensures forall s :: HasRow(b', i, s) <==> HasRow(b, i, s)
  {
    forall s ensures HasRow(b', i, s) <==> HasRow(b, i, s) {
      RowsKept(b, b', key, i, s);
      RowsKept(b', b, key, i, s);
    }
  }

  lemma PoolElsewhere(b: Books, b': Books, key: Key, i: nat)
    requires OnlyRowDiffers(b, b', key) && PoolAwayFrom(b, key, i) && PoolAwayFrom(b', key, i)
    ensures forall s :: HasPoolRow(b', i, s) <==> HasPoolRow(b, i, s)
  {
    forall s ensures HasPoolRow(b', i, s) <==> HasPoolRow(b, i, s) {
      RowsKept(b, b', key, i, s);
      RowsKept(b', b, key, i, s);
    }
  }

  ghost predicate OnlyRowDiffers(b: Books, b': Books, key: Key)
  {
    && (forall k :: k in b.deposits && k != key ==> k in b'.deposits && b'.deposits[k] == b.deposits[k])
    && (forall k :: k in b'.deposits && k != key ==> k in b.deposits)
  }

  /** Only the row `key`, and the statuses of the intents it belongs to, may differ. */
  ghost predicate Local(b: Books, b': Books, key: Key, i: Option<nat>, p: Option<nat>)
  {
    && OnlyRowDiffers(b, b', key)
    && |b'.intents| == |b.intents| && |b'.poolIntents| == |b.poolIntents|
    && (forall j :: 0 <= j < |b.intents| && i != Some(j) ==>
        b'.intents[j] == b.intents[j] && AwayFrom(b, key, j) && AwayFrom(b', key, j))
    && (forall j :: 0 <= j < |b.poolIntents| && p != Some(j) ==>
        b'.poolIntents[j] == b.poolIntents[j] && PoolAwayFrom(b, key, j) && PoolAwayFrom(b', key, j))
    && (i.Some? ==>
          && i.value < |b.intents| && b'.intents[i.value] == b.intents[i.value].(status := b'.intents[i.value].status)
          && (b.intents[i.value].status == Confirmed ==> b'.intents[i.value].status == Confirmed)
          && (Open(b'.intents[i.value].status) ==> Open(b.intents[i.value].status)))
    && (p.Some? ==>
          && p.value < |b.poolIntents|
          && b'.poolIntents[p.value] == b.poolIntents[p.value].(status := b'.poolIntents[p.value].status)
          && (b.poolIntents[p.value].status == Confirmed ==> b'.poolIntents[p.value].status == Confirmed))
    && (key in b.deposits ==>
          && key in b'.deposits && b'.deposits[key].funded == b.deposits[key].funded
          && (b.deposits[key].status != PendingRow ==> b'.deposits[key] == b.deposits[key]))
    && b.fundings <= b'.fundings && b.poolMoves <= b'.poolMoves && b.cases <= b'.cases
    && b'.checkpoint == b.checkpoint
  }

  lemma LocalBacked(b: Books, b': Books, key: Key, i: Option<nat>, p: Option<nat>)
    requires StatusesBacked(b) && Local(b, b', key, i, p)
    requires i.Some? ==> BackedAt(b', i.value)
    requires p.Some? ==> PoolBackedAt(b', p.value)
    ensures StatusesBacked(b')
  {
    forall j: nat | j < |b'.intents| ensures BackedAt(b', j) {
      if i != Some(j) { Elsewhere(b, b', key, j); assert BackedAt(b, j); }
    }
    forall j: nat | j < |b'.poolIntents| ensures PoolBackedAt(b', j) {
      if p != Some(j) { PoolElsewhere(b, b', key, j); assert PoolBackedAt(b, j); }
    }
  }

  lemma LocalOpen(b: Books, b': Books, key: Key, i: Option<nat>, p: Option<nat>)
    requires OneOpenEach(b) && Local(b, b', key, i, p)
    requires i.Some? && b'.intents[i.value].status == Confirmed ==>
        b.intents[i.value].status == Confirmed || !ConfirmedElsewhere(b, i.value)
    ensures OneOpenEach(b')
  {
  }

  lemma LocalGrows(b: Books, b': Books, key: Key, i: Option<nat>, p: Option<nat>)
    requires Local(b, b', key, i, p)
    ensures Grows(b, b')
  {
  }

  /** A local change keeps the books in order if the rows keep their word and back the statuses it touches. */
  lemma LocalKeeps(net: Network, txs: Txs, b: Books, b': Books, key: Key, i: Option<nat>, p: Option<nat>)
    requires BooksInv(net, txs, b) && Recorded(net, txs, b') && Local(b, b', key, i, p)
    requires i.Some? ==> BackedAt(b', i.value)
    requires p.Some? ==> PoolBackedAt(b', p.value)
    requires i.Some? && b'.intents[i.value].status == Confirmed ==>
        b.intents[i.value].status == Confirmed || !ConfirmedElsewhere(b, i.value)
    ensures BooksInv(net, txs, b') && Grows(b, b')
  {
    LocalBacked(b, b', key, i, p);
    LocalOpen(b, b', key, i, p);
    LocalGrows(b, b', key, i, p);
  }

  // ------------------------------------------------------------------------------------------------------------
  // Each transaction

  ghost predicate EventKnown(net: Network, txs: Txs, ev: Event) { Emitted(net, txs, ev.key, ev.funded) }

  /** The row of an event, if there is one, belongs to the intents its reference names and to no other. */
  ghost predicate Owned(b: Books, ev: Event)
  {
    ev.key in b.deposits ==>
      var row := b.deposits[ev.key];
      && row.funded == ev.funded
      && (row.intent.Some? ==> row.intent == FindIntent(b, ev.funded.reference))
      && (row.poolIntent.Some? ==> row.poolIntent == FindPoolIntent(b, ev.funded.reference))
      && (row.status.PendingRow? || row.status.CreditedRow? ==> row.intent.Some? || row.poolIntent.Some?)
  }

  lemma EventOwned(net: Network, txs: Txs, b: Books, ev: Event)
    requires RowsSound(net, txs, b) && EventKnown(net, txs, ev)
    ensures Owned(b, ev)
  {
    if ev.key in b.deposits { assert RowSound(net, txs, b, ev.key); }
  }

  /** Inserting a rejected row gives no intent a pending or credited one. */
  lemma SameRows(b: Books, b': Books, key: Key, i: nat)
    requires OnlyRowDiffers(b, b', key) && key in b'.deposits
    requires if key in b.deposits then b'.deposits[key] == b.deposits[key] else b'.deposits[key].status == RejectedRow
    ensures forall s :: s == PendingRow || s == CreditedRow ==> (HasRow(b', i, s) <==> HasRow(b, i, s))
    ensures forall s :: s == PendingRow || s == CreditedRow ==> (HasPoolRow(b', i, s) <==> HasPoolRow(b, i, s))
  {
    RowsKept(b, b', key, i, PendingRow);
    RowsKept(b, b', key, i, CreditedRow);
    RowsKept(b', b, key, i, PendingRow);
    RowsKept(b', b, key, i, CreditedRow);
  }

  lemma RejectionLocal(b: Books, ev: Event, intent: Option<nat>, asset: Option<nat>, reason: Reason)
    requires Owned(b, ev) && intent == FindIntent(b, ev.funded.reference)
    ensures Local(b, RecordRejection(b, ev, intent, asset, reason).books, ev.key, intent,
        FindPoolIntent(b, ev.funded.reference))
  {
  }

  lemma RejectionKeeps(net: Network, txs: Txs, b: Books, ev: Event, intent: Option<nat>, asset: Option<nat>,
      reason: Reason)
    requires BooksInv(net, txs, b) && EventKnown(net, txs, ev) && intent == FindIntent(b, ev.funded.reference)
    ensures BooksInv(net, txs, RecordRejection(b, ev, intent, asset, reason).books)
    ensures Grows(b, RecordRejection(b, ev, intent, asset, reason).books)
    ensures ev.key in b.deposits ==> RecordRejection(b, ev, intent, asset, reason).books.deposits == b.deposits
  {
    var b' := RecordRejection(b, ev, intent, asset, reason).books;
    var pool := FindPoolIntent(b, ev.funded.reference);
    RejectionRecorded(net, txs, b, ev, intent, asset, reason);
    EventOwned(net, txs, b, ev);
    RejectionLocal(b, ev, intent, asset, reason);
    RejectionBacked(b, ev, intent, asset, reason);
    LocalKeeps(net, txs, b, b', ev.key, intent, pool);
  }

  lemma RejectionRecorded(net: Network, txs: Txs, b: Books, ev: Event, intent: Option<nat>, asset: Option<nat>,
      reason: Reason)
    requires Recorded(net, txs, b) && EventKnown(net, txs, ev) && intent == FindIntent(b, ev.funded.reference)
    ensures Recorded(net, txs, RecordRejection(b, ev, intent, asset, reason).books)
  {
    var row := NewRow(ev, asset, intent, None, RejectedRow, Some(reason));
    if ev.key !in b.deposits { PutKeepsRecorded(net, txs, b, ev.key, row); }
    StatusesDoNotMatter(net, txs, InsertIfAbsent(b, ev.key, row), RecordRejection(b, ev, intent, asset, reason).books);
  }

  lemma RejectionBacked(b: Books, ev: Event, intent: Option<nat>, asset: Option<nat>, reason: Reason)
    requires StatusesBacked(b) && intent == FindIntent(b, ev.funded.reference)
    requires Local(b, RecordRejection(b, ev, intent, asset, reason).books, ev.key, intent,
                   FindPoolIntent(b, ev.funded.reference))
    ensures var b', pool := RecordRejection(b, ev, intent, asset, reason).books, FindPoolIntent(b, ev.funded.reference);
            (intent.Some? ==> BackedAt(b', intent.value)) && (pool.Some? ==> PoolBackedAt(b', pool.value))
  {
    var b', pool := RecordRejection(b, ev, intent, asset, reason).books, FindPoolIntent(b, ev.funded.reference);
    if intent.Some? {
      assert BackedAt(b, intent.value);
      SameRows(b, b', ev.key, intent.value);
    }
    if pool.Some? {
      assert PoolBackedAt(b, pool.value);
      SameRows(b, b', ev.key, pool.value);
    }
  }

  lemma RejectPoolLocal(b: Books, ev: Event, p: nat, asset: nat, reason: Reason)
    requires Owned(b, ev) && FindPoolIntent(b, ev.funded.reference) == Some(p)
    ensures Local(b, RejectPool(b, ev, p, asset, reason).books, ev.key, None, Some(p))
  {
  }

  lemma RejectPoolKeeps(net: Network, txs: Txs, b: Books, ev: Event, p: nat, asset: nat, reason: Reason)
    requires BooksInv(net, txs, b) && EventKnown(net, txs, ev) && FindPoolIntent(b, ev.funded.reference) == Some(p)
    ensures BooksInv(net, txs, RejectPool(b, ev, p, asset, reason).books)
            && Grows(b, RejectPool(b, ev, p, asset, reason).books)
  {
    var b' := RejectPool(b, ev, p, asset, reason).books;
    var row := NewRow(ev, Some(asset), None, Some(p), RejectedRow, Some(reason));
    assert Recorded(net, txs, b') by {
      if ev.key !in b.deposits {
        PutKeepsRecorded(net, txs, b, ev.key, row);
      }
      StatusesDoNotMatter(net, txs, InsertIfAbsent(b, ev.key, row), b');
    }
    EventOwned(net, txs, b, ev);
    RejectPoolLocal(b, ev, p, asset, reason);
    assert PoolBackedAt(b, p);
    SameRows(b, b', ev.key, p);
    LocalKeeps(net, txs, b, b', ev.key, None, Some(p));
  }

  lemma HoldOrderLocal(b: Books, ev: Event, i: nat, asset: nat)
    requires Owned(b, ev) && FindIntent(b, ev.funded.reference) == Some(i) && !Terminal(b, ev.key)
    ensures Local(b, HoldOrder(b, ev, i, asset).books, ev.key, Some(i), None)
  {
  }

  lemma HoldOrderKeeps(net: Network, txs: Txs, b: Books, ev: Event, i: nat, asset: nat)
    requires BooksInv(net, txs, b) && EventKnown(net, txs, ev) && FindIntent(b, ev.funded.reference) == Some(i)
    requires !Terminal(b, ev.key) && !CreditedFor(b, i)
    ensures BooksInv(net, txs, HoldOrder(b, ev, i, asset).books) && Grows(b, HoldOrder(b, ev, i, asset).books)
  {
    var b' := HoldOrder(b, ev, i, asset).books;
    var row := b'.deposits[ev.key];
    EventOwned(net, txs, b, ev);
    assert Recorded(net, txs, b') by {
      PutKeepsRecorded(net, txs, b, ev.key, row);
      StatusesDoNotMatter(net, txs, b.(deposits := b.deposits[ev.key := row]), b');
    }
    HoldOrderLocal(b, ev, i, asset);
    assert BackedAt(b, i);
    assert HasRow(b', i, PendingRow);
    RowsKept(b', b, ev.key, i, CreditedRow);
    LocalKeeps(net, txs, b, b', ev.key, Some(i), None);
  }

  /** The amount passed on is the order's own, so a deposit that got this far is never refused as inexact. */
  lemma CreditIsExact(net: Network, b: Books, ev: Event, i: nat, asset: nat)
    requires Exact(net, b) && i < |b.intents| && asset in net.assets && OrderObjection(net, b, ev, i, asset).None?
    ensures net.assets[asset].decimals >= 2
    ensures Registry.AtomicToUsdMinor(ev.funded.amount, net.assets[asset].decimals) == Some(b.intents[i].orderMinor)
  {
    Registry.CentExact(ev.funded.amount, b.intents[i].orderMinor, net.assets[asset].decimals);
  }

  lemma CreditOrderKeeps(net: Network, txs: Txs, b: Books, ev: Event, i: nat, asset: nat, funding: FundingResult)
    requires BooksInv(net, txs, b) && EventKnown(net, txs, ev) && FindIntent(b, ev.funded.reference) == Some(i)
    requires !Terminal(b, ev.key) && asset in net.assets && OrderObjection(net, b, ev, i, asset).None?
    requires InAsset(net, ev.funded, Some(asset))
    requires CreditOrder(net, b, ev, i, asset, funding).Done?
    ensures BooksInv(net, txs, CreditOrder(net, b, ev, i, asset, funding).books)
            && Grows(b, CreditOrder(net, b, ev, i, asset, funding).books)
  {
    CreditIsExact(net, b, ev, i, asset);
    var b' := CreditOrder(net, b, ev, i, asset, funding).books;
    var row, call := b'.deposits[ev.key], FundingCall(ev.key, i, b.intents[i].orderMinor, ev.funded.amount);
    EventOwned(net, txs, b, ev);
    assert Recorded(net, txs, b') by {
      CreditKeepsRecorded(net, txs, b, row, call);
      StatusesDoNotMatter(net, txs, b.(deposits := b.deposits[ev.key := row], fundings := b.fundings + [call]), b');
    }
    assert BackedAt(b, i);
    assert HasRow(b', i, CreditedRow);
    assert b.intents[i].status != Confirmed;
    LocalKeeps(net, txs, b, b', ev.key, Some(i), None);
  }

  lemma HoldPoolLocal(b: Books, ev: Event, p: nat, asset: nat)
    requires Owned(b, ev) && FindPoolIntent(b, ev.funded.reference) == Some(p) && !Terminal(b, ev.key)
    ensures Local(b, HoldPool(b, ev, p, asset).books, ev.key, None, Some(p))
  {
  }

  lemma HoldPoolRecorded(net: Network, txs: Txs, b: Books, ev: Event, p: nat, asset: nat)
    requires Recorded(net, txs, b) && EventKnown(net, txs, ev) && FindPoolIntent(b, ev.funded.reference) == Some(p)
    ensures Recorded(net, txs, HoldPool(b, ev, p, asset).books)
  {
    var row := NewRow(ev, Some(asset), None, Some(p), PendingRow, None);
    if ev.key !in b.deposits { PutKeepsRecorded(net, txs, b, ev.key, row); }
    StatusesDoNotMatter(net, txs, InsertIfAbsent(b, ev.key, row), HoldPool(b, ev, p, asset).books);
  }

  lemma HoldPoolKeeps(net: Network, txs: Txs, b: Books, ev: Event, p: nat, asset: nat)
    requires BooksInv(net, txs, b) && EventKnown(net, txs, ev) && FindPoolIntent(b, ev.funded.reference) == Some(p)
    requires !Terminal(b, ev.key) && !CreditedForPool(b, p)
    ensures BooksInv(net, txs, HoldPool(b, ev, p, asset).books) && Grows(b, HoldPool(b, ev, p, asset).books)
  {
    var b' := HoldPool(b, ev, p, asset).books;
    EventOwned(net, txs, b, ev);
    HoldPoolRecorded(net, txs, b, ev, p, asset);
    HoldPoolLocal(b, ev, p, asset);
    assert PoolBackedAt(b, p);
    assert HasPoolRow(b', p, PendingRow);
    RowsKept(b', b, ev.key, p, CreditedRow);
    LocalKeeps(net, txs, b, b', ev.key, None, Some(p));
  }

  lemma CreditPoolRecorded(net: Network, txs: Txs, b: Books, ev: Event, p: nat, asset: nat)
    requires Recorded(net, txs, b) && EventKnown(net, txs, ev) && FindPoolIntent(b, ev.funded.reference) == Some(p)
    requires !Terminal(b, ev.key) && PoolObjection(net, b, ev, p, asset).None? && InAsset(net, ev.funded, Some(asset))
    ensures Recorded(net, txs, CreditPool(b, ev, p, asset).books)
  {
    var b' := CreditPool(b, ev, p, asset).books;
    var row, move := b'.deposits[ev.key], PoolMove(ev.key, p, ev.funded.amount);
    EventOwned(net, txs, b, ev);
    CreditPoolKeepsRecorded(net, txs, b, row, move);
    StatusesDoNotMatter(net, txs, b.(deposits := b.deposits[ev.key := row], poolMoves := b.poolMoves + [move]), b');
  }

  lemma CreditPoolLocal(b: Books, ev: Event, p: nat, asset: nat)
    requires Owned(b, ev) && FindPoolIntent(b, ev.funded.reference) == Some(p) && !Terminal(b, ev.key)
    ensures Local(b, CreditPool(b, ev, p, asset).books, ev.key, None, Some(p))
    ensures PoolBackedAt(CreditPool(b, ev, p, asset).books, p)
  {
    var b' := CreditPool(b, ev, p, asset).books;
    assert b'.deposits[ev.key].poolIntent == Some(p) && b'.deposits[ev.key].status == CreditedRow;
    assert HasPoolRow(b', p, CreditedRow);
  }

  lemma CreditPoolKeeps(net: Network, txs: Txs, b: Books, ev: Event, p: nat, asset: nat)
    requires BooksInv(net, txs, b) && EventKnown(net, txs, ev) && FindPoolIntent(b, ev.funded.reference) == Some(p)
    requires !Terminal(b, ev.key) && PoolObjection(net, b, ev, p, asset).None? && InAsset(net, ev.funded, Some(asset))
    ensures BooksInv(net, txs, CreditPool(b, ev, p, asset).books) && Grows(b, CreditPool(b, ev, p, asset).books)
  {
    var b' := CreditPool(b, ev, p, asset).books;
    EventOwned(net, txs, b, ev);
    CreditPoolRecorded(net, txs, b, ev, p, asset);
    CreditPoolLocal(b, ev, p, asset);
    LocalKeeps(net, txs, b, b', ev.key, None, Some(p));
  }

  lemma ProcessPoolKeeps(net: Network, txs: Txs, b: Books, ev: Event, head: nat, read: HashRead, p: nat, asset: nat)
    requires BooksInv(net, txs, b) && EventKnown(net, txs, ev) && FindPoolIntent(b, ev.funded.reference) == Some(p)
             && !Terminal(b, ev.key)
    requires ProcessPool(net, b, ev, head, read, p, asset).Done? && InAsset(net, ev.funded, Some(asset))
    ensures BooksInv(net, txs, ProcessPool(net, b, ev, head, read, p, asset).books)
            && Grows(b, ProcessPool(net, b, ev, head, read, p, asset).books)
  {
    var objection := PoolObjection(net, b, ev, p, asset);
    if objection.Some? {
      RejectPoolKeeps(net, txs, b, ev, p, asset, objection.value);
    } else if !IsFinal(net, ev, head, read.hash) {
      HoldPoolKeeps(net, txs, b, ev, p, asset);
    } else {
      CreditPoolKeeps(net, txs, b, ev, p, asset);
    }
  }

  lemma ProcessOrderKeeps(net: Network, txs: Txs, b: Books, ev: Event, head: nat, read: HashRead,
      funding: FundingResult, i: nat, asset: nat)
    requires BooksInv(net, txs, b) && EventKnown(net, txs, ev) && FindIntent(b, ev.funded.reference) == Some(i)
             && !Terminal(b, ev.key)
    requires asset in net.assets && ProcessOrder(net, b, ev, head, read, funding, i, asset).Done?
    requires InAsset(net, ev.funded, Some(asset))
    ensures BooksInv(net, txs, ProcessOrder(net, b, ev, head, read, funding, i, asset).books)
    ensures Grows(b, ProcessOrder(net, b, ev, head, read, funding, i, asset).books)
  {
    var objection := OrderObjection(net, b, ev, i, asset);
    if objection.Some? {
      RejectionKeeps(net, txs, b, ev, Some(i), Some(asset), objection.value);
    } else if !IsFinal(net, ev, head, read.hash) {
      HoldOrderKeeps(net, txs, b, ev, i, asset);
    } else {
      CreditOrderKeeps(net, txs, b, ev, i, asset, funding);
    }
  }

  /** Every transaction of `processEvent` keeps the books in order and only adds to history. */
  lemma ProcessKeeps(net: Network, txs: Txs, b: Books, ev: Event, head: nat, read: HashRead, funding: FundingResult)
    requires BooksInv(net, txs, b) && EventKnown(net, txs, ev)
    requires ProcessEvent(net, b, ev, head, read, funding).Done?
    ensures BooksInv(net, txs, ProcessEvent(net, b, ev, head, read, funding).books)
    ensures Grows(b, ProcessEvent(net, b, ev, head, read, funding).books)
  {
    var ref := ev.funded.reference;
    var asset := AssetForToken(net, ev.funded.token);
    if Terminal(b, ev.key) {
    } else if asset.None? || !net.assets[asset.value].allowlisted {
      RejectionKeeps(net, txs, b, ev, FindIntent(b, ref), asset, UnsupportedAsset);
    } else if FindIntent(b, ref).Some? {
      ProcessOrderKeeps(net, txs, b, ev, head, read, funding, FindIntent(b, ref).value, asset.value);
    } else if FindPoolIntent(b, ref).Some? {
      ProcessPoolKeeps(net, txs, b, ev, head, read, FindPoolIntent(b, ref).value, asset.value);
    } else {
      RejectionKeeps(net, txs, b, ev, None, asset, UnknownReference);
    }
  }

  lemma OrderLeavesRow(net: Network, b: Books, ev: Event, head: nat, read: HashRead, funding: FundingResult, i: nat,
      asset: nat)
    requires i < |b.intents| && asset in net.assets && ProcessOrder(net, b, ev, head, read, funding, i, asset).Done?
    ensures ProcessOrder(net, b, ev, head, read, funding, i, asset).books.deposits.Keys == b.deposits.Keys + {ev.key}
    ensures ProcessOrder(net, b, ev, head, read, funding, i, asset).books.checkpoint == b.checkpoint
  {
  }

  lemma PoolLeavesRow(net: Network, b: Books, ev: Event, head: nat, read: HashRead, p: nat, asset: nat)
    requires p < |b.poolIntents| && ProcessPool(net, b, ev, head, read, p, asset).Done?
    ensures ProcessPool(net, b, ev, head, read, p, asset).books.deposits.Keys == b.deposits.Keys + {ev.key}
    ensures ProcessPool(net, b, ev, head, read, p, asset).books.checkpoint == b.checkpoint
  {
  }

  /** And it leaves a row for the event, whatever it decided. */
  lemma ProcessLeavesRow(net: Network, b: Books, ev: Event, head: nat, read: HashRead, funding: FundingResult)
    requires ProcessEvent(net, b, ev, head, read, funding).Done?
    ensures ProcessEvent(net, b, ev, head, read, funding).books.deposits.Keys == b.deposits.Keys + {ev.key}
    ensures ProcessEvent(net, b, ev, head, read, funding).books.checkpoint == b.checkpoint
  {
    var ref, asset := ev.funded.reference, AssetForToken(net, ev.funded.token);
    if Terminal(b, ev.key) || asset.None? || !net.assets[asset.value].allowlisted {
    } else if FindIntent(b, ref).Some? {
      OrderLeavesRow(net, b, ev, head, read, funding, FindIntent(b, ref).value, asset.value);
    } else if FindPoolIntent(b, ref).Some? {
      PoolLeavesRow(net, b, ev, head, read, FindPoolIntent(b, ref).value, asset.value);
    }
  }

  lemma MarkReorgedLocal(b: Books, key: Key)
    requires key in b.deposits && b.deposits[key].status == PendingRow
    requires b.deposits[key].intent.Some? ==> b.deposits[key].intent.value < |b.intents|
    requires b.deposits[key].poolIntent.Some? ==> b.deposits[key].poolIntent.value < |b.poolIntents|
    ensures Local(b, MarkReorged(b, key), key, b.deposits[key].intent, b.deposits[key].poolIntent)
  {
  }

  lemma MarkReorgedRecorded(net: Network, txs: Txs, b: Books, key: Key)
    requires Recorded(net, txs, b) && key in b.deposits && b.deposits[key].status == PendingRow
    ensures Recorded(net, txs, MarkReorged(b, key))
  {
    var b' := MarkReorged(b, key);
    var row := b'.deposits[key];
    assert RowSound(net, txs, b, key);
    PutKeepsRecorded(net, txs, b, key, row);
    StatusesDoNotMatter(net, txs, b.(deposits := b.deposits[key := row]), b');
  }

  lemma MarkReorgedBacked(b: Books, key: Key, i: nat)
    requires key in b.deposits && b.deposits[key].status == PendingRow && b.deposits[key].intent == Some(i)
             && b.deposits[key].poolIntent.None?
    requires i < |b.intents| && BackedAt(b, i)
    ensures BackedAt(MarkReorged(b, key), i)
  {
    RowsKept(b, MarkReorged(b, key), key, i, CreditedRow);
    RowsKept(MarkReorged(b, key), b, key, i, CreditedRow);
  }

  lemma MarkReorgedPoolBacked(b: Books, key: Key, p: nat)
    requires key in b.deposits && b.deposits[key].status == PendingRow && b.deposits[key].poolIntent == Some(p)
             && b.deposits[key].intent.None?
    requires p < |b.poolIntents| && PoolBackedAt(b, p)
    ensures PoolBackedAt(MarkReorged(b, key), p)
  {
    RowsKept(b, MarkReorged(b, key), key, p, CreditedRow);
    RowsKept(MarkReorged(b, key), b, key, p, CreditedRow);
  }

  /** The intent waits again exactly if it waited for this deposit to become final. */
  function AwaitsAgain(s: IntentStatus): IntentStatus { if s == PendingFinality then AwaitingDeposit else s }

  /**
   * A pending row became reorganized and its intent awaits a deposit again; any other row, and everything else, stayed.
   */
  predicate LostOne(b: Books, key: Key, b': Books)
  {
    if key !in b.deposits || b.deposits[key].status != PendingRow then b' == b
    else
      var row := b.deposits[key];
      && b'.deposits == b.deposits[key := row.(status := ReorgedRow, reason := Some(NoLongerCanonical))]
      && b' == b.(deposits := b'.deposits, intents := b'.intents, poolIntents := b'.poolIntents)
      && |b'.intents| == |b.intents| && |b'.poolIntents| == |b.poolIntents|
      && (forall i :: 0 <= i < |b.intents| ==>
            b'.intents[i] == b.intents[i].(status :=
              if row.intent == Some(i) then AwaitsAgain(b.intents[i].status) else b.intents[i].status))
      && (forall p :: 0 <= p < |b.poolIntents| ==>
            b'.poolIntents[p] == b.poolIntents[p].(status :=
              if row.poolIntent == Some(p) then AwaitsAgain(b.poolIntents[p].status) else b.poolIntents[p].status))
  }

  lemma LosesOne(b: Books, key: Key)
    ensures LostOne(b, key, MarkReorged(b, key))
  {
  }

  lemma MarkReorgedKeeps(net: Network, txs: Txs, b: Books, key: Key)
    requires BooksInv(net, txs, b)
    ensures BooksInv(net, txs, MarkReorged(b, key)) && Grows(b, MarkReorged(b, key))
    ensures MarkReorged(b, key).checkpoint == b.checkpoint && MarkReorged(b, key).deposits.Keys == b.deposits.Keys
    ensures LostOne(b, key, MarkReorged(b, key))
  {
    LosesOne(b, key);
    if key in b.deposits && b.deposits[key].status == PendingRow {
      var row := b.deposits[key];
      assert RowSound(net, txs, b, key);
      MarkReorgedLocal(b, key);
      MarkReorgedRecorded(net, txs, b, key);
      if row.intent.Some? {
        assert BackedAt(b, row.intent.value);
        MarkReorgedBacked(b, key, row.intent.value);
      } else {
        assert PoolBackedAt(b, row.poolIntent.value);
        MarkReorgedPoolBacked(b, key, row.poolIntent.value);
      }
      LocalKeeps(net, txs, b, MarkReorged(b, key), key, row.intent, row.poolIntent);
    }
  }

  // ------------------------------------------------------------------------------------------------------------
  // Changes of intents and of the checkpoint alone

  lemma SameDepositsSameRows(b: Books, b': Books)
    requires b'.deposits == b.deposits
    ensures forall i: nat, s :: HasRow(b', i, s) <==> HasRow(b, i, s)
    ensures forall i: nat, s :: HasPoolRow(b', i, s) <==> HasPoolRow(b, i, s)
  {
  }

  lemma CheckpointKeeps(net: Network, txs: Txs, b: Books, to: nat)
    requires BooksInv(net, txs, b)
    ensures BooksInv(net, txs, AdvanceCheckpoint(b, to)) && Grows(b, AdvanceCheckpoint(b, to))
  {
    var b' := AdvanceCheckpoint(b, to);
    StatusesDoNotMatter(net, txs, b, b');
    SameDepositsSameRows(b, b');
    assert StatusesBacked(b') by {
      forall i: nat | i < |b.intents| ensures BackedAt(b', i) { assert BackedAt(b, i); }
      forall i: nat | i < |b.poolIntents| ensures PoolBackedAt(b', i) { assert PoolBackedAt(b, i); }
    }
  }

  /** Cancelling open intents, any number of them. */
  lemma CancellingKeeps(net: Network, txs: Txs, b: Books, b': Books)
    requires BooksInv(net, txs, b) && OnlyStatuses(b, b') && b' == b.(intents := b'.intents)
    requires forall i :: 0 <= i < |b.intents| ==>
        b'.intents[i] == b.intents[i] || (Open(b.intents[i].status) && b'.intents[i].status == Cancelled)
    ensures BooksInv(net, txs, b') && Grows(b, b')
  {
    StatusesDoNotMatter(net, txs, b, b');
    SameDepositsSameRows(b, b');
    assert StatusesBacked(b') by {
      forall i: nat | i < |b.intents| ensures BackedAt(b', i) { assert BackedAt(b, i); }
      forall i: nat | i < |b.poolIntents| ensures PoolBackedAt(b', i) { assert PoolBackedAt(b, i); }
    }
  }

  lemma CancelFundingKeeps(net: Network, txs: Txs, b: Books, order: nat)
    requires BooksInv(net, txs, b)
    ensures BooksInv(net, txs, CancelFunding(b, order)) && Grows(b, CancelFunding(b, order))
  {
    if CancelFunding(b, order) != b {
      CancellingKeeps(net, txs, b, CancelFunding(b, order));
    }
  }

  /** Rows point at intents that exist. */
  lemma RowsPointInside(net: Network, txs: Txs, b: Books)
    requires RowsSound(net, txs, b)
    ensures forall k :: k in b.deposits && b.deposits[k].intent.Some? ==> b.deposits[k].intent.value < |b.intents|
    ensures forall k :: k in b.deposits && b.deposits[k].poolIntent.Some? ==>
        b.deposits[k].poolIntent.value < |b.poolIntents|
  {
    forall k | k in b.deposits && b.deposits[k].intent.Some?
      ensures b.deposits[k].intent.value < |b.intents|
    {
      assert RowSound(net, txs, b, k);
    }
    forall k | k in b.deposits && b.deposits[k].poolIntent.Some?
      ensures b.deposits[k].poolIntent.value < |b.poolIntents|
    {
      assert RowSound(net, txs, b, k);
    }
  }

  /** Appending intents of either kind leaves what is recorded as it was. */
  lemma AppendKeepsRecorded(net: Network, txs: Txs, b: Books, b': Books)
    requires Recorded(net, txs, b) && Exact(net, b')
    requires b' == b.(intents := b'.intents, poolIntents := b'.poolIntents)
    requires b.intents <= b'.intents && b.poolIntents <= b'.poolIntents
    ensures Recorded(net, txs, b')
  {
    forall k | k in b'.deposits ensures RowSound(net, txs, b', k) { assert RowSound(net, txs, b, k); }
    forall k, l | k in b'.deposits && l in b'.deposits && SameCredit(b', k, l)
      ensures k == l
    {
      assert SameCredit(b, k, l);
    }
    forall k | k in b'.deposits && b'.deposits[k].status == CreditedRow && b'.deposits[k].intent.Some?
      ensures Funds(b', k)
    {
      assert Funds(b, k);
    }
    forall k | k in b'.deposits && b'.deposits[k].status == CreditedRow && b'.deposits[k].poolIntent.Some?
      ensures Moves(b', k)
    {
      assert Moves(b, k);
    }
  }

  lemma AppendIntentKeeps(net: Network, txs: Txs, b: Books, intent: Intent)
    requires BooksInv(net, txs, b)
    requires intent.status == AwaitingDeposit
             && (forall j :: 0 <= j < |b.intents| && b.intents[j].order == intent.order ==> !Open(b.intents[j].status))
    requires intent.asset in net.assets && net.assets[intent.asset].decimals >= 2
    requires intent.amount == Registry.UsdMinorToAtomic(intent.orderMinor, net.assets[intent.asset].decimals)
    ensures BooksInv(net, txs, b.(intents := b.intents + [intent])) && Grows(b, b.(intents := b.intents + [intent]))
  {
    var b' := b.(intents := b.intents + [intent]);
    AppendKeepsRecorded(net, txs, b, b');
    SameDepositsSameRows(b, b');
    RowsPointInside(net, txs, b);
    assert StatusesBacked(b') by {
      forall i: nat | i < |b'.intents| ensures BackedAt(b', i) { if i < |b.intents| { assert BackedAt(b, i); } }
      forall i: nat | i < |b.poolIntents| ensures PoolBackedAt(b', i) { assert PoolBackedAt(b, i); }
    }
  }

  lemma CreatePoolIntentKeeps(net: Network, txs: Txs, b: Books, pool: nat, poolAsset: nat, chainId: nat, asset: nat,
      amount: nat)
    requires BooksInv(net, txs, b)
    ensures BooksInv(net, txs, CreatePoolIntent(b, pool, poolAsset, chainId, asset, amount))
    ensures Grows(b, CreatePoolIntent(b, pool, poolAsset, chainId, asset, amount))
  {
    var b' := CreatePoolIntent(b, pool, poolAsset, chainId, asset, amount);
    AppendKeepsRecorded(net, txs, b, b');
    SameDepositsSameRows(b, b');
    RowsPointInside(net, txs, b);
    assert StatusesBacked(b') by {
      forall i: nat | i < |b.intents| ensures BackedAt(b', i) { assert BackedAt(b, i); }
      forall i: nat | i < |b'.poolIntents|
        ensures PoolBackedAt(b', i)
      {
        if i < |b.poolIntents| { assert PoolBackedAt(b, i); }
      }
    }
  }

  /**
   * Creating a payment leaves exactly one open intent for the order, waiting, for the chosen asset and wallet; an open
   * intent it replaces is cancelled, and one with the same choice is handed back unchanged.
   */
  lemma CreatePaymentKeeps(net: Network, txs: Txs, b: Books, order: OrderView, asset: nat, payer: Option<Address>)
    requires BooksInv(net, txs, b) && CreatePayment(net, b, order, asset, payer).Ok?
    ensures var (b', i) := CreatePayment(net, b, order, asset, payer).value;
            && BooksInv(net, txs, b') && Grows(b, b') && b' == b.(intents := b'.intents)
            && i < |b'.intents| && b'.intents[i].order == order.id && b'.intents[i].status == AwaitingDeposit
            && b'.intents[i].asset == asset && b'.intents[i].payer == payer
            && (i == |b.intents| ==> b'.intents[i].orderMinor == order.amountMinor)
            && (forall j :: 0 <= j < |b'.intents| && j != i && b'.intents[j].order == order.id ==>
                !Open(b'.intents[j].status))
  {
    FirstOpenSound(b.intents, order.id);
    var open := FirstOpen(b.intents, order.id);
    var (b', i) := CreatePayment(net, b, order, asset, payer).value;
    if |b'.intents| > |b.intents| {
      var b1 := if open.Some? then SetIntent(b, open.value, Cancelled) else b;
      CancellingKeeps(net, txs, b, b1);
      AppendIntentKeeps(net, txs, b1, b'.intents[i]);
    }
  }
}
