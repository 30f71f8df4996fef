/**
 * The reconciliation rules (scripts/lib/reconcile-rules.ts), and the escrow they are about: on books that follow the
 * chain, the chain checks never report drift.
 */
module Reconcile {
  import opened Common
  import opened SimChain
  import opened EscrowRules

  datatype Status = Pass | Fail | Unchecked

  function Judge<T>(findings: seq<T>): Status { if findings == [] then Pass else Fail }

  // ---- ledger -------------------------------------------------------------------------------------------------------

  datatype LedgerEntry = LedgerEntry(transaction: string, currency: string, amount: int)

  datatype Imbalance = Imbalance(transaction: string, currency: string, total: int)

  function Key(transaction: string, currency: string): string { transaction + "|" + currency }

  function KeyOf(e: LedgerEntry): string { Key(e.transaction, e.currency) }

  function KeySum(entries: seq<LedgerEntry>, key: string): int
  {
    if entries == [] then 0
    else KeySum(entries[..|entries| - 1], key) + if KeyOf(entries[|entries| - 1]) == key
    then entries[|entries| - 1].amount else 0
  }

  function GroupSum(entries: seq<LedgerEntry>, transaction: string, currency: string): int
  {
    if entries == [] then 0
    else
      var last := entries[|entries| - 1];
      GroupSum(entries[..|entries| - 1], transaction, currency)
      + if last.transaction == transaction && last.currency == currency then last.amount else 0
  }

  /** The key cut at its first two bars, as the report names it. */
  function UpToBar(s: string): (p: string)
    ensures p <= s
  {
    if s == "" || s[0] == '|' then "" else [s[0]] + UpToBar(s[1..])
  }

  function AfterBar(s: string): string
  {
    var n := |UpToBar(s)|;
    if n < |s| then s[n + 1..] else ""
  }

  function ImbalanceOf(key: string, total: int): Imbalance
  {
    Imbalance(UpToBar(key), UpToBar(AfterBar(key)), total)
  }

  /** A map filled in order: its keys in the order they were first set. */
  ghost predicate Keyed(keys: seq<string>, totals: map<string, int>)
  {
    (forall k :: k in keys <==> k in totals) && (forall i, j :: 0 <= i < j < |keys| ==> keys[i] != keys[j])
  }

  ghost predicate Totalled(entries: seq<LedgerEntry>, totals: map<string, int>)
  {
    && (forall e :: e in entries ==> KeyOf(e) in totals)
    && (forall k :: k in totals ==> (exists e :: e in entries && KeyOf(e) == k) && totals[k] == KeySum(entries, k))
  }

  lemma KeySumAppend(entries: seq<LedgerEntry>, e: LedgerEntry, key: string)
    ensures KeySum(entries + [e], key) == KeySum(entries, key) + if KeyOf(e) == key then e.amount else 0
  {
    assert (entries + [e])[..|entries|] == entries;
  }

  lemma {:induction false} KeySumAbsent(entries: seq<LedgerEntry>, key: string)
    requires forall e :: e in entries ==> KeyOf(e) != key
    ensures KeySum(entries, key) == 0
  {
    if entries != [] {
      KeySumAbsent(entries[..|entries| - 1], key);
    }
  }

  lemma TotalledAppend(entries: seq<LedgerEntry>, e: LedgerEntry, totals: map<string, int>)
    requires Totalled(entries, totals)
    ensures Totalled(entries + [e], totals[KeyOf(e) := (if KeyOf(e) in totals then totals[KeyOf(e)] else 0) + e.amount])
  {
    var key := KeyOf(e);
    var after := totals[key := (if key in totals then totals[key] else 0) + e.amount];
    if key !in totals { KeySumAbsent(entries, key); }
    forall k | k in after
      ensures (exists f :: f in entries + [e] && KeyOf(f) == k) && after[k] == KeySum(entries + [e], k)
    {
      KeySumAppend(entries, e, k);
      if k == key {
        assert e in entries + [e];
      } else {
        var f :| f in entries && KeyOf(f) == k;
        assert f in entries + [e];
      }
    }
  }

  lemma KeyedSet(keys: seq<string>, totals: map<string, int>, key: string, total: int)
    requires Keyed(keys, totals)
    ensures Keyed(if key in totals then keys else keys + [key], totals[key := total])
  {
    var after := if key in totals then keys else keys + [key];
    assert forall k :: k in after <==> k in keys || k == key;
  }

  /** One entry more: its key is there, and carries the entry's amount on top of what it had. */
  method AddEntry(ghost entries: seq<LedgerEntry>, e: LedgerEntry, keys: seq<string>, totals: map<string, int>)
    returns (keys': seq<string>, totals': map<string, int>)
    requires Keyed(keys, totals) && Totalled(entries, totals)
    ensures Keyed(keys', totals') && Totalled(entries + [e], totals')
  {
    var key := KeyOf(e);
    var total := (if key in totals then totals[key] else 0) + e.amount;
    TotalledAppend(entries, e, totals);
    KeyedSet(keys, totals, key, total);
    keys' := if key in totals then keys else keys + [key];
    totals' := totals[key := total];
  }

  method TotalByKey(entries: seq<LedgerEntry>) returns (keys: seq<string>, totals: map<string, int>)
    ensures Keyed(keys, totals) && Totalled(entries, totals)
  {
    keys, totals := [], map[];
    for i := 0 to |entries|
      invariant Keyed(keys, totals) && Totalled(entries[..i], totals)
    {
      assert entries[..i + 1] == entries[..i] + [entries[i]];
      keys, totals := AddEntry(entries[..i], entries[i], keys, totals);
    }
    assert entries[..|entries|] == entries;
  }

  /** Every key sums to zero. */
  ghost predicate KeysBalance(entries: seq<LedgerEntry>)
  {
    forall e :: e in entries ==> KeySum(entries, KeyOf(e)) == 0
  }

  /** Every transaction sums to zero in every currency. */
  ghost predicate GroupsBalance(entries: seq<LedgerEntry>)
  {
    forall e :: e in entries ==> GroupSum(entries, e.transaction, e.currency) == 0
  }

  /** One finding for each key that does not sum to zero, and no other. */
  ghost predicate Names(entries: seq<LedgerEntry>, findings: seq<Imbalance>)
  {
    && (forall e :: e in entries && KeySum(entries, KeyOf(e)) != 0 ==>
        ImbalanceOf(KeyOf(e), KeySum(entries, KeyOf(e))) in findings)
    && (forall f :: f in findings ==>
        exists e ::
          && e in entries && KeySum(entries, KeyOf(e)) != 0
          && f == ImbalanceOf(KeyOf(e), KeySum(entries, KeyOf(e))))
  }

  /** The findings for the keys read so far. */
  ghost predicate Found(keys: seq<string>, totals: map<string, int>, findings: seq<Imbalance>)
    requires forall k :: k in keys ==> k in totals
  {
    && (forall k :: k in keys && totals[k] != 0 ==> ImbalanceOf(k, totals[k]) in findings)
    && (forall f :: f in findings ==> exists k :: k in keys && totals[k] != 0 && f == ImbalanceOf(k, totals[k]))
  }

  method CollectImbalances(keys: seq<string>, totals: map<string, int>) returns (findings: seq<Imbalance>)
    requires forall k :: k in keys ==> k in totals
    ensures Found(keys, totals, findings)
  {
    findings := [];
    for i := 0 to |keys|
      invariant Found(keys[..i], totals, findings)
    {
      assert keys[..i + 1] == keys[..i] + [keys[i]];
      FoundAppend(keys[..i], keys[i], totals, findings);
      if totals[keys[i]] != 0 { findings := findings + [ImbalanceOf(keys[i], totals[keys[i]])]; }
    }
    assert keys[..|keys|] == keys;
  }

  lemma FoundAppend(keys: seq<string>, key: string, totals: map<string, int>, findings: seq<Imbalance>)
    requires key in totals && (forall k :: k in keys ==> k in totals) && Found(keys, totals, findings)
    ensures Found(keys + [key], totals, if totals[key] != 0 then findings + [ImbalanceOf(key, totals[key])]
        else findings)
  {
    var after := if totals[key] != 0 then findings + [ImbalanceOf(key, totals[key])] else findings;
    forall f | f in after
      ensures exists k :: k in keys + [key] && totals[k] != 0 && f == ImbalanceOf(k, totals[k])
    {
      if f in findings {
        var k :| k in keys && totals[k] != 0 && f == ImbalanceOf(k, totals[k]);
        assert k in keys + [key];
      } else {
        assert key in keys + [key];
      }
    }
  }

  method CheckLedgerBalances(entries: seq<LedgerEntry>) returns (status: Status, findings: seq<Imbalance>)
    ensures status == Pass <==> KeysBalance(entries)
    ensures status == Fail <==> findings != []
    ensures Names(entries, findings)
  {
    var keys, totals := TotalByKey(entries);
    findings := CollectImbalances(keys, totals);
    status := Judge(findings);
    NamedOnce(entries, keys, totals, findings);
    NamesNoneWhenBalanced(entries, findings);
  }

  lemma NamedOnce(entries: seq<LedgerEntry>, keys: seq<string>, totals: map<string, int>, findings: seq<Imbalance>)
    requires Keyed(keys, totals) && Totalled(entries, totals) && Found(keys, totals, findings)
    ensures Names(entries, findings)
  {
    forall f | f in findings
      ensures exists e ::
                && e in entries && KeySum(entries, KeyOf(e)) != 0
                && f == ImbalanceOf(KeyOf(e), KeySum(entries, KeyOf(e)))
    {
      var k :| k in keys && totals[k] != 0 && f == ImbalanceOf(k, totals[k]);
      var e :| e in entries && KeyOf(e) == k;
    }
  }

  lemma NamesNoneWhenBalanced(entries: seq<LedgerEntry>, findings: seq<Imbalance>)
    requires Names(entries, findings)
    ensures findings == [] <==> KeysBalance(entries)
  {
    if findings != [] {
      assert findings[0] in findings;
    }
  }

  /** No two entries of different transactions or currencies share a key. */
  ghost predicate KeysApart(entries: seq<LedgerEntry>)
  {
    forall e, f :: e in entries && f in entries && KeyOf(e) == KeyOf(f) ==>
        e.transaction == f.transaction && e.currency == f.currency
  }

  lemma {:induction false} KeySumIsGroupSum(entries: seq<LedgerEntry>, transaction: string, currency: string)
    requires forall e :: e in entries && KeyOf(e) == Key(transaction, currency) ==>
        e.transaction == transaction && e.currency == currency
    ensures KeySum(entries, Key(transaction, currency)) == GroupSum(entries, transaction, currency)
  {
    if entries != [] {
      KeySumIsGroupSum(entries[..|entries| - 1], transaction, currency);
    }
  }

  /** When no two labels share a key, the ledger passes exactly when every transaction balances in every currency. */
  lemma PassMeansBalanced(entries: seq<LedgerEntry>)
    requires KeysApart(entries)
    ensures KeysBalance(entries) <==> GroupsBalance(entries)
  {
    forall e | e in entries
      ensures KeySum(entries, KeyOf(e)) == GroupSum(entries, e.transaction, e.currency)
    {
      KeySumIsGroupSum(entries, e.transaction, e.currency);
    }
  }

  lemma {:induction false} UpToBarOf(a: string, rest: string)
    requires '|' !in a && (rest == "" || rest[0] == '|')
    ensures UpToBar(a + rest) == a
  {
    if a == "" {
      assert a + rest == rest;
    } else {
      assert (a + rest)[1..] == a[1..] + rest;
      UpToBarOf(a[1..], rest);
    }
  }

  /** Labels without a bar never share a key, and the report names them as they are. */
  lemma BarFreeLabels(transaction: string, currency: string, total: int)
    requires '|' !in transaction
    ensures AfterBar(Key(transaction, currency)) == currency && UpToBar(Key(transaction, currency)) == transaction
    ensures '|' !in currency ==>
        ImbalanceOf(Key(transaction, currency), total) == Imbalance(transaction, currency, total)
  {
    var key := Key(transaction, currency);
    assert key == transaction + ("|" + currency);
    UpToBarOf(transaction, "|" + currency);
    assert key[|transaction| + 1..] == currency;
    if '|' !in currency {
      UpToBarOf(currency, "");
      assert currency + "" == currency;
    }
  }

  lemma BarFreeKeysApart(entries: seq<LedgerEntry>)
    requires forall e :: e in entries ==> '|' !in e.transaction
    ensures KeysApart(entries)
  {
    forall e, f | e in entries && f in entries && KeyOf(e) == KeyOf(f)
      ensures e.transaction == f.transaction && e.currency == f.currency
    {
      BarFreeLabels(e.transaction, e.currency, 0);
      BarFreeLabels(f.transaction, f.currency, 0);
    }
  }

  /** Two labels that share a key hide each other's imbalance, whatever its size. */
  lemma SharedKeyHides(a: LedgerEntry, b: LedgerEntry)
    requires KeyOf(a) == KeyOf(b) && (a.transaction != b.transaction || a.currency != b.currency)
    requires a.amount != 0 && b.amount == -a.amount
    ensures KeysBalance([a, b]) && !GroupsBalance([a, b])
  {
    assert [a, b][..1] == [a] && [a][..0] == [];
    assert KeySum([], KeyOf(a)) == 0;
    assert KeySum([a], KeyOf(a)) == a.amount;
    assert KeySum([a, b], KeyOf(a)) == 0;
    assert GroupSum([a], a.transaction, a.currency) == a.amount;
    assert GroupSum([a, b], a.transaction, a.currency) == a.amount && a in [a, b];
  }

  /** Whatever entries are written under these labels. */
  ghost predicate Over(entries: seq<LedgerEntry>, labels: set<(string, string)>)
  {
    forall e :: e in entries ==> (e.transaction, e.currency) in labels
  }

  ghost predicate LabelsApart(labels: set<(string, string)>)
  {
    forall a, b :: a in labels && b in labels && Key(a.0, a.1) == Key(b.0, b.1) ==> a == b
  }

  ghost predicate PassIsRight(labels: set<(string, string)>)
  {
    forall entries: seq<LedgerEntry> :: Over(entries, labels) ==> (KeysBalance(entries) <==> GroupsBalance(entries))
  }

  /**
   * The check passes exactly the balanced ledgers over a set of labels if and only if no two of the labels share a key.
   */
  lemma PassIsRightExactly(labels: set<(string, string)>)
    ensures PassIsRight(labels) <==> LabelsApart(labels)
  {
    if LabelsApart(labels) {
      forall entries: seq<LedgerEntry> | Over(entries, labels)
        ensures KeysBalance(entries) <==> GroupsBalance(entries)
      {
        ApartOver(entries, labels);
        PassMeansBalanced(entries);
      }
    } else {
      var a, b :| a in labels && b in labels && Key(a.0, a.1) == Key(b.0, b.1) && a != b;
      var e, f := LedgerEntry(a.0, a.1, 1), LedgerEntry(b.0, b.1, -1);
      SharedKeyHides(e, f);
      assert Over([e, f], labels);
    }
  }

  lemma ApartOver(entries: seq<LedgerEntry>, labels: set<(string, string)>)
    requires Over(entries, labels) && LabelsApart(labels)
    ensures KeysApart(entries)
  {
    forall e, f | e in entries && f in entries && KeyOf(e) == KeyOf(f)
      ensures e.transaction == f.transaction && e.currency == f.currency
    {
      assert Key((e.transaction, e.currency).0, (e.transaction, e.currency).1) == KeyOf(e);
      assert Key((f.transaction, f.currency).0, (f.transaction, f.currency).1) == KeyOf(f);
    }
  }

  /** A transaction label with a bar in it is enough to hide an imbalance; no UUID has one. */
  lemma BarHides(amount: int)
    requires amount != 0
    ensures var entries := [LedgerEntry("a|b", "c", amount), LedgerEntry("a", "b|c", -amount)];
            KeysBalance(entries) && !GroupsBalance(entries)
  {
    var a, b := LedgerEntry("a|b", "c", amount), LedgerEntry("a", "b|c", -amount);
    assert KeyOf(a) == "a|b|c" == KeyOf(b);
    SharedKeyHides(a, b);
  }

  lemma {:induction false} KeySumRemove(entries: seq<LedgerEntry>, i: nat, key: string)
    requires i < |entries|
    ensures KeySum(entries, key) == KeySum(entries[..i] + entries[i + 1..], key) + if KeyOf(entries[i]) == key
        then entries[i].amount else 0
    decreases |entries|
  {
    var n := |entries| - 1;
    var rest := entries[..i] + entries[i + 1..];
    if i == n {
      assert rest == entries[..n];
    } else {
      KeySumRemove(entries[..n], i, key);
      assert rest[..|rest| - 1] == entries[..n][..i] + entries[..n][i + 1..] && rest[|rest| - 1] == entries[n];
    }
  }

  lemma RemoveSame(entries: seq<LedgerEntry>, other: seq<LedgerEntry>, i: nat)
    requires entries != [] && multiset(entries) == multiset(other) && i < |other| && other[i] == entries[|entries| - 1]
    ensures multiset(other[..i] + other[i + 1..]) == multiset(entries[..|entries| - 1])
  {
    var n := |entries| - 1;
    var rest := other[..i] + other[i + 1..];
    assert other == other[..i] + [other[i]] + other[i + 1..];
    assert entries == entries[..n] + [entries[n]];
    assert multiset(rest) == multiset(other) - multiset{other[i]};
    assert multiset(entries[..n]) == multiset(entries) - multiset{entries[n]};
  }

  /** The order in which the entries are read does not matter. */
  lemma {:induction false} OrderDoesNotMatter(entries: seq<LedgerEntry>, other: seq<LedgerEntry>, key: string)
    requires multiset(entries) == multiset(other)
    ensures KeySum(entries, key) == KeySum(other, key)
    decreases |entries|
  {
    assert |multiset(entries)| == |multiset(other)|;
    if entries != [] {
      var last := entries[|entries| - 1];
      assert last in multiset(other);
      var i :| 0 <= i < |other| && other[i] == last;
      RemoveSame(entries, other, i);
      OrderDoesNotMatter(entries[..|entries| - 1], other[..i] + other[i + 1..], key);
      KeySumRemove(other, i, key);
    }
  }

  // ---- payouts and buckets ------------------------------------------------------------------------------------------

  /** A payout of the outbox; `confirmed` says that its state reads CONFIRMED. */
  datatype PayoutRow = PayoutRow(payoutRef: nat, escrowRef: EscrowRef, amount: nat, confirmed: bool)

  datatype Drift = MissingOnChain(row: nat) | PaidUnrecorded(row: nat) | Overspent(row: nat)

  predicate Compared(row: PayoutRow, paidOnChain: map<nat, Option<Hash>>) { row.payoutRef in paidOnChain }

  predicate Agrees(row: PayoutRow, paidOnChain: map<nat, Option<Hash>>)
    requires Compared(row, paidOnChain)
  {
    row.confirmed <==> paidOnChain[row.payoutRef].Some?
  }

  method CheckPayoutsAgainstChain(payouts: seq<PayoutRow>, paidOnChain: map<nat, Option<Hash>>)
      returns (status: Status, findings: seq<Drift>)
    ensures status == Unchecked <==> payouts != [] && forall i :: 0 <= i < |payouts| ==>
        !Compared(payouts[i], paidOnChain)
    ensures status == Fail <==>
        exists i :: 0 <= i < |payouts| && Compared(payouts[i], paidOnChain) && !Agrees(payouts[i], paidOnChain)
    ensures forall f :: f in findings <==>
              exists i :: 0 <= i < |payouts| && Compared(payouts[i], paidOnChain) && !Agrees(payouts[i], paidOnChain)
                          && f == if payouts[i].confirmed then MissingOnChain(i) else PaidUnrecorded(i)
  {
    findings := [];
    var compared := 0;
    for k := 0 to |payouts|
      invariant compared >= 0
      invariant compared == 0 <==> forall i :: 0 <= i < k ==> !Compared(payouts[i], paidOnChain)
      invariant compared == 0 ==> findings == []
      invariant findings != [] <==>
          exists i :: 0 <= i < k && Compared(payouts[i], paidOnChain) && !Agrees(payouts[i], paidOnChain)
      invariant forall f :: f in findings <==>
                  exists i :: 0 <= i < k && Compared(payouts[i], paidOnChain) && !Agrees(payouts[i], paidOnChain)
                              && f == if payouts[i].confirmed then MissingOnChain(i) else PaidUnrecorded(i)
    {
      if payouts[k].payoutRef in paidOnChain {
        compared := compared + 1;
        var onChain := paidOnChain[payouts[k].payoutRef];
        if payouts[k].confirmed && onChain.None? { findings := findings + [MissingOnChain(k)]; }
        if !payouts[k].confirmed && onChain.Some? { findings := findings + [PaidUnrecorded(k)]; }
      }
    }
    status := if compared == 0 && |payouts| > 0 then Unchecked else Judge(findings);
  }

  datatype BucketBalance = BucketBalance(escrowRef: EscrowRef, spent: int)

  method CheckBucketsCovered(buckets: seq<BucketBalance>, deposited: map<EscrowRef, nat>)
      returns (status: Status, findings: seq<Drift>)
    ensures status == Unchecked <==> buckets != [] && forall i :: 0 <= i < |buckets| ==>
        buckets[i].escrowRef !in deposited
    ensures status == Fail <==>
        exists i :: 0 <= i < |buckets| && buckets[i].escrowRef in deposited
            && buckets[i].spent > deposited[buckets[i].escrowRef]
    ensures forall f :: f in findings <==>
              exists i :: 0 <= i < |buckets| && buckets[i].escrowRef in deposited
                  && buckets[i].spent > deposited[buckets[i].escrowRef] && f == Overspent(i)
  {
    findings := [];
    var compared := 0;
    for k := 0 to |buckets|
      invariant compared >= 0
      invariant compared == 0 <==> forall i :: 0 <= i < k ==> buckets[i].escrowRef !in deposited
      invariant compared == 0 ==> findings == []
      invariant findings != [] <==>
                  exists i :: 0 <= i < k && buckets[i].escrowRef in deposited
                      && buckets[i].spent > deposited[buckets[i].escrowRef]
      invariant forall f :: f in findings <==>
                  exists i :: 0 <= i < k && buckets[i].escrowRef in deposited
                      && buckets[i].spent > deposited[buckets[i].escrowRef] && f == Overspent(i)
    {
      if buckets[k].escrowRef in deposited {
        compared := compared + 1;
        if buckets[k].spent > deposited[buckets[k].escrowRef] { findings := findings + [Overspent(k)]; }
      }
    }
    status := if compared == 0 && |buckets| > 0 then Unchecked else Judge(findings);
  }

  // ---- an outbox that follows the chain -----------------------------------------------------------------------------

  datatype Books = Books(sim: Sim, rows: seq<PayoutRow>)

  datatype BookOp =
    | Queue(row: PayoutRow)
    | Pay(at: nat, signed: Signed, auth: Auth)
    | Send(ats: seq<nat>, batch: seq<Signed>, auth: Auth)
    | Credit(input: DepositInput)
    | Hold(order: SignedFreeze, auth: Auth)

  predicate Pays(b: Books, at: nat, m: Message)
  {
    && at < |b.rows| && m.payoutRef == b.rows[at].payoutRef && m.escrowRef == b.rows[at].escrowRef
    && m.amount == b.rows[at].amount
  }

  /** The batch's releases are those of the rows. */
  predicate PaysAll(b: Books, ats: seq<nat>, batch: seq<Signed>)
  {
    |ats| == |batch| && forall i :: 0 <= i < |ats| ==> Pays(b, ats[i], batch[i].message)
  }

  function Confirmed(rows: seq<PayoutRow>, ats: seq<nat>): (after: seq<PayoutRow>)
    requires forall i :: 0 <= i < |ats| ==> ats[i] < |rows|
    ensures |after| == |rows|
    decreases |ats|
  {
    if ats == [] then rows else Confirmed(rows[ats[0] := rows[ats[0]].(confirmed := true)], ats[1..])
  }

  /** A new chain, and an empty outbox. */
  function NewBooks(chainId: nat, settlement: Option<Address>): Books { Books(NewSim(chainId, settlement), []) }

  /** A row is queued under a fresh reference, and recorded as paid in the step that pays it. */
  function BookStep(b: Books, op: BookOp): Books
    requires b.sim.blocks != []
  {
    match op
    case Queue(row) =>
      if row.confirmed || row.payoutRef in b.sim.paid then b
      else if exists i :: 0 <= i < |b.rows| && b.rows[i].payoutRef == row.payoutRef then b
      else b.(rows := b.rows + [row])
    case Pay(at, signed, auth) =>
      var paid := Payout(b.sim, signed, auth);
      if Pays(b, at, signed.message) && paid.Ok? then Books(paid.value, b.rows[at := b.rows[at].(confirmed := true)])
      else b
    case Send(ats, batch, auth) =>
      if !PaysAll(b, ats, batch) then b
      else
        var (after, refused) := Batch(b.sim, batch, auth);
        Books(after, if refused.None? then Confirmed(b.rows, ats) else b.rows)
    case Credit(input) => b.(sim := SubmitDeposit(b.sim, input))
    case Hold(order, auth) =>
      var frozen := ExecuteFreeze(b.sim, order, auth);
      if frozen.Ok? then b.(sim := frozen.value) else b
  }

  function SpentRows(rows: seq<PayoutRow>, e: EscrowRef): nat
  {
    if rows == [] then 0
    else SpentRows(rows[..|rows| - 1], e) + if rows[|rows| - 1].confirmed && rows[|rows| - 1].escrowRef == e
    then rows[|rows| - 1].amount else 0
  }

  function SpentOnChain(s: Sim, e: EscrowRef): nat
  {
    if e in s.buckets then s.buckets[e].released + s.buckets[e].refunded else 0
  }

  ghost predicate RowsDistinct(rows: seq<PayoutRow>)
  {
    forall i, j :: 0 <= i < j < |rows| ==> rows[i].payoutRef != rows[j].payoutRef
  }

  ghost predicate RowsTold(rows: seq<PayoutRow>, paid: set<nat>)
  {
    forall i :: 0 <= i < |rows| ==> (rows[i].confirmed <==> rows[i].payoutRef in paid)
  }

  /** The outbox lists exactly what the escrow has paid. */
  ghost predicate Mirrors(b: Books)
  {
    && b.sim.blocks != [] && EscrowInv(b.sim)
    && RowsDistinct(b.rows) && RowsTold(b.rows, b.sim.paid.Keys)
    && (forall e :: SpentRows(b.rows, e) == SpentOnChain(b.sim, e))
  }

  lemma {:induction false} SpentConfirm(rows: seq<PayoutRow>, at: nat, e: EscrowRef)
    requires at < |rows| && !rows[at].confirmed
    ensures SpentRows(rows[at := rows[at].(confirmed := true)], e) == SpentRows(rows, e) + if rows[at].escrowRef == e
        then rows[at].amount else 0
  {
    var n := |rows| - 1;
    var after := rows[at := rows[at].(confirmed := true)];
    if at == n {
      assert after[..n] == rows[..n];
    } else {
      assert after[..n] == rows[..n][at := rows[at].(confirmed := true)];
      SpentConfirm(rows[..n], at, e);
    }
  }

  lemma QueueKeeps(b: Books, row: PayoutRow)
    requires Mirrors(b)
    ensures Mirrors(BookStep(b, Queue(row)))
  {
    var after := BookStep(b, Queue(row));
    if after != b {
      assert after.rows[..|b.rows|] == b.rows;
      forall e
        ensures SpentRows(after.rows, e) == SpentOnChain(after.sim, e)
      {
        assert SpentRows(b.rows, e) == SpentOnChain(b.sim, e);
      }
    }
  }

  lemma PayMoves(b: Books, at: nat, signed: Signed, auth: Auth, e: EscrowRef)
    requires b.sim.blocks != [] && Pays(b, at, signed.message) && Payout(b.sim, signed, auth).Ok?
    ensures SpentOnChain(Payout(b.sim, signed, auth).value, e) ==
            SpentOnChain(b.sim, e) + if b.rows[at].escrowRef == e then b.rows[at].amount else 0
  {
  }

  lemma PayMarks(b: Books, at: nat, signed: Signed, auth: Auth)
    requires b.sim.blocks != [] && Payout(b.sim, signed, auth).Ok?
    ensures var after := Payout(b.sim, signed, auth).value;
            && after.blocks != [] && signed.message.payoutRef !in b.sim.paid
            && after.paid.Keys == b.sim.paid.Keys + {signed.message.payoutRef}
  {
  }

  lemma PayKeeps(b: Books, at: nat, signed: Signed, auth: Auth)
    requires Mirrors(b)
    ensures Mirrors(BookStep(b, Pay(at, signed, auth)))
  {
    if Pays(b, at, signed.message) && Payout(b.sim, signed, auth).Ok? {
      PaidMirrors(b, at, signed, auth, Payout(b.sim, signed, auth).value);
    }
  }

  lemma ConfirmTold(rows: seq<PayoutRow>, at: nat, paid: set<nat>)
    requires at < |rows| && RowsDistinct(rows) && RowsTold(rows, paid)
    ensures var after := rows[at := rows[at].(confirmed := true)];
        RowsDistinct(after) && RowsTold(after, paid + {rows[at].payoutRef})
  {
    var after := rows[at := rows[at].(confirmed := true)];
    assert forall i :: 0 <= i < |rows| ==> after[i].payoutRef == rows[i].payoutRef;
  }

  lemma PaidMirrors(b: Books, at: nat, signed: Signed, auth: Auth, after: Sim)
    requires Mirrors(b) && Pays(b, at, signed.message) && Payout(b.sim, signed, auth) == Ok(after)
    ensures Mirrors(Books(after, b.rows[at := b.rows[at].(confirmed := true)]))
  {
    PayMarks(b, at, signed, auth);
    ConfirmTold(b.rows, at, b.sim.paid.Keys);
    assert EscrowInv(after) by { PayoutKeepsBooks(b.sim, signed, auth); }
    PaidSums(b, at, signed, auth, after);
  }

  lemma PaidSums(b: Books, at: nat, signed: Signed, auth: Auth, after: Sim)
    requires b.sim.blocks != [] && Pays(b, at, signed.message) && !b.rows[at].confirmed
             && Payout(b.sim, signed, auth) == Ok(after)
    requires forall e :: SpentRows(b.rows, e) == SpentOnChain(b.sim, e)
    ensures forall e :: SpentRows(b.rows[at := b.rows[at].(confirmed := true)], e) == SpentOnChain(after, e)
  {
    var rows := b.rows[at := b.rows[at].(confirmed := true)];
    forall e
      ensures SpentRows(rows, e) == SpentOnChain(after, e)
    {
      SpentConfirm(b.rows, at, e);
      PayMoves(b, at, signed, auth, e);
      assert SpentRows(b.rows, e) == SpentOnChain(b.sim, e);
    }
  }

  lemma PaysOn(b: Books, ats: seq<nat>, batch: seq<Signed>, after: Sim)
    requires PaysAll(b, ats, batch) && batch != []
    ensures PaysAll(Books(after, b.rows[ats[0] := b.rows[ats[0]].(confirmed := true)]), ats[1..], batch[1..])
  {
    forall i | 0 <= i < |ats| - 1
      ensures Pays(Books(after, b.rows[ats[0] := b.rows[ats[0]].(confirmed := true)]), ats[1..][i],
          batch[1..][i].message)
    {
      assert Pays(b, ats[i + 1], batch[i + 1].message);
    }
  }

  /** An accepted batch is its payments, one by one. */
  lemma {:induction false} SentMirrors(b: Books, ats: seq<nat>, batch: seq<Signed>, auth: Auth)
    requires Mirrors(b) && PaysAll(b, ats, batch) && RunReleases(b.sim, batch, auth).1.None?
    ensures forall i :: 0 <= i < |ats| ==> ats[i] < |b.rows|
    ensures Mirrors(Books(RunReleases(b.sim, batch, auth).0, Confirmed(b.rows, ats)))
    decreases |batch|
  {
    if batch != [] {
      var next := Payout(b.sim, batch[0], auth).value;
      PaidMirrors(b, ats[0], batch[0], auth, next);
      PaysOn(b, ats, batch, next);
      SentMirrors(Books(next, b.rows[ats[0] := b.rows[ats[0]].(confirmed := true)]), ats[1..], batch[1..], auth);
    }
  }

  lemma SendKeeps(b: Books, ats: seq<nat>, batch: seq<Signed>, auth: Auth)
    requires Mirrors(b)
    ensures Mirrors(BookStep(b, Send(ats, batch, auth)))
  {
    if PaysAll(b, ats, batch) {
      BatchIsAtomic(b.sim, batch, auth);
      if Batch(b.sim, batch, auth).1.None? {
        SentMirrors(b, ats, batch, auth);
      } else {
        RefusedMirrors(b, Batch(b.sim, batch, auth).0);
      }
    }
  }

  /** Only blocks and the hash counter moved. */
  lemma RefusedMirrors(b: Books, after: Sim)
    requires Mirrors(b) && after == b.sim.(blocks := after.blocks, salt := after.salt) && after.blocks != []
    ensures Mirrors(Books(after, b.rows))
  {
    assert SpentBy(after.buckets) == SpentBy(b.sim.buckets);
    forall e
      ensures SpentRows(b.rows, e) == SpentOnChain(after, e)
    {
      assert SpentRows(b.rows, e) == SpentOnChain(b.sim, e);
    }
  }

  lemma NewMirrors(chainId: nat, settlement: Option<Address>)
    ensures Mirrors(NewBooks(chainId, settlement))
  {
    var b := NewBooks(chainId, settlement);
    assert SpentBy(b.sim.buckets) == map[];
    assert EscrowInv(b.sim);
  }

  lemma CreditKeeps(b: Books, input: DepositInput)
    requires Mirrors(b)
    ensures Mirrors(BookStep(b, Credit(input)))
  {
    DepositKeepsBooks(b.sim, input);
    forall e
      ensures SpentOnChain(SubmitDeposit(b.sim, input), e) == SpentOnChain(b.sim, e)
    {
    }
  }

  lemma HoldKeeps(b: Books, order: SignedFreeze, auth: Auth)
    requires Mirrors(b)
    ensures Mirrors(BookStep(b, Hold(order, auth)))
  {
    var frozen := ExecuteFreeze(b.sim, order, auth);
    if frozen.Ok? {
      FreezeKeepsBooks(b.sim, order, auth);
      forall e
        ensures SpentOnChain(frozen.value, e) == SpentOnChain(b.sim, e)
      {
      }
    }
  }

  /** A run of the books from a new chain: each state is the step of the one before. */
  ghost predicate BookRun(states: seq<Books>, ops: seq<BookOp>)
  {
    && |states| == |ops| + 1 && (exists chainId, settlement :: states[0] == NewBooks(chainId, settlement))
    && forall i :: 0 <= i < |ops| ==> states[i].sim.blocks != [] && states[i + 1] == BookStep(states[i], ops[i])
  }

  lemma {:induction false} RunMirrors(states: seq<Books>, ops: seq<BookOp>, k: nat)
    requires BookRun(states, ops) && k < |states|
    ensures Mirrors(states[k])
  {
    if k == 0 {
      var chainId, settlement :| states[0] == NewBooks(chainId, settlement);
      NewMirrors(chainId, settlement);
    } else {
      RunMirrors(states, ops, k - 1);
      match ops[k - 1]
      case Queue(row) => QueueKeeps(states[k - 1], row);
      case Pay(at, signed, auth) => PayKeeps(states[k - 1], at, signed, auth);
      case Send(ats, batch, auth) => SendKeeps(states[k - 1], ats, batch, auth);
      case Credit(input) => CreditKeeps(states[k - 1], input);
      case Hold(order, auth) => HoldKeeps(states[k - 1], order, auth);
    }
  }

  /** What the chain answers about any set of references: the recorded hash, or that it knows none. */
  ghost predicate AnswersOf(s: Sim, paidOnChain: map<nat, Option<Hash>>)
  {
    forall p :: p in paidOnChain ==> paidOnChain[p] == if p in s.paid then Some(s.paid[p]) else None
  }

  ghost predicate DepositsOf(s: Sim, deposited: map<EscrowRef, nat>)
  {
    forall e :: e in deposited ==> e in s.buckets && deposited[e] == s.buckets[e].deposited
  }

  /** At every point of every run, whatever part of the chain answers, neither chain check finds drift. */
  lemma CleanOnTheChain(states: seq<Books>, ops: seq<BookOp>, k: nat, paidOnChain: map<nat, Option<Hash>>,
      deposited: map<EscrowRef, nat>, balances: seq<BucketBalance>)
    requires BookRun(states, ops) && k < |states|
    requires AnswersOf(states[k].sim, paidOnChain) && DepositsOf(states[k].sim, deposited)
    requires forall i :: 0 <= i < |balances| ==> balances[i].spent == SpentRows(states[k].rows, balances[i].escrowRef)
    ensures forall i :: 0 <= i < |states[k].rows| && Compared(states[k].rows[i], paidOnChain) ==>
        Agrees(states[k].rows[i], paidOnChain)
    ensures forall i :: 0 <= i < |balances| && balances[i].escrowRef in deposited ==>
        balances[i].spent <= deposited[balances[i].escrowRef]
  {
    RunMirrors(states, ops, k);
    forall i | 0 <= i < |balances| && balances[i].escrowRef in deposited
      ensures balances[i].spent <= deposited[balances[i].escrowRef]
    {
      var e := balances[i].escrowRef;
      assert SpentRows(states[k].rows, e) == SpentOnChain(states[k].sim, e);
    }
  }
}
