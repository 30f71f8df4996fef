/** Small shared datatypes, and sums over finite maps. */
module Common {
  datatype Option<+T> = None | Some(value: T)

  datatype Result<+T, +E> = Ok(value: T) | Err(error: E) {
    predicate IsFailure() { Err? }

    function PropagateFailure<U>(): Result<U, E>
      requires Err?
    {
      Err(error)
    }

    function Extract(): T
      requires Ok?
    {
      value
    }
  }
}

/** The sum of the values of a finite map, and how it moves when the map grows. */
module MapSums {
  ghost function Sum<K>(m: map<K, nat>): nat
  {
    if m == map[] then 0
    else
      var k :| k in m;
      m[k] + Sum(m - {k})
  }

  lemma {:induction false} SumRemove<K>(m: map<K, nat>, k: K)
    requires k in m
    ensures Sum(m) == m[k] + Sum(m - {k})
    decreases |m|
  {
    var c :| c in m && Sum(m) == m[c] + Sum(m - {c});
    if c != k {
      SumRemove(m - {c}, k);
      SumRemove(m - {k}, c);
      assert m - {c} - {k} == m - {k} - {c};
    }
  }

  lemma SumAdd<K>(m: map<K, nat>, k: K, v: nat)
    requires k !in m
    ensures Sum(m[k := v]) == Sum(m) + v
  {
    SumRemove(m[k := v], k);
    assert m[k := v] - {k} == m;
  }

  lemma SumUpdate<K>(m: map<K, nat>, k: K, v: nat)
    requires k in m
    ensures Sum(m[k := v]) == Sum(m) - m[k] + v
  {
    SumRemove(m, k);
    SumRemove(m[k := v], k);
    assert m[k := v] - {k} == m - {k};
  }

  /** A part of a map never sums to more than the whole. */
  lemma {:induction false} SumSubmap<K>(part: map<K, nat>, whole: map<K, nat>)
    requires forall k :: k in part ==> k in whole && whole[k] == part[k]
    ensures Sum(part) <= Sum(whole)
    decreases |part|
  {
    if part != map[] {
      var k :| k in part;
      SumRemove(part, k);
      SumRemove(whole, k);
      SumSubmap(part - {k}, whole - {k});
    }
  }
}

/** Facts about runs that do not depend on what runs. */
module Along {
  /** What each step keeps exactly when it is not bad holds all along exactly when no step was bad. */
  lemma {:induction false} HoldsExactly(good: seq<bool>, bad: seq<bool>, i: nat, k: nat)
    requires |good| == |bad| + 1 && i <= k < |good| && good[i]
    requires forall j :: i <= j < k && good[j] ==> (good[j + 1] <==> !bad[j])
    ensures (forall j :: i <= j <= k ==> good[j]) <==> (forall j :: i <= j < k ==> !bad[j])
    decreases k
  {
    if i < k {
      HoldsExactly(good, bad, i, k - 1);
      assert good[k - 1] ==> (good[k - 1 + 1] <==> !bad[k - 1]);
      if forall j :: i <= j < k ==> !bad[j] {
        assert good[k - 1];
      }
      if forall j :: i <= j <= k ==> good[j] {
        assert good[k - 1] && good[k];
      }
    }
  }

  /** What a bad step ends for good holds at the end exactly when it held at the start and no step was bad. */
  lemma {:induction false} EndsForGood(good: seq<bool>, bad: seq<bool>, i: nat, k: nat)
    requires |good| == |bad| + 1 && i <= k < |good|
    requires forall j :: i <= j < k ==> (good[j + 1] <==> good[j] && !bad[j])
    ensures good[k] <==> good[i] && forall j :: i <= j < k ==> !bad[j]
    decreases k
  {
    if i < k {
      EndsForGood(good, bad, i, k - 1);
      assert good[k - 1 + 1] <==> good[k - 1] && !bad[k - 1];
    }
  }

  /** A count that a step raises exactly when it is bad is the same in the end exactly when no step was bad. */
  lemma {:induction false} SameExactly(count: seq<int>, bad: seq<bool>, i: nat, k: nat)
    requires |count| == |bad| + 1 && i <= k < |count|
    requires forall j :: i <= j < k ==> if bad[j] then count[j + 1] > count[j] else count[j + 1] == count[j]
    ensures count[k] >= count[i] && (count[k] == count[i] <==> forall j :: i <= j < k ==> !bad[j])
    decreases k
  {
    if i < k {
      SameExactly(count, bad, i, k - 1);
      assert if bad[k - 1] then count[k - 1 + 1] > count[k - 1] else count[k - 1 + 1] == count[k - 1];
    }
  }
}
