/** Conversion of the on-chain validator set (`From<&ValidatorSet> for ValidatorVerifier`). */
module ValidatorSets {
  import opened Types
  import opened VotingPower
  import opened MultiSignatures

  datatype OnChainValidator = OnChainValidator(index: nat, info: ValidatorInfo)

  /** Map of index to validator; a repeated index keeps the last entry. */
  function ByIndex(payload: seq<OnChainValidator>): (m: map<nat, ValidatorInfo>)
    ensures forall i :: i in m <==> exists k :: 0 <= k < |payload| && payload[k].index == i
  {
    if payload == [] then map[]
    else
      var n := |payload| - 1;
      ByIndex(payload[..n])[payload[n].index := payload[n].info]
  }

  /** No later entry has the same index. */
  predicate IsLastOfIndex(payload: seq<OnChainValidator>, k: nat) {
    k < |payload| && forall j :: k < j < |payload| ==> payload[j].index != payload[k].index
  }

  lemma {:induction false} LastEntryIsKept(payload: seq<OnChainValidator>, k: nat)
    requires IsLastOfIndex(payload, k)
    ensures payload[k].index in ByIndex(payload) && ByIndex(payload)[payload[k].index] == payload[k].info
  {
    var n := |payload| - 1;
    if k < n {
      LastEntryIsKept(payload[..n], k);
    }
  }

  function Values(m: map<nat, ValidatorInfo>): seq<ValidatorInfo> {
    var keys := SortedKeys(m.Keys);
    assert forall k :: 0 <= k < |keys| ==> keys[k] in SetOf(keys);
    seq(|keys|, k requires 0 <= k < |keys| => m[keys[k]])
  }

  /** Indices are 0, 1, ..., n-1, and entries with the same index have the same address. */
  ghost predicate Dense(payload: seq<OnChainValidator>) {
    var m := ByIndex(payload);
    && (forall i :: i in m <==> 0 <= i < |m|)
    && forall k :: 0 <= k < |payload| ==> m[payload[k].index].address == payload[k].info.address
  }

  lemma {:induction false} AscendingBelowIsIdentity(s: seq<nat>, k: nat)
    requires Ascending(s) && k < |s|
    ensures s[k] >= k
    ensures s[|s| - 1] == |s| - 1 ==> s[k] == k
  {
    if k > 0 {
      AscendingBelowIsIdentity(s, k - 1);
    }
    AscendingGap(s, k, |s| - 1);
  }

  lemma {:induction false} AscendingGap(s: seq<nat>, i: nat, j: nat)
    requires Ascending(s) && i <= j < |s|
    ensures s[i] + (j - i) <= s[j]
    decreases j
  {
    if i < j {
      AscendingGap(s, i, j - 1);
    }
  }

  lemma SortedKeysLength(s: set<nat>)
    ensures |SortedKeys(s)| == |s|
  {
    if s != {} {
      LeastExists(s);
      var m :| m in s && IsLeast(s, m);
      SortedKeysLength(s - {m});
      SortedKeysHead(s, m);
    }
  }

  lemma SortedKeysHead(s: set<nat>, m: nat)
    requires IsLeast(s, m)
    ensures SortedKeys(s) == [m] + SortedKeys(s - {m})
  {
  }

  /** Pigeonhole: n distinct keys, all below n, are 0, 1, ..., n-1 in order. */
  lemma KeysBelowCount(keys: set<nat>)
    requires forall i :: i in keys ==> i < |keys|
    ensures forall k :: 0 <= k < |SortedKeys(keys)| ==> SortedKeys(keys)[k] == k
    ensures forall i :: i in keys <==> 0 <= i < |keys|
  {
    var s := SortedKeys(keys);
    SortedKeysLength(keys);
    if s != [] {
      var n := |s| - 1;
      assert s[n] in SetOf(s);
      AscendingBelowIsIdentity(s, n);
      forall k | 0 <= k < |s| ensures s[k] == k {
        AscendingBelowIsIdentity(s, k);
      }
    }
    forall i | 0 <= i < |keys| ensures i in keys {
      assert s[i] in SetOf(s);
    }
  }

  lemma DenseValues(payload: seq<OnChainValidator>)
    requires forall k :: 0 <= k < |payload| ==> payload[k].index < |ByIndex(payload)|
    ensures var m := ByIndex(payload);
      && |Values(m)| == |m|
      && (forall i :: i in m <==> 0 <= i < |m|)
      && (forall i :: 0 <= i < |m| ==> Values(m)[i] == m[i])
  {
    var m := ByIndex(payload);
    assert |m.Keys| == |m|;
    SortedKeysLength(m.Keys);
    KeysBelowCount(m.Keys);
  }

  /** The source's assertion on one payload entry. */
  predicate EntryPasses(payload: seq<OnChainValidator>, k: nat)
    requires k < |payload|
  {
    var infos := Values(ByIndex(payload));
    payload[k].index < |infos| && infos[payload[k].index].address == payload[k].info.address
  }

  lemma ValuesCount(m: map<nat, ValidatorInfo>)
    ensures |Values(m)| == |m|
  {
    SortedKeysLength(m.Keys);
    assert |m.Keys| == |m|;
  }

  lemma AllPassIffDense(payload: seq<OnChainValidator>)
    ensures (forall k :: 0 <= k < |payload| ==> EntryPasses(payload, k)) <==> Dense(payload)
  {
    hide SortedKeys, ByIndex, Values;
    var m := ByIndex(payload);
    ValuesCount(m);
    assert forall k :: 0 <= k < |payload| ==> payload[k].index in m;
    if forall k :: 0 <= k < |payload| ==> payload[k].index < |m| {
      DenseValues(payload);
      assert forall k :: 0 <= k < |payload| ==>
        (EntryPasses(payload, k) <==> m[payload[k].index].address == payload[k].info.address);
    } else {
      var k :| 0 <= k < |payload| && payload[k].index >= |m|;
      assert !EntryPasses(payload, k);
    }
  }

  /** The conversion, with `None` for a panic (an index out of bounds or a failed assertion).  It
      returns exactly on dense payloads, and then every validator sits at its own index. */
  method FromValidatorSet(payload: seq<OnChainValidator>) returns (r: Option<ValidatorVerifier>)
    ensures r.Some? <==> Dense(payload)
    ensures r.Some? ==> r.value == New(r.value.infos) && |r.value.infos| == |ByIndex(payload)|
    ensures r.Some? ==>
      forall i :: 0 <= i < |r.value.infos| ==> i in ByIndex(payload) && r.value.infos[i] == ByIndex(payload)[i]
  {
    hide ByIndex, Values, Dense;
    var infos := Values(ByIndex(payload));
    AllPassIffDense(payload);
    for i := 0 to |payload|
      invariant forall k :: 0 <= k < i ==> EntryPasses(payload, k)
    {
      if payload[i].index >= |infos| || infos[payload[i].index].address != payload[i].info.address {
        assert !EntryPasses(payload, i);
        return None;
      }
    }
    PassedValues(payload);
    r := Some(New(infos));
  }

  lemma PassedValues(payload: seq<OnChainValidator>)
    requires forall k :: 0 <= k < |payload| ==> EntryPasses(payload, k)
    ensures var m := ByIndex(payload);
      |Values(m)| == |m| && forall i :: 0 <= i < |m| ==> i in m && Values(m)[i] == m[i]
  {
    hide ByIndex, Values;
    ValuesCount(ByIndex(payload));
    forall k | 0 <= k < |payload| ensures payload[k].index < |ByIndex(payload)| {
      assert EntryPasses(payload, k);
    }
    DenseValues(payload);
  }
}
