/** The paged scan of the chain's ready-to-claim storage. */
module PagedScan {
  import opened Options
  import opened Sequences

  /** The keys that come after `start` in storage order; all of them if there is no start key. */
  function After(keys: seq<nat>, start: Option<nat>): seq<nat> {
    if start.None? then keys
    else if keys == [] then []
    else if keys[0] == start.value then keys[1..]
    else After(keys[1..], start)
  }

  /** keysPaged: at most `pageSize` keys after the start key. */
  function Page(keys: seq<nat>, pageSize: nat, start: Option<nat>): seq<nat> {
    var rest := After(keys, start);
    if |rest| < pageSize then rest else rest[..pageSize]
  }

  lemma {:induction false} AfterIsSuffix(keys: seq<nat>, i: nat)
    requires NoRepeats(keys) && i < |keys|
    ensures After(keys, Some(keys[i])) == keys[i + 1..]
  {
    if i > 0 {
      AfterIsSuffix(keys[1..], i - 1);
      assert keys[1..][i..] == keys[i + 1..];
    }
  }

  predicate Wanted(id: nat, minLowerId: int, additionalLowerIds: seq<nat>) {
    id > minLowerId || id in additionalLowerIds
  }

  function WantedOf(ids: seq<nat>, minLowerId: int, extra: seq<nat>): seq<nat> {
    if ids == [] then [] else
      WantedOf(ids[..|ids| - 1], minLowerId, extra) +
      (if Wanted(ids[|ids| - 1], minLowerId, extra) then [ids[|ids| - 1]] else [])
  }

  lemma {:induction false} WantedConcat(a: seq<nat>, b: seq<nat>, minLowerId: int, extra: seq<nat>)
    ensures WantedOf(a + b, minLowerId, extra) == WantedOf(a, minLowerId, extra) + WantedOf(b, minLowerId, extra)
  {
    if b == [] {
      assert a + b == a;
    } else {
      assert (a + b)[..|a + b| - 1] == a + b[..|b| - 1];
      WantedConcat(a, b[..|b| - 1], minLowerId, extra);
    }
  }

  lemma {:induction false} WantedAreFiltered(ids: seq<nat>, minLowerId: int, extra: seq<nat>)
    ensures forall id :: id in WantedOf(ids, minLowerId, extra) <==> id in ids && Wanted(id, minLowerId, extra)
  {
    if ids != [] {
      WantedAreFiltered(ids[..|ids| - 1], minLowerId, extra);
      assert ids == ids[..|ids| - 1] + [ids[|ids| - 1]];
    }
  }

  method FilterIds(entries: seq<nat>, minLowerId: int, additionalLowerIds: seq<nat>) returns (filteredIds: seq<nat>)
    ensures filteredIds == WantedOf(entries, minLowerId, additionalLowerIds)
  {
    filteredIds := [];
    for i := 0 to |entries|
      invariant filteredIds == WantedOf(entries[..i], minLowerId, additionalLowerIds)
    {
      assert entries[..i + 1][..i] == entries[..i];
      if Wanted(entries[i], minLowerId, additionalLowerIds) {
        filteredIds := filteredIds + [entries[i]];
      }
    }
    assert entries[..|entries|] == entries;
  }

  /** The reply of a multi query: the stored proof of each id, in the order asked. */
  function Multi(storage: map<nat, string>, ids: seq<nat>): (r: seq<string>)
    requires forall id | id in ids :: id in storage
  {
    seq(|ids|, i requires 0 <= i < |ids| => assert ids[i] in ids; storage[ids[i]])
  }

  /** The two growing lists: one id and its own proof at each index. */
  predicate Aligned(storage: map<nat, string>, ids: seq<nat>, claimData: seq<string>) {
    |ids| == |claimData| && forall i | 0 <= i < |ids| :: ids[i] in storage && claimData[i] == storage[ids[i]]
  }

  /** The scan ends and returns, for any page size, each wanted id of the storage with its own proof, and nothing else.
      */
  method GetUnclaimedLowerProofs(keys: seq<nat>, storage: map<nat, string>, pageSize: nat,
                                 minLowerId: int, additionalLowerIds: seq<nat>)
    returns (proofs: map<nat, string>)
    requires NoRepeats(keys) && Members(keys) == storage.Keys && pageSize > 0
    ensures proofs == map id | id in storage && (id > minLowerId || id in additionalLowerIds) :: storage[id]
  {
    var startKey: Option<nat> := None;
    var unclaimedLowerIds: seq<nat> := [];
    var claimData: seq<string> := [];
    ghost var visited: nat := 0;
    var more := true;
    while more
      invariant visited <= |keys|
      invariant After(keys, startKey) == keys[visited..]
      invariant unclaimedLowerIds == WantedOf(keys[..visited], minLowerId, additionalLowerIds)
      invariant Aligned(storage, unclaimedLowerIds, claimData)
      invariant !more ==> visited == |keys|
      decreases more, |keys| - visited
    {
      var entries := Page(keys, pageSize, startKey);
      PageIsSlice(keys, pageSize, startKey, visited);
      if |entries| > 0 {
        startKey := Some(entries[|entries| - 1]);
        PageFound(keys, storage, visited, entries, minLowerId, additionalLowerIds);
        var filteredIds, batchClaimData := ReadPage(storage, entries, minLowerId, additionalLowerIds);
        AlignedConcat(storage, unclaimedLowerIds, claimData, filteredIds, batchClaimData);
        unclaimedLowerIds := unclaimedLowerIds + filteredIds;
        claimData := claimData + batchClaimData;
        visited := visited + |entries|;
        AfterIsSuffix(keys, visited - 1);
      }
      more := |entries| > 0;
    }
    proofs := CollectProofs(unclaimedLowerIds, claimData, storage);
    assert keys[..visited] == keys;
    AllFound(keys, storage, minLowerId, additionalLowerIds);
  }

  lemma AllFound(keys: seq<nat>, storage: map<nat, string>, minLowerId: int, extra: seq<nat>)
    requires Members(keys) == storage.Keys
    ensures (map id | id in storage && id in WantedOf(keys, minLowerId, extra) :: storage[id]) ==
            (map id | id in storage && (id > minLowerId || id in extra) :: storage[id])
  {
    WantedAreFiltered(keys, minLowerId, extra);
    assert forall id | id in storage :: id in Members(keys);
  }

  /** One page: the wanted ids of its keys, and their proofs in the same order. */
  method ReadPage(storage: map<nat, string>, entries: seq<nat>, minLowerId: int, additionalLowerIds: seq<nat>)
    returns (filteredIds: seq<nat>, batchClaimData: seq<string>)
    requires forall id | id in WantedOf(entries, minLowerId, additionalLowerIds) :: id in storage
    ensures filteredIds == WantedOf(entries, minLowerId, additionalLowerIds)
    ensures Aligned(storage, filteredIds, batchClaimData)
  {
    filteredIds := FilterIds(entries, minLowerId, additionalLowerIds);
    batchClaimData := Multi(storage, filteredIds);
    assert forall i | 0 <= i < |filteredIds| :: filteredIds[i] in filteredIds;
  }

  lemma AlignedConcat(storage: map<nat, string>, ids: seq<nat>, data: seq<string>, ids': seq<nat>, data': seq<string>)
    requires Aligned(storage, ids, data) && Aligned(storage, ids', data')
    ensures Aligned(storage, ids + ids', data + data')
  {
  }

  lemma PageIsSlice(keys: seq<nat>, pageSize: nat, start: Option<nat>, visited: nat)
    requires visited <= |keys| && After(keys, start) == keys[visited..] && pageSize > 0
    ensures var entries := Page(keys, pageSize, start);
            && visited + |entries| <= |keys| && entries == keys[visited..visited + |entries|]
            && (entries == [] <==> visited == |keys|)
  {
  }

  lemma PageFound(keys: seq<nat>, storage: map<nat, string>, visited: nat, entries: seq<nat>,
                  minLowerId: int, extra: seq<nat>)
    requires visited + |entries| <= |keys| && entries == keys[visited..visited + |entries|]
    requires Members(keys) == storage.Keys
    ensures WantedOf(keys[..visited + |entries|], minLowerId, extra) ==
            WantedOf(keys[..visited], minLowerId, extra) + WantedOf(entries, minLowerId, extra)
    ensures forall id | id in WantedOf(entries, minLowerId, extra) :: id in storage
  {
    assert keys[..visited + |entries|] == keys[..visited] + entries;
    WantedConcat(keys[..visited], entries, minLowerId, extra);
    WantedAreFiltered(entries, minLowerId, extra);
    forall id | id in entries ensures id in storage {
      assert id in Members(keys);
    }
  }

  /** The final reduce: position by position, an id gets the data at its own index. */
  method CollectProofs(ids: seq<nat>, claimData: seq<string>, ghost storage: map<nat, string>)
    returns (acc: map<nat, string>)
    requires Aligned(storage, ids, claimData)
    ensures acc == map id | id in storage && id in ids :: storage[id]
  {
    acc := map[];
    for index := 0 to |claimData|
      invariant acc == map id | id in storage && id in ids[..index] :: storage[id]
    {
      assert ids[..index + 1] == ids[..index] + [ids[index]];
      acc := acc[ids[index] := claimData[index]];
    }
    assert ids[..|claimData|] == ids;
  }
}
