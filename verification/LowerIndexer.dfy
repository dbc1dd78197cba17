/** Paging through the event log: a batch is collapsed per lower, then merged into the store. */
module LowerIndexer {
  import opened Options
  import opened Strings
  import opened BlockIds
  import opened LowerMerge
  import opened LowerStore
  import opened NumericKeys
  import opened Numbers

  const TX_LIMIT: nat := 50

  // ---- The indexer's answer ----

  function Next(p: BlockId): BlockId {
    BlockId(p.blockNumber, p.index + 1)
  }

  /** The finalised log: one event per position, in order, with ids the padding can hold. */
  predicate LogOk(log: seq<LowerEvent>) {
    && (forall i | 0 <= i < |log| :: Padded(Next(log[i].position)) && LexLe("00000", log[i].suffix))
    && (forall i, j | 0 <= i < j < |log| :: PosLt(log[i].position, log[j].position))
  }

  function Filter(log: seq<LowerEvent>, fromId: string): seq<LowerEvent> {
    if log == [] then [] else (if LexLe(fromId, log[0].Id()) then [log[0]] else []) + Filter(log[1..], fromId)
  }

  /** The query: of the first `view` events, those with an id of at least `fromId`, the least TX_LIMIT of them. */
  function Query(log: seq<LowerEvent>, view: nat, fromId: string): seq<LowerEvent> {
    var found := Filter(log[..Min(view, |log|)], fromId);
    found[..Min(TX_LIMIT, |found|)]
  }

  /** How many events of the log come before a position. */
  function Start(log: seq<LowerEvent>, pos: BlockId): (k: nat)
    ensures k <= |log|
  {
    if log == [] || !PosLt(log[0].position, pos) then 0 else 1 + Start(log[1..], pos)
  }

  lemma {:induction false} StartSplits(log: seq<LowerEvent>, pos: BlockId)
    requires LogOk(log)
    ensures forall i | 0 <= i < |log| :: i < Start(log, pos) <==> PosLt(log[i].position, pos)
  {
    if log != [] && PosLt(log[0].position, pos) {
      StartSplits(log[1..], pos);
      assert forall i | 1 <= i < |log| :: log[i] == log[1..][i - 1];
    }
  }

  lemma StartIs(log: seq<LowerEvent>, pos: BlockId, k: nat)
    requires LogOk(log) && k <= |log|
    requires forall i | 0 <= i < |log| :: i < k <==> PosLt(log[i].position, pos)
    ensures Start(log, pos) == k
  {
    var s := Start(log, pos);
    StartSplits(log, pos);
    assert s < |log| ==> !PosLt(log[s].position, pos);
    assert k < |log| ==> !PosLt(log[k].position, pos);
  }

  lemma PosLePosLt(p: BlockId, q: BlockId)
    ensures PosLe(p, q) <==> !PosLt(q, p)
  {
  }

  lemma {:induction false} FilterIsSuffix(log: seq<LowerEvent>, pos: BlockId)
    requires LogOk(log) && Padded(pos)
    ensures Filter(log, GenerateId(pos.blockNumber, pos.index)) == log[Start(log, pos)..]
  {
    if log != [] {
      var e := log[0];
      FilterByPosition(pos, e.position, e.suffix);
      PosLePosLt(pos, e.position);
      FilterIsSuffix(log[1..], pos);
      StartSplits(log, pos);
      StartSplits(log[1..], pos);
      assert log == [e] + log[1..];
      assert |log| > 1 ==> log[1..][0] == log[1] && PosLt(e.position, log[1].position);
    }
  }

  lemma StartOfPrefix(log: seq<LowerEvent>, v: nat, pos: BlockId)
    requires LogOk(log) && v <= |log|
    ensures LogOk(log[..v]) && Start(log[..v], pos) == Min(Start(log, pos), v)
  {
    StartSplits(log, pos);
    assert forall i | 0 <= i < v :: log[..v][i] == log[i];
    StartIs(log[..v], pos, Min(Start(log, pos), v));
  }

  function SliceEnd(log: seq<LowerEvent>, k: nat, view: nat): (end: nat)
    requires k <= |log|
    ensures k <= end <= |log|
  {
    if Min(view, |log|) <= k then k else Min(k + TX_LIMIT, Min(view, |log|))
  }

  lemma SliceOfFound(log: seq<LowerEvent>, view: nat, k: nat, fromId: string)
    requires k <= |log|
    requires var v := Min(view, |log|); Filter(log[..v], fromId) == log[..v][Min(k, v)..]
    ensures Query(log, view, fromId) == log[k..SliceEnd(log, k, view)]
  {
    var v := Min(view, |log|);
    if k < v {
      assert log[..v][k..] == log[k..v];
      var n := Min(TX_LIMIT, v - k);
      assert |log[k..v]| == v - k;
      assert k + n == SliceEnd(log, k, view);
      assert log[k..v][..n] == log[k..k + n];
    }
  }

  /** The answer at a cursor is the slice of the log that starts there. */
  lemma QueryIsSlice(log: seq<LowerEvent>, view: nat, pos: BlockId)
    requires LogOk(log) && Padded(pos)
    ensures Query(log, view, GenerateId(pos.blockNumber, pos.index)) ==
            log[Start(log, pos)..SliceEnd(log, Start(log, pos), view)]
  {
    StartOfPrefix(log, Min(view, |log|), pos);
    FilterIsSuffix(log[..Min(view, |log|)], pos);
    SliceOfFound(log, view, Start(log, pos), GenerateId(pos.blockNumber, pos.index));
  }

  /** An answer has at most 50 events, and fewer only if it reaches the end of what the indexer shows. */
  lemma AnswerSize(log: seq<LowerEvent>, view: nat, pos: BlockId)
    requires LogOk(log) && Padded(pos)
    ensures var answer, k := Query(log, view, GenerateId(pos.blockNumber, pos.index)), Start(log, pos);
            && |answer| <= 50
            && (|answer| < 50 ==> k + |answer| == if k < view && k < |log| then Min(view, |log|) else k)
  {
    QueryIsSlice(log, view, pos);
  }

  // ---- One batch ----

  function UpdatePosition(e: LowerEvent, pos: BlockId): BlockId {
    if pos.blockNumber < e.position.blockNumber then e.position
    else if pos.blockNumber == e.position.blockNumber && pos.index < e.position.index
    then BlockId(pos.blockNumber, e.position.index)
    else pos
  }

  function LastPosition(events: seq<LowerEvent>): BlockId {
    if events == [] then BlockId(0, 0) else UpdatePosition(events[|events| - 1], LastPosition(events[..|events| - 1]))
  }

  lemma {:induction false} LastPositionIsLast(log: seq<LowerEvent>, k: nat, end: nat)
    requires LogOk(log) && k < end <= |log|
    ensures LastPosition(log[k..end]) == log[end - 1].position
    decreases end - k
  {
    var events := log[k..end];
    assert events[..|events| - 1] == log[k..end - 1];
    if k + 1 < end {
      LastPositionIsLast(log, k, end - 1);
      assert PosLt(log[end - 2].position, log[end - 1].position);
    }
  }

  function Get(m: map<nat, LowerData>, n: nat): Option<LowerData> {
    if n in m then Some(m[n]) else None
  }

  function Combine(p: Proofs, a: Option<LowerData>, b: Option<LowerData>): Option<LowerData> {
    if a.None? then b else if b.None? then a else Some(Merge(p, a.value, b.value))
  }

  function Collapse(p: Proofs, avt: string, events: seq<LowerEvent>): map<nat, LowerData> {
    if events == [] then map[] else
      var m, e := Collapse(p, avt, events[..|events| - 1]), events[|events| - 1];
      if e.args.lowerId.IdOf? then
        var n := e.args.lowerId.n;
        m[n := Combine(p, Get(m, n), Some(FromEvent(p, e, n, avt))).value]
      else m
  }

  function StoreOne(p: Proofs, db: LowerDb, n: nat, d: LowerData): LowerDb {
    SetLower(db, n, if n in db.lowers then Merge(p, db.lowers[n], d) else d)
  }

  function StoreKeys(p: Proofs, db: LowerDb, distinct: map<nat, LowerData>, keys: seq<nat>): LowerDb
    requires forall k | k in keys :: k in distinct
  {
    if keys == [] then db else
      var n := keys[|keys| - 1];
      StoreOne(p, StoreKeys(p, db, distinct, keys[..|keys| - 1]), n, distinct[n])
  }

  lemma StoreKeysStep(p: Proofs, db: LowerDb, distinct: map<nat, LowerData>, keys: seq<nat>, i: nat)
    requires (forall k | k in keys :: k in distinct) && i < |keys|
    ensures StoreKeys(p, db, distinct, keys[..i + 1]) ==
            StoreOne(p, StoreKeys(p, db, distinct, keys[..i]), keys[i], distinct[keys[i]])
  {
    assert keys[..i + 1][..i] == keys[..i];
  }

  /** Ways a batch attempt can break: the indexer, a proof query, or the store after some writes. */
  datatype Fault = NoFault | FetchFails | ProofFails | StoreFails(after: nat)

  predicate Throws(e: LowerEvent, fault: Fault) {
    e.args.lowerId.BadId? || (fault.ProofFails? && e.args.lowerId.IdOf? && e.name.LowerReadyToClaim?)
  }

  predicate AnyThrows(events: seq<LowerEvent>, fault: Fault) {
    exists i | 0 <= i < |events| :: Throws(events[i], fault)
  }

  function KeysOf(distinct: map<nat, LowerData>): seq<nat> {
    Ascending(distinct.Keys)
  }

  function StorePrefix(p: Proofs, db: LowerDb, distinct: map<nat, LowerData>, count: nat): LowerDb
    requires count <= |KeysOf(distinct)|
  {
    AscendingLists(distinct.Keys);
    StoreKeys(p, db, distinct, KeysOf(distinct)[..count])
  }

  /** A batch attempt: the new store, and where the batch ended unless it was empty or broke. */
  function ProcessBatch(p: Proofs, avt: string, events: seq<LowerEvent>, fault: Fault, db: LowerDb)
    : (LowerDb, Option<BlockId>)
  {
    if fault.FetchFails? || events == [] || AnyThrows(events, fault) then (db, None)
    else
      var distinct := Collapse(p, avt, events);
      if fault.StoreFails? && fault.after < |KeysOf(distinct)| then (StorePrefix(p, db, distinct, fault.after), None)
      else (StorePrefix(p, db, distinct, |KeysOf(distinct)|), Some(LastPosition(events)))
  }

  /** A batch that meets no other fault yields nothing if and only if it is empty, holds an unreadable id, or, while
      proofs cannot be fetched, holds a lower that is ready to claim. */
  lemma BatchFailsExactly(p: Proofs, avt: string, events: seq<LowerEvent>, proofFails: bool, db: LowerDb)
    ensures ProcessBatch(p, avt, events, if proofFails then ProofFails else NoFault, db).1.None? <==>
            || events == []
            || exists i | 0 <= i < |events| ::
                 || events[i].args.lowerId.BadId?
                 || (proofFails && events[i].args.lowerId.IdOf? && events[i].name.LowerReadyToClaim?)
  {
    var fault := if proofFails then ProofFails else NoFault;
    if i :| 0 <= i < |events| && Throws(events[i], fault) {
      assert AnyThrows(events, fault);
    }
  }

  /** The first loop of a batch: follow the position and fold the events of each lower; false if something throws. */
  method CollapseEvents(lowersArray: seq<LowerEvent>, p: Proofs, avtContract: string, fault: Fault)
    returns (ok: bool, distinctLowers: map<nat, LowerData>, position: BlockId)
    ensures ok <==> !AnyThrows(lowersArray, fault)
    ensures ok ==> distinctLowers == Collapse(p, avtContract, lowersArray) && position == LastPosition(lowersArray)
  {
    position, distinctLowers := BlockId(0, 0), map[];
    for i := 0 to |lowersArray|
      invariant forall j | 0 <= j < i :: !Throws(lowersArray[j], fault)
      invariant position == LastPosition(lowersArray[..i])
      invariant distinctLowers == Collapse(p, avtContract, lowersArray[..i])
    {
      var lowerData := lowersArray[i];
      assert lowersArray[..i + 1][..i] == lowersArray[..i];
      position := UpdatePosition(lowerData, position);
      if lowerData.args.lowerId.NoId? {
        continue;
      }
      if lowerData.args.lowerId.BadId? {
        assert Throws(lowersArray[i], fault);
        return false, distinctLowers, position;
      }
      var lowerId := lowerData.args.lowerId.n;
      var newEvent := FormatLowerEvent(lowerData, lowerId, avtContract);
      if newEvent.name == LowerReadyToClaim {
        if fault.ProofFails? {
          assert Throws(lowersArray[i], fault);
          return false, distinctLowers, position;
        }
        newEvent := newEvent.(claimData := p(lowerId));
      }
      if lowerId !in distinctLowers {
        distinctLowers := distinctLowers[lowerId := newEvent];
        continue;
      }
      distinctLowers := distinctLowers[lowerId := Merge(p, distinctLowers[lowerId], newEvent)];
    }
    assert lowersArray[..|lowersArray|] == lowersArray;
    ok := true;
  }

  /** The second loop: merge each collapsed lower into the store, in key order; false if a write throws. */
  method StoreLowers(redis: RedisLowers, p: Proofs, distinctLowers: map<nat, LowerData>, fault: Fault)
    returns (ok: bool)
    modifies redis
    ensures ok <==> !(fault.StoreFails? && fault.after < |KeysOf(distinctLowers)|)
    ensures redis.Db() == StorePrefix(p, old(redis.Db()), distinctLowers,
                                      if ok then |KeysOf(distinctLowers)| else fault.after)
    ensures redis.lastBlockId == old(redis.lastBlockId)
  {
    AscendingLists(distinctLowers.Keys);
    var keys := KeysOf(distinctLowers);
    for i := 0 to |keys|
      invariant fault.StoreFails? ==> i <= fault.after
      invariant redis.Db() == StoreKeys(p, old(redis.Db()), distinctLowers, keys[..i])
      invariant redis.lastBlockId == old(redis.lastBlockId)
    {
      if fault.StoreFails? && fault.after == i {
        return false;
      }
      var key := keys[i];
      StoreKeysStep(p, old(redis.Db()), distinctLowers, keys, i);
      var newLower := distinctLowers[key];
      if key !in redis.lowers {
        redis.SetLowerById(key, newLower);
      } else {
        var storedLower := Merge(p, redis.lowers[key], newLower);
        redis.SetLowerById(key, storedLower);
      }
    }
    ok := true;
  }

  method ProcessLowerEvents(redis: RedisLowers, p: Proofs, avtContract: string, log: seq<LowerEvent>,
                            view: nat, fault: Fault, fromId: string)
    returns (toBlock: Option<BlockId>)
    modifies redis
    ensures (redis.Db(), toBlock) ==
            ProcessBatch(p, avtContract, Query(log, view, fromId), fault, old(redis.Db()))
    ensures redis.lastBlockId == old(redis.lastBlockId)
  {
    var lowersArray := if fault.FetchFails? then [] else Query(log, view, fromId);
    if |lowersArray| == 0 {
      return None;
    }
    var ok, distinctLowers, position := CollapseEvents(lowersArray, p, avtContract, fault);
    if !ok {
      return None;
    }
    ok := StoreLowers(redis, p, distinctLowers, fault);
    toBlock := if ok then Some(position) else None;
  }

  // ---- A run of batches ----

  lemma StartAfter(log: seq<LowerEvent>, end: nat)
    requires LogOk(log) && 0 < end <= |log|
    ensures Padded(Next(log[end - 1].position)) && Start(log, Next(log[end - 1].position)) == end
  {
    var next := Next(log[end - 1].position);
    forall i | 0 <= i < |log| ensures i < end <==> PosLt(log[i].position, next) {
      assert i < end - 1 ==> PosLt(log[i].position, log[end - 1].position);
      assert end - 1 < i ==> PosLt(log[end - 1].position, log[i].position);
    }
    StartIs(log, next, end);
  }

  lemma BatchEnds(p: Proofs, avt: string, log: seq<LowerEvent>, k: nat, end: nat, fault: Fault, db: LowerDb)
    requires LogOk(log) && k <= end <= |log|
    ensures var r := ProcessBatch(p, avt, log[k..end], fault, db).1;
            r.Some? ==> k < end && Padded(Next(r.value)) && Start(log, Next(r.value)) == end
  {
    if k < end {
      LastPositionIsLast(log, k, end);
      StartAfter(log, end);
    }
  }

  /** A batch that went through moves the cursor past everything it returned. */
  lemma BatchAdvances(p: Proofs, avt: string, log: seq<LowerEvent>, view: nat, fault: Fault, db: LowerDb, pos: BlockId)
    requires LogOk(log) && Padded(pos)
    ensures var k, events := Start(log, pos), Query(log, view, GenerateId(pos.blockNumber, pos.index));
            var end := SliceEnd(log, k, view);
            var r := ProcessBatch(p, avt, events, fault, db).1;
            && k <= end && events == log[k..end]
            && (r.Some? ==> k < end && Padded(Next(r.value)) && Start(log, Next(r.value)) == end)
  {
    QueryIsSlice(log, view, pos);
    BatchEnds(p, avt, log, Start(log, pos), SliceEnd(log, Start(log, pos), view), fault, db);
  }

  /** The paging loop: `views` and `faults` say what each attempt meets; the run ends at the first that yields nothing.
      */
  function RunUpdate(p: Proofs, avt: string, log: seq<LowerEvent>, views: nat -> nat, faults: nat -> Fault,
                     attempt: nat, db: LowerDb, pos: BlockId): (r: (LowerDb, BlockId))
    requires LogOk(log) && Padded(pos)
    ensures Padded(r.1)
    decreases |log| - Start(log, pos)
  {
    var events := Query(log, views(attempt), GenerateId(pos.blockNumber, pos.index));
    BatchAdvances(p, avt, log, views(attempt), faults(attempt), db, pos);
    var r := ProcessBatch(p, avt, events, faults(attempt), db);
    if r.1.None? then (r.0, pos)
    else RunUpdate(p, avt, log, views, faults, attempt + 1, r.0, Next(r.1.value))
  }

  method UpdateLowerData(redis: RedisLowers, p: Proofs, avtContract: string, log: seq<LowerEvent>,
                         views: nat -> nat, faults: nat -> Fault, lastAvnLowerBlockId: BlockId)
    returns (fromBlockId: string)
    requires LogOk(log) && Padded(lastAvnLowerBlockId)
    modifies redis
    ensures var r := RunUpdate(p, avtContract, log, views, faults, 0, old(redis.Db()), lastAvnLowerBlockId);
            redis.Db() == r.0 && fromBlockId == GenerateId(r.1.blockNumber, r.1.index)
    ensures redis.lastBlockId == old(redis.lastBlockId)
  {
    fromBlockId := GenerateId(lastAvnLowerBlockId.blockNumber, lastAvnLowerBlockId.index);
    ghost var pos := lastAvnLowerBlockId;
    var attempt := 0;
    var more := true;
    while more
      invariant Padded(pos) && fromBlockId == GenerateId(pos.blockNumber, pos.index)
      invariant redis.lastBlockId == old(redis.lastBlockId)
      invariant var r := RunUpdate(p, avtContract, log, views, faults, 0, old(redis.Db()), lastAvnLowerBlockId);
                if more then r == RunUpdate(p, avtContract, log, views, faults, attempt, redis.Db(), pos)
                else r == (redis.Db(), pos)
      decreases more, |log| - Start(log, pos)
    {
      BatchAdvances(p, avtContract, log, views(attempt), faults(attempt), redis.Db(), pos);
      var toBlockInfo :=
        ProcessLowerEvents(redis, p, avtContract, log, views(attempt), faults(attempt), fromBlockId);
      if toBlockInfo.Some? {
        fromBlockId := GenerateId(toBlockInfo.value.blockNumber, toBlockInfo.value.index + 1);
        pos := Next(toBlockInfo.value);
      }
      attempt := attempt + 1;
      more := toBlockInfo.Some?;
    }
  }
}
