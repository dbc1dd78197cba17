/** Whole histories of the lower store: paging runs, deletions of claimed lowers, and failure marks. */
module LowerHistory {
  import opened Options
  import opened BlockIds
  import opened LowerMerge
  import opened LowerStore
  import opened LowerIndexer
  import opened NumericKeys
  import opened Sequences
  import opened LowerBatches
  import LowerMeaning

  /** A paging run, the deletion of a lower found claimed on Ethereum, or a read that may find a failed dispatch. */
  datatype Op = Page(run: Run) | Claimed(lowerId: nat) | Read(lowerId: nat, failed: bool)

  /** The store, the saved cursor, and every lower that was ever deleted as claimed. */
  datatype History = History(db: LowerDb, cursor: string, claimed: set<nat>)

  /** getLower: a lower that is neither ready nor failed is marked once its dispatch is found to have failed. */
  function MarkIfFailed(db: LowerDb, lowerId: nat, failed: bool): LowerDb {
    if lowerId in db.lowers && Rank(db.lowers[lowerId].name) < 2 && failed
    then SetLower(db, lowerId, db.lowers[lowerId].(name := LowerFailed))
    else db
  }

  method GetLower(redis: RedisLowers, lowerId: nat, isFailedLower: bool) returns (result: Option<LowerData>)
    modifies redis
    ensures redis.Db() == MarkIfFailed(old(redis.Db()), lowerId, isFailedLower)
    ensures result == Get(redis.lowers, lowerId) && redis.lastBlockId == old(redis.lastBlockId)
  {
    if lowerId !in redis.lowers {
      return None;
    }
    var lower := redis.lowers[lowerId];
    if lower.name == LowerReadyToClaim || lower.name == LowerFailed {
      return Some(lower);
    }
    if isFailedLower {
      lower := lower.(name := LowerFailed);
      redis.SetLowerById(lowerId, lower);
    }
    result := Some(lower);
  }

  function Step(p: Proofs, avt: string, log: seq<LowerEvent>, h: History, op: Op): (r: History)
    requires LogOk(log) && CursorOk(h.cursor)
    ensures CursorOk(r.cursor)
  {
    match op
    case Page(run) =>
      var w := StepRun(p, avt, log, World(h.db, h.cursor), run);
      h.(db := w.db, cursor := w.cursor)
    case Claimed(n) => h.(db := DeleteLower(h.db, n), claimed := h.claimed + {n})
    case Read(n, failed) => h.(db := MarkIfFailed(h.db, n, failed))
  }

  function Steps(p: Proofs, avt: string, log: seq<LowerEvent>, h: History, ops: seq<Op>): (r: History)
    requires LogOk(log) && CursorOk(h.cursor)
    ensures CursorOk(r.cursor)
    decreases |ops|
  {
    if ops == [] then h else Steps(p, avt, log, Step(p, avt, log, h, ops[0]), ops[1..])
  }

  /** getLowers up to its answer: page from the saved cursor, save the cursor, delete what Ethereum reports claimed. */
  method UpdateLowers(redis: RedisLowers, p: Proofs, avtContract: string, log: seq<LowerEvent>,
                      run: Run, claimedIds: seq<nat>)
    requires LogOk(log) && CursorOk(redis.lastBlockId) && run.saved
    modifies redis
    ensures var h := Steps(p, avtContract, log, History(old(redis.Db()), old(redis.lastBlockId), {}),
                           [Page(run)] + Deletions(claimedIds));
            redis.Db() == h.db && redis.lastBlockId == h.cursor
    ensures forall n | n in claimedIds :: n !in redis.lowers
  {
    ghost var start := History(redis.Db(), redis.lastBlockId, {});
    var lastAvnLowerBlockId := ParseBlockId(redis.lastBlockId);
    var toBlock := UpdateLowerData(redis, p, avtContract, log, run.views, run.faults, lastAvnLowerBlockId);
    redis.lastBlockId := toBlock;
    ghost var h := Step(p, avtContract, log, start, Page(run));
    assert ([Page(run)] + Deletions(claimedIds))[1..] == Deletions(claimedIds);
    for i := 0 to |claimedIds|
      invariant CursorOk(h.cursor) && redis.Db() == h.db && redis.lastBlockId == h.cursor
      invariant forall n | n in claimedIds[..i] :: n !in redis.lowers
      invariant Steps(p, avtContract, log, h, Deletions(claimedIds[i..])) ==
                Steps(p, avtContract, log, start, [Page(run)] + Deletions(claimedIds))
    {
      assert Deletions(claimedIds[i..])[1..] == Deletions(claimedIds[i + 1..]);
      redis.DeleteLowerById(claimedIds[i]);
      h := Step(p, avtContract, log, h, Claimed(claimedIds[i]));
    }
  }

  function Deletions(ids: seq<nat>): (r: seq<Op>)
  {
    seq(|ids|, i requires 0 <= i < |ids| => Claimed(ids[i]))
  }

  // ---- What every history keeps ----

  /** An event has been merged: merging it again would change nothing. */
  predicate Absorbs(p: Proofs, known: Option<LowerData>, d: LowerData) {
    known.Some? && Merge(p, known.value, d) == known.value
  }

  predicate EventMerged(p: Proofs, avt: string, db: LowerDb, e: LowerEvent) {
    e.args.lowerId.IdOf? ==> Absorbs(p, Get(db.lowers, e.args.lowerId.n), FromEvent(p, e, e.args.lowerId.n, avt))
  }

  predicate Waived(e: LowerEvent, claimed: set<nat>) {
    e.args.lowerId.IdOf? && e.args.lowerId.n in claimed
  }

  /** All events before position `k` are merged, except those of lowers that were deleted as claimed. */
  predicate MergedBefore(p: Proofs, avt: string, log: seq<LowerEvent>, db: LowerDb, claimed: set<nat>, k: nat) {
    forall i | 0 <= i < |log| && i < k :: Waived(log[i], claimed) || EventMerged(p, avt, db, log[i])
  }

  ghost predicate StoreOk(p: Proofs, db: LowerDb) {
    SoundMap(p, db.lowers) && IndexAgrees(db)
  }

  ghost predicate Inv(p: Proofs, avt: string, log: seq<LowerEvent>, h: History) {
    && CursorOk(h.cursor) && StoreOk(p, h.db)
    && MergedBefore(p, avt, log, h.db, h.claimed, Start(log, ParseBlockId(h.cursor)))
  }

  lemma AbsorbedStays(p: Proofs, n: nat, a: Option<LowerData>, b: Option<LowerData>, d: LowerData)
    requires SoundFor(p, n, a) && SoundFor(p, n, b) && SoundFor(p, n, Some(d)) && Absorbs(p, a, d)
    ensures Absorbs(p, Combine(p, a, b), d)
  {
    if b.Some? {
      var x, y := a.value, b.value;
      MergeIsJoin(p, x, d);
      MergeIsJoin(p, x, y);
      MergeIsJoin(p, Join(x, y), d);
    }
  }

  lemma CombineAbsorbs(p: Proofs, n: nat, a: Option<LowerData>, b: Option<LowerData>, d: LowerData)
    requires SoundFor(p, n, a) && SoundFor(p, n, b) && SoundFor(p, n, Some(d)) && Absorbs(p, b, d)
    ensures Absorbs(p, Combine(p, a, b), d)
  {
    CombineAssociative(p, n, a, b, Some(d));
  }

  /** What a list of events says of a lower absorbs each of its events. */
  lemma {:induction false} KnownAbsorbs(p: Proofs, avt: string, events: seq<LowerEvent>, i: nat)
    requires i < |events| && events[i].args.lowerId.IdOf?
    ensures var n := events[i].args.lowerId.n; Absorbs(p, Known(p, avt, events, n), FromEvent(p, events[i], n, avt))
    decreases |events|
  {
    var front, e := events[..|events| - 1], events[|events| - 1];
    var n := events[i].args.lowerId.n;
    var d := FromEvent(p, events[i], n, avt);
    CollapseIsSound(p, avt, front);
    if i < |front| {
      KnownAbsorbs(p, avt, front, i);
      var last := if e.args.lowerId == IdOf(n) then Some(FromEvent(p, e, n, avt)) else None;
      AbsorbedStays(p, n, Known(p, avt, front, n), last, d);
    } else {
      MergeRepeats(p, d, d);
      CombineAbsorbs(p, n, Known(p, avt, front, n), Some(d), d);
    }
  }

  lemma MergedStays(p: Proofs, avt: string, db: LowerDb, events: seq<LowerEvent>, count: nat, e: LowerEvent)
    requires SoundMap(p, db.lowers) && count <= |KeysOf(Collapse(p, avt, events))| && EventMerged(p, avt, db, e)
    ensures EventMerged(p, avt, StorePrefix(p, db, Collapse(p, avt, events), count), e)
  {
    if e.args.lowerId.IdOf? {
      var n := e.args.lowerId.n;
      CollapseIsSound(p, avt, events);
      StorePrefixGet(p, db, Collapse(p, avt, events), count, n);
      AbsorbedStays(p, n, Get(db.lowers, n), Known(p, avt, events, n), FromEvent(p, e, n, avt));
    }
  }

  lemma StoredEventsMerged(p: Proofs, avt: string, db: LowerDb, events: seq<LowerEvent>, i: nat)
    requires SoundMap(p, db.lowers) && i < |events|
    ensures EventMerged(p, avt, StoreBatch(p, avt, db, events), events[i])
  {
    if events[i].args.lowerId.IdOf? {
      var n := events[i].args.lowerId.n;
      CollapseIsSound(p, avt, events);
      KnownAbsorbs(p, avt, events, i);
      StorePrefixGet(p, db, Collapse(p, avt, events), |KeysOf(Collapse(p, avt, events))|, n);
      CombineAbsorbs(p, n, Get(db.lowers, n), Known(p, avt, events, n), FromEvent(p, events[i], n, avt));
    }
  }

  lemma StoreOneKeepsIndex(p: Proofs, db: LowerDb, n: nat, d: LowerData)
    requires IndexAgrees(db)
    ensures IndexAgrees(StoreOne(p, db, n, d))
  {
    if n in db.lowers {
      MergeProgress(p, db.lowers[n], d);
      SetKeepsIndex(db, n, Merge(p, db.lowers[n], d));
    } else {
      SetKeepsIndex(db, n, d);
    }
  }

  /** A new lower is found under the account that lowered and, unless the address has sent any, under its recipient. */
  lemma NewLowerIsFound(p: Proofs, avt: string, db: LowerDb, e: LowerEvent, n: nat)
    requires IndexAgrees(db) && n !in db.lowers
    ensures var end := StoreOne(p, db, n, FromEvent(p, e, n, avt));
            && (LoweredBy(e).Some? ==> n in IdsByAddress(end, LoweredBy(e).value))
            && (e.args.t1Recipient.Some? ==>
                  var to := ToLower(e.args.t1Recipient.value);
                  SentBy(end, to) == {} ==> n in IdsByAddress(end, to))
  {
    var d := FromEvent(p, e, n, avt);
    var end := StoreOne(p, db, n, d);
    StoreOneKeepsIndex(p, db, n, d);
    if LoweredBy(e).Some? {
      LookupIsScan(end, LoweredBy(e).value);
      assert n in SentBy(end, LoweredBy(e).value);
    }
    if e.args.t1Recipient.Some? {
      ToLowerTwice(e.args.t1Recipient.value);
      LookupIsScan(end, ToLower(e.args.t1Recipient.value));
      assert n in ReceivedBy(end, ToLower(e.args.t1Recipient.value));
    }
  }

  lemma {:induction false} StoreKeysKeepsIndex(p: Proofs, db: LowerDb, distinct: map<nat, LowerData>, keys: seq<nat>)
    requires (forall k | k in keys :: k in distinct) && IndexAgrees(db)
    ensures IndexAgrees(StoreKeys(p, db, distinct, keys))
  {
    if keys != [] {
      var front, n := keys[..|keys| - 1], keys[|keys| - 1];
      StoreKeysKeepsIndex(p, db, distinct, front);
      StoreOneKeepsIndex(p, StoreKeys(p, db, distinct, front), n, distinct[n]);
    }
  }

  lemma StorePrefixKeeps(p: Proofs, avt: string, log: seq<LowerEvent>, db: LowerDb, claimed: set<nat>,
                         k: nat, end: nat, count: nat)
    requires k <= end <= |log| && StoreOk(p, db) && MergedBefore(p, avt, log, db, claimed, k)
    requires count <= |KeysOf(Collapse(p, avt, log[k..end]))|
    ensures var db' := StorePrefix(p, db, Collapse(p, avt, log[k..end]), count);
            && StoreOk(p, db') && MergedBefore(p, avt, log, db', claimed, k)
            && (count == |KeysOf(Collapse(p, avt, log[k..end]))| ==> MergedBefore(p, avt, log, db', claimed, end))
  {
    var events := log[k..end];
    var distinct := Collapse(p, avt, events);
    var db' := StorePrefix(p, db, distinct, count);
    StorePrefixIsSound(p, avt, db, events, count);
    AscendingLists(distinct.Keys);
    StoreKeysKeepsIndex(p, db, distinct, KeysOf(distinct)[..count]);
    forall i | 0 <= i < k && !Waived(log[i], claimed) ensures EventMerged(p, avt, db', log[i]) {
      MergedStays(p, avt, db, events, count, log[i]);
    }
    if count == |KeysOf(distinct)| {
      forall i | k <= i < end ensures EventMerged(p, avt, db', log[i]) {
        StoredEventsMerged(p, avt, db, events, i - k);
      }
    }
  }

  lemma BatchKeeps(p: Proofs, avt: string, log: seq<LowerEvent>, db: LowerDb, claimed: set<nat>,
                   k: nat, end: nat, fault: Fault)
    requires k <= end <= |log| && StoreOk(p, db) && MergedBefore(p, avt, log, db, claimed, k)
    ensures var r := ProcessBatch(p, avt, log[k..end], fault, db);
            StoreOk(p, r.0) && MergedBefore(p, avt, log, r.0, claimed, if r.1.Some? then end else k)
  {
    var distinct := Collapse(p, avt, log[k..end]);
    StorePrefixKeeps(p, avt, log, db, claimed, k, end, |KeysOf(distinct)|);
    if fault.StoreFails? && fault.after < |KeysOf(distinct)| {
      StorePrefixKeeps(p, avt, log, db, claimed, k, end, fault.after);
    }
  }

  lemma {:induction false} RunKeeps(p: Proofs, avt: string, log: seq<LowerEvent>, views: nat -> nat,
                                    faults: nat -> Fault, attempt: nat, db: LowerDb, claimed: set<nat>, pos: BlockId)
    requires LogOk(log) && Padded(pos) && StoreOk(p, db)
    requires MergedBefore(p, avt, log, db, claimed, Start(log, pos))
    ensures var r := RunUpdate(p, avt, log, views, faults, attempt, db, pos);
            StoreOk(p, r.0) && MergedBefore(p, avt, log, r.0, claimed, Start(log, r.1)) &&
            Start(log, pos) <= Start(log, r.1)
    decreases |log| - Start(log, pos)
  {
    var k := Start(log, pos);
    var end := SliceEnd(log, k, views(attempt));
    var r := ProcessBatch(p, avt, log[k..end], faults(attempt), db);
    BatchAdvances(p, avt, log, views(attempt), faults(attempt), db, pos);
    BatchKeeps(p, avt, log, db, claimed, k, end, faults(attempt));
    if r.1.Some? {
      RunKeeps(p, avt, log, views, faults, attempt + 1, r.0, claimed, Next(r.1.value));
    }
  }

  lemma PageKeeps(p: Proofs, avt: string, log: seq<LowerEvent>, h: History, run: Run)
    requires LogOk(log) && Inv(p, avt, log, h)
    ensures Inv(p, avt, log, Step(p, avt, log, h, Page(run)))
  {
    var pos := ParseBlockId(h.cursor);
    var r := RunUpdate(p, avt, log, run.views, run.faults, 0, h.db, pos);
    RunKeeps(p, avt, log, run.views, run.faults, 0, h.db, h.claimed, pos);
    ParseGenerated(r.1.blockNumber, r.1.index);
  }

  lemma ClaimedKeeps(p: Proofs, avt: string, log: seq<LowerEvent>, h: History, n: nat)
    requires LogOk(log) && Inv(p, avt, log, h)
    ensures Inv(p, avt, log, Step(p, avt, log, h, Claimed(n)))
  {
    var end := Step(p, avt, log, h, Claimed(n));
    DeleteKeepsIndex(h.db, n);
    forall i | 0 <= i < |log| && i < Start(log, ParseBlockId(h.cursor)) && !Waived(log[i], end.claimed)
      ensures EventMerged(p, avt, end.db, log[i])
    {
      assert EventMerged(p, avt, h.db, log[i]);
    }
  }

  /** A failure mark hides no event that was merged before it. */
  lemma MarkAbsorbs(p: Proofs, known: LowerData, d: LowerData)
    requires Rank(known.name) < 2 && Sound(p, known) && Absorbs(p, Some(known), d)
    ensures Absorbs(p, Some(known.(name := LowerFailed)), d)
  {
  }

  lemma ReadKeeps(p: Proofs, avt: string, log: seq<LowerEvent>, h: History, n: nat, failed: bool)
    requires LogOk(log) && Inv(p, avt, log, h)
    ensures Inv(p, avt, log, Step(p, avt, log, h, Read(n, failed)))
  {
    var end := MarkIfFailed(h.db, n, failed);
    if end != h.db {
      var d := h.db.lowers[n].(name := LowerFailed);
      SetKeepsIndex(h.db, n, d);
      forall i | 0 <= i < |log| && i < Start(log, ParseBlockId(h.cursor)) && !Waived(log[i], h.claimed)
        ensures EventMerged(p, avt, end, log[i])
      {
        assert EventMerged(p, avt, h.db, log[i]);
        if log[i].args.lowerId == IdOf(n) {
          MarkAbsorbs(p, h.db.lowers[n], FromEvent(p, log[i], n, avt));
        }
      }
    }
  }

  /** Over every history: an event before the saved cursor is merged unless its lower was claimed, stored data is sound,
      and the indexes agree with a plain scan of the store. */
  lemma {:induction false} HistoryKeeps(p: Proofs, avt: string, log: seq<LowerEvent>, h: History, ops: seq<Op>)
    requires LogOk(log) && Inv(p, avt, log, h)
    ensures Inv(p, avt, log, Steps(p, avt, log, h, ops))
    decreases |ops|
  {
    if ops != [] {
      match ops[0] {
        case Page(run) => PageKeeps(p, avt, log, h, run);
        case Claimed(n) => ClaimedKeeps(p, avt, log, h, n);
        case Read(n, failed) => ReadKeeps(p, avt, log, h, n, failed);
      }
      HistoryKeeps(p, avt, log, Step(p, avt, log, h, ops[0]), ops[1..]);
    }
  }

  lemma FromEmpty(p: Proofs, avt: string, log: seq<LowerEvent>, ops: seq<Op>)
    requires LogOk(log)
    ensures CursorOk("") && Inv(p, avt, log, Steps(p, avt, log, History(EMPTY_DB, "", {}), ops))
  {
    assert Start(log, ParseBlockId("")) == 0;
    HistoryKeeps(p, avt, log, History(EMPTY_DB, "", {}), ops);
  }

  /** The lowers counted as claimed are those of the deletions made. */
  lemma {:induction false} ClaimedAreDeleted(p: Proofs, avt: string, log: seq<LowerEvent>, h: History, ops: seq<Op>,
                                             n: nat)
    requires LogOk(log) && CursorOk(h.cursor)
    ensures n in Steps(p, avt, log, h, ops).claimed <==> n in h.claimed || Claimed(n) in ops
    decreases |ops|
  {
    if ops != [] {
      ClaimedAreDeleted(p, avt, log, Step(p, avt, log, h, ops[0]), ops[1..], n);
      assert ops == [ops[0]] + ops[1..];
    }
  }

  // ---- Marks ----

  /** A read that finds the dispatch failed marks a lower that is neither ready nor failed yet, and nothing else of it;
      no read touches another lower. */
  lemma MarkedAsFailed(db: LowerDb, lowerId: nat, failed: bool)
    ensures var end := MarkIfFailed(db, lowerId, failed);
            && end.lowers.Keys == db.lowers.Keys
            && (forall n | n in db.lowers && n != lowerId :: end.lowers[n] == db.lowers[n])
            && (lowerId in db.lowers ==>
                  var d, r := db.lowers[lowerId], end.lowers[lowerId];
                  && (r.name == if failed && !d.name.LowerReadyToClaim? then LowerFailed else d.name)
                  && r == d.(name := r.name))
  {
  }

  // ---- Which lowers are stored ----

  /** The lowers a batch attempt stores. */
  function StoredIds(p: Proofs, avt: string, events: seq<LowerEvent>, fault: Fault): set<nat> {
    var keys := KeysOf(Collapse(p, avt, events));
    if fault.FetchFails? || AnyThrows(events, fault) then {}
    else if fault.StoreFails? && fault.after < |keys| then Members(keys[..fault.after])
    else Members(keys)
  }

  /** A batch stores only lowers it has events of, and all of them unless something fails. */
  lemma StoredIdsHaveEvents(p: Proofs, avt: string, events: seq<LowerEvent>, fault: Fault, n: nat)
    ensures n in StoredIds(p, avt, events, fault) ==> exists i | 0 <= i < |events| :: events[i].args.lowerId == IdOf(n)
    ensures fault.NoFault? && IdsRead(events, 0) && (exists i | 0 <= i < |events| :: events[i].args.lowerId == IdOf(n))
            ==> n in StoredIds(p, avt, events, fault)
  {
    LowerMeaning.PresentWithEvent(p, avt, events, n);
    AscendingLists(Collapse(p, avt, events).Keys);
  }

  lemma BatchPresence(p: Proofs, avt: string, events: seq<LowerEvent>, fault: Fault, db: LowerDb, n: nat)
    ensures n in ProcessBatch(p, avt, events, fault, db).0.lowers <==>
            n in db.lowers || n in StoredIds(p, avt, events, fault)
  {
    var distinct := Collapse(p, avt, events);
    AscendingLists(distinct.Keys);
    StorePrefixGet(p, db, distinct, |KeysOf(distinct)|, n);
    assert KeysOf(distinct)[..|KeysOf(distinct)|] == KeysOf(distinct);
    if fault.StoreFails? && fault.after < |KeysOf(distinct)| {
      StorePrefixGet(p, db, distinct, fault.after, n);
      assert forall k | k in KeysOf(distinct)[..fault.after] :: k in KeysOf(distinct);
    }
  }

  /** Some batch of a paging run stores the lower. */
  predicate RunStores(p: Proofs, avt: string, log: seq<LowerEvent>, views: nat -> nat, faults: nat -> Fault,
                      attempt: nat, db: LowerDb, pos: BlockId, n: nat)
    requires LogOk(log) && Padded(pos)
    decreases |log| - Start(log, pos)
  {
    var events := Query(log, views(attempt), GenerateId(pos.blockNumber, pos.index));
    BatchAdvances(p, avt, log, views(attempt), faults(attempt), db, pos);
    var r := ProcessBatch(p, avt, events, faults(attempt), db);
    || n in StoredIds(p, avt, events, faults(attempt))
    || (r.1.Some? && RunStores(p, avt, log, views, faults, attempt + 1, r.0, Next(r.1.value), n))
  }

  lemma {:induction false} RunPresence(p: Proofs, avt: string, log: seq<LowerEvent>, views: nat -> nat,
                                       faults: nat -> Fault, attempt: nat, db: LowerDb, pos: BlockId, n: nat)
    requires LogOk(log) && Padded(pos)
    ensures n in RunUpdate(p, avt, log, views, faults, attempt, db, pos).0.lowers <==>
            n in db.lowers || RunStores(p, avt, log, views, faults, attempt, db, pos, n)
    decreases |log| - Start(log, pos)
  {
    var events := Query(log, views(attempt), GenerateId(pos.blockNumber, pos.index));
    var r := ProcessBatch(p, avt, events, faults(attempt), db);
    BatchAdvances(p, avt, log, views(attempt), faults(attempt), db, pos);
    BatchPresence(p, avt, events, faults(attempt), db, n);
    if r.1.Some? {
      RunPresence(p, avt, log, views, faults, attempt + 1, r.0, Next(r.1.value), n);
    }
  }

  /** The step is a page that stores the lower. */
  predicate Stores(p: Proofs, avt: string, log: seq<LowerEvent>, h: History, op: Op, n: nat)
    requires LogOk(log) && CursorOk(h.cursor)
  {
    op.Page? && RunStores(p, avt, log, op.run.views, op.run.faults, 0, h.db, ParseBlockId(h.cursor), n)
  }

  /** Being deleted removes a lower, being stored brings it, nothing else changes whether it is there. */
  lemma PresenceStep(p: Proofs, avt: string, log: seq<LowerEvent>, h: History, op: Op, n: nat)
    requires LogOk(log) && CursorOk(h.cursor)
    ensures n in Step(p, avt, log, h, op).db.lowers <==>
            op != Claimed(n) && (n in h.db.lowers || Stores(p, avt, log, h, op, n))
  {
    match op
    case Page(run) => RunPresence(p, avt, log, run.views, run.faults, 0, h.db, ParseBlockId(h.cursor), n);
    case Claimed(_) =>
    case Read(m, failed) => MarkedAsFailed(h.db, m, failed);
  }

  predicate AlwaysAbsent(p: Proofs, avt: string, log: seq<LowerEvent>, h: History, ops: seq<Op>, n: nat)
    requires LogOk(log) && CursorOk(h.cursor)
    decreases |ops|
  {
    n !in h.db.lowers && (ops == [] || AlwaysAbsent(p, avt, log, Step(p, avt, log, h, ops[0]), ops[1..], n))
  }

  predicate NeverStored(p: Proofs, avt: string, log: seq<LowerEvent>, h: History, ops: seq<Op>, n: nat)
    requires LogOk(log) && CursorOk(h.cursor)
    decreases |ops|
  {
    ops == [] || (!Stores(p, avt, log, h, ops[0], n) &&
                  NeverStored(p, avt, log, Step(p, avt, log, h, ops[0]), ops[1..], n))
  }

  lemma {:induction false} AbsentExactly(p: Proofs, avt: string, log: seq<LowerEvent>, h: History, ops: seq<Op>, n: nat)
    requires LogOk(log) && CursorOk(h.cursor) && n !in h.db.lowers
    ensures AlwaysAbsent(p, avt, log, h, ops, n) <==> NeverStored(p, avt, log, h, ops, n)
    decreases |ops|
  {
    if ops != [] {
      PresenceStep(p, avt, log, h, ops[0], n);
      if n !in Step(p, avt, log, h, ops[0]).db.lowers {
        AbsentExactly(p, avt, log, Step(p, avt, log, h, ops[0]), ops[1..], n);
      } else {
        assert Stores(p, avt, log, h, ops[0], n);
      }
    }
  }

  /** A lower deleted as claimed is gone, from its addresses too, and stays away in every later state if and only if no
      later page stores an event of it. */
  lemma ClaimedStaysAway(p: Proofs, avt: string, log: seq<LowerEvent>, h: History, ops: seq<Op>, n: nat)
    requires LogOk(log) && Inv(p, avt, log, h)
    ensures var end := Step(p, avt, log, h, Claimed(n));
            && n !in end.db.lowers && (forall a :: n !in IdsByAddress(end.db, a))
            && (AlwaysAbsent(p, avt, log, end, ops, n) <==> NeverStored(p, avt, log, end, ops, n))
  {
    DeletedIsGone(h.db, n);
    AbsentExactly(p, avt, log, Step(p, avt, log, h, Claimed(n)), ops, n);
  }

  // ---- Progress ----

  predicate NotBehind(a: LowerData, b: LowerData) {
    Rank(a.name) <= Rank(b.name) && (Rank(a.name) == 2 ==> a.name == b.name)
  }

  /** Nothing disappears, ranks only grow, and a ready or failed name is kept. */
  predicate Progressed(a: LowerDb, b: LowerDb) {
    forall n | n in a.lowers :: n in b.lowers && NotBehind(a.lowers[n], b.lowers[n])
  }

  lemma {:induction false} StoreKeysProgress(p: Proofs, db: LowerDb, distinct: map<nat, LowerData>, keys: seq<nat>)
    requires forall k | k in keys :: k in distinct
    ensures Progressed(db, StoreKeys(p, db, distinct, keys))
  {
    if keys != [] {
      var front, n := keys[..|keys| - 1], keys[|keys| - 1];
      StoreKeysProgress(p, db, distinct, front);
      var mid := StoreKeys(p, db, distinct, front);
      if n in mid.lowers {
        MergeProgress(p, mid.lowers[n], distinct[n]);
      }
    }
  }

  lemma BatchProgress(p: Proofs, avt: string, events: seq<LowerEvent>, fault: Fault, db: LowerDb)
    ensures Progressed(db, ProcessBatch(p, avt, events, fault, db).0)
  {
    var distinct := Collapse(p, avt, events);
    AscendingLists(distinct.Keys);
    StoreKeysProgress(p, db, distinct, KeysOf(distinct)[..|KeysOf(distinct)|]);
    if fault.StoreFails? && fault.after < |KeysOf(distinct)| {
      StoreKeysProgress(p, db, distinct, KeysOf(distinct)[..fault.after]);
    }
  }

  lemma {:induction false} RunProgress(p: Proofs, avt: string, log: seq<LowerEvent>, views: nat -> nat,
                                       faults: nat -> Fault, attempt: nat, db: LowerDb, pos: BlockId)
    requires LogOk(log) && Padded(pos)
    ensures Progressed(db, RunUpdate(p, avt, log, views, faults, attempt, db, pos).0)
    decreases |log| - Start(log, pos)
  {
    var events := Query(log, views(attempt), GenerateId(pos.blockNumber, pos.index));
    var r := ProcessBatch(p, avt, events, faults(attempt), db);
    BatchAdvances(p, avt, log, views(attempt), faults(attempt), db, pos);
    BatchProgress(p, avt, events, faults(attempt), db);
    if r.1.Some? {
      RunProgress(p, avt, log, views, faults, attempt + 1, r.0, Next(r.1.value));
    }
  }

  /** The lower does not disappear or fall behind. */
  predicate ProgressedFor(a: LowerDb, b: LowerDb, n: nat) {
    n in a.lowers ==> n in b.lowers && NotBehind(a.lowers[n], b.lowers[n])
  }

  lemma StepProgress(p: Proofs, avt: string, log: seq<LowerEvent>, h: History, op: Op, n: nat)
    requires LogOk(log) && CursorOk(h.cursor) && op != Claimed(n)
    ensures ProgressedFor(h.db, Step(p, avt, log, h, op).db, n)
  {
    if op.Page? {
      RunProgress(p, avt, log, op.run.views, op.run.faults, 0, h.db, ParseBlockId(h.cursor));
    }
  }

  /** Over any history in which it is not deleted itself, a stored lower only moves forward. */
  lemma {:induction false} HistoryProgress(p: Proofs, avt: string, log: seq<LowerEvent>, h: History,
                                           ops: seq<Op>, n: nat)
    requires LogOk(log) && CursorOk(h.cursor) && Claimed(n) !in ops
    ensures ProgressedFor(h.db, Steps(p, avt, log, h, ops).db, n)
    decreases |ops|
  {
    if ops != [] {
      assert ops[0] in ops;
      StepProgress(p, avt, log, h, ops[0], n);
      HistoryProgress(p, avt, log, Step(p, avt, log, h, ops[0]), ops[1..], n);
    }
  }
}
