/** What batching, replay and partial failure leave in the store, lower by lower. */
module LowerBatches {
  import opened Options
  import opened BlockIds
  import opened LowerMerge
  import opened LowerStore
  import opened LowerIndexer
  import opened NumericKeys
  import opened Sequences

  predicate SoundFor(p: Proofs, n: nat, d: Option<LowerData>) {
    d.Some? ==> Sound(p, d.value) && d.value.lowerId == n
  }

  predicate SoundMap(p: Proofs, m: map<nat, LowerData>) {
    forall n | n in m :: Sound(p, m[n]) && m[n].lowerId == n
  }

  // ---- Combining what is known of one lower ----

  lemma CombineAssociative(p: Proofs, n: nat, a: Option<LowerData>, b: Option<LowerData>, c: Option<LowerData>)
    requires SoundFor(p, n, a) && SoundFor(p, n, b) && SoundFor(p, n, c)
    ensures SoundFor(p, n, Combine(p, a, b))
    ensures Combine(p, Combine(p, a, b), c) == Combine(p, a, Combine(p, b, c))
  {
    if a.Some? && b.Some? {
      MergeIsJoin(p, a.value, b.value);
      if c.Some? {
        MergeAssociative(p, a.value, b.value, c.value);
      }
    }
  }

  lemma CombineRepeats(p: Proofs, n: nat, a: Option<LowerData>, b: Option<LowerData>)
    requires SoundFor(p, n, a) && SoundFor(p, n, b)
    ensures Combine(p, a, a) == a && Combine(p, Combine(p, a, b), a) == Combine(p, a, b)
  {
    if a.Some? {
      MergeRepeats(p, a.value, a.value);
      if b.Some? {
        MergeRepeats(p, a.value, b.value);
      }
    }
  }

  // ---- A sequence of events, lower by lower ----

  /** What the events say of lower `n`, folded. */
  function Known(p: Proofs, avt: string, events: seq<LowerEvent>, n: nat): Option<LowerData> {
    Get(Collapse(p, avt, events), n)
  }

  lemma {:induction false} CollapseIsSound(p: Proofs, avt: string, events: seq<LowerEvent>)
    ensures SoundMap(p, Collapse(p, avt, events))
  {
    if events != [] {
      var front, e := events[..|events| - 1], events[|events| - 1];
      CollapseIsSound(p, avt, front);
      if e.args.lowerId.IdOf? {
        var n := e.args.lowerId.n;
        CombineAssociative(p, n, Known(p, avt, front, n), Some(FromEvent(p, e, n, avt)), None);
      }
    }
  }

  lemma {:induction false} KnownConcat(p: Proofs, avt: string, xs: seq<LowerEvent>, ys: seq<LowerEvent>, n: nat)
    ensures Known(p, avt, xs + ys, n) == Combine(p, Known(p, avt, xs, n), Known(p, avt, ys, n))
  {
    if ys == [] {
      assert xs + ys == xs;
    } else {
      var front, e := ys[..|ys| - 1], ys[|ys| - 1];
      assert (xs + ys)[..|xs + ys| - 1] == xs + front;
      KnownConcat(p, avt, xs, front, n);
      if e.args.lowerId == IdOf(n) {
        CollapseIsSound(p, avt, xs);
        CollapseIsSound(p, avt, front);
        CombineAssociative(p, n, Known(p, avt, xs, n), Known(p, avt, front, n), Some(FromEvent(p, e, n, avt)));
      }
    }
  }

  /** The data of the events of lower `n`, in order. */
  function DataOf(p: Proofs, avt: string, events: seq<LowerEvent>, n: nat): seq<LowerData> {
    if events == [] then [] else
      var e := events[|events| - 1];
      DataOf(p, avt, events[..|events| - 1], n) + if e.args.lowerId == IdOf(n) then [FromEvent(p, e, n, avt)] else []
  }

  lemma {:induction false} DataIsSound(p: Proofs, avt: string, events: seq<LowerEvent>, n: nat)
    ensures forall i | 0 <= i < |DataOf(p, avt, events, n)| ::
              Sound(p, DataOf(p, avt, events, n)[i]) && DataOf(p, avt, events, n)[i].lowerId == n
  {
    if events != [] {
      DataIsSound(p, avt, events[..|events| - 1], n);
    }
  }

  /** Collapsing is the left fold over the events of each lower. */
  lemma {:induction false} KnownIsFold(p: Proofs, avt: string, events: seq<LowerEvent>, n: nat)
    ensures SoundSeq(p, DataOf(p, avt, events, n))
    ensures Known(p, avt, events, n) ==
            if DataOf(p, avt, events, n) == [] then None else Some(Fold(p, DataOf(p, avt, events, n)))
  {
    DataIsSound(p, avt, events, n);
    if events != [] {
      var front, e := events[..|events| - 1], events[|events| - 1];
      KnownIsFold(p, avt, front, n);
      if e.args.lowerId == IdOf(n) {
        var d := FromEvent(p, e, n, avt);
        FoldGrows(p, DataOf(p, avt, front, n), d);
        assert DataOf(p, avt, events, n) == DataOf(p, avt, front, n) + [d];
        assert Known(p, avt, events, n) == Combine(p, Known(p, avt, front, n), Some(d));
      } else {
        assert DataOf(p, avt, events, n) == DataOf(p, avt, front, n);
      }
    }
  }

  lemma FoldGrows(p: Proofs, ds: seq<LowerData>, d: LowerData)
    ensures Fold(p, ds + [d]) == if ds == [] then d else Merge(p, Fold(p, ds), d)
  {
    assert (ds + [d])[..|ds|] == ds;
  }

  // ---- Storing a batch ----

  lemma {:induction false} StoreKeysGet(p: Proofs, db: LowerDb, distinct: map<nat, LowerData>, keys: seq<nat>, n: nat)
    requires (forall k | k in keys :: k in distinct) && NoRepeats(keys)
    ensures Get(StoreKeys(p, db, distinct, keys).lowers, n) ==
            if n in keys then Combine(p, Get(db.lowers, n), Get(distinct, n)) else Get(db.lowers, n)
  {
    if keys != [] {
      StoreKeysGet(p, db, distinct, keys[..|keys| - 1], n);
    }
  }

  /** Storing the first `count` collapsed lowers: each of them is combined into its entry, the others are untouched. */
  lemma StorePrefixGet(p: Proofs, db: LowerDb, distinct: map<nat, LowerData>, count: nat, n: nat)
    requires count <= |KeysOf(distinct)|
    ensures Get(StorePrefix(p, db, distinct, count).lowers, n) == Get(db.lowers, n) ||
            Get(StorePrefix(p, db, distinct, count).lowers, n) == Combine(p, Get(db.lowers, n), Get(distinct, n))
    ensures Get(StorePrefix(p, db, distinct, count).lowers, n) ==
            if n in KeysOf(distinct)[..count] then Combine(p, Get(db.lowers, n), Get(distinct, n))
            else Get(db.lowers, n)
    ensures count == |KeysOf(distinct)| ==>
              Get(StorePrefix(p, db, distinct, count).lowers, n) == Combine(p, Get(db.lowers, n), Get(distinct, n))
  {
    var keys := KeysOf(distinct);
    AscendingLists(distinct.Keys);
    assert forall k | k in keys[..count] :: k in keys;
    StoreKeysGet(p, db, distinct, keys[..count], n);
    assert count == |keys| ==> keys[..count] == keys;
  }

  lemma StorePrefixIsSound(p: Proofs, avt: string, db: LowerDb, events: seq<LowerEvent>, count: nat)
    requires SoundMap(p, db.lowers) && count <= |KeysOf(Collapse(p, avt, events))|
    ensures SoundMap(p, StorePrefix(p, db, Collapse(p, avt, events), count).lowers)
  {
    var distinct := Collapse(p, avt, events);
    var end := StorePrefix(p, db, distinct, count);
    CollapseIsSound(p, avt, events);
    forall n | n in end.lowers ensures Sound(p, end.lowers[n]) && end.lowers[n].lowerId == n {
      StorePrefixGet(p, db, distinct, count, n);
      CombineAssociative(p, n, Get(db.lowers, n), Get(distinct, n), None);
      assert SoundFor(p, n, Get(end.lowers, n));
    }
  }

  /** A batch that goes through. */
  function StoreBatch(p: Proofs, avt: string, db: LowerDb, events: seq<LowerEvent>): LowerDb {
    StorePrefix(p, db, Collapse(p, avt, events), |KeysOf(Collapse(p, avt, events))|)
  }

  function StoreBatches(p: Proofs, avt: string, db: LowerDb, batches: seq<seq<LowerEvent>>): LowerDb {
    if batches == [] then db
    else StoreBatch(p, avt, StoreBatches(p, avt, db, batches[..|batches| - 1]), batches[|batches| - 1])
  }

  function Concat(batches: seq<seq<LowerEvent>>): seq<LowerEvent> {
    if batches == [] then [] else Concat(batches[..|batches| - 1]) + batches[|batches| - 1]
  }

  /** However a list of events is cut into batches, each lower ends as its old entry combined with the fold of them all.
      */
  lemma {:induction false} BatchSplit(p: Proofs, avt: string, db: LowerDb, batches: seq<seq<LowerEvent>>, n: nat)
    requires SoundMap(p, db.lowers)
    ensures SoundMap(p, StoreBatches(p, avt, db, batches).lowers)
    ensures Get(StoreBatches(p, avt, db, batches).lowers, n) ==
            Combine(p, Get(db.lowers, n), Known(p, avt, Concat(batches), n))
  {
    if batches != [] {
      var front, last := batches[..|batches| - 1], batches[|batches| - 1];
      var before := StoreBatches(p, avt, db, front);
      var distinct := Collapse(p, avt, last);
      BatchSplit(p, avt, db, front, n);
      StorePrefixIsSound(p, avt, before, last, |KeysOf(distinct)|);
      StorePrefixGet(p, before, distinct, |KeysOf(distinct)|, n);
      KnownConcat(p, avt, Concat(front), last, n);
      CollapseIsSound(p, avt, Concat(front));
      CollapseIsSound(p, avt, last);
      CombineAssociative(p, n, Get(db.lowers, n), Known(p, avt, Concat(front), n), Known(p, avt, last, n));
    }
  }

  /** Two ways of cutting one list of events leave the same stored lowers. */
  lemma AnySplitAgrees(p: Proofs, avt: string, db: LowerDb, bs: seq<seq<LowerEvent>>, cs: seq<seq<LowerEvent>>)
    requires SoundMap(p, db.lowers) && Concat(bs) == Concat(cs)
    ensures StoreBatches(p, avt, db, bs).lowers == StoreBatches(p, avt, db, cs).lowers
  {
    var x, y := StoreBatches(p, avt, db, bs).lowers, StoreBatches(p, avt, db, cs).lowers;
    forall n ensures Get(x, n) == Get(y, n) {
      BatchSplit(p, avt, db, bs, n);
      BatchSplit(p, avt, db, cs, n);
    }
    SameGets(x, y);
  }

  lemma SameGets(x: map<nat, LowerData>, y: map<nat, LowerData>)
    requires forall n :: Get(x, n) == Get(y, n)
    ensures x == y
  {
    assert forall n :: n in x <==> n in y by {
      forall n ensures n in x <==> n in y {
        assert Get(x, n) == Get(y, n);
      }
    }
    forall n | n in x ensures x[n] == y[n] {
      assert Get(x, n) == Get(y, n);
    }
  }

  /** A batch stored again, after any of its lowers were stored in any order, leaves what storing it once leaves. */
  lemma ReplayIsIdempotent(p: Proofs, avt: string, db: LowerDb, events: seq<LowerEvent>, stored: seq<nat>)
    requires SoundMap(p, db.lowers) && NoRepeats(stored) && forall k | k in stored :: k in Collapse(p, avt, events)
    ensures StoreBatch(p, avt, StoreKeys(p, db, Collapse(p, avt, events), stored), events).lowers ==
            StoreBatch(p, avt, db, events).lowers
  {
    var distinct := Collapse(p, avt, events);
    var part := StoreKeys(p, db, distinct, stored);
    CollapseIsSound(p, avt, events);
    forall n ensures Get(StoreBatch(p, avt, part, events).lowers, n) == Get(StoreBatch(p, avt, db, events).lowers, n) {
      StoreKeysGet(p, db, distinct, stored, n);
      StorePrefixGet(p, db, distinct, |KeysOf(distinct)|, n);
      StorePrefixGet(p, part, distinct, |KeysOf(distinct)|, n);
      CombineRepeats(p, n, Get(distinct, n), None);
      CombineAssociative(p, n, Get(db.lowers, n), Get(distinct, n), Get(distinct, n));
    }
    SameGets(StoreBatch(p, avt, part, events).lowers, StoreBatch(p, avt, db, events).lowers);
  }

  // ---- Runs of the paging loop, with failures and restarts ----

  /** The entry of lower `n` is the fold of the first `m` events of the log. */
  predicate FoldedTo(p: Proofs, avt: string, log: seq<LowerEvent>, db: LowerDb, n: nat, m: nat) {
    m <= |log| && Get(db.lowers, n) == Known(p, avt, log[..m], n)
  }

  ghost predicate FoldedPast(p: Proofs, avt: string, log: seq<LowerEvent>, db: LowerDb, n: nat, k: nat) {
    exists m: nat :: k <= m && FoldedTo(p, avt, log, db, n, m)
  }

  /** Every lower has been folded over all events before position `k` of the log, and maybe over some later ones. */
  ghost predicate Covers(p: Proofs, avt: string, log: seq<LowerEvent>, db: LowerDb, k: nat) {
    SoundMap(p, db.lowers) && forall n :: FoldedPast(p, avt, log, db, n, k)
  }

  lemma KnownPrefix(p: Proofs, avt: string, log: seq<LowerEvent>, k: nat, m: nat, n: nat)
    requires k <= m <= |log|
    ensures Known(p, avt, log[..m], n) == Combine(p, Known(p, avt, log[..k], n), Known(p, avt, log[k..m], n))
  {
    assert log[..k] + log[k..m] == log[..m];
    KnownConcat(p, avt, log[..k], log[k..m], n);
  }

  lemma KnownInfix(p: Proofs, avt: string, log: seq<LowerEvent>, k: nat, m: nat, end: nat, n: nat)
    requires k <= m <= end <= |log|
    ensures Known(p, avt, log[k..end], n) == Combine(p, Known(p, avt, log[k..m], n), Known(p, avt, log[m..end], n))
  {
    assert log[k..m] + log[m..end] == log[k..end];
    KnownConcat(p, avt, log[k..m], log[m..end], n);
  }

  /** Merging a slice into an entry that has seen part of it, or more than it, leaves the fold up to the further end. */
  lemma SliceAbsorbed(p: Proofs, avt: string, log: seq<LowerEvent>, k: nat, end: nat, m: nat, n: nat)
    requires k <= end <= |log| && k <= m <= |log|
    ensures Combine(p, Known(p, avt, log[..m], n), Known(p, avt, log[k..end], n)) ==
            Known(p, avt, log[..if m < end then end else m], n)
  {
    var head := Known(p, avt, log[..k], n);
    CollapseIsSound(p, avt, log[..k]);
    if m < end {
      var x, y := Known(p, avt, log[k..m], n), Known(p, avt, log[m..end], n);
      CollapseIsSound(p, avt, log[k..m]);
      CollapseIsSound(p, avt, log[m..end]);
      KnownPrefix(p, avt, log, k, m, n);
      KnownPrefix(p, avt, log, k, end, n);
      KnownInfix(p, avt, log, k, m, end, n);
      CombineRepeats(p, n, x, y);
      CombineAssociative(p, n, x, x, y);
      CombineAssociative(p, n, head, x, Combine(p, x, y));
    } else {
      var x, y := Known(p, avt, log[k..end], n), Known(p, avt, log[end..m], n);
      CollapseIsSound(p, avt, log[k..end]);
      CollapseIsSound(p, avt, log[end..m]);
      KnownPrefix(p, avt, log, k, m, n);
      KnownInfix(p, avt, log, k, end, m, n);
      CombineRepeats(p, n, x, y);
      CombineAssociative(p, n, x, y, x);
      CombineAssociative(p, n, head, Combine(p, x, y), x);
    }
  }

  lemma BatchCovers(p: Proofs, avt: string, log: seq<LowerEvent>, db: LowerDb, k: nat, end: nat, count: nat)
    requires k <= end <= |log| && Covers(p, avt, log, db, k)
    requires count <= |KeysOf(Collapse(p, avt, log[k..end]))|
    ensures var db' := StorePrefix(p, db, Collapse(p, avt, log[k..end]), count);
            && Covers(p, avt, log, db', k)
            && (count == |KeysOf(Collapse(p, avt, log[k..end]))| ==> Covers(p, avt, log, db', end))
  {
    var distinct := Collapse(p, avt, log[k..end]);
    var db' := StorePrefix(p, db, distinct, count);
    StorePrefixIsSound(p, avt, db, log[k..end], count);
    var reached := if count == |KeysOf(distinct)| then end else k;
    forall n: nat ensures FoldedPast(p, avt, log, db', n, reached) {
      assert FoldedPast(p, avt, log, db, n, k);
      var m: nat :| k <= m && FoldedTo(p, avt, log, db, n, m);
      StorePrefixGet(p, db, distinct, count, n);
      SliceAbsorbed(p, avt, log, k, end, m, n);
      var further := if m < end then end else m;
      assert FoldedTo(p, avt, log, db', n, further) || (reached == k && FoldedTo(p, avt, log, db', n, m));
    }
    assert Covers(p, avt, log, db', reached);
    CoversLess(p, avt, log, db', reached, k);
  }

  lemma CoversLess(p: Proofs, avt: string, log: seq<LowerEvent>, db: LowerDb, k: nat, j: nat)
    requires Covers(p, avt, log, db, k) && j <= k
    ensures Covers(p, avt, log, db, j)
  {
    forall n: nat ensures FoldedPast(p, avt, log, db, n, j) {
      assert FoldedPast(p, avt, log, db, n, k);
    }
  }

  /** One turn of the paging loop, on the slice of the log it is answered with. */
  lemma RunTurn(p: Proofs, avt: string, log: seq<LowerEvent>, views: nat -> nat, faults: nat -> Fault, attempt: nat,
                db: LowerDb, pos: BlockId)
    requires LogOk(log) && Padded(pos)
    ensures var k := Start(log, pos);
            var end := SliceEnd(log, k, views(attempt));
            var r := ProcessBatch(p, avt, log[k..end], faults(attempt), db);
            if r.1.None? then RunUpdate(p, avt, log, views, faults, attempt, db, pos) == (r.0, pos)
            else
              && k < end && Padded(Next(r.1.value)) && Start(log, Next(r.1.value)) == end
              && RunUpdate(p, avt, log, views, faults, attempt, db, pos) ==
                 RunUpdate(p, avt, log, views, faults, attempt + 1, r.0, Next(r.1.value))
  {
    BatchAdvances(p, avt, log, views(attempt), faults(attempt), db, pos);
  }

  /** The paging loop never moves the cursor past an event that is not merged, whatever fails on the way. */
  lemma {:induction false} RunCovers(p: Proofs, avt: string, log: seq<LowerEvent>, views: nat -> nat,
                                     faults: nat -> Fault, attempt: nat, db: LowerDb, pos: BlockId)
    requires LogOk(log) && Padded(pos) && Covers(p, avt, log, db, Start(log, pos))
    ensures var r := RunUpdate(p, avt, log, views, faults, attempt, db, pos);
            && Covers(p, avt, log, r.0, Start(log, r.1))
            && Start(log, pos) <= Start(log, r.1)
    decreases |log| - Start(log, pos)
  {
    var k := Start(log, pos);
    var end := SliceEnd(log, k, views(attempt));
    var r := ProcessBatch(p, avt, log[k..end], faults(attempt), db);
    RunTurn(p, avt, log, views, faults, attempt, db, pos);
    BatchResultCovers(p, avt, log, db, k, end, faults(attempt));
    if r.1.Some? {
      RunCovers(p, avt, log, views, faults, attempt + 1, r.0, Next(r.1.value));
    }
  }

  lemma BatchResultCovers(p: Proofs, avt: string, log: seq<LowerEvent>, db: LowerDb, k: nat, end: nat, fault: Fault)
    requires k <= end <= |log| && Covers(p, avt, log, db, k)
    ensures var r := ProcessBatch(p, avt, log[k..end], fault, db);
            Covers(p, avt, log, r.0, if r.1.Some? then end else k)
  {
    var distinct := Collapse(p, avt, log[k..end]);
    BatchCovers(p, avt, log, db, k, end, |KeysOf(distinct)|);
    if fault.StoreFails? && fault.after < |KeysOf(distinct)| {
      BatchCovers(p, avt, log, db, k, end, fault.after);
    }
  }

  /** The lower ids of all events from position `from` on can be read. */
  predicate IdsRead(log: seq<LowerEvent>, from: nat) {
    forall i | from <= i < |log| :: !log[i].args.lowerId.BadId?
  }

  predicate CleanAttempt(log: seq<LowerEvent>, views: nat -> nat, faults: nat -> Fault, attempt: nat) {
    faults(attempt) == NoFault && views(attempt) >= |log|
  }

  ghost predicate Faultless(log: seq<LowerEvent>, views: nat -> nat, faults: nat -> Fault) {
    forall i: nat :: CleanAttempt(log, views, faults, i)
  }

  /** Without a fault a batch of readable events yields nothing only at the end of the log. */
  lemma ReadableBatch(p: Proofs, avt: string, log: seq<LowerEvent>, k: nat, view: nat, db: LowerDb)
    requires k <= |log| <= view && IdsRead(log, k)
    ensures ProcessBatch(p, avt, log[k..SliceEnd(log, k, view)], NoFault, db).1.None? <==> k == |log|
  {
    var events := log[k..SliceEnd(log, k, view)];
    assert forall i | 0 <= i < |events| :: events[i] == log[k + i];
    assert !AnyThrows(events, NoFault);
  }

  /** One turn of a faultless run before the end of the log. */
  lemma ReadableTurn(p: Proofs, avt: string, log: seq<LowerEvent>, views: nat -> nat, faults: nat -> Fault,
                     attempt: nat, db: LowerDb, pos: BlockId) returns (db': LowerDb, next: BlockId)
    requires LogOk(log) && Padded(pos) && Start(log, pos) < |log| && IdsRead(log, Start(log, pos))
    requires Faultless(log, views, faults)
    ensures Padded(next) && Start(log, pos) < Start(log, next) && IdsRead(log, Start(log, next))
    ensures RunUpdate(p, avt, log, views, faults, attempt, db, pos) ==
            RunUpdate(p, avt, log, views, faults, attempt + 1, db', next)
  {
    var k, view := Start(log, pos), views(attempt);
    assert CleanAttempt(log, views, faults, attempt);
    var r := ProcessBatch(p, avt, log[k..SliceEnd(log, k, view)], NoFault, db);
    RunTurn(p, avt, log, views, faults, attempt, db, pos);
    ReadableBatch(p, avt, log, k, view, db);
    db', next := r.0, Next(r.1.value);
  }

  /** At the end of the log the loop stops. */
  lemma LastTurn(p: Proofs, avt: string, log: seq<LowerEvent>, views: nat -> nat, faults: nat -> Fault,
                 attempt: nat, db: LowerDb, pos: BlockId)
    requires LogOk(log) && Padded(pos) && Start(log, pos) == |log|
    ensures RunUpdate(p, avt, log, views, faults, attempt, db, pos).1 == pos
  {
    RunTurn(p, avt, log, views, faults, attempt, db, pos);
  }

  lemma {:induction false} ReadableRunReachesEnd(p: Proofs, avt: string, log: seq<LowerEvent>, views: nat -> nat,
                                                 faults: nat -> Fault, attempt: nat, db: LowerDb, pos: BlockId)
    requires LogOk(log) && Padded(pos) && IdsRead(log, Start(log, pos)) && Faultless(log, views, faults)
    ensures Start(log, RunUpdate(p, avt, log, views, faults, attempt, db, pos).1) == |log|
    decreases |log| - Start(log, pos)
  {
    if Start(log, pos) < |log| {
      var db', next := ReadableTurn(p, avt, log, views, faults, attempt, db, pos);
      ReadableRunReachesEnd(p, avt, log, views, faults, attempt + 1, db', next);
    } else {
      LastTurn(p, avt, log, views, faults, attempt, db, pos);
    }
  }

  /** An event whose lower id cannot be read holds every run at or before it, however often it is retried. */
  lemma {:induction false} UnreadableIdBlocks(p: Proofs, avt: string, log: seq<LowerEvent>, views: nat -> nat,
                                              faults: nat -> Fault, attempt: nat, db: LowerDb, pos: BlockId, bad: nat)
    requires LogOk(log) && Padded(pos) && Start(log, pos) <= bad < |log| && log[bad].args.lowerId.BadId?
    ensures Start(log, RunUpdate(p, avt, log, views, faults, attempt, db, pos).1) <= bad
    decreases |log| - Start(log, pos)
  {
    var k := Start(log, pos);
    var end := SliceEnd(log, k, views(attempt));
    RunTurn(p, avt, log, views, faults, attempt, db, pos);
    if bad < end {
      assert log[k..end][bad - k] == log[bad] && Throws(log[k..end][bad - k], faults(attempt));
    } else {
      var r := ProcessBatch(p, avt, log[k..end], faults(attempt), db);
      if r.1.Some? {
        UnreadableIdBlocks(p, avt, log, views, faults, attempt + 1, r.0, Next(r.1.value), bad);
      }
    }
  }

  /** Without faults, and with the whole log visible, the loop ends past the last event if and only if every lower id
      from the cursor on can be read. */
  lemma FaultlessRunReachesEnd(p: Proofs, avt: string, log: seq<LowerEvent>, views: nat -> nat, faults: nat -> Fault,
                               attempt: nat, db: LowerDb, pos: BlockId)
    requires LogOk(log) && Padded(pos) && Faultless(log, views, faults)
    ensures Start(log, RunUpdate(p, avt, log, views, faults, attempt, db, pos).1) == |log| <==>
            IdsRead(log, Start(log, pos))
  {
    if IdsRead(log, Start(log, pos)) {
      ReadableRunReachesEnd(p, avt, log, views, faults, attempt, db, pos);
    } else {
      var bad: nat :| Start(log, pos) <= bad < |log| && log[bad].args.lowerId.BadId?;
      UnreadableIdBlocks(p, avt, log, views, faults, attempt, db, pos, bad);
    }
  }

  /** One call of the paging loop from the saved cursor; the cursor is saved unless the process dies first. */
  datatype Run = Run(views: nat -> nat, faults: nat -> Fault, saved: bool)

  datatype World = World(db: LowerDb, cursor: string)

  predicate CursorOk(cursor: string) {
    Padded(ParseBlockId(cursor))
  }

  function StepRun(p: Proofs, avt: string, log: seq<LowerEvent>, w: World, run: Run): (r: World)
    requires LogOk(log) && CursorOk(w.cursor)
    ensures CursorOk(r.cursor)
  {
    var (db, pos) := RunUpdate(p, avt, log, run.views, run.faults, 0, w.db, ParseBlockId(w.cursor));
    ParseGenerated(pos.blockNumber, pos.index);
    World(db, if run.saved then GenerateId(pos.blockNumber, pos.index) else w.cursor)
  }

  function StepRuns(p: Proofs, avt: string, log: seq<LowerEvent>, w: World, runs: seq<Run>): (r: World)
    requires LogOk(log) && CursorOk(w.cursor)
    ensures CursorOk(r.cursor)
    decreases |runs|
  {
    if runs == [] then w else StepRuns(p, avt, log, StepRun(p, avt, log, w, runs[0]), runs[1..])
  }

  lemma StepRunCovers(p: Proofs, avt: string, log: seq<LowerEvent>, w: World, run: Run)
    requires LogOk(log) && CursorOk(w.cursor) && Covers(p, avt, log, w.db, Start(log, ParseBlockId(w.cursor)))
    ensures var end := StepRun(p, avt, log, w, run);
            Covers(p, avt, log, end.db, Start(log, ParseBlockId(end.cursor)))
  {
    var pos := ParseBlockId(w.cursor);
    var r := RunUpdate(p, avt, log, run.views, run.faults, 0, w.db, pos);
    RunCovers(p, avt, log, run.views, run.faults, 0, w.db, pos);
    ParseGenerated(r.1.blockNumber, r.1.index);
    CoversLess(p, avt, log, r.0, Start(log, r.1), Start(log, pos));
  }

  /** After any sequence of runs, with failing batches, partial stores and lost cursors, every event before the saved
      cursor has been merged: each stored lower is the fold of a prefix of the log that reaches at least the cursor. */
  lemma {:induction false} CursorIsSafe(p: Proofs, avt: string, log: seq<LowerEvent>, w: World, runs: seq<Run>)
    requires LogOk(log) && CursorOk(w.cursor) && Covers(p, avt, log, w.db, Start(log, ParseBlockId(w.cursor)))
    ensures var end := StepRuns(p, avt, log, w, runs);
            Covers(p, avt, log, end.db, Start(log, ParseBlockId(end.cursor)))
    decreases |runs|
  {
    if runs != [] {
      StepRunCovers(p, avt, log, w, runs[0]);
      CursorIsSafe(p, avt, log, StepRun(p, avt, log, w, runs[0]), runs[1..]);
    }
  }

  /** A saved run leaves the cursor where its paging ended, any other run where it was. */
  lemma SavedCursorMoves(p: Proofs, avt: string, log: seq<LowerEvent>, w: World, run: Run)
    requires LogOk(log) && CursorOk(w.cursor)
    ensures var end := StepRun(p, avt, log, w, run);
            var reached := RunUpdate(p, avt, log, run.views, run.faults, 0, w.db, ParseBlockId(w.cursor)).1;
            if run.saved then ParseBlockId(end.cursor) == reached else end.cursor == w.cursor
  {
    var reached := RunUpdate(p, avt, log, run.views, run.faults, 0, w.db, ParseBlockId(w.cursor)).1;
    ParseGenerated(reached.blockNumber, reached.index);
  }

  /** After a saved run without faults that could read every id from the cursor on, the next one starts past the log. */
  lemma SavedRunStartsPastLog(p: Proofs, avt: string, log: seq<LowerEvent>, w: World, run: Run)
    requires LogOk(log) && CursorOk(w.cursor) && run.saved && Faultless(log, run.views, run.faults)
    ensures Start(log, ParseBlockId(StepRun(p, avt, log, w, run).cursor)) == |log| <==>
            IdsRead(log, Start(log, ParseBlockId(w.cursor)))
  {
    SavedCursorMoves(p, avt, log, w, run);
    FaultlessRunReachesEnd(p, avt, log, run.views, run.faults, 0, w.db, ParseBlockId(w.cursor));
  }

  lemma EmptyCovers(p: Proofs, avt: string, log: seq<LowerEvent>)
    ensures CursorOk("") && Start(log, ParseBlockId("")) == 0 && Covers(p, avt, log, EMPTY_DB, 0)
  {
    forall n: nat ensures FoldedPast(p, avt, log, EMPTY_DB, n, 0) {
      assert FoldedTo(p, avt, log, EMPTY_DB, n, 0);
    }
  }

  lemma CoveredToTheEnd(p: Proofs, avt: string, log: seq<LowerEvent>, db: LowerDb)
    requires Covers(p, avt, log, db, |log|)
    ensures db.lowers == Collapse(p, avt, log)
  {
    forall n ensures Get(db.lowers, n) == Get(Collapse(p, avt, log), n) {
      assert FoldedPast(p, avt, log, db, n, |log|);
      assert log[..|log|] == log;
    }
    SameGets(db.lowers, Collapse(p, avt, log));
  }

  /** From an empty store: whatever happened before, a run without faults that meets no unreadable id ends with exactly
      the fold of the whole log. */
  lemma FaultlessRunCompletes(p: Proofs, avt: string, log: seq<LowerEvent>, before: seq<Run>, run: Run)
    requires LogOk(log) && Faultless(log, run.views, run.faults)
    requires IdsRead(log, Start(log, ParseBlockId(StepRuns(p, avt, log, World(EMPTY_DB, ""), before).cursor)))
    ensures var w := StepRuns(p, avt, log, World(EMPTY_DB, ""), before);
            StepRun(p, avt, log, w, run).db.lowers == Collapse(p, avt, log)
  {
    EmptyCovers(p, avt, log);
    CursorIsSafe(p, avt, log, World(EMPTY_DB, ""), before);
    var w := StepRuns(p, avt, log, World(EMPTY_DB, ""), before);
    FaultlessRunFinishes(p, avt, log, w, run);
  }

  lemma FaultlessRunFinishes(p: Proofs, avt: string, log: seq<LowerEvent>, w: World, run: Run)
    requires LogOk(log) && CursorOk(w.cursor) && Covers(p, avt, log, w.db, Start(log, ParseBlockId(w.cursor)))
    requires IdsRead(log, Start(log, ParseBlockId(w.cursor))) && Faultless(log, run.views, run.faults)
    ensures StepRun(p, avt, log, w, run).db.lowers == Collapse(p, avt, log)
  {
    var pos := ParseBlockId(w.cursor);
    var r := RunUpdate(p, avt, log, run.views, run.faults, 0, w.db, pos);
    RunCovers(p, avt, log, run.views, run.faults, 0, w.db, pos);
    ReadableRunReachesEnd(p, avt, log, run.views, run.faults, 0, w.db, pos);
    CoveredToTheEnd(p, avt, log, r.0);
  }
}
