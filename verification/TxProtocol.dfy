/** Runs of the transaction store under its callers, and what every run keeps. */
module TxProtocol {
  import opened Options
  import opened Sequences
  import opened SortedSets
  import opened Strings
  import opened TxStore

  /** A write whose check is made but which has not landed: a registration that found no record, a failure that found
      none (`unstored`) or one, or a validating report that found no reportable status. */
  datatype Late =
    | LateNew(requestId: string, hash: string)
    | LateFailed(requestId: string, hash: string, address: Option<string>, nonce: Option<string>, reason: Status,
                 unstored: bool)
    | LateValidating(hash: string, blockNumber: string, index: string, json: string)

  /** One command of one caller: a check, a write that follows an earlier check (`Land`), a MULTI, or a scheduling call.
      */
  datatype Op =
    | Register(requestId: string, hash: string)
    | Fail(requestId: string, hash: string, address: Option<string>, nonce: Option<string>, reason: Status)
    | Sent(requestId: string, hash: string, relayer: string, relayerNonce: string, age: int)
    | Report(tx: TxReport)
    | Land(at: nat)
    | Check(now: int)

  /** The store, the last clock reading, every hash the scheduler has handed out so far, and the writes under way. */
  datatype World = World(store: Store, clock: int, returned: set<string>, late: seq<Late>)

  function Write(s: Store, l: Late): Store {
    match l
    case LateNew(requestId, hash) =>
      s.(records := HSetSender(s.records, hash, None, None, AwaitingToSend), pointers := s.pointers[requestId := hash])
    case LateFailed(requestId, hash, address, nonce, reason, unstored) =>
      s.(records := HSetSender(s.records, hash, address, nonce, reason),
         pointers := if unstored then s.pointers[requestId := hash] else s.pointers)
    case LateValidating(hash, block, index, json) =>
      s.(records := HSetReport(s.records, TxReport(hash, Validating, block, index, Structured(json))))
  }

  function RemoveAt<T>(s: seq<T>, i: nat): seq<T>
    requires i < |s|
  {
    s[..i] + s[i + 1..]
  }

  /** A check and the write it leaves to be made, if any. */
  function LeftToWrite(s: Store, op: Op): (l: Option<Late>) {
    match op
    case Register(requestId, hash) => if hash in s.records then None else Some(LateNew(requestId, hash))
    case Fail(requestId, hash, address, nonce, reason) =>
      Some(LateFailed(requestId, hash, address, nonce, reason, hash !in s.records))
    case Report(tx) =>
      if !tx.status.Validating? || Throws(tx) then None
      else if tx.transactionHash in s.records && Reportable(s.records[tx.transactionHash].status) then None
      else Some(LateValidating(tx.transactionHash, tx.blockNumber, tx.index, tx.eventArgs.json))
    case _ => None
  }

  function Step(w: World, op: Op): World {
    var left := LeftToWrite(w.store, op);
    if left.Some? then w.(late := w.late + [left.value]) else
      match op
      case Sent(requestId, hash, address, nonce, age) =>
        w.(store := MarkPending(w.store, requestId, hash, address, nonce, age), clock := age)
      case Report(tx) =>
        if Final(tx.status) && !Throws(tx) then w.(store := ResolveOne(w.store, tx)) else w
      case Land(at) =>
        if at < |w.late| then w.(store := Write(w.store, w.late[at]), late := RemoveAt(w.late, at)) else w
      case Check(now) =>
        w.(store := Schedule(w.store, now), clock := now, returned := w.returned + Members(Picked(w.store, now)))
      case _ => w
  }

  /** The placeholder hash of a request id, and the request a hash is the placeholder of, if any. For an injective hash
      whose placeholders no sent transaction shares, such an owner exists. */
  datatype Hashing = Hashing(kec: string -> string, owner: string -> Option<string>)

  predicate IsPlaceholder(ids: Hashing, hash: string, requestId: string) {
    hash == ids.kec(requestId) && ids.owner(hash) == Some(requestId)
  }

  predicate FailureReason(reason: Status) {
    reason.SendingFailed? || reason.PayerRefused?
  }

  /** The callers: requests are registered and failed under their placeholder, sent transactions are nobody's
      placeholder, reports concern transactions that were handed out, and the clock does not run backwards. */
  predicate Allowed(ids: Hashing, w: World, op: Op) {
    match op
    case Register(requestId, hash) => IsPlaceholder(ids, hash, requestId)
    case Fail(requestId, hash, _, _, reason) => IsPlaceholder(ids, hash, requestId) && FailureReason(reason)
    case Sent(_, hash, _, _, age) => w.clock <= age && ids.owner(hash).None?
    case Report(tx) => tx.transactionHash in w.returned
    case Land(_) => true
    case Check(now) => w.clock <= now
  }

  function Run(w: World, ops: seq<Op>): World
    decreases |ops|
  {
    if ops == [] then w else Run(Step(w, ops[0]), ops[1..])
  }

  predicate AllowedRun(ids: Hashing, w: World, ops: seq<Op>)
    decreases |ops|
  {
    ops == [] || (Allowed(ids, w, ops[0]) && AllowedRun(ids, Step(w, ops[0]), ops[1..]))
  }

  // ---- What every run keeps ----

  predicate Live(status: Status) {
    status.Pending? || status.Validating?
  }

  predicate SetsNested(s: Store) {
    s.checking.Keys <= s.all.Keys && s.next.Keys <= s.all.Keys
  }

  predicate ScheduledAreLive(s: Store) {
    forall h | h in s.all :: h in s.records && Live(s.records[h].status)
  }

  predicate PendingAreScheduled(s: Store) {
    forall h | h in s.records && s.records[h].status.Pending? :: h in s.all
  }

  predicate LiveAreScheduled(s: Store) {
    forall h | h in s.records && Live(s.records[h].status) :: h in s.all
  }

  /** A hash is scheduled exactly while its stored status is Pending or Validating. */
  predicate ScheduledExactlyLive(s: Store) {
    ScheduledAreLive(s) && LiveAreScheduled(s)
  }

  predicate PointersLead(s: Store) {
    forall r | r in s.pointers :: s.pointers[r] in s.records
  }

  predicate ReturnedAreKnown(s: Store, returned: set<string>) {
    forall h | h in returned :: h in s.records && (Live(s.records[h].status) || Final(s.records[h].status))
  }

  /** Only sent transactions are scheduled and handed out. */
  predicate PlaceholdersApart(ids: Hashing, s: Store, returned: set<string>) {
    && (forall h | h in s.all :: ids.owner(h).None?)
    && (forall h | h in returned :: ids.owner(h).None?)
  }

  predicate PlaceholdersRegistered(ids: Hashing, s: Store) {
    forall h | h in s.records && ids.owner(h).Some? :: ids.owner(h).value in s.pointers
  }

  predicate StoreInv(ids: Hashing, s: Store, returned: set<string>) {
    && SetsNested(s) && ScheduledAreLive(s) && PendingAreScheduled(s) && PointersLead(s)
    && ReturnedAreKnown(s, returned) && PlaceholdersApart(ids, s, returned) && PlaceholdersRegistered(ids, s)
  }

  /** A write under way is one its caller may make. */
  predicate LateFits(ids: Hashing, s: Store, returned: set<string>, l: Late) {
    match l
    case LateNew(requestId, hash) => IsPlaceholder(ids, hash, requestId)
    case LateFailed(requestId, hash, _, _, reason, unstored) =>
      IsPlaceholder(ids, hash, requestId) && FailureReason(reason) && (unstored || hash in s.records)
    case LateValidating(hash, _, _, _) => hash in returned
  }

  predicate LateOk(ids: Hashing, w: World) {
    forall i | 0 <= i < |w.late| :: LateFits(ids, w.store, w.returned, w.late[i])
  }

  predicate Inv(ids: Hashing, w: World) {
    StoreInv(ids, w.store, w.returned) && LateOk(ids, w)
  }

  const EMPTY_STORE := Store(map[], map[], map[], map[], map[])

  lemma PickedAreDue(s: Store, now: int)
    ensures Members(Picked(s, now)) <= Due(s, now).Keys
  {
    TakenAreDistinct(Due(s, now), MAX_PENDING_TX_TO_CHECK);
  }

  /** A scheduling call leaves the membership of ALL as it was. */
  lemma ScheduleKeepsMembership(s: Store, now: int)
    requires SetsNested(s)
    ensures Schedule(s, now).all.Keys == s.all.Keys && SetsNested(Schedule(s, now))
  {
    PickedAreDue(s, now);
    forall h | h in Schedule(s, now).checking ensures h in s.all {
      assert h in s.checking || h in Members(Picked(s, now));
    }
  }

  /** A placeholder gains or changes a record, with its pointer set unless the record was there. */
  predicate PlaceholderWritten(s: Store, requestId: string, hash: string, end: Store) {
    && end.(records := s.records, pointers := s.pointers) == s
    && hash in end.records && !Live(end.records[hash].status)
    && end.records == s.records[hash := end.records[hash]]
    && (end.pointers == s.pointers[requestId := hash] || (end.pointers == s.pointers && hash in s.records))
  }

  lemma PlaceholderKeepsPointers(ids: Hashing, s: Store, requestId: string, hash: string, end: Store)
    requires PlaceholderWritten(s, requestId, hash, end) && IsPlaceholder(ids, hash, requestId)
    requires PointersLead(s) && PlaceholdersRegistered(ids, s)
    ensures PointersLead(end) && PlaceholdersRegistered(ids, end)
  {
  }

  lemma PlaceholderKeepsSets(s: Store, returned: set<string>, requestId: string, hash: string, end: Store)
    requires PlaceholderWritten(s, requestId, hash, end)
    requires hash !in s.all && hash !in returned
    requires ScheduledAreLive(s) && PendingAreScheduled(s) && ReturnedAreKnown(s, returned)
    ensures ScheduledAreLive(end) && PendingAreScheduled(end) && ReturnedAreKnown(end, returned)
    ensures LiveAreScheduled(s) ==> LiveAreScheduled(end)
  {
  }

  /** A handed-out transaction changes status: out of the three sets if final, to Validating where it stands if not. */
  predicate ReportWritten(s: Store, hash: string, end: Store) {
    && hash in end.records && end.records == s.records[hash := end.records[hash]] && end.pointers == s.pointers
    && if Final(end.records[hash].status)
       then end.all == s.all - {hash} && end.checking == s.checking - {hash} && end.next == s.next - {hash}
       else end.records[hash].status.Validating? && end.(records := s.records) == s
  }

  lemma ReportKeepsInv(ids: Hashing, s: Store, returned: set<string>, hash: string, end: Store)
    requires StoreInv(ids, s, returned) && hash in returned && ReportWritten(s, hash, end)
    ensures StoreInv(ids, end, returned)
    ensures LiveAreScheduled(s) ==>
              (LiveAreScheduled(end) <==> Final(end.records[hash].status) || hash in s.all)
  {
    assert end.records.Keys == s.records.Keys;
    assert PointersLead(end);
  }

  lemma SentKeepsInv(ids: Hashing, w: World, op: Op)
    requires op.Sent? && StoreInv(ids, w.store, w.returned) && Allowed(ids, w, op)
    ensures StoreInv(ids, Step(w, op).store, Step(w, op).returned)
    ensures LiveAreScheduled(w.store) ==> LiveAreScheduled(Step(w, op).store)
  {
  }

  lemma CheckKeepsInv(ids: Hashing, w: World, now: int)
    requires StoreInv(ids, w.store, w.returned)
    ensures StoreInv(ids, Step(w, Check(now)).store, Step(w, Check(now)).returned)
    ensures LiveAreScheduled(w.store) ==> LiveAreScheduled(Step(w, Check(now)).store)
  {
    ScheduleKeepsMembership(w.store, now);
    PickedAreDue(w.store, now);
  }

  /** A validating write that lands on a transaction outside ALL. */
  predicate LandsOutside(w: World, op: Op) {
    op.Land? && op.at < |w.late| && w.late[op.at].LateValidating? && w.late[op.at].hash !in w.store.all
  }

  lemma WriteKeepsInv(ids: Hashing, s: Store, returned: set<string>, l: Late)
    requires StoreInv(ids, s, returned) && LateFits(ids, s, returned, l)
    ensures StoreInv(ids, Write(s, l), returned)
    ensures LiveAreScheduled(s) ==> (LiveAreScheduled(Write(s, l)) <==> !l.LateValidating? || l.hash in s.all)
  {
    if l.LateValidating? {
      ReportKeepsInv(ids, s, returned, l.hash, Write(s, l));
    } else {
      PlaceholderKeepsPointers(ids, s, l.requestId, l.hash, Write(s, l));
      PlaceholderKeepsSets(s, returned, l.requestId, l.hash, Write(s, l));
    }
  }

  /** The store part of a step. */
  lemma StepKeepsStore(ids: Hashing, w: World, op: Op)
    requires Inv(ids, w) && Allowed(ids, w, op)
    ensures StoreInv(ids, Step(w, op).store, Step(w, op).returned)
    ensures LiveAreScheduled(w.store) ==> (LiveAreScheduled(Step(w, op).store) <==> !LandsOutside(w, op))
  {
    match op
    case Register(_, _) =>
    case Fail(_, _, _, _, _) =>
    case Sent(_, _, _, _, _) => SentKeepsInv(ids, w, op);
    case Report(tx) =>
      if Final(tx.status) && !Throws(tx) {
        ReportKeepsInv(ids, w.store, w.returned, tx.transactionHash, Step(w, op).store);
      }
    case Land(at) => if at < |w.late| { WriteKeepsInv(ids, w.store, w.returned, w.late[at]); }
    case Check(now) => CheckKeepsInv(ids, w, now);
  }

  /** No step forgets a record or a hash that was handed out. */
  lemma StepGrows(w: World, op: Op)
    ensures w.store.records.Keys <= Step(w, op).store.records.Keys && w.returned <= Step(w, op).returned
  {
  }

  lemma StepKeepsLate(ids: Hashing, w: World, op: Op)
    requires Inv(ids, w) && Allowed(ids, w, op)
    ensures LateOk(ids, Step(w, op))
  {
    var end := Step(w, op);
    StepGrows(w, op);
    forall i | 0 <= i < |end.late| ensures LateFits(ids, end.store, end.returned, end.late[i]) {
      if i < |w.late| {
        assert LateFits(ids, w.store, w.returned, w.late[i]);
        assert op.Land? && op.at <= i && i + 1 < |w.late| ==> LateFits(ids, w.store, w.returned, w.late[i + 1]);
      }
    }
  }

  lemma StepKeepsInv(ids: Hashing, w: World, op: Op)
    requires Inv(ids, w) && Allowed(ids, w, op)
    ensures Inv(ids, Step(w, op))
  {
    StepKeepsStore(ids, w, op);
    StepKeepsLate(ids, w, op);
  }

  /** Every live status is scheduled in every state of the run. */
  predicate AlwaysInStep(w: World, ops: seq<Op>)
    decreases |ops|
  {
    LiveAreScheduled(w.store) && (ops == [] || AlwaysInStep(Step(w, ops[0]), ops[1..]))
  }

  predicate NeverLandsOutside(w: World, ops: seq<Op>)
    decreases |ops|
  {
    ops == [] || (!LandsOutside(w, ops[0]) && NeverLandsOutside(Step(w, ops[0]), ops[1..]))
  }

  lemma {:induction false} RunKeepsInv(ids: Hashing, w: World, ops: seq<Op>)
    requires Inv(ids, w) && AllowedRun(ids, w, ops)
    ensures Inv(ids, Run(w, ops))
    ensures LiveAreScheduled(w.store) ==> (AlwaysInStep(w, ops) <==> NeverLandsOutside(w, ops))
    decreases |ops|
  {
    if ops != [] {
      StepKeepsInv(ids, w, ops[0]);
      StepKeepsStore(ids, w, ops[0]);
      RunKeepsInv(ids, Step(w, ops[0]), ops[1..]);
    }
  }

  /** Every state reached from the empty store satisfies the invariant, however checks and writes interleave; and every
      Validating hash stays scheduled if and only if no validating write lands after its hash has left ALL. */
  lemma ReachableInv(ids: Hashing, start: int, ops: seq<Op>)
    requires AllowedRun(ids, World(EMPTY_STORE, start, {}, []), ops)
    ensures Inv(ids, Run(World(EMPTY_STORE, start, {}, []), ops))
    ensures AlwaysInStep(World(EMPTY_STORE, start, {}, []), ops) <==>
            NeverLandsOutside(World(EMPTY_STORE, start, {}, []), ops)
  {
    RunKeepsInv(ids, World(EMPTY_STORE, start, {}, []), ops);
  }

  lemma OnlyOneDue(s: Store, hash: string, age: int, now: int)
    requires s.all == map[hash := age] && s.checking == map[]
    ensures hash in Members(Picked(s, now))
  {
    assert Due(s, now) == map[hash := age];
    TakenAreDistinct(Due(s, now), MAX_PENDING_TX_TO_CHECK);
    PickedAreDue(s, now);
    assert |Members(Picked(s, now))| == 1;
    assert exists m :: m in Members(Picked(s, now));
  }

  /** The assumptions can be met: a request is registered, sent, handed out and reported. */
  lemma AllowedRunExists(ids: Hashing, requestId: string, placeholder: string, sent: Op, now: int, tx: TxReport)
    requires IsPlaceholder(ids, placeholder, requestId)
    requires sent.Sent? && sent.age <= now && ids.owner(sent.hash).None? && tx.transactionHash == sent.hash
    ensures AllowedRun(ids, World(EMPTY_STORE, sent.age, {}, []),
                       [Register(requestId, placeholder), Land(0), sent, Check(now), Report(tx)])
  {
    var w0 := World(EMPTY_STORE, sent.age, {}, []);
    var w1 := Step(w0, Register(requestId, placeholder));
    var w2 := Step(w1, Land(0));
    var w3 := Step(w2, sent);
    var w4 := Step(w3, Check(now));
    OnlyOneDue(w3.store, sent.hash, sent.age, now);
    assert AllowedRun(ids, w4, []) && Allowed(ids, w4, Report(tx));
    AllowedThen(ids, w4, Report(tx), []);
    AllowedThen(ids, w3, Check(now), [Report(tx)]);
    AllowedThen(ids, w2, sent, [Check(now), Report(tx)]);
    AllowedThen(ids, w1, Land(0), [sent, Check(now), Report(tx)]);
    AllowedThen(ids, w0, Register(requestId, placeholder), [Land(0), sent, Check(now), Report(tx)]);
    assert [Register(requestId, placeholder)] + [Land(0), sent, Check(now), Report(tx)] ==
           [Register(requestId, placeholder), Land(0), sent, Check(now), Report(tx)];
  }

  lemma AllowedThen(ids: Hashing, w: World, op: Op, ops: seq<Op>)
    requires Allowed(ids, w, op) && AllowedRun(ids, Step(w, op), ops)
    ensures AllowedRun(ids, w, [op] + ops)
  {
    assert ([op] + ops)[1..] == ops;
  }

  // ---- Resolved transactions ----

  /** The hashes handed out during a run. */
  function HandedOut(w: World, ops: seq<Op>): set<string>
    decreases |ops|
  {
    if ops == [] then {} else
      (if ops[0].Check? then Members(Picked(w.store, ops[0].now)) else {}) + HandedOut(Step(w, ops[0]), ops[1..])
  }

  predicate NeverSent(ops: seq<Op>, hash: string) {
    forall i | 0 <= i < |ops| && ops[i].Sent? :: ops[i].hash != hash
  }

  lemma OutsideStep(w: World, op: Op, hash: string)
    requires SetsNested(w.store) && hash !in w.store.all && (op.Sent? ==> op.hash != hash)
    ensures hash !in Step(w, op).store.all
    ensures op.Check? ==> hash !in Members(Picked(w.store, op.now))
  {
    if op.Check? {
      ScheduleKeepsMembership(w.store, op.now);
      PickedAreDue(w.store, op.now);
    }
  }

  lemma {:induction false} OutsideStaysOutside(ids: Hashing, w: World, ops: seq<Op>, hash: string)
    requires Inv(ids, w) && AllowedRun(ids, w, ops) && NeverSent(ops, hash) && hash !in w.store.all
    ensures hash !in Run(w, ops).store.all && hash !in HandedOut(w, ops)
    decreases |ops|
  {
    if ops != [] {
      StepKeepsInv(ids, w, ops[0]);
      OutsideStep(w, ops[0], hash);
      assert NeverSent(ops[1..], hash);
      OutsideStaysOutside(ids, Step(w, ops[0]), ops[1..], hash);
    }
  }

  predicate Resolved(w: World, hash: string) {
    hash in w.store.records && Final(w.store.records[hash].status) && hash in w.returned
  }

  predicate AlwaysResolved(w: World, ops: seq<Op>, hash: string)
    decreases |ops|
  {
    Resolved(w, hash) && (ops == [] || AlwaysResolved(Step(w, ops[0]), ops[1..], hash))
  }

  /** A validating write of this very transaction lands. */
  predicate ValidatingLands(w: World, op: Op, hash: string) {
    op.Land? && op.at < |w.late| && w.late[op.at].LateValidating? && w.late[op.at].hash == hash
  }

  predicate NoValidatingLands(w: World, ops: seq<Op>, hash: string)
    decreases |ops|
  {
    ops == [] || (!ValidatingLands(w, ops[0], hash) && NoValidatingLands(Step(w, ops[0]), ops[1..], hash))
  }

  lemma ResolvedStep(ids: Hashing, w: World, op: Op, hash: string)
    requires Inv(ids, w) && Resolved(w, hash) && Allowed(ids, w, op) && (op.Sent? ==> op.hash != hash)
    ensures Resolved(Step(w, op), hash) <==> !ValidatingLands(w, op, hash)
  {
    assert ids.owner(hash).None?;
    if op.Land? && op.at < |w.late| {
      assert LateFits(ids, w.store, w.returned, w.late[op.at]);
    }
  }

  lemma {:induction false} ResolvedExactly(ids: Hashing, w: World, ops: seq<Op>, hash: string)
    requires Inv(ids, w) && AllowedRun(ids, w, ops) && NeverSent(ops, hash) && Resolved(w, hash)
    ensures AlwaysResolved(w, ops, hash) <==> NoValidatingLands(w, ops, hash)
    decreases |ops|
  {
    if ops != [] {
      StepKeepsInv(ids, w, ops[0]);
      ResolvedStep(ids, w, ops[0], hash);
      assert NeverSent(ops[1..], hash);
      if Resolved(Step(w, ops[0]), hash) {
        ResolvedExactly(ids, Step(w, ops[0]), ops[1..], hash);
      }
    }
  }

  /** A resolved transaction is not handed out again until it is sent again, and keeps a final status throughout if and
      only if no validating write for it, checked before it was resolved, lands. */
  lemma ResolvedStaysResolved(ids: Hashing, w: World, ops: seq<Op>, hash: string)
    requires Inv(ids, w) && AllowedRun(ids, w, ops) && NeverSent(ops, hash) && Resolved(w, hash)
    ensures hash !in HandedOut(w, ops) && hash !in Run(w, ops).store.all
    ensures AlwaysResolved(w, ops, hash) <==> NoValidatingLands(w, ops, hash)
  {
    assert hash !in w.store.all;
    OutsideStaysOutside(ids, w, ops, hash);
    ResolvedExactly(ids, w, ops, hash);
  }

  // ---- Calls that nothing interrupts ----

  /** The check of a call and, if it leaves one to be made, its write. */
  function Call(w: World, op: Op): seq<Op> {
    if LeftToWrite(w.store, op).Some? then [op, Land(|w.late|)] else [op]
  }

  lemma CallRuns(ids: Hashing, w: World, op: Op)
    requires Allowed(ids, w, op)
    ensures AllowedRun(ids, w, Call(w, op))
    ensures Run(w, Call(w, op)) ==
            if LeftToWrite(w.store, op).Some? then w.(store := Write(w.store, LeftToWrite(w.store, op).value))
            else Step(w, op)
  {
    var left := LeftToWrite(w.store, op);
    if left.Some? {
      var mid := Step(w, op);
      assert [op, Land(|w.late|)][1..] == [Land(|w.late|)];
      assert Run(mid, [Land(|w.late|)]) == Step(mid, Land(|w.late|));
      assert RemoveAt(mid.late, |w.late|) == w.late;
      assert AllowedRun(ids, mid, [Land(|w.late|)]);
    }
  }

  /** A call whose check and write nothing separates is the operation of the client. */
  lemma CallIsOperation(ids: Hashing, w: World, op: Op)
    requires Allowed(ids, w, op) && (op.Register? || op.Fail? || (op.Report? && !Throws(op.tx)))
    ensures AllowedRun(ids, w, Call(w, op))
    ensures Run(w, Call(w, op)) == w.(store :=
              match op
              case Register(requestId, hash) => AddNew(w.store, requestId, hash)
              case Fail(requestId, hash, address, nonce, reason) =>
                AddFailed(w.store, requestId, hash, address, nonce, reason)
              case Report(tx) => ResolveOne(w.store, tx)
              case _ => w.store)
  {
    CallRuns(ids, w, op);
    assert w.(store := w.store) == w;
  }

  lemma {:induction false} RunConcat(ids: Hashing, w: World, xs: seq<Op>, ys: seq<Op>)
    ensures Run(w, xs + ys) == Run(Run(w, xs), ys)
    ensures AllowedRun(ids, w, xs) && AllowedRun(ids, Run(w, xs), ys) ==> AllowedRun(ids, w, xs + ys)
    decreases |xs|
  {
    if xs == [] {
      assert xs + ys == ys;
    } else {
      assert (xs + ys)[1..] == xs[1..] + ys;
      RunConcat(ids, Step(w, xs[0]), xs[1..], ys);
    }
  }

  /** A resolution request that nothing interrupts is a run of its entries up to the first that throws. */
  lemma {:induction false} ResolveAllIsARun(ids: Hashing, w: World, txs: seq<TxReport>) returns (ops: seq<Op>)
    requires forall i | 0 <= i < |txs| :: txs[i].transactionHash in w.returned
    ensures AllowedRun(ids, w, ops)
    ensures Run(w, ops) == w.(store := ResolveAll(w.store, txs).0)
    decreases |txs|
  {
    if txs == [] || Throws(txs[0]) {
      ops := [];
    } else {
      var op := Report(txs[0]);
      CallIsOperation(ids, w, op);
      var rest := ResolveAllIsARun(ids, Run(w, Call(w, op)), txs[1..]);
      RunConcat(ids, w, Call(w, op), rest);
      ops := Call(w, op) + rest;
    }
  }

  /** Calls made one after the other, none starting before the last has ended. */
  function RunCalls(w: World, ops: seq<Op>): World
    decreases |ops|
  {
    if ops == [] then w else RunCalls(Run(w, Call(w, ops[0])), ops[1..])
  }

  predicate AllowedCalls(ids: Hashing, w: World, ops: seq<Op>)
    decreases |ops|
  {
    ops == [] || (Allowed(ids, w, ops[0]) && AllowedCalls(ids, Run(w, Call(w, ops[0])), ops[1..]))
  }

  /** No write is under way, and a hash is scheduled exactly while its status is Pending or Validating. */
  predicate AtRest(ids: Hashing, w: World) {
    Inv(ids, w) && w.late == [] && LiveAreScheduled(w.store)
  }

  lemma CallKeepsRest(ids: Hashing, w: World, op: Op)
    requires AtRest(ids, w) && Allowed(ids, w, op)
    ensures AtRest(ids, Run(w, Call(w, op)))
  {
    CallRuns(ids, w, op);
    StepKeepsInv(ids, w, op);
    StepKeepsStore(ids, w, op);
    var mid := Step(w, op);
    if LeftToWrite(w.store, op).Some? {
      assert mid.late == [LeftToWrite(w.store, op).value] && mid.store == w.store;
      assert !LandsOutside(mid, Land(0));
      StepKeepsInv(ids, mid, Land(0));
      StepKeepsStore(ids, mid, Land(0));
    }
  }

  lemma {:induction false} CallsKeepRest(ids: Hashing, w: World, ops: seq<Op>)
    requires AtRest(ids, w) && AllowedCalls(ids, w, ops)
    ensures AtRest(ids, RunCalls(w, ops))
    decreases |ops|
  {
    if ops != [] {
      CallKeepsRest(ids, w, ops[0]);
      CallsKeepRest(ids, Run(w, Call(w, ops[0])), ops[1..]);
    }
  }

  /** Callers that finish one call before the next starts: ALL holds exactly the Pending and Validating hashes. */
  lemma SequentialCallsKeepStep(ids: Hashing, start: int, calls: seq<Op>)
    requires AllowedCalls(ids, World(EMPTY_STORE, start, {}, []), calls)
    ensures var end := RunCalls(World(EMPTY_STORE, start, {}, []), calls);
            Inv(ids, end) && ScheduledExactlyLive(end.store)
  {
    CallsKeepRest(ids, World(EMPTY_STORE, start, {}, []), calls);
  }

  // ---- Polling ----

  /** A write that sets the pointer of a request back to its placeholder: its check found the placeholder unregistered.
      */
  predicate Stale(l: Late, requestId: string) {
    (l.LateNew? || (l.LateFailed? && l.unstored)) && l.requestId == requestId
  }

  predicate StaleLands(w: World, op: Op, requestId: string) {
    op.Land? && op.at < |w.late| && Stale(w.late[op.at], requestId)
  }

  predicate NoStaleLands(w: World, ops: seq<Op>, requestId: string)
    decreases |ops|
  {
    ops == [] || (!StaleLands(w, ops[0], requestId) && NoStaleLands(Step(w, ops[0]), ops[1..], requestId))
  }

  predicate NoneStale(late: seq<Late>, requestId: string) {
    forall i | 0 <= i < |late| :: !Stale(late[i], requestId)
  }

  /** The request has its placeholder stored. */
  predicate Registered(ids: Hashing, s: Store, requestId: string) {
    ids.kec(requestId) in s.records && ids.owner(ids.kec(requestId)) == Some(requestId)
  }

  /** Once a request is registered no stale write for it comes under way any more. */
  lemma {:induction false} NoneStaleStays(ids: Hashing, w: World, ops: seq<Op>, requestId: string)
    requires AllowedRun(ids, w, ops) && Registered(ids, w.store, requestId) && NoneStale(w.late, requestId)
    ensures NoStaleLands(w, ops, requestId)
    decreases |ops|
  {
    if ops != [] {
      StepGrows(w, ops[0]);
      assert NoneStale(Step(w, ops[0]).late, requestId);
      NoneStaleStays(ids, Step(w, ops[0]), ops[1..], requestId);
    }
  }

  /** Where a landing write leaves the pointer of a registered request. */
  lemma PointerAfterWrite(ids: Hashing, s: Store, returned: set<string>, l: Late, requestId: string)
    requires LateFits(ids, s, returned, l) && requestId in s.pointers
    ensures requestId in Write(s, l).pointers
    ensures Write(s, l).pointers[requestId] == if Stale(l, requestId) then ids.kec(requestId) else s.pointers[requestId]
  {
  }

  /** Where a step leaves the pointer of a registered request. */
  lemma PointerStep(ids: Hashing, w: World, op: Op, requestId: string)
    requires Inv(ids, w) && Allowed(ids, w, op) && requestId in w.store.pointers
    ensures requestId in Step(w, op).store.pointers
    ensures Step(w, op).store.pointers[requestId] ==
            if op.Sent? && op.requestId == requestId then op.hash
            else if StaleLands(w, op, requestId) then ids.kec(requestId)
            else w.store.pointers[requestId]
  {
    if op.Land? {
      if op.at < |w.late| {
        PointerAfterWrite(ids, w.store, w.returned, w.late[op.at], requestId);
      }
    } else if !op.Sent? {
      PointersUntouched(w, op);
    }
  }

  lemma PointersUntouched(w: World, op: Op)
    requires !op.Land? && !op.Sent?
    ensures Step(w, op).store.pointers == w.store.pointers
  {
  }

  predicate AlwaysPoints(w: World, ops: seq<Op>, requestId: string, hash: string)
    decreases |ops|
  {
    && requestId in w.store.pointers && w.store.pointers[requestId] == hash
    && (ops == [] || AlwaysPoints(Step(w, ops[0]), ops[1..], requestId, hash))
  }

  predicate SentOnlyAs(ops: seq<Op>, requestId: string, hash: string) {
    forall i | 0 <= i < |ops| && ops[i].Sent? && ops[i].requestId == requestId :: ops[i].hash == hash
  }

  lemma SentOnlyAsSplits(ops: seq<Op>, requestId: string, hash: string)
    requires ops != []
    ensures SentOnlyAs(ops, requestId, hash) <==>
            (ops[0].Sent? && ops[0].requestId == requestId ==> ops[0].hash == hash) &&
            SentOnlyAs(ops[1..], requestId, hash)
  {
    assert forall i | 0 <= i < |ops| - 1 :: ops[1..][i] == ops[i + 1];
    if SentOnlyAs(ops[1..], requestId, hash) {
      assert forall i | 1 <= i < |ops| :: ops[i] == ops[1..][i - 1];
    }
  }

  lemma {:induction false} PointsExactly(ids: Hashing, w: World, ops: seq<Op>, requestId: string)
    requires Inv(ids, w) && AllowedRun(ids, w, ops) && requestId in w.store.pointers
    ensures var hash := w.store.pointers[requestId];
            AlwaysPoints(w, ops, requestId, hash) <==>
            SentOnlyAs(ops, requestId, hash) && (hash == ids.kec(requestId) || NoStaleLands(w, ops, requestId))
    decreases |ops|
  {
    if ops != [] {
      var hash, next := w.store.pointers[requestId], Step(w, ops[0]);
      StepKeepsInv(ids, w, ops[0]);
      PointerStep(ids, w, ops[0], requestId);
      SentOnlyAsSplits(ops, requestId, hash);
      if next.store.pointers[requestId] == hash {
        PointsExactly(ids, next, ops[1..], requestId);
      }
    }
  }

  lemma {:induction false} RunGrows(w: World, ops: seq<Op>)
    ensures w.store.records.Keys <= Run(w, ops).store.records.Keys
    decreases |ops|
  {
    if ops != [] {
      StepGrows(w, ops[0]);
      RunGrows(Step(w, ops[0]), ops[1..]);
    }
  }

  /** From registration on, a request has a pointer to a stored record. It stays where it is through a run if and only
      if the request is sent only as that transaction and, unless it is the placeholder, no stale write for it lands;
      and with no stale write under way none will land. */
  lemma PointerSafety(ids: Hashing, w: World, ops: seq<Op>, requestId: string)
    requires Inv(ids, w) && AllowedRun(ids, w, ops) && Registered(ids, w.store, requestId)
    ensures var end := Run(w, ops).store;
            requestId in w.store.pointers && requestId in end.pointers && end.pointers[requestId] in end.records
    ensures var hash := w.store.pointers[requestId];
            AlwaysPoints(w, ops, requestId, hash) <==>
            SentOnlyAs(ops, requestId, hash) && (hash == ids.kec(requestId) || NoStaleLands(w, ops, requestId))
    ensures NoneStale(w.late, requestId) ==> NoStaleLands(w, ops, requestId)
  {
    RunKeepsInv(ids, w, ops);
    RunGrows(w, ops);
    PointsExactly(ids, w, ops, requestId);
    if NoneStale(w.late, requestId) {
      NoneStaleStays(ids, w, ops, requestId);
    }
  }

  /** The registration is done: its write lands, or its check finds the placeholder stored. */
  predicate CompletesRegistration(ids: Hashing, w: World, op: Op, requestId: string) {
    || (op == Register(requestId, ids.kec(requestId)) && ids.kec(requestId) in w.store.records)
    || (op.Land? && op.at < |w.late| && w.late[op.at] == LateNew(requestId, ids.kec(requestId)))
  }

  /** A registered request is found by polling in every later state. */
  lemma RegisteredIsFound(ids: Hashing, w: World, op: Op, requestId: string, ops: seq<Op>)
    requires Inv(ids, w) && CompletesRegistration(ids, w, op, requestId) && AllowedRun(ids, w, [op] + ops)
    requires !IsTransactionHash(requestId)
    ensures Poll(Run(w, [op] + ops).store, requestId).Some?
  {
    assert ([op] + ops)[1..] == ops;
    if op.Land? {
      assert LateFits(ids, w.store, w.returned, w.late[op.at]);
    }
    StepKeepsInv(ids, w, op);
    PointerSafety(ids, Step(w, op), ops, requestId);
  }

  predicate SentOnlyBy(ops: seq<Op>, requestId: string, hash: string) {
    forall i | 0 <= i < |ops| && ops[i].Sent? :: ops[i].requestId != requestId && ops[i].hash != hash
  }

  /** The request points to the transaction, and its record still names the relayer and the nonce it was sent with. */
  predicate Follows(s: Store, sent: Op)
    requires sent.Sent?
  {
    && sent.requestId in s.pointers && s.pointers[sent.requestId] == sent.hash && sent.hash in s.records
    && s.records[sent.hash].senderAddress == Some(sent.relayer)
    && s.records[sent.hash].senderNonce == Some(sent.relayerNonce)
  }

  predicate AlwaysFollows(w: World, ops: seq<Op>, sent: Op)
    requires sent.Sent?
    decreases |ops|
  {
    Follows(w.store, sent) && (ops == [] || AlwaysFollows(Step(w, ops[0]), ops[1..], sent))
  }

  /** No step but another send touches the sender fields of a sent transaction. */
  lemma SenderStep(ids: Hashing, w: World, op: Op, hash: string)
    requires Inv(ids, w) && Allowed(ids, w, op) && hash in w.store.records && ids.owner(hash).None?
    requires op.Sent? ==> op.hash != hash
    ensures var s, end := w.store, Step(w, op).store;
            && hash in end.records && end.records[hash].senderAddress == s.records[hash].senderAddress
            && end.records[hash].senderNonce == s.records[hash].senderNonce
  {
    if op.Land? && op.at < |w.late| {
      assert LateFits(ids, w.store, w.returned, w.late[op.at]);
    }
  }

  lemma {:induction false} FollowsExactly(ids: Hashing, w: World, ops: seq<Op>, sent: Op)
    requires Inv(ids, w) && AllowedRun(ids, w, ops) && sent.Sent? && SentOnlyBy(ops, sent.requestId, sent.hash)
    requires ids.owner(ids.kec(sent.requestId)).Some? && ids.owner(sent.hash).None? && Follows(w.store, sent)
    ensures AlwaysFollows(w, ops, sent) <==> NoStaleLands(w, ops, sent.requestId)
    decreases |ops|
  {
    if ops != [] {
      StepKeepsInv(ids, w, ops[0]);
      SenderStep(ids, w, ops[0], sent.hash);
      PointerStep(ids, w, ops[0], sent.requestId);
      assert SentOnlyBy(ops[1..], sent.requestId, sent.hash);
      if !StaleLands(w, ops[0], sent.requestId) {
        FollowsExactly(ids, Step(w, ops[0]), ops[1..], sent);
      }
    }
  }

  lemma {:induction false} FollowsAtTheEnd(w: World, ops: seq<Op>, sent: Op)
    requires sent.Sent? && AlwaysFollows(w, ops, sent)
    ensures Follows(Run(w, ops).store, sent)
    decreases |ops|
  {
    if ops != [] {
      FollowsAtTheEnd(Step(w, ops[0]), ops[1..], sent);
    }
  }

  /** Once a registered request has been sent, and until something is sent again, it leads to the sent transaction, with
      its relayer and nonce, through whatever reports, failures and registrations follow, if and only if no stale write
      for the request lands; with none under way at the send, polling shows the transaction from then on. */
  lemma SentIsFollowed(ids: Hashing, w: World, sent: Op, ops: seq<Op>)
    requires Inv(ids, w) && sent.Sent? && AllowedRun(ids, w, [sent] + ops)
    requires Registered(ids, w.store, sent.requestId) && SentOnlyBy(ops, sent.requestId, sent.hash)
    ensures AlwaysFollows(Step(w, sent), ops, sent) <==> NoStaleLands(Step(w, sent), ops, sent.requestId)
    ensures NoneStale(w.late, sent.requestId) ==> NoStaleLands(Step(w, sent), ops, sent.requestId)
    ensures NoStaleLands(Step(w, sent), ops, sent.requestId) && !IsTransactionHash(sent.requestId) ==>
              var end := Run(w, [sent] + ops).store;
              Follows(end, sent) && Poll(end, sent.requestId) == Some(end.records[sent.hash])
  {
    assert ([sent] + ops)[1..] == ops;
    StepKeepsInv(ids, w, sent);
    FollowsExactly(ids, Step(w, sent), ops, sent);
    if NoneStale(w.late, sent.requestId) {
      NoneStaleStays(ids, Step(w, sent), ops, sent.requestId);
    }
    if NoStaleLands(Step(w, sent), ops, sent.requestId) {
      FollowsAtTheEnd(Step(w, sent), ops, sent);
    }
  }

  /** Two checks of one registration, the write of one of them, and the send; the other write is still under way. */
  lemma SentBeforeStaleWrite(ids: Hashing, requestId: string, placeholder: string, sent: Op) returns (end: World)
    requires IsPlaceholder(ids, placeholder, requestId)
    requires sent.Sent? && sent.requestId == requestId && ids.owner(sent.hash).None?
    ensures var w := World(EMPTY_STORE, sent.age, {}, []);
            var ops := [Register(requestId, placeholder), Register(requestId, placeholder), Land(0), sent];
            AllowedRun(ids, w, ops) && end == Run(w, ops)
    ensures end.late == [LateNew(requestId, placeholder)] && Follows(end.store, sent)
  {
    var w := World(EMPTY_STORE, sent.age, {}, []);
    var register, l := Register(requestId, placeholder), LateNew(requestId, placeholder);
    var checked := Step(Step(w, register), register);
    assert checked == w.(late := [l, l]);
    var landed := Step(checked, Land(0));
    assert landed.late == [l];
    end := Step(landed, sent);
    RunOfTwo(ids, w, register, register);
    RunOfTwo(ids, checked, Land(0), sent);
    RunConcat(ids, w, [register, register], [Land(0), sent]);
    assert [register, register] + [Land(0), sent] == [register, register, Land(0), sent];
  }

  lemma RunOfOne(ids: Hashing, w: World, op: Op)
    ensures Run(w, [op]) == Step(w, op) && (AllowedRun(ids, w, [op]) <==> Allowed(ids, w, op))
  {
    assert [op][1..] == [];
    assert AllowedRun(ids, Step(w, op), []);
  }

  /** A duplicate registration whose check came before the first one was written, and whose write lands after the send:
      an allowed run that leaves the request at its placeholder instead of its transaction. */
  lemma StaleWriteTakesBack(ids: Hashing, requestId: string, placeholder: string, sent: Op)
    requires IsPlaceholder(ids, placeholder, requestId)
    requires sent.Sent? && sent.requestId == requestId && ids.owner(sent.hash).None?
    ensures var w := World(EMPTY_STORE, sent.age, {}, []);
            var before := [Register(requestId, placeholder), Register(requestId, placeholder), Land(0), sent];
            && AllowedRun(ids, w, before + [Land(0)])
            && Follows(Run(w, before).store, sent)
            && var end := Run(w, before + [Land(0)]).store;
               requestId in end.pointers && end.pointers[requestId] == placeholder
  {
    var w := World(EMPTY_STORE, sent.age, {}, []);
    var before := [Register(requestId, placeholder), Register(requestId, placeholder), Land(0), sent];
    var mid := SentBeforeStaleWrite(ids, requestId, placeholder, sent);
    RunOfOne(ids, mid, Land(0));
    RunConcat(ids, w, before, [Land(0)]);
    assert Step(mid, Land(0)).store == Write(mid.store, LateNew(requestId, placeholder));
  }

  lemma RunOfTwo(ids: Hashing, w: World, a: Op, b: Op)
    ensures Run(w, [a, b]) == Step(Step(w, a), b)
    ensures AllowedRun(ids, w, [a, b]) <==> Allowed(ids, w, a) && Allowed(ids, Step(w, a), b)
  {
    assert [a, b][1..] == [b];
    RunOfOne(ids, Step(w, a), b);
  }

  // ---- Leases ----

  /** The score that decides a transaction's turn: its expiry while leased, its entry in ALL otherwise. */
  function Effective(s: Store, hash: string): int
    requires hash in s.all
  {
    if hash in s.checking then s.checking[hash] else s.all[hash]
  }

  predicate Leased(s: Store, hash: string, now: int) {
    hash in s.checking && s.checking[hash] > now
  }

  lemma DueIsUnleased(s: Store, now: int)
    requires SetsNested(s)
    ensures Due(s, now) == map h | h in s.all && !Leased(s, h, now) :: Effective(s, h)
  {
  }

  /** What one call returns: at most 250 hashes, no two alike, all unleased, and none of the unleased
      left out comes before one that was returned; fewer than 250 only if nothing was left out. */
  lemma CallReturnsSmallest(s: Store, now: int)
    requires SetsNested(s)
    ensures |Picked(s, now)| == |Members(Picked(s, now))| <= 250
    ensures forall h | h in Picked(s, now) :: h in s.all && !Leased(s, h, now)
    ensures forall h, x | h in Picked(s, now) && x in s.all && !Leased(s, x, now) && x !in Picked(s, now) ::
              |Picked(s, now)| == 250 && h in s.all && Before(Effective(s, h), h, Effective(s, x), x)
  {
    PickedAreDue(s, now);
    assert forall h | h in Picked(s, now) :: h in Members(Picked(s, now));
    TakenAreDistinct(Due(s, now), MAX_PENDING_TX_TO_CHECK);
    forall h, x | h in Picked(s, now) && x in s.all && !Leased(s, x, now) && x !in Picked(s, now) {
      PickedBeforeLeft(s, now, h, x);
    }
  }

  lemma PickedBeforeLeft(s: Store, now: int, h: string, x: string)
    requires SetsNested(s) && h in Picked(s, now) && x in s.all && !Leased(s, x, now) && x !in Picked(s, now)
    ensures |Picked(s, now)| == 250 && h in s.all && Before(Effective(s, h), h, Effective(s, x), x)
  {
    DueIsUnleased(s, now);
    LeftOutFollows(Due(s, now), MAX_PENDING_TX_TO_CHECK, h, x);
  }

  /** A hash that is returned has an earlier turn than one left out, or the same turn and a smaller name. */
  lemma EarlierTurnFirst(s: Store, now: int, h: string, x: string)
    requires SetsNested(s) && h in Picked(s, now) && x in s.all && !Leased(s, x, now) && x !in Picked(s, now)
    ensures h in s.all
    ensures Effective(s, h) < Effective(s, x) || (Effective(s, h) == Effective(s, x) && LexLt(h, x))
  {
    PickedBeforeLeft(s, now, h, x);
  }

  predicate NotResolved(ops: seq<Op>, hash: string) {
    forall i | 0 <= i < |ops| && ops[i].Report? && Final(ops[i].tx.status) :: ops[i].tx.transactionHash != hash
  }

  /** Two calls that return one hash, with no final report of it between them, are at least 5000 ms apart. */
  lemma LeaseExclusivity(ids: Hashing, w: World, now: int, ops: seq<Op>, later: int, hash: string)
    requires SetsNested(w.store) && AllowedRun(ids, w, [Check(now)] + ops + [Check(later)])
    requires hash in Picked(w.store, now) && NotResolved(ops, hash)
    requires hash in Picked(Run(Step(w, Check(now)), ops).store, later)
    ensures later >= now + 5000
  {
    var first := Step(w, Check(now));
    assert ([Check(now)] + ops + [Check(later)])[1..] == ops + [Check(later)];
    ScheduleKeepsMembership(w.store, now);
    LeaseLasts(ids, first, ops, later, hash, now + 5000);
  }

  ghost predicate HeldUntil(w: World, hash: string, end: int) {
    SetsNested(w.store) && ((hash in w.store.checking && w.store.checking[hash] >= end) || w.clock >= end)
  }

  lemma HeldStep(w: World, op: Op, hash: string, end: int)
    requires HeldUntil(w, hash, end) && w.clock <= Step(w, op).clock
    requires op.Report? && Final(op.tx.status) ==> op.tx.transactionHash != hash
    ensures HeldUntil(Step(w, op), hash, end)
    ensures op.Check? && hash in Picked(w.store, op.now) ==> op.now >= end
  {
    match op
    case Check(now) =>
      ScheduleKeepsMembership(w.store, now);
      HeldThroughCall(w.store, now, hash, end);
    case Report(tx) => assert SetsNested(Step(w, op).store);
    case Sent(_, _, _, _, _) =>
    case Register(_, _) =>
    case Fail(_, _, _, _, _) =>
    case Land(_) =>
  }

  lemma HeldThroughCall(s: Store, now: int, hash: string, end: int)
    requires SetsNested(s) && ((hash in s.checking && s.checking[hash] >= end) || now >= end)
    ensures hash in Picked(s, now) ==> now >= end
    ensures (hash in Schedule(s, now).checking && Schedule(s, now).checking[hash] >= end) || now >= end
  {
    CallReturnsSmallest(s, now);
  }

  lemma {:induction false} LeaseLasts(ids: Hashing, w: World, ops: seq<Op>, later: int, hash: string, end: int)
    requires HeldUntil(w, hash, end) && AllowedRun(ids, w, ops + [Check(later)]) && NotResolved(ops, hash)
    requires hash in Picked(Run(w, ops).store, later)
    ensures later >= end
    decreases |ops|
  {
    if ops == [] {
      assert ops + [Check(later)] == [Check(later)];
      HeldStep(w, Check(later), hash, end);
    } else {
      assert (ops + [Check(later)])[0] == ops[0] && (ops + [Check(later)])[1..] == ops[1..] + [Check(later)];
      assert NotResolved(ops[1..], hash);
      HeldStep(w, ops[0], hash, end);
      LeaseLasts(ids, Step(w, ops[0]), ops[1..], later, hash, end);
    }
  }

  // ---- One validating report ----

  /** A validating write as it lands keeps ALL in step with the statuses exactly when the transaction is then in ALL. */
  lemma LateValidatingWrite(s: Store, l: Late)
    requires l.LateValidating? && ScheduledExactlyLive(s)
    ensures ScheduledExactlyLive(Write(s, l)) <==> l.hash in s.all
  {
    var end := Write(s, l);
    assert l.hash in end.records && Live(end.records[l.hash].status);
    if l.hash in s.all {
      assert ScheduledExactlyLive(end);
    }
  }

  /** Whatever hash it names, a validating report keeps statuses and ALL in step exactly when the hash is scheduled or
      already resolved: one for an unknown or unsent hash makes a Validating record outside ALL. */
  lemma ValidatingReportOfAnyHash(s: Store, tx: TxReport)
    requires tx.status.Validating? && tx.eventArgs.Structured? && ScheduledExactlyLive(s)
    ensures var hash := tx.transactionHash;
            ScheduledExactlyLive(ResolveOne(s, tx)) <==>
            hash in s.all || (hash in s.records && Final(s.records[hash].status))
  {
    LateValidatingWrite(s, LateValidating(tx.transactionHash, tx.blockNumber, tx.index, tx.eventArgs.json));
    assert tx == TxReport(tx.transactionHash, Validating, tx.blockNumber, tx.index, Structured(tx.eventArgs.json));
  }

  /** A final report between check and write: the transaction ends as Validating and is never checked again. */
  lemma LateValidatingWriteLosesResult(w: World, tx: TxReport, final: TxReport)
    requires tx.transactionHash in w.store.all && tx.transactionHash in w.store.records
    requires w.store.records[tx.transactionHash].status.Pending? && tx.status.Validating? && !Throws(tx)
    requires final.transactionHash == tx.transactionHash && Final(final.status) && !Throws(final)
    ensures var end := Run(w, [Report(tx), Report(final), Land(|w.late|)]).store;
            && tx.transactionHash in end.records && end.records[tx.transactionHash].status == Validating
            && tx.transactionHash !in end.all
  {
    var hash, ops := tx.transactionHash, [Report(tx), Report(final), Land(|w.late|)];
    var w1, w2 := Step(w, ops[0]), Step(Step(w, ops[0]), ops[1]);
    var l := LateValidating(hash, tx.blockNumber, tx.index, tx.eventArgs.json);
    assert w1 == w.(late := w.late + [l]);
    assert w2 == w1.(store := ResolveOne(w.store, final));
    assert Step(w2, ops[2]).store == Write(w2.store, l);
    RunOfThree(w, ops);
  }

  lemma RunOfThree(w: World, ops: seq<Op>)
    requires |ops| == 3
    ensures Run(w, ops) == Step(Step(Step(w, ops[0]), ops[1]), ops[2])
  {
    var w1, rest, last := Step(w, ops[0]), ops[1..], ops[1..][1..];
    assert rest[0] == ops[1] && last[0] == ops[2] && last[1..] == [];
    assert Run(w, ops) == Run(w1, rest);
    assert Run(w1, rest) == Run(Step(w1, ops[1]), last);
    assert Run(Step(w1, ops[1]), last) == Run(Step(Step(w1, ops[1]), ops[2]), last[1..]);
  }
}
