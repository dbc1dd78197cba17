/** What every write leaves in a record, field by field, and what polling then shows. */
module TxRecords {
  import opened Options
  import opened TxProtocol
  import opened TxStore

  /** No record but this one changes, and none goes. */
  predicate OnlyRecord(before: map<string, Record>, after: map<string, Record>, hash: string) {
    after.Keys == before.Keys + {hash} && forall h | h in before && h != hash :: after[h] == before[h]
  }

  predicate KeepsBlock(before: map<string, Record>, hash: string, r: Record) {
    if hash in before
    then r.blockNumber == before[hash].blockNumber && r.transactionIndex == before[hash].transactionIndex &&
         r.eventArgs == before[hash].eventArgs
    else r.blockNumber == r.transactionIndex == r.eventArgs == None
  }

  predicate KeepsSender(before: map<string, Record>, hash: string, r: Record) {
    if hash in before
    then r.senderAddress == before[hash].senderAddress && r.senderNonce == before[hash].senderNonce
    else r.senderAddress == r.senderNonce == None
  }

  predicate KeepsSets(s: Store, end: Store) {
    end.all == s.all && end.checking == s.checking && end.next == s.next
  }

  // ---- Polling ----

  /** A transaction hash is looked up itself, anything else through its pointer. */
  lemma PollFinds(s: Store, id: string)
    ensures |id| == 66 && id[..2] == "0x" &&
            (forall i | 2 <= i < 66 :: '0' <= id[i] <= '9' || 'a' <= id[i] <= 'f' || 'A' <= id[i] <= 'F')
            ==> (Poll(s, id).Some? <==> id in s.records) && (id in s.records ==> Poll(s, id).value == s.records[id])
    ensures |id| != 66 || id[..2] != "0x"
            ==> (Poll(s, id).Some? <==> id in s.pointers && s.pointers[id] in s.records) &&
                (id in s.pointers && s.pointers[id] in s.records ==> Poll(s, id).value == s.records[s.pointers[id]])
  {
  }

  // ---- Registrations, failures and sends ----

  /** A new request awaits sending, with empty sender fields and no result. */
  lemma RegistrationIsStored(s: Store, requestId: string, hash: string)
    requires hash !in s.records
    ensures var end := AddNew(s, requestId, hash);
            && OnlyRecord(s.records, end.records, hash) && KeepsSets(s, end)
            && end.records[hash] == Record(Some(""), Some(""), AwaitingToSend, None, None, None)
            && end.pointers == s.pointers[requestId := hash]
            && (!IsTransactionHash(requestId) ==> Poll(end, requestId) == Some(end.records[hash]))
  {
  }

  /** A failure is stored with its own reason and the sender as far as known; an earlier result stays. */
  lemma FailureIsStored(s: Store, requestId: string, hash: string, address: Option<string>, nonce: Option<string>,
                        reason: Status)
    ensures var end := AddFailed(s, requestId, hash, address, nonce, reason);
            && OnlyRecord(s.records, end.records, hash) && KeepsSets(s, end)
            && (end.pointers == if hash in s.records then s.pointers else s.pointers[requestId := hash])
            && var r := end.records[hash];
               && r.status == reason && KeepsBlock(s.records, hash, r)
               && r.senderAddress == Some(if address.Some? then address.value else "")
               && r.senderNonce == Some(if nonce.Some? then nonce.value else "")
  {
  }

  /** A send is stored as pending with its sender and nonce, scheduled under its time; an earlier result stays. */
  lemma SendIsStored(s: Store, requestId: string, hash: string, relayer: string, nonce: string, age: int)
    ensures var end := MarkPending(s, requestId, hash, relayer, nonce, age);
            && OnlyRecord(s.records, end.records, hash) && end.pointers == s.pointers[requestId := hash]
            && end.all == s.all[hash := age] && end.checking == s.checking && end.next == s.next
            && var r := end.records[hash];
               && r.status == Status.Pending && KeepsBlock(s.records, hash, r)
               && r.senderAddress == Some(relayer) && r.senderNonce == Some(nonce)
  {
  }

  // ---- Reports ----

  predicate HasResult(s: Store, hash: string) {
    && hash in s.records
    && (s.records[hash].status.Processed? || s.records[hash].status.Rejected? || s.records[hash].status.Validating?)
  }

  predicate IsResult(tx: TxReport) {
    tx.status.Processed? || tx.status.Rejected? || tx.status.Validating?
  }

  /** The report ends the request it is part of. */
  predicate EndsRequest(tx: TxReport) {
    IsResult(tx) && tx.eventArgs.RawText?
  }

  /** The report is written: any final one, and a validating one of a transaction without a result. */
  predicate Applies(s: Store, tx: TxReport) {
    && IsResult(tx) && tx.eventArgs.Structured?
    && (tx.status.Validating? ==> !HasResult(s, tx.transactionHash))
  }

  /** The record shows the report: its own status, block, index and arguments. */
  predicate Shows(r: Record, tx: TxReport) {
    && tx.eventArgs.Structured?
    && r.status == tx.status && r.blockNumber == Some(tx.blockNumber) && r.transactionIndex == Some(tx.index)
    && r.eventArgs == Some(tx.eventArgs.json)
  }

  predicate ReportStored(s: Store, tx: TxReport, end: Store) {
    && OnlyRecord(s.records, end.records, tx.transactionHash) && end.pointers == s.pointers
    && Shows(end.records[tx.transactionHash], tx)
    && KeepsSender(s.records, tx.transactionHash, end.records[tx.transactionHash])
    && if tx.status.Validating? then KeepsSets(s, end)
       else end.all == s.all - {tx.transactionHash} && end.checking == s.checking - {tx.transactionHash} &&
            end.next == s.next - {tx.transactionHash}
  }

  /** One report: it is stored as it stands if it applies, and changes nothing otherwise. */
  lemma ReportIsStored(s: Store, tx: TxReport)
    ensures Throws(tx) <==> EndsRequest(tx)
    ensures !Throws(tx) ==> if Applies(s, tx) then ReportStored(s, tx, ResolveOne(s, tx)) else ResolveOne(s, tx) == s
  {
  }

  /** A validating write stores its report whenever it lands. */
  lemma LandingIsStored(w: World, tx: TxReport, s: Store)
    requires tx.status.Validating? && Applies(w.store, tx)
    ensures Step(w, Report(tx)).store == w.store && |Step(w, Report(tx)).late| == |w.late| + 1
    ensures var l := Step(w, Report(tx)).late[|w.late|]; l.LateValidating? && ReportStored(s, tx, Write(s, l))
  {
  }

  /** The store when report `i` of a request is reached. */
  function Before(s: Store, txs: seq<TxReport>, i: nat): Store
    requires i <= |txs|
  {
    ResolveAll(s, txs[..i]).0
  }

  /** Report `i` is reached and applies. */
  predicate AppliedAt(s: Store, txs: seq<TxReport>, i: nat)
    requires i < |txs|
  {
    (forall j | 0 <= j < i :: !EndsRequest(txs[j])) && Applies(Before(s, txs, i), txs[i])
  }

  lemma {:induction false} ResolveAllGrows(s: Store, txs: seq<TxReport>)
    requires txs != []
    ensures var front, last := ResolveAll(s, txs[..|txs| - 1]), txs[|txs| - 1];
            ResolveAll(s, txs) ==
            if !front.1 || Throws(last) then (front.0, false) else (ResolveOne(front.0, last), true)
    decreases |txs|
  {
    var front := txs[..|txs| - 1];
    if |txs| == 1 {
      assert front == [] && txs[1..] == [];
    } else {
      assert front[1..] == txs[1..][..|txs| - 2] && front[0] == txs[0];
      if !Throws(txs[0]) {
        ResolveAllGrows(ResolveOne(s, txs[0]), txs[1..]);
      }
    }
  }

  /** A request goes through to its end unless a report ends it. */
  lemma {:induction false} RequestEnds(s: Store, txs: seq<TxReport>)
    ensures ResolveAll(s, txs).1 <==> forall i | 0 <= i < |txs| :: !EndsRequest(txs[i])
    decreases |txs|
  {
    if txs != [] {
      ReportIsStored(s, txs[0]);
      if !Throws(txs[0]) {
        RequestEnds(ResolveOne(s, txs[0]), txs[1..]);
        assert forall i | 1 <= i < |txs| :: txs[i] == txs[1..][i - 1];
      }
    }
  }

  /** The last report of a request, if it is reached: stored or without effect. */
  lemma LastReport(s: Store, txs: seq<TxReport>)
    requires txs != []
    ensures var i, end := |txs| - 1, ResolveAll(s, txs).0;
            if AppliedAt(s, txs, i) then ReportStored(Before(s, txs, i), txs[i], end) else end == Before(s, txs, i)
  {
    var i := |txs| - 1;
    ResolveAllGrows(s, txs);
    RequestEnds(s, txs[..i]);
    assert forall j | 0 <= j < i :: txs[..i][j] == txs[j];
    ReportIsStored(Before(s, txs, i), txs[i]);
  }

  lemma FrontReport(s: Store, txs: seq<TxReport>, i: nat)
    requires i + 1 < |txs|
    ensures AppliedAt(s, txs[..|txs| - 1], i) <==> AppliedAt(s, txs, i)
  {
    assert txs[..|txs| - 1][..i] == txs[..i];
  }

  predicate NoneApplies(s: Store, txs: seq<TxReport>, hash: string, from: nat) {
    forall i | from <= i < |txs| && txs[i].transactionHash == hash :: !AppliedAt(s, txs, i)
  }

  lemma FrontNone(s: Store, txs: seq<TxReport>, hash: string, from: nat)
    requires txs != [] && NoneApplies(s, txs, hash, from)
    ensures NoneApplies(s, txs[..|txs| - 1], hash, from)
  {
    var front := txs[..|txs| - 1];
    forall i | from <= i < |front| && front[i].transactionHash == hash ensures !AppliedAt(s, front, i) {
      assert front[i] == txs[i];
      FrontReport(s, txs, i);
    }
  }

  /** A transaction of which no report applies keeps its record. */
  lemma {:induction false} UnreportedStays(s: Store, txs: seq<TxReport>, hash: string)
    requires NoneApplies(s, txs, hash, 0)
    ensures var end := ResolveAll(s, txs).0;
            (hash in end.records <==> hash in s.records) && (hash in s.records ==> end.records[hash] == s.records[hash])
    decreases |txs|
  {
    if txs != [] {
      FrontNone(s, txs, hash, 0);
      UnreportedStays(s, txs[..|txs| - 1], hash);
      LastReport(s, txs);
    }
  }

  lemma {:induction false} SenderStays(s: Store, txs: seq<TxReport>, hash: string)
    ensures var end := ResolveAll(s, txs).0;
            && end.pointers == s.pointers
            && (hash in end.records ==> KeepsSender(s.records, hash, end.records[hash]))
            && s.records.Keys <= end.records.Keys
    decreases |txs|
  {
    if txs != [] {
      SenderStays(s, txs[..|txs| - 1], hash);
      LastReport(s, txs);
    }
  }

  /** A transaction shows the last report of it that applies. */
  lemma {:induction false} LastAppliedIsShown(s: Store, txs: seq<TxReport>, k: nat)
    requires k < |txs| && AppliedAt(s, txs, k) && NoneApplies(s, txs, txs[k].transactionHash, k + 1)
    ensures var end := ResolveAll(s, txs).0;
            txs[k].transactionHash in end.records && Shows(end.records[txs[k].transactionHash], txs[k])
    decreases |txs|
  {
    LastReport(s, txs);
    if k < |txs| - 1 {
      FrontReport(s, txs, k);
      FrontNone(s, txs, txs[k].transactionHash, k + 1);
      LastAppliedIsShown(s, txs[..|txs| - 1], k);
    }
  }

  /** A resolution request: a transaction shows the last report of it that applies, with the sender it had, and polling
      a request that points to it, or its hash, shows exactly that; one of which no report applies is as before. */
  lemma ReportsAreShown(s: Store, txs: seq<TxReport>, hash: string, requestId: string)
    requires requestId in s.pointers && s.pointers[requestId] == hash && !IsTransactionHash(requestId)
    ensures var end := ResolveAll(s, txs).0;
            && (forall k | 0 <= k < |txs| && txs[k].transactionHash == hash && AppliedAt(s, txs, k) &&
                           NoneApplies(s, txs, hash, k + 1) ::
                  && Poll(end, requestId).Some? && Shows(Poll(end, requestId).value, txs[k])
                  && KeepsSender(s.records, hash, Poll(end, requestId).value))
            && (NoneApplies(s, txs, hash, 0) ==> Poll(end, requestId) == Poll(s, requestId))
            && (IsTransactionHash(hash) ==> Poll(end, hash) == Poll(end, requestId))
  {
    var end := ResolveAll(s, txs).0;
    SenderStays(s, txs, hash);
    forall k | 0 <= k < |txs| && txs[k].transactionHash == hash && AppliedAt(s, txs, k) &&
               NoneApplies(s, txs, hash, k + 1)
      ensures Poll(end, requestId).Some? && Shows(Poll(end, requestId).value, txs[k])
      ensures KeepsSender(s.records, hash, Poll(end, requestId).value)
    {
      LastAppliedIsShown(s, txs, k);
    }
    if NoneApplies(s, txs, hash, 0) {
      UnreportedStays(s, txs, hash);
    }
  }

  // ---- Until the next write ----

  /** The step writes the record of a handed-out transaction: a send, a final report or a landing validating write. */
  predicate Touches(w: World, op: Op, hash: string) {
    || (op.Sent? && op.hash == hash)
    || (op.Report? && op.tx.transactionHash == hash && (op.tx.status.Processed? || op.tx.status.Rejected?))
    || ValidatingLands(w, op, hash)
  }

  predicate NeverTouched(w: World, ops: seq<Op>, hash: string)
    decreases |ops|
  {
    ops == [] || (!Touches(w, ops[0], hash) && NeverTouched(Step(w, ops[0]), ops[1..], hash))
  }

  lemma UntouchedStep(ids: Hashing, w: World, op: Op, hash: string)
    requires Inv(ids, w) && Allowed(ids, w, op) && hash in w.returned && !Touches(w, op, hash)
    ensures hash in w.store.records && hash in Step(w, op).store.records
    ensures Step(w, op).store.records[hash] == w.store.records[hash]
  {
    if op.Land? && op.at < |w.late| {
      assert LateFits(ids, w.store, w.returned, w.late[op.at]);
    }
  }

  /** A handed-out transaction keeps its record, result included, until it is sent again, reported finally, or a
      validating write for it lands. */
  lemma {:induction false} RecordStays(ids: Hashing, w: World, ops: seq<Op>, hash: string)
    requires Inv(ids, w) && AllowedRun(ids, w, ops) && hash in w.returned && NeverTouched(w, ops, hash)
    ensures hash in w.store.records && hash in Run(w, ops).store.records
    ensures Run(w, ops).store.records[hash] == w.store.records[hash]
    decreases |ops|
  {
    if ops != [] {
      UntouchedStep(ids, w, ops[0], hash);
      StepKeepsInv(ids, w, ops[0]);
      StepGrows(w, ops[0]);
      RecordStays(ids, Step(w, ops[0]), ops[1..], hash);
    }
  }
}
