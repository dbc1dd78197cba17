/** The transaction part of the Redis client: status records, request pointers and the three sorted sets. */
module TxStore {
  import opened Options
  import opened SortedSets
  import LuaCommands

  const MAX_PENDING_TX_TO_CHECK: nat := 250
  const PENDING_TX_CHECKING_WINDOW_IN_SECONDS := 5

  datatype Status =
    | AwaitingToSend | PayerRefused | Pending | Processed | Rejected | SendingFailed | Validating
    | Unknown(name: string)

  /** A stored hash; a field that no HSET has written yet is None. */
  datatype Record = Record(senderAddress: Option<string>, senderNonce: Option<string>, status: Status,
                           blockNumber: Option<string>, transactionIndex: Option<string>, eventArgs: Option<string>)

  /** Event arguments in a report: data to be serialised, or text, which the serialiser refuses. */
  datatype EventArgs = Structured(json: string) | RawText(text: string)

  datatype TxReport = TxReport(transactionHash: string, status: Status, blockNumber: string, index: string,
                               eventArgs: EventArgs)

  datatype Store = Store(records: map<string, Record>, pointers: map<string, string>,
                         all: ZSet, checking: ZSet, next: ZSet)

  function OrEmpty(text: Option<string>): Option<string> {
    if text.Some? then text else Some("")
  }

  /** HSET of the sender fields and the status: the block fields of an existing record stay. */
  function HSetSender(records: map<string, Record>, hash: string,
                      address: Option<string>, nonce: Option<string>, status: Status): map<string, Record>
  {
    records[hash :=
      if hash in records
      then records[hash].(senderAddress := OrEmpty(address), senderNonce := OrEmpty(nonce), status := status)
      else Record(OrEmpty(address), OrEmpty(nonce), status, None, None, None)]
  }

  /** HSET of the status and the block fields: the sender fields of an existing record stay. */
  function HSetReport(records: map<string, Record>, tx: TxReport): map<string, Record>
    requires tx.eventArgs.Structured?
  {
    var hash := tx.transactionHash;
    records[hash :=
      (if hash in records then records[hash] else Record(None, None, tx.status, None, None, None))
      .(status := tx.status, blockNumber := Some(tx.blockNumber), transactionIndex := Some(tx.index),
        eventArgs := Some(tx.eventArgs.json))]
  }

  function AddNew(s: Store, requestId: string, requestIdHash: string): Store {
    if requestIdHash in s.records then s
    else s.(records := HSetSender(s.records, requestIdHash, None, None, AwaitingToSend),
            pointers := s.pointers[requestId := requestIdHash])
  }

  function AddFailed(s: Store, requestId: string, hash: string,
                     address: Option<string>, nonce: Option<string>, reason: Status): Store
  {
    s.(records := HSetSender(s.records, hash, address, nonce, reason),
       pointers := if hash in s.records then s.pointers else s.pointers[requestId := hash])
  }

  function MarkPending(s: Store, requestId: string, hash: string, address: string, nonce: string, age: int): Store {
    s.(records := HSetSender(s.records, hash, Some(address), Some(nonce), Pending),
       all := s.all[hash := age],
       pointers := s.pointers[requestId := hash])
  }

  predicate Final(status: Status) {
    status.Processed? || status.Rejected?
  }

  predicate Reportable(status: Status) {
    Final(status) || status.Validating?
  }

  /** A report that makes the resolver throw: a valid status with arguments already turned into text. */
  predicate Throws(tx: TxReport) {
    Reportable(tx.status) && tx.eventArgs.RawText?
  }

  function ResolveOne(s: Store, tx: TxReport): Store
    requires !Throws(tx)
  {
    var hash := tx.transactionHash;
    if !Reportable(tx.status) then s
    else if tx.status.Validating? then
      if hash in s.records && Reportable(s.records[hash].status) then s
      else s.(records := HSetReport(s.records, tx))
    else
      s.(records := HSetReport(s.records, tx),
         all := s.all - {hash}, checking := s.checking - {hash}, next := s.next - {hash})
  }

  /** Reports are applied one after the other; the first that throws ends the call, the earlier ones stay applied. */
  function ResolveAll(s: Store, txs: seq<TxReport>): (Store, bool)
    decreases |txs|
  {
    if txs == [] then (s, true)
    else if Throws(txs[0]) then (s, false)
    else ResolveAll(ResolveOne(s, txs[0]), txs[1..])
  }

  /** The unleased transactions of a scheduling call, expired leases back with their expiry as score. */
  function Due(s: Store, now: int): ZSet {
    (s.all + UpTo(s.checking, now)) - (s.checking - UpTo(s.checking, now).Keys).Keys
  }

  function Picked(s: Store, now: int): seq<string> {
    Take(Order(Due(s, now)), MAX_PENDING_TX_TO_CHECK)
  }

  function Expiry(now: int): int {
    now + PENDING_TX_CHECKING_WINDOW_IN_SECONDS * 1000
  }

  function Schedule(s: Store, now: int): Store {
    s.(all := s.all + UpTo(s.checking, now),
       checking := s.checking - UpTo(s.checking, now).Keys + LuaCommands.Leases(Picked(s, now), Expiry(now)),
       next := Due(s, now))
  }

  function TransactionOf(s: Store, hash: Option<string>): Option<Record> {
    if hash.Some? && hash.value in s.records then Some(s.records[hash.value]) else None
  }

  predicate IsHexDigit(c: char) {
    '0' <= c <= '9' || 'a' <= c <= 'f' || 'A' <= c <= 'F'
  }

  predicate IsTransactionHash(requestId: string) {
    |requestId| == 66 && requestId[..2] == "0x" && forall i | 2 <= i < 66 :: IsHexDigit(requestId[i])
  }

  /** What polling finds for a request id or a transaction hash; None is "Transaction not found". */
  function Poll(s: Store, requestId: string): Option<Record> {
    if IsTransactionHash(requestId) then TransactionOf(s, Some(requestId))
    else TransactionOf(s, if requestId in s.pointers then Some(s.pointers[requestId]) else None)
  }

  class RedisClient {
    var records: map<string, Record>
    var pointers: map<string, string>
    var all: ZSet
    var checking: ZSet
    var next: ZSet

    constructor ()
      ensures State() == Store(map[], map[], map[], map[], map[])
    {
      records, pointers, all, checking, next := map[], map[], map[], map[], map[];
    }

    ghost function State(): Store
      reads this
    {
      Store(records, pointers, all, checking, next)
    }

    method AddNewAvnTransaction(requestId: string, requestIdHash: string)
      modifies this
      ensures State() == AddNew(old(State()), requestId, requestIdHash)
    {
      if requestIdHash in records {
        return;
      }
      records := HSetSender(records, requestIdHash, None, None, AwaitingToSend);
      pointers := pointers[requestId := requestIdHash];
    }

    method AddFailedAvnTransaction(requestId: string, txHashOrRequestId: string,
                                   senderAddress: Option<string>, senderNonce: Option<string>, reason: Status)
      modifies this
      ensures State() == AddFailed(old(State()), requestId, txHashOrRequestId, senderAddress, senderNonce, reason)
    {
      if txHashOrRequestId in records {
        records := HSetSender(records, txHashOrRequestId, senderAddress, senderNonce, reason);
        return;
      }
      records := HSetSender(records, txHashOrRequestId, senderAddress, senderNonce, reason);
      pointers := pointers[requestId := txHashOrRequestId];
    }

    method UpdateTransactionStatusToPending(requestId: string, transactionHash: string,
                                            senderAddress: string, senderNonce: string, age: int)
      modifies this
      ensures State() == MarkPending(old(State()), requestId, transactionHash, senderAddress, senderNonce, age)
    {
      records := HSetSender(records, transactionHash, Some(senderAddress), Some(senderNonce), Pending);
      all := all[transactionHash := age];
      pointers := pointers[requestId := transactionHash];
    }

    method ResolvePendingAvnTransactions(transactions: seq<TxReport>) returns (ok: bool)
      modifies this
      ensures (State(), ok) == ResolveAll(old(State()), transactions)
    {
      for i := 0 to |transactions|
        invariant ResolveAll(State(), transactions[i..]) == ResolveAll(old(State()), transactions)
      {
        var tx := transactions[i];
        var hash := tx.transactionHash;
        assert transactions[i..][1..] == transactions[i + 1..];
        if !Reportable(tx.status) {
          continue;
        }
        if tx.eventArgs.RawText? {
          return false;
        }
        if tx.status == Validating {
          if !(hash in records && Reportable(records[hash].status)) {
            records := HSetReport(records, tx);
          }
        } else {
          records := HSetReport(records, tx);
          all := all - {hash};
          checking := checking - {hash};
          next := next - {hash};
        }
      }
      return true;
    }

    /** `differ` is the warning that the counts of expired and re-scored transactions differ: it never shows. */
    method GetNextTransactionsToCheck(timeNow: int) returns (hashes: seq<string>, differ: bool)
      modifies this
      ensures State() == Schedule(old(State()), timeNow)
      ensures hashes == Picked(old(State()), timeNow)
      ensures !differ
    {
      var expired := UpTo(checking, timeNow);
      var rescored, numUpdated := LuaCommands.AddZRangeByScore(checking, all, timeNow);
      var unexpired, numExpired := checking - expired.Keys, |expired|;
      var awaiting := rescored - unexpired.Keys;
      var leased;
      leased, hashes := LuaCommands.NextZSubset(awaiting, unexpired, MAX_PENDING_TX_TO_CHECK, Expiry(timeNow));
      all, checking, next := rescored, leased, awaiting;
      differ := numUpdated != numExpired;
    }
  }
}
