/** Sending a transaction: the relayer's nonce, the node, and what the transaction store is told about it. */
module Sending {
  import opened Decimals
  import opened Options
  import opened TxStore
  import Nonces

  /** How an attempt goes: no relayer key; no nonce from store or node; refused by signing or by the node; or accepted
      under a hash, after which the nonce write or the status write may still fail. `recorded` tells whether the write
      of a failure goes through. */
  datatype Attempt =
    | NoKey
    | NoNonce(recorded: bool)
    | Refused(recorded: bool)
    | Accepted(hash: string, nonceWritten: bool, statusWritten: bool, recorded: bool)

  function NonceOutcome(a: Attempt): Nonces.Outcome {
    if a.Accepted? then Nonces.Accepted(a.nonceWritten) else Nonces.Refused
  }

  /** The node takes the transaction and both writes after it go through. */
  predicate Succeeds(w: Nonces.World, a: Attempt) {
    a.Accepted? && Nonces.Taken(w, NonceOutcome(a)) && a.nonceWritten && a.statusWritten
  }

  /** The failure is written under the placeholder. */
  predicate Records(w: Nonces.World, a: Attempt) {
    !Succeeds(w, a) && !a.NoKey? && a.recorded
  }

  /** The nonce of a failed attempt, absent when none was found. */
  function FailedNonce(w: Nonces.World, a: Attempt): Option<string> {
    if a.NoNonce? then None else Some(Decimal(Nonces.NextNonce(w)))
  }

  function StoreAfter(kec: string -> string, requestId: string, relayer: string, s: Store, w: Nonces.World, age: int,
                      a: Attempt): Store
  {
    if Succeeds(w, a) then MarkPending(s, requestId, a.hash, relayer, Decimal(Nonces.NextNonce(w)), age)
    else if Records(w, a) then AddFailed(s, requestId, kec(requestId), Some(relayer), FailedNonce(w, a), SendingFailed)
    else s
  }

  /** signAndSend, uninterrupted: a send, a failure or nothing on the store and a step of the nonces; the hash is
      returned only after a full success. */
  method SignAndSend(redis: RedisClient, nonces: Nonces.RelayerNonce, kec: string -> string, requestId: string,
                     relayer: string, accountNextIndex: nat, age: int, attempt: Attempt)
    returns (transactionHash: Option<string>)
    requires redis as object != nonces
    modifies redis, nonces
    ensures var w := Nonces.World(old(nonces.cache), accountNextIndex, []);
            && redis.State() == StoreAfter(kec, requestId, relayer, old(redis.State()), w, age, attempt)
            && nonces.cache == Nonces.Step(w, Nonces.Send(NonceOutcome(attempt))).cache
            && transactionHash == if Succeeds(w, attempt) then Some(attempt.hash) else None
  {
    if attempt.NoKey? {
      return None;
    }
    var senderNonce := None;
    if !attempt.NoNonce? {
      var nonce := if nonces.cache.None? then accountNextIndex else nonces.cache.value;
      senderNonce := Some(Decimal(nonce));
      if attempt.Accepted? && nonce == accountNextIndex && attempt.nonceWritten {
        nonces.cache := Some(nonce + 1);
        if attempt.statusWritten {
          redis.UpdateTransactionStatusToPending(requestId, attempt.hash, relayer, Decimal(nonce), age);
          return Some(attempt.hash);
        }
      }
    }
    if attempt.recorded {
      redis.AddFailedAvnTransaction(requestId, kec(requestId), Some(relayer), senderNonce, SendingFailed);
    }
    return None;
  }

  /** A request whose placeholder is stored, with a pointer that leads to a record. */
  predicate Ready(kec: string -> string, s: Store, requestId: string) {
    kec(requestId) in s.records && requestId in s.pointers && s.pointers[requestId] in s.records
  }

  /** What a success leaves at a transaction, and a recorded failure at a placeholder. */
  predicate IsPending(r: Record, relayer: string, nonce: nat) {
    r.status == Pending && r.senderAddress == Some(relayer) && r.senderNonce == Some(Decimal(nonce))
  }

  predicate IsFailed(r: Record, relayer: string, nonce: Option<string>) {
    r.status == SendingFailed && r.senderAddress == Some(relayer) && r.senderNonce == OrEmpty(nonce)
  }

  /** One attempt on a registered request: a success makes it lead to the pending transaction; anything else leaves its
      pointer, and leaves what polling shows unless a failure is recorded while it still leads to its placeholder. */
  lemma AttemptIsShown(kec: string -> string, requestId: string, relayer: string, s: Store, w: Nonces.World, age: int,
                       a: Attempt)
    requires Ready(kec, s, requestId) && !IsTransactionHash(requestId)
    ensures var end := StoreAfter(kec, requestId, relayer, s, w, age, a);
            var shown := Poll(end, requestId);
            && Ready(kec, end, requestId)
            && (Succeeds(w, a) <==>
                  a.Accepted? && Nonces.NextNonce(w) == w.chainNext && a.nonceWritten && a.statusWritten)
            && (Records(w, a) <==> !Succeeds(w, a) && !a.NoKey? && a.recorded)
            && if Succeeds(w, a)
               then
                 && end.pointers[requestId] == a.hash
                 && shown.Some? && IsPending(shown.value, relayer, Nonces.NextNonce(w))
               else
                 && end.pointers == s.pointers
                 && if Records(w, a) && s.pointers[requestId] == kec(requestId)
                    then shown.Some? && IsFailed(shown.value, relayer, FailedNonce(w, a)) &&
                         shown.value.senderNonce == Some(if a.NoNonce? then "" else Decimal(Nonces.NextNonce(w)))
                    else shown == Poll(s, requestId)
  {
  }

  // ---- Retries ----

  /** An attempt, with the nonces it meets: others may have used the relayer, and the cache may have expired, since. */
  datatype Try = Try(nonces: Nonces.World, age: int, attempt: Attempt)

  function StoreAfterAll(kec: string -> string, requestId: string, relayer: string, s: Store, tries: seq<Try>): Store {
    if tries == [] then s else
      var front, last := tries[..|tries| - 1], tries[|tries| - 1];
      StoreAfter(kec, requestId, relayer, StoreAfterAll(kec, requestId, relayer, s, front), last.nonces, last.age,
                 last.attempt)
  }

  predicate Success(t: Try) {
    Succeeds(t.nonces, t.attempt)
  }

  predicate Recorded(t: Try) {
    Records(t.nonces, t.attempt)
  }

  /** Try `k` succeeds and none after it. */
  predicate LastSuccess(tries: seq<Try>, k: nat)
    requires k < |tries|
  {
    Success(tries[k]) && forall i | k < i < |tries| :: !Success(tries[i])
  }

  /** No try succeeds, and `k` is the last one recorded. */
  predicate LastFailure(tries: seq<Try>, k: nat)
    requires k < |tries|
  {
    && (forall i | 0 <= i < |tries| :: !Success(tries[i]))
    && Recorded(tries[k]) && forall i | k < i < |tries| :: !Recorded(tries[i])
  }

  predicate NothingWritten(tries: seq<Try>) {
    forall i | 0 <= i < |tries| :: !Success(tries[i]) && !Recorded(tries[i])
  }

  /** The tries are on a registered request that still leads to its placeholder, and no transaction is the placeholder.
      */
  predicate Retries(kec: string -> string, s: Store, requestId: string, tries: seq<Try>) {
    && Ready(kec, s, requestId) && !IsTransactionHash(requestId) && s.pointers[requestId] == kec(requestId)
    && forall i | 0 <= i < |tries| && tries[i].attempt.Accepted? :: tries[i].attempt.hash != kec(requestId)
  }

  lemma {:induction false} StaysReady(kec: string -> string, requestId: string, relayer: string, s: Store,
                                      tries: seq<Try>)
    requires Retries(kec, s, requestId, tries)
    ensures Ready(kec, StoreAfterAll(kec, requestId, relayer, s, tries), requestId)
  {
    if tries != [] {
      var front, last := tries[..|tries| - 1], tries[|tries| - 1];
      StaysReady(kec, requestId, relayer, s, front);
      AttemptIsShown(kec, requestId, relayer, StoreAfterAll(kec, requestId, relayer, s, front), last.nonces, last.age,
                     last.attempt);
    }
  }

  lemma {:induction false} SuccessIsShown(kec: string -> string, requestId: string, relayer: string, s: Store,
                                          tries: seq<Try>, k: nat)
    requires Retries(kec, s, requestId, tries) && k < |tries| && LastSuccess(tries, k)
    ensures var end := StoreAfterAll(kec, requestId, relayer, s, tries);
            var shown := Poll(end, requestId);
            && Ready(kec, end, requestId) && end.pointers[requestId] == tries[k].attempt.hash
            && shown.Some? && IsPending(shown.value, relayer, Nonces.NextNonce(tries[k].nonces))
  {
    var front, last := tries[..|tries| - 1], tries[|tries| - 1];
    StaysReady(kec, requestId, relayer, s, front);
    if k < |front| {
      SuccessIsShown(kec, requestId, relayer, s, front, k);
    }
    AttemptIsShown(kec, requestId, relayer, StoreAfterAll(kec, requestId, relayer, s, front), last.nonces, last.age,
                   last.attempt);
  }

  lemma {:induction false} NothingIsShown(kec: string -> string, requestId: string, relayer: string, s: Store,
                                          tries: seq<Try>)
    requires Retries(kec, s, requestId, tries) && NothingWritten(tries)
    ensures StoreAfterAll(kec, requestId, relayer, s, tries) == s
  {
    if tries != [] {
      NothingIsShown(kec, requestId, relayer, s, tries[..|tries| - 1]);
      assert !Success(tries[|tries| - 1]) && !Recorded(tries[|tries| - 1]);
    }
  }

  lemma {:induction false} NoSuccessNoMove(kec: string -> string, requestId: string, relayer: string, s: Store,
                                           tries: seq<Try>)
    requires Retries(kec, s, requestId, tries) && forall i | 0 <= i < |tries| :: !Success(tries[i])
    ensures Ready(kec, StoreAfterAll(kec, requestId, relayer, s, tries), requestId)
    ensures StoreAfterAll(kec, requestId, relayer, s, tries).pointers == s.pointers
  {
    if tries != [] {
      var front, last := tries[..|tries| - 1], tries[|tries| - 1];
      NoSuccessNoMove(kec, requestId, relayer, s, front);
      assert !Success(last);
      AttemptIsShown(kec, requestId, relayer, StoreAfterAll(kec, requestId, relayer, s, front), last.nonces, last.age,
                     last.attempt);
    }
  }

  lemma {:induction false} FailureIsShown(kec: string -> string, requestId: string, relayer: string, s: Store,
                                          tries: seq<Try>, k: nat)
    requires Retries(kec, s, requestId, tries) && k < |tries| && LastFailure(tries, k)
    ensures var end := StoreAfterAll(kec, requestId, relayer, s, tries);
            var shown := Poll(end, requestId);
            && end.pointers == s.pointers
            && shown.Some? && IsFailed(shown.value, relayer, FailedNonce(tries[k].nonces, tries[k].attempt))
  {
    var front, last := tries[..|tries| - 1], tries[|tries| - 1];
    NoSuccessNoMove(kec, requestId, relayer, s, front);
    if k < |front| {
      FailureIsShown(kec, requestId, relayer, s, front, k);
    }
    assert !Success(last);
    AttemptIsShown(kec, requestId, relayer, StoreAfterAll(kec, requestId, relayer, s, front), last.nonces, last.age,
                   last.attempt);
  }

  /** Retries of a registered request, as the queue makes them: polling shows the transaction of the last success; if no
      try succeeds, the last recorded failure; and if nothing was written, what it showed before. */
  lemma RetriesAreShown(kec: string -> string, requestId: string, relayer: string, s: Store, tries: seq<Try>)
    requires Retries(kec, s, requestId, tries)
    ensures var end := StoreAfterAll(kec, requestId, relayer, s, tries);
            var shown := Poll(end, requestId);
            && (forall k | 0 <= k < |tries| && LastSuccess(tries, k) ::
                  requestId in end.pointers && end.pointers[requestId] == tries[k].attempt.hash &&
                  shown.Some? && IsPending(shown.value, relayer, Nonces.NextNonce(tries[k].nonces)))
            && (forall k | 0 <= k < |tries| && LastFailure(tries, k) ::
                  end.pointers == s.pointers &&
                  shown.Some? && IsFailed(shown.value, relayer, FailedNonce(tries[k].nonces, tries[k].attempt)))
            && (NothingWritten(tries) ==> end == s)
  {
    var end := StoreAfterAll(kec, requestId, relayer, s, tries);
    var shown := Poll(end, requestId);
    forall k | 0 <= k < |tries| && LastSuccess(tries, k)
      ensures requestId in end.pointers && end.pointers[requestId] == tries[k].attempt.hash
      ensures shown.Some? && IsPending(shown.value, relayer, Nonces.NextNonce(tries[k].nonces))
    {
      SuccessIsShown(kec, requestId, relayer, s, tries, k);
    }
    forall k | 0 <= k < |tries| && LastFailure(tries, k)
      ensures end.pointers == s.pointers
      ensures shown.Some? && IsFailed(shown.value, relayer, FailedNonce(tries[k].nonces, tries[k].attempt))
    {
      FailureIsShown(kec, requestId, relayer, s, tries, k);
    }
    if NothingWritten(tries) {
      NothingIsShown(kec, requestId, relayer, s, tries);
    }
  }
}
