/** Relayer nonces: a cached next nonce that may expire, and the chain's own next index. */
module Nonces {
  import opened Options

  /** How a send ends: refused before or by the node, or taken by it if it carries the next index, with the cache write
      after it done or not. */
  datatype Outcome = Refused | Accepted(cacheWritten: bool)

  /** The cached next nonce, the chain's next index counting pending transactions, and the nonces accepted so far. */
  datatype World = World(cache: Option<nat>, chainNext: nat, sent: seq<nat>)

  datatype Op = Expire | Send(outcome: Outcome)

  function NextNonce(w: World): nat {
    if w.cache.Some? then w.cache.value else w.chainNext
  }

  /** The node refuses any nonce but the chain's next. */
  predicate Taken(w: World, outcome: Outcome) {
    outcome.Accepted? && NextNonce(w) == w.chainNext
  }

  function Step(w: World, op: Op): World {
    match op
    case Expire => w.(cache := None)
    case Send(outcome) =>
      if !Taken(w, outcome) then w
      else World(if outcome.cacheWritten then Some(w.chainNext + 1) else w.cache, w.chainNext + 1,
                 w.sent + [w.chainNext])
  }

  class RelayerNonce {
    var cache: Option<nat>

    constructor ()
      ensures cache == None
    {
      cache := None;
    }
  }

  /** The accepted nonces run without gap or repeat up to the chain's next, and the cache is not ahead of it. */
  predicate Consecutive(w: World) {
    && (w.cache.Some? ==> w.cache.value <= w.chainNext)
    && |w.sent| <= w.chainNext
    && forall i | 0 <= i < |w.sent| :: w.sent[i] == w.chainNext - |w.sent| + i
  }

  /** The next send carries the nonce the chain expects. */
  predicate InStep(w: World) {
    Consecutive(w) && NextNonce(w) == w.chainNext
  }

  function Steps(w: World, ops: seq<Op>): World
    decreases |ops|
  {
    if ops == [] then w else Steps(Step(w, ops[0]), ops[1..])
  }

  /** An accepted send uses up the chain's next nonce and, if it is cached, leaves the one after it, which the next send
      carries without asking the chain. */
  lemma AcceptedIsCached(w: World, cacheWritten: bool)
    requires InStep(w)
    ensures var end := Step(w, Send(Accepted(cacheWritten)));
            && end.sent == w.sent + [NextNonce(w)] && end.chainNext == w.chainNext + 1
            && (cacheWritten ==> end.cache == Some(NextNonce(w) + 1))
            && (!cacheWritten ==> end.cache == w.cache)
  {
  }

  predicate NoLostWrite(ops: seq<Op>) {
    Send(Accepted(false)) !in ops
  }

  /** Over any expiries, refusals and lost cache writes, accepted transactions carry consecutive nonces; without lost
      writes the next send always carries the one expected. */
  lemma {:induction false} NoncesAreConsecutive(w: World, ops: seq<Op>)
    requires Consecutive(w)
    ensures Consecutive(Steps(w, ops))
    ensures InStep(w) && NoLostWrite(ops) ==> InStep(Steps(w, ops))
    decreases |ops|
  {
    if ops != [] {
      assert ops[0] in ops;
      assert NoLostWrite(ops) ==> NoLostWrite(ops[1..]);
      NoncesAreConsecutive(Step(w, ops[0]), ops[1..]);
    }
  }

  /** A lost cache write after an accepted send is harmless exactly when there was no cached nonce. */
  lemma LostCacheWrite(w: World)
    requires InStep(w)
    ensures InStep(Step(w, Send(Accepted(false)))) <==> w.cache.None?
  {
    var end := Step(w, Send(Accepted(false)));
    assert end.sent == w.sent + [w.chainNext];
  }

  lemma {:induction false} BehindUntilExpiry(w: World, ops: seq<Op>)
    requires Consecutive(w) && NextNonce(w) < w.chainNext
    ensures Expire !in ops ==> Steps(w, ops) == w
    ensures NoLostWrite(ops) ==> (InStep(Steps(w, ops)) <==> Expire in ops)
    decreases |ops|
  {
    if ops != [] {
      var rest := ops[1..];
      assert ops == [ops[0]] + rest;
      if ops[0] == Expire {
        NoncesAreConsecutive(Step(w, Expire), rest);
      } else {
        BehindUntilExpiry(w, rest);
      }
    }
  }

  /** Otherwise every attempt carries a nonce already used and is refused, until the cached one expires; and with no
      further lost write the nonces are in step again if and only if it has expired. */
  lemma LostCacheWriteBlocks(w: World, ops: seq<Op>)
    requires InStep(w) && w.cache.Some?
    ensures var lost := Step(w, Send(Accepted(false)));
            && NextNonce(lost) in lost.sent
            && (Expire !in ops ==> Steps(lost, ops) == lost)
            && (NoLostWrite(ops) ==> (InStep(Steps(lost, ops)) <==> Expire in ops))
  {
    var lost := Step(w, Send(Accepted(false)));
    assert lost.sent == w.sent + [w.chainNext] && lost.sent[|w.sent|] == w.chainNext;
    BehindUntilExpiry(lost, ops);
  }
}
