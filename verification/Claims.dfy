/** Claims seen on Ethereum, and the two cursors that decide where the next look starts. */
module Claims {
  import opened Numbers
  import opened Sequences

  datatype Claim = Claim(block: int, lowerId: nat)

  /** What a log query from `fromBlock` answers while the chain head is at `head`; a failed query answers nothing. */
  function Answer(claims: seq<Claim>, fromBlock: int, head: int, fails: bool): seq<Claim> {
    if claims == [] || fails then [] else
      var c := claims[|claims| - 1];
      Answer(claims[..|claims| - 1], fromBlock, head, fails) + (if fromBlock <= c.block <= head then [c] else [])
  }

  lemma {:induction false} AnswerHolds(claims: seq<Claim>, fromBlock: int, head: int, fails: bool)
    ensures forall c :: c in Answer(claims, fromBlock, head, fails) <==>
                        c in claims && !fails && fromBlock <= c.block <= head
  {
    if claims != [] && !fails {
      AnswerHolds(claims[..|claims| - 1], fromBlock, head, fails);
      assert claims == claims[..|claims| - 1] + [claims[|claims| - 1]];
    }
  }

  lemma {:induction false} UnansweredIsEmpty(claims: seq<Claim>, fromBlock: int, head: int, fails: bool)
    requires fails || fromBlock > head
    ensures Answer(claims, fromBlock, head, fails) == []
  {
    if claims != [] {
      UnansweredIsEmpty(claims[..|claims| - 1], fromBlock, head, fails);
    }
  }

  function LastChecked(claims: seq<Claim>, fromBlock: int): int {
    if claims == [] then fromBlock
    else Max(LastChecked(claims[..|claims| - 1], fromBlock), claims[|claims| - 1].block)
  }

  lemma {:induction false} LastCheckedIsLast(claims: seq<Claim>, fromBlock: int)
    ensures var last := LastChecked(claims, fromBlock);
            && fromBlock <= last && (forall c | c in claims :: c.block <= last)
            && (last == fromBlock || exists c | c in claims :: c.block == last)
  {
    if claims != [] {
      LastCheckedIsLast(claims[..|claims| - 1], fromBlock);
      assert claims == claims[..|claims| - 1] + [claims[|claims| - 1]];
    }
  }

  /** getLowersClaimedSinceBlock over the answer it gets: the ids in order, and the highest block among them. */
  method CollectClaims(claims: seq<Claim>, fromBlock: int) returns (lastBlockChecked: int, claimedLowerIds: seq<nat>)
    ensures |claimedLowerIds| == |claims| && forall i | 0 <= i < |claims| :: claimedLowerIds[i] == claims[i].lowerId
    ensures lastBlockChecked == LastChecked(claims, fromBlock)
    ensures fromBlock <= lastBlockChecked && forall c | c in claims :: c.block <= lastBlockChecked
    ensures lastBlockChecked == fromBlock || exists c | c in claims :: c.block == lastBlockChecked
  {
    lastBlockChecked, claimedLowerIds := fromBlock, [];
    for i := 0 to |claims|
      invariant |claimedLowerIds| == i && forall j | 0 <= j < i :: claimedLowerIds[j] == claims[j].lowerId
      invariant lastBlockChecked == LastChecked(claims[..i], fromBlock)
    {
      assert claims[..i + 1][..i] == claims[..i];
      lastBlockChecked := Max(lastBlockChecked, claims[i].block);
      claimedLowerIds := claimedLowerIds + [claims[i].lowerId];
    }
    assert claims[..|claims|] == claims;
    LastCheckedIsLast(claims, fromBlock);
  }

  // ---- Runs of calls ----

  /** What a call meets: where the chain head is, whether the log query fails, and whether the caller gets as far as
      saving the cursor. */
  datatype Call = Call(head: int, fails: bool, saved: bool)

  /** Where the next call starts, and the claims taken up so far. */
  datatype Look = Look(cursor: int, seen: set<Claim>)

  /** Every claim in a block before the cursor has been seen. */
  predicate SeenBefore(claims: seq<Claim>, l: Look) {
    forall c | c in claims && c.block < l.cursor :: c in l.seen
  }

  /** deleteClaimedLowers saves the last block checked itself. */
  function DeletionCall(claims: seq<Claim>, l: Look, call: Call): Look {
    if !call.saved then l else
      var answer := Answer(claims, l.cursor, call.head, call.fails);
      Look(LastChecked(answer, l.cursor), l.seen + Members(answer))
  }

  function DeletionCalls(claims: seq<Claim>, l: Look, calls: seq<Call>): Look
    decreases |calls|
  {
    if calls == [] then l else DeletionCalls(claims, DeletionCall(claims, l, calls[0]), calls[1..])
  }

  lemma DeletionCallKeeps(claims: seq<Claim>, l: Look, call: Call)
    requires SeenBefore(claims, l)
    ensures SeenBefore(claims, DeletionCall(claims, l, call))
  {
    var answer := Answer(claims, l.cursor, call.head, call.fails);
    var last := LastChecked(answer, l.cursor);
    AnswerHolds(claims, l.cursor, call.head, call.fails);
    LastCheckedIsLast(answer, l.cursor);
    forall c | c in claims && c.block < last ensures c in l.seen + Members(answer) {
      if c.block >= l.cursor {
        var d :| d in answer && d.block == last;
        assert c in answer;
      }
    }
  }

  /** The deletion cursor goes to the last block with a claim and looks at it again: over any calls it never passes an
      unseen claim, however often queries fail, the head lags or a call breaks off. */
  lemma {:induction false} DeletionCursorMissesNothing(claims: seq<Claim>, l: Look, calls: seq<Call>)
    requires SeenBefore(claims, l)
    ensures SeenBefore(claims, DeletionCalls(claims, l, calls))
    decreases |calls|
  {
    if calls != [] {
      DeletionCallKeeps(claims, l, calls[0]);
      DeletionCursorMissesNothing(claims, DeletionCall(claims, l, calls[0]), calls[1..]);
    }
  }

  /** A saved, answered call takes up every claim from the cursor to the chain head, and moves the cursor to the last.
      */
  lemma DeletionCursorAdvances(claims: seq<Claim>, l: Look, call: Call)
    requires call.saved && !call.fails
    ensures var end := DeletionCall(claims, l, call);
            && (forall c | c in claims && l.cursor <= c.block <= call.head :: c in end.seen && c.block <= end.cursor)
            && (end.cursor == l.cursor || exists c | c in claims :: c.block == end.cursor <= call.head)
  {
    AnswerHolds(claims, l.cursor, call.head, call.fails);
    LastCheckedIsLast(Answer(claims, l.cursor, call.head, call.fails), l.cursor);
  }

  /** Where the autolower lookup starts next time. */
  function AutolowerCursor(lastBlockChecked: int): int {
    lastBlockChecked + 1
  }

  function AutolowerCall(claims: seq<Claim>, l: Look, call: Call): Look {
    if !call.saved then l else
      var answer := Answer(claims, l.cursor, call.head, call.fails);
      Look(AutolowerCursor(LastChecked(answer, l.cursor)), l.seen + Members(answer))
  }

  function AutolowerCalls(claims: seq<Claim>, l: Look, calls: seq<Call>): Look
    decreases |calls|
  {
    if calls == [] then l else AutolowerCalls(claims, AutolowerCall(claims, l, calls[0]), calls[1..])
  }

  /** The query was answered with the head at or past the block it started from, or that block holds no claim, or the
      call saved no cursor. */
  predicate SafeCall(claims: seq<Claim>, l: Look, call: Call) {
    !call.saved || (!call.fails && l.cursor <= call.head) || forall c | c in claims :: c.block != l.cursor
  }

  predicate SafeCalls(claims: seq<Claim>, l: Look, calls: seq<Call>)
    decreases |calls|
  {
    calls == [] || (SafeCall(claims, l, calls[0]) && SafeCalls(claims, AutolowerCall(claims, l, calls[0]), calls[1..]))
  }

  /** What has been seen lies before the cursor. */
  predicate SeenOnlyBefore(l: Look) {
    forall c | c in l.seen :: c.block < l.cursor
  }

  lemma AutolowerCallExactly(claims: seq<Claim>, l: Look, call: Call)
    requires SeenBefore(claims, l) && SeenOnlyBefore(l)
    ensures SeenBefore(claims, AutolowerCall(claims, l, call)) <==> SafeCall(claims, l, call)
    ensures SeenOnlyBefore(AutolowerCall(claims, l, call))
  {
    var answer, end := Answer(claims, l.cursor, call.head, call.fails), AutolowerCall(claims, l, call);
    AnswerHolds(claims, l.cursor, call.head, call.fails);
    LastCheckedIsLast(answer, l.cursor);
    if call.saved && !call.fails && l.cursor <= call.head {
      forall c | c in claims && c.block < end.cursor ensures c in end.seen {
        if c.block >= l.cursor {
          assert c in answer;
        }
      }
    } else if call.saved {
      UnansweredIsEmpty(claims, l.cursor, call.head, call.fails);
      assert end == Look(l.cursor + 1, l.seen + Members([]));
      assert forall c | c in claims && c.block == l.cursor :: c !in end.seen;
    }
  }

  /** A claim once passed unseen is never looked at again. */
  lemma {:induction false} MissedStaysMissed(claims: seq<Claim>, l: Look, calls: seq<Call>, c: Claim)
    requires c.block < l.cursor && c !in l.seen
    ensures var end := AutolowerCalls(claims, l, calls); c.block < end.cursor && c !in end.seen
    decreases |calls|
  {
    if calls != [] {
      AnswerHolds(claims, l.cursor, calls[0].head, calls[0].fails);
      LastCheckedIsLast(Answer(claims, l.cursor, calls[0].head, calls[0].fails), l.cursor);
      MissedStaysMissed(claims, AutolowerCall(claims, l, calls[0]), calls[1..], c);
    }
  }

  /** The autolower cursor goes one block further. Over any calls it has missed nothing exactly when each of them was
      safe: a claim missed once is missed for good. */
  lemma {:induction false} AutolowerCursorMissesNothing(claims: seq<Claim>, l: Look, calls: seq<Call>)
    requires SeenBefore(claims, l) && SeenOnlyBefore(l)
    ensures SeenBefore(claims, AutolowerCalls(claims, l, calls)) <==> SafeCalls(claims, l, calls)
    decreases |calls|
  {
    if calls != [] {
      var next := AutolowerCall(claims, l, calls[0]);
      AutolowerCallExactly(claims, l, calls[0]);
      if SafeCall(claims, l, calls[0]) {
        AutolowerCursorMissesNothing(claims, next, calls[1..]);
      } else {
        var c :| c in claims && c.block < next.cursor && c !in next.seen;
        MissedStaysMissed(claims, next, calls[1..], c);
      }
    }
  }
}
