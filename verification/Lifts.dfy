/** The lift cursor: scan windows over Ethereum blocks, advanced at once or when a queued batch is sent. */
module Lifts {
  import opened Numbers
  import opened Options

  /** A confirmed lift log; `eligible` is the amount and token test of the scan. */
  datatype LiftLog = LiftLog(block: int, transactionHash: string, eligible: bool)

  datatype Config = Config(maxLiftAgeInBlocks: int, maxLiftBlocksToProcess: int, requiredConfirmationBlocks: int)

  /** First block of the scan: the stored cursor, or the oldest block of interest when none is stored. */
  function WindowFrom(cfg: Config, stored: int, currentBlock: int): int {
    if stored != 0 then stored else currentBlock - cfg.maxLiftAgeInBlocks
  }

  function WindowTo(cfg: Config, from: int, currentBlock: int): int {
    Min(from + cfg.maxLiftBlocksToProcess, currentBlock - cfg.requiredConfirmationBlocks)
  }

  /** The hashes of the eligible lifts of a range of blocks, in log order. */
  function EligibleIn(log: seq<LiftLog>, from: int, to: int): seq<string> {
    if log == [] then [] else
      EligibleIn(log[..|log| - 1], from, to) +
      (var l := log[|log| - 1]; if from <= l.block <= to && l.eligible then [l.transactionHash] else [])
  }

  lemma {:induction false} EligibleAreListed(log: seq<LiftLog>, from: int, to: int, l: LiftLog)
    requires l in log && from <= l.block <= to && l.eligible
    ensures l.transactionHash in EligibleIn(log, from, to)
  {
    if l != log[|log| - 1] {
      assert l in log[..|log| - 1];
      EligibleAreListed(log[..|log| - 1], from, to, l);
    }
  }

  /** Nothing else is listed: each hash is that of an eligible lift of the range. */
  lemma {:induction false} ListedAreEligible(log: seq<LiftLog>, from: int, to: int, hash: string)
    ensures hash in EligibleIn(log, from, to) <==>
            exists l | l in log :: from <= l.block <= to && l.eligible && l.transactionHash == hash
  {
    if log != [] {
      var front, last := log[..|log| - 1], log[|log| - 1];
      assert log == front + [last];
      ListedAreEligible(front, from, to, hash);
    }
  }

  function Unprocessed(lifts: seq<string>, onChain: set<string>): seq<string> {
    if lifts == [] then [] else
      Unprocessed(lifts[..|lifts| - 1], onChain) +
      (if lifts[|lifts| - 1] in onChain then [] else [lifts[|lifts| - 1]])
  }

  lemma {:induction false} UnprocessedAreListed(lifts: seq<string>, onChain: set<string>)
    ensures forall h :: h in Unprocessed(lifts, onChain) <==> h in lifts && h !in onChain
  {
    if lifts != [] {
      UnprocessedAreListed(lifts[..|lifts| - 1], onChain);
      assert lifts == lifts[..|lifts| - 1] + [lifts[|lifts| - 1]];
    }
  }

  lemma {:induction false} AllProcessed(lifts: seq<string>, onChain: set<string>)
    requires forall h | h in lifts :: h in onChain
    ensures Unprocessed(lifts, onChain) == []
  {
    if lifts != [] {
      AllProcessed(lifts[..|lifts| - 1], onChain);
    }
  }

  /** A block that a window from `from` may reach: within the size limit, and confirmed. */
  predicate InReach(cfg: Config, from: int, currentBlock: int, block: int) {
    block <= from + cfg.maxLiftBlocksToProcess && block + cfg.requiredConfirmationBlocks <= currentBlock
  }

  /** getLiftEvents: scan the window if it holds a block, else report its first block as scanned to. The window starts
      at the stored cursor or, without one, the maximal age back, and goes as far as it may. */
  method GetLiftEvents(cfg: Config, stored: int, currentBlock: int, log: seq<LiftLog>)
    returns (fromBlock: int, toBlock: int, liftEvents: seq<string>)
    ensures fromBlock == WindowFrom(cfg, stored, currentBlock)
    ensures var to := WindowTo(cfg, fromBlock, currentBlock);
            if fromBlock <= to
            then toBlock == to && liftEvents == EligibleIn(log, fromBlock, to)
            else toBlock == fromBlock && liftEvents == []
    ensures if stored == 0 then fromBlock + cfg.maxLiftAgeInBlocks == currentBlock else fromBlock == stored
    ensures if InReach(cfg, fromBlock, currentBlock, fromBlock)
            then fromBlock <= toBlock && InReach(cfg, fromBlock, currentBlock, toBlock) &&
                 !InReach(cfg, fromBlock, currentBlock, toBlock + 1)
            else toBlock == fromBlock
    ensures forall hash :: hash in liftEvents <==>
              InReach(cfg, fromBlock, currentBlock, fromBlock) &&
              exists l | l in log :: fromBlock <= l.block <= toBlock && l.eligible && l.transactionHash == hash
  {
    fromBlock := if stored != 0 then stored else currentBlock - cfg.maxLiftAgeInBlocks;
    toBlock := Min(fromBlock + cfg.maxLiftBlocksToProcess, currentBlock - cfg.requiredConfirmationBlocks);
    liftEvents := [];
    if fromBlock <= toBlock {
      for i := 0 to |log|
        invariant liftEvents == EligibleIn(log[..i], fromBlock, toBlock)
      {
        assert log[..i + 1][..i] == log[..i];
        if fromBlock <= log[i].block <= toBlock && log[i].eligible {
          liftEvents := liftEvents + [log[i].transactionHash];
        }
      }
      assert log[..|log|] == log;
      forall hash ensures hash in liftEvents <==> exists l | l in log ::
                            fromBlock <= l.block <= toBlock && l.eligible && l.transactionHash == hash
      {
        ListedAreEligible(log, fromBlock, toBlock, hash);
      }
      return;
    }
    toBlock := fromBlock;
  }

  /** The guarded write of both callers: `lastRead` is what the cursor was when the caller read it. */
  function Guarded(cursor: int, lastRead: int, toBlock: int): int {
    if toBlock >= lastRead then toBlock + 1 else cursor
  }

  /** The stored cursor; 0 stands for a key that was never set. */
  class LiftsFromBlock {
    var value: int

    constructor (value: int)
      ensures this.value == value
    {
      this.value := value;
    }

    /** The end of both callers, after their read of the cursor, which may have failed and after which others may have
        written: the cursor goes down only from a value above the one written. */
    method Advance(toBlock: int, lastT1BlockChecked: Option<int>, writeFails: bool) returns (ok: bool)
      modifies this
      ensures ok <==> lastT1BlockChecked.Some? && !(toBlock >= lastT1BlockChecked.value && writeFails)
      ensures ok ==> value == Guarded(old(value), lastT1BlockChecked.value, toBlock)
      ensures value == if ok && toBlock >= lastT1BlockChecked.value then toBlock + 1 else old(value)
      ensures value < old(value) <==>
              ok && toBlock >= lastT1BlockChecked.value && old(value) > toBlock + 1
    {
      if lastT1BlockChecked.None? {
        return false;
      }
      if toBlock >= lastT1BlockChecked.value {
        if writeFails {
          return false;
        }
        value := toBlock + 1;
      }
      ok := true;
    }
  }

  /** getUnprocessedLifts after its scan: keep what the chain has not processed; with nothing left, advance at once.
      It throws if the cursor cannot be read or written. */
  method FinishScan(cursor: LiftsFromBlock, toBlock: int, liftEvents: seq<string>, onChain: set<string>,
                    lastT1BlockChecked: Option<int>, writeFails: bool)
    returns (ok: bool, unprocessedLifts: seq<string>)
    modifies cursor
    ensures unprocessedLifts == Unprocessed(liftEvents, onChain)
    ensures ok <==> unprocessedLifts != [] ||
                    (lastT1BlockChecked.Some? && !(toBlock >= lastT1BlockChecked.value && writeFails))
    ensures cursor.value == if ok && unprocessedLifts == [] && toBlock >= lastT1BlockChecked.value
                            then toBlock + 1 else old(cursor.value)
  {
    unprocessedLifts := [];
    for i := 0 to |liftEvents|
      invariant unprocessedLifts == Unprocessed(liftEvents[..i], onChain)
    {
      assert liftEvents[..i + 1][..i] == liftEvents[..i];
      if liftEvents[i] !in onChain {
        unprocessedLifts := unprocessedLifts + [liftEvents[i]];
      }
    }
    assert liftEvents[..|liftEvents|] == liftEvents;
    ok := true;
    if |unprocessedLifts| == 0 {
      ok := cursor.Advance(toBlock, lastT1BlockChecked, writeFails);
    }
  }

  /** processLifts: the batch is sent first, the cursor moves only after that. A failed send, or a cursor that cannot be
      read or written after the send, gives an error as the result instead of throwing it. */
  method ProcessLifts(cursor: LiftsFromBlock, toBlock: int, sendSucceeds: bool, lastT1BlockChecked: Option<int>,
                      writeFails: bool)
    returns (ok: bool)
    modifies cursor
    ensures ok <==> sendSucceeds && lastT1BlockChecked.Some? &&
                    !(toBlock >= lastT1BlockChecked.value && writeFails)
    ensures cursor.value == if ok && toBlock >= lastT1BlockChecked.value then toBlock + 1 else old(cursor.value)
  {
    ok := sendSucceeds;
    if ok {
      ok := cursor.Advance(toBlock, lastT1BlockChecked, writeFails);
    }
  }

  // ---- Scan passes, queued batches and cursor writes, interleaved ----

  /** A scan that has read its window; `empty` is the window without a block. */
  datatype Pass = Pass(from: int, to: int, empty: bool, lifts: seq<string>)

  /** A queued batch; `from` records the window it came from and is not part of the message. */
  datatype Batch = Batch(from: int, to: int, lifts: seq<string>)

  datatype Stage = Waiting | HasRead(cursor: int) | Done

  /** An advance of the cursor under way: still to read it, having read it, or done; `empty` if its scan had no window.
      */
  datatype Advance = Advance(from: int, to: int, empty: bool, stage: Stage)

  /** `high` is the highest value the cursor ever had. */
  datatype World = World(cursor: int, high: int, scanned: set<int>, processed: set<string>, sent: set<string>,
                         passes: seq<Pass>, queue: seq<Batch>, advances: seq<Advance>)

  /** Passes and messages stay available after use: scans may be answered late and messages delivered again. The read of
      the cursor and the write that follows it are steps of their own; one that fails or never comes is no step. */
  datatype Op = Begin(currentBlock: int) | Finish(pass: nat, onChain: set<string>)
              | Deliver(message: nat, sendSucceeds: bool) | Read(advance: nat) | Write(advance: nat)

  function Window(first: int, last: int): (r: set<int>)
    ensures forall b :: b in r <==> (first <= b <= last)
    decreases last - first + 1
  {
    if first > last then {} else Window(first, last - 1) + {last}
  }

  function NewPass(cfg: Config, log: seq<LiftLog>, w: World, currentBlock: int): Pass {
    var from := WindowFrom(cfg, w.cursor, currentBlock);
    var to := WindowTo(cfg, from, currentBlock);
    if from <= to then Pass(from, to, false, EligibleIn(log, from, to)) else Pass(from, from, true, [])
  }

  function FinishPass(w: World, p: Pass, onChain: set<string>): World {
    var left := Unprocessed(p.lifts, onChain);
    var seen := w.(processed := w.processed + (set h | h in p.lifts && h in onChain),
                   scanned := if p.empty then w.scanned else w.scanned + Window(p.from, p.to));
    if left == [] then seen.(advances := w.advances + [Advance(p.from, p.to, p.empty, Waiting)])
    else seen.(queue := w.queue + [Batch(p.from, p.to, left)])
  }

  /** What a write stores, if its guard lets it. */
  function Written(w: World, i: nat): Option<int> {
    if i < |w.advances| && w.advances[i].stage.HasRead? && w.advances[i].to >= w.advances[i].stage.cursor
    then Some(w.advances[i].to + 1) else None
  }

  function Step(cfg: Config, log: seq<LiftLog>, w: World, op: Op): World {
    match op
    case Begin(currentBlock) => w.(passes := w.passes + [NewPass(cfg, log, w, currentBlock)])
    case Finish(i, onChain) => if i < |w.passes| then FinishPass(w, w.passes[i], onChain) else w
    case Deliver(i, ok) =>
      if i < |w.queue| && ok then
        w.(sent := w.sent + (set h | h in w.queue[i].lifts),
           advances := w.advances + [Advance(w.queue[i].from, w.queue[i].to, false, Waiting)])
      else w
    case Read(i) =>
      if i < |w.advances| && w.advances[i].stage.Waiting?
      then w.(advances := w.advances[i := w.advances[i].(stage := HasRead(w.cursor))]) else w
    case Write(i) =>
      if i < |w.advances| && w.advances[i].stage.HasRead? then
        var done := w.(advances := w.advances[i := w.advances[i].(stage := Done)]);
        var value := Written(w, i);
        if value.Some? then done.(cursor := value.value, high := if value.value > w.high then value.value else w.high)
        else done
      else w
  }

  predicate Handled(w: World, hash: string) {
    hash in w.processed || hash in w.sent
  }

  /** A block is settled once it was scanned and each of its eligible lifts was found processed or was sent. */
  predicate Settled(log: seq<LiftLog>, w: World, block: int) {
    block in w.scanned && forall l | l in log && l.block == block && l.eligible :: Handled(w, l.transactionHash)
  }

  predicate SettledBetween(log: seq<LiftLog>, w: World, from: int, end: int) {
    forall b | from <= b < end :: Settled(log, w, b)
  }

  predicate PassOk(log: seq<LiftLog>, start: int, w: World, p: Pass) {
    && start <= p.from <= w.high
    && if p.empty then p.to == p.from && p.lifts == []
       else forall l | l in log && p.from <= l.block <= p.to && l.eligible :: l.transactionHash in p.lifts
  }

  predicate BatchOk(log: seq<LiftLog>, start: int, w: World, m: Batch) {
    && start <= m.from <= w.high && Window(m.from, m.to) <= w.scanned
    && forall l | l in log && m.from <= l.block <= m.to && l.eligible ::
         l.transactionHash in w.processed || l.transactionHash in m.lifts
  }

  /** The window of an advance is settled, unless it was empty. */
  predicate AdvanceOk(log: seq<LiftLog>, start: int, w: World, a: Advance) {
    && start <= a.from <= w.high
    && (if a.empty then a.to == a.from else SettledBetween(log, w, a.from, a.to + 1))
    && (a.stage.HasRead? ==> start <= a.stage.cursor)
  }

  /** What every step keeps, whatever was skipped. */
  predicate WorkOk(log: seq<LiftLog>, start: int, w: World) {
    && 0 < start <= w.cursor <= w.high
    && (forall i | 0 <= i < |w.passes| :: PassOk(log, start, w, w.passes[i]))
    && (forall i | 0 <= i < |w.queue| :: BatchOk(log, start, w, w.queue[i]))
    && (forall i | 0 <= i < |w.advances| :: AdvanceOk(log, start, w, w.advances[i]))
  }

  /** Everything below the highest value the cursor ever had is settled. */
  predicate NothingBehind(log: seq<LiftLog>, start: int, w: World) {
    SettledBetween(log, w, start, w.high)
  }

  /** The write of an advance whose scan had no window takes the cursor past a block that is not settled. */
  predicate Skips(log: seq<LiftLog>, w: World, op: Op) {
    && op.Write? && Written(w, op.advance).Some? && w.advances[op.advance].empty
    && !Settled(log, w, w.advances[op.advance].from)
  }

  /** What is settled stays settled while the world only learns more. */
  lemma SettledStays(log: seq<LiftLog>, w: World, end: World, from: int, to: int)
    requires SettledBetween(log, w, from, to)
    requires w.scanned <= end.scanned && w.processed <= end.processed && w.sent <= end.sent
    ensures SettledBetween(log, end, from, to)
  {
    forall b | from <= b < to ensures Settled(log, end, b) {
      assert Settled(log, w, b);
    }
  }

  /** What outlives a step that only adds knowledge and does not lower `high`. */
  lemma LearningKeeps(log: seq<LiftLog>, start: int, w: World, end: World)
    requires WorkOk(log, start, w) && w.high <= end.high
    requires w.scanned <= end.scanned && w.processed <= end.processed && w.sent <= end.sent
    ensures forall i | 0 <= i < |w.passes| :: PassOk(log, start, end, w.passes[i])
    ensures forall i | 0 <= i < |w.queue| :: BatchOk(log, start, end, w.queue[i])
    ensures forall i | 0 <= i < |w.advances| :: AdvanceOk(log, start, end, w.advances[i])
  {
    forall i | 0 <= i < |w.queue| ensures BatchOk(log, start, end, w.queue[i]) {
      assert BatchOk(log, start, w, w.queue[i]);
    }
    forall i | 0 <= i < |w.advances| ensures AdvanceOk(log, start, end, w.advances[i]) {
      assert AdvanceOk(log, start, w, w.advances[i]);
      if !w.advances[i].empty {
        SettledStays(log, w, end, w.advances[i].from, w.advances[i].to + 1);
      }
    }
  }

  lemma BeginKeeps(cfg: Config, log: seq<LiftLog>, start: int, w: World, currentBlock: int)
    requires WorkOk(log, start, w)
    ensures WorkOk(log, start, Step(cfg, log, w, Begin(currentBlock)))
  {
    var p := NewPass(cfg, log, w, currentBlock);
    var end := Step(cfg, log, w, Begin(currentBlock));
    LearningKeeps(log, start, w, end);
    if !p.empty {
      forall l | l in log && p.from <= l.block <= p.to && l.eligible ensures l.transactionHash in p.lifts {
        EligibleAreListed(log, p.from, p.to, l);
      }
    }
    assert PassOk(log, start, end, p);
  }

  lemma FinishKeeps(log: seq<LiftLog>, start: int, w: World, p: Pass, onChain: set<string>)
    requires WorkOk(log, start, w) && PassOk(log, start, w, p)
    ensures WorkOk(log, start, FinishPass(w, p, onChain))
  {
    LearningKeeps(log, start, w, FinishPass(w, p, onChain));
    FinishedWindow(log, start, w, p, onChain);
  }

  /** What a finished scan adds: a batch that covers its window, or an advance over it. */
  lemma FinishedWindow(log: seq<LiftLog>, start: int, w: World, p: Pass, onChain: set<string>)
    requires PassOk(log, start, w, p)
    ensures var left, end := Unprocessed(p.lifts, onChain), FinishPass(w, p, onChain);
            if left == [] then AdvanceOk(log, start, end, Advance(p.from, p.to, p.empty, Waiting))
            else BatchOk(log, start, end, Batch(p.from, p.to, left))
  {
    var end := FinishPass(w, p, onChain);
    UnprocessedAreListed(p.lifts, onChain);
    assert forall h | h in p.lifts && h in onChain :: h in end.processed;
    if !p.empty {
      assert Window(p.from, p.to) <= end.scanned;
      if Unprocessed(p.lifts, onChain) == [] {
        forall b | p.from <= b < p.to + 1 ensures Settled(log, end, b) {
          assert b in Window(p.from, p.to);
        }
      }
    }
  }

  lemma DeliverKeeps(cfg: Config, log: seq<LiftLog>, start: int, w: World, i: nat)
    requires WorkOk(log, start, w) && i < |w.queue|
    ensures WorkOk(log, start, Step(cfg, log, w, Deliver(i, true)))
  {
    var m, end := w.queue[i], Step(cfg, log, w, Deliver(i, true));
    LearningKeeps(log, start, w, end);
    forall b | m.from <= b < m.to + 1 ensures Settled(log, end, b) {
      assert b in Window(m.from, m.to);
    }
    assert AdvanceOk(log, start, end, Advance(m.from, m.to, false, Waiting));
  }

  lemma ReadKeeps(cfg: Config, log: seq<LiftLog>, start: int, w: World, i: nat)
    requires WorkOk(log, start, w)
    ensures WorkOk(log, start, Step(cfg, log, w, Read(i)))
  {
    LearningKeeps(log, start, w, Step(cfg, log, w, Read(i)));
  }

  lemma WriteKeeps(cfg: Config, log: seq<LiftLog>, start: int, w: World, i: nat)
    requires WorkOk(log, start, w)
    ensures WorkOk(log, start, Step(cfg, log, w, Write(i)))
  {
    var end := Step(cfg, log, w, Write(i));
    LearningKeeps(log, start, w, end);
    if Written(w, i).Some? {
      assert AdvanceOk(log, start, end, w.advances[i]);
    }
  }

  lemma StepKeeps(cfg: Config, log: seq<LiftLog>, start: int, w: World, op: Op)
    requires WorkOk(log, start, w)
    ensures WorkOk(log, start, Step(cfg, log, w, op)) && w.high <= Step(cfg, log, w, op).high
  {
    match op
    case Begin(currentBlock) => BeginKeeps(cfg, log, start, w, currentBlock);
    case Finish(i, onChain) => if i < |w.passes| { FinishKeeps(log, start, w, w.passes[i], onChain); }
    case Deliver(i, ok) => if i < |w.queue| && ok { DeliverKeeps(cfg, log, start, w, i); }
    case Read(i) => ReadKeeps(cfg, log, start, w, i);
    case Write(i) => WriteKeeps(cfg, log, start, w, i);
  }

  /** A write of `a.to + 1` leaves everything below the highest value settled unless the window of its scan was empty
      and its block is not settled. */
  lemma WrittenSettles(log: seq<LiftLog>, start: int, w: World, end: World, a: Advance)
    requires AdvanceOk(log, start, w, a) && NothingBehind(log, start, w)
    requires end.scanned == w.scanned && end.processed == w.processed && end.sent == w.sent
    requires end.high == Max(w.high, a.to + 1)
    ensures NothingBehind(log, start, end) <==> !a.empty || Settled(log, w, a.from)
  {
    SettledStays(log, w, end, start, w.high);
    if !a.empty {
      SettledStays(log, w, end, a.from, a.to + 1);
      assert NothingBehind(log, start, end);
    } else {
      assert Settled(log, end, a.from) <==> Settled(log, w, a.from);
    }
  }

  /** A step leaves something behind if and only if it skips. */
  lemma LeavesBehindExactly(cfg: Config, log: seq<LiftLog>, start: int, w: World, op: Op)
    requires WorkOk(log, start, w) && NothingBehind(log, start, w)
    ensures NothingBehind(log, start, Step(cfg, log, w, op)) <==> !Skips(log, w, op)
  {
    var end := Step(cfg, log, w, op);
    if op.Write? && Written(w, op.advance).Some? {
      WrittenSettles(log, start, w, end, w.advances[op.advance]);
    } else {
      SettledStays(log, w, end, start, w.high);
    }
  }

  function Steps(cfg: Config, log: seq<LiftLog>, w: World, ops: seq<Op>): World
    decreases |ops|
  {
    if ops == [] then w else Steps(cfg, log, Step(cfg, log, w, ops[0]), ops[1..])
  }

  predicate NeverBehind(cfg: Config, log: seq<LiftLog>, start: int, w: World, ops: seq<Op>)
    decreases |ops|
  {
    && NothingBehind(log, start, w)
    && (ops == [] || NeverBehind(cfg, log, start, Step(cfg, log, w, ops[0]), ops[1..]))
  }

  predicate NeverSkips(cfg: Config, log: seq<LiftLog>, w: World, ops: seq<Op>)
    decreases |ops|
  {
    ops == [] || (!Skips(log, w, ops[0]) && NeverSkips(cfg, log, Step(cfg, log, w, ops[0]), ops[1..]))
  }

  /** However scans, their late ends, repeated deliveries, and the reads and writes of the cursor interleave: every
      block below the highest value the cursor ever had is settled, in every state, if and only if no write comes from a
      scan with an empty window at a block that is not settled. A cursor that is lowered only has settled blocks scanned
      again. */
  lemma {:induction false} CursorLeavesNothingBehind(cfg: Config, log: seq<LiftLog>, start: int, w: World, ops: seq<Op>)
    requires WorkOk(log, start, w) && NothingBehind(log, start, w)
    ensures NeverBehind(cfg, log, start, w, ops) <==> NeverSkips(cfg, log, w, ops)
    ensures var end := Steps(cfg, log, w, ops);
            && WorkOk(log, start, end) && start <= end.cursor <= end.high && w.high <= end.high
            && (NeverSkips(cfg, log, w, ops) ==> SettledBetween(log, end, start, end.high))
    decreases |ops|
  {
    if ops != [] {
      var next := Step(cfg, log, w, ops[0]);
      StepKeeps(cfg, log, start, w, ops[0]);
      LeavesBehindExactly(cfg, log, start, w, ops[0]);
      if NothingBehind(log, start, next) {
        CursorLeavesNothingBehind(cfg, log, start, next, ops[1..]);
      } else {
        WorkGoesOn(cfg, log, start, next, ops[1..]);
      }
    }
  }

  lemma {:induction false} WorkGoesOn(cfg: Config, log: seq<LiftLog>, start: int, w: World, ops: seq<Op>)
    requires WorkOk(log, start, w)
    ensures WorkOk(log, start, Steps(cfg, log, w, ops)) && w.high <= Steps(cfg, log, w, ops).high
    decreases |ops|
  {
    if ops != [] {
      StepKeeps(cfg, log, start, w, ops[0]);
      WorkGoesOn(cfg, log, start, Step(cfg, log, w, ops[0]), ops[1..]);
    }
  }

  // ---- Empty windows ----

  /** A scan finds at least one confirmed block to look at. */
  predicate HasWindow(cfg: Config, w: World, op: Op) {
    op.Begin? ==>
      var from := WindowFrom(cfg, w.cursor, op.currentBlock);
      from <= WindowTo(cfg, from, op.currentBlock)
  }

  predicate HasWindows(cfg: Config, log: seq<LiftLog>, w: World, ops: seq<Op>)
    decreases |ops|
  {
    ops == [] || (HasWindow(cfg, w, ops[0]) && HasWindows(cfg, log, Step(cfg, log, w, ops[0]), ops[1..]))
  }

  predicate NoneEmpty(w: World) {
    && (forall i | 0 <= i < |w.passes| :: !w.passes[i].empty)
    && (forall i | 0 <= i < |w.advances| :: !w.advances[i].empty)
  }

  /** Runs in which every scan finds a block to look at never skip. */
  lemma {:induction false} WindowsNeverSkip(cfg: Config, log: seq<LiftLog>, w: World, ops: seq<Op>)
    requires NoneEmpty(w) && HasWindows(cfg, log, w, ops)
    ensures NeverSkips(cfg, log, w, ops)
    decreases |ops|
  {
    if ops != [] {
      assert NoneEmpty(Step(cfg, log, w, ops[0]));
      WindowsNeverSkip(cfg, log, Step(cfg, log, w, ops[0]), ops[1..]);
    }
  }

  /** One scan from begin to cursor write, with nobody in between; if lifts are left, there is no write. */
  function ScanAlone(cfg: Config, log: seq<LiftLog>, w: World, currentBlock: int, onChain: set<string>): World {
    var begun := Step(cfg, log, w, Begin(currentBlock));
    var finished := Step(cfg, log, begun, Finish(|w.passes|, onChain));
    Step(cfg, log, Step(cfg, log, finished, Read(|w.advances|)), Write(|w.advances|))
  }

  /** A scan alone leaves everything behind the cursor settled if and only if its window held a block or the block at
      the cursor is settled already. */
  lemma EmptyWindowSkipsABlock(cfg: Config, log: seq<LiftLog>, start: int, w: World, currentBlock: int,
                               onChain: set<string>)
    requires WorkOk(log, start, w) && NothingBehind(log, start, w)
    ensures var end := ScanAlone(cfg, log, w, currentBlock, onChain);
            SettledBetween(log, end, start, end.cursor) <==>
            HasWindow(cfg, w, Begin(currentBlock)) || Settled(log, w, w.cursor)
  {
    if HasWindow(cfg, w, Begin(currentBlock)) {
      ScanWithWindow(cfg, log, start, w, currentBlock, onChain);
    } else {
      SkippedBlock(cfg, log, w, currentBlock, onChain);
      var end := ScanAlone(cfg, log, w, currentBlock, onChain);
      SettledStays(log, w, end, start, w.cursor);
      assert Settled(log, end, w.cursor) <==> Settled(log, w, w.cursor);
      assert SettledBetween(log, end, start, end.cursor) ==> Settled(log, end, w.cursor);
      forall b | start <= b < end.cursor && Settled(log, end, w.cursor) ensures Settled(log, end, b) {
        assert b < w.cursor || b == w.cursor;
      }
    }
  }

  lemma ScanWithWindow(cfg: Config, log: seq<LiftLog>, start: int, w: World, currentBlock: int, onChain: set<string>)
    requires WorkOk(log, start, w) && NothingBehind(log, start, w) && HasWindow(cfg, w, Begin(currentBlock))
    ensures var end := ScanAlone(cfg, log, w, currentBlock, onChain);
            end.cursor <= end.high && NothingBehind(log, start, end)
  {
    var i := |w.advances|;
    var begun := Step(cfg, log, w, Begin(currentBlock));
    var finished := Step(cfg, log, begun, Finish(|w.passes|, onChain));
    var read := Step(cfg, log, finished, Read(i));
    assert begun.passes[|w.passes|] == NewPass(cfg, log, w, currentBlock);
    assert i < |read.advances| ==> !read.advances[i].empty;
    StepKeeps(cfg, log, start, w, Begin(currentBlock));
    StepKeeps(cfg, log, start, begun, Finish(|w.passes|, onChain));
    StepKeeps(cfg, log, start, finished, Read(i));
    StepKeeps(cfg, log, start, read, Write(i));
    LeavesBehindExactly(cfg, log, start, w, Begin(currentBlock));
    LeavesBehindExactly(cfg, log, start, begun, Finish(|w.passes|, onChain));
    LeavesBehindExactly(cfg, log, start, finished, Read(i));
    LeavesBehindExactly(cfg, log, start, read, Write(i));
  }

  /** With an empty window the cursor steps over its block, of which nothing more is known than before. */
  lemma SkippedBlock(cfg: Config, log: seq<LiftLog>, w: World, currentBlock: int, onChain: set<string>)
    requires w.cursor > 0 && !HasWindow(cfg, w, Begin(currentBlock))
    ensures var end := ScanAlone(cfg, log, w, currentBlock, onChain);
            && end.cursor == w.cursor + 1
            && end.scanned == w.scanned && end.processed == w.processed && end.sent == w.sent
  {
    var begun := Step(cfg, log, w, Begin(currentBlock));
    assert begun.passes[|w.passes|] == Pass(w.cursor, w.cursor, true, []);
    var finished := Step(cfg, log, begun, Finish(|w.passes|, onChain));
    assert Unprocessed([], onChain) == [];
    assert finished.processed == w.processed;
    assert finished.advances[|w.advances|] == Advance(w.cursor, w.cursor, true, Waiting);
    var read := Step(cfg, log, finished, Read(|w.advances|));
    assert read.advances[|w.advances|] == Advance(w.cursor, w.cursor, true, HasRead(w.cursor));
  }

  /** Concretely: cursor and chain head both at block 100, six confirmations; block 100 is passed without a scan. */
  lemma EmptyWindowExample()
    ensures var end := ScanAlone(Config(36000, 1000, 6), [], World(100, 100, {}, {}, {}, [], [], []), 100, {});
            end.cursor == 101 && 100 !in end.scanned
  {
    SkippedBlock(Config(36000, 1000, 6), [], World(100, 100, {}, {}, {}, [], [], []), 100, {});
  }

  // ---- When a write lowers the cursor ----

  /** The value written last during a run, if any. */
  function LastWritten(cfg: Config, log: seq<LiftLog>, w: World, ops: seq<Op>): Option<int>
    decreases |ops|
  {
    if ops == [] then None else
      var later := LastWritten(cfg, log, Step(cfg, log, w, ops[0]), ops[1..]);
      if later.Some? then later else if ops[0].Write? then Written(w, ops[0].advance) else None
  }

  predicate LeavesAlone(ops: seq<Op>, i: nat) {
    Read(i) !in ops && Write(i) !in ops
  }

  lemma {:induction false} CursorIsLastWritten(cfg: Config, log: seq<LiftLog>, w: World, ops: seq<Op>, i: nat)
    requires i < |w.advances| && LeavesAlone(ops, i)
    ensures var end, last := Steps(cfg, log, w, ops), LastWritten(cfg, log, w, ops);
            && end.cursor == (if last.Some? then last.value else w.cursor)
            && i < |end.advances| && end.advances[i] == w.advances[i]
    decreases |ops|
  {
    if ops != [] {
      assert ops[0] in ops && LeavesAlone(ops[1..], i);
      var next := Step(cfg, log, w, ops[0]);
      assert i < |next.advances| && next.advances[i] == w.advances[i];
      CursorIsLastWritten(cfg, log, next, ops[1..], i);
    }
  }

  /** In every run the write of an advance that has read the cursor does what the guarded write does. */
  lemma WriteIsAdvance(cfg: Config, log: seq<LiftLog>, w: World, i: nat)
    requires i < |w.advances| && w.advances[i].stage.HasRead?
    ensures Step(cfg, log, w, Write(i)).cursor ==
            Guarded(w.cursor, w.advances[i].stage.cursor, w.advances[i].to)
    ensures Step(cfg, log, w, Write(i)).cursor ==
            if w.advances[i].to >= w.advances[i].stage.cursor then w.advances[i].to + 1 else w.cursor
  {
  }

  /** An advance from its read to its write, whatever others do before, between and after. */
  lemma AdvanceInRun(cfg: Config, log: seq<LiftLog>, w: World, i: nat, before: seq<Op>, between: seq<Op>)
    requires i < |w.advances| && w.advances[i].stage.Waiting? && LeavesAlone(before, i) && LeavesAlone(between, i)
    ensures var ready := Steps(cfg, log, w, before);
            var read := Steps(cfg, log, Step(cfg, log, ready, Read(i)), between);
            Step(cfg, log, read, Write(i)).cursor ==
            if w.advances[i].to >= ready.cursor then w.advances[i].to + 1 else read.cursor
  {
    var ready := Steps(cfg, log, w, before);
    CursorIsLastWritten(cfg, log, w, before, i);
    CursorIsLastWritten(cfg, log, Step(cfg, log, ready, Read(i)), between, i);
    WriteIsAdvance(cfg, log, Steps(cfg, log, Step(cfg, log, ready, Read(i)), between), i);
  }

  /** getUnprocessedLifts in a run: its end queues the lifts that are left, without a cursor write, or leaves an advance
      that later reads and writes the cursor. */
  lemma FinishScanInRun(cfg: Config, log: seq<LiftLog>, w: World, pass: nat, onChain: set<string>,
                        before: seq<Op>, between: seq<Op>)
    requires pass < |w.passes| && LeavesAlone(before, |w.advances|) && LeavesAlone(between, |w.advances|)
    ensures var i, finished := |w.advances|, Step(cfg, log, w, Finish(pass, onChain));
            && finished.cursor == w.cursor && finished.sent == w.sent
            && (forall h :: h in finished.processed <==>
                  h in w.processed || (h in w.passes[pass].lifts && h in onChain))
            && if exists h :: h in w.passes[pass].lifts && h !in onChain
               then
                 && |finished.queue| == |w.queue| + 1 && finished.advances == w.advances
                 && finished.queue[|w.queue|].to == w.passes[pass].to
                 && forall h :: h in finished.queue[|w.queue|].lifts <==>
                      h in w.passes[pass].lifts && h !in onChain
               else
                 var ready := Steps(cfg, log, finished, before);
                 var read := Steps(cfg, log, Step(cfg, log, ready, Read(i)), between);
                 Step(cfg, log, read, Write(i)).cursor ==
                 if w.passes[pass].to >= ready.cursor then w.passes[pass].to + 1 else read.cursor
  {
    var p := w.passes[pass];
    UnprocessedAreListed(p.lifts, onChain);
    if forall h :: h in p.lifts ==> h in onChain {
      AllProcessed(p.lifts, onChain);
      AdvanceInRun(cfg, log, Step(cfg, log, w, Finish(pass, onChain)), |w.advances|, before, between);
    }
  }

  /** processLifts in a run: after its send it leaves an advance that later reads and writes the cursor. */
  lemma ProcessLiftsInRun(cfg: Config, log: seq<LiftLog>, w: World, message: nat, before: seq<Op>, between: seq<Op>)
    requires message < |w.queue| && LeavesAlone(before, |w.advances|) && LeavesAlone(between, |w.advances|)
    ensures Step(cfg, log, w, Deliver(message, false)) == w
    ensures var i, sent := |w.advances|, Step(cfg, log, w, Deliver(message, true));
            && sent.cursor == w.cursor && sent.processed == w.processed
            && (forall h :: h in sent.sent <==> h in w.sent || h in w.queue[message].lifts)
            && var ready := Steps(cfg, log, sent, before);
               var read := Steps(cfg, log, Step(cfg, log, ready, Read(i)), between);
               Step(cfg, log, read, Write(i)).cursor ==
               if w.queue[message].to >= ready.cursor then w.queue[message].to + 1 else read.cursor
  {
    AdvanceInRun(cfg, log, Step(cfg, log, w, Deliver(message, true)), |w.advances|, before, between);
  }

  /** The write of an advance lowers the cursor if and only if it was not behind the cursor it read, and the last value
      written since that read is larger than the one it writes. */
  lemma WriteLowers(cfg: Config, log: seq<LiftLog>, w: World, i: nat, between: seq<Op>)
    requires i < |w.advances| && w.advances[i].stage.Waiting? && LeavesAlone(between, i)
    ensures var read := Step(cfg, log, w, Read(i));
            var before := Steps(cfg, log, read, between);
            var last := LastWritten(cfg, log, read, between);
            Step(cfg, log, before, Write(i)).cursor < before.cursor <==>
            w.advances[i].to >= w.cursor && last.Some? && last.value > w.advances[i].to + 1
  {
    CursorIsLastWritten(cfg, log, Step(cfg, log, w, Read(i)), between, i);
  }

  /** Two scans end with nothing left and read the cursor before either writes; the longer one writes first, the shorter
      one takes the cursor back. */
  lemma CursorGoesBack()
    ensures var cfg := Config(36000, 80, 6);
            var w := World(100, 100, {}, {}, {}, [], [], []);
            var end := Steps(cfg, [], w, [Begin(156), Begin(200), Finish(0, {}), Finish(1, {}),
                                          Read(0), Read(1), Write(1), Write(0)]);
            end.cursor == 151 && end.high == 181
  {
    var cfg := Config(36000, 80, 6);
    var w := World(100, 100, {}, {}, {}, [], [], []);
    var first, second := [Begin(156), Begin(200), Finish(0, {}), Finish(1, {})], [Read(0), Read(1), Write(1), Write(0)];
    var scanned := TwoScans(cfg, w);
    CrossedWrites(cfg, scanned);
    StepsConcat(cfg, [], w, first, second);
    assert first + second ==
           [Begin(156), Begin(200), Finish(0, {}), Finish(1, {}), Read(0), Read(1), Write(1), Write(0)];
  }

  lemma CrossedWrites(cfg: Config, w: World)
    requires w.cursor == 100 && w.high == 100
    requires w.advances == [Advance(100, 150, false, Waiting), Advance(100, 180, false, Waiting)]
    ensures var end := Steps(cfg, [], w, [Read(0), Read(1), Write(1), Write(0)]); end.cursor == 151 && end.high == 181
  {
    var read := Step(cfg, [], Step(cfg, [], w, Read(0)), Read(1));
    assert read.advances == [Advance(100, 150, false, HasRead(100)), Advance(100, 180, false, HasRead(100))];
    var once := Step(cfg, [], read, Write(1));
    assert once.cursor == 181 && once.advances[0] == Advance(100, 150, false, HasRead(100));
    StepsOfFour(cfg, w, Read(0), Read(1), Write(1), Write(0));
  }

  lemma TwoScans(cfg: Config, w: World) returns (end: World)
    requires cfg == Config(36000, 80, 6) && w == World(100, 100, {}, {}, {}, [], [], [])
    ensures end == Steps(cfg, [], w, [Begin(156), Begin(200), Finish(0, {}), Finish(1, {})])
    ensures end.cursor == 100 && end.high == 100
    ensures end.advances == [Advance(100, 150, false, Waiting), Advance(100, 180, false, Waiting)]
  {
    var w2 := Step(cfg, [], Step(cfg, [], w, Begin(156)), Begin(200));
    assert w2.passes == [Pass(100, 150, false, []), Pass(100, 180, false, [])];
    end := Step(cfg, [], Step(cfg, [], w2, Finish(0, {})), Finish(1, {}));
    StepsOfFour(cfg, w, Begin(156), Begin(200), Finish(0, {}), Finish(1, {}));
  }

  lemma StepsOfFour(cfg: Config, w: World, a: Op, b: Op, c: Op, d: Op)
    ensures Steps(cfg, [], w, [a, b, c, d]) ==
            Step(cfg, [], Step(cfg, [], Step(cfg, [], Step(cfg, [], w, a), b), c), d)
  {
    StepsConcat(cfg, [], w, [a, b], [c, d]);
    assert [a, b] + [c, d] == [a, b, c, d];
    StepsOfTwo(cfg, w, a, b);
    StepsOfTwo(cfg, Step(cfg, [], Step(cfg, [], w, a), b), c, d);
  }

  lemma StepsOfTwo(cfg: Config, w: World, a: Op, b: Op)
    ensures Steps(cfg, [], w, [a, b]) == Step(cfg, [], Step(cfg, [], w, a), b)
  {
    assert [a, b][1..] == [b];
    assert Steps(cfg, [], Step(cfg, [], w, a), [b]) == Step(cfg, [], Step(cfg, [], w, a), b);
  }

  lemma {:induction false} StepsConcat(cfg: Config, log: seq<LiftLog>, w: World, xs: seq<Op>, ys: seq<Op>)
    ensures Steps(cfg, log, w, xs + ys) == Steps(cfg, log, Steps(cfg, log, w, xs), ys)
    decreases |xs|
  {
    if xs == [] {
      assert xs + ys == ys;
    } else {
      assert (xs + ys)[1..] == xs[1..] + ys;
      StepsConcat(cfg, log, Step(cfg, log, w, xs[0]), xs[1..], ys);
    }
  }
}
