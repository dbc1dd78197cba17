/** Bounded waiting: how many scheduling calls a pending transaction can wait for its turn. */
module Fairness {
  import opened Sequences
  import opened SortedSets
  import opened TxStore
  import opened TxProtocol

  /** The scheduled transactions whose turn comes before that of `x`. */
  function Ahead(s: Store, x: string): set<string>
    requires x in s.all
  {
    set y | y in s.all && Before(Effective(s, y), y, Effective(s, x), x)
  }

  predicate Serves(w: World, op: Op, x: string) {
    || (op.Check? && x in Picked(w.store, op.now))
    || (op.Report? && !Throws(op.tx) && Final(op.tx.status) && op.tx.transactionHash == x)
  }

  /** Whether `x` is handed out or resolved at some step of the run. */
  predicate Served(w: World, ops: seq<Op>, x: string)
    decreases |ops|
  {
    ops != [] && (Serves(w, ops[0], x) || Served(Step(w, ops[0]), ops[1..], x))
  }

  function Calls(ops: seq<Op>): nat {
    if ops == [] then 0 else (if ops[0].Check? then 1 else 0) + Calls(ops[1..])
  }

  /** Sends are marked later than `due` and concern other transactions; calls read a clock of at least `due`. */
  predicate Fair(op: Op, x: string, due: int) {
    && (op.Sent? ==> op.age > due && op.hash != x)
    && (op.Check? ==> op.now >= due)
  }

  /** A call that passes over a due transaction serves 250 of those ahead of it and moves nobody in front. */
  lemma CallAdvances(s: Store, now: int, x: string)
    requires SetsNested(s) && x in s.all && Effective(s, x) <= now && x !in Picked(s, now)
    ensures var end := Schedule(s, now);
            && x in end.all && Effective(end, x) == Effective(s, x)
            && |Members(Picked(s, now))| == 250 && Members(Picked(s, now)) <= Ahead(s, x)
            && Ahead(end, x) == Ahead(s, x) - Members(Picked(s, now))
  {
    var end, picked := Schedule(s, now), Members(Picked(s, now));
    ScheduleKeepsMembership(s, now);
    PickedBeforeDue(s, now, x);
    forall y | y in s.all
      ensures Effective(end, y) == if y in picked then Expiry(now) else Effective(s, y)
    {
      EffectiveAfterCall(s, now, y);
    }
    forall y | y in s.all ensures y in Ahead(end, x) <==> y in Ahead(s, x) && y !in picked {
    }
  }

  lemma EffectiveAfterCall(s: Store, now: int, y: string)
    requires SetsNested(s) && y in s.all
    ensures y in Schedule(s, now).all
    ensures Effective(Schedule(s, now), y) == if y in Members(Picked(s, now)) then Expiry(now) else Effective(s, y)
  {
  }

  lemma PickedBeforeDue(s: Store, now: int, x: string)
    requires SetsNested(s) && x in s.all && Effective(s, x) <= now && x !in Picked(s, now)
    ensures |Members(Picked(s, now))| == 250 && Members(Picked(s, now)) <= Ahead(s, x)
  {
    var picked := Picked(s, now);
    DueIsUnleased(s, now);
    OrderIsOrder(Due(s, now));
    TakenAreDistinct(Due(s, now), MAX_PENDING_TX_TO_CHECK);
    assert x in Members(Order(Due(s, now)));
    forall y | y in Members(picked) ensures y in Ahead(s, x) {
      PickedBeforeLeft(s, now, y, x);
    }
  }

  lemma CallShrinksAhead(s: Store, now: int, x: string)
    requires SetsNested(s) && x in s.all && Effective(s, x) <= now && x !in Picked(s, now)
    ensures var end := Schedule(s, now);
            && SetsNested(end) && x in end.all && Effective(end, x) == Effective(s, x)
            && Ahead(end, x) <= Ahead(s, x) && |Ahead(end, x)| == |Ahead(s, x)| - 250
  {
    ScheduleKeepsMembership(s, now);
    CallAdvances(s, now, x);
  }

  lemma Smaller(a: set<string>, b: set<string>)
    requires a <= b
    ensures |a| <= |b|
  {
    assert b == a + (b - a);
  }

  /** Entries of others that come later, or go, put nobody in front of `x`. */
  lemma OthersKeepTurn(s: Store, end: Store, x: string)
    requires x in s.all && x in end.all && Effective(end, x) == Effective(s, x)
    requires forall y | y in end.all && y !in Ahead(s, x) && y != x :: !Before(Effective(end, y), y, Effective(s, x), x)
    ensures Ahead(end, x) <= Ahead(s, x) && |Ahead(end, x)| <= |Ahead(s, x)|
  {
    BeforeIsStrictOrder(Effective(s, x), x, Effective(s, x), x, Effective(s, x), x);
    Smaller(Ahead(end, x), Ahead(s, x));
  }

  lemma SentKeepsTurn(s: Store, end: Store, hash: string, age: int, x: string)
    requires SetsNested(s) && x in s.all && hash != x && age > Effective(s, x)
    requires end.all == s.all[hash := age] && end.checking == s.checking && end.next == s.next
    ensures SetsNested(end) && x in end.all && Effective(end, x) == Effective(s, x)
    ensures Ahead(end, x) <= Ahead(s, x) && |Ahead(end, x)| <= |Ahead(s, x)|
  {
    OthersKeepTurn(s, end, x);
  }

  lemma ReportKeepsTurn(s: Store, end: Store, hash: string, x: string)
    requires SetsNested(s) && x in s.all && hash != x
    requires end.all == s.all - {hash} && end.checking == s.checking - {hash} && end.next == s.next - {hash}
    ensures SetsNested(end) && x in end.all && Effective(end, x) == Effective(s, x)
    ensures Ahead(end, x) <= Ahead(s, x) && |Ahead(end, x)| <= |Ahead(s, x)|
  {
    OthersKeepTurn(s, end, x);
  }

  predicate TouchesSets(op: Op) {
    op.Sent? || op.Check? || (op.Report? && Final(op.tx.status) && !Throws(op.tx))
  }

  lemma OtherStepsKeepSets(w: World, op: Op)
    requires !TouchesSets(op)
    ensures var s, end := w.store, Step(w, op).store;
            end.all == s.all && end.checking == s.checking && end.next == s.next
  {
    if op.Land? && op.at < |w.late| {
      WriteKeepsSets(w.store, w.late[op.at]);
    } else {
      assert Step(w, op).store == w.store;
    }
  }

  lemma WriteKeepsSets(s: Store, l: Late)
    ensures var end := Write(s, l); end.all == s.all && end.checking == s.checking && end.next == s.next
  {
  }

  /** Whatever else happens, a transaction that is not served keeps its turn and nobody gets in front of it. */
  lemma StepKeepsTurn(w: World, op: Op, x: string, due: int)
    requires SetsNested(w.store) && x in w.store.all && Effective(w.store, x) == due
    requires Fair(op, x, due) && !Serves(w, op, x)
    ensures var end := Step(w, op).store;
            && SetsNested(end) && x in end.all && Effective(end, x) == due
            && Ahead(end, x) <= Ahead(w.store, x)
            && |Ahead(end, x)| <= |Ahead(w.store, x)| - (if op.Check? then 250 else 0)
  {
    var s, end := w.store, Step(w, op).store;
    if op.Check? {
      CallShrinksAhead(s, op.now, x);
    } else if op.Sent? {
      SentKeepsTurn(s, end, op.hash, op.age, x);
    } else if TouchesSets(op) {
      ReportKeepsTurn(s, end, op.tx.transactionHash, x);
    } else {
      OtherStepsKeepSets(w, op);
      OthersKeepTurn(s, end, x);
    }
  }

  /** With k transactions ahead of it, a due transaction is handed out or resolved within k/250 + 1 calls. */
  lemma {:induction false} BoundedWaiting(w: World, ops: seq<Op>, x: string)
    requires SetsNested(w.store) && x in w.store.all
    requires forall i | 0 <= i < |ops| :: Fair(ops[i], x, Effective(w.store, x))
    requires Calls(ops) >= |Ahead(w.store, x)| / 250 + 1
    ensures Served(w, ops, x)
    decreases |ops|
  {
    if !Serves(w, ops[0], x) {
      StepKeepsTurn(w, ops[0], x, Effective(w.store, x));
      BoundedWaiting(Step(w, ops[0]), ops[1..], x);
    }
  }

  lemma {:induction false} LaterStepsAreFair(ids: Hashing, w: World, ops: seq<Op>, x: string, due: int)
    requires AllowedRun(ids, w, ops) && due <= w.clock
    requires forall i | 0 <= i < |ops| && ops[i].Sent? :: ops[i].age > due && ops[i].hash != x
    ensures forall i | 0 <= i < |ops| :: Fair(ops[i], x, due)
    decreases |ops|
  {
    if ops != [] {
      LaterStepsAreFair(ids, Step(w, ops[0]), ops[1..], x, due);
      assert forall i | 1 <= i < |ops| :: ops[i] == ops[1..][i - 1];
    }
  }

  /** For a turn before the clock every allowed send is late enough. */
  lemma {:induction false} SendsAreLater(ids: Hashing, w: World, ops: seq<Op>, due: int)
    requires AllowedRun(ids, w, ops) && due < w.clock
    ensures forall i | 0 <= i < |ops| && ops[i].Sent? :: ops[i].age > due
    decreases |ops|
  {
    if ops != [] {
      SendsAreLater(ids, Step(w, ops[0]), ops[1..], due);
      assert forall i | 1 <= i < |ops| :: ops[i] == ops[1..][i - 1];
    }
  }

  /** The bound for the callers' runs: once its turn has come by the clock, a scheduled transaction is served within the
      bound, whatever later sends, reports, failures and lease expiries come between. Every pending transaction is
      scheduled; sends in the very millisecond of its turn are the only ones that could come in front. */
  lemma LiveTransactionIsServed(ids: Hashing, w: World, ops: seq<Op>, x: string)
    requires Inv(ids, w) && AllowedRun(ids, w, ops) && NeverSent(ops, x)
    requires x in w.store.all || (x in w.store.records && w.store.records[x].status.Pending?)
    ensures x in w.store.all
    ensures Effective(w.store, x) <= w.clock && Calls(ops) >= |Ahead(w.store, x)| / 250 + 1 &&
            (Effective(w.store, x) < w.clock ||
             forall i | 0 <= i < |ops| && ops[i].Sent? :: ops[i].age > Effective(w.store, x))
            ==> Served(w, ops, x)
  {
    var due := Effective(w.store, x);
    if due < w.clock {
      SendsAreLater(ids, w, ops, due);
    }
    if due <= w.clock && Calls(ops) >= |Ahead(w.store, x)| / 250 + 1 &&
       forall i | 0 <= i < |ops| && ops[i].Sent? :: ops[i].age > due {
      LaterStepsAreFair(ids, w, ops, x, due);
      BoundedWaiting(w, ops, x);
    }
  }

  // ---- How long a lease lasts ----

  /** A transaction sent while it is not leased has its sending time as its turn. */
  lemma SentTakesTurn(w: World, sent: Op)
    requires sent.Sent? && sent.hash !in w.store.checking
    ensures var end := Step(w, sent).store; sent.hash in end.all && Effective(end, sent.hash) == sent.age
  {
  }

  /** What is due is entered in NEXT under its turn. */
  lemma NextHoldsDue(s: Store, now: int)
    requires SetsNested(s)
    ensures forall h :: h in Schedule(s, now).next <==> h in s.all && !Leased(s, h, now)
    ensures forall h | h in Schedule(s, now).next :: h in s.all && Schedule(s, now).next[h] == Effective(s, h)
  {
    DueIsUnleased(s, now);
  }

  /** CHECKING holds exactly what is leased, the leases of the call included; ALL keeps its scores but for expired
      leases, which leave theirs there. */
  lemma CheckingHoldsLeases(s: Store, now: int, h: string)
    requires SetsNested(s)
    ensures var end := Schedule(s, now);
            && (h in end.checking <==> Leased(s, h, now) || h in Picked(s, now))
            && (h in end.checking ==> Leased(end, h, now))
            && (h in end.all <==> h in s.all)
            && (h in s.all ==>
                  end.all[h] == if h in s.checking && s.checking[h] <= now then s.checking[h] else s.all[h])
  {
    ScheduleKeepsMembership(s, now);
    assert h in Picked(s, now) <==> h in Members(Picked(s, now));
  }

  /** Being handed out, a transaction gets its next turn 5000 milliseconds later. */
  lemma HandedOutTurn(s: Store, now: int, x: string)
    requires SetsNested(s) && x in Picked(s, now)
    ensures var end := Schedule(s, now);
            && x in end.all && Effective(end, x) == now + 5000
            && forall t :: Leased(end, x, t) <==> t < now + 5000
  {
    PickedAreDue(s, now);
    assert x in Members(Picked(s, now));
    DueIsUnleased(s, now);
    EffectiveAfterCall(s, now, x);
  }

  /** No step but being served or sent again changes a transaction's turn, due or not. */
  lemma TurnStays(w: World, op: Op, x: string)
    requires SetsNested(w.store) && x in w.store.all && !Serves(w, op, x) && (op.Sent? ==> op.hash != x)
    ensures var end := Step(w, op).store;
            SetsNested(end) && x in end.all && Effective(end, x) == Effective(w.store, x)
  {
    if op.Check? {
      ScheduleKeepsMembership(w.store, op.now);
      EffectiveAfterCall(w.store, op.now, x);
    } else if !TouchesSets(op) {
      OtherStepsKeepSets(w, op);
    }
  }

  lemma {:induction false} TurnStaysThroughRun(w: World, ops: seq<Op>, x: string)
    requires SetsNested(w.store) && x in w.store.all && !Served(w, ops, x) && NeverSent(ops, x)
    ensures var end := Run(w, ops).store;
            SetsNested(end) && x in end.all && Effective(end, x) == Effective(w.store, x)
    decreases |ops|
  {
    if ops != [] {
      TurnStays(w, ops[0], x);
      assert NeverSent(ops[1..], x);
      TurnStaysThroughRun(Step(w, ops[0]), ops[1..], x);
    }
  }

  /** A transaction handed out at `now` and then neither handed out again, resolved nor sent again has its turn at now +
      5000 and is unleased at every reading from then on. Whatever later sends and other steps come with them, it is
      served again within k/250 + 1 calls made from that reading on. */
  lemma LeaseEnds(w: World, now: int, ops: seq<Op>, more: seq<Op>, x: string)
    requires SetsNested(w.store) && x in Picked(w.store, now)
    requires !Served(Step(w, Check(now)), ops, x) && NeverSent(ops, x) && NeverSent(more, x)
    ensures var mid := Run(Step(w, Check(now)), ops);
            && x in mid.store.all && Effective(mid.store, x) == now + 5000
            && (forall t | t >= now + 5000 :: !Leased(mid.store, x, t))
            && ((forall i | 0 <= i < |more| && more[i].Check? :: more[i].now >= now + 5000) &&
                (forall i | 0 <= i < |more| && more[i].Sent? :: more[i].age > now + 5000) &&
                Calls(more) >= |Ahead(mid.store, x)| / 250 + 1
                ==> Served(mid, more, x))
  {
    var handed := Step(w, Check(now));
    var mid := Run(handed, ops);
    ScheduleKeepsMembership(w.store, now);
    HandedOutTurn(w.store, now, x);
    TurnStaysThroughRun(handed, ops, x);
    if (forall i | 0 <= i < |more| && more[i].Check? :: more[i].now >= now + 5000) &&
       (forall i | 0 <= i < |more| && more[i].Sent? :: more[i].age > now + 5000) &&
       Calls(more) >= |Ahead(mid.store, x)| / 250 + 1
    {
      BoundedWaiting(mid, more, x);
    }
  }

  /** Alone, a transaction handed out at `now` is handed out again by a call exactly from now + 5000 on. */
  lemma AloneAgainAfterLease(s: Store, now: int, x: string, t: int)
    requires SetsNested(s) && s.all.Keys == {x} && x in Picked(s, now)
    ensures x in Picked(Schedule(s, now), t) <==> t >= now + 5000
  {
    var end := Schedule(s, now);
    ScheduleKeepsMembership(s, now);
    HandedOutTurn(s, now, x);
    CallReturnsSmallest(end, t);
    if t >= now + 5000 && x !in Picked(end, t) {
      CallAdvances(end, t, x);
    }
  }
}
