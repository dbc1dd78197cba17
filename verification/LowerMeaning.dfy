/** What the events of a lower say of it, read off the events themselves. */
module LowerMeaning {
  import opened LowerBatches
  import opened LowerIndexer
  import opened LowerMerge
  import opened LowerStore
  import opened Options

  predicate About(e: LowerEvent, n: nat) {
    e.args.lowerId == IdOf(n)
  }

  predicate CarriesArgs(e: LowerEvent) {
    LoweredBy(e).Some? || e.args.t1Recipient.Some? || e.args.amount.Some?
  }

  /** Event `i` is the first one of the lower. */
  predicate FirstEvent(events: seq<LowerEvent>, n: nat, i: nat) {
    i < |events| && About(events[i], n) && forall j | 0 <= j < i :: !About(events[j], n)
  }

  /** Event `i` is the first one of the lower with the highest rank. */
  predicate BestEvent(events: seq<LowerEvent>, n: nat, i: nat) {
    && i < |events| && About(events[i], n)
    && (forall j | 0 <= j < |events| && About(events[j], n) :: Rank(events[j].name) <= Rank(events[i].name))
    && (forall j | 0 <= j < i && About(events[j], n) :: Rank(events[j].name) < Rank(events[i].name))
  }

  /** Event `i` is the first one of the lower that carries a sender, a recipient or an amount. */
  predicate FirstArgsEvent(events: seq<LowerEvent>, n: nat, i: nat) {
    && i < |events| && About(events[i], n) && CarriesArgs(events[i])
    && forall j | 0 <= j < i && About(events[j], n) :: !CarriesArgs(events[j])
  }

  predicate NoArgsOf(events: seq<LowerEvent>, n: nat) {
    forall j | 0 <= j < |events| && About(events[j], n) :: !CarriesArgs(events[j])
  }

  predicate NoneOf(events: seq<LowerEvent>, n: nat) {
    forall j | 0 <= j < |events| :: !About(events[j], n)
  }

  /** The token of the event, or the contract of the native one. */
  predicate HasToken(d: LowerData, e: LowerEvent, avt: string) {
    d.token == if e.args.tokenId.Some? && e.args.tokenId.value != "" then e.args.tokenId.value else avt
  }

  /** The sender, the recipient in lower case, and the amount of the event. */
  predicate HasArgs(d: LowerData, e: LowerEvent) {
    && d.from == LoweredBy(e) && d.amount == e.args.amount
    && d.to == if e.args.t1Recipient.Some? then Some(ToLower(e.args.t1Recipient.value)) else None
  }

  ghost predicate TellsToken(events: seq<LowerEvent>, n: nat, d: LowerData, avt: string) {
    forall i: nat | FirstEvent(events, n, i) :: HasToken(d, events[i], avt)
  }

  ghost predicate TellsName(events: seq<LowerEvent>, n: nat, d: LowerData) {
    forall i: nat | BestEvent(events, n, i) :: d.name == events[i].name
  }

  ghost predicate TellsArgs(events: seq<LowerEvent>, n: nat, d: LowerData) {
    && (forall i: nat | FirstArgsEvent(events, n, i) :: HasArgs(d, events[i]))
    && (NoArgsOf(events, n) ==> d.from == d.to == d.amount == None)
  }

  /** Everything that is known of a lower after its events. */
  ghost predicate Tells(p: Proofs, avt: string, events: seq<LowerEvent>, n: nat, d: LowerData) {
    && d.lowerId == n && TellsToken(events, n, d, avt) && TellsName(events, n, d) && TellsArgs(events, n, d)
    && d.claimData == if d.name.LowerReadyToClaim? then p(n) else None
  }

  lemma {:induction false} PresentWithEvent(p: Proofs, avt: string, events: seq<LowerEvent>, n: nat)
    ensures n !in Collapse(p, avt, events) <==> NoneOf(events, n)
  {
    if events != [] {
      var front := events[..|events| - 1];
      PresentWithEvent(p, avt, front, n);
      assert forall i | 0 <= i < |front| :: front[i] == events[i];
    }
  }

  /** The entry of a lower after one more event. */
  lemma OneMore(p: Proofs, avt: string, events: seq<LowerEvent>, n: nat)
    requires events != []
    ensures var front, e := Collapse(p, avt, events[..|events| - 1]), events[|events| - 1];
            Get(Collapse(p, avt, events), n) ==
            if About(e, n) then Combine(p, Get(front, n), Some(FromEvent(p, e, n, avt))) else Get(front, n)
  {
  }

  lemma {:induction false} BestEventExists(events: seq<LowerEvent>, n: nat) returns (i: nat)
    requires !NoneOf(events, n)
    ensures BestEvent(events, n, i)
  {
    var front, e := events[..|events| - 1], events[|events| - 1];
    if NoneOf(front, n) {
      i := |events| - 1;
      assert forall j | 0 <= j < |front| :: !About(front[j], n);
    } else {
      i := BestEventExists(front, n);
      if About(e, n) && Rank(e.name) > Rank(front[i].name) {
        i := |events| - 1;
        assert forall j | 0 <= j < |front| && About(front[j], n) :: Rank(front[j].name) < Rank(e.name);
      }
    }
  }

  lemma {:induction false} NameIsBest(p: Proofs, avt: string, events: seq<LowerEvent>, n: nat, i: nat)
    requires BestEvent(events, n, i)
    ensures n in Collapse(p, avt, events) && Collapse(p, avt, events)[n].name == events[i].name
    decreases |events|
  {
    var front, e := events[..|events| - 1], events[|events| - 1];
    OneMore(p, avt, events, n);
    PresentWithEvent(p, avt, front, n);
    if i < |front| {
      assert BestEvent(front, n, i);
      NameIsBest(p, avt, front, n, i);
    } else if !NoneOf(front, n) {
      var b := BestEventExists(front, n);
      assert events[b] == front[b];
      NameIsBest(p, avt, front, n, b);
    }
  }

  lemma {:induction false} TokenIsFirst(p: Proofs, avt: string, events: seq<LowerEvent>, n: nat, i: nat)
    requires FirstEvent(events, n, i)
    ensures n in Collapse(p, avt, events)
    ensures HasToken(Collapse(p, avt, events)[n], events[i], avt)
    decreases |events|
  {
    var front := events[..|events| - 1];
    OneMore(p, avt, events, n);
    if i < |front| {
      assert FirstEvent(front, n, i);
      TokenIsFirst(p, avt, front, n, i);
    } else {
      PresentWithEvent(p, avt, front, n);
    }
  }

  lemma {:induction false} ArgsAreNone(p: Proofs, avt: string, events: seq<LowerEvent>, n: nat)
    requires NoArgsOf(events, n) && n in Collapse(p, avt, events)
    ensures var d := Collapse(p, avt, events)[n]; d.from == d.to == d.amount == None
    decreases |events|
  {
    var front := events[..|events| - 1];
    OneMore(p, avt, events, n);
    assert forall j | 0 <= j < |front| :: front[j] == events[j];
    if n in Collapse(p, avt, front) {
      ArgsAreNone(p, avt, front, n);
    }
  }

  lemma {:induction false} ArgsAreFirst(p: Proofs, avt: string, events: seq<LowerEvent>, n: nat, i: nat)
    requires FirstArgsEvent(events, n, i)
    ensures n in Collapse(p, avt, events) && HasArgs(Collapse(p, avt, events)[n], events[i])
    decreases |events|
  {
    var front := events[..|events| - 1];
    OneMore(p, avt, events, n);
    if i < |front| {
      assert FirstArgsEvent(front, n, i);
      ArgsAreFirst(p, avt, front, n, i);
    } else {
      assert forall j | 0 <= j < |front| :: front[j] == events[j];
      if n in Collapse(p, avt, front) {
        ArgsAreNone(p, avt, front, n);
      }
    }
  }

  /** Collapsing a list of events: a lower is listed if and only if an event is about it. It then has the token of its
      first event, the name of the first event of highest rank, the chain's proof exactly if that name is ready, and the
      sender, recipient and amount of the first event that carries any of them. */
  lemma CollapsedTells(p: Proofs, avt: string, events: seq<LowerEvent>, n: nat)
    ensures n in Collapse(p, avt, events) <==> exists i | 0 <= i < |events| :: About(events[i], n)
    ensures n in Collapse(p, avt, events) ==> Tells(p, avt, events, n, Collapse(p, avt, events)[n])
  {
    PresentWithEvent(p, avt, events, n);
    if n in Collapse(p, avt, events) {
      CollapseIsSound(p, avt, events);
      CollapsedNameAndToken(p, avt, events, n);
      CollapsedArgs(p, avt, events, n);
    }
  }

  lemma CollapsedNameAndToken(p: Proofs, avt: string, events: seq<LowerEvent>, n: nat)
    requires n in Collapse(p, avt, events)
    ensures TellsToken(events, n, Collapse(p, avt, events)[n], avt) && TellsName(events, n, Collapse(p, avt, events)[n])
  {
    forall i: nat | FirstEvent(events, n, i) ensures HasToken(Collapse(p, avt, events)[n], events[i], avt) {
      TokenIsFirst(p, avt, events, n, i);
    }
    forall i: nat | BestEvent(events, n, i) ensures Collapse(p, avt, events)[n].name == events[i].name {
      NameIsBest(p, avt, events, n, i);
    }
  }

  lemma CollapsedArgs(p: Proofs, avt: string, events: seq<LowerEvent>, n: nat)
    requires n in Collapse(p, avt, events)
    ensures TellsArgs(events, n, Collapse(p, avt, events)[n])
  {
    forall i: nat | FirstArgsEvent(events, n, i) ensures HasArgs(Collapse(p, avt, events)[n], events[i]) {
      ArgsAreFirst(p, avt, events, n, i);
    }
    if NoArgsOf(events, n) {
      ArgsAreNone(p, avt, events, n);
    }
  }

  /** The same of a stored lower that was not stored before, over all its events, however they were cut into batches. */
  lemma StoredTells(p: Proofs, avt: string, db: LowerDb, batches: seq<seq<LowerEvent>>, n: nat)
    requires SoundMap(p, db.lowers) && n !in db.lowers
    ensures var end, events := StoreBatches(p, avt, db, batches), Concat(batches);
            && (n in end.lowers <==> exists i | 0 <= i < |events| :: About(events[i], n))
            && (n in end.lowers ==> Tells(p, avt, events, n, end.lowers[n]))
  {
    BatchSplit(p, avt, db, batches, n);
    CollapsedTells(p, avt, Concat(batches), n);
  }

  /** A lower covered up to a position of the log tells what the events up to there, or further, say. */
  lemma CoveredTells(p: Proofs, avt: string, log: seq<LowerEvent>, db: LowerDb, k: nat, n: nat) returns (m: nat)
    requires Covers(p, avt, log, db, k)
    ensures k <= m <= |log|
    ensures n in db.lowers <==> exists i | 0 <= i < m :: About(log[i], n)
    ensures n in db.lowers ==> Tells(p, avt, log[..m], n, db.lowers[n])
  {
    assert FoldedPast(p, avt, log, db, n, k);
    m :| k <= m && FoldedTo(p, avt, log, db, n, m);
    CollapsedTells(p, avt, log[..m], n);
    assert forall i | 0 <= i < m :: log[..m][i] == log[i];
  }

  /** A stored lower that is ready but lost its proof: any batch with an event of it leaves it as if the proof had never
      been lost. */
  lemma LostProofIsRestored(p: Proofs, avt: string, db: LowerDb, events: seq<LowerEvent>, n: nat, lost: Option<string>)
    requires n in db.lowers && db.lowers[n].lowerId == n && db.lowers[n].name.LowerReadyToClaim?
    requires Sound(p, db.lowers[n]) && (lost.None? || lost.value == "")
    requires exists i | 0 <= i < |events| :: About(events[i], n)
    ensures var broken := db.(lowers := db.lowers[n := db.lowers[n].(claimData := lost)]);
            && n in StoreBatch(p, avt, broken, events).lowers && n in StoreBatch(p, avt, db, events).lowers
            && StoreBatch(p, avt, broken, events).lowers[n] == StoreBatch(p, avt, db, events).lowers[n]
            && StoreBatch(p, avt, broken, events).lowers[n].claimData == p(n)
  {
    var broken := db.(lowers := db.lowers[n := db.lowers[n].(claimData := lost)]);
    var distinct := Collapse(p, avt, events);
    CollapsedTells(p, avt, events, n);
    StorePrefixGet(p, db, distinct, |KeysOf(distinct)|, n);
    StorePrefixGet(p, broken, distinct, |KeysOf(distinct)|, n);
    LostProofIsRepaired(p, db.lowers[n], lost, distinct[n]);
  }

  /** Lowered first and ready later: the lower is ready, with its proof. */
  lemma LoweredThenReady(p: Proofs, avt: string, lowered: LowerEvent, ready: LowerEvent, n: nat)
    requires About(lowered, n) && About(ready, n) && lowered.name.TokenLowered? && ready.name.LowerReadyToClaim?
    ensures n in Collapse(p, avt, [lowered, ready])
    ensures var d := Collapse(p, avt, [lowered, ready])[n]; d.name == LowerReadyToClaim && d.claimData == p(n)
  {
    var events := [lowered, ready];
    CollapsedTells(p, avt, events, n);
    assert About(events[0], n) && BestEvent(events, n, 1);
  }
}
