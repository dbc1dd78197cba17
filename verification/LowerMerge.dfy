/** One lower seen through its events: how a later event is folded into what is known. */
module LowerMerge {
  import opened Options
  import opened BlockIds

  datatype Name = LowerRequested | AvtLowered | TokenLowered | LowerFailed | LowerReadyToClaim

  function Rank(name: Name): nat {
    match name
    case LowerRequested => 0
    case AvtLowered => 1
    case TokenLowered => 1
    case LowerFailed => 2
    case LowerReadyToClaim => 2
  }

  /** Requested, then lowered, then ready or failed. */
  lemma RankOrder()
    ensures Rank(LowerRequested) < Rank(AvtLowered) == Rank(TokenLowered) < Rank(LowerFailed) == Rank(LowerReadyToClaim)
  {
  }

  datatype LowerData = LowerData(lowerId: nat, token: string, to: Option<string>, amount: Option<string>,
                                 name: Name, from: Option<string>, claimData: Option<string>)

  /** The lower id of an event: absent, a number, or something BigNumber refuses. */
  datatype IdArg = NoId | IdOf(n: nat) | BadId

  datatype EventArgs = EventArgs(lowerId: IdArg, tokenId: Option<string>, t1Recipient: Option<string>,
                                 amount: Option<string>, from: Option<string>, sender: Option<string>)

  datatype LowerEvent = LowerEvent(args: EventArgs, position: BlockId, suffix: string, name: Name) {
    function Id(): string {
      BlockIds.EventId(position.blockNumber, position.index, suffix)
    }
  }

  /** The account that lowered: `from` of a request, `sender` of any other event. */
  function LoweredBy(e: LowerEvent): Option<string> {
    if e.name.LowerRequested? then e.args.from else e.args.sender
  }

  /** What the chain holds as the claim proof of a lower. */
  type Proofs = nat -> Option<string>

  function LowerCase(c: char): char {
    if 'A' <= c <= 'Z' then c - 'A' + 'a' else c
  }

  function ToLower(s: string): (r: string) {
    seq(|s|, i requires 0 <= i < |s| => LowerCase(s[i]))
  }

  /** Capitals become their small letters, everything else stays. */
  lemma ToLowerLetters(s: string, i: nat)
    requires i < |s|
    ensures |ToLower(s)| == |s|
    ensures 'A' <= s[i] <= 'Z' ==> 'a' <= ToLower(s)[i] <= 'z' && ToLower(s)[i] - 'a' == s[i] - 'A'
    ensures !('A' <= s[i] <= 'Z') ==> ToLower(s)[i] == s[i]
  {
  }

  lemma ToLowerTwice(s: string)
    ensures ToLower(ToLower(s)) == ToLower(s)
  {
  }

  function FormatLowerEvent(e: LowerEvent, lowerId: nat, avtContract: string): LowerData {
    LowerData(
      lowerId,
      if e.args.tokenId.Some? && e.args.tokenId.value != "" then e.args.tokenId.value else avtContract,
      if e.args.t1Recipient.Some? then Some(ToLower(e.args.t1Recipient.value)) else None,
      e.args.amount,
      e.name,
      if e.name.LowerRequested? then e.args.from else e.args.sender,
      None)
  }

  /** The data of one event, with the proof fetched for a lower that is ready to claim. */
  function FromEvent(p: Proofs, e: LowerEvent, lowerId: nat, avtContract: string): LowerData {
    var d := FormatLowerEvent(e, lowerId, avtContract);
    if d.name.LowerReadyToClaim? then d.(claimData := p(lowerId)) else d
  }

  predicate MissingArgs(d: LowerData) {
    d.from.None? && d.to.None? && d.amount.None?
  }

  predicate Falsy(text: Option<string>) {
    text.None? || text.value == ""
  }

  predicate CanUpdateStatus(current: LowerData, new_: LowerData) {
    Rank(new_.name) > Rank(current.name)
  }

  /** updateEventStatusIfRequired: fill missing arguments, step the status up, repair a lost claim proof. */
  function Merge(p: Proofs, current: LowerData, new_: LowerData): LowerData {
    var filled := if MissingArgs(current)
                  then current.(from := new_.from, to := new_.to, amount := new_.amount)
                  else current;
    if CanUpdateStatus(current, new_) then filled.(name := new_.name, claimData := new_.claimData)
    else if current.name.LowerReadyToClaim? && Falsy(current.claimData) then filled.(claimData := p(new_.lowerId))
    else filled
  }

  /** Data as this system produces it: a claim proof exactly of a ready lower, and it is the chain's. */
  predicate Sound(p: Proofs, d: LowerData) {
    d.claimData == if d.name.LowerReadyToClaim? then p(d.lowerId) else None
  }

  /** Of two: the first that has any address or amount, and the first of the higher rank. */
  function Join(a: LowerData, b: LowerData): LowerData {
    var args := if MissingArgs(a) then b else a;
    var status := if Rank(b.name) > Rank(a.name) then b else a;
    LowerData(a.lowerId, a.token, args.to, args.amount, status.name, args.from, status.claimData)
  }

  /** On sound data the repair of a claim proof changes nothing, and merging is joining. */
  lemma MergeIsJoin(p: Proofs, a: LowerData, b: LowerData)
    requires Sound(p, a) && Sound(p, b) && a.lowerId == b.lowerId
    ensures Merge(p, a, b) == Join(a, b)
    ensures Sound(p, Join(a, b)) && Join(a, b).lowerId == a.lowerId
  {
  }

  /** A ready lower whose proof was lost from the store is, after the next event of it, as if the proof had been there.
      */
  lemma LostProofIsRepaired(p: Proofs, a: LowerData, lost: Option<string>, b: LowerData)
    requires Sound(p, a) && a.name.LowerReadyToClaim? && (lost.None? || lost.value == "") && a.lowerId == b.lowerId
    ensures Merge(p, a.(claimData := lost), b) == Merge(p, a, b)
    ensures Merge(p, a.(claimData := lost), b).claimData == p(a.lowerId)
  {
  }

  lemma JoinAssociative(a: LowerData, b: LowerData, c: LowerData)
    ensures Join(Join(a, b), c) == Join(a, Join(b, c))
  {
  }

  /** Merging is associative ... */
  lemma MergeAssociative(p: Proofs, a: LowerData, b: LowerData, c: LowerData)
    requires Sound(p, a) && Sound(p, b) && Sound(p, c) && a.lowerId == b.lowerId == c.lowerId
    ensures Merge(p, Merge(p, a, b), c) == Merge(p, a, Merge(p, b, c))
  {
    MergeIsJoin(p, a, b);
    MergeIsJoin(p, b, c);
    MergeIsJoin(p, Join(a, b), c);
    MergeIsJoin(p, a, Join(b, c));
    JoinAssociative(a, b, c);
  }

  /** ... and what was merged once changes nothing when it comes again, at once or later. */
  lemma MergeRepeats(p: Proofs, a: LowerData, b: LowerData)
    requires Sound(p, a) && Sound(p, b) && a.lowerId == b.lowerId
    ensures Merge(p, a, a) == a
    ensures Merge(p, Merge(p, a, b), a) == Merge(p, a, b)
  {
    MergeIsJoin(p, a, b);
    MergeIsJoin(p, Join(a, b), a);
  }

  /** Ranks only grow, a failed or ready lower keeps its name, and addresses change only from nothing. */
  lemma MergeProgress(p: Proofs, a: LowerData, b: LowerData)
    ensures Rank(Merge(p, a, b).name) >= Rank(a.name) && Rank(Merge(p, a, b).name) >= Rank(b.name)
    ensures Rank(a.name) == 2 ==> Merge(p, a, b).name == a.name
    ensures Merge(p, a, b).from == a.from || a.from.None?
    ensures Merge(p, a, b).to == a.to || a.to.None?
  {
  }

  // ---- The fold over all events of one lower ----

  function Fold(p: Proofs, ds: seq<LowerData>): LowerData
    requires ds != []
  {
    if |ds| == 1 then ds[0] else Merge(p, Fold(p, ds[..|ds| - 1]), ds[|ds| - 1])
  }

  predicate FirstOfHighestRank(ds: seq<LowerData>, i: nat) {
    && i < |ds|
    && (forall j | 0 <= j < |ds| :: Rank(ds[j].name) <= Rank(ds[i].name))
    && (forall j | 0 <= j < i :: Rank(ds[j].name) < Rank(ds[i].name))
  }

  predicate FirstWithArgs(ds: seq<LowerData>, i: nat) {
    i < |ds| && !MissingArgs(ds[i]) && forall j | 0 <= j < i :: MissingArgs(ds[j])
  }

  predicate SoundSeq(p: Proofs, ds: seq<LowerData>) {
    forall i | 0 <= i < |ds| :: Sound(p, ds[i]) && ds[i].lowerId == ds[0].lowerId
  }

  lemma {:induction false} FoldIsSound(p: Proofs, ds: seq<LowerData>)
    requires ds != [] && SoundSeq(p, ds)
    ensures Sound(p, Fold(p, ds)) && Fold(p, ds).lowerId == ds[0].lowerId && Fold(p, ds).token == ds[0].token
    decreases |ds|
  {
    if |ds| > 1 {
      FoldIsSound(p, ds[..|ds| - 1]);
      MergeIsJoin(p, Fold(p, ds[..|ds| - 1]), ds[|ds| - 1]);
    }
  }

  /** What a fold of events leaves: the name and the proof of the first event of highest rank ... */
  lemma {:induction false} FoldTakesBest(p: Proofs, ds: seq<LowerData>, best: nat)
    requires ds != [] && SoundSeq(p, ds) && FirstOfHighestRank(ds, best)
    ensures Fold(p, ds).name == ds[best].name && Fold(p, ds).claimData == ds[best].claimData
    decreases |ds|
  {
    if |ds| > 1 {
      var last := |ds| - 1;
      var front := ds[..last];
      BestExists(front);
      FoldTakesBest(p, front, if best < last then best else BestOf(front));
      FoldIsSound(p, front);
      MergeIsJoin(p, Fold(p, front), ds[last]);
    }
  }

  /** ... the addresses and the amount of the first event that has any of them, ... */
  lemma {:induction false} FoldTakesFirstArgs(p: Proofs, ds: seq<LowerData>, k: nat)
    requires ds != [] && SoundSeq(p, ds) && FirstWithArgs(ds, k)
    ensures var r := Fold(p, ds); r.from == ds[k].from && r.to == ds[k].to && r.amount == ds[k].amount
    decreases |ds|
  {
    if |ds| > 1 {
      var front := ds[..|ds| - 1];
      FoldIsSound(p, front);
      MergeIsJoin(p, Fold(p, front), ds[|ds| - 1]);
      if k < |ds| - 1 {
        FoldTakesFirstArgs(p, front, k);
      } else {
        FoldWithoutArgs(p, front);
      }
    }
  }

  /** ... or none at all if no event has any. */
  lemma {:induction false} FoldWithoutArgs(p: Proofs, ds: seq<LowerData>)
    requires ds != [] && SoundSeq(p, ds) && forall i | 0 <= i < |ds| :: MissingArgs(ds[i])
    ensures MissingArgs(Fold(p, ds))
    decreases |ds|
  {
    if |ds| > 1 {
      FoldIsSound(p, ds[..|ds| - 1]);
      FoldWithoutArgs(p, ds[..|ds| - 1]);
    }
  }

  function BestOf(ds: seq<LowerData>): nat {
    if |ds| <= 1 then 0 else
      var b := BestOf(ds[..|ds| - 1]);
      if b < |ds| - 1 && Rank(ds[|ds| - 1].name) <= Rank(ds[b].name) then b else |ds| - 1
  }

  lemma {:induction false} BestExists(ds: seq<LowerData>)
    requires ds != []
    ensures FirstOfHighestRank(ds, BestOf(ds))
  {
    if |ds| > 1 {
      BestExists(ds[..|ds| - 1]);
    }
  }
}
