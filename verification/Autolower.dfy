/** The autolower watermark and retry set: which ready lowers a pass picks up, and what later passes still see. */
module Autolower {
  import opened Decimals
  import opened Numbers
  import opened NumericKeys
  import opened Strings
  import Claims

  /** `retry` is the stored set, `alive` the ids whose lifetime key has not expired. */
  datatype State = State(retry: set<nat>, alive: set<nat>, latest: int, nextT1Block: int)

  function Live(s: State): set<nat> {
    s.retry * s.alive
  }

  function Remove(s: State, n: nat): State {
    s.(retry := s.retry - {n}, alive := s.alive - {n})
  }

  function Add(s: State, n: nat): State {
    if n in s.retry then s else s.(retry := s.retry + {n}, alive := s.alive + {n})
  }

  function RemoveAll(s: State, ids: seq<nat>): State {
    if ids == [] then s else Remove(RemoveAll(s, ids[..|ids| - 1]), ids[|ids| - 1])
  }

  function AddAll(s: State, ids: seq<nat>): State {
    if ids == [] then s else Add(AddAll(s, ids[..|ids| - 1]), ids[|ids| - 1])
  }

  function Raise(latest: int, ids: seq<nat>): int {
    if ids == [] then latest else Max(Raise(latest, ids[..|ids| - 1]), ids[|ids| - 1])
  }

  /** The ready lowers above the watermark or in the live retry set, without those just claimed. */
  function ToClaim(s: State, ready: map<nat, string>, claimed: seq<nat>): map<nat, string> {
    map n | n in ready && (n > s.latest || n in Live(s)) && n !in claimed :: ready[n]
  }

  /** Where a lookup dies, if it does: after so many removals of claims or additions to the retry set, between the set
      and the lifetime key of the next one, or between the write of the watermark and that of the block cursor. */
  datatype Fault =
    | NoFault
    | AfterRemovals(count: nat) | MidRemoval(count: nat)
    | AfterAdditions(count: nat) | MidAddition(count: nat)
    | AfterWatermark

  function Prefix(ids: seq<nat>, count: nat): seq<nat> {
    if count < |ids| then ids[..count] else ids
  }

  /** The retry set and watermark once expired ids are purged, claims removed and picks added. */
  function Gathered(s: State, ready: map<nat, string>, claimed: seq<nat>): State {
    AddAll(RemoveAll(s.(retry := Live(s)), claimed), Ascending(ToClaim(s, ready, claimed).Keys))
  }

  /** The removals made, the last of them perhaps in the set only. */
  function PartlyRemoved(s: State, ids: seq<nat>, fault: Fault): State
    requires fault.AfterRemovals? || fault.MidRemoval?
  {
    var removed := RemoveAll(s, Prefix(ids, fault.count));
    if fault.MidRemoval? && fault.count < |ids| then removed.(retry := removed.retry - {ids[fault.count]}) else removed
  }

  /** The additions made, the last of them perhaps in the set only. */
  function PartlyAdded(s: State, ids: seq<nat>, fault: Fault): State
    requires fault.AfterAdditions? || fault.MidAddition?
  {
    var added := AddAll(s, Prefix(ids, fault.count));
    if fault.MidAddition? && fault.count < |ids| then added.(retry := added.retry + {ids[fault.count]}) else added
  }

  /** What a lookup leaves: after the picks the watermark is written, and last the block cursor. */
  function Lookup(s: State, ready: map<nat, string>, claimed: seq<nat>, checkedTo: int, fault: Fault): State {
    var purged := s.(retry := Live(s));
    var picks := Ascending(ToClaim(s, ready, claimed).Keys);
    if fault.AfterRemovals? || fault.MidRemoval? then PartlyRemoved(purged, claimed, fault)
    else if fault.AfterAdditions? || fault.MidAddition? then PartlyAdded(RemoveAll(purged, claimed), picks, fault)
    else
      var raised := Gathered(s, ready, claimed).(latest := Raise(s.latest, claimed));
      if fault.AfterWatermark? then raised else raised.(nextT1Block := Claims.AutolowerCursor(checkedTo))
  }

  class RedisAutolower {
    var retry: set<nat>
    var alive: set<nat>
    var latest: int
    var nextT1Block: int

    constructor ()
      ensures Value() == State({}, {}, -1, 0)
    {
      retry, alive, latest, nextT1Block := {}, {}, -1, 0;
    }

    ghost function Value(): State
      reads this
    {
      State(retry, alive, latest, nextT1Block)
    }

    method AddAutolower(lowerId: nat)
      modifies this
      ensures Value() == Add(old(Value()), lowerId)
    {
      if lowerId !in retry {
        retry := retry + {lowerId};
        alive := alive + {lowerId};
      }
    }

    method RemoveAutolower(lowerId: nat)
      modifies this
      ensures Value() == Remove(old(Value()), lowerId)
    {
      retry := retry - {lowerId};
      alive := alive - {lowerId};
    }

    /** The live ids of the retry set; the expired ones are removed on the way. */
    method GetAutolowers() returns (liveLowerIds: set<nat>)
      modifies this
      ensures liveLowerIds == Live(old(Value()))
      ensures Value() == old(Value()).(retry := Live(old(Value())))
    {
      liveLowerIds := {};
      var members := retry;
      while members != {}
        invariant members <= old(retry)
        invariant liveLowerIds == (old(retry) - members) * old(alive)
        invariant Value() == old(Value()).(retry := members + liveLowerIds)
        decreases members
      {
        var lowerId := Least(members);
        members := members - {lowerId};
        if lowerId in alive {
          liveLowerIds := liveLowerIds + {lowerId};
        } else {
          RemoveAutolower(lowerId);
        }
      }
    }

    method GetLowersToClaim(ready: map<nat, string>, recentClaims: seq<nat>, checkedToT1Block: int, fault: Fault)
      returns (ok: bool, lowerProofs: map<nat, string>)
      modifies this
      ensures Value() == Lookup(old(Value()), ready, recentClaims, checkedToT1Block, fault)
      ensures ok <==> fault.NoFault?
      ensures ok ==> lowerProofs == ToClaim(old(Value()), ready, recentClaims)
    {
      var latestLowerId := latest;
      var unresolvedLowerIds := GetAutolowers();
      ghost var purged := Value();
      lowerProofs := map n | n in ready && (n > latestLowerId || n in unresolvedLowerIds) :: ready[n];
      ghost var found := lowerProofs;
      for i := 0 to |recentClaims|
        invariant fault.AfterRemovals? || fault.MidRemoval? ==> i <= fault.count
        invariant Value() == RemoveAll(purged, recentClaims[..i])
        invariant lowerProofs == map n | n in found && n !in recentClaims[..i] :: found[n]
        invariant latestLowerId == Raise(old(latest), recentClaims[..i])
      {
        if fault == AfterRemovals(i) {
          return false, lowerProofs;
        }
        if fault == MidRemoval(i) {
          retry := retry - {recentClaims[i]};
          return false, lowerProofs;
        }
        assert recentClaims[..i + 1] == recentClaims[..i] + [recentClaims[i]];
        RemoveAutolower(recentClaims[i]);
        lowerProofs := lowerProofs - {recentClaims[i]};
        latestLowerId := Max(latestLowerId, recentClaims[i]);
      }
      assert recentClaims[..|recentClaims|] == recentClaims;
      if fault.AfterRemovals? || fault.MidRemoval? {
        return false, lowerProofs;
      }
      assert lowerProofs == ToClaim(old(Value()), ready, recentClaims);
      ok := AddPicks(Ascending(lowerProofs.Keys), fault);
      if ok {
        latest := latestLowerId;
        if fault.AfterWatermark? {
          return false, lowerProofs;
        }
        nextT1Block := Claims.AutolowerCursor(checkedToT1Block);
      }
    }

    method AddPicks(picks: seq<nat>, fault: Fault) returns (ok: bool)
      modifies this
      ensures ok <==> !(fault.AfterAdditions? || fault.MidAddition?)
      ensures Value() == if ok then AddAll(old(Value()), picks) else PartlyAdded(old(Value()), picks, fault)
    {
      for i := 0 to |picks|
        invariant fault.AfterAdditions? || fault.MidAddition? ==> i <= fault.count
        invariant Value() == AddAll(old(Value()), picks[..i])
      {
        if fault == AfterAdditions(i) {
          return false;
        }
        if fault == MidAddition(i) {
          retry := retry + {picks[i]};
          return false;
        }
        assert picks[..i + 1][..i] == picks[..i];
        AddAutolower(picks[i]);
      }
      assert picks[..|picks|] == picks;
      ok := !(fault.AfterAdditions? || fault.MidAddition?);
    }
  }

  // ---- Nothing eligible is lost ----

  /** A ready lower will be picked up by the next lookup. */
  predicate Eligible(s: State, n: nat) {
    n > s.latest || n in Live(s)
  }

  lemma {:induction false} RemoveAllKeeps(s: State, ids: seq<nat>, n: nat)
    requires n !in ids
    ensures n in Live(RemoveAll(s, ids)) <==> n in Live(s)
    ensures RemoveAll(s, ids).retry <= s.retry && RemoveAll(s, ids).latest == s.latest
  {
    if ids != [] {
      RemoveAllKeeps(s, ids[..|ids| - 1], n);
    }
  }

  lemma {:induction false} RemoveAllRemoves(s: State, ids: seq<nat>)
    ensures forall n | n in ids :: n !in RemoveAll(s, ids).retry
  {
    if ids != [] {
      RemoveAllRemoves(s, ids[..|ids| - 1]);
      assert ids == ids[..|ids| - 1] + [ids[|ids| - 1]];
    }
  }

  lemma {:induction false} AddAllAdds(s: State, ids: seq<nat>)
    requires forall n | n in ids && n in s.retry :: n in s.alive
    ensures Live(s) <= Live(AddAll(s, ids)) && (forall n | n in ids :: n in Live(AddAll(s, ids)))
    ensures AddAll(s, ids).latest == s.latest
    ensures forall n | n in AddAll(s, ids).retry :: n in s.retry || n in ids
  {
    if ids != [] {
      var front, n := ids[..|ids| - 1], ids[|ids| - 1];
      AddAllAdds(s, front);
      assert ids == front + [n];
      assert n in AddAll(s, front).retry ==> n in Live(AddAll(s, front));
    }
  }

  lemma {:induction false} RaiseCovers(latest: int, ids: seq<nat>)
    ensures Raise(latest, ids) >= latest && forall n | n in ids :: n <= Raise(latest, ids)
    ensures Raise(latest, ids) == latest || Raise(latest, ids) in ids
  {
    if ids != [] {
      RaiseCovers(latest, ids[..|ids| - 1]);
      assert ids == ids[..|ids| - 1] + [ids[|ids| - 1]];
    }
  }

  /** The lower is above the watermark and above every claimed id. */
  predicate AboveAll(s: State, claimed: seq<nat>, n: nat) {
    n > s.latest && forall c | c in claimed :: c < n
  }

  lemma PurgedThenRemoved(s: State, ids: seq<nat>, n: nat)
    requires n !in ids
    ensures var r := RemoveAll(s.(retry := Live(s)), ids);
            && (n in Live(r) <==> n in Live(s)) && (n in r.retry ==> n in r.alive) && r.latest == s.latest
  {
    var purged := s.(retry := Live(s));
    assert Live(purged) == Live(s);
    RemoveAllKeeps(purged, ids, n);
  }

  /** No pick stands in the purged retry set with an expired lifetime, and the picks are the ids to claim. */
  lemma PicksAreFresh(s: State, ready: map<nat, string>, claimed: seq<nat>)
    ensures var base, picks := RemoveAll(s.(retry := Live(s)), claimed), Ascending(ToClaim(s, ready, claimed).Keys);
            && (forall n | n in picks && n in base.retry :: n in base.alive)
            && (forall n :: n in picks <==> n in ToClaim(s, ready, claimed))
  {
    var base, picks := RemoveAll(s.(retry := Live(s)), claimed), Ascending(ToClaim(s, ready, claimed).Keys);
    AscendingLists(ToClaim(s, ready, claimed).Keys);
    forall n | n in picks && n in base.retry ensures n in base.alive {
      PurgedThenRemoved(s, claimed, n);
    }
  }

  /** The live retry set before the watermark is written: what was live and not claimed, and the picks. */
  lemma GatheredHolds(s: State, ready: map<nat, string>, claimed: seq<nat>, n: nat)
    requires n !in claimed
    ensures n in Live(Gathered(s, ready, claimed)) <==> n in Live(s) || n in ToClaim(s, ready, claimed)
  {
    PurgedThenRemoved(s, claimed, n);
    PicksAreFresh(s, ready, claimed);
    AddAllAdds(RemoveAll(s.(retry := Live(s)), claimed), Ascending(ToClaim(s, ready, claimed).Keys));
  }

  /** Raising the watermark to a claimed id drops nothing: a ready, unclaimed lower that was above the old watermark or
      in the live retry set is returned and stands, live, in the retry set when the lookup ends. */
  lemma WatermarkDropsNothing(s: State, ready: map<nat, string>, claimed: seq<nat>, checkedTo: int, n: nat)
    requires n in ready && n !in claimed && Eligible(s, n)
    ensures n in ToClaim(s, ready, claimed)
    ensures n in Live(Lookup(s, ready, claimed, checkedTo, NoFault))
  {
    GatheredHolds(s, ready, claimed, n);
  }

  /** A lookup that dies keeps an eligible lower eligible if and only if it died before the watermark was written, or
      the lower is ready, or live in the retry set, or above the watermark and every claimed id. */
  lemma BrokenLookupDropsNothing(s: State, ready: map<nat, string>, claimed: seq<nat>, checkedTo: int,
                                 fault: Fault, n: nat)
    requires !fault.NoFault? && n !in claimed && Eligible(s, n)
    ensures Eligible(Lookup(s, ready, claimed, checkedTo, fault), n) <==>
            !fault.AfterWatermark? || n in ready || n in Live(s) || AboveAll(s, claimed, n)
  {
    if fault.AfterWatermark? {
      GatheredHolds(s, ready, claimed, n);
      RaiseCovers(s.latest, claimed);
    } else if fault.AfterRemovals? || fault.MidRemoval? {
      PurgedThenRemoved(s, Prefix(claimed, fault.count), n);
    } else {
      PartlyGathered(s, ready, claimed, fault, n);
    }
  }

  lemma PartlyGathered(s: State, ready: map<nat, string>, claimed: seq<nat>, fault: Fault, n: nat)
    requires (fault.AfterAdditions? || fault.MidAddition?) && n !in claimed
    ensures var end := Lookup(s, ready, claimed, 0, fault);
            end.latest == s.latest && (n in Live(s) ==> n in Live(end))
  {
    var picks := Prefix(Ascending(ToClaim(s, ready, claimed).Keys), fault.count);
    PicksAreFresh(s, ready, claimed);
    assert forall m | m in picks :: m in Ascending(ToClaim(s, ready, claimed).Keys);
    PurgedThenRemoved(s, claimed, n);
    AddAllAdds(RemoveAll(s.(retry := Live(s)), claimed), picks);
  }

  /** A lower that is not ready yet is dropped by a complete lookup unless it is live in the retry set or above the
      watermark and every claimed id: once it is ready, no lookup sees it. */
  lemma NotReadyMayBeDropped(s: State, ready: map<nat, string>, claimed: seq<nat>, checkedTo: int, n: nat)
    requires n !in ready && n !in claimed
    ensures Eligible(Lookup(s, ready, claimed, checkedTo, NoFault), n) <==> n in Live(s) || AboveAll(s, claimed, n)
  {
    GatheredHolds(s, ready, claimed, n);
    RaiseCovers(s.latest, claimed);
  }

  /** A lookup returns exactly the ready lowers that are above the watermark or live in the retry set and were not
      claimed, each with its own proof. */
  lemma LookupReturns(s: State, ready: map<nat, string>, claimed: seq<nat>, n: nat)
    ensures var found := ToClaim(s, ready, claimed);
            && (n in found <==> n in ready && (n > s.latest || (n in s.retry && n in s.alive)) && n !in claimed)
            && (n in found ==> found[n] == ready[n])
  {
  }

  /** Claims leave the retry set, and what a complete lookup leaves there is what it returned and what was live. */
  lemma RetrySetAfterLookup(s: State, ready: map<nat, string>, claimed: seq<nat>, checkedTo: int, n: nat)
    ensures var end := Lookup(s, ready, claimed, checkedTo, NoFault);
            && (n in end.retry <==> n !in claimed && (n in ToClaim(s, ready, claimed) || n in Live(s)))
            && (n in end.retry ==> n in end.alive)
  {
    var base, picks := RemoveAll(s.(retry := Live(s)), claimed), Ascending(ToClaim(s, ready, claimed).Keys);
    PicksAreFresh(s, ready, claimed);
    AddAllAdds(base, picks);
    if n in claimed {
      RemoveAllRemoves(s.(retry := Live(s)), claimed);
    } else {
      GatheredHolds(s, ready, claimed, n);
      PurgedThenRemoved(s, claimed, n);
    }
  }

  /** A complete lookup raises the watermark to the highest id claimed and lets the next claim query start one block
      past the last one checked; one that dies moves the block cursor never, the watermark only at its last write. */
  lemma CursorsAfterLookup(s: State, ready: map<nat, string>, claimed: seq<nat>, checkedTo: int, fault: Fault)
    ensures var end := Lookup(s, ready, claimed, checkedTo, fault);
            && end.nextT1Block == (if fault.NoFault? then checkedTo + 1 else s.nextT1Block)
            && (fault.NoFault? || fault.AfterWatermark? ==>
                  && s.latest <= end.latest && (forall c | c in claimed :: c <= end.latest)
                  && (end.latest == s.latest || end.latest in claimed))
            && (!fault.NoFault? && !fault.AfterWatermark? ==> end.latest == s.latest)
  {
    RaiseCovers(s.latest, claimed);
    LatestStays(s.(retry := Live(s)), claimed, Ascending(ToClaim(s, ready, claimed).Keys));
    if fault.AfterRemovals? || fault.MidRemoval? {
      LatestStays(s.(retry := Live(s)), Prefix(claimed, fault.count), []);
    } else if fault.AfterAdditions? || fault.MidAddition? {
      LatestStays(s.(retry := Live(s)), claimed, Prefix(Ascending(ToClaim(s, ready, claimed).Keys), fault.count));
    }
  }

  lemma {:induction false} LatestStays(s: State, removed: seq<nat>, added: seq<nat>)
    ensures var end := AddAll(RemoveAll(s, removed), added);
            end.latest == s.latest && end.nextT1Block == s.nextT1Block
    decreases |removed|, |added|
  {
    if added != [] {
      LatestStays(s, removed, added[..|added| - 1]);
    } else if removed != [] {
      LatestStays(s, removed[..|removed| - 1], []);
    }
  }

  /** An id that stands in the retry set gets no new lifetime by being added again. */
  lemma AddedOnce(s: State, n: nat)
    ensures var end := Add(s, n);
            && n in end.retry
            && (n in end.alive <==> n !in s.retry || n in s.alive)
            && (forall m | m != n :: (m in end.retry <==> m in s.retry) && (m in end.alive <==> m in s.alive))
  {
  }

  // ---- Claim attempts ----

  /** checkLower: its verdict on a proof, or an error, which may be about the argument itself. */
  datatype Check = Checked(claimed: bool, valid: bool, required: nat, provided: nat, amount: nat)
                 | CheckError(invalidArgument: bool)

  /** claimLower: mined (successfully or reverted), or refused with an error code. The code handles a reverted receipt;
      with version 5 of ethers waiting for one rejects instead, which is `OtherError`. */
  datatype ClaimResult = Mined(succeeded: bool) | InsufficientFunds | InvalidArgument | UnpredictableGas(recheck: Check)
                       | OtherError

  /** Whether an attempt closes the lower (removes it from the retry set) or leaves it for a later pass. */
  method AttemptCloses(check: Check, minimumAmount: nat, result: ClaimResult) returns (closes: bool)
    ensures closes <==> Closes(check, minimumAmount, result)
  {
    match check
    case CheckError(invalidArgument) => closes := invalidArgument;
    case Checked(claimed, valid, required, provided, amount) =>
      if claimed {
        return true;
      }
      if !valid {
        return !MoreNeeded(required, provided);
      }
      if amount < minimumAmount {
        return true;
      }
      match result
      case Mined(_) => return true;
      case InsufficientFunds => return false;
      case InvalidArgument => return true;
      case OtherError => return false;
      case UnpredictableGas(recheck) =>
        if recheck.CheckError? {
          return false;
        }
        return recheck.claimed || (!recheck.valid && !MoreNeeded(recheck.required, recheck.provided));
  }

  /** `required > provided` of two contract numbers, which JavaScript compares as decimal texts. */
  predicate MoreNeeded(required: nat, provided: nat) {
    LexLt(Decimal(provided), Decimal(required))
  }

  /** An invalid proof that is not taken to wait for more confirmations. */
  predicate Hopeless(check: Check) {
    check.Checked? && !check.claimed && !check.valid && !MoreNeeded(check.required, check.provided)
  }

  predicate Claimable(check: Check, minimumAmount: nat) {
    check.Checked? && !check.claimed && check.valid && check.amount >= minimumAmount
  }

  /** A lower is closed when it is found claimed or hopeless, is too small, is malformed, or its claim was mined. */
  predicate Closes(check: Check, minimumAmount: nat, result: ClaimResult) {
    || check == CheckError(true)
    || (check.Checked? && check.claimed) || Hopeless(check)
    || (check.Checked? && check.valid && check.amount < minimumAmount)
    || (Claimable(check, minimumAmount) &&
        (result.Mined? || result.InvalidArgument? ||
         (result.UnpredictableGas? &&
          ((result.recheck.Checked? && result.recheck.claimed) || Hopeless(result.recheck)))))
  }

  /** The proof is invalid and waits for confirmations. */
  predicate Waits(check: Check) {
    check.Checked? && !check.claimed && !check.valid && LexLt(Decimal(check.provided), Decimal(check.required))
  }

  /** The attempts after which a lower is tried again: its check failed for another reason than its argument, its proof
      waits for confirmations, or its claim, worth making, met no funds, an unknown error, or an unpredictable gas limit
      whose recheck failed, found the proof valid, or found it waiting. */
  predicate TriedAgain(check: Check, minimumAmount: nat, result: ClaimResult) {
    || (check.CheckError? && !check.invalidArgument)
    || Waits(check)
    || (check.Checked? && !check.claimed && check.valid && minimumAmount <= check.amount &&
        match result
        case Mined(_) => false
        case InsufficientFunds => true
        case InvalidArgument => false
        case OtherError => true
        case UnpredictableGas(recheck) => recheck.CheckError? || (!recheck.claimed && recheck.valid) || Waits(recheck))
  }

  /** Every attempt either closes its lower or leaves it to be tried again. */
  lemma ClosedOrTriedAgain(check: Check, minimumAmount: nat, result: ClaimResult)
    ensures Closes(check, minimumAmount, result) <==> !TriedAgain(check, minimumAmount, result)
  {
  }

  /** Closing takes the lower out of the retry set; nothing else changes by an attempt. */
  lemma ClosedIsRemoved(s: State, n: nat, check: Check, minimumAmount: nat, result: ClaimResult)
    ensures var end := Step(s, Attempt(n, check, minimumAmount, result));
            if TriedAgain(check, minimumAmount, result) then end == s
            else n !in end.retry && n !in end.alive && end.latest == s.latest && end.nextT1Block == s.nextT1Block &&
                 forall m | m != n :: (m in end.retry <==> m in s.retry) && (m in end.alive <==> m in s.alive)
  {
    ClosedOrTriedAgain(check, minimumAmount, result);
  }

  /** The numbers have equally many digits, or the shorter is at most the leading digits of the longer. */
  predicate TextsAgree(m: nat, n: nat) {
    var a, b := |Decimal(m)|, |Decimal(n)|;
    a == b || (a < b && m <= Leading(n, b - a)) || (b < a && n <= Leading(m, a - b))
  }

  /** Comparing the texts tells whether confirmations are missing if and only if the texts agree with the numbers. */
  lemma TextComparison(required: nat, provided: nat)
    ensures (MoreNeeded(required, provided) <==> provided < required) <==> TextsAgree(required, provided)
  {
    var r, p := |Decimal(required)|, |Decimal(provided)|;
    LexTotal(Decimal(required), Decimal(provided));
    if r == p {
      DecimalOrder(provided, required);
    } else if p < r {
      ShorterFirst(provided, required);
    } else {
      ShorterFirst(required, provided);
      if LexLt(Decimal(required), Decimal(provided)) {
        LexAsymmetric(Decimal(required), Decimal(provided));
      }
    }
  }

  /** An invalid, unclaimed proof that only lacks confirmations closes its lower if and only if the number provided is
      shorter and above the leading digits of the number required; one that lacks none stays open if and only if the
      number required is shorter and above the leading digits of the number provided. */
  lemma InvalidProofCloses(check: Check, minimumAmount: nat, result: ClaimResult)
    requires check.Checked? && !check.claimed && !check.valid
    ensures Closes(check, minimumAmount, result) <==>
            if check.provided < check.required then !TextsAgree(check.required, check.provided)
            else TextsAgree(check.required, check.provided)
  {
    TextComparison(check.required, check.provided);
  }

  /** Ten required and nine provided: the lower is closed although one confirmation would do. Nine required and ten
      provided: it is never closed. */
  lemma TenAgainstNine(minimumAmount: nat, amount: nat, result: ClaimResult)
    ensures Closes(Checked(false, false, 10, 9, amount), minimumAmount, result)
    ensures !Closes(Checked(false, false, 9, 10, amount), minimumAmount, result)
  {
    assert Decimal(10) == "10" && Decimal(9) == "9";
  }

  // ---- Runs ----

  /** A lookup, a claim attempt on a lower, or the end of a lower's retry lifetime. */
  datatype Op = Look(ready: map<nat, string>, claimed: seq<nat>, checkedTo: int, fault: Fault)
              | Attempt(lowerId: nat, check: Check, minimumAmount: nat, result: ClaimResult)
              | Expire(lowerId: nat)

  function Step(s: State, op: Op): State {
    match op
    case Look(ready, claimed, checkedTo, fault) => Lookup(s, ready, claimed, checkedTo, fault)
    case Attempt(n, check, minimumAmount, result) => if Closes(check, minimumAmount, result) then Remove(s, n) else s
    case Expire(n) => s.(alive := s.alive - {n})
  }

  /** The lower is not reported claimed, is not closed, and its retry lifetime does not end. */
  predicate Spares(op: Op, n: nat) {
    match op
    case Look(_, claimed, _, _) => n !in claimed
    case Attempt(m, check, minimumAmount, result) => m == n ==> !Closes(check, minimumAmount, result)
    case Expire(m) => m != n
  }

  function Steps(s: State, ops: seq<Op>): State
    decreases |ops|
  {
    if ops == [] then s else Steps(Step(s, ops[0]), ops[1..])
  }

  /** A lookup that comes to write the watermark passes an eligible lower over: it is not ready, not live in the retry
      set, and not above the watermark and every claimed id. */
  predicate PassesOver(s: State, op: Op, n: nat) {
    && op.Look? && (op.fault.NoFault? || op.fault.AfterWatermark?)
    && !(n in op.ready || n in Live(s) || AboveAll(s, op.claimed, n))
  }

  lemma StepKeepsEligible(s: State, op: Op, n: nat)
    requires Eligible(s, n) && Spares(op, n)
    ensures Eligible(Step(s, op), n) <==> !PassesOver(s, op, n)
  {
    if op.Look? {
      if !op.fault.NoFault? {
        BrokenLookupDropsNothing(s, op.ready, op.claimed, op.checkedTo, op.fault, n);
      } else if n in op.ready {
        WatermarkDropsNothing(s, op.ready, op.claimed, op.checkedTo, n);
      } else {
        NotReadyMayBeDropped(s, op.ready, op.claimed, op.checkedTo, n);
      }
    }
  }

  predicate AlwaysEligible(s: State, ops: seq<Op>, n: nat)
    decreases |ops|
  {
    Eligible(s, n) && (ops == [] || AlwaysEligible(Step(s, ops[0]), ops[1..], n))
  }

  predicate NeverPassedOver(s: State, ops: seq<Op>, n: nat)
    decreases |ops|
  {
    ops == [] || (!PassesOver(s, ops[0], n) && NeverPassedOver(Step(s, ops[0]), ops[1..], n))
  }

  lemma LiveStep(s: State, op: Op, n: nat)
    requires n in Live(s) && Spares(op, n)
    ensures n in Live(Step(s, op))
  {
    if op.Look? {
      if op.fault.AfterRemovals? || op.fault.MidRemoval? {
        PurgedThenRemoved(s, Prefix(op.claimed, op.fault.count), n);
      } else if op.fault.AfterAdditions? || op.fault.MidAddition? {
        PartlyGathered(s, op.ready, op.claimed, op.fault, n);
      } else {
        GatheredHolds(s, op.ready, op.claimed, n);
      }
    }
  }

  /** A lower live in the retry set stays there, ready or not, until it is claimed, closed or past its lifetime, through
      whatever watermark raises, broken lookups, attempts and expiries of other lowers. */
  lemma {:induction false} LiveStaysLive(s: State, ops: seq<Op>, n: nat)
    requires n in Live(s) && forall i | 0 <= i < |ops| :: Spares(ops[i], n)
    ensures n in Live(Steps(s, ops)) && NeverPassedOver(s, ops, n)
    decreases |ops|
  {
    if ops != [] {
      LiveStep(s, ops[0], n);
      LiveStaysLive(Step(s, ops[0]), ops[1..], n);
    }
  }

  /** Over runs in which it is not claimed, closed or past its lifetime, a lower is eligible in every state if and only
      if no lookup that wrote the watermark passed it over; the next lookup that finds it ready then returns it. */
  lemma {:induction false} StaysEligible(s: State, ops: seq<Op>, n: nat, ready: map<nat, string>, claimed: seq<nat>)
    requires Eligible(s, n) && forall i | 0 <= i < |ops| :: Spares(ops[i], n)
    ensures AlwaysEligible(s, ops, n) <==> NeverPassedOver(s, ops, n)
    ensures NeverPassedOver(s, ops, n) && n in ready && n !in claimed ==> n in ToClaim(Steps(s, ops), ready, claimed)
    decreases |ops|
  {
    if ops != [] {
      StepKeepsEligible(s, ops[0], n);
      if !PassesOver(s, ops[0], n) {
        StaysEligible(Step(s, ops[0]), ops[1..], n, ready, claimed);
      }
    }
  }

  lemma DroppedStep(s: State, op: Op, n: nat)
    requires !Eligible(s, n)
    ensures !Eligible(Step(s, op), n)
  {
    if op.Look? {
      CursorsAfterLookup(s, op.ready, op.claimed, op.checkedTo, op.fault);
      NotLiveAfterLookup(s, op.ready, op.claimed, op.checkedTo, op.fault, n);
    }
  }

  lemma NotLiveAfterLookup(s: State, ready: map<nat, string>, claimed: seq<nat>, checkedTo: int, fault: Fault, n: nat)
    requires !Eligible(s, n)
    ensures n !in Live(Lookup(s, ready, claimed, checkedTo, fault))
  {
    var purged, picks := s.(retry := Live(s)), Ascending(ToClaim(s, ready, claimed).Keys);
    AscendingLists(ToClaim(s, ready, claimed).Keys);
    assert n !in picks;
    if fault.AfterRemovals? || fault.MidRemoval? {
      StaysOut(purged, Prefix(claimed, fault.count), [], n);
      assert n !in RemoveAll(purged, Prefix(claimed, fault.count)).retry;
      assert n !in PartlyRemoved(purged, claimed, fault).retry;
    } else if fault.AfterAdditions? || fault.MidAddition? {
      assert forall m | m in Prefix(picks, fault.count) :: m in picks;
      StaysOut(purged, claimed, Prefix(picks, fault.count), n);
      assert fault.count < |picks| ==> picks[fault.count] in picks;
      assert n !in PartlyAdded(RemoveAll(purged, claimed), picks, fault).retry;
    } else {
      StaysOut(purged, claimed, picks, n);
    }
  }

  lemma {:induction false} StaysOut(s: State, removed: seq<nat>, added: seq<nat>, n: nat)
    requires n !in s.retry && n !in added
    ensures n !in AddAll(RemoveAll(s, removed), added).retry
    decreases |removed|, |added|
  {
    if added != [] {
      StaysOut(s, removed, added[..|added| - 1], n);
    } else if removed != [] {
      StaysOut(s, removed[..|removed| - 1], [], n);
    }
  }

  /** A lower that is no longer eligible, dropped by a watermark, closed or past its lifetime, is never returned again.
      */
  lemma {:induction false} DroppedStaysDropped(s: State, ops: seq<Op>, n: nat, ready: map<nat, string>,
                                               claimed: seq<nat>)
    requires !Eligible(s, n)
    ensures !Eligible(Steps(s, ops), n) && n !in ToClaim(Steps(s, ops), ready, claimed)
    decreases |ops|
  {
    if ops != [] {
      DroppedStep(s, ops[0], n);
      DroppedStaysDropped(Step(s, ops[0]), ops[1..], n, ready, claimed);
    }
  }
}
