/** The vote tally of a proposal: signed weights per voter, and the two running scores. */
module Votes {
  import opened Options

  /** Recorded votes by public key, positive for and negative against; `scores` are the totals for and against. */
  datatype Proposal = Proposal(votes: map<string, int>, for_: int, against: int)

  const NO_VOTES := Proposal(map[], 0, 0)

  function ChangeVote(p: Proposal, voter: string, vote: bool): Proposal
    requires voter in p.votes
  {
    var weightedVote := p.votes[voter];
    if vote == (weightedVote > 0) then p
    else Proposal(p.votes[voter := -weightedVote], p.for_ - weightedVote, p.against + weightedVote)
  }

  function FirstVote(p: Proposal, voter: string, vote: bool, weight: nat): Proposal {
    if weight == 0 then p
    else if vote then Proposal(p.votes[voter := weight], p.for_ + weight, p.against)
    else Proposal(p.votes[voter := 0 - weight], p.for_, p.against + weight)
  }

  function Cast(p: Proposal, voter: string, vote: bool, weight: nat): Proposal {
    if voter in p.votes then ChangeVote(p, voter, vote) else FirstVote(p, voter, vote, weight)
  }

  datatype Answer = Success | Inactive | InvalidSignature | FailedToVote | ZeroBalance

  class ProposalData {
    var votes: map<string, int>
    var scores0: int
    var scores1: int

    constructor ()
      ensures Value() == NO_VOTES
    {
      votes, scores0, scores1 := map[], 0, 0;
    }

    ghost function Value(): Proposal
      reads this
    {
      Proposal(votes, scores0, scores1)
    }

    method ChangeVoteAndUpdateProposal(publicKey: string, vote: bool)
      requires publicKey in votes
      modifies this
      ensures Value() == ChangeVote(old(Value()), publicKey, vote)
    {
      var weightedVote := votes[publicKey];
      var existingVote := weightedVote > 0;
      if vote != existingVote {
        scores0 := scores0 - weightedVote;
        scores1 := scores1 + weightedVote;
        votes := votes[publicKey := weightedVote * -1];
      }
    }

    method WeightVoteAndUpdateProposal(publicKey: string, vote: bool, weightedVote: Option<nat>)
      returns (answer: Answer)
      modifies this
      ensures Value() == if weightedVote.Some? then FirstVote(old(Value()), publicKey, vote, weightedVote.value)
                         else old(Value())
      ensures answer == if weightedVote.None? then FailedToVote
                        else if weightedVote.value == 0 then ZeroBalance else Success
    {
      if weightedVote.None? {
        return FailedToVote;
      } else if weightedVote.value == 0 {
        return ZeroBalance;
      }
      if vote {
        scores0 := scores0 + weightedVote.value;
        votes := votes[publicKey := weightedVote.value];
      } else {
        scores1 := scores1 + weightedVote.value;
        votes := votes[publicKey := weightedVote.value * -1];
      }
      answer := Success;
    }

    method CheckVoteAndUpdateProposal(publicKey: string, vote: bool, active: bool, signed: bool, weight: Option<nat>)
      returns (answer: Answer)
      modifies this
      ensures answer == Success ==>
                active && signed &&
                Value() == Cast(old(Value()), publicKey, vote, if weight.Some? then weight.value else 0)
      ensures answer != Success ==> Value() == old(Value())
      ensures answer == Success <==>
              active && signed && (publicKey in old(votes) || (weight.Some? && weight.value != 0))
      ensures answer == Inactive <==> !active
      ensures answer == InvalidSignature <==> active && !signed
      ensures answer == FailedToVote <==> active && signed && publicKey !in old(votes) && weight.None?
    {
      if !active {
        return Inactive;
      }
      if !signed {
        return InvalidSignature;
      }
      if publicKey in votes {
        ChangeVoteAndUpdateProposal(publicKey, vote);
        answer := Success;
      } else {
        answer := WeightVoteAndUpdateProposal(publicKey, vote, weight);
      }
    }
  }

  // ---- Scores are sums over the recorded votes ----

  function Part(vote: int, side: bool): int {
    if side && vote > 0 then vote else if !side && vote < 0 then -vote else 0
  }

  ghost function Sum(votes: map<string, int>, side: bool): int {
    if votes == map[] then 0 else
      var v :| v in votes;
      Part(votes[v], side) + Sum(votes - {v}, side)
  }

  lemma {:induction false} SumSplits(votes: map<string, int>, side: bool, voter: string)
    requires voter in votes
    ensures Sum(votes, side) == Part(votes[voter], side) + Sum(votes - {voter}, side)
  {
    var v :| v in votes && Sum(votes, side) == Part(votes[v], side) + Sum(votes - {v}, side);
    if v != voter {
      SumSplits(votes - {v}, side, voter);
      SumSplits(votes - {voter}, side, v);
      assert votes - {v} - {voter} == votes - {voter} - {v};
    }
  }

  lemma SumAfterUpdate(votes: map<string, int>, side: bool, voter: string, vote: int)
    ensures Sum(votes[voter := vote], side) ==
            Sum(votes, side) + Part(vote, side) - (if voter in votes then Part(votes[voter], side) else 0)
  {
    SumSplits(votes[voter := vote], side, voter);
    if voter in votes {
      SumSplits(votes, side, voter);
      assert votes[voter := vote] - {voter} == votes - {voter};
    } else {
      assert votes[voter := vote] - {voter} == votes;
    }
  }

  /** Scores are the sums of the votes for and of the magnitudes of the votes against; nobody is recorded with zero. */
  ghost predicate Tallied(p: Proposal) {
    && p.for_ == Sum(p.votes, true) && p.against == Sum(p.votes, false)
    && forall v | v in p.votes :: p.votes[v] != 0
  }

  lemma CastKeepsTally(p: Proposal, voter: string, vote: bool, weight: nat)
    requires Tallied(p)
    ensures Tallied(Cast(p, voter, vote, weight))
    ensures voter in p.votes ==>
              var end := Cast(p, voter, vote, weight); end.for_ + end.against == p.for_ + p.against
  {
    var end := Cast(p, voter, vote, weight);
    if end != p {
      SumAfterUpdate(p.votes, true, voter, end.votes[voter]);
      SumAfterUpdate(p.votes, false, voter, end.votes[voter]);
    }
  }

  // ---- Runs ----

  /** An accepted request; the weight is the voter's balance at the proposal's fixed block. */
  datatype Ballot = Ballot(voter: string, vote: bool)

  function Run(p: Proposal, ballots: seq<Ballot>, weights: string -> nat): Proposal {
    if ballots == [] then p else
      var b := ballots[|ballots| - 1];
      Cast(Run(p, ballots[..|ballots| - 1], weights), b.voter, b.vote, weights(b.voter))
  }

  function LastVote(ballots: seq<Ballot>, voter: string): Option<bool> {
    if ballots == [] then None
    else if ballots[|ballots| - 1].voter == voter then Some(ballots[|ballots| - 1].vote)
    else LastVote(ballots[..|ballots| - 1], voter)
  }

  function Signed(weight: nat, vote: bool): int {
    if vote then weight else 0 - weight
  }

  /** After any ballots the scores are the sums, and each voter's record is its weight with the sign of its last vote.
      */
  lemma {:induction false} RunDependsOnLastVotes(ballots: seq<Ballot>, weights: string -> nat)
    ensures var end := Run(NO_VOTES, ballots, weights);
            && Tallied(end)
            && (forall v :: v in end.votes <==> LastVote(ballots, v).Some? && weights(v) > 0)
            && (forall v | v in end.votes :: end.votes[v] == Signed(weights(v), LastVote(ballots, v).value))
  {
    if ballots != [] {
      var front, b := ballots[..|ballots| - 1], ballots[|ballots| - 1];
      RunDependsOnLastVotes(front, weights);
      CastKeepsTally(Run(NO_VOTES, front, weights), b.voter, b.vote, weights(b.voter));
    }
  }

  /** Two runs in which every voter ends with the same vote end in the same proposal. */
  lemma SameLastVotesSameProposal(a: seq<Ballot>, b: seq<Ballot>, weights: string -> nat)
    requires forall v :: LastVote(a, v) == LastVote(b, v)
    ensures Run(NO_VOTES, a, weights) == Run(NO_VOTES, b, weights)
  {
    RunDependsOnLastVotes(a, weights);
    RunDependsOnLastVotes(b, weights);
    var x, y := Run(NO_VOTES, a, weights), Run(NO_VOTES, b, weights);
    assert forall v :: v in x.votes <==> v in y.votes;
    assert x.votes == y.votes;
  }

  lemma {:induction false} LastVoteConcat(a: seq<Ballot>, b: seq<Ballot>, voter: string)
    ensures LastVote(a + b, voter) == if LastVote(b, voter).Some? then LastVote(b, voter) else LastVote(a, voter)
  {
    if b == [] {
      assert a + b == a;
    } else {
      assert (a + b)[..|a + b| - 1] == a + b[..|b| - 1];
      LastVoteConcat(a, b[..|b| - 1], voter);
    }
  }

  /** Adjacent ballots of different voters commute. */
  lemma NeighboursCommute(a: seq<Ballot>, x: Ballot, y: Ballot, b: seq<Ballot>, weights: string -> nat)
    requires x.voter != y.voter
    ensures Run(NO_VOTES, a + [x, y] + b, weights) == Run(NO_VOTES, a + [y, x] + b, weights)
  {
    forall v ensures LastVote(a + [x, y] + b, v) == LastVote(a + [y, x] + b, v) {
      LastVoteConcat(a + [x, y], b, v);
      LastVoteConcat(a + [y, x], b, v);
      LastVoteConcat(a, [x, y], v);
      LastVoteConcat(a, [y, x], v);
      assert [x, y][..1] == [x] && [y, x][..1] == [y];
      assert [x][..0] == [] && [y][..0] == [];
    }
    SameLastVotesSameProposal(a + [x, y] + b, a + [y, x] + b, weights);
  }
}
