/** The wPoA round state machine: propose, vote, commit and view change. */
module Round {
  import opened Common
  import opened Weights

  type Signature = seq<nat>

  datatype Phase =
    | Idle
    | Proposing(block: Hash)
    | Voting(block: Hash, votes: map<Address, Signature>, voteWeight: nat)
    | Committed(block: Hash)
    | ViewChanging(newView: nat, voters: set<Address>, voteWeight: nat)

  datatype Event =
    | ProposeAccepted(block: Hash)
    | VoteNeeded(block: Hash)
    | BlockCommitted(block: Hash, signatures: map<Address, Signature>)
    | ViewChangeReady(newView: nat)
    | DuplicateVote(voter: Address)
    | WrongBlockHash(expected: Hash, got: Hash)

  // ---------------------------------------------------------------------------
  // What each handler does to the phase, as a function
  // ---------------------------------------------------------------------------

  function Proposed(phase: Phase, block: Hash): (Phase, seq<Event>) {
    if phase.Idle? then (Voting(block, map[], 0), [ProposeAccepted(block), VoteNeeded(block)])
    else (phase, [])
  }

  function Voted(weights: map<Address, nat>, total: nat, phase: Phase, voter: Address, block: Hash,
                 signature: Signature): (Phase, seq<Event>)
  {
    if voter !in weights || !phase.Voting? then (phase, [])
    else if block != phase.block then (phase, [WrongBlockHash(phase.block, block)])
    else if voter in phase.votes then (phase, [DuplicateVote(voter)])
    else
      var votes := phase.votes[voter := signature];
      var weight := SatAdd(phase.voteWeight, weights[voter]);
      if total != 0 && weight >= StrictQuorum(total) then
        (Committed(block), [BlockCommitted(block, votes)])
      else
        (Voting(block, votes, weight), [])
  }

  function ViewVoted(weights: map<Address, nat>, total: nat, phase: Phase, voter: Address,
                     newView: nat): (Phase, seq<Event>)
  {
    if voter !in weights || !phase.ViewChanging? || phase.newView != newView || voter in phase.voters then
      (phase, [])
    else
      var voters := phase.voters + {voter};
      var weight := SatAdd(phase.voteWeight, weights[voter]);
      if total != 0 && weight >= ViewQuorum(total) then (Idle, [ViewChangeReady(newView)])
      else (ViewChanging(newView, voters, weight), [])
  }

  /** `WPoaRound`: one round at one block height. */
  class WPoaRound {
    var phase: Phase
    const totalWeight: nat
    const weights: map<Address, nat>

    /** The stored total is the true total, capped at the largest 64-bit value. */
    constructor (weights: map<Address, nat>)
      ensures this.weights == weights && phase == Idle
      ensures totalWeight == Min(Total(weights), U64_MAX)
    {
      var todo, total := weights.Keys, 0;
      while todo != {}
        invariant todo <= weights.Keys
        invariant total == Min(SetWeight(weights, weights.Keys - todo), U64_MAX)
        decreases |todo|
      {
        var x :| x in todo;
        SetWeightAdd(weights, weights.Keys - todo, x);
        assert weights.Keys - (todo - {x}) == weights.Keys - todo + {x};
        total := SatAdd(total, weights[x]);
        todo := todo - {x};
      }
      assert weights.Keys - todo == weights.Keys;
      this.weights := weights;
      this.totalWeight := total;
      this.phase := Idle;
    }

    method OnBlockProposed(block: Hash) returns (events: seq<Event>)
      modifies this
      ensures (phase, events) == Proposed(old(phase), block)
    {
      match phase {
        case Idle =>
          phase := Voting(block, map[], 0);
          events := [ProposeAccepted(block), VoteNeeded(block)];
        case _ =>
          events := [];
      }
    }

    method OnVote(voter: Address, block: Hash, signature: Signature) returns (events: seq<Event>)
      modifies this
      ensures (phase, events) == Voted(weights, totalWeight, old(phase), voter, block, signature)
    {
      if voter !in weights {
        return [];
      }
      var weight := weights[voter];
      match phase {
        case Voting(expected, votes, voteWeight) =>
          if block != expected {
            return [WrongBlockHash(expected, block)];
          }
          if voter in votes {
            return [DuplicateVote(voter)];
          }
          var votes' := votes[voter := signature];
          var voteWeight' := SatAdd(voteWeight, weight);
          if totalWeight != 0 && voteWeight' >= StrictQuorum(totalWeight) {
            phase := Committed(expected);
            return [BlockCommitted(expected, votes')];
          }
          phase := Voting(expected, votes', voteWeight');
          return [];
        case _ =>
          return [];
      }
    }

    method OnViewChangeVote(voter: Address, newView: nat) returns (events: seq<Event>)
      modifies this
      ensures (phase, events) == ViewVoted(weights, totalWeight, old(phase), voter, newView)
    {
      if voter !in weights {
        return [];
      }
      var weight := weights[voter];
      match phase {
        case ViewChanging(expected, voters, voteWeight) =>
          if expected != newView || voter in voters {
            return [];
          }
          var voteWeight' := SatAdd(voteWeight, weight);
          if totalWeight != 0 && voteWeight' >= ViewQuorum(totalWeight) {
            phase := Idle;
            return [ViewChangeReady(newView)];
          }
          phase := ViewChanging(expected, voters + {voter}, voteWeight');
          return [];
        case _ =>
          return [];
      }
    }

    /** Leaves any phase, even `Committed`. */
    method StartViewChange(newView: nat)
      modifies this
      ensures phase == ViewChanging(newView, {}, 0)
    {
      phase := ViewChanging(newView, {}, 0);
    }
  }
}
