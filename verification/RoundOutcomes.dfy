/** What one node does with the inputs it is shown, told from all of them at once: who voted for
    what, not in which order and with which repetitions. */
module RoundOutcomes {
  import opened Common
  import opened Weights
  import opened Round
  import opened Agreement

  /** The phase of a node after some inputs. */
  ghost function After(weights: map<Address, nat>, phase: Phase, inputs: seq<Input>): Phase {
    if inputs == [] then phase
    else Handle(weights, StoredTotal(weights), After(weights, phase, inputs[..|inputs| - 1]), inputs[|inputs| - 1]).0
  }

  /** What the node says to one more input. */
  ghost function Answer(weights: map<Address, nat>, phase: Phase, inputs: seq<Input>, input: Input): seq<Event> {
    Handle(weights, StoredTotal(weights), After(weights, phase, inputs), input).1
  }

  /** The round goes on: it is neither restarted nor told to change the view. */
  predicate Undisturbed(inputs: seq<Input>) {
    forall i :: 0 <= i < |inputs| ==> !inputs[i].StartView? && !inputs[i].NewRound?
  }

  /** Known validators with a vote for the block among the inputs. */
  ghost function VotersFor(weights: map<Address, nat>, inputs: seq<Input>, block: Hash): set<Address> {
    set i | 0 <= i < |inputs| && inputs[i].Vote? && inputs[i].block == block && inputs[i].voter in weights :: inputs[i].voter
  }

  /** Known validators with a vote for the view among the inputs. */
  ghost function VotersForView(weights: map<Address, nat>, inputs: seq<Input>, view: nat): set<Address> {
    set i | 0 <= i < |inputs| && inputs[i].ViewVote? && inputs[i].newView == view && inputs[i].voter in weights :: inputs[i].voter
  }

  lemma VotersExtend(weights: map<Address, nat>, inputs: seq<Input>, input: Input, block: Hash)
    ensures VotersFor(weights, inputs + [input], block) == VotersFor(weights, inputs, block)
            + if input.Vote? && input.block == block && input.voter in weights then {input.voter} else {}
  {
    var all := inputs + [input];
    forall v | v in VotersFor(weights, inputs, block) ensures v in VotersFor(weights, all, block) {
      var i :| 0 <= i < |inputs| && inputs[i].Vote? && inputs[i].block == block && inputs[i].voter == v;
      assert all[i] == inputs[i];
    }
    assert all[|inputs|] == input;
  }

  lemma ViewVotersExtend(weights: map<Address, nat>, inputs: seq<Input>, input: Input, view: nat)
    ensures VotersForView(weights, inputs + [input], view) == VotersForView(weights, inputs, view)
            + if input.ViewVote? && input.newView == view && input.voter in weights then {input.voter} else {}
  {
    var all := inputs + [input];
    forall v | v in VotersForView(weights, inputs, view) ensures v in VotersForView(weights, all, view) {
      var i :| 0 <= i < |inputs| && inputs[i].ViewVote? && inputs[i].newView == view && inputs[i].voter == v;
      assert all[i] == inputs[i];
    }
    assert all[|inputs|] == input;
  }

  lemma QuorumGrows(weights: map<Address, nat>, s: set<Address>, t: set<Address>)
    requires IsQuorum(weights, s) && s <= t <= weights.Keys
    ensures IsQuorum(weights, t)
  {
    SetWeightMonotone(weights, s, t);
  }

  lemma EmptyIsNoQuorum(weights: map<Address, nat>)
    ensures !IsQuorum(weights, {}) && !IsViewQuorum(weights, {})
  {
  }

  // ---------------------------------------------------------------------------
  // Committing
  // ---------------------------------------------------------------------------

  /** The node has counted exactly these voters for the block. */
  ghost predicate Counted(weights: map<Address, nat>, phase: Phase, block: Hash, voters: set<Address>) {
    phase.Voting? && phase.block == block && phase.votes.Keys == voters && phase.voteWeight == StoredWeight(weights, voters)
  }

  ghost predicate Outcome(weights: map<Address, nat>, phase: Phase, block: Hash, voters: set<Address>) {
    if IsQuorum(weights, voters) then phase == Committed(block) else Counted(weights, phase, block, voters)
  }

  /** What a node that is counting votes answers to one. */
  ghost predicate VoteAnswered(weights: map<Address, nat>, block: Hash, voters: set<Address>, input: Input, events: seq<Event>)
    requires input.Vote?
  {
    if input.voter !in weights then events == []
    else if input.block != block then events == [WrongBlockHash(block, input.block)]
    else if input.voter in voters then events == [DuplicateVote(input.voter)]
    else if IsQuorum(weights, voters + {input.voter}) then
      |events| == 1 && events[0].BlockCommitted? && events[0].block == block && events[0].signatures.Keys == voters + {input.voter}
    else events == []
  }

  lemma OneVote(weights: map<Address, nat>, phase: Phase, block: Hash, voters: set<Address>, input: Input)
    requires Counted(weights, phase, block, voters) && voters <= weights.Keys && input.Vote?
    ensures VoteAnswered(weights, block, voters, input, Handle(weights, StoredTotal(weights), phase, input).1)
    ensures !IsQuorum(weights, voters) ==>
              Outcome(weights, Handle(weights, StoredTotal(weights), phase, input).0, block,
                      voters + if input.block == block && input.voter in weights then {input.voter} else {})
  {
    var voter := input.voter;
    if voter in weights && input.block == block {
      if voter in voters {
        assert voters + {voter} == voters;
      } else {
        StoredWeightAdd(weights, voters, voter);
        assert phase.votes[voter := input.signature].Keys == voters + {voter};
      }
    } else {
      assert voters + {} == voters;
    }
  }

  lemma OneInput(weights: map<Address, nat>, phase: Phase, block: Hash, voters: set<Address>, input: Input)
    requires Outcome(weights, phase, block, voters) && voters <= weights.Keys && !input.StartView? && !input.NewRound?
    ensures Outcome(weights, Handle(weights, StoredTotal(weights), phase, input).0, block,
                    voters + if input.Vote? && input.block == block && input.voter in weights then {input.voter} else {})
  {
    var next := voters + if input.Vote? && input.block == block && input.voter in weights then {input.voter} else {};
    if IsQuorum(weights, voters) {
      QuorumGrows(weights, voters, next);
    } else if input.Vote? {
      OneVote(weights, phase, block, voters, input);
    } else {
      assert next == voters;
    }
  }

  /** From an idle node, after a proposal and any inputs that do not disturb the round: the block
      is committed if and only if the known validators among those who voted for it are a quorum.
      Otherwise exactly these have been counted. */
  lemma {:induction false} RoundOutcome(weights: map<Address, nat>, block: Hash, inputs: seq<Input>)
    requires Undisturbed(inputs)
    ensures Outcome(weights, After(weights, Idle, [Propose(block)] + inputs), block, VotersFor(weights, inputs, block))
  {
    var all := [Propose(block)] + inputs;
    if inputs == [] {
      assert all == [Propose(block)] && all[..0] == [];
      EmptyIsNoQuorum(weights);
    } else {
      var rest, last := inputs[..|inputs| - 1], inputs[|inputs| - 1];
      RoundOutcome(weights, block, rest);
      assert rest + [last] == inputs && all[..|all| - 1] == [Propose(block)] + rest;
      VotersExtend(weights, rest, last, block);
      OneInput(weights, After(weights, Idle, [Propose(block)] + rest), block, VotersFor(weights, rest, block), last);
    }
  }

  /** And what it answers to a vote until then: it reports a vote for another block, a second vote
      of a validator, and the commit itself, and nothing else. */
  lemma RoundAnswers(weights: map<Address, nat>, block: Hash, inputs: seq<Input>, input: Input)
    requires Undisturbed(inputs) && input.Vote? && !IsQuorum(weights, VotersFor(weights, inputs, block))
    ensures VoteAnswered(weights, block, VotersFor(weights, inputs, block), input,
                         Answer(weights, Idle, [Propose(block)] + inputs, input))
  {
    RoundOutcome(weights, block, inputs);
    OneVote(weights, After(weights, Idle, [Propose(block)] + inputs), block, VotersFor(weights, inputs, block), input);
  }

  /** Before a proposal nothing happens, and the proposal is announced. */
  lemma {:induction false} IdleUntilProposed(weights: map<Address, nat>, inputs: seq<Input>, input: Input)
    requires Undisturbed(inputs) && forall i :: 0 <= i < |inputs| ==> !inputs[i].Propose?
    ensures After(weights, Idle, inputs) == Idle
    ensures Answer(weights, Idle, inputs, input) ==
            if input.Propose? then [ProposeAccepted(input.block), VoteNeeded(input.block)] else []
  {
    if inputs != [] {
      IdleUntilProposed(weights, inputs[..|inputs| - 1], inputs[|inputs| - 1]);
    }
  }

  // ---------------------------------------------------------------------------
  // Changing the view
  // ---------------------------------------------------------------------------

  ghost predicate Asking(weights: map<Address, nat>, phase: Phase, view: nat, voters: set<Address>) {
    phase == ViewChanging(view, voters, StoredWeight(weights, voters))
  }

  lemma OneViewInput(weights: map<Address, nat>, phase: Phase, view: nat, voters: set<Address>, input: Input)
    requires Asking(weights, phase, view, voters) && voters <= weights.Keys && !IsViewQuorum(weights, voters)
    requires !input.StartView? && !input.NewRound?
    ensures var (next, events) := Handle(weights, StoredTotal(weights), phase, input);
            var more := voters + if input.ViewVote? && input.newView == view && input.voter in weights then {input.voter} else {};
            if IsViewQuorum(weights, more) then next == Idle && events == [ViewChangeReady(view)]
            else Asking(weights, next, view, more) && events == []
  {
    if input.ViewVote? && input.newView == view && input.voter in weights && input.voter !in voters {
      StoredWeightAdd(weights, voters, input.voter);
    } else {
      assert voters + {} == voters && (input.ViewVote? && input.voter in voters ==> voters + {input.voter} == voters);
    }
  }

  /** From any phase, after a view change was started and any inputs that do not disturb it, as
      long as the known validators who voted for that view are no quorum exactly these have been
      counted, and the next input completes the change if and only if it makes them one. */
  lemma {:induction false} ViewOutcome(weights: map<Address, nat>, phase: Phase, view: nat, inputs: seq<Input>, input: Input)
    requires Undisturbed(inputs + [input]) && !IsViewQuorum(weights, VotersForView(weights, inputs, view))
    ensures var before, all := [StartView(view)] + inputs, inputs + [input];
            && Asking(weights, After(weights, phase, before), view, VotersForView(weights, inputs, view))
            && (if IsViewQuorum(weights, VotersForView(weights, all, view)) then
                  After(weights, phase, before + [input]) == Idle && Answer(weights, phase, before, input) == [ViewChangeReady(view)]
                else
                  Asking(weights, After(weights, phase, before + [input]), view, VotersForView(weights, all, view))
                  && Answer(weights, phase, before, input) == [])
    decreases |inputs|
  {
    var before := [StartView(view)] + inputs;
    assert Undisturbed(inputs) && !input.StartView? && !input.NewRound? by {
      assert (inputs + [input])[|inputs|] == input;
      assert forall i :: 0 <= i < |inputs| ==> (inputs + [input])[i] == inputs[i];
    }
    if inputs == [] {
      assert before == [StartView(view)] && before[..0] == [];
      assert VotersForView(weights, inputs, view) == {};
    } else {
      var rest, last := inputs[..|inputs| - 1], inputs[|inputs| - 1];
      assert rest + [last] == inputs;
      ViewVotersExtend(weights, rest, last, view);
      FewerIsNoQuorum(weights, VotersForView(weights, rest, view), VotersForView(weights, inputs, view));
      ViewOutcome(weights, phase, view, rest, last);
      assert before == [StartView(view)] + rest + [last];
    }
    ViewVotersExtend(weights, inputs, input, view);
    assert (before + [input])[..|before|] == before;
    OneViewInput(weights, After(weights, phase, before), view, VotersForView(weights, inputs, view), input);
  }

  lemma FewerIsNoQuorum(weights: map<Address, nat>, s: set<Address>, t: set<Address>)
    requires s <= t <= weights.Keys && !IsViewQuorum(weights, t)
    ensures !IsViewQuorum(weights, s)
  {
    SetWeightMonotone(weights, s, t);
  }
}
