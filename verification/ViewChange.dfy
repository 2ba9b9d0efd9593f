/** The engine's own view-change votes: recording them, advancing and resetting the view. */
module ViewChange {
  import opened Common
  import opened Weights

  datatype Message = Message(chainId: nat, blockNumber: nat, view: nat, validator: Address)

  datatype Votes = Votes(
    currentView: nat,
    lastBlockTime: nat,
    pending: map<nat, seq<Message>>,
    quorum: nat,
    weights: map<Address, nat>,
    pendingWeight: map<nat, nat>,
    chainId: nat)

  function PendingAt(s: Votes): seq<Message> {
    if s.currentView in s.pending then s.pending[s.currentView] else []
  }

  predicate Accepts(s: Votes, msg: Message) {
    && msg.view == s.currentView
    && (s.chainId == 0 || msg.chainId == s.chainId)
    && msg.validator in s.weights && s.weights[msg.validator] > 0
    && (forall i :: 0 <= i < |PendingAt(s)| ==> PendingAt(s)[i].validator != msg.validator)
    && (|PendingAt(s)| > 0 ==> PendingAt(s)[0].blockNumber == msg.blockNumber)
  }

  /** `record_view_change` */
  function Recorded(s: Votes, msg: Message): (Votes, bool) {
    if !Accepts(s, msg) then (s, false)
    else
      var soFar := if msg.view in s.pendingWeight then s.pendingWeight[msg.view] else 0;
      var weight := SatAdd(soFar, s.weights[msg.validator]);
      (s.(pending := s.pending[msg.view := PendingAt(s) + [msg]],
          pendingWeight := s.pendingWeight[msg.view := weight]),
       weight >= Max(s.quorum, 1))
  }

  function Configured(s: Votes, weights: map<Address, nat>, total: nat): Votes
    requires total <= U64_MAX
  {
    s.(weights := weights, quorum := ConfiguredQuorum(total))
  }

  function Advanced(s: Votes): Votes {
    s.(currentView := SatAdd(s.currentView, 1), pending := map[], pendingWeight := map[])
  }

  function ResetForBlock(s: Votes, now: nat): Votes {
    s.(currentView := 0, lastBlockTime := now, pending := map[], pendingWeight := map[])
  }

  /** `WPoaEngine::handle_view_change_message` */
  function Handled(s: Votes, weights: map<Address, nat>, total: nat, msg: Message): (Votes, bool)
    requires total <= U64_MAX
  {
    if msg.view != s.currentView then (s, false)
    else
      var (s', ready) := Recorded(Configured(s, weights, total), msg);
      if ready then (Advanced(s'), true) else (s', false)
  }

  class ViewChangeState {
    var currentView: nat
    var lastBlockTime: nat
    var pending: map<nat, seq<Message>>
    var quorum: nat
    var weights: map<Address, nat>
    var pendingWeight: map<nat, nat>
    var chainId: nat

    function State(): Votes
      reads this
    {
      Votes(currentView, lastBlockTime, pending, quorum, weights, pendingWeight, chainId)
    }

    constructor (now: nat, chain: nat)
      ensures State() == Initial(now, chain)
    {
      currentView, lastBlockTime, quorum, chainId := 0, now, 1, chain;
      pending, weights, pendingWeight := map[], map[], map[];
    }

    method RecordViewChange(msg: Message) returns (ready: bool)
      modifies this
      ensures (State(), ready) == Recorded(old(State()), msg)
    {
      if msg.view != currentView {
        return false;
      }
      if chainId != 0 && msg.chainId != chainId {
        return false;
      }
      if msg.validator !in weights {
        return false;
      }
      var weight := weights[msg.validator];
      if weight == 0 {
        return false;
      }
      var messages := if msg.view in pending then pending[msg.view] else [];
      for i := 0 to |messages|
        invariant forall j :: 0 <= j < i ==> messages[j].validator != msg.validator
      {
        if messages[i].validator == msg.validator {
          return false;
        }
      }
      if |messages| > 0 && messages[0].blockNumber != msg.blockNumber {
        return false;
      }
      pending := pending[msg.view := messages + [msg]];
      var voteWeight := SatAdd(if msg.view in pendingWeight then pendingWeight[msg.view] else 0, weight);
      pendingWeight := pendingWeight[msg.view := voteWeight];
      ready := voteWeight >= Max(quorum, 1);
    }

    method ConfigureQuorum(w: map<Address, nat>, total: nat)
      requires total <= U64_MAX
      modifies this
      ensures State() == Configured(old(State()), w, total)
    {
      weights := w;
      quorum := DivCeil(2 * Max(total, 1) % (U64_MAX + 1), 3);
    }

    method AdvanceView() returns (view: nat)
      modifies this
      ensures State() == Advanced(old(State())) && view == currentView
    {
      currentView := SatAdd(currentView, 1);
      pending, pendingWeight := map[], map[];
      view := currentView;
    }

    method Reset(now: nat)
      modifies this
      ensures State() == ResetForBlock(old(State()), now)
    {
      currentView, lastBlockTime := 0, now;
      pending, pendingWeight := map[], map[];
    }

    method HandleMessage(w: map<Address, nat>, total: nat, msg: Message) returns (advanced: bool)
      requires total <= U64_MAX
      modifies this
      ensures (State(), advanced) == Handled(old(State()), w, total, msg)
    {
      if msg.view != currentView {
        return false;
      }
      ConfigureQuorum(w, total);
      var ready := RecordViewChange(msg);
      if ready {
        var _ := AdvanceView();
      }
      return ready;
    }
  }

  // ---------------------------------------------------------------------------
  // Runs
  // ---------------------------------------------------------------------------

  function Initial(now: nat, chain: nat): Votes {
    Votes(0, now, map[], 1, map[], map[], chain)
  }

  type Total64 = n: nat | n <= U64_MAX

  /** Each message is handled with the weights of that moment. */
  datatype Action = Receive(weights: map<Address, nat>, total: Total64, msg: Message) | Progress(now: nat)

  function Apply(s: Votes, a: Action): Votes {
    match a
    case Receive(weights, total, msg) => Handled(s, weights, total, msg).0
    case Progress(now) => ResetForBlock(s, now)
  }

  function RunActions(s: Votes, actions: seq<Action>): Votes {
    if actions == [] then s else Apply(RunActions(s, actions[..|actions| - 1]), actions[|actions| - 1])
  }

  /** The weight with which each pending vote was counted. */
  function Counted(s: Votes, counted: map<Address, nat>, a: Action): map<Address, nat> {
    match a
    case Receive(weights, total, msg) =>
      if msg.view != s.currentView || !Accepts(Configured(s, weights, total), msg) then counted
      else if Handled(s, weights, total, msg).1 then map[]
      else counted[msg.validator := weights[msg.validator]]
    case Progress(_) => map[]
  }

  function RunCounted(s: Votes, counted: map<Address, nat>, actions: seq<Action>): map<Address, nat> {
    if actions == [] then counted
    else
      var before, last := actions[..|actions| - 1], actions[|actions| - 1];
      Counted(RunActions(s, before), RunCounted(s, counted, before), last)
  }

  function Voters(messages: seq<Message>): set<Address> {
    set i | 0 <= i < |messages| :: messages[i].validator
  }

  /** Votes of distinct validators for one view and one block. */
  ghost predicate OneBallot(messages: seq<Message>, view: nat) {
    && (forall i, j :: 0 <= i < j < |messages| ==> messages[i].validator != messages[j].validator)
    && (forall i :: 0 <= i < |messages| ==> messages[i].view == view && messages[i].blockNumber == messages[0].blockNumber)
  }

  /** Only the current view has votes; they are one ballot, and the recorded weight is the
      saturated sum of the weights with which they were counted. */
  ghost predicate VotesOk(counted: map<Address, nat>, s: Votes) {
    && s.pending.Keys <= {s.currentView} && s.pendingWeight.Keys == s.pending.Keys
    && OneBallot(PendingAt(s), s.currentView)
    && counted.Keys == Voters(PendingAt(s))
    && (s.currentView in s.pendingWeight ==> s.pendingWeight[s.currentView] == Min(Total(counted), U64_MAX))
  }

  lemma VotersExtend(messages: seq<Message>, msg: Message)
    ensures Voters(messages + [msg]) == Voters(messages) + {msg.validator}
  {
    var all := messages + [msg];
    assert all[|messages|] == msg;
    forall i | 0 <= i < |messages| ensures messages[i].validator in Voters(all) {
      assert all[i] == messages[i];
    }
  }

  /** What a voter set weighs when `msg` is counted with the others. */
  function WithVote(counted: map<Address, nat>, weights: map<Address, nat>, msg: Message): map<Address, nat> {
    if msg.validator in weights then counted[msg.validator := weights[msg.validator]] else counted
  }

  lemma BallotGrows(messages: seq<Message>, view: nat, msg: Message)
    requires OneBallot(messages, view) && msg.view == view
    requires forall i :: 0 <= i < |messages| ==> messages[i].validator != msg.validator
    requires |messages| > 0 ==> messages[0].blockNumber == msg.blockNumber
    ensures OneBallot(messages + [msg], view) && msg.validator !in Voters(messages)
  {
  }

  lemma AcceptedOk(counted: map<Address, nat>, s: Votes, msg: Message)
    requires VotesOk(counted, s) && Accepts(s, msg)
    ensures VotesOk(WithVote(counted, s.weights, msg), Recorded(s, msg).0)
    ensures msg.validator !in counted
    ensures s.quorum <= U64_MAX ==> (Recorded(s, msg).1 <==> Total(WithVote(counted, s.weights, msg)) >= Max(s.quorum, 1))
  {
    var before := PendingAt(s);
    BallotGrows(before, s.currentView, msg);
    VotersExtend(before, msg);
    TotalAdd(counted, msg.validator, s.weights[msg.validator]);
    if s.currentView !in s.pendingWeight {
      assert Voters(before) == {};
      assert counted == map[];
    }
    assert PendingAt(Recorded(s, msg).0) == before + [msg];
  }

  /** One received message: the vote it adds is the sender's whole weight of the moment, and the
      view is left exactly when the message is accepted and what was counted reaches the
      threshold of the moment. */
  lemma HandledOk(counted: map<Address, nat>, s: Votes, weights: map<Address, nat>, total: Total64, msg: Message)
    requires VotesOk(counted, s)
    ensures VotesOk(Counted(s, counted, Receive(weights, total, msg)), Handled(s, weights, total, msg).0)
    ensures Handled(s, weights, total, msg).1 <==>
              && msg.view == s.currentView && Accepts(Configured(s, weights, total), msg)
              && Total(WithVote(counted, weights, msg)) >= Max(ConfiguredQuorum(total), 1)
  {
    var c := Configured(s, weights, total);
    assert PendingAt(c) == PendingAt(s);
    if msg.view == s.currentView && Accepts(c, msg) {
      AcceptedOk(counted, c, msg);
    }
  }

  /** Whose message counts: it is for the current view and the right chain, its sender weighs
      something and has not been counted, and it names the block that those counted name. */
  ghost predicate Countable(s: Votes, weights: map<Address, nat>, msg: Message) {
    && msg.view == s.currentView && (s.chainId == 0 || s.chainId == msg.chainId)
    && WeightOf(weights, msg.validator) > 0 && msg.validator !in Voters(PendingAt(s))
    && forall m :: m in PendingAt(s) ==> m.blockNumber == msg.blockNumber
  }

  /** What a message does. Either it does not count and no vote changes; or it counts, and then the
      view ends, with the votes for it, exactly when the threshold is reached. */
  lemma HandledMeans(counted: map<Address, nat>, s: Votes, weights: map<Address, nat>, total: Total64, msg: Message)
    requires VotesOk(counted, s)
    ensures var (t, moved) := Handled(s, weights, total, msg);
            && t.lastBlockTime == s.lastBlockTime && t.chainId == s.chainId
            && (moved <==> Countable(s, weights, msg)
                           && Total(counted) + WeightOf(weights, msg.validator) >= Max(ConfiguredQuorum(total), 1))
            && (moved ==> t.currentView == Min(s.currentView + 1, U64_MAX) && t.pending == map[] && t.pendingWeight == map[])
            && (!moved ==> t.currentView == s.currentView
                           && PendingAt(t) == if Countable(s, weights, msg) then PendingAt(s) + [msg] else PendingAt(s))
  {
    HandledOk(counted, s, weights, total, msg);
    var c := Configured(s, weights, total);
    assert PendingAt(c) == PendingAt(s);
    CountableAccepted(s, weights, total, msg);
    if Countable(s, weights, msg) {
      TotalAdd(counted, msg.validator, weights[msg.validator]);
    }
  }

  lemma CountableAccepted(s: Votes, weights: map<Address, nat>, total: Total64, msg: Message)
    requires OneBallot(PendingAt(s), s.currentView)
    ensures Countable(s, weights, msg) <==> msg.view == s.currentView && Accepts(Configured(s, weights, total), msg)
  {
    var pending := PendingAt(s);
    assert PendingAt(Configured(s, weights, total)) == pending;
    if Accepts(Configured(s, weights, total), msg) {
      assert msg.validator !in Voters(pending);
    } else if Countable(s, weights, msg) {
      forall i | 0 <= i < |pending| ensures pending[i].validator != msg.validator {
        assert pending[i].validator in Voters(pending);
      }
    }
  }

  /** How often the view was left since the last block. */
  function Moves(s: Votes, actions: seq<Action>): nat {
    if actions == [] then 0
    else
      var before, last := actions[..|actions| - 1], actions[|actions| - 1];
      match last
      case Progress(_) => 0
      case Receive(weights, total, msg) =>
        Moves(s, before) + if Handled(RunActions(s, before), weights, total, msg).1 then 1 else 0
  }

  function LastProgress(now: nat, actions: seq<Action>): nat {
    if actions == [] then now
    else
      var last := actions[|actions| - 1];
      if last.Progress? then last.now else LastProgress(now, actions[..|actions| - 1])
  }

  /** The view is the number of times it was left since the last block, the clock is that of the
      last block, and right after a block there are no votes. */
  lemma {:induction false} ViewCountsMoves(now: nat, chain: nat, actions: seq<Action>)
    ensures var s := RunActions(Initial(now, chain), actions);
            && s.currentView == Min(Moves(Initial(now, chain), actions), U64_MAX)
            && s.lastBlockTime == LastProgress(now, actions) && s.chainId == chain
            && (actions != [] && actions[|actions| - 1].Progress? ==> s.pending == map[] && s.pendingWeight == map[])
  {
    if actions != [] {
      var before, last := actions[..|actions| - 1], actions[|actions| - 1];
      ViewCountsMoves(now, chain, before);
      RunVotesOk(Initial(now, chain), map[], before);
      match last {
        case Receive(weights, total, msg) =>
          HandledMeans(RunCounted(Initial(now, chain), map[], before), RunActions(Initial(now, chain), before), weights, total, msg);
        case Progress(_) =>
      }
    }
  }

  /** Over every run, under weights that may change with every message, the recorded weight is
      what was counted. */
  lemma {:induction false} RunVotesOk(s: Votes, counted: map<Address, nat>, actions: seq<Action>)
    requires VotesOk(counted, s)
    ensures VotesOk(RunCounted(s, counted, actions), RunActions(s, actions))
  {
    if actions != [] {
      var before, last := actions[..|actions| - 1], actions[|actions| - 1];
      RunVotesOk(s, counted, before);
      match last {
        case Receive(weights, total, msg) => HandledOk(RunCounted(s, counted, before), RunActions(s, before), weights, total, msg);
        case Progress(_) =>
      }
    }
  }

  /** No voter weighs less now than when its vote was counted. */
  predicate NoneLost(counted: map<Address, nat>, weights: map<Address, nat>) {
    forall v :: v in counted ==> counted[v] <= WeightOf(weights, v)
  }

  /** In every run in which no voter has lost weight since its vote, whoever makes the engine
      leave a view shares more than a third of the weight with any validators that reach the
      commit threshold. */
  lemma AdvanceMeetsCommit(weights: map<Address, nat>, now: nat, chain: nat, actions: seq<Action>, msg: Message,
                           committers: set<Address>)
    requires 1 <= Total(weights) < 0x8000_0000_0000_0000
    requires NoneLost(RunCounted(Initial(now, chain), map[], actions), weights)
    requires SetWeight(weights, committers) >= StrictQuorum(Total(weights))
    ensures var s := RunActions(Initial(now, chain), actions);
            Handled(s, weights, Total(weights), msg).1 ==>
              3 * SetWeight(weights, (Voters(PendingAt(s)) + {msg.validator}) * committers) > Total(weights)
  {
    var total, start := Total(weights), Initial(now, chain);
    var s, counted := RunActions(start, actions), RunCounted(start, map[], actions);
    RunVotesOk(start, map[], actions);
    HandledOk(counted, s, weights, total, msg);
    if Handled(s, weights, total, msg).1 {
      var votes := WithVote(counted, weights, msg);
      assert votes.Keys == Voters(PendingAt(s)) + {msg.validator};
      SetWeightGrows(votes, weights, votes.Keys);
      ViewQuorumsAgree(total);
      QuorumMeetsCommits(weights, votes.Keys);
    }
  }

  /** The voters share more than a third of the weight with every commit quorum. */
  ghost predicate MeetsCommits(weights: map<Address, nat>, voters: set<Address>) {
    forall c :: SetWeight(weights, c) >= StrictQuorum(Total(weights)) ==> 3 * SetWeight(weights, voters * c) > Total(weights)
  }

  /** Voters whose present weight reaches the threshold of the round meet every commit quorum. */
  lemma QuorumMeetsCommits(weights: map<Address, nat>, voters: set<Address>)
    requires 0 < Total(weights) <= U64_MAX && SetWeight(weights, voters) >= ViewQuorum(Total(weights))
    ensures MeetsCommits(weights, voters)
  {
    forall c | SetWeight(weights, c) >= StrictQuorum(Total(weights)) ensures 3 * SetWeight(weights, voters * c) > Total(weights) {
      Overlap(weights, voters, c);
    }
  }

  /** For voters of any weight: they meet every commit quorum if and only if no part of them that
      weighs at most a third makes up a commit quorum with everyone else. */
  lemma MeetsCommitsExactly(weights: map<Address, nat>, voters: set<Address>)
    requires voters <= weights.Keys
    ensures MeetsCommits(weights, voters) <==>
            forall part :: part <= voters && 3 * SetWeight(weights, part) <= Total(weights) ==>
              SetWeight(weights, part + (weights.Keys - voters)) < StrictQuorum(Total(weights))
  {
    var others := weights.Keys - voters;
    if part :| part <= voters && 3 * SetWeight(weights, part) <= Total(weights)
               && SetWeight(weights, part + others) >= StrictQuorum(Total(weights)) {
      assert voters * (part + others) == part;
    } else {
      forall c | SetWeight(weights, c) >= StrictQuorum(Total(weights)) ensures 3 * SetWeight(weights, voters * c) > Total(weights) {
        SetWeightKnown(weights, c);
        assert c * weights.Keys <= voters * c + others;
        SetWeightMonotone(weights, c * weights.Keys, voters * c + others);
      }
    }
  }

  /** The same for one run, one message and one commit quorum of any total. */
  ghost predicate AdvanceMeets(weights: map<Address, nat>, now: nat, chain: nat, actions: seq<Action>, msg: Message,
                               committers: set<Address>)
  {
    var s := RunActions(Initial(now, chain), actions);
    Total(weights) <= U64_MAX && NoneLost(RunCounted(Initial(now, chain), map[], actions), weights)
    && SetWeight(weights, committers) >= StrictQuorum(Total(weights)) && Handled(s, weights, Total(weights), msg).1 ==>
      3 * SetWeight(weights, (Voters(PendingAt(s)) + {msg.validator}) * committers) > Total(weights)
  }

  ghost predicate AdvancesMeetCommits(total: nat) {
    forall weights, now, chain, actions, msg, committers ::
      Total(weights) == total ==> AdvanceMeets(weights, now, chain, actions, msg, committers)
  }

  /** It holds for all validators of a total, in every run in which no voter has lost weight, if
      and only if the total is below 2^63. */
  lemma AdvanceMeetsCommitExactly(total: nat)
    requires total <= U64_MAX
    ensures AdvancesMeetCommits(total) <==> total < 0x8000_0000_0000_0000
  {
    if total < 0x8000_0000_0000_0000 {
      forall weights, now, chain, actions, msg, committers | Total(weights) == total
        ensures AdvanceMeets(weights, now, chain, actions, msg, committers)
      {
        SmallTotalMeets(weights, now, chain, actions, msg, committers);
      }
    } else {
      var weights := FewWeights(total);
      LargeTotalMoves(total, 0);
      VotersOfOne(0);
      assert {1} * {1, 2} == {1};
      assert !AdvanceMeets(weights, 0, 0, [], Message(0, 1, 0, 1), {1, 2});
    }
  }

  lemma SmallTotalMeets(weights: map<Address, nat>, now: nat, chain: nat, actions: seq<Action>, msg: Message,
                        committers: set<Address>)
    requires Total(weights) < 0x8000_0000_0000_0000
    ensures AdvanceMeets(weights, now, chain, actions, msg, committers)
  {
    var s := RunActions(Initial(now, chain), actions);
    if Total(weights) == 0 {
      WeighsLittle(weights, msg.validator);
    } else if NoneLost(RunCounted(Initial(now, chain), map[], actions), weights)
              && SetWeight(weights, committers) >= StrictQuorum(Total(weights)) {
      AdvanceMeetsCommit(weights, now, chain, actions, msg, committers);
    }
  }

  lemma WeighsLittle(weights: map<Address, nat>, v: Address)
    ensures WeightOf(weights, v) <= Total(weights)
  {
    if v in weights {
      SetWeightRemove(weights, weights.Keys, v);
    }
  }

  /** Two validators, the first of whom weighs what the wrapped threshold asks for. */
  function FewWeights(total: nat): map<Address, nat>
    requires 0x8000_0000_0000_0000 <= total <= U64_MAX
  {
    var few := Max(ConfiguredQuorum(total), 1);
    map[1 := few, 2 := SatSub(total, few)]
  }

  lemma VotersOfOne(now: nat)
    ensures Voters(PendingAt(RunActions(Initial(now, 0), []))) + {1} == {1}
  {
  }

  /** From 2^63 on, one validator of at most a third of the weight moves the view alone; at 2^63
      a weight of 1 is enough. */
  lemma LargeTotalMoves(total: nat, now: nat)
    requires 0x8000_0000_0000_0000 <= total <= U64_MAX
    ensures var w := FewWeights(total);
            && Total(w) == SetWeight(w, {1, 2}) == total && SetWeight(w, {1}) == w[1] && 3 * w[1] <= total
            && (total == 0x8000_0000_0000_0000 ==> w[1] == 1)
            && Handled(Initial(now, 0), w, total, Message(0, 1, 0, 1)).1
  {
    var w := FewWeights(total);
    assert 2 * total % (U64_MAX + 1) == 2 * total - (U64_MAX + 1);
    TwoWeigh(w);
    assert w.Keys == {1, 2};
    assert {} + {1} == {1};
    SetWeightAdd(w, {}, 1);
  }

  /** With lost weight it is otherwise: a vote counted at full weight still counts after its
      validator has lost that weight, and the view is left by voters of one fifth of the total. */
  lemma LostWeightStillCounts(now: nat)
    ensures var before, after := map[1 := 8, 2 := 2, 3 := 8], map[1 := 0, 2 := 2, 3 := 8];
            var s := Apply(Initial(now, 0), Receive(before, 18, Message(0, 1, 0, 1)));
            && Handled(s, after, 10, Message(0, 1, 0, 2)).1
            && Total(after) == 10 && SetWeight(after, Voters(PendingAt(s)) + {2}) == 2
  {
    var before, after := map[1 := 8, 2 := 2, 3 := 8], map[1 := 0, 2 := 2, 3 := 8];
    FirstVote(now, before);
    TwoWeigh(after);
    assert after.Keys == {1, 2} + {3};
    SetWeightAdd(after, {1, 2}, 3);
  }

  lemma FirstVote(now: nat, weights: map<Address, nat>)
    requires 1 in weights && weights[1] == 8
    ensures var msg := Message(0, 1, 0, 1);
            var s := Apply(Initial(now, 0), Receive(weights, 18, msg));
            && s == Initial(now, 0).(weights := weights, quorum := 12, pending := map[0 := [msg]], pendingWeight := map[0 := 8])
            && Voters(PendingAt(s)) == {1}
  {
    VotersExtend([], Message(0, 1, 0, 1));
    assert [] + [Message(0, 1, 0, 1)] == [Message(0, 1, 0, 1)];
  }

  lemma TwoWeigh(w: map<Address, nat>)
    requires 1 in w && 2 in w
    ensures SetWeight(w, {1} + {2}) == SetWeight(w, {1, 2}) == w[1] + w[2]
  {
    assert {1} + {2} == {1, 2} && {} + {1} == {1};
    SetWeightAdd(w, {1}, 2);
    SetWeightAdd(w, {}, 1);
  }
}
