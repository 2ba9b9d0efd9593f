/** Any number of nodes running `WPoaRound` at one height over the same validator weights.
    A run is any sequence of deliveries, so every interleaving, loss, duplication and
    reordering of messages is a run. */
module Agreement {
  import opened Common
  import opened Weights
  import opened Round

  datatype Input =
    | Propose(block: Hash)
    | Vote(voter: Address, block: Hash, signature: Signature)
    | ViewVote(voter: Address, newView: nat)
    | StartView(newView: nat)
    | NewRound

  datatype Delivery = Delivery(node: nat, input: Input)

  /** An emitted event together with the validators whose messages caused it. */
  datatype Record = Record(node: nat, event: Event, voters: set<Address>)

  datatype Net = Net(phases: map<nat, Phase>, log: seq<Record>)

  function PhaseAt(net: Net, node: nat): Phase {
    if node in net.phases then net.phases[node] else Idle
  }

  function Handle(weights: map<Address, nat>, total: nat, phase: Phase, input: Input): (Phase, seq<Event>) {
    match input
    case Propose(block) => Proposed(phase, block)
    case Vote(voter, block, signature) => Voted(weights, total, phase, voter, block, signature)
    case ViewVote(voter, newView) => ViewVoted(weights, total, phase, voter, newView)
    case StartView(newView) => (ViewChanging(newView, {}, 0), [])
    case NewRound => (Idle, [])
  }

  function Causes(phase: Phase, input: Input, event: Event): set<Address> {
    match event
    case BlockCommitted(_, signatures) => signatures.Keys
    case ViewChangeReady(_) =>
      if phase.ViewChanging? && input.ViewVote? then phase.voters + {input.voter} else {}
    case _ => {}
  }

  /** The sum of all weights, as the constructor stores it. */
  ghost function StoredTotal(weights: map<Address, nat>): nat { Min(Total(weights), U64_MAX) }

  /** The sum of the weights of some validators, as the handlers add it up. */
  ghost function StoredWeight(weights: map<Address, nat>, s: set<Address>): nat { Min(SetWeight(weights, s), U64_MAX) }

  ghost function Step(weights: map<Address, nat>, net: Net, d: Delivery): Net {
    var phase := PhaseAt(net, d.node);
    var (phase', events) := Handle(weights, StoredTotal(weights), phase, d.input);
    Net(net.phases[d.node := phase'],
        net.log + seq(|events|, i requires 0 <= i < |events| =>
                                  Record(d.node, events[i], Causes(phase, d.input, events[i]))))
  }

  ghost function Run(weights: map<Address, nat>, ds: seq<Delivery>): Net {
    if ds == [] then Net(map[], []) else Step(weights, Run(weights, ds[..|ds| - 1]), ds[|ds| - 1])
  }

  // ---------------------------------------------------------------------------
  // What the deliveries say about the validators
  // ---------------------------------------------------------------------------

  ghost predicate VotedFor(ds: seq<Delivery>, voter: Address, block: Hash) {
    exists i :: 0 <= i < |ds| && ds[i].input.Vote? && ds[i].input.voter == voter && ds[i].input.block == block
  }

  /** The vote came with this signature. */
  ghost predicate SignedFor(ds: seq<Delivery>, voter: Address, block: Hash, signature: Signature) {
    exists i :: 0 <= i < |ds| && ds[i].input == Vote(voter, block, signature)
  }

  ghost predicate VotedTwice(ds: seq<Delivery>, voter: Address) {
    exists i, j :: 0 <= i < j < |ds| && ds[i].input.Vote? && ds[j].input.Vote?
                   && ds[i].input.voter == ds[j].input.voter == voter && ds[i].input.block == ds[j].input.block
  }

  ghost predicate WasProposed(ds: seq<Delivery>, block: Hash) {
    exists i :: 0 <= i < |ds| && ds[i].input == Propose(block)
  }

  ghost predicate AskedFor(ds: seq<Delivery>, voter: Address, view: nat) {
    exists i :: 0 <= i < |ds| && ds[i].input == ViewVote(voter, view)
  }

  ghost predicate Equivocates(ds: seq<Delivery>, voter: Address) {
    exists a, b :: a != b && VotedFor(ds, voter, a) && VotedFor(ds, voter, b)
  }

  ghost function Equivocators(ds: seq<Delivery>): set<Address> {
    set i | 0 <= i < |ds| && ds[i].input.Vote? && Equivocates(ds, ds[i].input.voter) :: ds[i].input.voter
  }

  ghost predicate Backed(weights: map<Address, nat>, ds: seq<Delivery>, voters: set<Address>, block: Hash) {
    voters <= weights.Keys && forall v :: v in voters ==> VotedFor(ds, v, block)
  }

  ghost predicate CommitsAgree(net: Net) {
    forall r, s :: r in net.log && s in net.log && r.event.BlockCommitted? && s.event.BlockCommitted?
                   ==> r.event.block == s.event.block
  }

  // ---------------------------------------------------------------------------
  // Invariant of every reachable network
  // ---------------------------------------------------------------------------

  /** Every signature collected for the block came with its vote, and the block was proposed. */
  ghost predicate Collected(ds: seq<Delivery>, block: Hash, signatures: map<Address, Signature>) {
    WasProposed(ds, block) && forall v :: v in signatures ==> SignedFor(ds, v, block, signatures[v])
  }

  ghost predicate Asked(weights: map<Address, nat>, ds: seq<Delivery>, voters: set<Address>, view: nat) {
    voters <= weights.Keys && forall v :: v in voters ==> AskedFor(ds, v, view)
  }

  /** The recorded weight is the saturated sum over the distinct voters, each of whom did vote for
      the block, or ask for the view. */
  ghost predicate PhaseOk(weights: map<Address, nat>, ds: seq<Delivery>, phase: Phase) {
    match phase
    case Voting(block, votes, voteWeight) =>
      Backed(weights, ds, votes.Keys, block) && Collected(ds, block, votes) && voteWeight == StoredWeight(weights, votes.Keys)
    case ViewChanging(view, voters, voteWeight) =>
      Asked(weights, ds, voters, view) && voteWeight == StoredWeight(weights, voters)
    case _ => true
  }

  /** Validators whose votes together commit a block. */
  ghost predicate IsQuorum(weights: map<Address, nat>, s: set<Address>) {
    && s <= weights.Keys
    && StoredTotal(weights) > 0 && StoredWeight(weights, s) >= StrictQuorum(StoredTotal(weights))
  }

  /** Validators whose votes together complete a view change. */
  ghost predicate IsViewQuorum(weights: map<Address, nat>, s: set<Address>) {
    && s <= weights.Keys
    && StoredTotal(weights) > 0 && StoredWeight(weights, s) >= ViewQuorum(StoredTotal(weights))
  }

  /** What every event says is what was delivered. */
  ghost predicate RecordOk(weights: map<Address, nat>, ds: seq<Delivery>, r: Record) {
    match r.event
    case ProposeAccepted(block) => WasProposed(ds, block)
    case VoteNeeded(block) => WasProposed(ds, block)
    case BlockCommitted(block, signatures) =>
      && r.voters == signatures.Keys && Backed(weights, ds, r.voters, block) && Collected(ds, block, signatures)
      && IsQuorum(weights, r.voters)
    case ViewChangeReady(view) => Asked(weights, ds, r.voters, view) && IsViewQuorum(weights, r.voters)
    case DuplicateVote(voter) => voter in weights && VotedTwice(ds, voter)
    case WrongBlockHash(expected, got) =>
      expected != got && WasProposed(ds, expected) && exists v :: v in weights && VotedFor(ds, v, got)
  }

  ghost predicate NetOk(weights: map<Address, nat>, ds: seq<Delivery>, net: Net) {
    && (forall node :: PhaseOk(weights, ds, PhaseAt(net, node)))
    && (forall r :: r in net.log ==> RecordOk(weights, ds, r))
  }

  /** What was delivered stays delivered. */
  lemma DeliveredExtends(ds: seq<Delivery>, d: Delivery)
    ensures forall v, b :: VotedFor(ds, v, b) ==> VotedFor(ds + [d], v, b)
    ensures forall v, b, s :: SignedFor(ds, v, b, s) ==> SignedFor(ds + [d], v, b, s)
    ensures forall v, w :: AskedFor(ds, v, w) ==> AskedFor(ds + [d], v, w)
    ensures forall v :: VotedTwice(ds, v) ==> VotedTwice(ds + [d], v)
    ensures forall b :: WasProposed(ds, b) ==> WasProposed(ds + [d], b)
  {
    var all := ds + [d];
    assert forall i :: 0 <= i < |ds| ==> all[i] == ds[i];
  }

  lemma PhaseOkExtends(weights: map<Address, nat>, ds: seq<Delivery>, d: Delivery, phase: Phase)
    requires PhaseOk(weights, ds, phase)
    ensures PhaseOk(weights, ds + [d], phase)
  {
    DeliveredExtends(ds, d);
  }

  lemma RecordOkExtends(weights: map<Address, nat>, ds: seq<Delivery>, d: Delivery, r: Record)
    requires RecordOk(weights, ds, r)
    ensures RecordOk(weights, ds + [d], r)
  {
    DeliveredExtends(ds, d);
  }

  lemma NetOkExtends(weights: map<Address, nat>, ds: seq<Delivery>, d: Delivery, net: Net)
    requires NetOk(weights, ds, net)
    ensures NetOk(weights, ds + [d], net)
  {
    forall node ensures PhaseOk(weights, ds + [d], PhaseAt(net, node)) {
      PhaseOkExtends(weights, ds, d, PhaseAt(net, node));
    }
    forall r | r in net.log ensures RecordOk(weights, ds + [d], r) {
      RecordOkExtends(weights, ds, d, r);
    }
  }

  /** Adding a voter adds exactly that voter's weight, up to 64 bits. */
  lemma StoredWeightAdd(weights: map<Address, nat>, s: set<Address>, voter: Address)
    requires voter in weights && voter !in s
    ensures StoredWeight(weights, s + {voter}) == SatAdd(StoredWeight(weights, s), weights[voter])
  {
    SetWeightAdd(weights, s, voter);
  }

  ghost predicate HandledOk(weights: map<Address, nat>, ds: seq<Delivery>, phase: Phase, d: Delivery) {
    var (phase', events) := Handle(weights, StoredTotal(weights), phase, d.input);
    && PhaseOk(weights, ds, phase')
    && (forall e :: e in events ==> RecordOk(weights, ds, Record(d.node, e, Causes(phase, d.input, e))))
  }

  /** A vote that is only reported. */
  lemma ReportedVoteOk(weights: map<Address, nat>, ds: seq<Delivery>, phase: Phase, d: Delivery)
    requires PhaseOk(weights, ds, phase) && phase.Voting? && d.input.Vote? && d.input.voter in weights
    requires d.input.block != phase.block || d.input.voter in phase.votes
    ensures HandledOk(weights, ds + [d], phase, d)
  {
    var voter, block, all := d.input.voter, d.input.block, ds + [d];
    PhaseOkExtends(weights, ds, d, phase);
    assert all[|ds|] == d;
    if block == phase.block {
      var i :| 0 <= i < |ds| && ds[i].input.Vote? && ds[i].input.voter == voter && ds[i].input.block == block;
      assert all[i] == ds[i];
      assert VotedTwice(all, voter);
    } else {
      assert VotedFor(all, voter, block);
    }
  }

  lemma CollectedAdd(weights: map<Address, nat>, ds: seq<Delivery>, phase: Phase, d: Delivery)
    requires PhaseOk(weights, ds, phase) && phase.Voting? && d.input.Vote? && d.input.voter in weights
    requires d.input.block == phase.block
    ensures var votes := phase.votes[d.input.voter := d.input.signature];
            Backed(weights, ds + [d], votes.Keys, phase.block) && Collected(ds + [d], phase.block, votes)
  {
    DeliveredExtends(ds, d);
    assert (ds + [d])[|ds|] == d;
    assert VotedFor(ds + [d], d.input.voter, phase.block);
    assert SignedFor(ds + [d], d.input.voter, phase.block, d.input.signature);
  }

  /** A vote that is counted. */
  lemma CountedVoteOk(weights: map<Address, nat>, ds: seq<Delivery>, phase: Phase, d: Delivery)
    requires PhaseOk(weights, ds, phase) && phase.Voting? && d.input.Vote? && d.input.voter in weights
    requires d.input.block == phase.block && d.input.voter !in phase.votes
    ensures HandledOk(weights, ds + [d], phase, d)
  {
    CollectedAdd(weights, ds, phase, d);
    assert phase.votes[d.input.voter := d.input.signature].Keys == phase.votes.Keys + {d.input.voter};
    StoredWeightAdd(weights, phase.votes.Keys, d.input.voter);
  }

  lemma VoteOk(weights: map<Address, nat>, ds: seq<Delivery>, phase: Phase, d: Delivery)
    requires PhaseOk(weights, ds, phase) && d.input.Vote?
    ensures HandledOk(weights, ds + [d], phase, d)
  {
    if d.input.voter !in weights || !phase.Voting? {
      PhaseOkExtends(weights, ds, d, phase);
    } else if d.input.block != phase.block || d.input.voter in phase.votes {
      ReportedVoteOk(weights, ds, phase, d);
    } else {
      CountedVoteOk(weights, ds, phase, d);
    }
  }

  lemma ViewVoteOk(weights: map<Address, nat>, ds: seq<Delivery>, phase: Phase, d: Delivery)
    requires PhaseOk(weights, ds, phase) && d.input.ViewVote?
    ensures HandledOk(weights, ds + [d], phase, d)
  {
    var voter := d.input.voter;
    PhaseOkExtends(weights, ds, d, phase);
    assert (ds + [d])[|ds|] == d;
    if voter in weights && phase.ViewChanging? && phase.newView == d.input.newView && voter !in phase.voters {
      StoredWeightAdd(weights, phase.voters, voter);
      assert AskedFor(ds + [d], voter, phase.newView);
    }
  }

  /** One handled input keeps the phase in order, and its events say what was delivered. */
  lemma HandleOk(weights: map<Address, nat>, ds: seq<Delivery>, phase: Phase, d: Delivery)
    requires PhaseOk(weights, ds, phase)
    ensures HandledOk(weights, ds + [d], phase, d)
  {
    match d.input {
      case Vote(_, _, _) => VoteOk(weights, ds, phase, d);
      case ViewVote(_, _) => ViewVoteOk(weights, ds, phase, d);
      case Propose(block) =>
        PhaseOkExtends(weights, ds, d, phase);
        assert (ds + [d])[|ds|] == d;
        assert WasProposed(ds + [d], block);
      case _ =>
    }
  }

  lemma {:induction false} RunOk(weights: map<Address, nat>, ds: seq<Delivery>)
    ensures NetOk(weights, ds, Run(weights, ds))
  {
    if ds != [] {
      var before, d := ds[..|ds| - 1], ds[|ds| - 1];
      assert before + [d] == ds;
      var net := Run(weights, before);
      RunOk(weights, before);
      NetOkExtends(weights, before, d, net);
      HandleOk(weights, before, PhaseAt(net, d.node), d);
      var net' := Step(weights, net, d);
      forall node ensures PhaseOk(weights, ds, PhaseAt(net', node)) {
        assert PhaseOk(weights, ds, PhaseAt(net, node));
      }
    }
  }

  // ---------------------------------------------------------------------------
  // Agreement
  // ---------------------------------------------------------------------------

  /** Voters backing two different blocks have equivocated. */
  lemma CommonBackersEquivocate(weights: map<Address, nat>, ds: seq<Delivery>,
                                a: set<Address>, b: set<Address>, blockA: Hash, blockB: Hash)
    requires Backed(weights, ds, a, blockA) && Backed(weights, ds, b, blockB) && blockA != blockB
    ensures a * b <= Equivocators(ds)
  {
    forall v | v in a * b ensures v in Equivocators(ds) {
      assert VotedFor(ds, v, blockA) && VotedFor(ds, v, blockB);
      var i :| 0 <= i < |ds| && ds[i].input.Vote? && ds[i].input.voter == v && ds[i].input.block == blockA;
      assert Equivocates(ds, ds[i].input.voter);
    }
  }

  /** Two commits of different blocks need equivocators of weight `2 * quorum - total`, where
      the quorum is that of the stored total and the total is not saturated. */
  lemma Agreement(weights: map<Address, nat>, ds: seq<Delivery>)
    requires SetWeight(weights, Equivocators(ds)) + Total(weights) < 2 * StrictQuorum(StoredTotal(weights))
    ensures CommitsAgree(Run(weights, ds))
  {
    RunOk(weights, ds);
    var net := Run(weights, ds);
    forall r, s | r in net.log && s in net.log && r.event.BlockCommitted? && s.event.BlockCommitted?
      ensures r.event.block == s.event.block
    {
      assert RecordOk(weights, ds, r) && RecordOk(weights, ds, s);
      if r.event.block != s.event.block {
        CommonBackersEquivocate(weights, ds, r.voters, s.voters, r.event.block, s.event.block);
        SetWeightMonotone(weights, r.voters * s.voters, Equivocators(ds));
        Overlap(weights, r.voters, s.voters);
        assert false;
      }
    }
  }

  /** Under every interleaving, if the validators that voted for more than one block weigh
      at most a third of the total, no two nodes commit different blocks. */
  lemma AgreementBelowOneThird(weights: map<Address, nat>, ds: seq<Delivery>)
    requires Total(weights) <= U64_MAX
    requires 3 * SetWeight(weights, Equivocators(ds)) <= Total(weights)
    ensures CommitsAgree(Run(weights, ds))
  {
    if Total(weights) > 0 {
      Agreement(weights, ds);
    } else {
      RunOk(weights, ds);
    }
  }

  /** Whoever moves a node to a new view shares more than a third of the weight with
      whoever commits a block anywhere in the run. */
  lemma ViewChangeMeetsCommit(weights: map<Address, nat>, ds: seq<Delivery>, r: Record, s: Record)
    requires Total(weights) <= U64_MAX
    requires r in Run(weights, ds).log && r.event.ViewChangeReady?
    requires s in Run(weights, ds).log && s.event.BlockCommitted?
    ensures 3 * SetWeight(weights, r.voters * s.voters) > Total(weights)
  {
    RunOk(weights, ds);
    assert RecordOk(weights, ds, r) && RecordOk(weights, ds, s);
    SetWeightBounded(weights, r.voters);
    SetWeightBounded(weights, s.voters);
    Overlap(weights, r.voters, s.voters);
  }

  // ---------------------------------------------------------------------------
  // The condition is exact
  // ---------------------------------------------------------------------------

  ghost function RunFrom(weights: map<Address, nat>, net: Net, ds: seq<Delivery>): Net {
    if ds == [] then net else Step(weights, RunFrom(weights, net, ds[..|ds| - 1]), ds[|ds| - 1])
  }

  lemma {:induction false} RunSplits(weights: map<Address, nat>, a: seq<Delivery>, b: seq<Delivery>)
    ensures Run(weights, a + b) == RunFrom(weights, Run(weights, a), b)
  {
    if b == [] {
      assert a + b == a;
    } else {
      RunSplits(weights, a, b[..|b| - 1]);
      assert (a + b)[..|a + b| - 1] == a + b[..|b| - 1];
    }
  }

  /** One node is shown a proposal and then the votes of `voters`, in order. */
  function Ballot(node: nat, block: Hash, voters: seq<Address>): seq<Delivery> {
    if voters == [] then [Delivery(node, Propose(block))]
    else Ballot(node, block, voters[..|voters| - 1]) + [Delivery(node, Vote(voters[|voters| - 1], block, []))]
  }

  ghost predicate Commits(net: Net, node: nat, block: Hash) {
    exists r :: r in net.log && r.node == node && r.event.BlockCommitted? && r.event.block == block
  }

  lemma LogGrows(weights: map<Address, nat>, net: Net, ds: seq<Delivery>)
    ensures net.log <= RunFrom(weights, net, ds).log
  {
    if ds != [] {
      LogGrows(weights, net, ds[..|ds| - 1]);
    }
  }

  /** Until the ballot commits, the node has counted exactly the votes in `seen`. */
  ghost predicate BallotState(weights: map<Address, nat>, net: Net, node: nat, block: Hash, seen: set<Address>) {
    var phase := PhaseAt(net, node);
    || Commits(net, node, block)
    || (&& phase.Voting? && phase.block == block && phase.votes.Keys == seen
        && phase.voteWeight == StoredWeight(weights, seen) < StrictQuorum(StoredTotal(weights)))
  }

  lemma BallotVote(weights: map<Address, nat>, net: Net, node: nat, block: Hash, seen: set<Address>, voter: Address)
    requires StoredTotal(weights) > 0
    requires BallotState(weights, net, node, block, seen)
    requires voter in weights && voter !in seen
    ensures BallotState(weights, Step(weights, net, Delivery(node, Vote(voter, block, []))), node, block, seen + {voter})
  {
    var d := Delivery(node, Vote(voter, block, []));
    var net' := Step(weights, net, d);
    if Commits(net, node, block) {
      var r :| r in net.log && r.node == node && r.event.BlockCommitted? && r.event.block == block;
      assert r in net'.log;
    } else {
      SetWeightAdd(weights, seen, voter);
      var phase := PhaseAt(net, node);
      var (phase', events) := Voted(weights, StoredTotal(weights), phase, voter, block, []);
      assert phase.votes[voter := []].Keys == seen + {voter};
      if StoredWeight(weights, seen + {voter}) >= StrictQuorum(StoredTotal(weights)) {
        var r := net'.log[|net.log|];
        assert r.node == node && r.event == events[0] && r in net'.log;
      }
    }
  }

  lemma {:induction false} BallotCounts(weights: map<Address, nat>, net: Net, node: nat, block: Hash,
                                        voters: seq<Address>)
    requires StoredTotal(weights) > 0
    requires PhaseAt(net, node) == Idle
    requires forall i :: 0 <= i < |voters| ==> voters[i] in weights
    requires forall i, j :: 0 <= i < j < |voters| ==> voters[i] != voters[j]
    ensures BallotState(weights, RunFrom(weights, net, Ballot(node, block, voters)), node, block, Members(voters))
  {
    if voters == [] {
      assert RunFrom(weights, net, []) == net;
      assert Members(voters) == {};
    } else {
      var rest, last := voters[..|voters| - 1], voters[|voters| - 1];
      BallotCounts(weights, net, node, block, rest);
      assert Ballot(node, block, voters)[..|Ballot(node, block, voters)| - 1] == Ballot(node, block, rest);
      assert Members(voters) == Members(rest) + {last};
      BallotVote(weights, RunFrom(weights, net, Ballot(node, block, rest)), node, block, Members(rest), last);
    }
  }

  lemma {:induction false} BallotVotes(node: nat, block: Hash, voters: seq<Address>)
    ensures forall d :: d in Ballot(node, block, voters) ==> d.node == node
    ensures forall d :: d in Ballot(node, block, voters) && d.input.Vote?
                        ==> d.input.voter in voters && d.input.block == block
  {
    if voters != [] {
      BallotVotes(node, block, voters[..|voters| - 1]);
    }
  }

  lemma OtherNodesIdle(weights: map<Address, nat>, ds: seq<Delivery>, node: nat)
    requires forall d :: d in ds ==> d.node != node
    ensures PhaseAt(Run(weights, ds), node) == Idle
  {
    if ds != [] {
      OtherNodesIdle(weights, ds[..|ds| - 1], node);
    }
  }

  ghost function Members(q: seq<Address>): set<Address> { set v | v in q }

  lemma {:induction false} Enumerate(s: set<Address>) returns (q: seq<Address>)
    ensures Members(q) == s
    ensures forall i, j :: 0 <= i < j < |q| ==> q[i] != q[j]
    decreases |s|
  {
    if s == {} {
      q := [];
      assert Members(q) == {};
    } else {
      var x :| x in s;
      var rest := Enumerate(s - {x});
      q := rest + [x];
      assert forall i :: 0 <= i < |rest| ==> rest[i] in Members(rest);
      assert Members(q) == Members(rest) + {x};
    }
  }

  /** A node that is idle commits once it is shown the votes of a quorum. */
  lemma BallotCommits(weights: map<Address, nat>, net: Net, node: nat, block: Hash, s: set<Address>, voters: seq<Address>)
    requires PhaseAt(net, node) == Idle && IsQuorum(weights, s)
    requires Members(voters) == s
    requires forall i, j :: 0 <= i < j < |voters| ==> voters[i] != voters[j]
    ensures Commits(RunFrom(weights, net, Ballot(node, block, voters)), node, block)
  {
    forall i | 0 <= i < |voters| ensures voters[i] in weights {
      assert voters[i] in Members(voters);
    }
    BallotCounts(weights, net, node, block, voters);
  }

  lemma BallotsCommit(weights: map<Address, nat>, a: set<Address>, b: set<Address>,
                      qa: seq<Address>, qb: seq<Address>)
    requires IsQuorum(weights, a) && IsQuorum(weights, b)
    requires Members(qa) == a && forall i, j :: 0 <= i < j < |qa| ==> qa[i] != qa[j]
    requires Members(qb) == b && forall i, j :: 0 <= i < j < |qb| ==> qb[i] != qb[j]
    ensures !CommitsAgree(Run(weights, Ballot(0, 1, qa) + Ballot(1, 2, qb)))
  {
    var first, second := Ballot(0, 1, qa), Ballot(1, 2, qb);
    RunSplits(weights, [], first);
    assert [] + first == first;
    var mid := Run(weights, first);
    BallotCommits(weights, Run(weights, []), 0, 1, a, qa);
    RunSplits(weights, first, second);
    BallotVotes(0, 1, qa);
    OtherNodesIdle(weights, first, 1);
    BallotCommits(weights, mid, 1, 2, b, qb);
    LogGrows(weights, mid, second);
    var end := Run(weights, first + second);
    var r :| r in mid.log && r.event.BlockCommitted? && r.event.block == 1;
    assert r in end.log;
    var s :| s in end.log && s.event.BlockCommitted? && s.event.block == 2;
  }

  /** Two quorums can commit different blocks with only their common members equivocating. */
  lemma QuorumsCanDisagree(weights: map<Address, nat>, a: set<Address>, b: set<Address>)
    returns (ds: seq<Delivery>)
    requires IsQuorum(weights, a) && IsQuorum(weights, b)
    ensures Equivocators(ds) <= a * b
    ensures !CommitsAgree(Run(weights, ds))
  {
    var qa := Enumerate(a);
    var qb := Enumerate(b);
    var first, second := Ballot(0, 1, qa), Ballot(1, 2, qb);
    ds := first + second;
    BallotsCommit(weights, a, b, qa, qb);
    BallotVotes(0, 1, qa);
    BallotVotes(1, 2, qb);
    assert forall v :: v in qa ==> v in Members(qa);
    assert forall v :: v in qb ==> v in Members(qb);
    forall v | v in Equivocators(ds) ensures v in a * b {
      var x, y :| x != y && VotedFor(ds, v, x) && VotedFor(ds, v, y);
      VotesOf(first, second, v, x, a, b);
      VotesOf(first, second, v, y, a, b);
    }
  }

  lemma VotesOf(first: seq<Delivery>, second: seq<Delivery>, v: Address, block: Hash,
                a: set<Address>, b: set<Address>)
    requires VotedFor(first + second, v, block)
    requires forall d :: d in first && d.input.Vote? ==> d.input.voter in a && d.input.block == 1
    requires forall d :: d in second && d.input.Vote? ==> d.input.voter in b && d.input.block == 2
    ensures (block == 1 && v in a) || (block == 2 && v in b)
  {
    var ds := first + second;
    var i :| 0 <= i < |ds| && ds[i].input.Vote? && ds[i].input.voter == v && ds[i].input.block == block;
    assert ds[i] in first || ds[i] in second;
  }

  /** Every run whose equivocators lie in `faulty` agrees exactly when no two quorums
      have all their common members in `faulty`. This is for all weights, whether or not
      their sum fits in 64 bits. */
  lemma AgreementExact(weights: map<Address, nat>, faulty: set<Address>)
    ensures (forall ds :: Equivocators(ds) <= faulty ==> CommitsAgree(Run(weights, ds)))
            <==> (forall a, b :: IsQuorum(weights, a) && IsQuorum(weights, b) ==> !(a * b <= faulty))
  {
    if a, b :| IsQuorum(weights, a) && IsQuorum(weights, b) && a * b <= faulty {
      var ds := QuorumsCanDisagree(weights, a, b);
      assert Equivocators(ds) <= faulty;
    } else {
      forall ds | Equivocators(ds) <= faulty ensures CommitsAgree(Run(weights, ds)) {
        RunOk(weights, ds);
        var net := Run(weights, ds);
        forall r, s | r in net.log && s in net.log && r.event.BlockCommitted? && s.event.BlockCommitted?
          ensures r.event.block == s.event.block
        {
          assert RecordOk(weights, ds, r) && RecordOk(weights, ds, s);
          assert IsQuorum(weights, r.voters) && IsQuorum(weights, s.voters);
          if r.event.block != s.event.block {
            CommonBackersEquivocate(weights, ds, r.voters, s.voters, r.event.block, s.event.block);
            assert false;
          }
        }
      }
    }
  }

  /** When the stored total saturates, two validators can each be a quorum: both commit their
      own block and nobody equivocates. */
  lemma SaturatedTotalDisagrees() returns (weights: map<Address, nat>, ds: seq<Delivery>)
    ensures forall v :: v in weights ==> weights[v] <= U64_MAX
    ensures Equivocators(ds) == {}
    ensures !CommitsAgree(Run(weights, ds))
  {
    weights := map[1 := U64_MAX, 2 := U64_MAX];
    LoneQuorum(weights, 1);
    LoneQuorum(weights, 2);
    ds := QuorumsCanDisagree(weights, {1}, {2});
  }

  lemma LoneQuorum(weights: map<Address, nat>, v: Address)
    requires v in weights && weights[v] == U64_MAX
    ensures IsQuorum(weights, {v})
  {
    SetWeightRemove(weights, {v}, v);
    assert {v} - {v} == {};
    SetWeightBounded(weights, {v});
  }

  /** Saturation alone does no harm: these weights saturate too, and every run without
      equivocators agrees. */
  lemma SaturatedTotalCanAgree() returns (weights: map<Address, nat>)
    ensures forall v :: v in weights ==> weights[v] <= U64_MAX
    ensures Total(weights) > U64_MAX
    ensures forall ds :: Equivocators(ds) == {} ==> CommitsAgree(Run(weights, ds))
  {
    weights := map[1 := U64_MAX, 2 := 1];
    SetWeightRemove(weights, weights.Keys, 1);
    assert weights.Keys - {1} == {2};
    SetWeightRemove(weights, {2}, 2);
    assert {2} - {2} == {};
    forall ds | Equivocators(ds) == {} ensures CommitsAgree(Run(weights, ds)) {
      Agreement(weights, ds);
    }
  }
}
