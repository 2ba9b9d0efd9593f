/** Two trackers that are told the same things in different orders end in the same state. */
module Convergence {
  import opened Common
  import opened BlockTree
  import opened ForkChoice
  import opened ForkChoiceRuns

  /** What a node learns from the network: blocks, growing weights and finalized blocks. */
  ghost predicate Delivers(t: Tree, op: Op) {
    match op
    case Add(_, _, _, _, _) => true
    case Reweigh(h, weight) => h in t.scores && t.scores[h].weight <= weight
    case Finalize(h) => h in t.scores
    case _ => false
  }

  ghost predicate IsDelivery(chain: Parents, genesis: Hash, ops: seq<Op>, states: seq<Tree>) {
    && IsRun(chain, genesis, ops, states)
    && genesis in chain && chain[genesis] == ZERO_HASH
    && (forall i :: 0 <= i < |ops| ==> Delivers(states[i], ops[i]))
  }

  /** The finalized blocks lie on one branch. */
  ghost predicate OneBranch(chain: Parents, ops: seq<Op>) {
    forall a, b :: Finalize(a) in ops && Finalize(b) in ops ==> Reaches(chain, a, b) || Reaches(chain, b, a)
  }

  // ---------------------------------------------------------------------------
  // A state described by what was delivered, not by the order
  // ---------------------------------------------------------------------------

  ghost predicate Adds(o: Op, x: Hash) { o.Add? && o.h == x }

  ghost predicate Weighs(o: Op, x: Hash) { (o.Add? || o.Reweigh?) && o.h == x }

  ghost predicate BlocksTold(chain: Parents, genesis: Hash, done: seq<Op>, t: Tree) {
    && genesis in t.parent && genesis in t.scores && t.scores[genesis].number == 0
    && (forall x :: x in t.parent ==> x in chain && t.parent[x] == chain[x])
    && (forall x :: x in t.parent && x != genesis ==> exists o :: o in done && Adds(o, x))
    && (forall o :: o in done && o.Add? ==> o.h in t.scores && o.h != genesis && t.scores[o.h].number == o.number)
  }

  /** The largest weight told about a block. */
  ghost function TopWeight(done: seq<Op>, x: Hash): nat {
    if done == [] then 0
    else
      var top, last := TopWeight(done[..|done| - 1], x), done[|done| - 1];
      if Weighs(last, x) && last.weight > top then last.weight else top
  }

  ghost predicate WeightsTold(done: seq<Op>, t: Tree) {
    forall x :: TopWeight(done, x) == if x in t.scores then t.scores[x].weight else 0
  }

  /** The finalized root is the lowest of the finalized blocks told. */
  ghost predicate RootTold(chain: Parents, done: seq<Op>, t: Tree) {
    && (t.root.None? ==> forall a :: Finalize(a) !in done)
    && (t.root.Some? ==> Finalize(t.root.value) in done && forall a :: Finalize(a) in done ==> Reaches(chain, t.root.value, a))
  }

  ghost predicate FlagsTold(genesis: Hash, done: seq<Op>, t: Tree) {
    t.root.None? ==>
      && genesis in t.scores && !t.scores[genesis].finalized
      && (forall o :: o in done && o.Add? ==> o.h in t.scores && t.scores[o.h].finalized == o.flag)
  }

  /** Below a known block, the tree and the hash chain know the same ancestors. */
  lemma ToldReaches(chain: Parents, genesis: Hash, done: seq<Op>, t: Tree, x: Hash, a: Hash)
    requires Shape(chain, t) && BlocksTold(chain, genesis, done, t) && x in t.parent
    ensures Reaches(t.parent, x, a) <==> Reaches(chain, x, a)
  {
    ReachesAgrees(t.parent, chain, t.parent.Keys + {ZERO_HASH}, x, a);
  }

  ghost predicate SameNumbers(t: Tree, t': Tree) {
    forall x :: x in t.scores ==> x in t'.scores && t'.scores[x].number == t.scores[x].number
  }

  lemma BlocksStay(chain: Parents, genesis: Hash, done: seq<Op>, t: Tree, op: Op, t': Tree)
    requires BlocksTold(chain, genesis, done, t) && !op.Add?
    requires t'.parent == t.parent && SameNumbers(t, t')
    ensures BlocksTold(chain, genesis, done + [op], t')
  {
    forall x | x in t'.parent && x != genesis ensures exists o :: o in done + [op] && Adds(o, x) {
      var o :| o in done && Adds(o, x);
      assert o in done + [op];
    }
  }

  lemma BlocksAdd(chain: Parents, genesis: Hash, done: seq<Op>, t: Tree, op: Op, t': Tree)
    requires BlocksTold(chain, genesis, done, t) && op.Add? && op.h !in t.parent && op.h in chain && chain[op.h] == op.p
    requires t'.parent == t.parent[op.h := op.p] && SameNumbers(t, t')
    requires op.h in t'.scores && t'.scores[op.h].number == op.number
    ensures BlocksTold(chain, genesis, done + [op], t')
  {
    forall x | x in t'.parent && x != genesis ensures exists o :: o in done + [op] && Adds(o, x) {
      if x == op.h {
        assert op in done + [op] && Adds(op, x);
      } else {
        var o :| o in done && Adds(o, x);
        assert o in done + [op];
      }
    }
  }

  /** Telling a weight that is at least the recorded one records it and nothing else. */
  lemma WeightsGrow(done: seq<Op>, t: Tree, op: Op, t': Tree)
    requires WeightsTold(done, t)
    requires forall x :: x in t.scores ==> x in t'.scores && t.scores[x].weight <= t'.scores[x].weight
    requires forall x :: x in t'.scores && !Weighs(op, x) ==> x in t.scores && t'.scores[x].weight == t.scores[x].weight
    requires op.Add? || op.Reweigh? ==> op.h in t'.scores && t'.scores[op.h].weight == op.weight
    ensures WeightsTold(done + [op], t')
  {
    assert (done + [op])[..|done|] == done;
  }

  lemma RootStays(chain: Parents, done: seq<Op>, t: Tree, op: Op, t': Tree)
    requires RootTold(chain, done, t) && !op.Finalize? && t'.root == t.root
    ensures RootTold(chain, done + [op], t')
  {
    forall a ensures Finalize(a) in done + [op] <==> Finalize(a) in done {
    }
  }

  lemma AddWeights(done: seq<Op>, t: Tree, op: Op, t': Tree)
    requires WeightsTold(done, t) && op.Add? && op.h !in t.scores
    requires t' == Added(t, op.h, op.p, op.number, op.weight, op.flag).0
    ensures WeightsTold(done + [op], t')
  {
    assert t'.scores == t.scores[op.h := NewScore(t, op.h, op.p, op.number, op.weight, op.flag)];
    WeightsGrow(done, t, op, t');
  }

  lemma AddFlags(genesis: Hash, done: seq<Op>, t: Tree, op: Op, t': Tree)
    requires FlagsTold(genesis, done, t) && op.Add? && op.h !in t.scores
    requires t' == Added(t, op.h, op.p, op.number, op.weight, op.flag).0
    ensures FlagsTold(genesis, done + [op], t')
  {
    assert t'.scores == t.scores[op.h := NewScore(t, op.h, op.p, op.number, op.weight, op.flag)];
  }

  lemma ReweighWeights(done: seq<Op>, t: Tree, op: Op, t': Tree)
    requires WeightsTold(done, t) && op.Reweigh? && Delivers(t, op)
    requires t' == Reweighted(t, op.h, op.weight).0
    ensures WeightsTold(done + [op], t')
  {
    assert t'.scores == t.scores[op.h := t.scores[op.h].(weight := op.weight)];
    WeightsGrow(done, t, op, t');
  }

  lemma FlagsStay(genesis: Hash, done: seq<Op>, t: Tree, op: Op, t': Tree)
    requires FlagsTold(genesis, done, t) && !op.Add? && (t'.root.None? ==> t.root.None?)
    requires t'.root.None? ==> forall x :: x in t.scores ==> x in t'.scores && t'.scores[x].finalized == t.scores[x].finalized
    ensures FlagsTold(genesis, done + [op], t')
  {
  }

  /** A finalized block off the current branch is refused, and is then above the root. */
  lemma FinalizeRoot(chain: Parents, genesis: Hash, done: seq<Op>, t: Tree, h: Hash, t': Tree)
    requires BlocksTold(chain, genesis, done, t) && RootTold(chain, done, t) && Shape(chain, t) && FinalOk(t)
    requires h in t.scores && Finalizes(t, h, t', t'.head != t.head)
    requires OneBranch(chain, done + [Finalize(h)])
    ensures RootTold(chain, done + [Finalize(h)], t')
  {
    var done' := done + [Finalize(h)];
    assert Finalize(h) in done' && forall o :: o in done ==> o in done';
    if t.root.Some? {
      var r := t.root.value;
      ToldReaches(chain, genesis, done, t, h, r);
      ReachesSelf(chain, r);
      assert Reaches(chain, h, r) || Reaches(chain, r, h);
      if Reaches(chain, h, r) {
        forall a | Finalize(a) in done ensures Reaches(chain, h, a) { ReachesTransitive(chain, h, r, a); }
      }
    }
    ReachesSelf(chain, h);
  }

  lemma FinalizeFrame(t: Tree, h: Hash, t': Tree)
    requires Finalizes(t, h, t', t'.head != t.head)
    ensures t'.parent == t.parent && t'.scores.Keys == t.scores.Keys
    ensures forall x :: x in t.scores ==> t'.scores[x] == t.scores[x].(finalized := t'.scores[x].finalized)
  {
  }

  lemma NextBlocks(chain: Parents, genesis: Hash, done: seq<Op>, t: Tree, op: Op, t': Tree)
    requires BlocksTold(chain, genesis, done, t) && t.parent.Keys == t.scores.Keys
    requires Disciplined(chain, t, op) && Delivers(t, op) && Next(t, op, t')
    ensures BlocksTold(chain, genesis, done + [op], t')
  {
    match op {
      case Add(_, _, _, _, _) => BlocksAdd(chain, genesis, done, t, op, t');
      case Reweigh(_, _) => BlocksStay(chain, genesis, done, t, op, t');
      case Finalize(h) =>
        FinalizeFrame(t, h, t');
        BlocksStay(chain, genesis, done, t, op, t');
    }
  }

  lemma NextWeights(chain: Parents, done: seq<Op>, t: Tree, op: Op, t': Tree)
    requires WeightsTold(done, t) && t.parent.Keys == t.scores.Keys
    requires Disciplined(chain, t, op) && Delivers(t, op) && Next(t, op, t')
    ensures WeightsTold(done + [op], t')
  {
    match op {
      case Add(_, _, _, _, _) => AddWeights(done, t, op, t');
      case Reweigh(_, _) => ReweighWeights(done, t, op, t');
      case Finalize(h) =>
        FinalizeFrame(t, h, t');
        WeightsGrow(done, t, op, t');
    }
  }

  lemma NextFlags(chain: Parents, genesis: Hash, done: seq<Op>, t: Tree, op: Op, t': Tree)
    requires FlagsTold(genesis, done, t) && t.parent.Keys == t.scores.Keys
    requires Disciplined(chain, t, op) && Delivers(t, op) && Next(t, op, t')
    ensures FlagsTold(genesis, done + [op], t')
  {
    if op.Add? {
      AddFlags(genesis, done, t, op, t');
    } else {
      FlagsStay(genesis, done, t, op, t');
    }
  }

  lemma NextRoot(chain: Parents, genesis: Hash, done: seq<Op>, t: Tree, op: Op, t': Tree)
    requires BlocksTold(chain, genesis, done, t) && RootTold(chain, done, t) && Shape(chain, t) && FinalOk(t)
    requires Delivers(t, op) && Next(t, op, t') && OneBranch(chain, done + [op])
    ensures RootTold(chain, done + [op], t')
  {
    if op.Finalize? {
      FinalizeRoot(chain, genesis, done, t, op.h, t');
    } else {
      RootStays(chain, done, t, op, t');
    }
  }

  lemma RunKeys(chain: Parents, genesis: Hash, ops: seq<Op>, states: seq<Tree>, i: nat)
    requires IsRun(chain, genesis, ops, states) && i <= |ops|
    ensures states[i].parent.Keys == states[i].scores.Keys
  {
    ForkChoiceRuns.RunOk(chain, genesis, ops, states, i);
  }

  lemma RunShape(chain: Parents, genesis: Hash, ops: seq<Op>, states: seq<Tree>, i: nat)
    requires IsRun(chain, genesis, ops, states) && i <= |ops|
    ensures Shape(chain, states[i]) && FinalOk(states[i])
  {
    ForkChoiceRuns.RunOk(chain, genesis, ops, states, i);
  }

  lemma DeliveryStep(chain: Parents, genesis: Hash, ops: seq<Op>, states: seq<Tree>, i: nat)
    requires IsDelivery(chain, genesis, ops, states) && i < |ops|
    ensures Disciplined(chain, states[i], ops[i]) && Delivers(states[i], ops[i]) && Next(states[i], ops[i], states[i + 1])
  {
  }

  lemma {:induction false} DeliveryBlocks(chain: Parents, genesis: Hash, ops: seq<Op>, states: seq<Tree>, i: nat)
    requires IsDelivery(chain, genesis, ops, states) && i <= |ops|
    ensures BlocksTold(chain, genesis, ops[..i], states[i])
  {
    if i > 0 {
      assert ops[..i] == ops[..i - 1] + [ops[i - 1]];
      DeliveryStep(chain, genesis, ops, states, i - 1);
      DeliveryBlocks(chain, genesis, ops, states, i - 1);
      RunKeys(chain, genesis, ops, states, i - 1);
      NextBlocks(chain, genesis, ops[..i - 1], states[i - 1], ops[i - 1], states[i]);
    }
  }

  lemma {:induction false} DeliveryWeights(chain: Parents, genesis: Hash, ops: seq<Op>, states: seq<Tree>, i: nat)
    requires IsDelivery(chain, genesis, ops, states) && i <= |ops|
    ensures WeightsTold(ops[..i], states[i])
  {
    if i > 0 {
      assert ops[..i] == ops[..i - 1] + [ops[i - 1]];
      DeliveryStep(chain, genesis, ops, states, i - 1);
      DeliveryWeights(chain, genesis, ops, states, i - 1);
      RunKeys(chain, genesis, ops, states, i - 1);
      NextWeights(chain, ops[..i - 1], states[i - 1], ops[i - 1], states[i]);
    }
  }

  lemma {:induction false} DeliveryFlags(chain: Parents, genesis: Hash, ops: seq<Op>, states: seq<Tree>, i: nat)
    requires IsDelivery(chain, genesis, ops, states) && i <= |ops|
    ensures FlagsTold(genesis, ops[..i], states[i])
  {
    if i > 0 {
      assert ops[..i] == ops[..i - 1] + [ops[i - 1]];
      DeliveryStep(chain, genesis, ops, states, i - 1);
      DeliveryFlags(chain, genesis, ops, states, i - 1);
      RunKeys(chain, genesis, ops, states, i - 1);
      NextFlags(chain, genesis, ops[..i - 1], states[i - 1], ops[i - 1], states[i]);
    }
  }

  lemma PrefixOneBranch(chain: Parents, ops: seq<Op>, i: nat)
    requires OneBranch(chain, ops) && i <= |ops|
    ensures OneBranch(chain, ops[..i])
  {
    assert forall o :: o in ops[..i] ==> o in ops;
  }

  lemma {:induction false} DeliveryRoot(chain: Parents, genesis: Hash, ops: seq<Op>, states: seq<Tree>, i: nat)
    requires IsDelivery(chain, genesis, ops, states) && OneBranch(chain, ops) && i <= |ops|
    ensures RootTold(chain, ops[..i], states[i])
  {
    if i > 0 {
      assert ops[..i] == ops[..i - 1] + [ops[i - 1]];
      DeliveryStep(chain, genesis, ops, states, i - 1);
      PrefixOneBranch(chain, ops, i);
      DeliveryRoot(chain, genesis, ops, states, i - 1);
      DeliveryBlocks(chain, genesis, ops, states, i - 1);
      RunShape(chain, genesis, ops, states, i - 1);
      NextRoot(chain, genesis, ops[..i - 1], states[i - 1], ops[i - 1], states[i]);
    }
  }

  // ---------------------------------------------------------------------------
  // The description determines the state, and is determined by it
  // ---------------------------------------------------------------------------

  ghost predicate AddsAt(ops: seq<Op>, x: Hash, number: nat) { exists o :: o in ops && Adds(o, x) && o.number == number }

  ghost predicate AddsFlag(ops: seq<Op>, x: Hash, flag: bool) { exists o :: o in ops && Adds(o, x) && o.flag == flag }

  ghost predicate SameBlocks(a: seq<Op>, b: seq<Op>) { forall x, n :: AddsAt(a, x, n) <==> AddsAt(b, x, n) }

  ghost predicate SameWeights(a: seq<Op>, b: seq<Op>) { forall x :: TopWeight(a, x) == TopWeight(b, x) }

  ghost predicate SameFlags(a: seq<Op>, b: seq<Op>) { forall x, f :: AddsFlag(a, x, f) <==> AddsFlag(b, x, f) }

  /** What a tracker holds is what it was told. */
  lemma BlocksHeld(chain: Parents, genesis: Hash, done: seq<Op>, t: Tree, x: Hash, n: nat)
    requires BlocksTold(chain, genesis, done, t) && t.parent.Keys == t.scores.Keys
    ensures AddsAt(done, x, n) <==> x != genesis && x in t.scores && t.scores[x].number == n
  {
    if x != genesis && x in t.scores && t.scores[x].number == n {
      var o :| o in done && Adds(o, x);
    }
  }

  lemma FlagsHeld(chain: Parents, genesis: Hash, done: seq<Op>, t: Tree, x: Hash, f: bool)
    requires BlocksTold(chain, genesis, done, t) && FlagsTold(genesis, done, t) && t.parent.Keys == t.scores.Keys && t.root.None?
    ensures AddsFlag(done, x, f) <==> x != genesis && x in t.scores && t.scores[x].finalized == f
  {
    if x != genesis && x in t.scores && t.scores[x].finalized == f {
      var o :| o in done && Adds(o, x);
    }
  }

  lemma SameParents(chain: Parents, genesis: Hash, a: seq<Op>, s: Tree, b: seq<Op>, t: Tree)
    requires BlocksTold(chain, genesis, a, s) && BlocksTold(chain, genesis, b, t)
    requires s.parent.Keys == s.scores.Keys && t.parent.Keys == t.scores.Keys
    ensures SameBlocks(a, b) ==> s.parent == t.parent && forall x :: x in s.scores ==> s.scores[x].number == t.scores[x].number
    ensures s.scores == t.scores ==> SameBlocks(a, b)
  {
    forall x, n ensures AddsAt(a, x, n) <==> x != genesis && x in s.scores && s.scores[x].number == n {
      BlocksHeld(chain, genesis, a, s, x, n);
    }
    forall x, n ensures AddsAt(b, x, n) <==> x != genesis && x in t.scores && t.scores[x].number == n {
      BlocksHeld(chain, genesis, b, t, x, n);
    }
    if SameBlocks(a, b) {
      forall x | x in s.scores ensures x in t.scores && s.scores[x].number == t.scores[x].number {
        if x != genesis {
          assert AddsAt(a, x, s.scores[x].number);
        }
      }
      forall x | x in t.scores ensures x in s.scores {
        if x != genesis {
          assert AddsAt(b, x, t.scores[x].number);
        }
      }
    }
  }

  /** Flags: after finality they are the descendants of the root, before it they were told. */
  lemma SameMarks(chain: Parents, genesis: Hash, a: seq<Op>, s: Tree, b: seq<Op>, t: Tree)
    requires BlocksTold(chain, genesis, a, s) && FlagsTold(genesis, a, s) && FinalOk(s) && s.parent.Keys == s.scores.Keys
    requires BlocksTold(chain, genesis, b, t) && FlagsTold(genesis, b, t) && FinalOk(t) && t.parent.Keys == t.scores.Keys
    requires s.root == t.root && s.parent == t.parent
    ensures (s.root.None? ==> SameFlags(a, b)) <==> forall x :: x in s.scores ==> s.scores[x].finalized == t.scores[x].finalized
  {
    if s.root.None? {
      forall x, f ensures AddsFlag(a, x, f) <==> x != genesis && x in s.scores && s.scores[x].finalized == f {
        FlagsHeld(chain, genesis, a, s, x, f);
      }
      forall x, f ensures AddsFlag(b, x, f) <==> x != genesis && x in t.scores && t.scores[x].finalized == f {
        FlagsHeld(chain, genesis, b, t, x, f);
      }
      if SameFlags(a, b) {
        forall x | x in s.scores ensures s.scores[x].finalized == t.scores[x].finalized {
          if x != genesis {
            assert AddsFlag(a, x, s.scores[x].finalized);
          }
        }
      }
    }
  }

  /** Everything that is known of the state at the end of a delivery. */
  ghost predicate Told(chain: Parents, genesis: Hash, ops: seq<Op>, t: Tree) {
    && TreeOk(chain, t)
    && BlocksTold(chain, genesis, ops, t) && FlagsTold(genesis, ops, t) && WeightsTold(ops, t)
  }

  lemma DeliveryTold(chain: Parents, genesis: Hash, ops: seq<Op>, states: seq<Tree>)
    requires IsDelivery(chain, genesis, ops, states)
    ensures Told(chain, genesis, ops, states[|ops|])
  {
    assert ops[..|ops|] == ops;
    DeliveryBlocks(chain, genesis, ops, states, |ops|);
    DeliveryFlags(chain, genesis, ops, states, |ops|);
    DeliveryWeights(chain, genesis, ops, states, |ops|);
    ForkChoiceRuns.RunOk(chain, genesis, ops, states, |ops|);
  }

  /** The same news: the same blocks with the same numbers, the same final weights, the same
      finalized root and, while there is none, the same flags. */
  ghost predicate SameNews(a: seq<Op>, s: Tree, b: seq<Op>, t: Tree) {
    && SameBlocks(a, b) && SameWeights(a, b) && s.root == t.root
    && (s.root.None? ==> SameFlags(a, b))
  }

  lemma SameNewsSameTree(chain: Parents, genesis: Hash, a: seq<Op>, s: Tree, b: seq<Op>, t: Tree)
    requires Told(chain, genesis, a, s) && Told(chain, genesis, b, t) && SameNews(a, s, b, t)
    ensures s == t
  {
    SameParents(chain, genesis, a, s, b, t);
    SameMarks(chain, genesis, a, s, b, t);
    forall x | x in s.scores ensures s.scores[x] == t.scores[x] {
      assert TopWeight(a, x) == TopWeight(b, x);
    }
    assert s.scores == t.scores;
    BestUnique(s.scores, s.head, t.head);
  }

  lemma SameTreeSameNews(chain: Parents, genesis: Hash, a: seq<Op>, b: seq<Op>, t: Tree)
    requires Told(chain, genesis, a, t) && Told(chain, genesis, b, t)
    ensures SameNews(a, t, b, t)
  {
    SameParents(chain, genesis, a, t, b, t);
    SameMarks(chain, genesis, a, t, b, t);
  }

  /** Convergence: two trackers end in the same state, and so on the same head, if and only if
      they have been told the same blocks (parents first), the same final weights of growing
      ones and the same finalized root, in whatever order, steps and repetitions. */
  lemma ConvergenceExact(chain: Parents, genesis: Hash, a: seq<Op>, ss: seq<Tree>, b: seq<Op>, ts: seq<Tree>)
    requires IsDelivery(chain, genesis, a, ss) && IsDelivery(chain, genesis, b, ts)
    ensures ss[|a|] == ts[|b|] <==> SameNews(a, ss[|a|], b, ts[|b|])
  {
    DeliveryTold(chain, genesis, a, ss);
    DeliveryTold(chain, genesis, b, ts);
    if SameNews(a, ss[|a|], b, ts[|b|]) {
      SameNewsSameTree(chain, genesis, a, ss[|a|], b, ts[|b|]);
    } else if ss[|a|] == ts[|b|] {
      SameTreeSameNews(chain, genesis, a, b, ss[|a|]);
    }
  }

  // ---------------------------------------------------------------------------
  // The same operations in different orders
  // ---------------------------------------------------------------------------

  ghost predicate SameOps(a: seq<Op>, b: seq<Op>) { forall o :: o in a <==> o in b }

  lemma {:induction false} TopWeightTold(done: seq<Op>, x: Hash)
    ensures forall o :: o in done && Weighs(o, x) ==> o.weight <= TopWeight(done, x)
    ensures TopWeight(done, x) > 0 ==> exists o :: o in done && Weighs(o, x) && o.weight == TopWeight(done, x)
  {
    if done != [] {
      TopWeightTold(done[..|done| - 1], x);
      assert done == done[..|done| - 1] + [done[|done| - 1]];
    }
  }

  /** The largest weight does not depend on the order. */
  lemma TopWeightAtMost(a: seq<Op>, b: seq<Op>, x: Hash)
    requires SameOps(a, b)
    ensures TopWeight(a, x) <= TopWeight(b, x)
  {
    TopWeightTold(a, x);
    TopWeightTold(b, x);
  }

  lemma SameRoot(chain: Parents, genesis: Hash, a: seq<Op>, s: Tree, b: seq<Op>, t: Tree)
    requires BlocksTold(chain, genesis, a, s) && RootTold(chain, a, s) && RootTold(chain, b, t) && SameOps(a, b)
    requires Shape(chain, s) && FinalOk(s) && FinalOk(t) && s.parent == t.parent
    ensures s.root == t.root
  {
    if s.root.Some? {
      assert Finalize(s.root.value) in b;
    }
    if t.root.Some? {
      assert Finalize(t.root.value) in a;
    }
    if s.root.Some? && t.root.Some? {
      var r, q := s.root.value, t.root.value;
      ToldReaches(chain, genesis, a, s, r, q);
      ToldReaches(chain, genesis, a, s, q, r);
      ReachesClimbs(chain, s, r, q);
      ReachesClimbs(chain, s, q, r);
    }
  }

  lemma SameOpsSameNews(a: seq<Op>, b: seq<Op>)
    requires SameOps(a, b)
    ensures SameBlocks(a, b) && SameWeights(a, b) && SameFlags(a, b)
  {
    forall x ensures TopWeight(a, x) == TopWeight(b, x) {
      TopWeightAtMost(a, b, x);
      TopWeightAtMost(b, a, x);
    }
  }

  /** In particular for any two orders of the same operations, if the finalized blocks lie on
      one branch. */
  lemma Convergence(chain: Parents, genesis: Hash, a: seq<Op>, ss: seq<Tree>, b: seq<Op>, ts: seq<Tree>)
    requires IsDelivery(chain, genesis, a, ss) && IsDelivery(chain, genesis, b, ts)
    requires SameOps(a, b) && OneBranch(chain, a)
    ensures ss[|a|] == ts[|b|]
  {
    assert a[..|a|] == a && b[..|b|] == b;
    SameOpsSameNews(a, b);
    DeliveryTold(chain, genesis, a, ss);
    DeliveryTold(chain, genesis, b, ts);
    SameParents(chain, genesis, a, ss[|a|], b, ts[|b|]);
    DeliveryRoot(chain, genesis, a, ss, |a|);
    DeliveryRoot(chain, genesis, b, ts, |b|);
    SameRoot(chain, genesis, a, ss[|a|], b, ts[|b|]);
    ConvergenceExact(chain, genesis, a, ss, b, ts);
  }
}
