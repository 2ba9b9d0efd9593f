/** Runs of fork-choice operations by a caller that keeps a few rules, and what every state
    of such a run satisfies. */
module ForkChoiceRuns {
  import opened Common
  import opened BlockTree
  import opened ForkChoice

  datatype Op =
    | Add(h: Hash, p: Hash, number: nat, weight: nat, flag: bool)
    | Reweigh(h: Hash, weight: nat)
    | Finalize(h: Hash)
    | Prune(number: nat)
    | Remove(h: Hash)

  ghost predicate Next(t: Tree, op: Op, t': Tree) {
    match op
    case Add(h, p, number, weight, flag) => t' == Added(t, h, p, number, weight, flag).0
    case Reweigh(h, weight) => t' == Reweighted(t, h, weight).0
    case Finalize(h) => Finalizes(t, h, t', t'.head != t.head)
    case Prune(number) => Prunes(t, number, t')
    case Remove(h) => Removes(t, h, t', CanRemove(t, h))
  }

  /** The rules: a block is added once, under a hash that is not zero and that determines its
      parent (`chain` is that function of the hash), after its parent and with a larger number;
      the weight of the current head is never lowered. Everything else is unrestricted. */
  ghost predicate Disciplined(chain: Parents, t: Tree, op: Op) {
    match op
    case Add(h, p, number, _, _) =>
      && h != ZERO_HASH && h !in t.parent && h in chain && chain[h] == p
      && p in t.parent && p in t.scores && t.scores[p].number < number
    case Reweigh(h, weight) => h == t.head && h in t.scores ==> t.scores[h].weight <= weight
    case _ => true
  }

  ghost predicate IsRun(chain: Parents, genesis: Hash, ops: seq<Op>, states: seq<Tree>) {
    && genesis != ZERO_HASH && ZERO_HASH !in chain
    && |states| == |ops| + 1 && states[0] == Genesis(genesis)
    && (forall i :: 0 <= i < |ops| ==>
          Disciplined(chain, states[i], ops[i]) && Next(states[i], ops[i], states[i + 1]))
  }

  // ---------------------------------------------------------------------------
  // Invariant
  // ---------------------------------------------------------------------------

  ghost predicate IsBase(parent: Parents, b: Hash) {
    b in parent && parent[b] == ZERO_HASH && forall x :: x in parent && parent[x] == ZERO_HASH ==> x == b
  }

  /** One tree, growing in block number, whose edges are those of the hash chain. */
  ghost predicate Shape(chain: Parents, t: Tree) {
    && ZERO_HASH !in chain && ZERO_HASH !in t.parent
    && t.parent.Keys == t.scores.Keys && Keyed(t.scores)
    && (forall x :: x in t.parent && t.parent[x] != ZERO_HASH ==>
          && t.parent[x] in t.parent && t.scores[t.parent[x]].number < t.scores[x].number
          && x in chain && chain[x] == t.parent[x])
    && (exists b :: IsBase(t.parent, b))
  }

  ghost predicate HeadOk(t: Tree) {
    IsBest(t.scores, t.head) && t.headScore == t.scores[t.head]
  }

  /** Exactly the finalized root and its descendants carry the flag. */
  ghost predicate FinalOk(t: Tree) {
    t.root.Some? ==>
      && t.root.value in t.parent
      && (forall x :: x in t.scores ==> (t.scores[x].finalized <==> Reaches(t.parent, x, t.root.value)))
  }

  ghost predicate TreeOk(chain: Parents, t: Tree) {
    Shape(chain, t) && HeadOk(t) && FinalOk(t)
  }

  /** Which block is the head, in the terms of the blocks: one on the finalized chain if there is
      any, among those one of the largest weight, among those one of the largest number, and of
      these the one with the lowest hash. */
  lemma HeadMeans(chain: Parents, t: Tree, k: Hash)
    requires TreeOk(chain, t) && k in t.scores
    ensures t.head in t.scores
    ensures var h, s := t.scores[t.head], t.scores[k];
            && (s.finalized ==> h.finalized)
            && (h.finalized == s.finalized ==> h.weight >= s.weight)
            && (h.finalized == s.finalized && h.weight == s.weight ==> h.number >= s.number)
            && (h.finalized == s.finalized && h.weight == s.weight && h.number == s.number ==> t.head <= k)
  {
  }

  /** The finalized root stays or moves to one of its descendants. */
  ghost predicate RootAdvances(t: Tree, t': Tree) {
    t.root.Some? ==> t'.root.Some? && t'.root.value in t.parent && Reaches(t.parent, t'.root.value, t.root.value)
  }

  // ---------------------------------------------------------------------------
  // Reaching in two related maps
  // ---------------------------------------------------------------------------

  ghost predicate AgreeOn(p: Parents, q: Parents, s: set<Hash>) {
    forall y :: y in s ==> (y in p <==> y in q) && (y in p ==> p[y] == q[y] && p[y] in s)
  }

  lemma {:induction false} UpAgrees(p: Parents, q: Parents, s: set<Hash>, x: Hash, n: nat)
    requires AgreeOn(p, q, s) && x in s
    ensures Up(p, x, n) == Up(q, x, n)
    decreases n
  {
    if n > 0 && x in p {
      UpAgrees(p, q, s, p[x], n - 1);
    }
  }

  lemma ReachesAgrees(p: Parents, q: Parents, s: set<Hash>, x: Hash, a: Hash)
    requires AgreeOn(p, q, s) && x in s
    ensures Reaches(p, x, a) <==> Reaches(q, x, a)
  {
    forall n: nat ensures Up(p, x, n) == Up(q, x, n) { UpAgrees(p, q, s, x, n); }
  }

  lemma ZeroIsTop(parent: Parents, n: nat)
    requires ZERO_HASH !in parent
    ensures Up(parent, ZERO_HASH, n) == if n == 0 then Some(ZERO_HASH) else None
  {
  }

  /** What a tree knows about ancestors is what the hash chain says. */
  lemma {:induction false} ReachesInChain(chain: Parents, t: Tree, x: Hash, a: Hash, n: nat)
    requires Shape(chain, t) && a != ZERO_HASH && Up(t.parent, x, n) == Some(a)
    ensures Reaches(chain, x, a)
    decreases n
  {
    if n == 0 {
      ReachesSelf(chain, x);
    } else {
      ZeroIsTop(t.parent, n - 1);
      ReachesInChain(chain, t, t.parent[x], a, n - 1);
      ReachesUnfold(chain, x, a);
    }
  }

  /** Descendants have larger numbers. */
  lemma {:induction false} UpClimbs(chain: Parents, t: Tree, x: Hash, a: Hash, n: nat)
    requires Shape(chain, t) && x in t.parent && a in t.parent && Up(t.parent, x, n) == Some(a)
    ensures t.scores[a].number <= t.scores[x].number
    ensures n > 0 ==> t.scores[a].number < t.scores[x].number
    decreases n
  {
    if n > 0 {
      ZeroIsTop(t.parent, n - 1);
      UpClimbs(chain, t, t.parent[x], a, n - 1);
    }
  }

  lemma ReachesClimbs(chain: Parents, t: Tree, x: Hash, a: Hash)
    requires Shape(chain, t) && x in t.parent && a in t.parent && Reaches(t.parent, x, a)
    ensures t.scores[a].number <= t.scores[x].number
    ensures x != a ==> t.scores[a].number < t.scores[x].number
  {
    var n: nat :| Up(t.parent, x, n) == Some(a);
    UpClimbs(chain, t, x, a, n);
  }

  /** A base block has no known ancestor but itself. */
  lemma BaseReaches(parent: Parents, b: Hash, a: Hash)
    requires ZERO_HASH !in parent && IsBase(parent, b) && a in parent && Reaches(parent, b, a)
    ensures a == b
  {
    ReachesUnfold(parent, b, a);
    ReachesUnfold(parent, ZERO_HASH, a);
  }

  // ---------------------------------------------------------------------------
  // Every operation keeps the invariant
  // ---------------------------------------------------------------------------

  lemma GenesisOk(chain: Parents, genesis: Hash)
    requires genesis != ZERO_HASH && ZERO_HASH !in chain
    ensures TreeOk(chain, Genesis(genesis))
  {
    assert IsBase(Genesis(genesis).parent, genesis);
  }

  lemma AddedReaches(chain: Parents, t: Tree, h: Hash, p: Hash, x: Hash, a: Hash)
    requires Shape(chain, t) && h != ZERO_HASH && h !in t.parent && x in t.parent
    ensures Reaches(t.parent[h := p], x, a) <==> Reaches(t.parent, x, a)
  {
    ReachesAgrees(t.parent, t.parent[h := p], t.parent.Keys + {ZERO_HASH}, x, a);
  }

  /** The edges of `Shape`, one at a time. */
  ghost predicate EdgeOk(chain: Parents, t: Tree, x: Hash)
    requires x in t.parent && t.parent.Keys == t.scores.Keys
  {
    t.parent[x] != ZERO_HASH ==>
      && t.parent[x] in t.parent && t.scores[t.parent[x]].number < t.scores[x].number
      && x in chain && chain[x] == t.parent[x]
  }

  lemma EdgeStays(chain: Parents, t: Tree, h: Hash, p: Hash, score: Score, t': Tree, x: Hash)
    requires x in t.parent && h !in t.parent && t.parent.Keys == t.scores.Keys && EdgeOk(chain, t, x)
    requires t'.parent == t.parent[h := p] && t'.scores == t.scores[h := score]
    ensures EdgeOk(chain, t', x)
  {
  }

  lemma ShapeOfAdded(chain: Parents, t: Tree, h: Hash, p: Hash, score: Score, t': Tree)
    requires Shape(chain, t) && h != ZERO_HASH && h !in t.parent && h in chain && chain[h] == p
    requires p in t.parent && t.scores[p].number < score.number && score.block == h
    requires t'.parent == t.parent[h := p] && t'.scores == t.scores[h := score]
    ensures Shape(chain, t')
  {
    var b :| IsBase(t.parent, b);
    assert IsBase(t'.parent, b);
    assert EdgeOk(chain, t', h);
    forall x | x in t'.parent ensures EdgeOk(chain, t', x) {
      if x != h {
        EdgeStays(chain, t, h, p, score, t', x);
      }
    }
  }

  lemma AddedShape(chain: Parents, t: Tree, op: Op)
    requires Shape(chain, t) && op.Add? && Disciplined(chain, t, op)
    ensures Shape(chain, Added(t, op.h, op.p, op.number, op.weight, op.flag).0)
  {
    ShapeOfAdded(chain, t, op.h, op.p, NewScore(t, op.h, op.p, op.number, op.weight, op.flag),
                 Added(t, op.h, op.p, op.number, op.weight, op.flag).0);
  }

  lemma AddedFinal(chain: Parents, t: Tree, op: Op)
    requires Shape(chain, t) && FinalOk(t) && op.Add? && Disciplined(chain, t, op)
    ensures FinalOk(Added(t, op.h, op.p, op.number, op.weight, op.flag).0)
  {
    var t' := Added(t, op.h, op.p, op.number, op.weight, op.flag).0;
    if t.root.Some? {
      var r := t.root.value;
      forall x | x in t'.scores ensures t'.scores[x].finalized <==> Reaches(t'.parent, x, r) {
        if x == op.h {
          ReachesUnfold(t'.parent, x, r);
          AddedReaches(chain, t, op.h, op.p, op.p, r);
        } else {
          AddedReaches(chain, t, op.h, op.p, x, r);
        }
      }
    }
  }

  lemma ChallengeHead(t: Tree, h: Hash, score: Score)
    requires HeadOk(t) && Keyed(t.scores) && score.block == h && h != t.head
    ensures HeadOk(Challenge(t.(scores := t.scores[h := score]), h, score).0)
  {
  }

  lemma AddedOk(chain: Parents, t: Tree, op: Op)
    requires TreeOk(chain, t) && op.Add? && Disciplined(chain, t, op)
    ensures TreeOk(chain, Added(t, op.h, op.p, op.number, op.weight, op.flag).0)
  {
    AddedShape(chain, t, op);
    AddedFinal(chain, t, op);
    ChallengeHead(t, op.h, NewScore(t, op.h, op.p, op.number, op.weight, op.flag));
  }

  lemma ReweightedShape(chain: Parents, t: Tree, h: Hash, weight: nat)
    requires Shape(chain, t) && FinalOk(t)
    ensures Shape(chain, Reweighted(t, h, weight).0) && FinalOk(Reweighted(t, h, weight).0)
  {
    if h in t.scores {
      OnlyWeights(chain, t, h, weight, Reweighted(t, h, weight).0);
    }
  }

  lemma OnlyWeights(chain: Parents, t: Tree, h: Hash, weight: nat, t': Tree)
    requires Shape(chain, t) && FinalOk(t) && h in t.scores
    requires t'.parent == t.parent && t'.root == t.root && t'.scores == t.scores[h := t.scores[h].(weight := weight)]
    ensures Shape(chain, t') && FinalOk(t')
  {
    assert t'.scores.Keys == t.scores.Keys;
    forall x | x in t'.parent ensures EdgeOk(chain, t', x) {
      assert EdgeOk(chain, t, x);
    }
  }

  lemma ReweightedOk(chain: Parents, t: Tree, op: Op)
    requires TreeOk(chain, t) && op.Reweigh? && Disciplined(chain, t, op)
    ensures TreeOk(chain, Reweighted(t, op.h, op.weight).0)
  {
    ReweightedShape(chain, t, op.h, op.weight);
    if op.h in t.scores && op.h != t.head {
      ChallengeHead(t, op.h, t.scores[op.h].(weight := op.weight));
    }
  }

  lemma FinalizesOk(chain: Parents, t: Tree, h: Hash, t': Tree)
    requires TreeOk(chain, t) && Finalizes(t, h, t', t'.head != t.head)
    ensures TreeOk(chain, t') && RootAdvances(t, t')
  {
    if CanFinalize(t, h) {
      assert Flagged(t, h).scores.Keys == t.scores.Keys;
      assert Flagged(t, h).scores != map[] by { assert h in Flagged(t, h).scores; }
    } else if t.root.Some? {
      ReachesSelf(t.parent, t.root.value);
    }
  }

  lemma {:induction false} KeptUp(t: Tree, h: Hash, x: Hash, n: nat)
    requires Up(t.parent, x, n) == Some(h)
    ensures Reaches(Kept(t, h).parent, x, h)
    decreases n
  {
    ReachesSelf(Kept(t, h).parent, h);
    if x != h {
      KeptUp(t, h, t.parent[x], n - 1);
      assert Reaches(t.parent, x, h);
      ReachesUnfold(Kept(t, h).parent, x, h);
    }
  }

  lemma KeptEdge(chain: Parents, t: Tree, h: Hash, x: Hash)
    requires Shape(chain, t) && h in t.parent && x in Kept(t, h).parent && Kept(t, h).parent.Keys == Kept(t, h).scores.Keys
    ensures EdgeOk(chain, Kept(t, h), x)
    ensures x != h ==> Kept(t, h).parent[x] != ZERO_HASH
  {
    if x != h {
      ReachesUnfold(t.parent, x, h);
      ReachesUnfold(t.parent, ZERO_HASH, h);
      assert t.parent[x] != ZERO_HASH;
      assert EdgeOk(chain, t, x);
    }
  }

  lemma KeptKeys(chain: Parents, t: Tree, h: Hash)
    requires Shape(chain, t) && h in t.parent
    ensures Kept(t, h).parent.Keys == Kept(t, h).scores.Keys == Subtree(t.parent, h)
  {
    SubtreeRoot(t.parent, h);
  }

  lemma KeptOk(chain: Parents, t: Tree, h: Hash)
    requires Shape(chain, t) && h in t.parent
    ensures Shape(chain, Kept(t, h)) && FinalOk(Kept(t, h))
    ensures Kept(t, h).parent.Keys == Subtree(t.parent, h)
  {
    var k := Kept(t, h);
    KeptKeys(chain, t, h);
    SubtreeRoot(t.parent, h);
    forall x | x in k.parent ensures EdgeOk(chain, k, x) && (x != h ==> k.parent[x] != ZERO_HASH) {
      KeptEdge(chain, t, h, x);
    }
    assert IsBase(k.parent, h);
    forall x | x in k.scores ensures Reaches(k.parent, x, h) {
      var n: nat :| Up(t.parent, x, n) == Some(h);
      KeptUp(t, h, x, n);
    }
  }

  lemma PrunesOk(chain: Parents, t: Tree, number: nat, t': Tree)
    requires TreeOk(chain, t) && Prunes(t, number, t')
    ensures TreeOk(chain, t') && RootAdvances(t, t')
  {
    if h :| IsPruneRoot(t, number, h) {
      KeptOk(chain, t, h);
      assert h in Kept(t, h).scores by { SubtreeRoot(t.parent, h); }
      assert Kept(t, h).scores != map[];
    } else if t.root.Some? {
      ReachesSelf(t.parent, t.root.value);
    }
  }

  lemma RemovesOk(chain: Parents, t: Tree, h: Hash, t': Tree)
    requires TreeOk(chain, t) && Removes(t, h, t', CanRemove(t, h))
    ensures TreeOk(chain, t') && RootAdvances(t, t')
  {
    if t.root.Some? {
      ReachesSelf(t.parent, t.root.value);
    }
    if CanRemove(t, h) {
      var gone := Subtree(t.parent, h);
      var w := Without(t, gone);
      var b :| IsBase(t.parent, b);
      assert b !in gone by {
        if b in gone { BaseReaches(t.parent, b, h); }
      }
      assert IsBase(w.parent, b);
      assert b in w.scores && w.scores != map[];
      forall x | x in w.parent && t.parent[x] != ZERO_HASH ensures t.parent[x] in w.parent {
        if t.parent[x] in gone { SubtreeChild(t.parent, h, x); }
      }
      if t.root.Some? {
        forall x | x in w.scores ensures Reaches(w.parent, x, t.root.value) <==> Reaches(t.parent, x, t.root.value) {
          ReachesAgrees(t.parent, w.parent, w.parent.Keys + {ZERO_HASH}, x, t.root.value);
        }
      }
    }
  }

  lemma NextOk(chain: Parents, t: Tree, op: Op, t': Tree)
    requires TreeOk(chain, t) && Disciplined(chain, t, op) && Next(t, op, t')
    ensures TreeOk(chain, t') && RootAdvances(t, t')
  {
    if t.root.Some? {
      ReachesSelf(t.parent, t.root.value);
    }
    match op {
      case Add(_, _, _, _, _) => AddedOk(chain, t, op);
      case Reweigh(_, _) => ReweightedOk(chain, t, op);
      case Finalize(h) => FinalizesOk(chain, t, h, t');
      case Prune(number) => PrunesOk(chain, t, number, t');
      case Remove(h) => RemovesOk(chain, t, h, t');
    }
  }

  // ---------------------------------------------------------------------------
  // Whole runs
  // ---------------------------------------------------------------------------

  /** In every state of every run the cached head is the unique best block, the flags mark
      exactly the descendants of the finalized root, and the blocks form one tree. */
  lemma {:induction false} RunOk(chain: Parents, genesis: Hash, ops: seq<Op>, states: seq<Tree>, i: nat)
    requires IsRun(chain, genesis, ops, states) && i <= |ops|
    ensures TreeOk(chain, states[i])
  {
    if i == 0 {
      GenesisOk(chain, genesis);
    } else {
      RunOk(chain, genesis, ops, states, i - 1);
      NextOk(chain, states[i - 1], ops[i - 1], states[i]);
    }
  }

  lemma RootStep(chain: Parents, t: Tree, op: Op, t': Tree, r: Hash)
    requires TreeOk(chain, t) && Disciplined(chain, t, op) && Next(t, op, t')
    requires t.root.Some? && Reaches(chain, t.root.value, r)
    ensures t'.root.Some? && Reaches(chain, t'.root.value, r)
  {
    NextOk(chain, t, op, t');
    RootChain(chain, t, t'.root.value);
    ReachesTransitive(chain, t'.root.value, t.root.value, r);
  }

  lemma RootChain(chain: Parents, t: Tree, x: Hash)
    requires Shape(chain, t) && FinalOk(t) && t.root.Some? && Reaches(t.parent, x, t.root.value)
    ensures Reaches(chain, x, t.root.value)
  {
    var n: nat :| Up(t.parent, x, n) == Some(t.root.value);
    ReachesInChain(chain, t, x, t.root.value, n);
  }

  lemma RunStep(chain: Parents, genesis: Hash, ops: seq<Op>, states: seq<Tree>, i: nat)
    requires IsRun(chain, genesis, ops, states) && i < |ops|
    ensures Disciplined(chain, states[i], ops[i]) && Next(states[i], ops[i], states[i + 1])
  {
  }

  lemma RunAdvances(chain: Parents, genesis: Hash, ops: seq<Op>, states: seq<Tree>, i: nat, r: Hash)
    requires IsRun(chain, genesis, ops, states) && i < |ops|
    requires states[i].root.Some? && Reaches(chain, states[i].root.value, r)
    ensures states[i + 1].root.Some? && Reaches(chain, states[i + 1].root.value, r)
  {
    var t, op, t' := states[i], ops[i], states[i + 1];
    RunStep(chain, genesis, ops, states, i);
    RunOk(chain, genesis, ops, states, i);
    RootStep(chain, t, op, t', r);
  }

  lemma {:induction false} RootsDescend(chain: Parents, genesis: Hash, ops: seq<Op>, states: seq<Tree>, i: nat, j: nat)
    requires IsRun(chain, genesis, ops, states) && i <= j <= |ops|
    requires states[i].root.Some?
    ensures states[j].root.Some? && Reaches(chain, states[j].root.value, states[i].root.value)
    decreases j
  {
    if i == j {
      ReachesSelf(chain, states[i].root.value);
    } else {
      RootsDescend(chain, genesis, ops, states, i, j - 1);
      RunAdvances(chain, genesis, ops, states, j - 1, states[i].root.value);
    }
  }

  /** Once a block is finalized, every later finalized root and every later head descends
      from it in the chain of hashes, whatever was pruned or removed in between. */
  lemma FinalityIsForever(chain: Parents, genesis: Hash, ops: seq<Op>, states: seq<Tree>, i: nat, j: nat)
    requires IsRun(chain, genesis, ops, states) && i <= j <= |ops|
    requires states[i].root.Some?
    ensures states[j].root.Some?
    ensures Reaches(chain, states[j].root.value, states[i].root.value)
    ensures Reaches(chain, states[j].head, states[i].root.value)
  {
    RootsDescend(chain, genesis, ops, states, i, j);
    RunOk(chain, genesis, ops, states, j);
    HeadDescends(chain, states[j]);
    ReachesTransitive(chain, states[j].head, states[j].root.value, states[i].root.value);
  }

  /** The head of a tree with a finalized root descends from that root. */
  lemma HeadDescends(chain: Parents, t: Tree)
    requires TreeOk(chain, t) && t.root.Some?
    ensures Reaches(t.parent, t.head, t.root.value)
    ensures Reaches(chain, t.head, t.root.value)
  {
    var r := t.root.value;
    ReachesSelf(t.parent, r);
    assert t.scores[r].finalized;
    assert t.scores[t.head].finalized;
    RootChain(chain, t, t.head);
  }

  // ---------------------------------------------------------------------------
  // The rules are needed
  // ---------------------------------------------------------------------------

  /** `update_attested_weight` keeps the cached head best exactly when it does not drop the
      head's own score below that of another block: the head is never looked for again. */
  lemma ReweightKeepsBest(chain: Parents, t: Tree, h: Hash, weight: nat)
    requires TreeOk(chain, t)
    ensures HeadOk(Reweighted(t, h, weight).0) <==>
            (h == t.head ==> forall k :: k in t.scores && k != h ==> Better(t.scores[h].(weight := weight), t.scores[k]))
  {
    if h != t.head {
      ReweightedOk(chain, t, Reweigh(h, weight));
    } else {
      var t' := Reweighted(t, h, weight).0;
      assert t'.scores == t.scores[h := t.scores[h].(weight := weight)] && t'.head == h;
      assert forall k :: k in t.scores && k != h ==> t'.scores[k] == t.scores[k];
    }
  }

  /** Lowering the head's weight can leave a stale head, in a state that a run reaches. */
  lemma LoweredHeadIsStale() returns (ops: seq<Op>, states: seq<Tree>)
    ensures IsRun(map[2 := 1], 1, ops, states)
    ensures var t := states[|ops|]; !HeadOk(Reweighted(t, t.head, 0).0)
  {
    var t0 := Genesis(1);
    var t1 := Reweighted(t0, 1, 5).0;
    var t2 := Added(t1, 2, 1, 1, 0, false).0;
    ops, states := [Reweigh(1, 5), Add(2, 1, 1, 0, false)], [t0, t1, t2];
    assert Disciplined(map[2 := 1], t0, ops[0]) && Next(t0, ops[0], t1);
    assert Disciplined(map[2 := 1], t1, ops[1]) && Next(t1, ops[1], t2);
    assert t2.head == 1;
    var t' := Reweighted(t2, 1, 0).0;
    assert t'.head == 1 && 2 in t'.scores && !Better(t'.scores[1], t'.scores[2]);
  }

  // A block added before its parent has no flag to inherit.

  lemma {:induction false} AddKeepsUp(parent: Parents, h: Hash, p: Hash, x: Hash, a: Hash, n: nat)
    requires h !in parent && Up(parent, x, n) == Some(a)
    ensures Up(parent[h := p], x, n) == Some(a)
    decreases n
  {
    if n > 0 {
      AddKeepsUp(parent, h, p, parent[x], a, n - 1);
    }
  }

  lemma {:induction false} AddAvoids(parent: Parents, h: Hash, p: Hash, x: Hash, n: nat)
    requires !Reaches(parent, x, h)
    ensures Up(parent[h := p], x, n) == Up(parent, x, n)
    decreases n
  {
    ReachesUnfold(parent, x, h);
    if n > 0 && x in parent {
      AddAvoids(parent, h, p, parent[x], n - 1);
    }
  }

  lemma {:induction false} AddPath(parent: Parents, h: Hash, p: Hash, x: Hash, a: Hash, n: nat)
    requires h !in parent && !Reaches(parent, p, h) && Up(parent[h := p], x, n) == Some(a)
    ensures Reaches(parent, x, a) || (Reaches(parent, x, h) && Reaches(parent, p, a))
    decreases n
  {
    ReachesSelf(parent, x);
    if n > 0 {
      if x == h {
        AddAvoids(parent, h, p, p, n - 1);
      } else {
        AddPath(parent, h, p, parent[x], a, n - 1);
        ReachesUnfold(parent, x, a);
        ReachesUnfold(parent, x, h);
      }
    }
  }

  /** What a new block adds to the ancestors of every other: the way through it. */
  lemma AddReaches(parent: Parents, h: Hash, p: Hash, x: Hash, a: Hash)
    requires h !in parent && !Reaches(parent, p, h)
    ensures Reaches(parent[h := p], x, a) <==> Reaches(parent, x, a) || (Reaches(parent, x, h) && Reaches(parent, p, a))
  {
    var more := parent[h := p];
    if Reaches(parent, x, a) {
      var n: nat :| Up(parent, x, n) == Some(a);
      AddKeepsUp(parent, h, p, x, a, n);
    } else if Reaches(parent, x, h) && Reaches(parent, p, a) {
      var n: nat :| Up(parent, x, n) == Some(h);
      AddKeepsUp(parent, h, p, x, h, n);
      var m: nat :| Up(parent, p, m) == Some(a);
      AddKeepsUp(parent, h, p, p, a, m);
      ReachesUnfold(more, h, a);
      ReachesTransitive(more, x, h, a);
    } else if Reaches(more, x, a) {
      var n: nat :| Up(more, x, n) == Some(a);
      AddPath(parent, h, p, x, a, n);
    }
  }

  ghost predicate HasChild(parent: Parents, h: Hash) { exists c :: c in parent && parent[c] == h }

  lemma {:induction false} WayNeedsChild(parent: Parents, x: Hash, h: Hash, n: nat)
    requires x != h && Up(parent, x, n) == Some(h)
    ensures HasChild(parent, h)
    decreases n
  {
    if parent[x] != h {
      WayNeedsChild(parent, parent[x], h, n - 1);
    }
  }

  /** Adding a new block keeps the flags exact if and only if the block does not bring flagged
      ancestors to blocks that were there before it: it is the parent of none, or it is not
      flagged itself. */
  lemma AddKeepsFlagsExactly(t: Tree, h: Hash, p: Hash, number: nat, weight: nat, flag: bool)
    requires FinalOk(t) && t.root.Some? && t.parent.Keys == t.scores.Keys
    requires h !in t.parent && !Reaches(t.parent, p, h)
    ensures FinalOk(Added(t, h, p, number, weight, flag).0) <==>
            !(p in t.scores && t.scores[p].finalized && HasChild(t.parent, h))
  {
    var t', r := Added(t, h, p, number, weight, flag).0, t.root.value;
    forall x ensures Reaches(t'.parent, x, r) <==> Reaches(t.parent, x, r) || (Reaches(t.parent, x, h) && Reaches(t.parent, p, r)) {
      AddReaches(t.parent, h, p, x, r);
    }
    ReachesUnfold(t.parent, p, r);
    ReachesSelf(t.parent, h);
    ReachesUnfold(t.parent, h, r);
    if p in t.scores && t.scores[p].finalized {
      if HasChild(t.parent, h) {
        OrphanIsMissed(t, h, p, t');
      } else {
        forall x | x in t.scores ensures !Reaches(t.parent, x, h) {
          if n: nat :| Up(t.parent, x, n) == Some(h) {
            WayNeedsChild(t.parent, x, h, n);
          }
        }
      }
    }
  }

  lemma OrphanIsMissed(t: Tree, h: Hash, p: Hash, t': Tree)
    requires FinalOk(t) && t.root.Some? && t.parent.Keys == t.scores.Keys
    requires h !in t.parent && !Reaches(t.parent, p, h) && p in t.scores && t.scores[p].finalized && HasChild(t.parent, h)
    requires t'.parent == t.parent[h := p] && t'.root == t.root && forall x :: x in t.scores ==> x in t'.scores && t'.scores[x] == t.scores[x]
    ensures !FinalOk(t')
  {
    var r := t.root.value;
    var c :| c in t.parent && t.parent[c] == h;
    ReachesSelf(t.parent, h);
    ReachesUnfold(t.parent, c, h);
    if c == r {
      ReachesTransitive(t.parent, p, r, h);
    }
    ReachesUnfold(t.parent, c, r);
    ReachesUnfold(t.parent, h, r);
    AddReaches(t.parent, h, p, c, r);
    assert c in t.scores && !t'.scores[c].finalized && Reaches(t'.parent, c, r);
  }

  /** An accepted finalization makes the flags exact again, whatever they were. */
  lemma FinalizationRepairs(t: Tree, h: Hash, t': Tree)
    requires t.parent.Keys == t.scores.Keys && CanFinalize(t, h) && Finalizes(t, h, t', t'.head != t.head)
    ensures FinalOk(t')
  {
  }

  lemma FlaggedAgain(t: Tree, r: Hash, c: Hash, t': Tree)
    requires t.parent.Keys == t.scores.Keys && CanFinalize(t, r) && Finalizes(t, r, t', t'.head != t.head)
    requires c in t.scores && Reaches(t.parent, c, r)
    ensures c in t'.scores && t'.scores[c].finalized
  {
    FinalizationRepairs(t, r, t');
  }

  /** The tree after the child `c` and then its parent `p` arrived. */
  function OrphanTree(root: Hash, p: Hash, c: Hash, t: Tree): Tree {
    Added(Added(t, c, p, 2, 0, false).0, p, root, 1, 0, false).0
  }

  lemma OrphanUnflagged(root: Hash, p: Hash, c: Hash, t: Tree)
    requires Finalizes(Genesis(root), root, t, t.head != root)
    requires root != ZERO_HASH && p != ZERO_HASH && c != ZERO_HASH && root != p && root != c && p != c
    ensures var t2 := OrphanTree(root, p, c, t);
            && t2.parent == map[root := ZERO_HASH, p := root, c := p] && t2.scores.Keys == {root, p, c}
            && t2.scores[p].finalized && !t2.scores[c].finalized && t2.root == Some(root)
  {
    ReachesSelf(t.parent, root);
    SubtreeRoot(t.parent, root);
  }

  /** A child that arrives before its parent: until the next finalization it has no flag,
      although it descends from the finalized root. */
  lemma OrphanMissesFinality(root: Hash, p: Hash, c: Hash, t: Tree)
    requires Finalizes(Genesis(root), root, t, t.head != root)
    requires root != ZERO_HASH && p != ZERO_HASH && c != ZERO_HASH && root != p && root != c && p != c
    ensures var t2 := OrphanTree(root, p, c, t);
            && t2.scores[p].finalized && !t2.scores[c].finalized && Reaches(t2.parent, c, root)
            && forall t3: Tree :: Finalizes(t2, root, t3, t3.head != t2.head) ==> c in t3.scores && t3.scores[c].finalized
  {
    OrphanUnflagged(root, p, c, t);
    var t2 := OrphanTree(root, p, c, t);
    ReachesSelf(t2.parent, root);
    assert Up(t2.parent, root, 0) == Some(root);
    assert Up(t2.parent, p, 1) == Some(root);
    assert Up(t2.parent, c, 2) == Some(root);
    forall t3: Tree | Finalizes(t2, root, t3, t3.head != t2.head) ensures c in t3.scores && t3.scores[c].finalized {
      FlaggedAgain(t2, root, c, t3);
    }
  }
}
