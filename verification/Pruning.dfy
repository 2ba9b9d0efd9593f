/** Pruning at the finalized root cannot be noticed: a pruned tracker and an unpruned copy
    answer every later operation on retained blocks alike. */
module Pruning {
  import opened Common
  import opened BlockTree
  import opened ForkChoice
  import opened ForkChoiceRuns

  /** `q` is what is left of `p` below `b`. */
  ghost predicate Cut(p: Parents, q: Parents, b: Hash) {
    && b in p && q.Keys == Subtree(p, b)
    && (forall x :: x in q ==> x in p && q[x] == if x == b then ZERO_HASH else p[x])
  }

  /** `t` is what is left of `s` below `b`, a block at or above the finalized root. */
  ghost predicate Twin(s: Tree, t: Tree, b: Hash) {
    && s.root.Some? && t.root == s.root && Reaches(s.parent, s.root.value, b)
    && Cut(s.parent, t.parent, b)
    && (forall x :: x in t.scores ==> x in s.scores && t.scores[x] == s.scores[x])
  }

  /** The operation concerns blocks that were kept. */
  ghost predicate Retained(t: Tree, op: Op) {
    match op
    case Add(_, p, _, _, _) => p in t.parent
    case Reweigh(h, _) => h in t.parent
    case Finalize(h) => h in t.parent
    case Remove(h) => h in t.parent
    case Prune(_) => true
  }

  /** What the caller is told. */
  ghost function Answer(t: Tree, op: Op, t': Tree): bool {
    match op
    case Add(h, p, number, weight, flag) => Added(t, h, p, number, weight, flag).1
    case Reweigh(h, weight) => Reweighted(t, h, weight).1
    case Finalize(_) => t'.head != t.head
    case Prune(_) => false
    case Remove(h) => CanRemove(t, h)
  }

  lemma {:induction false} CutUp(p: Parents, q: Parents, b: Hash, x: Hash, y: Hash, n: nat)
    requires Cut(p, q, b) && ZERO_HASH !in q && y != ZERO_HASH && Up(q, x, n) == Some(y)
    ensures Up(p, x, n) == Some(y)
    decreases n
  {
    if n > 0 {
      ZeroIsTop(q, n - 1);
      CutUp(p, q, b, q[x], y, n - 1);
    }
  }

  lemma {:induction false} UncutUp(p: Parents, q: Parents, b: Hash, x: Hash, y: Hash, n: nat)
    requires Cut(p, q, b) && x in q && Up(p, x, n) == Some(y)
    requires forall k: nat :: k > 0 ==> Up(p, b, k) != Some(y)
    ensures Up(q, x, n) == Some(y)
    decreases n
  {
    if n > 0 {
      ReachesUnfold(p, x, b);
      if p[x] !in q {
        assert p[x] !in p && p[x] != b;
        ReachesUnfold(p, p[x], b);
      } else {
        UncutUp(p, q, b, p[x], y, n - 1);
      }
    }
  }

  lemma NotAbove(chain: Parents, s: Tree, b: Hash, y: Hash)
    requires Shape(chain, s) && b in s.parent && y in s.parent && Reaches(s.parent, y, b)
    ensures forall k: nat :: k > 0 ==> Up(s.parent, b, k) != Some(y)
  {
    ReachesClimbs(chain, s, y, b);
    forall k: nat | k > 0 ensures Up(s.parent, b, k) != Some(y) {
      if Up(s.parent, b, k) == Some(y) {
        UpClimbs(chain, s, b, y, k);
      }
    }
  }

  lemma TwinReaches(chain: Parents, s: Tree, t: Tree, b: Hash, x: Hash, y: Hash)
    requires Shape(chain, s) && Cut(s.parent, t.parent, b) && x in t.parent && y in t.parent
    ensures Reaches(t.parent, x, y) <==> Reaches(s.parent, x, y)
  {
    if Reaches(t.parent, x, y) {
      var n: nat :| Up(t.parent, x, n) == Some(y);
      CutUp(s.parent, t.parent, b, x, y, n);
    }
    if Reaches(s.parent, x, y) {
      var n: nat :| Up(s.parent, x, n) == Some(y);
      NotAbove(chain, s, b, y);
      UncutUp(s.parent, t.parent, b, x, y, n);
    }
  }

  lemma TwinSubtree(chain: Parents, s: Tree, t: Tree, b: Hash, h: Hash)
    requires Shape(chain, s) && Cut(s.parent, t.parent, b) && h in t.parent
    ensures Subtree(t.parent, h) == Subtree(s.parent, h)
  {
    forall x ensures x in Subtree(t.parent, h) <==> x in Subtree(s.parent, h) {
      if x in Subtree(s.parent, h) {
        ReachesTransitive(s.parent, x, h, b);
      }
      if x in t.parent {
        TwinReaches(chain, s, t, b, x, h);
      }
    }
  }

  /** The finalized root and everything that carries the flag was kept. */
  lemma TwinFlagged(chain: Parents, s: Tree, t: Tree, b: Hash, x: Hash)
    requires Shape(chain, s) && FinalOk(s) && Twin(s, t, b) && x in s.scores && s.scores[x].finalized
    ensures x in t.parent
  {
    ReachesTransitive(s.parent, x, s.root.value, b);
  }

  lemma TwinHead(chain: Parents, s: Tree, t: Tree, b: Hash)
    requires TreeOk(chain, s) && TreeOk(chain, t) && Twin(s, t, b)
    ensures s.head == t.head && s.headScore == t.headScore
  {
    var r := s.root.value;
    ReachesSelf(s.parent, r);
    assert s.scores[r].finalized;
    assert s.scores[s.head].finalized;
    TwinFlagged(chain, s, t, b, s.head);
    assert IsBest(t.scores, s.head);
    BestUnique(t.scores, s.head, t.head);
  }

  // ---------------------------------------------------------------------------
  // Each operation keeps twins twins
  // ---------------------------------------------------------------------------

  lemma AddedSubtree(chain: Parents, s: Tree, h: Hash, p: Hash, b: Hash)
    requires Shape(chain, s) && h != ZERO_HASH && h !in s.parent && b in s.parent && p in Subtree(s.parent, b)
    ensures Subtree(s.parent[h := p], b) == Subtree(s.parent, b) + {h}
  {
    AddedReaches(chain, s, h, p, p, b);
    ReachesUnfold(s.parent[h := p], h, b);
    forall x ensures x in Subtree(s.parent[h := p], b) <==> x in Subtree(s.parent, b) || x == h {
      if x in s.parent {
        AddedReaches(chain, s, h, p, x, b);
      }
    }
  }

  lemma TwinAdd(chain: Parents, s: Tree, t: Tree, b: Hash, op: Op, s': Tree, t': Tree)
    requires Shape(chain, s) && Twin(s, t, b) && t.parent.Keys == t.scores.Keys && s.root.value in s.parent
    requires op.Add? && Disciplined(chain, s, op) && Retained(t, op)
    requires Next(s, op, s') && Next(t, op, t')
    ensures Twin(s', t', b)
  {
    AddedReaches(chain, s, op.h, op.p, s.root.value, b);
    AddedSubtree(chain, s, op.h, op.p, b);
    assert s'.parent == s.parent[op.h := op.p] && t'.parent == t.parent[op.h := op.p];
    var score := NewScore(s, op.h, op.p, op.number, op.weight, op.flag);
    assert score == NewScore(t, op.h, op.p, op.number, op.weight, op.flag);
    assert s'.scores == s.scores[op.h := score] && t'.scores == t.scores[op.h := score];
  }

  lemma TwinReweigh(s: Tree, t: Tree, b: Hash, op: Op)
    requires Twin(s, t, b) && t.parent.Keys == t.scores.Keys && op.Reweigh? && Retained(t, op)
    ensures Twin(Reweighted(s, op.h, op.weight).0, Reweighted(t, op.h, op.weight).0, b)
  {
    assert op.h in t.scores && op.h in s.scores;
    TwinWeights(s, t, b, op.h, op.weight, Reweighted(s, op.h, op.weight).0, Reweighted(t, op.h, op.weight).0);
  }

  lemma TwinWeights(s: Tree, t: Tree, b: Hash, h: Hash, weight: nat, s': Tree, t': Tree)
    requires Twin(s, t, b) && h in s.scores && h in t.scores
    requires s'.parent == s.parent && s'.root == s.root && s'.scores == s.scores[h := s.scores[h].(weight := weight)]
    requires t'.parent == t.parent && t'.root == t.root && t'.scores == t.scores[h := t.scores[h].(weight := weight)]
    ensures Twin(s', t', b)
  {
  }

  lemma TwinFinalize(chain: Parents, s: Tree, t: Tree, b: Hash, h: Hash, s': Tree, t': Tree)
    requires Shape(chain, s) && FinalOk(s) && Twin(s, t, b) && t.parent.Keys == t.scores.Keys && h in t.parent
    requires Finalizes(s, h, s', s'.head != s.head) && Finalizes(t, h, t', t'.head != t.head)
    ensures Twin(s', t', b)
  {
    ReachesSelf(s.parent, s.root.value);
    TwinFlagged(chain, s, t, b, s.root.value);
    TwinReaches(chain, s, t, b, h, s.root.value);
    TwinSubtree(chain, s, t, b, h);
    assert CanFinalize(s, h) <==> CanFinalize(t, h);
  }

  lemma TwinPruneRoot(chain: Parents, s: Tree, t: Tree, b: Hash, number: nat, f: Hash)
    requires Shape(chain, s) && FinalOk(s) && Twin(s, t, b) && t.parent.Keys == t.scores.Keys
    ensures IsPruneRoot(s, number, f) <==> IsPruneRoot(t, number, f)
  {
    forall x | x in s.scores && s.scores[x].finalized ensures x in t.scores {
      TwinFlagged(chain, s, t, b, x);
    }
  }

  lemma KeptWhole(chain: Parents, t: Tree, f: Hash)
    requires Shape(chain, t) && f in t.parent
    ensures Kept(t, f).parent.Keys == Subtree(t.parent, f) == Subtree(Kept(t, f).parent, f)
    ensures Kept(t, f).scores.Keys == Subtree(t.parent, f)
  {
    KeptOk(chain, t, f);
    SubtreeRoot(t.parent, f);
  }

  /** Cutting both trees at a kept block leaves the same edges. */
  lemma KeptEdgesAgree(chain: Parents, s: Tree, t: Tree, b: Hash, f: Hash, x: Hash)
    requires Shape(chain, s) && Cut(s.parent, t.parent, b) && f in t.parent
    requires Subtree(t.parent, f) == Subtree(s.parent, f) && x in Subtree(s.parent, f)
    ensures x in Kept(s, f).parent && x in Kept(t, f).parent && Kept(t, f).parent[x] == Kept(s, f).parent[x]
  {
    SubtreeRoot(s.parent, f);
    if x == b {
      ReachesClimbs(chain, s, b, f);
      ReachesClimbs(chain, s, f, b);
    }
  }

  lemma KeptCut(chain: Parents, s: Tree, t: Tree, b: Hash, f: Hash)
    requires Shape(chain, s) && Shape(chain, t) && Cut(s.parent, t.parent, b) && f in t.parent
    ensures Cut(Kept(s, f).parent, Kept(t, f).parent, f)
  {
    KeptWhole(chain, s, f);
    KeptWhole(chain, t, f);
    TwinSubtree(chain, s, t, b, f);
    forall x | x in Subtree(s.parent, f) ensures Kept(t, f).parent[x] == Kept(s, f).parent[x] {
      KeptEdgesAgree(chain, s, t, b, f, x);
    }
    assert f in Subtree(s.parent, f) by { SubtreeRoot(s.parent, f); }
  }

  lemma TwinKept(chain: Parents, s: Tree, t: Tree, b: Hash, f: Hash)
    requires Shape(chain, s) && Shape(chain, t) && Twin(s, t, b) && f in t.parent
    ensures Twin(Kept(s, f), Kept(t, f), f)
  {
    KeptCut(chain, s, t, b, f);
    TwinSubtree(chain, s, t, b, f);
    ReachesSelf(Kept(s, f).parent, f);
  }

  lemma TwinPrune(chain: Parents, s: Tree, t: Tree, b: Hash, number: nat, s': Tree, t': Tree) returns (c: Hash)
    requires Shape(chain, s) && FinalOk(s) && Twin(s, t, b) && Shape(chain, t)
    requires Prunes(s, number, s') && Prunes(t, number, t')
    ensures Twin(s', t', c)
  {
    forall f ensures IsPruneRoot(s, number, f) <==> IsPruneRoot(t, number, f) {
      TwinPruneRoot(chain, s, t, b, number, f);
    }
    if f :| IsPruneRoot(s, number, f) {
      c := f;
      TwinKept(chain, s, t, b, f);
    } else {
      c := b;
    }
  }

  lemma TwinCanRemove(chain: Parents, s: Tree, t: Tree, b: Hash, h: Hash)
    requires Shape(chain, s) && FinalOk(s) && Twin(s, t, b) && t.parent.Keys == t.scores.Keys && h in t.parent
    ensures CanRemove(s, h) <==> CanRemove(t, h)
  {
    TwinSubtree(chain, s, t, b, h);
    SubtreeRoot(s.parent, b);
  }

  /** Removing a subtree that does not hold `b` leaves the rest of the subtree of `b`. */
  lemma SubtreeWithout(chain: Parents, s: Tree, h: Hash, b: Hash)
    requires Shape(chain, s) && h in s.parent && b in s.parent && b !in Subtree(s.parent, h)
    ensures Subtree(s.parent - Subtree(s.parent, h), b) == Subtree(s.parent, b) - Subtree(s.parent, h)
    ensures forall x :: x in s.parent && x !in Subtree(s.parent, h) ==>
              (Reaches(s.parent - Subtree(s.parent, h), x, b) <==> Reaches(s.parent, x, b))
  {
    var gone := Subtree(s.parent, h);
    var rest := s.parent - gone;
    forall x | x in rest && s.parent[x] != ZERO_HASH ensures s.parent[x] in rest {
      if s.parent[x] in gone { SubtreeChild(s.parent, h, x); }
    }
    forall x | x in rest ensures Reaches(rest, x, b) <==> Reaches(s.parent, x, b) {
      ReachesAgrees(s.parent, rest, rest.Keys + {ZERO_HASH}, x, b);
    }
  }

  lemma TwinRemove(chain: Parents, s: Tree, t: Tree, b: Hash, h: Hash, s': Tree, t': Tree)
    requires Shape(chain, s) && FinalOk(s) && Twin(s, t, b) && t.parent.Keys == t.scores.Keys && h in t.parent
    requires Removes(s, h, s', CanRemove(s, h)) && Removes(t, h, t', CanRemove(t, h))
    ensures Twin(s', t', b)
  {
    TwinCanRemove(chain, s, t, b, h);
    if CanRemove(s, h) {
      TwinSubtree(chain, s, t, b, h);
      if b in Subtree(s.parent, h) {
        ReachesTransitive(s.parent, s.root.value, b, h);
      }
      SubtreeWithout(chain, s, h, b);
      assert s'.parent == s.parent - Subtree(s.parent, h) && t'.parent == t.parent - Subtree(s.parent, h);
    }
  }

  lemma TwinStep(chain: Parents, s: Tree, t: Tree, b: Hash, op: Op, s': Tree, t': Tree) returns (c: Hash)
    requires Shape(chain, s) && FinalOk(s) && Shape(chain, t) && Twin(s, t, b)
    requires Disciplined(chain, s, op) && Retained(t, op) && Next(s, op, s') && Next(t, op, t')
    ensures Twin(s', t', c)
  {
    c := b;
    match op {
      case Add(_, _, _, _, _) => TwinAdd(chain, s, t, b, op, s', t');
      case Reweigh(_, _) => TwinReweigh(s, t, b, op);
      case Finalize(h) => TwinFinalize(chain, s, t, b, h, s', t');
      case Prune(number) => c := TwinPrune(chain, s, t, b, number, s', t');
      case Remove(h) => TwinRemove(chain, s, t, b, h, s', t');
    }
  }

  lemma TwinAdded(s: Tree, t: Tree, b: Hash, h: Hash, p: Hash, number: nat, weight: nat, flag: bool)
    requires Twin(s, t, b) && t.parent.Keys == t.scores.Keys && p in t.parent
    requires s.head == t.head && s.headScore == t.headScore
    ensures Added(s, h, p, number, weight, flag).1 == Added(t, h, p, number, weight, flag).1
  {
    assert p in t.scores;
  }

  lemma TwinAnswer(chain: Parents, s: Tree, t: Tree, b: Hash, op: Op, s': Tree, t': Tree)
    requires Shape(chain, s) && FinalOk(s) && Twin(s, t, b) && t.parent.Keys == t.scores.Keys
    requires s.head == t.head && s.headScore == t.headScore && s'.head == t'.head
    requires Retained(t, op)
    ensures Answer(s, op, s') == Answer(t, op, t')
  {
    if op.Remove? {
      TwinCanRemove(chain, s, t, b, op.h);
    } else if op.Add? {
      TwinAdded(s, t, b, op.h, op.p, op.number, op.weight, op.flag);
    }
  }

  /** One step: twins stay twins, show the same head and give the same answer. */
  lemma TwinNext(chain: Parents, s: Tree, t: Tree, b: Hash, op: Op, s': Tree, t': Tree) returns (c: Hash)
    requires TreeOk(chain, s) && TreeOk(chain, t) && Twin(s, t, b)
    requires Disciplined(chain, s, op) && Retained(t, op) && Next(s, op, s') && Next(t, op, t')
    ensures TreeOk(chain, s') && TreeOk(chain, t') && Twin(s', t', c)
    ensures s'.head == t'.head && Answer(s, op, s') == Answer(t, op, t')
  {
    TwinHead(chain, s, t, b);
    NextOk(chain, s, op, s');
    NextOk(chain, t, op, t');
    c := TwinStep(chain, s, t, b, op, s', t');
    TwinHead(chain, s', t', c);
    TwinAnswer(chain, s, t, b, op, s', t');
  }

  // ---------------------------------------------------------------------------
  // Pruning is invisible
  // ---------------------------------------------------------------------------

  /** The finalized root is the only flagged block of its height. */
  lemma RootIsPruneRoot(chain: Parents, s: Tree)
    requires Shape(chain, s) && FinalOk(s) && s.root.Some?
    ensures IsPruneRoot(s, s.scores[s.root.value].number, s.root.value)
  {
    var r := s.root.value;
    ReachesSelf(s.parent, r);
    forall x | x in s.scores && s.scores[x].finalized && s.scores[x].number == s.scores[r].number ensures x == r {
      ReachesClimbs(chain, s, x, r);
    }
  }

  /** What is kept below the finalized root is what was there. */
  lemma KeptIsTwin(chain: Parents, s: Tree)
    requires Shape(chain, s) && FinalOk(s) && s.root.Some?
    ensures Twin(s, Kept(s, s.root.value), s.root.value)
  {
    var r := s.root.value;
    KeptWhole(chain, s, r);
    ReachesSelf(s.parent, r);
  }

  /** Pruning at the height of the finalized root keeps exactly that root and its descendants
      and leaves the head where it was. */
  lemma PruneAtRoot(chain: Parents, s: Tree, t: Tree)
    requires TreeOk(chain, s) && s.root.Some? && Prunes(s, s.scores[s.root.value].number, t)
    ensures t.parent.Keys == Subtree(s.parent, s.root.value) && t.root == s.root
    ensures TreeOk(chain, t) && Twin(s, t, s.root.value) && t.head == s.head
  {
    var r := s.root.value;
    RootIsPruneRoot(chain, s);
    assert Rescanned(Kept(s, r), t);
    PrunesOk(chain, s, s.scores[r].number, t);
    KeptIsTwin(chain, s);
    TwinHead(chain, s, t, r);
  }

  /** Both copies are given the same operations; the caller keeps the rules of the unpruned
      one and only speaks of blocks that were kept. */
  ghost predicate SideBySide(chain: Parents, ops: seq<Op>, ss: seq<Tree>, ts: seq<Tree>) {
    && |ss| == |ops| + 1 && |ts| == |ops| + 1
    && (forall i :: 0 <= i < |ops| ==>
          && Disciplined(chain, ss[i], ops[i]) && Retained(ts[i], ops[i])
          && Next(ss[i], ops[i], ss[i + 1]) && Next(ts[i], ops[i], ts[i + 1]))
  }

  lemma {:induction false} TwinsForever(chain: Parents, ops: seq<Op>, ss: seq<Tree>, ts: seq<Tree>, b: Hash, i: nat)
    returns (c: Hash)
    requires SideBySide(chain, ops, ss, ts) && i <= |ops|
    requires TreeOk(chain, ss[0]) && TreeOk(chain, ts[0]) && Twin(ss[0], ts[0], b)
    ensures TreeOk(chain, ss[i]) && TreeOk(chain, ts[i]) && Twin(ss[i], ts[i], c)
    ensures ss[i].head == ts[i].head
    ensures i > 0 ==> Answer(ss[i - 1], ops[i - 1], ss[i]) == Answer(ts[i - 1], ops[i - 1], ts[i])
  {
    if i == 0 {
      c := b;
      TwinHead(chain, ss[0], ts[0], b);
    } else {
      var d := TwinsForever(chain, ops, ss, ts, b, i - 1);
      c := TwinNext(chain, ss[i - 1], ts[i - 1], d, ops[i - 1], ss[i], ts[i]);
    }
  }

  /** Prune one of two equal trackers at the finalized root: after any later operations on
      retained blocks, both show the same head and every answer on the way was the same. */
  lemma PruningIsInvisible(chain: Parents, s: Tree, ops: seq<Op>, ss: seq<Tree>, ts: seq<Tree>, i: nat)
    requires TreeOk(chain, s) && s.root.Some?
    requires SideBySide(chain, ops, ss, ts) && i <= |ops|
    requires ss[0] == s && Prunes(s, s.scores[s.root.value].number, ts[0])
    ensures ss[i].head == ts[i].head
    ensures i > 0 ==> Answer(ss[i - 1], ops[i - 1], ss[i]) == Answer(ts[i - 1], ops[i - 1], ts[i])
  {
    PruneAtRoot(chain, s, ts[0]);
    var c := TwinsForever(chain, ops, ss, ts, s.root.value, i);
  }
}
