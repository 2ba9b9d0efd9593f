/** The fork-choice tracker: a block tree with a cached head. */
module ForkChoice {
  import opened Common
  import opened BlockTree

  /** `BlockScore`; the flag says whether the block extends the finalized chain. */
  datatype Score = Score(finalized: bool, weight: nat, number: nat, block: Hash)

  /** `BlockScore::cmp` is `Greater`: by flag, weight and number, then the lower hash wins. */
  predicate Better(a: Score, b: Score) {
    if a.finalized != b.finalized then a.finalized
    else if a.weight != b.weight then a.weight > b.weight
    else if a.number != b.number then a.number > b.number
    else a.block < b.block
  }

  datatype Tree = Tree(
    parent: Parents,
    scores: map<Hash, Score>,
    root: Option<Hash>,
    head: Hash,
    headScore: Score)

  ghost predicate Keyed(scores: map<Hash, Score>) {
    forall h :: h in scores ==> scores[h].block == h
  }

  /** `h` beats every other tracked block. */
  ghost predicate IsBest(scores: map<Hash, Score>, h: Hash) {
    h in scores && forall k :: k in scores && k != h ==> Better(scores[h], scores[k])
  }

  lemma BestUnique(scores: map<Hash, Score>, a: Hash, b: Hash)
    requires IsBest(scores, a) && IsBest(scores, b)
    ensures a == b
  {
  }

  // ---------------------------------------------------------------------------
  // What each operation does, as a relation on trees
  // ---------------------------------------------------------------------------

  function Genesis(h: Hash): Tree {
    var score := Score(false, 0, 0, h);
    Tree(map[h := ZERO_HASH], map[h := score], None, h, score)
  }

  function NewScore(t: Tree, h: Hash, p: Hash, number: nat, weight: nat, flag: bool): Score {
    var finalized := if t.root.Some? then p in t.scores && t.scores[p].finalized else flag;
    Score(finalized, weight, number, h)
  }

  /** The cached head moves only to a better score. */
  function Challenge(t: Tree, h: Hash, score: Score): (Tree, bool) {
    if Better(score, t.headScore) then (t.(head := h, headScore := score), true) else (t, false)
  }

  function Added(t: Tree, h: Hash, p: Hash, number: nat, weight: nat, flag: bool): (Tree, bool) {
    var score := NewScore(t, h, p, number, weight, flag);
    Challenge(t.(parent := t.parent[h := p], scores := t.scores[h := score]), h, score)
  }

  function Reweighted(t: Tree, h: Hash, weight: nat): (Tree, bool) {
    if h !in t.scores then (t, false)
    else
      var score := t.scores[h].(weight := weight);
      var t' := t.(scores := t.scores[h := score]);
      if h == t.head then (t'.(headScore := score), false) else Challenge(t', h, score)
  }

  /** `t` after `recalculate_head`, except for the head, which is whatever wins. */
  ghost predicate Rescanned(before: Tree, t: Tree) {
    && t == before.(head := t.head, headScore := t.headScore)
    && (before.scores == map[] ==> t == before)
    && (before.scores != map[] ==> IsBest(before.scores, t.head) && t.headScore == before.scores[t.head])
  }

  ghost function Flagged(t: Tree, h: Hash): Tree {
    t.(scores := map k | k in t.scores :: t.scores[k].(finalized := k in Subtree(t.parent, h)),
       root := Some(h))
  }

  ghost predicate CanFinalize(t: Tree, h: Hash) {
    h in t.scores && (t.root.Some? ==> Reaches(t.parent, h, t.root.value))
  }

  ghost predicate Finalizes(t: Tree, h: Hash, t': Tree, changed: bool) {
    if CanFinalize(t, h) then Rescanned(Flagged(t, h), t') && (changed <==> t'.head != t.head)
    else t' == t && !changed
  }

  /** The finalized block of a height that pruning keeps: the lowest hash. */
  ghost predicate IsPruneRoot(t: Tree, number: nat, h: Hash) {
    && h in t.scores && t.scores[h].finalized && t.scores[h].number == number
    && forall k :: k in t.scores && t.scores[k].finalized && t.scores[k].number == number ==> h <= k
  }

  ghost function Kept(t: Tree, h: Hash): Tree {
    var keep := Subtree(t.parent, h);
    t.(scores := map k | k in t.scores && k in keep :: t.scores[k].(finalized := true),
       parent := (map k | k in t.parent && k in keep :: t.parent[k])[h := ZERO_HASH],
       root := Some(h))
  }

  ghost predicate Prunes(t: Tree, number: nat, t': Tree) {
    && (forall h :: IsPruneRoot(t, number, h) ==> Rescanned(Kept(t, h), t'))
    && ((forall h :: !IsPruneRoot(t, number, h)) ==> t' == t)
  }

  ghost predicate CanRemove(t: Tree, h: Hash) {
    && h in t.scores
    && !(h in t.parent && t.parent[h] == ZERO_HASH)
    && (t.root.Some? ==> t.root.value !in Subtree(t.parent, h))
  }

  ghost function Without(t: Tree, gone: set<Hash>): Tree {
    t.(scores := t.scores - gone, parent := t.parent - gone)
  }

  ghost predicate Removes(t: Tree, h: Hash, t': Tree, removed: bool) {
    && (removed <==> CanRemove(t, h))
    && (if removed then Rescanned(Without(t, Subtree(t.parent, h)), t') else t' == t)
  }

  lemma IsPruneRootUnique(t: Tree, number: nat, a: Hash, b: Hash)
    requires IsPruneRoot(t, number, a) && IsPruneRoot(t, number, b)
    ensures a == b
  {
  }

  // ---------------------------------------------------------------------------
  // The tracker
  // ---------------------------------------------------------------------------

  class ForkChoice {
    var parent: Parents
    var scores: map<Hash, Score>
    var root: Option<Hash>
    var head: Hash
    var headScore: Score

    ghost function Contents(): Tree
      reads this
    {
      Tree(parent, scores, root, head, headScore)
    }

    /** The only thing every call keeps without any help from the caller. */
    ghost predicate Valid()
      reads this
    {
      Keyed(scores)
    }

    constructor (genesis: Hash)
      ensures Valid() && Contents() == Genesis(genesis)
    {
      var score := Score(false, 0, 0, genesis);
      scores := map[genesis := score];
      parent := map[genesis := ZERO_HASH];
      root := None;
      head := genesis;
      headScore := score;
    }

    method AddBlock(h: Hash, p: Hash, number: nat, weight: nat, flag: bool) returns (becameHead: bool)
      requires Valid()
      modifies this
      ensures Valid() && (Contents(), becameHead) == Added(old(Contents()), h, p, number, weight, flag)
    {
      var finalized := match root
        case Some(_) => p in scores && scores[p].finalized
        case None => flag;
      var score := Score(finalized, weight, number, h);
      parent := parent[h := p];
      scores := scores[h := score];
      if Better(score, headScore) {
        head := h;
        headScore := score;
        return true;
      }
      return false;
    }

    method UpdateAttestedWeight(h: Hash, weight: nat) returns (changed: bool)
      requires Valid()
      modifies this
      ensures Valid() && (Contents(), changed) == Reweighted(old(Contents()), h, weight)
    {
      if h in scores {
        var updated := scores[h].(weight := weight);
        scores := scores[h := updated];
        if h == head {
          headScore := updated;
          return false;
        }
        if Better(updated, headScore) {
          head := h;
          headScore := updated;
          return true;
        }
      }
      return false;
    }

    method RecalculateHead()
      requires Valid()
      modifies this`head, this`headScore
      ensures Valid() && Rescanned(old(Contents()), Contents())
    {
      if scores == map[] {
        return;
      }
      var todo := scores.Keys;
      var best :| best in todo;
      todo := todo - {best};
      while todo != {}
        invariant todo <= scores.Keys && best in scores && best !in todo
        invariant forall k :: k in scores && k !in todo && k != best ==> Better(scores[best], scores[k])
        decreases |todo|
      {
        var h :| h in todo;
        todo := todo - {h};
        if Better(scores[h], scores[best]) {
          best := h;
        }
      }
      head := best;
      headScore := scores[best];
    }

    method MarkFinalized(h: Hash) returns (changed: bool)
      requires Valid()
      modifies this
      ensures Valid() && Finalizes(old(Contents()), h, Contents(), changed)
    {
      if h !in scores {
        return false;
      }
      ReachesSelf(parent, h);
      if root.Some? && root.value != h {
        var chain := ChainBetween(parent, h, root.value);
        if chain == [] {
          return false;
        }
      }
      var oldHead := head;
      var marked := MarkDescendants(parent, h);
      scores := map k | k in scores :: scores[k].(finalized := k in marked);
      root := Some(h);
      assert Contents() == Flagged(old(Contents()), h);
      RecalculateHead();
      return head != oldHead;
    }

    /** The filter and `min_by` at the start of `prune_below`. */
    method FindPruneRoot(number: nat) returns (found: Option<Hash>)
      requires Valid()
      ensures found.Some? ==> IsPruneRoot(Contents(), number, found.value)
      ensures found.None? ==> forall h :: !IsPruneRoot(Contents(), number, h)
    {
      var todo := scores.Keys;
      found := None;
      while todo != {}
        invariant todo <= scores.Keys
        invariant found.Some? ==> found.value in scores && scores[found.value].finalized && scores[found.value].number == number
        invariant forall k :: k in scores && k !in todo && scores[k].finalized && scores[k].number == number
                              ==> found.Some? && found.value <= k
        decreases |todo|
      {
        var h :| h in todo;
        todo := todo - {h};
        if scores[h].finalized && scores[h].number == number && (found.None? || h < found.value) {
          found := Some(h);
        }
      }
    }

    method PruneBelow(number: nat)
      requires Valid()
      modifies this
      ensures Valid() && Prunes(old(Contents()), number, Contents())
    {
      var found := FindPruneRoot(number);
      if found.None? {
        return;
      }
      var h := found.value;
      var protected := ProtectDescendants(parent, h);
      scores := map k | k in scores && k in protected :: scores[k].(finalized := true);
      parent := (map k | k in parent && k in protected :: parent[k])[h := ZERO_HASH];
      root := Some(h);
      assert Contents() == Kept(old(Contents()), h);
      RecalculateHead();
      forall k | IsPruneRoot(old(Contents()), number, k) ensures k == h {
        IsPruneRootUnique(old(Contents()), number, k, h);
      }
    }

    method RemoveSubtree(h: Hash) returns (removed: bool)
      requires Valid()
      modifies this
      ensures Valid() && Removes(old(Contents()), h, Contents(), removed)
    {
      SubtreeRoot(parent, h);
      if root == Some(h) || (h in parent && parent[h] == ZERO_HASH) || h !in scores {
        return false;
      }
      var gone := MarkDescendants(parent, h);
      if root.Some? && root.value in gone {
        return false;
      }
      scores := map k | k in scores && k !in gone :: scores[k];
      parent := map k | k in parent && k !in gone :: parent[k];
      assert Contents() == Without(old(Contents()), gone);
      RecalculateHead();
      return true;
    }
  }
}
