/** What each operation of the tracker does to the blocks, told by ancestry: which blocks are there
    afterwards, with which parent, weight, number and flag. Which of them is then the head says
    `HeadMeans`, since every operation keeps `TreeOk`. */
module ForkChoiceEffects {
  import opened Common
  import opened BlockTree
  import opened ForkChoice
  import opened ForkChoiceRuns

  /** The same block but for the flag. */
  predicate SameBlock(a: Score, b: Score) { a.weight == b.weight && a.number == b.number && a.block == b.block }

  /** A new block is there as it was given, and flagged if it descends from the finalized root or,
      before there is one, if the caller says so. Nothing else changes but the head, which becomes
      the new block exactly when that is the answer. */
  lemma AddEffect(chain: Parents, t: Tree, h: Hash, p: Hash, number: nat, weight: nat, flag: bool)
    requires TreeOk(chain, t) && Disciplined(chain, t, Add(h, p, number, weight, flag))
    ensures var (t', became) := Added(t, h, p, number, weight, flag);
            && TreeOk(chain, t') && t'.root == t.root && t'.parent == t.parent[h := p]
            && t'.scores.Keys == t.scores.Keys + {h} && (forall k :: k in t.scores ==> t'.scores[k] == t.scores[k])
            && t'.scores[h].weight == weight && t'.scores[h].number == number
            && (t'.scores[h].finalized <==> if t.root.Some? then Reaches(t'.parent, h, t.root.value) else flag)
            && t'.head == (if became then h else t.head)
  {
    NextOk(chain, t, Add(h, p, number, weight, flag), Added(t, h, p, number, weight, flag).0);
  }

  /** A known block gets the new weight and nothing else changes but the head, which becomes that
      block exactly when that is the answer. */
  lemma ReweighEffect(chain: Parents, t: Tree, h: Hash, weight: nat)
    requires TreeOk(chain, t) && Disciplined(chain, t, Reweigh(h, weight))
    ensures var (t', became) := Reweighted(t, h, weight);
            && TreeOk(chain, t') && t'.root == t.root && t'.parent == t.parent && t'.scores.Keys == t.scores.Keys
            && (forall k :: k in t.scores ==> t'.scores[k] == if k == h then t.scores[k].(weight := weight) else t.scores[k])
            && t'.head == (if became then h else t.head) && (became ==> h != t.head)
  {
    NextOk(chain, t, Reweigh(h, weight), Reweighted(t, h, weight).0);
  }

  /** A known block that descends from the finalized root, or any known one while there is none,
      becomes the root, and then its descendants are the flagged ones. */
  lemma FinalizeEffect(chain: Parents, t: Tree, h: Hash, t': Tree, changed: bool)
    requires TreeOk(chain, t) && Finalizes(t, h, t', changed)
    ensures changed <==> t'.head != t.head
    ensures if h in t.scores && (t.root.Some? ==> Reaches(t.parent, h, t.root.value)) then
              && TreeOk(chain, t') && t'.root == Some(h) && t'.parent == t.parent && t'.scores.Keys == t.scores.Keys
              && forall k :: k in t.scores ==>
                   SameBlock(t'.scores[k], t.scores[k]) && (t'.scores[k].finalized <==> Reaches(t.parent, k, h))
            else t' == t
  {
    NextOk(chain, t, Finalize(h), t');
  }

  lemma KeptEffect(chain: Parents, t: Tree, r: Hash, k: Hash)
    requires Shape(chain, t) && r in t.scores
    ensures k in Kept(t, r).scores <==> k in t.scores && Reaches(t.parent, k, r)
    ensures k in Kept(t, r).scores ==>
              && SameBlock(Kept(t, r).scores[k], t.scores[k]) && Kept(t, r).scores[k].finalized
              && k in Kept(t, r).parent && Kept(t, r).parent[k] == if k == r then ZERO_HASH else t.parent[k]
  {
    SubtreeRoot(t.parent, r);
  }

  /** Pruning at a height: of the flagged blocks of that height the one with the lowest hash becomes
      the root and the base of the tree, and its descendants are what is left. */
  lemma PruneEffect(chain: Parents, t: Tree, number: nat, t': Tree, r: Hash)
    requires TreeOk(chain, t) && Prunes(t, number, t')
    requires r in t.scores && t.scores[r].finalized && t.scores[r].number == number
    requires forall k :: k in t.scores && t.scores[k].finalized && t.scores[k].number == number ==> r <= k
    ensures TreeOk(chain, t') && t'.root == Some(r)
    ensures forall k :: k in t'.scores <==> k in t.scores && Reaches(t.parent, k, r)
    ensures forall k :: k in t'.scores ==>
              && SameBlock(t'.scores[k], t.scores[k]) && t'.scores[k].finalized
              && k in t'.parent && t'.parent[k] == if k == r then ZERO_HASH else t.parent[k]
  {
    assert IsPruneRoot(t, number, r);
    NextOk(chain, t, Prune(number), t');
    forall k
      ensures k in t'.scores <==> k in t.scores && Reaches(t.parent, k, r)
      ensures k in t'.scores ==>
                && SameBlock(t'.scores[k], t.scores[k]) && t'.scores[k].finalized
                && k in t'.parent && t'.parent[k] == if k == r then ZERO_HASH else t.parent[k]
    {
      KeptEffect(chain, t, r, k);
    }
  }

  lemma PruneNothing(t: Tree, number: nat, t': Tree)
    requires Prunes(t, number, t')
    requires forall k :: k in t.scores && t.scores[k].finalized ==> t.scores[k].number != number
    ensures t' == t
  {
  }

  /** A known block is removed with its descendants, unless it is the base of the tree or the
      finalized root is one of them. */
  lemma RemoveEffect(chain: Parents, t: Tree, h: Hash, t': Tree, removed: bool)
    requires TreeOk(chain, t) && Removes(t, h, t', removed)
    ensures removed <==> h in t.scores && t.parent[h] != ZERO_HASH && (t.root.Some? ==> !Reaches(t.parent, t.root.value, h))
    ensures !removed ==> t' == t
    ensures removed ==>
              && TreeOk(chain, t') && t'.root == t.root && t'.parent.Keys == t'.scores.Keys
              && (forall k :: k in t'.scores <==> k in t.scores && !Reaches(t.parent, k, h))
              && (forall k :: k in t'.scores ==> t'.scores[k] == t.scores[k] && t'.parent[k] == t.parent[k])
  {
    NextOk(chain, t, Remove(h), t');
  }
}
