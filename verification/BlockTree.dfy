/** Parent maps: ancestors, subtrees and the loops of `fork_choice.rs` that walk them.
    Nothing here assumes that a map is a tree: unknown parents and cycles are allowed
    unless a `requires` says otherwise. */
module BlockTree {
  import opened Common

  type Parents = map<Hash, Hash>

  /** The n-th ancestor. */
  ghost function Up(parent: Parents, x: Hash, n: nat): Option<Hash>
    decreases n
  {
    if n == 0 then Some(x) else if x in parent then Up(parent, parent[x], n - 1) else None
  }

  /** `a` is `x` or an ancestor of it. */
  ghost predicate Reaches(parent: Parents, x: Hash, a: Hash) {
    exists n: nat :: Up(parent, x, n) == Some(a)
  }

  /** `root` and everything below it. */
  ghost function Subtree(parent: Parents, root: Hash): set<Hash> {
    set x | x in parent.Keys + {root} && Reaches(parent, x, root)
  }

  lemma ReachesSelf(parent: Parents, x: Hash)
    ensures Reaches(parent, x, x)
  {
    assert Up(parent, x, 0) == Some(x);
  }

  lemma ReachesUnfold(parent: Parents, x: Hash, a: Hash)
    ensures Reaches(parent, x, a) <==> x == a || (x in parent && Reaches(parent, parent[x], a))
  {
    if x == a {
      ReachesSelf(parent, x);
    } else {
      if Reaches(parent, x, a) {
        var n: nat :| Up(parent, x, n) == Some(a);
        assert Up(parent, parent[x], n - 1) == Some(a);
      }
      if x in parent && Reaches(parent, parent[x], a) {
        var n: nat :| Up(parent, parent[x], n) == Some(a);
        assert Up(parent, x, n + 1) == Some(a);
      }
    }
  }

  lemma {:induction false} UpAdd(parent: Parents, x: Hash, m: nat, y: Hash, n: nat)
    requires Up(parent, x, m) == Some(y)
    ensures Up(parent, x, m + n) == Up(parent, y, n)
    decreases m
  {
    if m > 0 {
      UpAdd(parent, parent[x], m - 1, y, n);
    }
  }

  lemma ReachesTransitive(parent: Parents, x: Hash, y: Hash, z: Hash)
    requires Reaches(parent, x, y) && Reaches(parent, y, z)
    ensures Reaches(parent, x, z)
  {
    var m: nat :| Up(parent, x, m) == Some(y);
    var n: nat :| Up(parent, y, n) == Some(z);
    UpAdd(parent, x, m, y, n);
  }

  /** A set that holds `root` and is closed under children holds the whole subtree. */
  lemma {:induction false} ClosedHoldsSubtree(parent: Parents, root: Hash, s: set<Hash>, x: Hash, n: nat)
    requires root in s
    requires forall c :: c in parent && parent[c] in s ==> c in s
    requires Up(parent, x, n) == Some(root)
    ensures x in s
    decreases n
  {
    if n > 0 {
      ClosedHoldsSubtree(parent, root, s, parent[x], n - 1);
    }
  }

  lemma ClosedIsSubtree(parent: Parents, root: Hash, s: set<Hash>)
    requires root in s && s <= Subtree(parent, root)
    requires forall c :: c in parent && parent[c] in s ==> c in s
    ensures s == Subtree(parent, root)
  {
    forall x | x in Subtree(parent, root) ensures x in s {
      var n: nat :| Up(parent, x, n) == Some(root);
      ClosedHoldsSubtree(parent, root, s, x, n);
    }
  }

  lemma SubtreeChild(parent: Parents, root: Hash, c: Hash)
    requires c in parent && parent[c] in Subtree(parent, root)
    ensures c in Subtree(parent, root)
  {
    ReachesUnfold(parent, c, root);
  }

  lemma SubtreeRoot(parent: Parents, root: Hash)
    ensures root in Subtree(parent, root)
  {
    ReachesSelf(parent, root);
  }

  // ---------------------------------------------------------------------------
  // Worklists
  // ---------------------------------------------------------------------------

  ghost predicate IsChildIndex(parent: Parents, keys: set<Hash>, children: map<Hash, seq<Hash>>) {
    && (forall p, i :: p in children && 0 <= i < |children[p]|
                       ==> children[p][i] in parent && parent[children[p][i]] == p)
    && (forall c :: c in keys && c in parent ==> parent[c] in children && c in children[parent[c]])
  }

  /** The `children` table that every bulk operation builds first. */
  method ChildIndex(parent: Parents) returns (children: map<Hash, seq<Hash>>)
    ensures IsChildIndex(parent, parent.Keys, children)
  {
    children := map[];
    var todo := parent.Keys;
    while todo != {}
      invariant todo <= parent.Keys
      invariant IsChildIndex(parent, parent.Keys - todo, children)
      decreases |todo|
    {
      var c :| c in todo;
      var p := parent[c];
      var before := if p in children then children[p] else [];
      children := children[p := before + [c]];
      todo := todo - {c};
    }
  }

  /** The worklist of `mark_finalized` and `remove_subtree`: a popped block that is already
      marked is skipped, any other is marked and its children are pushed. */
  method MarkDescendants(parent: Parents, root: Hash) returns (marked: set<Hash>)
    ensures marked == Subtree(parent, root)
  {
    var children := ChildIndex(parent);
    var pending := [root];
    marked := {};
    SubtreeRoot(parent, root);
    while pending != []
      invariant root in marked || root in pending
      invariant marked <= Subtree(parent, root)
      invariant forall i :: 0 <= i < |pending| ==> pending[i] in Subtree(parent, root)
      invariant forall c :: c in parent && parent[c] in marked ==> c in marked || c in pending
      decreases Subtree(parent, root) - marked, |pending|
    {
      ghost var was := pending;
      var block := pending[|pending| - 1];
      pending := pending[..|pending| - 1];
      assert was == pending + [block];
      if block !in marked {
        marked := marked + {block};
        if block in children {
          forall i | 0 <= i < |children[block]| ensures children[block][i] in Subtree(parent, root) {
            SubtreeChild(parent, root, children[block][i]);
          }
          pending := pending + children[block];
        }
      }
    }
    ClosedIsSubtree(parent, root, marked);
  }

  /** The worklist of `prune_below`: a child is pushed when it is first protected. */
  method ProtectDescendants(parent: Parents, root: Hash) returns (protected: set<Hash>)
    ensures protected == Subtree(parent, root)
  {
    var children := ChildIndex(parent);
    var pending := [root];
    protected := {root};
    SubtreeRoot(parent, root);
    while pending != []
      invariant root in protected && protected <= Subtree(parent, root)
      invariant forall i :: 0 <= i < |pending| ==> pending[i] in protected
      invariant forall c :: c in parent && parent[c] in protected ==> c in protected || parent[c] in pending
      decreases Subtree(parent, root) - protected, |pending|
    {
      ghost var was, before := pending, protected;
      var block := pending[|pending| - 1];
      pending := pending[..|pending| - 1];
      assert was == pending + [block];
      if block in children {
        var kids := children[block];
        for i := 0 to |kids|
          invariant before <= protected <= Subtree(parent, root)
          invariant pending == was[..|was| - 1] ==> protected == before
          invariant protected == before ==> pending == was[..|was| - 1]
          invariant was[..|was| - 1] <= pending
          invariant forall j :: 0 <= j < |pending| ==> pending[j] in protected
          invariant forall j :: 0 <= j < i ==> kids[j] in protected
          invariant forall x :: x in protected ==> x in before || x in pending
        {
          if kids[i] !in protected {
            SubtreeChild(parent, root, kids[i]);
            protected := protected + {kids[i]};
            pending := pending + [kids[i]];
          }
        }
      }
    }
    ClosedIsSubtree(parent, root, protected);
  }

  // ---------------------------------------------------------------------------
  // Walks towards the ancestors
  // ---------------------------------------------------------------------------

  /** `n` is the least number of steps from `x` to `a`. */
  ghost predicate Distance(parent: Parents, x: Hash, a: Hash, n: nat) {
    Up(parent, x, n) == Some(a) && forall k: nat :: k < n ==> Up(parent, x, k) != Some(a)
  }

  lemma {:induction false} DistanceExists(parent: Parents, x: Hash, a: Hash, n: nat) returns (d: nat)
    requires Up(parent, x, n) == Some(a)
    ensures Distance(parent, x, a, d) && d <= n
  {
    if k: nat :| k < n && Up(parent, x, k) == Some(a) {
      d := DistanceExists(parent, x, a, k);
    } else {
      d := n;
    }
  }

  lemma UpDefined(parent: Parents, x: Hash, n: nat, k: nat)
    requires Up(parent, x, n).Some? && k < n
    ensures Up(parent, x, k).Some? && Up(parent, x, k).value in parent
    decreases k
  {
    if k > 0 {
      UpDefined(parent, parent[x], n - 1, k - 1);
    }
  }

  /** On the way to its nearest occurrence of `a`, a walk meets no block twice. */
  lemma NoRepeat(parent: Parents, x: Hash, a: Hash, n: nat, i: nat, j: nat)
    requires Distance(parent, x, a, n) && i < j < n
    ensures Up(parent, x, i) != Up(parent, x, j)
  {
    UpDefined(parent, x, n, i);
    if Up(parent, x, i) == Up(parent, x, j) {
      var y := Up(parent, x, i).value;
      UpAdd(parent, x, j, y, n - j);
      UpAdd(parent, x, i, y, n - j);
      assert false;
    }
  }

  lemma {:induction false} DistinctFit(s: seq<Hash>, keys: set<Hash>)
    requires forall i :: 0 <= i < |s| ==> s[i] in keys
    requires forall i, j :: 0 <= i < j < |s| ==> s[i] != s[j]
    ensures |s| <= |keys|
  {
    if s != [] {
      DistinctFit(s[1..], keys - {s[0]});
    }
  }

  /** The pigeonhole behind the depth bound of `chain_between`: an ancestor that can be
      reached at all is reached within as many steps as there are blocks. */
  lemma DistanceBounded(parent: Parents, x: Hash, a: Hash, n: nat)
    requires Distance(parent, x, a, n)
    ensures n <= |parent|
  {
    forall k: nat | k < n ensures Up(parent, x, k).Some? && Up(parent, x, k).value in parent {
      UpDefined(parent, x, n, k);
    }
    var visited := seq(n, k requires 0 <= k < n => Up(parent, x, k).value);
    forall i, j | 0 <= i < j < |visited| ensures visited[i] != visited[j] {
      NoRepeat(parent, x, a, n, i, j);
    }
    DistinctFit(visited, parent.Keys);
  }

  ghost predicate IsChain(parent: Parents, from: Hash, to: Hash, chain: seq<Hash>) {
    && Up(parent, from, |chain|) == Some(to)
    && (forall k :: 0 <= k < |chain| ==> chain[k] != to && Up(parent, from, |chain| - 1 - k) == Some(chain[k]))
  }

  /** `chain_between`: the blocks from just below `to` up to `from`, oldest first, or nothing
      when `to` is not an ancestor. The depth bound never cuts a chain short, not even on a
      map with cycles. */
  method ChainBetween(parent: Parents, from: Hash, to: Hash) returns (chain: seq<Hash>)
    ensures Reaches(parent, from, to) ==> IsChain(parent, from, to, chain)
    ensures !Reaches(parent, from, to) ==> chain == []
  {
    var walked, current, iterations := [], from, 0;
    var maxDepth := |parent| + 1;
    while current != to
      invariant iterations == |walked| <= maxDepth
      invariant Up(parent, from, |walked|) == Some(current)
      invariant forall k :: 0 <= k < |walked| ==> walked[k] != to && Up(parent, from, k) == Some(walked[k])
      decreases maxDepth - iterations
    {
      iterations := iterations + 1;
      if iterations > maxDepth {
        if Reaches(parent, from, to) {
          var n: nat :| Up(parent, from, n) == Some(to);
          var d := DistanceExists(parent, from, to, n);
          DistanceBounded(parent, from, to, d);
          assert false;
        }
        return [];
      }
      walked := walked + [current];
      if current !in parent {
        if Reaches(parent, from, to) {
          var n: nat :| Up(parent, from, n) == Some(to);
          if n > |walked| - 1 {
            UpAdd(parent, from, |walked| - 1, current, n - (|walked| - 1));
          }
          assert false;
        }
        return [];
      }
      UpAdd(parent, from, |walked| - 1, current, 1);
      assert Up(parent, current, 1) == Up(parent, parent[current], 0);
      current := parent[current];
    }
    assert Reaches(parent, from, to);
    chain := seq(|walked|, k requires 0 <= k < |walked| => walked[|walked| - 1 - k]);
  }

  /** Block numbers grow from parent to child, and nothing is stored under the zero hash. */
  ghost predicate Climbs(parent: Parents, number: map<Hash, nat>) {
    && ZERO_HASH !in parent && parent.Keys <= number.Keys
    && (forall x :: x in parent && parent[x] in parent ==> number[parent[x]] < number[x])
  }

  /** `y` is met when walking up from `x` without entering the zero parent of a root. */
  ghost predicate Meets(parent: Parents, x: Hash, y: Hash) {
    Reaches(parent, x, y) && (y == ZERO_HASH ==> x == ZERO_HASH)
  }

  lemma MeetsUnfold(parent: Parents, x: Hash, y: Hash)
    requires ZERO_HASH !in parent
    ensures Meets(parent, x, y) <==> x == y || (x in parent && parent[x] != ZERO_HASH && Meets(parent, parent[x], y))
  {
    ReachesUnfold(parent, x, y);
    if x in parent && parent[x] == ZERO_HASH {
      ReachesUnfold(parent, ZERO_HASH, y);
    }
  }

  /** `find_common_ancestor`: the lowest block met by both walks, if there is one. */
  method FindCommonAncestor(parent: Parents, a: Hash, b: Hash, ghost number: map<Hash, nat>)
    returns (r: Option<Hash>)
    requires Climbs(parent, number)
    ensures r.Some? ==> Meets(parent, a, r.value) && Meets(parent, b, r.value)
    ensures r.Some? ==> forall d :: Meets(parent, a, d) && Meets(parent, b, d) ==> Reaches(parent, r.value, d)
    ensures r.None? ==> forall d :: !(Meets(parent, a, d) && Meets(parent, b, d))
  {
    var ancestors, current := {}, a;
    ReachesSelf(parent, a);
    while true
      invariant Meets(parent, a, current)
      invariant forall y :: y in ancestors ==> Meets(parent, a, y)
      invariant forall y :: Meets(parent, a, y) ==> y in ancestors || Meets(parent, current, y)
      decreases if current in parent then number[current] + 1 else 0
    {
      ancestors := ancestors + {current};
      forall y ensures Meets(parent, current, y) <==>
                       current == y || (current in parent && parent[current] != ZERO_HASH && Meets(parent, parent[current], y))
      {
        MeetsUnfold(parent, current, y);
      }
      if current !in parent || parent[current] == ZERO_HASH {
        break;
      }
      ReachesUnfold(parent, current, parent[current]);
      ReachesSelf(parent, parent[current]);
      ReachesTransitive(parent, a, current, parent[current]);
      current := parent[current];
    }
    assert forall y :: Meets(parent, a, y) <==> y in ancestors;

    current := b;
    ReachesSelf(parent, b);
    while true
      invariant Meets(parent, b, current)
      invariant forall d :: Meets(parent, a, d) && Meets(parent, b, d) ==> Meets(parent, current, d)
      decreases if current in parent then number[current] + 1 else 0
    {
      if current in ancestors {
        return Some(current);
      }
      forall y ensures Meets(parent, current, y) <==>
                       current == y || (current in parent && parent[current] != ZERO_HASH && Meets(parent, parent[current], y))
      {
        MeetsUnfold(parent, current, y);
      }
      if current !in parent || parent[current] == ZERO_HASH {
        return None;
      }
      ReachesUnfold(parent, current, parent[current]);
      ReachesSelf(parent, parent[current]);
      ReachesTransitive(parent, b, current, parent[current]);
      current := parent[current];
    }
  }
}
