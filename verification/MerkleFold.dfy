/** The pairwise hash fold behind witness roots: a level of n hashes becomes a level of half as
    many, rounded up, and an odd last hash is paired with itself. */
module MerkleFold {
  import opened Arithmetic
  import opened Rlp

  type Hasher = Bytes -> Bytes32

  const ZERO_ROOT: Bytes32 := [0, 0, 0, 0, 0, 0, 0, 0, 0, 0, 0, 0, 0, 0, 0, 0, 0, 0, 0, 0, 0, 0, 0, 0, 0, 0, 0, 0, 0, 0, 0, 0]

  function Join(left: Bytes, right: Bytes): Bytes { left + right }

  lemma JoinInjective(a: Bytes32, b: Bytes32, c: Bytes32, d: Bytes32)
    requires Join(a, b) == Join(c, d)
    ensures a == c && b == d
  {
    assert Join(a, b)[..32] == a && Join(c, d)[..32] == c;
    assert Join(a, b)[32..] == b && Join(c, d)[32..] == d;
  }

  function Pair(leaves: seq<Bytes32>, i: nat): Bytes
    requires 2 * i < |leaves|
  {
    Join(leaves[2 * i], leaves[if 2 * i + 1 < |leaves| then 2 * i + 1 else 2 * i])
  }

  function Parent(h: Hasher, leaves: seq<Bytes32>, i: nat): Bytes32
    requires 2 * i < |leaves|
  {
    h(Pair(leaves, i))
  }

  function Half(n: nat): nat { (n + 1) / 2 }

  function NextLevel(h: Hasher, leaves: seq<Bytes32>): (r: seq<Bytes32>)
    ensures |r| == Half(|leaves|)
  {
    seq(Half(|leaves|), i requires 0 <= i < Half(|leaves|) => Parent(h, leaves, i))
  }

  function Root(h: Hasher, leaves: seq<Bytes32>): Bytes32
    decreases |leaves|
  {
    if leaves == [] then ZERO_ROOT else if |leaves| == 1 then leaves[0] else Root(h, NextLevel(h, leaves))
  }

  method ComputeNextLevel(h: Hasher, leaves: seq<Bytes32>) returns (next: seq<Bytes32>)
    ensures next == NextLevel(h, leaves)
  {
    next := [];
    var i := 0;
    while i < |leaves|
      invariant i == 2 * |next| && |next| <= Half(|leaves|)
      invariant next == NextLevel(h, leaves)[..|next|]
    {
      var left := leaves[i];
      var right := if i + 1 < |leaves| then leaves[i + 1] else left;
      ghost var k := |next|;
      assert Join(left, right) == Pair(leaves, k);
      next := next + [h(Join(left, right))];
      i := i + 2;
    }
  }

  method ComputeRoot(h: Hasher, leaves: seq<Bytes32>) returns (root: Bytes32)
    ensures root == Root(h, leaves)
  {
    if leaves == [] {
      return ZERO_ROOT;
    }
    var level := leaves;
    while |level| > 1
      invariant |level| > 0 && Root(h, level) == Root(h, leaves)
      decreases |level|
    {
      level := ComputeNextLevel(h, level);
    }
    return level[0];
  }

  // ---------------------------------------------------------------------------
  // What a root is
  // ---------------------------------------------------------------------------

  /** One level up, two halves of even length are done side by side. */
  lemma LevelOfHalves(h: Hasher, a: seq<Bytes32>, b: seq<Bytes32>)
    requires |a| % 2 == 0
    ensures NextLevel(h, a + b) == NextLevel(h, a) + NextLevel(h, b)
  {
    var n := Half(|a|);
    forall i | 0 <= i < Half(|a + b|) ensures NextLevel(h, a + b)[i] == (NextLevel(h, a) + NextLevel(h, b))[i] {
      if i < n {
        assert Pair(a + b, i) == Pair(a, i);
      } else {
        assert Pair(a + b, i) == Pair(b, i - n);
      }
    }
  }

  /** The root of two perfect trees side by side is the hash of the left root followed by the
      right one; the root of one leaf is the leaf, and without leaves it is zero. */
  lemma {:induction false} RootOfHalves(h: Hasher, a: seq<Bytes32>, b: seq<Bytes32>, k: nat)
    requires |a| == |b| == Pow2(k)
    ensures Root(h, a + b) == h(Root(h, a) + Root(h, b))
    decreases k
  {
    if k == 0 {
      assert a + b == [a[0], b[0]];
      var left: Bytes, right: Bytes := a[0], b[0];
      assert Pair(a + b, 0) == left + right;
      assert NextLevel(h, a + b) == [h(left + right)];
    } else {
      LevelOfHalves(h, a, b);
      RootOfHalves(h, NextLevel(h, a), NextLevel(h, b), k - 1);
    }
  }

  lemma RootOfOne(h: Hasher, x: Bytes32)
    ensures Root(h, [x]) == x
    ensures forall i :: 0 <= i < 32 ==> Root(h, [])[i] == 0
  {
  }

  /** Any number of leaves: the root is that of the perfect tree of the padded leaves. */
  lemma {:induction false} RootIsPadded(h: Hasher, leaves: seq<Bytes32>)
    requires leaves != []
    ensures Root(h, Padded(leaves)) == Root(h, leaves)
    decreases |leaves|
  {
    if |leaves| == 1 {
      assert Padded(leaves) == leaves;
    } else {
      var level, tree := NextLevel(h, leaves), Padded(leaves);
      forall i | 0 <= i < |Padded(level)| ensures NextLevel(h, tree)[i] == Padded(level)[i] {
        LevelPads(h, leaves, i);
      }
      assert NextLevel(h, tree) == Padded(level);
      RootIsPadded(h, level);
    }
  }

  // ---------------------------------------------------------------------------
  // What a root determines
  // ---------------------------------------------------------------------------

  function Depth(n: nat): nat { if n <= 1 then 0 else 1 + Depth(Half(n)) }

  /** Which of n leaves stands at a position of the perfect tree that the fold fills up by
      repeating its last subtrees. */
  function Slot(n: nat, position: nat): (k: nat)
    requires n > 0
    ensures k < n
    decreases n
  {
    if n == 1 then 0
    else
      var child := 2 * Slot(Half(n), position / 2) + position % 2;
      if child < n then child else n - 1
  }

  /** The leaves of that perfect tree. */
  function Padded(leaves: seq<Bytes32>): seq<Bytes32>
    requires leaves != []
  {
    seq(Pow2(Depth(|leaves|)), i requires 0 <= i < Pow2(Depth(|leaves|)) => leaves[Slot(|leaves|, i)])
  }

  lemma SlotOfChild(n: nat, i: nat)
    requires n > 1
    ensures var q := Slot(Half(n), i);
            2 * q < n && Slot(n, 2 * i) == 2 * q && Slot(n, 2 * i + 1) == if 2 * q + 1 < n then 2 * q + 1 else 2 * q
  {
    assert (2 * i) / 2 == i && (2 * i) % 2 == 0;
    assert (2 * i + 1) / 2 == i && (2 * i + 1) % 2 == 1;
  }

  /** One level up, the perfect tree holds the hash of each pair. */
  lemma LevelPads(h: Hasher, leaves: seq<Bytes32>, i: nat)
    requires |leaves| > 1 && i < Pow2(Depth(Half(|leaves|)))
    ensures 2 * i + 1 < |Padded(leaves)|
    ensures Padded(NextLevel(h, leaves))[i] == h(Join(Padded(leaves)[2 * i], Padded(leaves)[2 * i + 1]))
  {
    SlotOfChild(|leaves|, i);
    assert Padded(NextLevel(h, leaves))[i] == Parent(h, leaves, Slot(Half(|leaves|), i));
  }

  function PairAt(tree: seq<Bytes32>, i: nat): Bytes {
    if 2 * i + 1 < |tree| then Join(tree[2 * i], tree[2 * i + 1]) else []
  }

  /** Everything the fold hashes on the way from these leaves to their root. */
  function Hashed(h: Hasher, leaves: seq<Bytes32>): set<Bytes>
    decreases |leaves|
  {
    if |leaves| <= 1 then {}
    else (set i | 0 <= i < Half(|leaves|) :: Pair(leaves, i)) + Hashed(h, NextLevel(h, leaves))
  }

  /** Two different inputs with the same hash, one of `s` and one of `t`. */
  predicate Collision(h: Hasher, s: set<Bytes>, t: set<Bytes>, x: Bytes, y: Bytes) {
    x in s && y in t && x != y && h(x) == h(y)
  }

  lemma PaddedPairHashed(h: Hasher, leaves: seq<Bytes32>, i: nat)
    requires |leaves| > 1 && i < Pow2(Depth(Half(|leaves|)))
    ensures PairAt(Padded(leaves), i) in Hashed(h, leaves)
  {
    SlotOfChild(|leaves|, i);
    var q := Slot(Half(|leaves|), i);
    assert PairAt(Padded(leaves), i) == Pair(leaves, q);
  }

  lemma {:induction false} HashedArePairs(h: Hasher, leaves: seq<Bytes32>, p: Bytes)
    requires p in Hashed(h, leaves)
    ensures |p| == 64
    decreases |leaves|
  {
    if p in Hashed(h, NextLevel(h, leaves)) {
      HashedArePairs(h, NextLevel(h, leaves), p);
    }
  }

  /** Trees of one depth with the same root agree on every padded leaf, or the two fold
      computations contain two different inputs with the same hash. */
  lemma {:induction false} RootBinds(h: Hasher, a: seq<Bytes32>, b: seq<Bytes32>) returns (x: Bytes, y: Bytes)
    requires a != [] && b != [] && Depth(|a|) == Depth(|b|) && Root(h, a) == Root(h, b)
    ensures Padded(a) == Padded(b) || Collision(h, Hashed(h, a), Hashed(h, b), x, y)
    decreases |a|
  {
    x, y := [], [];
    if |a| > 1 {
      x, y := RootBinds(h, NextLevel(h, a), NextLevel(h, b));
      if Padded(NextLevel(h, a)) == Padded(NextLevel(h, b)) {
        var n := Pow2(Depth(Half(|a|)));
        if i: nat :| i < n && PairAt(Padded(a), i) != PairAt(Padded(b), i) {
          LevelPads(h, a, i);
          LevelPads(h, b, i);
          PaddedPairHashed(h, a, i);
          PaddedPairHashed(h, b, i);
          x, y := PairAt(Padded(a), i), PairAt(Padded(b), i);
        } else {
          SamePairs(Padded(a), Padded(b), n);
        }
      }
    }
  }

  lemma SamePairs(p: seq<Bytes32>, q: seq<Bytes32>, n: nat)
    requires |p| == |q| == 2 * n
    requires forall i: nat :: i < n ==> PairAt(p, i) == PairAt(q, i)
    ensures p == q
  {
    forall k | 0 <= k < 2 * n ensures p[k] == q[k] {
      var j := k / 2;
      assert PairAt(p, j) == PairAt(q, j);
      JoinInjective(p[2 * j], p[2 * j + 1], q[2 * j], q[2 * j + 1]);
      assert k == 2 * j || k == 2 * j + 1;
    }
  }

  /** The other direction: the padded leaves determine the root. */
  lemma {:induction false} PaddedDeterminesRoot(h: Hasher, a: seq<Bytes32>, b: seq<Bytes32>)
    requires a != [] && b != [] && Depth(|a|) == Depth(|b|) && Padded(a) == Padded(b)
    ensures Root(h, a) == Root(h, b)
    decreases |a|
  {
    if |a| == 1 {
      assert Padded(a)[0] == a[0] && Padded(b)[0] == b[0];
    } else {
      var c, d := NextLevel(h, a), NextLevel(h, b);
      forall i: nat | i < |Padded(c)| ensures Padded(c)[i] == Padded(d)[i] {
        LevelPads(h, a, i);
        LevelPads(h, b, i);
      }
      assert Padded(c) == Padded(d);
      PaddedDeterminesRoot(h, c, d);
    }
  }

  lemma {:induction false} SlotOfLeaf(n: nat, i: nat)
    requires i < n
    ensures Slot(n, i) == i && i < Pow2(Depth(n))
    decreases n
  {
    if n > 1 {
      SlotOfLeaf(Half(n), i / 2);
    }
  }

  /** With the number of leaves known, the root determines them all, up to a collision among
      what the two folds hash. */
  lemma SameLengthBinds(h: Hasher, a: seq<Bytes32>, b: seq<Bytes32>) returns (x: Bytes, y: Bytes)
    requires |a| == |b| && Root(h, a) == Root(h, b)
    ensures a == b || Collision(h, Hashed(h, a), Hashed(h, b), x, y)
  {
    x, y := [], [];
    if a != [] {
      x, y := RootBinds(h, a, b);
      if Padded(a) == Padded(b) {
        forall i | 0 <= i < |a| ensures a[i] == b[i] {
          SlotOfLeaf(|a|, i);
          assert Padded(a)[i] == Padded(b)[i];
        }
      }
    }
  }

  /** With the number unknown it does not: for every hash function, repeating the last of an
      odd number of leaves keeps the root. */
  lemma RepeatedLeafKeepsRoot(h: Hasher, leaves: seq<Bytes32>)
    requires |leaves| % 2 == 1 && |leaves| > 1
    ensures var longer := leaves + [leaves[|leaves| - 1]]; longer != leaves && Root(h, longer) == Root(h, leaves)
  {
    var longer := leaves + [leaves[|leaves| - 1]];
    forall i | 0 <= i < Half(|leaves|) ensures Pair(leaves, i) == Pair(longer, i) {
    }
    assert NextLevel(h, longer) == NextLevel(h, leaves);
  }

  // ---------------------------------------------------------------------------
  // Trees of any two sizes
  // ---------------------------------------------------------------------------

  /** The level `k` steps above the leaves. */
  function Level(h: Hasher, leaves: seq<Bytes32>, k: nat): seq<Bytes32> {
    if k == 0 then leaves else NextLevel(h, Level(h, leaves, k - 1))
  }

  lemma {:induction false} LevelShape(h: Hasher, leaves: seq<Bytes32>, k: nat)
    requires leaves != [] && k <= Depth(|leaves|)
    ensures Level(h, leaves, k) != [] && Depth(|Level(h, leaves, k)|) == Depth(|leaves|) - k
    ensures Root(h, Level(h, leaves, k)) == Root(h, leaves)
  {
    if k > 0 {
      LevelShape(h, leaves, k - 1);
    }
  }

  lemma {:induction false} LevelHashed(h: Hasher, leaves: seq<Bytes32>, k: nat)
    requires leaves != [] && k <= Depth(|leaves|)
    ensures Hashed(h, Level(h, leaves, k)) <= Hashed(h, leaves)
  {
    if k > 0 {
      LevelHashed(h, leaves, k - 1);
      LevelShape(h, leaves, k - 1);
    }
  }

  /** Above the leaves everything is the hash of a pair. */
  lemma LevelIsPair(h: Hasher, leaves: seq<Bytes32>, k: nat) returns (y: Bytes)
    requires leaves != [] && 0 < k <= Depth(|leaves|)
    ensures y in Hashed(h, leaves) && Level(h, leaves, k) != [] && Level(h, leaves, k)[0] == h(y)
  {
    LevelShape(h, leaves, k - 1);
    LevelHashed(h, leaves, k - 1);
    y := Pair(Level(h, leaves, k - 1), 0);
  }

  lemma FirstPadded(leaves: seq<Bytes32>)
    requires leaves != []
    ensures |Padded(leaves)| > 0 && Padded(leaves)[0] == leaves[0]
  {
    SlotOfLeaf(|leaves|, 0);
  }

  /** Under a taller tree with the same root there is a collision, unless what was hashed into
      the first leaf is itself a pair of the taller tree. */
  lemma TallerTree(h: Hasher, a: seq<Bytes32>, b: seq<Bytes32>, first: Bytes) returns (x: Bytes, y: Bytes)
    requires a != [] && b != [] && Depth(|a|) < Depth(|b|) && Root(h, a) == Root(h, b) && a[0] == h(first)
    ensures Collision(h, Hashed(h, a) + {first}, Hashed(h, b), x, y) || first in Hashed(h, b)
  {
    var k := Depth(|b|) - Depth(|a|);
    LevelShape(h, b, k);
    LevelHashed(h, b, k);
    var c := Level(h, b, k);
    x, y := RootBinds(h, a, c);
    if Padded(a) == Padded(c) {
      FirstPadded(a);
      FirstPadded(c);
      var pair := LevelIsPair(h, b, k);
      x, y := first, pair;
    }
  }

  /** What was hashed into a leaf of one tree is a pair of the other. */
  ghost predicate LeafIsPair(h: Hasher, xs: seq<Bytes>, b: seq<Bytes32>) {
    exists p :: p in xs && p in Hashed(h, b)
  }

  ghost predicate LeavesOf(h: Hasher, xs: seq<Bytes>, a: seq<Bytes32>) {
    |xs| == |a| && forall i :: 0 <= i < |a| ==> a[i] == h(xs[i])
  }

  /** Everything hashed for a tree, from the inputs of its leaves to the root. */
  ghost function HashedFrom(h: Hasher, xs: seq<Bytes>, a: seq<Bytes32>): set<Bytes> {
    (set p | p in xs) + Hashed(h, a)
  }

  /** Whatever the sizes of two trees with one root, they have the same depth and the same padded
      leaves, or contain a collision, or a leaf of one of them is read as a pair by the other. */
  lemma AnySizeBinds(h: Hasher, xs: seq<Bytes>, a: seq<Bytes32>, ys: seq<Bytes>, b: seq<Bytes32>) returns (x: Bytes, y: Bytes)
    requires a != [] && b != [] && LeavesOf(h, xs, a) && LeavesOf(h, ys, b) && Root(h, a) == Root(h, b)
    ensures || (Depth(|a|) == Depth(|b|) && Padded(a) == Padded(b))
            || Collision(h, HashedFrom(h, xs, a), HashedFrom(h, ys, b), x, y)
            || LeafIsPair(h, xs, b) || LeafIsPair(h, ys, a)
  {
    if Depth(|a|) < Depth(|b|) {
      x, y := TallerTree(h, a, b, xs[0]);
    } else if Depth(|b|) < Depth(|a|) {
      y, x := TallerTree(h, b, a, ys[0]);
    } else {
      x, y := RootBinds(h, a, b);
    }
  }

  /** The last cannot be when no leaf is the hash of 64 bytes. */
  lemma LongLeavesAreNoPairs(h: Hasher, xs: seq<Bytes>, b: seq<Bytes32>)
    requires forall p :: p in xs ==> |p| != 64
    ensures !LeafIsPair(h, xs, b)
  {
    if p :| p in xs && p in Hashed(h, b) {
      HashedArePairs(h, b, p);
    }
  }
}
