/** Voting weight of a set of validators and the quorum thresholds built on it. */
module Weights {
  import opened Common

  /** Total weight of the validators of `s`; validators without an entry weigh nothing. */
  ghost function SetWeight(weights: map<Address, nat>, s: set<Address>): nat {
    if s == {} then 0
    else
      var x :| x in s;
      WeightOf(weights, x) + SetWeight(weights, s - {x})
  }

  function WeightOf(weights: map<Address, nat>, x: Address): nat {
    if x in weights then weights[x] else 0
  }

  ghost function Total(weights: map<Address, nat>): nat {
    SetWeight(weights, weights.Keys)
  }

  /** Any member can be counted first. */
  lemma {:induction false} SetWeightRemove(weights: map<Address, nat>, s: set<Address>, x: Address)
    requires x in s
    ensures SetWeight(weights, s) == WeightOf(weights, x) + SetWeight(weights, s - {x})
    decreases |s|
  {
    var y :| y in s && SetWeight(weights, s) == WeightOf(weights, y) + SetWeight(weights, s - {y});
    if x != y {
      SetWeightRemove(weights, s - {y}, x);
      SetWeightRemove(weights, s - {x}, y);
      assert s - {y} - {x} == s - {x} - {y};
    }
  }

  lemma SetWeightAdd(weights: map<Address, nat>, s: set<Address>, x: Address)
    requires x !in s
    ensures SetWeight(weights, s + {x}) == SetWeight(weights, s) + WeightOf(weights, x)
  {
    SetWeightRemove(weights, s + {x}, x);
    assert s + {x} - {x} == s;
  }

  /** Inclusion and exclusion for weights. */
  lemma {:induction false} SetWeightDisjoint(weights: map<Address, nat>, a: set<Address>, b: set<Address>)
    requires a !! b
    ensures SetWeight(weights, a + b) == SetWeight(weights, a) + SetWeight(weights, b)
    decreases |a|
  {
    if a == {} {
      assert a + b == b;
    } else {
      var x :| x in a;
      SetWeightDisjoint(weights, a - {x}, b);
      SetWeightRemove(weights, a, x);
      assert (a - {x}) + b == (a + b) - {x};
      SetWeightRemove(weights, a + b, x);
    }
  }

  lemma SetWeightUnion(weights: map<Address, nat>, a: set<Address>, b: set<Address>)
    ensures SetWeight(weights, a + b) + SetWeight(weights, a * b) == SetWeight(weights, a) + SetWeight(weights, b)
  {
    SetWeightDisjoint(weights, a - b, b);
    SetWeightDisjoint(weights, a - b, a * b);
    assert (a - b) + b == a + b && (a - b) + (a * b) == a;
  }

  lemma SetWeightMonotone(weights: map<Address, nat>, a: set<Address>, b: set<Address>)
    requires a <= b
    ensures SetWeight(weights, a) <= SetWeight(weights, b)
  {
    SetWeightUnion(weights, a, b - a);
    assert a + (b - a) == b && a * (b - a) == {};
  }

  /** Only validators that have an entry can weigh anything. */
  lemma {:induction false} SetWeightKnown(weights: map<Address, nat>, s: set<Address>)
    ensures SetWeight(weights, s) == SetWeight(weights, s * weights.Keys)
    decreases |s|
  {
    if s != {} {
      var x :| x in s;
      SetWeightKnown(weights, s - {x});
      SetWeightRemove(weights, s, x);
      if x in weights {
        assert (s - {x}) * weights.Keys == s * weights.Keys - {x};
        SetWeightRemove(weights, s * weights.Keys, x);
      } else {
        assert (s - {x}) * weights.Keys == s * weights.Keys;
      }
    } else {
      assert s * weights.Keys == {};
    }
  }

  lemma SetWeightBounded(weights: map<Address, nat>, s: set<Address>)
    ensures SetWeight(weights, s) <= Total(weights)
  {
    SetWeightKnown(weights, s);
    SetWeightMonotone(weights, s * weights.Keys, weights.Keys);
  }

  /** Weights that grow make every set weigh more. */
  lemma {:induction false} SetWeightGrows(less: map<Address, nat>, more: map<Address, nat>, s: set<Address>)
    requires forall x :: x in s ==> WeightOf(less, x) <= WeightOf(more, x)
    ensures SetWeight(less, s) <= SetWeight(more, s)
    decreases |s|
  {
    if s != {} {
      var x :| x in s;
      SetWeightRemove(less, s, x);
      SetWeightRemove(more, s, x);
      SetWeightGrows(less, more, s - {x});
    }
  }

  /** A new entry adds its weight to the total. */
  lemma TotalAdd(weights: map<Address, nat>, x: Address, w: nat)
    requires x !in weights
    ensures Total(weights[x := w]) == Total(weights) + w
  {
    var more := weights[x := w];
    assert more.Keys == weights.Keys + {x};
    SetWeightAdd(more, weights.Keys, x);
    SetWeightGrows(weights, more, weights.Keys);
    SetWeightGrows(more, weights, weights.Keys);
  }

  /** Two sets of validators overlap in at least the weight by which they exceed the total. */
  lemma Overlap(weights: map<Address, nat>, a: set<Address>, b: set<Address>)
    ensures SetWeight(weights, a * b) + Total(weights) >= SetWeight(weights, a) + SetWeight(weights, b)
  {
    SetWeightUnion(weights, a, b);
    SetWeightBounded(weights, a + b);
  }

  // ---------------------------------------------------------------------------
  // Thresholds
  // ---------------------------------------------------------------------------

  /** `FinalityState::strict_quorum_weight`: least weight strictly above two thirds. */
  function StrictQuorum(total: nat): (q: nat)
    ensures total > 0 && total <= U64_MAX ==> 3 * q > 2 * total && 3 * (q - 1) <= 2 * total
  {
    if total == 0 then 0 else Min(total * 2 / 3 + 1, U64_MAX)
  }

  /** `WPoaRound::view_change_quorum_weight`: least weight that reaches two thirds. */
  function ViewQuorum(total: nat): (q: nat)
    ensures total <= U64_MAX ==> 3 * q >= 2 * total && (q > 0 ==> 3 * (q - 1) < 2 * total)
  {
    Min(DivCeil(total * 2, 3), U64_MAX)
  }

  /** `ViewChangeState::configure_quorum` computes `2 * max(total, 1)` in 64 bits, which
      wraps in a release build, before rounding two thirds up. */
  function ConfiguredQuorum(total: nat): nat
    requires total <= U64_MAX
  {
    DivCeil(2 * Max(total, 1) % (U64_MAX + 1), 3)
  }

  /** The two implementations of view change use the same threshold on exactly the totals
      between 1 and 2^63 - 1. */
  lemma ViewQuorumsAgree(total: nat)
    requires total <= U64_MAX
    ensures ConfiguredQuorum(total) == ViewQuorum(total) <==> 1 <= total < 0x8000_0000_0000_0000
  {
    if total >= 0x8000_0000_0000_0000 {
      assert 2 * total % (U64_MAX + 1) == 2 * total - (U64_MAX + 1);
      assert ConfiguredQuorum(total) < ViewQuorum(total);
    }
  }
}
