/** Who proposes: weighted walks over a list of validators, by block number and by ticket. */
module Schedule {
  import opened Common
  import opened Arithmetic

  // ---------------------------------------------------------------------------
  // Counting turns
  // ---------------------------------------------------------------------------

  /** How many of the numbers from lo to hi fall on `a` when `s` is repeated for ever. */
  function Turns(s: seq<Address>, a: Address, lo: nat, hi: nat): nat
    requires s != []
    decreases hi
  {
    if hi <= lo then 0 else Turns(s, a, lo, hi - 1) + if s[(hi - 1) % |s|] == a then 1 else 0
  }

  lemma {:induction false} FirstTurn(s: seq<Address>, a: Address, lo: nat, hi: nat)
    requires s != [] && lo < hi
    ensures Turns(s, a, lo, hi) == (if s[lo % |s|] == a then 1 else 0) + Turns(s, a, lo + 1, hi)
    decreases hi
  {
    if lo + 1 < hi {
      FirstTurn(s, a, lo, hi - 1);
    }
  }

  lemma {:induction false} FirstRound(s: seq<Address>, a: Address, hi: nat)
    requires s != [] && hi <= |s|
    ensures Turns(s, a, 0, hi) == multiset(s[..hi])[a]
  {
    if hi > 0 {
      FirstRound(s, a, hi - 1);
      ModSmall(hi - 1, |s|);
      assert s[..hi] == s[..hi - 1] + [s[hi - 1]];
    }
  }

  /** Any full round, wherever it starts, gives each address its number of places in `s`. */
  lemma {:induction false} AnyRound(s: seq<Address>, a: Address, start: nat)
    requires s != []
    ensures Turns(s, a, start, start + |s|) == multiset(s)[a]
  {
    if start == 0 {
      FirstRound(s, a, |s|);
      assert s[..|s|] == s;
    } else {
      AnyRound(s, a, start - 1);
      FirstTurn(s, a, start - 1, start - 1 + |s| + 1);
      ModPeriod(start - 1, |s|);
    }
  }

  // ---------------------------------------------------------------------------
  // The weighted walk
  // ---------------------------------------------------------------------------

  datatype Entry = Entry(address: Address, weight: nat)

  function Sum(e: seq<Entry>): nat { if e == [] then 0 else e[0].weight + Sum(e[1..]) }

  /** The entry into whose range of slots a slot falls. */
  function Walk(e: seq<Entry>, slot: nat): Address
    requires slot < Sum(e)
  {
    if slot < e[0].weight then e[0].address else Walk(e[1..], slot - e[0].weight)
  }

  function Share(e: seq<Entry>, a: Address): nat {
    if e == [] then 0 else (if e[0].address == a then e[0].weight else 0) + Share(e[1..], a)
  }

  /** Every entry repeated as often as it weighs. */
  function Slots(e: seq<Entry>): (s: seq<Address>)
    ensures |s| == Sum(e)
  {
    if e == [] then [] else seq(e[0].weight, _ => e[0].address) + Slots(e[1..])
  }

  lemma {:induction false} WalkIsSlot(e: seq<Entry>, slot: nat)
    requires slot < Sum(e)
    ensures Walk(e, slot) == Slots(e)[slot]
  {
    if slot >= e[0].weight {
      WalkIsSlot(e[1..], slot - e[0].weight);
    }
  }

  lemma {:induction false} RepeatedCount(x: Address, n: nat, a: Address)
    ensures multiset(seq(n, _ => x))[a] == if x == a then n else 0
  {
    if n > 0 {
      RepeatedCount(x, n - 1, a);
      assert seq(n, _ => x) == seq(n - 1, _ => x) + [x];
    }
  }

  lemma {:induction false} SlotsShare(e: seq<Entry>, a: Address)
    ensures multiset(Slots(e))[a] == Share(e, a)
  {
    if e != [] {
      SlotsShare(e[1..], a);
      RepeatedCount(e[0].address, e[0].weight, a);
    }
  }

  /** `weighted_proposer`: no answer when the weights overflow 64 bits, plain rotation when
      they are all zero. */
  function WeightedProposer(e: seq<Entry>, number: nat): Option<Address> {
    if e == [] || Sum(e) > U64_MAX then None
    else if Sum(e) == 0 then Some(e[number % |e|].address)
    else Some(Walk(e, number % Sum(e)))
  }

  /** Blocks from lo to hi proposed by `a`. */
  function Proposed(e: seq<Entry>, a: Address, lo: nat, hi: nat): nat
    decreases hi
  {
    if hi <= lo then 0 else Proposed(e, a, lo, hi - 1) + if WeightedProposer(e, hi - 1) == Some(a) then 1 else 0
  }

  lemma {:induction false} ProposedIsTurns(e: seq<Entry>, a: Address, lo: nat, hi: nat)
    requires 0 < Sum(e) <= U64_MAX
    ensures Proposed(e, a, lo, hi) == Turns(Slots(e), a, lo, hi)
    decreases hi
  {
    if hi > lo {
      ProposedIsTurns(e, a, lo, hi - 1);
      WalkIsSlot(e, (hi - 1) % Sum(e));
    }
  }

  /** Over any total-weight consecutive blocks, every address proposes exactly its weight. */
  lemma WeightedRotationIsFair(e: seq<Entry>, a: Address, start: nat)
    requires 0 < Sum(e) <= U64_MAX
    ensures Proposed(e, a, start, start + Sum(e)) == Share(e, a)
  {
    ProposedIsTurns(e, a, start, start + Sum(e));
    AnyRound(Slots(e), a, start);
    SlotsShare(e, a);
  }

  // ---------------------------------------------------------------------------
  // The authority lottery
  // ---------------------------------------------------------------------------

  /** Tickets below `hi` with which the walk elects `a`. */
  function Tickets(e: seq<Entry>, a: Address, hi: nat): nat
    requires hi <= Sum(e)
  {
    if hi == 0 then 0 else Tickets(e, a, hi - 1) + if Walk(e, hi - 1) == a then 1 else 0
  }

  lemma {:induction false} TicketsArePlaces(e: seq<Entry>, a: Address, hi: nat)
    requires hi <= Sum(e)
    ensures Tickets(e, a, hi) == multiset(Slots(e)[..hi])[a]
  {
    if hi > 0 {
      TicketsArePlaces(e, a, hi - 1);
      WalkIsSlot(e, hi - 1);
      assert Slots(e)[..hi] == Slots(e)[..hi - 1] + [Slots(e)[hi - 1]];
    }
  }

  /** The entries of positive weight, in order. */
  function Eligible(e: seq<Entry>): seq<Entry> {
    if e == [] then []
    else
      var last := |e| - 1;
      if e[last].weight > 0 then Eligible(e[..last]) + [e[last]] else Eligible(e[..last])
  }

  lemma {:induction false} SumAppend(d: seq<Entry>, e: seq<Entry>)
    ensures Sum(d + e) == Sum(d) + Sum(e)
  {
    if d == [] {
      assert d + e == e;
    } else {
      SumAppend(d[1..], e);
      assert (d + e)[1..] == d[1..] + e;
    }
  }

  lemma OneMore(e: seq<Entry>, i: nat)
    requires i < |e|
    ensures Sum(e[..i + 1]) == Sum(e[..i]) + e[i].weight
    ensures Eligible(e[..i + 1]) == if e[i].weight > 0 then Eligible(e[..i]) + [e[i]] else Eligible(e[..i])
  {
    assert e[..i + 1] == e[..i] + [e[i]] && e[..i + 1][..i] == e[..i];
    SumAppend(e[..i], [e[i]]);
  }

  lemma {:induction false} EligibleSum(e: seq<Entry>)
    ensures Eligible(e) == [] <==> Sum(e) == 0
  {
    if e != [] {
      EligibleSum(e[..|e| - 1]);
      OneMore(e, |e| - 1);
      assert e[..|e|] == e;
    }
  }

  lemma {:induction false} EligiblePrefix(e: seq<Entry>, i: nat)
    requires i <= |e|
    ensures Eligible(e[..i]) <= Eligible(e)
  {
    if i == |e| {
      assert e[..i] == e;
    } else {
      EligiblePrefix(e[..|e| - 1], i);
      assert e[..|e| - 1][..i] == e[..i];
    }
  }

  /** Skipping the first entries of a walk. */
  lemma {:induction false} WalkSkips(e: seq<Entry>, i: nat, slot: nat)
    requires i <= |e| && Sum(e[..i]) <= slot < Sum(e)
    ensures Sum(e) == Sum(e[..i]) + Sum(e[i..])
    ensures Walk(e, slot) == Walk(e[i..], slot - Sum(e[..i]))
  {
    if i == 0 {
      assert e[..0] == [] && e[0..] == e;
    } else {
      assert e[..i][1..] == e[1..][..i - 1] && e[i..] == e[1..][i - 1..];
      WalkSkips(e[1..], i - 1, slot - e[0].weight);
    }
  }

  /** A slot elects the k-th entry when it falls between the sum of the weights before it and
      that sum with its own. */
  lemma WalkByRange(e: seq<Entry>, slot: nat, k: nat)
    requires k < |e| && Sum(e[..k]) <= slot < Sum(e[..k + 1])
    ensures slot < Sum(e) && Walk(e, slot) == e[k].address
  {
    OneMore(e, k);
    assert e == e[..k + 1] + e[k + 1..];
    SumAppend(e[..k + 1], e[k + 1..]);
    WalkSkips(e, k, slot);
    assert e[k..][0] == e[k];
  }

  /** Block by block, in the order of the list: entry k proposes the blocks whose number, modulo
      the total weight, falls into its range. Without weights the list is taken in turn, and
      nobody proposes when there is no list or the weights overflow 64 bits. */
  lemma ProposerByRange(e: seq<Entry>, number: nat, k: nat)
    requires k < |e|
    ensures 0 < Sum(e) <= U64_MAX && Sum(e[..k]) <= number % Sum(e) < Sum(e[..k + 1]) ==>
              WeightedProposer(e, number) == Some(e[k].address)
    ensures Sum(e) == 0 && number % |e| == k ==> WeightedProposer(e, number) == Some(e[k].address)
    ensures Sum(e) > U64_MAX ==> WeightedProposer(e, number) == None
    ensures WeightedProposer([], number) == None
  {
    if 0 < Sum(e) <= U64_MAX && Sum(e[..k]) <= number % Sum(e) < Sum(e[..k + 1]) {
      WalkByRange(e, number % Sum(e), k);
    }
  }

  function Positive(e: seq<Entry>, i: nat): set<nat>
    requires i <= |e|
  {
    set k: nat | k < i && e[k].weight > 0
  }

  /** An entry of positive weight is eligible after as many as there are of those before it. */
  lemma EligibleMeans(e: seq<Entry>, i: nat)
    requires i < |e| && e[i].weight > 0
    ensures |Eligible(e[..i])| == |Positive(e, i)|
    ensures |Eligible(e[..i])| < |Eligible(e)| && Eligible(e)[|Eligible(e[..i])|] == e[i]
  {
    OneMore(e, i);
    EligiblePrefix(e, i + 1);
    EligibleCount(e, i);
  }

  lemma OnePositive(e: seq<Entry>, i: nat)
    requires i < |e|
    ensures |Positive(e, i + 1)| == |Positive(e, i)| + if e[i].weight > 0 then 1 else 0
  {
    assert Positive(e, i + 1) == Positive(e, i) + if e[i].weight > 0 then {i} else {};
  }

  lemma {:induction false} EligibleCount(e: seq<Entry>, i: nat)
    requires i <= |e|
    ensures |Eligible(e[..i])| == |Positive(e, i)|
  {
    if i > 0 {
      EligibleCount(e, i - 1);
      assert e[..i][..i - 1] == e[..i - 1] && e[..i][i - 1] == e[i - 1];
      OnePositive(e, i - 1);
    }
  }

  /** `expected_proposer_for_block`, for effective weights and a seed drawn from the block
      number. With weights configured the seed is a ticket; without, authorities of positive
      weight take turns. */
  method ExpectedProposer(e: seq<Entry>, weighted: bool, epochLength: nat, number: nat, seed: nat) returns (a: Address)
    ensures Sum(e) == 0 ==> a == ZERO_ADDRESS
    ensures Sum(e) > 0 && weighted ==> a == Walk(e, seed % Min(Sum(e), U64_MAX))
    ensures Sum(e) > 0 && !weighted ==>
              var turn := if epochLength > 0 then number % epochLength else number;
              Eligible(e) != [] && a == Eligible(e)[turn % |Eligible(e)|].address
  {
    EligibleSum(e);
    if e == [] {
      return ZERO_ADDRESS;
    }
    var activeCount, total := 0, 0;
    for i := 0 to |e|
      invariant activeCount == |Eligible(e[..i])| && total == Min(Sum(e[..i]), U64_MAX)
    {
      OneMore(e, i);
      if e[i].weight > 0 {
        activeCount := activeCount + 1;
        total := SatAdd(total, e[i].weight);
      }
    }
    assert e[..|e|] == e;
    if activeCount == 0 {
      return ZERO_ADDRESS;
    }
    if !weighted {
      var turn := if epochLength > 0 then number % epochLength else number;
      a := NthEligible(e, turn % activeCount);
    } else {
      a := ElectByTicket(e, seed % total);
    }
  }

  method NthEligible(e: seq<Entry>, n: nat) returns (a: Address)
    requires n < |Eligible(e)|
    ensures a == Eligible(e)[n].address
  {
    assert e[..|e|] == e;
    var seen, i := 0, 0;
    while i < |e|
      invariant i <= |e| && seen == |Eligible(e[..i])| <= n
    {
      OneMore(e, i);
      if e[i].weight > 0 {
        EligiblePrefix(e, i + 1);
        if seen == n {
          return e[i].address;
        }
        seen := seen + 1;
      }
      i := i + 1;
    }
    assert false;
  }

  method ElectByTicket(e: seq<Entry>, ticket: nat) returns (a: Address)
    requires ticket < Min(Sum(e), U64_MAX)
    ensures a == Walk(e, ticket)
  {
    assert e[..|e|] == e;
    var cumulative := 0;
    a := ZERO_ADDRESS;
    for i := 0 to |e|
      invariant cumulative == Min(Sum(e[..i]), U64_MAX) <= ticket
    {
      OneMore(e, i);
      WalkSkips(e, i, ticket);
      if e[i].weight > 0 {
        a := e[i].address;
        cumulative := SatAdd(cumulative, e[i].weight);
        if ticket < cumulative {
          return;
        }
      }
    }
    assert false;
  }

  lemma {:induction false} TicketsGrow(e: seq<Entry>, a: Address, lo: nat, hi: nat)
    requires lo <= hi <= Sum(e)
    ensures Tickets(e, a, lo) <= Tickets(e, a, hi)
    decreases hi
  {
    if lo < hi {
      TicketsGrow(e, a, lo, hi - 1);
    }
  }

  /** All tickets together are exact shares. */
  lemma AllTickets(e: seq<Entry>, a: Address)
    ensures Tickets(e, a, Sum(e)) == Share(e, a)
  {
    TicketsArePlaces(e, a, Sum(e));
    assert Slots(e)[..Sum(e)] == Slots(e);
    SlotsShare(e, a);
  }

  /** The lottery gives every authority exactly its effective weight in tickets if and only if
      the weights do not overflow 64 bits. */
  lemma LotteryIsFairExactly(e: seq<Entry>)
    ensures (forall a :: Tickets(e, a, Min(Sum(e), U64_MAX)) == Share(e, a)) <==> Sum(e) <= U64_MAX
  {
    if Sum(e) <= U64_MAX {
      forall a ensures Tickets(e, a, Min(Sum(e), U64_MAX)) == Share(e, a) {
        AllTickets(e, a);
      }
    } else {
      var a := Walk(e, U64_MAX);
      assert Tickets(e, a, U64_MAX + 1) == Tickets(e, a, U64_MAX) + 1;
      TicketsGrow(e, a, U64_MAX + 1, Sum(e));
      AllTickets(e, a);
    }
  }
}
