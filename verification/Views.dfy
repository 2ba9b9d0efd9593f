/** Rotation of the proposer through views, and the import check that works back from a
    proposer to the first view that elects it. */
module Views {
  import opened Common
  import opened Arithmetic
  import opened Schedule

  /** The index of the first place of an address; the first index if it has none. */
  function Position(authorities: seq<Address>, base: Address): (i: nat)
    requires authorities != []
    ensures i < |authorities| && (base in authorities ==> authorities[i] == base)
    ensures base !in authorities ==> i == 0
  {
    if authorities[0] == base || base !in authorities then 0 else 1 + Position(authorities[1..], base)
  }

  /** The authorities starting from the base proposer. */
  function Rotated(authorities: seq<Address>, base: Address): (r: seq<Address>)
    requires authorities != []
    ensures |r| == |authorities| && multiset(r) == multiset(authorities)
    ensures base in authorities ==> r[0] == base
    ensures base !in authorities ==> r == authorities
  {
    var i := Position(authorities, base);
    assert authorities == authorities[..i] + authorities[i..];
    authorities[i..] + authorities[..i]
  }

  /** `proposer_for_block_in_view`, given the proposer of view 0. */
  function InView(authorities: seq<Address>, base: Address, view: nat): Address {
    if view == 0 || authorities == [] then base else Rotated(authorities, base)[view % |authorities|]
  }

  /** View 0 elects the base proposer. View v elects the authority v places after its first place,
      around the list; from a base proposer that is no authority it counts from the beginning. */
  lemma ViewElects(authorities: seq<Address>, base: Address, place: nat, view: nat)
    requires place < |authorities|
    requires if base in authorities then authorities[place] == base && base !in authorities[..place] else place == 0
    ensures InView(authorities, base, 0) == base
    ensures view > 0 || base in authorities ==> InView(authorities, base, view) == authorities[(place + view) % |authorities|]
  {
    var n := |authorities|;
    FirstPlace(authorities, base, place);
    var k := view % n;
    assert Rotated(authorities, base)[k] == authorities[if place + k < n then place + k else place + k - n];
    AroundTheList(place, view, n);
    if view == 0 {
      ModSmall(place, n);
    }
  }

  lemma {:induction false} FirstPlace(authorities: seq<Address>, base: Address, place: nat)
    requires place < |authorities|
    requires if base in authorities then authorities[place] == base && base !in authorities[..place] else place == 0
    ensures Position(authorities, base) == place
    decreases place
  {
    if base in authorities && place > 0 {
      assert authorities[0] in authorities[..place];
      assert authorities[1..][place - 1] == base;
      assert forall x :: x in authorities[1..][..place - 1] ==> x in authorities[..place];
      FirstPlace(authorities[1..], base, place - 1);
    }
  }

  lemma AroundTheList(place: nat, view: nat, n: nat)
    requires place < n
    ensures var k := view % n; (place + view) % n == if place + k < n then place + k else place + k - n
  {
    var q, k := view / n, view % n;
    if place + k < n {
      ModUnique(place + view, q, place + k, n);
    } else {
      ModUnique(place + view, q + 1, place + k - n, n);
    }
  }

  /** Views from lo to hi that elect `a`. */
  function Visits(authorities: seq<Address>, base: Address, a: Address, lo: nat, hi: nat): nat
    decreases hi
  {
    if hi <= lo then 0 else Visits(authorities, base, a, lo, hi - 1) + if InView(authorities, base, hi - 1) == a then 1 else 0
  }

  lemma {:induction false} VisitsAreTurns(authorities: seq<Address>, base: Address, a: Address, lo: nat, hi: nat)
    requires authorities != [] && (lo > 0 || base in authorities)
    ensures Visits(authorities, base, a, lo, hi) == Turns(Rotated(authorities, base), a, lo, hi)
    decreases hi
  {
    if hi > lo {
      VisitsAreTurns(authorities, base, a, lo, hi - 1);
      if hi == 1 {
        ModSmall(0, |authorities|);
      }
    }
  }

  predicate Distinct(s: seq<Address>) { forall i, j :: 0 <= i < j < |s| ==> s[i] != s[j] }

  lemma {:induction false} DistinctOnce(s: seq<Address>, a: Address)
    requires Distinct(s)
    ensures multiset(s)[a] == if a in s then 1 else 0
  {
    if s != [] {
      DistinctOnce(s[1..], a);
      assert s == [s[0]] + s[1..];
    }
  }

  /** n consecutive views visit each of n different authorities exactly once if and only if
      they do not begin at a base proposer that is no authority. */
  lemma ViewsVisitEachOnce(authorities: seq<Address>, base: Address, start: nat)
    requires authorities != [] && Distinct(authorities)
    ensures (forall a :: a in authorities ==> Visits(authorities, base, a, start, start + |authorities|) == 1) <==>
            (start > 0 || base in authorities)
  {
    if start > 0 || base in authorities {
      forall a | a in authorities ensures Visits(authorities, base, a, start, start + |authorities|) == 1 {
        VisitedOnce(authorities, base, a, start);
      }
    } else {
      NotVisited(authorities, base);
    }
  }

  lemma VisitedOnce(authorities: seq<Address>, base: Address, a: Address, start: nat)
    requires Distinct(authorities) && a in authorities && (start > 0 || base in authorities)
    ensures Visits(authorities, base, a, start, start + |authorities|) == 1
  {
    VisitsAreTurns(authorities, base, a, start, start + |authorities|);
    AnyRound(Rotated(authorities, base), a, start);
    DistinctOnce(authorities, a);
  }

  lemma NotVisited(authorities: seq<Address>, base: Address)
    requires authorities != [] && Distinct(authorities) && base !in authorities
    ensures authorities[0] in authorities && Visits(authorities, base, authorities[0], 0, |authorities|) == 0
  {
    var n, a := |authorities|, authorities[0];
    AnyRound(authorities, a, 0);
    DistinctOnce(authorities, a);
    FirstTurn(authorities, a, 0, n);
    ModSmall(0, n);
    VisitsAreTurns(authorities, base, a, 1, n);
    DropFirstView(authorities, base, a, n);
  }

  lemma {:induction false} DropFirstView(authorities: seq<Address>, base: Address, a: Address, hi: nat)
    requires hi > 0
    ensures Visits(authorities, base, a, 0, hi) == Visits(authorities, base, a, 1, hi) + if base == a then 1 else 0
  {
    if hi > 1 {
      DropFirstView(authorities, base, a, hi - 1);
    }
  }

  /** Every proposer of some view is a proposer of one of the first n + 1. */
  lemma LowView(authorities: seq<Address>, base: Address, view: nat) returns (low: nat)
    ensures low <= |authorities| && low <= view && InView(authorities, base, low) == InView(authorities, base, view)
  {
    var n := |authorities|;
    if view == 0 || n == 0 {
      low := 0;
    } else if view <= n {
      low := view;
    } else if view % n == 0 {
      low := n;
      ModPeriod(0, n);
      ModSmall(0, n);
    } else {
      low := view % n;
      ModSmall(low, n);
    }
  }

  /** `first_view_for_proposer`: the least view that elects an active proposer, over all views
      and not only the first n that are tried. */
  method FirstView(authorities: seq<Address>, base: Address, active: bool, proposer: Address) returns (r: Option<nat>)
    ensures r.Some? <==> active && exists v :: InView(authorities, base, v) == proposer
    ensures r.Some? ==> InView(authorities, base, r.value) == proposer
    ensures r.Some? ==> forall v: nat :: v < r.value ==> InView(authorities, base, v) != proposer
  {
    if !active {
      return None;
    }
    if proposer == base {
      assert InView(authorities, base, 0) == proposer;
      return Some(0);
    }
    for view := 1 to |authorities| + 1
      invariant forall v: nat :: v < view ==> InView(authorities, base, v) != proposer
    {
      if InView(authorities, base, view) == proposer {
        return Some(view);
      }
    }
    forall v: nat ensures InView(authorities, base, v) != proposer {
      var low := LowView(authorities, base, v);
    }
    return None;
  }

  // ---------------------------------------------------------------------------
  // Importing a header
  // ---------------------------------------------------------------------------

  const VIEW_CHANGE_TIMEOUT_MS: nat := 10_000

  function SatMul(a: nat, b: nat): nat { Min(a * b, U64_MAX) }

  function TimeoutSecs(blockTimeSecs: nat): nat { Max(DivCeil(VIEW_CHANGE_TIMEOUT_MS, 1_000), blockTimeSecs) }

  /** The earliest time at which the proposer of a view can seal a block. */
  function Earliest(parentTime: nat, blockTimeSecs: nat, view: nat): nat {
    SatAdd(parentTime, SatMul(TimeoutSecs(blockTimeSecs), view))
  }

  /** A view is reached after as many timeouts, of ten seconds or of the block time if that is
      longer, up to the largest 64-bit time. */
  lemma EarliestMeans(parentTime: nat, blockTimeSecs: nat, view: nat)
    requires parentTime <= U64_MAX
    ensures Earliest(parentTime, blockTimeSecs, view) == Min(parentTime + Max(10, blockTimeSecs) * view, U64_MAX)
  {
  }

  lemma EarliestGrows(parentTime: nat, blockTimeSecs: nat, u: nat, v: nat)
    requires u <= v
    ensures Earliest(parentTime, blockTimeSecs, u) <= Earliest(parentTime, blockTimeSecs, v)
  {
    MulBound(TimeoutSecs(blockTimeSecs), u, TimeoutSecs(blockTimeSecs), v);
  }

  /** `verify_header_for_finalized_import`: a header is accepted exactly when its proposer is
      active and elected in some view that can have been reached by then. */
  method VerifyImport(authorities: seq<Address>, base: Address, active: bool, proposer: Address,
                      parentTime: nat, time: nat, blockTimeSecs: nat)
    returns (ok: bool)
    requires parentTime <= U64_MAX
    ensures ok <==> active && exists v :: InView(authorities, base, v) == proposer
                                      && (v > 0 ==> Earliest(parentTime, blockTimeSecs, v) <= time)
  {
    var first := FirstView(authorities, base, active, proposer);
    if first == None {
      return false;
    }
    var view := first.value;
    if view == 0 {
      return true;
    }
    ok := Earliest(parentTime, blockTimeSecs, view) <= time;
    if !ok {
      forall v: nat | InView(authorities, base, v) == proposer ensures v > 0 && Earliest(parentTime, blockTimeSecs, v) > time {
        EarliestGrows(parentTime, blockTimeSecs, view, v);
      }
    }
  }

  /** In particular every header sealed live, in view v and not before v timeouts after its
      parent, passes the condition of the check. */
  lemma LiveHeadersPass(authorities: seq<Address>, base: Address, v: nat, parentTime: nat, time: nat, blockTimeSecs: nat)
    requires parentTime <= U64_MAX && parentTime + v * TimeoutSecs(blockTimeSecs) <= time <= U64_MAX
    ensures exists u :: InView(authorities, base, u) == InView(authorities, base, v)
                    && (u > 0 ==> Earliest(parentTime, blockTimeSecs, u) <= time)
  {
    assert InView(authorities, base, v) == InView(authorities, base, v) && Earliest(parentTime, blockTimeSecs, v) <= time;
  }
}
