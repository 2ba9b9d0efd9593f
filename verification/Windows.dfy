/** Proof windows: claims, fulfilments, expiry, and the count of claims that a prover let
    expire. */
module Windows {
  import opened Common

  const U32_MAX: nat := 0xFFFF_FFFF

  datatype Config = Config(windowSize: nat, claimTimeout: nat, maxExpiredClaims: nat)

  datatype Window = Unclaimed | Claimed(claimer: Address, claimedAt: nat, expiresAt: nat) | Fulfilled(prover: Address) | Expired

  type U32 = n: nat | n <= U32_MAX

  type Counts = map<Address, U32>

  datatype Manager = Manager(windows: map<nat, Window>, expired: Counts)

  function Count(expired: Counts, p: Address): U32 { if p in expired then expired[p] else 0 }

  function Sat32(n: nat): U32 { Min(n, U32_MAX) }

  function Charge(expired: Counts, p: Address): Counts { expired[p := Sat32(Count(expired, p) + 1)] }

  function StateOf(windows: map<nat, Window>, block: nat): Window { if block in windows then windows[block] else Unclaimed }

  // ---------------------------------------------------------------------------
  // Transitions
  // ---------------------------------------------------------------------------

  predicate Late(c: Config, block: nat, now: nat) { now > SatAdd(block, c.windowSize) }

  /** A window can be claimed when it is free or when the claim on it has run out. */
  predicate CanClaim(c: Config, m: Manager, block: nat, now: nat) {
    && !Late(c, block, now)
    && match StateOf(m.windows, block)
       case Unclaimed => true
       case Claimed(_, _, expiresAt) => now >= expiresAt
       case _ => false
  }

  function AfterClaim(c: Config, m: Manager, block: nat, p: Address, now: nat): Manager {
    if Late(c, block, now) then m.(windows := m.windows[block := Expired])
    else if !CanClaim(c, m, block, now) then m
    else
      var w := StateOf(m.windows, block);
      Manager(m.windows[block := Claimed(p, now, SatAdd(now, c.claimTimeout))],
              if w.Claimed? then Charge(m.expired, w.claimer) else m.expired)
  }

  predicate Stale(w: Window, now: nat) { w.Claimed? && now > w.expiresAt }

  predicate HeldBy(w: Window, p: Address) { w.Claimed? && w.claimer == p }

  predicate CanFulfill(m: Manager, block: nat, p: Address, now: nat) {
    HeldBy(StateOf(m.windows, block), p) && !Stale(StateOf(m.windows, block), now)
  }

  function AfterFulfill(m: Manager, block: nat, p: Address, now: nat): Manager {
    var w := StateOf(m.windows, block);
    if !HeldBy(w, p) then m
    else if Stale(w, now) then Manager(m.windows[block := Expired], Charge(m.expired, p))
    else m.(windows := m.windows[block := Fulfilled(p)])
  }

  function StaleOf(windows: map<nat, Window>, blocks: set<nat>, now: nat, p: Address): set<nat> {
    set b | b in blocks && b in windows && Stale(windows[b], now) && windows[b].claimer == p
  }

  function StaleClaimers(windows: map<nat, Window>, blocks: set<nat>, now: nat): set<Address> {
    set b | b in blocks && b in windows && Stale(windows[b], now) :: windows[b].claimer
  }

  /** Each prover is charged once for each of its stale claims in `blocks`. */
  function ChargeStale(expired: Counts, windows: map<nat, Window>, blocks: set<nat>, now: nat): Counts {
    map p | p in expired.Keys + StaleClaimers(windows, blocks, now) :: Sat32(Count(expired, p) + |StaleOf(windows, blocks, now, p)|)
  }

  function AfterAdvance(m: Manager, now: nat): Manager {
    Manager(map b | b in m.windows :: if Stale(m.windows[b], now) then Expired else m.windows[b],
            ChargeStale(m.expired, m.windows, m.windows.Keys, now))
  }

  function Cutoff(c: Config, now: nat): nat { SatSub(now, SatAdd(c.windowSize, 10)) }

  function AfterGc(c: Config, m: Manager, now: nat): Manager {
    m.(windows := map b | b in m.windows && b > Cutoff(c, now) :: m.windows[b])
  }

  // ---------------------------------------------------------------------------
  // The manager as an object
  // ---------------------------------------------------------------------------

  lemma OneMoreStale(windows: map<nat, Window>, done: set<nat>, now: nat, b: nat, q: Address)
    requires b in windows && b !in done && Stale(windows[b], now)
    ensures |StaleOf(windows, done + {b}, now, q)| == |StaleOf(windows, done, now, q)| + if q == windows[b].claimer then 1 else 0
  {
    assert StaleOf(windows, done + {b}, now, q) == StaleOf(windows, done, now, q) + if q == windows[b].claimer then {b} else {};
  }

  lemma OneMoreClaimer(windows: map<nat, Window>, done: set<nat>, now: nat, b: nat)
    requires b in windows && Stale(windows[b], now)
    ensures StaleClaimers(windows, done + {b}, now) == StaleClaimers(windows, done, now) + {windows[b].claimer}
  {
  }

  lemma NoStale(windows: map<nat, Window>, blocks: set<nat>, now: nat, p: Address)
    requires p !in StaleClaimers(windows, blocks, now)
    ensures StaleOf(windows, blocks, now, p) == {}
  {
    assert forall b :: b in blocks && b in windows && Stale(windows[b], now) ==>
                         windows[b].claimer in StaleClaimers(windows, blocks, now);
  }

  /** What the counts say after charging: for every prover, charged or not. */
  lemma CountAfterCharge(expired: Counts, windows: map<nat, Window>, blocks: set<nat>, now: nat, p: Address)
    ensures Count(ChargeStale(expired, windows, blocks, now), p) == Sat32(Count(expired, p) + |StaleOf(windows, blocks, now, p)|)
  {
    if p !in StaleClaimers(windows, blocks, now) {
      NoStale(windows, blocks, now, p);
    }
  }

  lemma ChargeOneMoreAt(expired: Counts, windows: map<nat, Window>, done: set<nat>, now: nat, b: nat, q: Address)
    requires b in windows && b !in done && Stale(windows[b], now)
    ensures Count(ChargeStale(expired, windows, done + {b}, now), q) ==
            Count(Charge(ChargeStale(expired, windows, done, now), windows[b].claimer), q)
  {
    CountAfterCharge(expired, windows, done, now, q);
    CountAfterCharge(expired, windows, done + {b}, now, q);
    OneMoreStale(windows, done, now, b, q);
  }

  lemma ChargeOneMore(expired: Counts, windows: map<nat, Window>, done: set<nat>, now: nat, b: nat)
    requires b in windows && b !in done && Stale(windows[b], now)
    ensures ChargeStale(expired, windows, done + {b}, now) == Charge(ChargeStale(expired, windows, done, now), windows[b].claimer)
  {
    var p := windows[b].claimer;
    var before, after := ChargeStale(expired, windows, done, now), ChargeStale(expired, windows, done + {b}, now);
    OneMoreClaimer(windows, done, now, b);
    forall q ensures Count(after, q) == Count(Charge(before, p), q) {
      ChargeOneMoreAt(expired, windows, done, now, b, q);
    }
    SameCounts(after, Charge(before, p));
  }

  /** Counts of the same provers that say the same are the same. */
  lemma SameCounts(x: Counts, y: Counts)
    requires x.Keys == y.Keys && forall q :: Count(x, q) == Count(y, q)
    ensures x == y
  {
    forall q | q in x ensures x[q] == y[q] {
      assert Count(x, q) == Count(y, q);
    }
  }

  lemma ChargeNoMore(expired: Counts, windows: map<nat, Window>, done: set<nat>, now: nat, b: nat)
    requires b in windows && !Stale(windows[b], now)
    ensures ChargeStale(expired, windows, done + {b}, now) == ChargeStale(expired, windows, done, now)
  {
    assert StaleClaimers(windows, done + {b}, now) == StaleClaimers(windows, done, now);
    forall q ensures StaleOf(windows, done + {b}, now, q) == StaleOf(windows, done, now, q) {
    }
  }

  lemma ChargeNone(expired: Counts, windows: map<nat, Window>, now: nat)
    ensures ChargeStale(expired, windows, {}, now) == expired
  {
    var r := ChargeStale(expired, windows, {}, now);
    assert StaleClaimers(windows, {}, now) == {};
    forall q ensures Count(r, q) == Count(expired, q) {
      CountAfterCharge(expired, windows, {}, now, q);
      NoStale(windows, {}, now, q);
    }
    SameCounts(r, expired);
  }

  class ProofWindowManager {
    const config: Config
    var windows: map<nat, Window>
    var expired: Counts

    ghost function State(): Manager
      reads this
    {
      Manager(windows, expired)
    }

    constructor (config: Config)
      ensures this.config == config && State() == Manager(map[], map[])
    {
      this.config := config;
      windows, expired := map[], map[];
    }

    method Claim(block: nat, claimer: Address, now: nat) returns (ok: bool)
      modifies this
      ensures ok == old(CanClaim(config, State(), block, now)) && State() == AfterClaim(config, old(State()), block, claimer, now)
    {
      if now > SatAdd(block, config.windowSize) {
        windows := windows[block := Expired];
        return false;
      }
      var w := StateOf(windows, block);
      match w
      case Unclaimed =>
        windows := windows[block := Claimed(claimer, now, SatAdd(now, config.claimTimeout))];
        return true;
      case Claimed(existing, _, expiresAt) =>
        if now >= expiresAt {
          expired := Charge(expired, existing);
          windows := windows[block := Claimed(claimer, now, SatAdd(now, config.claimTimeout))];
          return true;
        }
        return false;
      case _ => return false;
    }

    method Fulfill(block: nat, prover: Address, now: nat) returns (ok: bool)
      modifies this
      ensures ok == old(CanFulfill(State(), block, prover, now)) && State() == AfterFulfill(old(State()), block, prover, now)
    {
      var w := StateOf(windows, block);
      match w
      case Claimed(claimer, _, expiresAt) =>
        if claimer != prover {
          return false;
        }
        if now > expiresAt {
          expired := Charge(expired, prover);
          windows := windows[block := Expired];
          return false;
        }
        windows := windows[block := Fulfilled(prover)];
        return true;
      case _ => return false;
    }

    method Advance(now: nat)
      modifies this
      ensures State() == AfterAdvance(old(State()), now)
    {
      ghost var before, charged := windows, expired;
      var todo := windows.Keys;
      ghost var done: set<nat> := {};
      ChargeNone(expired, windows, now);
      while todo != {}
        invariant done + todo == windows.Keys == before.Keys && done !! todo
        invariant forall b :: b in windows ==> windows[b] == if b in done && Stale(before[b], now) then Expired else before[b]
        invariant expired == ChargeStale(charged, before, done, now)
      {
        var b :| b in todo;
        todo := todo - {b};
        if Stale(windows[b], now) {
          ChargeOneMore(charged, before, done, now, b);
          expired := Charge(expired, windows[b].claimer);
          windows := windows[b := Expired];
        } else {
          ChargeNoMore(charged, before, done, now, b);
        }
        done := done + {b};
      }
      assert windows == AfterAdvance(old(State()), now).windows;
    }

    method Gc(now: nat)
      modifies this
      ensures State() == AfterGc(config, old(State()), now)
    {
      var cutoff := SatSub(now, SatAdd(config.windowSize, 10));
      windows := map b | b in windows && b > cutoff :: windows[b];
    }
  }
}
