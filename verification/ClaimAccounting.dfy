/** Where claims go: over every run each successful claim of a prover is still held, fulfilled,
    charged as expired, or dropped without a charge, and never two of these. */
module ClaimAccounting {
  import opened Common
  import opened Windows

  datatype Op =
    | Claim(block: nat, p: Address, now: nat)
    | Fulfill(block: nat, p: Address, now: nat)
    | Advance(now: nat)
    | Gc(now: nat)

  function Next(c: Config, m: Manager, op: Op): Manager {
    match op
    case Claim(block, p, now) => AfterClaim(c, m, block, p, now)
    case Fulfill(block, p, now) => AfterFulfill(m, block, p, now)
    case Advance(now) => AfterAdvance(m, now)
    case Gc(now) => AfterGc(c, m, now)
  }

  function Run(c: Config, m: Manager, ops: seq<Op>): Manager
    decreases |ops|
  {
    if ops == [] then m else Run(c, Next(c, m, ops[0]), ops[1..])
  }

  function Held(m: Manager, p: Address): set<nat> { set b | b in m.windows && HeldBy(m.windows[b], p) }

  // What one operation does to the claims of one prover.

  function Claims(c: Config, m: Manager, op: Op, p: Address): nat {
    if op.Claim? && op.p == p && CanClaim(c, m, op.block, op.now) then 1 else 0
  }

  function Charges(c: Config, m: Manager, op: Op, p: Address): nat {
    match op
    case Claim(block, _, now) => if CanClaim(c, m, block, now) && HeldBy(StateOf(m.windows, block), p) then 1 else 0
    case Fulfill(block, q, now) =>
      if q == p && HeldBy(StateOf(m.windows, block), p) && Stale(StateOf(m.windows, block), now) then 1 else 0
    case Advance(now) => |StaleOf(m.windows, m.windows.Keys, now, p)|
    case Gc(_) => 0
  }

  function Fulfilments(m: Manager, op: Op, p: Address): nat {
    if op.Fulfill? && op.p == p && CanFulfill(m, op.block, p, op.now) then 1 else 0
  }

  /** A late claim on the block, or garbage collection, takes a claim away without a charge. */
  function Drops(c: Config, m: Manager, op: Op, p: Address): nat {
    match op
    case Claim(block, _, now) => if Late(c, block, now) && HeldBy(StateOf(m.windows, block), p) then 1 else 0
    case Gc(now) => |Collected(c, m, now, p)|
    case _ => 0
  }

  function Collected(c: Config, m: Manager, now: nat, p: Address): set<nat> {
    set b | b in m.windows && HeldBy(m.windows[b], p) && b <= Cutoff(c, now)
  }

  // ---------------------------------------------------------------------------
  // One step
  // ---------------------------------------------------------------------------

  lemma SetWindow(windows: map<nat, Window>, expired: Counts, block: nat, w: Window, p: Address)
    ensures |Held(Manager(windows[block := w], expired), p)| + (if HeldBy(StateOf(windows, block), p) then 1 else 0) ==
            |Held(Manager(windows, expired), p)| + (if HeldBy(w, p) then 1 else 0)
  {
    var before, after := Held(Manager(windows, expired), p), Held(Manager(windows[block := w], expired), p);
    assert after - {block} == before - {block};
    assert block in before <==> HeldBy(StateOf(windows, block), p);
    assert block in after <==> HeldBy(w, p);
    assert |before| == |before - {block}| + if block in before then 1 else 0;
    assert |after| == |after - {block}| + if block in after then 1 else 0;
  }

  lemma HeldIgnoresCounts(windows: map<nat, Window>, x: Counts, y: Counts, p: Address)
    ensures Held(Manager(windows, x), p) == Held(Manager(windows, y), p)
  {
  }

  predicate Balanced(c: Config, m: Manager, op: Op, p: Address) {
    |Held(Next(c, m, op), p)| + Charges(c, m, op, p) + Fulfilments(m, op, p) + Drops(c, m, op, p) ==
    |Held(m, p)| + Claims(c, m, op, p)
  }

  lemma ClaimBalances(c: Config, m: Manager, block: nat, q: Address, now: nat, p: Address)
    ensures Balanced(c, m, Claim(block, q, now), p)
  {
    var t := AfterClaim(c, m, block, q, now);
    if Late(c, block, now) || CanClaim(c, m, block, now) {
      SetWindow(m.windows, m.expired, block, t.windows[block], p);
      HeldIgnoresCounts(t.windows, t.expired, m.expired, p);
    }
  }

  lemma FulfillBalances(c: Config, m: Manager, block: nat, q: Address, now: nat, p: Address)
    ensures Balanced(c, m, Fulfill(block, q, now), p)
  {
    var t := AfterFulfill(m, block, q, now);
    if HeldBy(StateOf(m.windows, block), q) {
      SetWindow(m.windows, m.expired, block, t.windows[block], p);
      HeldIgnoresCounts(t.windows, t.expired, m.expired, p);
    }
  }

  lemma AdvanceBalances(c: Config, m: Manager, now: nat, p: Address)
    ensures Balanced(c, m, Advance(now), p)
  {
    var stale := StaleOf(m.windows, m.windows.Keys, now, p);
    var after := Held(AfterAdvance(m, now), p);
    assert Held(m, p) == after + stale && after !! stale;
  }

  lemma GcBalances(c: Config, m: Manager, now: nat, p: Address)
    ensures Balanced(c, m, Gc(now), p)
  {
    var after := Held(AfterGc(c, m, now), p);
    assert Held(m, p) == after + Collected(c, m, now, p) && after !! Collected(c, m, now, p);
  }

  lemma StepBalances(c: Config, m: Manager, op: Op, p: Address)
    ensures Balanced(c, m, op, p)
  {
    match op
    case Claim(block, q, now) => ClaimBalances(c, m, block, q, now, p);
    case Fulfill(block, q, now) => FulfillBalances(c, m, block, q, now, p);
    case Advance(now) => AdvanceBalances(c, m, now, p);
    case Gc(now) => GcBalances(c, m, now, p);
  }

  /** The count moves by exactly the charges, up to the largest 32-bit number. */
  lemma StepCounts(c: Config, m: Manager, op: Op, p: Address)
    ensures Count(Next(c, m, op).expired, p) == Sat32(Count(m.expired, p) + Charges(c, m, op, p))
  {
    if op.Advance? {
      CountAfterCharge(m.expired, m.windows, m.windows.Keys, op.now, p);
    }
  }

  // ---------------------------------------------------------------------------
  // The life of a claim
  // ---------------------------------------------------------------------------

  /** Only the window of one block and the count of one prover differ. */
  ghost predicate DiffersAt(m: Manager, t: Manager, block: nat, p: Address) {
    && (forall b :: b != block ==> StateOf(t.windows, b) == StateOf(m.windows, b))
    && (forall q :: q != p ==> Count(t.expired, q) == Count(m.expired, q))
  }

  /** A claim that begins at `from` runs until its timeout, in 64 bits. */
  function Until(c: Config, from: nat): nat { Min(from + c.claimTimeout, U64_MAX) }

  /** The window is claimed by `p` since `from`. */
  predicate Runs(c: Config, m: Manager, block: nat, p: Address, from: nat) {
    StateOf(m.windows, block) == Claimed(p, from, Until(c, from))
  }

  /** A free window is claimed up to its last block, and nobody is charged. */
  lemma FreeWindow(c: Config, m: Manager, block: nat, p: Address, now: nat)
    requires StateOf(m.windows, block) == Unclaimed && now <= U64_MAX
    ensures var t := AfterClaim(c, m, block, p, now);
            && t.expired == m.expired && DiffersAt(m, t, block, p)
            && (now <= block + c.windowSize ==> CanClaim(c, m, block, now) && Runs(c, t, block, p, now))
            && (now > block + c.windowSize ==> !CanClaim(c, m, block, now) && StateOf(t.windows, block) == Expired)
  {
  }

  /** Another claim, by anyone, on a window that is claimed: until the claim has run out nothing
      happens; then the window changes hands and the old claimer is charged once; and after the
      last block the window is gone without a charge. */
  lemma ClaimedWindow(c: Config, m: Manager, block: nat, p: Address, from: nat, q: Address, now: nat)
    requires Runs(c, m, block, p, from) && now <= U64_MAX
    ensures var t := AfterClaim(c, m, block, q, now);
            && DiffersAt(m, t, block, p)
            && (now > block + c.windowSize ==>
                  !CanClaim(c, m, block, now) && StateOf(t.windows, block) == Expired && t.expired == m.expired)
            && (now <= block + c.windowSize && now < Until(c, from) ==> !CanClaim(c, m, block, now) && t == m)
            && (now <= block + c.windowSize && now >= Until(c, from) ==>
                  && CanClaim(c, m, block, now) && Runs(c, t, block, q, now)
                  && Count(t.expired, p) == Min(Count(m.expired, p) + 1, 0xFFFF_FFFF))
  {
  }

  /** Its claimer fulfils it until it has run out and is charged afterwards; nobody else can. */
  lemma FulfilledWindow(c: Config, m: Manager, block: nat, p: Address, from: nat, q: Address, now: nat)
    requires Runs(c, m, block, p, from)
    ensures var t := AfterFulfill(m, block, q, now);
            && DiffersAt(m, t, block, p)
            && (CanFulfill(m, block, q, now) <==> q == p && now <= Until(c, from))
            && (q != p ==> t == m)
            && (q == p && now <= Until(c, from) ==> StateOf(t.windows, block) == Fulfilled(p) && t.expired == m.expired)
            && (q == p && now > Until(c, from) ==>
                  StateOf(t.windows, block) == Expired && Count(t.expired, p) == Min(Count(m.expired, p) + 1, 0xFFFF_FFFF))
  {
  }

  /** Time passing ends exactly the claims that have run out. Collection drops exactly the windows
      that closed at least ten blocks ago and, however early, the one of block 0. */
  lemma PassingTime(c: Config, m: Manager, block: nat, p: Address, from: nat, now: nat)
    requires Runs(c, m, block, p, from) && c.windowSize + 10 <= U64_MAX
    ensures StateOf(AfterAdvance(m, now).windows, block) == if now > Until(c, from) then Expired else StateOf(m.windows, block)
    ensures StateOf(AfterGc(c, m, now).windows, block) ==
            if block + c.windowSize + 10 <= now || block == 0 then Unclaimed else StateOf(m.windows, block)
    ensures AfterGc(c, m, now).expired == m.expired
  {
  }

  /** A window that was fulfilled or has expired is never claimed or fulfilled again. */
  lemma ClosedWindow(c: Config, m: Manager, block: nat, q: Address, now: nat)
    requires StateOf(m.windows, block).Fulfilled? || StateOf(m.windows, block).Expired?
    ensures !CanClaim(c, m, block, now) && !CanFulfill(m, block, q, now)
    ensures AfterFulfill(m, block, q, now) == m && AfterClaim(c, m, block, q, now).expired == m.expired
    ensures now <= U64_MAX && now <= block + c.windowSize ==> AfterClaim(c, m, block, q, now) == m
  {
  }

  // ---------------------------------------------------------------------------
  // Whole runs
  // ---------------------------------------------------------------------------

  datatype Tally = Tally(claims: nat, charged: nat, fulfilled: nat, dropped: nat)

  function TallyOf(c: Config, m: Manager, ops: seq<Op>, p: Address): Tally
    decreases |ops|
  {
    if ops == [] then Tally(0, 0, 0, 0)
    else
      var t, op := TallyOf(c, Next(c, m, ops[0]), ops[1..], p), ops[0];
      Tally(Claims(c, m, op, p) + t.claims, Charges(c, m, op, p) + t.charged, Fulfilments(m, op, p) + t.fulfilled,
            Drops(c, m, op, p) + t.dropped)
  }

  lemma {:induction false} RunBalances(c: Config, m: Manager, ops: seq<Op>, p: Address)
    ensures var t := TallyOf(c, m, ops, p);
            |Held(m, p)| + t.claims == |Held(Run(c, m, ops), p)| + t.charged + t.fulfilled + t.dropped
    decreases |ops|
  {
    if ops != [] {
      StepBalances(c, m, ops[0], p);
      RunBalances(c, Next(c, m, ops[0]), ops[1..], p);
    }
  }

  // Counts along a run, for any steps and any charges.

  function Fold<M, O>(next: (M, O) -> M, m: M, ops: seq<O>): M
    decreases |ops|
  {
    if ops == [] then m else Fold(next, next(m, ops[0]), ops[1..])
  }

  function Total<M, O>(next: (M, O) -> M, charge: (M, O) -> nat, m: M, ops: seq<O>): nat
    decreases |ops|
  {
    if ops == [] then 0 else charge(m, ops[0]) + Total(next, charge, next(m, ops[0]), ops[1..])
  }

  /** A saturating counter that moves by the charge of every step ends at the saturated sum. */
  lemma {:induction false} CounterSums<M(!new), O(!new)>(next: (M, O) -> M, charge: (M, O) -> nat, count: M -> U32, m: M, ops: seq<O>)
    requires forall m, o :: count(next(m, o)) == Sat32(count(m) + charge(m, o))
    ensures count(Fold(next, m, ops)) == Sat32(count(m) + Total(next, charge, m, ops))
    decreases |ops|
  {
    if ops != [] {
      CounterSums(next, charge, count, next(m, ops[0]), ops[1..]);
    }
  }

  function Stepper(c: Config): (Manager, Op) -> Manager { (m, op) => Next(c, m, op) }

  function Charger(c: Config, p: Address): (Manager, Op) -> nat { (m, op) => Charges(c, m, op, p) }

  function Counter(p: Address): Manager -> U32 { (m: Manager) => Count(m.expired, p) }

  lemma {:induction false} RunIsFold(c: Config, m: Manager, ops: seq<Op>, p: Address)
    ensures Run(c, m, ops) == Fold(Stepper(c), m, ops)
    ensures TallyOf(c, m, ops, p).charged == Total(Stepper(c), Charger(c, p), m, ops)
    decreases |ops|
  {
    if ops != [] {
      RunIsFold(c, Next(c, m, ops[0]), ops[1..], p);
    }
  }

  lemma RunCounts(c: Config, m: Manager, ops: seq<Op>, p: Address)
    ensures Count(Run(c, m, ops).expired, p) == Sat32(Count(m.expired, p) + TallyOf(c, m, ops, p).charged)
  {
    forall m, op ensures Counter(p)(Stepper(c)(m, op)) == Sat32(Counter(p)(m) + Charger(c, p)(m, op)) {
      StepCounts(c, m, op, p);
    }
    CounterSums(Stepper(c), Charger(c, p), Counter(p), m, ops);
    RunIsFold(c, m, ops, p);
  }

  const EMPTY: Manager := Manager(map[], map[])

  /** Claims are conserved: from an empty manager, a prover's successful claims are exactly
      those charged, fulfilled, dropped and still held, and the recorded count is the number
      charged. So no claim is charged twice, or both charged and fulfilled. */
  lemma ClaimsAreConserved(c: Config, ops: seq<Op>, p: Address)
    ensures var t, m := TallyOf(c, EMPTY, ops, p), Run(c, EMPTY, ops);
            && t.claims == t.charged + t.fulfilled + t.dropped + |Held(m, p)|
            && Count(m.expired, p) == Sat32(t.charged)
            && t.claims >= Count(m.expired, p) + t.fulfilled + |Held(m, p)|
  {
    RunBalances(c, EMPTY, ops, p);
    RunCounts(c, EMPTY, ops, p);
    assert Held(EMPTY, p) == {};
  }

  predicate Unreliable(c: Config, m: Manager, p: Address) { Count(m.expired, p) >= c.maxExpiredClaims }

  /** A prover is flagged exactly when that many of its claims were charged. */
  lemma FlaggedExactly(c: Config, ops: seq<Op>, p: Address)
    requires c.maxExpiredClaims <= 0xFFFF_FFFF
    ensures Unreliable(c, Run(c, EMPTY, ops), p) <==> TallyOf(c, EMPTY, ops, p).charged >= c.maxExpiredClaims
  {
    ClaimsAreConserved(c, ops, p);
  }

  /** A prover is flagged only after that many successful claims of its own beyond those it
      fulfilled or still holds. */
  lemma FlagIsEarned(c: Config, ops: seq<Op>, p: Address)
    requires Unreliable(c, Run(c, EMPTY, ops), p)
    ensures var t := TallyOf(c, EMPTY, ops, p);
            t.claims >= c.maxExpiredClaims + t.fulfilled + |Held(Run(c, EMPTY, ops), p)|
  {
    ClaimsAreConserved(c, ops, p);
  }
}
