/** What every run of the validator set keeps. */
module Lifecycle {
  import opened Common
  import opened Arithmetic
  import opened Schedule
  import opened Views
  import opened Validators

  datatype Op =
    | Enqueue(a: Address)
    | SetWeight(a: Address, w: nat)
    | ProcessActivations(epoch: nat)
    | ProcessExits(epoch: nat)
    | BeginExit(a: Address, epoch: nat)
    | Slash(a: Address, epoch: nat)

  function Next(c: Config, s: Set, op: Op): Set {
    match op
    case Enqueue(a) => Enqueued(s, a)
    case SetWeight(a, w) => Reweighted(s, a, w)
    case ProcessActivations(epoch) => Activated(c.maxActivations, s, epoch)
    case ProcessExits(epoch) => ExitsProcessed(s, epoch)
    case BeginExit(a, epoch) => ExitBegun(c, s, a, epoch)
    case Slash(a, epoch) => SlashedIn(s, a, epoch)
  }

  function Run(c: Config, s: Set, ops: seq<Op>): Set
    decreases |ops|
  {
    if ops == [] then s else Run(c, Next(c, s, ops[0]), ops[1..])
  }

  // ---------------------------------------------------------------------------
  // The invariant
  // ---------------------------------------------------------------------------

  predicate QueueOk(s: Set) {
    && Distinct(s.queue)
    && (forall a :: a in s.queue ==> a in s.validators && s.validators[a].status in {Pending, Status.Slashed})
    && (forall a :: a in s.validators && s.validators[a].status == Pending ==> a in s.queue)
  }

  ghost predicate Registered(s: Set) { forall a :: a in s.order <==> a in s.validators }

  predicate WeightsOk(s: Set) { forall a :: a in s.validators ==> 1 <= s.validators[a].weight <= MAX_VALIDATOR_WEIGHT }

  /** Every known address is listed, every pending one is queued once, weights are in range. */
  ghost predicate SetOk(s: Set) { QueueOk(s) && Registered(s) && WeightsOk(s) }

  lemma {:induction false} GenesisOk(entries: seq<Entry>)
    ensures SetOk(Genesis(entries))
    ensures Genesis(entries).order == Addresses(entries)
    ensures forall a :: a in Genesis(entries).validators ==> Genesis(entries).validators[a].status == Active
  {
    if entries != [] {
      GenesisOk(entries[..|entries| - 1]);
    }
  }

  function Addresses(entries: seq<Entry>): seq<Address> {
    if entries == [] then [] else Addresses(entries[..|entries| - 1]) + [entries[|entries| - 1].address]
  }

  /** One turn of the activation loop. */
  function Popped(s: Set, epoch: nat): Set
    requires s.queue != []
  {
    var a := s.queue[0];
    Set(if IsPending(s.validators, a) then Activate(s.validators, a, epoch) else s.validators, s.order, s.queue[1..])
  }

  lemma PoppedOk(s: Set, epoch: nat)
    requires SetOk(s) && s.queue != []
    ensures SetOk(Popped(s, epoch))
  {
    var t := Popped(s, epoch);
    assert s.queue == [s.queue[0]] + t.queue;
    forall a | a in t.validators && t.validators[a].status == Pending ensures a in t.queue {
      assert a in s.queue;
    }
  }

  lemma {:induction false} ActivatedOk(max: nat, s: Set, epoch: nat)
    requires SetOk(s)
    ensures SetOk(Activated(max, s, epoch)) && Activated(max, s, epoch).order == s.order
    decreases |s.queue|
  {
    if max > 0 && s.queue != [] {
      PoppedOk(s, epoch);
      ActivatedOk(if IsPending(s.validators, s.queue[0]) then max - 1 else max, Popped(s, epoch), epoch);
    }
  }

  lemma EnqueuedOk(s: Set, a: Address)
    requires SetOk(s)
    ensures SetOk(Enqueued(s, a)) && (Distinct(s.order) ==> Distinct(Enqueued(s, a).order))
  {
    if a !in s.validators {
      assert a !in s.order && a !in s.queue;
    }
  }

  /** Validators change in place: nobody becomes pending, and whoever is queued stays pending or
      is slashed. */
  ghost predicate InPlace(s: Set, t: Set) {
    && t.order == s.order && t.queue == s.queue && t.validators.Keys == s.validators.Keys
    && forall a :: a in s.validators ==>
         && 1 <= t.validators[a].weight <= MAX_VALIDATOR_WEIGHT
         && (t.validators[a].status == Pending ==> s.validators[a].status == Pending)
         && (s.validators[a].status in {Pending, Status.Slashed} ==> t.validators[a].status in {Pending, Status.Slashed})
  }

  lemma InPlaceOk(s: Set, t: Set)
    requires SetOk(s) && InPlace(s, t)
    ensures SetOk(t)
  {
  }

  lemma ReweightedInPlace(s: Set, a: Address, w: nat)
    requires WeightsOk(s)
    ensures InPlace(s, Reweighted(s, a, w))
  {
  }

  lemma ExitsInPlace(s: Set, epoch: nat)
    requires WeightsOk(s)
    ensures InPlace(s, ExitsProcessed(s, epoch))
  {
  }

  lemma ExitInPlace(c: Config, s: Set, a: Address, epoch: nat)
    requires WeightsOk(s)
    ensures InPlace(s, ExitBegun(c, s, a, epoch))
  {
  }

  lemma SlashInPlace(s: Set, a: Address, epoch: nat)
    requires WeightsOk(s)
    ensures InPlace(s, SlashedIn(s, a, epoch))
  {
  }

  lemma NextInPlace(c: Config, s: Set, op: Op)
    requires WeightsOk(s) && !op.Enqueue? && !op.ProcessActivations?
    ensures InPlace(s, Next(c, s, op))
  {
    match op
    case SetWeight(a, w) => ReweightedInPlace(s, a, w);
    case ProcessExits(epoch) => ExitsInPlace(s, epoch);
    case BeginExit(a, epoch) => ExitInPlace(c, s, a, epoch);
    case Slash(a, epoch) => SlashInPlace(s, a, epoch);
  }

  lemma NextOk(c: Config, s: Set, op: Op)
    requires SetOk(s)
    ensures SetOk(Next(c, s, op)) && (Distinct(s.order) ==> Distinct(Next(c, s, op).order))
  {
    match op
    case Enqueue(a) => EnqueuedOk(s, a);
    case ProcessActivations(epoch) => ActivatedOk(c.maxActivations, s, epoch);
    case _ =>
      NextInPlace(c, s, op);
      InPlaceOk(s, Next(c, s, op));
  }

  /** The invariant holds after every run; in particular a pending validator is in the queue
      exactly once. */
  lemma {:induction false} RunOk(c: Config, s: Set, ops: seq<Op>)
    requires SetOk(s)
    ensures SetOk(Run(c, s, ops)) && (Distinct(s.order) ==> Distinct(Run(c, s, ops).order))
    ensures forall a :: IsPending(Run(c, s, ops).validators, a) ==> multiset(Run(c, s, ops).queue)[a] == 1
    decreases |ops|
  {
    if ops != [] {
      NextOk(c, s, ops[0]);
      RunOk(c, Next(c, s, ops[0]), ops[1..]);
    } else {
      forall a | IsPending(s.validators, a) ensures multiset(s.queue)[a] == 1 {
        DistinctOnce(s.queue, a);
      }
    }
  }

  // ---------------------------------------------------------------------------
  // Statuses only move forward
  // ---------------------------------------------------------------------------

  function Rank(s: Status): nat {
    match s
    case Pending => 0
    case Active => 1
    case Exiting(_) => 2
    case Exited => 3
    case Slashed => 4
  }

  predicate Forward(s: Set, t: Set, a: Address) {
    a in s.validators ==> a in t.validators && Rank(s.validators[a].status) <= Rank(t.validators[a].status)
  }

  lemma {:induction false} ActivatedForward(max: nat, s: Set, epoch: nat, a: Address)
    ensures Forward(s, Activated(max, s, epoch), a)
    decreases |s.queue|
  {
    if max > 0 && s.queue != [] {
      var b, rest := s.queue[0], s.queue[1..];
      if IsPending(s.validators, b) {
        ActivatedForward(max - 1, Set(Activate(s.validators, b, epoch), s.order, rest), epoch, a);
      } else {
        ActivatedForward(max, s.(queue := rest), epoch, a);
      }
    }
  }

  lemma NextForward(c: Config, s: Set, op: Op, a: Address)
    ensures Forward(s, Next(c, s, op), a)
  {
    match op
    case ProcessActivations(epoch) => ActivatedForward(c.maxActivations, s, epoch, a);
    case _ =>
  }

  lemma {:induction false} RunForward(c: Config, s: Set, ops: seq<Op>, a: Address)
    ensures Forward(s, Run(c, s, ops), a)
    decreases |ops|
  {
    if ops != [] {
      NextForward(c, s, ops[0], a);
      RunForward(c, Next(c, s, ops[0]), ops[1..], a);
    }
  }

  /** A validator that has left the active set never comes back. */
  lemma NoReturn(c: Config, s: Set, ops: seq<Op>, a: Address)
    requires a in s.validators && s.validators[a].status !in {Pending, Active}
    ensures !IsActive(Run(c, s, ops).validators, a)
  {
    RunForward(c, s, ops, a);
  }

  // ---------------------------------------------------------------------------
  // Activation takes a bounded number of epochs
  // ---------------------------------------------------------------------------

  predicate QueuedAt(s: Set, a: Address, k: nat) { k < |s.queue| && s.queue[k] == a && IsPending(s.validators, a) }

  /** One call brings a queued validator at least `max` places forward, or activates it. */
  lemma {:induction false} QueueMoves(max: nat, s: Set, epoch: nat, a: Address, k: nat) returns (p: nat)
    requires Distinct(s.queue) && QueuedAt(s, a, k)
    ensures var t := Activated(max, s, epoch); IsActive(t.validators, a) || (p + max <= k && QueuedAt(t, a, p))
    decreases |s.queue|
  {
    p := k;
    if max > 0 {
      var b, rest := s.queue[0], s.queue[1..];
      assert Distinct(rest) && (k > 0 ==> rest[k - 1] == a);
      if k == 0 {
        ActivatedKeepsActive(max - 1, Set(Activate(s.validators, b, epoch), s.order, rest), epoch, a);
      } else if IsPending(s.validators, b) {
        p := QueueMoves(max - 1, Set(Activate(s.validators, b, epoch), s.order, rest), epoch, a, k - 1);
      } else {
        p := QueueMoves(max, s.(queue := rest), epoch, a, k - 1);
      }
    }
  }

  function Activations(ops: seq<Op>): nat {
    if ops == [] then 0 else (if ops[0].ProcessActivations? then 1 else 0) + Activations(ops[1..])
  }

  predicate Spared(ops: seq<Op>, a: Address) { forall i :: 0 <= i < |ops| ==> !(ops[i].Slash? && ops[i].a == a) }

  lemma OtherOpsKeepPlace(c: Config, s: Set, op: Op, a: Address, k: nat)
    requires QueuedAt(s, a, k) && !op.ProcessActivations? && !(op.Slash? && op.a == a)
    ensures QueuedAt(Next(c, s, op), a, k)
  {
  }

  /** Places in the queue that a run moves forward. */
  function Reach(ops: seq<Op>, max: nat): nat {
    if ops == [] then 0 else (if ops[0].ProcessActivations? then max else 0) + Reach(ops[1..], max)
  }

  lemma {:induction false} ReachIsProduct(ops: seq<Op>, max: nat)
    ensures Reach(ops, max) == max * Activations(ops)
  {
    if ops != [] {
      ReachIsProduct(ops[1..], max);
      assert max * (1 + Activations(ops[1..])) == max + max * Activations(ops[1..]);
    }
  }

  /** Some moment of the run at which the validator is active. */
  lemma {:induction false} ActiveInTime(c: Config, s: Set, ops: seq<Op>, a: Address, k: nat) returns (n: nat)
    requires SetOk(s) && QueuedAt(s, a, k) && Spared(ops, a) && k < Reach(ops, c.maxActivations)
    ensures n <= |ops| && IsActive(Run(c, s, ops[..n]).validators, a)
    decreases |ops|
  {
    var t, rest := Next(c, s, ops[0]), ops[1..];
    NextOk(c, s, ops[0]);
    if ops[0].ProcessActivations? {
      var p := QueueMoves(c.maxActivations, s, ops[0].epoch, a, k);
      if IsActive(t.validators, a) {
        n := 1;
        RunPrefix(c, s, ops, 1);
      } else {
        var m := ActiveInTime(c, t, rest, a, p);
        n := m + 1;
        RunPrefix(c, s, ops, n);
      }
    } else {
      OtherOpsKeepPlace(c, s, ops[0], a, k);
      var m := ActiveInTime(c, t, rest, a, k);
      n := m + 1;
      RunPrefix(c, s, ops, n);
    }
  }

  lemma RunPrefix(c: Config, s: Set, ops: seq<Op>, n: nat)
    requires 0 < n <= |ops|
    ensures Run(c, s, ops[..n]) == Run(c, Next(c, s, ops[0]), ops[1..][..n - 1])
  {
    assert ops[..n][1..] == ops[1..][..n - 1];
  }

  lemma {:induction false} RunSplits(c: Config, s: Set, ops: seq<Op>, n: nat)
    requires n <= |ops|
    ensures Run(c, s, ops) == Run(c, Run(c, s, ops[..n]), ops[n..])
    decreases n
  {
    if n == 0 {
      assert ops[0..] == ops;
    } else {
      RunPrefix(c, s, ops, n);
      RunSplits(c, Next(c, s, ops[0]), ops[1..], n - 1);
      assert ops[1..][n - 1..] == ops[n..];
    }
  }

  lemma EnoughCalls(k: nat, max: nat, n: nat)
    requires max > 0 && n >= k / max + 1
    ensures k < max * n
  {
    var q := k / max;
    assert k == max * q + k % max;
    assert max * (q + 1) == max * q + max;
    MulBound(max, q + 1, max, n);
  }

  /** A validator at place k of the queue that is not slashed is active at some moment of any run
      with floor(k / max) + 1 calls, whatever happens in between, and never pending again. */
  lemma ActivationIsBounded(c: Config, s: Set, ops: seq<Op>, a: Address, k: nat)
    requires c.maxActivations > 0 && SetOk(s) && QueuedAt(s, a, k) && Spared(ops, a)
    requires Activations(ops) >= k / c.maxActivations + 1
    ensures exists n :: 0 <= n <= |ops| && IsActive(Run(c, s, ops[..n]).validators, a)
    ensures !IsPending(Run(c, s, ops).validators, a)
  {
    EnoughCalls(k, c.maxActivations, Activations(ops));
    ReachIsProduct(ops, c.maxActivations);
    var n := ActiveInTime(c, s, ops, a, k);
    RunSplits(c, s, ops, n);
    RunForward(c, Run(c, s, ops[..n]), ops[n..], a);
  }

  // ---------------------------------------------------------------------------
  // Exits alone and the active set
  // ---------------------------------------------------------------------------

  ghost predicate HasActive(s: Set) { exists a :: IsActive(s.validators, a) }

  predicate NoSlash(ops: seq<Op>) { forall i :: 0 <= i < |ops| ==> !ops[i].Slash? }

  lemma {:induction false} OnlyActive(validators: map<Address, Info>, order: seq<Address>, a: Address)
    requires Distinct(order) && forall b :: IsActive(validators, b) ==> b == a
    ensures |ActiveEntries(validators, order)| <= if a in order then 1 else 0
  {
    if order != [] {
      OnlyActive(validators, order[..|order| - 1], a);
      assert order == order[..|order| - 1] + [order[|order| - 1]];
    }
  }

  lemma {:induction false} ActivatedKeepsActive(max: nat, s: Set, epoch: nat, a: Address)
    requires IsActive(s.validators, a)
    ensures IsActive(Activated(max, s, epoch).validators, a)
    decreases |s.queue|
  {
    if max > 0 && s.queue != [] {
      var b, rest := s.queue[0], s.queue[1..];
      if IsPending(s.validators, b) {
        ActivatedKeepsActive(max - 1, Set(Activate(s.validators, b, epoch), s.order, rest), epoch, a);
      } else {
        ActivatedKeepsActive(max, s.(queue := rest), epoch, a);
      }
    }
  }

  lemma NextKeepsSomeone(c: Config, s: Set, op: Op)
    requires Distinct(s.order) && HasActive(s) && !op.Slash?
    ensures HasActive(Next(c, s, op))
  {
    var t := Next(c, s, op);
    var a :| IsActive(s.validators, a);
    if op.BeginExit? && op.a == a && CanExit(s, a) {
      if forall b :: IsActive(s.validators, b) ==> b == a {
        OnlyActive(s.validators, s.order, a);
      }
      var b :| IsActive(s.validators, b) && b != a;
      assert IsActive(t.validators, b);
    } else {
      if op.ProcessActivations? {
        ActivatedKeepsActive(c.maxActivations, s, op.epoch, a);
      }
      assert IsActive(t.validators, a);
    }
  }

  lemma {:induction false} RunKeepsSomeone(c: Config, s: Set, ops: seq<Op>)
    requires SetOk(s) && Distinct(s.order) && HasActive(s) && NoSlash(ops)
    ensures HasActive(Run(c, s, ops))
    decreases |ops|
  {
    if ops != [] {
      NextKeepsSomeone(c, s, ops[0]);
      NextOk(c, s, ops[0]);
      RunKeepsSomeone(c, Next(c, s, ops[0]), ops[1..]);
    }
  }

  // An address listed twice counts twice, so that its last exit is let through.

  predicate ListedTwice(order: seq<Address>, a: Address) { exists i, j :: 0 <= i < j < |order| && order[i] == order[j] == a }

  lemma {:induction false} CountsTwice(validators: map<Address, Info>, order: seq<Address>, a: Address, i: nat, j: nat)
    requires i < j < |order| && order[i] == order[j] == a && IsActive(validators, a)
    ensures |ActiveEntries(validators, order)| >= 2
  {
    OneMoreActive(validators, order, i);
    OneMoreActive(validators, order, j);
    ActivePrefix(validators, order[..j], i + 1);
    assert order[..j][..i + 1] == order[..i + 1];
  }

  function Exits(todo: seq<Address>): (ops: seq<Op>)
    ensures |ops| == |todo| && NoSlash(ops)
  {
    seq(|todo|, i requires 0 <= i < |todo| => BeginExit(todo[i], 0))
  }

  /** While an address is listed twice and active, every other validator can exit. */
  lemma {:induction false} OthersExit(c: Config, s: Set, todo: seq<Address>, a: Address)
    requires ListedTwice(s.order, a) && IsActive(s.validators, a) && a !in todo
    ensures var t := Run(c, s, Exits(todo));
            && t.order == s.order && IsActive(t.validators, a)
            && forall b :: IsActive(t.validators, b) ==> IsActive(s.validators, b) && b !in todo
    decreases |todo|
  {
    if todo != [] {
      var i, j :| 0 <= i < j < |s.order| && s.order[i] == s.order[j] == a;
      CountsTwice(s.validators, s.order, a, i, j);
      var t := Next(c, s, BeginExit(todo[0], 0));
      assert !IsActive(t.validators, todo[0]);
      assert forall b :: IsActive(t.validators, b) ==> IsActive(s.validators, b);
      OthersExit(c, t, todo[1..], a);
      assert Exits(todo)[1..] == Exits(todo[1..]);
    }
  }

  function Without(order: seq<Address>, a: Address): (r: seq<Address>)
    ensures a !in r && forall b :: b in order && b != a ==> b in r
  {
    if order == [] then [] else if order[0] == a then Without(order[1..], a) else [order[0]] + Without(order[1..], a)
  }

  lemma {:induction false} RunAppend(c: Config, s: Set, ops: seq<Op>, last: Op)
    ensures Run(c, s, ops + [last]) == Next(c, Run(c, s, ops), last)
    decreases |ops|
  {
    if ops != [] {
      RunAppend(c, Next(c, s, ops[0]), ops[1..], last);
      assert (ops + [last])[1..] == ops[1..] + [last];
    }
  }

  lemma LastExit(c: Config, s: Set, a: Address)
    requires CanExit(s, a) && forall b :: IsActive(s.validators, b) ==> b == a
    ensures !HasActive(Next(c, s, BeginExit(a, 0)))
  {
    forall b ensures !IsActive(Next(c, s, BeginExit(a, 0)).validators, b) {
      assert b == a || !IsActive(s.validators, b);
    }
  }

  lemma DuplicateEmpties(c: Config, s: Set, a: Address) returns (ops: seq<Op>)
    requires SetOk(s) && ListedTwice(s.order, a) && IsActive(s.validators, a)
    ensures NoSlash(ops) && !HasActive(Run(c, s, ops))
  {
    var todo := Without(s.order, a);
    OthersExit(c, s, todo, a);
    var t := Run(c, s, Exits(todo));
    var i, j :| 0 <= i < j < |s.order| && s.order[i] == s.order[j] == a;
    CountsTwice(t.validators, t.order, a, i, j);
    ops := Exits(todo) + [BeginExit(a, 0)];
    RunAppend(c, s, Exits(todo), BeginExit(a, 0));
    forall b | IsActive(t.validators, b) ensures b == a {
      assert b in s.order;
    }
    LastExit(c, t, a);
  }

  /** The guard on exits keeps someone active over every run without slashing, if and only if
      the genesis list does not name an address twice. */
  lemma ExitsKeepSomeoneExactly(c: Config, entries: seq<Entry>)
    requires entries != []
    ensures (forall ops :: NoSlash(ops) ==> HasActive(Run(c, Genesis(entries), ops))) <==> Distinct(Addresses(entries))
  {
    var s := Genesis(entries);
    GenesisOk(entries);
    if Distinct(Addresses(entries)) {
      var a := entries[|entries| - 1].address;
      assert IsActive(s.validators, a);
      forall ops | NoSlash(ops) ensures HasActive(Run(c, s, ops)) {
        RunKeepsSomeone(c, s, ops);
      }
    } else {
      var i, j :| 0 <= i < j < |s.order| && s.order[i] == s.order[j];
      assert s.order[i] in s.order;
      var ops := DuplicateEmpties(c, s, s.order[i]);
    }
  }

  /** Slashing has no such guard: it leaves someone active if and only if another validator is. */
  lemma SlashKeepsSomeoneExactly(s: Set, a: Address, epoch: nat)
    ensures HasActive(SlashedIn(s, a, epoch)) <==> exists b :: b != a && IsActive(s.validators, b)
  {
    var t := SlashedIn(s, a, epoch);
    forall b ensures IsActive(t.validators, b) <==> b != a && IsActive(s.validators, b) {
    }
  }

  /** A run of one operation that empties the active set. */
  lemma SlashCanEmpty(c: Config, e: Entry, epoch: nat)
    ensures !HasActive(Run(c, Genesis([e]), [Slash(e.address, epoch)]))
  {
    var s := Genesis([e]);
    assert [e][..0] == [];
    assert Genesis([e][..0]) == Set(map[], [], []);
    assert s.validators == map[e.address := Info(Clamp(e.weight), Active, Some(0), None)];
    SlashKeepsSomeoneExactly(s, e.address, epoch);
    var ops := [Slash(e.address, epoch)];
    assert Run(c, s, ops) == Run(c, SlashedIn(s, e.address, epoch), ops[1..]);
  }

  // ---------------------------------------------------------------------------
  // The proposer walk over a valid set
  // ---------------------------------------------------------------------------

  lemma {:induction false} ActiveShare(validators: map<Address, Info>, order: seq<Address>, a: Address)
    requires Distinct(order)
    ensures Share(ActiveEntries(validators, order), a) == if a in order && IsActive(validators, a) then validators[a].weight else 0
  {
    if order != [] {
      var rest, b := order[..|order| - 1], order[|order| - 1];
      ActiveShare(validators, rest, a);
      assert order == rest + [b];
      if IsActive(validators, b) {
        ShareAppend(ActiveEntries(validators, rest), Entry(b, validators[b].weight), a);
      }
    }
  }

  lemma {:induction false} ShareAppend(e: seq<Entry>, last: Entry, a: Address)
    ensures Share(e + [last], a) == Share(e, a) + if last.address == a then last.weight else 0
  {
    if e != [] {
      ShareAppend(e[1..], last, a);
      assert (e + [last])[1..] == e[1..] + [last];
    }
  }

  lemma {:induction false} PositiveTotal(s: Set, n: nat)
    requires SetOk(s) && n <= |s.order|
    ensures Sum(ActiveEntries(s.validators, s.order[..n])) >= |ActiveEntries(s.validators, s.order[..n])|
  {
    if n > 0 {
      PositiveTotal(s, n - 1);
      OneMoreActive(s.validators, s.order, n - 1);
    }
  }

  /** The total is zero only when nobody is active, so the fallback for zero weights is never
      taken, and over any total-weight consecutive blocks each active validator proposes
      exactly its weight and nobody else proposes at all. */
  ghost predicate Fair(s: Set) {
    var e := ActiveEntries(s.validators, s.order);
    && (Sum(e) == 0 ==> e == [])
    && (0 < Sum(e) <= U64_MAX ==>
          forall a: Address, start: nat :: ProposedInRound(e, a, start) == WeightOf(s, a))
  }

  function ProposedInRound(e: seq<Entry>, a: Address, start: nat): nat { Proposed(e, a, start, start + Sum(e)) }

  function WeightOf(s: Set, a: Address): nat { if IsActive(s.validators, a) then s.validators[a].weight else 0 }

  lemma SetIsFair(s: Set)
    requires SetOk(s) && Distinct(s.order)
    ensures Fair(s)
  {
    var e := ActiveEntries(s.validators, s.order);
    PositiveTotal(s, |s.order|);
    assert s.order[..|s.order|] == s.order;
    if 0 < Sum(e) <= U64_MAX {
      forall a: Address, start: nat ensures ProposedInRound(e, a, start) == WeightOf(s, a) {
        WeightedRotationIsFair(e, a, start);
        ActiveShare(s.validators, s.order, a);
      }
    }
  }

  /** So it is after any run from a genesis list without duplicates. */
  lemma ProposersAreFair(c: Config, entries: seq<Entry>, ops: seq<Op>)
    requires Distinct(Addresses(entries))
    ensures Fair(Run(c, Genesis(entries), ops))
  {
    GenesisOk(entries);
    RunOk(c, Genesis(entries), ops);
    SetIsFair(Run(c, Genesis(entries), ops));
  }
}
