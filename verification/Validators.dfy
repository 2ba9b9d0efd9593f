/** The validator set: lifecycle, activation queue and the list the proposer walk runs over. */
module Validators {
  import opened Common
  import opened Schedule

  const MAX_VALIDATOR_WEIGHT: nat := 1_000_000

  datatype Status = Pending | Active | Exiting(until: nat) | Exited | Slashed

  datatype Info = Info(weight: nat, status: Status, activationEpoch: Option<nat>, exitEpoch: Option<nat>)

  datatype Config = Config(maxActivations: nat, exitCooldown: nat)

  datatype Set = Set(validators: map<Address, Info>, order: seq<Address>, queue: seq<Address>)

  predicate IsActive(validators: map<Address, Info>, a: Address) { a in validators && validators[a].status == Active }

  /** The active validators in the order of their registration. */
  function ActiveEntries(validators: map<Address, Info>, order: seq<Address>): seq<Entry> {
    if order == [] then []
    else
      var rest, a := ActiveEntries(validators, order[..|order| - 1]), order[|order| - 1];
      if IsActive(validators, a) then rest + [Entry(a, validators[a].weight)] else rest
  }

  // ---------------------------------------------------------------------------
  // Transitions
  // ---------------------------------------------------------------------------

  function Clamp(w: nat): nat { if w < 1 then 1 else if w > MAX_VALIDATOR_WEIGHT then MAX_VALIDATOR_WEIGHT else w }

  function Genesis(entries: seq<Entry>): Set {
    if entries == [] then Set(map[], [], [])
    else
      var s, e := Genesis(entries[..|entries| - 1]), entries[|entries| - 1];
      Set(s.validators[e.address := Info(Clamp(e.weight), Active, Some(0), None)], s.order + [e.address], [])
  }

  function Enqueued(s: Set, a: Address): Set {
    if a in s.validators then s
    else Set(s.validators[a := Info(1, Pending, None, None)], s.order + [a], s.queue + [a])
  }

  predicate CanSetWeight(s: Set, a: Address, w: nat) { IsActive(s.validators, a) && 1 <= w <= MAX_VALIDATOR_WEIGHT }

  function Reweighted(s: Set, a: Address, w: nat): Set {
    if CanSetWeight(s, a, w) then s.(validators := s.validators[a := s.validators[a].(weight := w)]) else s
  }

  predicate IsPending(validators: map<Address, Info>, a: Address) { a in validators && validators[a].status == Pending }

  function Activate(validators: map<Address, Info>, a: Address, epoch: nat): map<Address, Info>
    requires IsPending(validators, a)
  {
    validators[a := validators[a].(status := Active, activationEpoch := Some(epoch))]
  }

  /** Entries leave the queue until `max` of them have become active. */
  function Activated(max: nat, s: Set, epoch: nat): Set
    decreases |s.queue|
  {
    if max == 0 || s.queue == [] then s
    else
      var a, rest := s.queue[0], s.queue[1..];
      if IsPending(s.validators, a) then Activated(max - 1, Set(Activate(s.validators, a, epoch), s.order, rest), epoch)
      else Activated(max, s.(queue := rest), epoch)
  }

  function Retired(i: Info, epoch: nat): Info {
    if i.status.Exiting? && epoch >= i.status.until then i.(status := Exited, exitEpoch := Some(epoch)) else i
  }

  function ExitsProcessed(s: Set, epoch: nat): Set {
    s.(validators := map a | a in s.validators :: Retired(s.validators[a], epoch))
  }

  predicate CanExit(s: Set, a: Address) { |ActiveEntries(s.validators, s.order)| > 1 && IsActive(s.validators, a) }

  function ExitBegun(c: Config, s: Set, a: Address, epoch: nat): Set {
    if CanExit(s, a) then
      s.(validators := s.validators[a := s.validators[a].(status := Exiting(SatAdd(epoch, c.exitCooldown)))])
    else s
  }

  function SlashedIn(s: Set, a: Address, epoch: nat): Set {
    if a in s.validators then
      s.(validators := s.validators[a := s.validators[a].(status := Status.Slashed, exitEpoch := Some(epoch))])
    else s
  }

  // ---------------------------------------------------------------------------
  // The set as an object
  // ---------------------------------------------------------------------------

  class ValidatorSet {
    var validators: map<Address, Info>
    var order: seq<Address>
    var queue: seq<Address>
    const config: Config

    ghost function State(): Set
      reads this
    {
      Set(validators, order, queue)
    }

    constructor FromGenesis(entries: seq<Entry>, config: Config)
      ensures State() == Genesis(entries) && this.config == config
    {
      this.config := config;
      validators, order, queue := map[], [], [];
      new;
      assert entries[..|entries|] == entries;
      for i := 0 to |entries|
        invariant State() == Genesis(entries[..i])
      {
        assert entries[..i + 1][..i] == entries[..i];
        order := order + [entries[i].address];
        validators := validators[entries[i].address := Info(Clamp(entries[i].weight), Active, Some(0), None)];
      }
    }

    method Enqueue(a: Address) returns (ok: bool)
      modifies this
      ensures ok == (a !in old(validators)) && State() == Enqueued(old(State()), a)
    {
      if a in validators {
        return false;
      }
      order := order + [a];
      validators := validators[a := Info(1, Pending, None, None)];
      queue := queue + [a];
      return true;
    }

    method SetWeight(a: Address, w: nat) returns (ok: bool)
      modifies `validators
      ensures ok == old(CanSetWeight(State(), a, w)) && State() == Reweighted(old(State()), a, w)
    {
      if a !in validators {
        return false;
      }
      if validators[a].status != Active || w == 0 || w > MAX_VALIDATOR_WEIGHT {
        return false;
      }
      validators := validators[a := validators[a].(weight := w)];
      return true;
    }

    method ProcessActivations(epoch: nat)
      modifies this
      ensures State() == Activated(config.maxActivations, old(State()), epoch)
    {
      var activated := 0;
      while activated < config.maxActivations && queue != []
        invariant activated <= config.maxActivations
        invariant Activated(config.maxActivations - activated, State(), epoch) ==
                  Activated(config.maxActivations, old(State()), epoch)
        decreases |queue|
      {
        var a := queue[0];
        queue := queue[1..];
        if a in validators && validators[a].status == Pending {
          validators := validators[a := validators[a].(status := Active, activationEpoch := Some(epoch))];
          activated := activated + 1;
        }
      }
    }

    method ProcessExits(epoch: nat)
      modifies `validators
      ensures State() == ExitsProcessed(old(State()), epoch)
    {
      var todo := validators.Keys;
      while todo != {}
        invariant todo <= validators.Keys == old(validators).Keys
        invariant forall a :: a in validators ==>
                    validators[a] == if a in todo then old(validators)[a] else Retired(old(validators)[a], epoch)
      {
        var a :| a in todo;
        todo := todo - {a};
        var i := validators[a];
        if i.status.Exiting? && epoch >= i.status.until {
          validators := validators[a := i.(status := Exited, exitEpoch := Some(epoch))];
        }
      }
      assert validators == ExitsProcessed(old(State()), epoch).validators;
    }

    method ActiveCount() returns (n: nat)
      ensures n == |ActiveEntries(validators, order)|
    {
      n := 0;
      assert order[..|order|] == order;
      for i := 0 to |order|
        invariant n == |ActiveEntries(validators, order[..i])|
      {
        assert order[..i + 1][..i] == order[..i];
        if order[i] in validators && validators[order[i]].status == Active {
          n := n + 1;
        }
      }
    }

    method BeginExit(a: Address, epoch: nat) returns (ok: bool)
      modifies `validators
      ensures ok == old(CanExit(State(), a)) && State() == ExitBegun(config, old(State()), a, epoch)
    {
      var n := ActiveCount();
      if n <= 1 || a !in validators || validators[a].status != Active {
        return false;
      }
      validators := validators[a := validators[a].(status := Exiting(SatAdd(epoch, config.exitCooldown)))];
      return true;
    }

    method Slash(a: Address, epoch: nat) returns (ok: bool)
      modifies `validators
      ensures ok == (a in old(validators)) && State() == SlashedIn(old(State()), a, epoch)
    {
      if a !in validators {
        return false;
      }
      validators := validators[a := validators[a].(status := Status.Slashed, exitEpoch := Some(epoch))];
      return true;
    }

    /** The proposer of a block, without building the list of active validators. */
    method Proposer(number: nat) returns (r: Option<Address>)
      ensures r == WeightedProposer(ActiveEntries(validators, order), number)
    {
      ghost var all := ActiveEntries(validators, order);
      assert order[..|order|] == order;
      var total, count := 0, 0;
      for i := 0 to |order|
        invariant count == |ActiveEntries(validators, order[..i])|
        invariant total == Sum(ActiveEntries(validators, order[..i])) <= U64_MAX
      {
        OneMoreActive(validators, order, i);
        if order[i] in validators && validators[order[i]].status == Active {
          if total + validators[order[i]].weight > U64_MAX {
            return None;
          }
          total := total + validators[order[i]].weight;
          count := count + 1;
        }
      }
      if count == 0 {
        return None;
      }
      if total == 0 {
        r := NthActive(number % count);
      } else {
        r := WalkActive(number % total);
      }
    }

    method NthActive(n: nat) returns (r: Option<Address>)
      requires n < |ActiveEntries(validators, order)|
      ensures r == Some(ActiveEntries(validators, order)[n].address)
    {
      var seen := 0;
      assert order[..|order|] == order;
      for i := 0 to |order|
        invariant seen == |ActiveEntries(validators, order[..i])| <= n
      {
        OneMoreActive(validators, order, i);
        if order[i] in validators && validators[order[i]].status == Active {
          if seen == n {
            return Some(order[i]);
          }
          seen := seen + 1;
        }
      }
      r := None;
      assert false;
    }

    method WalkActive(slot: nat) returns (r: Option<Address>)
      requires slot < Sum(ActiveEntries(validators, order)) <= U64_MAX
      ensures r == Some(Walk(ActiveEntries(validators, order), slot))
    {
      ghost var all := ActiveEntries(validators, order);
      var cumulative := 0;
      assert order[..|order|] == order;
      for i := 0 to |order|
        invariant cumulative == Sum(ActiveEntries(validators, order[..i])) <= slot
      {
        OneMoreActive(validators, order, i);
        if order[i] in validators && validators[order[i]].status == Active {
          ghost var k := |ActiveEntries(validators, order[..i])|;
          assert all[..k] == ActiveEntries(validators, order[..i]);
          WalkSkips(all, k, slot);
          cumulative := cumulative + validators[order[i]].weight;
          if slot < cumulative {
            return Some(order[i]);
          }
        }
      }
      r := None;
      assert false;
    }
  }

  lemma {:induction false} ActivePrefix(validators: map<Address, Info>, order: seq<Address>, i: nat)
    requires i <= |order|
    ensures ActiveEntries(validators, order[..i]) <= ActiveEntries(validators, order)
  {
    if i == |order| {
      assert order[..i] == order;
    } else {
      ActivePrefix(validators, order[..|order| - 1], i);
      assert order[..|order| - 1][..i] == order[..i];
    }
  }

  lemma OneMoreActive(validators: map<Address, Info>, order: seq<Address>, i: nat)
    requires i < |order|
    ensures ActiveEntries(validators, order[..i + 1]) ==
            if IsActive(validators, order[i]) then
              ActiveEntries(validators, order[..i]) + [Entry(order[i], validators[order[i]].weight)]
            else ActiveEntries(validators, order[..i])
    ensures Sum(ActiveEntries(validators, order[..i + 1])) ==
            Sum(ActiveEntries(validators, order[..i])) + if IsActive(validators, order[i]) then validators[order[i]].weight else 0
    ensures ActiveEntries(validators, order[..i + 1]) <= ActiveEntries(validators, order)
    ensures Sum(ActiveEntries(validators, order[..i + 1])) <= Sum(ActiveEntries(validators, order))
  {
    assert order[..i + 1][..i] == order[..i];
    var before, upto := ActiveEntries(validators, order[..i]), ActiveEntries(validators, order[..i + 1]);
    var all := ActiveEntries(validators, order);
    if IsActive(validators, order[i]) {
      SumAppend(before, [Entry(order[i], validators[order[i]].weight)]);
    }
    ActivePrefix(validators, order, i + 1);
    assert all == upto + all[|upto|..];
    SumAppend(upto, all[|upto|..]);
  }
}
