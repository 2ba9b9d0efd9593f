/** What each operation of the validator set does to the validators. */
module LifecycleEffects {
  import opened Common
  import opened Schedule
  import opened Views
  import opened Validators
  import opened Lifecycle

  /** Nothing but the entry of one validator changes. */
  ghost predicate OnlyDiffers(s: Set, t: Set, a: Address) {
    && t.order == s.order && t.queue == s.queue && t.validators.Keys == s.validators.Keys
    && forall b :: b in s.validators && b != a ==> t.validators[b] == s.validators[b]
  }

  // ---------------------------------------------------------------------------
  // Joining
  // ---------------------------------------------------------------------------

  /** From genesis a validator has the weight of its last entry, brought between 1 and a million,
      and is active since epoch 0. */
  lemma {:induction false} GenesisEffect(entries: seq<Entry>, i: nat)
    requires i < |entries| && forall j :: i < j < |entries| ==> entries[j].address != entries[i].address
    ensures var v, w := Genesis(entries).validators, entries[i].weight;
            && entries[i].address in v
            && v[entries[i].address] == Info(Max(1, Min(w, 1_000_000)), Active, Some(0), None)
  {
    if i < |entries| - 1 {
      var rest := entries[..|entries| - 1];
      assert rest[i] == entries[i];
      GenesisEffect(rest, i);
    }
  }

  /** The pending validators of a queue, in order. */
  function Waiting(validators: map<Address, Info>, queue: seq<Address>): (w: seq<Address>)
    ensures forall a :: a in w ==> a in queue && IsPending(validators, a)
  {
    if queue == [] then []
    else if IsPending(validators, queue[0]) then [queue[0]] + Waiting(validators, queue[1..])
    else Waiting(validators, queue[1..])
  }

  lemma {:induction false} WaitingIgnores(v: map<Address, Info>, u: map<Address, Info>, queue: seq<Address>)
    requires forall a :: a in queue ==> (IsPending(v, a) <==> IsPending(u, a))
    ensures Waiting(v, queue) == Waiting(u, queue)
  {
    if queue != [] {
      WaitingIgnores(v, u, queue[1..]);
    }
  }

  /** One call activates the first pending validators of the queue, as many as the maximum allows
      and no more; the others keep their places and everybody else stays as they are. */
  lemma {:induction false} ActivationEffect(max: nat, s: Set, epoch: nat)
    requires Distinct(s.queue)
    ensures var t, w := Activated(max, s, epoch), Waiting(s.validators, s.queue);
            var n := Min(max, |w|);
            && t.order == s.order && t.validators.Keys == s.validators.Keys
            && (forall a :: a in s.validators ==>
                  t.validators[a] == if a in w[..n] then s.validators[a].(status := Active, activationEpoch := Some(epoch))
                                     else s.validators[a])
            && Waiting(t.validators, t.queue) == w[n..]
    decreases |s.queue|
  {
    if max > 0 && s.queue != [] {
      var a, rest := s.queue[0], s.queue[1..];
      var w := Waiting(s.validators, s.queue);
      if IsPending(s.validators, a) {
        var v := Activate(s.validators, a, epoch);
        WaitingIgnores(s.validators, v, rest);
        ActivationEffect(max - 1, Set(v, s.order, rest), epoch);
        var n := Min(max, |w|);
        assert w[..n] == [a] + w[1..][..n - 1] && w[n..] == w[1..][n - 1..];
      } else {
        ActivationEffect(max, s.(queue := rest), epoch);
      }
    }
  }

  // ---------------------------------------------------------------------------
  // Weights
  // ---------------------------------------------------------------------------

  /** The weight of an active validator can be set between 1 and a million. */
  lemma SetWeightEffect(s: Set, a: Address, w: nat)
    ensures CanSetWeight(s, a, w) <==> IsActive(s.validators, a) && 1 <= w <= 1_000_000
    ensures CanSetWeight(s, a, w) ==>
              var t := Reweighted(s, a, w); OnlyDiffers(s, t, a) && t.validators[a] == s.validators[a].(weight := w)
    ensures !CanSetWeight(s, a, w) ==> Reweighted(s, a, w) == s
  {
  }

  // ---------------------------------------------------------------------------
  // Leaving
  // ---------------------------------------------------------------------------

  lemma {:induction false} TwoActive(validators: map<Address, Info>, order: seq<Address>, i: nat, j: nat)
    requires i < j < |order| && IsActive(validators, order[i]) && IsActive(validators, order[j])
    ensures |ActiveEntries(validators, order)| >= 2
  {
    var rest := order[..|order| - 1];
    if j == |order| - 1 {
      OneActive(validators, rest, i);
    } else {
      TwoActive(validators, rest, i, j);
    }
  }

  lemma {:induction false} OneActive(validators: map<Address, Info>, order: seq<Address>, i: nat)
    requires i < |order| && IsActive(validators, order[i])
    ensures |ActiveEntries(validators, order)| >= 1
  {
    if i < |order| - 1 {
      OneActive(validators, order[..|order| - 1], i);
    }
  }

  /** Without duplicates an active validator may leave exactly when it is not the only one. */
  lemma MayExitExactly(s: Set, a: Address)
    requires Registered(s) && Distinct(s.order)
    ensures CanExit(s, a) <==> IsActive(s.validators, a) && exists b :: b != a && IsActive(s.validators, b)
  {
    if IsActive(s.validators, a) {
      if b :| b != a && IsActive(s.validators, b) {
        assert a in s.order && b in s.order;
        var i :| 0 <= i < |s.order| && s.order[i] == a;
        var j :| 0 <= j < |s.order| && s.order[j] == b;
        TwoActive(s.validators, s.order, Min(i, j), Max(i, j));
      } else {
        OnlyActive(s.validators, s.order, a);
      }
    }
  }

  /** An exit takes the cooldown: it completes at the first processing that many epochs later, and
      until then and for everybody else processing changes nothing. */
  lemma ExitEffect(c: Config, s: Set, a: Address, epoch: nat, later: nat)
    ensures !CanExit(s, a) ==> ExitBegun(c, s, a, epoch) == s
    ensures CanExit(s, a) ==>
              var t, i := ExitBegun(c, s, a, epoch), s.validators[a];
              && OnlyDiffers(s, t, a) && t.validators[a] == i.(status := Exiting(Min(epoch + c.exitCooldown, U64_MAX)))
              && ExitsProcessed(t, later).validators[a] ==
                 if later >= Min(epoch + c.exitCooldown, U64_MAX) then i.(status := Exited, exitEpoch := Some(later))
                 else t.validators[a]
  {
  }

  /** With nobody waiting before it, a new validator is activated by the next call. */
  lemma Joins(max: nat, s: Set, a: Address, epoch: nat)
    requires a !in s.validators && s.queue == [] && max > 0
    ensures Enqueued(s, a).validators[a] == Info(1, Pending, None, None)
    ensures var t := Activated(max, Enqueued(s, a), epoch);
            a in t.validators && t.validators[a] == Info(1, Active, Some(epoch), None) && t.queue == []
  {
    var s1 := Enqueued(s, a);
    assert s1.queue == [a] && s1.queue[1..] == [];
  }

  /** A validator that may leave does so after the cooldown, and can be slashed even then. */
  lemma Leaves(c: Config, s: Set, a: Address, leaving: nat, left: nat, slashed: nat)
    requires CanExit(s, a) && left >= leaving + c.exitCooldown
    ensures var t := ExitsProcessed(ExitBegun(c, s, a, leaving), left);
            && a in t.validators && t.validators[a] == s.validators[a].(status := Exited, exitEpoch := Some(left))
            && SlashedIn(t, a, slashed).validators[a] == t.validators[a].(status := Status.Slashed, exitEpoch := Some(slashed))
  {
    ExitEffect(c, s, a, leaving, left);
  }

  /** A whole life: a new validator waits with weight 1, is activated when nobody waits before it,
      leaves after the cooldown, and the epochs of both are recorded. It can be slashed at any
      time, even afterwards. */
  lemma OneLife(c: Config, s: Set, a: Address, joined: nat, leaving: nat, left: nat, slashed: nat, b: Address)
    requires SetOk(s) && Distinct(s.order) && a !in s.validators && s.queue == [] && c.maxActivations > 0
    requires b != a && IsActive(s.validators, b) && left >= leaving + c.exitCooldown
    ensures var s1 := Enqueued(s, a);
            var s2 := Activated(c.maxActivations, s1, joined);
            var s3 := ExitsProcessed(ExitBegun(c, s2, a, leaving), left);
            && s1.validators[a] == Info(1, Pending, None, None)
            && a in s2.validators && s2.validators[a] == Info(1, Active, Some(joined), None)
            && a in s3.validators && s3.validators[a] == Info(1, Exited, Some(joined), Some(left))
            && SlashedIn(s3, a, slashed).validators[a] == Info(1, Status.Slashed, Some(joined), Some(slashed))
  {
    var s1 := Enqueued(s, a);
    var s2 := Activated(c.maxActivations, s1, joined);
    Joins(c.maxActivations, s, a, joined);
    MayLeave(c, s, a, joined, b);
    Leaves(c, s2, a, leaving, left, slashed);
  }

  lemma MayLeave(c: Config, s: Set, a: Address, joined: nat, b: Address)
    requires SetOk(s) && Distinct(s.order) && a !in s.validators && s.queue == [] && c.maxActivations > 0
    requires b != a && IsActive(s.validators, b)
    ensures CanExit(Activated(c.maxActivations, Enqueued(s, a), joined), a)
  {
    var s1 := Enqueued(s, a);
    EnqueuedOk(s, a);
    ActivatedOk(c.maxActivations, s1, joined);
    ActivatedKeepsActive(c.maxActivations, s1, joined, b);
    Joins(c.maxActivations, s, a, joined);
    MayExitExactly(Activated(c.maxActivations, s1, joined), a);
  }
}
