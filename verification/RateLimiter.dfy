/** Token buckets for proof submissions. Times are nanoseconds on one clock. */
module RateLimiter {
  import opened Common
  import opened Arithmetic

  datatype Config = Config(initialTokens: nat, refillRate: nat, refillInterval: nat, gcAfter: nat)

  datatype Bucket = Bucket(tokens: nat, lastRefill: nat, lastUsed: nat)

  function Interval(c: Config): (i: nat)
    ensures i > 0
  {
    Max(c.refillInterval, 1)
  }

  /** Whole refill periods since the last refill. */
  function Periods(c: Config, lastRefill: nat, now: nat): nat { SatSub(now, lastRefill) / Interval(c) }

  function Refill(c: Config, b: Bucket, now: nat): Bucket {
    var elapsed := SatSub(now, b.lastRefill);
    if elapsed >= Interval(c) then
      var add := Min(Periods(c, b.lastRefill, now) * c.refillRate, U64_MAX);
      Bucket(Min(SatAdd(b.tokens, add), c.initialTokens), now - elapsed % Interval(c), b.lastUsed)
    else b
  }

  function Fresh(c: Config, now: nat): Bucket { Bucket(c.initialTokens, now, now) }

  function Take(b: Bucket): Bucket { if b.tokens > 0 then b.(tokens := b.tokens - 1) else b }

  class ProofRateLimiter {
    const config: Config
    var buckets: map<Address, Bucket>

    constructor (config: Config)
      ensures this.config == config && buckets == map[]
    {
      this.config := config;
      buckets := map[];
    }

    function At(a: Address): Place
      reads this
    {
      if a in buckets then Some(buckets[a]) else None
    }

    method TryConsume(a: Address, now: nat) returns (allowed: bool)
      modifies this
      ensures var b := old(BucketFor(config, At(a), now));
              && allowed == (Refill(config, b, now).tokens > 0)
              && buckets == old(buckets)[a := Take(Refill(config, b, now)).(lastUsed := now)]
      ensures At(a) == Visited(config, old(At(a)), Ask(Consume(now)))
    {
      var b := if a in buckets then buckets[a] else Fresh(config, now);
      b := Refill(config, b, now);
      b := b.(lastUsed := now);
      allowed := b.tokens > 0;
      if allowed {
        b := b.(tokens := b.tokens - 1);
      }
      buckets := buckets[a := b];
    }

    method TokensRemaining(a: Address, now: nat) returns (n: nat)
      modifies this
      ensures var b := old(BucketFor(config, At(a), now));
              n == Refill(config, b, now).tokens && buckets == old(buckets)[a := Refill(config, b, now)]
      ensures At(a) == Visited(config, old(At(a)), Ask(Query(now)))
    {
      var b := if a in buckets then buckets[a] else Fresh(config, now);
      b := Refill(config, b, now);
      buckets := buckets[a := b];
      n := b.tokens;
    }

    method Gc(now: nat)
      modifies this
      ensures buckets == map a | a in old(buckets) && SatSub(now, old(buckets)[a].lastUsed) < config.gcAfter :: old(buckets)[a]
      ensures forall a :: At(a) == Visited(config, old(At(a)), Collect(now))
    {
      buckets := map a | a in buckets && SatSub(now, buckets[a].lastUsed) < config.gcAfter :: buckets[a];
    }
  }

  // ---------------------------------------------------------------------------
  // One bucket over time
  // ---------------------------------------------------------------------------

  datatype Event = Consume(at: nat) | Query(at: nat)

  function Next(c: Config, b: Bucket, e: Event): Bucket {
    match e
    case Consume(now) => Take(Refill(c, b, now)).(lastUsed := now)
    case Query(now) => Refill(c, b, now)
  }

  predicate Allowed(c: Config, b: Bucket, e: Event) { e.Consume? && Refill(c, b, e.at).tokens > 0 }

  function Granted(c: Config, b: Bucket, events: seq<Event>): nat
    decreases |events|
  {
    if events == [] then 0 else (if Allowed(c, b, events[0]) then 1 else 0) + Granted(c, Next(c, b, events[0]), events[1..])
  }

  function After(c: Config, b: Bucket, events: seq<Event>): Bucket
    decreases |events|
  {
    if events == [] then b else After(c, Next(c, b, events[0]), events[1..])
  }

  predicate InCapacity(c: Config, b: Bucket) { c.initialTokens <= U64_MAX && b.tokens <= c.initialTokens }

  function Paid(c: Config, periods: nat): nat { periods * c.refillRate }

  function Span(c: Config, periods: nat): nat { periods * Interval(c) }

  lemma PaidAdds(c: Config, p: nat, q: nat)
    ensures Paid(c, p + q) == Paid(c, p) + Paid(c, q) && Span(c, p + q) == Span(c, p) + Span(c, q)
  {
  }

  /** The bucket after a number of whole periods. */
  function Refilled(c: Config, b: Bucket, periods: nat): Bucket {
    Bucket(Min(b.tokens + Paid(c, periods), c.initialTokens), b.lastRefill + Span(c, periods), b.lastUsed)
  }

  /** A refill moves the clock by whole periods, pays for each of them and keeps the rest. */
  lemma RefillShape(c: Config, b: Bucket, now: nat)
    requires InCapacity(c, b)
    ensures Refill(c, b, now) == Refilled(c, b, Periods(c, b.lastRefill, now)) && InCapacity(c, Refill(c, b, now))
  {
    var elapsed, i := SatSub(now, b.lastRefill), Interval(c);
    assert elapsed == (elapsed / i) * i + elapsed % i;
    if elapsed < i {
      DivModUnique(elapsed, 0, elapsed, i);
    }
  }

  /** In the terms of the configuration: after k whole intervals there are k refills more, up to
      the capacity, and the k-th interval is where the clock of the bucket stands. */
  lemma RefillMeans(c: Config, b: Bucket, k: nat, r: nat)
    requires InCapacity(c, b) && r < c.refillInterval
    ensures Refill(c, b, b.lastRefill + k * c.refillInterval + r) ==
            Bucket(Min(b.tokens + k * c.refillRate, c.initialTokens), b.lastRefill + k * c.refillInterval, b.lastUsed)
  {
    var now := b.lastRefill + k * c.refillInterval + r;
    RefillShape(c, b, now);
    DivModUnique(k * c.refillInterval + r, k, r, c.refillInterval);
  }

  /** Periods add up along the clock. */
  lemma PeriodsSplit(c: Config, last: nat, now: nat, later: nat)
    requires now <= later
    ensures var p := Periods(c, last, now);
            Periods(c, last, later) == p + Periods(c, last + Span(c, p), later)
  {
    var e, i, p := SatSub(now, last), Interval(c), Periods(c, last, now);
    assert e == p * i + e % i;
    assert SatSub(later, last + p * i) == SatSub(later, last) - p * i;
    DivShift(SatSub(later, last), p, i);
  }

  lemma RefilledAdds(c: Config, b: Bucket, p: nat, q: nat)
    requires InCapacity(c, b)
    ensures Refilled(c, Refilled(c, b, p), q) == Refilled(c, b, p + q)
  {
    PaidAdds(c, p, q);
  }

  /** Refilling in two steps is refilling in one. */
  lemma RefillTwice(c: Config, b: Bucket, now: nat, later: nat)
    requires InCapacity(c, b) && now <= later
    ensures Refill(c, Refill(c, b, now), later) == Refill(c, b, later)
  {
    var p, n := Periods(c, b.lastRefill, now), Refill(c, b, now);
    RefillShape(c, b, now);
    RefillShape(c, b, later);
    RefillShape(c, n, later);
    PeriodsSplit(c, b.lastRefill, now, later);
    RefilledAdds(c, b, p, Periods(c, n.lastRefill, later));
  }

  /** The bucket bound, from any moment of a bucket's life on: what is granted and what is left
      never exceed what was there and the refills of the whole periods since. The events may
      come in any order, as long as none is later than the end. */
  lemma {:induction false} GrantsAreBounded(c: Config, b: Bucket, events: seq<Event>, end: nat)
    requires InCapacity(c, b) && forall i :: 0 <= i < |events| ==> events[i].at <= end
    ensures Granted(c, b, events) + After(c, b, events).tokens <= b.tokens + Paid(c, Periods(c, b.lastRefill, end))
    decreases |events|
  {
    if events != [] {
      var now, n := events[0].at, Next(c, b, events[0]);
      var p := Periods(c, b.lastRefill, now);
      RefillShape(c, b, now);
      PeriodsSplit(c, b.lastRefill, now, end);
      GrantsAreBounded(c, n, events[1..], end);
      PaidAdds(c, p, Periods(c, n.lastRefill, end));
    }
  }

  /** From its creation on, a bucket grants at most its initial tokens and its refills. */
  lemma GrantsSinceCreation(c: Config, created: nat, events: seq<Event>, end: nat)
    requires c.initialTokens <= U64_MAX && forall i :: 0 <= i < |events| ==> events[i].at <= end
    ensures Granted(c, Fresh(c, created), events) <= c.initialTokens + Paid(c, SatSub(end, created) / Interval(c))
  {
    GrantsAreBounded(c, Fresh(c, created), events, end);
  }

  // ---------------------------------------------------------------------------
  // Queries do not matter
  // ---------------------------------------------------------------------------

  function Answers(c: Config, b: Bucket, events: seq<Event>): seq<bool>
    decreases |events|
  {
    if events == [] then []
    else (if events[0].Consume? then [Allowed(c, b, events[0])] else []) + Answers(c, Next(c, b, events[0]), events[1..])
  }

  function Submissions(events: seq<Event>): (r: seq<Event>)
    ensures forall i :: 0 <= i < |r| ==> r[i] in events
  {
    if events == [] then []
    else if events[0].Consume? then [events[0]] + Submissions(events[1..]) else Submissions(events[1..])
  }

  predicate InOrder(events: seq<Event>) { forall i, j :: 0 <= i < j < |events| ==> events[i].at <= events[j].at }

  /** An early refill is not noticed later. */
  lemma EarlyRefill(c: Config, b: Bucket, now: nat, events: seq<Event>)
    requires InCapacity(c, b) && forall i :: 0 <= i < |events| ==> now <= events[i].at
    ensures Answers(c, Refill(c, b, now), events) == Answers(c, b, events)
  {
    if events != [] {
      RefillTwice(c, b, now, events[0].at);
    }
  }

  /** Over a run in the order of time, the answers to submissions are what they would be
      without any query of the remaining tokens. */
  lemma {:induction false} QueriesDoNotMatter(c: Config, b: Bucket, events: seq<Event>)
    requires InCapacity(c, b) && InOrder(events)
    ensures Answers(c, b, events) == Answers(c, b, Submissions(events))
    decreases |events|
  {
    if events != [] {
      var n := Next(c, b, events[0]);
      RefillShape(c, b, events[0].at);
      QueriesDoNotMatter(c, n, events[1..]);
      if events[0].Query? {
        forall i | 0 <= i < |Submissions(events[1..])| ensures events[0].at <= Submissions(events[1..])[i].at {
          assert Submissions(events[1..])[i] in events[1..];
        }
        EarlyRefill(c, b, events[0].at, Submissions(events[1..]));
      } else {
        assert Submissions(events)[1..] == Submissions(events[1..]);
      }
    }
  }

  // ---------------------------------------------------------------------------
  // A query that makes the bucket
  // ---------------------------------------------------------------------------

  /** The bucket after the first submission, if a query made it before, and if not. */
  function Asked(c: Config, queried: nat, now: nat): Bucket { Next(c, Next(c, Fresh(c, queried), Query(queried)), Consume(now)) }

  function Unasked(c: Config, now: nat): Bucket { Next(c, Fresh(c, now), Consume(now)) }

  /** How far into a refill interval of the earlier bucket the first submission comes. */
  function Phase(c: Config, queried: nat, now: nat): (r: nat)
    requires queried <= now
    ensures r <= now - queried && r < Interval(c)
  {
    (now - queried) % Interval(c)
  }

  /** A query that makes the bucket changes nothing but the phase of its refills. */
  lemma CreatingQuery(c: Config, queried: nat, now: nat)
    requires c.initialTokens <= U64_MAX && queried <= now
    ensures Asked(c, queried, now) == Unasked(c, now).(lastRefill := now - Phase(c, queried, now))
    ensures Unasked(c, now) == Bucket(SatSub(c.initialTokens, 1), now, now)
  {
    var b, i := Fresh(c, queried), Interval(c);
    RefillShape(c, b, now);
    RefillShape(c, Fresh(c, now), now);
    RefillTwice(c, b, queried, now);
    DivModUnique(0, 0, 0, i);
    var e: nat := now - queried;
    assert e == (e / i) * i + e % i;
  }

  predicate Later(now: nat, events: seq<Event>) {
    InOrder(events) && forall i :: 0 <= i < |events| ==> now <= events[i].at
  }

  /** Where refills bring nothing, only the tokens matter. */
  lemma {:induction false} NothingToRefill(c: Config, b: Bucket, d: Bucket, events: seq<Event>)
    requires InCapacity(c, b) && InCapacity(c, d) && b.tokens == d.tokens && (c.refillRate == 0 || c.initialTokens == 0)
    ensures Answers(c, b, events) == Answers(c, d, events)
    decreases |events|
  {
    if events != [] {
      RefillShape(c, b, events[0].at);
      RefillShape(c, d, events[0].at);
      assert Paid(c, Periods(c, b.lastRefill, events[0].at)) == 0 || c.initialTokens == 0;
      NothingToRefill(c, Next(c, b, events[0]), Next(c, d, events[0]), events[1..]);
    }
  }

  lemma NoRefillYet(c: Config, b: Bucket, now: nat)
    requires now < b.lastRefill + Interval(c)
    ensures Refill(c, b, now) == b
  {
  }

  lemma OneRefill(c: Config, b: Bucket)
    requires InCapacity(c, b) && c.refillRate > 0 && c.initialTokens > 0
    ensures Refill(c, b, b.lastRefill + Interval(c)).tokens > 0
  {
    RefillShape(c, b, b.lastRefill + Interval(c));
    DivModUnique(Interval(c), 1, 0, Interval(c));
  }

  /** Spend what is left, then come when only the bucket whose clock is behind has been refilled. */
  lemma {:induction false} EarlierClockShows(c: Config, b: Bucket, d: Bucket, now: nat) returns (events: seq<Event>)
    requires InCapacity(c, b) && b.tokens == d.tokens && c.refillRate > 0 && c.initialTokens > 0
    requires b.lastRefill < d.lastRefill == now < b.lastRefill + Interval(c)
    ensures Later(now, events) && Answers(c, b, events) != Answers(c, d, events)
    decreases b.tokens
  {
    if b.tokens == 0 {
      var at := b.lastRefill + Interval(c);
      events := [Consume(at)];
      OneRefill(c, b);
      NoRefillYet(c, d, at);
      assert Answers(c, b, events)[0] != Answers(c, d, events)[0];
    } else {
      NoRefillYet(c, b, now);
      NoRefillYet(c, d, now);
      var e := Consume(now);
      var rest := EarlierClockShows(c, Next(c, b, e), Next(c, d, e), now);
      events := [e] + rest;
      assert events[1..] == rest;
      assert Answers(c, b, events)[1..] == Answers(c, Next(c, b, e), rest);
      assert Answers(c, d, events)[1..] == Answers(c, Next(c, d, e), rest);
    }
  }

  /** Such a query changes some later answer if and only if the first submission does not come a
      whole number of intervals after it, and refills bring something. */
  lemma CreatingQueryShowsExactly(c: Config, queried: nat, now: nat)
    requires c.initialTokens <= U64_MAX && queried <= now
    ensures (forall events :: Later(now, events) ==>
               Answers(c, Asked(c, queried, now), events) == Answers(c, Unasked(c, now), events))
            <==> Phase(c, queried, now) == 0 || c.refillRate == 0 || c.initialTokens == 0
  {
    CreatingQuery(c, queried, now);
    var b, d := Asked(c, queried, now), Unasked(c, now);
    if c.refillRate == 0 || c.initialTokens == 0 {
      forall events ensures Answers(c, b, events) == Answers(c, d, events) {
        NothingToRefill(c, b, d, events);
      }
    } else if Phase(c, queried, now) > 0 {
      var events := EarlierClockShows(c, b, d, now);
    }
  }

  // ---------------------------------------------------------------------------
  // One address over the life of the limiter
  // ---------------------------------------------------------------------------

  /** What happens to one address, with collections at any time. */
  datatype Visit = Ask(event: Event) | Collect(at: nat)

  function Time(v: Visit): nat { if v.Ask? then v.event.at else v.at }

  /** The bucket, if there is one. */
  type Place = Option<Bucket>

  function BucketFor(c: Config, p: Place, now: nat): Bucket { if p.Some? then p.value else Fresh(c, now) }

  predicate Collected(c: Config, p: Place, now: nat) { p.Some? && SatSub(now, p.value.lastUsed) >= c.gcAfter }

  function Visited(c: Config, p: Place, v: Visit): Place {
    match v
    case Ask(e) => Some(Next(c, BucketFor(c, p, e.at), e))
    case Collect(now) => if Collected(c, p, now) then None else p
  }

  /** The life of a bucket: it is made full, a submission takes one token if there is one, and a
      collection removes it exactly when the last submission is `gcAfter` or longer ago. Queries
      do not prolong it. */
  lemma BucketLife(c: Config, now: nat, queried: nat, later: nat)
    requires c.initialTokens <= U64_MAX && now <= queried <= later
    ensures var first := Visited(c, None, Ask(Consume(now)));
            && first == Some(Bucket(SatSub(c.initialTokens, 1), now, now))
            && (Allowed(c, Fresh(c, now), Consume(now)) <==> c.initialTokens > 0)
            && (Visited(c, first, Collect(later)) == None <==> later >= now + c.gcAfter)
            && (Visited(c, Visited(c, first, Ask(Query(queried))), Collect(later)) == None <==> later >= now + c.gcAfter)
  {
    NoRefillYet(c, Fresh(c, now), now);
  }

  function AllGranted(c: Config, p: Place, visits: seq<Visit>): nat
    decreases |visits|
  {
    if visits == [] then 0
    else
      var v := visits[0];
      (if v.Ask? && Allowed(c, BucketFor(c, p, v.event.at), v.event) then 1 else 0) + AllGranted(c, Visited(c, p, v), visits[1..])
  }

  predicate InTime(from: nat, visits: seq<Visit>, end: nat) {
    && (forall i :: 0 <= i < |visits| ==> from <= Time(visits[i]) <= end)
    && (forall i, j :: 0 <= i < j < |visits| ==> Time(visits[i]) <= Time(visits[j]))
  }

  /** Whole intervals between two times. */
  function Since(c: Config, from: nat, now: nat): nat { SatSub(now, from) / Interval(c) }

  lemma SinceGrows(c: Config, from: nat, now: nat, later: nat)
    requires from <= now <= later
    ensures Paid(c, Since(c, from, now)) <= Paid(c, Since(c, from, later))
    ensures Since(c, from, later) >= Since(c, from, now) + (later - now) / Interval(c)
  {
    var i, p, q := Interval(c), Since(c, from, now), (later - now) / Interval(c);
    assert now - from == p * i + (now - from) % i && later - now == q * i + (later - now) % i;
    assert i * (p + q) == p * i + q * i;
    DivAtLeast(later - from, i, p + q);
    PaidGrows(c, p, Since(c, from, later));
  }

  lemma SinceShift(c: Config, from: nat, last: nat, periods: nat)
    requires from <= last
    ensures Since(c, from, last + Span(c, periods)) == Since(c, from, last) + periods
  {
    var i := Interval(c);
    assert last + Span(c, periods) - from - periods * i == last - from;
    DivShift(last + Span(c, periods) - from, periods, i);
  }

  /** A bucket left alone until it can be collected is full again. */
  predicate RefillsInTime(c: Config) { Paid(c, c.gcAfter / Interval(c)) >= c.initialTokens }

  /** What has been granted so far is covered, with the tokens still there, by one filling and
      the refills since the start; without a bucket, by the refills alone. */
  ghost predicate Covered(c: Config, start: nat, granted: nat, p: Place, now: nat) {
    && start <= now
    && match p
       case None => granted <= Paid(c, Since(c, start, now))
       case Some(b) =>
         && InCapacity(c, b) && start <= b.lastRefill <= now && start <= b.lastUsed <= now
         && granted + b.tokens <= c.initialTokens + Paid(c, Since(c, start, b.lastRefill))
         && granted <= c.initialTokens + Paid(c, Since(c, start, b.lastUsed))
  }

  lemma FreshCovered(c: Config, start: nat, granted: nat, p: Place, now: nat, later: nat)
    requires c.initialTokens <= U64_MAX && Covered(c, start, granted, p, now) && now <= later
    ensures Covered(c, start, granted, Some(BucketFor(c, p, later)), later)
  {
    if p.None? {
      SinceGrows(c, start, now, later);
    }
  }

  lemma RefillCovered(c: Config, start: nat, granted: nat, b: Bucket, now: nat)
    requires Covered(c, start, granted, Some(b), now)
    ensures Covered(c, start, granted, Some(Refill(c, b, now)), now)
  {
    var p := Periods(c, b.lastRefill, now);
    RefillShape(c, b, now);
    SinceShift(c, start, b.lastRefill, p);
    PaidAdds(c, Since(c, start, b.lastRefill), p);
    var e, i := now - b.lastRefill, Interval(c);
    assert e == (e / i) * i + e % i;
  }

  lemma AskCovered(c: Config, start: nat, granted: nat, b: Bucket, e: Event)
    requires Covered(c, start, granted, Some(b), e.at)
    ensures Covered(c, start, granted + if Allowed(c, b, e) then 1 else 0, Some(Next(c, b, e)), e.at)
  {
    RefillCovered(c, start, granted, b, e.at);
    SinceGrows(c, start, Refill(c, b, e.at).lastRefill, e.at);
  }

  lemma PaidGrows(c: Config, p: nat, q: nat)
    requires p <= q
    ensures Paid(c, p) <= Paid(c, q)
  {
    MulBound(p, c.refillRate, q, c.refillRate);
  }

  /** The refills of the time a bucket was left alone pay for a full one. */
  lemma IdlePays(c: Config, start: nat, used: nat, later: nat)
    requires RefillsInTime(c) && start <= used && used + c.gcAfter <= later
    ensures c.initialTokens + Paid(c, Since(c, start, used)) <= Paid(c, Since(c, start, later))
  {
    var p, q := Since(c, start, used), c.gcAfter / Interval(c);
    SinceGrows(c, start, used, used + c.gcAfter);
    SinceGrows(c, start, used + c.gcAfter, later);
    PaidAdds(c, p, q);
    PaidGrows(c, p + q, Since(c, start, used + c.gcAfter));
  }

  lemma CollectCovered(c: Config, start: nat, granted: nat, p: Place, now: nat, later: nat)
    requires RefillsInTime(c) && Covered(c, start, granted, p, now) && now <= later
    ensures Covered(c, start, granted, Visited(c, p, Collect(later)), later)
  {
    if p.None? {
      SinceGrows(c, start, now, later);
    } else if Collected(c, p, later) {
      IdlePays(c, start, p.value.lastUsed, later);
    }
  }

  lemma {:induction false} VisitsCovered(c: Config, start: nat, granted: nat, p: Place, now: nat, visits: seq<Visit>, end: nat)
    requires c.initialTokens <= U64_MAX && RefillsInTime(c)
    requires Covered(c, start, granted, p, now) && now <= end && InTime(now, visits, end)
    ensures granted + AllGranted(c, p, visits) <= c.initialTokens + Paid(c, Since(c, start, end))
    decreases |visits|
  {
    if visits == [] {
      SinceGrows(c, start, now, end);
      if p.Some? {
        SinceGrows(c, start, p.value.lastUsed, end);
      }
    } else {
      var v := visits[0];
      match v {
        case Ask(e) =>
          FreshCovered(c, start, granted, p, now, e.at);
          AskCovered(c, start, granted, BucketFor(c, p, e.at), e);
          VisitsCovered(c, start, granted + if Allowed(c, BucketFor(c, p, e.at), e) then 1 else 0, Visited(c, p, v), e.at, visits[1..], end);
        case Collect(at) =>
          CollectCovered(c, start, granted, p, now, at);
          VisitsCovered(c, start, granted, Visited(c, p, v), at, visits[1..], end);
      }
    }
  }

  // The condition is needed.

  function Burst(k: nat, now: nat): (r: seq<Visit>)
    ensures |r| == k && forall i :: 0 <= i < k ==> r[i] == Ask(Consume(now))
  {
    if k == 0 then [] else [Ask(Consume(now))] + Burst(k - 1, now)
  }

  /** A submission to a bucket with tokens and nothing to refill takes one. */
  lemma ConsumeNow(c: Config, p: Place, now: nat)
    requires var b := BucketFor(c, p, now); b.tokens > 0 && b.lastRefill == now
    ensures var b := BucketFor(c, p, now);
            && Allowed(c, b, Consume(now))
            && Visited(c, p, Ask(Consume(now))) == Some(Bucket(b.tokens - 1, now, now))
  {
    NoRefillYet(c, BucketFor(c, p, now), now);
  }

  lemma {:induction false} BurstGranted(c: Config, p: Place, k: nat, now: nat, rest: seq<Visit>)
    requires var b := BucketFor(c, p, now); b.tokens >= k && b.lastRefill == now
    ensures AllGranted(c, p, Burst(k, now) + rest) ==
            k + AllGranted(c, if k == 0 then p else Some(Bucket(BucketFor(c, p, now).tokens - k, now, now)), rest)
    decreases k
  {
    if k == 0 {
      assert Burst(k, now) + rest == rest;
    } else {
      var visits := Burst(k, now) + rest;
      assert visits[0] == Ask(Consume(now)) && visits[1..] == Burst(k - 1, now) + rest;
      ConsumeNow(c, p, now);
      BurstGranted(c, Some(Bucket(BucketFor(c, p, now).tokens - 1, now, now)), k - 1, now, rest);
    }
  }

  /** Spend everything, wait until the bucket is collected, and spend everything again. */
  function TwoBursts(c: Config): seq<Visit> {
    Burst(c.initialTokens, 0) + ([Collect(c.gcAfter)] + Burst(c.initialTokens, c.gcAfter))
  }

  lemma TwoBurstsGranted(c: Config)
    requires c.initialTokens > 0
    ensures AllGranted(c, None, TwoBursts(c)) == 2 * c.initialTokens && InTime(0, TwoBursts(c), c.gcAfter)
  {
    var n, second := c.initialTokens, Burst(c.initialTokens, c.gcAfter);
    var rest := [Collect(c.gcAfter)] + second;
    BurstGranted(c, None, n, 0, rest);
    assert rest[0] == Collect(c.gcAfter) && rest[1..] == second + [];
    BurstGranted(c, None, n, c.gcAfter, []);
    assert second + [] == second;
  }

  /** Whatever is asked, queried and collected, in the order of time: all grants together are
      bounded by one filling and the refills since the start. */
  ghost predicate Bounded(c: Config) {
    forall start: nat, visits, end: nat :: start <= end && InTime(start, visits, end) ==>
      AllGranted(c, None, visits) <= c.initialTokens + Paid(c, Since(c, start, end))
  }

  /** The bound on grants survives the collection of buckets if and only if a bucket that is
      left alone for as long as that is full again. */
  lemma CollectionIsHarmlessExactly(c: Config)
    requires c.initialTokens <= U64_MAX
    ensures Bounded(c) <==> RefillsInTime(c)
  {
    if RefillsInTime(c) {
      forall start: nat, visits, end: nat | start <= end && InTime(start, visits, end)
        ensures AllGranted(c, None, visits) <= c.initialTokens + Paid(c, Since(c, start, end))
      {
        VisitsCovered(c, start, 0, None, start, visits, end);
      }
    } else {
      TwoBurstsGranted(c);
    }
  }
}
