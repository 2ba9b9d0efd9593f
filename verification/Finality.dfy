/** The attestation store: four maps that must tell one story, and the finalized block. */
module Finality {
  import opened Common
  import opened Weights

  const MAX_PENDING_ATTESTATION_BLOCKS: nat := 512

  datatype Attestation = Attestation(
    chainId: nat,
    parentHash: Hash,
    blockHash: Hash,
    blockNumber: nat,
    validator: Address,
    round: nat,
    signature: seq<nat>)

  datatype Store = Store(
    finalizedNumber: nat,
    finalizedHash: Hash,
    voters: map<Hash, set<Address>>,
    weight: map<Hash, nat>,
    attestations: map<Hash, seq<Attestation>>,
    firstAt: map<(nat, Address), Hash>)

  predicate SameTarget(a: Attestation, b: Attestation) {
    a.chainId == b.chainId && a.parentHash == b.parentHash && a.blockNumber == b.blockNumber && a.round == b.round
  }

  // ---------------------------------------------------------------------------
  // What each operation does, as a function
  // ---------------------------------------------------------------------------

  predicate Accepts(s: Store, a: Attestation, weight: nat) {
    && weight != 0 && a.blockNumber > s.finalizedNumber
    && (a.blockHash in s.attestations && s.attestations[a.blockHash] != [] ==> SameTarget(s.attestations[a.blockHash][0], a))
    && (a.blockHash in s.voters || |s.voters| < MAX_PENDING_ATTESTATION_BLOCKS)
    && !(a.blockHash in s.voters && a.validator in s.voters[a.blockHash])
  }

  function VotersAt(s: Store, h: Hash): set<Address> { if h in s.voters then s.voters[h] else {} }

  function AttestedWeight(s: Store, h: Hash): nat { if h in s.weight then s.weight[h] else 0 }

  function AttestationsAt(s: Store, h: Hash): seq<Attestation> { if h in s.attestations then s.attestations[h] else [] }

  /** `record_attestation_weighted` */
  function Recorded(s: Store, a: Attestation, weight: nat): (Store, bool) {
    if !Accepts(s, a, weight) then (s, false)
    else
      var h, key := a.blockHash, (a.blockNumber, a.validator);
      (s.(voters := s.voters[h := VotersAt(s, h) + {a.validator}],
          weight := s.weight[h := if h in s.weight then SatAdd(s.weight[h], weight) else weight],
          attestations := s.attestations[h := AttestationsAt(s, h) + [a]],
          firstAt := if key in s.firstAt then s.firstAt else s.firstAt[key := h]), true)
  }

  function Stale(s: Store, number: nat): set<Hash> {
    set h | h in s.attestations && s.attestations[h] != [] && s.attestations[h][0].blockNumber <= number
  }

  /** `set_finalized_direct`, which also does the work of `check_finality_weighted`. */
  function Finalized(s: Store, number: nat, hash: Hash): (Store, bool) {
    if number <= s.finalizedNumber then (s, false)
    else
      var gone := Stale(s, number);
      (s.(finalizedNumber := number, finalizedHash := hash,
          voters := s.voters - gone, weight := s.weight - gone, attestations := s.attestations - gone,
          firstAt := map k | k in s.firstAt && k.0 > number :: s.firstAt[k]), true)
  }

  /** `can_finalize_weighted` */
  predicate CanFinalize(s: Store, h: Hash, number: nat, total: nat) {
    && AttestationsAt(s, h) != [] && AttestationsAt(s, h)[0].blockNumber == number
    && AttestedWeight(s, h) >= StrictQuorum(total) && total > 0
    && number > s.finalizedNumber
  }

  /** `check_finality_weighted` */
  function Checked(s: Store, h: Hash, number: nat, total: nat): (Store, bool) {
    if CanFinalize(s, h, number, total) then Finalized(s, number, h) else (s, false)
  }

  /** `detect_equivocation` */
  function Detect(s: Store, h: Hash, number: nat, validator: Address): Option<Hash> {
    if (number, validator) in s.firstAt && s.firstAt[(number, validator)] != h then Some(s.firstAt[(number, validator)]) else None
  }

  class FinalityState {
    var finalizedNumber: nat
    var finalizedHash: Hash
    var voters: map<Hash, set<Address>>
    var weight: map<Hash, nat>
    var attestations: map<Hash, seq<Attestation>>
    var firstAt: map<(nat, Address), Hash>

    function Contents(): Store
      reads this
    {
      Store(finalizedNumber, finalizedHash, voters, weight, attestations, firstAt)
    }

    constructor (number: nat, hash: Hash)
      ensures Contents() == Initial(number, hash)
    {
      finalizedNumber, finalizedHash := number, hash;
      voters, weight, attestations, firstAt := map[], map[], map[], map[];
    }

    method RecordAttestationWeighted(a: Attestation, attesterWeight: nat) returns (isNew: bool)
      modifies this
      ensures (Contents(), isNew) == Recorded(old(Contents()), a, attesterWeight)
    {
      var h := a.blockHash;
      if attesterWeight == 0 || a.blockNumber <= finalizedNumber {
        return false;
      }
      if h in attestations && attestations[h] != [] && !SameTarget(attestations[h][0], a) {
        return false;
      }
      if h !in voters && |voters| >= MAX_PENDING_ATTESTATION_BLOCKS {
        return false;
      }
      var known := if h in voters then voters[h] else {};
      if a.validator in known {
        return false;
      }
      voters := voters[h := known + {a.validator}];
      weight := weight[h := if h in weight then SatAdd(weight[h], attesterWeight) else attesterWeight];
      attestations := attestations[h := (if h in attestations then attestations[h] else []) + [a]];
      if (a.blockNumber, a.validator) !in firstAt {
        firstAt := firstAt[(a.blockNumber, a.validator) := h];
      }
      return true;
    }

    method PruneBelow(number: nat)
      modifies this
      ensures finalizedNumber == old(finalizedNumber) && finalizedHash == old(finalizedHash)
      ensures voters == old(voters) - Stale(old(Contents()), number)
      ensures weight == old(weight) - Stale(old(Contents()), number)
      ensures attestations == old(attestations) - Stale(old(Contents()), number)
      ensures firstAt == map k | k in old(firstAt) && k.0 > number :: old(firstAt)[k]
    {
      var gone := set h | h in attestations && attestations[h] != [] && attestations[h][0].blockNumber <= number;
      assert gone == Stale(Contents(), number);
      voters, weight, attestations := voters - gone, weight - gone, attestations - gone;
      firstAt := map k | k in firstAt && k.0 > number :: firstAt[k];
    }

    method CheckFinalityWeighted(h: Hash, number: nat, total: nat) returns (finalized: bool)
      modifies this
      ensures (Contents(), finalized) == Checked(old(Contents()), h, number, total)
    {
      if CanFinalize(Contents(), h, number, total) {
        ghost var before := Contents();
        finalizedNumber, finalizedHash := number, h;
        assert Stale(Contents(), number) == Stale(before, number);
        PruneBelow(number);
        return true;
      }
      return false;
    }

    method SetFinalizedDirect(number: nat, hash: Hash) returns (finalized: bool)
      modifies this
      ensures (Contents(), finalized) == Finalized(old(Contents()), number, hash)
    {
      if number > finalizedNumber {
        ghost var before := Contents();
        finalizedNumber, finalizedHash := number, hash;
        assert Stale(Contents(), number) == Stale(before, number);
        PruneBelow(number);
        return true;
      }
      return false;
    }
  }

  // ---------------------------------------------------------------------------
  // The log that the four maps refine
  // ---------------------------------------------------------------------------

  function Initial(number: nat, hash: Hash): Store {
    Store(number, hash, map[], map[], map[], map[])
  }

  datatype Entry = Entry(att: Attestation, weight: nat)

  /** The attestations of one block, in the order they were accepted. */
  function Of(log: seq<Entry>, h: Hash): seq<Attestation> {
    if log == [] then []
    else
      var last := log[|log| - 1].att;
      Of(log[..|log| - 1], h) + if last.blockHash == h then [last] else []
  }

  function Validators(atts: seq<Attestation>): set<Address> {
    set i | 0 <= i < |atts| :: atts[i].validator
  }

  function WeightIn(log: seq<Entry>, h: Hash): nat {
    if log == [] then 0
    else
      var last, rest := log[|log| - 1], WeightIn(log[..|log| - 1], h);
      if last.att.blockHash == h then SatAdd(rest, last.weight) else rest
  }

  /** The first block a validator attested at a height. */
  function First(log: seq<Entry>, number: nat, validator: Address): Option<Hash> {
    if log == [] then None
    else
      var before, last := First(log[..|log| - 1], number, validator), log[|log| - 1].att;
      if before.Some? then before
      else if last.blockNumber == number && last.validator == validator then Some(last.blockHash)
      else None
  }

  lemma Appended(log: seq<Entry>, e: Entry, h: Hash, n: nat, v: Address)
    ensures Of(log + [e], h) == if e.att.blockHash == h then Of(log, h) + [e.att] else Of(log, h)
    ensures WeightIn(log + [e], h) == if e.att.blockHash == h then SatAdd(WeightIn(log, h), e.weight) else WeightIn(log, h)
    ensures First(log + [e], n, v) ==
            if First(log, n, v).Some? then First(log, n, v)
            else if e.att.blockNumber == n && e.att.validator == v then Some(e.att.blockHash) else None
  {
    assert (log + [e])[..|log|] == log;
  }

  ghost predicate OneTarget(atts: seq<Attestation>) {
    forall i :: 0 <= i < |atts| ==> SameTarget(atts[0], atts[i])
  }

  ghost predicate DistinctVoters(atts: seq<Attestation>) {
    forall i, j :: 0 <= i < j < |atts| ==> atts[i].validator != atts[j].validator
  }

  ghost predicate Blocks(log: seq<Entry>, s: Store, h: Hash) {
    && (h in s.attestations <==> Of(log, h) != []) && (h in s.voters <==> Of(log, h) != []) && (h in s.weight <==> Of(log, h) != [])
    && AttestationsAt(s, h) == Of(log, h) && VotersAt(s, h) == Validators(Of(log, h))
    && AttestedWeight(s, h) == WeightIn(log, h)
    && DistinctVoters(Of(log, h)) && OneTarget(Of(log, h))
  }

  /** The maps hold exactly the log: same blocks, the attestations of each in order, distinct
      validators, saturating sum of weights, one target per hash, the first block of every
      validator at every height, nothing at or below the finalized height, at most 512 blocks. */
  ghost predicate Refines(log: seq<Entry>, s: Store) {
    && (forall h :: Blocks(log, s, h))
    && (forall n: nat, v: Address :: ((n, v) in s.firstAt <==> First(log, n, v).Some?)
                       && ((n, v) in s.firstAt ==> First(log, n, v) == Some(s.firstAt[(n, v)])))
    && (forall e :: e in log ==> e.att.blockNumber > s.finalizedNumber)
    && |s.attestations| <= MAX_PENDING_ATTESTATION_BLOCKS
  }

  lemma OfMember(log: seq<Entry>, h: Hash, i: nat)
    requires i < |Of(log, h)|
    ensures Of(log, h)[i].blockHash == h
    ensures exists e :: e in log && e.att == Of(log, h)[i]
  {
    var rest := log[..|log| - 1];
    if i < |Of(rest, h)| {
      OfMember(rest, h, i);
      var e :| e in rest && e.att == Of(rest, h)[i];
      assert e in log;
    } else {
      assert log[|log| - 1] in log;
    }
  }

  lemma {:induction false} MemberOf(log: seq<Entry>, e: Entry)
    requires e in log
    ensures e.att in Of(log, e.att.blockHash)
  {
    var rest := log[..|log| - 1];
    assert log == rest + [log[|log| - 1]];
    if e in rest {
      MemberOf(rest, e);
    }
  }

  lemma ValidatorsExtend(atts: seq<Attestation>, a: Attestation)
    ensures Validators(atts + [a]) == Validators(atts) + {a.validator}
  {
    var all := atts + [a];
    assert all[|atts|] == a;
    forall i | 0 <= i < |atts| ensures atts[i].validator in Validators(all) {
      assert all[i] == atts[i];
    }
  }

  lemma ExtendOk(atts: seq<Attestation>, a: Attestation)
    requires DistinctVoters(atts) && OneTarget(atts) && a.validator !in Validators(atts)
    requires atts != [] ==> SameTarget(atts[0], a)
    ensures DistinctVoters(atts + [a]) && OneTarget(atts + [a])
  {
    assert forall i :: 0 <= i < |atts| ==> atts[i].validator in Validators(atts);
  }

  lemma RecordedBlocks(log: seq<Entry>, s: Store, e: Entry, h: Hash)
    requires Blocks(log, s, h) && Accepts(s, e.att, e.weight) && e.weight <= U64_MAX
    ensures Blocks(log + [e], Recorded(s, e.att, e.weight).0, h)
  {
    Appended(log, e, h, 0, 0);
    if e.att.blockHash == h {
      ValidatorsExtend(Of(log, h), e.att);
      ExtendOk(Of(log, h), e.att);
      if Of(log, h) == [] {
        NoWeight(log, h);
      }
    }
  }

  lemma RecordedRefines(log: seq<Entry>, s: Store, e: Entry)
    requires Refines(log, s) && Accepts(s, e.att, e.weight) && e.weight <= U64_MAX
    ensures Refines(log + [e], Recorded(s, e.att, e.weight).0)
  {
    var s' := Recorded(s, e.att, e.weight).0;
    assert |s'.attestations| <= MAX_PENDING_ATTESTATION_BLOCKS by { RecordedSize(log, s, e); }
    forall h ensures Blocks(log + [e], s', h) {
      assert Blocks(log, s, h);
      RecordedBlocks(log, s, e, h);
    }
    forall n: nat, v: Address
      ensures ((n, v) in s'.firstAt <==> First(log + [e], n, v).Some?)
              && ((n, v) in s'.firstAt ==> First(log + [e], n, v) == Some(s'.firstAt[(n, v)]))
    {
      Appended(log, e, 0, n, v);
    }
  }

  lemma RecordedSize(log: seq<Entry>, s: Store, e: Entry)
    requires Refines(log, s) && Accepts(s, e.att, e.weight)
    ensures |Recorded(s, e.att, e.weight).0.attestations| <= MAX_PENDING_ATTESTATION_BLOCKS
  {
    var s', h := Recorded(s, e.att, e.weight).0, e.att.blockHash;
    assert s.voters.Keys == s.attestations.Keys by {
      forall k ensures k in s.voters <==> k in s.attestations { assert Blocks(log, s, k); }
    }
    assert |s.voters| == |s.voters.Keys| && |s.attestations| == |s.attestations.Keys|;
    assert s'.attestations.Keys == s.attestations.Keys + {h};
    assert |s'.attestations| == |s'.attestations.Keys|;
    if h in s.attestations {
      assert s'.attestations.Keys == s.attestations.Keys;
    }
  }

  // ---------------------------------------------------------------------------
  // Pruning keeps the part of the log above the new finalized height
  // ---------------------------------------------------------------------------

  function Keep(log: seq<Entry>, number: nat): seq<Entry> {
    if log == [] then []
    else
      var last := log[|log| - 1];
      if last.att.blockNumber > number then Keep(log[..|log| - 1], number) + [last] else Keep(log[..|log| - 1], number)
  }

  ghost predicate AllKept(log: seq<Entry>, number: nat, h: Hash, keep: bool) {
    forall e :: e in log && e.att.blockHash == h ==> (e.att.blockNumber > number <==> keep)
  }

  lemma {:induction false} KeepEntries(log: seq<Entry>, number: nat, h: Hash, keep: bool)
    requires AllKept(log, number, h, keep)
    ensures Of(Keep(log, number), h) == if keep then Of(log, h) else []
    ensures WeightIn(Keep(log, number), h) == if keep then WeightIn(log, h) else 0
  {
    if log != [] {
      var rest, last := log[..|log| - 1], log[|log| - 1];
      assert last in log && forall e :: e in rest ==> e in log;
      KeepEntries(rest, number, h, keep);
      if last.att.blockNumber > number {
        Appended(Keep(rest, number), last, h, 0, 0);
      }
    }
  }

  lemma KeepOf(log: seq<Entry>, number: nat, h: Hash, keep: bool)
    requires forall a :: a in Of(log, h) ==> (a.blockNumber > number <==> keep)
    ensures Of(Keep(log, number), h) == if keep then Of(log, h) else []
    ensures WeightIn(Keep(log, number), h) == if keep then WeightIn(log, h) else 0
  {
    forall e | e in log && e.att.blockHash == h ensures e.att.blockNumber > number <==> keep {
      MemberOf(log, e);
    }
    KeepEntries(log, number, h, keep);
  }

  lemma {:induction false} KeepFirst(log: seq<Entry>, number: nat, n: nat, v: Address)
    ensures First(Keep(log, number), n, v) == if n > number then First(log, n, v) else None
  {
    if log != [] {
      var rest, last := log[..|log| - 1], log[|log| - 1];
      KeepFirst(rest, number, n, v);
      Appended(Keep(rest, number), last, 0, n, v);
    }
  }

  lemma {:induction false} KeepMembers(log: seq<Entry>, number: nat)
    ensures forall e :: e in Keep(log, number) ==> e in log && e.att.blockNumber > number
  {
    if log != [] {
      KeepMembers(log[..|log| - 1], number);
    }
  }

  lemma FinalizedBlocks(log: seq<Entry>, s: Store, number: nat, hash: Hash, h: Hash)
    requires Blocks(log, s, h) && number > s.finalizedNumber
    ensures Blocks(Keep(log, number), Finalized(s, number, hash).0, h)
  {
    var keep := Of(log, h) != [] && Of(log, h)[0].blockNumber > number;
    KeepOf(log, number, h, keep);
    if Of(log, h) == [] {
      NoWeight(log, h);
    }
    assert h in Stale(s, number) <==> Of(log, h) != [] && !keep;
  }

  lemma {:induction false} NoWeight(log: seq<Entry>, h: Hash)
    requires Of(log, h) == []
    ensures WeightIn(log, h) == 0
  {
    if log != [] {
      NoWeight(log[..|log| - 1], h);
    }
  }

  lemma FinalizedRefines(log: seq<Entry>, s: Store, number: nat, hash: Hash)
    requires Refines(log, s) && number > s.finalizedNumber
    ensures Refines(Keep(log, number), Finalized(s, number, hash).0)
  {
    var s' := Finalized(s, number, hash).0;
    forall h ensures Blocks(Keep(log, number), s', h) {
      assert Blocks(log, s, h);
      FinalizedBlocks(log, s, number, hash, h);
    }
    forall n: nat, v: Address ensures First(Keep(log, number), n, v) == if n > number then First(log, n, v) else None {
      KeepFirst(log, number, n, v);
    }
    KeepMembers(log, number);
    SubsetCardinality(s'.attestations.Keys, s.attestations.Keys);
    assert |s'.attestations| == |s'.attestations.Keys| && |s.attestations| == |s.attestations.Keys|;
  }

  // ---------------------------------------------------------------------------
  // Every run
  // ---------------------------------------------------------------------------

  datatype Op =
    | Record(att: Attestation, weight: nat)
    | Check(h: Hash, number: nat, total: nat)
    | SetDirect(number: nat, h: Hash)

  function Apply(s: Store, op: Op): (Store, bool) {
    match op
    case Record(att, weight) => Recorded(s, att, weight)
    case Check(h, number, total) => Checked(s, h, number, total)
    case SetDirect(number, h) => Finalized(s, number, h)
  }

  function LogAfter(log: seq<Entry>, s: Store, op: Op): seq<Entry> {
    if !Apply(s, op).1 then log
    else if op.Record? then log + [Entry(op.att, op.weight)]
    else Keep(log, op.number)
  }

  function Run(s: Store, ops: seq<Op>): Store {
    if ops == [] then s else Apply(Run(s, ops[..|ops| - 1]), ops[|ops| - 1]).0
  }

  /** The accepted attestations above the finalized height, in order. */
  function RunLog(s: Store, ops: seq<Op>): seq<Entry> {
    if ops == [] then []
    else LogAfter(RunLog(s, ops[..|ops| - 1]), Run(s, ops[..|ops| - 1]), ops[|ops| - 1])
  }

  /** After any operations from a fresh or restored state, the four maps refine the log, and
      the finalized height has only moved up. */
  lemma {:induction false} RunRefines(number: nat, hash: Hash, ops: seq<Op>)
    requires forall op :: op in ops && op.Record? ==> op.weight <= U64_MAX
    ensures Refines(RunLog(Initial(number, hash), ops), Run(Initial(number, hash), ops))
    ensures Run(Initial(number, hash), ops).finalizedNumber >= number
  {
    if ops != [] {
      var rest, op := ops[..|ops| - 1], ops[|ops| - 1];
      RunRefines(number, hash, rest);
      var s, log := Run(Initial(number, hash), rest), RunLog(Initial(number, hash), rest);
      if Apply(s, op).1 {
        if op.Record? {
          RecordedRefines(log, s, Entry(op.att, op.weight));
        } else {
          FinalizedRefines(log, s, op.number, op.h);
        }
      }
    }
  }

  function Hashes(log: seq<Entry>): set<Hash> { set e | e in log :: e.att.blockHash }

  lemma HashesAreKeys(log: seq<Entry>, s: Store)
    requires Refines(log, s)
    ensures s.voters.Keys == Hashes(log)
  {
    forall h ensures h in s.voters <==> h in Hashes(log) {
      assert Blocks(log, s, h);
      if h in s.voters {
        OfMember(log, h, 0);
      } else if h in Hashes(log) {
        var e :| e in log && e.att.blockHash == h;
        MemberOf(log, e);
      }
    }
  }

  /** Says the same about the block as an attestation in the log, and comes from someone else. */
  predicate Joins(a: Attestation, b: Attestation) {
    && a.chainId == b.chainId && a.parentHash == b.parentHash && a.blockNumber == b.blockNumber && a.round == b.round
    && a.validator != b.validator
  }

  lemma JoinsFirst(log: seq<Entry>, s: Store, a: Attestation)
    requires Refines(log, s) && AttestationsAt(s, a.blockHash) != []
    ensures SameTarget(AttestationsAt(s, a.blockHash)[0], a) && a.validator !in VotersAt(s, a.blockHash) <==>
            forall e :: e in log && e.att.blockHash == a.blockHash ==> Joins(e.att, a)
  {
    var h := a.blockHash;
    assert Blocks(log, s, h);
    var atts := Of(log, h);
    if forall e :: e in log && e.att.blockHash == h ==> Joins(e.att, a) {
      forall i | 0 <= i < |atts| ensures Joins(atts[i], a) {
        OfMember(log, h, i);
      }
    }
    if SameTarget(atts[0], a) && a.validator !in VotersAt(s, h) {
      forall e | e in log && e.att.blockHash == h ensures Joins(e.att, a) {
        MemberOf(log, e);
        var i :| 0 <= i < |atts| && atts[i] == e.att;
        assert SameTarget(atts[0], atts[i]) && atts[i].validator in Validators(atts);
      }
    }
  }

  /** An attestation is accepted exactly when it has weight, is above the finalized height, joins
      every accepted one for its block, and is for a block already pending or for one of the
      first 512. */
  lemma AcceptedExactly(log: seq<Entry>, s: Store, a: Attestation, weight: nat)
    requires Refines(log, s)
    ensures Recorded(s, a, weight).1 <==>
              && weight > 0 && a.blockNumber > s.finalizedNumber
              && (forall e :: e in log && e.att.blockHash == a.blockHash ==> Joins(e.att, a))
              && (a.blockHash in Hashes(log) || |Hashes(log)| < 512)
  {
    HashesAreKeys(log, s);
    assert |s.voters| == |s.voters.Keys|;
    assert Blocks(log, s, a.blockHash);
    if a.blockHash in Hashes(log) {
      JoinsFirst(log, s, a);
    }
  }

  /** The finalized block never moves back, and moves exactly when a call reports it. */
  lemma FinalityAdvances(s: Store, op: Op)
    ensures var (s', done) := Apply(s, op);
            && s'.finalizedNumber >= s.finalizedNumber
            && (!op.Record? && done ==> s.finalizedNumber < s'.finalizedNumber == op.number && s'.finalizedHash == op.h)
            && (op.Record? || !done ==> s'.finalizedNumber == s.finalizedNumber && s'.finalizedHash == s.finalizedHash)
  {
  }

  // ---------------------------------------------------------------------------
  // Equivocation
  // ---------------------------------------------------------------------------

  /** What a full scan of the log would find: the first other block the validator attested. */
  function Scan(log: seq<Entry>, h: Hash, number: nat, validator: Address): Option<Hash> {
    if log == [] then None
    else
      var before, last := Scan(log[..|log| - 1], h, number, validator), log[|log| - 1].att;
      if before.Some? then before
      else if last.blockNumber == number && last.validator == validator && last.blockHash != h then Some(last.blockHash)
      else None
  }

  lemma {:induction false} ScanFirst(log: seq<Entry>, h: Hash, number: nat, validator: Address)
    ensures First(log, number, validator) != Some(h) ==> Scan(log, h, number, validator) == First(log, number, validator)
    ensures First(log, number, validator) == Some(h) ==>
              exists e :: e in log && e.att.blockHash == h && e.att.blockNumber == number && e.att.validator == validator
  {
    if log != [] {
      var rest, last := log[..|log| - 1], log[|log| - 1];
      ScanFirst(rest, h, number, validator);
      if First(rest, number, validator) == Some(h) {
        var e :| e in rest && e.att.blockHash == h && e.att.blockNumber == number && e.att.validator == validator;
        assert e in log;
      } else {
        assert last in log;
      }
    }
  }

  ghost predicate AttestedOther(log: seq<Entry>, h: Hash, number: nat, validator: Address) {
    exists e :: e in log && e.att.blockNumber == number && e.att.validator == validator && e.att.blockHash != h
  }

  /** The scan is complete and sound: it finds an attestation for another block exactly when
      there is one. */
  lemma {:induction false} ScanFindsOther(log: seq<Entry>, h: Hash, number: nat, validator: Address)
    ensures Scan(log, h, number, validator).Some? <==> AttestedOther(log, h, number, validator)
  {
    if log != [] {
      var rest, last := log[..|log| - 1], log[|log| - 1];
      ScanFindsOther(rest, h, number, validator);
      assert log == rest + [last];
    }
  }

  /** The same asked of the maps. */
  predicate HoldsOther(s: Store, h: Hash, number: nat, validator: Address) {
    exists k :: k in s.voters && k != h && validator in s.voters[k]
                && AttestationsAt(s, k) != [] && AttestationsAt(s, k)[0].blockNumber == number
  }

  lemma VoterAttested(log: seq<Entry>, s: Store, k: Hash, v: Address) returns (e: Entry)
    requires Refines(log, s) && v in VotersAt(s, k)
    ensures e in log && e.att.validator == v && e.att.blockHash == k
    ensures AttestationsAt(s, k) != [] && AttestationsAt(s, k)[0].blockNumber == e.att.blockNumber
  {
    assert Blocks(log, s, k);
    var i :| 0 <= i < |Of(log, k)| && Of(log, k)[i].validator == v;
    assert SameTarget(Of(log, k)[0], Of(log, k)[i]);
    OfMember(log, k, i);
    e :| e in log && e.att == Of(log, k)[i];
  }

  lemma AttestedIsHeld(log: seq<Entry>, s: Store, e: Entry)
    requires Refines(log, s) && e in log
    ensures var k := e.att.blockHash;
            && k in s.voters && e.att.validator in s.voters[k]
            && AttestationsAt(s, k) != [] && AttestationsAt(s, k)[0].blockNumber == e.att.blockNumber
  {
    var k := e.att.blockHash;
    MemberOf(log, e);
    assert Blocks(log, s, k);
    var i :| 0 <= i < |Of(log, k)| && Of(log, k)[i] == e.att;
    assert SameTarget(Of(log, k)[0], Of(log, k)[i]);
  }

  lemma OtherIsHeld(log: seq<Entry>, s: Store, h: Hash, number: nat, validator: Address)
    requires Refines(log, s)
    ensures AttestedOther(log, h, number, validator) <==> HoldsOther(s, h, number, validator)
  {
    if AttestedOther(log, h, number, validator) {
      var e :| e in log && e.att.blockNumber == number && e.att.validator == validator && e.att.blockHash != h;
      AttestedIsHeld(log, s, e);
    }
    if k :| k in s.voters && k != h && validator in s.voters[k]
            && AttestationsAt(s, k) != [] && AttestationsAt(s, k)[0].blockNumber == number {
      var e := VoterAttested(log, s, k, validator);
    }
  }

  /** The constant-time check agrees with a full scan unless the block asked about is the
      very one the validator attested first and the maps hold its attestation of another one of
      that height. */
  lemma DetectExact(log: seq<Entry>, s: Store, h: Hash, number: nat, validator: Address)
    requires Refines(log, s)
    ensures Detect(s, h, number, validator) == Scan(log, h, number, validator)
            <==> !((number, validator) in s.firstAt && s.firstAt[(number, validator)] == h && HoldsOther(s, h, number, validator))
    ensures (number, validator) in s.firstAt && s.firstAt[(number, validator)] == h <==> First(log, number, validator) == Some(h)
    ensures HoldsOther(s, h, number, validator) <==> AttestedOther(log, h, number, validator)
  {
    ScanFirst(log, h, number, validator);
    ScanFindsOther(log, h, number, validator);
    OtherIsHeld(log, s, h, number, validator);
  }

  /** For a block the validator has not attested, the check is the full scan. */
  lemma DetectIsScan(log: seq<Entry>, s: Store, h: Hash, number: nat, validator: Address)
    requires Refines(log, s) && validator !in VotersAt(s, h)
    ensures Detect(s, h, number, validator) == Scan(log, h, number, validator)
  {
    ScanFirst(log, h, number, validator);
    assert Blocks(log, s, h);
    if First(log, number, validator) == Some(h) {
      var e :| e in log && e.att.blockHash == h && e.att.blockNumber == number && e.att.validator == validator;
      MemberOf(log, e);
    }
  }

  /** The check misses a validator that attested `h` first and another block afterwards. */
  lemma DetectMisses(a: Attestation, b: Attestation)
    requires a.validator == b.validator && a.blockNumber == b.blockNumber > 0 && a.blockHash != b.blockHash
    ensures var s := Recorded(Recorded(Initial(0, 0), a, 1).0, b, 1).0;
            Detect(s, a.blockHash, a.blockNumber, a.validator) == None
            && a.validator in VotersAt(s, a.blockHash) && a.validator in VotersAt(s, b.blockHash)
  {
  }

  // ---------------------------------------------------------------------------
  // Conflicting finality is accountable
  // ---------------------------------------------------------------------------

  /** Every accepted attestation was weighed with the validator's weight. */
  ghost predicate Weighed(log: seq<Entry>, weights: map<Address, nat>) {
    forall e :: e in log ==> e.att.validator in weights && e.weight == weights[e.att.validator]
  }

  lemma {:induction false} WeightIsSum(log: seq<Entry>, weights: map<Address, nat>, h: Hash)
    requires Weighed(log, weights) && Total(weights) <= U64_MAX && DistinctVoters(Of(log, h))
    ensures WeightIn(log, h) == SetWeight(weights, Validators(Of(log, h)))
  {
    if log != [] {
      var rest, last := log[..|log| - 1], log[|log| - 1];
      assert log == rest + [last];
      Appended(rest, last, h, 0, 0);
      assert last in log && forall e :: e in rest ==> e in log;
      if last.att.blockHash == h {
        assert forall i :: 0 <= i < |Of(rest, h)| ==> Of(log, h)[i] == Of(rest, h)[i];
        assert Of(log, h)[|Of(rest, h)|] == last.att;
        WeightIsSum(rest, weights, h);
        ValidatorsExtend(Of(rest, h), last.att);
        SetWeightAdd(weights, Validators(Of(rest, h)), last.att.validator);
        SetWeightBounded(weights, Validators(Of(log, h)));
      } else {
        WeightIsSum(rest, weights, h);
      }
    }
  }

  /** A block becomes final exactly when it is asked about at its height, which is above the
      finalized one, and validators of more than two thirds of the weight attested it. */
  lemma FinalExactly(weights: map<Address, nat>, log: seq<Entry>, s: Store, h: Hash, number: nat)
    requires 0 < Total(weights) <= U64_MAX && Refines(log, s) && Weighed(log, weights)
    ensures Checked(s, h, number, Total(weights)).1 <==>
              && number > s.finalizedNumber && AttestationsAt(s, h) != [] && AttestationsAt(s, h)[0].blockNumber == number
              && 3 * SetWeight(weights, VotersAt(s, h)) > 2 * Total(weights)
    ensures Checked(s, h, number, Total(weights)).1 ==>
              var t := Checked(s, h, number, Total(weights)).0; t.finalizedNumber == number && t.finalizedHash == h
  {
    assert Blocks(log, s, h);
    WeightIsSum(log, weights, h);
  }

  /** Whoever attested `h1` on a node is exposed there by the check about another block, or by
      the check about `h1` itself if the other block was attested first. */
  lemma VoterIsExposed(log: seq<Entry>, s: Store, h1: Hash, number: nat, h2: Hash, v: Address)
    requires Refines(log, s) && h1 != h2 && v in VotersAt(s, h1) && AttestationsAt(s, h1) != []
    requires AttestationsAt(s, h1)[0].blockNumber == number
    ensures Detect(s, h2, number, v).Some? || Detect(s, h1, number, v).Some?
    ensures v !in VotersAt(s, h2) ==> Detect(s, h2, number, v).Some?
  {
    var e := VoterAttested(log, s, h1, v);
    assert AttestedOther(log, h2, number, v);
    ScanFindsOther(log, h2, number, v);
    ScanFirst(log, h2, number, v);
    if v !in VotersAt(s, h2) {
      DetectIsScan(log, s, h2, number, v);
    }
  }

  /** If two nodes can finalize different blocks of one height, validators of more than a
      third of the weight attested both, and the check exposes each of them on either node:
      asked about the other block, or, when that one was attested first, about this one. */
  lemma ConflictingFinalityIsAccountable(weights: map<Address, nat>, number: nat,
                                         log1: seq<Entry>, s1: Store, h1: Hash, log2: seq<Entry>, s2: Store, h2: Hash)
    requires Total(weights) <= U64_MAX && h1 != h2
    requires Refines(log1, s1) && Weighed(log1, weights) && CanFinalize(s1, h1, number, Total(weights))
    requires Refines(log2, s2) && Weighed(log2, weights) && CanFinalize(s2, h2, number, Total(weights))
    ensures 3 * SetWeight(weights, VotersAt(s1, h1) * VotersAt(s2, h2)) > Total(weights)
    ensures forall v :: v in VotersAt(s1, h1) ==> Detect(s1, h2, number, v).Some? || Detect(s1, h1, number, v).Some?
    ensures forall v :: v in VotersAt(s2, h2) ==> Detect(s2, h1, number, v).Some? || Detect(s2, h2, number, v).Some?
    ensures forall v :: v in VotersAt(s1, h1) && v !in VotersAt(s1, h2) ==> Detect(s1, h2, number, v).Some?
  {
    assert Blocks(log1, s1, h1) && Blocks(log2, s2, h2);
    WeightIsSum(log1, weights, h1);
    WeightIsSum(log2, weights, h2);
    Overlap(weights, VotersAt(s1, h1), VotersAt(s2, h2));
    forall v | v in VotersAt(s1, h1)
      ensures Detect(s1, h2, number, v).Some? || Detect(s1, h1, number, v).Some?
      ensures v !in VotersAt(s1, h2) ==> Detect(s1, h2, number, v).Some?
    {
      VoterIsExposed(log1, s1, h1, number, h2, v);
    }
    forall v | v in VotersAt(s2, h2) ensures Detect(s2, h1, number, v).Some? || Detect(s2, h2, number, v).Some? {
      VoterIsExposed(log2, s2, h2, number, h1, v);
    }
  }
}
