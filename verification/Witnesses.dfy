/** Blocks stored in two parts: bodies without signatures and a bundle of the signatures,
    bound to the block by a root. */
module Witnesses {
  import opened Common
  import opened Arithmetic
  import opened Rlp
  import opened Signatures
  import opened Transactions
  import opened Bundles
  import opened Blocks
  import opened MerkleFold

  // ---------------------------------------------------------------------------
  // Transactions without their signatures
  // ---------------------------------------------------------------------------

  datatype StrippedTransaction = StrippedTransaction(from: Bytes32, tx: Transaction, aaBundle: Option<AaBundle>)

  function StrippedFieldsLength(s: StrippedTransaction): nat {
    StringLength(s.from) + TxLength(s.tx) + BundleFieldLength(s.aaBundle)
  }

  function StrippedLength(s: StrippedTransaction): nat { RecordLength(StrippedFieldsLength(s)) }

  predicate StrippedOk(s: StrippedTransaction) {
    TxOk(s.tx) && BundleMatches(s.tx, s.aaBundle) && StrippedFieldsLength(s) <= U64_MAX
  }

  function EncodeStripped(s: StrippedTransaction): Bytes
    requires StrippedOk(s)
  {
    EncodeRecord(StrippedFieldsLength(s), BodyFields(s.from, s.tx) + BundleField(s.tx, s.aaBundle))
  }

  function DecodeStrippedBundle(buf: Bytes, body: (Bytes32, Transaction)): (r: Decoded<Option<AaBundle>>)
    ensures r.Ok? ==> |r.rest| <= |buf|
  {
    DecodeFlaggedBundle(buf, body.1)
  }

  function DecodeStripped(buf: Bytes): (r: Decoded<StrippedTransaction>)
    ensures r.Ok? ==> |r.rest| < |buf|
  {
    var (v, rest) :- DecodeOpenRecord(DecodeBody, DecodeStrippedBundle, None, buf);
    Ok(StrippedTransaction(v.0.0, v.0.1, v.1), rest)
  }

  lemma StrippedRoundTrip(s: StrippedTransaction, r: Bytes)
    requires StrippedOk(s)
    ensures DecodeStripped(EncodeStripped(s) + r) == Ok(s, r)
    ensures |EncodeStripped(s)| == StrippedLength(s)
  {
    var last := BundleField(s.tx, s.aaBundle);
    BundleFieldRoundTrip(s.tx, s.aaBundle, r);
    BodyRoundTrip(s.from, s.tx, Flat(last, r));
    OpenRecordRoundTrip(DecodeBody, DecodeStrippedBundle, None, (s.from, s.tx), s.aaBundle, StrippedFieldsLength(s),
                        BodyFields(s.from, s.tx), last, r);
  }

  // ---------------------------------------------------------------------------
  // Witnesses and bundles of them
  // ---------------------------------------------------------------------------

  datatype TxWitness = TxWitness(signature: PQSignature, pubkey: Option<Bytes>)

  function KeyOf(m: PubkeyMode): Option<Bytes> { if m.Embedded? then Some(m.key) else None }

  function ModeOf(k: Option<Bytes>): PubkeyMode { if k.Some? then Embedded(k.value) else Reference }

  function WitnessFieldsLength(w: TxWitness): nat { SignatureLength(w.signature) + PubkeyLength(ModeOf(w.pubkey)) }

  function WitnessLength(w: TxWitness): nat { RecordLength(WitnessFieldsLength(w)) }

  predicate WitnessFits(w: TxWitness) { SignatureFits(w.signature) && WitnessFieldsLength(w) <= U64_MAX }

  /** Normalised: a missing key is not written as an empty one. */
  predicate WitnessOk(w: TxWitness) { WitnessFits(w) && NotEmpty(w.pubkey) && SizeOk(w.signature) }

  function WitnessFields(w: TxWitness): seq<Bytes>
    requires WitnessFits(w)
  {
    ProofFields(w.signature, PubkeyBytes(ModeOf(w.pubkey)))
  }

  function EncodeWitness(w: TxWitness): Bytes
    requires WitnessFits(w)
  {
    EncodeRecord(WitnessFieldsLength(w), WitnessFields(w))
  }

  /** The same from a signature and a key, without making a witness. */
  function EncodeParts(signature: PQSignature, mode: PubkeyMode): (r: Bytes)
    requires WitnessFits(TxWitness(signature, KeyOf(mode)))
    ensures r == EncodeWitness(TxWitness(signature, KeyOf(mode)))
  {
    EncodeRecord(SignatureLength(signature) + PubkeyLength(mode), ProofFields(signature, PubkeyBytes(mode)))
  }

  function DecodeWitness(buf: Bytes): (r: Decoded<TxWitness>)
    ensures r.Ok? ==> |r.rest| < |buf|
  {
    var (v, rest) :- DecodeRecord(DecodeProof, buf);
    Ok(TxWitness(v.0, KeyOf(v.1)), rest)
  }

  lemma WitnessRoundTrip(w: TxWitness, r: Bytes)
    requires WitnessOk(w)
    ensures DecodeWitness(EncodeWitness(w) + r) == Ok(w, r)
    ensures |EncodeWitness(w)| == WitnessLength(w)
  {
    var mode := ModeOf(w.pubkey);
    ProofRoundTrip(w.signature, mode, r);
    RecordRoundTrip(DecodeProof, (w.signature, mode), WitnessFieldsLength(w), WitnessFields(w), r);
  }

  predicate AllWitnessesOk(ws: seq<TxWitness>) { forall i :: 0 <= i < |ws| ==> WitnessOk(ws[i]) }

  function WitnessEncodings(ws: seq<TxWitness>): (r: seq<Bytes>)
    requires AllWitnessesOk(ws)
    ensures |r| == |ws|
  {
    seq(|ws|, i requires 0 <= i < |ws| => EncodeWitness(ws[i]))
  }

  function BundlePayload(ws: seq<TxWitness>): nat { ItemsLength(WitnessLength, ws) }

  function EncodeWitnesses(ws: seq<TxWitness>): Bytes
    requires AllWitnessesOk(ws) && BundlePayload(ws) <= U64_MAX
  {
    EncodeRecord(BundlePayload(ws), WitnessEncodings(ws))
  }

  /** Witnesses are read from the payload alone until it is used up. */
  function DecodeWitnesses(buf: Bytes): Decoded<seq<TxWitness>> {
    var (length, b0) :- DecodeList(buf);
    var (ws, _) :- DecodeItems(DecodeWitness, b0[..length], 0, length);
    Ok(ws, b0[length..])
  }

  lemma WitnessesRoundTrip(ws: seq<TxWitness>, r: Bytes)
    requires AllWitnessesOk(ws) && BundlePayload(ws) <= U64_MAX
    ensures DecodeWitnesses(EncodeWitnesses(ws) + r) == Ok(ws, r)
    ensures |EncodeWitnesses(ws)| == RecordLength(BundlePayload(ws))
  {
    var encodings, length := WitnessEncodings(ws), BundlePayload(ws);
    forall i, s | 0 <= i < |ws| ensures DecodeWitness(encodings[i] + s) == Ok(ws[i], s) {
      WitnessRoundTrip(ws[i], s);
    }
    forall i | 0 <= i < |ws| ensures |encodings[i]| == WitnessLength(ws[i]) > 0 {
      WitnessRoundTrip(ws[i], []);
    }
    ItemsLengthOk(WitnessLength, ws, encodings);
    AtLeastOneByteEach(encodings);
    RecordList(length, encodings, r);
    ItemsRoundTrip(DecodeWitness, ws, encodings, length, []);
    FlatTail(encodings, r);
    var payload := Flat(encodings, []);
    FlatTail(encodings, []);
    assert (payload + r)[..length] == payload && (payload + r)[length..] == r;
  }

  // ---------------------------------------------------------------------------
  // The root of a bundle
  // ---------------------------------------------------------------------------

  predicate AllWitnessesFit(ws: seq<TxWitness>) { forall i :: 0 <= i < |ws| ==> WitnessFits(ws[i]) }

  function Leaf(h: Hasher, w: TxWitness): Bytes32
    requires WitnessFits(w)
  {
    h(EncodeWitness(w))
  }

  function Leaves(h: Hasher, ws: seq<TxWitness>): (r: seq<Bytes32>)
    requires AllWitnessesFit(ws)
    ensures |r| == |ws|
  {
    seq(|ws|, i requires 0 <= i < |ws| => Leaf(h, ws[i]))
  }

  method ComputeBundleRoot(h: Hasher, ws: seq<TxWitness>) returns (root: Bytes32)
    requires AllWitnessesFit(ws)
    ensures root == Root(h, Leaves(h, ws))
  {
    if ws == [] {
      return ZERO_ROOT;
    }
    var leaves: seq<Bytes32> := [];
    for i := 0 to |ws|
      invariant leaves == Leaves(h, ws)[..i]
    {
      leaves := leaves + [h(EncodeWitness(ws[i]))];
    }
    assert leaves == Leaves(h, ws);
    root := ComputeRoot(h, leaves);
  }

  /** Witnesses are written injectively, whatever the size of their signatures. */
  lemma WitnessInjective(v: TxWitness, w: TxWitness)
    requires WitnessFits(v) && WitnessFits(w) && NotEmpty(v.pubkey) && NotEmpty(w.pubkey)
    requires EncodeWitness(v) == EncodeWitness(w)
    ensures v == w
  {
    var kv, kw := EncodeString(PubkeyBytes(ModeOf(v.pubkey))), EncodeString(PubkeyBytes(ModeOf(w.pubkey)));
    WitnessPayload(v);
    WitnessPayload(w);
    SignatureRoundTrip(v.signature, kv);
    SignatureRoundTrip(w.signature, kw);
    StringRoundTrip(PubkeyBytes(ModeOf(v.pubkey)), []);
    StringRoundTrip(PubkeyBytes(ModeOf(w.pubkey)), []);
    assert kv + [] == kv && kw + [] == kw;
  }

  lemma WitnessPayload(w: TxWitness)
    requires WitnessFits(w)
    ensures DecodeList(EncodeWitness(w)) ==
            Ok(WitnessFieldsLength(w), EncodeSignature(w.signature) + EncodeString(PubkeyBytes(ModeOf(w.pubkey))))
  {
    var key := PubkeyBytes(ModeOf(w.pubkey));
    SignatureLengthOk(w.signature);
    StringLengthOk(key);
    Flat2(EncodeSignature(w.signature), EncodeString(key), []);
    RecordList(WitnessFieldsLength(w), WitnessFields(w), []);
    assert EncodeWitness(w) + [] == EncodeWitness(w);
    assert EncodeString(key) + [] == EncodeString(key);
  }

  /** Everything that is hashed for the root of a bundle: its encoded witnesses, and pairs of
      hashes. */
  ghost function HashedFor(h: Hasher, ws: seq<TxWitness>): set<Bytes>
    requires AllWitnessesFit(ws)
  {
    HashedFrom(h, Preimages(ws), Leaves(h, ws))
  }

  lemma WitnessHashed(h: Hasher, ws: seq<TxWitness>, i: nat)
    requires AllWitnessesFit(ws) && i < |ws|
    ensures EncodeWitness(ws[i]) in HashedFor(h, ws)
  {
    assert Preimages(ws)[i] == EncodeWitness(ws[i]);
  }

  /** The root binds a block to its witnesses: for a known number of transactions, two different
      bundles with one root contain a collision among what is hashed for their roots. */
  lemma BundleRootBinds(h: Hasher, vs: seq<TxWitness>, ws: seq<TxWitness>) returns (x: Bytes, y: Bytes)
    requires |vs| == |ws| && AllWitnessesFit(vs) && AllWitnessesFit(ws)
    requires forall i :: 0 <= i < |vs| ==> NotEmpty(vs[i].pubkey) && NotEmpty(ws[i].pubkey)
    requires Root(h, Leaves(h, vs)) == Root(h, Leaves(h, ws))
    ensures vs == ws || Collision(h, HashedFor(h, vs), HashedFor(h, ws), x, y)
  {
    x, y := SameLengthBinds(h, Leaves(h, vs), Leaves(h, ws));
    if Leaves(h, vs) == Leaves(h, ws) {
      if i :| 0 <= i < |vs| && vs[i] != ws[i] {
        assert Leaves(h, vs)[i] == Leaves(h, ws)[i];
        x, y := SameLeafSameWitness(h, vs, i, ws, i);
      }
    }
  }

  ghost predicate Normal(ws: seq<TxWitness>) {
    AllWitnessesFit(ws) && forall i :: 0 <= i < |ws| ==> NotEmpty(ws[i].pubkey)
  }

  /** No witness is written in exactly 64 bytes, the size of a pair of hashes. */
  ghost predicate NoneIsPair(ws: seq<TxWitness>)
    requires AllWitnessesFit(ws)
  {
    forall i :: 0 <= i < |ws| ==> |EncodeWitness(ws[i])| != 64
  }

  /** The witnesses at the places of the perfect tree that the fold fills up. */
  ghost predicate SamePadded(vs: seq<TxWitness>, ws: seq<TxWitness>)
    requires vs != [] && ws != []
  {
    && Depth(|vs|) == Depth(|ws|)
    && forall i: nat :: i < Pow2(Depth(|vs|)) ==> vs[Slot(|vs|, i)] == ws[Slot(|ws|, i)]
  }

  function Preimages(ws: seq<TxWitness>): (r: seq<Bytes>)
    requires AllWitnessesFit(ws)
    ensures |r| == |ws|
  {
    seq(|ws|, i requires 0 <= i < |ws| => EncodeWitness(ws[i]))
  }

  lemma SameLeafSameWitness(h: Hasher, vs: seq<TxWitness>, i: nat, ws: seq<TxWitness>, k: nat) returns (x: Bytes, y: Bytes)
    requires AllWitnessesFit(vs) && i < |vs| && AllWitnessesFit(ws) && k < |ws|
    requires NotEmpty(vs[i].pubkey) && NotEmpty(ws[k].pubkey) && Leaf(h, vs[i]) == Leaf(h, ws[k])
    ensures vs[i] == ws[k] || Collision(h, HashedFor(h, vs), HashedFor(h, ws), x, y)
  {
    x, y := EncodeWitness(vs[i]), EncodeWitness(ws[k]);
    WitnessHashed(h, vs, i);
    WitnessHashed(h, ws, k);
    if x == y {
      WitnessInjective(vs[i], ws[k]);
    }
  }

  lemma SamePaddedLeaves(h: Hasher, vs: seq<TxWitness>, ws: seq<TxWitness>) returns (x: Bytes, y: Bytes)
    requires vs != [] && ws != [] && Normal(vs) && Normal(ws) && Depth(|vs|) == Depth(|ws|)
    requires Padded(Leaves(h, vs)) == Padded(Leaves(h, ws))
    ensures SamePadded(vs, ws) || Collision(h, HashedFor(h, vs), HashedFor(h, ws), x, y)
  {
    x, y := [], [];
    if i: nat :| i < Pow2(Depth(|vs|)) && vs[Slot(|vs|, i)] != ws[Slot(|ws|, i)] {
      assert Padded(Leaves(h, vs))[i] == Padded(Leaves(h, ws))[i];
      x, y := SameLeafSameWitness(h, vs, Slot(|vs|, i), ws, Slot(|ws|, i));
    }
  }

  /** With the same padded witnesses, the shorter bundle is the beginning of the longer one, and
      every further witness repeats the one that the fold puts in its place. */
  lemma SamePaddedRepeats(vs: seq<TxWitness>, ws: seq<TxWitness>)
    requires vs != [] && |vs| <= |ws| && SamePadded(vs, ws)
    ensures vs <= ws && forall i :: |vs| <= i < |ws| ==> ws[i] == vs[Slot(|vs|, i)]
  {
    forall i | 0 <= i < |ws| ensures ws[i] == vs[Slot(|vs|, i)] && (i < |vs| ==> ws[i] == vs[i]) {
      SlotOfLeaf(|ws|, i);
      if i < |vs| {
        SlotOfLeaf(|vs|, i);
      }
    }
  }

  /** A witness of one bundle is written as a pair of hashes of the other. */
  ghost predicate WitnessIsPair(h: Hasher, vs: seq<TxWitness>, ws: seq<TxWitness>)
    requires AllWitnessesFit(vs) && AllWitnessesFit(ws)
  {
    LeafIsPair(h, Preimages(vs), Leaves(h, ws))
  }

  lemma NoWitnessIsPair(h: Hasher, vs: seq<TxWitness>, ws: seq<TxWitness>)
    requires AllWitnessesFit(vs) && AllWitnessesFit(ws) && NoneIsPair(vs)
    ensures !WitnessIsPair(h, vs, ws)
  {
    LongLeavesAreNoPairs(h, Preimages(vs), Leaves(h, ws));
  }

  /** Two bundles of any sizes with one root have the same padded witnesses, or contain a
      collision among what is hashed for their roots, or a witness of one of them is a pair of
      the other, which takes a witness written in 64 bytes. */
  lemma AnyBundleRootBinds(h: Hasher, vs: seq<TxWitness>, ws: seq<TxWitness>) returns (x: Bytes, y: Bytes)
    requires vs != [] && ws != [] && Normal(vs) && Normal(ws)
    requires Root(h, Leaves(h, vs)) == Root(h, Leaves(h, ws))
    ensures || SamePadded(vs, ws) || Collision(h, HashedFor(h, vs), HashedFor(h, ws), x, y)
            || WitnessIsPair(h, vs, ws) || WitnessIsPair(h, ws, vs)
    ensures NoneIsPair(vs) && NoneIsPair(ws) ==>
              SamePadded(vs, ws) || Collision(h, HashedFor(h, vs), HashedFor(h, ws), x, y)
  {
    var a, b := Leaves(h, vs), Leaves(h, ws);
    x, y := AnySizeBinds(h, Preimages(vs), a, Preimages(ws), b);
    if Depth(|vs|) == Depth(|ws|) && Padded(a) == Padded(b) {
      x, y := SamePaddedLeaves(h, vs, ws);
    }
    if NoneIsPair(vs) && NoneIsPair(ws) {
      NoWitnessIsPair(h, vs, ws);
      NoWitnessIsPair(h, ws, vs);
    }
  }

  /** The hash function tells everything apart that is hashed for the two roots. */
  ghost predicate NoCollision(h: Hasher, vs: seq<TxWitness>, ws: seq<TxWitness>)
    requires AllWitnessesFit(vs) && AllWitnessesFit(ws)
  {
    forall x, y :: !Collision(h, HashedFor(h, vs), HashedFor(h, ws), x, y)
  }

  /** Then bundles have one root if and only if they have the same padded witnesses. */
  lemma RootsAgreeExactly(h: Hasher, vs: seq<TxWitness>, ws: seq<TxWitness>)
    requires vs != [] && ws != [] && Normal(vs) && Normal(ws) && NoneIsPair(vs) && NoneIsPair(ws)
    requires NoCollision(h, vs, ws)
    ensures Root(h, Leaves(h, vs)) == Root(h, Leaves(h, ws)) <==> SamePadded(vs, ws)
  {
    if Root(h, Leaves(h, vs)) == Root(h, Leaves(h, ws)) {
      var x, y := AnyBundleRootBinds(h, vs, ws);
    } else if SamePadded(vs, ws) {
      assert Padded(Leaves(h, vs)) == Padded(Leaves(h, ws));
      PaddedDeterminesRoot(h, Leaves(h, vs), Leaves(h, ws));
    }
  }

  // ---------------------------------------------------------------------------
  // Splitting a block and putting it together again
  // ---------------------------------------------------------------------------

  type FullBlock<S> = Block<SignedTransaction, S>
  type StrippedBlock<S> = Block<StrippedTransaction, S>

  function Strip(t: SignedTransaction): StrippedTransaction { StrippedTransaction(t.from, t.tx, t.aaBundle) }

  function WitnessOf(t: SignedTransaction): TxWitness { TxWitness(t.signature, KeyOf(t.pubkeyMode)) }

  function StripAll(txs: seq<SignedTransaction>): (r: seq<StrippedTransaction>)
    ensures |r| == |txs|
  {
    seq(|txs|, i requires 0 <= i < |txs| => Strip(txs[i]))
  }

  function WitnessesOf(txs: seq<SignedTransaction>): (r: seq<TxWitness>)
    ensures |r| == |txs|
  {
    seq(|txs|, i requires 0 <= i < |txs| => WitnessOf(txs[i]))
  }

  function StrippedOf<S>(b: FullBlock<S>): StrippedBlock<S> { Block(b.header, StripAll(b.transactions), b.system, b.seal) }

  method Split<S>(b: FullBlock<S>) returns (stripped: StrippedBlock<S>, bundle: seq<TxWitness>)
    ensures stripped == StrippedOf(b) && bundle == WitnessesOf(b.transactions)
  {
    var txs: seq<StrippedTransaction> := [];
    bundle := [];
    for i := 0 to |b.transactions|
      invariant txs == StripAll(b.transactions)[..i]
      invariant bundle == WitnessesOf(b.transactions)[..i]
    {
      var t := b.transactions[i];
      txs := txs + [StrippedTransaction(t.from, t.tx, t.aaBundle)];
      var pubkey := match t.pubkeyMode case Embedded(key) => Some(key) case Reference => None;
      bundle := bundle + [TxWitness(t.signature, pubkey)];
    }
    stripped := Block(b.header, txs, b.system, b.seal);
  }

  const STUB: PQSignature := PQSignature(Dilithium3, [])

  function Sign(t: StrippedTransaction, w: TxWitness): SignedTransaction {
    SignedTransaction(t.from, t.tx, w.signature, ModeOf(w.pubkey), t.aaBundle)
  }

  predicate Usable<S>(b: StrippedBlock<S>, bundle: Option<seq<TxWitness>>) {
    bundle.Some? && |bundle.value| == |b.transactions|
  }

  /** Without a bundle of the right size, transactions carry stub signatures. */
  function IntoBlock<S>(b: StrippedBlock<S>, bundle: Option<seq<TxWitness>>): FullBlock<S> {
    var txs :=
      if Usable(b, bundle) then
        seq(|b.transactions|, i requires 0 <= i < |b.transactions| && Usable(b, bundle) => Sign(b.transactions[i], bundle.value[i]))
      else
        seq(|b.transactions|, i requires 0 <= i < |b.transactions| => Sign(b.transactions[i], TxWitness(STUB, None)));
    Block(b.header, txs, b.system, b.seal)
  }

  /** Splitting loses nothing. */
  lemma SplitThenJoin<S>(b: FullBlock<S>)
    ensures IntoBlock(StrippedOf(b), Some(WitnessesOf(b.transactions))) == b
  {
    var again := IntoBlock(StrippedOf(b), Some(WitnessesOf(b.transactions)));
    forall i | 0 <= i < |b.transactions| ensures again.transactions[i] == b.transactions[i] {
    }
  }

  /** Putting together keeps every part of the body, whatever the bundle, and all of a bundle
      of the right size; otherwise every signature is the stub. */
  lemma JoinThenSplit<S>(b: StrippedBlock<S>, bundle: Option<seq<TxWitness>>)
    ensures StrippedOf(IntoBlock(b, bundle)) == b
    ensures WitnessesOf(IntoBlock(b, bundle).transactions) ==
            if Usable(b, bundle) then bundle.value else seq(|b.transactions|, _ => TxWitness(PQSignature(Dilithium3, []), None))
  {
    var full := IntoBlock(b, bundle);
    forall i | 0 <= i < |b.transactions| ensures StripAll(full.transactions)[i] == b.transactions[i] {
    }
    assert StripAll(full.transactions) == b.transactions;
  }

  /** The root straight from the full transactions, without making the bundle. */
  method ComputeRootOfTransactions(h: Hasher, txs: seq<SignedTransaction>) returns (root: Bytes32)
    requires AllWitnessesFit(WitnessesOf(txs))
    ensures root == Root(h, Leaves(h, WitnessesOf(txs)))
  {
    if txs == [] {
      return ZERO_ROOT;
    }
    ghost var all := Leaves(h, WitnessesOf(txs));
    var leaves: seq<Bytes32> := [];
    for i := 0 to |txs|
      invariant |leaves| == i && forall k :: 0 <= k < i ==> leaves[k] == all[k]
    {
      LeafOfTransaction(h, txs, i);
      leaves := leaves + [h(EncodeParts(txs[i].signature, txs[i].pubkeyMode))];
    }
    assert leaves == all;
    root := ComputeRoot(h, leaves);
  }

  lemma LeafOfTransaction(h: Hasher, txs: seq<SignedTransaction>, i: nat)
    requires i < |txs| && AllWitnessesFit(WitnessesOf(txs))
    ensures WitnessFits(TxWitness(txs[i].signature, KeyOf(txs[i].pubkeyMode)))
    ensures Leaves(h, WitnessesOf(txs))[i] == h(EncodeParts(txs[i].signature, txs[i].pubkeyMode))
  {
    assert WitnessFits(WitnessesOf(txs)[i]);
  }

  // ---------------------------------------------------------------------------
  // A block stored in two parts
  // ---------------------------------------------------------------------------

  function SignedBytes(t: SignedTransaction): Bytes { if SignedOk(t) then EncodeSigned(t) else [] }

  function StrippedBytes(t: StrippedTransaction): Bytes { if StrippedOk(t) then EncodeStripped(t) else [] }

  function SignedCodec(): Codec<SignedTransaction> { Codec(SignedOk, SignedBytes, SignedLength, DecodeSigned) }

  function StrippedCodec(): Codec<StrippedTransaction> { Codec(StrippedOk, StrippedBytes, StrippedLength, DecodeStripped) }

  lemma SignedBytesOk(t: SignedTransaction, r: Bytes)
    requires SignedOk(t)
    ensures DecodeSigned(SignedBytes(t) + r) == Ok(t, r) && |SignedBytes(t)| == SignedLength(t)
  {
    SignedRoundTrip(t, r);
  }

  lemma SignedLawful()
    ensures Lawful(SignedCodec())
  {
    var c := SignedCodec();
    forall t, r | c.ok(t) ensures c.decode(c.encode(t) + r) == Ok(t, r) {
      SignedBytesOk(t, r);
    }
    forall t | c.ok(t) ensures |c.encode(t)| == c.length(t) {
      SignedBytesOk(t, []);
    }
  }

  lemma StrippedBytesOk(t: StrippedTransaction, r: Bytes)
    requires StrippedOk(t)
    ensures DecodeStripped(StrippedBytes(t) + r) == Ok(t, r) && |StrippedBytes(t)| == StrippedLength(t)
  {
    StrippedRoundTrip(t, r);
  }

  lemma StrippedLawful()
    ensures Lawful(StrippedCodec())
  {
    var c := StrippedCodec();
    forall t, r | c.ok(t) ensures c.decode(c.encode(t) + r) == Ok(t, r) {
      StrippedBytesOk(t, r);
    }
    forall t | c.ok(t) ensures |c.encode(t)| == c.length(t) {
      StrippedBytesOk(t, []);
    }
  }

  lemma LengthMonotone(m: nat, n: nat)
    requires m <= n
    ensures RecordLength(m) <= RecordLength(n)
  {
    BigEndianInverse(n);
    FromBigEndianBound(BigEndian(n));
    BigEndianLength(m, |BigEndian(n)|);
  }

  lemma {:induction false} ItemsLengthMonotone<A, B>(f: A -> nat, a: seq<A>, g: B -> nat, b: seq<B>)
    requires |a| == |b| && forall i :: 0 <= i < |a| ==> f(a[i]) <= g(b[i])
    ensures ItemsLength(f, a) <= ItemsLength(g, b)
  {
    if a != [] {
      ItemsLengthMonotone(f, a[1..], g, b[1..]);
    }
  }

  /** Each part of a transaction is no longer than the transaction. */
  lemma PartsFit(t: SignedTransaction)
    requires SignedOk(t)
    ensures StrippedOk(Strip(t)) && StrippedLength(Strip(t)) <= SignedLength(t)
    ensures WitnessOk(WitnessOf(t)) && WitnessLength(WitnessOf(t)) <= SignedLength(t)
  {
    LengthMonotone(StrippedFieldsLength(Strip(t)), SignedFieldsLength(t));
    LengthMonotone(WitnessFieldsLength(WitnessOf(t)), SignedFieldsLength(t));
  }

  lemma PartsOfBlockFit<S>(j: Text<S>, b: FullBlock<S>)
    requires BlockOk(SignedCodec(), j, b, false, Current)
    ensures BlockOk(StrippedCodec(), j, StrippedOf(b), false, Current)
    ensures AllWitnessesOk(WitnessesOf(b.transactions)) && BundlePayload(WitnessesOf(b.transactions)) <= U64_MAX
  {
    var txs := b.transactions;
    forall i | 0 <= i < |txs|
      ensures StrippedOk(StripAll(txs)[i]) && StrippedLength(StripAll(txs)[i]) <= SignedLength(txs[i])
      ensures WitnessOk(WitnessesOf(txs)[i]) && WitnessLength(WitnessesOf(txs)[i]) <= SignedLength(txs[i])
    {
      assert SignedCodec().ok(txs[i]);
      PartsFit(txs[i]);
    }
    ItemsLengthMonotone(StrippedLength, StripAll(txs), SignedLength, txs);
    ItemsLengthMonotone(WitnessLength, WitnessesOf(txs), SignedLength, txs);
    LengthMonotone(ItemsLength(StrippedLength, StripAll(txs)), ItemsLength(SignedLength, txs));
  }

  /** Full blocks, in every format, are read back exactly. */
  lemma FullBlockRoundTrip<S(!new)>(j: Text<S>, b: FullBlock<S>, short: bool, format: Format, r: Bytes)
    requires Readable(j) && BlockOk(SignedCodec(), j, b, short, format)
    ensures Consumes(SignedCodec().decode)
    ensures DecodeBlock(SignedCodec(), j, EncodeBlock(SignedCodec(), j, b, short, format) + r) == Ok(b, r)
  {
    SignedLawful();
    BlockRoundTrip(SignedCodec(), j, b, short, format, r);
  }

  /** Any block that can be written can be split, both parts written, read back and put
      together again. */
  lemma StoredBlockRoundTrip<S(!new)>(j: Text<S>, b: FullBlock<S>, r: Bytes, s: Bytes)
    requires Readable(j) && BlockOk(SignedCodec(), j, b, false, Current)
    ensures BlockOk(StrippedCodec(), j, StrippedOf(b), false, Current)
    ensures AllWitnessesOk(WitnessesOf(b.transactions)) && BundlePayload(WitnessesOf(b.transactions)) <= U64_MAX
    ensures var body := DecodeBlock(StrippedCodec(), j, EncodeBlock(StrippedCodec(), j, StrippedOf(b), false, Current) + r);
            var bundle := DecodeWitnesses(EncodeWitnesses(WitnessesOf(b.transactions)) + s);
            body.Ok? && bundle.Ok? && IntoBlock(body.value, Some(bundle.value)) == b
  {
    PartsOfBlockFit(j, b);
    StrippedLawful();
    BlockRoundTrip(StrippedCodec(), j, StrippedOf(b), false, Current, r);
    WitnessesRoundTrip(WitnessesOf(b.transactions), s);
    SplitThenJoin(b);
  }

  function LengthInBundle(t: SignedTransaction): nat { RecordLength(SignatureLength(t.signature) + PubkeyLength(t.pubkeyMode)) }

  /** `encoded_length_from_transactions` */
  function LengthOfTransactions(txs: seq<SignedTransaction>): nat { RecordLength(ItemsLength(LengthInBundle, txs)) }

  lemma {:induction false} PayloadFromTransactions(txs: seq<SignedTransaction>)
    ensures ItemsLength(LengthInBundle, txs) == BundlePayload(WitnessesOf(txs))
  {
    if txs != [] {
      PayloadFromTransactions(txs[1..]);
      assert WitnessesOf(txs)[1..] == WitnessesOf(txs[1..]);
    }
  }

  /** The length summed over the full transactions, without making the bundle, is the number of
      bytes in which the bundle is written. */
  lemma LengthFromTransactions(txs: seq<SignedTransaction>)
    requires AllWitnessesOk(WitnessesOf(txs)) && BundlePayload(WitnessesOf(txs)) <= U64_MAX
    ensures LengthOfTransactions(txs) == |EncodeWitnesses(WitnessesOf(txs))|
  {
    PayloadFromTransactions(txs);
    WitnessesRoundTrip(WitnessesOf(txs), []);
  }
}
