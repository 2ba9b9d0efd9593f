/** The other half of the codecs: whatever bytes are read, a value that comes out is normalised
    and within the limits, so that writing it and reading it again gives the same value. The
    re-encoded length is bounded by ten times the bytes read: a list header can take nine
    bytes where a careless writer used one. */
module Normalised {
  import opened Common
  import opened Rlp
  import opened Signatures
  import opened Transactions
  import opened Bundles
  import opened Blocks
  import opened Witnesses

  /** Buffers that fit in memory with room to spare. */
  predicate Small(b: Bytes) { 10 * |b| <= U64_MAX }

  function Budget(b: Bytes, rest: Bytes): int { 10 * (|b| - |rest|) }

  // ---------------------------------------------------------------------------
  // Strings and numbers
  // ---------------------------------------------------------------------------

  lemma HeaderBound(length: nat)
    requires length <= U64_MAX
    ensures 1 <= LengthOfLength(length) <= 9
  {
    Power256Of8();
    BigEndianLength(length, 8);
  }

  lemma StringCost(b: Bytes)
    requires Small(b) && DecodeString(b).Ok?
    ensures StringLength(DecodeString(b).value) <= Budget(b, DecodeString(b).rest)
    ensures |DecodeString(b).value| <= |b|
  {
    HeaderBound(|DecodeString(b).value|);
  }

  lemma UintCost(b: Bytes, width: nat)
    requires Small(b) && DecodeUint(b, width).Ok?
    ensures UintLength(DecodeUint(b, width).value) <= Budget(b, DecodeUint(b, width).rest)
  {
    var s := DecodeString(b).value;
    FromBigEndianBound(s);
    BigEndianLength(FromBigEndian(s), |s|);
  }

  lemma U8Cost(b: Bytes)
    requires Small(b) && DecodeU8(b).Ok?
    ensures UintLength(DecodeU8(b).value) <= Budget(b, DecodeU8(b).rest)
  {
    UintCost(b, 1);
  }

  lemma U64Cost(b: Bytes)
    requires Small(b) && DecodeU64(b).Ok?
    ensures UintLength(DecodeU64(b).value) <= Budget(b, DecodeU64(b).rest)
  {
    UintCost(b, 8);
  }

  lemma U256Cost(b: Bytes)
    requires Small(b) && DecodeU256(b).Ok?
    ensures UintLength(DecodeU256(b).value) <= Budget(b, DecodeU256(b).rest)
  {
    UintCost(b, 32);
  }

  lemma Option32Cost(b: Bytes)
    requires Small(b) && DecodeOption32(b).Ok?
    ensures Option32Length(DecodeOption32(b).value) <= Budget(b, DecodeOption32(b).rest)
  {
    StringCost(b);
  }

  lemma OptionBytesCost(b: Bytes)
    requires Small(b) && DecodeOptionBytes(b).Ok?
    ensures OptionBytesLength(DecodeOptionBytes(b).value) <= Budget(b, DecodeOptionBytes(b).rest)
    ensures NotEmpty(DecodeOptionBytes(b).value)
  {
    StringCost(b);
  }

  // ---------------------------------------------------------------------------
  // Records and lists
  // ---------------------------------------------------------------------------

  /** Everything `decode` gives for a small buffer is `ok` and within budget. */
  ghost predicate Sound<T>(decode: Bytes -> Decoded<T>, ok: T -> bool, length: T -> nat) {
    forall b :: Small(b) && decode(b).Ok? ==> ok(decode(b).value) && length(decode(b).value) <= Budget(b, decode(b).rest)
  }

  lemma RecordSound<T>(fields: Bytes -> Decoded<T>, ok: T -> bool, length: T -> nat, b: Bytes)
    requires Consumes(fields) && Sound(fields, ok, length) && Small(b) && DecodeRecord(fields, b).Ok?
    ensures var r := DecodeRecord(fields, b);
            ok(r.value) && length(r.value) <= U64_MAX && RecordLength(length(r.value)) <= Budget(b, r.rest)
  {
    var b0 := DecodeList(b).rest;
    assert ok(fields(b0).value) && length(fields(b0).value) <= Budget(b0, fields(b0).rest);
    HeaderBound(length(fields(b0).value));
  }

  lemma {:induction false} ItemsSound<T>(decode: Bytes -> Decoded<T>, ok: T -> bool, length: T -> nat,
                                          b: Bytes, end: nat, limit: nat)
    requires Consumes(decode) && Sound(decode, ok, length) && Small(b) && DecodeItems(decode, b, end, limit).Ok?
    ensures var r := DecodeItems(decode, b, end, limit);
            && |r.value| <= limit && (forall i :: 0 <= i < |r.value| ==> ok(r.value[i]))
            && ItemsLength(length, r.value) <= Budget(b, r.rest)
    decreases |b|
  {
    if |b| > end {
      var d := decode(b);
      assert ok(d.value) && length(d.value) <= Budget(b, d.rest);
      ItemsSound(decode, ok, length, d.rest, end, limit - 1);
      var r := DecodeItems(decode, b, end, limit).value;
      assert r[1..] == DecodeItems(decode, d.rest, end, limit - 1).value;
    }
  }

  lemma ListSound<T>(decode: Bytes -> Decoded<T>, ok: T -> bool, length: T -> nat, limit: nat, b: Bytes)
    requires Consumes(decode) && Sound(decode, ok, length) && Small(b) && DecodeListOf(decode, limit, b).Ok?
    ensures var r := DecodeListOf(decode, limit, b);
            && |r.value| <= limit && (forall i :: 0 <= i < |r.value| ==> ok(r.value[i]))
            && ItemsLength(length, r.value) <= U64_MAX && RecordLength(ItemsLength(length, r.value)) <= Budget(b, r.rest)
  {
    var d := DecodeList(b);
    ItemsSound(decode, ok, length, d.rest, |d.rest| - d.value, limit);
    HeaderBound(ItemsLength(length, DecodeListOf(decode, limit, b).value));
  }

  /** A record with an optional last field. Writing a field that was not there takes at most
      one more byte. */
  lemma OpenSound<T(!new), S>(fields: Bytes -> Decoded<T>, last: (Bytes, T) -> Decoded<S>, absent: S,
                              ok: T -> bool, length: T -> nat, lastOk: (T, S) -> bool, lastLength: S -> nat, b: Bytes)
    requires Consumes(fields) && Shrinks(last) && Sound(fields, ok, length)
    requires forall c, t :: Small(c) && last(c, t).Ok? ==>
               lastOk(t, last(c, t).value) && lastLength(last(c, t).value) <= Budget(c, last(c, t).rest)
    requires (forall t :: lastOk(t, absent)) && lastLength(absent) <= 1
    requires Small(b) && DecodeOpenRecord(fields, last, absent, b).Ok?
    ensures var r := DecodeOpenRecord(fields, last, absent, b);
            && ok(r.value.0) && lastOk(r.value.0, r.value.1) && length(r.value.0) + lastLength(r.value.1) <= U64_MAX
            && RecordLength(length(r.value.0) + lastLength(r.value.1)) <= Budget(b, r.rest)
  {
    var d := DecodeList(b);
    var f := fields(d.rest);
    assert ok(f.value) && length(f.value) <= Budget(d.rest, f.rest);
    var r := DecodeOpenRecord(fields, last, absent, b);
    if SatSub(|d.rest|, |f.rest|) < d.value {
      assert last(f.rest, f.value).Ok?;
    }
    HeaderBound(length(f.value) + lastLength(r.value.1));
  }

  // ---------------------------------------------------------------------------
  // Transactions
  // ---------------------------------------------------------------------------

  predicate Any32(h: Bytes32) { true }

  lemma HashSound()
    ensures Sound(Decode32, Any32, HashLength)
  {
    forall b | Small(b) && Decode32(b).Ok? ensures HashLength(Decode32(b).value) <= Budget(b, Decode32(b).rest) {
      StringCost(b);
    }
  }

  predicate KeysWithin(keys: seq<Bytes32>, limit: int) {
    ItemsLength(HashLength, keys) <= U64_MAX && RecordLength(ItemsLength(HashLength, keys)) <= limit
  }

  lemma HashesSound(b: Bytes, end: nat)
    requires Small(b) && DecodeItems(Decode32, b, end, MAX_ACCESS_LIST_STORAGE_KEYS).Ok?
    ensures var r := DecodeItems(Decode32, b, end, MAX_ACCESS_LIST_STORAGE_KEYS);
            |r.value| <= MAX_ACCESS_LIST_STORAGE_KEYS && KeysWithin(r.value, Budget(b, r.rest) + 9)
  {
    HashSound();
    ItemsSound(Decode32, Any32, HashLength, b, end, MAX_ACCESS_LIST_STORAGE_KEYS);
    HeaderBound(ItemsLength(HashLength, DecodeItems(Decode32, b, end, MAX_ACCESS_LIST_STORAGE_KEYS).value));
  }

  lemma KeysSound(b: Bytes)
    requires Small(b) && DecodeKeys(b).Ok?
    ensures var r := DecodeKeys(b);
            |r.value| <= MAX_ACCESS_LIST_STORAGE_KEYS && KeysWithin(r.value, Budget(b, r.rest))
  {
    var k := DecodeList(b);
    HashesSound(k.rest, |k.rest| - k.value);
  }

  lemma ItemSound(b: Bytes)
    requires Small(b) && DecodeItem(b).Ok?
    ensures ItemOk(DecodeItem(b).value) && ItemLength(DecodeItem(b).value) <= Budget(b, DecodeItem(b).rest)
  {
    var b0 := DecodeList(b).rest;
    StringCost(b0);
    KeysSound(Decode32(b0).rest);
    HeaderBound(ItemFieldsLength(DecodeItem(b).value));
  }

  lemma AccessListSound(b: Bytes)
    requires Small(b) && DecodeAccessList(b).Ok?
    ensures AccessListOk(DecodeAccessList(b).value)
    ensures AccessListLength(DecodeAccessList(b).value) <= Budget(b, DecodeAccessList(b).rest)
  {
    forall c | Small(c) && DecodeItem(c).Ok?
      ensures ItemOk(DecodeItem(c).value) && ItemLength(DecodeItem(c).value) <= Budget(c, DecodeItem(c).rest)
    {
      ItemSound(c);
    }
    ListSound(DecodeItem, ItemOk, ItemLength, MAX_ACCESS_LIST_ENTRIES, b);
  }

  lemma BlobHashesSound(b: Bytes)
    requires Small(b) && DecodeBlobHashes(b).Ok?
    ensures BlobHashesOk(DecodeBlobHashes(b).value)
    ensures BlobHashesLength(DecodeBlobHashes(b).value) <= Budget(b, DecodeBlobHashes(b).rest)
  {
    HashSound();
    ListSound(Decode32, Any32, HashLength, MAX_BLOB_HASHES_PER_TX, b);
  }

  lemma TxHeadCost(b: Bytes)
    requires Small(b) && DecodeTxHead(b).Ok?
    ensures var v := DecodeTxHead(b).value;
            UintLength(v.0) + UintLength(v.1) + Option32Length(v.2) + UintLength(v.3) + StringLength(v.4) + UintLength(v.5)
              <= Budget(b, DecodeTxHead(b).rest)
  {
    U64Cost(b);
    var b1 := DecodeU64(b).rest;
    U64Cost(b1);
    var b2 := DecodeU64(b1).rest;
    Option32Cost(b2);
    var b3 := DecodeOption32(b2).rest;
    U256Cost(b3);
    var b4 := DecodeU256(b3).rest;
    StringCost(b4);
    U64Cost(DecodeString(b4).rest);
  }

  lemma TxFeesCost(b: Bytes)
    requires Small(b) && DecodeTxFees(b).Ok?
    ensures var v := DecodeTxFees(b).value;
            && AccessListOk(v.2)
            && UintLength(v.0) + UintLength(v.1) + AccessListLength(v.2) + UintLength(v.3) <= Budget(b, DecodeTxFees(b).rest)
  {
    U64Cost(b);
    var b1 := DecodeU64(b).rest;
    U64Cost(b1);
    var b2 := DecodeU64(b1).rest;
    AccessListSound(b2);
    U8Cost(DecodeAccessList(b2).rest);
  }

  lemma TxBlobsCost(b: Bytes)
    requires Small(b) && DecodeTxBlobs(b).Ok?
    ensures var v := DecodeTxBlobs(b).value;
            BlobHashesOk(v.1) && BlobFeeLength(v.0) + BlobHashesLength(v.1) <= Budget(b, DecodeTxBlobs(b).rest)
  {
    U8Cost(b);
    var b1 := DecodeU8(b).rest;
    U64Cost(b1);
    BlobHashesSound(DecodeU64(b1).rest);
  }

  predicate TxParts(t: Transaction) { AccessListOk(t.accessList) && BlobHashesOk(t.blobHashes) }

  lemma TxFieldsCost(b: Bytes)
    requires Small(b) && DecodeTxFields(b).Ok?
    ensures TxParts(DecodeTxFields(b).value) && TxFieldsLength(DecodeTxFields(b).value) <= Budget(b, DecodeTxFields(b).rest)
  {
    TxHeadCost(b);
    var b1 := DecodeTxHead(b).rest;
    TxFeesCost(b1);
    TxBlobsCost(DecodeTxFees(b1).rest);
  }

  /** Every transaction read from any bytes is normalised and within the limits. */
  lemma TxSound(b: Bytes)
    requires Small(b) && DecodeTx(b).Ok?
    ensures TxOk(DecodeTx(b).value) && TxLength(DecodeTx(b).value) <= Budget(b, DecodeTx(b).rest)
  {
    forall c | Small(c) && DecodeTxFields(c).Ok?
      ensures TxParts(DecodeTxFields(c).value) && TxFieldsLength(DecodeTxFields(c).value) <= Budget(c, DecodeTxFields(c).rest)
    {
      TxFieldsCost(c);
    }
    RecordSound(DecodeTxFields, TxParts, TxFieldsLength, b);
  }

  // ---------------------------------------------------------------------------
  // Bundles
  // ---------------------------------------------------------------------------

  predicate CallParts(c: InnerCall) { |c.data| <= MAX_INNER_CALLDATA }

  lemma CallFieldsCost(b: Bytes)
    requires Small(b) && DecodeCallFields(b).Ok?
    ensures CallParts(DecodeCallFields(b).value)
    ensures CallFieldsLength(DecodeCallFields(b).value) <= Budget(b, DecodeCallFields(b).rest)
  {
    Option32Cost(b);
    var b1 := DecodeOption32(b).rest;
    U256Cost(b1);
    var b2 := DecodeU256(b1).rest;
    StringCost(b2);
    U64Cost(DecodeString(b2).rest);
  }

  lemma CallSound(b: Bytes)
    requires Small(b) && DecodeCall(b).Ok?
    ensures CallOk(DecodeCall(b).value) && CallLength(DecodeCall(b).value) <= Budget(b, DecodeCall(b).rest)
  {
    forall c | Small(c) && DecodeCallFields(c).Ok?
      ensures CallParts(DecodeCallFields(c).value)
      ensures CallFieldsLength(DecodeCallFields(c).value) <= Budget(c, DecodeCallFields(c).rest)
    {
      CallFieldsCost(c);
    }
    RecordSound(DecodeCallFields, CallParts, CallFieldsLength, b);
  }

  lemma CallsSound(b: Bytes)
    requires Small(b) && DecodeCalls(b).Ok?
    ensures CallsOk(DecodeCalls(b).value)
    ensures RecordLength(ItemsLength(CallLength, DecodeCalls(b).value)) <= Budget(b, DecodeCalls(b).rest)
  {
    forall c | Small(c) && DecodeCall(c).Ok?
      ensures CallOk(DecodeCall(c).value) && CallLength(DecodeCall(c).value) <= Budget(c, DecodeCall(c).rest)
    {
      CallSound(c);
    }
    ListSound(DecodeCall, CallOk, CallLength, MAX_INNER_CALLS, b);
  }

  lemma CapCost(b: Bytes)
    requires Small(b) && DecodeCap(b).Ok?
    ensures StringLength(CapBytes(DecodeCap(b).value)) <= Budget(b, DecodeCap(b).rest)
  {
    var s := DecodeString(b).value;
    StringCost(b);
    FromBigEndianBound(s);
    BigEndianLength(FromBigEndian(s), |s|);
  }

  lemma SessionScopeCost(b: Bytes)
    requires Small(b) && DecodeSessionScope(b).Ok?
    ensures var v := DecodeSessionScope(b).value;
            && |v.0| <= MAX_SESSION_PUBKEY
            && StringLength(v.0) + UintLength(v.1) + Option32Length(v.2) + StringLength(CapBytes(v.3))
                 <= Budget(b, DecodeSessionScope(b).rest)
  {
    StringCost(b);
    var b1 := DecodeString(b).rest;
    U64Cost(b1);
    var b2 := DecodeU64(b1).rest;
    Option32Cost(b2);
    CapCost(DecodeOption32(b2).rest);
  }

  lemma SessionProofCost(b: Bytes)
    requires Small(b) && DecodeSessionProof(b).Ok?
    ensures var v := DecodeSessionProof(b).value;
            && |v.1| <= MAX_SIGNATURE_BYTES && |v.2| <= MAX_SIGNATURE_BYTES
            && UintLength(v.0) + StringLength(v.1) + StringLength(v.2) <= Budget(b, DecodeSessionProof(b).rest)
  {
    U64Cost(b);
    var b1 := DecodeU64(b).rest;
    StringCost(b1);
    StringCost(DecodeString(b1).rest);
  }

  predicate SessionParts(s: SessionAuth) {
    |s.pubkey| <= MAX_SESSION_PUBKEY && |s.rootSignature| <= MAX_SIGNATURE_BYTES && |s.sessionSignature| <= MAX_SIGNATURE_BYTES
  }

  lemma SessionFieldsCost(b: Bytes)
    requires Small(b) && DecodeSessionFields(b).Ok?
    ensures SessionParts(DecodeSessionFields(b).value)
    ensures SessionFieldsLength(DecodeSessionFields(b).value) <= Budget(b, DecodeSessionFields(b).rest)
  {
    SessionScopeCost(b);
    SessionProofCost(DecodeSessionScope(b).rest);
  }

  lemma SessionSound(b: Bytes)
    requires Small(b) && DecodeSession(b).Ok?
    ensures SessionOk(DecodeSession(b).value) && SessionLength(DecodeSession(b).value) <= Budget(b, DecodeSession(b).rest)
  {
    forall c | Small(c) && DecodeSessionFields(c).Ok?
      ensures SessionParts(DecodeSessionFields(c).value)
      ensures SessionFieldsLength(DecodeSessionFields(c).value) <= Budget(c, DecodeSessionFields(c).rest)
    {
      SessionFieldsCost(c);
    }
    RecordSound(DecodeSessionFields, SessionParts, SessionFieldsLength, b);
  }

  predicate PartsOk(p: BundleParts) {
    && CallsOk(p.0)
    && NotEmpty(p.2) && (p.2.Some? ==> |p.2.value| <= MAX_SIGNATURE_BYTES)
    && NotEmpty(p.3) && (p.3.Some? ==> |p.3.value| <= MAX_PAYMASTER_CONTEXT)
  }

  lemma SponsorCost(b: Bytes)
    requires Small(b) && DecodeSponsor(b).Ok?
    ensures var v := DecodeSponsor(b).value;
            && NotEmpty(v.0) && (v.0.Some? ==> |v.0.value| <= MAX_SIGNATURE_BYTES)
            && NotEmpty(v.1) && (v.1.Some? ==> |v.1.value| <= MAX_PAYMASTER_CONTEXT)
            && OptionBytesLength(v.0) + OptionBytesLength(v.1) <= Budget(b, DecodeSponsor(b).rest)
  {
    OptionBytesCost(b);
    OptionBytesCost(DecodeOptionBytes(b).rest);
  }

  lemma BundleFieldsCost(b: Bytes)
    requires Small(b) && DecodeBundleFields(b).Ok?
    ensures PartsOk(DecodeBundleFields(b).value)
    ensures PartsLength(DecodeBundleFields(b).value) <= Budget(b, DecodeBundleFields(b).rest)
  {
    CallsSound(b);
    var b1 := DecodeCalls(b).rest;
    Option32Cost(b1);
    SponsorCost(DecodeOption32(b1).rest);
  }

  predicate LastSessionOk(p: BundleParts, s: Option<SessionAuth>) { s.Some? ==> SessionOk(s.value) }

  function LastSessionLength(s: Option<SessionAuth>): nat { if s.Some? then SessionLength(s.value) else 1 }

  lemma SessionFieldCost(b: Bytes, p: BundleParts)
    requires Small(b) && DecodeSessionField(b, p).Ok?
    ensures var r := DecodeSessionField(b, p); LastSessionOk(p, r.value) && LastSessionLength(r.value) <= Budget(b, r.rest)
  {
    if b != [] && b[0] >= 0xC0 {
      SessionSound(b);
    }
  }

  /** So is every bundle, whether or not it has a session authorisation. */
  lemma BundleSound(b: Bytes)
    requires Small(b) && DecodeBundle(b).Ok?
    ensures BundleOk(DecodeBundle(b).value) && BundleLength(DecodeBundle(b).value) <= Budget(b, DecodeBundle(b).rest)
  {
    forall c | Small(c) && DecodeBundleFields(c).Ok?
      ensures PartsOk(DecodeBundleFields(c).value)
      ensures PartsLength(DecodeBundleFields(c).value) <= Budget(c, DecodeBundleFields(c).rest)
    {
      BundleFieldsCost(c);
    }
    forall c, p: BundleParts | Small(c) && DecodeSessionField(c, p).Ok?
      ensures var r := DecodeSessionField(c, p); LastSessionOk(p, r.value) && LastSessionLength(r.value) <= Budget(c, r.rest)
    {
      SessionFieldCost(c, p);
    }
    OpenSound(DecodeBundleFields, DecodeSessionField, None, PartsOk, PartsLength, LastSessionOk, LastSessionLength, b);
  }

  // ---------------------------------------------------------------------------
  // Signed and stripped transactions, witnesses
  // ---------------------------------------------------------------------------

  lemma SignatureSound(b: Bytes)
    requires Small(b) && DecodeSignature(b).Ok?
    ensures SizeOk(DecodeSignature(b).value) && SignatureFits(DecodeSignature(b).value)
    ensures SignatureLength(DecodeSignature(b).value) <= Budget(b, DecodeSignature(b).rest)
  {
    var d := DecodeList(b);
    var payload := d.rest[..d.value];
    U8Cost(payload);
    StringCost(DecodeU8(payload).rest);
    HeaderBound(SignatureFieldsLength(DecodeSignature(b).value));
  }

  predicate BodyParts(v: (Bytes32, Transaction)) { TxOk(v.1) }

  function BodyLength(v: (Bytes32, Transaction)): nat { StringLength(v.0) + TxLength(v.1) }

  lemma BodyCost(b: Bytes)
    requires Small(b) && DecodeBody(b).Ok?
    ensures BodyParts(DecodeBody(b).value) && BodyLength(DecodeBody(b).value) <= Budget(b, DecodeBody(b).rest)
  {
    StringCost(b);
    TxSound(Decode32(b).rest);
  }

  predicate ProofParts(v: (PQSignature, PubkeyMode)) {
    SizeOk(v.0) && SignatureFits(v.0) && (v.1.Embedded? ==> v.1.key != [])
  }

  function ProofLength(v: (PQSignature, PubkeyMode)): nat { SignatureLength(v.0) + PubkeyLength(v.1) }

  lemma ProofCost(b: Bytes)
    requires Small(b) && DecodeProof(b).Ok?
    ensures ProofParts(DecodeProof(b).value) && ProofLength(DecodeProof(b).value) <= Budget(b, DecodeProof(b).rest)
  {
    SignatureSound(b);
    StringCost(DecodeSignature(b).rest);
  }

  lemma FlaggedBundleCost(b: Bytes, t: Transaction)
    requires Small(b) && DecodeFlaggedBundle(b, t).Ok?
    ensures var r := DecodeFlaggedBundle(b, t); BundleMatches(t, r.value) && BundleFieldLength(r.value) <= Budget(b, r.rest)
  {
    BundleSound(b[1..]);
  }

  predicate SignedPartsOk(v: SignedParts) { BodyParts(v.0) && ProofParts(v.1) }

  function SignedPartsLength(v: SignedParts): nat { BodyLength(v.0) + ProofLength(v.1) }

  predicate SignedBundleOk(v: SignedParts, b: Option<AaBundle>) { BundleMatches(v.0.1, b) }

  lemma SignedFieldsCost(b: Bytes)
    requires Small(b) && DecodeSignedFields(b).Ok?
    ensures SignedPartsOk(DecodeSignedFields(b).value)
    ensures SignedPartsLength(DecodeSignedFields(b).value) <= Budget(b, DecodeSignedFields(b).rest)
  {
    BodyCost(b);
    ProofCost(DecodeBody(b).rest);
  }

  lemma SignedFieldsSound()
    ensures Sound(DecodeSignedFields, SignedPartsOk, SignedPartsLength)
  {
    forall c | Small(c) && DecodeSignedFields(c).Ok?
      ensures SignedPartsOk(DecodeSignedFields(c).value)
      ensures SignedPartsLength(DecodeSignedFields(c).value) <= Budget(c, DecodeSignedFields(c).rest)
    {
      SignedFieldsCost(c);
    }
  }

  lemma SignedRecordCost(b: Bytes)
    requires Small(b) && DecodeOpenRecord(DecodeSignedFields, DecodeBundleField, None, b).Ok?
    ensures var r := DecodeOpenRecord(DecodeSignedFields, DecodeBundleField, None, b);
            && SignedPartsOk(r.value.0) && SignedBundleOk(r.value.0, r.value.1)
            && SignedPartsLength(r.value.0) + BundleFieldLength(r.value.1) <= U64_MAX
            && RecordLength(SignedPartsLength(r.value.0) + BundleFieldLength(r.value.1)) <= Budget(b, r.rest)
  {
    SignedFieldsSound();
    forall c, v: SignedParts | Small(c) && DecodeBundleField(c, v).Ok?
      ensures var d := DecodeBundleField(c, v); SignedBundleOk(v, d.value) && BundleFieldLength(d.value) <= Budget(c, d.rest)
    {
      FlaggedBundleCost(c, v.0.1);
    }
    OpenSound(DecodeSignedFields, DecodeBundleField, None, SignedPartsOk, SignedPartsLength, SignedBundleOk, BundleFieldLength, b);
  }

  lemma SignedCost(b: Bytes)
    requires Small(b) && DecodeSigned(b).Ok?
    ensures SignedOk(DecodeSigned(b).value) && SignedLength(DecodeSigned(b).value) <= Budget(b, DecodeSigned(b).rest)
  {
    SignedRecordCost(b);
  }

  /** Any bytes that are read as a signed transaction are read as one that is normalised and
      within every limit: it can be written, and is read back as itself. */
  lemma SignedSound(b: Bytes, r: Bytes)
    requires Small(b) && DecodeSigned(b).Ok?
    ensures var t := DecodeSigned(b).value; SignedOk(t) && DecodeSigned(EncodeSigned(t) + r) == Ok(t, r)
  {
    SignedCost(b);
    SignedRoundTrip(DecodeSigned(b).value, r);
  }

  predicate StrippedBundleOk(v: (Bytes32, Transaction), b: Option<AaBundle>) { BundleMatches(v.1, b) }

  lemma StrippedCost(b: Bytes)
    requires Small(b) && DecodeStripped(b).Ok?
    ensures StrippedOk(DecodeStripped(b).value) && StrippedLength(DecodeStripped(b).value) <= Budget(b, DecodeStripped(b).rest)
  {
    forall c | Small(c) && DecodeBody(c).Ok?
      ensures BodyParts(DecodeBody(c).value) && BodyLength(DecodeBody(c).value) <= Budget(c, DecodeBody(c).rest)
    {
      BodyCost(c);
    }
    forall c, v: (Bytes32, Transaction) | Small(c) && DecodeStrippedBundle(c, v).Ok?
      ensures var d := DecodeStrippedBundle(c, v); StrippedBundleOk(v, d.value) && BundleFieldLength(d.value) <= Budget(c, d.rest)
    {
      FlaggedBundleCost(c, v.1);
    }
    OpenSound(DecodeBody, DecodeStrippedBundle, None, BodyParts, BodyLength, StrippedBundleOk, BundleFieldLength, b);
  }

  lemma StrippedSound(b: Bytes, r: Bytes)
    requires Small(b) && DecodeStripped(b).Ok?
    ensures var t := DecodeStripped(b).value; StrippedOk(t) && DecodeStripped(EncodeStripped(t) + r) == Ok(t, r)
  {
    StrippedCost(b);
    StrippedRoundTrip(DecodeStripped(b).value, r);
  }

  lemma WitnessSound(b: Bytes, r: Bytes)
    requires Small(b) && DecodeWitness(b).Ok?
    ensures var w := DecodeWitness(b).value; WitnessOk(w) && DecodeWitness(EncodeWitness(w) + r) == Ok(w, r)
  {
    forall c | Small(c) && DecodeProof(c).Ok?
      ensures ProofParts(DecodeProof(c).value) && ProofLength(DecodeProof(c).value) <= Budget(c, DecodeProof(c).rest)
    {
      ProofCost(c);
    }
    RecordSound(DecodeProof, ProofParts, ProofLength, b);
    WitnessRoundTrip(DecodeWitness(b).value, r);
  }

  // ---------------------------------------------------------------------------
  // Headers
  // ---------------------------------------------------------------------------

  lemma RootsCost(b: Bytes)
    requires Small(b) && DecodeRoots(b).Ok?
    ensures var v := DecodeRoots(b).value;
            StringLength(v.0) + StringLength(v.1) + StringLength(v.2) + StringLength(v.3) + StringLength(v.4) + UintLength(v.5)
              <= Budget(b, DecodeRoots(b).rest)
  {
    StringCost(b);
    var b1 := Decode32(b).rest;
    StringCost(b1);
    var b2 := Decode32(b1).rest;
    StringCost(b2);
    var b3 := Decode32(b2).rest;
    StringCost(b3);
    var b4 := Decode32(b3).rest;
    StringCost(b4);
    U64Cost(DecodeString(b4).rest);
  }

  lemma GasCost(b: Bytes)
    requires Small(b) && DecodeGas(b).Ok?
    ensures var v := DecodeGas(b).value;
            && NotEmpty(v.5)
            && UintLength(v.0) + UintLength(v.1) + UintLength(v.2) + StringLength(v.3) + StringLength(v.4) + OptionBytesLength(v.5)
                 <= Budget(b, DecodeGas(b).rest)
  {
    U64Cost(b);
    var b1 := DecodeU64(b).rest;
    U64Cost(b1);
    var b2 := DecodeU64(b1).rest;
    U64Cost(b2);
    var b3 := DecodeU64(b2).rest;
    StringCost(b3);
    var b4 := DecodeString(b3).rest;
    StringCost(b4);
    OptionBytesCost(Decode32(b4).rest);
  }

  lemma FeesCost(b: Bytes)
    requires Small(b) && DecodeFees(b).Ok?
    ensures var v := DecodeFees(b).value;
            UintLength(v.0) + StringLength(v.1) + StringLength(v.2) + UintLength(v.3) + UintLength(v.4)
              <= Budget(b, DecodeFees(b).rest)
  {
    U64Cost(b);
    var b1 := DecodeU64(b).rest;
    StringCost(b1);
    var b2 := Decode32(b1).rest;
    StringCost(b2);
    var b3 := Decode32(b2).rest;
    U64Cost(b3);
    U64Cost(DecodeU64(b3).rest);
  }

  predicate HeaderParts(h: BlockHeader) { NotEmpty(h.sigAggregateProof) }

  predicate AnyRoot(h: BlockHeader, root: Option<Bytes32>) { true }

  lemma HeaderFieldsCost(b: Bytes)
    requires Small(b) && DecodeOldHeaderFields(b).Ok?
    ensures HeaderParts(DecodeOldHeaderFields(b).value)
    ensures OldHeaderFieldsLength(DecodeOldHeaderFields(b).value) <= Budget(b, DecodeOldHeaderFields(b).rest)
  {
    RootsCost(b);
    var b1 := DecodeRoots(b).rest;
    GasCost(b1);
    FeesCost(DecodeGas(b1).rest);
  }

  lemma HeaderFieldsSound()
    ensures Sound(DecodeOldHeaderFields, HeaderParts, OldHeaderFieldsLength)
  {
    forall c | Small(c) && DecodeOldHeaderFields(c).Ok?
      ensures HeaderParts(DecodeOldHeaderFields(c).value)
      ensures OldHeaderFieldsLength(DecodeOldHeaderFields(c).value) <= Budget(c, DecodeOldHeaderFields(c).rest)
    {
      HeaderFieldsCost(c);
    }
  }

  /** What was read of a record, without and with the root put into the header. */
  ghost predicate RecordWithin(d: Decoded<(BlockHeader, Option<Bytes32>)>, b: Bytes) {
    && d.Ok? && HeaderParts(d.value.0) && OldHeaderFieldsLength(d.value.0) + Option32Length(d.value.1) <= U64_MAX
    && RecordLength(OldHeaderFieldsLength(d.value.0) + Option32Length(d.value.1)) <= Budget(b, d.rest)
  }

  ghost predicate HeaderWithin(h: Decoded<BlockHeader>, b: Bytes) {
    h.Ok? && HeaderOk(h.value) && HeaderRecordLength(h.value, false) <= Budget(b, h.rest)
  }

  lemma WithRoot(d: Decoded<(BlockHeader, Option<Bytes32>)>, h: Decoded<BlockHeader>, b: Bytes)
    requires RecordWithin(d, b) && h == Ok(d.value.0.(witnessRoot := d.value.1), d.rest)
    ensures HeaderWithin(h, b)
  {
    assert OldHeaderFieldsLength(h.value) == OldHeaderFieldsLength(d.value.0);
  }

  lemma RootFieldSound()
    ensures forall c, h: BlockHeader :: Small(c) && DecodeWitnessRoot(c, h).Ok? ==>
              AnyRoot(h, DecodeWitnessRoot(c, h).value)
              && Option32Length(DecodeWitnessRoot(c, h).value) <= Budget(c, DecodeWitnessRoot(c, h).rest)
  {
    forall c, h: BlockHeader | Small(c) && DecodeWitnessRoot(c, h).Ok?
      ensures Option32Length(DecodeWitnessRoot(c, h).value) <= Budget(c, DecodeWitnessRoot(c, h).rest)
    {
      Option32Cost(c);
    }
  }

  lemma HeaderRecordCost(b: Bytes)
    requires Small(b) && DecodeOpenRecord(DecodeOldHeaderFields, DecodeWitnessRoot, None, b).Ok?
    ensures RecordWithin(DecodeOpenRecord(DecodeOldHeaderFields, DecodeWitnessRoot, None, b), b)
  {
    HeaderFieldsSound();
    RootFieldSound();
    OpenSound(DecodeOldHeaderFields, DecodeWitnessRoot, None, HeaderParts, OldHeaderFieldsLength, AnyRoot, Option32Length, b);
  }

  lemma HeaderIsRecord(b: Bytes)
    requires DecodeHeaderRecord(b).Ok?
    ensures var d := DecodeOpenRecord(DecodeOldHeaderFields, DecodeWitnessRoot, None, b);
            d.Ok? && DecodeHeaderRecord(b) == Ok(d.value.0.(witnessRoot := d.value.1), d.rest)
  {
  }

  lemma HeaderCost(b: Bytes)
    requires Small(b) && DecodeHeaderRecord(b).Ok?
    ensures HeaderWithin(DecodeHeaderRecord(b), b)
  {
    HeaderIsRecord(b);
    HeaderRecordCost(b);
    WithRoot(DecodeOpenRecord(DecodeOldHeaderFields, DecodeWitnessRoot, None, b), DecodeHeaderRecord(b), b);
  }

  /** Headers too, with or without a witness root. */
  lemma HeaderSound(b: Bytes, r: Bytes)
    requires Small(b) && DecodeHeaderRecord(b).Ok?
    ensures var h := DecodeHeaderRecord(b).value; HeaderOk(h) && DecodeHeaderRecord(EncodeHeaderRecord(h, false) + r) == Ok(h, r)
  {
    HeaderCost(b);
    HeaderRecordRoundTrip(DecodeHeaderRecord(b).value, false, r);
  }

  // ---------------------------------------------------------------------------
  // Blocks
  // ---------------------------------------------------------------------------

  /** A seal that was not there is written in one byte. */
  lemma SealSound(b: Bytes, end: nat)
    requires Small(b) && DecodeSeal(b, end).Ok?
    ensures SealOk(DecodeSeal(b, end).value) && SealLength(DecodeSeal(b, end).value) <= Budget(b, DecodeSeal(b, end).rest) + 1
  {
    if |b| > end && b[0] != 0x80 {
      SignatureSound(b);
    }
  }

  predicate FrontOk<T>(c: Codec<T>, v: (BlockHeader, seq<T>)) {
    HeaderOk(v.0) && (forall i :: 0 <= i < |v.1| ==> c.ok(v.1[i])) && ItemsLength(c.length, v.1) <= U64_MAX
  }

  function FrontLength<T>(c: Codec<T>, v: (BlockHeader, seq<T>)): nat { HeaderRecordLength(v.0, false) + TxsLength(c, v.1) }

  /** All parts of a block but its system transactions. */
  predicate BlockParts<T, S>(c: Codec<T>, b: Block<T, S>) {
    FrontOk(c, (b.header, b.transactions)) && SealOk(b.seal)
  }

  function PartsLengthOf<T, S>(c: Codec<T>, b: Block<T, S>): nat {
    FrontLength(c, (b.header, b.transactions)) + SealLength(b.seal)
  }

  lemma FrontSound<T>(c: Codec<T>, b: Bytes)
    requires Consumes(c.decode) && Sound(c.decode, c.ok, c.length) && Small(b) && DecodeFront(c, b).Ok?
    ensures FrontOk(c, DecodeFront(c, b).value) && FrontLength(c, DecodeFront(c, b).value) <= Budget(b, DecodeFront(c, b).rest)
  {
    HeaderCost(b);
    var b1 := DecodeHeaderRecord(b).rest;
    ListSound(c.decode, c.ok, c.length, |b1|, b1);
  }

  lemma BackSound<S>(j: Text<S>, b: Bytes, end: nat)
    requires Small(b) && DecodeBack(j, b, end).Ok?
    ensures var r := DecodeBack(j, b, end); SealOk(r.value.1) && SealLength(r.value.1) <= Budget(b, r.rest) + 1
  {
    SealSound(DecodeSystem(j, b, end).rest, end);
  }

  /** What is read from the end of a record, knowing what follows the record. */
  ghost predicate SoundBack<B>(back: (Bytes, nat) -> Decoded<B>, ok: B -> bool, length: B -> nat) {
    forall b, end :: Small(b) && back(b, end).Ok? ==>
                       ok(back(b, end).value) && length(back(b, end).value) <= Budget(b, back(b, end).rest) + 1
  }

  /** A record whose last fields are bounded is sound when its two halves are. */
  lemma BoundedSound<A, B>(front: Bytes -> Decoded<A>, back: (Bytes, nat) -> Decoded<B>, frontOk: A -> bool, backOk: B -> bool,
                           frontLength: A -> nat, backLength: B -> nat, b: Bytes)
    requires Consumes(front) && Sound(front, frontOk, frontLength) && SoundBack(back, backOk, backLength)
    requires Small(b) && DecodeBounded(front, back, b).Ok?
    ensures var v := DecodeBounded(front, back, b).value;
            frontOk(v.0) && backOk(v.1) && frontLength(v.0) + backLength(v.1) < 10 * |b|
  {
    var d := DecodeList(b);
    var f := front(d.rest);
    assert frontOk(f.value) && frontLength(f.value) <= Budget(d.rest, f.rest);
    assert back(f.rest, |d.rest| - d.value).Ok?;
  }

  /** Any bytes that are read as a block give a normalised header, transactions and seal, which
      are written in less than ten times those bytes. */
  lemma BlockPartsSound<T, S>(c: Codec<T>, j: Text<S>, b: Bytes)
    requires Consumes(c.decode) && Sound(c.decode, c.ok, c.length) && Small(b) && DecodeBlock(c, j, b).Ok?
    ensures BlockParts(c, DecodeBlock(c, j, b).value) && PartsLengthOf(c, DecodeBlock(c, j, b).value) < 10 * |b|
  {
    var frontOk, frontLength := v => FrontOk(c, v), v => FrontLength(c, v);
    var backOk, backLength := (v: (seq<S>, Option<PQSignature>)) => SealOk(v.1), (v: (seq<S>, Option<PQSignature>)) => SealLength(v.1);
    forall d | Small(d) && FrontDecoder(c)(d).Ok?
      ensures var r := FrontDecoder(c)(d); frontOk(r.value) && frontLength(r.value) <= Budget(d, r.rest)
    {
      FrontSound(c, d);
    }
    forall d, end | Small(d) && BackDecoder(j)(d, end).Ok?
      ensures var r := BackDecoder(j)(d, end); backOk(r.value) && backLength(r.value) <= Budget(d, r.rest) + 1
    {
      BackSound(j, d, end);
    }
    BoundedSound(FrontDecoder(c), BackDecoder(j), frontOk, backOk, frontLength, backLength, b);
  }

  /** The system transactions, as they would be written, leave room for the rest. */
  predicate TextsLeaveRoom<T, S>(c: Codec<T>, j: Text<S>, b: Block<T, S>) {
    TextsFit(j, b.system) && BlockFieldsLength(c, j, b, false, Current) <= U64_MAX
  }

  /** They leave room for whatever else was read from `size` bytes. The empty list, which takes
      one byte, always does. */
  predicate TextsAreShort<S>(j: Text<S>, system: seq<S>, size: nat) {
    TextsFit(j, system) && SystemLength(j, system) + 10 * size <= U64_MAX + 1
  }

  lemma ShortTextsLeaveRoom<T, S>(c: Codec<T>, j: Text<S>, b: Block<T, S>, size: nat)
    requires BlockParts(c, b) && PartsLengthOf(c, b) < 10 * size
    ensures BlockOk(c, j, b, false, Current) <==> TextsLeaveRoom(c, j, b)
    ensures TextsAreShort(j, b.system, size) ==> TextsLeaveRoom(c, j, b)
    ensures b.system == [] && 10 * size <= U64_MAX ==> TextsAreShort(j, b.system, size)
  {
  }

  /** What a block needs that was read from `b`: it can be written and is read back as itself when
      its system transactions are short as they would be written, as when there are none, and
      never when they leave no room. */
  ghost predicate ReadBack<T, S>(c: Codec<T>, j: Text<S>, x: Block<T, S>, b: Bytes, r: Bytes)
    requires Consumes(c.decode)
  {
    && BlockParts(c, x) && PartsLengthOf(c, x) < 10 * |b|
    && (x.system == [] ==> TextsAreShort(j, x.system, |b|))
    && (TextsAreShort(j, x.system, |b|) ==> TextsLeaveRoom(c, j, x))
    && (BlockOk(c, j, x, false, Current) <==> TextsLeaveRoom(c, j, x))
    && (TextsLeaveRoom(c, j, x) ==> DecodeBlock(c, j, EncodeBlock(c, j, x, false, Current) + r) == Ok(x, r))
  }

  lemma BlockSound<T(!new), S(!new)>(c: Codec<T>, j: Text<S>, b: Bytes, r: Bytes)
    requires Lawful(c) && Readable(j) && Sound(c.decode, c.ok, c.length) && Small(b) && DecodeBlock(c, j, b).Ok?
    ensures ReadBack(c, j, DecodeBlock(c, j, b).value, b, r)
  {
    BlockPartsSound(c, j, b);
    var x := DecodeBlock(c, j, b).value;
    ShortTextsLeaveRoom(c, j, x, |b|);
    if TextsLeaveRoom(c, j, x) {
      BlockRoundTrip(c, j, x, false, Current, r);
    }
  }

  /** Both kinds of transactions are of this kind. */
  lemma CodecsSound()
    ensures Sound(SignedCodec().decode, SignedCodec().ok, SignedCodec().length)
    ensures Sound(StrippedCodec().decode, StrippedCodec().ok, StrippedCodec().length)
  {
    forall b | Small(b) && DecodeSigned(b).Ok?
      ensures SignedOk(DecodeSigned(b).value) && SignedLength(DecodeSigned(b).value) <= Budget(b, DecodeSigned(b).rest)
    {
      SignedCost(b);
    }
    forall b | Small(b) && DecodeStripped(b).Ok?
      ensures StrippedOk(DecodeStripped(b).value) && StrippedLength(DecodeStripped(b).value) <= Budget(b, DecodeStripped(b).rest)
    {
      StrippedCost(b);
    }
  }

  /** Full and stripped blocks read from any bytes. */
  lemma FullBlockSound<S(!new)>(j: Text<S>, b: Bytes, r: Bytes)
    requires Readable(j) && Small(b) && DecodeBlock(SignedCodec(), j, b).Ok?
    ensures ReadBack(SignedCodec(), j, DecodeBlock(SignedCodec(), j, b).value, b, r)
  {
    CodecsSound();
    SignedLawful();
    BlockSound(SignedCodec(), j, b, r);
  }

  lemma StrippedBlockSound<S(!new)>(j: Text<S>, b: Bytes, r: Bytes)
    requires Readable(j) && Small(b) && DecodeBlock(StrippedCodec(), j, b).Ok?
    ensures ReadBack(StrippedCodec(), j, DecodeBlock(StrippedCodec(), j, b).value, b, r)
  {
    CodecsSound();
    StrippedLawful();
    BlockSound(StrippedCodec(), j, b, r);
  }
}
