/** Wire format of inner calls, session authorisations, account-abstraction bundles and signed
    transactions. */
module Bundles {
  import opened Common
  import opened Rlp
  import opened Signatures
  import opened Transactions

  // ---------------------------------------------------------------------------
  // Inner calls
  // ---------------------------------------------------------------------------

  datatype InnerCall = InnerCall(to: Option<Bytes32>, value: U256, data: Bytes, gasLimit: U64)

  function CallFieldsLength(c: InnerCall): nat {
    Option32Length(c.to) + UintLength(c.value) + StringLength(c.data) + UintLength(c.gasLimit)
  }

  function CallLength(c: InnerCall): nat { RecordLength(CallFieldsLength(c)) }

  predicate CallOk(c: InnerCall) { |c.data| <= MAX_INNER_CALLDATA && CallFieldsLength(c) <= U64_MAX }

  function CallFields(c: InnerCall): seq<Bytes>
    requires CallOk(c)
  {
    [EncodeOption32(c.to), EncodeUint(c.value), EncodeString(c.data), EncodeU64(c.gasLimit)]
  }

  function EncodeCall(c: InnerCall): Bytes
    requires CallOk(c)
  {
    EncodeRecord(CallFieldsLength(c), CallFields(c))
  }

  function DecodeCallFields(buf: Bytes): (r: Decoded<InnerCall>)
    ensures r.Ok? ==> |r.rest| < |buf|
  {
    var (to, b1) :- DecodeOption32(buf);
    var (value, b2) :- DecodeU256(b1);
    var (data, b3) :- DecodeString(b2);
    if |data| > MAX_INNER_CALLDATA then Err
    else
      var (gasLimit, b4) :- DecodeU64(b3);
      Ok(InnerCall(to, value, data, gasLimit), b4)
  }

  function DecodeCall(buf: Bytes): (r: Decoded<InnerCall>)
    ensures r.Ok? ==> |r.rest| < |buf|
  {
    DecodeRecord(DecodeCallFields, buf)
  }

  lemma CallFieldsRoundTrip(c: InnerCall, r: Bytes)
    requires CallOk(c)
    ensures DecodeCallFields(Flat(CallFields(c), r)) == Ok(c, r)
    ensures SumLength(CallFields(c)) == CallFieldsLength(c)
  {
    var f := CallFields(c);
    Flat4(f[0], f[1], f[2], f[3], r);
    var r3 := f[3] + r;
    var r2 := f[2] + r3;
    Option32RoundTrip(c.to, f[1] + r2);
    U256RoundTrip(c.value, r2);
    StringRoundTrip(c.data, r3);
    StringLengthOk(c.data);
    U64RoundTrip(c.gasLimit, r);
  }

  lemma CallRoundTrip(c: InnerCall, r: Bytes)
    requires CallOk(c)
    ensures DecodeCall(EncodeCall(c) + r) == Ok(c, r)
    ensures |EncodeCall(c)| == CallLength(c)
  {
    CallFieldsRoundTrip(c, r);
    RecordRoundTrip(DecodeCallFields, c, CallFieldsLength(c), CallFields(c), r);
  }

  function CallEncodings(calls: seq<InnerCall>): (r: seq<Bytes>)
    requires forall i :: 0 <= i < |calls| ==> CallOk(calls[i])
    ensures |r| == |calls|
  {
    seq(|calls|, i requires 0 <= i < |calls| => EncodeCall(calls[i]))
  }

  predicate CallsOk(calls: seq<InnerCall>) {
    && |calls| <= MAX_INNER_CALLS && (forall i :: 0 <= i < |calls| ==> CallOk(calls[i]))
    && ItemsLength(CallLength, calls) <= U64_MAX
  }

  function EncodeCalls(calls: seq<InnerCall>): Bytes
    requires CallsOk(calls)
  {
    EncodeRecord(ItemsLength(CallLength, calls), CallEncodings(calls))
  }

  function DecodeCalls(buf: Bytes): (r: Decoded<seq<InnerCall>>)
    ensures r.Ok? ==> |r.rest| < |buf|
  {
    DecodeListOf(DecodeCall, MAX_INNER_CALLS, buf)
  }

  lemma CallsRoundTrip(calls: seq<InnerCall>, r: Bytes)
    requires CallsOk(calls)
    ensures DecodeCalls(EncodeCalls(calls) + r) == Ok(calls, r)
    ensures |EncodeCalls(calls)| == RecordLength(ItemsLength(CallLength, calls))
  {
    var encodings := CallEncodings(calls);
    forall i, s | 0 <= i < |calls| ensures DecodeCall(encodings[i] + s) == Ok(calls[i], s) { CallRoundTrip(calls[i], s); }
    forall i | 0 <= i < |calls| ensures |encodings[i]| == CallLength(calls[i]) { CallRoundTrip(calls[i], []); }
    ListOfRoundTrip(DecodeCall, CallLength, calls, encodings, MAX_INNER_CALLS, r);
  }

  // ---------------------------------------------------------------------------
  // Session authorisations
  // ---------------------------------------------------------------------------

  datatype SessionAuth = SessionAuth(
    pubkey: Bytes, algo: U8, target: Option<Bytes32>, valueCap: U256, expiryBlock: U64,
    rootSignature: Bytes, sessionSignature: Bytes)

  /** The value cap is written as trimmed bytes, zero as one zero byte. */
  function CapBytes(cap: U256): Bytes { if cap == 0 then [0] else BigEndian(cap) }

  function SessionFieldsLength(s: SessionAuth): nat {
    StringLength(s.pubkey) + UintLength(s.algo) + Option32Length(s.target) + StringLength(CapBytes(s.valueCap))
    + UintLength(s.expiryBlock) + StringLength(s.rootSignature) + StringLength(s.sessionSignature)
  }

  function SessionLength(s: SessionAuth): nat { RecordLength(SessionFieldsLength(s)) }

  predicate SessionOk(s: SessionAuth) {
    && |s.pubkey| <= MAX_SESSION_PUBKEY && |s.rootSignature| <= MAX_SIGNATURE_BYTES
    && |s.sessionSignature| <= MAX_SIGNATURE_BYTES && SessionFieldsLength(s) <= U64_MAX
  }

  function EncodeCap(cap: U256): Bytes {
    BigEndianLength(cap, 32);
    EncodeString(CapBytes(cap))
  }

  function SessionScope(s: SessionAuth): seq<Bytes>
    requires SessionOk(s)
  {
    [EncodeString(s.pubkey), EncodeU64(s.algo), EncodeOption32(s.target), EncodeCap(s.valueCap)]
  }

  function SessionProof(s: SessionAuth): seq<Bytes>
    requires SessionOk(s)
  {
    [EncodeU64(s.expiryBlock), EncodeString(s.rootSignature), EncodeString(s.sessionSignature)]
  }

  function EncodeSession(s: SessionAuth): Bytes
    requires SessionOk(s)
  {
    EncodeRecord(SessionFieldsLength(s), SessionScope(s) + SessionProof(s))
  }

  function DecodeCap(buf: Bytes): (r: Decoded<U256>)
    ensures r.Ok? ==> |r.rest| < |buf|
  {
    var (b, rest) :- DecodeString(buf);
    if |b| > 32 || b == [] || (|b| > 1 && b[0] == 0) then Err
    else
      FromBigEndianBound(b);
      Power256Grows(|b|, 32);
      Ok(FromBigEndian(b), rest)
  }

  lemma CapRoundTrip(cap: U256, r: Bytes)
    ensures DecodeCap(EncodeCap(cap) + r) == Ok(cap, r)
    ensures |EncodeCap(cap)| == StringLength(CapBytes(cap))
  {
    BigEndianLength(cap, 32);
    BigEndianInverse(cap);
    StringRoundTrip(CapBytes(cap), r);
    StringLengthOk(CapBytes(cap));
    assert FromBigEndian([0]) == 0;
  }

  function DecodeSessionScope(buf: Bytes): (r: Decoded<(Bytes, U8, Option<Bytes32>, U256)>)
    ensures r.Ok? ==> |r.rest| < |buf|
  {
    var (pubkey, b1) :- DecodeString(buf);
    if |pubkey| > MAX_SESSION_PUBKEY then Err
    else
      var (algo, b2) :- DecodeU64(b1);
      if algo > 255 then Err
      else
        var (target, b3) :- DecodeOption32(b2);
        var (cap, b4) :- DecodeCap(b3);
        Ok((pubkey, algo, target, cap), b4)
  }

  function DecodeSessionProof(buf: Bytes): (r: Decoded<(U64, Bytes, Bytes)>)
    ensures r.Ok? ==> |r.rest| < |buf|
  {
    var (expiry, b1) :- DecodeU64(buf);
    var (root, b2) :- DecodeString(b1);
    if |root| > MAX_SIGNATURE_BYTES then Err
    else
      var (session, b3) :- DecodeString(b2);
      if |session| > MAX_SIGNATURE_BYTES then Err else Ok((expiry, root, session), b3)
  }

  function DecodeSessionFields(buf: Bytes): (r: Decoded<SessionAuth>)
    ensures r.Ok? ==> |r.rest| < |buf|
  {
    var (a, b1) :- DecodeSessionScope(buf);
    var (p, b2) :- DecodeSessionProof(b1);
    Ok(SessionAuth(a.0, a.1, a.2, a.3, p.0, p.1, p.2), b2)
  }

  function DecodeSession(buf: Bytes): (r: Decoded<SessionAuth>)
    ensures r.Ok? ==> |r.rest| < |buf|
  {
    DecodeRecord(DecodeSessionFields, buf)
  }

  lemma SessionScopeRoundTrip(s: SessionAuth, r: Bytes)
    requires SessionOk(s)
    ensures DecodeSessionScope(Flat(SessionScope(s), r)) == Ok((s.pubkey, s.algo, s.target, s.valueCap), r)
    ensures SumLength(SessionScope(s)) == StringLength(s.pubkey) + UintLength(s.algo) + Option32Length(s.target)
                                          + StringLength(CapBytes(s.valueCap))
  {
    var f := SessionScope(s);
    Flat4(f[0], f[1], f[2], f[3], r);
    var r3 := f[3] + r;
    var r2 := f[2] + r3;
    StringRoundTrip(s.pubkey, f[1] + r2);
    StringLengthOk(s.pubkey);
    U64RoundTrip(s.algo, r2);
    Option32RoundTrip(s.target, r3);
    CapRoundTrip(s.valueCap, r);
  }

  lemma SessionProofRoundTrip(s: SessionAuth, r: Bytes)
    requires SessionOk(s)
    ensures DecodeSessionProof(Flat(SessionProof(s), r)) == Ok((s.expiryBlock, s.rootSignature, s.sessionSignature), r)
    ensures SumLength(SessionProof(s)) == UintLength(s.expiryBlock) + StringLength(s.rootSignature)
                                          + StringLength(s.sessionSignature)
  {
    var f := SessionProof(s);
    Flat3(f[0], f[1], f[2], r);
    var r2 := f[2] + r;
    U64RoundTrip(s.expiryBlock, f[1] + r2);
    StringRoundTrip(s.rootSignature, r2);
    StringLengthOk(s.rootSignature);
    StringRoundTrip(s.sessionSignature, r);
    StringLengthOk(s.sessionSignature);
  }

  lemma SessionFieldsRoundTrip(s: SessionAuth, r: Bytes)
    requires SessionOk(s)
    ensures DecodeSessionFields(Flat(SessionScope(s) + SessionProof(s), r)) == Ok(s, r)
    ensures SumLength(SessionScope(s) + SessionProof(s)) == SessionFieldsLength(s)
  {
    FlatAppend(SessionScope(s), SessionProof(s), r);
    SessionScopeRoundTrip(s, Flat(SessionProof(s), r));
    SessionProofRoundTrip(s, r);
  }

  lemma SessionRoundTrip(s: SessionAuth, r: Bytes)
    requires SessionOk(s)
    ensures DecodeSession(EncodeSession(s) + r) == Ok(s, r)
    ensures |EncodeSession(s)| == SessionLength(s)
    ensures EncodeSession(s)[0] >= 0xC0
  {
    SessionFieldsRoundTrip(s, r);
    RecordRoundTrip(DecodeSessionFields, s, SessionFieldsLength(s), SessionScope(s) + SessionProof(s), r);
  }

  // ---------------------------------------------------------------------------
  // Bundles
  // ---------------------------------------------------------------------------

  datatype AaBundle = AaBundle(
    innerCalls: seq<InnerCall>, paymaster: Option<Bytes32>, paymasterSignature: Option<Bytes>,
    paymasterContext: Option<Bytes>, sessionAuth: Option<SessionAuth>)

  /** Everything but the session authorisation, the last field. */
  type BundleParts = (seq<InnerCall>, Option<Bytes32>, Option<Bytes>, Option<Bytes>)

  function PartsOf(b: AaBundle): BundleParts {
    (b.innerCalls, b.paymaster, b.paymasterSignature, b.paymasterContext)
  }

  function PartsLength(p: BundleParts): nat {
    RecordLength(ItemsLength(CallLength, p.0)) + Option32Length(p.1) + (OptionBytesLength(p.2) + OptionBytesLength(p.3))
  }

  function OldBundleFieldsLength(b: AaBundle): nat { PartsLength(PartsOf(b)) }

  function BundleFieldsLength(b: AaBundle): nat {
    OldBundleFieldsLength(b) + if b.sessionAuth.Some? then SessionLength(b.sessionAuth.value) else 1
  }

  function BundleLength(b: AaBundle): nat { RecordLength(BundleFieldsLength(b)) }

  /** Normalised (no empty signature or context) and within the limits. */
  predicate BundleOk(b: AaBundle) {
    && CallsOk(b.innerCalls)
    && NotEmpty(b.paymasterSignature) && (b.paymasterSignature.Some? ==> |b.paymasterSignature.value| <= MAX_SIGNATURE_BYTES)
    && NotEmpty(b.paymasterContext) && (b.paymasterContext.Some? ==> |b.paymasterContext.value| <= MAX_PAYMASTER_CONTEXT)
    && (b.sessionAuth.Some? ==> SessionOk(b.sessionAuth.value))
    && BundleFieldsLength(b) <= U64_MAX
  }

  function SponsorFields(b: AaBundle): seq<Bytes>
    requires BundleOk(b)
  {
    [EncodeOptionBytes(b.paymasterSignature), EncodeOptionBytes(b.paymasterContext)]
  }

  function BundleFields(b: AaBundle): seq<Bytes>
    requires BundleOk(b)
  {
    [EncodeCalls(b.innerCalls), EncodeOption32(b.paymaster)] + SponsorFields(b)
  }

  function SessionField(b: AaBundle): Bytes
    requires BundleOk(b)
  {
    if b.sessionAuth.Some? then EncodeSession(b.sessionAuth.value) else EncodeString([])
  }

  function EncodeBundle(b: AaBundle): Bytes
    requires BundleOk(b)
  {
    EncodeRecord(BundleFieldsLength(b), BundleFields(b) + [SessionField(b)])
  }

  /** Bundles written before session keys existed end after the paymaster context. */
  function EncodeOldBundle(b: AaBundle): Bytes
    requires BundleOk(b) && b.sessionAuth.None?
  {
    EncodeRecord(OldBundleFieldsLength(b), BundleFields(b))
  }

  /** The paymaster's signature and context, within their limits. */
  function DecodeSponsor(buf: Bytes): (r: Decoded<(Option<Bytes>, Option<Bytes>)>)
    ensures r.Ok? ==> |r.rest| < |buf|
  {
    var (sig, b1) :- DecodeOptionBytes(buf);
    if sig.Some? && |sig.value| > MAX_SIGNATURE_BYTES then Err
    else
      var (context, b2) :- DecodeOptionBytes(b1);
      if context.Some? && |context.value| > MAX_PAYMASTER_CONTEXT then Err else Ok((sig, context), b2)
  }

  function DecodeBundleFields(buf: Bytes): (r: Decoded<BundleParts>)
    ensures r.Ok? ==> |r.rest| < |buf|
  {
    var (calls, b1) :- DecodeCalls(buf);
    var (paymaster, b2) :- DecodeOption32(b1);
    var (sponsor, b3) :- DecodeSponsor(b2);
    Ok((calls, paymaster, sponsor.0, sponsor.1), b3)
  }

  /** The last field, where there is one: a list or an empty marker. */
  function DecodeSessionField(buf: Bytes, fields: BundleParts): (r: Decoded<Option<SessionAuth>>)
    ensures r.Ok? ==> |r.rest| <= |buf|
  {
    if buf != [] && buf[0] >= 0xC0 then
      var (s, rest) :- DecodeSession(buf);
      Ok(Some(s), rest)
    else
      var (marker, rest) :- DecodeString(buf);
      if marker != [] then Err else Ok(None, rest)
  }

  function DecodeBundle(buf: Bytes): (r: Decoded<AaBundle>)
    ensures r.Ok? ==> |r.rest| < |buf|
  {
    var (v, rest) :- DecodeOpenRecord(DecodeBundleFields, DecodeSessionField, None, buf);
    Ok(AaBundle(v.0.0, v.0.1, v.0.2, v.0.3, v.1), rest)
  }

  lemma SponsorRoundTrip(b: AaBundle, r: Bytes)
    requires BundleOk(b)
    ensures DecodeSponsor(Flat(SponsorFields(b), r)) == Ok((b.paymasterSignature, b.paymasterContext), r)
    ensures SumLength(SponsorFields(b)) == OptionBytesLength(b.paymasterSignature) + OptionBytesLength(b.paymasterContext)
  {
    var sig, context := EncodeOptionBytes(b.paymasterSignature), EncodeOptionBytes(b.paymasterContext);
    Flat2(sig, context, r);
    OptionBytesRoundTrip(b.paymasterSignature, context + r);
    OptionBytesRoundTrip(b.paymasterContext, r);
  }

  lemma BundleFieldsRoundTrip(b: AaBundle, r: Bytes)
    requires BundleOk(b)
    ensures DecodeBundleFields(Flat(BundleFields(b), r)) == Ok(PartsOf(b), r)
    ensures SumLength(BundleFields(b)) == OldBundleFieldsLength(b)
  {
    var calls, paymaster, sponsor := EncodeCalls(b.innerCalls), EncodeOption32(b.paymaster), SponsorFields(b);
    var tail := Flat(sponsor, r);
    FlatAppend([calls, paymaster], sponsor, r);
    Flat2(calls, paymaster, tail);
    CallsRoundTrip(b.innerCalls, paymaster + tail);
    Option32RoundTrip(b.paymaster, tail);
    SponsorRoundTrip(b, r);
  }

  lemma SessionFieldRoundTrip(b: AaBundle, r: Bytes)
    requires BundleOk(b)
    ensures DecodeSessionField(SessionField(b) + r, PartsOf(b)) == Ok(b.sessionAuth, r)
    ensures |SessionField(b)| == if b.sessionAuth.Some? then SessionLength(b.sessionAuth.value) else 1
    ensures |SessionField(b)| >= 1
  {
    if b.sessionAuth.Some? {
      SessionRoundTrip(b.sessionAuth.value, r);
    } else {
      StringRoundTrip([], r);
    }
  }

  lemma BundleRoundTrip(b: AaBundle, r: Bytes)
    requires BundleOk(b)
    ensures DecodeBundle(EncodeBundle(b) + r) == Ok(b, r)
    ensures |EncodeBundle(b)| == BundleLength(b)
  {
    var last := SessionField(b);
    Flat1(last, r);
    BundleFieldsRoundTrip(b, last + r);
    SessionFieldRoundTrip(b, r);
    OpenRecordRoundTrip(DecodeBundleFields, DecodeSessionField, None, PartsOf(b), b.sessionAuth, BundleFieldsLength(b),
                        BundleFields(b), [last], r);
  }

  /** An old bundle is read as the same bundle without a session key. */
  lemma OldBundleDecodes(b: AaBundle, r: Bytes)
    requires BundleOk(b) && b.sessionAuth.None?
    ensures DecodeBundle(EncodeOldBundle(b) + r) == Ok(b, r)
  {
    BundleFieldsRoundTrip(b, r);
    ShortRecordRoundTrip(DecodeBundleFields, DecodeSessionField, None, PartsOf(b), OldBundleFieldsLength(b), BundleFields(b), r);
  }

  // ---------------------------------------------------------------------------
  // Signed transactions
  // ---------------------------------------------------------------------------

  datatype PubkeyMode = Embedded(key: Bytes) | Reference

  datatype SignedTransaction = SignedTransaction(
    from: Bytes32, tx: Transaction, signature: PQSignature, pubkeyMode: PubkeyMode, aaBundle: Option<AaBundle>)

  function PubkeyBytes(m: PubkeyMode): Bytes { if m.Embedded? then m.key else [] }

  function PubkeyLength(m: PubkeyMode): nat { if m.Embedded? then StringLength(m.key) else 1 }

  function BundleFieldLength(b: Option<AaBundle>): nat { if b.Some? then 1 + BundleLength(b.value) else 0 }

  function SignedFieldsLength(s: SignedTransaction): nat {
    StringLength(s.from) + TxLength(s.tx) + SignatureLength(s.signature) + PubkeyLength(s.pubkeyMode)
    + BundleFieldLength(s.aaBundle)
  }

  function SignedLength(s: SignedTransaction): nat { RecordLength(SignedFieldsLength(s)) }

  predicate BundleMatches(t: Transaction, b: Option<AaBundle>) {
    b.Some? ==> BundleOk(b.value) && t.txType == AA_BUNDLE_TX_TYPE
  }

  predicate SignedOk(s: SignedTransaction) {
    && TxOk(s.tx) && SizeOk(s.signature) && SignatureFits(s.signature)
    && (s.pubkeyMode.Embedded? ==> s.pubkeyMode.key != [])
    && BundleMatches(s.tx, s.aaBundle) && SignedFieldsLength(s) <= U64_MAX
  }

  /** A presence flag and the bundle, or nothing at all. */
  function BundleField(t: Transaction, b: Option<AaBundle>): seq<Bytes>
    requires BundleMatches(t, b)
  {
    if b.Some? then [[AA_BUNDLE_PRESENCE_FLAG], EncodeBundle(b.value)] else []
  }

  function BodyFields(from: Bytes32, t: Transaction): seq<Bytes>
    requires TxOk(t)
  {
    [EncodeString(from), EncodeTx(t)]
  }

  function ProofFields(signature: PQSignature, key: Bytes): seq<Bytes>
    requires SignatureFits(signature) && |key| <= U64_MAX
  {
    [EncodeSignature(signature), EncodeString(key)]
  }

  function SignedFields(s: SignedTransaction): seq<Bytes>
    requires SignedOk(s)
  {
    BodyFields(s.from, s.tx) + ProofFields(s.signature, PubkeyBytes(s.pubkeyMode))
  }

  function EncodeSigned(s: SignedTransaction): Bytes
    requires SignedOk(s)
  {
    EncodeRecord(SignedFieldsLength(s), SignedFields(s) + BundleField(s.tx, s.aaBundle))
  }

  type SignedParts = ((Bytes32, Transaction), (PQSignature, PubkeyMode))

  function DecodeFlaggedBundle(buf: Bytes, t: Transaction): (r: Decoded<Option<AaBundle>>)
    ensures r.Ok? ==> |r.rest| <= |buf|
  {
    if buf == [] || buf[0] != AA_BUNDLE_PRESENCE_FLAG || t.txType != AA_BUNDLE_TX_TYPE then Err
    else
      var (b, rest) :- DecodeBundle(buf[1..]);
      Ok(Some(b), rest)
  }

  function DecodeBundleField(buf: Bytes, fields: SignedParts): (r: Decoded<Option<AaBundle>>)
    ensures r.Ok? ==> |r.rest| <= |buf|
  {
    DecodeFlaggedBundle(buf, fields.0.1)
  }

  function DecodeBody(buf: Bytes): (r: Decoded<(Bytes32, Transaction)>)
    ensures r.Ok? ==> |r.rest| < |buf|
  {
    var (from, b1) :- Decode32(buf);
    var (tx, b2) :- DecodeTx(b1);
    Ok((from, tx), b2)
  }

  function DecodeProof(buf: Bytes): (r: Decoded<(PQSignature, PubkeyMode)>)
    ensures r.Ok? ==> |r.rest| < |buf|
  {
    var (signature, b1) :- DecodeSignature(buf);
    var (key, b2) :- DecodeString(b1);
    Ok((signature, if key == [] then Reference else Embedded(key)), b2)
  }

  function DecodeSignedFields(buf: Bytes): (r: Decoded<SignedParts>)
    ensures r.Ok? ==> |r.rest| < |buf|
  {
    var (body, b1) :- DecodeBody(buf);
    var (proof, b2) :- DecodeProof(b1);
    Ok((body, proof), b2)
  }

  function DecodeSigned(buf: Bytes): (r: Decoded<SignedTransaction>)
    ensures r.Ok? ==> |r.rest| < |buf|
  {
    var (v, rest) :- DecodeOpenRecord(DecodeSignedFields, DecodeBundleField, None, buf);
    Ok(SignedTransaction(v.0.0.0, v.0.0.1, v.0.1.0, v.0.1.1, v.1), rest)
  }

  lemma BundleFieldRoundTrip(t: Transaction, b: Option<AaBundle>, r: Bytes)
    requires BundleMatches(t, b)
    ensures SumLength(BundleField(t, b)) == BundleFieldLength(b)
    ensures var e := Flat(BundleField(t, b), r);
            if b.Some? then DecodeFlaggedBundle(e, t) == Ok(b, r) else e == r
  {
    if b.Some? {
      BundleRoundTrip(b.value, r);
      var e := EncodeBundle(b.value);
      Flat2([AA_BUNDLE_PRESENCE_FLAG], e, r);
      assert ([AA_BUNDLE_PRESENCE_FLAG] + (e + r))[1..] == e + r;
    }
  }

  lemma BodyRoundTrip(from: Bytes32, t: Transaction, r: Bytes)
    requires TxOk(t)
    ensures DecodeBody(Flat(BodyFields(from, t), r)) == Ok((from, t), r)
    ensures SumLength(BodyFields(from, t)) == StringLength(from) + TxLength(t)
  {
    Flat2(EncodeString(from), EncodeTx(t), r);
    RoundTrip32(from, EncodeTx(t) + r);
    StringLengthOk(from);
    TxRoundTrip(t, r);
  }

  lemma ProofRoundTrip(signature: PQSignature, mode: PubkeyMode, r: Bytes)
    requires SignatureFits(signature) && SizeOk(signature) && |PubkeyBytes(mode)| <= U64_MAX
    requires mode.Embedded? ==> mode.key != []
    ensures DecodeProof(Flat(ProofFields(signature, PubkeyBytes(mode)), r)) == Ok((signature, mode), r)
    ensures SumLength(ProofFields(signature, PubkeyBytes(mode))) == SignatureLength(signature) + PubkeyLength(mode)
  {
    var key := EncodeString(PubkeyBytes(mode));
    Flat2(EncodeSignature(signature), key, r);
    SignatureRoundTrip(signature, key + r);
    SignatureLengthOk(signature);
    StringRoundTrip(PubkeyBytes(mode), r);
    StringLengthOk(PubkeyBytes(mode));
  }

  lemma SignedFieldsRoundTrip(s: SignedTransaction, r: Bytes)
    requires SignedOk(s)
    ensures DecodeSignedFields(Flat(SignedFields(s), r)) == Ok(((s.from, s.tx), (s.signature, s.pubkeyMode)), r)
    ensures SumLength(SignedFields(s)) + BundleFieldLength(s.aaBundle) == SignedFieldsLength(s)
  {
    var body, proof := BodyFields(s.from, s.tx), ProofFields(s.signature, PubkeyBytes(s.pubkeyMode));
    FlatAppend(body, proof, r);
    ProofRoundTrip(s.signature, s.pubkeyMode, r);
    BodyRoundTrip(s.from, s.tx, Flat(proof, r));
  }

  /** A signed transaction is read back exactly and its recorded length is right. */
  lemma SignedRoundTrip(s: SignedTransaction, r: Bytes)
    requires SignedOk(s)
    ensures DecodeSigned(EncodeSigned(s) + r) == Ok(s, r)
    ensures |EncodeSigned(s)| == SignedLength(s)
  {
    var parts: SignedParts := ((s.from, s.tx), (s.signature, s.pubkeyMode));
    var last := BundleField(s.tx, s.aaBundle);
    BundleFieldRoundTrip(s.tx, s.aaBundle, r);
    SignedFieldsRoundTrip(s, Flat(last, r));
    OpenRecordRoundTrip(DecodeSignedFields, DecodeBundleField, None, parts, s.aaBundle, SignedFieldsLength(s),
                        SignedFields(s), last, r);
  }
}
