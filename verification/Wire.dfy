/** What the encoders write, in the terms of the format itself: RLP is a way to write trees of byte
    strings and lists (Appendix B of the Ethereum Yellow Paper), and each record is one tree. */
module Wire {
  import opened Common
  import opened Rlp
  import opened Signatures
  import opened Transactions
  import opened Bundles
  import opened Blocks
  import opened Witnesses

  datatype Item = Str(bytes: Bytes) | List(items: seq<Item>)

  /** A string or a list: short ones behind one byte that gives the length, long ones behind a byte
      that gives the length of the length, and a single small byte as itself. */
  function Encoding(x: Item): seq<int>
    decreases x
  {
    match x
    case Str(b) =>
      if |b| == 1 && b[0] < 128 then b
      else if |b| < 56 then [128 + |b|] + b
      else [183 + |BigEndian(|b|)|] + BigEndian(|b|) + b
    case List(items) =>
      var all := Encodings(items);
      if |all| < 56 then [192 + |all|] + all
      else [247 + |BigEndian(|all|)|] + BigEndian(|all|) + all
  }

  function Encodings(items: seq<Item>): seq<int>
    decreases items
  {
    if items == [] then [] else Encoding(items[0]) + Encodings(items[1..])
  }

  // ---------------------------------------------------------------------------
  // Numbers
  // ---------------------------------------------------------------------------

  /** The sum of the digits, each times its power of 256, the last one having the power 0. */
  function Value(digits: Bytes): nat {
    if digits == [] then 0 else digits[0] * Power256(|digits| - 1) + Value(digits[1..])
  }

  lemma {:induction false} ValueOfMore(digits: Bytes, d: byte)
    ensures Value(digits + [d]) == 256 * Value(digits) + d
  {
    if digits == [] {
      assert Power256(0) == 1;
    } else {
      var all := digits + [d];
      assert all[1..] == digits[1..] + [d];
      ValueOfMore(digits[1..], d);
      assert Power256(|digits|) == 256 * Power256(|digits| - 1);
    }
  }

  lemma {:induction false} ReadsValue(digits: Bytes)
    ensures FromBigEndian(digits) == Value(digits)
  {
    if digits != [] {
      var rest, d := digits[..|digits| - 1], digits[|digits| - 1];
      ReadsValue(rest);
      ValueOfMore(rest, d);
      assert rest + [d] == digits;
    }
  }

  /** Numbers are written as their digits to base 256, the most significant one first and not zero. */
  lemma BigEndianMeans(n: nat)
    ensures Value(BigEndian(n)) == n && (n > 0 ==> BigEndian(n)[0] != 0)
  {
    BigEndianInverse(n);
    ReadsValue(BigEndian(n));
  }

  // ---------------------------------------------------------------------------
  // Strings and records
  // ---------------------------------------------------------------------------

  lemma StringIs(b: Bytes)
    requires |b| <= U64_MAX
    ensures Is(EncodeString(b), Str(b))
  {
  }

  ghost predicate Is(field: Bytes, x: Item) { field == Encoding(x) }

  /** The fields are the encodings of the items. */
  ghost predicate Spells(fields: seq<Bytes>, items: seq<Item>) {
    |fields| == |items| && forall i :: 0 <= i < |fields| ==> Is(fields[i], items[i])
  }

  lemma {:induction false} FlatIs(fields: seq<Bytes>, items: seq<Item>)
    requires Spells(fields, items)
    ensures Flat(fields, []) == Encodings(items)
  {
    if fields != [] {
      FlatIs(fields[1..], items[1..]);
    }
  }

  lemma RecordIs(length: nat, fields: seq<Bytes>, items: seq<Item>)
    requires Spells(fields, items) && length == SumLength(fields) <= U64_MAX
    ensures Is(EncodeRecord(length, fields), List(items))
  {
    FlatIs(fields, items);
    FlatTail(fields, []);
  }

  lemma Spells1(a: Bytes, u: Item)
    requires Is(a, u)
    ensures Spells([a], [u])
  {
  }

  lemma Spells2(a: Bytes, u: Item, b: Bytes, v: Item)
    requires Is(a, u) && Is(b, v)
    ensures Spells([a, b], [u, v])
  {
  }

  lemma Spells3(a: Bytes, u: Item, b: Bytes, v: Item, c: Bytes, w: Item)
    requires Is(a, u) && Is(b, v) && Is(c, w)
    ensures Spells([a, b, c], [u, v, w])
  {
  }

  lemma Spells4(a: Bytes, u: Item, b: Bytes, v: Item, c: Bytes, w: Item, d: Bytes, x: Item)
    requires Is(a, u) && Is(b, v) && Is(c, w) && Is(d, x)
    ensures Spells([a, b, c, d], [u, v, w, x])
  {
  }

  lemma Spells5(a: Bytes, u: Item, b: Bytes, v: Item, c: Bytes, w: Item, d: Bytes, x: Item, e: Bytes, y: Item)
    requires Is(a, u) && Is(b, v) && Is(c, w) && Is(d, x) && Is(e, y)
    ensures Spells([a, b, c, d, e], [u, v, w, x, y])
  {
  }

  lemma Spells6(a: Bytes, u: Item, b: Bytes, v: Item, c: Bytes, w: Item, d: Bytes, x: Item, e: Bytes, y: Item, f: Bytes, z: Item)
    requires Is(a, u) && Is(b, v) && Is(c, w) && Is(d, x) && Is(e, y) && Is(f, z)
    ensures Spells([a, b, c, d, e, f], [u, v, w, x, y, z])
  {
  }

  lemma SpellsAppend(a: seq<Bytes>, x: seq<Item>, b: seq<Bytes>, y: seq<Item>)
    requires Spells(a, x) && Spells(b, y)
    ensures Spells(a + b, x + y)
  {
  }

  function Num(n: nat): Item { Str(BigEndian(n)) }

  function Opt(b: Option<Bytes>): Item { Str(if b.Some? then b.value else []) }

  lemma UintIs(n: U256)
    ensures Is(EncodeUint(n), Num(n))
  {
    BigEndianLength(n, 32);
    StringIs(BigEndian(n));
  }

  lemma U64Is(n: U64)
    ensures Is(EncodeU64(n), Num(n))
  {
    Power256Of8();
    Power256Grows(8, 32);
    UintIs(n);
  }

  lemma U8Is(n: U8)
    ensures Is(EncodeU8(n), Num(n))
  {
    assert Power256(1) == 256;
    Power256Grows(1, 32);
    UintIs(n);
  }

  lemma Option32Is(b: Option<Bytes32>)
    ensures Is(EncodeOption32(b), Opt(b))
  {
    StringIs(if b.Some? then b.value else []);
  }

  lemma OptionBytesIs(b: Option<Bytes>)
    requires b.Some? ==> |b.value| <= U64_MAX
    ensures Is(EncodeOptionBytes(b), Opt(b))
  {
    StringIs(if b.Some? then b.value else []);
  }

  // ---------------------------------------------------------------------------
  // Signatures and transactions
  // ---------------------------------------------------------------------------

  function SignatureItem(s: PQSignature): Item {
    List([Num(match s.sigType case Dilithium3 => 0 case MlDsa65 => 1 case SphincsSha2256f => 2), Str(s.data)])
  }

  lemma SignatureIs(s: PQSignature)
    requires SignatureFits(s)
    ensures Is(EncodeSignature(s), SignatureItem(s))
  {
    SignatureLengthOk(s);
    U8Is(TypeByte(s.sigType));
    StringIs(s.data);
    RecordIs(SignatureFieldsLength(s), SignatureFields(s), SignatureItem(s).items);
  }

  function HashItems(hs: seq<Bytes32>): (r: seq<Item>)
    ensures |r| == |hs|
  {
    seq(|hs|, i requires 0 <= i < |hs| => Str(hs[i]))
  }

  lemma HashesAre(hs: seq<Bytes32>)
    requires ItemsLength(HashLength, hs) <= U64_MAX
    ensures Is(EncodeRecord(ItemsLength(HashLength, hs), HashEncodings(hs)), List(HashItems(hs)))
  {
    HashesOk(hs, |hs|, []);
    forall i | 0 <= i < |hs| ensures HashEncodings(hs)[i] == Encoding(HashItems(hs)[i]) {
      StringIs(hs[i]);
    }
    RecordIs(ItemsLength(HashLength, hs), HashEncodings(hs), HashItems(hs));
  }

  function AccessItem(x: AccessListItem): Item { List([Str(x.address), List(HashItems(x.storageKeys))]) }

  lemma AccessIs(x: AccessListItem)
    requires ItemOk(x)
    ensures Is(EncodeItem(x), AccessItem(x))
  {
    ItemFieldsSum(x);
    StringIs(x.address);
    HashesAre(x.storageKeys);
    RecordIs(ItemFieldsLength(x), [EncodeString(x.address), EncodeKeys(x)], AccessItem(x).items);
  }

  function AccessItems(xs: seq<AccessListItem>): (r: seq<Item>)
    ensures |r| == |xs|
  {
    seq(|xs|, i requires 0 <= i < |xs| => AccessItem(xs[i]))
  }

  /** An absent list is an empty one. */
  function AccessListTree(list: Option<seq<AccessListItem>>): Item { List(if list.Some? then AccessItems(list.value) else []) }

  function BlobHashTree(hs: Option<seq<Bytes32>>): Item { List(if hs.Some? then HashItems(hs.value) else []) }

  lemma AccessListIs(list: Option<seq<AccessListItem>>)
    requires AccessListOk(list)
    ensures Is(EncodeAccessList(list), AccessListTree(list))
  {
    if list.Some? {
      var xs := list.value;
      forall i | 0 <= i < |xs|
        ensures ItemEncodings(xs)[i] == Encoding(AccessItems(xs)[i]) && |ItemEncodings(xs)[i]| == ItemLength(xs[i])
      {
        AccessIs(xs[i]);
        ItemRoundTrip(xs[i], []);
      }
      ItemsLengthOk(ItemLength, xs, ItemEncodings(xs));
      RecordIs(ItemsLength(ItemLength, xs), ItemEncodings(xs), AccessItems(xs));
    }
  }

  lemma BlobHashesAre(hs: Option<seq<Bytes32>>)
    requires BlobHashesOk(hs)
    ensures Is(EncodeBlobHashes(hs), BlobHashTree(hs))
  {
    if hs.Some? {
      HashesAre(hs.value);
    }
  }

  /** A transaction is the list of these thirteen items. */
  function TxItem(t: Transaction): Item {
    List([Num(t.chainId), Num(t.nonce), Opt(t.to), Num(t.value), Str(t.data), Num(t.gasLimit), Num(t.maxFee),
          Num(t.maxPriorityFee), AccessListTree(t.accessList), Num(t.txType), Num(if t.maxFeePerBlobGas.Some? then 1 else 0),
          Num(if t.maxFeePerBlobGas.Some? then t.maxFeePerBlobGas.value else 0), BlobHashTree(t.blobHashes)])
  }

  lemma TxHeadIs(t: Transaction)
    requires TxOk(t)
    ensures Spells(TxHead(t), TxItem(t).items[..6])
  {
    U64Is(t.chainId);
    U64Is(t.nonce);
    Option32Is(t.to);
    UintIs(t.value);
    StringIs(t.data);
    U64Is(t.gasLimit);
    Spells6(EncodeU64(t.chainId), Num(t.chainId), EncodeU64(t.nonce), Num(t.nonce), EncodeOption32(t.to), Opt(t.to),
            EncodeUint(t.value), Num(t.value), EncodeString(t.data), Str(t.data), EncodeU64(t.gasLimit), Num(t.gasLimit));
  }

  lemma TxFeesAre(t: Transaction)
    requires TxOk(t)
    ensures Spells(TxFees(t), TxItem(t).items[6..10])
  {
    U64Is(t.maxFee);
    U64Is(t.maxPriorityFee);
    AccessListIs(t.accessList);
    U8Is(t.txType);
    Spells4(EncodeU64(t.maxFee), Num(t.maxFee), EncodeU64(t.maxPriorityFee), Num(t.maxPriorityFee),
            EncodeAccessList(t.accessList), AccessListTree(t.accessList), EncodeU8(t.txType), Num(t.txType));
  }

  lemma TxBlobsAre(t: Transaction)
    requires TxOk(t)
    ensures Spells(TxBlobs(t), TxItem(t).items[10..])
  {
    var flag := if t.maxFeePerBlobGas.Some? then 1 else 0;
    var fee := if t.maxFeePerBlobGas.Some? then t.maxFeePerBlobGas.value else 0;
    U8Is(flag);
    U64Is(fee);
    BlobHashesAre(t.blobHashes);
    Spells3(EncodeU8(flag), Num(flag), EncodeU64(fee), Num(fee), EncodeBlobHashes(t.blobHashes), BlobHashTree(t.blobHashes));
  }

  lemma TxFieldsAre(t: Transaction)
    requires TxOk(t)
    ensures Spells(TxFields(t), TxItem(t).items)
  {
    var x := TxItem(t).items;
    TxHeadIs(t);
    TxFeesAre(t);
    TxBlobsAre(t);
    SpellsAppend(TxFees(t), x[6..10], TxBlobs(t), x[10..]);
    SpellsAppend(TxHead(t), x[..6], TxFees(t) + TxBlobs(t), x[6..10] + x[10..]);
    assert x[..6] + (x[6..10] + x[10..]) == x;
  }

  /** What is written for a transaction is that list, and reading the list gives the transaction. */
  lemma TxIs(t: Transaction, r: Bytes)
    requires TxOk(t)
    ensures Is(EncodeTx(t), TxItem(t))
    ensures forall b: Bytes :: b == Encoding(TxItem(t)) + r ==> DecodeTx(b) == Ok(t, r)
  {
    TxFieldsAre(t);
    TxFieldsRoundTrip(t, []);
    RecordIs(TxFieldsLength(t), TxFields(t), TxItem(t).items);
    TxRoundTrip(t, r);
  }

  // ---------------------------------------------------------------------------
  // Bundles and signed transactions
  // ---------------------------------------------------------------------------

  function CallItem(c: InnerCall): Item { List([Opt(c.to), Num(c.value), Str(c.data), Num(c.gasLimit)]) }

  lemma CallIs(c: InnerCall)
    requires CallOk(c)
    ensures Is(EncodeCall(c), CallItem(c))
  {
    CallFieldsAre(c);
    CallFieldsRoundTrip(c, []);
    RecordIs(CallFieldsLength(c), CallFields(c), CallItem(c).items);
  }

  lemma CallFieldsAre(c: InnerCall)
    requires CallOk(c)
    ensures Spells(CallFields(c), CallItem(c).items)
  {
    Option32Is(c.to);
    UintIs(c.value);
    StringIs(c.data);
    U64Is(c.gasLimit);
    Spells4(EncodeOption32(c.to), Opt(c.to), EncodeUint(c.value), Num(c.value), EncodeString(c.data), Str(c.data),
            EncodeU64(c.gasLimit), Num(c.gasLimit));
  }

  function CallItems(calls: seq<InnerCall>): (r: seq<Item>)
    ensures |r| == |calls|
  {
    seq(|calls|, i requires 0 <= i < |calls| => CallItem(calls[i]))
  }

  lemma CallsAre(calls: seq<InnerCall>)
    requires CallsOk(calls)
    ensures Is(EncodeCalls(calls), List(CallItems(calls)))
  {
    forall i | 0 <= i < |calls|
      ensures CallEncodings(calls)[i] == Encoding(CallItems(calls)[i]) && |CallEncodings(calls)[i]| == CallLength(calls[i])
    {
      CallIs(calls[i]);
      CallRoundTrip(calls[i], []);
    }
    ItemsLengthOk(CallLength, calls, CallEncodings(calls));
    RecordIs(ItemsLength(CallLength, calls), CallEncodings(calls), CallItems(calls));
  }

  /** The value cap is a string of digits, zero being the digit 0. */
  function SessionItem(s: SessionAuth): Item {
    List([Str(s.pubkey), Num(s.algo), Opt(s.target), Str(if s.valueCap == 0 then [0] else BigEndian(s.valueCap)),
          Num(s.expiryBlock), Str(s.rootSignature), Str(s.sessionSignature)])
  }

  lemma SessionScopeIs(s: SessionAuth)
    requires SessionOk(s)
    ensures Spells(SessionScope(s), SessionItem(s).items[..4])
  {
    StringIs(s.pubkey);
    U64Is(s.algo);
    Option32Is(s.target);
    BigEndianLength(s.valueCap, 32);
    StringIs(CapBytes(s.valueCap));
    Spells4(EncodeString(s.pubkey), Str(s.pubkey), EncodeU64(s.algo), Num(s.algo), EncodeOption32(s.target), Opt(s.target),
            EncodeCap(s.valueCap), Str(CapBytes(s.valueCap)));
  }

  lemma SessionProofIs(s: SessionAuth)
    requires SessionOk(s)
    ensures Spells(SessionProof(s), SessionItem(s).items[4..])
  {
    U64Is(s.expiryBlock);
    StringIs(s.rootSignature);
    StringIs(s.sessionSignature);
    Spells3(EncodeU64(s.expiryBlock), Num(s.expiryBlock), EncodeString(s.rootSignature), Str(s.rootSignature),
            EncodeString(s.sessionSignature), Str(s.sessionSignature));
  }

  lemma SessionIs(s: SessionAuth)
    requires SessionOk(s)
    ensures Is(EncodeSession(s), SessionItem(s))
  {
    var x := SessionItem(s).items;
    SessionScopeIs(s);
    SessionProofIs(s);
    SpellsAppend(SessionScope(s), x[..4], SessionProof(s), x[4..]);
    assert x[..4] + x[4..] == x;
    SessionFieldsRoundTrip(s, []);
    RecordIs(SessionFieldsLength(s), SessionScope(s) + SessionProof(s), x);
  }

  /** An absent session authorisation is an empty string; bundles written before there were any
      end before it. */
  function OldBundleItems(b: AaBundle): seq<Item> {
    [List(CallItems(b.innerCalls)), Opt(b.paymaster), Opt(b.paymasterSignature), Opt(b.paymasterContext)]
  }

  function LastBundleItem(b: AaBundle): Item { if b.sessionAuth.Some? then SessionItem(b.sessionAuth.value) else Str([]) }

  function BundleItem(b: AaBundle): Item {
    List(OldBundleItems(b) + [LastBundleItem(b)])
  }

  lemma BundleFieldsAre(b: AaBundle)
    requires BundleOk(b)
    ensures Spells(BundleFields(b), OldBundleItems(b))
  {
    var calls, pay := EncodeCalls(b.innerCalls), EncodeOption32(b.paymaster);
    CallsAre(b.innerCalls);
    Option32Is(b.paymaster);
    Spells2(calls, List(CallItems(b.innerCalls)), pay, Opt(b.paymaster));
    OptionBytesIs(b.paymasterSignature);
    OptionBytesIs(b.paymasterContext);
    Spells2(EncodeOptionBytes(b.paymasterSignature), Opt(b.paymasterSignature), EncodeOptionBytes(b.paymasterContext),
            Opt(b.paymasterContext));
    SpellsAppend([calls, pay], [List(CallItems(b.innerCalls)), Opt(b.paymaster)],
                 SponsorFields(b), [Opt(b.paymasterSignature), Opt(b.paymasterContext)]);
  }

  lemma LastBundleFieldIs(b: AaBundle)
    requires BundleOk(b)
    ensures Spells([SessionField(b)], [LastBundleItem(b)])
  {
    if b.sessionAuth.Some? {
      SessionIs(b.sessionAuth.value);
    } else {
      StringIs([]);
    }
    Spells1(SessionField(b), LastBundleItem(b));
  }

  lemma BundleIs(b: AaBundle)
    requires BundleOk(b)
    ensures Is(EncodeBundle(b), BundleItem(b))
    ensures b.sessionAuth.None? ==> Is(EncodeOldBundle(b), List(OldBundleItems(b)))
  {
    var last := [SessionField(b)];
    BundleFieldsAre(b);
    LastBundleFieldIs(b);
    BundleFieldsRoundTrip(b, []);
    SessionFieldRoundTrip(b, []);
    FlatAppend(BundleFields(b), last, []);
    Flat1(SessionField(b), []);
    SpellsAppend(BundleFields(b), OldBundleItems(b), last, [LastBundleItem(b)]);
    RecordIs(BundleFieldsLength(b), BundleFields(b) + last, OldBundleItems(b) + [LastBundleItem(b)]);
    RecordIs(OldBundleFieldsLength(b), BundleFields(b), OldBundleItems(b));
  }

  /** The byte 1 and the bundle, or nothing. */
  function FlaggedItems(b: Option<AaBundle>): seq<Item> { if b.Some? then [Str([1]), BundleItem(b.value)] else [] }

  function BodyItems(from: Bytes32, t: Transaction): seq<Item> { [Str(from), TxItem(t)] }

  /** A key that is only referred to is an empty string. */
  function ProofItems(s: PQSignature, key: Option<Bytes>): seq<Item> { [SignatureItem(s), Opt(key)] }

  function SignedItem(s: SignedTransaction): Item {
    List(BodyItems(s.from, s.tx) + ProofItems(s.signature, if s.pubkeyMode.Embedded? then Some(s.pubkeyMode.key) else None)
         + FlaggedItems(s.aaBundle))
  }

  function StrippedItem(s: StrippedTransaction): Item { List(BodyItems(s.from, s.tx) + FlaggedItems(s.aaBundle)) }

  lemma FlaggedIs(t: Transaction, b: Option<AaBundle>)
    requires BundleMatches(t, b)
    ensures Spells(BundleField(t, b), FlaggedItems(b))
  {
    if b.Some? {
      BundleIs(b.value);
    }
  }

  lemma BodyIs(from: Bytes32, t: Transaction)
    requires TxOk(t)
    ensures Spells(BodyFields(from, t), BodyItems(from, t))
  {
    StringIs(from);
    TxIs(t, []);
  }

  lemma ProofIs(s: PQSignature, key: Option<Bytes>)
    requires SignatureFits(s) && (key.Some? ==> |key.value| <= U64_MAX)
    ensures Spells(ProofFields(s, if key.Some? then key.value else []), ProofItems(s, key))
  {
    SignatureIs(s);
    StringIs(if key.Some? then key.value else []);
  }

  lemma SignedFieldsAre(s: SignedTransaction)
    requires SignedOk(s)
    ensures Spells(SignedFields(s), BodyItems(s.from, s.tx) + ProofItems(s.signature, KeyOf(s.pubkeyMode)))
  {
    BodyIs(s.from, s.tx);
    ProofIs(s.signature, KeyOf(s.pubkeyMode));
    SpellsAppend(BodyFields(s.from, s.tx), BodyItems(s.from, s.tx), ProofFields(s.signature, PubkeyBytes(s.pubkeyMode)),
                 ProofItems(s.signature, KeyOf(s.pubkeyMode)));
  }

  lemma SignedSum(s: SignedTransaction)
    requires SignedOk(s)
    ensures SumLength(SignedFields(s) + BundleField(s.tx, s.aaBundle)) == SignedFieldsLength(s)
  {
    BundleFieldRoundTrip(s.tx, s.aaBundle, []);
    SignedFieldsRoundTrip(s, []);
    FlatAppend(SignedFields(s), BundleField(s.tx, s.aaBundle), []);
  }

  lemma SignedIs(s: SignedTransaction)
    requires SignedOk(s)
    ensures Is(EncodeSigned(s), SignedItem(s))
  {
    var last := BundleField(s.tx, s.aaBundle);
    var items := BodyItems(s.from, s.tx) + ProofItems(s.signature, KeyOf(s.pubkeyMode));
    SignedFieldsAre(s);
    FlaggedIs(s.tx, s.aaBundle);
    SpellsAppend(SignedFields(s), items, last, FlaggedItems(s.aaBundle));
    SignedSum(s);
    RecordIs(SignedFieldsLength(s), SignedFields(s) + last, items + FlaggedItems(s.aaBundle));
  }

  lemma StrippedIs(s: StrippedTransaction)
    requires StrippedOk(s)
    ensures Is(EncodeStripped(s), StrippedItem(s))
  {
    var body, last := BodyFields(s.from, s.tx), BundleField(s.tx, s.aaBundle);
    BodyIs(s.from, s.tx);
    FlaggedIs(s.tx, s.aaBundle);
    SpellsAppend(body, BodyItems(s.from, s.tx), last, FlaggedItems(s.aaBundle));
    BundleFieldRoundTrip(s.tx, s.aaBundle, []);
    BodyRoundTrip(s.from, s.tx, []);
    FlatAppend(body, last, []);
    RecordIs(StrippedFieldsLength(s), body + last, StrippedItem(s).items);
  }

  // ---------------------------------------------------------------------------
  // Witnesses
  // ---------------------------------------------------------------------------

  function WitnessItem(w: TxWitness): Item { List(ProofItems(w.signature, w.pubkey)) }

  lemma WitnessIs(w: TxWitness)
    requires WitnessFits(w)
    ensures Is(EncodeWitness(w), WitnessItem(w))
  {
    var key := PubkeyBytes(ModeOf(w.pubkey));
    ProofIs(w.signature, w.pubkey);
    SignatureLengthOk(w.signature);
    StringLengthOk(key);
    Flat2(EncodeSignature(w.signature), EncodeString(key), []);
    RecordIs(WitnessFieldsLength(w), WitnessFields(w), WitnessItem(w).items);
  }

  function WitnessItems(ws: seq<TxWitness>): (r: seq<Item>)
    ensures |r| == |ws|
  {
    seq(|ws|, i requires 0 <= i < |ws| => WitnessItem(ws[i]))
  }

  lemma WitnessesAre(ws: seq<TxWitness>)
    requires AllWitnessesOk(ws) && BundlePayload(ws) <= U64_MAX
    ensures Is(EncodeWitnesses(ws), List(WitnessItems(ws)))
  {
    forall i | 0 <= i < |ws|
      ensures WitnessEncodings(ws)[i] == Encoding(WitnessItems(ws)[i]) && |WitnessEncodings(ws)[i]| == WitnessLength(ws[i])
    {
      WitnessIs(ws[i]);
      WitnessRoundTrip(ws[i], []);
    }
    ItemsLengthOk(WitnessLength, ws, WitnessEncodings(ws));
    RecordIs(BundlePayload(ws), WitnessEncodings(ws), WitnessItems(ws));
  }

  // ---------------------------------------------------------------------------
  // Headers and blocks
  // ---------------------------------------------------------------------------

  /** All but the witness root, which older headers do not have. */
  function OldHeaderItems(h: BlockHeader): seq<Item> {
    [Str(h.parentHash), Str(h.stateRoot), Str(h.transactionsRoot), Str(h.receiptsRoot), Str(h.logsBloom), Num(h.number),
     Num(h.gasLimit), Num(h.gasUsed), Num(h.timestamp), Str(h.extraData), Str(h.proposer), Opt(h.sigAggregateProof),
     Num(h.baseFeePerGas), Str(h.withdrawalsRoot), Str(h.parentBeaconBlockRoot), Num(h.blobGasUsed), Num(h.excessBlobGas)]
  }

  function HeaderItem(h: BlockHeader, short: bool): Item {
    List(if short then OldHeaderItems(h) else OldHeaderItems(h) + [Opt(h.witnessRoot)])
  }

  lemma RootsAre(h: BlockHeader)
    requires HeaderOk(h)
    ensures Spells(Roots(h), OldHeaderItems(h)[..6])
  {
    StringIs(h.parentHash);
    StringIs(h.stateRoot);
    StringIs(h.transactionsRoot);
    StringIs(h.receiptsRoot);
    StringIs(h.logsBloom);
    U64Is(h.number);
    Spells6(EncodeString(h.parentHash), Str(h.parentHash), EncodeString(h.stateRoot), Str(h.stateRoot),
            EncodeString(h.transactionsRoot), Str(h.transactionsRoot), EncodeString(h.receiptsRoot), Str(h.receiptsRoot),
            EncodeString(h.logsBloom), Str(h.logsBloom), EncodeU64(h.number), Num(h.number));
  }

  lemma GasIs(h: BlockHeader)
    requires HeaderOk(h)
    ensures Spells(Gas(h), OldHeaderItems(h)[6..12])
  {
    U64Is(h.gasLimit);
    U64Is(h.gasUsed);
    U64Is(h.timestamp);
    StringIs(h.extraData);
    StringIs(h.proposer);
    OptionBytesIs(h.sigAggregateProof);
    Spells6(EncodeU64(h.gasLimit), Num(h.gasLimit), EncodeU64(h.gasUsed), Num(h.gasUsed), EncodeU64(h.timestamp), Num(h.timestamp),
            EncodeString(h.extraData), Str(h.extraData), EncodeString(h.proposer), Str(h.proposer),
            EncodeOptionBytes(h.sigAggregateProof), Opt(h.sigAggregateProof));
  }

  lemma FeesAre(h: BlockHeader)
    requires HeaderOk(h)
    ensures Spells(Fees(h), OldHeaderItems(h)[12..])
  {
    U64Is(h.baseFeePerGas);
    StringIs(h.withdrawalsRoot);
    StringIs(h.parentBeaconBlockRoot);
    U64Is(h.blobGasUsed);
    U64Is(h.excessBlobGas);
    Spells5(EncodeU64(h.baseFeePerGas), Num(h.baseFeePerGas), EncodeString(h.withdrawalsRoot), Str(h.withdrawalsRoot),
            EncodeString(h.parentBeaconBlockRoot), Str(h.parentBeaconBlockRoot), EncodeU64(h.blobGasUsed), Num(h.blobGasUsed),
            EncodeU64(h.excessBlobGas), Num(h.excessBlobGas));
  }

  lemma OldHeaderFieldsAre(h: BlockHeader)
    requires HeaderOk(h)
    ensures Spells(OldHeaderFields(h), OldHeaderItems(h))
  {
    var x := OldHeaderItems(h);
    RootsAre(h);
    GasIs(h);
    FeesAre(h);
    SpellsAppend(Gas(h), x[6..12], Fees(h), x[12..]);
    SpellsAppend(Roots(h), x[..6], Gas(h) + Fees(h), x[6..12] + x[12..]);
    assert x[..6] + (x[6..12] + x[12..]) == x;
  }

  lemma HeaderSums(h: BlockHeader)
    requires HeaderOk(h)
    ensures SumLength(OldHeaderFields(h)) == OldHeaderFieldsLength(h)
    ensures SumLength(OldHeaderFields(h) + [EncodeOption32(h.witnessRoot)]) == HeaderFieldsLength(h)
  {
    var last := EncodeOption32(h.witnessRoot);
    OldHeaderFieldsRoundTrip(h, []);
    Option32RoundTrip(h.witnessRoot, []);
    FlatAppend(OldHeaderFields(h), [last], []);
    Flat1(last, []);
  }

  lemma HeaderIs(h: BlockHeader, short: bool)
    requires HeaderOk(h)
    ensures Is(EncodeHeaderRecord(h, short), HeaderItem(h, short))
  {
    OldHeaderFieldsAre(h);
    HeaderSums(h);
    if short {
      RecordIs(OldHeaderFieldsLength(h), OldHeaderFields(h), OldHeaderItems(h));
    } else {
      var last := EncodeOption32(h.witnessRoot);
      Option32Is(h.witnessRoot);
      Spells1(last, Opt(h.witnessRoot));
      SpellsAppend(OldHeaderFields(h), OldHeaderItems(h), [last], [Opt(h.witnessRoot)]);
      RecordIs(HeaderFieldsLength(h), OldHeaderFields(h) + [last], OldHeaderItems(h) + [Opt(h.witnessRoot)]);
    }
  }

  function TxItems<T>(item: T -> Item, txs: seq<T>): (r: seq<Item>)
    ensures |r| == |txs|
  {
    seq(|txs|, i requires 0 <= i < |txs| => item(txs[i]))
  }

  function TextItems<S>(j: Text<S>, system: seq<S>): (r: seq<Item>)
    ensures |r| == |system|
  {
    seq(|system|, i requires 0 <= i < |system| => Str(j.write(system[i])))
  }

  function SealItem(seal: Option<PQSignature>): Item { if seal.Some? then SignatureItem(seal.value) else Str([]) }

  function BackItems<S>(j: Text<S>, system: seq<S>, seal: Option<PQSignature>, format: Format): seq<Item> {
    if format == Current then [List(TextItems(j, system)), SealItem(seal)] else [SealItem(seal)]
  }

  /** Header, transactions, system transactions, which older blocks do not have, and seal. */
  function BlockItem<T, S>(item: T -> Item, j: Text<S>, b: Block<T, S>, short: bool, format: Format): Item {
    List([HeaderItem(b.header, short), List(TxItems(item, b.transactions))] + BackItems(j, b.system, b.seal, format))
  }

  ghost predicate Written<T(!new)>(c: Codec<T>, item: T -> Item) {
    forall t :: c.ok(t) ==> c.encode(t) == Encoding(item(t))
  }

  lemma TxsAre<T(!new)>(c: Codec<T>, item: T -> Item, txs: seq<T>)
    requires Lawful(c) && Written(c, item)
    requires (forall i :: 0 <= i < |txs| ==> c.ok(txs[i])) && ItemsLength(c.length, txs) <= U64_MAX
    ensures Is(EncodeRecord(ItemsLength(c.length, txs), TxEncodings(c, txs)), List(TxItems(item, txs)))
  {
    ItemsLengthOk(c.length, txs, TxEncodings(c, txs));
    RecordIs(ItemsLength(c.length, txs), TxEncodings(c, txs), TxItems(item, txs));
  }

  lemma SystemIs<S>(j: Text<S>, system: seq<S>)
    requires TextsFit(j, system)
    ensures Is(EncodeSystem(j, system), List(TextItems(j, system)))
  {
    forall i | 0 <= i < |system|
      ensures TextEncodings(j, system)[i] == Encoding(TextItems(j, system)[i])
      ensures |TextEncodings(j, system)[i]| == TextLength(j)(system[i])
    {
      StringIs(j.write(system[i]));
      StringLengthOk(j.write(system[i]));
    }
    ItemsLengthOk(TextLength(j), system, TextEncodings(j, system));
    RecordIs(ItemsLength(TextLength(j), system), TextEncodings(j, system), TextItems(j, system));
  }

  lemma SealIs(seal: Option<PQSignature>)
    requires SealOk(seal)
    ensures Is(EncodeSeal(seal), SealItem(seal))
  {
    if seal.Some? {
      SignatureIs(seal.value);
    } else {
      StringIs([]);
    }
  }

  lemma BackIs<S>(j: Text<S>, system: seq<S>, seal: Option<PQSignature>, format: Format)
    requires TextsFit(j, system) && SealOk(seal)
    ensures Spells(BackFields(j, system, seal, format), BackItems(j, system, seal, format))
  {
    SystemIs(j, system);
    SealIs(seal);
    if format == Current {
      Spells2(EncodeSystem(j, system), List(TextItems(j, system)), EncodeSeal(seal), SealItem(seal));
    } else {
      Spells1(EncodeSeal(seal), SealItem(seal));
    }
  }

  lemma FrontIs<T(!new), S>(c: Codec<T>, item: T -> Item, j: Text<S>, b: Block<T, S>, short: bool, format: Format)
    requires Lawful(c) && Written(c, item) && BlockOk(c, j, b, short, format)
    ensures Spells(FrontFields(c, j, b, short, format), [HeaderItem(b.header, short), List(TxItems(item, b.transactions))])
  {
    HeaderIs(b.header, short);
    TxsAre(c, item, b.transactions);
    Spells2(EncodeHeaderRecord(b.header, short), HeaderItem(b.header, short),
            EncodeRecord(ItemsLength(c.length, b.transactions), TxEncodings(c, b.transactions)), List(TxItems(item, b.transactions)));
  }

  lemma BlockSum<T(!new), S(!new)>(c: Codec<T>, j: Text<S>, b: Block<T, S>, short: bool, format: Format)
    requires Lawful(c) && Readable(j) && BlockOk(c, j, b, short, format)
    ensures SumLength(FrontFields(c, j, b, short, format) + BackFields(j, b.system, b.seal, format)) ==
            BlockFieldsLength(c, j, b, short, format)
  {
    FrontRoundTrip(c, j, b, short, format, []);
    BackRoundTrip(j, b.system, b.seal, format, []);
    FlatAppend(FrontFields(c, j, b, short, format), BackFields(j, b.system, b.seal, format), []);
  }

  /** A block is that list, in the current format and in each older one. */
  lemma BlockIs<T(!new), S(!new)>(c: Codec<T>, item: T -> Item, j: Text<S>, b: Block<T, S>, short: bool, format: Format)
    requires Lawful(c) && Written(c, item) && Readable(j) && BlockOk(c, j, b, short, format)
    ensures Is(EncodeBlock(c, j, b, short, format), BlockItem(item, j, b, short, format))
  {
    var front, back := FrontFields(c, j, b, short, format), BackFields(j, b.system, b.seal, format);
    var x, y := [HeaderItem(b.header, short), List(TxItems(item, b.transactions))], BackItems(j, b.system, b.seal, format);
    FrontIs(c, item, j, b, short, format);
    BackIs(j, b.system, b.seal, format);
    SpellsAppend(front, x, back, y);
    BlockSum(c, j, b, short, format);
    RecordIs(BlockFieldsLength(c, j, b, short, format), front + back, x + y);
  }

  /** Full and stripped blocks. */
  lemma FullBlockIs<S(!new)>(j: Text<S>, b: FullBlock<S>, short: bool, format: Format)
    requires Readable(j) && BlockOk(SignedCodec(), j, b, short, format)
    ensures Is(EncodeBlock(SignedCodec(), j, b, short, format), BlockItem(SignedItem, j, b, short, format))
  {
    SignedLawful();
    forall t | SignedOk(t) ensures SignedBytes(t) == Encoding(SignedItem(t)) {
      SignedIs(t);
    }
    BlockIs(SignedCodec(), SignedItem, j, b, short, format);
  }

  lemma StrippedBlockIs<S(!new)>(j: Text<S>, b: StrippedBlock<S>, short: bool, format: Format)
    requires Readable(j) && BlockOk(StrippedCodec(), j, b, short, format)
    ensures Is(EncodeBlock(StrippedCodec(), j, b, short, format), BlockItem(StrippedItem, j, b, short, format))
  {
    StrippedLawful();
    forall t | StrippedOk(t) ensures StrippedBytes(t) == Encoding(StrippedItem(t)) {
      StrippedIs(t);
    }
    BlockIs(StrippedCodec(), StrippedItem, j, b, short, format);
  }
}
