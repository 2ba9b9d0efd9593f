/** Which bytes the decoders accept for transactions: more than the encoders write, in two ways. */
module CanonicalTransactions {
  import opened Common
  import opened Rlp
  import opened Signatures
  import opened Transactions
  import opened Bundles
  import opened Witnesses
  import opened Normalised
  import opened Canonical

  // ---------------------------------------------------------------------------
  // Access lists
  // ---------------------------------------------------------------------------

  ghost predicate IsHash(h: Bytes32, e: Bytes) { e == EncodeString(h) }

  lemma HashOnly()
    ensures Only(Decode32, IsHash) && Accepts(Decode32, IsHash)
  {
    forall b | Small(b) && Decode32(b).Ok?
      ensures var d := Decode32(b); b == Taken(b, d.rest) + d.rest && IsHash(d.value, Taken(b, d.rest))
    {
      StringOnly(b);
      TakenIs(EncodeString(Decode32(b).value), Decode32(b).rest);
    }
    forall h, e, r | IsHash(h, e) ensures Decode32(e + r) == Ok(h, r) {
      RoundTrip32(h, r);
    }
  }

  lemma HashEncodingsAre(hs: seq<Bytes32>, encodings: seq<Bytes>)
    requires AllForms(IsHash, hs, encodings)
    ensures encodings == HashEncodings(hs) && SumLength(encodings) == 33 * |hs|
  {
    forall i | 0 <= i < |hs| ensures encodings[i] == HashEncodings(hs)[i] {
      assert IsHash(hs[i], encodings[i]);
    }
    HashesSum(hs);
  }

  lemma {:induction false} HashesSum(hs: seq<Bytes32>)
    ensures SumLength(HashEncodings(hs)) == 33 * |hs|
  {
    if hs != [] {
      HashesSum(hs[1..]);
      RoundTrip32(hs[0], []);
      assert HashEncodings(hs)[1..] == HashEncodings(hs[1..]);
    }
  }

  /** The length announced for a list of storage keys is not compared with what they take: any
      length that ends within the last key is accepted. */
  predicate Covers(length: nat, keys: nat) { length <= 33 * keys && (keys > 0 ==> length > 33 * (keys - 1)) }

  /** The keys read fill what was announced, but for less than one of them. */
  lemma {:induction false} KeysCount(b: Bytes, end: nat, limit: nat)
    requires DecodeItems(Decode32, b, end, limit).Ok? && end <= |b|
    ensures var d := DecodeItems(Decode32, b, end, limit); |b| - |d.rest| == 33 * |d.value| && Covers(|b| - end, |d.value|)
    decreases |b|
  {
    if |b| > end {
      var d := Decode32(b);
      StringOnly(b);
      RoundTrip32(d.value, []);
      if |d.rest| >= end {
        KeysCount(d.rest, end, limit - 1);
      } else {
        assert DecodeItems(Decode32, d.rest, end, limit - 1) == Ok([], d.rest);
      }
    }
  }

  lemma {:induction false} ItemsUpTo<T>(decode: Bytes -> Decoded<T>, items: seq<T>, encodings: seq<Bytes>, size: nat, end: nat,
                                         limit: nat, r: Bytes)
    requires Consumes(decode) && |items| == |encodings| <= limit
    requires forall i, s :: 0 <= i < |items| ==> decode(encodings[i] + s) == Ok(items[i], s)
    requires forall i :: 0 <= i < |items| ==> |encodings[i]| == size
    requires |r| <= end && (items != [] ==> end < |r| + size)
    ensures DecodeItems(decode, Flat(encodings, r), end, limit) == Ok(items, r)
  {
    if items != [] {
      var s := Flat(encodings[1..], r);
      FlatTail(encodings[1..], r);
      assert decode(encodings[0] + s) == Ok(items[0], s);
      ItemsUpTo(decode, items[1..], encodings[1..], size, end, limit - 1, r);
      assert [items[0]] + items[1..] == items;
    }
  }

  /** And all such lengths are accepted. */
  lemma KeysAccepted(hs: seq<Bytes32>, end: nat, limit: nat, r: Bytes)
    requires |hs| <= limit && |r| <= end <= |r| + 33 * |hs| && Covers(|r| + 33 * |hs| - end, |hs|)
    ensures DecodeItems(Decode32, Flat(HashEncodings(hs), r), end, limit) == Ok(hs, r)
  {
    HashesReadBack(hs);
    ItemsUpTo(Decode32, hs, HashEncodings(hs), 33, end, limit, r);
  }

  ghost predicate IsKeys(keys: seq<Bytes32>, length: nat, e: Bytes) {
    && |keys| <= MAX_ACCESS_LIST_STORAGE_KEYS && length <= U64_MAX && Covers(length, |keys|)
    && e == EncodeHeader(true, length) + Flat(HashEncodings(keys), [])
  }

  lemma KeyItemsOnly(b: Bytes, end: nat)
    requires Small(b) && end <= |b| && DecodeItems(Decode32, b, end, MAX_ACCESS_LIST_STORAGE_KEYS).Ok?
    ensures var d := DecodeItems(Decode32, b, end, MAX_ACCESS_LIST_STORAGE_KEYS);
            && |d.value| <= MAX_ACCESS_LIST_STORAGE_KEYS && Covers(|b| - end, |d.value|)
            && b == Flat(HashEncodings(d.value), d.rest)
  {
    HashOnly();
    var encodings := ItemsOnly(Decode32, IsHash, b, end, MAX_ACCESS_LIST_STORAGE_KEYS);
    HashEncodingsAre(DecodeItems(Decode32, b, end, MAX_ACCESS_LIST_STORAGE_KEYS).value, encodings);
    KeysCount(b, end, MAX_ACCESS_LIST_STORAGE_KEYS);
    AtMost(Decode32, b, end, MAX_ACCESS_LIST_STORAGE_KEYS);
  }

  lemma KeysOnly(b: Bytes) returns (length: nat, e: Bytes)
    requires Small(b) && DecodeKeys(b).Ok?
    ensures IsKeys(DecodeKeys(b).value, length, e) && b == e + DecodeKeys(b).rest
  {
    var l, d := DecodeList(b), DecodeKeys(b);
    length := l.value;
    ListOnly(b);
    KeyItemsOnly(l.rest, |l.rest| - length);
    FlatTail(HashEncodings(d.value), d.rest);
    e := EncodeHeader(true, length) + Flat(HashEncodings(d.value), []);
    Assoc(EncodeHeader(true, length), Flat(HashEncodings(d.value), []), d.rest);
  }

  lemma KeysRead(keys: seq<Bytes32>, length: nat, e: Bytes, r: Bytes)
    requires IsKeys(keys, length, e)
    ensures DecodeKeys(e + r) == Ok(keys, r)
  {
    var all := Flat(HashEncodings(keys), r);
    FlatTail(HashEncodings(keys), r);
    HashesSum(keys);
    Assoc(EncodeHeader(true, length), Flat(HashEncodings(keys), []), r);
    HeaderRoundTrip(true, length, all);
    KeysAccepted(keys, |all| - length, MAX_ACCESS_LIST_STORAGE_KEYS, r);
  }

  ghost predicate IsItem(x: AccessListItem, e: Bytes) {
    exists length, keys :: IsKeys(x.storageKeys, length, keys) && IsRecord([EncodeString(x.address), keys], e)
  }

  lemma ItemOnly(b: Bytes)
    requires Small(b) && DecodeItem(b).Ok?
    ensures var d := DecodeItem(b); b == Taken(b, d.rest) + d.rest && IsItem(d.value, Taken(b, d.rest))
  {
    var l, d := DecodeList(b), DecodeItem(b);
    StringOnly(l.rest);
    var b1 := Decode32(l.rest).rest;
    var length, keys := KeysOnly(b1);
    var a := EncodeString(d.value.address);
    Flat2(a, keys, d.rest);
    IsRecordTaken(b, l.value, [a, keys], d.rest);
  }

  lemma ItemRead(x: AccessListItem, e: Bytes, r: Bytes)
    requires IsItem(x, e)
    ensures DecodeItem(e + r) == Ok(x, r)
  {
    var length, keys :| IsKeys(x.storageKeys, length, keys) && IsRecord([EncodeString(x.address), keys], e);
    var a := EncodeString(x.address);
    RecordList(SumLength([a, keys]), [a, keys], r);
    Flat2(a, keys, r);
    RoundTrip32(x.address, keys + r);
    KeysRead(x.storageKeys, length, keys, r);
  }

  lemma ItemsExact()
    ensures Only(DecodeItem, IsItem) && Accepts(DecodeItem, IsItem)
  {
    forall b | Small(b) && DecodeItem(b).Ok?
      ensures var d := DecodeItem(b); b == Taken(b, d.rest) + d.rest && IsItem(d.value, Taken(b, d.rest))
    {
      ItemOnly(b);
    }
    forall x, e, r | IsItem(x, e) ensures DecodeItem(e + r) == Ok(x, r) {
      ItemRead(x, e, r);
    }
  }

  function ItemsOf(list: Option<seq<AccessListItem>>): seq<AccessListItem> { if list.Some? then list.value else [] }

  function HashesOf(hs: Option<seq<Bytes32>>): seq<Bytes32> { if hs.Some? then hs.value else [] }

  /** An absent list is written as an empty one, and read from one. */
  ghost predicate IsAccessList(list: Option<seq<AccessListItem>>, e: Bytes) {
    (list.Some? ==> 0 < |list.value| <= MAX_ACCESS_LIST_ENTRIES) && IsListOf(IsItem, ItemsOf(list), e)
  }

  ghost predicate IsBlobHashes(hs: Option<seq<Bytes32>>, e: Bytes) {
    (hs.Some? ==> 0 < |hs.value| <= MAX_BLOB_HASHES_PER_TX) && IsListOf(IsHash, HashesOf(hs), e)
  }

  lemma AccessListOnly(b: Bytes)
    requires Small(b) && DecodeAccessList(b).Ok?
    ensures var d := DecodeAccessList(b); b == Taken(b, d.rest) + d.rest && IsAccessList(d.value, Taken(b, d.rest))
  {
    ItemsExact();
    ListOfOnly(DecodeItem, IsItem, MAX_ACCESS_LIST_ENTRIES, b);
  }

  lemma AccessListRead(list: Option<seq<AccessListItem>>, e: Bytes, r: Bytes)
    requires IsAccessList(list, e)
    ensures DecodeAccessList(e + r) == Ok(list, r)
  {
    ItemsExact();
    ListOfAccepted(DecodeItem, IsItem, MAX_ACCESS_LIST_ENTRIES, ItemsOf(list), e, r);
  }

  lemma BlobHashesOnly(b: Bytes)
    requires Small(b) && DecodeBlobHashes(b).Ok?
    ensures var d := DecodeBlobHashes(b); b == Taken(b, d.rest) + d.rest && IsBlobHashes(d.value, Taken(b, d.rest))
  {
    HashOnly();
    ListOfOnly(Decode32, IsHash, MAX_BLOB_HASHES_PER_TX, b);
  }

  // ---------------------------------------------------------------------------
  // Transactions
  // ---------------------------------------------------------------------------

  lemma BlobHashesAreOne(hs: Option<seq<Bytes32>>, e: Bytes)
    requires BlobHashesOk(hs)
    ensures IsBlobHashes(hs, e) <==> e == EncodeBlobHashes(hs)
  {
    var v := HashesOf(hs);
    HashesOk(v, |v|, []);
    if IsBlobHashes(hs, e) {
      var encodings :| AllForms(IsHash, v, encodings) && IsRecord(encodings, e);
      HashEncodingsAre(v, encodings);
    } else if e == EncodeBlobHashes(hs) {
      assert AllForms(IsHash, v, HashEncodings(v)) && IsRecord(HashEncodings(v), e);
    }
  }

  /** The flag that says whether there is a blob fee; without one, what stands in its place is not
      looked at. */
  function Flag(t: Transaction): U8 { if t.maxFeePerBlobGas.Some? then 1 else 0 }

  function FeesWith(t: Transaction, list: Bytes): seq<Bytes> {
    [EncodeU64(t.maxFee), EncodeU64(t.maxPriorityFee), list, EncodeU8(t.txType)]
  }

  function BlobsWith(t: Transaction, fee: U64): seq<Bytes>
    requires TxOk(t)
  {
    [EncodeU8(Flag(t)), EncodeU64(fee), EncodeBlobHashes(t.blobHashes)]
  }

  function TxFieldsWith(t: Transaction, list: Bytes, fee: U64): seq<Bytes>
    requires TxOk(t)
  {
    TxHead(t) + (FeesWith(t, list) + BlobsWith(t, fee))
  }

  predicate FeeFits(t: Transaction, fee: U64) { t.maxFeePerBlobGas.Some? ==> fee == t.maxFeePerBlobGas.value }

  /** The encodings of a transaction that are accepted. */
  ghost predicate IsTx(t: Transaction, e: Bytes) {
    TxOk(t) && exists list, fee :: IsAccessList(t.accessList, list) && FeeFits(t, fee) && IsRecord(TxFieldsWith(t, list, fee), e)
  }

  lemma TxHeadOnly(b: Bytes, t: Transaction)
    requires DecodeTxHead(b).Ok? && TxOk(t) && DecodeTxHead(b).value == (t.chainId, t.nonce, t.to, t.value, t.data, t.gasLimit)
    ensures b == Flat(TxHead(t), DecodeTxHead(b).rest)
  {
    U64Only(b);
    var b1 := DecodeU64(b).rest;
    U64Only(b1);
    var b2 := DecodeU64(b1).rest;
    Option32Only(b2);
    var b3 := DecodeOption32(b2).rest;
    U256Only(b3);
    var b4 := DecodeU256(b3).rest;
    StringOnly(b4);
    var b5 := DecodeString(b4).rest;
    U64Only(b5);
    var f := TxHead(t);
    Flat6(f[0], f[1], f[2], f[3], f[4], f[5], DecodeU64(b5).rest);
  }

  lemma TxFeesOnly(b: Bytes, t: Transaction) returns (list: Bytes)
    requires Small(b) && DecodeTxFees(b).Ok? && DecodeTxFees(b).value == (t.maxFee, t.maxPriorityFee, t.accessList, t.txType)
    ensures IsAccessList(t.accessList, list) && b == Flat(FeesWith(t, list), DecodeTxFees(b).rest)
  {
    U64Only(b);
    var b1 := DecodeU64(b).rest;
    U64Only(b1);
    var b2 := DecodeU64(b1).rest;
    AccessListOnly(b2);
    var b3 := DecodeAccessList(b2).rest;
    list := Taken(b2, b3);
    U8Only(b3);
    var f := FeesWith(t, list);
    Flat4(f[0], f[1], f[2], f[3], DecodeU8(b3).rest);
  }

  lemma TxBlobsOnly(b: Bytes, t: Transaction) returns (fee: U64)
    requires Small(b) && DecodeTxBlobs(b).Ok? && TxOk(t) && DecodeTxBlobs(b).value == (t.maxFeePerBlobGas, t.blobHashes)
    ensures FeeFits(t, fee) && b == Flat(BlobsWith(t, fee), DecodeTxBlobs(b).rest)
  {
    U8Only(b);
    var b1 := DecodeU8(b).rest;
    U64Only(b1);
    fee := DecodeU64(b1).value;
    var b2 := DecodeU64(b1).rest;
    BlobHashesOnly(b2);
    BlobHashesAreOne(t.blobHashes, Taken(b2, DecodeBlobHashes(b2).rest));
    var f := BlobsWith(t, fee);
    Flat3(f[0], f[1], f[2], DecodeBlobHashes(b2).rest);
  }

  lemma TxFieldsOnly(b: Bytes, t: Transaction) returns (list: Bytes, fee: U64)
    requires Small(b) && DecodeTxFields(b).Ok? && TxOk(t) && DecodeTxFields(b).value == t
    ensures IsAccessList(t.accessList, list) && FeeFits(t, fee) && b == Flat(TxFieldsWith(t, list, fee), DecodeTxFields(b).rest)
  {
    var b1 := DecodeTxHead(b).rest;
    TxHeadOnly(b, t);
    list := TxFeesOnly(b1, t);
    var b2 := DecodeTxFees(b1).rest;
    fee := TxBlobsOnly(b2, t);
    var r := DecodeTxBlobs(b2).rest;
    FlatAppend(FeesWith(t, list), BlobsWith(t, fee), r);
    FlatAppend(TxHead(t), FeesWith(t, list) + BlobsWith(t, fee), r);
  }

  lemma TxOnly(b: Bytes)
    requires Small(b) && DecodeTx(b).Ok?
    ensures var d := DecodeTx(b); b == Taken(b, d.rest) + d.rest && IsTx(d.value, Taken(b, d.rest))
  {
    TxSound(b);
    var l, d := DecodeList(b), DecodeTx(b);
    var list, fee := TxFieldsOnly(l.rest, d.value);
    IsRecordTaken(b, l.value, TxFieldsWith(d.value, list, fee), d.rest);
  }

  lemma TxFeesRead(t: Transaction, list: Bytes, r: Bytes)
    requires IsAccessList(t.accessList, list)
    ensures DecodeTxFees(Flat(FeesWith(t, list), r)) == Ok((t.maxFee, t.maxPriorityFee, t.accessList, t.txType), r)
  {
    var f := FeesWith(t, list);
    Flat4(f[0], f[1], f[2], f[3], r);
    var r3 := f[3] + r;
    var r2 := f[2] + r3;
    U64RoundTrip(t.maxFee, f[1] + r2);
    U64RoundTrip(t.maxPriorityFee, r2);
    AccessListRead(t.accessList, list, r3);
    U8RoundTrip(t.txType, r);
  }

  lemma TxBlobsRead(t: Transaction, fee: U64, r: Bytes)
    requires TxOk(t) && FeeFits(t, fee)
    ensures DecodeTxBlobs(Flat(BlobsWith(t, fee), r)) == Ok((t.maxFeePerBlobGas, t.blobHashes), r)
  {
    var f := BlobsWith(t, fee);
    Flat3(f[0], f[1], f[2], r);
    var r2 := f[2] + r;
    U8RoundTrip(Flag(t), f[1] + r2);
    U64RoundTrip(fee, r2);
    BlobHashesRoundTrip(t.blobHashes, r);
  }

  lemma TxFieldsRead(t: Transaction, list: Bytes, fee: U64, r: Bytes)
    requires TxOk(t) && IsAccessList(t.accessList, list) && FeeFits(t, fee)
    ensures DecodeTxFields(Flat(TxFieldsWith(t, list, fee), r)) == Ok(t, r)
  {
    var r2 := Flat(BlobsWith(t, fee), r);
    FlatAppend(FeesWith(t, list), BlobsWith(t, fee), r);
    FlatAppend(TxHead(t), FeesWith(t, list) + BlobsWith(t, fee), r);
    TxHeadRoundTrip(t, Flat(FeesWith(t, list), r2));
    TxFeesRead(t, list, r2);
    TxBlobsRead(t, fee, r);
  }

  lemma TxRead(t: Transaction, e: Bytes, r: Bytes)
    requires IsTx(t, e)
    ensures DecodeTx(e + r) == Ok(t, r)
  {
    var list, fee :| IsAccessList(t.accessList, list) && FeeFits(t, fee) && IsRecord(TxFieldsWith(t, list, fee), e);
    TxFieldsRead(t, list, fee, r);
    RecordRoundTrip(DecodeTxFields, t, SumLength(TxFieldsWith(t, list, fee)), TxFieldsWith(t, list, fee), r);
  }

  /** Which bytes are read as which transaction, exactly. */
  lemma TxExactly(b: Bytes, t: Transaction, r: Bytes)
    requires Small(b)
    ensures DecodeTx(b) == Ok(t, r) <==> b == Taken(b, r) + r && IsTx(t, Taken(b, r))
  {
    if DecodeTx(b) == Ok(t, r) {
      TxOnly(b);
    } else if b == Taken(b, r) + r && IsTx(t, Taken(b, r)) {
      TxRead(t, Taken(b, r), r);
    }
  }

  // ---------------------------------------------------------------------------
  // Signed and stripped transactions
  // ---------------------------------------------------------------------------

  /** The flag byte and an encoding of the bundle, or nothing. */
  ghost predicate IsBundleField(t: Transaction, x: Option<AaBundle>, fields: seq<Bytes>) {
    if x.None? then fields == []
    else t.txType == 0x7E && |fields| == 2 && fields[0] == [1] && IsBundle(x.value, fields[1])
  }

  lemma BundleFieldOnly(b: Bytes, t: Transaction) returns (fields: seq<Bytes>)
    requires Small(b) && DecodeFlaggedBundle(b, t).Ok?
    ensures var d := DecodeFlaggedBundle(b, t); d.value.Some? && IsBundleField(t, d.value, fields) && b == Flat(fields, d.rest)
  {
    BundleOnly(b[1..]);
    var r := DecodeFlaggedBundle(b, t).rest;
    var e := Taken(b[1..], r);
    fields := [[1], e];
    Flat2([1], e, r);
    assert b == [b[0]] + b[1..];
  }

  lemma BundleFieldRead(t: Transaction, x: Option<AaBundle>, fields: seq<Bytes>, r: Bytes)
    requires IsBundleField(t, x, fields)
    ensures if x.Some? then SumLength(fields) > 0 && DecodeFlaggedBundle(Flat(fields, r), t) == Ok(x, r)
            else SumLength(fields) == 0 && Flat(fields, r) == r
  {
    if x.Some? {
      assert fields == [[1], fields[1]];
      Flat2([1], fields[1], r);
      BundleRead(x.value, fields[1], r);
      assert Flat(fields, r)[1..] == fields[1] + r;
    }
  }

  // The parts.

  ghost predicate IsBody(v: (Bytes32, Transaction), f: seq<Bytes>) {
    exists tx :: IsTx(v.1, tx) && f == [EncodeString(v.0), tx]
  }

  predicate ProofFits(v: (PQSignature, PubkeyMode)) {
    SignatureFits(v.0) && SizeOk(v.0) && |PubkeyBytes(v.1)| <= U64_MAX && (v.1.Embedded? ==> v.1.key != [])
  }

  ghost predicate IsSignedFields(v: SignedParts, f: seq<Bytes>) {
    ProofFits(v.1) && exists body :: IsBody(v.0, body) && f == body + ProofFields(v.1.0, PubkeyBytes(v.1.1))
  }

  ghost predicate IsSignedLast(v: SignedParts, x: Option<AaBundle>, f: seq<Bytes>) { IsBundleField(v.0.1, x, f) }

  ghost predicate IsStrippedLast(v: (Bytes32, Transaction), x: Option<AaBundle>, f: seq<Bytes>) { IsBundleField(v.1, x, f) }

  lemma BodyOnly(b: Bytes) returns (f: seq<Bytes>)
    requires Small(b) && DecodeBody(b).Ok?
    ensures IsBody(DecodeBody(b).value, f) && b == Flat(f, DecodeBody(b).rest)
  {
    StringOnly(b);
    var b1 := Decode32(b).rest;
    TxOnly(b1);
    var tx := Taken(b1, DecodeTx(b1).rest);
    f := [EncodeString(DecodeBody(b).value.0), tx];
    Flat2(f[0], tx, DecodeTx(b1).rest);
  }

  lemma BodyRead(v: (Bytes32, Transaction), f: seq<Bytes>, r: Bytes)
    requires IsBody(v, f)
    ensures DecodeBody(Flat(f, r)) == Ok(v, r)
  {
    var tx :| IsTx(v.1, tx) && f == [EncodeString(v.0), tx];
    Flat2(EncodeString(v.0), tx, r);
    RoundTrip32(v.0, tx + r);
    TxRead(v.1, tx, r);
  }

  lemma SignedFieldsOnly(b: Bytes) returns (f: seq<Bytes>)
    requires Small(b) && DecodeSignedFields(b).Ok?
    ensures IsSignedFields(DecodeSignedFields(b).value, f) && b == Flat(f, DecodeSignedFields(b).rest)
  {
    var body := BodyOnly(b);
    var b1 := DecodeBody(b).rest;
    ProofOnly(b1);
    ProofCost(b1);
    var v := DecodeProof(b1).value;
    f := body + ProofFields(v.0, PubkeyBytes(v.1));
    FlatAppend(body, ProofFields(v.0, PubkeyBytes(v.1)), DecodeProof(b1).rest);
  }

  lemma SignedFieldsRead(v: SignedParts, f: seq<Bytes>, r: Bytes)
    requires IsSignedFields(v, f)
    ensures DecodeSignedFields(Flat(f, r)) == Ok(v, r)
  {
    var proof := ProofFields(v.1.0, PubkeyBytes(v.1.1));
    var body :| IsBody(v.0, body) && f == body + proof;
    FlatAppend(body, proof, r);
    BodyRead(v.0, body, Flat(proof, r));
    ProofRoundTrip(v.1.0, v.1.1, r);
  }

  function PartsOfSigned(s: SignedTransaction): SignedParts { ((s.from, s.tx), (s.signature, s.pubkeyMode)) }

  ghost predicate IsSigned(s: SignedTransaction, e: Bytes) {
    IsOpen(IsSignedFields, IsSignedLast, PartsOfSigned(s), s.aaBundle, e)
  }

  ghost predicate IsStripped(s: StrippedTransaction, e: Bytes) {
    IsOpen(IsBody, IsStrippedLast, (s.from, s.tx), s.aaBundle, e)
  }

  lemma SignedPartsOnly()
    ensures FieldsOnly(DecodeSignedFields, IsSignedFields) && LastOnly(DecodeBundleField, IsSignedLast)
  {
    forall b | Small(b) && DecodeSignedFields(b).Ok?
      ensures exists f :: IsSignedFields(DecodeSignedFields(b).value, f) && b == Flat(f, DecodeSignedFields(b).rest)
    {
      var f := SignedFieldsOnly(b);
    }
    forall b, v: SignedParts | Small(b) && DecodeBundleField(b, v).Ok?
      ensures exists f :: IsSignedLast(v, DecodeBundleField(b, v).value, f) && b == Flat(f, DecodeBundleField(b, v).rest)
    {
      var f := BundleFieldOnly(b, v.0.1);
    }
  }

  lemma StrippedPartsOnly()
    ensures FieldsOnly(DecodeBody, IsBody) && LastOnly(DecodeStrippedBundle, IsStrippedLast)
  {
    forall b | Small(b) && DecodeBody(b).Ok?
      ensures exists f :: IsBody(DecodeBody(b).value, f) && b == Flat(f, DecodeBody(b).rest)
    {
      var f := BodyOnly(b);
    }
    forall b, v: (Bytes32, Transaction) | Small(b) && DecodeStrippedBundle(b, v).Ok?
      ensures exists f :: IsStrippedLast(v, DecodeStrippedBundle(b, v).value, f) && b == Flat(f, DecodeStrippedBundle(b, v).rest)
    {
      var f := BundleFieldOnly(b, v.1);
    }
  }

  lemma SignedOnly(b: Bytes)
    requires Small(b) && DecodeSigned(b).Ok?
    ensures var d := DecodeSigned(b); b == Taken(b, d.rest) + d.rest && IsSigned(d.value, Taken(b, d.rest))
  {
    SignedPartsOnly();
    OpenOnly(DecodeSignedFields, DecodeBundleField, None, IsSignedFields, IsSignedLast, b);
  }

  lemma StrippedOnly(b: Bytes)
    requires Small(b) && DecodeStripped(b).Ok?
    ensures var d := DecodeStripped(b); b == Taken(b, d.rest) + d.rest && IsStripped(d.value, Taken(b, d.rest))
  {
    StrippedPartsOnly();
    OpenOnly(DecodeBody, DecodeStrippedBundle, None, IsBody, IsStrippedLast, b);
  }

  lemma SignedRead(s: SignedTransaction, e: Bytes, r: Bytes)
    requires IsSigned(s, e)
    ensures DecodeSigned(e + r) == Ok(s, r)
  {
    var v := PartsOfSigned(s);
    var f, g :| IsSignedFields(v, f) && IsSignedLast(v, s.aaBundle, g) && IsRecord(f + g, e);
    BundleFieldRead(s.tx, s.aaBundle, g, r);
    SignedFieldsRead(v, f, Flat(g, r));
    OpenRead(DecodeSignedFields, DecodeBundleField, None, v, s.aaBundle, f, g, e, r);
  }

  lemma StrippedRead(s: StrippedTransaction, e: Bytes, r: Bytes)
    requires IsStripped(s, e)
    ensures DecodeStripped(e + r) == Ok(s, r)
  {
    var v := (s.from, s.tx);
    var f, g :| IsBody(v, f) && IsStrippedLast(v, s.aaBundle, g) && IsRecord(f + g, e);
    BundleFieldRead(s.tx, s.aaBundle, g, r);
    BodyRead(v, f, Flat(g, r));
    OpenRead(DecodeBody, DecodeStrippedBundle, None, v, s.aaBundle, f, g, e, r);
  }

  /** The same for signed and stripped transactions: an accepted encoding of the transaction, the
      signature and key, and the flagged bundle where the type of the transaction allows one. */
  lemma SignedExactly(b: Bytes, s: SignedTransaction, r: Bytes)
    requires Small(b)
    ensures DecodeSigned(b) == Ok(s, r) <==> b == Taken(b, r) + r && IsSigned(s, Taken(b, r))
  {
    if DecodeSigned(b) == Ok(s, r) {
      SignedOnly(b);
    } else if b == Taken(b, r) + r && IsSigned(s, Taken(b, r)) {
      SignedRead(s, Taken(b, r), r);
    }
  }

  lemma StrippedExactly(b: Bytes, s: StrippedTransaction, r: Bytes)
    requires Small(b)
    ensures DecodeStripped(b) == Ok(s, r) <==> b == Taken(b, r) + r && IsStripped(s, Taken(b, r))
  {
    if DecodeStripped(b) == Ok(s, r) {
      StrippedOnly(b);
    } else if b == Taken(b, r) + r && IsStripped(s, Taken(b, r)) {
      StrippedRead(s, Taken(b, r), r);
    }
  }

  // ---------------------------------------------------------------------------
  // Transactions with one encoding
  // ---------------------------------------------------------------------------

  lemma {:induction false} FlatCancels(a: seq<Bytes>, x: Bytes, y: Bytes)
    requires Flat(a, x) == Flat(a, y)
    ensures x == y
  {
    if a != [] {
      var p, q := Flat(a[1..], x), Flat(a[1..], y);
      assert (a[0] + p)[|a[0]|..] == p && (a[0] + q)[|a[0]|..] == q;
      FlatCancels(a[1..], x, y);
    }
  }

  lemma SumSplits(a: seq<Bytes>, x: Bytes, b: seq<Bytes>)
    ensures SumLength(a + [x] + b) == SumLength(a) + |x| + SumLength(b)
    ensures Flat(a + [x] + b, []) == Flat(a, x + Flat(b, []))
  {
    FlatAppend(a + [x], b, []);
    FlatAppend(a, [x], Flat(b, []));
    Flat1(x, Flat(b, []));
    FlatAppend(a, [x], []);
  }

  /** Another, not longer, encoding of one field gives another, not longer, one of the record. */
  lemma AnotherField(f: seq<Bytes>, a: seq<Bytes>, x: Bytes, y: Bytes, b: seq<Bytes>, g: seq<Bytes>, e: Bytes) returns (e': Bytes)
    requires f == a + [x] + b && g == a + [y] + b && IsRecord(f, e) && x != y && |y| <= |x|
    ensures IsRecord(g, e') && e' != e && |e'| <= |e|
  {
    SumSplits(a, x, b);
    SumSplits(a, y, b);
    e' := EncodeRecord(SumLength(g), g);
    RecordList(SumLength(f), f, []);
    RecordList(SumLength(g), g, []);
    LengthMonotone(SumLength(g), SumLength(f));
    if e' == e {
      FlatCancels(a, x + Flat(b, []), y + Flat(b, []));
      SameEnd(x, y, Flat(b, []));
    }
  }

  lemma SameEnd(x: Bytes, y: Bytes, r: Bytes)
    requires x + r == y + r
    ensures x == y
  {
    assert |x| == |y|;
    assert (x + r)[..|x|] == x && (y + r)[..|y|] == y;
  }

  /** With keys, a length one less than they take is accepted too. */
  lemma OtherLength(n: nat, keys: Bytes)
    requires 0 < n == |keys| <= U64_MAX
    ensures EncodeHeader(true, n - 1) + keys != EncodeHeader(true, n) + keys
    ensures |EncodeHeader(true, n - 1) + keys| <= |EncodeHeader(true, n) + keys|
  {
    HeaderRoundTrip(true, n - 1, keys);
    HeaderRoundTrip(true, n, keys);
    HeaderLength(true, n - 1);
    HeaderLength(true, n);
    LengthMonotone(n - 1, n);
    NoShorter(n);
  }

  lemma NoShorter(n: nat)
    requires n > 0
    ensures LengthOfLength(n - 1) <= LengthOfLength(n)
  {
    BigEndianInverse(n);
    FromBigEndianBound(BigEndian(n));
    BigEndianLength(n - 1, |BigEndian(n)|);
  }

  lemma WrittenKeys(x: AccessListItem)
    requires ItemOk(x)
    ensures IsKeys(x.storageKeys, 33 * |x.storageKeys|, EncodeKeys(x))
    ensures EncodeKeys(x) == EncodeHeader(true, 33 * |x.storageKeys|) + Flat(HashEncodings(x.storageKeys), [])
    ensures |Flat(HashEncodings(x.storageKeys), [])| == 33 * |x.storageKeys|
  {
    HashesOk(x.storageKeys, |x.storageKeys|, []);
    HashesSum(x.storageKeys);
    FlatTail(HashEncodings(x.storageKeys), []);
  }

  lemma AnotherKeys(x: AccessListItem) returns (e: Bytes)
    requires ItemOk(x) && x.storageKeys != []
    ensures IsKeys(x.storageKeys, 33 * |x.storageKeys| - 1, e) && e != EncodeKeys(x) && |e| <= |EncodeKeys(x)|
  {
    var n, keys := 33 * |x.storageKeys|, Flat(HashEncodings(x.storageKeys), []);
    WrittenKeys(x);
    OtherLength(n, keys);
    e := EncodeHeader(true, n - 1) + keys;
  }

  lemma WrittenItem(x: AccessListItem)
    requires ItemOk(x)
    ensures IsItem(x, EncodeItem(x)) && IsRecord([EncodeString(x.address), EncodeKeys(x)], EncodeItem(x))
  {
    WrittenKeys(x);
    ItemFieldsSum(x);
  }

  lemma AnotherItem(x: AccessListItem) returns (e: Bytes)
    requires ItemOk(x) && x.storageKeys != []
    ensures IsItem(x, e) && e != EncodeItem(x) && |e| <= |EncodeItem(x)|
  {
    var a := EncodeString(x.address);
    var keys := AnotherKeys(x);
    WrittenItem(x);
    e := AnotherField([a, EncodeKeys(x)], [a], EncodeKeys(x), keys, [], [a, keys], EncodeItem(x));
  }

  lemma OneItemEncoding(x: AccessListItem, e: Bytes)
    requires ItemOk(x) && x.storageKeys == [] && IsItem(x, e)
    ensures e == EncodeItem(x)
  {
    var length, keys :| IsKeys(x.storageKeys, length, keys) && IsRecord([EncodeString(x.address), keys], e);
    WrittenItem(x);
    assert HashEncodings(x.storageKeys) == [];
    assert keys == EncodeKeys(x);
  }

  lemma WrittenList(items: seq<AccessListItem>)
    requires AccessListOk(Some(items))
    ensures AllForms(IsItem, items, ItemEncodings(items)) && IsRecord(ItemEncodings(items), EncodeAccessList(Some(items)))
  {
    forall i | 0 <= i < |items|
      ensures IsItem(items[i], ItemEncodings(items)[i]) && |ItemEncodings(items)[i]| == ItemLength(items[i])
    {
      WrittenItem(items[i]);
      ItemRoundTrip(items[i], []);
    }
    ItemsLengthOk(ItemLength, items, ItemEncodings(items));
  }

  predicate NoKeys(list: Option<seq<AccessListItem>>) {
    list.Some? ==> forall i :: 0 <= i < |list.value| ==> list.value[i].storageKeys == []
  }

  lemma AnotherElement(f: seq<Bytes>, i: nat, x: Bytes, e: Bytes) returns (e': Bytes)
    requires i < |f| && IsRecord(f, e) && f[i] != x && |x| <= |f[i]|
    ensures IsRecord(f[i := x], e') && e' != e && |e'| <= |e|
  {
    e' := AnotherField(f, f[..i], f[i], x, f[i + 1..], f[i := x], e);
  }

  lemma AnotherEncoding(items: seq<AccessListItem>, f: seq<Bytes>, i: nat, x: Bytes, e: Bytes) returns (e': Bytes)
    requires 0 < |items| <= MAX_ACCESS_LIST_ENTRIES && AllForms(IsItem, items, f) && IsRecord(f, e)
    requires i < |items| && IsItem(items[i], x) && f[i] != x && |x| <= |f[i]|
    ensures IsAccessList(Some(items), e') && e' != e && |e'| <= |e|
  {
    e' := AnotherElement(f, i, x, e);
    OtherForm(IsItem, items, f, i, x);
    ListIs(items, f[i := x], e');
  }

  lemma AnotherList(items: seq<AccessListItem>, i: nat) returns (e: Bytes)
    requires AccessListOk(Some(items)) && i < |items| && items[i].storageKeys != []
    ensures IsAccessList(Some(items), e) && e != EncodeAccessList(Some(items)) && |e| <= |EncodeAccessList(Some(items))|
  {
    var x := AnotherItem(items[i]);
    WrittenList(items);
    e := AnotherEncoding(items, ItemEncodings(items), i, x, EncodeAccessList(Some(items)));
  }

  lemma OtherForm<T>(form: (T, Bytes) -> bool, items: seq<T>, f: seq<Bytes>, i: nat, x: Bytes)
    requires AllForms(form, items, f) && i < |items| && form(items[i], x)
    ensures AllForms(form, items, f[i := x])
  {
  }

  lemma ListIs(items: seq<AccessListItem>, f: seq<Bytes>, e: Bytes)
    requires 0 < |items| <= MAX_ACCESS_LIST_ENTRIES && AllForms(IsItem, items, f) && IsRecord(f, e)
    ensures IsAccessList(Some(items), e)
  {
  }

  lemma OneList(list: Option<seq<AccessListItem>>, e: Bytes)
    requires AccessListOk(list) && NoKeys(list) && IsAccessList(list, e)
    ensures e == EncodeAccessList(list)
  {
    var items := ItemsOf(list);
    var encodings :| AllForms(IsItem, items, encodings) && IsRecord(encodings, e);
    if list.Some? {
      forall i | 0 <= i < |items| ensures encodings[i] == ItemEncodings(items)[i] {
        assert IsItem(items[i], encodings[i]);
        OneItemEncoding(items[i], encodings[i]);
      }
      assert encodings == ItemEncodings(items);
      WrittenList(items);
    } else {
      assert encodings == [];
    }
  }

  lemma WrittenAccessList(list: Option<seq<AccessListItem>>)
    requires AccessListOk(list)
    ensures IsAccessList(list, EncodeAccessList(list))
  {
    if list.Some? {
      WrittenList(list.value);
    } else {
      assert AllForms(IsItem, [], []) && IsRecord([], EncodeAccessList(list));
    }
  }

  function Fee(t: Transaction): U64 { if t.maxFeePerBlobGas.Some? then t.maxFeePerBlobGas.value else 0 }

  lemma WrittenTx(t: Transaction)
    requires TxOk(t)
    ensures TxFieldsWith(t, EncodeAccessList(t.accessList), Fee(t)) == TxFields(t)
    ensures IsRecord(TxFields(t), EncodeTx(t))
  {
    TxFieldsRoundTrip(t, []);
  }

  function BeforeList(t: Transaction): seq<Bytes>
    requires TxOk(t)
  {
    TxHead(t) + [EncodeU64(t.maxFee), EncodeU64(t.maxPriorityFee)]
  }

  function AfterList(t: Transaction, fee: U64): seq<Bytes>
    requires TxOk(t)
  {
    [EncodeU8(t.txType)] + BlobsWith(t, fee)
  }

  lemma AroundList(t: Transaction, list: Bytes, fee: U64)
    requires TxOk(t)
    ensures TxFieldsWith(t, list, fee) == BeforeList(t) + [list] + AfterList(t, fee)
  {
  }

  function BeforeFee(t: Transaction, list: Bytes): seq<Bytes>
    requires TxOk(t)
  {
    TxHead(t) + FeesWith(t, list) + [EncodeU8(Flag(t))]
  }

  lemma AroundFee(t: Transaction, list: Bytes, fee: U64)
    requires TxOk(t)
    ensures TxFieldsWith(t, list, fee) == BeforeFee(t, list) + [EncodeU64(fee)] + [EncodeBlobHashes(t.blobHashes)]
  {
  }

  lemma ZeroAndOne()
    ensures EncodeU64(0) != EncodeU64(1) && |EncodeU64(1)| <= |EncodeU64(0)|
  {
    U64RoundTrip(0, []);
    U64RoundTrip(1, []);
  }

  lemma AnotherFee(t: Transaction) returns (e: Bytes)
    requires TxOk(t) && t.maxFeePerBlobGas.None?
    ensures IsTx(t, e) && e != EncodeTx(t)
  {
    var list := EncodeAccessList(t.accessList);
    WrittenTx(t);
    WrittenAccessList(t.accessList);
    AroundFee(t, list, 0);
    AroundFee(t, list, 1);
    ZeroAndOne();
    e := AnotherField(TxFieldsWith(t, list, 0), BeforeFee(t, list), EncodeU64(0), EncodeU64(1), [EncodeBlobHashes(t.blobHashes)],
                      TxFieldsWith(t, list, 1), EncodeTx(t));
    assert FeeFits(t, 1);
  }

  lemma AnotherTxList(t: Transaction, i: nat) returns (e: Bytes)
    requires TxOk(t) && t.accessList.Some? && i < |t.accessList.value| && t.accessList.value[i].storageKeys != []
    ensures IsTx(t, e) && e != EncodeTx(t)
  {
    var list, fee := EncodeAccessList(t.accessList), Fee(t);
    var other := AnotherList(t.accessList.value, i);
    WrittenTx(t);
    AroundList(t, list, fee);
    AroundList(t, other, fee);
    e := AnotherField(TxFieldsWith(t, list, fee), BeforeList(t), list, other, AfterList(t, fee), TxFieldsWith(t, other, fee), EncodeTx(t));
    assert FeeFits(t, fee);
  }

  /** A transaction has no other accepted encoding than the one that is written if and only if it
      has a blob fee and no storage keys: without a fee anything stands in its place, and the
      length announced for a list of keys may fall short. */
  lemma TxUniqueExactly(t: Transaction)
    requires TxOk(t)
    ensures (forall e :: IsTx(t, e) ==> e == EncodeTx(t)) <==> t.maxFeePerBlobGas.Some? && NoKeys(t.accessList)
  {
    if t.maxFeePerBlobGas.None? {
      var e := AnotherFee(t);
    } else if !NoKeys(t.accessList) {
      var i :| 0 <= i < |t.accessList.value| && t.accessList.value[i].storageKeys != [];
      var e := AnotherTxList(t, i);
    } else {
      forall e | IsTx(t, e) ensures e == EncodeTx(t) {
        var list, fee :| IsAccessList(t.accessList, list) && FeeFits(t, fee) && IsRecord(TxFieldsWith(t, list, fee), e);
        OneList(t.accessList, list);
        WrittenTx(t);
      }
    }
  }
}
