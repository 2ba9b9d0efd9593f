/** Wire format of transactions and the lists in them. For each record there is a list of
    encoded fields, the length that goes into its header, which the code computes separately,
    a decoder, and a lemma that ties the three together. */
module Transactions {
  import opened Common
  import opened Rlp

  const MAX_BLOB_HASHES_PER_TX: nat := 6
  const MAX_ACCESS_LIST_ENTRIES: nat := 256
  const MAX_ACCESS_LIST_STORAGE_KEYS: nat := 512
  const MAX_INNER_CALLS: nat := 16
  const MAX_INNER_CALLDATA: nat := 128 * 1024
  const MAX_PAYMASTER_CONTEXT: nat := 4 * 1024
  const MAX_SESSION_PUBKEY: nat := 4 * 1024
  const AA_BUNDLE_TX_TYPE: nat := 0x7E
  const AA_BUNDLE_PRESENCE_FLAG: byte := 0x01

  // ---------------------------------------------------------------------------
  // Access lists and blob hashes
  // ---------------------------------------------------------------------------

  datatype AccessListItem = AccessListItem(address: Bytes32, storageKeys: seq<Bytes32>)

  function HashLength(h: Bytes32): nat { StringLength(h) }

  function HashEncodings(hs: seq<Bytes32>): (r: seq<Bytes>)
    ensures |r| == |hs|
  {
    seq(|hs|, i requires 0 <= i < |hs| => EncodeString(hs[i]))
  }

  function KeysLength(item: AccessListItem): nat { ItemsLength(HashLength, item.storageKeys) }

  function ItemFieldsLength(item: AccessListItem): nat {
    StringLength(item.address) + RecordLength(KeysLength(item))
  }

  function ItemLength(item: AccessListItem): nat { RecordLength(ItemFieldsLength(item)) }

  predicate ItemOk(item: AccessListItem) {
    |item.storageKeys| <= MAX_ACCESS_LIST_STORAGE_KEYS && ItemFieldsLength(item) <= U64_MAX
  }

  function EncodeItem(item: AccessListItem): Bytes
    requires ItemOk(item)
  {
    EncodeRecord(ItemFieldsLength(item),
                 [EncodeString(item.address), EncodeKeys(item)])
  }

  function DecodeKeys(buf: Bytes): (r: Decoded<seq<Bytes32>>)
    ensures r.Ok? ==> |r.rest| < |buf|
  {
    var (length, b0) :- DecodeList(buf);
    DecodeItems(Decode32, b0, |b0| - length, MAX_ACCESS_LIST_STORAGE_KEYS)
  }

  function DecodeItem(buf: Bytes): (r: Decoded<AccessListItem>)
    ensures r.Ok? ==> |r.rest| < |buf|
  {
    var (length, b0) :- DecodeList(buf);
    var (address, b1) :- Decode32(b0);
    var (keys, b2) :- DecodeKeys(b1);
    if |b2| != |b0| - length then Err else Ok(AccessListItem(address, keys), b2)
  }

  lemma HashesReadBack(hs: seq<Bytes32>)
    ensures forall i, s :: 0 <= i < |hs| ==> Decode32(HashEncodings(hs)[i] + s) == Ok(hs[i], s)
    ensures forall i :: 0 <= i < |hs| ==> |HashEncodings(hs)[i]| == HashLength(hs[i])
  {
    forall i, s | 0 <= i < |hs| ensures Decode32(HashEncodings(hs)[i] + s) == Ok(hs[i], s) { RoundTrip32(hs[i], s); }
    forall i | 0 <= i < |hs| ensures |HashEncodings(hs)[i]| == HashLength(hs[i]) { StringLengthOk(hs[i]); }
  }

  lemma HashesOk(hs: seq<Bytes32>, limit: nat, r: Bytes)
    requires |hs| <= limit
    ensures SumLength(HashEncodings(hs)) == ItemsLength(HashLength, hs)
    ensures DecodeItems(Decode32, Flat(HashEncodings(hs), r), |r|, limit) == Ok(hs, r)
  {
    HashesReadBack(hs);
    ItemsLengthOk(HashLength, hs, HashEncodings(hs));
    ItemsRoundTrip(Decode32, hs, HashEncodings(hs), limit, r);
  }

  function EncodeKeys(item: AccessListItem): Bytes
    requires ItemOk(item)
  {
    EncodeRecord(KeysLength(item), HashEncodings(item.storageKeys))
  }

  lemma KeysRoundTrip(item: AccessListItem, r: Bytes)
    requires ItemOk(item)
    ensures |EncodeKeys(item)| == RecordLength(KeysLength(item))
    ensures DecodeKeys(EncodeKeys(item) + r) == Ok(item.storageKeys, r)
  {
    HashesOk(item.storageKeys, MAX_ACCESS_LIST_STORAGE_KEYS, r);
    RecordList(KeysLength(item), HashEncodings(item.storageKeys), r);
  }

  lemma ItemFieldsSum(item: AccessListItem)
    requires ItemOk(item)
    ensures SumLength([EncodeString(item.address), EncodeKeys(item)]) == ItemFieldsLength(item)
  {
    StringLengthOk(item.address);
    KeysRoundTrip(item, []);
    Flat2(EncodeString(item.address), EncodeKeys(item), []);
  }

  lemma ItemRoundTrip(item: AccessListItem, r: Bytes)
    requires ItemOk(item)
    ensures DecodeItem(EncodeItem(item) + r) == Ok(item, r)
    ensures |EncodeItem(item)| == ItemLength(item)
  {
    var a, k := EncodeString(item.address), EncodeKeys(item);
    ItemFieldsSum(item);
    RecordList(ItemFieldsLength(item), [a, k], r);
    Flat2(a, k, r);
    RoundTrip32(item.address, k + r);
    KeysRoundTrip(item, r);
  }

  function ItemEncodings(items: seq<AccessListItem>): (r: seq<Bytes>)
    requires forall i :: 0 <= i < |items| ==> ItemOk(items[i])
    ensures |r| == |items|
  {
    seq(|items|, i requires 0 <= i < |items| => EncodeItem(items[i]))
  }

  /** Normalised and within the limits: an absent list is `None`, not an empty one. */
  predicate AccessListOk(list: Option<seq<AccessListItem>>) {
    list.Some? ==>
      && 0 < |list.value| <= MAX_ACCESS_LIST_ENTRIES
      && (forall i :: 0 <= i < |list.value| ==> ItemOk(list.value[i]))
      && ItemsLength(ItemLength, list.value) <= U64_MAX
  }

  function EncodeAccessList(list: Option<seq<AccessListItem>>): Bytes
    requires AccessListOk(list)
  {
    match list
    case None => EncodeHeader(true, 0)
    case Some(items) => EncodeRecord(ItemsLength(ItemLength, items), ItemEncodings(items))
  }

  function AccessListLength(list: Option<seq<AccessListItem>>): nat {
    match list
    case None => LengthOfLength(0)
    case Some(items) => RecordLength(ItemsLength(ItemLength, items))
  }

  function DecodeAccessList(buf: Bytes): (r: Decoded<Option<seq<AccessListItem>>>)
    ensures r.Ok? ==> |r.rest| < |buf|
  {
    var (items, rest) :- DecodeListOf(DecodeItem, MAX_ACCESS_LIST_ENTRIES, buf);
    Ok(if items == [] then None else Some(items), rest)
  }

  lemma AccessListRoundTrip(list: Option<seq<AccessListItem>>, r: Bytes)
    requires AccessListOk(list)
    ensures DecodeAccessList(EncodeAccessList(list) + r) == Ok(list, r)
    ensures |EncodeAccessList(list)| == AccessListLength(list)
  {
    match list {
      case None => EmptyListRoundTrip(DecodeItem, MAX_ACCESS_LIST_ENTRIES, r);
      case Some(items) =>
        var encodings := ItemEncodings(items);
        forall i, s | 0 <= i < |items| ensures DecodeItem(encodings[i] + s) == Ok(items[i], s) { ItemRoundTrip(items[i], s); }
        forall i | 0 <= i < |items| ensures |encodings[i]| == ItemLength(items[i]) { ItemRoundTrip(items[i], []); }
        ListOfRoundTrip(DecodeItem, ItemLength, items, encodings, MAX_ACCESS_LIST_ENTRIES, r);
    }
  }

  predicate BlobHashesOk(hs: Option<seq<Bytes32>>) {
    hs.Some? ==> 0 < |hs.value| <= MAX_BLOB_HASHES_PER_TX && ItemsLength(HashLength, hs.value) <= U64_MAX
  }

  function EncodeBlobHashes(hs: Option<seq<Bytes32>>): Bytes
    requires BlobHashesOk(hs)
  {
    match hs
    case None => EncodeHeader(true, 0)
    case Some(v) => EncodeRecord(ItemsLength(HashLength, v), HashEncodings(v))
  }

  function BlobHashesLength(hs: Option<seq<Bytes32>>): nat {
    match hs
    case None => LengthOfLength(0)
    case Some(v) => RecordLength(ItemsLength(HashLength, v))
  }

  function DecodeBlobHashes(buf: Bytes): (r: Decoded<Option<seq<Bytes32>>>)
    ensures r.Ok? ==> |r.rest| < |buf|
  {
    var (hs, rest) :- DecodeListOf(Decode32, MAX_BLOB_HASHES_PER_TX, buf);
    Ok(if hs == [] then None else Some(hs), rest)
  }

  lemma BlobHashesRoundTrip(hs: Option<seq<Bytes32>>, r: Bytes)
    requires BlobHashesOk(hs)
    ensures DecodeBlobHashes(EncodeBlobHashes(hs) + r) == Ok(hs, r)
    ensures |EncodeBlobHashes(hs)| == BlobHashesLength(hs)
  {
    match hs {
      case None => EmptyListRoundTrip(Decode32, MAX_BLOB_HASHES_PER_TX, r);
      case Some(v) =>
        HashesReadBack(v);
        ListOfRoundTrip(Decode32, HashLength, v, HashEncodings(v), MAX_BLOB_HASHES_PER_TX, r);
    }
  }

  // ---------------------------------------------------------------------------
  // Transactions
  // ---------------------------------------------------------------------------

  datatype Transaction = Transaction(
    chainId: U64, nonce: U64, to: Option<Bytes32>, value: U256, data: Bytes, gasLimit: U64,
    maxFee: U64, maxPriorityFee: U64, accessList: Option<seq<AccessListItem>>, txType: U8,
    maxFeePerBlobGas: Option<U64>, blobHashes: Option<seq<Bytes32>>)

  function BlobFeeLength(fee: Option<U64>): nat {
    if fee.Some? then UintLength(1) + UintLength(fee.value) else UintLength(0) + UintLength(0)
  }

  function TxFieldsLength(t: Transaction): nat {
    UintLength(t.chainId) + UintLength(t.nonce) + Option32Length(t.to) + UintLength(t.value) + StringLength(t.data)
    + UintLength(t.gasLimit) + UintLength(t.maxFee) + UintLength(t.maxPriorityFee) + AccessListLength(t.accessList)
    + UintLength(t.txType) + BlobFeeLength(t.maxFeePerBlobGas) + BlobHashesLength(t.blobHashes)
  }

  function TxLength(t: Transaction): nat { RecordLength(TxFieldsLength(t)) }

  /** Normalised, within the limits, and short enough for memory. */
  predicate TxOk(t: Transaction) {
    AccessListOk(t.accessList) && BlobHashesOk(t.blobHashes) && TxFieldsLength(t) <= U64_MAX
  }

  function TxHead(t: Transaction): seq<Bytes>
    requires TxOk(t)
  {
    [EncodeU64(t.chainId), EncodeU64(t.nonce), EncodeOption32(t.to), EncodeUint(t.value), EncodeString(t.data),
     EncodeU64(t.gasLimit)]
  }

  function TxFees(t: Transaction): seq<Bytes>
    requires TxOk(t)
  {
    [EncodeU64(t.maxFee), EncodeU64(t.maxPriorityFee), EncodeAccessList(t.accessList), EncodeU8(t.txType)]
  }

  /** A flag byte keeps a present fee of zero apart from an absent one. */
  function TxBlobs(t: Transaction): seq<Bytes>
    requires TxOk(t)
  {
    [EncodeU8(if t.maxFeePerBlobGas.Some? then 1 else 0),
     EncodeU64(if t.maxFeePerBlobGas.Some? then t.maxFeePerBlobGas.value else 0),
     EncodeBlobHashes(t.blobHashes)]
  }

  function TxFields(t: Transaction): seq<Bytes>
    requires TxOk(t)
  {
    TxHead(t) + (TxFees(t) + TxBlobs(t))
  }

  function EncodeTx(t: Transaction): Bytes
    requires TxOk(t)
  {
    EncodeRecord(TxFieldsLength(t), TxFields(t))
  }

  function DecodeTxHead(buf: Bytes): (r: Decoded<(U64, U64, Option<Bytes32>, U256, Bytes, U64)>)
    ensures r.Ok? ==> |r.rest| < |buf|
  {
    var (chainId, b1) :- DecodeU64(buf);
    var (nonce, b2) :- DecodeU64(b1);
    var (to, b3) :- DecodeOption32(b2);
    var (value, b4) :- DecodeU256(b3);
    var (data, b5) :- DecodeString(b4);
    var (gasLimit, b6) :- DecodeU64(b5);
    Ok((chainId, nonce, to, value, data, gasLimit), b6)
  }

  function DecodeTxFees(buf: Bytes): (r: Decoded<(U64, U64, Option<seq<AccessListItem>>, U8)>)
    ensures r.Ok? ==> |r.rest| < |buf|
  {
    var (maxFee, b1) :- DecodeU64(buf);
    var (maxPriorityFee, b2) :- DecodeU64(b1);
    var (accessList, b3) :- DecodeAccessList(b2);
    var (txType, b4) :- DecodeU8(b3);
    Ok((maxFee, maxPriorityFee, accessList, txType), b4)
  }

  function DecodeTxBlobs(buf: Bytes): (r: Decoded<(Option<U64>, Option<seq<Bytes32>>)>)
    ensures r.Ok? ==> |r.rest| < |buf|
  {
    var (flag, b1) :- DecodeU8(buf);
    var (fee, b2) :- DecodeU64(b1);
    if flag > 1 then Err
    else
      var (hs, b3) :- DecodeBlobHashes(b2);
      Ok((if flag == 1 then Some(fee) else None, hs), b3)
  }

  function DecodeTxFields(buf: Bytes): (r: Decoded<Transaction>)
    ensures r.Ok? ==> |r.rest| < |buf|
  {
    var (h, b1) :- DecodeTxHead(buf);
    var (f, b2) :- DecodeTxFees(b1);
    var (b, b3) :- DecodeTxBlobs(b2);
    Ok(Transaction(h.0, h.1, h.2, h.3, h.4, h.5, f.0, f.1, f.2, f.3, b.0, b.1), b3)
  }

  function DecodeTx(buf: Bytes): (r: Decoded<Transaction>)
    ensures r.Ok? ==> |r.rest| < |buf|
  {
    DecodeRecord(DecodeTxFields, buf)
  }

  lemma TxHeadRoundTrip(t: Transaction, r: Bytes)
    requires TxOk(t)
    ensures DecodeTxHead(Flat(TxHead(t), r)) == Ok((t.chainId, t.nonce, t.to, t.value, t.data, t.gasLimit), r)
    ensures SumLength(TxHead(t)) == UintLength(t.chainId) + UintLength(t.nonce) + Option32Length(t.to)
                                    + UintLength(t.value) + StringLength(t.data) + UintLength(t.gasLimit)
  {
    var f := TxHead(t);
    Flat6(f[0], f[1], f[2], f[3], f[4], f[5], r);
    var r5 := f[5] + r;
    var r4 := f[4] + r5;
    var r3 := f[3] + r4;
    var r2 := f[2] + r3;
    var r1 := f[1] + r2;
    U64RoundTrip(t.chainId, r1);
    U64RoundTrip(t.nonce, r2);
    Option32RoundTrip(t.to, r3);
    U256RoundTrip(t.value, r4);
    StringRoundTrip(t.data, r5);
    StringLengthOk(t.data);
    U64RoundTrip(t.gasLimit, r);
  }

  lemma TxFeesRoundTrip(t: Transaction, r: Bytes)
    requires TxOk(t)
    ensures DecodeTxFees(Flat(TxFees(t), r)) == Ok((t.maxFee, t.maxPriorityFee, t.accessList, t.txType), r)
    ensures SumLength(TxFees(t)) == UintLength(t.maxFee) + UintLength(t.maxPriorityFee)
                                    + AccessListLength(t.accessList) + UintLength(t.txType)
  {
    var f := TxFees(t);
    Flat4(f[0], f[1], f[2], f[3], r);
    var r3 := f[3] + r;
    var r2 := f[2] + r3;
    var r1 := f[1] + r2;
    U64RoundTrip(t.maxFee, r1);
    U64RoundTrip(t.maxPriorityFee, r2);
    AccessListRoundTrip(t.accessList, r3);
    U8RoundTrip(t.txType, r);
  }

  lemma TxBlobsRoundTrip(t: Transaction, r: Bytes)
    requires TxOk(t)
    ensures DecodeTxBlobs(Flat(TxBlobs(t), r)) == Ok((t.maxFeePerBlobGas, t.blobHashes), r)
    ensures SumLength(TxBlobs(t)) == BlobFeeLength(t.maxFeePerBlobGas) + BlobHashesLength(t.blobHashes)
  {
    var f := TxBlobs(t);
    Flat3(f[0], f[1], f[2], r);
    var r2 := f[2] + r;
    var r1 := f[1] + r2;
    U8RoundTrip(if t.maxFeePerBlobGas.Some? then 1 else 0, r1);
    U64RoundTrip(if t.maxFeePerBlobGas.Some? then t.maxFeePerBlobGas.value else 0, r2);
    BlobHashesRoundTrip(t.blobHashes, r);
  }

  lemma TxFieldsRoundTrip(t: Transaction, r: Bytes)
    requires TxOk(t)
    ensures DecodeTxFields(Flat(TxFields(t), r)) == Ok(t, r)
    ensures SumLength(TxFields(t)) == TxFieldsLength(t)
  {
    var r2 := Flat(TxBlobs(t), r);
    var r1 := Flat(TxFees(t), r2);
    FlatAppend(TxFees(t), TxBlobs(t), r);
    FlatAppend(TxHead(t), TxFees(t) + TxBlobs(t), r);
    TxHeadRoundTrip(t, r1);
    TxFeesRoundTrip(t, r2);
    TxBlobsRoundTrip(t, r);
  }

  /** A transaction is read back exactly, nothing more is consumed, and the length recorded
      for it is the number of bytes written. */
  lemma TxRoundTrip(t: Transaction, r: Bytes)
    requires TxOk(t)
    ensures DecodeTx(EncodeTx(t) + r) == Ok(t, r)
    ensures |EncodeTx(t)| == TxLength(t)
  {
    TxFieldsRoundTrip(t, r);
    RecordRoundTrip(DecodeTxFields, t, TxFieldsLength(t), TxFields(t), r);
  }
}
