/** Wire format of block headers and blocks, with the two older formats that are still read. */
module Blocks {
  import opened Common
  import opened Rlp
  import opened Signatures

  // ---------------------------------------------------------------------------
  // Headers
  // ---------------------------------------------------------------------------

  datatype BlockHeader = BlockHeader(
    parentHash: Bytes32, stateRoot: Bytes32, transactionsRoot: Bytes32, receiptsRoot: Bytes32, logsBloom: Bytes, number: U64,
    gasLimit: U64, gasUsed: U64, timestamp: U64, extraData: Bytes, proposer: Bytes32, sigAggregateProof: Option<Bytes>,
    baseFeePerGas: U64, withdrawalsRoot: Bytes32, parentBeaconBlockRoot: Bytes32, blobGasUsed: U64, excessBlobGas: U64,
    witnessRoot: Option<Bytes32>)

  function RootsLength(h: BlockHeader): nat {
    StringLength(h.parentHash) + StringLength(h.stateRoot) + StringLength(h.transactionsRoot) + StringLength(h.receiptsRoot)
    + StringLength(h.logsBloom) + UintLength(h.number)
  }

  function GasLength(h: BlockHeader): nat {
    UintLength(h.gasLimit) + UintLength(h.gasUsed) + UintLength(h.timestamp) + StringLength(h.extraData)
    + StringLength(h.proposer) + OptionBytesLength(h.sigAggregateProof)
  }

  function FeesLength(h: BlockHeader): nat {
    UintLength(h.baseFeePerGas) + StringLength(h.withdrawalsRoot) + StringLength(h.parentBeaconBlockRoot)
    + UintLength(h.blobGasUsed) + UintLength(h.excessBlobGas)
  }

  /** Without the witness root, the last field. */
  function OldHeaderFieldsLength(h: BlockHeader): nat { RootsLength(h) + (GasLength(h) + FeesLength(h)) }

  function HeaderFieldsLength(h: BlockHeader): nat { OldHeaderFieldsLength(h) + Option32Length(h.witnessRoot) }

  /** Normalised, and short enough for memory. */
  predicate HeaderOk(h: BlockHeader) { NotEmpty(h.sigAggregateProof) && HeaderFieldsLength(h) <= U64_MAX }

  function Roots(h: BlockHeader): seq<Bytes>
    requires HeaderOk(h)
  {
    [EncodeString(h.parentHash), EncodeString(h.stateRoot), EncodeString(h.transactionsRoot), EncodeString(h.receiptsRoot),
     EncodeString(h.logsBloom), EncodeU64(h.number)]
  }

  function Gas(h: BlockHeader): seq<Bytes>
    requires HeaderOk(h)
  {
    [EncodeU64(h.gasLimit), EncodeU64(h.gasUsed), EncodeU64(h.timestamp), EncodeString(h.extraData),
     EncodeString(h.proposer), EncodeOptionBytes(h.sigAggregateProof)]
  }

  function Fees(h: BlockHeader): seq<Bytes>
    requires HeaderOk(h)
  {
    [EncodeU64(h.baseFeePerGas), EncodeString(h.withdrawalsRoot), EncodeString(h.parentBeaconBlockRoot),
     EncodeU64(h.blobGasUsed), EncodeU64(h.excessBlobGas)]
  }

  function OldHeaderFields(h: BlockHeader): seq<Bytes>
    requires HeaderOk(h)
  {
    Roots(h) + (Gas(h) + Fees(h))
  }

  /** With `short`, the format that ended before the witness root. */
  function EncodeHeaderRecord(h: BlockHeader, short: bool): Bytes
    requires HeaderOk(h)
  {
    if short then EncodeRecord(OldHeaderFieldsLength(h), OldHeaderFields(h))
    else EncodeRecord(HeaderFieldsLength(h), OldHeaderFields(h) + [EncodeOption32(h.witnessRoot)])
  }

  function HeaderRecordLength(h: BlockHeader, short: bool): nat {
    RecordLength(if short then OldHeaderFieldsLength(h) else HeaderFieldsLength(h))
  }

  function DecodeRoots(buf: Bytes): (r: Decoded<(Bytes32, Bytes32, Bytes32, Bytes32, Bytes, U64)>)
    ensures r.Ok? ==> |r.rest| < |buf|
  {
    var (parent, b1) :- Decode32(buf);
    var (state, b2) :- Decode32(b1);
    var (transactions, b3) :- Decode32(b2);
    var (receipts, b4) :- Decode32(b3);
    var (bloom, b5) :- DecodeString(b4);
    var (number, b6) :- DecodeU64(b5);
    Ok((parent, state, transactions, receipts, bloom, number), b6)
  }

  function DecodeGas(buf: Bytes): (r: Decoded<(U64, U64, U64, Bytes, Bytes32, Option<Bytes>)>)
    ensures r.Ok? ==> |r.rest| < |buf|
  {
    var (limit, b1) :- DecodeU64(buf);
    var (used, b2) :- DecodeU64(b1);
    var (timestamp, b3) :- DecodeU64(b2);
    var (extra, b4) :- DecodeString(b3);
    var (proposer, b5) :- Decode32(b4);
    var (proof, b6) :- DecodeOptionBytes(b5);
    Ok((limit, used, timestamp, extra, proposer, proof), b6)
  }

  function DecodeFees(buf: Bytes): (r: Decoded<(U64, Bytes32, Bytes32, U64, U64)>)
    ensures r.Ok? ==> |r.rest| < |buf|
  {
    var (fee, b1) :- DecodeU64(buf);
    var (withdrawals, b2) :- Decode32(b1);
    var (beacon, b3) :- Decode32(b2);
    var (used, b4) :- DecodeU64(b3);
    var (excess, b5) :- DecodeU64(b4);
    Ok((fee, withdrawals, beacon, used, excess), b5)
  }

  /** Everything but the witness root. */
  function DecodeOldHeaderFields(buf: Bytes): (r: Decoded<BlockHeader>)
    ensures r.Ok? ==> |r.rest| < |buf|
  {
    var (a, b1) :- DecodeRoots(buf);
    var (g, b2) :- DecodeGas(b1);
    var (f, b3) :- DecodeFees(b2);
    Ok(BlockHeader(a.0, a.1, a.2, a.3, a.4, a.5, g.0, g.1, g.2, g.3, g.4, g.5, f.0, f.1, f.2, f.3, f.4, None), b3)
  }

  function DecodeWitnessRoot(buf: Bytes, h: BlockHeader): (r: Decoded<Option<Bytes32>>)
    ensures r.Ok? ==> |r.rest| <= |buf|
  {
    DecodeOption32(buf)
  }

  function DecodeHeaderRecord(buf: Bytes): (r: Decoded<BlockHeader>)
    ensures r.Ok? ==> |r.rest| < |buf|
  {
    var (v, rest) :- DecodeOpenRecord(DecodeOldHeaderFields, DecodeWitnessRoot, None, buf);
    Ok(v.0.(witnessRoot := v.1), rest)
  }

  lemma RootsRoundTrip(h: BlockHeader, r: Bytes)
    requires HeaderOk(h)
    ensures DecodeRoots(Flat(Roots(h), r)) ==
            Ok((h.parentHash, h.stateRoot, h.transactionsRoot, h.receiptsRoot, h.logsBloom, h.number), r)
    ensures SumLength(Roots(h)) == RootsLength(h)
  {
    var f := Roots(h);
    Flat6(f[0], f[1], f[2], f[3], f[4], f[5], r);
    var r5 := f[5] + r;
    var r4 := f[4] + r5;
    var r3 := f[3] + r4;
    var r2 := f[2] + r3;
    RoundTrip32(h.parentHash, f[1] + r2);
    RoundTrip32(h.stateRoot, r2);
    RoundTrip32(h.transactionsRoot, r3);
    RoundTrip32(h.receiptsRoot, r4);
    StringRoundTrip(h.logsBloom, r5);
    StringLengthOk(h.logsBloom);
    U64RoundTrip(h.number, r);
  }

  lemma GasRoundTrip(h: BlockHeader, r: Bytes)
    requires HeaderOk(h)
    ensures DecodeGas(Flat(Gas(h), r)) == Ok((h.gasLimit, h.gasUsed, h.timestamp, h.extraData, h.proposer, h.sigAggregateProof), r)
    ensures SumLength(Gas(h)) == GasLength(h)
  {
    var f := Gas(h);
    Flat6(f[0], f[1], f[2], f[3], f[4], f[5], r);
    var r5 := f[5] + r;
    var r4 := f[4] + r5;
    var r3 := f[3] + r4;
    var r2 := f[2] + r3;
    U64RoundTrip(h.gasLimit, f[1] + r2);
    U64RoundTrip(h.gasUsed, r2);
    U64RoundTrip(h.timestamp, r3);
    StringRoundTrip(h.extraData, r4);
    StringLengthOk(h.extraData);
    RoundTrip32(h.proposer, r5);
    OptionBytesRoundTrip(h.sigAggregateProof, r);
  }

  lemma FeesRoundTrip(h: BlockHeader, r: Bytes)
    requires HeaderOk(h)
    ensures DecodeFees(Flat(Fees(h), r)) ==
            Ok((h.baseFeePerGas, h.withdrawalsRoot, h.parentBeaconBlockRoot, h.blobGasUsed, h.excessBlobGas), r)
    ensures SumLength(Fees(h)) == FeesLength(h)
  {
    var f := Fees(h);
    Flat5(f[0], f[1], f[2], f[3], f[4], r);
    var r4 := f[4] + r;
    var r3 := f[3] + r4;
    var r2 := f[2] + r3;
    U64RoundTrip(h.baseFeePerGas, f[1] + r2);
    RoundTrip32(h.withdrawalsRoot, r2);
    RoundTrip32(h.parentBeaconBlockRoot, r3);
    U64RoundTrip(h.blobGasUsed, r4);
    U64RoundTrip(h.excessBlobGas, r);
  }

  lemma OldHeaderFieldsRoundTrip(h: BlockHeader, r: Bytes)
    requires HeaderOk(h)
    ensures DecodeOldHeaderFields(Flat(OldHeaderFields(h), r)) == Ok(h.(witnessRoot := None), r)
    ensures SumLength(OldHeaderFields(h)) == OldHeaderFieldsLength(h)
  {
    var r2 := Flat(Fees(h), r);
    FlatAppend(Gas(h), Fees(h), r);
    FlatAppend(Roots(h), Gas(h) + Fees(h), r);
    RootsRoundTrip(h, Flat(Gas(h), r2));
    GasRoundTrip(h, r2);
    FeesRoundTrip(h, r);
  }

  /** A header is read back in either format; in the old one the witness root is absent. */
  lemma HeaderRecordRoundTrip(h: BlockHeader, short: bool, r: Bytes)
    requires HeaderOk(h)
    ensures DecodeHeaderRecord(EncodeHeaderRecord(h, short) + r) == Ok(if short then h.(witnessRoot := None) else h, r)
    ensures |EncodeHeaderRecord(h, short)| == HeaderRecordLength(h, short)
  {
    var none := h.(witnessRoot := None);
    if short {
      OldHeaderFieldsRoundTrip(h, r);
      ShortRecordRoundTrip(DecodeOldHeaderFields, DecodeWitnessRoot, None, none, OldHeaderFieldsLength(h), OldHeaderFields(h), r);
    } else {
      var last := EncodeOption32(h.witnessRoot);
      Flat1(last, r);
      Option32RoundTrip(h.witnessRoot, r);
      OldHeaderFieldsRoundTrip(h, last + r);
      OpenRecordRoundTrip(DecodeOldHeaderFields, DecodeWitnessRoot, None, none, h.witnessRoot, HeaderFieldsLength(h),
                          OldHeaderFields(h), [last], r);
    }
  }

  // ---------------------------------------------------------------------------
  // Blocks, for any format of the transactions in them
  // ---------------------------------------------------------------------------

  /** How one kind of transaction is written, measured and read; `ok` says which are
      normalised and within the limits. */
  datatype Codec<!T> = Codec(ok: T -> bool, encode: T -> Bytes, length: T -> nat, decode: Bytes -> Decoded<T>)

  ghost predicate Lawful<T(!new)>(c: Codec<T>) {
    && Consumes(c.decode)
    && (forall t, r :: c.ok(t) ==> c.decode(c.encode(t) + r) == Ok(t, r))
    && (forall t :: c.ok(t) ==> |c.encode(t)| == c.length(t))
  }

  /** System transactions are written as text: reading undoes writing, and no text is as short
      as one byte. */
  datatype Text<!S> = Text(write: S -> Bytes, read: Bytes -> Option<S>)

  ghost predicate Readable<S(!new)>(j: Text<S>) {
    && (forall s :: j.read(j.write(s)) == Some(s))
    && (forall b :: |b| <= 1 ==> j.read(b) == None)
  }

  datatype Block<T, S> = Block(header: BlockHeader, transactions: seq<T>, system: seq<S>, seal: Option<PQSignature>)

  function TxEncodings<T>(c: Codec<T>, txs: seq<T>): (r: seq<Bytes>)
    ensures |r| == |txs|
  {
    seq(|txs|, i requires 0 <= i < |txs| => c.encode(txs[i]))
  }

  function TextLength<S>(j: Text<S>): S -> nat { s => StringLength(j.write(s)) }

  function TextEncodings<S>(j: Text<S>, system: seq<S>): (r: seq<Bytes>)
    requires TextsFit(j, system)
    ensures |r| == |system|
  {
    seq(|system|, i requires 0 <= i < |system| => EncodeString(j.write(system[i])))
  }

  predicate TextsFit<S>(j: Text<S>, system: seq<S>) {
    && (forall i :: 0 <= i < |system| ==> |j.write(system[i])| <= U64_MAX)
    && ItemsLength(TextLength(j), system) <= U64_MAX
  }

  function SealLength(seal: Option<PQSignature>): nat { if seal.Some? then SignatureLength(seal.value) else 1 }

  predicate SealOk(seal: Option<PQSignature>) { seal.Some? ==> SizeOk(seal.value) && SignatureFits(seal.value) }

  function EncodeSeal(seal: Option<PQSignature>): Bytes
    requires SealOk(seal)
  {
    if seal.Some? then EncodeSignature(seal.value) else EncodeString([])
  }

  function TxsLength<T>(c: Codec<T>, txs: seq<T>): nat { RecordLength(ItemsLength(c.length, txs)) }

  function SystemLength<S>(j: Text<S>, system: seq<S>): nat { RecordLength(ItemsLength(TextLength(j), system)) }

  /** Blocks before system transactions existed have no list of them. */
  datatype Format = Current | NoSystemList

  function BlockFieldsLength<T, S>(c: Codec<T>, j: Text<S>, b: Block<T, S>, short: bool, format: Format): nat {
    HeaderRecordLength(b.header, short) + TxsLength(c, b.transactions)
    + ((if format == Current then SystemLength(j, b.system) else 0) + SealLength(b.seal))
  }

  predicate BlockOk<T, S>(c: Codec<T>, j: Text<S>, b: Block<T, S>, short: bool, format: Format) {
    && HeaderOk(b.header) && (forall i :: 0 <= i < |b.transactions| ==> c.ok(b.transactions[i]))
    && ItemsLength(c.length, b.transactions) <= U64_MAX && TextsFit(j, b.system) && SealOk(b.seal)
    && BlockFieldsLength(c, j, b, short, format) <= U64_MAX
    && (short ==> b.header.witnessRoot == None) && (format == NoSystemList ==> b.system == [])
  }

  function FrontFields<T, S>(c: Codec<T>, j: Text<S>, b: Block<T, S>, short: bool, format: Format): seq<Bytes>
    requires BlockOk(c, j, b, short, format)
  {
    [EncodeHeaderRecord(b.header, short), EncodeRecord(ItemsLength(c.length, b.transactions), TxEncodings(c, b.transactions))]
  }

  function EncodeSystem<S>(j: Text<S>, system: seq<S>): Bytes
    requires TextsFit(j, system)
  {
    EncodeRecord(ItemsLength(TextLength(j), system), TextEncodings(j, system))
  }

  function BackFields<S>(j: Text<S>, system: seq<S>, seal: Option<PQSignature>, format: Format): seq<Bytes>
    requires TextsFit(j, system) && SealOk(seal)
  {
    if format == Current then [EncodeSystem(j, system), EncodeSeal(seal)] else [EncodeSeal(seal)]
  }

  function EncodeBlock<T, S>(c: Codec<T>, j: Text<S>, b: Block<T, S>, short: bool, format: Format): Bytes
    requires BlockOk(c, j, b, short, format)
  {
    EncodeRecord(BlockFieldsLength(c, j, b, short, format),
                 FrontFields(c, j, b, short, format) + BackFields(j, b.system, b.seal, format))
  }

  // Decoding

  function DecodeText<S>(j: Text<S>, buf: Bytes): (r: Decoded<S>)
    ensures r.Ok? ==> |r.rest| < |buf|
  {
    var (b, rest) :- DecodeString(buf);
    if j.read(b).None? then Err else Ok(j.read(b).value, rest)
  }

  function TextDecoder<S>(j: Text<S>): (f: Bytes -> Decoded<S>)
    ensures Consumes(f)
    ensures forall b :: f(b) == DecodeText(j, b)
  {
    b => DecodeText(j, b)
  }

  /** The seal of an old block stands where a list of system transactions is expected. */
  predicate LegacySeal(buf: Bytes, end: nat) {
    match DecodeSignature(buf)
    case Ok(_, rest) => |rest| == end
    case Err => false
  }

  /** The list of system transactions, where there is one; if it cannot be read, the position
      is restored and the rest must be a seal. */
  function DecodeSystem<S>(j: Text<S>, buf: Bytes, end: nat): (r: Decoded<seq<S>>)
    ensures r.Ok? ==> |r.rest| <= |buf|
  {
    if |buf| <= end || buf[0] == 0x80 then Ok([], buf)
    else
      match DecodeAll(TextDecoder(j), buf)
      case Ok(system, rest) => Ok(system, rest)
      case Err => if LegacySeal(buf, end) then Ok([], buf) else Err
  }

  function DecodeSeal(buf: Bytes, end: nat): (r: Decoded<Option<PQSignature>>)
    ensures r.Ok? ==> |r.rest| <= |buf|
  {
    if |buf| <= end then Ok(None, buf)
    else if buf[0] == 0x80 then
      var (_, rest) :- DecodeString(buf);
      Ok(None, rest)
    else
      var (s, rest) :- DecodeSignature(buf);
      Ok(Some(s), rest)
  }

  function DecodeBack<S>(j: Text<S>, buf: Bytes, end: nat): (r: Decoded<(seq<S>, Option<PQSignature>)>)
    ensures r.Ok? ==> |r.rest| <= |buf|
  {
    var (system, b1) :- DecodeSystem(j, buf, end);
    var (seal, b2) :- DecodeSeal(b1, end);
    Ok((system, seal), b2)
  }

  function DecodeFront<T>(c: Codec<T>, buf: Bytes): (r: Decoded<(BlockHeader, seq<T>)>)
    requires Consumes(c.decode)
    ensures r.Ok? ==> |r.rest| < |buf|
  {
    var (header, b1) :- DecodeHeaderRecord(buf);
    var (txs, b2) :- DecodeAll(c.decode, b1);
    Ok((header, txs), b2)
  }

  /** A record whose last fields are read knowing how many bytes follow the record. */
  function DecodeBounded<A, B>(front: Bytes -> Decoded<A>, back: (Bytes, nat) -> Decoded<B>, buf: Bytes): (r: Decoded<(A, B)>) {
    var (length, b0) :- DecodeList(buf);
    DecodeParts(front, back, length, b0)
  }

  function DecodeParts<A, B>(front: Bytes -> Decoded<A>, back: (Bytes, nat) -> Decoded<B>, length: nat, b0: Bytes): (r: Decoded<(A, B)>)
    requires length <= |b0|
  {
    var (a, b1) :- front(b0);
    var (b, b2) :- back(b1, |b0| - length);
    if SatSub(|b0|, |b2|) != length then Err else Ok((a, b), b2)
  }

  lemma BoundedRoundTrip<A, B>(front: Bytes -> Decoded<A>, back: (Bytes, nat) -> Decoded<B>, a: A, b: B, length: nat,
                               f: seq<Bytes>, g: seq<Bytes>, r: Bytes)
    requires length == SumLength(f) + SumLength(g) <= U64_MAX
    requires front(Flat(f, Flat(g, r))) == Ok(a, Flat(g, r)) && back(Flat(g, r), |r|) == Ok(b, r)
    ensures DecodeBounded(front, back, EncodeRecord(length, f + g) + r) == Ok((a, b), r)
    ensures |EncodeRecord(length, f + g)| == RecordLength(length)
  {
    FlatAppend(f, g, r);
    RecordList(length, f + g, r);
    assert DecodeParts(front, back, length, Flat(f, Flat(g, r))) == Ok((a, b), r);
  }

  function FrontDecoder<T>(c: Codec<T>): Bytes -> Decoded<(BlockHeader, seq<T>)>
    requires Consumes(c.decode)
  {
    b => DecodeFront(c, b)
  }

  function BackDecoder<S>(j: Text<S>): (Bytes, nat) -> Decoded<(seq<S>, Option<PQSignature>)> {
    (b: Bytes, end: nat) => DecodeBack(j, b, end)
  }

  function DecodeBlock<T, S>(c: Codec<T>, j: Text<S>, buf: Bytes): Decoded<Block<T, S>>
    requires Consumes(c.decode)
  {
    var (parts, rest) :- DecodeBounded(FrontDecoder(c), BackDecoder(j), buf);
    Ok(Block(parts.0.0, parts.0.1, parts.1.0, parts.1.1), rest)
  }

  // Round trips

  lemma TxsRoundTrip<T(!new)>(c: Codec<T>, txs: seq<T>, r: Bytes)
    requires Lawful(c) && (forall i :: 0 <= i < |txs| ==> c.ok(txs[i])) && ItemsLength(c.length, txs) <= U64_MAX
    ensures DecodeAll(c.decode, EncodeRecord(ItemsLength(c.length, txs), TxEncodings(c, txs)) + r) == Ok(txs, r)
    ensures |EncodeRecord(ItemsLength(c.length, txs), TxEncodings(c, txs))| == TxsLength(c, txs)
  {
    AllRoundTrip(c.decode, c.length, txs, TxEncodings(c, txs), r);
  }

  lemma TextRoundTrip<S(!new)>(j: Text<S>, s: S, r: Bytes)
    requires Readable(j) && |j.write(s)| <= U64_MAX
    ensures DecodeText(j, EncodeString(j.write(s)) + r) == Ok(s, r)
    ensures |EncodeString(j.write(s))| == StringLength(j.write(s))
  {
    StringRoundTrip(j.write(s), r);
    StringLengthOk(j.write(s));
  }

  lemma SystemRoundTrip<S(!new)>(j: Text<S>, system: seq<S>, r: Bytes)
    requires Readable(j) && TextsFit(j, system)
    ensures DecodeAll(TextDecoder(j), EncodeSystem(j, system) + r) == Ok(system, r)
    ensures |EncodeSystem(j, system)| == SystemLength(j, system) && EncodeSystem(j, system)[0] >= 0xC0
  {
    var encodings := TextEncodings(j, system);
    forall i, t | 0 <= i < |system| ensures TextDecoder(j)(encodings[i] + t) == Ok(system[i], t) {
      TextRoundTrip(j, system[i], t);
    }
    forall i | 0 <= i < |system| ensures |encodings[i]| == TextLength(j)(system[i]) {
      TextRoundTrip(j, system[i], []);
    }
    AllRoundTrip(TextDecoder(j), TextLength(j), system, encodings, r);
  }

  lemma SealRoundTrip(seal: Option<PQSignature>, r: Bytes)
    requires SealOk(seal)
    ensures DecodeSeal(EncodeSeal(seal) + r, |r|) == Ok(seal, r)
    ensures |EncodeSeal(seal)| == SealLength(seal) >= 1
    ensures if seal.Some? then EncodeSeal(seal)[0] >= 0xC0 else EncodeSeal(seal)[0] == 0x80
  {
    if seal.Some? {
      SignatureRoundTrip(seal.value, r);
      SignatureLengthOk(seal.value);
    } else {
      StringRoundTrip([], r);
    }
  }

  /** The first field of a signature is no text, so a signature is no list of texts. */
  lemma SealIsNoSystemList<S(!new)>(j: Text<S>, s: PQSignature, r: Bytes)
    requires Readable(j) && SignatureFits(s)
    ensures DecodeAll(TextDecoder(j), EncodeSignature(s) + r) == Err
  {
    var length, fields := SignatureFieldsLength(s), SignatureFields(s);
    SignatureLengthOk(s);
    RecordList(length, fields, r);
    var all := Flat(fields, r);
    Flat2(fields[0], fields[1], r);
    var kind := BigEndian(TypeByte(s.sigType));
    BigEndianShort(TypeByte(s.sigType));
    StringRoundTrip(kind, fields[1] + r);
    assert DecodeText(j, all) == Err;
    assert TextDecoder(j)(all) == Err;
  }

  lemma CurrentBack<S(!new)>(j: Text<S>, system: seq<S>, seal: Option<PQSignature>, r: Bytes)
    requires Readable(j) && TextsFit(j, system) && SealOk(seal)
    ensures DecodeBack(j, EncodeSystem(j, system) + (EncodeSeal(seal) + r), |r|) == Ok((system, seal), r)
  {
    var tail := EncodeSeal(seal) + r;
    SystemRoundTrip(j, system, tail);
    SealRoundTrip(seal, r);
    var buf := EncodeSystem(j, system) + tail;
    assert buf[0] == EncodeSystem(j, system)[0];
    assert DecodeSystem(j, buf, |r|) == Ok(system, tail);
  }

  lemma LegacySystem<S(!new)>(j: Text<S>, seal: Option<PQSignature>, r: Bytes)
    requires Readable(j) && SealOk(seal)
    ensures DecodeSystem(j, EncodeSeal(seal) + r, |r|) == Ok([], EncodeSeal(seal) + r)
  {
    SealRoundTrip(seal, r);
    if seal.Some? {
      SealIsNoSystemList(j, seal.value, r);
      SignatureRoundTrip(seal.value, r);
    }
  }

  lemma BackRoundTrip<S(!new)>(j: Text<S>, system: seq<S>, seal: Option<PQSignature>, format: Format, r: Bytes)
    requires Readable(j) && TextsFit(j, system) && SealOk(seal) && (format == NoSystemList ==> system == [])
    ensures DecodeBack(j, Flat(BackFields(j, system, seal, format), r), |r|) == Ok((system, seal), r)
    ensures SumLength(BackFields(j, system, seal, format)) ==
            (if format == Current then SystemLength(j, system) else 0) + SealLength(seal)
  {
    SealRoundTrip(seal, r);
    if format == Current {
      Flat2(EncodeSystem(j, system), EncodeSeal(seal), r);
      SystemRoundTrip(j, system, []);
      CurrentBack(j, system, seal, r);
    } else {
      Flat1(EncodeSeal(seal), r);
      LegacySystem(j, seal, r);
    }
  }

  lemma FrontRoundTrip<T(!new), S>(c: Codec<T>, j: Text<S>, b: Block<T, S>, short: bool, format: Format, r: Bytes)
    requires Lawful(c) && BlockOk(c, j, b, short, format)
    ensures DecodeFront(c, Flat(FrontFields(c, j, b, short, format), r)) == Ok((b.header, b.transactions), r)
    ensures SumLength(FrontFields(c, j, b, short, format)) == HeaderRecordLength(b.header, short) + TxsLength(c, b.transactions)
  {
    var f := FrontFields(c, j, b, short, format);
    Flat2(f[0], f[1], r);
    HeaderRecordRoundTrip(b.header, short, f[1] + r);
    TxsRoundTrip(c, b.transactions, r);
  }

  /** A block is read back exactly, in the current format and in each older one: without the
      witness root in its header, without the list of system transactions, or both. The length
      in its header is the number of bytes written. */
  lemma BlockRoundTrip<T(!new), S(!new)>(c: Codec<T>, j: Text<S>, b: Block<T, S>, short: bool, format: Format, r: Bytes)
    requires Lawful(c) && Readable(j) && BlockOk(c, j, b, short, format)
    ensures DecodeBlock(c, j, EncodeBlock(c, j, b, short, format) + r) == Ok(b, r)
    ensures |EncodeBlock(c, j, b, short, format)| == RecordLength(BlockFieldsLength(c, j, b, short, format))
  {
    var front, back := FrontFields(c, j, b, short, format), BackFields(j, b.system, b.seal, format);
    FrontRoundTrip(c, j, b, short, format, Flat(back, r));
    BackRoundTrip(j, b.system, b.seal, format, r);
    BoundedRoundTrip(FrontDecoder(c), BackDecoder(j), (b.header, b.transactions), (b.system, b.seal),
                     BlockFieldsLength(c, j, b, short, format), front, back, r);
  }
}
