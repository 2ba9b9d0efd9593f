/** Which bytes the decoders accept: for all records but those named here nothing but what the
    encoders write. */
module Canonical {
  import opened Common
  import opened Rlp
  import opened Signatures
  import opened Transactions
  import opened Bundles
  import opened Blocks
  import opened MerkleFold
  import opened Witnesses
  import opened Normalised

  // ---------------------------------------------------------------------------
  // Headers and strings
  // ---------------------------------------------------------------------------

  lemma {:induction false} DigitsAreUnique(digits: Bytes)
    requires digits == [] || digits[0] != 0
    ensures BigEndian(FromBigEndian(digits)) == digits
  {
    if digits != [] {
      var rest, d := digits[..|digits| - 1], digits[|digits| - 1];
      DigitsAreUnique(rest);
      var n := FromBigEndian(rest);
      assert FromBigEndian(digits) == n * 256 + d;
      assert (n * 256 + d) / 256 == n && (n * 256 + d) % 256 == d;
      if rest != [] {
        BigEndianInverse(n);
      }
      assert rest + [d] == digits;
    }
  }

  lemma LongHeaderOnly(list: bool, size: nat, tail: Bytes)
    requires 0 < size && DecodeLongHeader(list, size, tail).Ok?
    ensures var d := DecodeLongHeader(list, size, tail);
            && d.value.list == list && 56 <= d.value.length <= U64_MAX && |BigEndian(d.value.length)| == size
            && tail == BigEndian(d.value.length) + d.rest
  {
    var digits := tail[..size];
    DigitsAreUnique(digits);
    FromBigEndianBound(digits);
    Power256Grows(size, 8);
    Power256Of8();
    assert tail == digits + tail[size..];
  }

  /** A header that is accepted is the one that is written, or stands for a single small byte. */
  lemma HeaderOnly(b: Bytes)
    requires DecodeHeader(b).Ok?
    ensures var d := DecodeHeader(b);
            && d.value.length <= U64_MAX
            && (if d.rest == b then d.value == Header(false, 1) && b[0] < 0x80
                else b == EncodeHeader(d.value.list, d.value.length) + d.rest
                     && (d.value == Header(false, 1) ==> d.rest[0] >= 0x80))
  {
    var x, tail := b[0], b[1..];
    assert b == [x] + tail;
    if 0xB7 < x <= 0xBF {
      LongHeaderIs(false, x, tail);
    } else if 0xF7 < x {
      LongHeaderIs(true, x, tail);
    }
  }

  lemma LongHeaderIs(list: bool, x: byte, tail: Bytes)
    requires var base := if list then 0xF7 else 0xB7; x > base && DecodeLongHeader(list, x - base, tail).Ok?
    ensures var d := DecodeLongHeader(list, x - if list then 0xF7 else 0xB7, tail);
            && d.value.list == list && 56 <= d.value.length <= U64_MAX && [x] + tail == EncodeHeader(list, d.value.length) + d.rest
  {
    var size := x - if list then 0xF7 else 0xB7;
    LongHeaderOnly(list, size, tail);
    var d := DecodeLongHeader(list, size, tail);
    Assoc([x], BigEndian(d.value.length), d.rest);
  }

  lemma StringOnly(b: Bytes)
    requires DecodeString(b).Ok?
    ensures |DecodeString(b).value| <= U64_MAX && b == EncodeString(DecodeString(b).value) + DecodeString(b).rest
  {
    HeaderOnly(b);
    var h := DecodeHeader(b);
    if h.rest == b {
      assert b[..1] == [b[0]] && b == b[..1] + b[1..];
    } else {
      LongString(h.value.length, h.rest);
    }
  }

  lemma LongString(length: nat, tail: Bytes)
    requires length <= U64_MAX && length <= |tail| && (length == 1 ==> tail[0] >= 0x80)
    ensures EncodeHeader(false, length) + tail == EncodeString(tail[..length]) + tail[length..]
  {
    assert tail == tail[..length] + tail[length..];
    Assoc(EncodeHeader(false, length), tail[..length], tail[length..]);
  }

  lemma ListOnly(b: Bytes)
    requires DecodeList(b).Ok?
    ensures DecodeList(b).value <= U64_MAX && b == EncodeHeader(true, DecodeList(b).value) + DecodeList(b).rest
  {
    HeaderOnly(b);
  }

  lemma UintOnly(b: Bytes, width: nat)
    requires DecodeUint(b, width).Ok? && width <= 32
    ensures DecodeUint(b, width).value < Power256(32)
    ensures b == EncodeUint(DecodeUint(b, width).value) + DecodeUint(b, width).rest
  {
    StringOnly(b);
    Power256Grows(width, 32);
    DigitsAreUnique(DecodeString(b).value);
  }

  lemma U8Only(b: Bytes)
    requires DecodeU8(b).Ok?
    ensures b == EncodeU8(DecodeU8(b).value) + DecodeU8(b).rest
  {
    UintOnly(b, 1);
  }

  lemma U64Only(b: Bytes)
    requires DecodeU64(b).Ok?
    ensures b == EncodeU64(DecodeU64(b).value) + DecodeU64(b).rest
  {
    UintOnly(b, 8);
  }

  lemma U256Only(b: Bytes)
    requires DecodeU256(b).Ok?
    ensures b == EncodeUint(DecodeU256(b).value) + DecodeU256(b).rest
  {
    UintOnly(b, 32);
  }

  lemma Option32Only(b: Bytes)
    requires DecodeOption32(b).Ok?
    ensures b == EncodeOption32(DecodeOption32(b).value) + DecodeOption32(b).rest
  {
    StringOnly(b);
  }

  lemma OptionBytesOnly(b: Bytes)
    requires DecodeOptionBytes(b).Ok?
    ensures DecodeOptionBytes(b).value.Some? ==> |DecodeOptionBytes(b).value.value| <= U64_MAX
    ensures b == EncodeOptionBytes(DecodeOptionBytes(b).value) + DecodeOptionBytes(b).rest
  {
    StringOnly(b);
  }

  // ---------------------------------------------------------------------------
  // Records and lists
  // ---------------------------------------------------------------------------

  /** A list header that announces what the fields take, and the fields. */
  lemma RecordOnly(b: Bytes, length: nat, fields: seq<Bytes>, r: Bytes)
    requires DecodeList(b) == Ok(length, Flat(fields, r)) && |Flat(fields, r)| - |r| == length
    ensures length == SumLength(fields) <= U64_MAX && b == EncodeRecord(length, fields) + r
  {
    ListOnly(b);
    FlatTail(fields, r);
    Assoc(EncodeHeader(true, length), Flat(fields, []), r);
  }

  /** What was read, up to what is left. */
  function Taken(b: Bytes, rest: Bytes): Bytes { if |rest| <= |b| then b[..|b| - |rest|] else [] }

  lemma TakenIs(e: Bytes, rest: Bytes)
    ensures Taken(e + rest, rest) == e
  {
  }

  /** `form` says which bytes are encodings of which values: nothing else is decoded, */
  ghost predicate Only<T>(decode: Bytes -> Decoded<T>, form: (T, Bytes) -> bool) {
    forall b :: Small(b) && decode(b).Ok? ==>
                  && b == Taken(b, decode(b).rest) + decode(b).rest
                  && form(decode(b).value, Taken(b, decode(b).rest))
  }

  /** and all of them are, whatever follows. */
  ghost predicate Accepts<T(!new)>(decode: Bytes -> Decoded<T>, form: (T, Bytes) -> bool) {
    forall v, e, r :: form(v, e) ==> decode(e + r) == Ok(v, r)
  }

  ghost predicate AllForms<T>(form: (T, Bytes) -> bool, items: seq<T>, encodings: seq<Bytes>) {
    |items| == |encodings| && forall i :: 0 <= i < |items| ==> form(items[i], encodings[i])
  }

  lemma {:induction false} ItemsOnly<T>(decode: Bytes -> Decoded<T>, form: (T, Bytes) -> bool, b: Bytes, end: nat, limit: nat)
    returns (encodings: seq<Bytes>)
    requires Consumes(decode) && Only(decode, form) && Small(b) && DecodeItems(decode, b, end, limit).Ok?
    ensures var d := DecodeItems(decode, b, end, limit); AllForms(form, d.value, encodings) && b == Flat(encodings, d.rest)
    decreases |b|
  {
    encodings := [];
    if |b| > end {
      var d := decode(b);
      var e := Taken(b, d.rest);
      assert b == e + d.rest && form(d.value, e);
      var more := ItemsOnly(decode, form, d.rest, end, limit - 1);
      encodings := [e] + more;
      assert encodings[1..] == more;
      var items := DecodeItems(decode, b, end, limit).value;
      assert items == [d.value] + DecodeItems(decode, d.rest, end, limit - 1).value;
    }
  }

  /** A list of encodings behind one header. */
  ghost predicate IsListOf<T>(form: (T, Bytes) -> bool, items: seq<T>, e: Bytes) {
    exists encodings :: AllForms(form, items, encodings) && IsRecord(encodings, e)
  }

  ghost predicate IsRecord(fields: seq<Bytes>, e: Bytes) {
    SumLength(fields) <= U64_MAX && e == EncodeRecord(SumLength(fields), fields)
  }

  lemma IsRecordTaken(b: Bytes, length: nat, fields: seq<Bytes>, r: Bytes)
    requires DecodeList(b) == Ok(length, Flat(fields, r)) && |Flat(fields, r)| - |r| == length
    ensures b == Taken(b, r) + r && IsRecord(fields, Taken(b, r))
  {
    RecordOnly(b, length, fields, r);
    TakenIs(EncodeRecord(length, fields), r);
  }

  lemma ListFromEncodings<T>(form: (T, Bytes) -> bool, items: seq<T>, encodings: seq<Bytes>, b: Bytes, length: nat, r: Bytes)
    requires AllForms(form, items, encodings)
    requires DecodeList(b) == Ok(length, Flat(encodings, r)) && |Flat(encodings, r)| - |r| == length
    ensures b == Taken(b, r) + r && IsListOf(form, items, Taken(b, r))
  {
    IsRecordTaken(b, length, encodings, r);
  }

  lemma ListOfOnly<T>(decode: Bytes -> Decoded<T>, form: (T, Bytes) -> bool, limit: nat, b: Bytes)
    requires Consumes(decode) && Only(decode, form) && Small(b) && DecodeListOf(decode, limit, b).Ok?
    ensures var d := DecodeListOf(decode, limit, b);
            b == Taken(b, d.rest) + d.rest && IsListOf(form, d.value, Taken(b, d.rest)) && |d.value| <= limit
  {
    var l := DecodeList(b);
    AtMost(decode, l.rest, |l.rest| - l.value, limit);
    var encodings := ItemsOnly(decode, form, l.rest, |l.rest| - l.value, limit);
    ListFromEncodings(form, DecodeListOf(decode, limit, b).value, encodings, b, l.value, DecodeListOf(decode, limit, b).rest);
  }

  lemma {:induction false} AtMost<T>(decode: Bytes -> Decoded<T>, b: Bytes, end: nat, limit: nat)
    requires Consumes(decode) && DecodeItems(decode, b, end, limit).Ok?
    ensures |DecodeItems(decode, b, end, limit).value| <= limit
    decreases |b|
  {
    if |b| > end {
      AtMost(decode, decode(b).rest, end, limit - 1);
    }
  }

  lemma ListOfAccepted<T(!new)>(decode: Bytes -> Decoded<T>, form: (T, Bytes) -> bool, limit: nat, items: seq<T>, e: Bytes, r: Bytes)
    requires Consumes(decode) && Accepts(decode, form) && IsListOf(form, items, e) && |items| <= limit
    ensures DecodeListOf(decode, limit, e + r) == Ok(items, r)
  {
    var encodings :| AllForms(form, items, encodings) && IsRecord(encodings, e);
    RecordList(SumLength(encodings), encodings, r);
    ItemsRoundTrip(decode, items, encodings, limit, r);
  }

  /** A list whose payload is cut out and read on its own. */
  lemma PayloadOnly(b: Bytes, fields: seq<Bytes>)
    requires DecodeList(b).Ok? && DecodeList(b).rest[..DecodeList(b).value] == Flat(fields, [])
    ensures DecodeList(b).value == SumLength(fields) <= U64_MAX
    ensures b == EncodeRecord(DecodeList(b).value, fields) + DecodeList(b).rest[DecodeList(b).value..]
  {
    var l := DecodeList(b);
    var r := l.rest[l.value..];
    FlatTail(fields, r);
    assert l.rest == l.rest[..l.value] + r;
    RecordOnly(b, l.value, fields, r);
  }

  // ---------------------------------------------------------------------------
  // Signatures and witnesses
  // ---------------------------------------------------------------------------

  lemma SignatureFieldsOnly(payload: Bytes)
    requires DecodeSignatureFields(payload).Some?
    ensures var s := DecodeSignatureFields(payload).value; SignatureFits(s) ==> payload == Flat(SignatureFields(s), [])
  {
    var s := DecodeSignatureFields(payload).value;
    U8Only(payload);
    StringOnly(DecodeU8(payload).rest);
    if SignatureFits(s) {
      Flat2(EncodeU8(TypeByte(s.sigType)), EncodeString(s.data), []);
    }
  }

  /** The only bytes that are read as a signature are those that are written for it. */
  lemma SignatureOnly(b: Bytes)
    requires Small(b) && DecodeSignature(b).Ok?
    ensures var d := DecodeSignature(b); SignatureFits(d.value) && SizeOk(d.value) && b == EncodeSignature(d.value) + d.rest
  {
    var l, s := DecodeList(b), DecodeSignature(b).value;
    SignatureSound(b);
    SignatureFieldsOnly(l.rest[..l.value]);
    PayloadOnly(b, SignatureFields(s));
    SignatureLengthOk(s);
  }

  lemma ProofOnly(b: Bytes)
    requires Small(b) && DecodeProof(b).Ok?
    ensures var d := DecodeProof(b);
            && SignatureFits(d.value.0) && |PubkeyBytes(d.value.1)| <= U64_MAX
            && b == Flat(ProofFields(d.value.0, PubkeyBytes(d.value.1)), d.rest)
  {
    SignatureOnly(b);
    var b1 := DecodeSignature(b).rest;
    StringOnly(b1);
    Flat2(EncodeSignature(DecodeSignature(b).value), EncodeString(DecodeString(b1).value), DecodeString(b1).rest);
  }

  lemma ProofRecordOnly(b: Bytes)
    requires Small(b) && DecodeRecord(DecodeProof, b).Ok?
    ensures var d := DecodeRecord(DecodeProof, b);
            && SignatureFits(d.value.0) && |PubkeyBytes(d.value.1)| <= U64_MAX
            && var fields := ProofFields(d.value.0, PubkeyBytes(d.value.1));
               SumLength(fields) <= U64_MAX && b == EncodeRecord(SumLength(fields), fields) + d.rest
  {
    var l, d := DecodeList(b), DecodeRecord(DecodeProof, b);
    ProofOnly(l.rest);
    RecordOnly(b, l.value, ProofFields(d.value.0, PubkeyBytes(d.value.1)), d.rest);
  }

  lemma WitnessSum(w: TxWitness)
    requires WitnessOk(w)
    ensures SumLength(WitnessFields(w)) == WitnessFieldsLength(w)
  {
    ProofRoundTrip(w.signature, ModeOf(w.pubkey), []);
  }

  lemma WitnessOnly(b: Bytes)
    requires Small(b) && DecodeWitness(b).Ok?
    ensures var d := DecodeWitness(b); WitnessOk(d.value) && b == EncodeWitness(d.value) + d.rest
  {
    WitnessSound(b, []);
    ProofRecordOnly(b);
    WitnessSum(DecodeWitness(b).value);
  }

  ghost predicate IsWitness(w: TxWitness, e: Bytes) { WitnessOk(w) && e == EncodeWitness(w) }

  lemma WitnessesForm()
    ensures Only(DecodeWitness, IsWitness)
  {
    forall b | Small(b) && DecodeWitness(b).Ok?
      ensures var d := DecodeWitness(b); b == Taken(b, d.rest) + d.rest && IsWitness(d.value, Taken(b, d.rest))
    {
      WitnessOnly(b);
      TakenIs(EncodeWitness(DecodeWitness(b).value), DecodeWitness(b).rest);
    }
  }

  lemma {:induction false} UsedUp<T>(decode: Bytes -> Decoded<T>, b: Bytes, end: nat, limit: nat)
    requires Consumes(decode) && DecodeItems(decode, b, end, limit).Ok?
    ensures |DecodeItems(decode, b, end, limit).rest| <= end
    decreases |b|
  {
    if |b| > end {
      UsedUp(decode, decode(b).rest, end, limit - 1);
    }
  }

  lemma WitnessesAreOne(ws: seq<TxWitness>, encodings: seq<Bytes>)
    requires AllForms(IsWitness, ws, encodings)
    ensures AllWitnessesOk(ws) && encodings == WitnessEncodings(ws) && SumLength(encodings) == BundlePayload(ws)
  {
    forall i | 0 <= i < |ws| ensures WitnessOk(ws[i]) && encodings[i] == EncodeWitness(ws[i]) && |encodings[i]| == WitnessLength(ws[i]) {
      assert IsWitness(ws[i], encodings[i]);
      WitnessRoundTrip(ws[i], []);
    }
    assert encodings == WitnessEncodings(ws);
    ItemsLengthOk(WitnessLength, ws, encodings);
  }

  lemma WitnessItemsOnly(payload: Bytes, limit: nat)
    requires Small(payload) && DecodeItems(DecodeWitness, payload, 0, limit).Ok?
    ensures var ws := DecodeItems(DecodeWitness, payload, 0, limit).value;
            AllWitnessesOk(ws) && payload == Flat(WitnessEncodings(ws), []) && SumLength(WitnessEncodings(ws)) == BundlePayload(ws)
  {
    WitnessesForm();
    var encodings := ItemsOnly(DecodeWitness, IsWitness, payload, 0, limit);
    UsedUp(DecodeWitness, payload, 0, limit);
    WitnessesAreOne(DecodeItems(DecodeWitness, payload, 0, limit).value, encodings);
  }

  lemma WitnessesOnly(b: Bytes)
    requires Small(b) && DecodeWitnesses(b).Ok?
    ensures var d := DecodeWitnesses(b);
            AllWitnessesOk(d.value) && BundlePayload(d.value) <= U64_MAX && b == EncodeWitnesses(d.value) + d.rest
  {
    var l := DecodeList(b);
    WitnessItemsOnly(l.rest[..l.value], l.value);
    PayloadOnly(b, WitnessEncodings(DecodeWitnesses(b).value));
  }

  // ---------------------------------------------------------------------------
  // Bundles
  // ---------------------------------------------------------------------------

  lemma CallFieldsOnly(b: Bytes)
    requires DecodeCallFields(b).Ok?
    ensures var d := DecodeCallFields(b); CallOk(d.value) ==> b == Flat(CallFields(d.value), d.rest)
  {
    Option32Only(b);
    var b1 := DecodeOption32(b).rest;
    U256Only(b1);
    var b2 := DecodeU256(b1).rest;
    StringOnly(b2);
    var b3 := DecodeString(b2).rest;
    U64Only(b3);
    var c := DecodeCallFields(b).value;
    if CallOk(c) {
      var f := CallFields(c);
      Flat4(f[0], f[1], f[2], f[3], DecodeU64(b3).rest);
    }
  }

  lemma CallOnly(b: Bytes)
    requires Small(b) && DecodeCall(b).Ok?
    ensures var d := DecodeCall(b); CallOk(d.value) && b == EncodeCall(d.value) + d.rest
  {
    CallSound(b);
    var l, d := DecodeList(b), DecodeCall(b);
    CallFieldsOnly(l.rest);
    RecordOnly(b, l.value, CallFields(d.value), d.rest);
    CallFieldsRoundTrip(d.value, []);
  }

  ghost predicate IsCall(c: InnerCall, e: Bytes) { CallOk(c) && e == EncodeCall(c) }

  lemma CallsOnly(b: Bytes)
    requires Small(b) && DecodeCalls(b).Ok?
    ensures var d := DecodeCalls(b); CallsOk(d.value) && b == EncodeCalls(d.value) + d.rest
  {
    CallsSound(b);
    forall c | Small(c) && DecodeCall(c).Ok?
      ensures var d := DecodeCall(c); c == Taken(c, d.rest) + d.rest && IsCall(d.value, Taken(c, d.rest))
    {
      CallOnly(c);
      TakenIs(EncodeCall(DecodeCall(c).value), DecodeCall(c).rest);
    }
    ListOfOnly(DecodeCall, IsCall, MAX_INNER_CALLS, b);
    CallsAreOne(DecodeCalls(b).value, Taken(b, DecodeCalls(b).rest));
  }

  lemma CallsAreOne(calls: seq<InnerCall>, e: Bytes)
    requires CallsOk(calls) && IsListOf(IsCall, calls, e)
    ensures e == EncodeCalls(calls)
  {
    var encodings :| AllForms(IsCall, calls, encodings) && IsRecord(encodings, e);
    forall i | 0 <= i < |calls| ensures encodings[i] == CallEncodings(calls)[i] && |encodings[i]| == CallLength(calls[i]) {
      assert IsCall(calls[i], encodings[i]);
      CallRoundTrip(calls[i], []);
    }
    assert encodings == CallEncodings(calls);
    ItemsLengthOk(CallLength, calls, encodings);
  }

  lemma CapOnly(b: Bytes)
    requires DecodeCap(b).Ok?
    ensures b == EncodeCap(DecodeCap(b).value) + DecodeCap(b).rest
  {
    StringOnly(b);
    var digits := DecodeString(b).value;
    if digits[0] != 0 {
      DigitsAreUnique(digits);
    } else {
      assert digits == [0];
      assert FromBigEndian([0]) == 0;
    }
  }

  lemma SessionScopeOnly(b: Bytes, s: SessionAuth)
    requires DecodeSessionScope(b).Ok? && SessionOk(s) && DecodeSessionScope(b).value == (s.pubkey, s.algo, s.target, s.valueCap)
    ensures b == Flat(SessionScope(s), DecodeSessionScope(b).rest)
  {
    StringOnly(b);
    var b1 := DecodeString(b).rest;
    U64Only(b1);
    var b2 := DecodeU64(b1).rest;
    Option32Only(b2);
    var b3 := DecodeOption32(b2).rest;
    CapOnly(b3);
    var f := SessionScope(s);
    Flat4(f[0], f[1], f[2], f[3], DecodeCap(b3).rest);
  }

  lemma SessionProofOnly(b: Bytes, s: SessionAuth)
    requires DecodeSessionProof(b).Ok? && SessionOk(s)
    requires DecodeSessionProof(b).value == (s.expiryBlock, s.rootSignature, s.sessionSignature)
    ensures b == Flat(SessionProof(s), DecodeSessionProof(b).rest)
  {
    U64Only(b);
    var b1 := DecodeU64(b).rest;
    StringOnly(b1);
    var b2 := DecodeString(b1).rest;
    StringOnly(b2);
    var f := SessionProof(s);
    Flat3(f[0], f[1], f[2], DecodeString(b2).rest);
  }

  lemma SessionOnly(b: Bytes)
    requires Small(b) && DecodeSession(b).Ok?
    ensures var d := DecodeSession(b); SessionOk(d.value) && b == EncodeSession(d.value) + d.rest
  {
    SessionSound(b);
    var l, d := DecodeList(b), DecodeSession(b);
    var s := d.value;
    SessionScopeOnly(l.rest, s);
    SessionProofOnly(DecodeSessionScope(l.rest).rest, s);
    FlatAppend(SessionScope(s), SessionProof(s), d.rest);
    RecordOnly(b, l.value, SessionScope(s) + SessionProof(s), d.rest);
    SessionFieldsRoundTrip(s, []);
  }

  lemma SponsorOnly(b: Bytes, x: AaBundle)
    requires DecodeSponsor(b).Ok? && BundleOk(x) && DecodeSponsor(b).value == (x.paymasterSignature, x.paymasterContext)
    ensures b == Flat(SponsorFields(x), DecodeSponsor(b).rest)
  {
    OptionBytesOnly(b);
    var b1 := DecodeOptionBytes(b).rest;
    OptionBytesOnly(b1);
    Flat2(EncodeOptionBytes(x.paymasterSignature), EncodeOptionBytes(x.paymasterContext), DecodeOptionBytes(b1).rest);
  }

  lemma BundleFieldsOnly(b: Bytes, x: AaBundle)
    requires Small(b) && DecodeBundleFields(b).Ok? && BundleOk(x) && DecodeBundleFields(b).value == PartsOf(x)
    ensures b == Flat(BundleFields(x), DecodeBundleFields(b).rest)
  {
    CallsOnly(b);
    var b1 := DecodeCalls(b).rest;
    Option32Only(b1);
    var b2 := DecodeOption32(b1).rest;
    SponsorOnly(b2, x);
    var calls, pay, tail := EncodeCalls(x.innerCalls), EncodeOption32(x.paymaster), DecodeSponsor(b2).rest;
    Flat2(calls, pay, Flat(SponsorFields(x), tail));
    FlatAppend([calls, pay], SponsorFields(x), tail);
  }

  /** The parts of a record with an optional last field. */
  lemma OpenHalves<T(!new), S>(fields: Bytes -> Decoded<T>, last: (Bytes, T) -> Decoded<S>, absent: S, b: Bytes)
    requires Consumes(fields) && Shrinks(last) && DecodeOpenRecord(fields, last, absent, b).Ok?
    ensures var d, l := DecodeOpenRecord(fields, last, absent, b), DecodeList(b);
            && l.Ok? && fields(l.rest).Ok? && fields(l.rest).value == d.value.0
            && |l.rest| - |d.rest| == l.value
            && var b1 := fields(l.rest).rest;
               if |l.rest| - |b1| < l.value then last(b1, d.value.0) == Ok(d.value.1, d.rest)
               else d.value.1 == absent && d.rest == b1
  {
  }

  // A record with optional last fields, for any forms of its parts.

  /** The fields that are read are of this form. */
  ghost predicate FieldsOnly<T>(fields: Bytes -> Decoded<T>, form: (T, seq<Bytes>) -> bool) {
    forall b :: Small(b) && fields(b).Ok? ==> exists f :: form(fields(b).value, f) && b == Flat(f, fields(b).rest)
  }

  ghost predicate LastOnly<T(!new), S>(last: (Bytes, T) -> Decoded<S>, form: (T, S, seq<Bytes>) -> bool) {
    forall b, t :: Small(b) && last(b, t).Ok? ==> exists f :: form(t, last(b, t).value, f) && b == Flat(f, last(b, t).rest)
  }

  ghost predicate IsOpen<T, S>(form: (T, seq<Bytes>) -> bool, lastForm: (T, S, seq<Bytes>) -> bool, t: T, s: S, e: Bytes) {
    exists f, g :: form(t, f) && lastForm(t, s, g) && IsRecord(f + g, e)
  }

  lemma OpenFromParts<T, S>(form: (T, seq<Bytes>) -> bool, lastForm: (T, S, seq<Bytes>) -> bool, t: T, s: S,
                            f: seq<Bytes>, g: seq<Bytes>, b: Bytes, length: nat, r: Bytes)
    requires form(t, f) && lastForm(t, s, g)
    requires DecodeList(b) == Ok(length, Flat(f, Flat(g, r))) && |Flat(f, Flat(g, r))| - |r| == length
    ensures b == Taken(b, r) + r && IsOpen(form, lastForm, t, s, Taken(b, r))
  {
    FlatAppend(f, g, r);
    IsRecordTaken(b, length, f + g, r);
  }

  lemma OpenOnly<T(!new), S>(fields: Bytes -> Decoded<T>, last: (Bytes, T) -> Decoded<S>, absent: S,
                             form: (T, seq<Bytes>) -> bool, lastForm: (T, S, seq<Bytes>) -> bool, b: Bytes)
    requires Consumes(fields) && Shrinks(last) && FieldsOnly(fields, form) && LastOnly(last, lastForm)
    requires forall t :: lastForm(t, absent, [])
    requires Small(b) && DecodeOpenRecord(fields, last, absent, b).Ok?
    ensures var d := DecodeOpenRecord(fields, last, absent, b);
            b == Taken(b, d.rest) + d.rest && IsOpen(form, lastForm, d.value.0, d.value.1, Taken(b, d.rest))
  {
    OpenHalves(fields, last, absent, b);
    var l, d := DecodeList(b), DecodeOpenRecord(fields, last, absent, b);
    var t, b1 := d.value.0, fields(l.rest).rest;
    var f :| form(t, f) && l.rest == Flat(f, b1);
    if |l.rest| - |b1| < l.value {
      assert last(b1, t).Ok?;
      var g :| lastForm(t, d.value.1, g) && b1 == Flat(g, d.rest);
      OpenFromParts(form, lastForm, t, d.value.1, f, g, b, l.value, d.rest);
    } else {
      assert b1 == Flat([], d.rest);
      OpenFromParts(form, lastForm, t, d.value.1, f, [], b, l.value, d.rest);
    }
  }

  lemma OpenRead<T(!new), S>(fields: Bytes -> Decoded<T>, last: (Bytes, T) -> Decoded<S>, absent: S, t: T, s: S,
                             f: seq<Bytes>, g: seq<Bytes>, e: Bytes, r: Bytes)
    requires Consumes(fields) && Shrinks(last) && IsRecord(f + g, e)
    requires fields(Flat(f, Flat(g, r))) == Ok(t, Flat(g, r))
    requires if SumLength(g) > 0 then last(Flat(g, r), t) == Ok(s, r) else s == absent && Flat(g, r) == r
    ensures DecodeOpenRecord(fields, last, absent, e + r) == Ok((t, s), r)
  {
    FlatAppend(f, g, r);
    OpenRecordRoundTrip(fields, last, absent, t, s, SumLength(f + g), f, g, r);
  }

  /** A bundle is accepted in the current format and in the one before session keys. */
  ghost predicate IsBundle(x: AaBundle, e: Bytes) {
    BundleOk(x) && (e == EncodeBundle(x) || (x.sessionAuth.None? && e == EncodeOldBundle(x)))
  }

  lemma LastSessionOnly(b: Bytes, p: BundleParts, x: AaBundle)
    requires Small(b) && DecodeSessionField(b, p).Ok? && BundleOk(x) && DecodeSessionField(b, p).value == x.sessionAuth
    ensures b == SessionField(x) + DecodeSessionField(b, p).rest
  {
    if b != [] && b[0] >= 0xC0 {
      SessionOnly(b);
    } else {
      StringOnly(b);
    }
  }

  lemma BundleOnly(b: Bytes)
    requires Small(b) && DecodeBundle(b).Ok?
    ensures var d := DecodeBundle(b); b == Taken(b, d.rest) + d.rest && IsBundle(d.value, Taken(b, d.rest))
  {
    BundleSound(b);
    OpenHalves(DecodeBundleFields, DecodeSessionField, None, b);
    var l, d := DecodeList(b), DecodeBundle(b);
    BundleFieldsOnly(l.rest, d.value);
    var b1 := DecodeBundleFields(l.rest).rest;
    if |l.rest| - |b1| < l.value {
      LastSessionOnly(b1, PartsOf(d.value), d.value);
      NewBundle(b, l.value, d.value, d.rest);
    } else {
      OldBundle(b, l.value, d.value, d.rest);
    }
  }

  lemma BundleSum(x: AaBundle)
    requires BundleOk(x)
    ensures SumLength(BundleFields(x)) + |SessionField(x)| == BundleFieldsLength(x)
  {
    BundleFieldsRoundTrip(x, []);
    SessionFieldRoundTrip(x, []);
  }

  lemma NewBundle(b: Bytes, length: nat, x: AaBundle, r: Bytes)
    requires BundleOk(x) && DecodeList(b) == Ok(length, Flat(BundleFields(x), SessionField(x) + r))
    requires |Flat(BundleFields(x), SessionField(x) + r)| - |r| == length
    ensures b == Taken(b, r) + r && Taken(b, r) == EncodeBundle(x)
  {
    WithLast(b, length, BundleFields(x), SessionField(x), r);
    TakenIs(EncodeRecord(length, BundleFields(x) + [SessionField(x)]), r);
    BundleSum(x);
  }

  lemma OldBundle(b: Bytes, length: nat, x: AaBundle, r: Bytes)
    requires BundleOk(x) && x.sessionAuth.None? && DecodeList(b) == Ok(length, Flat(BundleFields(x), r))
    requires |Flat(BundleFields(x), r)| - |r| == length
    ensures b == Taken(b, r) + r && Taken(b, r) == EncodeOldBundle(x)
  {
    RecordOnly(b, length, BundleFields(x), r);
    BundleFieldsRoundTrip(x, []);
    TakenIs(EncodeOldBundle(x), r);
  }

  lemma WithLast(b: Bytes, length: nat, fields: seq<Bytes>, last: Bytes, r: Bytes)
    requires DecodeList(b) == Ok(length, Flat(fields, last + r)) && |Flat(fields, last + r)| - |r| == length
    ensures length == SumLength(fields) + |last| <= U64_MAX && b == EncodeRecord(length, fields + [last]) + r
  {
    Flat1(last, r);
    FlatAppend(fields, [last], r);
    RecordOnly(b, length, fields + [last], r);
  }

  // ---------------------------------------------------------------------------
  // Headers
  // ---------------------------------------------------------------------------

  lemma RootsOnly(b: Bytes, h: BlockHeader)
    requires DecodeRoots(b).Ok? && HeaderOk(h)
    requires DecodeRoots(b).value == (h.parentHash, h.stateRoot, h.transactionsRoot, h.receiptsRoot, h.logsBloom, h.number)
    ensures b == Flat(Roots(h), DecodeRoots(b).rest)
  {
    StringOnly(b);
    var b1 := Decode32(b).rest;
    StringOnly(b1);
    var b2 := Decode32(b1).rest;
    StringOnly(b2);
    var b3 := Decode32(b2).rest;
    StringOnly(b3);
    var b4 := Decode32(b3).rest;
    StringOnly(b4);
    var b5 := DecodeString(b4).rest;
    U64Only(b5);
    var f := Roots(h);
    Flat6(f[0], f[1], f[2], f[3], f[4], f[5], DecodeU64(b5).rest);
  }

  lemma GasOnly(b: Bytes, h: BlockHeader)
    requires DecodeGas(b).Ok? && HeaderOk(h)
    requires DecodeGas(b).value == (h.gasLimit, h.gasUsed, h.timestamp, h.extraData, h.proposer, h.sigAggregateProof)
    ensures b == Flat(Gas(h), DecodeGas(b).rest)
  {
    U64Only(b);
    var b1 := DecodeU64(b).rest;
    U64Only(b1);
    var b2 := DecodeU64(b1).rest;
    U64Only(b2);
    var b3 := DecodeU64(b2).rest;
    StringOnly(b3);
    var b4 := DecodeString(b3).rest;
    StringOnly(b4);
    var b5 := Decode32(b4).rest;
    OptionBytesOnly(b5);
    var f := Gas(h);
    Flat6(f[0], f[1], f[2], f[3], f[4], f[5], DecodeOptionBytes(b5).rest);
  }

  lemma FeesOnly(b: Bytes, h: BlockHeader)
    requires DecodeFees(b).Ok? && HeaderOk(h)
    requires DecodeFees(b).value == (h.baseFeePerGas, h.withdrawalsRoot, h.parentBeaconBlockRoot, h.blobGasUsed, h.excessBlobGas)
    ensures b == Flat(Fees(h), DecodeFees(b).rest)
  {
    U64Only(b);
    var b1 := DecodeU64(b).rest;
    StringOnly(b1);
    var b2 := Decode32(b1).rest;
    StringOnly(b2);
    var b3 := Decode32(b2).rest;
    U64Only(b3);
    var b4 := DecodeU64(b3).rest;
    U64Only(b4);
    var f := Fees(h);
    Flat5(f[0], f[1], f[2], f[3], f[4], DecodeU64(b4).rest);
  }

  lemma HeaderFieldsOnly(b: Bytes, h: BlockHeader)
    requires DecodeOldHeaderFields(b).Ok? && HeaderOk(h) && DecodeOldHeaderFields(b).value == h.(witnessRoot := None)
    ensures b == Flat(OldHeaderFields(h), DecodeOldHeaderFields(b).rest)
  {
    RootsOnly(b, h);
    var b1 := DecodeRoots(b).rest;
    GasOnly(b1, h);
    var b2 := DecodeGas(b1).rest;
    FeesOnly(b2, h);
    var r := DecodeFees(b2).rest;
    FlatAppend(Gas(h), Fees(h), r);
    FlatAppend(Roots(h), Gas(h) + Fees(h), r);
  }

  /** A header is accepted in the current format and in the one before witness roots. */
  ghost predicate IsHeader(h: BlockHeader, e: Bytes) {
    HeaderOk(h) && (e == EncodeHeaderRecord(h, false) || (h.witnessRoot.None? && e == EncodeHeaderRecord(h, true)))
  }

  lemma HeaderRecordOnly(b: Bytes)
    requires Small(b) && DecodeHeaderRecord(b).Ok?
    ensures var d := DecodeHeaderRecord(b); b == Taken(b, d.rest) + d.rest && IsHeader(d.value, Taken(b, d.rest))
  {
    HeaderCost(b);
    HeaderIsRecord(b);
    OpenHalves(DecodeOldHeaderFields, DecodeWitnessRoot, None, b);
    var l, d := DecodeList(b), DecodeHeaderRecord(b);
    OldFieldsHaveNoRoot(l.rest);
    HeaderFromHalves(b, d.value, d.rest);
  }

  lemma OldFieldsHaveNoRoot(b: Bytes)
    requires DecodeOldHeaderFields(b).Ok?
    ensures DecodeOldHeaderFields(b).value.witnessRoot == None
  {
  }

  lemma HeaderFromHalves(b: Bytes, h: BlockHeader, r: Bytes)
    requires DecodeList(b).Ok? && HeaderOk(h)
    requires var l := DecodeList(b);
             var d := DecodeOldHeaderFields(l.rest);
             && d.Ok? && d.value == h.(witnessRoot := None) && |l.rest| - |r| == l.value
             && (if |l.rest| - |d.rest| < l.value then DecodeOption32(d.rest) == Ok(h.witnessRoot, r)
                 else h.witnessRoot == None && r == d.rest)
    ensures b == Taken(b, r) + r && IsHeader(h, Taken(b, r))
  {
    var l := DecodeList(b);
    HeaderFieldsOnly(l.rest, h);
    var b1 := DecodeOldHeaderFields(l.rest).rest;
    if |l.rest| - |b1| < l.value {
      Option32Only(b1);
      NewHeader(b, l.value, h, r);
    } else {
      OldHeader(b, l.value, h, r);
    }
  }

  lemma HeaderSum(h: BlockHeader)
    requires HeaderOk(h)
    ensures SumLength(OldHeaderFields(h)) + |EncodeOption32(h.witnessRoot)| == HeaderFieldsLength(h)
  {
    OldHeaderFieldsRoundTrip(h, []);
    Option32RoundTrip(h.witnessRoot, []);
  }

  lemma NewHeader(b: Bytes, length: nat, h: BlockHeader, r: Bytes)
    requires HeaderOk(h) && DecodeList(b) == Ok(length, Flat(OldHeaderFields(h), EncodeOption32(h.witnessRoot) + r))
    requires |Flat(OldHeaderFields(h), EncodeOption32(h.witnessRoot) + r)| - |r| == length
    ensures b == Taken(b, r) + r && Taken(b, r) == EncodeHeaderRecord(h, false)
  {
    WithLast(b, length, OldHeaderFields(h), EncodeOption32(h.witnessRoot), r);
    TakenIs(EncodeRecord(length, OldHeaderFields(h) + [EncodeOption32(h.witnessRoot)]), r);
    HeaderSum(h);
  }

  lemma OldHeader(b: Bytes, length: nat, h: BlockHeader, r: Bytes)
    requires HeaderOk(h) && DecodeList(b) == Ok(length, Flat(OldHeaderFields(h), r)) && |Flat(OldHeaderFields(h), r)| - |r| == length
    ensures b == Taken(b, r) + r && Taken(b, r) == EncodeHeaderRecord(h, true)
  {
    RecordOnly(b, length, OldHeaderFields(h), r);
    OldHeaderFieldsRoundTrip(h, []);
    TakenIs(EncodeHeaderRecord(h, true), r);
  }

  // ---------------------------------------------------------------------------
  // Exactly
  // ---------------------------------------------------------------------------

  /** Signatures, session authorisations, witnesses and bundles of witnesses are read from their
      encodings and from nothing else. */
  lemma SignatureExactly(b: Bytes, s: PQSignature, r: Bytes)
    requires Small(b)
    ensures DecodeSignature(b) == Ok(s, r) <==> SignatureFits(s) && SizeOk(s) && b == EncodeSignature(s) + r
  {
    if DecodeSignature(b) == Ok(s, r) {
      SignatureOnly(b);
    } else if SignatureFits(s) && SizeOk(s) && b == EncodeSignature(s) + r {
      SignatureRoundTrip(s, r);
    }
  }

  lemma SessionExactly(b: Bytes, s: SessionAuth, r: Bytes)
    requires Small(b)
    ensures DecodeSession(b) == Ok(s, r) <==> SessionOk(s) && b == EncodeSession(s) + r
  {
    if DecodeSession(b) == Ok(s, r) {
      SessionOnly(b);
    } else if SessionOk(s) && b == EncodeSession(s) + r {
      SessionRoundTrip(s, r);
    }
  }

  lemma WitnessExactly(b: Bytes, w: TxWitness, r: Bytes)
    requires Small(b)
    ensures DecodeWitness(b) == Ok(w, r) <==> WitnessOk(w) && b == EncodeWitness(w) + r
  {
    if DecodeWitness(b) == Ok(w, r) {
      WitnessOnly(b);
    } else if WitnessOk(w) && b == EncodeWitness(w) + r {
      WitnessRoundTrip(w, r);
    }
  }

  lemma WitnessesExactly(b: Bytes, ws: seq<TxWitness>, r: Bytes)
    requires Small(b)
    ensures DecodeWitnesses(b) == Ok(ws, r) <==> AllWitnessesOk(ws) && BundlePayload(ws) <= U64_MAX && b == EncodeWitnesses(ws) + r
  {
    if DecodeWitnesses(b) == Ok(ws, r) {
      WitnessesOnly(b);
    } else if AllWitnessesOk(ws) && BundlePayload(ws) <= U64_MAX && b == EncodeWitnesses(ws) + r {
      WitnessesRoundTrip(ws, r);
    }
  }

  /** Bundles and headers are read from their encodings in either format. */
  lemma BundleExactly(b: Bytes, x: AaBundle, r: Bytes)
    requires Small(b)
    ensures DecodeBundle(b) == Ok(x, r) <==> b == Taken(b, r) + r && IsBundle(x, Taken(b, r))
  {
    if DecodeBundle(b) == Ok(x, r) {
      BundleOnly(b);
    } else if b == Taken(b, r) + r && IsBundle(x, Taken(b, r)) {
      BundleRead(x, Taken(b, r), r);
    }
  }

  lemma BundleRead(x: AaBundle, e: Bytes, r: Bytes)
    requires IsBundle(x, e)
    ensures DecodeBundle(e + r) == Ok(x, r)
  {
    if e == EncodeBundle(x) {
      BundleRoundTrip(x, r);
    } else {
      OldBundleDecodes(x, r);
    }
  }

  lemma HeaderExactly(b: Bytes, h: BlockHeader, r: Bytes)
    requires Small(b)
    ensures DecodeHeaderRecord(b) == Ok(h, r) <==> b == Taken(b, r) + r && IsHeader(h, Taken(b, r))
  {
    if DecodeHeaderRecord(b) == Ok(h, r) {
      HeaderRecordOnly(b);
    } else if b == Taken(b, r) + r && IsHeader(h, Taken(b, r)) {
      HeaderRead(h, Taken(b, r), r);
    }
  }

  lemma HeaderRead(h: BlockHeader, e: Bytes, r: Bytes)
    requires IsHeader(h, e)
    ensures DecodeHeaderRecord(e + r) == Ok(h, r)
  {
    HeaderRecordRoundTrip(h, e != EncodeHeaderRecord(h, false), r);
  }
}
