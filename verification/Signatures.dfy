/** Post-quantum signatures on the wire. */
module Signatures {
  import opened Common
  import opened Rlp

  const MAX_SIGNATURE_BYTES: nat := 51_200
  const MAX_ML_DSA_65_SIG_BYTES: nat := 4_096

  datatype SignatureType = Dilithium3 | MlDsa65 | SphincsSha2256f

  datatype PQSignature = PQSignature(sigType: SignatureType, data: Bytes)

  function TypeByte(t: SignatureType): U8 {
    match t
    case Dilithium3 => 0
    case MlDsa65 => 1
    case SphincsSha2256f => 2
  }

  function TypeOf(b: U8): Option<SignatureType> {
    if b == 0 then Some(Dilithium3) else if b == 1 then Some(MlDsa65) else if b == 2 then Some(SphincsSha2256f) else None
  }

  predicate SizeOk(s: PQSignature) {
    |s.data| <= if s.sigType == SphincsSha2256f then MAX_SIGNATURE_BYTES else MAX_ML_DSA_65_SIG_BYTES
  }

  function SignatureFields(s: PQSignature): seq<Bytes>
    requires SignatureFits(s)
  {
    [EncodeU8(TypeByte(s.sigType)), EncodeString(s.data)]
  }

  function SignatureFieldsLength(s: PQSignature): nat {
    UintLength(TypeByte(s.sigType)) + StringLength(s.data)
  }

  /** The signature fits in memory with its header. */
  predicate SignatureFits(s: PQSignature) { SignatureFieldsLength(s) <= U64_MAX }

  function EncodeSignature(s: PQSignature): Bytes
    requires SignatureFits(s)
  {
    EncodeRecord(SignatureFieldsLength(s), SignatureFields(s))
  }

  function SignatureLength(s: PQSignature): nat {
    LengthOfLength(SignatureFieldsLength(s)) + SignatureFieldsLength(s)
  }

  /** The two fields must fill the payload. */
  function DecodeSignatureFields(payload: Bytes): Option<PQSignature> {
    match DecodeU8(payload)
    case Err => None
    case Ok(t, p1) =>
      match DecodeString(p1)
      case Err => None
      case Ok(data, p2) =>
        if TypeOf(t).None? || p2 != [] then None else Some(PQSignature(TypeOf(t).value, data))
  }

  /** Decoding up to the size check. */
  function DecodeSignatureUnchecked(buf: Bytes): (r: Decoded<PQSignature>)
    ensures r.Ok? ==> |r.rest| < |buf|
  {
    var (length, b0) :- DecodeList(buf);
    match DecodeSignatureFields(b0[..length])
    case None => Err
    case Some(s) => Ok(s, b0[length..])
  }

  function DecodeSignature(buf: Bytes): (r: Decoded<PQSignature>)
    ensures r.Ok? ==> |r.rest| < |buf|
  {
    var (s, rest) :- DecodeSignatureUnchecked(buf);
    if SizeOk(s) then Ok(s, rest) else Err
  }

  lemma SignatureLengthOk(s: PQSignature)
    requires SignatureFits(s)
    ensures SumLength(SignatureFields(s)) == SignatureFieldsLength(s)
    ensures |EncodeSignature(s)| == SignatureLength(s)
  {
    var fields := SignatureFields(s);
    U8RoundTrip(TypeByte(s.sigType), []);
    StringLengthOk(s.data);
    Flat2(fields[0], fields[1], []);
    RecordHeader(SignatureFieldsLength(s), fields, []);
  }

  lemma SignatureFieldsRoundTrip(s: PQSignature)
    requires SignatureFits(s)
    ensures DecodeSignatureFields(Flat(SignatureFields(s), [])) == Some(s)
  {
    var data := EncodeString(s.data);
    Flat2(EncodeU8(TypeByte(s.sigType)), data, []);
    U8RoundTrip(TypeByte(s.sigType), data + []);
    StringRoundTrip(s.data, []);
  }

  /** Any signature is read back, whatever its size, and the size check is the only other
      reason for a refusal. */
  lemma SignatureRoundTrip(s: PQSignature, r: Bytes)
    requires SignatureFits(s)
    ensures DecodeSignatureUnchecked(EncodeSignature(s) + r) == Ok(s, r)
    ensures DecodeSignature(EncodeSignature(s) + r) == if SizeOk(s) then Ok(s, r) else Err
  {
    SignatureLengthOk(s);
    var length, fields := SignatureFieldsLength(s), SignatureFields(s);
    RecordList(length, fields, r);
    RecordList(length, fields, []);
    FlatTail(fields, r);
    SignatureFieldsRoundTrip(s);
    var payload := Flat(fields, []);
    assert (payload + r)[..length] == payload && (payload + r)[length..] == r;
  }
}
