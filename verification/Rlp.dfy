/** Recursive length prefix encoding (Appendix B of the Ethereum Yellow Paper), as the
    `alloy_rlp` crate reads and writes it. Decoders take the unread bytes and give back a
    value and what is still unread. */
module Rlp {
  import opened Common

  type byte = b: int | 0 <= b < 256
  type Bytes = seq<byte>

  /** A hash or an address on the wire. */
  type Bytes32 = b: Bytes | |b| == 32 witness seq(32, _ => 0)

  type U8 = n: nat | n < 256
  type U64 = n: nat | n <= U64_MAX
  type U256 = n: nat | n < Power256(32)

  /** Which of the decoding errors occurred is not recorded. */
  datatype Decoded<+T> = Ok(value: T, rest: Bytes) | Err {
    predicate IsFailure() { Err? }
    function PropagateFailure<U>(): Decoded<U>
      requires Err?
    {
      Err
    }
    function Extract(): (T, Bytes)
      requires Ok?
    {
      (value, rest)
    }
  }

  datatype Header = Header(list: bool, length: nat)

  // ---------------------------------------------------------------------------
  // Big-endian numbers without leading zeros
  // ---------------------------------------------------------------------------

  function BigEndian(n: nat): (b: Bytes)
    ensures n == 0 <==> b == []
  {
    if n == 0 then [] else BigEndian(n / 256) + [n % 256]
  }

  function FromBigEndian(b: Bytes): nat {
    if b == [] then 0 else FromBigEndian(b[..|b| - 1]) * 256 + b[|b| - 1]
  }

  lemma {:induction false} BigEndianInverse(n: nat)
    ensures FromBigEndian(BigEndian(n)) == n
    ensures n > 0 ==> BigEndian(n)[0] != 0
  {
    if n > 0 {
      BigEndianInverse(n / 256);
      assert BigEndian(n)[..|BigEndian(n)| - 1] == BigEndian(n / 256);
    }
  }

  function Power256(k: nat): (p: nat)
    ensures p > 0
  {
    if k == 0 then 1 else 256 * Power256(k - 1)
  }

  lemma {:induction false} Power256Grows(j: nat, k: nat)
    requires j <= k
    ensures Power256(j) <= Power256(k)
  {
    if j < k {
      Power256Grows(j, k - 1);
    }
  }

  lemma {:induction false} FromBigEndianBound(b: Bytes)
    ensures FromBigEndian(b) < Power256(|b|)
  {
    if b != [] {
      FromBigEndianBound(b[..|b| - 1]);
    }
  }

  lemma {:induction false} BigEndianLength(n: nat, k: nat)
    requires n < Power256(k)
    ensures |BigEndian(n)| <= k
  {
    if n > 0 {
      BigEndianLength(n / 256, k - 1);
    }
  }

  lemma Power256Of8()
    ensures Power256(8) == U64_MAX + 1
  {
    assert Power256(4) == 0x1_0000_0000;
    assert Power256(6) == 0x1_0000_0000_0000 by { assert Power256(5) == 0x100_0000_0000; }
    assert Power256(7) == 0x100_0000_0000_0000;
  }

  // ---------------------------------------------------------------------------
  // Headers
  // ---------------------------------------------------------------------------

  /** `Header::encode` */
  function EncodeHeader(list: bool, length: nat): Bytes
    requires length <= U64_MAX
  {
    if length < 56 then [(if list then 0xC0 else 0x80) + length]
    else
      Power256Of8();
      BigEndianLength(length, 8);
      [(if list then 0xF7 else 0xB7) + |BigEndian(length)|] + BigEndian(length)
  }

  /** `length_of_length` */
  function LengthOfLength(length: nat): nat {
    if length < 56 then 1 else 1 + |BigEndian(length)|
  }

  /** `Header::decode` */
  function DecodeHeader(buf: Bytes): (r: Decoded<Header>)
    ensures r.Ok? ==> r.value.length <= |r.rest| <= |buf|
    ensures r.Ok? && r.rest == buf ==> r.value == Header(false, 1)
  {
    if buf == [] then Err
    else
      var b, tail := buf[0], buf[1..];
      if b < 0x80 then Ok(Header(false, 1), buf)
      else if b <= 0xB7 then
        var n := b - 0x80;
        if n == 1 && (tail == [] || tail[0] < 0x80) then Err
        else if |tail| < n then Err
        else Ok(Header(false, n), tail)
      else if b <= 0xBF then DecodeLongHeader(false, b - 0xB7, tail)
      else if b <= 0xF7 then
        var n := b - 0xC0;
        if |tail| < n then Err else Ok(Header(true, n), tail)
      else DecodeLongHeader(true, b - 0xF7, tail)
  }

  function DecodeLongHeader(list: bool, size: nat, tail: Bytes): (r: Decoded<Header>)
    requires size > 0
    ensures r.Ok? ==> r.value.length <= |r.rest| < |tail|
  {
    if |tail| < size || size > 8 || tail[0] == 0 then Err
    else
      var n, rest := FromBigEndian(tail[..size]), tail[size..];
      if n < 56 || |rest| < n then Err else Ok(Header(list, n), rest)
  }

  lemma HeaderLength(list: bool, length: nat)
    requires length <= U64_MAX
    ensures |EncodeHeader(list, length)| == LengthOfLength(length)
  {
  }

  lemma Assoc(a: Bytes, b: Bytes, c: Bytes)
    ensures a + b + c == a + (b + c)
  {
  }

  lemma LongHeaderRoundTrip(list: bool, length: nat, tail: Bytes)
    requires 56 <= length <= U64_MAX && length <= |tail|
    ensures 1 <= |BigEndian(length)| <= 8
    ensures DecodeLongHeader(list, |BigEndian(length)|, BigEndian(length) + tail) == Ok(Header(list, length), tail)
  {
    var digits := BigEndian(length);
    Power256Of8();
    BigEndianLength(length, 8);
    BigEndianInverse(length);
    assert (digits + tail)[..|digits|] == digits && (digits + tail)[|digits|..] == tail;
  }

  /** A header that fits what follows it is read back, except that a string of one small byte
      must not have one. */
  lemma HeaderRoundTrip(list: bool, length: nat, tail: Bytes)
    requires length <= U64_MAX && length <= |tail|
    requires !list && length == 1 ==> tail[0] >= 0x80
    ensures DecodeHeader(EncodeHeader(list, length) + tail) == Ok(Header(list, length), tail)
  {
    var head := EncodeHeader(list, length);
    var buf := head + tail;
    if length < 56 {
      assert buf[0] == head[0] && buf[1..] == tail;
    } else {
      LongHeaderRoundTrip(list, length, tail);
      assert buf[0] == head[0] && buf[1..] == BigEndian(length) + tail;
    }
  }

  // ---------------------------------------------------------------------------
  // Strings, numbers and 32-byte values
  // ---------------------------------------------------------------------------

  function EncodeString(b: Bytes): Bytes
    requires |b| <= U64_MAX
  {
    if |b| == 1 && b[0] < 0x80 then b else EncodeHeader(false, |b|) + b
  }

  function StringLength(b: Bytes): nat {
    if |b| == 1 && b[0] < 0x80 then 1 else LengthOfLength(|b|) + |b|
  }

  lemma StringLengthOk(b: Bytes)
    requires |b| <= U64_MAX
    ensures |EncodeString(b)| == StringLength(b) >= 1
  {
  }

  /** `Header::decode_bytes(buf, false)` */
  function DecodeString(buf: Bytes): (r: Decoded<Bytes>)
    ensures r.Ok? ==> |r.rest| < |buf|
  {
    var (h, tail) :- DecodeHeader(buf);
    if h.list then Err else Ok(tail[..h.length], tail[h.length..])
  }

  lemma StringRoundTrip(b: Bytes, r: Bytes)
    requires |b| <= U64_MAX
    ensures DecodeString(EncodeString(b) + r) == Ok(b, r)
  {
    if |b| == 1 && b[0] < 0x80 {
      assert (b + r)[..1] == b && (b + r)[1..] == r;
    } else {
      HeaderRoundTrip(false, |b|, b + r);
      assert EncodeHeader(false, |b|) + b + r == EncodeHeader(false, |b|) + (b + r);
      assert (b + r)[..|b|] == b && (b + r)[|b|..] == r;
    }
  }

  function EncodeUint(n: U256): Bytes {
    BigEndianLength(n, 32);
    EncodeString(BigEndian(n))
  }

  function EncodeU8(n: U8): Bytes {
    assert Power256(1) == 256;
    Power256Grows(1, 32);
    EncodeUint(n)
  }

  function EncodeU64(n: U64): Bytes {
    Power256Of8();
    Power256Grows(8, 32);
    EncodeUint(n)
  }

  function UintLength(n: nat): nat {
    if n < 0x80 then 1 else 1 + |BigEndian(n)|
  }

  /** `u8`, `u64` and `U256` are read alike, up to the width in bytes. */
  function DecodeUint(buf: Bytes, width: nat): (r: Decoded<nat>)
    ensures r.Ok? ==> |r.rest| < |buf| && r.value < Power256(width)
  {
    var (b, rest) :- DecodeString(buf);
    if |b| > width || (b != [] && b[0] == 0) then Err
    else
      FromBigEndianBound(b);
      Power256Grows(|b|, width);
      Ok(FromBigEndian(b), rest)
  }

  function DecodeU8(buf: Bytes): (r: Decoded<U8>)
    ensures r.Ok? ==> |r.rest| < |buf|
  {
    assert Power256(1) == 256;
    var (n, rest) :- DecodeUint(buf, 1);
    Ok(n, rest)
  }

  function DecodeU64(buf: Bytes): (r: Decoded<U64>)
    ensures r.Ok? ==> |r.rest| < |buf|
  {
    Power256Of8();
    var (n, rest) :- DecodeUint(buf, 8);
    Ok(n, rest)
  }

  function DecodeU256(buf: Bytes): (r: Decoded<U256>)
    ensures r.Ok? ==> |r.rest| < |buf|
  {
    var (n, rest) :- DecodeUint(buf, 32);
    Ok(n, rest)
  }

  lemma BigEndianShort(n: nat)
    ensures 0 < n < 256 ==> BigEndian(n) == [n]
    ensures n >= 256 ==> |BigEndian(n)| >= 2
  {
    if 0 < n < 256 {
      assert BigEndian(n / 256) == [];
    } else if n >= 256 {
      assert |BigEndian(n / 256)| > 0;
    }
  }

  lemma UintLengthOk(n: nat)
    requires n < Power256(32)
    ensures |EncodeUint(n)| == UintLength(n)
  {
    BigEndianLength(n, 32);
    BigEndianShort(n);
    StringLengthOk(BigEndian(n));
  }

  lemma UintRoundTrip(n: nat, width: nat, r: Bytes)
    requires n < Power256(width) && n < Power256(32)
    ensures DecodeUint(EncodeUint(n) + r, width) == Ok(n, r)
  {
    BigEndianLength(n, width);
    BigEndianLength(n, 32);
    BigEndianInverse(n);
    StringRoundTrip(BigEndian(n), r);
  }

  lemma U8RoundTrip(n: U8, r: Bytes)
    ensures DecodeU8(EncodeU8(n) + r) == Ok(n, r) && |EncodeU8(n)| == UintLength(n)
  {
    assert Power256(1) == 256;
    Power256Grows(1, 32);
    UintRoundTrip(n, 1, r);
    UintLengthOk(n);
  }

  lemma U64RoundTrip(n: U64, r: Bytes)
    ensures DecodeU64(EncodeU64(n) + r) == Ok(n, r) && |EncodeU64(n)| == UintLength(n)
  {
    Power256Of8();
    Power256Grows(8, 32);
    UintRoundTrip(n, 8, r);
    UintLengthOk(n);
  }

  lemma U256RoundTrip(n: U256, r: Bytes)
    ensures DecodeU256(EncodeUint(n) + r) == Ok(n, r) && |EncodeUint(n)| == UintLength(n)
  {
    UintRoundTrip(n, 32, r);
    UintLengthOk(n);
  }

  /** `<[u8; 32]>::decode` */
  function Decode32(buf: Bytes): (r: Decoded<Bytes32>)
    ensures r.Ok? ==> |r.rest| < |buf|
  {
    var (b, rest) :- DecodeString(buf);
    if |b| == 32 then Ok(b, rest) else Err
  }

  lemma RoundTrip32(b: Bytes32, r: Bytes)
    ensures Decode32(EncodeString(b) + r) == Ok(b, r)
    ensures |EncodeString(b)| == 33
  {
    StringRoundTrip(b, r);
  }

  /** An absent address is an empty string. */
  function EncodeOption32(b: Option<Bytes32>): Bytes {
    match b
    case Some(v) => EncodeString(v)
    case None => EncodeString([])
  }

  function Option32Length(b: Option<Bytes32>): nat {
    if b.Some? then StringLength(b.value) else 1
  }

  function DecodeOption32(buf: Bytes): (r: Decoded<Option<Bytes32>>)
    ensures r.Ok? ==> |r.rest| < |buf|
  {
    var (b, rest) :- DecodeString(buf);
    if b == [] then Ok(None, rest) else if |b| == 32 then Ok(Some(b), rest) else Err
  }

  lemma Option32RoundTrip(b: Option<Bytes32>, r: Bytes)
    ensures DecodeOption32(EncodeOption32(b) + r) == Ok(b, r)
    ensures |EncodeOption32(b)| == Option32Length(b)
  {
    if b.Some? {
      StringRoundTrip(b.value, r);
    } else {
      StringRoundTrip([], r);
    }
  }

  /** Absent bytes are an empty string too, so that present bytes must not be empty. */
  function EncodeOptionBytes(b: Option<Bytes>): Bytes
    requires b.Some? ==> |b.value| <= U64_MAX
  {
    EncodeString(if b.Some? then b.value else [])
  }

  function OptionBytesLength(b: Option<Bytes>): nat {
    if b.Some? then StringLength(b.value) else 1
  }

  predicate NotEmpty(b: Option<Bytes>) { b.Some? ==> b.value != [] }

  function DecodeOptionBytes(buf: Bytes): (r: Decoded<Option<Bytes>>)
    ensures r.Ok? ==> |r.rest| < |buf|
  {
    var (b, rest) :- DecodeString(buf);
    Ok(if b == [] then None else Some(b), rest)
  }

  lemma OptionBytesRoundTrip(b: Option<Bytes>, r: Bytes)
    requires NotEmpty(b) && (b.Some? ==> |b.value| <= U64_MAX)
    ensures DecodeOptionBytes(EncodeOptionBytes(b) + r) == Ok(b, r)
    ensures |EncodeOptionBytes(b)| == OptionBytesLength(b)
  {
    StringRoundTrip(if b.Some? then b.value else [], r);
  }

  // ---------------------------------------------------------------------------
  // Records: a list header and the fields one after the other
  // ---------------------------------------------------------------------------

  /** The fields followed by `tail`. */
  function Flat(fields: seq<Bytes>, tail: Bytes): Bytes {
    if fields == [] then tail else fields[0] + Flat(fields[1..], tail)
  }

  function SumLength(fields: seq<Bytes>): nat {
    if fields == [] then 0 else |fields[0]| + SumLength(fields[1..])
  }

  lemma {:induction false} FlatTail(fields: seq<Bytes>, tail: Bytes)
    ensures Flat(fields, []) + tail == Flat(fields, tail)
    ensures |Flat(fields, tail)| == SumLength(fields) + |tail|
  {
    if fields != [] {
      FlatTail(fields[1..], tail);
    }
  }

  lemma Flat1(a: Bytes, tail: Bytes)
    ensures Flat([a], tail) == a + tail
    ensures SumLength([a]) == |a|
  {
  }

  lemma Flat2(a: Bytes, b: Bytes, tail: Bytes)
    ensures Flat([a, b], tail) == a + (b + tail)
    ensures SumLength([a, b]) == |a| + |b|
  {
    assert [a, b][1..] == [b];
    Flat1(b, tail);
  }

  lemma Flat3(a: Bytes, b: Bytes, c: Bytes, tail: Bytes)
    ensures Flat([a, b, c], tail) == a + (b + (c + tail))
    ensures SumLength([a, b, c]) == |a| + |b| + |c|
  {
    assert [a, b, c][1..] == [b, c];
    Flat2(b, c, tail);
  }

  lemma Flat4(a: Bytes, b: Bytes, c: Bytes, d: Bytes, tail: Bytes)
    ensures Flat([a, b, c, d], tail) == a + (b + (c + (d + tail)))
    ensures SumLength([a, b, c, d]) == |a| + |b| + |c| + |d|
  {
    assert [a, b, c, d][1..] == [b, c, d];
    Flat3(b, c, d, tail);
  }

  lemma Flat5(a: Bytes, b: Bytes, c: Bytes, d: Bytes, e: Bytes, tail: Bytes)
    ensures Flat([a, b, c, d, e], tail) == a + (b + (c + (d + (e + tail))))
    ensures SumLength([a, b, c, d, e]) == |a| + |b| + |c| + |d| + |e|
  {
    assert [a, b, c, d, e][1..] == [b, c, d, e];
    Flat4(b, c, d, e, tail);
  }

  lemma Flat6(a: Bytes, b: Bytes, c: Bytes, d: Bytes, e: Bytes, f: Bytes, tail: Bytes)
    ensures Flat([a, b, c, d, e, f], tail) == a + (b + (c + (d + (e + (f + tail)))))
    ensures SumLength([a, b, c, d, e, f]) == |a| + |b| + |c| + |d| + |e| + |f|
  {
    assert [a, b, c, d, e, f][1..] == [b, c, d, e, f];
    Flat5(b, c, d, e, f, tail);
  }

  lemma {:induction false} FlatAppend(a: seq<Bytes>, b: seq<Bytes>, tail: Bytes)
    ensures Flat(a + b, tail) == Flat(a, Flat(b, tail))
    ensures SumLength(a + b) == SumLength(a) + SumLength(b)
  {
    if a == [] {
      assert a + b == b;
    } else {
      FlatAppend(a[1..], b, tail);
      assert (a + b)[1..] == a[1..] + b;
    }
  }

  function EncodeRecord(length: nat, fields: seq<Bytes>): Bytes
    requires length <= U64_MAX
  {
    EncodeHeader(true, length) + Flat(fields, [])
  }

  /** Reading the header of a record whose recorded length is right leaves its fields. */
  lemma RecordHeader(length: nat, fields: seq<Bytes>, r: Bytes)
    requires length == SumLength(fields) <= U64_MAX
    ensures DecodeHeader(EncodeRecord(length, fields) + r) == Ok(Header(true, length), Flat(fields, r))
    ensures |Flat(fields, r)| == length + |r|
    ensures |EncodeRecord(length, fields)| == LengthOfLength(length) + length
  {
    FlatTail(fields, r);
    FlatTail(fields, []);
    HeaderRoundTrip(true, length, Flat(fields, r));
    Assoc(EncodeHeader(true, length), Flat(fields, []), r);
    HeaderLength(true, length);
  }

  /** `Header::decode` for a record: a list is expected. */
  function DecodeList(buf: Bytes): (r: Decoded<nat>)
    ensures r.Ok? ==> r.value <= |r.rest| < |buf|
  {
    var (h, rest) :- DecodeHeader(buf);
    if h.list then Ok(h.length, rest) else Err
  }

  lemma RecordList(length: nat, fields: seq<Bytes>, r: Bytes)
    requires length == SumLength(fields) <= U64_MAX
    ensures DecodeList(EncodeRecord(length, fields) + r) == Ok(length, Flat(fields, r))
    ensures |Flat(fields, r)| == length + |r|
    ensures |EncodeRecord(length, fields)| == LengthOfLength(length) + length
  {
    RecordHeader(length, fields, r);
  }

  function RecordLength(fieldsLength: nat): nat { LengthOfLength(fieldsLength) + fieldsLength }

  /** A record: a list header, the fields, and a check that they fill the list exactly. */
  function DecodeRecord<T>(fields: Bytes -> Decoded<T>, buf: Bytes): (r: Decoded<T>)
    requires Consumes(fields)
    ensures r.Ok? ==> |r.rest| < |buf|
  {
    var (length, b0) :- DecodeList(buf);
    var (value, b1) :- fields(b0);
    if SatSub(|b0|, |b1|) != length then Err else Ok(value, b1)
  }

  lemma RecordRoundTrip<T>(fields: Bytes -> Decoded<T>, value: T, length: nat, encoded: seq<Bytes>, r: Bytes)
    requires Consumes(fields) && length == SumLength(encoded) <= U64_MAX
    requires fields(Flat(encoded, r)) == Ok(value, r)
    ensures DecodeRecord(fields, EncodeRecord(length, encoded) + r) == Ok(value, r)
    ensures |EncodeRecord(length, encoded)| == RecordLength(length)
  {
    RecordList(length, encoded, r);
  }

  ghost predicate Shrinks<T(!new), S>(decode: (Bytes, T) -> Decoded<S>) {
    forall b, t :: decode(b, t).Ok? ==> |decode(b, t).rest| <= |b|
  }

  /** A record with an optional last field, which is read when the list has bytes left after
      the fixed fields. */
  function DecodeOpenRecord<T(!new), S>(fields: Bytes -> Decoded<T>, last: (Bytes, T) -> Decoded<S>, absent: S, buf: Bytes)
    : (r: Decoded<(T, S)>)
    requires Consumes(fields) && Shrinks(last)
    ensures r.Ok? ==> |r.rest| < |buf|
  {
    var (length, b0) :- DecodeList(buf);
    var (t, b1) :- fields(b0);
    var (s, b2) :- if SatSub(|b0|, |b1|) < length then last(b1, t) else Ok(absent, b1);
    if SatSub(|b0|, |b2|) != length then Err else Ok((t, s), b2)
  }

  lemma OpenRecordRoundTrip<T(!new), S>(fields: Bytes -> Decoded<T>, last: (Bytes, T) -> Decoded<S>, absent: S, t: T, s: S,
                                        length: nat, a: seq<Bytes>, b: seq<Bytes>, r: Bytes)
    requires Consumes(fields) && Shrinks(last) && length == SumLength(a) + SumLength(b) <= U64_MAX
    requires fields(Flat(a, Flat(b, r))) == Ok(t, Flat(b, r))
    requires if SumLength(b) > 0 then last(Flat(b, r), t) == Ok(s, r) else s == absent && Flat(b, r) == r
    ensures DecodeOpenRecord(fields, last, absent, EncodeRecord(length, a + b) + r) == Ok((t, s), r)
    ensures |EncodeRecord(length, a + b)| == RecordLength(length)
  {
    FlatAppend(a, b, r);
    FlatTail(b, r);
    RecordList(length, a + b, r);
  }

  /** A record that ends before its optional field. */
  lemma ShortRecordRoundTrip<T(!new), S>(fields: Bytes -> Decoded<T>, last: (Bytes, T) -> Decoded<S>, absent: S, t: T,
                                         length: nat, a: seq<Bytes>, r: Bytes)
    requires Consumes(fields) && Shrinks(last) && length == SumLength(a) <= U64_MAX
    requires fields(Flat(a, r)) == Ok(t, r)
    ensures DecodeOpenRecord(fields, last, absent, EncodeRecord(length, a) + r) == Ok((t, absent), r)
    ensures |EncodeRecord(length, a)| == RecordLength(length)
  {
    RecordList(length, a, r);
  }

  // ---------------------------------------------------------------------------
  // Lists of items
  // ---------------------------------------------------------------------------

  ghost predicate Consumes<T>(decode: Bytes -> Decoded<T>) {
    forall b :: decode(b).Ok? ==> |decode(b).rest| < |b|
  }

  /** Items are read while more than `end` bytes are left, at most `limit` of them. */
  function DecodeItems<T>(decode: Bytes -> Decoded<T>, buf: Bytes, end: nat, limit: nat): (r: Decoded<seq<T>>)
    requires Consumes(decode)
    ensures r.Ok? ==> |r.rest| <= |buf|
    decreases |buf|
  {
    if |buf| <= end then Ok([], buf)
    else if limit == 0 then Err
    else
      var (item, rest) :- decode(buf);
      var (items, left) :- DecodeItems(decode, rest, end, limit - 1);
      Ok([item] + items, left)
  }

  /** The loop that every list decoder contains. */
  method DecodeItemsLoop<T>(decode: Bytes -> Decoded<T>, input: Bytes, end: nat, limit: nat) returns (r: Decoded<seq<T>>)
    requires Consumes(decode)
    ensures r == DecodeItems(decode, input, end, limit)
  {
    var items, buf := [], input;
    assert DecodeItems(decode, input, end, limit).Ok? ==>
             [] + DecodeItems(decode, input, end, limit).value == DecodeItems(decode, input, end, limit).value;
    while |buf| > end
      invariant |items| <= limit
      invariant DecodeItems(decode, input, end, limit) ==
                match DecodeItems(decode, buf, end, limit - |items|) {
                  case Ok(more, left) => Ok(items + more, left)
                  case Err => Err
                }
      decreases |buf|
    {
      if |items| == limit {
        return Err;
      }
      var d := decode(buf);
      match d {
        case Err => return Err;
        case Ok(item, rest) =>
          ghost var more := DecodeItems(decode, rest, end, limit - |items| - 1);
          assert more.Ok? ==> items + ([item] + more.value) == items + [item] + more.value;
          items := items + [item];
          buf := rest;
      }
    }
    assert items + [] == items;
    return Ok(items, buf);
  }

  function ItemsLength<T>(length: T -> nat, items: seq<T>): nat {
    if items == [] then 0 else length(items[0]) + ItemsLength(length, items[1..])
  }

  lemma {:induction false} ItemsLengthOk<T>(length: T -> nat, items: seq<T>, encodings: seq<Bytes>)
    requires |items| == |encodings|
    requires forall i :: 0 <= i < |items| ==> |encodings[i]| == length(items[i])
    ensures SumLength(encodings) == ItemsLength(length, items)
  {
    if items != [] {
      ItemsLengthOk(length, items[1..], encodings[1..]);
    }
  }

  /** Items that are read back one at a time are read back as a list. */
  lemma {:induction false} ItemsRoundTrip<T>(decode: Bytes -> Decoded<T>, items: seq<T>, encodings: seq<Bytes>,
                                              limit: nat, r: Bytes)
    requires Consumes(decode) && |items| == |encodings| <= limit
    requires forall i, s :: 0 <= i < |items| ==> decode(encodings[i] + s) == Ok(items[i], s)
    ensures DecodeItems(decode, Flat(encodings, r), |r|, limit) == Ok(items, r)
  {
    FlatTail(encodings, r);
    if items != [] {
      var s := Flat(encodings[1..], r);
      assert decode(encodings[0] + s) == Ok(items[0], s);
      assert |encodings[0]| > 0 by { assert |decode(encodings[0] + s).rest| < |encodings[0] + s|; }
      ItemsRoundTrip(decode, items[1..], encodings[1..], limit - 1, r);
      assert [items[0]] + items[1..] == items;
    }
  }

  /** A list of items behind one header, which they must fill exactly. */
  function DecodeListOf<T>(decode: Bytes -> Decoded<T>, limit: nat, buf: Bytes): (r: Decoded<seq<T>>)
    requires Consumes(decode)
    ensures r.Ok? ==> |r.rest| < |buf|
  {
    var (length, b0) :- DecodeList(buf);
    var (items, b1) :- DecodeItems(decode, b0, |b0| - length, limit);
    if |b1| != |b0| - length then Err else Ok(items, b1)
  }

  lemma ListOfRoundTrip<T>(decode: Bytes -> Decoded<T>, length: T -> nat, items: seq<T>, encodings: seq<Bytes>,
                           limit: nat, r: Bytes)
    requires Consumes(decode) && |items| == |encodings| <= limit && ItemsLength(length, items) <= U64_MAX
    requires forall i, s :: 0 <= i < |items| ==> decode(encodings[i] + s) == Ok(items[i], s)
    requires forall i :: 0 <= i < |items| ==> |encodings[i]| == length(items[i])
    ensures DecodeListOf(decode, limit, EncodeRecord(ItemsLength(length, items), encodings) + r) == Ok(items, r)
    ensures |EncodeRecord(ItemsLength(length, items), encodings)| == RecordLength(ItemsLength(length, items))
  {
    ItemsLengthOk(length, items, encodings);
    RecordList(ItemsLength(length, items), encodings, r);
    ItemsRoundTrip(decode, items, encodings, limit, r);
  }

  lemma EmptyListRoundTrip<T>(decode: Bytes -> Decoded<T>, limit: nat, r: Bytes)
    requires Consumes(decode)
    ensures DecodeListOf(decode, limit, EncodeHeader(true, 0) + r) == Ok([], r)
    ensures |EncodeHeader(true, 0)| == 1
  {
    HeaderRoundTrip(true, 0, r);
  }

  /** A list with no limit of its own: every item takes at least one byte. */
  function DecodeAll<T>(decode: Bytes -> Decoded<T>, buf: Bytes): (r: Decoded<seq<T>>)
    requires Consumes(decode)
    ensures r.Ok? ==> |r.rest| < |buf|
  {
    DecodeListOf(decode, |buf|, buf)
  }

  lemma {:induction false} AtLeastOneByteEach(encodings: seq<Bytes>)
    requires forall i :: 0 <= i < |encodings| ==> |encodings[i]| > 0
    ensures |encodings| <= SumLength(encodings)
  {
    if encodings != [] {
      AtLeastOneByteEach(encodings[1..]);
    }
  }

  lemma AllRoundTrip<T>(decode: Bytes -> Decoded<T>, length: T -> nat, items: seq<T>, encodings: seq<Bytes>, r: Bytes)
    requires Consumes(decode) && |items| == |encodings| && ItemsLength(length, items) <= U64_MAX
    requires forall i, s :: 0 <= i < |items| ==> decode(encodings[i] + s) == Ok(items[i], s)
    requires forall i :: 0 <= i < |items| ==> |encodings[i]| == length(items[i])
    ensures DecodeAll(decode, EncodeRecord(ItemsLength(length, items), encodings) + r) == Ok(items, r)
    ensures |EncodeRecord(ItemsLength(length, items), encodings)| == RecordLength(ItemsLength(length, items))
    ensures EncodeRecord(ItemsLength(length, items), encodings)[0] >= 0xC0
  {
    var total := ItemsLength(length, items);
    forall i | 0 <= i < |items| ensures |encodings[i]| > 0 {
      assert decode(encodings[i] + []) == Ok(items[i], []);
    }
    AtLeastOneByteEach(encodings);
    ItemsLengthOk(length, items, encodings);
    RecordList(total, encodings, r);
    ListOfRoundTrip(decode, length, items, encodings, |EncodeRecord(total, encodings) + r|, r);
  }
}
