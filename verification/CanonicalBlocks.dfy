/** Which bytes are accepted as a block, in all of its formats. */
module CanonicalBlocks {
  import opened Common
  import opened Rlp
  import opened Signatures
  import opened Bundles
  import opened Blocks
  import opened Witnesses
  import opened Normalised
  import opened Canonical
  import opened CanonicalTransactions

  // ---------------------------------------------------------------------------
  // Lists without a limit
  // ---------------------------------------------------------------------------

  lemma AllOnly<T>(decode: Bytes -> Decoded<T>, form: (T, Bytes) -> bool, b: Bytes)
    requires Consumes(decode) && Only(decode, form) && Small(b) && DecodeAll(decode, b).Ok?
    ensures var d := DecodeAll(decode, b); b == Taken(b, d.rest) + d.rest && IsListOf(form, d.value, Taken(b, d.rest))
  {
    ListOfOnly(decode, form, |b|, b);
  }

  lemma AllAccepted<T(!new)>(decode: Bytes -> Decoded<T>, form: (T, Bytes) -> bool, items: seq<T>, e: Bytes, r: Bytes)
    requires Consumes(decode) && Accepts(decode, form) && IsListOf(form, items, e)
    ensures DecodeAll(decode, e + r) == Ok(items, r) && e[..1] != [0x80] && |e| > 0 && e[0] >= 0xC0
  {
    var encodings :| AllForms(form, items, encodings) && IsRecord(encodings, e);
    forall i | 0 <= i < |items| ensures |encodings[i]| > 0 {
      assert decode(encodings[i] + []) == Ok(items[i], []);
    }
    AtLeastOneByteEach(encodings);
    RecordList(SumLength(encodings), encodings, r);
    ListOfAccepted(decode, form, |e + r|, items, e, r);
  }

  // ---------------------------------------------------------------------------
  // Header and transactions
  // ---------------------------------------------------------------------------

  ghost predicate IsFront<T>(form: (T, Bytes) -> bool, v: (BlockHeader, seq<T>), f: seq<Bytes>) {
    exists h, txs :: IsHeader(v.0, h) && IsListOf(form, v.1, txs) && f == [h, txs]
  }

  lemma FrontOnly<T>(c: Codec<T>, form: (T, Bytes) -> bool, b: Bytes) returns (f: seq<Bytes>)
    requires Consumes(c.decode) && Only(c.decode, form) && Small(b) && DecodeFront(c, b).Ok?
    ensures IsFront(form, DecodeFront(c, b).value, f) && b == Flat(f, DecodeFront(c, b).rest)
  {
    HeaderRecordOnly(b);
    var b1 := DecodeHeaderRecord(b).rest;
    AllOnly(c.decode, form, b1);
    var r := DecodeAll(c.decode, b1).rest;
    f := [Taken(b, b1), Taken(b1, r)];
    Flat2(Taken(b, b1), Taken(b1, r), r);
  }

  lemma FrontRead<T(!new)>(c: Codec<T>, form: (T, Bytes) -> bool, v: (BlockHeader, seq<T>), f: seq<Bytes>, r: Bytes)
    requires Consumes(c.decode) && Accepts(c.decode, form) && IsFront(form, v, f)
    ensures DecodeFront(c, Flat(f, r)) == Ok(v, r)
  {
    var h, txs :| IsHeader(v.0, h) && IsListOf(form, v.1, txs) && f == [h, txs];
    Flat2(h, txs, r);
    HeaderRead(v.0, h, txs + r);
    AllAccepted(c.decode, form, v.1, txs, r);
  }

  // ---------------------------------------------------------------------------
  // System transactions and seal
  // ---------------------------------------------------------------------------

  /** Any text that is read as the system transaction. */
  ghost predicate IsText<S>(j: Text<S>, s: S, e: Bytes) {
    exists t :: |t| <= U64_MAX && j.read(t) == Some(s) && e == EncodeString(t)
  }

  ghost function TextForm<S>(j: Text<S>): (S, Bytes) -> bool { (s, e) => IsText(j, s, e) }

  lemma TextExact<S(!new)>(j: Text<S>)
    ensures Only(TextDecoder(j), TextForm(j)) && Accepts(TextDecoder(j), TextForm(j))
  {
    forall b | Small(b) && TextDecoder(j)(b).Ok?
      ensures var d := TextDecoder(j)(b); b == Taken(b, d.rest) + d.rest && TextForm(j)(d.value, Taken(b, d.rest))
    {
      StringOnly(b);
      TakenIs(EncodeString(DecodeString(b).value), DecodeString(b).rest);
    }
    forall s, e, r | TextForm(j)(s, e) ensures TextDecoder(j)(e + r) == Ok(s, r) {
      var t :| |t| <= U64_MAX && j.read(t) == Some(s) && e == EncodeString(t);
      StringRoundTrip(t, r);
    }
  }

  ghost predicate IsSeal(seal: Option<PQSignature>, e: Bytes) { SealOk(seal) && e == EncodeSeal(seal) }

  /** The seal may be missing, and so may the list of system transactions before it. */
  ghost predicate IsBack<S>(j: Text<S>, v: (seq<S>, Option<PQSignature>), g: seq<Bytes>) {
    || (v == ([], None) && g == [])
    || (v.0 == [] && |g| == 1 && IsSeal(v.1, g[0]))
    || (|g| == 1 && IsListOf(TextForm(j), v.0, g[0]) && v.1.None?)
    || (|g| == 2 && IsListOf(TextForm(j), v.0, g[0]) && IsSeal(v.1, g[1]))
  }

  lemma SealOnly(b: Bytes, end: nat)
    requires Small(b) && DecodeSeal(b, end).Ok?
    ensures var d := DecodeSeal(b, end);
            if |b| <= end then d.value.None? && d.rest == b else IsSeal(d.value, Taken(b, d.rest)) && b == Taken(b, d.rest) + d.rest
  {
    if |b| > end {
      if b[0] == 0x80 {
        assert DecodeHeader(b) == Ok(Header(false, 0), b[1..]);
        assert DecodeString(b) == Ok([], b[1..]);
        assert b == [b[0]] + b[1..] && EncodeString([]) == [0x80];
      } else {
        SignatureOnly(b);
        TakenIs(EncodeSignature(DecodeSignature(b).value), DecodeSignature(b).rest);
      }
    }
  }

  lemma BackOnly<S(!new)>(j: Text<S>, b: Bytes, end: nat) returns (g: seq<Bytes>)
    requires Small(b) && DecodeBack(j, b, end).Ok?
    ensures IsBack(j, DecodeBack(j, b, end).value, g) && b == Flat(g, DecodeBack(j, b, end).rest)
  {
    var d := DecodeSystem(j, b, end);
    var b1, r := d.rest, DecodeSeal(d.rest, end).rest;
    SealOnly(b1, end);
    g := if |b1| <= end then [] else [Taken(b1, r)];
    Flat1(Taken(b1, r), r);
    assert b1 == Flat(g, r);
    if |b| > end && b[0] != 0x80 && DecodeAll(TextDecoder(j), b).Ok? {
      TextExact(j);
      AllOnly(TextDecoder(j), TextForm(j), b);
      var list := Taken(b, b1);
      Flat1(list, b1);
      FlatAppend([list], g, r);
      g := [list] + g;
    }
  }

  lemma SealRead<S(!new)>(j: Text<S>, seal: Option<PQSignature>, e: Bytes, r: Bytes)
    requires Readable(j) && IsSeal(seal, e)
    ensures DecodeBack(j, e + r, |r|) == Ok(([], seal), r)
  {
    LegacySystem(j, seal, r);
    SealRoundTrip(seal, r);
  }

  lemma ListRead<S(!new)>(j: Text<S>, system: seq<S>, list: Bytes, seal: Option<PQSignature>, e: Bytes, r: Bytes)
    requires Readable(j) && IsListOf(TextForm(j), system, list) && (if e == [] then seal.None? else IsSeal(seal, e))
    ensures DecodeBack(j, list + (e + r), |r|) == Ok((system, seal), r)
  {
    TextExact(j);
    AllAccepted(TextDecoder(j), TextForm(j), system, list, e + r);
    var buf := list + (e + r);
    assert buf[0] == list[0];
    assert DecodeSystem(j, buf, |r|) == Ok(system, e + r);
    if e == [] {
      assert e + r == r;
    } else {
      SealRoundTrip(seal, r);
    }
  }

  lemma BackRead<S(!new)>(j: Text<S>, v: (seq<S>, Option<PQSignature>), g: seq<Bytes>, r: Bytes)
    requires Readable(j) && IsBack(j, v, g)
    ensures DecodeBack(j, Flat(g, r), |r|) == Ok(v, r)
  {
    if g != [] {
      if |g| == 2 {
        assert g == [g[0], g[1]];
        Flat2(g[0], g[1], r);
        SealRoundTrip(v.1, r);
        ListRead(j, v.0, g[0], v.1, g[1], r);
      } else {
        assert g == [g[0]];
        Flat1(g[0], r);
        if v.0 == [] && IsSeal(v.1, g[0]) {
          SealRead(j, v.1, g[0], r);
        } else {
          assert [] + r == r;
          ListRead(j, v.0, g[0], v.1, [], r);
        }
      }
    }
  }

  // ---------------------------------------------------------------------------
  // Blocks
  // ---------------------------------------------------------------------------

  ghost predicate IsBounded<A, B>(form: (A, seq<Bytes>) -> bool, backForm: (B, seq<Bytes>) -> bool, a: A, b: B, e: Bytes) {
    exists f, g :: form(a, f) && backForm(b, g) && IsRecord(f + g, e)
  }

  ghost predicate BoundedOnly<B>(back: (Bytes, nat) -> Decoded<B>, form: (B, seq<Bytes>) -> bool) {
    forall b, end :: Small(b) && back(b, end).Ok? ==>
                       |back(b, end).rest| <= |b| && exists g :: form(back(b, end).value, g) && b == Flat(g, back(b, end).rest)
  }

  lemma BoundedFromParts<A, B>(form: (A, seq<Bytes>) -> bool, backForm: (B, seq<Bytes>) -> bool, a: A, v: B,
                               f: seq<Bytes>, g: seq<Bytes>, b: Bytes, length: nat, r: Bytes)
    requires form(a, f) && backForm(v, g)
    requires DecodeList(b) == Ok(length, Flat(f, Flat(g, r))) && |Flat(f, Flat(g, r))| - |r| == length
    ensures b == Taken(b, r) + r && IsBounded(form, backForm, a, v, Taken(b, r))
  {
    FlatAppend(f, g, r);
    IsRecordTaken(b, length, f + g, r);
  }

  lemma BoundedHalves<A, B>(front: Bytes -> Decoded<A>, back: (Bytes, nat) -> Decoded<B>, form: (A, seq<Bytes>) -> bool,
                            backForm: (B, seq<Bytes>) -> bool, b: Bytes)
    requires Consumes(front) && FieldsOnly(front, form) && BoundedOnly(back, backForm)
    requires Small(b) && DecodeBounded(front, back, b).Ok?
    ensures var d := DecodeBounded(front, back, b);
            b == Taken(b, d.rest) + d.rest && IsBounded(form, backForm, d.value.0, d.value.1, Taken(b, d.rest))
  {
    var l := DecodeList(b);
    var a := front(l.rest);
    var v := back(a.rest, |l.rest| - l.value);
    var f :| form(a.value, f) && l.rest == Flat(f, a.rest);
    var g :| backForm(v.value, g) && a.rest == Flat(g, v.rest);
    BoundedFromParts(form, backForm, a.value, v.value, f, g, b, l.value, v.rest);
  }

  ghost function FrontForm<T>(form: (T, Bytes) -> bool): ((BlockHeader, seq<T>), seq<Bytes>) -> bool { (v, f) => IsFront(form, v, f) }

  ghost function BackForm<S>(j: Text<S>): ((seq<S>, Option<PQSignature>), seq<Bytes>) -> bool { (v, g) => IsBack(j, v, g) }

  /** An accepted encoding of the header, a list of accepted encodings of the transactions, and what
      may follow, filling the list exactly. */
  ghost predicate IsBlock<T, S>(form: (T, Bytes) -> bool, j: Text<S>, x: Block<T, S>, e: Bytes) {
    IsBounded(FrontForm(form), BackForm(j), (x.header, x.transactions), (x.system, x.seal), e)
  }

  lemma HalvesOnly<T, S(!new)>(c: Codec<T>, form: (T, Bytes) -> bool, j: Text<S>)
    requires Consumes(c.decode) && Only(c.decode, form)
    ensures FieldsOnly(FrontDecoder(c), FrontForm(form)) && BoundedOnly(BackDecoder(j), BackForm(j))
  {
    forall b | Small(b) && FrontDecoder(c)(b).Ok?
      ensures exists f :: FrontForm(form)(FrontDecoder(c)(b).value, f) && b == Flat(f, FrontDecoder(c)(b).rest)
    {
      var f := FrontOnly(c, form, b);
      assert FrontForm(form)(DecodeFront(c, b).value, f);
    }
    forall b, end | Small(b) && BackDecoder(j)(b, end).Ok?
      ensures exists g :: BackForm(j)(BackDecoder(j)(b, end).value, g) && b == Flat(g, BackDecoder(j)(b, end).rest)
    {
      var g := BackOnly(j, b, end);
      assert BackForm(j)(DecodeBack(j, b, end).value, g);
    }
  }

  lemma BlockOnly<T, S(!new)>(c: Codec<T>, form: (T, Bytes) -> bool, j: Text<S>, b: Bytes)
    requires Consumes(c.decode) && Only(c.decode, form) && Small(b) && DecodeBlock(c, j, b).Ok?
    ensures var d := DecodeBlock(c, j, b); b == Taken(b, d.rest) + d.rest && IsBlock(form, j, d.value, Taken(b, d.rest))
  {
    HalvesOnly(c, form, j);
    BoundedHalves(FrontDecoder(c), BackDecoder(j), FrontForm(form), BackForm(j), b);
  }

  lemma BlockRead<T(!new), S(!new)>(c: Codec<T>, form: (T, Bytes) -> bool, j: Text<S>, x: Block<T, S>, e: Bytes, r: Bytes)
    requires Consumes(c.decode) && Accepts(c.decode, form) && Readable(j) && IsBlock(form, j, x, e)
    ensures DecodeBlock(c, j, e + r) == Ok(x, r)
  {
    var a, v := (x.header, x.transactions), (x.system, x.seal);
    var f, g :| FrontForm(form)(a, f) && BackForm(j)(v, g) && IsRecord(f + g, e);
    BackRead(j, v, g, r);
    FrontRead(c, form, a, f, Flat(g, r));
    FlatAppend(f, g, []);
    BoundedRoundTrip(FrontDecoder(c), BackDecoder(j), a, v, SumLength(f + g), f, g, r);
  }

  /** Which bytes are read as which block, exactly. */
  lemma BlockExactly<T(!new), S(!new)>(c: Codec<T>, form: (T, Bytes) -> bool, j: Text<S>, b: Bytes, x: Block<T, S>, r: Bytes)
    requires Consumes(c.decode) && Only(c.decode, form) && Accepts(c.decode, form) && Readable(j) && Small(b)
    ensures DecodeBlock(c, j, b) == Ok(x, r) <==> b == Taken(b, r) + r && IsBlock(form, j, x, Taken(b, r))
  {
    if DecodeBlock(c, j, b) == Ok(x, r) {
      BlockOnly(c, form, j, b);
    } else if b == Taken(b, r) + r && IsBlock(form, j, x, Taken(b, r)) {
      BlockRead(c, form, j, x, Taken(b, r), r);
    }
  }

  /** Full and stripped blocks are of this kind. */
  lemma FullBlockExactly<S(!new)>(j: Text<S>, b: Bytes, x: FullBlock<S>, r: Bytes)
    requires Readable(j) && Small(b)
    ensures DecodeBlock(SignedCodec(), j, b) == Ok(x, r) <==> b == Taken(b, r) + r && IsBlock(IsSigned, j, x, Taken(b, r))
  {
    forall c | Small(c) && DecodeSigned(c).Ok?
      ensures var d := DecodeSigned(c); c == Taken(c, d.rest) + d.rest && IsSigned(d.value, Taken(c, d.rest))
    {
      SignedOnly(c);
    }
    forall s, e, q | IsSigned(s, e) ensures DecodeSigned(e + q) == Ok(s, q) {
      SignedRead(s, e, q);
    }
    BlockExactly(SignedCodec(), IsSigned, j, b, x, r);
  }

  lemma StrippedBlockExactly<S(!new)>(j: Text<S>, b: Bytes, x: StrippedBlock<S>, r: Bytes)
    requires Readable(j) && Small(b)
    ensures DecodeBlock(StrippedCodec(), j, b) == Ok(x, r) <==> b == Taken(b, r) + r && IsBlock(IsStripped, j, x, Taken(b, r))
  {
    forall c | Small(c) && DecodeStripped(c).Ok?
      ensures var d := DecodeStripped(c); c == Taken(c, d.rest) + d.rest && IsStripped(d.value, Taken(c, d.rest))
    {
      StrippedOnly(c);
    }
    forall s, e, q | IsStripped(s, e) ensures DecodeStripped(e + q) == Ok(s, q) {
      StrippedRead(s, e, q);
    }
    BlockExactly(StrippedCodec(), IsStripped, j, b, x, r);
  }
}
