/** Which values are normalised and within the limits, in numbers: the limits on counts and sizes are
    all there is, since what is within them is far from too long for 64 bits. */
module Limits {
  import opened Common
  import opened Rlp
  import opened Signatures
  import opened Transactions
  import opened Bundles
  import opened Normalised

  // ---------------------------------------------------------------------------
  // Lengths of the parts
  // ---------------------------------------------------------------------------

  lemma StringShort(b: Bytes)
    requires |b| <= U64_MAX
    ensures StringLength(b) <= |b| + 9
  {
    HeaderBound(|b|);
  }

  lemma RecordShort(length: nat)
    requires length <= U64_MAX
    ensures RecordLength(length) <= length + 9
  {
    HeaderBound(length);
  }

  lemma UintShort(n: nat, width: nat)
    requires n < Power256(width)
    ensures UintLength(n) <= width + 1
  {
    BigEndianLength(n, width);
  }

  lemma U64Short(n: U64)
    ensures UintLength(n) <= 9
  {
    Power256Of8();
    UintShort(n, 8);
  }

  lemma OptionShort(b: Option<Bytes>)
    requires b.Some? ==> |b.value| <= U64_MAX
    ensures OptionBytesLength(b) <= (if b.Some? then |b.value| else 0) + 9
  {
    if b.Some? {
      StringShort(b.value);
    }
  }

  lemma {:induction false} ItemsShort<T>(length: T -> nat, items: seq<T>, most: nat)
    requires forall i :: 0 <= i < |items| ==> length(items[i]) <= most
    ensures ItemsLength(length, items) <= most * |items|
  {
    if items != [] {
      ItemsShort(length, items[1..], most);
      assert most * |items| == most + most * |items[1..]|;
    }
  }

  lemma MoreItems(most: nat, n: nat, limit: nat)
    requires n <= limit
    ensures most * n <= most * limit
  {
  }

  lemma HashesShort(hs: seq<Bytes32>, limit: nat)
    requires |hs| <= limit
    ensures ItemsLength(HashLength, hs) <= 33 * limit
  {
    ItemsShort(HashLength, hs, 33);
  }

  // ---------------------------------------------------------------------------
  // Signatures and transactions
  // ---------------------------------------------------------------------------

  /** Signatures of the hash-based scheme have at most 51200 bytes, others at most 4096. */
  lemma SignatureLimits(s: PQSignature)
    ensures SignatureFits(s) && SizeOk(s) <==> |s.data| <= if s.sigType == SphincsSha2256f then 51_200 else 4_096
  {
    if |s.data| <= 51_200 {
      StringShort(s.data);
    }
  }

  lemma ItemLimits(x: AccessListItem)
    ensures ItemOk(x) <==> |x.storageKeys| <= 512
    ensures |x.storageKeys| <= 512 ==> ItemLength(x) <= 20_000
  {
    if |x.storageKeys| <= 512 {
      HashesShort(x.storageKeys, 512);
      RecordShort(KeysLength(x));
      RecordShort(ItemFieldsLength(x));
    }
  }

  /** An access list is absent or has up to 256 entries, each with up to 512 keys. */
  lemma AccessListLimits(list: Option<seq<AccessListItem>>)
    ensures AccessListOk(list) <==>
            (list.Some? ==> 0 < |list.value| <= 256 && forall i :: 0 <= i < |list.value| ==> |list.value[i].storageKeys| <= 512)
  {
    if list.Some? {
      forall i | 0 <= i < |list.value|
        ensures ItemOk(list.value[i]) <==> |list.value[i].storageKeys| <= 512
        ensures |list.value[i].storageKeys| <= 512 ==> ItemLength(list.value[i]) <= 20_000
      {
        ItemLimits(list.value[i]);
      }
      if |list.value| <= 256 && forall i :: 0 <= i < |list.value| ==> |list.value[i].storageKeys| <= 512 {
        ItemsShort(ItemLength, list.value, 20_000);
        MoreItems(20_000, |list.value|, 256);
      }
    }
  }

  /** Blob hashes are absent or up to six. */
  lemma BlobHashLimits(hs: Option<seq<Bytes32>>)
    ensures BlobHashesOk(hs) <==> (hs.Some? ==> 0 < |hs.value| <= 6)
  {
    if hs.Some? && |hs.value| <= 6 {
      HashesShort(hs.value, 6);
    }
  }

  // ---------------------------------------------------------------------------
  // Bundles
  // ---------------------------------------------------------------------------

  lemma CallLimits(c: InnerCall)
    ensures CallOk(c) <==> |c.data| <= 131_072
    ensures CallOk(c) ==> CallLength(c) <= 132_000
  {
    if |c.data| <= 131_072 {
      StringShort(c.data);
      UintShort(c.value, 32);
      U64Short(c.gasLimit);
      RecordShort(CallFieldsLength(c));
    }
  }

  lemma CallsLimits(calls: seq<InnerCall>)
    ensures CallsOk(calls) <==> |calls| <= 16 && forall i :: 0 <= i < |calls| ==> |calls[i].data| <= 131_072
    ensures CallsOk(calls) ==> RecordLength(ItemsLength(CallLength, calls)) <= 3_000_000
  {
    forall i | 0 <= i < |calls| ensures (CallOk(calls[i]) <==> |calls[i].data| <= 131_072) && (CallOk(calls[i]) ==> CallLength(calls[i]) <= 132_000) {
      CallLimits(calls[i]);
    }
    if |calls| <= 16 && forall i :: 0 <= i < |calls| ==> |calls[i].data| <= 131_072 {
      ItemsShort(CallLength, calls, 132_000);
      MoreItems(132_000, |calls|, 16);
      RecordShort(ItemsLength(CallLength, calls));
    }
  }

  /** A session key has up to 4096 bytes, each of the two signatures up to 51200. */
  lemma SessionLimits(s: SessionAuth)
    ensures SessionOk(s) <==> |s.pubkey| <= 4_096 && |s.rootSignature| <= 51_200 && |s.sessionSignature| <= 51_200
    ensures SessionOk(s) ==> SessionLength(s) <= 200_000
  {
    if |s.pubkey| <= 4_096 && |s.rootSignature| <= 51_200 && |s.sessionSignature| <= 51_200 {
      SessionShort(s);
    }
  }

  lemma SessionShort(s: SessionAuth)
    requires |s.pubkey| <= 4_096 && |s.rootSignature| <= 51_200 && |s.sessionSignature| <= 51_200
    ensures SessionFieldsLength(s) <= 150_000 && SessionLength(s) <= 200_000
  {
    StringShort(s.pubkey);
    U64Short(s.algo);
    CapShort(s.valueCap);
    U64Short(s.expiryBlock);
    StringShort(s.rootSignature);
    StringShort(s.sessionSignature);
    SessionSum(s);
    RecordShort(SessionFieldsLength(s));
  }

  lemma SessionSum(s: SessionAuth)
    requires StringLength(s.pubkey) <= 5_000 && UintLength(s.algo) <= 9 && StringLength(CapBytes(s.valueCap)) <= 41
    requires UintLength(s.expiryBlock) <= 9 && StringLength(s.rootSignature) <= 52_000 && StringLength(s.sessionSignature) <= 52_000
    ensures SessionFieldsLength(s) <= 150_000
  {
  }

  lemma CapShort(cap: U256)
    ensures StringLength(CapBytes(cap)) <= 41
  {
    BigEndianLength(cap, 32);
    StringShort(CapBytes(cap));
  }

  predicate Within(b: Option<Bytes>, limit: nat) { b.Some? ==> 0 < |b.value| <= limit }

  /** A bundle has up to 16 calls of up to 128 KiB, a paymaster signature of up to 51200 bytes and a
      context of up to 4096, neither empty. */
  lemma BundleLimits(b: AaBundle)
    ensures BundleOk(b) <==>
              && |b.innerCalls| <= 16 && (forall i :: 0 <= i < |b.innerCalls| ==> |b.innerCalls[i].data| <= 131_072)
              && Within(b.paymasterSignature, 51_200) && Within(b.paymasterContext, 4_096)
              && (b.sessionAuth.Some? ==>
                    && |b.sessionAuth.value.pubkey| <= 4_096 && |b.sessionAuth.value.rootSignature| <= 51_200
                    && |b.sessionAuth.value.sessionSignature| <= 51_200)
  {
    CallsLimits(b.innerCalls);
    if b.sessionAuth.Some? {
      SessionLimits(b.sessionAuth.value);
    }
    if CallsOk(b.innerCalls) && Within(b.paymasterSignature, 51_200) && Within(b.paymasterContext, 4_096) {
      OptionShort(b.paymasterSignature);
      OptionShort(b.paymasterContext);
    }
  }
}
