/**
 * Properties of the signed message: where each field sits in the byte
 * stream, and that the stream (and, for a collision-free hash, the digest)
 * determines every field when the encoders are fixed-width and injective.
 */
module MessageProperties {
  import opened Types
  import opened AttestationValidation

  /** Every value of the type encodes to exactly `width` bytes. */
  ghost predicate FixedWidth<T(!new)>(encode: T -> seq<byte>, width: nat)
  {
    forall x :: |encode(x)| == width
  }

  /** Distinct values encode differently. */
  ghost predicate Injective<T(!new), U>(f: T -> U)
  {
    forall x, y :: f(x) == f(y) ==> x == y
  }

  /** Two concatenations whose left parts have equal length agree part by part. */
  lemma SplitAppend(x: seq<byte>, y: seq<byte>, x': seq<byte>, y': seq<byte>)
    requires |x| == |x'|
    requires x + y == x' + y'
    ensures x == x' && y == y'
  {
    assert x == (x + y)[..|x|];
    assert x' == (x' + y')[..|x'|];
    assert y == (x + y)[|x|..];
    assert y' == (x' + y')[|x'|..];
  }

  /** Hash `i` of the list occupies bytes `32 * i` up to `32 * (i + 1)` of its raw bytes. */
  lemma {:induction false} RawHashBytesAt(hashes: seq<Hash256>, i: nat)
    requires i < |hashes|
    ensures RawHashBytes(hashes)[HASH_BYTES * i .. HASH_BYTES * (i + 1)] == hashes[i]
  {
    var n := |hashes| - 1;
    var init := hashes[..n];
    assert RawHashBytes(hashes) == RawHashBytes(init) + hashes[n];
    if i < n {
      RawHashBytesAt(init, i);
      assert RawHashBytes(hashes)[HASH_BYTES * i .. HASH_BYTES * (i + 1)]
          == RawHashBytes(init)[HASH_BYTES * i .. HASH_BYTES * (i + 1)];
    }
  }

  /** Lists of hashes of the same length with the same raw bytes are the same list. */
  lemma {:induction false} RawHashBytesInjective(p: seq<Hash256>, q: seq<Hash256>)
    requires |p| == |q|
    requires RawHashBytes(p) == RawHashBytes(q)
    ensures p == q
  {
    if p != [] {
      var n := |p| - 1;
      SplitAppend(RawHashBytes(p[..n]), p[n], RawHashBytes(q[..n]), q[n]);
      RawHashBytesInjective(p[..n], q[..n]);
      assert p == p[..n] + [p[n]];
      assert q == q[..n] + [q[n]];
    }
  }

  /**
   * Field order of the message: the slot first, then each parent hash raw
   * and in order, then the shard id, the shard block hash and the justified
   * slot, with nothing in between and nothing after.
   */
  lemma MessageLayout(ssz: SszEncoders, slot: u64, parentHashes: seq<Hash256>, shardId: u16,
                      shardBlockHash: Hash256, justifiedSlot: u64)
    ensures
      var m := MessageBytes(ssz, slot, parentHashes, shardId, shardBlockHash, justifiedSlot);
      var p := |ssz.encodeU64(slot)|;
      var s := p + HASH_BYTES * |parentHashes|;
      var b := s + |ssz.encodeU16(shardId)|;
      var j := b + |ssz.encodeHash(shardBlockHash)|;
      && |m| == j + |ssz.encodeU64(justifiedSlot)|
      && m[..p] == ssz.encodeU64(slot)
      && (forall i :: 0 <= i < |parentHashes| ==>
            m[p + HASH_BYTES * i .. p + HASH_BYTES * (i + 1)] == parentHashes[i])
      && m[s..b] == ssz.encodeU16(shardId)
      && m[b..j] == ssz.encodeHash(shardBlockHash)
      && m[j..] == ssz.encodeU64(justifiedSlot)
  {
    var m := MessageBytes(ssz, slot, parentHashes, shardId, shardBlockHash, justifiedSlot);
    var p := |ssz.encodeU64(slot)|;
    var raw := RawHashBytes(parentHashes);
    assert m[p..p + |raw|] == raw;
    forall i | 0 <= i < |parentHashes|
      ensures m[p + HASH_BYTES * i .. p + HASH_BYTES * (i + 1)] == parentHashes[i]
    {
      RawHashBytesAt(parentHashes, i);
      assert m[p + HASH_BYTES * i .. p + HASH_BYTES * (i + 1)]
          == raw[HASH_BYTES * i .. HASH_BYTES * (i + 1)];
    }
  }

  /**
   * With fixed-width injective encoders the message layout is self-delimiting:
   * equal byte streams come only from equal fields.
   */
  lemma MessageBytesInjective(ssz: SszEncoders, w64: nat, w16: nat, wHash: nat,
                              slot: u64, parentHashes: seq<Hash256>, shardId: u16,
                              shardBlockHash: Hash256, justifiedSlot: u64,
                              slot': u64, parentHashes': seq<Hash256>, shardId': u16,
                              shardBlockHash': Hash256, justifiedSlot': u64)
    requires FixedWidth(ssz.encodeU64, w64) && Injective(ssz.encodeU64)
    requires FixedWidth(ssz.encodeU16, w16) && Injective(ssz.encodeU16)
    requires FixedWidth(ssz.encodeHash, wHash) && Injective(ssz.encodeHash)
    requires MessageBytes(ssz, slot, parentHashes, shardId, shardBlockHash, justifiedSlot)
          == MessageBytes(ssz, slot', parentHashes', shardId', shardBlockHash', justifiedSlot')
    ensures slot == slot' && parentHashes == parentHashes' && shardId == shardId'
    ensures shardBlockHash == shardBlockHash' && justifiedSlot == justifiedSlot'
  {
    var a := ssz.encodeU64(slot) + RawHashBytes(parentHashes);
    var a' := ssz.encodeU64(slot') + RawHashBytes(parentHashes');
    var ab := a + ssz.encodeU16(shardId);
    var ab' := a' + ssz.encodeU16(shardId');
    var abc := ab + ssz.encodeHash(shardBlockHash);
    var abc' := ab' + ssz.encodeHash(shardBlockHash');
    assert |abc| == |abc'|;
    SplitAppend(abc, ssz.encodeU64(justifiedSlot), abc', ssz.encodeU64(justifiedSlot'));
    assert |ab| == |ab'|;
    SplitAppend(ab, ssz.encodeHash(shardBlockHash), ab', ssz.encodeHash(shardBlockHash'));
    assert |a| == |a'|;
    SplitAppend(a, ssz.encodeU16(shardId), a', ssz.encodeU16(shardId'));
    SplitAppend(ssz.encodeU64(slot), RawHashBytes(parentHashes), ssz.encodeU64(slot'), RawHashBytes(parentHashes'));
    RawHashBytesInjective(parentHashes, parentHashes');
  }

  /**
   * If the canonical hash has no collisions and the encoders are fixed-width
   * and injective, changing any one field changes the signed message.
   */
  lemma SignedMessageDeterminesFields(c: Collaborators, w64: nat, w16: nat, wHash: nat,
                                      slot: u64, parentHashes: seq<Hash256>, shardId: u16,
                                      shardBlockHash: Hash256, justifiedSlot: u64,
                                      slot': u64, parentHashes': seq<Hash256>, shardId': u16,
                                      shardBlockHash': Hash256, justifiedSlot': u64)
    requires FixedWidth(c.ssz.encodeU64, w64) && Injective(c.ssz.encodeU64)
    requires FixedWidth(c.ssz.encodeU16, w16) && Injective(c.ssz.encodeU16)
    requires FixedWidth(c.ssz.encodeHash, wHash) && Injective(c.ssz.encodeHash)
    requires Injective(c.canonicalHash)
    requires SignedMessage(c, slot, parentHashes, shardId, shardBlockHash, justifiedSlot)
          == SignedMessage(c, slot', parentHashes', shardId', shardBlockHash', justifiedSlot')
    ensures slot == slot' && parentHashes == parentHashes' && shardId == shardId'
    ensures shardBlockHash == shardBlockHash' && justifiedSlot == justifiedSlot'
  {
    MessageBytesInjective(c.ssz, w64, w16, wHash, slot, parentHashes, shardId, shardBlockHash, justifiedSlot,
                          slot', parentHashes', shardId', shardBlockHash', justifiedSlot');
  }
}
