/**
 * Store keys of the header-sync module. Each key is a fresh concatenation of
 * a one-byte family prefix (or the "currentHeight" literal) with
 * little-endian integers.
 */
module HeaderSyncKeys {
  import opened Wrappers
  import opened Codec

  const BlockHeaderPrefix: Bytes := [0x01]
  const BlockHashPrefix: Bytes := [0x02]
  const ConsensusPeerPrefix: Bytes := [0x03]
  const KeyHeightPrefix: Bytes := [0x04]
  /** The ASCII bytes of "currentHeight". */
  const BlockCurrentHeightKey: Bytes := [0x63, 0x75, 0x72, 0x72, 0x65, 0x6E, 0x74, 0x48, 0x65, 0x69, 0x67, 0x68, 0x74]

  /** 0x01 ∥ LE64(chainId) ∥ blockHash: the chain id reads back, and the hash is the tail. */
  function GetBlockHeaderKey(chainId: uint64, blockHash: Bytes): (r: Bytes)
    ensures |r| == 9 + |blockHash| && r[0] == 0x01
    ensures DecodeUint64(r[1..]) == Some((chainId, blockHash))
  {
    Uint64RoundTrip(chainId, blockHash);
    var r := BlockHeaderPrefix + Uint64Bytes(chainId) + blockHash;
    assert r[1..] == Uint64Bytes(chainId) + blockHash;
    r
  }

  /** 0x02 ∥ LE64(chainId) ∥ LE32(height), 13 bytes. */
  function GetBlockHashKey(chainId: uint64, height: uint32): (r: Bytes)
    ensures |r| == 13 && r[0] == 0x02
    ensures DecodeUint64(r[1..]) == Some((chainId, r[9..]))
    ensures DecodeUint32(r[9..]) == Some((height, []))
  {
    HeightPair(BlockHashPrefix, chainId, height)
  }

  /** "currentHeight" ∥ LE64(chainId), 21 bytes. */
  function GetBlockCurHeightKey(chainId: uint64): (r: Bytes)
    ensures |r| == 21 && r[..13] == BlockCurrentHeightKey
    ensures DecodeUint64(r[13..]) == Some((chainId, []))
  {
    Uint64RoundTrip(chainId, []);
    AppendNothing(Uint64Bytes(chainId));
    var r := BlockCurrentHeightKey + Uint64Bytes(chainId);
    assert r[13..] == Uint64Bytes(chainId);
    r
  }

  /** 0x03 ∥ LE64(chainId) ∥ LE32(height), 13 bytes. */
  function GetConsensusPeerKey(chainId: uint64, height: uint32): (r: Bytes)
    ensures |r| == 13 && r[0] == 0x03
    ensures DecodeUint64(r[1..]) == Some((chainId, r[9..]))
    ensures DecodeUint32(r[9..]) == Some((height, []))
  {
    HeightPair(ConsensusPeerPrefix, chainId, height)
  }

  /** 0x04 ∥ LE64(chainId) ∥ LE64(chainId): the chain id is written twice, 17 bytes. */
  function GetKeyHeightsKey(chainId: uint64): (r: Bytes)
    ensures |r| == 17 && r[0] == 0x04
    ensures DecodeUint64(r[1..]) == Some((chainId, r[9..]))
    ensures DecodeUint64(r[9..]) == Some((chainId, []))
  {
    var b := Uint64Bytes(chainId);
    Uint64RoundTrip(chainId, b);
    Uint64RoundTrip(chainId, []);
    AppendNothing(b);
    var r := KeyHeightPrefix + b + b;
    assert r[1..] == b + b && r[9..] == b;
    r
  }

  /** Shared layout of the two 13-byte families. */
  function HeightPair(prefix: Bytes, chainId: uint64, height: uint32): (r: Bytes)
    requires |prefix| == 1
    ensures |r| == 13 && r[0] == prefix[0]
    ensures DecodeUint64(r[1..]) == Some((chainId, r[9..]))
    ensures DecodeUint32(r[9..]) == Some((height, []))
  {
    var h := Uint32Bytes(height);
    Uint64RoundTrip(chainId, h);
    Uint32RoundTrip(height, []);
    AppendNothing(h);
    var r := prefix + Uint64Bytes(chainId) + h;
    assert r[1..] == Uint64Bytes(chainId) + h && r[9..] == h;
    r
  }

  lemma BlockHeaderKeyInjective(c1: uint64, h1: Bytes, c2: uint64, h2: Bytes)
    requires GetBlockHeaderKey(c1, h1) == GetBlockHeaderKey(c2, h2)
    ensures c1 == c2 && h1 == h2
  {
  }

  lemma BlockHashKeyInjective(c1: uint64, n1: uint32, c2: uint64, n2: uint32)
    requires GetBlockHashKey(c1, n1) == GetBlockHashKey(c2, n2)
    ensures c1 == c2 && n1 == n2
  {
  }

  lemma ConsensusPeerKeyInjective(c1: uint64, n1: uint32, c2: uint64, n2: uint32)
    requires GetConsensusPeerKey(c1, n1) == GetConsensusPeerKey(c2, n2)
    ensures c1 == c2 && n1 == n2
  {
  }

  lemma CurHeightKeyInjective(c1: uint64, c2: uint64)
    requires GetBlockCurHeightKey(c1) == GetBlockCurHeightKey(c2)
    ensures c1 == c2
  {
  }

  lemma KeyHeightsKeyInjective(c1: uint64, c2: uint64)
    requires GetKeyHeightsKey(c1) == GetKeyHeightsKey(c2)
    ensures c1 == c2
  {
  }

  /** The five key families never collide: their first bytes are 0x01..0x04 and 'c'. */
  lemma KeyFamiliesDisjoint(c: uint64, d: uint64, hash: Bytes, n: uint32, m: uint32)
    ensures GetBlockHeaderKey(c, hash) != GetBlockHashKey(d, n)
    ensures GetBlockHeaderKey(c, hash) != GetConsensusPeerKey(d, n)
    ensures GetBlockHeaderKey(c, hash) != GetKeyHeightsKey(d)
    ensures GetBlockHeaderKey(c, hash) != GetBlockCurHeightKey(d)
    ensures GetBlockHashKey(c, n) != GetConsensusPeerKey(d, m)
    ensures GetBlockHashKey(c, n) != GetKeyHeightsKey(d)
    ensures GetBlockHashKey(c, n) != GetBlockCurHeightKey(d)
    ensures GetConsensusPeerKey(c, n) != GetKeyHeightsKey(d)
    ensures GetConsensusPeerKey(c, n) != GetBlockCurHeightKey(d)
    ensures GetKeyHeightsKey(c) != GetBlockCurHeightKey(d)
  {
  }
}
