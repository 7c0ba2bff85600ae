/**
 * Store keys of the lockproxypip1 module. The registry and balance keys
 * share a body of five SHA-256 digests; SHA-256 is a collaborator, and
 * where a layout depends on it, it is required to give 32-byte digests.
 */
module Pip1Keys {
  import opened Wrappers
  import opened Codec

  const OperatorToLockProxyKey: Bytes := [0x01]
  const BindChainIdPrefix: Bytes := [0x02]
  const RegistryPrefix: Bytes := [0x03]
  const BalancePrefix: Bytes := [0x04]

  /** sha256.Sum256. */
  type Sha256 = Bytes -> Bytes

  ghost predicate DigestsAre32(sha: Sha256)
  {
    forall b :: |sha(b)| == 32
  }

  /** The asset tuple a registry or balance entry is about. */
  datatype AssetTuple = AssetTuple(
    lockProxyHash: Bytes,
    assetHash: Bytes,
    nativeChainId: uint64,
    nativeLockProxyHash: Bytes,
    nativeAssetHash: Bytes)

  function GetOperatorToLockProxyKey(operator: Bytes): (r: Bytes)
    ensures |r| == |operator| + 1 && r[0] == 0x01 && r[1..] == operator
  {
    OperatorToLockProxyKey + operator
  }

  /** The five digests, in argument order; the chain id is hashed as its 8 little-endian bytes. */
  function GetHashKey(sha: Sha256, t: AssetTuple): (r: Bytes)
    ensures DigestsAre32(sha) ==> |r| == 160
  {
    sha(t.lockProxyHash) + sha(t.assetHash) + sha(Uint64Bytes(t.nativeChainId))
    + sha(t.nativeLockProxyHash) + sha(t.nativeAssetHash)
  }

  /** Each 32-byte slice of the hash key is the digest of one tuple field. */
  lemma HashKeyLayout(sha: Sha256, t: AssetTuple)
    requires DigestsAre32(sha)
    ensures var r := GetHashKey(sha, t);
      r[..32] == sha(t.lockProxyHash) && r[32..64] == sha(t.assetHash)
      && r[64..96] == sha(Uint64Bytes(t.nativeChainId))
      && r[96..128] == sha(t.nativeLockProxyHash) && r[128..] == sha(t.nativeAssetHash)
  {
    var r := GetHashKey(sha, t);
    assert r[..32] == sha(t.lockProxyHash) && r[32..64] == sha(t.assetHash);
    assert r[64..96] == sha(Uint64Bytes(t.nativeChainId));
    assert r[96..128] == sha(t.nativeLockProxyHash) && r[128..] == sha(t.nativeAssetHash);
  }

  function GetRegistryKey(sha: Sha256, t: AssetTuple): (r: Bytes)
    ensures |r| == |GetHashKey(sha, t)| + 1 && r[0] == 0x03
  {
    RegistryPrefix + GetHashKey(sha, t)
  }

  function GetBalanceKey(sha: Sha256, t: AssetTuple): (r: Bytes)
    ensures |r| == |GetHashKey(sha, t)| + 1 && r[0] == 0x04
  {
    BalancePrefix + GetHashKey(sha, t)
  }

  /** 0x02 ∥ proxyHash ∥ LE64(toChainId): the hash sits in the middle and the last 8 bytes decode to the chain id. */
  function GetBindChainIdKey(proxyHash: Bytes, toChainId: uint64): (r: Bytes)
    ensures |r| == |proxyHash| + 9 && r[0] == 0x02
    ensures r[1..|r| - 8] == proxyHash
    ensures DecodeUint64(r[|r| - 8..]) == Some((toChainId, []))
  {
    Uint64RoundTrip(toChainId, []);
    AppendNothing(Uint64Bytes(toChainId));
    var r := BindChainIdPrefix + proxyHash + Uint64Bytes(toChainId);
    assert r[1..|r| - 8] == proxyHash && r[|r| - 8..] == Uint64Bytes(toChainId);
    r
  }

  /** For one tuple the registry and balance keys differ exactly in the first byte. */
  lemma RegistryAndBalanceKeysDiffer(sha: Sha256, t: AssetTuple, u: AssetTuple)
    ensures GetRegistryKey(sha, t) != GetBalanceKey(sha, u)
    ensures GetRegistryKey(sha, t)[1..] == GetBalanceKey(sha, t)[1..] == GetHashKey(sha, t)
  {
    assert GetRegistryKey(sha, t)[0] != GetBalanceKey(sha, u)[0];
    assert GetRegistryKey(sha, t)[1..] == GetHashKey(sha, t);
    assert GetBalanceKey(sha, t)[1..] == GetHashKey(sha, t);
  }

  lemma BindChainIdKeyInjective(p1: Bytes, c1: uint64, p2: Bytes, c2: uint64)
    requires GetBindChainIdKey(p1, c1) == GetBindChainIdKey(p2, c2)
    ensures p1 == p2 && c1 == c2
  {
    var k := GetBindChainIdKey(p1, c1);
    assert |p1| == |p2|;
    assert p1 == k[1..|k| - 8] == p2;
  }

  lemma OperatorKeyInjective(o1: Bytes, o2: Bytes)
    requires GetOperatorToLockProxyKey(o1) == GetOperatorToLockProxyKey(o2)
    ensures o1 == o2
  {
    assert o1 == GetOperatorToLockProxyKey(o1)[1..];
  }

  /** The four families start with 0x01..0x04 and never collide. */
  lemma KeyFamiliesDisjoint(sha: Sha256, op: Bytes, proxyHash: Bytes, chainId: uint64, t: AssetTuple, u: AssetTuple)
    ensures GetOperatorToLockProxyKey(op) != GetBindChainIdKey(proxyHash, chainId)
    ensures GetOperatorToLockProxyKey(op) != GetRegistryKey(sha, t)
    ensures GetOperatorToLockProxyKey(op) != GetBalanceKey(sha, t)
    ensures GetBindChainIdKey(proxyHash, chainId) != GetRegistryKey(sha, t)
    ensures GetBindChainIdKey(proxyHash, chainId) != GetBalanceKey(sha, t)
    ensures GetRegistryKey(sha, t) != GetBalanceKey(sha, u)
  {
    RegistryAndBalanceKeysDiffer(sha, t, u);
  }
}
