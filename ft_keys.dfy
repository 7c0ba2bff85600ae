/** Store keys of the ft module: the asset hash bound per (denom, chain) and the independent-denom marker. */
module FtKeys {
  import opened Wrappers
  import opened Codec

  const BindAssetHashPrefix: Bytes := [0x01]
  const IndependentCrossDenomPrefix: Bytes := [0x02]

  /** 0x01, the denom's bytes, then the chain id as eight little-endian bytes. */
  function GetBindAssetHashKey(sourceDenomHash: Bytes, chainId: uint64): (r: Bytes)
    ensures |r| == |sourceDenomHash| + 9
    ensures r[0] == 0x01 && r[1..|sourceDenomHash| + 1] == sourceDenomHash
    ensures DecodeUint64(r[|sourceDenomHash| + 1..]) == Some((chainId, []))
  {
    var r := BindAssetHashPrefix + sourceDenomHash + Uint64Bytes(chainId);
    assert r[|sourceDenomHash| + 1..] == Uint64Bytes(chainId) + [];
    Uint64RoundTrip(chainId, []);
    r
  }

  function GetIndependentCrossDenomKey(denom: Bytes): (r: Bytes)
    ensures |r| == |denom| + 1 && r[0] == 0x02 && r[1..] == denom
  {
    IndependentCrossDenomPrefix + denom
  }

  /** The two families start with different bytes, so no key of one is a key of the other. */
  lemma KeyFamiliesDisjoint(denomHash: Bytes, chainId: uint64, denom: Bytes)
    ensures GetBindAssetHashKey(denomHash, chainId) != GetIndependentCrossDenomKey(denom)
  {
    assert GetBindAssetHashKey(denomHash, chainId)[0] != GetIndependentCrossDenomKey(denom)[0];
  }

  /** For one denom, distinct chains get distinct bind keys. */
  lemma BindKeyInjectiveInChain(denomHash: Bytes, c1: uint64, c2: uint64)
    requires GetBindAssetHashKey(denomHash, c1) == GetBindAssetHashKey(denomHash, c2)
    ensures c1 == c2
  {
    var k := GetBindAssetHashKey(denomHash, c1);
    assert DecodeUint64(k[|denomHash| + 1..]) == Some((c1, []));
    assert DecodeUint64(k[|denomHash| + 1..]) == Some((c2, []));
  }

  /** The independent-denom key determines the denom. */
  lemma IndependentKeyInjective(d1: Bytes, d2: Bytes)
    requires GetIndependentCrossDenomKey(d1) == GetIndependentCrossDenomKey(d2)
    ensures d1 == d2
  {
    assert d1 == GetIndependentCrossDenomKey(d1)[1..];
  }
}
