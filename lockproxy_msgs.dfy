/** The lockproxy module's five messages and their stateless checks. */
module LockProxyMsgs {
  import opened Wrappers
  import opened Codec
  import opened Sdk

  const TypeMsgCreateLockProxy: string := "create_lock_proxy"
  const TypeMsgCreateCoinAndDelegateToProxy: string := "create_delegate_to_proxy"
  const TypeMsgBindProxyHash: string := "bind_proxy_hash"
  const TypeMsgBindAssetHash: string := "bind_asset_hash"
  const TypeMsgLock: string := "lock"

  /** The text "10", prefixed to a denom to check that it parses as a coin. */
  const Ten: Bytes := [0x31, 0x30]

  datatype MsgError =
    | InvalidAddress
    | InvalidCoins(coin: Coin)
    | InvalidChainId(chainId: uint64)
    | MsgBindProxyHash(reason: string)
    | MsgBindAssetHash(reason: string)
    | MsgLock(reason: string)

  datatype MsgCreateLockProxy = MsgCreateLockProxy(creator: Bytes)
  datatype MsgCreateCoinAndDelegateToProxy = MsgCreateCoinAndDelegateToProxy(creator: Bytes, coin: Coin, lockProxyHash: Bytes)
  datatype MsgBindProxyHashParam = MsgBindProxyHashParam(operator: Bytes, toChainId: uint64, toChainProxyHash: Bytes)
  datatype MsgBindAssetHashParam = MsgBindAssetHashParam(operator: Bytes, sourceAssetDenom: Bytes, toChainId: uint64, toAssetHash: Bytes)
  datatype MsgLockParam = MsgLockParam(
    lockProxyHash: Bytes, fromAddress: Bytes, sourceAssetDenom: Bytes, toChainId: uint64, toAddressBs: Bytes, value: int)

  function ValidateCreateLockProxy(msg: MsgCreateLockProxy): (r: Outcome<MsgError>)
    ensures r.Pass? <==> msg.creator != []
    ensures r.Fail? ==> r.error == InvalidAddress
  {
    if msg.creator == [] then Fail(InvalidAddress) else Pass
  }

  function ValidateCreateCoinAndDelegateToProxy(rules: SdkRules, msg: MsgCreateCoinAndDelegateToProxy): (r: Outcome<MsgError>)
    ensures r.Pass? <==> msg.creator != [] && rules.coinIsValid(msg.coin)
    ensures msg.creator == [] ==> r == Fail(InvalidAddress)
    ensures msg.creator != [] && !rules.coinIsValid(msg.coin) ==> r == Fail(InvalidCoins(msg.coin))
  {
    if msg.creator == [] then Fail(InvalidAddress)
    else if !rules.coinIsValid(msg.coin) then Fail(InvalidCoins(msg.coin))
    else Pass
  }

  /** Rejects, in order: empty operator, chain 0, empty proxy hash. */
  function ValidateBindProxyHash(msg: MsgBindProxyHashParam): (r: Outcome<MsgError>)
    ensures r.Pass? <==> msg.operator != [] && msg.toChainId != 0 && msg.toChainProxyHash != []
    ensures msg.operator == [] ==> r == Fail(InvalidAddress)
    ensures msg.operator != [] && msg.toChainId == 0 ==> r == Fail(InvalidChainId(0))
    ensures msg.operator != [] && msg.toChainId != 0 && msg.toChainProxyHash == []
            ==> r == Fail(MsgBindProxyHash("Empty MsgBindProxyHash.ToChainProxyHash"))
  {
    if msg.operator == [] then Fail(InvalidAddress)
    else if msg.toChainId == 0 then Fail(InvalidChainId(msg.toChainId))
    else if |msg.toChainProxyHash| == 0 then Fail(MsgBindProxyHash("Empty MsgBindProxyHash.ToChainProxyHash"))
    else Pass
  }

  /** True when the denom is valid and "10" followed by it parses as one coin. */
  predicate DenomUsable(rules: SdkRules, denom: Bytes)
  {
    rules.validDenom(denom) && rules.parsesAsCoin(Ten + denom)
  }

  /**
   * Rejects, in order: empty operator, an invalid denom, a denom that does
   * not parse as the coin "10"+denom, chain 0, empty asset hash.
   */
  function ValidateBindAssetHash(rules: SdkRules, msg: MsgBindAssetHashParam): (r: Outcome<MsgError>)
    ensures r.Pass? <==> msg.operator != [] && DenomUsable(rules, msg.sourceAssetDenom)
                         && msg.toChainId != 0 && msg.toAssetHash != []
    ensures msg.operator == [] ==> r == Fail(InvalidAddress)
    ensures msg.operator != [] && !DenomUsable(rules, msg.sourceAssetDenom) ==> r.Fail? && r.error.MsgBindAssetHash?
    ensures msg.operator != [] && DenomUsable(rules, msg.sourceAssetDenom) && msg.toChainId == 0
            ==> r == Fail(InvalidChainId(0))
  {
    if msg.operator == [] then Fail(InvalidAddress)
    else if !rules.validDenom(msg.sourceAssetDenom) then Fail(MsgBindAssetHash("MsgBindAssetHash.SourceAssetDenom is invalid"))
    else if !rules.parsesAsCoin(Ten + msg.sourceAssetDenom) then Fail(MsgBindAssetHash("Invalid denom"))
    else if msg.toChainId == 0 then Fail(InvalidChainId(msg.toChainId))
    else if |msg.toAssetHash| == 0 then Fail(MsgBindAssetHash("Empty MsgBindAssetHash.ToAssetHash"))
    else Pass
  }

  /**
   * Rejects, in order: empty lock proxy hash, empty sender, invalid denom,
   * chain 0, empty target address, negative value; a zero value passes.
   */
  function ValidateLock(rules: SdkRules, msg: MsgLockParam): (r: Outcome<MsgError>)
    ensures r.Pass? <==> msg.lockProxyHash != [] && msg.fromAddress != [] && rules.validDenom(msg.sourceAssetDenom)
                         && msg.toChainId != 0 && msg.toAddressBs != [] && msg.value >= 0
    ensures msg.lockProxyHash == [] ==> r == Fail(MsgLock("empty MsgLock.LockProxyHash"))
    ensures msg.lockProxyHash != [] && msg.fromAddress == [] ==> r == Fail(InvalidAddress)
    ensures r.Fail? && msg.lockProxyHash != [] && msg.fromAddress != [] && rules.validDenom(msg.sourceAssetDenom)
            ==> (msg.toChainId == 0 <==> r.error == InvalidChainId(0))
  {
    if |msg.lockProxyHash| == 0 then Fail(MsgLock("empty MsgLock.LockProxyHash"))
    else if msg.fromAddress == [] then Fail(InvalidAddress)
    else if !rules.validDenom(msg.sourceAssetDenom) then Fail(MsgLock("MsgBindAssetHash.SourceAssetDenom is invalid"))
    else if msg.toChainId == 0 then Fail(InvalidChainId(msg.toChainId))
    else if |msg.toAddressBs| == 0 then Fail(MsgLock("empty MsgLock.ToAssetHash"))
    else if msg.value < 0 then Fail(MsgLock("MsgLock.Value should not be negative"))
    else Pass
  }

  function CreateLockProxySigners(msg: MsgCreateLockProxy): (r: seq<Bytes>)
    ensures |r| == 1 && r[0] == msg.creator
  {
    [msg.creator]
  }

  function CreateCoinAndDelegateToProxySigners(msg: MsgCreateCoinAndDelegateToProxy): (r: seq<Bytes>)
    ensures |r| == 1 && r[0] == msg.creator
  {
    [msg.creator]
  }

  function BindProxyHashSigners(msg: MsgBindProxyHashParam): (r: seq<Bytes>)
    ensures |r| == 1 && r[0] == msg.operator
  {
    [msg.operator]
  }

  function BindAssetHashSigners(msg: MsgBindAssetHashParam): (r: seq<Bytes>)
    ensures |r| == 1 && r[0] == msg.operator
  {
    [msg.operator]
  }

  function LockSigners(msg: MsgLockParam): (r: seq<Bytes>)
    ensures |r| == 1 && r[0] == msg.fromAddress
  {
    [msg.fromAddress]
  }
}
