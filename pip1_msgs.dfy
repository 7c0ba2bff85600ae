/** The lockproxypip1 module's three messages and their stateless checks. */
module Pip1Msgs {
  import opened Wrappers
  import opened Codec
  import opened Sdk

  const TypeMsgCreateLockProxy: string := "create_lock_proxy"
  const TypeMsgCreateCoinAndDelegateToProxy: string := "create_delegate_to_proxy"
  const TypeMsgLock: string := "lock"

  datatype MsgError =
    | InvalidAddress
    | InvalidCoins(coin: Coin)
    | InvalidChainId(chainId: uint64)
    | CreateCoinAndDelegateToProxy(reason: string)
    | MsgLock(reason: string)

  datatype MsgCreateLockProxy = MsgCreateLockProxy(creator: Bytes)

  datatype MsgCreateCoinAndDelegateToProxy = MsgCreateCoinAndDelegateToProxy(
    creator: Bytes, coin: Coin, lockProxyHash: Bytes, nativeChainId: uint64,
    nativeLockProxyHash: Bytes, nativeAssetHash: Bytes)

  datatype MsgLockParam = MsgLockParam(
    lockProxyHash: Bytes, fromAddress: Bytes, sourceAssetDenom: Bytes, toChainId: uint64,
    toChainProxyHash: Bytes, toChainAssetHash: Bytes, toAddressBs: Bytes, value: int)

  function ValidateCreateLockProxy(msg: MsgCreateLockProxy): (r: Outcome<MsgError>)
    ensures r.Pass? <==> msg.creator != []
    ensures r.Fail? ==> r.error == InvalidAddress
  {
    if msg.creator == [] then Fail(InvalidAddress) else Pass
  }

  /**
   * Rejects, in order: empty creator, a coin the sdk calls invalid, native
   * chain 0, empty native proxy hash, empty native asset hash. The lock
   * proxy hash is not checked.
   */
  function ValidateCreateCoinAndDelegateToProxy(rules: SdkRules, msg: MsgCreateCoinAndDelegateToProxy): (r: Outcome<MsgError>)
    ensures r.Pass? <==> msg.creator != [] && rules.coinIsValid(msg.coin) && msg.nativeChainId != 0
                         && msg.nativeLockProxyHash != [] && msg.nativeAssetHash != []
    ensures msg.creator == [] ==> r == Fail(InvalidAddress)
    ensures msg.creator != [] && !rules.coinIsValid(msg.coin) ==> r == Fail(InvalidCoins(msg.coin))
    ensures msg.creator != [] && rules.coinIsValid(msg.coin) && msg.nativeChainId == 0 ==> r == Fail(InvalidChainId(0))
    ensures (msg.creator != [] && rules.coinIsValid(msg.coin) && msg.nativeChainId != 0 && msg.nativeLockProxyHash == [])
            ==> r == Fail(CreateCoinAndDelegateToProxy("Empty NativeLockProxyHash"))
    ensures (msg.creator != [] && rules.coinIsValid(msg.coin) && msg.nativeChainId != 0 && msg.nativeLockProxyHash != []
             && msg.nativeAssetHash == []) ==> r == Fail(CreateCoinAndDelegateToProxy("Empty NativeAssetHash"))
  {
    if msg.creator == [] then Fail(InvalidAddress)
    else if !rules.coinIsValid(msg.coin) then Fail(InvalidCoins(msg.coin))
    else if msg.nativeChainId == 0 then Fail(InvalidChainId(msg.nativeChainId))
    else if |msg.nativeLockProxyHash| == 0 then Fail(CreateCoinAndDelegateToProxy("Empty NativeLockProxyHash"))
    else if |msg.nativeAssetHash| == 0 then Fail(CreateCoinAndDelegateToProxy("Empty NativeAssetHash"))
    else Pass
  }

  /**
   * Rejects, in order: empty lock proxy hash, empty sender, empty denom,
   * chain 0, empty target proxy, asset or address, negative value. The denom
   * is only required to be non-empty, not well-formed; a zero value passes.
   */
  function ValidateLock(msg: MsgLockParam): (r: Outcome<MsgError>)
    ensures r.Pass? <==> msg.lockProxyHash != [] && msg.fromAddress != [] && msg.sourceAssetDenom != []
                         && msg.toChainId != 0 && msg.toChainProxyHash != [] && msg.toChainAssetHash != []
                         && msg.toAddressBs != [] && msg.value >= 0
    ensures msg.lockProxyHash == [] ==> r == Fail(MsgLock("empty MsgLock.LockProxyHash"))
    ensures msg.lockProxyHash != [] && msg.fromAddress == [] ==> r == Fail(InvalidAddress)
    ensures r.Fail? && msg.value < 0 && msg.lockProxyHash != [] && msg.fromAddress != [] && msg.sourceAssetDenom != []
            && msg.toChainId != 0 && msg.toChainProxyHash != [] && msg.toChainAssetHash != [] && msg.toAddressBs != []
            ==> r.error.MsgLock?
  {
    if |msg.lockProxyHash| == 0 then Fail(MsgLock("empty MsgLock.LockProxyHash"))
    else if msg.fromAddress == [] then Fail(InvalidAddress)
    else if msg.sourceAssetDenom == [] then Fail(MsgLock("empty MsgBindAssetHash.SourceAssetDenom"))
    else if msg.toChainId <= 0 then Fail(InvalidChainId(msg.toChainId))
    else if |msg.toChainProxyHash| == 0 then Fail(MsgLock("empty ToChainProxyHash"))
    else if |msg.toChainAssetHash| == 0 then Fail(MsgLock("empty ToChainAssetHash"))
    else if |msg.toAddressBs| == 0 then Fail(MsgLock("empty MsgLock.ToAssetHash"))
    else if msg.value < 0 then Fail(MsgLock("MsgLock.Value should not be negative"))
    else Pass
  }

  /** Changing only the denom's content, never its emptiness, cannot change the verdict. */
  lemma LockIgnoresDenomFormat(msg: MsgLockParam, denom: Bytes)
    requires (denom == []) == (msg.sourceAssetDenom == [])
    ensures ValidateLock(msg.(sourceAssetDenom := denom)) == ValidateLock(msg)
  {
  }

  function CreateLockProxySigners(msg: MsgCreateLockProxy): (r: seq<Bytes>)
    ensures |r| == 1 && r[0] == msg.creator
  {
    [msg.creator]
  }

  function CreateCoinAndDelegateToProxySigners(msg: MsgCreateCoinAndDelegateToProxy): (r: seq<Bytes>)
    ensures |r| == 1 && r[0] == msg.creator
  {
    [msg.creator]
  }

  function LockSigners(msg: MsgLockParam): (r: seq<Bytes>)
    ensures |r| == 1 && r[0] == msg.fromAddress
  {
    [msg.fromAddress]
  }
}
