/** The ft module's four messages and their stateless checks. */
module FtMsgs {
  import opened Wrappers
  import opened Codec
  import opened Sdk

  /** MsgCreateCoins reports this type too. */
  const TypeMsgCreateDenom: string := "create_denom"
  const TypeMsgBindAssetHash: string := "bind_asset_hash"
  const TypeMsgLock: string := "lock"

  datatype MsgError =
    | InvalidAddress
    | MsgCreateDenom(reason: string)
    | MsgBindAssetHash(reason: string)
    | InvalidChainId(chainId: uint64)
    | MsgLock(reason: string)
    | CreateCoins(reason: string)

  datatype MsgCreateDenomParam = MsgCreateDenomParam(creator: Bytes, denom: Bytes)
  datatype MsgBindAssetHashParam = MsgBindAssetHashParam(creator: Bytes, sourceAssetDenom: Bytes, toChainId: uint64, toAssetHash: Bytes)
  datatype MsgLockParam = MsgLockParam(fromAddress: Bytes, sourceAssetDenom: Bytes, toChainId: uint64, toAddressBs: Bytes, value: int)
  /** The coins are carried as text for sdk.ParseCoins. */
  datatype MsgCreateCoinsParam = MsgCreateCoinsParam(creator: Bytes, coins: Bytes)

  function ValidateCreateDenom(rules: SdkRules, msg: MsgCreateDenomParam): (r: Outcome<MsgError>)
    ensures r.Pass? <==> msg.creator != [] && rules.validDenom(msg.denom)
    ensures msg.creator == [] ==> r == Fail(InvalidAddress)
    ensures msg.creator != [] && !rules.validDenom(msg.denom) ==> r.Fail? && r.error.MsgCreateDenom?
  {
    if msg.creator == [] then Fail(InvalidAddress)
    else if !rules.validDenom(msg.denom) then Fail(MsgCreateDenom("MsgCreateDenom.Denom is invalid"))
    else Pass
  }

  /** Rejects, in order: empty creator, invalid denom, chain 0, empty asset hash; chain 0 is a bind-asset error here. */
  function ValidateBindAssetHash(rules: SdkRules, msg: MsgBindAssetHashParam): (r: Outcome<MsgError>)
    ensures r.Pass? <==> msg.creator != [] && rules.validDenom(msg.sourceAssetDenom) && msg.toChainId != 0 && msg.toAssetHash != []
    ensures msg.creator == [] ==> r == Fail(InvalidAddress)
    ensures r.Fail? && msg.creator != [] ==> r.error.MsgBindAssetHash?
  {
    if msg.creator == [] then Fail(InvalidAddress)
    else if !rules.validDenom(msg.sourceAssetDenom) then Fail(MsgBindAssetHash("MsgBindAssetHash.SourceAssetDenom is invalid"))
    else if msg.toChainId == 0 then Fail(MsgBindAssetHash("invalid MsgBindAssetHash.ToChainId"))
    else if |msg.toAssetHash| == 0 then Fail(MsgBindAssetHash("empty MsgBindAssetHash.ToAssetHash"))
    else Pass
  }

  /** Rejects, in order: empty sender, invalid denom, chain 0, empty target address, negative value. */
  function ValidateLock(rules: SdkRules, msg: MsgLockParam): (r: Outcome<MsgError>)
    ensures r.Pass? <==> msg.fromAddress != [] && rules.validDenom(msg.sourceAssetDenom) && msg.toChainId != 0
                         && msg.toAddressBs != [] && msg.value >= 0
    ensures msg.fromAddress == [] ==> r == Fail(InvalidAddress)
    ensures msg.fromAddress != [] && rules.validDenom(msg.sourceAssetDenom) && msg.toChainId == 0 ==> r == Fail(InvalidChainId(0))
    ensures r.Fail? && msg.fromAddress != [] && msg.toChainId != 0 ==> r.error.MsgLock?
  {
    if msg.fromAddress == [] then Fail(InvalidAddress)
    else if !rules.validDenom(msg.sourceAssetDenom) then Fail(MsgLock("MsgBindAssetHash.SourceAssetDenom is invalid"))
    else if msg.toChainId == 0 then Fail(InvalidChainId(msg.toChainId))
    else if |msg.toAddressBs| == 0 then Fail(MsgLock("empty MsgLock.ToAssetHash"))
    else if msg.value < 0 then Fail(MsgLock("MsgLock.Value should not be negative"))
    else Pass
  }

  function ValidateCreateCoins(rules: SdkRules, msg: MsgCreateCoinsParam): (r: Outcome<MsgError>)
    ensures r.Pass? <==> msg.creator != [] && rules.parsesAsCoins(msg.coins)
    ensures r.Fail? ==> r.error.CreateCoins?
  {
    if msg.creator == [] then Fail(CreateCoins("MsgCreateDenom.Creator is empty"))
    else if !rules.parsesAsCoins(msg.coins) then Fail(CreateCoins("MsgCreateCoins.Coins is invalid"))
    else Pass
  }

  function CreateDenomSigners(msg: MsgCreateDenomParam): (r: seq<Bytes>)
    ensures |r| == 1 && r[0] == msg.creator
  {
    [msg.creator]
  }

  function BindAssetHashSigners(msg: MsgBindAssetHashParam): (r: seq<Bytes>)
    ensures |r| == 1 && r[0] == msg.creator
  {
    [msg.creator]
  }

  function LockSigners(msg: MsgLockParam): (r: seq<Bytes>)
    ensures |r| == 1 && r[0] == msg.fromAddress
  {
    [msg.fromAddress]
  }

  function CreateCoinsSigners(msg: MsgCreateCoinsParam): (r: seq<Bytes>)
    ensures |r| == 1 && r[0] == msg.creator
  {
    [msg.creator]
  }
}
