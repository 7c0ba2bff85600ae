/** The btcx module's three messages and their stateless checks. */
module BtcxMsgs {
  import opened Wrappers
  import opened Codec
  import opened Sdk

  const TypeMsgBindAssetHash: string := "bind_asset_hash"
  const TypeMsgLock: string := "lock"
  const TypeMsgCreateDenom: string := "create_coin"

  datatype MsgError =
    | CreateDenom(reason: string)
    | BindAssetHash(reason: string)
    | InvalidChainId(chainId: uint64)
    | EmptyToAssetHash
    | Lock(reason: string)
    | NegativeValue

  /** The redeem script is carried as a hex string. */
  datatype MsgCreateDenomParam = MsgCreateDenomParam(creator: Bytes, denom: Bytes, redeemScript: Bytes)
  datatype MsgBindAssetHashParam = MsgBindAssetHashParam(creator: Bytes, sourceAssetDenom: Bytes, toChainId: uint64, toAssetHash: Bytes)
  datatype MsgLockParam = MsgLockParam(fromAddress: Bytes, sourceAssetDenom: Bytes, toChainId: uint64, toAddressBs: Bytes, value: int)

  /** Rejects, in order: empty creator, invalid denom, a redeem script that is not hex. */
  function ValidateCreateDenom(rules: SdkRules, msg: MsgCreateDenomParam): (r: Outcome<MsgError>)
    ensures r.Pass? <==> msg.creator != [] && rules.validDenom(msg.denom) && IsHexString(msg.redeemScript)
    ensures r.Fail? ==> r.error.CreateDenom?
    ensures msg.creator == [] ==> r == Fail(CreateDenom("MsgCreateDenom.Creator is empty"))
  {
    HexDecodeSucceedsIff(msg.redeemScript);
    if msg.creator == [] then Fail(CreateDenom("MsgCreateDenom.Creator is empty"))
    else if !rules.validDenom(msg.denom) then Fail(CreateDenom("MsgCreateDenom.Denom is illegal"))
    else if HexDecode(msg.redeemScript).None? then Fail(CreateDenom("MsgCreateDenom.RedeemScript is not hex string format"))
    else Pass
  }

  /**
   * Rejects, in order: empty creator, invalid denom (reported as a
   * create-denom error), chain 0, empty asset hash.
   */
  function ValidateBindAssetHash(rules: SdkRules, msg: MsgBindAssetHashParam): (r: Outcome<MsgError>)
    ensures r.Pass? <==> msg.creator != [] && rules.validDenom(msg.sourceAssetDenom) && msg.toChainId != 0 && msg.toAssetHash != []
    ensures msg.creator == [] ==> r.Fail? && r.error.BindAssetHash?
    ensures msg.creator != [] && !rules.validDenom(msg.sourceAssetDenom) ==> r.Fail? && r.error.CreateDenom?
    ensures msg.creator != [] && rules.validDenom(msg.sourceAssetDenom) && msg.toChainId == 0 ==> r == Fail(InvalidChainId(0))
    ensures msg.creator != [] && rules.validDenom(msg.sourceAssetDenom) && msg.toChainId != 0 && msg.toAssetHash == []
            ==> r == Fail(EmptyToAssetHash)
  {
    if msg.creator == [] then Fail(BindAssetHash("Empty address"))
    else if !rules.validDenom(msg.sourceAssetDenom) then Fail(CreateDenom("MsgBindAssetHash.SourceAssetDenom is invalid"))
    else if msg.toChainId == 0 then Fail(InvalidChainId(msg.toChainId))
    else if |msg.toAssetHash| == 0 then Fail(EmptyToAssetHash)
    else Pass
  }

  /** Rejects, in order: empty sender, invalid denom, chain 0, empty target address, negative value. */
  function ValidateLock(rules: SdkRules, msg: MsgLockParam): (r: Outcome<MsgError>)
    ensures r.Pass? <==> msg.fromAddress != [] && rules.validDenom(msg.sourceAssetDenom) && msg.toChainId != 0
                         && msg.toAddressBs != [] && msg.value >= 0
    ensures msg.fromAddress == [] ==> r.Fail? && r.error.Lock?
    ensures msg.fromAddress != [] && rules.validDenom(msg.sourceAssetDenom) && msg.toChainId == 0 ==> r == Fail(InvalidChainId(0))
    ensures (msg.fromAddress != [] && rules.validDenom(msg.sourceAssetDenom) && msg.toChainId != 0 && msg.toAddressBs != []
             && msg.value < 0) ==> r == Fail(NegativeValue)
  {
    if msg.fromAddress == [] then Fail(Lock("MsgLock.FromAddress is empty"))
    else if !rules.validDenom(msg.sourceAssetDenom) then Fail(Lock("MsgLock.SourceAssetDenom is invalid"))
    else if msg.toChainId == 0 then Fail(InvalidChainId(msg.toChainId))
    else if |msg.toAddressBs| == 0 then Fail(EmptyToAssetHash)
    else if msg.value < 0 then Fail(NegativeValue)
    else Pass
  }

  function CreateDenomSigners(msg: MsgCreateDenomParam): (r: seq<Bytes>)
    ensures |r| == 1 && r[0] == msg.creator
  {
    [msg.creator]
  }

  function BindAssetHashSigners(msg: MsgBindAssetHashParam): (r: seq<Bytes>)
    ensures |r| == 1 && r[0] == msg.creator
  {
    [msg.creator]
  }

  function LockSigners(msg: MsgLockParam): (r: seq<Bytes>)
    ensures |r| == 1 && r[0] == msg.fromAddress
  {
    [msg.fromAddress]
  }
}
