/**
 * The btcx keeper: denoms backed by a Bitcoin redeem script, their creator,
 * the script's hash and the script itself, and the asset hash bound for
 * each (denom, chain). Lock burns coins and sends ToBTCArgs to the Bitcoin
 * chain or BTCArgs elsewhere; Unlock mints from BTCArgs.
 *
 * Store keys are not part of this model: each family of entries is a map
 * keyed by the arguments its key is built from. Hash160 and the Bitcoin
 * chain id are parameters.
 */
module BtcxKeeper {
  import opened Wrappers
  import opened Codec
  import opened Sdk
  import opened BtcxArgs
  import Ccm = CcmKeeper

  const UnlockMethod: Bytes := [0x75, 0x6E, 0x6C, 0x6F, 0x63, 0x6B]

  datatype BtcxEnv = BtcxEnv(hash160: Bytes -> Bytes, btcChainId: uint64)

  datatype Error =
    | DenomExists(denom: Bytes)
    | InvalidRedeemScript
    | InvalidCreator(recorded: Bytes, caller: Bytes)
    | NotCreatedInModule(caller: Bytes, denom: Bytes)
    | AssetHashMissing(chainId: uint64)
    | AmountTooLarge(amount: int)
    | CreatorEmpty(denom: Bytes)
    | RedeemScriptMissing(denom: Bytes)
    | InvalidCoin(coinDenom: Bytes, coinAmount: int)
    | BurnFailed
    | ArgsDeserialization
    | AssetHashMismatch(fromContract: Bytes, stored: Bytes)
    | MintFailed

  datatype BtcxState = BtcxState(
    creators: map<Bytes, Bytes>,
    scriptHashes: map<(Bytes, Bytes), Bytes>,
    redeemScripts: map<Bytes, Bytes>,
    assetHashes: map<(Bytes, uint64), Bytes>)

  predicate Reflects<S(==)>(r: Outcome<Error>, spec: Result<S, Error>, now: S)
  {
    match spec
    case Ok(s) => r == Pass && now == s
    case Err(e) => r == Fail(e)
  }

  /** store.Get, where an absent key reads as no bytes. */
  function GetOr<K>(m: map<K, Bytes>, k: K): Bytes
  {
    if k in m then m[k] else []
  }

  /** big.Int.Uint64: the low 64 bits of the magnitude. */
  function BigUint64(amount: int): uint64
  {
    ToUint64(if amount >= 0 then amount else -amount)
  }

  function ValidCreatorOf(cst: Ccm.CcmState, denom: Bytes, creator: Bytes): bool
  {
    Ccm.GetDenomCreatorOf(cst, denom) == creator
  }

  function ContainToContractAddrOf(st: BtcxState, toContractAddr: Bytes, fromChainId: uint64): bool
  {
    (toContractAddr, fromChainId) in st.assetHashes
  }

  // ---------------------------------------------------------------- create and bind

  function CreateDenomOf(env: BtcxEnv, host: Host, st: BtcxState, cst: Ccm.CcmState,
                         creator: Bytes, denom: Bytes, redeemScript: Bytes): Result<(BtcxState, Ccm.CcmState), Error>
  {
    if Ccm.ExistDenomOf(cst, host.totalSupply, denom) then Err(DenomExists(denom))
    else
      match HexDecode(redeemScript)
      case None => Err(InvalidRedeemScript)
      case Some(script) =>
        var scriptHash := env.hash160(script);
        Ok((BtcxState(st.creators[denom := creator],
                      st.scriptHashes[(creator, denom) := scriptHash],
                      st.redeemScripts[scriptHash := script],
                      st.assetHashes),
            Ccm.SetDenomCreatorOf(cst, denom, creator)))
  }

  /** The redeem script Lock would send for a denom: looked up through its creator and the script hash. */
  function RedeemScriptOf(st: BtcxState, creator: Bytes, denom: Bytes): Bytes
  {
    GetOr(st.redeemScripts, GetOr(st.scriptHashes, (creator, denom)))
  }

  /**
   * CreateDenom fails for a denom that exists or a redeem script that is
   * not hex; otherwise the creator is recorded in both stores, the script
   * hash under (creator, denom) and the script under its hash, so that a
   * later Lock to Bitcoin finds exactly this script.
   */
  lemma CreateDenomSpec(env: BtcxEnv, host: Host, st: BtcxState, cst: Ccm.CcmState,
                        creator: Bytes, denom: Bytes, redeemScript: Bytes)
    ensures CreateDenomOf(env, host, st, cst, creator, denom, redeemScript).Ok?
            <==> !Ccm.ExistDenomOf(cst, host.totalSupply, denom) && IsHexString(redeemScript)
    ensures CreateDenomOf(env, host, st, cst, creator, denom, redeemScript).Ok? ==>
      var (st', cst') := CreateDenomOf(env, host, st, cst, creator, denom, redeemScript).value;
      var script := HexDecode(redeemScript).value;
      Ccm.GetDenomCreatorOf(cst', denom) == creator
      && st'.creators[denom] == creator
      && st'.scriptHashes[(creator, denom)] == env.hash160(script)
      && st'.redeemScripts[env.hash160(script)] == script
      && RedeemScriptOf(st', creator, denom) == script
      && st'.assetHashes == st.assetHashes
      && (creator != [] ==> Ccm.ExistDenomOf(cst', host.totalSupply, denom))
  {
    HexDecodeSucceedsIff(redeemScript);
    if CreateDenomOf(env, host, st, cst, creator, denom, redeemScript).Ok? && creator != [] {
      Ccm.SetCreatorMakesDenomExist(cst, host.totalSupply, denom, creator);
    }
  }

  function BindAssetHashOf(st: BtcxState, cst: Ccm.CcmState, creator: Bytes, denom: Bytes, toChainId: uint64,
                           toAssetHash: Bytes): Result<BtcxState, Error>
  {
    if !ValidCreatorOf(cst, denom, creator) then Err(InvalidCreator(Ccm.GetDenomCreatorOf(cst, denom), creator))
    else if creator != GetOr(st.creators, denom) then Err(NotCreatedInModule(creator, denom))
    else Ok(st.(assetHashes := st.assetHashes[(denom, toChainId) := toAssetHash]))
  }

  /** Binding needs the caller to be the recorded creator in the manager and in this module; it overwrites. */
  lemma BindAssetHashSpec(st: BtcxState, cst: Ccm.CcmState, creator: Bytes, denom: Bytes, toChainId: uint64, toAssetHash: Bytes)
    ensures BindAssetHashOf(st, cst, creator, denom, toChainId, toAssetHash).Ok?
            <==> Ccm.GetDenomCreatorOf(cst, denom) == creator && GetOr(st.creators, denom) == creator
    ensures BindAssetHashOf(st, cst, creator, denom, toChainId, toAssetHash).Ok? ==>
      var st' := BindAssetHashOf(st, cst, creator, denom, toChainId, toAssetHash).value;
      st'.assetHashes[(denom, toChainId)] == toAssetHash
      && ContainToContractAddrOf(st', denom, toChainId)
      && st'.creators == st.creators && st'.scriptHashes == st.scriptHashes && st'.redeemScripts == st.redeemScripts
  {
  }

  // ---------------------------------------------------------------- lock

  /** The arguments Lock sends: ToBTCArgs with the denom's redeem script to Bitcoin, BTCArgs elsewhere. */
  function LockPayloadOf(env: BtcxEnv, st: BtcxState, cst: Ccm.CcmState, denom: Bytes, toChainId: uint64,
                         toAddr: Bytes, amount: uint64): Result<Bytes, Error>
  {
    if toChainId == env.btcChainId then
      var creator := Ccm.GetDenomCreatorOf(cst, denom);
      if creator == [] then Err(CreatorEmpty(denom))
      else if |RedeemScriptOf(st, creator, denom)| == 0 then Err(RedeemScriptMissing(denom))
      else Ok(ToBTCArgsBytes(ToBTCArgs(toAddr, amount, RedeemScriptOf(st, creator, denom))))
    else Ok(BTCArgsBytes(BTCArgs(toAddr, amount)))
  }

  function LockOf(env: BtcxEnv, host: Host, ccmEnv: Ccm.CcmEnv, st: BtcxState, cst: Ccm.CcmState, txBytes: Bytes,
                  fromAddr: Bytes, denom: Bytes, toChainId: uint64, toAddr: Bytes, amount: int): Result<Ccm.CcmState, Error>
  {
    if (denom, toChainId) !in st.assetHashes then Err(AssetHashMissing(toChainId))
    else if amount >= MAX_UINT64 then Err(AmountTooLarge(amount))
    else
      match LockPayloadOf(env, st, cst, denom, toChainId, toAddr, BigUint64(amount))
      case Err(e) => Err(e)
      case Ok(argsBs) =>
        var cst' := Ccm.CreateCrossChainTxOf(ccmEnv, cst, txBytes, toChainId, denom, st.assetHashes[(denom, toChainId)],
                                             UnlockMethod, argsBs);
        if !NewCoinOk(host, denom, amount) then Err(InvalidCoin(denom, amount))
        else if !host.subtractCoins(fromAddr, Coin(denom, amount)) then Err(BurnFailed)
        else Ok(cst')
  }

  /**
   * A successful lock needs a bound asset hash and an amount in 0 ..
   * MaxUint64 - 1; it burns exactly the amount, and whichever chain it
   * targets, the arguments it sends are read by a BTCArgs reader as the
   * target address and the amount.
   */
  lemma LockSpec(env: BtcxEnv, host: Host, ccmEnv: Ccm.CcmEnv, st: BtcxState, cst: Ccm.CcmState, txBytes: Bytes,
                 fromAddr: Bytes, denom: Bytes, toChainId: uint64, toAddr: Bytes, amount: int)
    requires |toAddr| <= MAX_UINT64
    requires LockOf(env, host, ccmEnv, st, cst, txBytes, fromAddr, denom, toChainId, toAddr, amount).Ok?
    ensures var argsBs := LockPayloadOf(env, st, cst, denom, toChainId, toAddr, BigUint64(amount)).value;
      ContainToContractAddrOf(st, denom, toChainId)
      && 0 <= amount < MAX_UINT64
      && host.subtractCoins(fromAddr, Coin(denom, amount))
      && LockOf(env, host, ccmEnv, st, cst, txBytes, fromAddr, denom, toChainId, toAddr, amount).value
         == Ccm.CreateCrossChainTxOf(ccmEnv, cst, txBytes, toChainId, denom, st.assetHashes[(denom, toChainId)], UnlockMethod, argsBs)
      && DecodeBTCArgs(argsBs).Some? && DecodeBTCArgs(argsBs).value.0 == BTCArgs(toAddr, amount)
  {
    var amt := BigUint64(amount);
    assert amt == amount;
    if toChainId == env.btcChainId {
      var creator := Ccm.GetDenomCreatorOf(cst, denom);
      BTCArgsPrefixOfToBTCArgs(ToBTCArgs(toAddr, amt, RedeemScriptOf(st, creator, denom)));
    } else {
      BTCArgsRoundTrip(BTCArgs(toAddr, amt), []);
      AppendNothing(BTCArgsBytes(BTCArgs(toAddr, amt)));
    }
  }

  /** A lock to Bitcoin needs a recorded creator and a non-empty redeem script. */
  lemma LockToBitcoinNeedsScript(env: BtcxEnv, host: Host, ccmEnv: Ccm.CcmEnv, st: BtcxState, cst: Ccm.CcmState, txBytes: Bytes,
                                 fromAddr: Bytes, denom: Bytes, toAddr: Bytes, amount: int)
    requires LockOf(env, host, ccmEnv, st, cst, txBytes, fromAddr, denom, env.btcChainId, toAddr, amount).Ok?
    ensures Ccm.GetDenomCreatorOf(cst, denom) != []
    ensures |RedeemScriptOf(st, Ccm.GetDenomCreatorOf(cst, denom), denom)| > 0
  {
  }

  // ---------------------------------------------------------------- unlock

  function UnlockOf(host: Host, st: BtcxState, fromChainId: uint64, fromContractAddr: Bytes,
                    toContractAddr: Bytes, argsBs: Bytes): Outcome<Error>
  {
    match DecodeBTCArgs(argsBs)
    case None => Fail(ArgsDeserialization)
    case Some((args, _)) =>
      var fromAssetHash := GetOr(st.assetHashes, (toContractAddr, fromChainId));
      if |fromAssetHash| == 0 then Fail(AssetHashMissing(fromChainId))
      else if fromContractAddr != fromAssetHash then Fail(AssetHashMismatch(fromContractAddr, fromAssetHash))
      else if !NewCoinOk(host, toContractAddr, args.amount) then Fail(InvalidCoin(toContractAddr, args.amount))
      else if !host.addCoins(args.toBtcAddress, Coin(toContractAddr, args.amount)) then Fail(MintFailed)
      else Pass
  }

  /**
   * A successful unlock needs the asset hash bound for (toContractAddr,
   * fromChainId) to be non-empty and equal to the sending contract, and
   * mints the decoded amount of the denom named by toContractAddr to the
   * decoded address.
   */
  lemma UnlockSpec(host: Host, st: BtcxState, fromChainId: uint64, fromContractAddr: Bytes, toContractAddr: Bytes, argsBs: Bytes)
    requires UnlockOf(host, st, fromChainId, fromContractAddr, toContractAddr, argsBs).Pass?
    ensures DecodeBTCArgs(argsBs).Some?
    ensures var args := DecodeBTCArgs(argsBs).value.0;
      GetOr(st.assetHashes, (toContractAddr, fromChainId)) == fromContractAddr != []
      && host.addCoins(args.toBtcAddress, Coin(toContractAddr, args.amount))
  {
  }

  /** What a lock sends, an unlock on the other side reads back as the same address and amount, whatever follows it. */
  lemma UnlockReadsLockedAmount(toAddr: Bytes, amount: uint64, redeemScript: Bytes, toBtc: bool)
    requires |toAddr| <= MAX_UINT64
    ensures var bs := if toBtc then ToBTCArgsBytes(ToBTCArgs(toAddr, amount, redeemScript)) else BTCArgsBytes(BTCArgs(toAddr, amount));
      DecodeBTCArgs(bs).Some? && DecodeBTCArgs(bs).value.0 == BTCArgs(toAddr, amount)
  {
    if toBtc {
      BTCArgsPrefixOfToBTCArgs(ToBTCArgs(toAddr, amount, redeemScript));
    } else {
      BTCArgsRoundTrip(BTCArgs(toAddr, amount), []);
      AppendNothing(BTCArgsBytes(BTCArgs(toAddr, amount)));
    }
  }

  // ---------------------------------------------------------------- the keeper

  class Keeper {
    const env: BtcxEnv
    const ccm: Ccm.Keeper
    var creators: map<Bytes, Bytes>
    var scriptHashes: map<(Bytes, Bytes), Bytes>
    var redeemScripts: map<Bytes, Bytes>
    var assetHashes: map<(Bytes, uint64), Bytes>

    constructor (env: BtcxEnv, ccm: Ccm.Keeper)
      ensures this.env == env && this.ccm == ccm && State() == BtcxState(map[], map[], map[], map[])
    {
      this.env := env;
      this.ccm := ccm;
      creators := map[];
      scriptHashes := map[];
      redeemScripts := map[];
      assetHashes := map[];
    }

    function State(): BtcxState
      reads this
    {
      BtcxState(creators, scriptHashes, redeemScripts, assetHashes)
    }

    method ContainToContractAddr(toContractAddr: Bytes, fromChainId: uint64) returns (b: bool)
      ensures b == ContainToContractAddrOf(State(), toContractAddr, fromChainId)
    {
      return (toContractAddr, fromChainId) in assetHashes;
    }

    method ValidCreator(denom: Bytes, creator: Bytes) returns (b: bool)
      ensures b == ValidCreatorOf(ccm.State(), denom, creator)
    {
      var recorded := ccm.GetDenomCreator(denom);
      return recorded == creator;
    }

    /**
     * The denom creator is written to the manager before the redeem script
     * is decoded, so a bad script leaves that write behind until the host
     * rolls the transaction back.
     */
    method CreateDenom(host: Host, creator: Bytes, denom: Bytes, redeemScript: Bytes) returns (r: Outcome<Error>)
      modifies this, ccm
      ensures Reflects(r, CreateDenomOf(env, host, old(State()), old(ccm.State()), creator, denom, redeemScript),
                       (State(), ccm.State()))
      ensures r == Fail(InvalidRedeemScript) ==>
        State() == old(State()) && ccm.State() == Ccm.SetDenomCreatorOf(old(ccm.State()), denom, creator)
    {
      var exists_ := ccm.ExistDenom(host.totalSupply, denom);
      if exists_ {
        return Fail(DenomExists(denom));
      }
      ccm.SetDenomCreator(denom, creator);
      var redeemScriptBs := HexDecode(redeemScript);
      if redeemScriptBs.None? {
        return Fail(InvalidRedeemScript);
      }
      creators := creators[denom := creator];
      var scriptHashBs := env.hash160(redeemScriptBs.value);
      scriptHashes := scriptHashes[(creator, denom) := scriptHashBs];
      redeemScripts := redeemScripts[scriptHashBs := redeemScriptBs.value];
      return Pass;
    }

    method BindAssetHash(creator: Bytes, denom: Bytes, toChainId: uint64, toAssetHash: Bytes) returns (r: Outcome<Error>)
      modifies this
      ensures Reflects(r, BindAssetHashOf(old(State()), ccm.State(), creator, denom, toChainId, toAssetHash), State())
    {
      var valid := ValidCreator(denom, creator);
      if !valid {
        var recorded := ccm.GetDenomCreator(denom);
        return Fail(InvalidCreator(recorded, creator));
      }
      var stored := if denom in creators then creators[denom] else [];
      if creator != stored {
        return Fail(NotCreatedInModule(creator, denom));
      }
      assetHashes := assetHashes[(denom, toChainId) := toAssetHash];
      return Pass;
    }

    /** Builds the lock arguments in a fresh sink. */
    method EncodeLockArgs(denom: Bytes, toChainId: uint64, toAddr: Bytes, amount: uint64) returns (r: Result<Bytes, Error>)
      ensures r == LockPayloadOf(env, State(), ccm.State(), denom, toChainId, toAddr, amount)
    {
      var sink := new Sink();
      if toChainId == env.btcChainId {
        var creator := ccm.GetDenomCreator(denom);
        if creator == [] {
          return Err(CreatorEmpty(denom));
        }
        var scriptKey := (creator, denom);
        var scriptHash := if scriptKey in scriptHashes then scriptHashes[scriptKey] else [];
        var redeemScript := if scriptHash in redeemScripts then redeemScripts[scriptHash] else [];
        if |redeemScript| == 0 {
          return Err(RedeemScriptMissing(denom));
        }
        SerializeToBTCArgs(ToBTCArgs(toAddr, amount, redeemScript), sink);
      } else {
        SerializeBTCArgs(BTCArgs(toAddr, amount), sink);
      }
      ghost var encoded := LockPayloadOf(env, State(), ccm.State(), denom, toChainId, toAddr, amount).value;
      assert sink.buf == [] + encoded;
      assert [] + encoded == encoded;
      return Ok(sink.buf);
    }

    method Lock(host: Host, txBytes: Bytes, fromAddr: Bytes, denom: Bytes, toChainId: uint64, toAddr: Bytes, amount: int)
      returns (r: Outcome<Error>)
      modifies ccm
      ensures match LockOf(env, host, ccm.env, State(), old(ccm.State()), txBytes, fromAddr, denom, toChainId, toAddr, amount)
              case Ok(cst) => r == Pass && ccm.State() == cst
              case Err(e) => r == Fail(e)
    {
      if (denom, toChainId) !in assetHashes {
        return Fail(AssetHashMissing(toChainId));
      }
      var toAssetHash := assetHashes[(denom, toChainId)];
      if amount >= MAX_UINT64 {
        return Fail(AmountTooLarge(amount));
      }
      var argsBs := EncodeLockArgs(denom, toChainId, toAddr, BigUint64(amount));
      if argsBs.Err? {
        return Fail(argsBs.error);
      }
      ccm.CreateCrossChainTx(txBytes, fromAddr, toChainId, denom, toAssetHash, UnlockMethod, argsBs.value);
      if !NewCoinOk(host, denom, amount) {
        return Fail(InvalidCoin(denom, amount));
      }
      if !host.subtractCoins(fromAddr, Coin(denom, amount)) {
        return Fail(BurnFailed);
      }
      return Pass;
    }

    method Unlock(host: Host, fromChainId: uint64, fromContractAddr: Bytes, toContractAddr: Bytes, argsBs: Bytes)
      returns (r: Outcome<Error>)
      ensures r == UnlockOf(host, State(), fromChainId, fromContractAddr, toContractAddr, argsBs)
    {
      var source := new Source(argsBs);
      var args := DeserializeBTCArgs(source);
      if args.None? {
        return Fail(ArgsDeserialization);
      }
      var fromAssetHash := if (toContractAddr, fromChainId) in assetHashes then assetHashes[(toContractAddr, fromChainId)] else [];
      if |fromAssetHash| == 0 {
        return Fail(AssetHashMissing(fromChainId));
      }
      if fromContractAddr != fromAssetHash {
        return Fail(AssetHashMismatch(fromContractAddr, fromAssetHash));
      }
      var toDenom := toContractAddr;
      if !NewCoinOk(host, toDenom, args.value.amount) {
        return Fail(InvalidCoin(toDenom, args.value.amount));
      }
      if !host.addCoins(args.value.toBtcAddress, Coin(toDenom, args.value.amount)) {
        return Fail(MintFailed);
      }
      return Pass;
    }
  }
}
