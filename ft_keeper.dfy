/**
 * The ft module's independently crossed denoms: a creator makes a denom,
 * marks it independent, binds an asset hash per target chain, and cross-
 * chain transfers burn here and mint there.
 *
 * The module's store is a byte map keyed by the keys of FtKeys. The TxArgs
 * codec of this module is a collaborator: it is not part of this model.
 */
module FtKeeper {
  import opened Wrappers
  import opened Codec
  import opened Sdk
  import opened FtKeys
  import Ccm = CcmKeeper

  const UnlockMethod: Bytes := [0x75, 0x6E, 0x6C, 0x6F, 0x63, 0x6B]

  datatype TxArgs = TxArgs(toAddress: Bytes, amount: int)

  /** TxArgs.Serialization and Deserialization with a 32-byte amount. */
  datatype FtEnv = FtEnv(encodeArgs: TxArgs -> Option<Bytes>, decodeArgs: Bytes -> Option<TxArgs>)

  datatype Error =
    | DenomExists(denom: Bytes)
    | InvalidCreator(recorded: Bytes, caller: Bytes)
    | NotIndependent(denom: Bytes)
    | ArgsSerialization
    | AssetHashMissing(chainId: uint64)
    | InvalidCoin(coinDenom: Bytes, coinAmount: int)
    | BurnFailed
    | ArgsDeserialization
    | AssetHashMismatch(fromContract: Bytes, stored: Bytes)
    | MintFailed

  type FtStore = map<Bytes, Bytes>

  predicate Reflects<S(==)>(r: Outcome<Error>, spec: Result<S, Error>, now: S)
  {
    match spec
    case Ok(s) => r == Pass && now == s
    case Err(e) => r == Fail(e)
  }

  /** store.Get: an absent key reads as no bytes. */
  function Get(st: FtStore, k: Bytes): Bytes
  {
    if k in st then st[k] else []
  }

  function ValidCreatorOf(cst: Ccm.CcmState, denom: Bytes, creator: Bytes): bool
  {
    Ccm.GetDenomCreatorOf(cst, denom) == creator
  }

  function ContainToContractAddrOf(st: FtStore, toContractAddr: Bytes, fromChainId: uint64): bool
  {
    GetBindAssetHashKey(toContractAddr, fromChainId) in st
  }

  /** A denom created through this module stores its own name under its independent-denom key. */
  function IsIndependentOf(st: FtStore, denom: Bytes): bool
  {
    Get(st, GetIndependentCrossDenomKey(denom)) == denom
  }

  /** ValidCreator holds exactly when the manager's recorded creator is the caller. */
  lemma ValidCreatorIff(cst: Ccm.CcmState, denom: Bytes, creator: Bytes)
    ensures ValidCreatorOf(cst, denom, creator) <==> (denom in cst.denomCreators && cst.denomCreators[denom] == creator)
                                                     || (denom !in cst.denomCreators && creator == [])
  {
  }

  /** ContainToContractAddr holds exactly when a binding is stored for the pair. */
  lemma ContainToContractAddrIff(st: FtStore, toContractAddr: Bytes, fromChainId: uint64)
    ensures ContainToContractAddrOf(st, toContractAddr, fromChainId)
            <==> [0x01] + toContractAddr + Uint64Bytes(fromChainId) in st
  {
  }

  // ---------------------------------------------------------------- create and bind

  function CreateDenomOf(host: Host, st: FtStore, cst: Ccm.CcmState, creator: Bytes, denom: Bytes)
    : Result<(FtStore, Ccm.CcmState), Error>
  {
    if Ccm.ExistDenomOf(cst, host.totalSupply, denom) then Err(DenomExists(denom))
    else Ok((st[GetIndependentCrossDenomKey(denom) := denom], Ccm.SetDenomCreatorOf(cst, denom, creator)))
  }

  /**
   * CreateDenom fails exactly for a denom that exists; otherwise it records
   * the creator in the manager and marks the denom independent, touching no
   * other key of this store, so that a second CreateDenom of it fails.
   */
  lemma CreateDenomSpec(host: Host, st: FtStore, cst: Ccm.CcmState, creator: Bytes, denom: Bytes)
    ensures CreateDenomOf(host, st, cst, creator, denom).Err? <==> Ccm.ExistDenomOf(cst, host.totalSupply, denom)
    ensures CreateDenomOf(host, st, cst, creator, denom).Ok? ==>
      var (st', cst') := CreateDenomOf(host, st, cst, creator, denom).value;
      ValidCreatorOf(cst', denom, creator)
      && IsIndependentOf(st', denom)
      && (forall k :: k != GetIndependentCrossDenomKey(denom) ==> (k in st' <==> k in st) && (k in st ==> st'[k] == st[k]))
      && (creator != [] ==> CreateDenomOf(host, st', cst', creator, denom).Err?)
  {
    if CreateDenomOf(host, st, cst, creator, denom).Ok? && creator != [] {
      Ccm.SetCreatorMakesDenomExist(cst, host.totalSupply, denom, creator);
    }
  }

  function BindAssetHashOf(st: FtStore, cst: Ccm.CcmState, creator: Bytes, denom: Bytes, toChainId: uint64,
                           toAssetHash: Bytes): Result<FtStore, Error>
  {
    if !ValidCreatorOf(cst, denom, creator) then Err(InvalidCreator(Ccm.GetDenomCreatorOf(cst, denom), creator))
    else if !IsIndependentOf(st, denom) then Err(NotIndependent(denom))
    else Ok(st[GetBindAssetHashKey(denom, toChainId) := toAssetHash])
  }

  /**
   * Binding succeeds exactly for the recorded creator of a denom marked
   * independent; it stores the asset hash for (denom, chain) and leaves the
   * denom marked independent.
   */
  lemma BindAssetHashSpec(st: FtStore, cst: Ccm.CcmState, creator: Bytes, denom: Bytes, toChainId: uint64, toAssetHash: Bytes)
    ensures BindAssetHashOf(st, cst, creator, denom, toChainId, toAssetHash).Ok?
            <==> ValidCreatorOf(cst, denom, creator) && IsIndependentOf(st, denom)
    ensures BindAssetHashOf(st, cst, creator, denom, toChainId, toAssetHash).Ok? ==>
      var st' := BindAssetHashOf(st, cst, creator, denom, toChainId, toAssetHash).value;
      ContainToContractAddrOf(st', denom, toChainId)
      && Get(st', GetBindAssetHashKey(denom, toChainId)) == toAssetHash
      && IsIndependentOf(st', denom)
  {
    KeyFamiliesDisjoint(denom, toChainId, denom);
  }

  /** Binding the same (denom, chain) twice keeps the second asset hash. */
  lemma RebindOverwrites(st: FtStore, cst: Ccm.CcmState, creator: Bytes, denom: Bytes, toChainId: uint64, h1: Bytes, h2: Bytes)
    requires BindAssetHashOf(st, cst, creator, denom, toChainId, h1).Ok?
    ensures var st1 := BindAssetHashOf(st, cst, creator, denom, toChainId, h1).value;
      BindAssetHashOf(st1, cst, creator, denom, toChainId, h2).Ok?
      && Get(BindAssetHashOf(st1, cst, creator, denom, toChainId, h2).value, GetBindAssetHashKey(denom, toChainId)) == h2
  {
    BindAssetHashSpec(st, cst, creator, denom, toChainId, h1);
    var st1 := BindAssetHashOf(st, cst, creator, denom, toChainId, h1).value;
    BindAssetHashSpec(st1, cst, creator, denom, toChainId, h2);
  }

  /** After its creator makes a denom, only that creator can bind it. */
  lemma CreateThenBind(host: Host, st: FtStore, cst: Ccm.CcmState, creator: Bytes, other: Bytes, denom: Bytes,
                       toChainId: uint64, toAssetHash: Bytes)
    requires CreateDenomOf(host, st, cst, creator, denom).Ok?
    requires other != creator
    ensures var (st', cst') := CreateDenomOf(host, st, cst, creator, denom).value;
      BindAssetHashOf(st', cst', creator, denom, toChainId, toAssetHash).Ok?
      && BindAssetHashOf(st', cst', other, denom, toChainId, toAssetHash).Err?
  {
    CreateDenomSpec(host, st, cst, creator, denom);
    var (st', cst') := CreateDenomOf(host, st, cst, creator, denom).value;
    BindAssetHashSpec(st', cst', creator, denom, toChainId, toAssetHash);
  }

  // ---------------------------------------------------------------- lock and unlock

  function LockOf(env: FtEnv, host: Host, ccmEnv: Ccm.CcmEnv, st: FtStore, cst: Ccm.CcmState, txBytes: Bytes,
                  fromAddr: Bytes, denom: Bytes, toChainId: uint64, toAddr: Bytes, amount: int): Result<Ccm.CcmState, Error>
  {
    match env.encodeArgs(TxArgs(toAddr, amount))
    case None => Err(ArgsSerialization)
    case Some(argsBs) =>
      var key := GetBindAssetHashKey(denom, toChainId);
      if key !in st then Err(AssetHashMissing(toChainId))
      else
        var cst' := Ccm.CreateCrossChainTxOf(ccmEnv, cst, txBytes, toChainId, denom, st[key], UnlockMethod, argsBs);
        if !NewCoinOk(host, denom, amount) then Err(InvalidCoin(denom, amount))
        else if !host.subtractCoins(fromAddr, Coin(denom, amount)) then Err(BurnFailed)
        else Ok(cst')
  }

  /**
   * A successful lock needs a binding for the target chain, burns exactly
   * the amount (which is not negative) and records a cross-chain transaction
   * from the denom to the bound asset hash carrying the encoded arguments.
   */
  lemma LockSpec(env: FtEnv, host: Host, ccmEnv: Ccm.CcmEnv, st: FtStore, cst: Ccm.CcmState, txBytes: Bytes,
                 fromAddr: Bytes, denom: Bytes, toChainId: uint64, toAddr: Bytes, amount: int)
    requires LockOf(env, host, ccmEnv, st, cst, txBytes, fromAddr, denom, toChainId, toAddr, amount).Ok?
    ensures ContainToContractAddrOf(st, denom, toChainId)
    ensures env.encodeArgs(TxArgs(toAddr, amount)).Some?
    ensures amount >= 0 && host.subtractCoins(fromAddr, Coin(denom, amount))
    ensures LockOf(env, host, ccmEnv, st, cst, txBytes, fromAddr, denom, toChainId, toAddr, amount).value
            == Ccm.CreateCrossChainTxOf(ccmEnv, cst, txBytes, toChainId, denom, st[GetBindAssetHashKey(denom, toChainId)],
                                        UnlockMethod, env.encodeArgs(TxArgs(toAddr, amount)).value)
  {
  }

  /** With no binding for the target chain, a lock whose arguments encode fails for that reason. */
  lemma LockNeedsBinding(env: FtEnv, host: Host, ccmEnv: Ccm.CcmEnv, st: FtStore, cst: Ccm.CcmState, txBytes: Bytes,
                         fromAddr: Bytes, denom: Bytes, toChainId: uint64, toAddr: Bytes, amount: int)
    requires !ContainToContractAddrOf(st, denom, toChainId)
    requires env.encodeArgs(TxArgs(toAddr, amount)).Some?
    ensures LockOf(env, host, ccmEnv, st, cst, txBytes, fromAddr, denom, toChainId, toAddr, amount) == Err(AssetHashMissing(toChainId))
  {
  }

  function UnlockOf(env: FtEnv, host: Host, st: FtStore, fromChainId: uint64, fromContractAddr: Bytes,
                    toContractAddr: Bytes, argsBs: Bytes): Outcome<Error>
  {
    match env.decodeArgs(argsBs)
    case None => Fail(ArgsDeserialization)
    case Some(args) =>
      var denom := toContractAddr;
      var stored := Get(st, GetBindAssetHashKey(denom, fromChainId));
      if fromContractAddr != stored then Fail(AssetHashMismatch(fromContractAddr, stored))
      else if !NewCoinOk(host, denom, args.amount) then Fail(InvalidCoin(denom, args.amount))
      else if !host.addCoins(args.toAddress, Coin(denom, args.amount)) then Fail(MintFailed)
      else Pass
  }

  /**
   * Unlock fails whenever the sending contract differs from the stored
   * binding; a successful one mints the decoded amount of the denom named
   * by toContractAddr to the decoded address.
   */
  lemma UnlockSpec(env: FtEnv, host: Host, st: FtStore, fromChainId: uint64, fromContractAddr: Bytes,
                   toContractAddr: Bytes, argsBs: Bytes)
    ensures (env.decodeArgs(argsBs).Some? && fromContractAddr != Get(st, GetBindAssetHashKey(toContractAddr, fromChainId)))
            ==> UnlockOf(env, host, st, fromChainId, fromContractAddr, toContractAddr, argsBs).Fail?
    ensures UnlockOf(env, host, st, fromChainId, fromContractAddr, toContractAddr, argsBs).Pass? ==>
      env.decodeArgs(argsBs).Some?
      && fromContractAddr == Get(st, GetBindAssetHashKey(toContractAddr, fromChainId))
      && host.addCoins(env.decodeArgs(argsBs).value.toAddress, Coin(toContractAddr, env.decodeArgs(argsBs).value.amount))
  {
  }

  /**
   * As written, the comparison reads an absent binding as no bytes, so a
   * sender with an empty address passes it for a pair that was never bound;
   * the manager only routes to this module pairs that ContainToContractAddr
   * accepts, which excludes that case.
   */
  lemma UnlockAcceptsUnboundEmptySender(env: FtEnv, host: Host, st: FtStore, fromChainId: uint64,
                                        toContractAddr: Bytes, argsBs: Bytes)
    requires !ContainToContractAddrOf(st, toContractAddr, fromChainId)
    requires env.decodeArgs(argsBs).Some?
    ensures UnlockOf(env, host, st, fromChainId, [], toContractAddr, argsBs).Fail? ==>
      UnlockOf(env, host, st, fromChainId, [], toContractAddr, argsBs).error.InvalidCoin?
      || UnlockOf(env, host, st, fromChainId, [], toContractAddr, argsBs).error.MintFailed?
  {
  }

  // ---------------------------------------------------------------- the keeper

  class Keeper {
    const env: FtEnv
    const ccm: Ccm.Keeper
    var store: FtStore

    constructor (env: FtEnv, ccm: Ccm.Keeper)
      ensures this.env == env && this.ccm == ccm && store == map[]
    {
      this.env := env;
      this.ccm := ccm;
      store := map[];
    }

    method ValidCreator(denom: Bytes, creator: Bytes) returns (b: bool)
      ensures b == ValidCreatorOf(ccm.State(), denom, creator)
    {
      var recorded := ccm.GetDenomCreator(denom);
      return recorded == creator;
    }

    method ContainToContractAddr(toContractAddr: Bytes, fromChainId: uint64) returns (b: bool)
      ensures b == ContainToContractAddrOf(store, toContractAddr, fromChainId)
    {
      return GetBindAssetHashKey(toContractAddr, fromChainId) in store;
    }

    method CreateDenom(host: Host, creator: Bytes, denom: Bytes) returns (r: Outcome<Error>)
      modifies this, ccm
      ensures Reflects(r, CreateDenomOf(host, old(store), old(ccm.State()), creator, denom), (store, ccm.State()))
    {
      var exists_ := ccm.ExistDenom(host.totalSupply, denom);
      if exists_ {
        return Fail(DenomExists(denom));
      }
      ccm.SetDenomCreator(denom, creator);
      store := store[GetIndependentCrossDenomKey(denom) := denom];
      return Pass;
    }

    method BindAssetHash(creator: Bytes, denom: Bytes, toChainId: uint64, toAssetHash: Bytes) returns (r: Outcome<Error>)
      modifies this
      ensures Reflects(r, BindAssetHashOf(old(store), ccm.State(), creator, denom, toChainId, toAssetHash), store)
    {
      var valid := ValidCreator(denom, creator);
      if !valid {
        var recorded := ccm.GetDenomCreator(denom);
        return Fail(InvalidCreator(recorded, creator));
      }
      var marker := GetIndependentCrossDenomKey(denom);
      var stored := if marker in store then store[marker] else [];
      if denom != stored {
        return Fail(NotIndependent(denom));
      }
      store := store[GetBindAssetHashKey(denom, toChainId) := toAssetHash];
      return Pass;
    }

    method Lock(host: Host, txBytes: Bytes, fromAddr: Bytes, denom: Bytes, toChainId: uint64, toAddr: Bytes, amount: int)
      returns (r: Outcome<Error>)
      modifies ccm
      ensures match LockOf(env, host, ccm.env, store, old(ccm.State()), txBytes, fromAddr, denom, toChainId, toAddr, amount)
              case Ok(cst) => r == Pass && ccm.State() == cst
              case Err(e) => r == Fail(e)
    {
      var argsBs := env.encodeArgs(TxArgs(toAddr, amount));
      if argsBs.None? {
        return Fail(ArgsSerialization);
      }
      var key := GetBindAssetHashKey(denom, toChainId);
      if key !in store {
        return Fail(AssetHashMissing(toChainId));
      }
      ccm.CreateCrossChainTx(txBytes, fromAddr, toChainId, denom, store[key], UnlockMethod, argsBs.value);
      if !NewCoinOk(host, denom, amount) {
        return Fail(InvalidCoin(denom, amount));
      }
      if !host.subtractCoins(fromAddr, Coin(denom, amount)) {
        return Fail(BurnFailed);
      }
      return Pass;
    }

    method Unlock(host: Host, fromChainId: uint64, fromContractAddr: Bytes, toContractAddr: Bytes, argsBs: Bytes)
      returns (r: Outcome<Error>)
      ensures r == UnlockOf(env, host, store, fromChainId, fromContractAddr, toContractAddr, argsBs)
    {
      var args := env.decodeArgs(argsBs);
      if args.None? {
        return Fail(ArgsDeserialization);
      }
      var denom := toContractAddr;
      var key := GetBindAssetHashKey(denom, fromChainId);
      var stored := if key in store then store[key] else [];
      if fromContractAddr != stored {
        return Fail(AssetHashMismatch(fromContractAddr, stored));
      }
      if !NewCoinOk(host, denom, args.value.amount) {
        return Fail(InvalidCoin(denom, args.value.amount));
      }
      if !host.addCoins(args.value.toAddress, Coin(denom, args.value.amount)) {
        return Fail(MintFailed);
      }
      return Pass;
    }
  }
}
