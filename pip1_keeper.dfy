/**
 * The lockproxypip1 keeper: lock proxies owned by their creator, a registry
 * of (proxy, asset, native chain, native proxy, native asset) tuples, and a
 * balance per registered tuple that Lock raises and Unlock lowers, with an
 * optional fee deducted on either side.
 *
 * Balances are kept in their own map under the balance key (their amino
 * encoding is not modelled); every other entry lives in the byte store
 * under the keys of Pip1Keys. The argument record the keeper writes and
 * reads carries the source asset hash and a fee; its codec is a
 * collaborator.
 */
module Pip1Keeper {
  import opened Wrappers
  import opened Codec
  import opened Sdk
  import opened Pip1Keys
  import opened Pip1Args
  import Ccm = CcmKeeper

  datatype FeeTxArgs = FeeTxArgs(
    fromAssetHash: Bytes,
    toAssetHash: Bytes,
    toAddress: Bytes,
    amount: int,
    feeAmount: int,
    feeAddress: Bytes)

  datatype Env = Env(
    sha: Sha256,
    encodeArgs: FeeTxArgs -> Option<Bytes>,
    decodeArgs: Bytes -> Option<FeeTxArgs>)

  datatype Error =
    | LockProxyExists(creator: Bytes)
    | LockProxyMissing(proxyHash: Bytes)
    | RegistryExists
    | MissingRegistry
    | InsufficientBalance(current: int, decrement: int)
    | ArgsDeserialization
    | ArgsSerialization
    | DenomExists(denom: Bytes)
    | MintFailed
    | FeeAddressEmpty
    | FeeTooLarge(fee: int, value: int)
    | InvalidCoin(denom: Bytes, amount: int)
    | SendToModuleFailed
    | SendFromModuleFailed
    | NegativeAmount
    | AccountNotExist(addr: Bytes)

  /** The "1" written as a registry or bind-chain marker. */
  const Marker: Bytes := [0x31]

  const UnlockMethod: Bytes := [0x75, 0x6E, 0x6C, 0x6F, 0x63, 0x6B]

  datatype Pip1State = Pip1State(store: map<Bytes, Bytes>, balances: map<Bytes, int>)

  /** store.Get, where an absent key reads as no bytes. */
  function Get(store: map<Bytes, Bytes>, k: Bytes): Bytes
  {
    if k in store then store[k] else []
  }

  predicate Reflects<S(==)>(r: Outcome<Error>, spec: Result<S, Error>, now: S)
  {
    match spec
    case Ok(s) => r == Pass && now == s
    case Err(e) => r == Fail(e)
  }

  ghost predicate BalancesNonNegative(st: Pip1State)
  {
    forall k :: k in st.balances ==> st.balances[k] >= 0
  }

  // ---------------------------------------------------------------- lock proxies

  /** The operator key holds the creator's own address exactly when its proxy exists. */
  function EnsureLockProxyExistOf(st: Pip1State, creator: Bytes): bool
  {
    Get(st.store, GetOperatorToLockProxyKey(creator)) == creator
  }

  function GetLockProxyByOperatorOf(st: Pip1State, operator: Bytes): (r: Bytes)
    ensures r != [] <==> operator != [] && EnsureLockProxyExistOf(st, operator)
    ensures r != [] ==> r == operator
  {
    var proxyBytes := Get(st.store, GetOperatorToLockProxyKey(operator));
    if |proxyBytes| == 0 || operator != proxyBytes then [] else proxyBytes
  }

  function CreateLockProxyOf(st: Pip1State, creator: Bytes): Result<Pip1State, Error>
  {
    if EnsureLockProxyExistOf(st, creator) then Err(LockProxyExists(creator))
    else Ok(st.(store := st.store[GetOperatorToLockProxyKey(creator) := creator]))
  }

  /** A creator gets at most one proxy; afterwards the proxy exists and nothing else changed. */
  lemma CreateLockProxySpec(st: Pip1State, creator: Bytes)
    ensures CreateLockProxyOf(st, creator).Err? <==> EnsureLockProxyExistOf(st, creator)
    ensures CreateLockProxyOf(st, creator).Ok? ==>
      var st' := CreateLockProxyOf(st, creator).value;
      EnsureLockProxyExistOf(st', creator) && st'.balances == st.balances
      && forall k :: k != GetOperatorToLockProxyKey(creator) ==> Get(st'.store, k) == Get(st.store, k)
  {
  }

  /** An empty operator key reads as no bytes, which equals the empty address: the empty address always has a proxy. */
  lemma EmptyAddressAlwaysHasProxy(st: Pip1State)
    requires GetOperatorToLockProxyKey([]) !in st.store
    ensures EnsureLockProxyExistOf(st, [])
    ensures CreateLockProxyOf(st, []) == Err(LockProxyExists([]))
  {
  }

  // ---------------------------------------------------------------- registry

  function ContainToContractAddrOf(st: Pip1State, toContractAddr: Bytes, fromChainId: uint64): bool
  {
    GetBindChainIdKey(toContractAddr, fromChainId) in st.store
  }

  function AssetIsRegisteredOf(sha: Sha256, st: Pip1State, t: AssetTuple): bool
  {
    |Get(st.store, GetRegistryKey(sha, t))| != 0
  }

  function UpdateRegistryOf(sha: Sha256, st: Pip1State, t: AssetTuple): Result<Pip1State, Error>
  {
    if AssetIsRegisteredOf(sha, st, t) then Err(RegistryExists)
    else
      var store1 := st.store[GetRegistryKey(sha, t) := Marker];
      var bindKey := GetBindChainIdKey(t.lockProxyHash, t.nativeChainId);
      var store2 := if bindKey !in store1 then store1[bindKey := Marker] else store1;
      Ok(st.(store := store2))
  }

  /**
   * Registration is once per tuple; afterwards the tuple is registered and
   * its proxy is reachable from the tuple's native chain, an existing
   * bind-chain entry is kept as it was, and no balance moves.
   */
  lemma UpdateRegistrySpec(sha: Sha256, st: Pip1State, t: AssetTuple)
    ensures UpdateRegistryOf(sha, st, t).Err? <==> AssetIsRegisteredOf(sha, st, t)
    ensures UpdateRegistryOf(sha, st, t).Ok? ==>
      var st' := UpdateRegistryOf(sha, st, t).value;
      var bindKey := GetBindChainIdKey(t.lockProxyHash, t.nativeChainId);
      AssetIsRegisteredOf(sha, st', t)
      && ContainToContractAddrOf(st', t.lockProxyHash, t.nativeChainId)
      && (bindKey in st.store ==> st'.store[bindKey] == st.store[bindKey])
      && st'.balances == st.balances
      && st.store.Keys <= st'.store.Keys
  {
    KeyFamiliesDisjoint(sha, [], t.lockProxyHash, t.nativeChainId, t, t);
  }

  // ---------------------------------------------------------------- balances

  /** An absent balance reads as 0. */
  function GetBalanceOf(st: Pip1State, balanceKey: Bytes): int
  {
    if balanceKey in st.balances then st.balances[balanceKey] else 0
  }

  function IncreaseBalanceOf(sha: Sha256, st: Pip1State, t: AssetTuple, amount: int): (r: Pip1State)
    ensures GetBalanceOf(r, GetBalanceKey(sha, t)) == GetBalanceOf(st, GetBalanceKey(sha, t)) + amount
    ensures forall k :: k != GetBalanceKey(sha, t) ==> GetBalanceOf(r, k) == GetBalanceOf(st, k)
    ensures r.store == st.store
  {
    var key := GetBalanceKey(sha, t);
    st.(balances := st.balances[key := GetBalanceOf(st, key) + amount])
  }

  function DecreaseBalanceOf(sha: Sha256, st: Pip1State, t: AssetTuple, amount: int): (r: Result<Pip1State, Error>)
    ensures r.Err? <==> GetBalanceOf(st, GetBalanceKey(sha, t)) - amount < 0
    ensures r.Err? ==> r.error == InsufficientBalance(GetBalanceOf(st, GetBalanceKey(sha, t)), amount)
    ensures r.Ok? ==> GetBalanceOf(r.value, GetBalanceKey(sha, t)) == GetBalanceOf(st, GetBalanceKey(sha, t)) - amount
    ensures r.Ok? ==> forall k :: k != GetBalanceKey(sha, t) ==> GetBalanceOf(r.value, k) == GetBalanceOf(st, k)
    ensures r.Ok? ==> r.value.store == st.store
  {
    var key := GetBalanceKey(sha, t);
    var current := GetBalanceOf(st, key);
    if current - amount < 0 then Err(InsufficientBalance(current, amount))
    else Ok(st.(balances := st.balances[key := current - amount]))
  }

  lemma IncreaseKeepsNonNegative(sha: Sha256, st: Pip1State, t: AssetTuple, amount: int)
    requires BalancesNonNegative(st) && amount >= 0
    ensures BalancesNonNegative(IncreaseBalanceOf(sha, st, t, amount))
  {
  }

  lemma DecreaseKeepsNonNegative(sha: Sha256, st: Pip1State, t: AssetTuple, amount: int)
    requires BalancesNonNegative(st)
    requires DecreaseBalanceOf(sha, st, t, amount).Ok?
    ensures BalancesNonNegative(DecreaseBalanceOf(sha, st, t, amount).value)
  {
  }

  // ---------------------------------------------------------------- asset registration

  function RegisterAssetOf(env: Env, st: Pip1State, fromChainId: uint64, fromContractAddr: Bytes,
                           toContractAddr: Bytes, argsBs: Bytes): Result<Pip1State, Error>
  {
    if !EnsureLockProxyExistOf(st, toContractAddr) then Err(LockProxyMissing(toContractAddr))
    else
      match DecodeRegisterAssetArgs(argsBs)
      case None => Err(ArgsDeserialization)
      case Some((args, _)) =>
        UpdateRegistryOf(env.sha, st, AssetTuple(toContractAddr, args.assetHash, fromChainId, fromContractAddr, args.nativeAssetHash))
  }

  /** An asset registered from another chain lands under the receiving proxy, the source chain and the source proxy. */
  lemma RegisterAssetSpec(env: Env, st: Pip1State, fromChainId: uint64, fromContractAddr: Bytes,
                          toContractAddr: Bytes, args: RegisterAssetTxArgs)
    requires |args.assetHash| <= MAX_UINT64 && |args.nativeAssetHash| <= MAX_UINT64
    requires EnsureLockProxyExistOf(st, toContractAddr)
    ensures var t := AssetTuple(toContractAddr, args.assetHash, fromChainId, fromContractAddr, args.nativeAssetHash);
      RegisterAssetOf(env, st, fromChainId, fromContractAddr, toContractAddr, RegisterAssetArgsBytes(args))
      == UpdateRegistryOf(env.sha, st, t)
  {
    RegisterAssetArgsRoundTrip(args, []);
    AppendNothing(RegisterAssetArgsBytes(args));
  }

  function CreateCoinAndDelegateToProxyOf(env: Env, host: Host, st: Pip1State, cst: Ccm.CcmState,
                                          creator: Bytes, coin: Coin, lockproxyHash: Bytes, nativeChainId: uint64,
                                          nativeLockProxyHash: Bytes, nativeAssetHash: Bytes)
    : Result<(Pip1State, Ccm.CcmState), Error>
  {
    if Ccm.ExistDenomOf(cst, host.totalSupply, coin.denom) then Err(DenomExists(coin.denom))
    else if !EnsureLockProxyExistOf(st, lockproxyHash) then Err(LockProxyMissing(lockproxyHash))
    else
      var cst' := Ccm.SetDenomCreatorOf(cst, coin.denom, creator);
      var t := AssetTuple(lockproxyHash, coin.denom, nativeChainId, nativeLockProxyHash, nativeAssetHash);
      match UpdateRegistryOf(env.sha, st, t)
      case Err(e) => Err(e)
      case Ok(st1) =>
        if !NewCoinOk(host, coin.denom, coin.amount) then Err(InvalidCoin(coin.denom, coin.amount))
        else if !host.mintToModule(coin) then Err(MintFailed)
        else Ok((IncreaseBalanceOf(env.sha, st1, t, coin.amount), cst'))
  }

  /**
   * A new denom is recorded with its creator, registered under the proxy,
   * and its whole minted amount becomes the tuple's balance.
   */
  lemma CreateCoinAndDelegateSpec(env: Env, host: Host, st: Pip1State, cst: Ccm.CcmState,
                                  creator: Bytes, coin: Coin, lockproxyHash: Bytes, nativeChainId: uint64,
                                  nativeLockProxyHash: Bytes, nativeAssetHash: Bytes)
    requires BalancesNonNegative(st)
    requires CreateCoinAndDelegateToProxyOf(env, host, st, cst, creator, coin, lockproxyHash, nativeChainId,
                                            nativeLockProxyHash, nativeAssetHash).Ok?
    ensures var (st', cst') := CreateCoinAndDelegateToProxyOf(env, host, st, cst, creator, coin, lockproxyHash, nativeChainId,
                                                              nativeLockProxyHash, nativeAssetHash).value;
      var t := AssetTuple(lockproxyHash, coin.denom, nativeChainId, nativeLockProxyHash, nativeAssetHash);
      !Ccm.ExistDenomOf(cst, host.totalSupply, coin.denom)
      && Ccm.GetDenomCreatorOf(cst', coin.denom) == creator
      && AssetIsRegisteredOf(env.sha, st', t)
      && GetBalanceOf(st', GetBalanceKey(env.sha, t)) == GetBalanceOf(st, GetBalanceKey(env.sha, t)) + coin.amount
      && BalancesNonNegative(st')
  {
    var t := AssetTuple(lockproxyHash, coin.denom, nativeChainId, nativeLockProxyHash, nativeAssetHash);
    UpdateRegistrySpec(env.sha, st, t);
    var st1 := UpdateRegistryOf(env.sha, st, t).value;
    RegistryAndBalanceKeysDiffer(env.sha, t, t);
    IncreaseKeepsNonNegative(env.sha, st1, t, coin.amount);
  }

  // ---------------------------------------------------------------- lock

  datatype LockRequest = LockRequest(
    lockProxyHash: Bytes,
    fromAddress: Bytes,
    sourceAssetDenom: Bytes,
    toChainId: uint64,
    toChainProxyHash: Bytes,
    toChainAssetHash: Bytes,
    toAddressBs: Bytes,
    value: int,
    deductFeeInLock: bool,
    feeAmount: int,
    feeAddress: Bytes)

  predicate DeductsFee(q: LockRequest)
  {
    q.deductFeeInLock && q.feeAmount > 0
  }

  /** The amount that is locked and recorded, and the arguments sent to the other chain. */
  function AfterFee(q: LockRequest): int
  {
    if DeductsFee(q) then q.value - q.feeAmount else q.value
  }

  function LockArgs(q: LockRequest): FeeTxArgs
  {
    var args := FeeTxArgs(q.sourceAssetDenom, q.toChainAssetHash, q.toAddressBs, q.value, q.feeAmount, q.feeAddress);
    if DeductsFee(q) then args.(amount := AfterFee(q), feeAmount := 0) else args
  }

  function LockTuple(q: LockRequest): AssetTuple
  {
    AssetTuple(q.lockProxyHash, q.sourceAssetDenom, q.toChainId, q.toChainProxyHash, q.toChainAssetHash)
  }

  /**
   * Lock. When the fee is deducted here it is sent to the fee address
   * (whose result is ignored), and only the remainder is locked.
   */
  function LockOf(env: Env, host: Host, ccmEnv: Ccm.CcmEnv, st: Pip1State, cst: Ccm.CcmState, txBytes: Bytes, q: LockRequest)
    : Result<(Pip1State, Ccm.CcmState), Error>
  {
    var denom := q.sourceAssetDenom;
    if !EnsureLockProxyExistOf(st, q.lockProxyHash) then Err(LockProxyMissing(q.lockProxyHash))
    else if DeductsFee(q) && q.feeAddress == [] then Err(FeeAddressEmpty)
    else if DeductsFee(q) && q.feeAmount > q.value then Err(FeeTooLarge(q.feeAmount, q.value))
    else if DeductsFee(q) && !NewCoinOk(host, denom, q.feeAmount) then Err(InvalidCoin(denom, q.feeAmount))
    else if !NewCoinOk(host, denom, AfterFee(q)) then Err(InvalidCoin(denom, AfterFee(q)))
    else if !host.sendToModule(q.fromAddress, Coin(denom, AfterFee(q))) then Err(SendToModuleFailed)
    else
      match env.encodeArgs(LockArgs(q))
      case None => Err(ArgsSerialization)
      case Some(argsBs) =>
        var cst' := Ccm.CreateCrossChainTxOf(ccmEnv, cst, txBytes, q.toChainId, q.lockProxyHash, q.toChainProxyHash, UnlockMethod, argsBs);
        if AfterFee(q) < 0 then Err(NegativeAmount)
        else if !AssetIsRegisteredOf(env.sha, st, LockTuple(q)) then Err(MissingRegistry)
        else Ok((IncreaseBalanceOf(env.sha, st, LockTuple(q), AfterFee(q)), cst'))
  }

  /**
   * A successful lock needs the proxy and the registered tuple; the tuple's
   * balance rises by the value less any fee deducted here, and the envelope
   * handed to the cross-chain manager carries that remainder with the fee
   * zeroed. A deducted fee is positive, at most the value, and has an address.
   */
  lemma LockSpec(env: Env, host: Host, ccmEnv: Ccm.CcmEnv, st: Pip1State, cst: Ccm.CcmState, txBytes: Bytes, q: LockRequest)
    requires BalancesNonNegative(st)
    requires LockOf(env, host, ccmEnv, st, cst, txBytes, q).Ok?
    ensures var (st', cst') := LockOf(env, host, ccmEnv, st, cst, txBytes, q).value;
      var key := GetBalanceKey(env.sha, LockTuple(q));
      EnsureLockProxyExistOf(st, q.lockProxyHash) && AssetIsRegisteredOf(env.sha, st, LockTuple(q))
      && GetBalanceOf(st', key) == GetBalanceOf(st, key) + AfterFee(q)
      && env.encodeArgs(LockArgs(q)).Some?
      && cst' == Ccm.CreateCrossChainTxOf(ccmEnv, cst, txBytes, q.toChainId, q.lockProxyHash, q.toChainProxyHash,
                                          UnlockMethod, env.encodeArgs(LockArgs(q)).value)
      && (DeductsFee(q) ==> 0 < q.feeAmount <= q.value && q.feeAddress != []
                            && LockArgs(q).amount == q.value - q.feeAmount && LockArgs(q).feeAmount == 0)
      && (!DeductsFee(q) ==> LockArgs(q).amount == q.value && LockArgs(q).feeAmount == q.feeAmount)
      && BalancesNonNegative(st')
  {
    IncreaseKeepsNonNegative(env.sha, st, LockTuple(q), AfterFee(q));
  }

  // ---------------------------------------------------------------- unlock

  function UnlockTuple(toContractAddr: Bytes, fromChainId: uint64, fromContractAddr: Bytes, args: FeeTxArgs): AssetTuple
  {
    AssetTuple(toContractAddr, args.toAssetHash, fromChainId, fromContractAddr, args.fromAssetHash)
  }

  /** Unlock: the fee, if any, goes to the fee address, the rest to the receiver, and the full amount leaves the balance. */
  function UnlockOf(env: Env, host: Host, st: Pip1State, fromChainId: uint64, fromContractAddr: Bytes,
                    toContractAddr: Bytes, argsBs: Bytes): Result<Pip1State, Error>
  {
    match env.decodeArgs(argsBs)
    case None => Err(ArgsDeserialization)
    case Some(args) =>
      var t := UnlockTuple(toContractAddr, fromChainId, fromContractAddr, args);
      var denom := args.toAssetHash;
      var fee := args.feeAmount;
      var afterFee := if fee > 0 then args.amount - fee else args.amount;
      if !AssetIsRegisteredOf(env.sha, st, t) then Err(MissingRegistry)
      else if !host.accountExists(args.toAddress) then Err(AccountNotExist(args.toAddress))
      else if fee > 0 && fee > args.amount then Err(FeeTooLarge(fee, args.amount))
      else if fee > 0 && args.feeAddress == [] then Err(FeeAddressEmpty)
      else if fee > 0 && !NewCoinOk(host, denom, fee) then Err(InvalidCoin(denom, fee))
      else if fee > 0 && !host.sendFromModule(args.feeAddress, Coin(denom, fee)) then Err(SendFromModuleFailed)
      else if !NewCoinOk(host, denom, afterFee) then Err(InvalidCoin(denom, afterFee))
      else if !host.sendFromModule(args.toAddress, Coin(denom, afterFee)) then Err(SendFromModuleFailed)
      else DecreaseBalanceOf(env.sha, st, t, args.amount)
  }

  /**
   * A successful unlock needs the registered tuple, a fee no larger than the
   * amount and an address for a positive fee; the balance falls by the full
   * amount, fee included, and stays non-negative.
   */
  lemma UnlockSpec(env: Env, host: Host, st: Pip1State, fromChainId: uint64, fromContractAddr: Bytes,
                   toContractAddr: Bytes, argsBs: Bytes)
    requires BalancesNonNegative(st)
    requires UnlockOf(env, host, st, fromChainId, fromContractAddr, toContractAddr, argsBs).Ok?
    ensures var args := env.decodeArgs(argsBs).value;
      var t := UnlockTuple(toContractAddr, fromChainId, fromContractAddr, args);
      var st' := UnlockOf(env, host, st, fromChainId, fromContractAddr, toContractAddr, argsBs).value;
      AssetIsRegisteredOf(env.sha, st, t)
      && (args.feeAmount > 0 ==> args.feeAmount <= args.amount && args.feeAddress != [])
      && GetBalanceOf(st', GetBalanceKey(env.sha, t)) == GetBalanceOf(st, GetBalanceKey(env.sha, t)) - args.amount >= 0
      && BalancesNonNegative(st')
  {
    var args := env.decodeArgs(argsBs).value;
    DecreaseKeepsNonNegative(env.sha, st, UnlockTuple(toContractAddr, fromChainId, fromContractAddr, args), args.amount);
  }

  /** An unlock whose fee exceeds its amount fails, whatever else holds. */
  lemma UnlockRejectsOversizedFee(env: Env, host: Host, st: Pip1State, fromChainId: uint64, fromContractAddr: Bytes,
                                  toContractAddr: Bytes, argsBs: Bytes)
    requires env.decodeArgs(argsBs).Some?
    requires env.decodeArgs(argsBs).value.feeAmount > env.decodeArgs(argsBs).value.amount
    ensures UnlockOf(env, host, st, fromChainId, fromContractAddr, toContractAddr, argsBs).Err?
  {
  }

  // ---------------------------------------------------------------- the keeper

  class Keeper {
    const env: Env
    const ccm: Ccm.Keeper
    var store: map<Bytes, Bytes>
    var balances: map<Bytes, int>

    constructor (env: Env, ccm: Ccm.Keeper)
      ensures this.env == env && this.ccm == ccm && State() == Pip1State(map[], map[])
    {
      this.env := env;
      this.ccm := ccm;
      store := map[];
      balances := map[];
    }

    function State(): Pip1State
      reads this
    {
      Pip1State(store, balances)
    }

    method ContainToContractAddr(toContractAddr: Bytes, fromChainId: uint64) returns (b: bool)
      ensures b == ContainToContractAddrOf(State(), toContractAddr, fromChainId)
    {
      return GetBindChainIdKey(toContractAddr, fromChainId) in store;
    }

    method EnsureLockProxyExist(creator: Bytes) returns (b: bool)
      ensures b == EnsureLockProxyExistOf(State(), creator)
    {
      var k := GetOperatorToLockProxyKey(creator);
      var stored := if k in store then store[k] else [];
      return stored == creator;
    }

    method GetLockProxyByOperator(operator: Bytes) returns (proxy: Bytes)
      ensures proxy == GetLockProxyByOperatorOf(State(), operator)
    {
      var k := GetOperatorToLockProxyKey(operator);
      var proxyBytes := if k in store then store[k] else [];
      if |proxyBytes| == 0 || operator != proxyBytes {
        return [];
      }
      return proxyBytes;
    }

    method CreateLockProxy(creator: Bytes) returns (r: Outcome<Error>)
      modifies this
      ensures Reflects(r, CreateLockProxyOf(old(State()), creator), State())
    {
      var exists_ := EnsureLockProxyExist(creator);
      if exists_ {
        return Fail(LockProxyExists(creator));
      }
      store := store[GetOperatorToLockProxyKey(creator) := creator];
      return Pass;
    }

    method AssetIsRegistered(t: AssetTuple) returns (b: bool)
      ensures b == AssetIsRegisteredOf(env.sha, State(), t)
    {
      var k := GetRegistryKey(env.sha, t);
      var registryBytes := if k in store then store[k] else [];
      return |registryBytes| != 0;
    }

    method UpdateRegistry(t: AssetTuple) returns (r: Outcome<Error>)
      modifies this
      ensures Reflects(r, UpdateRegistryOf(env.sha, old(State()), t), State())
    {
      var registered := AssetIsRegistered(t);
      if registered {
        return Fail(RegistryExists);
      }
      store := store[GetRegistryKey(env.sha, t) := Marker];
      var bindChainIdKey := GetBindChainIdKey(t.lockProxyHash, t.nativeChainId);
      if bindChainIdKey !in store {
        store := store[bindChainIdKey := Marker];
      }
      return Pass;
    }

    method GetBalance(balanceKey: Bytes) returns (amount: int)
      ensures amount == GetBalanceOf(State(), balanceKey)
    {
      amount := 0;
      if balanceKey in balances {
        amount := balances[balanceKey];
      }
    }

    method StoreBalance(balanceKey: Bytes, newAmount: int)
      modifies this
      ensures State() == old(State()).(balances := old(balances)[balanceKey := newAmount])
    {
      balances := balances[balanceKey := newAmount];
    }

    method IncreaseBalance(t: AssetTuple, amount: int)
      modifies this
      ensures State() == IncreaseBalanceOf(env.sha, old(State()), t, amount)
    {
      var balanceKey := GetBalanceKey(env.sha, t);
      var currentAmount := GetBalance(balanceKey);
      StoreBalance(balanceKey, currentAmount + amount);
    }

    method DecreaseBalance(t: AssetTuple, amount: int) returns (r: Outcome<Error>)
      modifies this
      ensures Reflects(r, DecreaseBalanceOf(env.sha, old(State()), t, amount), State())
      ensures r.Fail? ==> State() == old(State())
    {
      var balanceKey := GetBalanceKey(env.sha, t);
      var currentAmount := GetBalance(balanceKey);
      var newAmount := currentAmount - amount;
      if newAmount < 0 {
        return Fail(InsufficientBalance(currentAmount, amount));
      }
      StoreBalance(balanceKey, newAmount);
      return Pass;
    }

    method RegisterAsset(fromChainId: uint64, fromContractAddr: Bytes, toContractAddr: Bytes, argsBs: Bytes) returns (r: Outcome<Error>)
      modifies this
      ensures Reflects(r, RegisterAssetOf(env, old(State()), fromChainId, fromContractAddr, toContractAddr, argsBs), State())
    {
      var exists_ := EnsureLockProxyExist(toContractAddr);
      if !exists_ {
        return Fail(LockProxyMissing(toContractAddr));
      }
      var source := new Source(argsBs);
      var args := DeserializeRegisterAssetArgs(source);
      if args.None? {
        return Fail(ArgsDeserialization);
      }
      r := UpdateRegistry(AssetTuple(toContractAddr, args.value.assetHash, fromChainId, fromContractAddr, args.value.nativeAssetHash));
    }

    method CreateCoinAndDelegateToProxy(host: Host, creator: Bytes, coin: Coin, lockproxyHash: Bytes, nativeChainId: uint64,
                                        nativeLockProxyHash: Bytes, nativeAssetHash: Bytes) returns (r: Outcome<Error>)
      modifies this, ccm
      ensures Reflects(r, CreateCoinAndDelegateToProxyOf(env, host, old(State()), old(ccm.State()), creator, coin, lockproxyHash,
                                                         nativeChainId, nativeLockProxyHash, nativeAssetHash),
                       (State(), ccm.State()))
    {
      var exists_ := ccm.ExistDenom(host.totalSupply, coin.denom);
      if exists_ {
        return Fail(DenomExists(coin.denom));
      }
      var proxyExists := EnsureLockProxyExist(lockproxyHash);
      if !proxyExists {
        return Fail(LockProxyMissing(lockproxyHash));
      }
      ccm.SetDenomCreator(coin.denom, creator);
      var t := AssetTuple(lockproxyHash, coin.denom, nativeChainId, nativeLockProxyHash, nativeAssetHash);
      r := UpdateRegistry(t);
      if r.Fail? {
        return;
      }
      if !NewCoinOk(host, coin.denom, coin.amount) {
        return Fail(InvalidCoin(coin.denom, coin.amount));
      }
      if !host.mintToModule(coin) {
        return Fail(MintFailed);
      }
      IncreaseBalance(t, coin.amount);
      return Pass;
    }

    method Lock(host: Host, txBytes: Bytes, q: LockRequest) returns (r: Outcome<Error>)
      modifies this, ccm
      ensures Reflects(r, LockOf(env, host, ccm.env, old(State()), old(ccm.State()), txBytes, q), (State(), ccm.State()))
    {
      var exists_ := EnsureLockProxyExist(q.lockProxyHash);
      if !exists_ {
        return Fail(LockProxyMissing(q.lockProxyHash));
      }
      var denom := q.sourceAssetDenom;
      var args := FeeTxArgs(denom, q.toChainAssetHash, q.toAddressBs, q.value, q.feeAmount, q.feeAddress);
      var afterFeeAmount := q.value;
      if q.deductFeeInLock && q.feeAmount > 0 {
        if q.feeAddress == [] {
          return Fail(FeeAddressEmpty);
        }
        if q.feeAmount > q.value {
          return Fail(FeeTooLarge(q.feeAmount, q.value));
        }
        afterFeeAmount := q.value - q.feeAmount;
        if !NewCoinOk(host, denom, q.feeAmount) {
          return Fail(InvalidCoin(denom, q.feeAmount));
        }
        args := args.(amount := afterFeeAmount, feeAmount := 0);
      }
      if !NewCoinOk(host, denom, afterFeeAmount) {
        return Fail(InvalidCoin(denom, afterFeeAmount));
      }
      if !host.sendToModule(q.fromAddress, Coin(denom, afterFeeAmount)) {
        return Fail(SendToModuleFailed);
      }
      var argsBs := env.encodeArgs(args);
      if argsBs.None? {
        return Fail(ArgsSerialization);
      }
      ccm.CreateCrossChainTx(txBytes, q.fromAddress, q.toChainId, q.lockProxyHash, q.toChainProxyHash, UnlockMethod, argsBs.value);
      if afterFeeAmount < 0 {
        return Fail(NegativeAmount);
      }
      var registered := AssetIsRegistered(LockTuple(q));
      if !registered {
        return Fail(MissingRegistry);
      }
      IncreaseBalance(LockTuple(q), afterFeeAmount);
      return Pass;
    }

    method Unlock(host: Host, fromChainId: uint64, fromContractAddr: Bytes, toContractAddr: Bytes, argsBs: Bytes) returns (r: Outcome<Error>)
      modifies this
      ensures Reflects(r, UnlockOf(env, host, old(State()), fromChainId, fromContractAddr, toContractAddr, argsBs), State())
    {
      var decoded := env.decodeArgs(argsBs);
      if decoded.None? {
        return Fail(ArgsDeserialization);
      }
      var args := decoded.value;
      var t := UnlockTuple(toContractAddr, fromChainId, fromContractAddr, args);
      var registered := AssetIsRegistered(t);
      if !registered {
        return Fail(MissingRegistry);
      }
      var toAssetDenom := args.toAssetHash;
      if !host.accountExists(args.toAddress) {
        return Fail(AccountNotExist(args.toAddress));
      }
      var afterFeeAmount := args.amount;
      if args.feeAmount > 0 {
        if args.feeAmount > args.amount {
          return Fail(FeeTooLarge(args.feeAmount, args.amount));
        }
        if args.feeAddress == [] {
          return Fail(FeeAddressEmpty);
        }
        afterFeeAmount := afterFeeAmount - args.feeAmount;
        if !NewCoinOk(host, toAssetDenom, args.feeAmount) {
          return Fail(InvalidCoin(toAssetDenom, args.feeAmount));
        }
        if !host.sendFromModule(args.feeAddress, Coin(toAssetDenom, args.feeAmount)) {
          return Fail(SendFromModuleFailed);
        }
      }
      if !NewCoinOk(host, toAssetDenom, afterFeeAmount) {
        return Fail(InvalidCoin(toAssetDenom, afterFeeAmount));
      }
      if !host.sendFromModule(args.toAddress, Coin(toAssetDenom, afterFeeAmount)) {
        return Fail(SendFromModuleFailed);
      }
      r := DecreaseBalance(t, args.amount);
    }
  }
}
