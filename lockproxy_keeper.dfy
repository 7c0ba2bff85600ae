/**
 * The lockproxy keeper: lock proxies owned by their creator, the proxy hash
 * bound for each target chain, the asset hash bound for each (proxy, denom,
 * chain), and a locked ("crossed") amount per denom that Lock raises and
 * Unlock lowers.
 *
 * Store keys are not part of this model: each family of entries is a map
 * keyed by the arguments its key is built from. Locked amounts are kept as
 * integers (their amino encoding is not modelled). Lock and Unlock use the
 * TxArgs layout of Pip1Args with a 32-byte padded amount.
 */
module LockProxyKeeper {
  import opened Wrappers
  import opened Codec
  import opened Sdk
  import opened Pip1Args
  import Ccm = CcmKeeper

  const IntLen: nat := 32
  const UnlockMethod: Bytes := [0x75, 0x6E, 0x6C, 0x6F, 0x63, 0x6B]

  datatype Error =
    | LockProxyExists(creator: Bytes)
    | LockProxyMissing(operator: Bytes)
    | DenomNotExist(denom: Bytes)
    | InitialAmtMismatch(expected: int, got: int)
    | InvalidCoin(denom: Bytes, amount: int)
    | SendToModuleFailed
    | SendFromModuleFailed
    | ArgsSerialization
    | ArgsDeserialization
    | ProxyHashEmpty(chainId: uint64)
    | ProxyHashMismatch(stored: Bytes, fromContract: Bytes)
    | AssetNotBound(denom: Bytes)
    | AccountNotExist(addr: Bytes)
    | NegativeAmount
    | NegativeLockedAmount(lockedAmt: int, amount: int)

  datatype LpState = LpState(
    operators: map<Bytes, Bytes>,
    proxyHashes: map<(Bytes, uint64), Bytes>,
    assetHashes: map<(Bytes, Bytes, uint64), Bytes>,
    locked: map<Bytes, int>)

  predicate Reflects<S(==)>(r: Outcome<Error>, spec: Result<S, Error>, now: S)
  {
    match spec
    case Ok(s) => r == Pass && now == s
    case Err(e) => r == Fail(e)
  }

  ghost predicate LockedNonNegative(st: LpState)
  {
    forall d :: d in st.locked ==> st.locked[d] >= 0
  }

  function EnsureLockProxyExistOf(st: LpState, creator: Bytes): bool
  {
    (if creator in st.operators then st.operators[creator] else []) == creator
  }

  function GetLockProxyByOperatorOf(st: LpState, operator: Bytes): (r: Bytes)
    ensures r != [] <==> operator != [] && EnsureLockProxyExistOf(st, operator)
    ensures r != [] ==> r == operator
  {
    var proxyBytes := if operator in st.operators then st.operators[operator] else [];
    if |proxyBytes| == 0 || operator != proxyBytes then [] else proxyBytes
  }

  function CreateLockProxyOf(st: LpState, creator: Bytes): Result<LpState, Error>
  {
    if EnsureLockProxyExistOf(st, creator) then Err(LockProxyExists(creator))
    else Ok(st.(operators := st.operators[creator := creator]))
  }

  lemma CreateLockProxySpec(st: LpState, creator: Bytes)
    ensures CreateLockProxyOf(st, creator).Err? <==> EnsureLockProxyExistOf(st, creator)
    ensures CreateLockProxyOf(st, creator).Ok? ==>
      var st' := CreateLockProxyOf(st, creator).value;
      EnsureLockProxyExistOf(st', creator)
      && st'.proxyHashes == st.proxyHashes && st'.assetHashes == st.assetHashes && st'.locked == st.locked
  {
  }

  function ContainToContractAddrOf(st: LpState, toContractAddr: Bytes, fromChainId: uint64): bool
  {
    (toContractAddr, fromChainId) in st.proxyHashes
  }

  /** A stored proxy hash, or no bytes when none is bound. */
  function GetProxyHashOf(st: LpState, operator: Bytes, toChainId: uint64): Bytes
  {
    if (operator, toChainId) in st.proxyHashes then st.proxyHashes[(operator, toChainId)] else []
  }

  function GetAssetHashOf(st: LpState, lockProxyHash: Bytes, denom: Bytes, toChainId: uint64): Bytes
  {
    if (lockProxyHash, denom, toChainId) in st.assetHashes then st.assetHashes[(lockProxyHash, denom, toChainId)] else []
  }

  /** An absent locked amount reads as 0. */
  function GetLockedAmountOf(st: LpState, denom: Bytes): int
  {
    if denom in st.locked then st.locked[denom] else 0
  }

  function BindProxyHashOf(st: LpState, operator: Bytes, toChainId: uint64, toProxyHash: Bytes): Result<LpState, Error>
  {
    if !EnsureLockProxyExistOf(st, operator) then Err(LockProxyMissing(operator))
    else Ok(st.(proxyHashes := st.proxyHashes[(operator, toChainId) := toProxyHash]))
  }

  /** Binding needs the operator's own proxy, overwrites any earlier binding, and is what GetProxyHash then returns. */
  lemma BindProxyHashSpec(st: LpState, operator: Bytes, toChainId: uint64, toProxyHash: Bytes)
    ensures BindProxyHashOf(st, operator, toChainId, toProxyHash).Err? <==> !EnsureLockProxyExistOf(st, operator)
    ensures BindProxyHashOf(st, operator, toChainId, toProxyHash).Ok? ==>
      var st' := BindProxyHashOf(st, operator, toChainId, toProxyHash).value;
      GetProxyHashOf(st', operator, toChainId) == toProxyHash
      && ContainToContractAddrOf(st', operator, toChainId)
      && (forall o: Bytes, c: uint64 :: (o, c) != (operator, toChainId) ==> GetProxyHashOf(st', o, c) == GetProxyHashOf(st, o, c))
      && st'.operators == st.operators && st'.assetHashes == st.assetHashes && st'.locked == st.locked
  {
  }

  /** lockproxy's own ExistDenom: the denom has a non-zero total supply. */
  function ExistDenomOf(host: Host, denom: Bytes): bool
  {
    host.totalSupply(denom) != 0
  }

  function BindAssetHashOf(host: Host, st: LpState, operator: Bytes, denom: Bytes, toChainId: uint64,
                           toAssetHash: Bytes, initialAmt: int): Result<LpState, Error>
  {
    if !EnsureLockProxyExistOf(st, operator) then Err(LockProxyMissing(operator))
    else if !ExistDenomOf(host, denom) then Err(DenomNotExist(denom))
    else if host.moduleBalance(denom) != initialAmt then Err(InitialAmtMismatch(host.moduleBalance(denom), initialAmt))
    else Ok(st.(assetHashes := st.assetHashes[(operator, denom, toChainId) := toAssetHash],
                locked := st.locked[denom := initialAmt]))
  }

  /**
   * Binding an asset needs the operator's proxy, a denom with non-zero
   * supply and an initial amount equal to the module's balance of it; the
   * locked amount of the denom, shared by every proxy, is then reset to it.
   */
  lemma BindAssetHashSpec(host: Host, st: LpState, operator: Bytes, denom: Bytes, toChainId: uint64,
                          toAssetHash: Bytes, initialAmt: int)
    ensures BindAssetHashOf(host, st, operator, denom, toChainId, toAssetHash, initialAmt).Ok?
            <==> EnsureLockProxyExistOf(st, operator) && host.totalSupply(denom) != 0 && host.moduleBalance(denom) == initialAmt
    ensures BindAssetHashOf(host, st, operator, denom, toChainId, toAssetHash, initialAmt).Ok? ==>
      var st' := BindAssetHashOf(host, st, operator, denom, toChainId, toAssetHash, initialAmt).value;
      GetAssetHashOf(st', operator, denom, toChainId) == toAssetHash
      && GetLockedAmountOf(st', denom) == initialAmt
      && (forall d :: d != denom ==> GetLockedAmountOf(st', d) == GetLockedAmountOf(st, d))
      && st'.operators == st.operators && st'.proxyHashes == st.proxyHashes
      && (initialAmt >= 0 && LockedNonNegative(st) ==> LockedNonNegative(st'))
  {
  }

  function LockOf(env: PadCodec, host: Host, ccmEnv: Ccm.CcmEnv, st: LpState, cst: Ccm.CcmState, txBytes: Bytes,
                  lockProxyHash: Bytes, fromAddress: Bytes, denom: Bytes, toChainId: uint64, toAddressBs: Bytes, value: int)
    : Result<(LpState, Ccm.CcmState), Error>
  {
    if !NewCoinOk(host, denom, value) then Err(InvalidCoin(denom, value))
    else if !host.sendToModule(fromAddress, Coin(denom, value)) then Err(SendToModuleFailed)
    else
      var args := TxArgs(GetAssetHashOf(st, lockProxyHash, denom, toChainId), toAddressBs, value);
      match TxArgsBytes(env, args, IntLen)
      case None => Err(ArgsSerialization)
      case Some(argsBs) => DispatchOf(ccmEnv, st, cst, txBytes, lockProxyHash, fromAddress, denom, toChainId, value, argsBs)
  }

  /** The second half of Lock, once the arguments are encoded: the cross-chain request and the locked amount. */
  function DispatchOf(ccmEnv: Ccm.CcmEnv, st: LpState, cst: Ccm.CcmState, txBytes: Bytes, lockProxyHash: Bytes,
                      fromAddress: Bytes, denom: Bytes, toChainId: uint64, value: int, argsBs: Bytes)
    : Result<(LpState, Ccm.CcmState), Error>
  {
    if (lockProxyHash, toChainId) !in st.proxyHashes then Err(ProxyHashEmpty(toChainId))
    else
      var cst' := Ccm.CreateCrossChainTxOf(ccmEnv, cst, txBytes, toChainId, lockProxyHash,
                                           st.proxyHashes[(lockProxyHash, toChainId)], UnlockMethod, argsBs);
      if value < 0 then Err(NegativeAmount)
      else Ok((st.(locked := st.locked[denom := GetLockedAmountOf(st, denom) + value]), cst'))
  }

  /**
   * A successful lock needs a proxy hash bound for the target chain; the
   * locked amount of the denom rises by exactly the value, and the envelope
   * carries the bound asset hash (possibly none), the target address and
   * the value. The coins are taken before the proxy hash is looked up.
   */
  lemma LockSpec(env: PadCodec, host: Host, ccmEnv: Ccm.CcmEnv, st: LpState, cst: Ccm.CcmState, txBytes: Bytes,
                 lockProxyHash: Bytes, fromAddress: Bytes, denom: Bytes, toChainId: uint64, toAddressBs: Bytes, value: int)
    requires LockedNonNegative(st)
    requires LockOf(env, host, ccmEnv, st, cst, txBytes, lockProxyHash, fromAddress, denom, toChainId, toAddressBs, value).Ok?
    ensures var (st', cst') := LockOf(env, host, ccmEnv, st, cst, txBytes, lockProxyHash, fromAddress, denom, toChainId, toAddressBs, value).value;
      var args := TxArgs(GetAssetHashOf(st, lockProxyHash, denom, toChainId), toAddressBs, value);
      ContainToContractAddrOf(st, lockProxyHash, toChainId) && value >= 0
      && GetLockedAmountOf(st', denom) == GetLockedAmountOf(st, denom) + value
      && (forall d :: d != denom ==> GetLockedAmountOf(st', d) == GetLockedAmountOf(st, d))
      && TxArgsBytes(env, args, IntLen).Some?
      && cst' == Ccm.CreateCrossChainTxOf(ccmEnv, cst, txBytes, toChainId, lockProxyHash,
                                          GetProxyHashOf(st, lockProxyHash, toChainId), UnlockMethod,
                                          TxArgsBytes(env, args, IntLen).value)
      && st'.operators == st.operators && st'.proxyHashes == st.proxyHashes && st'.assetHashes == st.assetHashes
      && LockedNonNegative(st')
  {
  }

  /** Without a proxy hash bound for the target chain a lock fails, even after the coins were sent. */
  lemma LockNeedsProxyHash(env: PadCodec, host: Host, ccmEnv: Ccm.CcmEnv, st: LpState, cst: Ccm.CcmState, txBytes: Bytes,
                           lockProxyHash: Bytes, fromAddress: Bytes, denom: Bytes, toChainId: uint64, toAddressBs: Bytes, value: int)
    requires !ContainToContractAddrOf(st, lockProxyHash, toChainId)
    ensures LockOf(env, host, ccmEnv, st, cst, txBytes, lockProxyHash, fromAddress, denom, toChainId, toAddressBs, value).Err?
  {
  }

  function UnlockOf(env: PadCodec, host: Host, st: LpState, fromChainId: uint64, fromContractAddr: Bytes,
                    toContractAddr: Bytes, argsBs: Bytes): Result<LpState, Error>
  {
    var fromProxyHash := GetProxyHashOf(st, toContractAddr, fromChainId);
    if |fromProxyHash| == 0 then Err(ProxyHashEmpty(fromChainId))
    else if fromProxyHash != fromContractAddr then Err(ProxyHashMismatch(fromProxyHash, fromContractAddr))
    else
      match DecodeTxArgs(env, argsBs, IntLen)
      case None => Err(ArgsDeserialization)
      case Some((args, _)) =>
        var denom := args.toAssetHash;
        if |GetAssetHashOf(st, toContractAddr, denom, fromChainId)| == 0 then Err(AssetNotBound(denom))
        else if !NewCoinOk(host, denom, args.amount) then Err(InvalidCoin(denom, args.amount))
        else if !host.accountExists(args.toAddress) then Err(AccountNotExist(args.toAddress))
        else if !host.sendFromModule(args.toAddress, Coin(denom, args.amount)) then Err(SendFromModuleFailed)
        else if GetLockedAmountOf(st, denom) - args.amount < 0 then Err(NegativeLockedAmount(GetLockedAmountOf(st, denom), args.amount))
        else Ok(st.(locked := st.locked[denom := GetLockedAmountOf(st, denom) - args.amount]))
  }

  /**
   * A successful unlock needs a non-empty proxy hash bound for the source
   * chain that equals the sending contract, and the asset bound under the
   * receiving proxy; the locked amount falls by exactly the amount and
   * stays non-negative.
   */
  lemma UnlockSpec(env: PadCodec, host: Host, st: LpState, fromChainId: uint64, fromContractAddr: Bytes,
                   toContractAddr: Bytes, argsBs: Bytes)
    requires LockedNonNegative(st)
    requires UnlockOf(env, host, st, fromChainId, fromContractAddr, toContractAddr, argsBs).Ok?
    ensures var args := DecodeTxArgs(env, argsBs, IntLen).value.0;
      var st' := UnlockOf(env, host, st, fromChainId, fromContractAddr, toContractAddr, argsBs).value;
      GetProxyHashOf(st, toContractAddr, fromChainId) == fromContractAddr != []
      && GetAssetHashOf(st, toContractAddr, args.toAssetHash, fromChainId) != []
      && GetLockedAmountOf(st', args.toAssetHash) == GetLockedAmountOf(st, args.toAssetHash) - args.amount >= 0
      && (forall d :: d != args.toAssetHash ==> GetLockedAmountOf(st', d) == GetLockedAmountOf(st, d))
      && LockedNonNegative(st')
  {
  }

  /** What one chain locked, the other can unlock: an unlock of a lock's own arguments returns its value. */
  lemma UnlockOfLockArgs(env: PadCodec, host: Host, st: LpState, fromChainId: uint64, fromContractAddr: Bytes,
                         toContractAddr: Bytes, args: TxArgs)
    requires PadInverts(env)
    requires |args.toAssetHash| <= MAX_UINT64 && |args.toAddress| <= MAX_UINT64
    requires TxArgsBytes(env, args, IntLen).Some?
    requires UnlockOf(env, host, st, fromChainId, fromContractAddr, toContractAddr, TxArgsBytes(env, args, IntLen).value).Ok?
    ensures var st' := UnlockOf(env, host, st, fromChainId, fromContractAddr, toContractAddr, TxArgsBytes(env, args, IntLen).value).value;
      GetLockedAmountOf(st', args.toAssetHash) == GetLockedAmountOf(st, args.toAssetHash) - args.amount
  {
    TxArgsRoundTrip(env, args, IntLen, []);
    AppendNothing(TxArgsBytes(env, args, IntLen).value);
  }

  class Keeper {
    const pc: PadCodec
    const ccm: Ccm.Keeper
    var operators: map<Bytes, Bytes>
    var proxyHashes: map<(Bytes, uint64), Bytes>
    var assetHashes: map<(Bytes, Bytes, uint64), Bytes>
    var locked: map<Bytes, int>

    constructor (pc: PadCodec, ccm: Ccm.Keeper)
      ensures this.pc == pc && this.ccm == ccm && State() == LpState(map[], map[], map[], map[])
    {
      this.pc := pc;
      this.ccm := ccm;
      operators := map[];
      proxyHashes := map[];
      assetHashes := map[];
      locked := map[];
    }

    function State(): LpState
      reads this
    {
      LpState(operators, proxyHashes, assetHashes, locked)
    }

    method ContainToContractAddr(toContractAddr: Bytes, fromChainId: uint64) returns (b: bool)
      ensures b == ContainToContractAddrOf(State(), toContractAddr, fromChainId)
    {
      return (toContractAddr, fromChainId) in proxyHashes;
    }

    method EnsureLockProxyExist(creator: Bytes) returns (b: bool)
      ensures b == EnsureLockProxyExistOf(State(), creator)
    {
      var stored := if creator in operators then operators[creator] else [];
      return stored == creator;
    }

    method GetLockProxyByOperator(operator: Bytes) returns (proxy: Bytes)
      ensures proxy == GetLockProxyByOperatorOf(State(), operator)
    {
      var proxyBytes := if operator in operators then operators[operator] else [];
      if |proxyBytes| == 0 || operator != proxyBytes {
        return [];
      }
      return proxyBytes;
    }

    method CreateLockProxy(creator: Bytes) returns (r: Outcome<Error>)
      modifies this
      ensures Reflects(r, CreateLockProxyOf(old(State()), creator), State())
    {
      var exists_ := EnsureLockProxyExist(creator);
      if exists_ {
        return Fail(LockProxyExists(creator));
      }
      operators := operators[creator := creator];
      return Pass;
    }

    method BindProxyHash(operator: Bytes, toChainId: uint64, toProxyHash: Bytes) returns (r: Outcome<Error>)
      modifies this
      ensures Reflects(r, BindProxyHashOf(old(State()), operator, toChainId, toProxyHash), State())
    {
      var exists_ := EnsureLockProxyExist(operator);
      if !exists_ {
        return Fail(LockProxyMissing(operator));
      }
      proxyHashes := proxyHashes[(operator, toChainId) := toProxyHash];
      return Pass;
    }

    method GetProxyHash(operator: Bytes, toChainId: uint64) returns (h: Bytes)
      ensures h == GetProxyHashOf(State(), operator, toChainId)
    {
      h := [];
      if (operator, toChainId) in proxyHashes {
        h := proxyHashes[(operator, toChainId)];
      }
    }

    method BindAssetHash(host: Host, operator: Bytes, denom: Bytes, toChainId: uint64, toAssetHash: Bytes, initialAmt: int)
      returns (r: Outcome<Error>)
      modifies this
      ensures Reflects(r, BindAssetHashOf(host, old(State()), operator, denom, toChainId, toAssetHash, initialAmt), State())
    {
      var exists_ := EnsureLockProxyExist(operator);
      if !exists_ {
        return Fail(LockProxyMissing(operator));
      }
      if host.totalSupply(denom) == 0 {
        return Fail(DenomNotExist(denom));
      }
      if host.moduleBalance(denom) != initialAmt {
        return Fail(InitialAmtMismatch(host.moduleBalance(denom), initialAmt));
      }
      assetHashes := assetHashes[(operator, denom, toChainId) := toAssetHash];
      locked := locked[denom := initialAmt];
      return Pass;
    }

    method GetAssetHash(lockProxyHash: Bytes, denom: Bytes, toChainId: uint64) returns (h: Bytes)
      ensures h == GetAssetHashOf(State(), lockProxyHash, denom, toChainId)
    {
      h := [];
      if (lockProxyHash, denom, toChainId) in assetHashes {
        h := assetHashes[(lockProxyHash, denom, toChainId)];
      }
    }

    method GetLockedAmount(denom: Bytes) returns (amount: int)
      ensures amount == GetLockedAmountOf(State(), denom)
    {
      amount := 0;
      if denom in locked {
        amount := locked[denom];
      }
    }

    method SetLockedAmount(denom: Bytes, lockedAmt: int)
      modifies this
      ensures State() == old(State()).(locked := old(locked)[denom := lockedAmt])
    {
      locked := locked[denom := lockedAmt];
    }

    /** TxArgs.Serialization into a fresh sink; its bytes, or nothing when padding fails. */
    method SerializeArgs(args: TxArgs) returns (bs: Option<Bytes>)
      ensures bs == TxArgsBytes(pc, args, IntLen)
    {
      var sink := new Sink();
      var ok := SerializeTxArgs(pc, args, sink, IntLen);
      if ok.Fail? {
        return None;
      }
      ghost var encoded := TxArgsBytes(pc, args, IntLen).value;
      assert [] + encoded == encoded;
      return Some(sink.buf);
    }

    method Lock(host: Host, txBytes: Bytes, lockProxyHash: Bytes, fromAddress: Bytes, denom: Bytes, toChainId: uint64,
                toAddressBs: Bytes, value: int) returns (r: Outcome<Error>)
      modifies this, ccm
      ensures Reflects(r, LockOf(pc, host, ccm.env, old(State()), old(ccm.State()), txBytes, lockProxyHash, fromAddress,
                                 denom, toChainId, toAddressBs, value), (State(), ccm.State()))
    {
      if !NewCoinOk(host, denom, value) {
        return Fail(InvalidCoin(denom, value));
      }
      if !host.sendToModule(fromAddress, Coin(denom, value)) {
        return Fail(SendToModuleFailed);
      }
      var toChainAssetHash := GetAssetHash(lockProxyHash, denom, toChainId);
      var argsBs := SerializeArgs(TxArgs(toChainAssetHash, toAddressBs, value));
      if argsBs.None? {
        return Fail(ArgsSerialization);
      }
      r := Dispatch(txBytes, lockProxyHash, fromAddress, denom, toChainId, value, argsBs.value);
    }

    /** Lock after its arguments are encoded: the proxy hash lookup, the cross-chain request, the new locked amount. */
    method Dispatch(txBytes: Bytes, lockProxyHash: Bytes, fromAddress: Bytes, denom: Bytes, toChainId: uint64,
                    value: int, argsBs: Bytes) returns (r: Outcome<Error>)
      modifies this, ccm
      ensures Reflects(r, DispatchOf(ccm.env, old(State()), old(ccm.State()), txBytes, lockProxyHash, fromAddress,
                                     denom, toChainId, value, argsBs), (State(), ccm.State()))
    {
      if (lockProxyHash, toChainId) !in proxyHashes {
        return Fail(ProxyHashEmpty(toChainId));
      }
      var toChainProxyHash := proxyHashes[(lockProxyHash, toChainId)];
      ccm.CreateCrossChainTx(txBytes, fromAddress, toChainId, lockProxyHash, toChainProxyHash, UnlockMethod, argsBs);
      if value < 0 {
        return Fail(NegativeAmount);
      }
      var current := GetLockedAmount(denom);
      SetLockedAmount(denom, current + value);
      return Pass;
    }

    method Unlock(host: Host, fromChainId: uint64, fromContractAddr: Bytes, toContractAddr: Bytes, argsBs: Bytes)
      returns (r: Outcome<Error>)
      modifies this
      ensures Reflects(r, UnlockOf(pc, host, old(State()), fromChainId, fromContractAddr, toContractAddr, argsBs), State())
    {
      var fromProxyHash := GetProxyHash(toContractAddr, fromChainId);
      if |fromProxyHash| == 0 {
        return Fail(ProxyHashEmpty(fromChainId));
      }
      if fromProxyHash != fromContractAddr {
        return Fail(ProxyHashMismatch(fromProxyHash, fromContractAddr));
      }
      var source := new Source(argsBs);
      var args := DeserializeTxArgs(pc, source, IntLen);
      if args.None? {
        return Fail(ArgsDeserialization);
      }
      var toAssetDenom := args.value.toAssetHash;
      var amount := args.value.amount;
      var bound := GetAssetHash(toContractAddr, toAssetDenom, fromChainId);
      if |bound| == 0 {
        return Fail(AssetNotBound(toAssetDenom));
      }
      if !NewCoinOk(host, toAssetDenom, amount) {
        return Fail(InvalidCoin(toAssetDenom, amount));
      }
      if !host.accountExists(args.value.toAddress) {
        return Fail(AccountNotExist(args.value.toAddress));
      }
      if !host.sendFromModule(args.value.toAddress, Coin(toAssetDenom, amount)) {
        return Fail(SendFromModuleFailed);
      }
      var stored := GetLockedAmount(toAssetDenom);
      var newCrossedAmt := stored - amount;
      if newCrossedAmt < 0 {
        return Fail(NegativeLockedAmount(stored, amount));
      }
      SetLockedAmount(toAssetDenom, newCrossedAmt);
      return Pass;
    }
  }
}
