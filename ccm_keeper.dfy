/**
 * The cross-chain manager. Outbound, it numbers and stores cross-chain
 * envelopes; inbound, it has the header-sync keeper admit the poly header,
 * proves the envelope under the header's cross-state root, marks it done so
 * it cannot be replayed, and routes it to the one unlock keeper that claims
 * its target contract.
 *
 * The envelope codec, the transaction hash and tmhash are collaborators; the
 * header codec and the Merkle proof are the header-sync ones. The unlock
 * keepers are named in the mounted map; what each one claims and whether its
 * Unlock succeeds are supplied per call.
 */
module CcmKeeper {
  import opened Wrappers
  import opened Codec
  import opened CcmParams
  import Hs = HeaderSyncKeeper

  datatype MakeTxParam = MakeTxParam(
    txHash: Bytes,
    crossChainId: Bytes,
    fromContractAddress: Bytes,
    toChainId: uint64,
    toContractAddress: Bytes,
    methodName: Bytes,
    args: Bytes)

  datatype ToMerkleValue = ToMerkleValue(txHash: Bytes, fromChainId: uint64, makeTxParam: MakeTxParam)

  datatype CcmEnv = CcmEnv(
    txHash: Bytes -> Bytes,
    tmhash: Bytes -> Bytes,
    serializeTxParam: MakeTxParam -> Bytes,
    decodeMerkleValue: Bytes -> Option<ToMerkleValue>)

  /** The mounted unlock keepers' ContainToContractAddr and Unlock, by keeper name. */
  datatype UnlockKeepers = UnlockKeepers(
    claims: (Bytes, Bytes, uint64) -> bool,
    unlock: (Bytes, uint64, Bytes, Bytes, Bytes) -> bool)

  datatype Error =
    | HeaderHexDecode
    | HeaderDeserialize
    | ProcessHeader(cause: Hs.Error)
    | ProofHexDecode
    | MerkleProveFail
    | DeserializeMerkleValue
    | TxAlreadyDone(fromChainId: uint64, crossChainId: Bytes)
    | WrongToChainId(expected: uint64, got: uint64)
    | UnlockFailed(name: Bytes)
    | NoUnlockKeeper(toContractAddress: Bytes, fromChainId: uint64)

  /** The module's store: the id counter, envelopes by hash, done markers, denom creators. */
  datatype CcmState = CcmState(
    counter: Option<nat>,
    crossChainTxs: map<Bytes, Bytes>,
    doneTxs: map<(uint64, Bytes), Bytes>,
    denomCreators: map<Bytes, Bytes>)

  // ---------------------------------------------------------------- outbound

  /** An absent counter reads as 0. */
  function CrossChainIdOf(st: CcmState): nat
  {
    if st.counter.None? then 0 else st.counter.value
  }

  /** The envelope of the next outbound transaction: it carries the counter before the increment. */
  function TxParamOf(env: CcmEnv, st: CcmState, txBytes: Bytes, toChainId: uint64,
                     fromContractHash: Bytes, toContractHash: Bytes, methodName: Bytes, args: Bytes): MakeTxParam
  {
    MakeTxParam(env.txHash(txBytes), BigEndian(CrossChainIdOf(st)), fromContractHash, toChainId, toContractHash, methodName, args)
  }

  function CreateCrossChainTxOf(env: CcmEnv, st: CcmState, txBytes: Bytes, toChainId: uint64,
                                fromContractHash: Bytes, toContractHash: Bytes, methodName: Bytes, args: Bytes): CcmState
  {
    var bs := env.serializeTxParam(TxParamOf(env, st, txBytes, toChainId, fromContractHash, toContractHash, methodName, args));
    st.(counter := Some(CrossChainIdOf(st) + 1), crossChainTxs := st.crossChainTxs[env.tmhash(bs) := bs])
  }

  /**
   * Each outbound transaction raises the counter by one and stores its
   * serialized envelope under the hash of those bytes; nothing else changes.
   */
  lemma CreateCrossChainTxSpec(env: CcmEnv, st: CcmState, txBytes: Bytes, toChainId: uint64,
                               fromContractHash: Bytes, toContractHash: Bytes, methodName: Bytes, args: Bytes)
    ensures var st' := CreateCrossChainTxOf(env, st, txBytes, toChainId, fromContractHash, toContractHash, methodName, args);
      var p := TxParamOf(env, st, txBytes, toChainId, fromContractHash, toContractHash, methodName, args);
      CrossChainIdOf(st') == CrossChainIdOf(st) + 1
      && FromBigEndian(p.crossChainId) == CrossChainIdOf(st)
      && env.tmhash(env.serializeTxParam(p)) in st'.crossChainTxs
      && st'.crossChainTxs[env.tmhash(env.serializeTxParam(p))] == env.serializeTxParam(p)
      && st'.doneTxs == st.doneTxs && st'.denomCreators == st.denomCreators
  {
    BigEndianRoundTrip(CrossChainIdOf(st));
  }

  /** Two successive outbound transactions carry different cross-chain ids. */
  lemma SuccessiveIdsDiffer(env: CcmEnv, st: CcmState, txBytes: Bytes, toChainId: uint64,
                            fromContractHash: Bytes, toContractHash: Bytes, methodName: Bytes, args: Bytes,
                            txBytes2: Bytes, toChainId2: uint64,
                            fromContractHash2: Bytes, toContractHash2: Bytes, methodName2: Bytes, args2: Bytes)
    ensures var st' := CreateCrossChainTxOf(env, st, txBytes, toChainId, fromContractHash, toContractHash, methodName, args);
      TxParamOf(env, st, txBytes, toChainId, fromContractHash, toContractHash, methodName, args).crossChainId
      != TxParamOf(env, st', txBytes2, toChainId2, fromContractHash2, toContractHash2, methodName2, args2).crossChainId
  {
    var st' := CreateCrossChainTxOf(env, st, txBytes, toChainId, fromContractHash, toContractHash, methodName, args);
    if BigEndian(CrossChainIdOf(st)) == BigEndian(CrossChainIdOf(st')) {
      BigEndianInjective(CrossChainIdOf(st), CrossChainIdOf(st'));
    }
  }

  // ---------------------------------------------------------------- denom creators

  /** The recorded creator of a denom; an absent entry reads as the empty address. */
  function GetDenomCreatorOf(st: CcmState, denom: Bytes): (r: Bytes)
    ensures denom in st.denomCreators ==> r == st.denomCreators[denom]
    ensures denom !in st.denomCreators ==> r == []
  {
    if denom in st.denomCreators then st.denomCreators[denom] else []
  }

  function SetDenomCreatorOf(st: CcmState, denom: Bytes, creator: Bytes): (r: CcmState)
    ensures GetDenomCreatorOf(r, denom) == creator
    ensures forall d :: d != denom ==> GetDenomCreatorOf(r, d) == GetDenomCreatorOf(st, d)
    ensures r.counter == st.counter && r.crossChainTxs == st.crossChainTxs && r.doneTxs == st.doneTxs
  {
    st.(denomCreators := st.denomCreators[denom := creator])
  }

  /** A denom exists when it has a non-empty recorded creator or a non-zero total supply. */
  function ExistDenomOf(st: CcmState, supplyOf: Bytes -> int, denom: Bytes): (r: bool)
    ensures r <==> (denom in st.denomCreators && st.denomCreators[denom] != []) || supplyOf(denom) != 0
  {
    |GetDenomCreatorOf(st, denom)| != 0 || supplyOf(denom) != 0
  }

  /** Recording a non-empty creator makes the denom exist, whatever its supply. */
  lemma SetCreatorMakesDenomExist(st: CcmState, supplyOf: Bytes -> int, denom: Bytes, creator: Bytes)
    requires creator != []
    ensures ExistDenomOf(SetDenomCreatorOf(st, denom, creator), supplyOf, denom)
  {
  }

  // ---------------------------------------------------------------- inbound

  /** A header given in hex that does not decode counts as absent. */
  function OptionalHeader(hsEnv: Hs.Env, hex: Bytes): (r: Option<Hs.Header>)
    ensures r.None? <==> HexDecode(hex).None? || hsEnv.decodeHeader(HexDecode(hex).value).None?
    ensures r.Some? ==> r == hsEnv.decodeHeader(HexDecode(hex).value)
  {
    match HexDecode(hex)
    case None => None
    case Some(bs) => hsEnv.decodeHeader(bs)
  }

  function DoneKey(mv: ToMerkleValue): (uint64, Bytes)
  {
    (mv.fromChainId, mv.makeTxParam.crossChainId)
  }

  function VerifyToCosmosTxOf(hsEnv: Hs.Env, env: CcmEnv, st: CcmState, proof: Bytes, header: Hs.Header): Result<(CcmState, ToMerkleValue), Error>
  {
    match hsEnv.merkleProve(proof, header.crossStateRoot)
    case None => Err(MerkleProveFail)
    case Some(value) =>
      match env.decodeMerkleValue(value)
      case None => Err(DeserializeMerkleValue)
      case Some(mv) =>
        if DoneKey(mv) in st.doneTxs then Err(TxAlreadyDone(mv.fromChainId, mv.makeTxParam.crossChainId))
        else Ok((st.(doneTxs := st.doneTxs[DoneKey(mv) := mv.makeTxParam.crossChainId]), mv))
  }

  /**
   * Everything ProcessCrossChainTx does before routing: decode the header
   * (an undecodable anchor or header proof is treated as absent), process it,
   * prove and mark the envelope, and check it is addressed to this chain.
   */
  ghost function AdmitOf(hsEnv: Hs.Env, env: CcmEnv, st: CcmState, hst: Hs.HsState, chainIdInPolyNet: uint64,
                         proofHex: Bytes, headerHex: Bytes, headerProofHex: Bytes, curHeaderHex: Bytes)
    : Result<(CcmState, Hs.HsState, ToMerkleValue), Error>
  {
    match HexDecode(headerHex)
    case None => Err(HeaderHexDecode)
    case Some(headerBs) =>
      match hsEnv.decodeHeader(headerBs)
      case None => Err(HeaderDeserialize)
      case Some(header) =>
        match Hs.ProcessHeaderOf(hsEnv, hst, header, HexDecode(headerProofHex), OptionalHeader(hsEnv, curHeaderHex))
        case Err(e) => Err(ProcessHeader(e))
        case Ok(hst') =>
          match HexDecode(proofHex)
          case None => Err(ProofHexDecode)
          case Some(proof) =>
            match VerifyToCosmosTxOf(hsEnv, env, st, proof, header)
            case Err(e) => Err(e)
            case Ok((st', mv)) =>
              if mv.makeTxParam.toChainId != chainIdInPolyNet then Err(WrongToChainId(chainIdInPolyNet, mv.makeTxParam.toChainId))
              else Ok((st', hst', mv))
  }

  /**
   * An admitted envelope was addressed to this chain and not yet done, and
   * exactly its marker is added; the rest of the module's store is unchanged.
   */
  lemma AdmitMarksOnce(hsEnv: Hs.Env, env: CcmEnv, st: CcmState, hst: Hs.HsState, chainIdInPolyNet: uint64,
                       proofHex: Bytes, headerHex: Bytes, headerProofHex: Bytes, curHeaderHex: Bytes)
    requires AdmitOf(hsEnv, env, st, hst, chainIdInPolyNet, proofHex, headerHex, headerProofHex, curHeaderHex).Ok?
    ensures var (st', hst', mv) := AdmitOf(hsEnv, env, st, hst, chainIdInPolyNet, proofHex, headerHex, headerProofHex, curHeaderHex).value;
      DoneKey(mv) !in st.doneTxs
      && st'.doneTxs == st.doneTxs[DoneKey(mv) := mv.makeTxParam.crossChainId]
      && mv.makeTxParam.toChainId == chainIdInPolyNet
      && st'.counter == st.counter && st'.crossChainTxs == st.crossChainTxs && st'.denomCreators == st.denomCreators
  {
  }

  /**
   * Replay guard: once an envelope is admitted, no later admission, from any
   * state that still holds the markers, can carry the same (from-chain id,
   * cross-chain id) pair.
   */
  lemma ReplayRejected(hsEnv: Hs.Env, env: CcmEnv, st: CcmState, hst: Hs.HsState, chainIdInPolyNet: uint64,
                       proofHex: Bytes, headerHex: Bytes, headerProofHex: Bytes, curHeaderHex: Bytes,
                       st2: CcmState, hst2: Hs.HsState, chainId2: uint64,
                       proofHex2: Bytes, headerHex2: Bytes, headerProofHex2: Bytes, curHeaderHex2: Bytes)
    requires AdmitOf(hsEnv, env, st, hst, chainIdInPolyNet, proofHex, headerHex, headerProofHex, curHeaderHex).Ok?
    requires AdmitOf(hsEnv, env, st, hst, chainIdInPolyNet, proofHex, headerHex, headerProofHex, curHeaderHex).value.0.doneTxs.Keys
             <= st2.doneTxs.Keys
    requires AdmitOf(hsEnv, env, st2, hst2, chainId2, proofHex2, headerHex2, headerProofHex2, curHeaderHex2).Ok?
    ensures DoneKey(AdmitOf(hsEnv, env, st2, hst2, chainId2, proofHex2, headerHex2, headerProofHex2, curHeaderHex2).value.2)
         != DoneKey(AdmitOf(hsEnv, env, st, hst, chainIdInPolyNet, proofHex, headerHex, headerProofHex, curHeaderHex).value.2)
  {
    AdmitMarksOnce(hsEnv, env, st, hst, chainIdInPolyNet, proofHex, headerHex, headerProofHex, curHeaderHex);
    AdmitMarksOnce(hsEnv, env, st2, hst2, chainId2, proofHex2, headerHex2, headerProofHex2, curHeaderHex2);
  }

  /** A header the light client refuses stops the call before any proof is checked or marker written. */
  lemma HeaderRefusalAborts(hsEnv: Hs.Env, env: CcmEnv, st: CcmState, hst: Hs.HsState, chainIdInPolyNet: uint64,
                            proofHex: Bytes, headerHex: Bytes, headerProofHex: Bytes, curHeaderHex: Bytes, header: Hs.Header)
    requires HexDecode(headerHex).Some? && hsEnv.decodeHeader(HexDecode(headerHex).value) == Some(header)
    requires Hs.ProcessHeaderOf(hsEnv, hst, header, HexDecode(headerProofHex), OptionalHeader(hsEnv, curHeaderHex)).Err?
    ensures AdmitOf(hsEnv, env, st, hst, chainIdInPolyNet, proofHex, headerHex, headerProofHex, curHeaderHex)
         == Err(ProcessHeader(Hs.ProcessHeaderOf(hsEnv, hst, header, HexDecode(headerProofHex), OptionalHeader(hsEnv, curHeaderHex)).error))
  {
  }

  /** The mounted keepers that claim the envelope's target contract for its source chain. */
  function Claimants(names: set<Bytes>, uk: UnlockKeepers, mv: ToMerkleValue): set<Bytes>
  {
    set n | n in names && uk.claims(n, mv.makeTxParam.toContractAddress, mv.fromChainId)
  }

  /**
   * Routing: a success names a claimant whose Unlock succeeded; a failure is
   * either the Unlock failure of a claimant or, when nobody claims the
   * target, the no-keeper error, which reports the caller's from-chain id.
   */
  predicate Routed(r: Result<Bytes, Error>, names: set<Bytes>, uk: UnlockKeepers, fromChainId: uint64, mv: ToMerkleValue)
  {
    var p := mv.makeTxParam;
    match r
    case Ok(n) => n in Claimants(names, uk, mv) && uk.unlock(n, mv.fromChainId, p.fromContractAddress, p.toContractAddress, p.args)
    case Err(e) =>
      if Claimants(names, uk, mv) == {} then e == NoUnlockKeeper(p.toContractAddress, fromChainId)
      else e.UnlockFailed? && e.name in Claimants(names, uk, mv)
           && !uk.unlock(e.name, mv.fromChainId, p.fromContractAddress, p.toContractAddress, p.args)
  }

  // ---------------------------------------------------------------- the keeper

  class Keeper {
    const env: CcmEnv
    const hsKeeper: Hs.Keeper
    var params: Params
    var ulKeeperMap: set<Bytes>
    var counter: Option<nat>
    var crossChainTxs: map<Bytes, Bytes>
    var doneTxs: map<(uint64, Bytes), Bytes>
    var denomCreators: map<Bytes, Bytes>

    constructor (env: CcmEnv, hsKeeper: Hs.Keeper, params: Params)
      ensures this.env == env && this.hsKeeper == hsKeeper && this.params == params
      ensures ulKeeperMap == {} && State() == CcmState(None, map[], map[], map[])
    {
      this.env := env;
      this.hsKeeper := hsKeeper;
      this.params := params;
      ulKeeperMap := {};
      counter := None;
      crossChainTxs := map[];
      doneTxs := map[];
      denomCreators := map[];
    }

    function State(): CcmState
      reads this
    {
      CcmState(counter, crossChainTxs, doneTxs, denomCreators)
    }

    /** Copies the given keeper names, replacing any mounted before. */
    method MountUnlockKeeperMap(names: set<Bytes>)
      modifies this
      ensures ulKeeperMap == names && State() == old(State()) && params == old(params)
    {
      ulKeeperMap := {};
      var rest := names;
      while rest != {}
        invariant rest <= names && ulKeeperMap == names - rest
        invariant State() == old(State()) && params == old(params)
        decreases |rest|
      {
        var key :| key in rest;
        ulKeeperMap := ulKeeperMap + {key};
        rest := rest - {key};
      }
    }

    /** ContainToContractAddr of the named keeper; None when no keeper of that name is mounted. */
    method IfContainToContract(uk: UnlockKeepers, keystore: Bytes, toContractAddr: Bytes, fromChainId: uint64) returns (r: Option<bool>)
      ensures keystore !in ulKeeperMap ==> r.None?
      ensures keystore in ulKeeperMap ==> r == Some(uk.claims(keystore, toContractAddr, fromChainId))
    {
      if keystore !in ulKeeperMap {
        return None;
      }
      return Some(uk.claims(keystore, toContractAddr, fromChainId));
    }

    method SetDenomCreator(denom: Bytes, creator: Bytes)
      modifies this
      ensures State() == SetDenomCreatorOf(old(State()), denom, creator)
      ensures params == old(params) && ulKeeperMap == old(ulKeeperMap)
    {
      denomCreators := denomCreators[denom := creator];
    }

    /** The recorded creator; an absent entry reads as the empty address. */
    method GetDenomCreator(denom: Bytes) returns (creator: Bytes)
      ensures creator == GetDenomCreatorOf(State(), denom)
    {
      if denom in denomCreators {
        return denomCreators[denom];
      }
      return [];
    }

    method ExistDenom(supplyOf: Bytes -> int, denom: Bytes) returns (exists_: bool)
      ensures exists_ == ExistDenomOf(State(), supplyOf, denom)
    {
      var creator := GetDenomCreator(denom);
      if |creator| != 0 {
        return true;
      }
      if supplyOf(denom) != 0 {
        return true;
      }
      return false;
    }

    method GetCrossChainId() returns (id: nat)
      ensures id == CrossChainIdOf(State())
    {
      if counter.None? {
        return 0;
      }
      return counter.value;
    }

    method SetCrossChainId(id: nat)
      modifies this
      ensures State() == old(State()).(counter := Some(id))
      ensures params == old(params) && ulKeeperMap == old(ulKeeperMap)
    {
      counter := Some(id);
    }

    method CreateCrossChainTx(txBytes: Bytes, fromAddr: Bytes, toChainId: uint64,
                              fromContractHash: Bytes, toContractHash: Bytes, methodName: Bytes, args: Bytes)
      modifies this
      ensures State() == CreateCrossChainTxOf(env, old(State()), txBytes, toChainId, fromContractHash, toContractHash, methodName, args)
      ensures params == old(params) && ulKeeperMap == old(ulKeeperMap)
    {
      var crossChainId := GetCrossChainId();
      SetCrossChainId(crossChainId + 1);
      var txHash := env.txHash(txBytes);
      var crossChainIdBs := BigEndian(crossChainId);
      var txParam := MakeTxParam(txHash, crossChainIdBs, fromContractHash, toChainId, toContractHash, methodName, args);
      var bs := env.serializeTxParam(txParam);
      var txParamHash := env.tmhash(bs);
      crossChainTxs := crossChainTxs[txParamHash := bs];
    }

    method CheckDoneTx(fromChainId: uint64, crossChainId: Bytes) returns (done: bool)
      ensures done <==> (fromChainId, crossChainId) in doneTxs
    {
      return (fromChainId, crossChainId) in doneTxs;
    }

    method PutDoneTx(fromChainId: uint64, crossChainId: Bytes)
      modifies this
      ensures State() == old(State()).(doneTxs := old(doneTxs)[(fromChainId, crossChainId) := crossChainId])
      ensures params == old(params) && ulKeeperMap == old(ulKeeperMap)
    {
      doneTxs := doneTxs[(fromChainId, crossChainId) := crossChainId];
    }

    method VerifyToCosmosTx(proof: Bytes, header: Hs.Header) returns (r: Result<ToMerkleValue, Error>)
      modifies this
      ensures params == old(params) && ulKeeperMap == old(ulKeeperMap)
      ensures var spec := VerifyToCosmosTxOf(hsKeeper.env, env, old(State()), proof, header);
        (spec.Err? ==> r == Err(spec.error) && State() == old(State()))
        && (spec.Ok? ==> r == Ok(spec.value.1) && State() == spec.value.0)
    {
      var value := hsKeeper.env.merkleProve(proof, header.crossStateRoot);
      if value.None? {
        return Err(MerkleProveFail);
      }
      var merkleValue := env.decodeMerkleValue(value.value);
      if merkleValue.None? {
        return Err(DeserializeMerkleValue);
      }
      var mv := merkleValue.value;
      var done := CheckDoneTx(mv.fromChainId, mv.makeTxParam.crossChainId);
      if done {
        return Err(TxAlreadyDone(mv.fromChainId, mv.makeTxParam.crossChainId));
      }
      PutDoneTx(mv.fromChainId, mv.makeTxParam.crossChainId);
      return Ok(mv);
    }

    /** The routing loop: mounted keepers in an unspecified order, the first claimant gets the Unlock. */
    method RouteUnlock(uk: UnlockKeepers, fromChainId: uint64, mv: ToMerkleValue) returns (r: Result<Bytes, Error>)
      ensures Routed(r, ulKeeperMap, uk, fromChainId, mv)
    {
      var p := mv.makeTxParam;
      var rest := ulKeeperMap;
      while rest != {}
        invariant rest <= ulKeeperMap
        invariant Claimants(ulKeeperMap, uk, mv) <= rest
        decreases |rest|
      {
        var key :| key in rest;
        if uk.claims(key, p.toContractAddress, mv.fromChainId) {
          assert key in Claimants(ulKeeperMap, uk, mv);
          if !uk.unlock(key, mv.fromChainId, p.fromContractAddress, p.toContractAddress, p.args) {
            return Err(UnlockFailed(key));
          }
          return Ok(key);
        }
        rest := rest - {key};
      }
      return Err(NoUnlockKeeper(p.toContractAddress, fromChainId));
    }

    method ProcessCrossChainTx(uk: UnlockKeepers, fromChainId: uint64, proofHex: Bytes, headerHex: Bytes,
                               headerProofHex: Bytes, curHeaderHex: Bytes) returns (r: Result<Bytes, Error>)
      modifies this, hsKeeper
      ensures var a := AdmitOf(hsKeeper.env, env, old(State()), old(hsKeeper.State()), old(params.chainIdInPolyNet),
                               proofHex, headerHex, headerProofHex, curHeaderHex);
        (a.Err? ==> r == Err(a.error))
        && (a.Ok? ==> Routed(r, old(ulKeeperMap), uk, fromChainId, a.value.2)
                      && (r.Ok? ==> State() == a.value.0 && hsKeeper.State() == a.value.1))
    {
      var hsEnv := hsKeeper.env;
      var headerBs := HexDecode(headerHex);
      if headerBs.None? {
        return Err(HeaderHexDecode);
      }
      var header := hsEnv.decodeHeader(headerBs.value);
      if header.None? {
        return Err(HeaderDeserialize);
      }
      var headerInCurEpoch := OptionalHeader(hsEnv, curHeaderHex);
      var headerProof := HexDecode(headerProofHex);
      var e := hsKeeper.ProcessHeader(header.value, headerProof, headerInCurEpoch);
      if e.Fail? {
        return Err(ProcessHeader(e.error));
      }
      var proof := HexDecode(proofHex);
      if proof.None? {
        return Err(ProofHexDecode);
      }
      var merkleValue := VerifyToCosmosTx(proof.value, header.value);
      if merkleValue.Err? {
        return Err(merkleValue.error);
      }
      var mv := merkleValue.value;
      if mv.makeTxParam.toChainId != params.chainIdInPolyNet {
        return Err(WrongToChainId(params.chainIdInPolyNet, mv.makeTxParam.toChainId));
      }
      r := RouteUnlock(uk, fromChainId, mv);
    }
  }
}
