/**
 * The header-sync light client. Per poly chain id the store holds the
 * serialized current consensus peer set and the hash of the header that
 * installed it (the key header). Header hashing, the multi-signature check,
 * the Merkle proof, header deserialization and the JSON block-info parser are
 * collaborators passed in as an `Env`.
 *
 * Each keeper method is proved against a function over `HsState`; a function
 * returning `Err` says nothing about the state, which the host rolls back.
 */
module HeaderSyncKeeper {
  import opened Wrappers
  import opened Codec
  import opened HeaderSyncTypes

  /** The fields of a poly block header the module reads. */
  datatype Header = Header(
    chainId: uint64,
    height: uint32,
    bookkeepers: seq<Bytes>,
    sigData: seq<Bytes>,
    consensusPayload: Bytes,
    crossStateRoot: Bytes,
    blockRoot: Bytes)

  /** One entry of a VBFT NewChainConfig peer list. */
  datatype PeerConfig = PeerConfig(index: uint32, id: Bytes)
  datatype BlockInfo = BlockInfo(newChainConfig: Option<seq<PeerConfig>>)

  datatype Env = Env(
    hash: Header -> Bytes,
    pubkeyId: Bytes -> Bytes,
    verifyMultiSig: (Bytes, seq<Bytes>, nat, seq<Bytes>) -> bool,
    merkleProve: (Bytes, Bytes) -> Option<Bytes>,
    parseBlockInfo: Bytes -> Option<BlockInfo>,
    decodeHeader: Bytes -> Option<Header>)

  datatype Error =
    | HexDecodeFail
    | DeserializeHeader
    | GenesisHexDecode
    | GenesisAlreadySynced(chainId: uint64)
    | GenesisWithoutPeers(cause: Error)
    | SyncBlockHeader(chainId: uint64, height: uint32, cause: Error)
    | NoConsensusPeers(chainId: uint64)
    | DeserializeConsensusPeer
    | StaleHeight(stored: uint32, height: uint32)
    | BookKeeperNum(bookkeepers: nat, peers: nat)
    | InvalidPublicKey(pubkey: Bytes)
    | VerifyMultiSigFail(height: uint32)
    | NoKeyHeaderHash(chainId: uint64)
    | KeyHeaderHashMismatch
    | UnmarshalBlockInfo
    | MerkleProveFail
    | HistoricalHashMismatch

  /** The module's store: serialized peer sets and key-header hashes, per chain id. */
  datatype HsState = HsState(peers: map<uint64, Bytes>, keyHashes: map<uint64, Bytes>)

  /** A method's outcome and new state agree with a specification result. */
  predicate Reflects(r: Outcome<Error>, spec: Result<HsState, Error>, now: HsState)
  {
    match spec
    case Ok(s) => r == Pass && now == s
    case Err(e) => r == Fail(e)
  }

  // ---------------------------------------------------------------- store access

  function GetConsensusPeersOf(st: HsState, chainId: uint64): Result<ConsensusPeers, Error>
  {
    if chainId !in st.peers then Err(NoConsensusPeers(chainId))
    else match DecodeConsensusPeers(st.peers[chainId])
      case None => Err(DeserializeConsensusPeer)
      case Some((cp, _)) => Ok(cp)
  }

  ghost function SetConsensusPeersOf(st: HsState, cp: ConsensusPeers): HsState
  {
    st.(peers := st.peers[cp.chainId := ConsensusPeersBytes(cp)])
  }

  function GetKeyHeaderHashOf(st: HsState, chainId: uint64): Result<Bytes, Error>
  {
    if chainId !in st.keyHashes || |st.keyHashes[chainId]| != 32 then Err(NoKeyHeaderHash(chainId))
    else Ok(st.keyHashes[chainId])
  }

  function SetKeyHeaderHashOf(st: HsState, chainId: uint64, h: Bytes): HsState
  {
    st.(keyHashes := st.keyHashes[chainId := h])
  }

  /** Reading back a stored peer set gives it again; other chains are untouched. */
  lemma GetAfterSetConsensusPeers(st: HsState, cp: ConsensusPeers, c: uint64)
    requires Encodable(cp)
    ensures GetConsensusPeersOf(SetConsensusPeersOf(st, cp), cp.chainId) == Ok(cp)
    ensures c != cp.chainId ==> GetConsensusPeersOf(SetConsensusPeersOf(st, cp), c) == GetConsensusPeersOf(st, c)
  {
    ConsensusPeersRoundTrip(cp, []);
    AppendNothing(ConsensusPeersBytes(cp));
  }

  lemma GetAfterSetKeyHeaderHash(st: HsState, chainId: uint64, h: Bytes, c: uint64)
    requires |h| == 32
    ensures GetKeyHeaderHashOf(SetKeyHeaderHashOf(st, chainId, h), chainId) == Ok(h)
    ensures c != chainId ==> GetKeyHeaderHashOf(SetKeyHeaderHashOf(st, chainId, h), c) == GetKeyHeaderHashOf(st, c)
  {
  }

  // ---------------------------------------------------------------- checks

  /** The id of the first bookkeeper whose key id is not in the peer map. */
  function MissingBookkeeper(pubkeyId: Bytes -> Bytes, bks: seq<Bytes>, m: map<Bytes, Peer>): (r: Option<Bytes>)
    ensures r.None? <==> forall i :: 0 <= i < |bks| ==> pubkeyId(bks[i]) in m
    ensures r.Some? ==> r.value !in m && exists i :: 0 <= i < |bks| && pubkeyId(bks[i]) == r.value
  {
    if bks == [] then None
    else if pubkeyId(bks[0]) !in m then Some(pubkeyId(bks[0]))
    else
      var r := MissingBookkeeper(pubkeyId, bks[1..], m);
      assert forall i :: 1 <= i < |bks| ==> bks[i] == bks[1..][i - 1];
      r
  }

  function VerifyHeaderSigOf(env: Env, st: HsState, h: Header): Outcome<Error>
  {
    match GetConsensusPeersOf(st, h.chainId)
    case Err(e) => Fail(SyncBlockHeader(h.chainId, h.height, e))
    case Ok(cp) =>
      if h.height <= cp.height then Fail(SyncBlockHeader(h.chainId, h.height, StaleHeight(cp.height, h.height)))
      else if |h.bookkeepers| * 3 < |cp.peerMap| * 2 then Fail(BookKeeperNum(|h.bookkeepers|, |cp.peerMap|))
      else match MissingBookkeeper(env.pubkeyId, h.bookkeepers, cp.peerMap)
        case Some(pk) => Fail(InvalidPublicKey(pk))
        case None =>
          if !env.verifyMultiSig(env.hash(h), h.bookkeepers, |h.bookkeepers|, h.sigData) then Fail(VerifyMultiSigFail(h.height))
          else Pass
  }

  /**
   * A header is accepted by the signature check exactly when the chain has a
   * readable peer set, the header is strictly higher, at least two thirds of
   * the peer count signed, every signer is a peer and the multi-signature holds.
   */
  lemma VerifyHeaderSigPassIff(env: Env, st: HsState, h: Header)
    ensures VerifyHeaderSigOf(env, st, h).Pass? <==>
      GetConsensusPeersOf(st, h.chainId).Ok?
      && var cp := GetConsensusPeersOf(st, h.chainId).value;
      h.height > cp.height
      && 3 * |h.bookkeepers| >= 2 * |cp.peerMap|
      && (forall i :: 0 <= i < |h.bookkeepers| ==> env.pubkeyId(h.bookkeepers[i]) in cp.peerMap)
      && env.verifyMultiSig(env.hash(h), h.bookkeepers, |h.bookkeepers|, h.sigData)
  {
  }

  /** The checks run in order: a stale header is refused before the signer count or keys are looked at. */
  lemma VerifyHeaderSigRejectsStale(env: Env, st: HsState, h: Header, cp: ConsensusPeers)
    requires GetConsensusPeersOf(st, h.chainId) == Ok(cp) && h.height <= cp.height
    ensures VerifyHeaderSigOf(env, st, h) == Fail(SyncBlockHeader(h.chainId, h.height, StaleHeight(cp.height, h.height)))
  {
  }

  lemma VerifyHeaderSigRejectsMissingSigner(env: Env, st: HsState, h: Header, cp: ConsensusPeers, i: nat)
    requires GetConsensusPeersOf(st, h.chainId) == Ok(cp) && h.height > cp.height
    requires 3 * |h.bookkeepers| >= 2 * |cp.peerMap|
    requires i < |h.bookkeepers| && env.pubkeyId(h.bookkeepers[i]) !in cp.peerMap
    ensures VerifyHeaderSigOf(env, st, h).Fail? && VerifyHeaderSigOf(env, st, h).error.InvalidPublicKey?
    ensures VerifyHeaderSigOf(env, st, h).error.pubkey !in cp.peerMap
  {
  }

  function VerifyHeaderByKeyHeaderHashOf(env: Env, st: HsState, h: Header): Outcome<Error>
  {
    match GetKeyHeaderHashOf(st, h.chainId)
    case Err(e) => Fail(e)
    case Ok(k) => if env.hash(h) == k then Pass else Fail(KeyHeaderHashMismatch)
  }

  function VerifyHistoricalHeaderOf(env: Env, st: HsState, h: Header, proof: Bytes, cur: Header): Outcome<Error>
  {
    match VerifyHeaderSigOf(env, st, cur)
    case Fail(e) => Fail(e)
    case Pass =>
      match env.merkleProve(proof, cur.blockRoot)
      case None => Fail(MerkleProveFail)
      case Some(v) => if v == env.hash(h) then Pass else Fail(HistoricalHashMismatch)
  }

  /** A historical header is admitted exactly when its anchor passes the signature check and the proof under the anchor's block root yields its hash. */
  lemma VerifyHistoricalHeaderPassIff(env: Env, st: HsState, h: Header, proof: Bytes, cur: Header)
    ensures VerifyHistoricalHeaderOf(env, st, h, proof, cur).Pass? <==>
      VerifyHeaderSigOf(env, st, cur).Pass? && env.merkleProve(proof, cur.blockRoot) == Some(env.hash(h))
  {
  }

  // ---------------------------------------------------------------- epoch change

  /** The peer map built from a NewChainConfig: each peer under its id, a later duplicate replacing an earlier one. */
  function PeerMapOf(cfg: seq<PeerConfig>): map<Bytes, Peer>
  {
    if cfg == [] then map[]
    else
      var p := cfg[|cfg| - 1];
      PeerMapOf(cfg[..|cfg| - 1])[p.id := Peer(p.index, p.id)]
  }

  function Ids(cfg: seq<PeerConfig>): set<Bytes>
  {
    set i | 0 <= i < |cfg| :: cfg[i].id
  }

  /** Every peer is filed under its own id, and there are no more peers than configs. */
  lemma {:induction false} PeerMapOfKeyed(cfg: seq<PeerConfig>)
    ensures KeyedByPubkey(PeerMapOf(cfg))
    ensures |PeerMapOf(cfg)| <= |cfg|
  {
    if cfg != [] {
      var init := cfg[..|cfg| - 1];
      var p := cfg[|cfg| - 1];
      PeerMapOfKeyed(init);
      MapUpdateSize(PeerMapOf(init), p.id, Peer(p.index, p.id));
    }
  }

  /** The map has exactly the configured ids as keys. */
  lemma {:induction false} PeerMapOfKeys(cfg: seq<PeerConfig>)
    ensures PeerMapOf(cfg).Keys == Ids(cfg)
  {
    if cfg != [] {
      var init := cfg[..|cfg| - 1];
      PeerMapOfKeys(init);
      assert Ids(cfg) == Ids(init) + {cfg[|cfg| - 1].id} by {
        forall k | k in Ids(cfg) ensures k in Ids(init) + {cfg[|cfg| - 1].id} {
          var i :| 0 <= i < |cfg| && cfg[i].id == k;
          if i < |init| { assert init[i] == cfg[i]; }
        }
        forall k | k in Ids(init) ensures k in Ids(cfg) {
          var i :| 0 <= i < |init| && init[i].id == k;
          assert cfg[i] == init[i];
        }
      }
    }
  }

  /** A peer carries the index of the last config with its id. */
  lemma {:induction false} PeerMapOfLast(cfg: seq<PeerConfig>, i: nat)
    requires i < |cfg| && forall j :: i < j < |cfg| ==> cfg[j].id != cfg[i].id
    ensures cfg[i].id in PeerMapOf(cfg) && PeerMapOf(cfg)[cfg[i].id] == Peer(cfg[i].index, cfg[i].id)
  {
    var init := cfg[..|cfg| - 1];
    if i < |init| {
      assert cfg[i] == init[i];
      assert forall j :: i < j < |init| ==> init[j] == cfg[j];
      PeerMapOfLast(init, i);
    }
  }

  /**
   * What the collaborators are known to deliver: a header hash is a 32-byte
   * Uint256, and the JSON parser never yields a peer list or id longer than
   * 2^64 - 1.
   */
  ghost predicate CollaboratorsFit(env: Env)
  {
    (forall h :: |env.hash(h)| == 32) &&
    forall payload :: env.parseBlockInfo(payload).Some? && env.parseBlockInfo(payload).value.newChainConfig.Some? ==>
      |env.parseBlockInfo(payload).value.newChainConfig.value| <= MAX_UINT64
      && forall i :: 0 <= i < |env.parseBlockInfo(payload).value.newChainConfig.value| ==>
        |env.parseBlockInfo(payload).value.newChainConfig.value[i].id| <= MAX_UINT64
  }

  ghost function UpdateConsensusPeerOf(env: Env, st: HsState, h: Header): Result<HsState, Error>
  {
    match env.parseBlockInfo(h.consensusPayload)
    case None => Err(UnmarshalBlockInfo)
    case Some(info) =>
      match info.newChainConfig
      case None => Ok(st)
      case Some(cfg) =>
        var cp := ConsensusPeers(h.chainId, h.height, PeerMapOf(cfg));
        Ok(SetKeyHeaderHashOf(SetConsensusPeersOf(st, cp), h.chainId, env.hash(h)))
  }

  /**
   * An epoch change installs the peers of the new chain config at the header's
   * height and records the header's hash as key header; other chains keep
   * their entries. A header without a new config changes nothing.
   */
  lemma UpdateConsensusPeerSpec(env: Env, st: HsState, h: Header, c: uint64)
    requires CollaboratorsFit(env) && env.parseBlockInfo(h.consensusPayload).Some?
    ensures UpdateConsensusPeerOf(env, st, h).Ok?
    ensures var info := env.parseBlockInfo(h.consensusPayload).value;
      var st' := UpdateConsensusPeerOf(env, st, h).value;
      if info.newChainConfig.Some? then
        GetConsensusPeersOf(st', h.chainId) == Ok(ConsensusPeers(h.chainId, h.height, PeerMapOf(info.newChainConfig.value)))
        && GetKeyHeaderHashOf(st', h.chainId) == Ok(env.hash(h))
        && (c != h.chainId ==>
              GetConsensusPeersOf(st', c) == GetConsensusPeersOf(st, c)
              && GetKeyHeaderHashOf(st', c) == GetKeyHeaderHashOf(st, c))
      else st' == st
  {
    var info := env.parseBlockInfo(h.consensusPayload).value;
    if info.newChainConfig.Some? {
      var cfg := info.newChainConfig.value;
      var cp := ConsensusPeers(h.chainId, h.height, PeerMapOf(cfg));
      PeerMapOfKeyed(cfg);
      PeerMapOfKeys(cfg);
      assert Encodable(cp);
      var s1 := SetConsensusPeersOf(st, cp);
      GetAfterSetConsensusPeers(st, cp, c);
      GetAfterSetKeyHeaderHash(s1, h.chainId, env.hash(h), c);
    }
  }

  // ---------------------------------------------------------------- header processing

  /** Direct path when either the anchor or the proof is absent, historical path otherwise. */
  ghost function ProcessHeaderOf(env: Env, st: HsState, h: Header, proof: Option<Bytes>, cur: Option<Header>): Result<HsState, Error>
  {
    if cur.None? || proof.None? then
      match VerifyHeaderSigOf(env, st, h)
      case Fail(e) => if VerifyHeaderByKeyHeaderHashOf(env, st, h).Pass? then Ok(st) else Err(e)
      case Pass => UpdateConsensusPeerOf(env, st, h)
    else
      match VerifyHistoricalHeaderOf(env, st, h, proof.value, cur.value)
      case Fail(e) => Err(e)
      case Pass => UpdateConsensusPeerOf(env, st, cur.value)
  }

  /** Resubmitting the current key header after its signature check fails succeeds and changes nothing. */
  lemma ResubmittedKeyHeaderIsNoOp(env: Env, st: HsState, h: Header, proof: Option<Bytes>)
    requires VerifyHeaderSigOf(env, st, h).Fail?
    requires GetKeyHeaderHashOf(st, h.chainId) == Ok(env.hash(h))
    ensures ProcessHeaderOf(env, st, h, proof, None) == Ok(st)
  {
  }

  /** On the direct path a header failing both checks gets the signature check's error. */
  lemma DirectPathError(env: Env, st: HsState, h: Header, proof: Option<Bytes>)
    requires VerifyHeaderSigOf(env, st, h).Fail?
    requires GetKeyHeaderHashOf(st, h.chainId) != Ok(env.hash(h))
    ensures ProcessHeaderOf(env, st, h, proof, None) == Err(VerifyHeaderSigOf(env, st, h).error)
  {
  }

  /**
   * The historical path succeeds exactly when the anchor is verified and the
   * old header is proved under it, and the epoch change it applies is the
   * anchor's, never the historical header's.
   */
  lemma HistoricalPathSpec(env: Env, st: HsState, h: Header, proof: Bytes, cur: Header)
    ensures ProcessHeaderOf(env, st, h, Some(proof), Some(cur)).Ok? <==>
      VerifyHeaderSigOf(env, st, cur).Pass? && env.merkleProve(proof, cur.blockRoot) == Some(env.hash(h))
      && UpdateConsensusPeerOf(env, st, cur).Ok?
    ensures ProcessHeaderOf(env, st, h, Some(proof), Some(cur)).Ok? ==>
      ProcessHeaderOf(env, st, h, Some(proof), Some(cur)) == UpdateConsensusPeerOf(env, st, cur)
  {
    VerifyHistoricalHeaderPassIff(env, st, h, proof, cur);
  }

  /** A verified header names a chain with a peer set stored below its height. */
  lemma VerifiedIsHigher(env: Env, st: HsState, h: Header)
    requires VerifyHeaderSigOf(env, st, h).Pass?
    ensures GetConsensusPeersOf(st, h.chainId).Ok? && h.height > GetConsensusPeersOf(st, h.chainId).value.height
  {
  }

  /**
   * Header processing never loses a chain's peer set nor lowers its height:
   * an epoch change is only applied by a header verified against the stored
   * set, which must be strictly higher.
   */
  lemma ProcessHeaderHeightMonotone(env: Env, st: HsState, h: Header, proof: Option<Bytes>, cur: Option<Header>, c: uint64)
    requires CollaboratorsFit(env)
    requires ProcessHeaderOf(env, st, h, proof, cur).Ok?
    requires GetConsensusPeersOf(st, c).Ok?
    ensures var st' := ProcessHeaderOf(env, st, h, proof, cur).value;
      GetConsensusPeersOf(st', c).Ok?
      && GetConsensusPeersOf(st', c).value.height >= GetConsensusPeersOf(st, c).value.height
  {
    var st' := ProcessHeaderOf(env, st, h, proof, cur).value;
    if cur.None? || proof.None? {
      if VerifyHeaderSigOf(env, st, h).Pass? {
        VerifiedIsHigher(env, st, h);
        UpdateConsensusPeerSpec(env, st, h, c);
      }
    } else {
      VerifyHistoricalHeaderPassIff(env, st, h, proof.value, cur.value);
      VerifiedIsHigher(env, st, cur.value);
      UpdateConsensusPeerSpec(env, st, cur.value, c);
    }
  }

  // ---------------------------------------------------------------- transactions

  ghost function SyncGenesisHeaderOf(env: Env, st: HsState, headerHex: Bytes): Result<HsState, Error>
  {
    match HexDecode(headerHex)
    case None => Err(GenesisHexDecode)
    case Some(bs) =>
      match env.decodeHeader(bs)
      case None => Err(DeserializeHeader)
      case Some(h) =>
        if GetConsensusPeersOf(st, h.chainId).Ok? then Err(GenesisAlreadySynced(h.chainId))
        else match UpdateConsensusPeerOf(env, st, h)
          case Err(e) => Err(e)
          case Ok(st') =>
            match GetConsensusPeersOf(st', h.chainId)
            case Err(e) => Err(GenesisWithoutPeers(e))
            case Ok(_) => Ok(st')
  }

  /** Genesis is refused for a chain that already has a readable peer set. */
  lemma GenesisRejectsSyncedChain(env: Env, st: HsState, headerHex: Bytes, h: Header)
    requires HexDecode(headerHex).Some? && env.decodeHeader(HexDecode(headerHex).value) == Some(h)
    requires GetConsensusPeersOf(st, h.chainId).Ok?
    ensures SyncGenesisHeaderOf(env, st, headerHex) == Err(GenesisAlreadySynced(h.chainId))
  {
  }

  /** A genesis header without a new chain config is refused, since no peers exist afterwards. */
  lemma GenesisNeedsChainConfig(env: Env, st: HsState, headerHex: Bytes, h: Header)
    requires HexDecode(headerHex).Some? && env.decodeHeader(HexDecode(headerHex).value) == Some(h)
    requires env.parseBlockInfo(h.consensusPayload) == Some(BlockInfo(None))
    ensures SyncGenesisHeaderOf(env, st, headerHex).Err?
  {
  }

  /** A genesis header with a new chain config bootstraps an unsynced chain with exactly that config's peers. */
  lemma GenesisBootstraps(env: Env, st: HsState, headerHex: Bytes, h: Header, cfg: seq<PeerConfig>)
    requires CollaboratorsFit(env)
    requires HexDecode(headerHex).Some? && env.decodeHeader(HexDecode(headerHex).value) == Some(h)
    requires GetConsensusPeersOf(st, h.chainId).Err?
    requires env.parseBlockInfo(h.consensusPayload) == Some(BlockInfo(Some(cfg)))
    ensures SyncGenesisHeaderOf(env, st, headerHex).Ok?
    ensures var st' := SyncGenesisHeaderOf(env, st, headerHex).value;
      GetConsensusPeersOf(st', h.chainId) == Ok(ConsensusPeers(h.chainId, h.height, PeerMapOf(cfg)))
      && GetKeyHeaderHashOf(st', h.chainId) == Ok(env.hash(h))
  {
    UpdateConsensusPeerSpec(env, st, h, h.chainId);
  }

  /** One header string of SyncBlockHeaders: hex, deserialize, then the direct path. */
  ghost function SyncOneHeaderOf(env: Env, st: HsState, headerHex: Bytes): Result<HsState, Error>
  {
    match HexDecode(headerHex)
    case None => Err(SyncBlockHeader(0, 0, HexDecodeFail))
    case Some(bs) =>
      match env.decodeHeader(bs)
      case None => Err(DeserializeHeader)
      case Some(h) =>
        match ProcessHeaderOf(env, st, h, None, None)
        case Err(e) => Err(SyncBlockHeader(h.chainId, h.height, e))
        case Ok(st') => Ok(st')
  }

  /** Apply step to each item in order, stopping at the first failure. */
  ghost function FoldSteps(step: (HsState, Bytes) -> Result<HsState, Error>, st: HsState, items: seq<Bytes>): Result<HsState, Error>
    decreases |items|
  {
    if items == [] then Ok(st)
    else match step(st, items[0])
      case Err(e) => Err(e)
      case Ok(st') => FoldSteps(step, st', items[1..])
  }

  lemma {:induction false} FoldStepsAppend(step: (HsState, Bytes) -> Result<HsState, Error>, st: HsState, a: seq<Bytes>, b: seq<Bytes>)
    ensures FoldSteps(step, st, a + b) ==
      match FoldSteps(step, st, a)
      case Err(e) => Err(e)
      case Ok(st') => FoldSteps(step, st', b)
    decreases |a|
  {
    if a != [] {
      assert (a + b)[0] == a[0] && (a + b)[1..] == a[1..] + b;
      var one := step(st, a[0]);
      if one.Ok? {
        FoldStepsAppend(step, one.value, a[1..], b);
      }
    } else {
      assert a + b == b;
    }
  }

  /** The headers in order through the direct path, stopping at the first failure. */
  ghost function SyncBlockHeadersOf(env: Env, st: HsState, headerHexes: seq<Bytes>): Result<HsState, Error>
  {
    FoldSteps((s, x) => SyncOneHeaderOf(env, s, x), st, headerHexes)
  }

  /** Syncing a + b is syncing a, then b from the resulting state. */
  lemma SyncBlockHeadersAppend(env: Env, st: HsState, a: seq<Bytes>, b: seq<Bytes>)
    ensures SyncBlockHeadersOf(env, st, a + b) ==
      match SyncBlockHeadersOf(env, st, a)
      case Err(e) => Err(e)
      case Ok(st') => SyncBlockHeadersOf(env, st', b)
  {
    FoldStepsAppend((s, x) => SyncOneHeaderOf(env, s, x), st, a, b);
  }

  /** A batch of headers never loses a chain's peer set nor lowers its height. */
  lemma {:induction false} SyncBlockHeadersHeightMonotone(env: Env, st: HsState, headerHexes: seq<Bytes>, c: uint64)
    requires CollaboratorsFit(env)
    requires SyncBlockHeadersOf(env, st, headerHexes).Ok?
    requires GetConsensusPeersOf(st, c).Ok?
    ensures var st' := SyncBlockHeadersOf(env, st, headerHexes).value;
      GetConsensusPeersOf(st', c).Ok?
      && GetConsensusPeersOf(st', c).value.height >= GetConsensusPeersOf(st, c).value.height
    decreases |headerHexes|
  {
    if headerHexes != [] {
      var bs := HexDecode(headerHexes[0]).value;
      var h := env.decodeHeader(bs).value;
      ProcessHeaderHeightMonotone(env, st, h, None, None, c);
      var st1 := SyncOneHeaderOf(env, st, headerHexes[0]).value;
      SyncBlockHeadersHeightMonotone(env, st1, headerHexes[1..], c);
    }
  }

  // ---------------------------------------------------------------- the keeper

  class Keeper {
    const env: Env
    var peerStore: map<uint64, Bytes>
    var keyHashStore: map<uint64, Bytes>

    constructor (env: Env)
      ensures this.env == env && peerStore == map[] && keyHashStore == map[]
    {
      this.env := env;
      peerStore := map[];
      keyHashStore := map[];
    }

    function State(): HsState
      reads this
    {
      HsState(peerStore, keyHashStore)
    }

    /** Serializes the peer set and stores it under its chain id. */
    method SetConsensusPeers(cp: ConsensusPeers)
      modifies this
      ensures keyHashStore == old(keyHashStore)
      ensures peerStore.Keys == old(peerStore).Keys + {cp.chainId}
      ensures forall c :: c in old(peerStore) && c != cp.chainId ==> peerStore[c] == old(peerStore)[c]
      ensures KeyedByPubkey(cp.peerMap) ==> State() == SetConsensusPeersOf(old(State()), cp)
    {
      var bs := EncodeConsensusPeers(cp);
      peerStore := peerStore[cp.chainId := bs];
    }

    method GetConsensusPeers(chainId: uint64) returns (r: Result<ConsensusPeers, Error>)
      ensures r == GetConsensusPeersOf(State(), chainId)
    {
      if chainId !in peerStore {
        return Err(NoConsensusPeers(chainId));
      }
      var source := new Source(peerStore[chainId]);
      var cp := DeserializeConsensusPeers(source);
      if cp.None? {
        return Err(DeserializeConsensusPeer);
      }
      return Ok(cp.value);
    }

    method SetKeyHeaderHash(chainId: uint64, h: Bytes)
      modifies this
      ensures State() == SetKeyHeaderHashOf(old(State()), chainId, h)
    {
      keyHashStore := keyHashStore[chainId := h];
    }

    /** The stored hash, which must parse as a 32-byte Uint256. */
    method GetKeyHeaderHash(chainId: uint64) returns (r: Result<Bytes, Error>)
      ensures r == GetKeyHeaderHashOf(State(), chainId)
    {
      if chainId !in keyHashStore {
        return Err(NoKeyHeaderHash(chainId));
      }
      var bs := keyHashStore[chainId];
      if |bs| != 32 {
        return Err(NoKeyHeaderHash(chainId));
      }
      return Ok(bs);
    }

    method VerifyHeaderSig(header: Header) returns (r: Outcome<Error>)
      ensures r == VerifyHeaderSigOf(env, State(), header)
    {
      var got := GetConsensusPeers(header.chainId);
      if got.Err? {
        return Fail(SyncBlockHeader(header.chainId, header.height, got.error));
      }
      var cp := got.value;
      if header.height <= cp.height {
        return Fail(SyncBlockHeader(header.chainId, header.height, StaleHeight(cp.height, header.height)));
      }
      var bks := header.bookkeepers;
      if |bks| * 3 < |cp.peerMap| * 2 {
        return Fail(BookKeeperNum(|bks|, |cp.peerMap|));
      }
      var i := 0;
      while i < |bks|
        invariant 0 <= i <= |bks|
        invariant MissingBookkeeper(env.pubkeyId, bks, cp.peerMap) == MissingBookkeeper(env.pubkeyId, bks[i..], cp.peerMap)
      {
        var pubkey := env.pubkeyId(bks[i]);
        assert bks[i..][0] == bks[i] && bks[i..][1..] == bks[i + 1..];
        if pubkey !in cp.peerMap {
          return Fail(InvalidPublicKey(pubkey));
        }
        i := i + 1;
      }
      var hash := env.hash(header);
      if !env.verifyMultiSig(hash, bks, |bks|, header.sigData) {
        return Fail(VerifyMultiSigFail(header.height));
      }
      return Pass;
    }

    method VerifyHeaderByKeyHeaderHash(header: Header) returns (r: Outcome<Error>)
      ensures r == VerifyHeaderByKeyHeaderHashOf(env, State(), header)
      ensures r.Pass? <==> GetKeyHeaderHashOf(State(), header.chainId) == Ok(env.hash(header))
    {
      var headerHash := env.hash(header);
      var keyHeaderHash := GetKeyHeaderHash(header.chainId);
      if keyHeaderHash.Err? {
        return Fail(keyHeaderHash.error);
      }
      if headerHash == keyHeaderHash.value {
        return Pass;
      }
      return Fail(KeyHeaderHashMismatch);
    }

    method VerifyHistoricalHeader(header: Header, headerProof: Bytes, curHeader: Header) returns (r: Outcome<Error>)
      ensures r == VerifyHistoricalHeaderOf(env, State(), header, headerProof, curHeader)
    {
      r := VerifyHeaderSig(curHeader);
      if r.Fail? {
        return;
      }
      var value := env.merkleProve(headerProof, curHeader.blockRoot);
      if value.None? {
        return Fail(MerkleProveFail);
      }
      var hashToBeVerified := env.hash(header);
      if value.value != hashToBeVerified {
        return Fail(HistoricalHashMismatch);
      }
      return Pass;
    }

    method UpdateConsensusPeer(header: Header) returns (r: Outcome<Error>)
      modifies this
      ensures r.Fail? ==> State() == old(State())
      ensures Reflects(r, UpdateConsensusPeerOf(env, old(State()), header), State())
    {
      var blkInfo := env.parseBlockInfo(header.consensusPayload);
      if blkInfo.None? {
        return Fail(UnmarshalBlockInfo);
      }
      if blkInfo.value.newChainConfig.Some? {
        var peers := blkInfo.value.newChainConfig.value;
        var peerMap: map<Bytes, Peer> := map[];
        for i := 0 to |peers|
          invariant peerMap == PeerMapOf(peers[..i])
        {
          assert peers[..i + 1][..i] == peers[..i];
          peerMap := peerMap[peers[i].id := Peer(peers[i].index, peers[i].id)];
        }
        assert peers[..|peers|] == peers;
        PeerMapOfKeyed(peers);
        SetConsensusPeers(ConsensusPeers(header.chainId, header.height, peerMap));
        SetKeyHeaderHash(header.chainId, env.hash(header));
      }
      return Pass;
    }

    method ProcessHeader(header: Header, headerProof: Option<Bytes>, curHeader: Option<Header>) returns (r: Outcome<Error>)
      modifies this
      ensures r.Fail? ==> State() == old(State())
      ensures Reflects(r, ProcessHeaderOf(env, old(State()), header, headerProof, curHeader), State())
    {
      var cpHeader: Header;
      if curHeader.None? || headerProof.None? {
        var sig := VerifyHeaderSig(header);
        if sig.Fail? {
          var byHash := VerifyHeaderByKeyHeaderHash(header);
          if byHash.Pass? {
            return Pass;
          }
          return sig;
        }
        cpHeader := header;
      } else {
        var hist := VerifyHistoricalHeader(header, headerProof.value, curHeader.value);
        if hist.Fail? {
          return hist;
        }
        cpHeader := curHeader.value;
      }
      r := UpdateConsensusPeer(cpHeader);
    }

    method SyncGenesisHeader(genesisHeaderHex: Bytes) returns (r: Outcome<Error>)
      modifies this
      ensures Reflects(r, SyncGenesisHeaderOf(env, old(State()), genesisHeaderHex), State())
    {
      var bs := HexDecode(genesisHeaderHex);
      if bs.None? {
        return Fail(GenesisHexDecode);
      }
      var header := env.decodeHeader(bs.value);
      if header.None? {
        return Fail(DeserializeHeader);
      }
      var h := header.value;
      var existing := GetConsensusPeers(h.chainId);
      if existing.Ok? {
        return Fail(GenesisAlreadySynced(h.chainId));
      }
      r := UpdateConsensusPeer(h);
      if r.Fail? {
        return;
      }
      var after := GetConsensusPeers(h.chainId);
      if after.Err? {
        return Fail(GenesisWithoutPeers(after.error));
      }
      return Pass;
    }

    method SyncBlockHeaders(headerHexes: seq<Bytes>) returns (r: Outcome<Error>)
      modifies this
      ensures Reflects(r, SyncBlockHeadersOf(env, old(State()), headerHexes), State())
    {
      var i := 0;
      while i < |headerHexes|
        invariant 0 <= i <= |headerHexes|
        invariant SyncBlockHeadersOf(env, old(State()), headerHexes) == SyncBlockHeadersOf(env, State(), headerHexes[i..])
      {
        assert headerHexes[i..][0] == headerHexes[i] && headerHexes[i..][1..] == headerHexes[i + 1..];
        var bs := HexDecode(headerHexes[i]);
        if bs.None? {
          return Fail(SyncBlockHeader(0, 0, HexDecodeFail));
        }
        var header := env.decodeHeader(bs.value);
        if header.None? {
          return Fail(DeserializeHeader);
        }
        var e := ProcessHeader(header.value, None, None);
        if e.Fail? {
          return Fail(SyncBlockHeader(header.value.chainId, header.value.height, e.error));
        }
        i := i + 1;
      }
      return Pass;
    }
  }
}
