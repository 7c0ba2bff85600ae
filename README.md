# Poly cross-chain modules for Cosmos: a Dafny model

This project models the state machine of the Poly Network modules for the
Cosmos SDK, and proves properties about it. It has six parts.

- **headersync** is a light client of the Poly relay chain. For each chain id
  it keeps the current consensus peer set (the bookkeepers) and the hash of
  the last key header. An epoch-changing header is accepted only when it is
  signed by a two-thirds quorum of the current peers. A header from an older
  epoch can still be accepted through a Merkle proof against a header of the
  current epoch.
- **ccm** is the cross-chain manager. On the way out, it numbers each
  outgoing transaction with a monotone counter and stores the transaction
  parameters under their hash. On the way in, it checks a relayed header
  through headersync and verifies the Merkle proof of the transaction. It
  refuses replays, refuses transactions addressed to another chain, and routes
  the payload to the one mounted application module that claims the target
  contract. It also records who created each denomination.
- **lockproxy** is a lock proxy. It holds locked coins in the module
  account. For each (denom, chain) it tracks the locked amount, and it binds
  each denom to a target proxy and to a target asset hash.
- **lockproxypip1** is the registry-based lock proxy. It registers an asset
  tuple (proxy, asset, native chain, native proxy, native asset) and keeps a
  balance per tuple. Its lock may deduct a fee.
- **btcx** runs Bitcoin-backed denominations with a redeem script.
- **ft** runs fungible tokens that cross chains independently.

These modules share the Poly binary codec, which the model defines:

- little-endian fixed-width integers;
- the var-uint with its 0xFD/0xFE/0xFF prefixes;
- length-prefixed byte strings;
- a write sink and a read source with an offset.

Hexadecimal text and big-endian minimal integer bytes are modelled too.

### How the state is modelled

- **Keepers are classes.** Each module's keeper is a `class` whose fields are
  its stores, held as Dafny maps.
- **Each operation has a specification.** Every keeper operation is a method
  over those fields. Its `ensures` ties the outcome and the new state to a
  pure function `XOf(old state, inputs)` that returns a `Result`.
- **The lemmas are about those functions.** They state what each operation
  does: the error cases, the new store contents, the frame, and invariants
  such as non-negative balances or a height that never goes down.
- **Outside code is a parameter.** Code the modules call but do not define
  is passed in as function-valued fields of an environment datatype (`Env`,
  `CcmEnv`, `Host`, `SdkRules`, `PadCodec`, `BtcxEnv`, `FtEnv`, `Sha256`):
  - hashing and signature checks;
  - header parsing and Merkle proofs;
  - the bank and supply;
  - the sdk's denom and coin checks.
- **Failed operations roll back.** The Cosmos host discards the writes of a
  transaction whose handler returns an error. So the keeper methods state
  their new state for success only; after a failure their state is
  unspecified, because the host throws it away. A few methods say more:
  - `HeaderSyncKeeper.Keeper.UpdateConsensusPeer`, `HeaderSyncKeeper.Keeper.ProcessHeader`,
    `Pip1Keeper.Keeper.DecreaseBalance` and `CcmKeeper.Keeper.VerifyToCosmosTx`
    fail before they write, and ensure that a failure leaves the state unchanged;
  - `BtcxKeeper.Keeper.CreateDenom` ensures the state it leaves after a bad redeem script.

## Model

| member | source | states |
|---|---|---|
| Codec.Pow256 | headersync/internal/types/states.go:58-59 | 256^k is positive, the bound for a k-byte little-endian integer |
| Codec.LE | headersync/internal/types/states.go:58-59 | the little-endian encoding of v in k bytes has exactly k bytes |
| Codec.FromLE | headersync/internal/types/states.go:74-78 | reading k little-endian bytes yields a number below 256^k |
| Codec.FromLEOfLE | headersync/internal/types/states.go:58-78 | reading back the k-byte encoding of any v < 256^k gives v |
| Codec.LEInjective | headersync/internal/keeper/key.go:39-70 | two in-range numbers with the same k-byte encoding are equal, so numeric key parts never collide |
| Codec.Pow256Values | headersync/internal/types/states.go:58-60 | the 2-, 4- and 8-byte bounds are 2^16, 2^32 and 2^64 |
| Codec.Uint16Bytes | headersync/internal/types/states.go:60 | a uint16 field is written in 2 bytes (the 0xFD form of a var-uint) |
| Codec.Uint32Bytes | headersync/internal/types/states.go:33 | a uint32 field is written in 4 bytes |
| Codec.Uint64Bytes | headersync/internal/types/states.go:58 | a uint64 field is written in 8 bytes |
| Codec.DecodeFixed | headersync/internal/types/states.go:74-81 | a k-byte read succeeds iff k bytes remain; the value is below 256^k and exactly the first k bytes are consumed |
| Codec.DecodeUint16 | headersync/internal/types/states.go:82 | a uint16 read succeeds iff at least 2 bytes remain |
| Codec.DecodeUint32 | headersync/internal/types/states.go:38-41 | a uint32 read fails (eof) iff fewer than 4 bytes remain |
| Codec.DecodeUint64 | headersync/internal/types/states.go:74-77 | a uint64 read fails (eof) iff fewer than 8 bytes remain |
| Codec.FixedRoundTrip | headersync/internal/types/states.go:58-78 | decoding the k-byte encoding of v followed by anything gives v and leaves exactly what followed |
| Codec.Uint16RoundTrip | headersync/internal/types/states.go:60-82 | uint16 write/read round trip leaving the rest untouched |
| Codec.Uint32RoundTrip | headersync/internal/types/states.go:33-41 | uint32 write/read round trip leaving the rest untouched |
| Codec.Uint64RoundTrip | headersync/internal/types/states.go:58-77 | uint64 write/read round trip leaving the rest untouched |
| Codec.FixedExtend | headersync/internal/types/states.go:74-78 | appending bytes after a readable fixed-width field does not change what is read, only the remainder |
| Codec.Uint64Extend | headersync/internal/types/states.go:74-77 | the same for a uint64 field |
| Codec.VarUint | headersync/internal/types/states.go:60 | a var-uint takes 1 to 9 bytes, and exactly 1 byte iff the value is below 0xFD |
| Codec.DecodeVarUint | headersync/internal/types/states.go:82-85 | a successful var-uint read consumes at least one byte |
| Codec.VarUintRoundTrip | headersync/internal/types/states.go:60-85 | var-uint write/read round trip, for every uint64, leaving the rest untouched |
| Codec.VarUintExtend | headersync/internal/types/states.go:82-85 | appending bytes after a readable var-uint does not change what is read |
| Codec.DecodeBytes | lockproxypip1/internal/types/args.go:53-56 | reading n raw bytes succeeds iff n bytes remain; the bytes read followed by the rest are the input, and exactly n are read |
| Codec.NextBytesExtend | lockproxypip1/internal/types/args.go:53 | appending bytes after n readable bytes does not change what is read |
| Codec.ToUint64 | headersync/internal/types/states.go:60 | converting a length to uint64 keeps it unchanged when it fits |
| Codec.VarBytes | headersync/internal/types/states.go:34 | a length-prefixed string is longer than its payload and ends with it |
| Codec.DecodeVarBytes | headersync/internal/types/states.go:42-45 | a successful length-prefixed read consumes at least one byte and yields at most 2^64-1 bytes |
| Codec.VarBytesRoundTrip | headersync/internal/types/states.go:34-45 | writing a byte string of length below 2^64 and reading it back gives it and leaves the rest untouched |
| Codec.VarBytesExtend | headersync/internal/types/states.go:42-45 | appending bytes after a readable length-prefixed string does not change what is read |
| Codec.Sink.constructor | headersync/internal/keeper/keeper.go:181 | a new sink is empty |
| Codec.Sink.WriteBytes | lockproxypip1/internal/types/args.go:40 | appends exactly the given bytes |
| Codec.Sink.WriteUint32 | headersync/internal/types/states.go:33 | appends exactly the 4-byte encoding |
| Codec.Sink.WriteUint64 | headersync/internal/types/states.go:58 | appends exactly the 8-byte encoding |
| Codec.Sink.WriteVarUint | headersync/internal/types/states.go:60 | appends exactly the var-uint encoding |
| Codec.Sink.WriteVarBytes | headersync/internal/types/states.go:34 | appends exactly the length prefix and the payload |
| Codec.Source.constructor | headersync/internal/keeper/keeper.go:192 | a new source reads from its start |
| Codec.Source.NextBytes | lockproxypip1/internal/types/args.go:53-56 | reports eof iff the raw read fails; otherwise returns the bytes and advances past them |
| Codec.Source.NextUint16 | headersync/internal/types/states.go:82 | reports eof iff the uint16 read fails; otherwise returns the value and advances |
| Codec.Source.NextUint32 | headersync/internal/types/states.go:38-41 | reports eof iff the uint32 read fails; otherwise returns the value and advances |
| Codec.Source.NextUint64 | headersync/internal/types/states.go:74-77 | reports eof iff the uint64 read fails; otherwise returns the value and advances |
| Codec.Source.NextVarUint | headersync/internal/types/states.go:82-85 | reports eof iff the var-uint read fails; otherwise returns the value and advances |
| Codec.Source.NextVarBytes | headersync/internal/types/states.go:42-45 | reports eof iff the length-prefixed read fails; otherwise returns the string and advances |
| Codec.HexDigit | headersync/internal/keeper/keeper.go:53 | a hex digit denotes a value below 16 |
| Codec.HexChar | headersync/internal/keeper/keeper.go:53 | every value below 16 has a digit that decodes back to it |
| Codec.HexDecode | headersync/internal/keeper/keeper.go:53-56 | decoded hex has half as many bytes as the text |
| Codec.HexEncode | ccm/internal/keeper/keeper.go:172 | hex text has two characters per byte |
| Codec.HexDecodeSucceedsIff | ccm/internal/keeper/keeper.go:172-175 | hex decoding succeeds iff the text has even length and consists of hex digits |
| Codec.HexRoundTrip | ccm/internal/keeper/keeper.go:172 | decoding the hex encoding of any bytes gives them back |
| Codec.BigEndian | ccm/internal/keeper/keeper.go:137 | the minimal big-endian bytes of an integer are empty iff it is zero, and never start with a zero byte |
| Codec.BigEndianRoundTrip | ccm/internal/keeper/keeper.go:137 | reading the big-endian bytes back gives the integer |
| Codec.BigEndianInjective | ccm/internal/keeper/keeper.go:137 | distinct cross-chain ids have distinct byte forms |
| HeaderSyncTypes.LessIrreflexive | headersync/internal/types/states.go:65-67 | the pubkey order used for sorting peers is irreflexive |
| HeaderSyncTypes.LessAsymmetric | headersync/internal/types/states.go:65-67 | the pubkey order is asymmetric |
| HeaderSyncTypes.LessTransitive | headersync/internal/types/states.go:65-67 | the pubkey order is transitive |
| HeaderSyncTypes.LessTotal | headersync/internal/types/states.go:65-67 | any two distinct pubkeys are ordered, so the sort has one answer on distinct keys |
| HeaderSyncTypes.InsertDescending | headersync/internal/types/states.go:65-67 | inserting a peer into a list adds exactly that peer: one longer, same multiset plus it |
| HeaderSyncTypes.InsertKeepsDescending | headersync/internal/types/states.go:65-67 | inserting keeps a list sorted by descending pubkey |
| HeaderSyncTypes.InsertKeepsStrict | headersync/internal/types/states.go:65-67 | inserting a peer whose key is new keeps the list strictly descending and adds its key to the key set |
| HeaderSyncTypes.ListingStep | headersync/internal/types/states.go:61-67 | inserting the entry of one more unvisited key into a sorted listing of the visited entries gives a sorted listing of the visited entries plus it |
| HeaderSyncTypes.SortedPeers | headersync/internal/types/states.go:61-67 | the sorted peer list has one peer per map key |
| HeaderSyncTypes.SortedPeersListing | headersync/internal/types/states.go:61-67 | the sorted list lists the map's values |
| HeaderSyncTypes.SortedPeersSpec | headersync/internal/types/states.go:61-67 | the sorted list is strictly descending by pubkey, its keys are exactly the map's keys, and every element is the map's entry for its key |
| HeaderSyncTypes.SortedPeersUnique | headersync/internal/types/states.go:65-67 | two strictly descending lists taken from the same map with the same keys are equal, so the serialization does not depend on map iteration order |
| HeaderSyncTypes.TailKeys | headersync/internal/types/states.go:65-70 | dropping the head of a strictly descending list removes exactly the head's key and keeps the list strictly descending |
| HeaderSyncTypes.PeerListBytesAppend | headersync/internal/types/states.go:68-70 | writing the peers of a + b gives the bytes of a followed by the bytes of b |
| HeaderSyncTypes.DecodePeer | headersync/internal/types/states.go:37-49 | a successful peer read consumes bytes |
| HeaderSyncTypes.PeerRoundTrip | headersync/internal/types/states_test.go:26-37 | a serialized peer deserializes to the same index and pubkey |
| HeaderSyncTypes.PeerExtend | headersync/internal/types/states.go:37-49 | bytes after a readable peer do not change what is read |
| HeaderSyncTypes.PeerTruncated | headersync/internal/types/states.go:38-45 | any strict prefix of a serialized peer fails to deserialize |
| HeaderSyncTypes.DecodePeerList | headersync/internal/types/states.go:87-93 | reading the length of ps peers from the bytes of the list ps followed by anything yields the map the loop builds from ps, leaving exactly what followed |
| HeaderSyncTypes.CollectDrawn | headersync/internal/types/states.go:87-93 | storing peers taken from a map m adds exactly their keys, each mapped to m's own entry |
| HeaderSyncTypes.ConsensusPeersRoundTrip | headersync/internal/types/states_test.go:39-63 | a consensus peer set whose map is keyed by pubkey deserializes from its serialization (followed by anything) to the same chain id, height and peer map |
| HeaderSyncTypes.CollectOfListing | headersync/internal/types/states.go:87-93 | collecting a listing of a keyed map rebuilds the map |
| HeaderSyncTypes.RoundTripOfList | headersync/internal/types/states.go:57-98 | the header followed by the bytes of any list that rebuilds the map, with the map's size as count, decodes back to the consensus peer set |
| HeaderSyncTypes.DecodeAfterHeader | headersync/internal/types/states.go:74-98 | after the chain id, height and count, the decoder returns the map that the peer loop reads from the remaining bytes, with that chain id and height |
| HeaderSyncTypes.ReadPeersStep | headersync/internal/types/states.go:87-93 | one loop iteration reads one peer and stores it under its pubkey |
| HeaderSyncTypes.DecodePeerExtends | headersync/internal/types/states.go:37-49 | the peer reader ignores bytes after a readable peer, apart from returning them |
| HeaderSyncTypes.ReadPeersExtend | headersync/internal/types/states.go:87-93 | bytes after n readable peers do not change the map read |
| HeaderSyncTypes.ConsensusPeersExtend | headersync/internal/types/states.go:73-98 | bytes after a readable consensus peer set do not change what is read |
| HeaderSyncTypes.ConsensusPeersTruncated | headersync/internal/types/states.go:73-98 | any strict prefix of a serialized consensus peer set fails to deserialize |
| HeaderSyncTypes.EncodedCountIsMapSize | headersync/internal/types/states.go:60 | the count written after the 12-byte header is the number of map entries |
| HeaderSyncTypes.ReadPeersKeyed | headersync/internal/types/states.go:87-93 | the map built by the read loop is keyed by each peer's own pubkey |
| HeaderSyncTypes.ReadPeersBound | headersync/internal/types/states.go:87-93 | reading n peers adds at most n entries to the map, fewer when pubkeys repeat |
| HeaderSyncTypes.DecodedConsensusPeersKeyed | headersync/internal/types/states.go:73-98 | a decoded peer map is keyed by pubkey and has at most as many entries as the declared count |
| HeaderSyncTypes.SerializePeer | headersync/internal/types/states.go:32-35 | appends the index (4 bytes) and the length-prefixed pubkey |
| HeaderSyncTypes.WritePeers | headersync/internal/types/states.go:68-70 | the write loop appends the bytes of every listed peer, in order |
| HeaderSyncTypes.EncodeConsensusPeers | headersync/internal/keeper/keeper.go:180-181 | a fresh sink holds exactly the canonical serialization of a keyed consensus peer set |
| HeaderSyncTypes.SerializeConsensusPeers | headersync/internal/types/states.go:57-71 | always appends the header, the count and some descending-sorted listing of the map's values; for a keyed map that is exactly the canonical bytes |
| HeaderSyncTypes.ListPeers | headersync/internal/types/states.go:61-67 | collects and sorts the map's values: one per key, descending by pubkey, each drawn from the map; for a keyed map it is the unique sorted listing |
| HeaderSyncTypes.DeserializePeer | headersync/internal/types/states.go:37-49 | fails iff the bytes do not start with a peer; otherwise returns it and advances past it |
| HeaderSyncTypes.DeserializeConsensusPeers | headersync/internal/types/states.go:73-98 | fails iff the bytes do not start with a consensus peer set; otherwise returns it and advances past it |
| HeaderSyncTypes.DeserializePeerMap | headersync/internal/types/states.go:86-93 | the loop reads n peers into a map keyed by pubkey, later duplicates overwriting earlier ones; it fails iff one of them is truncated |
| HeaderSyncKeys.GetBlockHeaderKey | headersync/internal/keeper/key.go:39-43 | prefix 0x01, then the chain id in 8 little-endian bytes, then the block hash |
| HeaderSyncKeys.GetBlockHashKey | headersync/internal/keeper/key.go:45-51 | 13 bytes: prefix 0x02, the chain id (8 bytes), the height (4 bytes) |
| HeaderSyncKeys.GetBlockCurHeightKey | headersync/internal/keeper/key.go:52-56 | 21 bytes: the text "currentHeight" then the chain id (8 bytes) |
| HeaderSyncKeys.GetConsensusPeerKey | headersync/internal/keeper/key.go:58-64 | 13 bytes: prefix 0x03, the chain id, the height |
| HeaderSyncKeys.GetKeyHeightsKey | headersync/internal/keeper/key.go:66-70 | 17 bytes: prefix 0x04 and the chain id written twice |
| HeaderSyncKeys.HeightPair | headersync/internal/keeper/key.go:45-64 | the shared (chain id, height) 13-byte layout behind a one-byte prefix |
| HeaderSyncKeys.BlockHeaderKeyInjective | headersync/internal/keeper/key.go:39-43 | distinct (chain, hash) pairs get distinct header keys |
| HeaderSyncKeys.BlockHashKeyInjective | headersync/internal/keeper/key.go:45-51 | distinct (chain, height) pairs get distinct block-hash keys |
| HeaderSyncKeys.ConsensusPeerKeyInjective | headersync/internal/keeper/key.go:58-64 | distinct (chain, height) pairs get distinct peer keys |
| HeaderSyncKeys.CurHeightKeyInjective | headersync/internal/keeper/key.go:52-56 | distinct chains get distinct current-height keys |
| HeaderSyncKeys.KeyHeightsKeyInjective | headersync/internal/keeper/key.go:66-70 | distinct chains get distinct key-height keys |
| HeaderSyncKeys.KeyFamiliesDisjoint | headersync/internal/keeper/key.go:30-70 | keys of the five families never coincide |
| HeaderSyncMsgs.ValidateSyncGenesis | headersync/internal/types/msgs.go:50-58 | passes iff the syncer is non-empty and the genesis header is non-empty; the address check comes first |
| HeaderSyncMsgs.ValidateSyncHeaders | headersync/internal/types/msgs.go:88-96 | passes iff the syncer is non-empty and at least one header is given; the address check comes first |
| HeaderSyncMsgs.SyncGenesisSigners | headersync/internal/types/msgs.go:61-63 | the only signer is the syncer |
| HeaderSyncMsgs.SyncHeadersSigners | headersync/internal/types/msgs.go:104-106 | the only signer is the syncer |
| HeaderSyncMsgs.EmptyHeadersAccepted | headersync/internal/types/msgs.go:88-96 | the individual headers are not checked: a list of empty headers passes |
| HeaderSyncKeeper.GetAfterSetConsensusPeers | headersync/internal/keeper/keeper.go:179-198 | reading a chain's peers after storing them gives them back; other chains read as before |
| HeaderSyncKeeper.GetAfterSetKeyHeaderHash | headersync/internal/keeper/keeper.go:200-217 | reading a chain's key header hash after storing it gives it back; other chains read as before |
| HeaderSyncKeeper.MissingBookkeeper | headersync/internal/keeper/keeper.go:129-135 | the membership scan finds nothing iff every signer's id is a current peer; otherwise it names a signer that is not |
| HeaderSyncKeeper.VerifyHeaderSigPassIff | headersync/internal/keeper/keeper.go:116-141 | a header passes iff the chain's peers are readable, its height is strictly above theirs, it has at least two thirds of the peers as bookkeepers, each of them is a peer, and the multisignature verifies |
| HeaderSyncKeeper.VerifyHeaderSigRejectsStale | headersync/internal/keeper/keeper.go:121-124 | a header at or below the stored height is rejected with the height error, before any signature check |
| HeaderSyncKeeper.VerifyHeaderSigRejectsMissingSigner | headersync/internal/keeper/keeper.go:129-135 | a quorate header with a bookkeeper outside the peer set fails with the public-key error naming a non-peer |
| HeaderSyncKeeper.VerifyHistoricalHeaderPassIff | headersync/internal/keeper/keeper.go:219-232 | a past-epoch header passes iff the current-epoch anchor passes the signature check and the Merkle proof under the anchor's block root proves the header's hash |
| HeaderSyncKeeper.PeerMapOfKeyed | headersync/internal/keeper/keeper.go:166-168 | the peer map built from a chain config is keyed by each peer's id and has no more entries than the config |
| HeaderSyncKeeper.PeerMapOfKeys | headersync/internal/keeper/keeper.go:166-168 | its keys are exactly the ids in the config |
| HeaderSyncKeeper.PeerMapOfLast | headersync/internal/keeper/keeper.go:166-168 | for a repeated id, the last config entry wins |
| HeaderSyncKeeper.UpdateConsensusPeerSpec | headersync/internal/keeper/keeper.go:154-177 | with a new chain config in the header, the chain gets that peer set at the header's height and the header's hash as key header; other chains are untouched; without a config nothing changes |
| HeaderSyncKeeper.ResubmittedKeyHeaderIsNoOp | headersync/internal/keeper/keeper.go:95-100 | without an anchor, a header that fails the signature check but is the stored key header is accepted and changes nothing |
| HeaderSyncKeeper.DirectPathError | headersync/internal/keeper/keeper.go:95-101 | without an anchor, a header that fails the signature check and is not the stored key header is rejected with the signature error |
| HeaderSyncKeeper.HistoricalPathSpec | headersync/internal/keeper/keeper.go:102-113 | with a proof and an anchor, processing succeeds iff the anchor passes the signature check, the proof under the anchor's block root yields the header's hash, and installing the anchor's config succeeds; the new state is that installation |
| HeaderSyncKeeper.VerifiedIsHigher | headersync/internal/keeper/keeper.go:121-124 | a header that passes the signature check is strictly higher than the stored peer set |
| HeaderSyncKeeper.ProcessHeaderHeightMonotone | headersync/internal/keeper/keeper.go:92-114 | processing a header never removes a chain's peer set and never lowers its height |
| HeaderSyncKeeper.GenesisRejectsSyncedChain | headersync/internal/keeper/keeper.go:61-63 | a genesis header for a chain that already has peers is refused with the already-synced error |
| HeaderSyncKeeper.GenesisNeedsChainConfig | headersync/internal/keeper/keeper.go:64-70 | a genesis header without a chain config is refused |
| HeaderSyncKeeper.GenesisBootstraps | headersync/internal/keeper/keeper.go:50-72 | a genesis header with a chain config for a chain without peers succeeds, installing the config's peers at the header's height and the header's hash as key header |
| HeaderSyncKeeper.FoldStepsAppend | headersync/internal/keeper/keeper.go:75-89 | a loop that stops at the first error, run over a + b, is the run over a followed, from its state, by the run over b |
| HeaderSyncKeeper.SyncBlockHeadersAppend | headersync/internal/keeper/keeper.go:74-90 | syncing a + b is syncing a and then b from the resulting state; an error in a is the batch's error |
| HeaderSyncKeeper.SyncBlockHeadersHeightMonotone | headersync/internal/keeper/keeper.go:74-90 | batch syncing never lowers any chain's stored height |
| HeaderSyncKeeper.Keeper.constructor | headersync/internal/keeper/keeper.go:42-48 | a new keeper has empty stores |
| HeaderSyncKeeper.Keeper.SetConsensusPeers | headersync/internal/keeper/keeper.go:179-185 | stores the serialized peers for their chain, leaving other chains and the key-hash store unchanged |
| HeaderSyncKeeper.Keeper.GetConsensusPeers | headersync/internal/keeper/keeper.go:187-198 | returns the stored peers for the chain, or the not-found or deserialize error |
| HeaderSyncKeeper.Keeper.SetKeyHeaderHash | headersync/internal/keeper/keeper.go:200-204 | stores the hash for the chain only |
| HeaderSyncKeeper.Keeper.GetKeyHeaderHash | headersync/internal/keeper/keeper.go:206-217 | returns the stored key header hash or its error |
| HeaderSyncKeeper.Keeper.VerifyHeaderSig | headersync/internal/keeper/keeper.go:116-141 | returns the signature check's verdict on the current state |
| HeaderSyncKeeper.Keeper.VerifyHeaderByKeyHeaderHash | headersync/internal/keeper/keeper.go:142-152 | passes iff the stored key header hash equals the header's hash |
| HeaderSyncKeeper.Keeper.VerifyHistoricalHeader | headersync/internal/keeper/keeper.go:219-232 | returns the historical check's verdict |
| HeaderSyncKeeper.Keeper.UpdateConsensusPeer | headersync/internal/keeper/keeper.go:154-177 | leaves the stores as the update specifies; on failure they are unchanged |
| HeaderSyncKeeper.Keeper.ProcessHeader | headersync/internal/keeper/keeper.go:92-114 | outcome and new stores follow the header-processing specification; on failure the stores are unchanged |
| HeaderSyncKeeper.Keeper.SyncGenesisHeader | headersync/internal/keeper/keeper.go:50-72 | outcome and new stores follow the genesis specification |
| HeaderSyncKeeper.Keeper.SyncBlockHeaders | headersync/internal/keeper/keeper.go:74-90 | the loop's outcome and new stores are those of decoding and processing the headers in order, stopping at the first error |
| CcmParams.DefaultParams | ccm/internal/types/params.go:40-44 | the default chain id in Poly is 0 |
| CcmParams.ValidateChainId | ccm/internal/types/params.go:54-63 | passes iff the value is a uint64 other than 0; a wrong type is reported before a zero value |
| CcmParams.Validate | ccm/internal/types/params.go:47-52 | parameters are valid iff the chain id is not 0 |
| CcmParams.DefaultParamsInvalid | ccm/internal/types/params.go:40-52 | the default parameters do not validate, so a chain id must be configured |
| CcmMsgs.ValidateProcessCrossChainTx | ccm/internal/types/msgs.go:52-66 | passes iff the submitter, the proof and the header are non-empty, failing on the first missing item in that order |
| CcmMsgs.ValidateCreateCrossChainTx | ccm/internal/types/msgs.go:105-120 | passes iff the target chain id is not 0 and the contract, method and args are non-empty, failing on the first in that order |
| CcmMsgs.ProcessCrossChainTxSigners | ccm/internal/types/msgs.go:85-87 | the only signer is the submitter |
| CcmMsgs.CreateCrossChainTxSigners | ccm/internal/types/msgs.go:138-140 | there are no signers |
| CcmKeeper.CreateCrossChainTxSpec | ccm/internal/keeper/keeper.go:125-168 | the counter goes up by one; the new envelope carries the old counter as its big-endian id and is stored under the hash of its bytes; done markers and denom creators are unchanged |
| CcmKeeper.SuccessiveIdsDiffer | ccm/internal/keeper/keeper.go:126-137 | two successive outgoing transactions carry different ids |
| CcmKeeper.GetDenomCreatorOf | ccm/internal/keeper/keeper.go:100-102 | returns the recorded creator, or no bytes for an unknown denom |
| CcmKeeper.SetDenomCreatorOf | ccm/internal/keeper/keeper.go:96-98 | the denom then reads as that creator; other denoms and the other stores are unchanged |
| CcmKeeper.ExistDenomOf | ccm/internal/keeper/keeper.go:104-114 | a denom exists iff it has a non-empty recorded creator or a non-zero total supply |
| CcmKeeper.SetCreatorMakesDenomExist | ccm/internal/keeper/keeper.go:96-114 | recording a non-empty creator makes the denom exist |
| CcmKeeper.OptionalHeader | ccm/internal/keeper/keeper.go:180-188 | the current-epoch header is absent iff its hex or its decoding fails, and otherwise is the decoded header |
| CcmKeeper.AdmitMarksOnce | ccm/internal/keeper/keeper.go:170-211 | an admitted transaction was not done before, is addressed to this chain, and is marked done; exactly one done marker is added and nothing else in the manager changes |
| CcmKeeper.ReplayRejected | ccm/internal/keeper/keeper.go:239-243 | once admitted, the same (source chain, cross-chain id) is never admitted again |
| CcmKeeper.HeaderRefusalAborts | ccm/internal/keeper/keeper.go:195-197 | a header that headersync refuses aborts the call with that refusal |
| CcmKeeper.Keeper.constructor | ccm/internal/keeper/keeper.go:49-62 | a new manager has empty stores and no mounted module |
| CcmKeeper.Keeper.MountUnlockKeeperMap | ccm/internal/keeper/keeper.go:64-69 | replaces the set of mounted modules and changes no store |
| CcmKeeper.Keeper.IfContainToContract | ccm/internal/keeper/keeper.go:82-94 | an unknown module name gives no answer; a mounted one gives its claim on the contract |
| CcmKeeper.Keeper.SetDenomCreator | ccm/internal/keeper/keeper.go:96-98 | the store becomes the specified one with the creator recorded |
| CcmKeeper.Keeper.GetDenomCreator | ccm/internal/keeper/keeper.go:100-102 | returns the recorded creator or no bytes |
| CcmKeeper.Keeper.ExistDenom | ccm/internal/keeper/keeper.go:104-114 | returns whether the denom exists |
| CcmKeeper.Keeper.GetCrossChainId | ccm/internal/keeper/keeper.go:271-283 | returns the counter, 0 when never set |
| CcmKeeper.Keeper.SetCrossChainId | ccm/internal/keeper/keeper.go:284-292 | sets the counter and nothing else |
| CcmKeeper.Keeper.CreateCrossChainTx | ccm/internal/keeper/keeper.go:125-168 | the store becomes the one the outgoing-transaction specification gives |
| CcmKeeper.Keeper.CheckDoneTx | ccm/internal/keeper/keeper.go:258-265 | true iff the (chain, id) pair is marked done |
| CcmKeeper.Keeper.PutDoneTx | ccm/internal/keeper/keeper.go:266-269 | marks the pair done and changes nothing else |
| CcmKeeper.Keeper.VerifyToCosmosTx | ccm/internal/keeper/keeper.go:228-256 | on error nothing changes; on success the proved transaction is returned and marked done as specified |
| CcmKeeper.Keeper.RouteUnlock | ccm/internal/keeper/keeper.go:213-225 | a success names a mounted module claiming the contract whose unlock succeeded; a failure is "no unlock keeper" iff none claims it, and otherwise the unlock error of a claimant |
| CcmKeeper.Keeper.ProcessCrossChainTx | ccm/internal/keeper/keeper.go:170-226 | an admission error is returned as is; otherwise the payload is routed as above, and on success the manager and header stores are the admitted ones |
| LockProxyMsgs.ValidateCreateLockProxy | lockproxy/internal/types/msgs.go:54-59 | passes iff the creator is non-empty |
| LockProxyMsgs.ValidateCreateCoinAndDelegateToProxy | lockproxy/internal/types/msgs.go:92-100 | passes iff the creator is non-empty and the coin is valid, the address checked first |
| LockProxyMsgs.ValidateBindProxyHash | lockproxy/internal/types/msgs.go:127-142 | passes iff operator, target chain and proxy hash are present, failing on the first missing in that order |
| LockProxyMsgs.ValidateBindAssetHash | lockproxy/internal/types/msgs.go:179-198 | passes iff the operator is non-empty, the denom is valid and "10" followed by it parses as a coin, the chain is not 0 and the asset hash is non-empty; errors in that order |
| LockProxyMsgs.ValidateLock | lockproxy/internal/types/msgs.go:238-261 | passes iff proxy hash, sender, a valid denom, a target chain and a target address are present and the value is not negative (zero passes), failing on the first in that order |
| LockProxyMsgs.CreateLockProxySigners | lockproxy/internal/types/msgs.go:62-64 | the only signer is the creator |
| LockProxyMsgs.CreateCoinAndDelegateToProxySigners | lockproxy/internal/types/msgs.go:103-105 | the only signer is the creator |
| LockProxyMsgs.BindProxyHashSigners | lockproxy/internal/types/msgs.go:159-161 | the only signer is the operator |
| LockProxyMsgs.BindAssetHashSigners | lockproxy/internal/types/msgs.go:216-218 | the only signer is the operator |
| LockProxyMsgs.LockSigners | lockproxy/internal/types/msgs.go:281-283 | the only signer is the sender |
| LockProxyKeeper.GetLockProxyByOperatorOf | lockproxy/internal/keeper/keeper.go:99-106 | returns the operator iff it is non-empty and has created a proxy, and no bytes otherwise |
| LockProxyKeeper.CreateLockProxySpec | lockproxy/internal/keeper/keeper.go:77-92 | fails iff the proxy already exists; afterwards it exists and the other stores are unchanged |
| LockProxyKeeper.BindProxyHashSpec | lockproxy/internal/keeper/keeper.go:108-124 | fails iff the operator has no proxy; afterwards the target proxy hash is stored and the (proxy, chain) pair is contained; other stores unchanged |
| LockProxyKeeper.BindAssetHashSpec | lockproxy/internal/keeper/keeper.go:131-164 | succeeds iff the proxy exists, the denom has supply and the module holds exactly the initial amount; it sets the asset hash and the locked amount to that initial amount, other denoms unchanged, keeping locked amounts non-negative |
| LockProxyKeeper.LockSpec | lockproxy/internal/keeper/keeper.go:190-240 | a successful lock needs a bound proxy hash and a non-negative value; the locked amount of the denom rises by the value, other denoms unchanged, the outgoing envelope carries exactly the encoded (asset, address, value), and locked amounts stay non-negative |
| LockProxyKeeper.LockNeedsProxyHash | lockproxy/internal/keeper/keeper.go:212-215 | without a bound target proxy the lock fails |
| LockProxyKeeper.UnlockSpec | lockproxy/internal/keeper/keeper.go:242-295 | a successful unlock comes from the bound, non-empty proxy hash for an asset bound to the sender chain; the locked amount falls by the unlocked amount and stays non-negative; other denoms unchanged |
| LockProxyKeeper.UnlockOfLockArgs | lockproxy/internal/keeper/keeper.go:202-295 | unlocking the arguments a lock produced lowers the locked amount by exactly the locked value |
| LockProxyKeeper.Keeper.constructor | lockproxy/internal/keeper/keeper.go:44-59 | a new keeper has empty stores |
| LockProxyKeeper.Keeper.ContainToContractAddr | lockproxy/internal/keeper/keeper.go:73-75 | true iff a proxy hash is bound for the (contract, chain) pair |
| LockProxyKeeper.Keeper.EnsureLockProxyExist | lockproxy/internal/keeper/keeper.go:94-97 | true iff the creator's proxy exists |
| LockProxyKeeper.Keeper.GetLockProxyByOperator | lockproxy/internal/keeper/keeper.go:99-106 | returns the operator's proxy or no bytes |
| LockProxyKeeper.Keeper.CreateLockProxy | lockproxy/internal/keeper/keeper.go:77-92 | follows the creation specification |
| LockProxyKeeper.Keeper.BindProxyHash | lockproxy/internal/keeper/keeper.go:108-124 | follows the proxy-binding specification |
| LockProxyKeeper.Keeper.GetProxyHash | lockproxy/internal/keeper/keeper.go:126-129 | returns the bound target proxy hash or no bytes |
| LockProxyKeeper.Keeper.BindAssetHash | lockproxy/internal/keeper/keeper.go:131-164 | follows the asset-binding specification |
| LockProxyKeeper.Keeper.GetAssetHash | lockproxy/internal/keeper/keeper.go:171-174 | returns the bound target asset hash or no bytes |
| LockProxyKeeper.Keeper.GetLockedAmount | lockproxy/internal/keeper/keeper.go:176-184 | returns the locked amount, 0 when never set |
| LockProxyKeeper.Keeper.SetLockedAmount | lockproxy/internal/keeper/keeper.go:185-188 | sets the one denom's locked amount only |
| LockProxyKeeper.Keeper.SerializeArgs | lockproxy/internal/keeper/keeper.go:202-210 | the bytes written for a lock are the transfer-argument encoding of (asset, address, value) |
| LockProxyKeeper.Keeper.Lock | lockproxy/internal/keeper/keeper.go:190-240 | follows the lock specification |
| LockProxyKeeper.Keeper.Dispatch | lockproxy/internal/keeper/keeper.go:212-223 | emits the envelope and raises the locked amount as the lock specification's second half gives |
| LockProxyKeeper.Keeper.Unlock | lockproxy/internal/keeper/keeper.go:242-295 | follows the unlock specification |
| Pip1Args.TxArgsBytes | lockproxypip1/internal/types/args.go:33-42 | transfer arguments serialize iff the amount pads to the integer width; the bytes are the asset hash and address, each length-prefixed, then the padded amount |
| Pip1Args.TxArgsRoundTrip | lockproxypip1/internal/types/args.go:33-66 | when unpadding inverts padding, serialized transfer arguments deserialize to themselves, leaving what followed |
| Pip1Args.TxArgsExtend | lockproxypip1/internal/types/args.go:44-66 | bytes after readable transfer arguments do not change what is read |
| Pip1Args.TxArgsTruncated | lockproxypip1/internal/types/args.go:44-66 | a strict prefix of serialized transfer arguments does not deserialize |
| Pip1Args.SerializeTxArgs | lockproxypip1/internal/types/args.go:33-42 | fails iff the amount does not pad; otherwise appends exactly the serialization; a failure leaves the two var-bytes fields written |
| Pip1Args.DeserializeTxArgs | lockproxypip1/internal/types/args.go:44-66 | fails iff the bytes do not start with transfer arguments; otherwise returns them and advances |
| Pip1Args.RegisterAssetArgsBytes | lockproxypip1/internal/types/register_asset_args.go:31-35 | registration arguments take at least two bytes (two length prefixes) |
| Pip1Args.RegisterAssetArgsRoundTrip | lockproxypip1/internal/types/register_asset_args.go:31-50 | serialized registration arguments deserialize to themselves, leaving what followed |
| Pip1Args.RegisterAssetArgsExtend | lockproxypip1/internal/types/register_asset_args.go:37-50 | bytes after readable registration arguments do not change what is read |
| Pip1Args.RegisterAssetArgsTruncated | lockproxypip1/internal/types/register_asset_args.go:37-50 | a strict prefix of serialized registration arguments does not deserialize |
| Pip1Args.SerializeRegisterAssetArgs | lockproxypip1/internal/types/register_asset_args.go:31-35 | appends exactly the serialization |
| Pip1Args.DeserializeRegisterAssetArgs | lockproxypip1/internal/types/register_asset_args.go:37-50 | fails iff the bytes do not start with registration arguments; otherwise returns them and advances |
| Pip1Keys.GetOperatorToLockProxyKey | lockproxypip1/internal/keeper/key.go:41-43 | prefix 0x01 followed by the operator |
| Pip1Keys.GetHashKey | lockproxypip1/internal/keeper/key.go:45-56 | with 32-byte digests the tuple key is 160 bytes |
| Pip1Keys.HashKeyLayout | lockproxypip1/internal/keeper/key.go:45-56 | the tuple key is five 32-byte digests: proxy, asset, native chain id (8 little-endian bytes), native proxy, native asset |
| Pip1Keys.GetRegistryKey | lockproxypip1/internal/keeper/key.go:58-61 | prefix 0x03 followed by the tuple key |
| Pip1Keys.GetBalanceKey | lockproxypip1/internal/keeper/key.go:63-66 | prefix 0x04 followed by the tuple key |
| Pip1Keys.GetBindChainIdKey | lockproxypip1/internal/keeper/key.go:68-72 | prefix 0x02, the proxy hash, the chain id in 8 little-endian bytes |
| Pip1Keys.RegistryAndBalanceKeysDiffer | lockproxypip1/internal/keeper/key.go:58-66 | the registry and balance keys never coincide, and share the tuple key after the prefix |
| Pip1Keys.BindChainIdKeyInjective | lockproxypip1/internal/keeper/key.go:68-72 | distinct (proxy, chain) pairs get distinct bind keys |
| Pip1Keys.OperatorKeyInjective | lockproxypip1/internal/keeper/key.go:41-43 | distinct operators get distinct keys |
| Pip1Keys.KeyFamiliesDisjoint | lockproxypip1/internal/keeper/key.go:35-72 | keys of the four families never coincide |
| Pip1Msgs.ValidateCreateLockProxy | lockproxypip1/internal/types/msgs.go:51-56 | passes iff the creator is non-empty |
| Pip1Msgs.ValidateCreateCoinAndDelegateToProxy | lockproxypip1/internal/types/msgs.go:92-110 | passes iff the creator is non-empty, the coin valid, the native chain not 0 and the native proxy and asset hashes non-empty, failing on the first in that order |
| Pip1Msgs.ValidateLock | lockproxypip1/internal/types/msgs.go:142-171 | passes iff proxy hash, sender, denom, target chain, target proxy, target asset and target address are present and the value is not negative, failing on the first in that order |
| Pip1Msgs.LockIgnoresDenomFormat | lockproxypip1/internal/types/msgs.go:142-171 | only the emptiness of the denom affects validation, not its format |
| Pip1Msgs.CreateLockProxySigners | lockproxypip1/internal/types/msgs.go:59-61 | the only signer is the creator |
| Pip1Msgs.CreateCoinAndDelegateToProxySigners | lockproxypip1/internal/types/msgs.go:113-115 | the only signer is the creator |
| Pip1Msgs.LockSigners | lockproxypip1/internal/types/msgs.go:191-193 | the only signer is the sender |
| Pip1Keeper.GetLockProxyByOperatorOf | lockproxypip1/internal/keeper/keeper.go:103-110 | returns the operator iff its proxy exists, and no bytes otherwise |
| Pip1Keeper.CreateLockProxySpec | lockproxypip1/internal/keeper/keeper.go:81-96 | fails iff the proxy exists; afterwards it exists and only the operator key changed |
| Pip1Keeper.EmptyAddressAlwaysHasProxy | lockproxypip1/internal/keeper/keeper.go:98-110 | the lookup treats the empty address as always having a proxy, so its creation always fails |
| Pip1Keeper.UpdateRegistrySpec | lockproxypip1/internal/keeper/keeper.go:112-127 | fails iff the tuple is already registered; afterwards it is registered and the (proxy, native chain) pair is contained; an existing bind entry is kept, balances are untouched, no key is lost |
| Pip1Keeper.IncreaseBalanceOf | lockproxypip1/internal/keeper/keeper.go:152-157 | the tuple's balance rises by the amount and no other key changes |
| Pip1Keeper.DecreaseBalanceOf | lockproxypip1/internal/keeper/keeper.go:159-168 | fails with the insufficient-balance error iff the balance would go negative; otherwise it falls by the amount and no other key changes |
| Pip1Keeper.IncreaseKeepsNonNegative | lockproxypip1/internal/keeper/keeper.go:152-157 | a non-negative increase keeps every balance non-negative |
| Pip1Keeper.DecreaseKeepsNonNegative | lockproxypip1/internal/keeper/keeper.go:159-168 | a successful decrease keeps every balance non-negative |
| Pip1Keeper.RegisterAssetSpec | lockproxypip1/internal/keeper/keeper.go:177-205 | for an existing proxy, registering from the bytes of registration arguments has the same outcome as registering their tuple directly |
| Pip1Keeper.CreateCoinAndDelegateSpec | lockproxypip1/internal/keeper/keeper.go:207-236 | succeeds only for a denom that did not exist; the creator is recorded, the tuple registered and the balance raised by the coin amount, keeping balances non-negative |
| Pip1Keeper.LockSpec | lockproxypip1/internal/keeper/keeper.go:238-311 | a successful lock needs a proxy and a registered tuple; its balance rises by the value less any deducted fee; the envelope holds the encoded arguments; a deducted fee lies in (0, value] with a fee address and the arguments then carry value minus fee and fee 0, otherwise value and fee; balances stay non-negative |
| Pip1Keeper.UnlockSpec | lockproxypip1/internal/keeper/keeper.go:313-386 | a successful unlock needs a registered tuple and, when a fee is paid, a fee no larger than the amount and a fee address; the balance falls by the full amount and stays non-negative |
| Pip1Keeper.UnlockRejectsOversizedFee | lockproxypip1/internal/keeper/keeper.go:339-342 | an unlock whose fee exceeds its amount fails |
| Pip1Keeper.Keeper.constructor | lockproxypip1/internal/keeper/keeper.go:47-63 | a new keeper has an empty store |
| Pip1Keeper.Keeper.ContainToContractAddr | lockproxypip1/internal/keeper/keeper.go:77-79 | true iff the (proxy, chain) bind key is present |
| Pip1Keeper.Keeper.EnsureLockProxyExist | lockproxypip1/internal/keeper/keeper.go:98-101 | true iff the creator's proxy exists |
| Pip1Keeper.Keeper.GetLockProxyByOperator | lockproxypip1/internal/keeper/keeper.go:103-110 | returns the operator's proxy or no bytes |
| Pip1Keeper.Keeper.CreateLockProxy | lockproxypip1/internal/keeper/keeper.go:81-96 | follows the creation specification |
| Pip1Keeper.Keeper.AssetIsRegistered | lockproxypip1/internal/keeper/keeper.go:170-175 | true iff the tuple's registry key is present |
| Pip1Keeper.Keeper.UpdateRegistry | lockproxypip1/internal/keeper/keeper.go:112-127 | follows the registry specification |
| Pip1Keeper.Keeper.GetBalance | lockproxypip1/internal/keeper/keeper.go:129-141 | returns the stored balance, 0 when never set |
| Pip1Keeper.Keeper.StoreBalance | lockproxypip1/internal/keeper/keeper.go:143-150 | sets that one balance key |
| Pip1Keeper.Keeper.IncreaseBalance | lockproxypip1/internal/keeper/keeper.go:152-157 | follows the increase specification |
| Pip1Keeper.Keeper.DecreaseBalance | lockproxypip1/internal/keeper/keeper.go:159-168 | follows the decrease specification; unchanged on failure |
| Pip1Keeper.Keeper.RegisterAsset | lockproxypip1/internal/keeper/keeper.go:177-205 | follows the registration specification |
| Pip1Keeper.Keeper.CreateCoinAndDelegateToProxy | lockproxypip1/internal/keeper/keeper.go:207-236 | follows the coin-creation specification |
| Pip1Keeper.Keeper.Lock | lockproxypip1/internal/keeper/keeper.go:238-311 | follows the lock specification |
| Pip1Keeper.Keeper.Unlock | lockproxypip1/internal/keeper/keeper.go:313-386 | follows the unlock specification |
| BtcxArgs.BTCArgsBytes | btcx/internal/types/args.go:63-67 | the address, the 8-byte amount and a length prefix: at least 9 bytes beyond the address |
| BtcxArgs.ToBTCArgsBytes | btcx/internal/types/args.go:31-36 | the address, the amount and the redeem script, with two length prefixes |
| BtcxArgs.BTCArgsRoundTrip | btcx/internal/types/args.go:63-81 | serialized Bitcoin arguments deserialize to themselves, leaving what followed |
| BtcxArgs.ToBTCArgsRoundTrip | btcx/internal/types/args.go:31-56 | serialized to-Bitcoin arguments deserialize to themselves, leaving what followed |
| BtcxArgs.BTCArgsExtend | btcx/internal/types/args.go:69-81 | bytes after readable Bitcoin arguments do not change what is read |
| BtcxArgs.ToBTCArgsExtend | btcx/internal/types/args.go:38-56 | bytes after readable to-Bitcoin arguments do not change what is read |
| BtcxArgs.BTCArgsTruncated | btcx/internal/types/args.go:69-81 | a strict prefix of serialized Bitcoin arguments does not deserialize |
| BtcxArgs.ToBTCArgsTruncated | btcx/internal/types/args.go:38-56 | a strict prefix of serialized to-Bitcoin arguments does not deserialize |
| BtcxArgs.BTCArgsPrefixOfToBTCArgs | btcx/internal/types/args.go:31-81 | to-Bitcoin bytes are Bitcoin bytes followed by the length-prefixed script, so a Bitcoin-arguments reader reads (address, amount) from them |
| BtcxArgs.SerializeToBTCArgs | btcx/internal/types/args.go:31-36 | appends exactly the serialization |
| BtcxArgs.SerializeBTCArgs | btcx/internal/types/args.go:63-67 | appends exactly the serialization |
| BtcxArgs.DeserializeToBTCArgs | btcx/internal/types/args.go:38-56 | fails iff the bytes do not start with to-Bitcoin arguments; otherwise returns them and advances |
| BtcxArgs.DeserializeBTCArgs | btcx/internal/types/args.go:69-81 | fails iff the bytes do not start with Bitcoin arguments; otherwise returns them and advances |
| BtcxMsgs.ValidateCreateDenom | btcx/internal/types/msgs.go:50-61 | passes iff the creator is non-empty, the denom valid and the redeem script is hex text, failing on the first in that order |
| BtcxMsgs.ValidateBindAssetHash | btcx/internal/types/msgs.go:98-112 | passes iff the creator is non-empty, the denom valid, the chain not 0 and the asset hash non-empty, in that order |
| BtcxMsgs.ValidateLock | btcx/internal/types/msgs.go:151-168 | passes iff sender, valid denom, target chain and address are present and the value is not negative, in that order |
| BtcxMsgs.CreateDenomSigners | btcx/internal/types/msgs.go:78-80 | the only signer is the creator |
| BtcxMsgs.BindAssetHashSigners | btcx/internal/types/msgs.go:130-132 | the only signer is the creator |
| BtcxMsgs.LockSigners | btcx/internal/types/msgs.go:187-189 | the only signer is the sender |
| BtcxKeeper.CreateDenomSpec | btcx/internal/keeper/keeper.go:71-98 | succeeds iff the denom does not exist and the script is hex; the creator is recorded, the script's hash160 and the script are stored, and the creator's script lookup finds it |
| BtcxKeeper.BindAssetHashSpec | btcx/internal/keeper/keeper.go:100-120 | succeeds iff the caller is the denom's recorded creator in the manager and in btcx; the asset hash is then bound |
| BtcxKeeper.LockSpec | btcx/internal/keeper/keeper.go:122-181 | a successful lock needs a bound asset and 0 <= amount < 2^64-1, burns the coins, and emits the envelope whose payload a Bitcoin-arguments reader reads as (target address, amount) |
| BtcxKeeper.LockToBitcoinNeedsScript | btcx/internal/keeper/keeper.go:134-143 | a lock towards the Bitcoin chain needs a recorded creator with a non-empty redeem script |
| BtcxKeeper.UnlockSpec | btcx/internal/keeper/keeper.go:183-214 | a successful unlock decodes its arguments, comes from the bound non-empty asset hash, and mints the amount to the decoded address |
| BtcxKeeper.UnlockReadsLockedAmount | btcx/internal/keeper/keeper.go:143-214 | whichever argument form a lock emitted, the unlock reader recovers its address and amount |
| BtcxKeeper.Keeper.constructor | btcx/internal/keeper/keeper.go:48-64 | a new keeper has empty stores |
| BtcxKeeper.Keeper.ContainToContractAddr | btcx/internal/keeper/keeper.go:242-244 | true iff an asset hash is bound for the (denom, chain) pair |
| BtcxKeeper.Keeper.ValidCreator | btcx/internal/keeper/keeper.go:246-248 | true iff the caller is the denom's recorded creator |
| BtcxKeeper.Keeper.CreateDenom | btcx/internal/keeper/keeper.go:71-98 | follows the creation specification; a bad script fails after the creator was written, which the host rolls back |
| BtcxKeeper.Keeper.BindAssetHash | btcx/internal/keeper/keeper.go:100-120 | follows the binding specification |
| BtcxKeeper.Keeper.EncodeLockArgs | btcx/internal/keeper/keeper.go:132-159 | returns exactly the lock payload the specification gives |
| BtcxKeeper.Keeper.Lock | btcx/internal/keeper/keeper.go:122-181 | follows the lock specification |
| BtcxKeeper.Keeper.Unlock | btcx/internal/keeper/keeper.go:183-214 | follows the unlock specification |
| FtKeys.GetBindAssetHashKey | ft/internal/keeper/key.go:29-33 | prefix 0x01, the denom, the chain id in 8 little-endian bytes |
| FtKeys.GetIndependentCrossDenomKey | ft/internal/keeper/key.go:35-37 | prefix 0x02 followed by the denom |
| FtKeys.KeyFamiliesDisjoint | ft/internal/keeper/key.go:25-37 | bind keys and independence markers never coincide |
| FtKeys.BindKeyInjectiveInChain | ft/internal/keeper/key.go:29-33 | for one denom, distinct chains get distinct bind keys |
| FtKeys.IndependentKeyInjective | ft/internal/keeper/key.go:35-37 | distinct denoms get distinct markers |
| FtMsgs.ValidateCreateDenom | ft/internal/types/msgs.go:48-56 | passes iff the creator is non-empty and the denom valid, the address first |
| FtMsgs.ValidateBindAssetHash | ft/internal/types/msgs.go:92-109 | passes iff the creator is non-empty, the denom valid, the chain not 0 and the asset hash non-empty |
| FtMsgs.ValidateLock | ft/internal/types/msgs.go:148-168 | passes iff sender, valid denom, target chain and address are present and the value is not negative |
| FtMsgs.ValidateCreateCoins | ft/internal/types/msgs.go:204-212 | passes iff the creator is non-empty and the coins text parses |
| FtMsgs.CreateDenomSigners | ft/internal/types/msgs.go:72-74 | the only signer is the creator |
| FtMsgs.BindAssetHashSigners | ft/internal/types/msgs.go:127-129 | the only signer is the creator |
| FtMsgs.LockSigners | ft/internal/types/msgs.go:187-189 | the only signer is the sender |
| FtMsgs.CreateCoinsSigners | ft/internal/types/msgs.go:228-230 | the only signer is the creator |
| FtKeeper.ValidCreatorIff | ft/internal/keeper/ft_crossed_indenpently.go:169-173 | a caller is a valid creator iff it is the denom's recorded creator |
| FtKeeper.ContainToContractAddrIff | ft/internal/keeper/ft_crossed_indenpently.go:165-167 | a pair is contained iff a binding is stored for it, even an empty one |
| FtKeeper.CreateDenomSpec | ft/internal/keeper/ft_crossed_indenpently.go:30-46 | fails iff the denom exists; the creator is recorded and the denom marked independent, no other key changes, and a second creation by a non-empty creator fails |
| FtKeeper.BindAssetHashSpec | ft/internal/keeper/ft_crossed_indenpently.go:48-71 | succeeds iff the caller is the creator of an independent denom; the asset hash is then bound and the pair contained |
| FtKeeper.RebindOverwrites | ft/internal/keeper/ft_crossed_indenpently.go:48-71 | binding the same pair twice keeps the second asset hash |
| FtKeeper.CreateThenBind | ft/internal/keeper/ft_crossed_indenpently.go:30-71 | after a creation only its creator can bind the denom |
| FtKeeper.LockSpec | ft/internal/keeper/ft_crossed_indenpently.go:73-111 | a successful lock needs a binding, encodable arguments and a non-negative amount it can burn, and emits exactly the manager's envelope for the bound asset |
| FtKeeper.LockNeedsBinding | ft/internal/keeper/ft_crossed_indenpently.go:84-89 | without a binding the lock fails with the missing-asset error |
| FtKeeper.UnlockSpec | ft/internal/keeper/ft_crossed_indenpently.go:113-142 | a sender other than the stored binding fails; a successful unlock mints the decoded amount of the target denom to the decoded address |
| FtKeeper.UnlockAcceptsUnboundEmptySender | ft/internal/keeper/ft_crossed_indenpently.go:113-124 | an absent binding reads as no bytes, so an empty sender passes the comparison for an unbound pair and fails, if at all, only at the coin or mint step |
| FtKeeper.Keeper.constructor | ft/internal/keeper/keeper.go:40-56 | a new keeper has an empty store |
| FtKeeper.Keeper.ValidCreator | ft/internal/keeper/ft_crossed_indenpently.go:169-173 | returns whether the caller is the recorded creator |
| FtKeeper.Keeper.ContainToContractAddr | ft/internal/keeper/ft_crossed_indenpently.go:165-167 | returns whether the pair is bound |
| FtKeeper.Keeper.CreateDenom | ft/internal/keeper/ft_crossed_indenpently.go:30-46 | follows the creation specification |
| FtKeeper.Keeper.BindAssetHash | ft/internal/keeper/ft_crossed_indenpently.go:48-71 | follows the binding specification |
| FtKeeper.Keeper.Lock | ft/internal/keeper/ft_crossed_indenpently.go:73-111 | follows the lock specification |
| FtKeeper.Keeper.Unlock | ft/internal/keeper/ft_crossed_indenpently.go:113-142 | follows the unlock specification |

## Left out

- Front ends:
  - command-line and REST clients;
  - message handlers and queriers (`GetDenomInfo`, `GetDenomCrossChainInfo`);
  - genesis import and export;
  - amino registration;
  - `GetParams` and `SetParams`;
  - `GetModuleBalance`.

  These are glue between the Cosmos host and the keepers. The model starts at the keeper operations and at each message's `ValidateBasic` and `GetSigners`.
- Events and logging are not modelled: they do not affect state.
- Cryptography and header parsing are parameters, not definitions:
  - the Poly header hash, multisignature verification and Merkle proof;
  - the JSON consensus payload inside a header;
  - tmhash, sha256 and hash160;
  - `Pad32`/`Unpad32`;
  - the sdk's denom, coin and address checks.

  The model covers what the modules do with their results.
- The Poly codec library is not part of this model. The codec here follows its documented wire format. The decoder accepts non-minimal var-uints, as that library's reader does.
- The encodings of `MakeTxParam`, `ToMerkleValue`, the fee transaction arguments and the ft transfer arguments are supplied by the environment. They are defined in libraries that are not part of this model.
- lockproxy's own `args.go` is not part of this model. The lockproxy lock uses the transfer-argument layout modelled for lockproxypip1 (asset hash, address, amount).
- The store-key files of ccm, lockproxy and btcx are not part of this model. Those stores are modelled as typed Dafny maps instead of byte-keyed stores. The headersync, lockproxypip1 and ft key layouts are modelled byte for byte.
- Rollback: the host's discarding of a failed transaction's writes is assumed, not modelled. Most keeper methods therefore say nothing about their state after a failure. This includes the methods that write and can then fail: `CcmKeeper.Keeper.ProcessCrossChainTx`, `Pip1Keeper.Keeper.Lock`, `Pip1Keeper.Keeper.CreateCoinAndDelegateToProxy`, `BtcxKeeper.Keeper.Lock`, `LockProxyKeeper.Keeper.Lock`, `FtKeeper.Keeper.Lock`, and `HeaderSyncKeeper.Keeper.SyncBlockHeaders`, which leaves the headers before the failing one installed.
- The state of other modules is outside this model:
  - bank balances, supply and account creation are answers of the `Host` environment;
  - a module's unlock inside ccm routing is an answer of `UnlockKeepers`.
- Pip1Keeper.Lock: the result of the fee transfer `SendCoins` is ignored, as in the source; the model does not ask the host about it.
- `sdk.NewCoin` panics on a bad denom or a negative amount. Here that panic is an error result whose condition is `NewCoinOk`.
- The amino encoding errors of `getCrossChainId`/`setCrossChainId` are not modelled. The counter is held as a number.
- A store `Set` makes its key present even when the value is empty, and the presence tests (the source's `!= nil` checks) see such a key. A `Get` of an absent key reads as no bytes, or as 0 for a stored amount.
- sdk.Int is modelled as an unbounded `int`. The sdk's `NewIntFromBigInt`, `Add` and `Sub` panic on results wider than 255 bits, for example an unlock amount decoded from 32 bytes that is at least 2^255, or a locked amount or balance pushed past 2^255 - 1. The model lets these amounts through, while the source aborts the transaction. The affected calls are ft/internal/keeper/ft_crossed_indenpently.go:128, lockproxy/internal/keeper/keeper.go:223, 266 and 279, and lockproxypip1/internal/keeper/keeper.go:155, 162 and 321-322.
- Pip1Keeper.CreateCoinAndDelegateToProxyOf: `sdk.NewCoins(coin)` drops a zero coin before it checks the denom, so a zero amount with an invalid denom does not panic in the source. The model asks `NewCoinOk` and fails there. The message check `Coin.IsValid` already refuses an invalid denom, so the difference cannot be reached through the message handler.
- ft's `keeper.go` coin operations (`CreateCoins`, mint and burn helpers) and the lockproxy-mediated ft path are not modelled. They are bank calls and are summarised by the `Host` environment.
- HeaderSyncKeeper.UpdateConsensusPeerSpec: stated under `CollaboratorsFit`. That assumption says the collaborator's peer ids fit the stored type.
- Pip1Args.TxArgsRoundTrip: stated under `PadInverts`, which says that unpadding inverts padding. The pad is a parameter.
- Pip1Keys.GetHashKey: its 160-byte length holds only under `DigestsAre32`, because the hash function is a parameter.
- HeaderSyncTypes.ListPeers: Go iterates maps in an unspecified order. The collection is therefore modelled as an arbitrary listing of the map's values and proved correct for every listing.
- CcmKeeper.Keeper.RouteUnlock: the route may also depend on map order. The model admits any claimant, which covers the source's first claimant whatever the order.
- BtcxKeeper.Lock: an amount that does not fit in 64 bits is converted via its low bits, as `BigInt().Uint64()` does. The lock's guard keeps amounts below 2^64-1, so this stays in range on the success path.
- btcx's `MintCoins`/`BurnCoins` wrappers are host calls. Their success is an answer of the `Host` environment.
- The multisignature failure error types of headersync are collapsed into one error constructor.
- headersync store keys: headersync/internal/keeper/keeper.go:183 calls `GetConsensusPeerKey` with a chain id only. The key-header-hash key it reads is not defined in key.go, and key.go's `GetConsensusPeerKey` takes a height as well. The keeper's two stores are modelled as maps from chain id, which is how keeper.go uses them. key.go's layouts are modelled as written, in `HeaderSyncKeys`.
