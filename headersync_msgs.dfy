/**
 * The two header-sync transaction messages and their stateless checks. An
 * account address is empty exactly when it has no bytes.
 */
module HeaderSyncMsgs {
  import opened Wrappers
  import opened Codec

  const TypeMsgSyncGenesis: string := "sync_genesis"
  const TypeMsgSyncHeaders: string := "sync_headers"

  datatype MsgError = InvalidAddress | InvalidRequest

  datatype MsgSyncGenesisParam = MsgSyncGenesisParam(syncer: Bytes, genesisHeader: Bytes)
  datatype MsgSyncHeadersParam = MsgSyncHeadersParam(syncer: Bytes, headers: seq<Bytes>)

  /** Rejects an empty syncer first, then an empty genesis header. */
  function ValidateSyncGenesis(msg: MsgSyncGenesisParam): (r: Outcome<MsgError>)
    ensures r.Pass? <==> msg.syncer != [] && msg.genesisHeader != []
    ensures msg.syncer == [] ==> r == Fail(InvalidAddress)
    ensures msg.syncer != [] && msg.genesisHeader == [] ==> r == Fail(InvalidRequest)
  {
    if msg.syncer == [] then Fail(InvalidAddress)
    else if msg.genesisHeader == [] then Fail(InvalidRequest)
    else Pass
  }

  /**
   * Rejects an empty syncer first, then an empty header list; the headers
   * themselves are not inspected, so a list of empty headers passes.
   */
  function ValidateSyncHeaders(msg: MsgSyncHeadersParam): (r: Outcome<MsgError>)
    ensures r.Pass? <==> msg.syncer != [] && msg.headers != []
    ensures msg.syncer == [] ==> r == Fail(InvalidAddress)
    ensures msg.syncer != [] && msg.headers == [] ==> r == Fail(InvalidRequest)
  {
    if msg.syncer == [] then Fail(InvalidAddress)
    else if msg.headers == [] then Fail(InvalidRequest)
    else Pass
  }

  function SyncGenesisSigners(msg: MsgSyncGenesisParam): (r: seq<Bytes>)
    ensures |r| == 1 && r[0] == msg.syncer
  {
    [msg.syncer]
  }

  function SyncHeadersSigners(msg: MsgSyncHeadersParam): (r: seq<Bytes>)
    ensures |r| == 1 && r[0] == msg.syncer
  {
    [msg.syncer]
  }

  /** Header contents are not checked: any non-empty list passes with a valid syncer. */
  lemma EmptyHeadersAccepted(syncer: Bytes, n: nat)
    requires syncer != [] && n > 0
    ensures ValidateSyncHeaders(MsgSyncHeadersParam(syncer, seq(n, _ => []))).Pass?
  {
  }
}
