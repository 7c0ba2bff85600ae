/** The cross-chain manager's two messages and their stateless checks. */
module CcmMsgs {
  import opened Wrappers
  import opened Codec

  const TypeMsgProcessCrossChainTx: string := "process_cross_chain_tx"
  /** MsgCreateCrossChainTx reports this type, shared with a coin-creation message name. */
  const TypeMsgCreateCoins: string := "create_coins"

  datatype MsgError = InvalidAddress | MsgProcessCrossChainTx | MsgCreateCrossChainTx

  /** Which check of a message failed, for messages whose checks share one error kind. */
  datatype Rejection = Rejection(error: MsgError, field: string)

  datatype ProcessCrossChainTxMsg = ProcessCrossChainTxMsg(
    submitter: Bytes, fromChainId: uint64, height: uint32, proof: Bytes, header: Bytes)

  datatype CreateCrossChainTxMsg = CreateCrossChainTxMsg(
    toChainId: uint64, toContractAddress: Bytes, methodName: Bytes, args: Bytes)

  /** Rejects, in order: empty submitter, empty proof, empty header. */
  function ValidateProcessCrossChainTx(msg: ProcessCrossChainTxMsg): (r: Outcome<Rejection>)
    ensures r.Pass? <==> msg.submitter != [] && msg.proof != [] && msg.header != []
    ensures msg.submitter == [] ==> r == Fail(Rejection(InvalidAddress, "Submitter"))
    ensures msg.submitter != [] && msg.proof == [] ==> r == Fail(Rejection(MsgProcessCrossChainTx, "Proof"))
    ensures msg.submitter != [] && msg.proof != [] && msg.header == [] ==> r == Fail(Rejection(MsgProcessCrossChainTx, "Header"))
  {
    if msg.submitter == [] then Fail(Rejection(InvalidAddress, "Submitter"))
    else if msg.proof == [] then Fail(Rejection(MsgProcessCrossChainTx, "Proof"))
    else if msg.header == [] then Fail(Rejection(MsgProcessCrossChainTx, "Header"))
    else Pass
  }

  /** Rejects, in order: chain id 0, empty target contract, empty method, empty args. */
  function ValidateCreateCrossChainTx(msg: CreateCrossChainTxMsg): (r: Outcome<Rejection>)
    ensures r.Pass? <==> msg.toChainId != 0 && msg.toContractAddress != [] && msg.methodName != [] && msg.args != []
    ensures msg.toChainId == 0 ==> r == Fail(Rejection(MsgCreateCrossChainTx, "ToChainID"))
    ensures msg.toChainId != 0 && msg.toContractAddress == [] ==> r == Fail(Rejection(MsgCreateCrossChainTx, "ToContractAddress"))
    ensures msg.toChainId != 0 && msg.toContractAddress != [] && msg.methodName == [] ==> r == Fail(Rejection(MsgCreateCrossChainTx, "Method"))
    ensures msg.toChainId != 0 && msg.toContractAddress != [] && msg.methodName != [] && msg.args == [] ==> r == Fail(Rejection(MsgCreateCrossChainTx, "Args"))
  {
    if msg.toChainId == 0 then Fail(Rejection(MsgCreateCrossChainTx, "ToChainID"))
    else if msg.toContractAddress == [] then Fail(Rejection(MsgCreateCrossChainTx, "ToContractAddress"))
    else if msg.methodName == [] then Fail(Rejection(MsgCreateCrossChainTx, "Method"))
    else if msg.args == [] then Fail(Rejection(MsgCreateCrossChainTx, "Args"))
    else Pass
  }

  function ProcessCrossChainTxSigners(msg: ProcessCrossChainTxMsg): (r: seq<Bytes>)
    ensures |r| == 1 && r[0] == msg.submitter
  {
    [msg.submitter]
  }

  /** MsgCreateCrossChainTx names no signer. */
  function CreateCrossChainTxSigners(msg: CreateCrossChainTxMsg): (r: seq<Bytes>)
    ensures r == []
  {
    []
  }
}
