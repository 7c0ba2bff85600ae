/**
 * Parameters of the cross-chain manager: the id this chain has in the poly
 * network, which must be configured to a non-zero value.
 */
module CcmParams {
  import opened Wrappers
  import opened Codec

  datatype Params = Params(chainIdInPolyNet: uint64)

  /** A parameter value of any dynamic type, as the parameter store hands it over. */
  datatype ParamValue = Uint64Value(v: uint64) | OtherValue

  datatype ParamError = InvalidParameterType | ZeroChainId

  function DefaultParams(): (p: Params)
    ensures p.chainIdInPolyNet == 0
  {
    Params(0)
  }

  /** Accepts exactly the non-zero uint64 values; a value of another type is refused first. */
  function ValidateChainId(i: ParamValue): (r: Outcome<ParamError>)
    ensures r.Pass? <==> i.Uint64Value? && i.v != 0
    ensures i.OtherValue? ==> r == Fail(InvalidParameterType)
    ensures i.Uint64Value? && i.v == 0 ==> r == Fail(ZeroChainId)
  {
    match i
    case OtherValue => Fail(InvalidParameterType)
    case Uint64Value(v) => if v == 0 then Fail(ZeroChainId) else Pass
  }

  function Validate(p: Params): (r: Outcome<ParamError>)
    ensures r.Pass? <==> p.chainIdInPolyNet != 0
  {
    ValidateChainId(Uint64Value(p.chainIdInPolyNet))
  }

  /** The defaults do not validate: the chain id has to be set by hand. */
  lemma DefaultParamsInvalid()
    ensures Validate(DefaultParams()) == Fail(ZeroChainId)
  {
  }
}
