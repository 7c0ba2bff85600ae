/**
 * The two argument codecs of the lockproxypip1 module: TxArgs (asset hash,
 * address, padded amount) and RegisterAssetTxArgs (two hashes). Both are
 * var-bytes fields written to a sink and read back from a source; a
 * failed read returns nothing, as the Go receiver is left unassigned.
 *
 * Padding of the amount to intLen bytes (Pad32Bytes / Unpad32Bytes) is a
 * collaborator.
 */
module Pip1Args {
  import opened Wrappers
  import opened Codec

  datatype PadCodec = PadCodec(pad: (int, nat) -> Option<Bytes>, unpad: (Bytes, nat) -> Option<int>)

  /** A successful pad yields exactly intLen bytes, and unpadding them gives the amount back. */
  ghost predicate PadInverts(pc: PadCodec)
  {
    forall a: int, n: nat :: pc.pad(a, n).Some? ==> |pc.pad(a, n).value| == n && pc.unpad(pc.pad(a, n).value, n) == Some(a)
  }

  datatype TxArgs = TxArgs(toAssetHash: Bytes, toAddress: Bytes, amount: int)

  /** Var-bytes ToAssetHash, var-bytes ToAddress, then the padded amount; None when padding fails. */
  function TxArgsBytes(pc: PadCodec, a: TxArgs, intLen: nat): (r: Option<Bytes>)
    ensures r.None? <==> pc.pad(a.amount, intLen).None?
    ensures r.Some? ==> r.value == VarBytes(a.toAssetHash) + VarBytes(a.toAddress) + pc.pad(a.amount, intLen).value
  {
    match pc.pad(a.amount, intLen)
    case None => None
    case Some(p) => Some(VarBytes(a.toAssetHash) + VarBytes(a.toAddress) + p)
  }

  function DecodeTxArgs(pc: PadCodec, s: Bytes, intLen: nat): Option<(TxArgs, Bytes)>
  {
    match DecodeVarBytes(s)
    case None => None
    case Some((toAssetHash, s1)) =>
      match DecodeVarBytes(s1)
      case None => None
      case Some((toAddress, s2)) =>
        match DecodeBytes(s2, intLen)
        case None => None
        case Some((padded, s3)) =>
          match pc.unpad(padded, intLen)
          case None => None
          case Some(amount) => Some((TxArgs(toAssetHash, toAddress, amount), s3))
  }

  lemma TxArgsRoundTrip(pc: PadCodec, a: TxArgs, intLen: nat, rest: Bytes)
    requires PadInverts(pc)
    requires |a.toAssetHash| <= MAX_UINT64 && |a.toAddress| <= MAX_UINT64
    requires TxArgsBytes(pc, a, intLen).Some?
    ensures DecodeTxArgs(pc, TxArgsBytes(pc, a, intLen).value + rest, intLen) == Some((a, rest))
  {
    var p := pc.pad(a.amount, intLen).value;
    var v1, v2 := VarBytes(a.toAssetHash), VarBytes(a.toAddress);
    AppendThree(v1, v2, p, rest);
    VarBytesRoundTrip(a.toAssetHash, v2 + p + rest);
    AppendTwo(v2, p, rest);
    VarBytesRoundTrip(a.toAddress, p + rest);
    assert (p + rest)[..intLen] == p && (p + rest)[intLen..] == rest;
  }

  lemma TxArgsExtend(pc: PadCodec, s: Bytes, intLen: nat, t: Bytes)
    requires DecodeTxArgs(pc, s, intLen).Some?
    ensures DecodeTxArgs(pc, s + t, intLen)
         == Some((DecodeTxArgs(pc, s, intLen).value.0, DecodeTxArgs(pc, s, intLen).value.1 + t))
  {
    VarBytesExtend(s, t);
    var s1 := DecodeVarBytes(s).value.1;
    VarBytesExtend(s1, t);
    var s2 := DecodeVarBytes(s1).value.1;
    NextBytesExtend(s2, intLen, t);
  }

  /** Any strict prefix of an encoding fails to decode. */
  lemma TxArgsTruncated(pc: PadCodec, a: TxArgs, intLen: nat, cut: nat)
    requires PadInverts(pc)
    requires |a.toAssetHash| <= MAX_UINT64 && |a.toAddress| <= MAX_UINT64
    requires TxArgsBytes(pc, a, intLen).Some? && cut < |TxArgsBytes(pc, a, intLen).value|
    ensures DecodeTxArgs(pc, TxArgsBytes(pc, a, intLen).value[..cut], intLen).None?
  {
    var e := TxArgsBytes(pc, a, intLen).value;
    var pre, post := e[..cut], e[cut..];
    SplitJoin(e, cut);
    TxArgsRoundTrip(pc, a, intLen, []);
    AppendNothing(e);
    if DecodeTxArgs(pc, pre, intLen).Some? {
      TxArgsExtend(pc, pre, intLen, post);
      assert false;
    }
  }

  /** TxArgs.Serialization: the two var-bytes fields are written before the pad can fail. */
  method SerializeTxArgs(pc: PadCodec, a: TxArgs, sink: Sink, intLen: nat) returns (r: Outcome<()>)
    modifies sink
    ensures r.Pass? <==> TxArgsBytes(pc, a, intLen).Some?
    ensures r.Pass? ==> sink.buf == old(sink.buf) + TxArgsBytes(pc, a, intLen).value
    ensures r.Fail? ==> sink.buf == old(sink.buf) + VarBytes(a.toAssetHash) + VarBytes(a.toAddress)
  {
    ghost var b0 := sink.buf;
    sink.WriteVarBytes(a.toAssetHash);
    sink.WriteVarBytes(a.toAddress);
    var padded := pc.pad(a.amount, intLen);
    if padded.None? {
      return Fail(());
    }
    sink.WriteBytes(padded.value);
    AppendThree(b0, VarBytes(a.toAssetHash), VarBytes(a.toAddress), padded.value);
    return Pass;
  }

  method DeserializeTxArgs(pc: PadCodec, source: Source, intLen: nat) returns (r: Option<TxArgs>)
    requires source.Valid()
    modifies source
    ensures source.Valid()
    ensures r.None? <==> DecodeTxArgs(pc, old(source.Rest()), intLen).None?
    ensures r.Some? ==> DecodeTxArgs(pc, old(source.Rest()), intLen) == Some((r.value, source.Rest()))
  {
    var toAssetHash, eof := source.NextVarBytes();
    if eof {
      return None;
    }
    var toAddress;
    toAddress, eof := source.NextVarBytes();
    if eof {
      return None;
    }
    var padded;
    padded, eof := source.NextBytes(intLen);
    if eof {
      return None;
    }
    var amount := pc.unpad(padded, intLen);
    if amount.None? {
      return None;
    }
    return Some(TxArgs(toAssetHash, toAddress, amount.value));
  }

  datatype RegisterAssetTxArgs = RegisterAssetTxArgs(assetHash: Bytes, nativeAssetHash: Bytes)

  function RegisterAssetArgsBytes(a: RegisterAssetTxArgs): (r: Bytes)
    ensures |r| >= 2
  {
    VarBytes(a.assetHash) + VarBytes(a.nativeAssetHash)
  }

  function DecodeRegisterAssetArgs(s: Bytes): Option<(RegisterAssetTxArgs, Bytes)>
  {
    match DecodeVarBytes(s)
    case None => None
    case Some((assetHash, s1)) =>
      match DecodeVarBytes(s1)
      case None => None
      case Some((nativeAssetHash, s2)) => Some((RegisterAssetTxArgs(assetHash, nativeAssetHash), s2))
  }

  lemma RegisterAssetArgsRoundTrip(a: RegisterAssetTxArgs, rest: Bytes)
    requires |a.assetHash| <= MAX_UINT64 && |a.nativeAssetHash| <= MAX_UINT64
    ensures DecodeRegisterAssetArgs(RegisterAssetArgsBytes(a) + rest) == Some((a, rest))
  {
    var tail := VarBytes(a.nativeAssetHash) + rest;
    assert RegisterAssetArgsBytes(a) + rest == VarBytes(a.assetHash) + tail;
    VarBytesRoundTrip(a.assetHash, tail);
    VarBytesRoundTrip(a.nativeAssetHash, rest);
  }

  lemma RegisterAssetArgsExtend(s: Bytes, t: Bytes)
    requires DecodeRegisterAssetArgs(s).Some?
    ensures DecodeRegisterAssetArgs(s + t)
         == Some((DecodeRegisterAssetArgs(s).value.0, DecodeRegisterAssetArgs(s).value.1 + t))
  {
    VarBytesExtend(s, t);
    VarBytesExtend(DecodeVarBytes(s).value.1, t);
  }

  lemma RegisterAssetArgsTruncated(a: RegisterAssetTxArgs, cut: nat)
    requires |a.assetHash| <= MAX_UINT64 && |a.nativeAssetHash| <= MAX_UINT64
    requires cut < |RegisterAssetArgsBytes(a)|
    ensures DecodeRegisterAssetArgs(RegisterAssetArgsBytes(a)[..cut]).None?
  {
    var e := RegisterAssetArgsBytes(a);
    var pre, post := e[..cut], e[cut..];
    SplitJoin(e, cut);
    RegisterAssetArgsRoundTrip(a, []);
    AppendNothing(e);
    if DecodeRegisterAssetArgs(pre).Some? {
      RegisterAssetArgsExtend(pre, post);
      assert false;
    }
  }

  /** RegisterAssetTxArgs.Serialization never fails. */
  method SerializeRegisterAssetArgs(a: RegisterAssetTxArgs, sink: Sink)
    modifies sink
    ensures sink.buf == old(sink.buf) + RegisterAssetArgsBytes(a)
  {
    ghost var b0 := sink.buf;
    sink.WriteVarBytes(a.assetHash);
    sink.WriteVarBytes(a.nativeAssetHash);
    AppendTwo(b0, VarBytes(a.assetHash), VarBytes(a.nativeAssetHash));
  }

  method DeserializeRegisterAssetArgs(source: Source) returns (r: Option<RegisterAssetTxArgs>)
    requires source.Valid()
    modifies source
    ensures source.Valid()
    ensures r.None? <==> DecodeRegisterAssetArgs(old(source.Rest())).None?
    ensures r.Some? ==> DecodeRegisterAssetArgs(old(source.Rest())) == Some((r.value, source.Rest()))
  {
    var assetHash, eof := source.NextVarBytes();
    if eof {
      return None;
    }
    var nativeAssetHash;
    nativeAssetHash, eof := source.NextVarBytes();
    if eof {
      return None;
    }
    return Some(RegisterAssetTxArgs(assetHash, nativeAssetHash));
  }
}
