/**
 * The two argument records of the btcx module. ToBTCArgs, sent to the
 * Bitcoin chain, is BTCArgs (address and amount) followed by the redeem
 * script; both are written to a sink and read from a source, and a failed
 * read returns nothing, as the Go receiver is left unassigned.
 */
module BtcxArgs {
  import opened Wrappers
  import opened Codec

  datatype ToBTCArgs = ToBTCArgs(toBtcAddress: Bytes, amount: uint64, redeemScript: Bytes)
  datatype BTCArgs = BTCArgs(toBtcAddress: Bytes, amount: uint64)

  function BTCArgsBytes(a: BTCArgs): (r: Bytes)
    ensures |r| >= |a.toBtcAddress| + 9
  {
    VarBytes(a.toBtcAddress) + Uint64Bytes(a.amount)
  }

  /** Var-bytes address, 8-byte little-endian amount, var-bytes redeem script. */
  function ToBTCArgsBytes(a: ToBTCArgs): (r: Bytes)
    ensures |r| >= |a.toBtcAddress| + |a.redeemScript| + 10
  {
    VarBytes(a.toBtcAddress) + Uint64Bytes(a.amount) + VarBytes(a.redeemScript)
  }

  function DecodeBTCArgs(s: Bytes): Option<(BTCArgs, Bytes)>
  {
    match DecodeVarBytes(s)
    case None => None
    case Some((addr, s1)) =>
      match DecodeUint64(s1)
      case None => None
      case Some((amt, s2)) => Some((BTCArgs(addr, amt), s2))
  }

  function DecodeToBTCArgs(s: Bytes): Option<(ToBTCArgs, Bytes)>
  {
    match DecodeVarBytes(s)
    case None => None
    case Some((addr, s1)) =>
      match DecodeUint64(s1)
      case None => None
      case Some((amt, s2)) =>
        match DecodeVarBytes(s2)
        case None => None
        case Some((script, s3)) => Some((ToBTCArgs(addr, amt, script), s3))
  }

  lemma BTCArgsRoundTrip(a: BTCArgs, rest: Bytes)
    requires |a.toBtcAddress| <= MAX_UINT64
    ensures DecodeBTCArgs(BTCArgsBytes(a) + rest) == Some((a, rest))
  {
    var tail := Uint64Bytes(a.amount) + rest;
    AppendTwo(VarBytes(a.toBtcAddress), Uint64Bytes(a.amount), rest);
    VarBytesRoundTrip(a.toBtcAddress, tail);
    Uint64RoundTrip(a.amount, rest);
  }

  lemma ToBTCArgsRoundTrip(a: ToBTCArgs, rest: Bytes)
    requires |a.toBtcAddress| <= MAX_UINT64 && |a.redeemScript| <= MAX_UINT64
    ensures DecodeToBTCArgs(ToBTCArgsBytes(a) + rest) == Some((a, rest))
  {
    var tail2 := VarBytes(a.redeemScript) + rest;
    var tail1 := Uint64Bytes(a.amount) + tail2;
    AppendThree(VarBytes(a.toBtcAddress), Uint64Bytes(a.amount), VarBytes(a.redeemScript), rest);
    AppendTwo(Uint64Bytes(a.amount), VarBytes(a.redeemScript), rest);
    VarBytesRoundTrip(a.toBtcAddress, tail1);
    Uint64RoundTrip(a.amount, tail2);
    VarBytesRoundTrip(a.redeemScript, rest);
  }

  lemma BTCArgsExtend(s: Bytes, t: Bytes)
    requires DecodeBTCArgs(s).Some?
    ensures DecodeBTCArgs(s + t) == Some((DecodeBTCArgs(s).value.0, DecodeBTCArgs(s).value.1 + t))
  {
    VarBytesExtend(s, t);
    Uint64Extend(DecodeVarBytes(s).value.1, t);
  }

  lemma ToBTCArgsExtend(s: Bytes, t: Bytes)
    requires DecodeToBTCArgs(s).Some?
    ensures DecodeToBTCArgs(s + t) == Some((DecodeToBTCArgs(s).value.0, DecodeToBTCArgs(s).value.1 + t))
  {
    VarBytesExtend(s, t);
    var s1 := DecodeVarBytes(s).value.1;
    Uint64Extend(s1, t);
    VarBytesExtend(DecodeUint64(s1).value.1, t);
  }

  /** Any strict prefix of a BTCArgs encoding fails to decode. */
  lemma BTCArgsTruncated(a: BTCArgs, cut: nat)
    requires |a.toBtcAddress| <= MAX_UINT64
    requires cut < |BTCArgsBytes(a)|
    ensures DecodeBTCArgs(BTCArgsBytes(a)[..cut]).None?
  {
    var e := BTCArgsBytes(a);
    var pre, post := e[..cut], e[cut..];
    SplitJoin(e, cut);
    BTCArgsRoundTrip(a, []);
    AppendNothing(e);
    if DecodeBTCArgs(pre).Some? {
      BTCArgsExtend(pre, post);
      assert false;
    }
  }

  /** Any strict prefix of a ToBTCArgs encoding fails to decode. */
  lemma ToBTCArgsTruncated(a: ToBTCArgs, cut: nat)
    requires |a.toBtcAddress| <= MAX_UINT64 && |a.redeemScript| <= MAX_UINT64
    requires cut < |ToBTCArgsBytes(a)|
    ensures DecodeToBTCArgs(ToBTCArgsBytes(a)[..cut]).None?
  {
    var e := ToBTCArgsBytes(a);
    var pre, post := e[..cut], e[cut..];
    SplitJoin(e, cut);
    ToBTCArgsRoundTrip(a, []);
    AppendNothing(e);
    if DecodeToBTCArgs(pre).Some? {
      ToBTCArgsExtend(pre, post);
      assert false;
    }
  }

  /**
   * A ToBTCArgs encoding starts with the BTCArgs encoding of its address
   * and amount, so a BTCArgs reader accepts it and leaves the var-bytes
   * redeem script unread.
   */
  lemma BTCArgsPrefixOfToBTCArgs(a: ToBTCArgs)
    requires |a.toBtcAddress| <= MAX_UINT64
    ensures ToBTCArgsBytes(a) == BTCArgsBytes(BTCArgs(a.toBtcAddress, a.amount)) + VarBytes(a.redeemScript)
    ensures DecodeBTCArgs(ToBTCArgsBytes(a)) == Some((BTCArgs(a.toBtcAddress, a.amount), VarBytes(a.redeemScript)))
  {
    BTCArgsRoundTrip(BTCArgs(a.toBtcAddress, a.amount), VarBytes(a.redeemScript));
  }

  /** ToBTCArgs.Serialization never fails. */
  method SerializeToBTCArgs(a: ToBTCArgs, sink: Sink)
    modifies sink
    ensures sink.buf == old(sink.buf) + ToBTCArgsBytes(a)
  {
    ghost var b0 := sink.buf;
    ghost var v1, u, v2 := VarBytes(a.toBtcAddress), Uint64Bytes(a.amount), VarBytes(a.redeemScript);
    sink.WriteVarBytes(a.toBtcAddress);
    sink.WriteUint64(a.amount);
    sink.WriteVarBytes(a.redeemScript);
    AppendThree(b0, v1, u, v2);
  }

  /** BTCArgs.Serialization never fails. */
  method SerializeBTCArgs(a: BTCArgs, sink: Sink)
    modifies sink
    ensures sink.buf == old(sink.buf) + BTCArgsBytes(a)
  {
    ghost var b0 := sink.buf;
    sink.WriteVarBytes(a.toBtcAddress);
    sink.WriteUint64(a.amount);
    AppendTwo(b0, VarBytes(a.toBtcAddress), Uint64Bytes(a.amount));
  }

  method DeserializeToBTCArgs(source: Source) returns (r: Option<ToBTCArgs>)
    requires source.Valid()
    modifies source
    ensures source.Valid()
    ensures r.None? <==> DecodeToBTCArgs(old(source.Rest())).None?
    ensures r.Some? ==> DecodeToBTCArgs(old(source.Rest())) == Some((r.value, source.Rest()))
  {
    var toBtcAddress, eof := source.NextVarBytes();
    if eof {
      return None;
    }
    var amt;
    amt, eof := source.NextUint64();
    if eof {
      return None;
    }
    var redeemScript;
    redeemScript, eof := source.NextVarBytes();
    if eof {
      return None;
    }
    return Some(ToBTCArgs(toBtcAddress, amt, redeemScript));
  }

  method DeserializeBTCArgs(source: Source) returns (r: Option<BTCArgs>)
    requires source.Valid()
    modifies source
    ensures source.Valid()
    ensures r.None? <==> DecodeBTCArgs(old(source.Rest())).None?
    ensures r.Some? ==> DecodeBTCArgs(old(source.Rest())) == Some((r.value, source.Rest()))
  {
    var toBtcAddress, eof := source.NextVarBytes();
    if eof {
      return None;
    }
    var amt;
    amt, eof := source.NextUint64();
    if eof {
      return None;
    }
    return Some(BTCArgs(toBtcAddress, amt));
  }
}
