/**
 * The poly binary codec the modules serialize with: a write-only sink and a
 * read cursor over bytes. Fixed-width integers are little-endian; a var-uint
 * takes 1 byte below 0xFD, or a tag 0xFD/0xFE/0xFF followed by 2/4/8 bytes;
 * var-bytes are a var-uint length followed by the bytes. Go strings are byte
 * strings and are modelled as `Bytes` like slices.
 */
module Codec {
  import opened Wrappers

  type byte = x: int | 0 <= x < 256
  type Bytes = seq<byte>
  type uint16 = x: int | 0 <= x < 0x1_0000
  type uint32 = x: int | 0 <= x < 0x1_0000_0000
  type uint64 = x: int | 0 <= x < 0x1_0000_0000_0000_0000

  const MAX_UINT64: int := 0xFFFF_FFFF_FFFF_FFFF

  function Pow256(k: nat): (r: nat)
    ensures r > 0
  {
    if k == 0 then 1 else 256 * Pow256(k - 1)
  }

  /** The k-byte little-endian image of v (its low k bytes when v is larger). */
  function LE(v: nat, k: nat): (r: Bytes)
    ensures |r| == k
  {
    if k == 0 then [] else [v % 256] + LE(v / 256, k - 1)
  }

  /** The number a little-endian byte string denotes. */
  function FromLE(s: Bytes): (r: nat)
    ensures r < Pow256(|s|)
  {
    if s == [] then 0 else s[0] + 256 * FromLE(s[1..])
  }

  lemma {:induction false} FromLEOfLE(v: nat, k: nat)
    requires v < Pow256(k)
    ensures FromLE(LE(v, k)) == v
  {
    if k > 0 {
      assert v / 256 < Pow256(k - 1);
      FromLEOfLE(v / 256, k - 1);
      assert LE(v, k)[1..] == LE(v / 256, k - 1);
    }
  }

  /** Two numbers in range have the same k-byte image only if they are equal. */
  lemma LEInjective(v: nat, w: nat, k: nat)
    requires v < Pow256(k) && w < Pow256(k)
    requires LE(v, k) == LE(w, k)
    ensures v == w
  {
    FromLEOfLE(v, k);
    FromLEOfLE(w, k);
  }

  lemma Pow256Values()
    ensures Pow256(2) == 0x1_0000
    ensures Pow256(4) == 0x1_0000_0000
    ensures Pow256(8) == 0x1_0000_0000_0000_0000
  {
  }

  function Uint16Bytes(v: uint16): (r: Bytes) ensures |r| == 2 { LE(v, 2) }
  function Uint32Bytes(v: uint32): (r: Bytes) ensures |r| == 4 { LE(v, 4) }
  function Uint64Bytes(v: uint64): (r: Bytes) ensures |r| == 8 { LE(v, 8) }

  /** Reads k little-endian bytes; None when fewer than k remain. */
  function DecodeFixed(s: Bytes, k: nat): (r: Option<(nat, Bytes)>)
    ensures r.Some? <==> |s| >= k
    ensures r.Some? ==> r.value.0 < Pow256(k) && r.value.1 == s[k..]
  {
    if |s| < k then None else Some((FromLE(s[..k]), s[k..]))
  }

  function DecodeUint16(s: Bytes): (r: Option<(uint16, Bytes)>)
    ensures r.Some? <==> |s| >= 2
  {
    Pow256Values();
    match DecodeFixed(s, 2)
    case None => None
    case Some((v, rest)) => Some((v, rest))
  }

  function DecodeUint32(s: Bytes): (r: Option<(uint32, Bytes)>)
    ensures r.Some? <==> |s| >= 4
  {
    Pow256Values();
    match DecodeFixed(s, 4)
    case None => None
    case Some((v, rest)) => Some((v, rest))
  }

  function DecodeUint64(s: Bytes): (r: Option<(uint64, Bytes)>)
    ensures r.Some? <==> |s| >= 8
  {
    Pow256Values();
    match DecodeFixed(s, 8)
    case None => None
    case Some((v, rest)) => Some((v, rest))
  }

  lemma {:induction false} FixedRoundTrip(v: nat, k: nat, rest: Bytes)
    requires v < Pow256(k)
    ensures DecodeFixed(LE(v, k) + rest, k) == Some((v, rest))
  {
    assert (LE(v, k) + rest)[..k] == LE(v, k);
    assert (LE(v, k) + rest)[k..] == rest;
    FromLEOfLE(v, k);
  }

  lemma Uint16RoundTrip(v: uint16, rest: Bytes)
    ensures DecodeUint16(Uint16Bytes(v) + rest) == Some((v, rest))
  {
    Pow256Values();
    FixedRoundTrip(v, 2, rest);
  }

  lemma Uint32RoundTrip(v: uint32, rest: Bytes)
    ensures DecodeUint32(Uint32Bytes(v) + rest) == Some((v, rest))
  {
    Pow256Values();
    FixedRoundTrip(v, 4, rest);
  }

  lemma Uint64RoundTrip(v: uint64, rest: Bytes)
    ensures DecodeUint64(Uint64Bytes(v) + rest) == Some((v, rest))
  {
    Pow256Values();
    FixedRoundTrip(v, 8, rest);
  }

  /** A read that succeeds on s reads the same value from s + t and leaves t behind as well. */
  lemma FixedExtend(s: Bytes, k: nat, t: Bytes)
    requires |s| >= k
    ensures DecodeFixed(s + t, k) == Some((DecodeFixed(s, k).value.0, DecodeFixed(s, k).value.1 + t))
  {
    assert (s + t)[..k] == s[..k];
    assert (s + t)[k..] == s[k..] + t;
  }

  lemma Uint64Extend(s: Bytes, t: Bytes)
    requires |s| >= 8
    ensures DecodeUint64(s + t) == Some((DecodeUint64(s).value.0, DecodeUint64(s).value.1 + t))
  {
    FixedExtend(s, 8, t);
  }

  /** WriteVarUint: the shortest of the four forms. */
  function VarUint(v: uint64): (r: Bytes)
    ensures 1 <= |r| <= 9
    ensures |r| == 1 <==> v < 0xFD
  {
    if v < 0xFD then [v]
    else if v <= 0xFFFF then [0xFD] + LE(v, 2)
    else if v <= 0xFFFF_FFFF then [0xFE] + LE(v, 4)
    else [0xFF] + LE(v, 8)
  }

  /** DecodeVarUint: the tag byte selects the width of the value that follows. */
  function DecodeVarUint(s: Bytes): (r: Option<(uint64, Bytes)>)
    ensures r.Some? ==> |r.value.1| < |s|
  {
    if |s| == 0 then None
    else if s[0] == 0xFD then
      match DecodeUint16(s[1..])
      case None => None
      case Some((v, rest)) => Some((v, rest))
    else if s[0] == 0xFE then
      match DecodeUint32(s[1..])
      case None => None
      case Some((v, rest)) => Some((v, rest))
    else if s[0] == 0xFF then DecodeUint64(s[1..])
    else Some((s[0], s[1..]))
  }

  lemma VarUintRoundTrip(v: uint64, rest: Bytes)
    ensures DecodeVarUint(VarUint(v) + rest) == Some((v, rest))
  {
    var e := VarUint(v) + rest;
    assert e[1..] == VarUint(v)[1..] + rest;
    if v < 0xFD {
    } else if v <= 0xFFFF {
      Uint16RoundTrip(v, rest);
    } else if v <= 0xFFFF_FFFF {
      Uint32RoundTrip(v, rest);
    } else {
      Uint64RoundTrip(v, rest);
    }
  }

  lemma VarUintExtend(s: Bytes, t: Bytes)
    requires DecodeVarUint(s).Some?
    ensures DecodeVarUint(s + t) == Some((DecodeVarUint(s).value.0, DecodeVarUint(s).value.1 + t))
  {
    assert (s + t)[0] == s[0];
    assert (s + t)[1..] == s[1..] + t;
    Pow256Values();
    if s[0] == 0xFD {
      FixedExtend(s[1..], 2, t);
    } else if s[0] == 0xFE {
      FixedExtend(s[1..], 4, t);
    } else if s[0] == 0xFF {
      FixedExtend(s[1..], 8, t);
    }
  }

  /** DecodeBytes(n): exactly n bytes, or end of input. */
  function DecodeBytes(s: Bytes, n: nat): (r: Option<(Bytes, Bytes)>)
    ensures r.Some? <==> n <= |s|
    ensures r.Some? ==> r.value.0 + r.value.1 == s && |r.value.0| == n
  {
    if n <= |s| then Some((s[..n], s[n..])) else None
  }

  lemma NextBytesExtend(s: Bytes, n: nat, t: Bytes)
    requires n <= |s|
    ensures DecodeBytes(s + t, n) == Some((s[..n], s[n..] + t))
  {
    assert (s + t)[..n] == s[..n];
    assert (s + t)[n..] == s[n..] + t;
  }

  /** Go's uint64(n) of a non-negative int such as a length: its low 64 bits. */
  function ToUint64(n: nat): (r: uint64)
    ensures n <= MAX_UINT64 ==> r == n
  {
    n % 0x1_0000_0000_0000_0000
  }

  /** WriteVarBytes: the length as uint64(len(b)), then the bytes. */
  function VarBytes(b: Bytes): (r: Bytes)
    ensures |r| > |b|
    ensures r[|r| - |b|..] == b
  {
    VarUint(ToUint64(|b|)) + b
  }

  /** DecodeVarBytes (and NextString, whose bytes are the string). */
  function DecodeVarBytes(s: Bytes): (r: Option<(Bytes, Bytes)>)
    ensures r.Some? ==> |r.value.1| < |s| && |r.value.0| <= MAX_UINT64
  {
    match DecodeVarUint(s)
    case None => None
    case Some((n, rest)) =>
      match DecodeBytes(rest, n)
      case None => None
      case Some((b, rest2)) => Some((b, rest2))
  }

  lemma VarBytesRoundTrip(b: Bytes, rest: Bytes)
    requires |b| <= MAX_UINT64
    ensures DecodeVarBytes(VarBytes(b) + rest) == Some((b, rest))
  {
    assert VarBytes(b) + rest == VarUint(|b|) + (b + rest);
    VarUintRoundTrip(|b|, b + rest);
    assert (b + rest)[..|b|] == b;
    assert (b + rest)[|b|..] == rest;
  }

  lemma VarBytesExtend(s: Bytes, t: Bytes)
    requires DecodeVarBytes(s).Some?
    ensures DecodeVarBytes(s + t) == Some((DecodeVarBytes(s).value.0, DecodeVarBytes(s).value.1 + t))
  {
    VarUintExtend(s, t);
    var (n, rest) := DecodeVarUint(s).value;
    NextBytesExtend(rest, n, t);
  }

  /**
   * A write-only byte buffer (ZeroCopySink). Every write appends; nothing
   * already written changes.
   */
  class Sink {
    var buf: Bytes

    constructor ()
      ensures buf == []
    {
      buf := [];
    }

    method WriteBytes(b: Bytes)
      modifies this
      ensures buf == old(buf) + b
    {
      buf := buf + b;
    }

    method WriteUint32(v: uint32)
      modifies this
      ensures buf == old(buf) + Uint32Bytes(v)
    {
      buf := buf + LE(v, 4);
    }

    method WriteUint64(v: uint64)
      modifies this
      ensures buf == old(buf) + Uint64Bytes(v)
    {
      buf := buf + LE(v, 8);
    }

    method WriteVarUint(v: uint64)
      modifies this
      ensures buf == old(buf) + VarUint(v)
    {
      if v < 0xFD {
        buf := buf + [v];
      } else if v <= 0xFFFF {
        buf := buf + [0xFD] + LE(v, 2);
      } else if v <= 0xFFFF_FFFF {
        buf := buf + [0xFE];
        WriteUint32(v);
      } else {
        buf := buf + [0xFF];
        WriteUint64(v);
      }
    }

    method WriteVarBytes(b: Bytes)
      modifies this
      ensures buf == old(buf) + VarBytes(b)
    {
      WriteVarUint(ToUint64(|b|));
      buf := buf + b;
    }
  }

  /** Appending nothing leaves a byte string as it is. */
  lemma AppendNothing(e: Bytes)
    ensures e + [] == e
  {
  }

  /** A byte string is its prefix followed by its suffix. */
  lemma SplitJoin(e: Bytes, cut: nat)
    requires cut <= |e|
    ensures e[..cut] + e[cut..] == e
  {
  }

  /** Regrouping three appends to a buffer. */
  lemma AppendThree(b: Bytes, x: Bytes, y: Bytes, z: Bytes)
    ensures b + x + y + z == b + (x + y + z)
  {
  }

  /** Regrouping two appends to a buffer. */
  lemma AppendTwo(b: Bytes, x: Bytes, y: Bytes)
    ensures b + x + y == b + (x + y)
  {
  }

  /**
   * A read cursor over a byte string (ZeroCopySource). A read at end of input
   * reports eof and leaves the cursor at the end.
   */
  class Source {
    const data: Bytes
    var off: nat

    constructor (s: Bytes)
      ensures data == s && off == 0 && Valid()
    {
      data := s;
      off := 0;
    }

    ghost predicate Valid()
      reads this
    {
      off <= |data|
    }

    /** The bytes not yet read. */
    function Rest(): Bytes
      reads this
      requires Valid()
    {
      data[off..]
    }

    method NextBytes(n: nat) returns (b: Bytes, eof: bool)
      requires Valid()
      modifies this
      ensures Valid()
      ensures eof <==> DecodeBytes(old(Rest()), n).None?
      ensures !eof ==> DecodeBytes(old(Rest()), n) == Some((b, Rest()))
    {
      if n <= |data| - off {
        b := data[off..off + n];
        assert data[off..][..n] == b;
        off := off + n;
        eof := false;
      } else {
        b := data[off..];
        off := |data|;
        eof := true;
      }
    }

    method NextUint16() returns (v: uint16, eof: bool)
      requires Valid()
      modifies this
      ensures Valid()
      ensures eof <==> DecodeUint16(old(Rest())).None?
      ensures !eof ==> DecodeUint16(old(Rest())) == Some((v, Rest()))
    {
      var b;
      b, eof := NextBytes(2);
      Pow256Values();
      v := if eof then 0 else FromLE(b);
    }

    method NextUint32() returns (v: uint32, eof: bool)
      requires Valid()
      modifies this
      ensures Valid()
      ensures eof <==> DecodeUint32(old(Rest())).None?
      ensures !eof ==> DecodeUint32(old(Rest())) == Some((v, Rest()))
    {
      var b;
      b, eof := NextBytes(4);
      Pow256Values();
      v := if eof then 0 else FromLE(b);
    }

    method NextUint64() returns (v: uint64, eof: bool)
      requires Valid()
      modifies this
      ensures Valid()
      ensures eof <==> DecodeUint64(old(Rest())).None?
      ensures !eof ==> DecodeUint64(old(Rest())) == Some((v, Rest()))
    {
      var b;
      b, eof := NextBytes(8);
      Pow256Values();
      v := if eof then 0 else FromLE(b);
    }

    method NextVarUint() returns (v: uint64, eof: bool)
      requires Valid()
      modifies this
      ensures Valid()
      ensures eof <==> DecodeVarUint(old(Rest())).None?
      ensures !eof ==> DecodeVarUint(old(Rest())) == Some((v, Rest()))
    {
      ghost var s := Rest();
      var tag, e := NextBytes(1);
      if e {
        return 0, true;
      }
      assert s[1..] == Rest();
      if tag[0] == 0xFD {
        var x;
        x, eof := NextUint16();
        v := x;
      } else if tag[0] == 0xFE {
        var x;
        x, eof := NextUint32();
        v := x;
      } else if tag[0] == 0xFF {
        v, eof := NextUint64();
      } else {
        v, eof := tag[0], false;
      }
    }

    /** NextVarBytes; NextString is the same read, its bytes taken as a string. */
    method NextVarBytes() returns (b: Bytes, eof: bool)
      requires Valid()
      modifies this
      ensures Valid()
      ensures eof <==> DecodeVarBytes(old(Rest())).None?
      ensures !eof ==> DecodeVarBytes(old(Rest())) == Some((b, Rest()))
    {
      var n;
      n, eof := NextVarUint();
      if eof {
        return [], true;
      }
      b, eof := NextBytes(n);
    }
  }

  /** Value of one hex digit (either case); None for any other byte. */
  function HexDigit(c: byte): (r: Option<nat>)
    ensures r.Some? ==> r.value < 16
  {
    if 48 <= c <= 57 then Some(c - 48)
    else if 97 <= c <= 102 then Some(c - 87)
    else if 65 <= c <= 70 then Some(c - 55)
    else None
  }

  /** The lower-case hex digit for v. */
  function HexChar(v: nat): (c: byte)
    requires v < 16
    ensures HexDigit(c) == Some(v)
  {
    if v < 10 then 48 + v else 87 + v
  }

  /** hex.DecodeString: fails on odd length or on a non-hex byte. */
  function HexDecode(s: Bytes): (r: Option<Bytes>)
    ensures r.Some? ==> 2 * |r.value| == |s|
  {
    if |s| == 0 then Some([])
    else if |s| == 1 then None
    else
      match (HexDigit(s[0]), HexDigit(s[1]), HexDecode(s[2..]))
      case (Some(hi), Some(lo), Some(tail)) => Some([16 * hi + lo] + tail)
      case _ => None
  }

  function HexEncode(b: Bytes): (s: Bytes)
    ensures |s| == 2 * |b|
  {
    if b == [] then [] else [HexChar(b[0] / 16), HexChar(b[0] % 16)] + HexEncode(b[1..])
  }

  ghost predicate IsHexString(s: Bytes)
  {
    |s| % 2 == 0 && forall i :: 0 <= i < |s| ==> HexDigit(s[i]).Some?
  }

  /** Decoding succeeds exactly on even-length strings of hex digits. */
  lemma {:induction false} HexDecodeSucceedsIff(s: Bytes)
    ensures HexDecode(s).Some? <==> IsHexString(s)
  {
    if |s| >= 2 {
      HexDecodeSucceedsIff(s[2..]);
      if IsHexString(s) {
        assert forall i :: 0 <= i < |s| - 2 ==> s[2..][i] == s[i + 2];
      }
      if HexDecode(s).Some? {
        forall i | 0 <= i < |s| ensures HexDigit(s[i]).Some? {
          if i >= 2 { assert s[i] == s[2..][i - 2]; }
        }
      }
    } else if |s| == 1 {
      assert !IsHexString(s);
    }
  }

  lemma {:induction false} HexRoundTrip(b: Bytes)
    ensures HexDecode(HexEncode(b)) == Some(b)
  {
    if b != [] {
      var s := HexEncode(b);
      assert s[2..] == HexEncode(b[1..]);
      HexRoundTrip(b[1..]);
      assert 16 * (b[0] / 16) + b[0] % 16 == b[0];
      assert [b[0]] + b[1..] == b;
    }
  }

  /** big.Int.Bytes of a non-negative value: big-endian, no leading zero, empty for 0. */
  function BigEndian(n: nat): (r: Bytes)
    ensures n == 0 <==> r == []
    ensures r != [] ==> r[0] != 0
  {
    if n == 0 then [] else if n < 256 then [n] else BigEndian(n / 256) + [n % 256]
  }

  function FromBigEndian(s: Bytes): (r: nat)
  {
    if s == [] then 0 else 256 * FromBigEndian(s[..|s| - 1]) + s[|s| - 1]
  }

  lemma {:induction false} BigEndianRoundTrip(n: nat)
    ensures FromBigEndian(BigEndian(n)) == n
  {
    if n >= 256 {
      BigEndianRoundTrip(n / 256);
      var r := BigEndian(n);
      assert r[..|r| - 1] == BigEndian(n / 256);
    }
  }

  /** Distinct counters give distinct cross-chain ids. */
  lemma BigEndianInjective(m: nat, n: nat)
    requires BigEndian(m) == BigEndian(n)
    ensures m == n
  {
    BigEndianRoundTrip(m);
    BigEndianRoundTrip(n);
  }
}
