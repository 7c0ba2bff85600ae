/**
 * The stored records of the header-sync module: a consensus peer and the
 * peer set of one chain at one height, with their binary encoding.
 */
module HeaderSyncTypes {
  import opened Wrappers
  import opened Codec

  /** One bookkeeper of the poly chain: its index and its public key id. */
  datatype Peer = Peer(index: uint32, peerPubkey: Bytes)

  /** The peer set trusted for a chain from a height on, keyed by public key id. */
  datatype ConsensusPeers = ConsensusPeers(chainId: uint64, height: uint32, peerMap: map<Bytes, Peer>)

  // ---------------------------------------------------------------- string order

  /** Go's `a < b` on strings: bytewise lexicographic, a proper prefix first. */
  predicate Less(a: Bytes, b: Bytes)
    decreases |a|
  {
    if |a| == 0 then |b| > 0
    else if |b| == 0 then false
    else if a[0] != b[0] then a[0] < b[0]
    else Less(a[1..], b[1..])
  }

  lemma {:induction false} LessIrreflexive(a: Bytes)
    ensures !Less(a, a)
  {
    if |a| > 0 { LessIrreflexive(a[1..]); }
  }

  lemma {:induction false} LessAsymmetric(a: Bytes, b: Bytes)
    requires Less(a, b)
    ensures !Less(b, a)
  {
    if |a| > 0 && |b| > 0 && a[0] == b[0] { LessAsymmetric(a[1..], b[1..]); }
  }

  lemma {:induction false} LessTransitive(a: Bytes, b: Bytes, c: Bytes)
    requires Less(a, b) && Less(b, c)
    ensures Less(a, c)
  {
    if |a| > 0 && |b| > 0 && |c| > 0 && a[0] == b[0] && b[0] == c[0] {
      LessTransitive(a[1..], b[1..], c[1..]);
    }
  }

  lemma {:induction false} LessTotal(a: Bytes, b: Bytes)
    requires a != b
    ensures Less(a, b) || Less(b, a)
  {
    if |a| > 0 && |b| > 0 && a[0] == b[0] {
      assert a == [a[0]] + a[1..] && b == [b[0]] + b[1..];
      LessTotal(a[1..], b[1..]);
    }
  }

  // ---------------------------------------------------------------- peer lists

  /** The public key ids appearing in a list of peers. */
  function Keys(ps: seq<Peer>): set<Bytes>
  {
    set i | 0 <= i < |ps| :: ps[i].peerPubkey
  }

  /** Non-increasing by public key id: the order sort.SliceStable with `>` leaves. */
  ghost predicate Descending(ps: seq<Peer>)
  {
    forall i, j :: 0 <= i < j < |ps| ==> !Less(ps[i].peerPubkey, ps[j].peerPubkey)
  }

  /** Strictly decreasing by public key id. */
  ghost predicate StrictlyDescending(ps: seq<Peer>)
  {
    forall i, j :: 0 <= i < j < |ps| ==> Less(ps[j].peerPubkey, ps[i].peerPubkey)
  }

  /** Every peer of the list is the entry of m under its own public key id. */
  ghost predicate DrawnFrom(m: map<Bytes, Peer>, ps: seq<Peer>)
  {
    forall i :: 0 <= i < |ps| ==> ps[i].peerPubkey in m && m[ps[i].peerPubkey] == ps[i]
  }

  /** The map shape every writer of the module produces: each peer filed under its own key. */
  ghost predicate KeyedByPubkey(m: map<Bytes, Peer>)
  {
    forall k :: k in m ==> m[k].peerPubkey == k
  }

  /**
   * One step of a stable sort into non-increasing order: p goes after every
   * peer whose key is not smaller than its own.
   */
  function InsertDescending(ps: seq<Peer>, p: Peer): (r: seq<Peer>)
    ensures |r| == |ps| + 1
    ensures forall q :: q in r <==> q in ps || q == p
  {
    if ps == [] then [p]
    else if Less(ps[0].peerPubkey, p.peerPubkey) then [p] + ps
    else [ps[0]] + InsertDescending(ps[1..], p)
  }

  lemma {:induction false} InsertKeepsDescending(ps: seq<Peer>, p: Peer)
    requires Descending(ps)
    ensures Descending(InsertDescending(ps, p))
  {
    var r := InsertDescending(ps, p);
    if ps == [] {
    } else if Less(ps[0].peerPubkey, p.peerPubkey) {
      forall j | 1 <= j < |r| ensures !Less(r[0].peerPubkey, r[j].peerPubkey) {
        if Less(p.peerPubkey, ps[j - 1].peerPubkey) {
          LessTransitive(ps[0].peerPubkey, p.peerPubkey, ps[j - 1].peerPubkey);
          if j - 1 == 0 { LessIrreflexive(ps[0].peerPubkey); }
        }
      }
    } else {
      InsertKeepsDescending(ps[1..], p);
      var t := InsertDescending(ps[1..], p);
      forall j | 0 <= j < |t| ensures !Less(ps[0].peerPubkey, t[j].peerPubkey) {
        assert t[j] in t;
        if t[j] != p {
          var k :| 0 <= k < |ps[1..]| && ps[1..][k] == t[j];
          assert ps[k + 1] == t[j];
        }
      }
    }
  }

  lemma {:induction false} InsertKeepsStrict(ps: seq<Peer>, p: Peer)
    requires StrictlyDescending(ps) && p.peerPubkey !in Keys(ps)
    ensures StrictlyDescending(InsertDescending(ps, p))
    ensures Keys(InsertDescending(ps, p)) == Keys(ps) + {p.peerPubkey}
  {
    if ps == [] {
      KeysCons(p, []);
      assert [p] + [] == [p];
    } else if Less(ps[0].peerPubkey, p.peerPubkey) {
      InsertStrictFront(ps, p);
    } else {
      assert ps[0].peerPubkey != p.peerPubkey;
      LessTotal(ps[0].peerPubkey, p.peerPubkey);
      assert Keys(ps[1..]) <= Keys(ps) by {
        forall i | 0 <= i < |ps[1..]| ensures ps[1..][i] == ps[i + 1] { }
      }
      InsertKeepsStrict(ps[1..], p);
      InsertStrictBehind(ps, p, InsertDescending(ps[1..], p));
    }
  }

  /** InsertKeepsStrict when p's key is above the head's: p goes first. */
  lemma InsertStrictFront(ps: seq<Peer>, p: Peer)
    requires StrictlyDescending(ps) && ps != [] && Less(ps[0].peerPubkey, p.peerPubkey)
    ensures StrictlyDescending([p] + ps)
    ensures Keys([p] + ps) == Keys(ps) + {p.peerPubkey}
  {
    var r := [p] + ps;
    forall j | 1 <= j < |r| ensures Less(r[j].peerPubkey, p.peerPubkey) {
      if j > 1 { LessTransitive(ps[j - 1].peerPubkey, ps[0].peerPubkey, p.peerPubkey); }
    }
    assert forall i :: 0 <= i < |ps| ==> r[i + 1] == ps[i];
    KeysCons(p, ps);
  }

  /** InsertKeepsStrict when p's key is below the head's: the head stays first, over the insertion into the tail. */
  lemma InsertStrictBehind(ps: seq<Peer>, p: Peer, t: seq<Peer>)
    requires StrictlyDescending(ps) && ps != [] && Less(p.peerPubkey, ps[0].peerPubkey)
    requires StrictlyDescending(t) && (forall q :: q in t <==> q in ps[1..] || q == p)
    requires Keys(t) == Keys(ps[1..]) + {p.peerPubkey}
    ensures StrictlyDescending([ps[0]] + t)
    ensures Keys([ps[0]] + t) == Keys(ps) + {p.peerPubkey}
  {
    forall j | 0 <= j < |t| ensures Less(t[j].peerPubkey, ps[0].peerPubkey) {
      assert t[j] in t;
      if t[j] != p {
        var k :| 0 <= k < |ps[1..]| && ps[1..][k] == t[j];
        assert ps[k + 1] == t[j];
      }
    }
    StrictCons(ps[0], t);
    KeysCons(ps[0], t);
    KeysCons(ps[0], ps[1..]);
    assert [ps[0]] + ps[1..] == ps;
  }

  /** A head above every key of a strictly descending tail keeps the list strictly descending. */
  lemma StrictCons(h: Peer, t: seq<Peer>)
    requires StrictlyDescending(t)
    requires forall j :: 0 <= j < |t| ==> Less(t[j].peerPubkey, h.peerPubkey)
    ensures StrictlyDescending([h] + t)
  {
    var r := [h] + t;
    forall i, j | 0 <= i < j < |r| ensures Less(r[j].peerPubkey, r[i].peerPubkey) {
      assert r[j] == t[j - 1];
      if i > 0 { assert r[i] == t[i - 1]; }
    }
  }

  lemma KeysCons(p: Peer, ps: seq<Peer>)
    ensures Keys([p] + ps) == {p.peerPubkey} + Keys(ps)
  {
    var r := [p] + ps;
    forall k | k in Keys(r) ensures k in {p.peerPubkey} + Keys(ps) {
      var i :| 0 <= i < |r| && r[i].peerPubkey == k;
      if i > 0 { assert ps[i - 1] == r[i]; }
    }
    forall k | k in Keys(ps) ensures k in Keys(r) {
      var i :| 0 <= i < |ps| && ps[i].peerPubkey == k;
      assert r[i + 1] == ps[i];
    }
    assert r[0] == p;
  }

  /** A listing of the peers under the keys of `walked`, as ListPeers builds it. */
  ghost predicate Listing(m: map<Bytes, Peer>, ps: seq<Peer>, walked: set<Bytes>)
  {
    walked <= m.Keys && |ps| == |walked| && Descending(ps)
    && (forall q :: q in ps ==> q in m.Values)
    && (KeyedByPubkey(m) ==> StrictlyDescending(ps) && Keys(ps) == walked && DrawnFrom(m, ps))
  }

  lemma ListingStep(m: map<Bytes, Peer>, ps: seq<Peer>, walked: set<Bytes>, k: Bytes)
    requires Listing(m, ps, walked) && k in m && k !in walked
    ensures Listing(m, InsertDescending(ps, m[k]), walked + {k})
  {
    assert m[k] in m.Values;
    InsertKeepsDescending(ps, m[k]);
    var r := InsertDescending(ps, m[k]);
    if KeyedByPubkey(m) {
      InsertKeepsStrict(ps, m[k]);
      forall i | 0 <= i < |r| ensures r[i].peerPubkey in m && m[r[i].peerPubkey] == r[i] {
        assert r[i] in r;
        if r[i] != m[k] {
          var j :| 0 <= j < |ps| && ps[j] == r[i];
        }
      }
    }
  }

  /**
   * The peers of m under the keys of `keys`, in strictly descending key order;
   * well defined whatever order the keys are taken in (see SortedPeersUnique).
   */
  ghost function SortedPeers(m: map<Bytes, Peer>, keys: set<Bytes>): (r: seq<Peer>)
    requires keys <= m.Keys
    ensures |r| == |keys|
    decreases keys
  {
    if keys == {} then []
    else
      var k :| k in keys;
      InsertDescending(SortedPeers(m, keys - {k}), m[k])
  }

  lemma {:induction false} SortedPeersListing(m: map<Bytes, Peer>, keys: set<Bytes>)
    requires keys <= m.Keys
    ensures Listing(m, SortedPeers(m, keys), keys)
    decreases keys
  {
    if keys != {} {
      var k :| k in keys && SortedPeers(m, keys) == InsertDescending(SortedPeers(m, keys - {k}), m[k]);
      SortedPeersListing(m, keys - {k});
      ListingStep(m, SortedPeers(m, keys - {k}), keys - {k}, k);
      assert keys - {k} + {k} == keys;
    }
  }

  lemma SortedPeersSpec(m: map<Bytes, Peer>, keys: set<Bytes>)
    requires keys <= m.Keys && KeyedByPubkey(m)
    ensures StrictlyDescending(SortedPeers(m, keys))
    ensures Keys(SortedPeers(m, keys)) == keys
    ensures DrawnFrom(m, SortedPeers(m, keys))
  {
    SortedPeersListing(m, keys);
  }

  /** A strictly sorted list of m's peers is determined by its set of keys. */
  lemma {:induction false} SortedPeersUnique(m: map<Bytes, Peer>, a: seq<Peer>, b: seq<Peer>)
    requires StrictlyDescending(a) && StrictlyDescending(b)
    requires DrawnFrom(m, a) && DrawnFrom(m, b)
    requires Keys(a) == Keys(b)
    ensures a == b
    decreases |a|
  {
    if |b| > 0 { assert b[0].peerPubkey in Keys(b); }
    if |a| > 0 {
      assert a[0].peerPubkey in Keys(b);
      assert |b| > 0;
      assert b[0].peerPubkey in Keys(a);
      var i :| 0 <= i < |a| && a[i].peerPubkey == b[0].peerPubkey;
      var j :| 0 <= j < |b| && b[j].peerPubkey == a[0].peerPubkey;
      if a[0].peerPubkey != b[0].peerPubkey {
        LessAsymmetric(b[0].peerPubkey, a[0].peerPubkey);
        assert false;
      }
      TailKeys(a);
      TailKeys(b);
      SortedPeersUnique(m, a[1..], b[1..]);
      assert a == [a[0]] + a[1..] && b == [b[0]] + b[1..];
    }
  }

  lemma TailKeys(a: seq<Peer>)
    requires |a| > 0 && StrictlyDescending(a)
    ensures Keys(a[1..]) == Keys(a) - {a[0].peerPubkey}
    ensures StrictlyDescending(a[1..])
  {
    KeysCons(a[0], a[1..]);
    assert [a[0]] + a[1..] == a;
    if a[0].peerPubkey in Keys(a[1..]) {
      var i :| 0 <= i < |a[1..]| && a[1..][i].peerPubkey == a[0].peerPubkey;
      assert a[i + 1].peerPubkey == a[0].peerPubkey;
      LessIrreflexive(a[0].peerPubkey);
    }
  }

  // ---------------------------------------------------------------- encoding

  /** Peer.Serialization: the index, then the key id as var-bytes. */
  function PeerBytes(p: Peer): (r: Bytes)
  {
    Uint32Bytes(p.index) + VarBytes(p.peerPubkey)
  }

  function PeerListBytes(ps: seq<Peer>): (r: Bytes)
  {
    if ps == [] then [] else PeerBytes(ps[0]) + PeerListBytes(ps[1..])
  }

  lemma {:induction false} PeerListBytesAppend(a: seq<Peer>, b: seq<Peer>)
    ensures PeerListBytes(a + b) == PeerListBytes(a) + PeerListBytes(b)
  {
    if a == [] {
      assert a + b == b;
    } else {
      assert (a + b)[0] == a[0];
      assert (a + b)[1..] == a[1..] + b;
      PeerListBytesAppend(a[1..], b);
      calc {
        PeerListBytes(a + b);
        PeerBytes(a[0]) + PeerListBytes(a[1..] + b);
        PeerBytes(a[0]) + (PeerListBytes(a[1..]) + PeerListBytes(b));
        (PeerBytes(a[0]) + PeerListBytes(a[1..])) + PeerListBytes(b);
      }
    }
  }

  /**
   * ConsensusPeers.Serialization: chain id, height, the number of peers as a
   * var-uint, then the peers in descending key order.
   */
  ghost function ConsensusPeersBytes(cp: ConsensusPeers): (r: Bytes)
  {
    HeaderBytes(cp) + PeerListBytes(SortedPeers(cp.peerMap, cp.peerMap.Keys))
  }

  /** What Serialization writes before the peers. */
  function HeaderBytes(cp: ConsensusPeers): (r: Bytes)
  {
    Uint64Bytes(cp.chainId) + Uint32Bytes(cp.height) + VarUint(ToUint64(|cp.peerMap|))
  }

  /** Peer.Deserialization: fails when the index or the key id runs past the end. */
  function DecodePeer(s: Bytes): (r: Option<(Peer, Bytes)>)
    ensures r.Some? ==> |r.value.1| < |s|
  {
    match DecodeUint32(s)
    case None => None
    case Some((index, s1)) =>
      match DecodeVarBytes(s1)
      case None => None
      case Some((key, s2)) => Some((Peer(index, key), s2))
  }

  /** A reader of one peer; the loop's properties hold for any reader, and DecodePeer is the one used. */
  type PeerReader = Bytes -> Option<(Peer, Bytes)>

  /** n peers read one after another, each filed under its own key id; a later peer replaces an earlier one. */
  function ReadPeers(read: PeerReader, s: Bytes, n: nat, acc: map<Bytes, Peer>): (r: Option<(map<Bytes, Peer>, Bytes)>)
    decreases n
  {
    if n == 0 then Some((acc, s))
    else
      match read(s)
      case None => None
      case Some((p, s1)) => ReadPeers(read, s1, n - 1, acc[p.peerPubkey := p])
  }

  /** The peer loop of Deserialization. */
  function DecodePeers(s: Bytes, n: nat, acc: map<Bytes, Peer>): Option<(map<Bytes, Peer>, Bytes)>
  {
    ReadPeers(DecodePeer, s, n, acc)
  }

  /** ConsensusPeers.Deserialization. */
  function DecodeConsensusPeers(s: Bytes): (r: Option<(ConsensusPeers, Bytes)>)
  {
    match DecodeUint64(s)
    case None => None
    case Some((chainId, s1)) =>
      match DecodeUint32(s1)
      case None => None
      case Some((height, s2)) =>
        match DecodeVarUint(s2)
        case None => None
        case Some((n, s3)) =>
          match DecodePeers(s3, n, map[])
          case None => None
          case Some((m, s4)) => Some((ConsensusPeers(chainId, height, m), s4))
  }

  // ---------------------------------------------------------------- codec properties

  lemma PeerRoundTrip(p: Peer, rest: Bytes)
    requires |p.peerPubkey| <= MAX_UINT64
    ensures DecodePeer(PeerBytes(p) + rest) == Some((p, rest))
  {
    assert PeerBytes(p) + rest == Uint32Bytes(p.index) + (VarBytes(p.peerPubkey) + rest);
    Uint32RoundTrip(p.index, VarBytes(p.peerPubkey) + rest);
    VarBytesRoundTrip(p.peerPubkey, rest);
  }

  lemma PeerExtend(s: Bytes, t: Bytes)
    requires DecodePeer(s).Some?
    ensures DecodePeer(s + t) == Some((DecodePeer(s).value.0, DecodePeer(s).value.1 + t))
  {
    Pow256Values();
    FixedExtend(s, 4, t);
    var s1 := DecodeUint32(s).value.1;
    VarBytesExtend(s1, t);
  }

  /** Any strict prefix of a peer's encoding fails to decode. */
  lemma PeerTruncated(p: Peer, cut: nat)
    requires |p.peerPubkey| <= MAX_UINT64
    requires cut < |PeerBytes(p)|
    ensures DecodePeer(PeerBytes(p)[..cut]).None?
  {
    var e := PeerBytes(p);
    var pre, post := e[..cut], e[cut..];
    SplitJoin(e, cut);
    PeerRoundTrip(p, []);
    AppendNothing(e);
    if DecodePeer(pre).Some? {
      PeerExtend(pre, post);
      assert false;
    }
  }

  /** Collect(acc, ps): the map after filing each peer of ps under its key, in order. */
  function Collect(acc: map<Bytes, Peer>, ps: seq<Peer>): map<Bytes, Peer>
    decreases |ps|
  {
    if ps == [] then acc else Collect(acc[ps[0].peerPubkey := ps[0]], ps[1..])
  }

  lemma {:induction false} DecodePeerList(ps: seq<Peer>, rest: Bytes, acc: map<Bytes, Peer>)
    requires forall i :: 0 <= i < |ps| ==> |ps[i].peerPubkey| <= MAX_UINT64
    ensures DecodePeers(PeerListBytes(ps) + rest, |ps|, acc) == Some((Collect(acc, ps), rest))
    decreases |ps|
  {
    if ps == [] {
      assert PeerListBytes(ps) + rest == rest;
    } else {
      var tail := PeerListBytes(ps[1..]) + rest;
      assert PeerListBytes(ps) + rest == PeerBytes(ps[0]) + tail;
      PeerRoundTrip(ps[0], tail);
      assert forall i :: 0 <= i < |ps[1..]| ==> ps[1..][i] == ps[i + 1];
      var acc' := acc[ps[0].peerPubkey := ps[0]];
      DecodePeerList(ps[1..], rest, acc');
      ReadPeersStep(DecodePeer, PeerBytes(ps[0]) + tail, |ps|, acc);
    }
  }

  lemma {:induction false} CollectDrawn(m: map<Bytes, Peer>, acc: map<Bytes, Peer>, ps: seq<Peer>)
    requires DrawnFrom(m, ps)
    requires forall k :: k in acc ==> k in m && acc[k] == m[k]
    ensures Collect(acc, ps).Keys == acc.Keys + Keys(ps)
    ensures forall k :: k in Collect(acc, ps) ==> k in m && Collect(acc, ps)[k] == m[k]
    decreases |ps|
  {
    if ps != [] {
      assert DrawnFrom(m, ps[1..]) by {
        forall i | 0 <= i < |ps[1..]| ensures ps[1..][i] == ps[i + 1] { }
      }
      CollectDrawn(m, acc[ps[0].peerPubkey := ps[0]], ps[1..]);
      KeysCons(ps[0], ps[1..]);
      assert [ps[0]] + ps[1..] == ps;
    }
  }

  /** The peer maps every deserialized record carries. */
  ghost predicate Encodable(cp: ConsensusPeers)
  {
    KeyedByPubkey(cp.peerMap)
    && |cp.peerMap| <= MAX_UINT64
    && forall k :: k in cp.peerMap ==> |k| <= MAX_UINT64
  }

  /** Deserialization undoes Serialization on every peer set keyed by public key id. */
  lemma ConsensusPeersRoundTrip(cp: ConsensusPeers, rest: Bytes)
    requires Encodable(cp)
    ensures DecodeConsensusPeers(ConsensusPeersBytes(cp) + rest) == Some((cp, rest))
  {
    var m := cp.peerMap;
    var ps := SortedPeers(m, m.Keys);
    SortedPeersSpec(m, m.Keys);
    CollectOfListing(m, ps);
    assert forall i :: 0 <= i < |ps| ==> ps[i].peerPubkey in m;
    RoundTripOfList(cp, ps, rest);
  }

  /** Filing a listing of all of m's peers, each under its key, rebuilds m. */
  lemma CollectOfListing(m: map<Bytes, Peer>, ps: seq<Peer>)
    requires DrawnFrom(m, ps) && Keys(ps) == m.Keys
    ensures Collect(map[], ps) == m
  {
    CollectDrawn(m, map[], ps);
  }

  /** The round trip for a listing of the peer map that rebuilds it. */
  lemma RoundTripOfList(cp: ConsensusPeers, ps: seq<Peer>, rest: Bytes)
    requires forall i :: 0 <= i < |ps| ==> |ps[i].peerPubkey| <= MAX_UINT64
    requires Collect(map[], ps) == cp.peerMap
    requires |ps| == ToUint64(|cp.peerMap|)
    ensures DecodeConsensusPeers(HeaderBytes(cp) + PeerListBytes(ps) + rest) == Some((cp, rest))
  {
    DecodePeerList(ps, rest, map[]);
    var tail := PeerListBytes(ps) + rest;
    assert HeaderBytes(cp) + PeerListBytes(ps) + rest == HeaderBytes(cp) + tail;
    DecodeAfterHeader(cp, tail, cp.peerMap, rest);
  }

  /** Reading back the header leaves the peers to DecodePeers with the written count. */
  lemma DecodeAfterHeader(cp: ConsensusPeers, tail: Bytes, m: map<Bytes, Peer>, rest: Bytes)
    requires DecodePeers(tail, ToUint64(|cp.peerMap|), map[]) == Some((m, rest))
    ensures DecodeConsensusPeers(HeaderBytes(cp) + tail) == Some((ConsensusPeers(cp.chainId, cp.height, m), rest))
  {
    var n := ToUint64(|cp.peerMap|);
    var s3 := VarUint(n) + tail;
    var s2 := Uint32Bytes(cp.height) + s3;
    assert HeaderBytes(cp) + tail == Uint64Bytes(cp.chainId) + s2;
    Uint64RoundTrip(cp.chainId, s2);
    Uint32RoundTrip(cp.height, s3);
    VarUintRoundTrip(n, tail);
  }

  /** One step of the loop: the first peer is read and filed, then n - 1 more follow. */
  lemma ReadPeersStep(read: PeerReader, s: Bytes, n: nat, acc: map<Bytes, Peer>)
    requires n > 0
    ensures read(s).None? ==> ReadPeers(read, s, n, acc).None?
    ensures read(s).Some? ==>
      ReadPeers(read, s, n, acc) == ReadPeers(read, read(s).value.1, n - 1, acc[read(s).value.0.peerPubkey := read(s).value.0])
  {
  }

  /** A reader that reads the same value from a longer input and leaves the extra bytes behind. */
  ghost predicate ReaderExtends(read: PeerReader)
  {
    forall x: Bytes, t: Bytes :: read(x).Some? ==> read(x + t) == Some((read(x).value.0, read(x).value.1 + t))
  }

  lemma DecodePeerExtends()
    ensures ReaderExtends(DecodePeer)
  {
    forall x: Bytes, t: Bytes | DecodePeer(x).Some?
      ensures DecodePeer(x + t) == Some((DecodePeer(x).value.0, DecodePeer(x).value.1 + t))
    {
      PeerExtend(x, t);
    }
  }

  lemma {:induction false} ReadPeersExtend(read: PeerReader, s: Bytes, n: nat, acc: map<Bytes, Peer>, t: Bytes)
    requires ReaderExtends(read)
    requires ReadPeers(read, s, n, acc).Some?
    ensures ReadPeers(read, s + t, n, acc)
         == Some((ReadPeers(read, s, n, acc).value.0, ReadPeers(read, s, n, acc).value.1 + t))
    decreases n
  {
    if n > 0 {
      var (p, s1) := read(s).value;
      assert read(s + t) == Some((p, s1 + t));
      ReadPeersExtend(read, s1, n - 1, acc[p.peerPubkey := p], t);
    }
  }

  lemma ConsensusPeersExtend(s: Bytes, t: Bytes)
    requires DecodeConsensusPeers(s).Some?
    ensures DecodeConsensusPeers(s + t)
      == Some((DecodeConsensusPeers(s).value.0, DecodeConsensusPeers(s).value.1 + t))
  {
    Pow256Values();
    FixedExtend(s, 8, t);
    var s1 := DecodeUint64(s).value.1;
    FixedExtend(s1, 4, t);
    var s2 := DecodeUint32(s1).value.1;
    VarUintExtend(s2, t);
    var (n, s3) := DecodeVarUint(s2).value;
    DecodePeerExtends();
    ReadPeersExtend(DecodePeer, s3, n, map[], t);
  }

  /** Any strict prefix of a peer set's encoding fails to decode. */
  lemma ConsensusPeersTruncated(cp: ConsensusPeers, cut: nat)
    requires Encodable(cp)
    requires cut < |ConsensusPeersBytes(cp)|
    ensures DecodeConsensusPeers(ConsensusPeersBytes(cp)[..cut]).None?
  {
    var e := ConsensusPeersBytes(cp);
    var pre, post := e[..cut], e[cut..];
    SplitJoin(e, cut);
    ConsensusPeersRoundTrip(cp, []);
    AppendNothing(e);
    if DecodeConsensusPeers(pre).Some? {
      ConsensusPeersExtend(pre, post);
      assert false;
    }
  }

  /** The count written after the 12-byte header is the number of map entries. */
  lemma EncodedCountIsMapSize(cp: ConsensusPeers)
    requires |cp.peerMap| <= MAX_UINT64
    ensures DecodeVarUint(ConsensusPeersBytes(cp)[12..]).Some?
    ensures DecodeVarUint(ConsensusPeersBytes(cp)[12..]).value.0 == |cp.peerMap|
  {
    var m := cp.peerMap;
    var tail := PeerListBytes(SortedPeers(m, m.Keys));
    assert ConsensusPeersBytes(cp)[12..] == VarUint(|m|) + tail;
    VarUintRoundTrip(|m|, tail);
  }

  /**
   * Deserialization files every peer under its own key id, and peers that
   * repeat a key collapse, so the map never has more entries than the count.
   */
  lemma {:induction false} ReadPeersKeyed(read: PeerReader, s: Bytes, n: nat, acc: map<Bytes, Peer>)
    requires KeyedByPubkey(acc)
    requires ReadPeers(read, s, n, acc).Some?
    ensures KeyedByPubkey(ReadPeers(read, s, n, acc).value.0)
    decreases n
  {
    if n > 0 {
      var d := read(s).value;
      var acc' := acc[d.0.peerPubkey := d.0];
      assert KeyedByPubkey(acc');
      ReadPeersKeyed(read, d.1, n - 1, acc');
    }
  }

  lemma {:induction false} ReadPeersBound(read: PeerReader, s: Bytes, n: nat, acc: map<Bytes, Peer>)
    requires ReadPeers(read, s, n, acc).Some?
    ensures |ReadPeers(read, s, n, acc).value.0| <= |acc| + n
    decreases n
  {
    if n > 0 {
      var d := read(s).value;
      var acc' := acc[d.0.peerPubkey := d.0];
      MapUpdateSize(acc, d.0.peerPubkey, d.0);
      ReadPeersBound(read, d.1, n - 1, acc');
    }
  }

  lemma MapUpdateSize(m: map<Bytes, Peer>, k: Bytes, v: Peer)
    ensures |m[k := v]| <= |m| + 1
  {
    var m' := m[k := v];
    if k in m {
      assert m'.Keys == m.Keys;
    } else {
      assert m'.Keys == m.Keys + {k};
    }
    assert |m'| == |m'.Keys| && |m| == |m.Keys|;
  }

  lemma DecodedConsensusPeersKeyed(s: Bytes)
    requires DecodeConsensusPeers(s).Some?
    ensures KeyedByPubkey(DecodeConsensusPeers(s).value.0.peerMap)
    ensures |DecodeConsensusPeers(s).value.0.peerMap| <= DecodeVarUint(s[12..]).value.0
  {
    Pow256Values();
    var s1 := DecodeUint64(s).value.1;
    var s2 := DecodeUint32(s1).value.1;
    assert s2 == s[12..];
    var (n, s3) := DecodeVarUint(s2).value;
    ReadPeersKeyed(DecodePeer, s3, n, map[]);
    ReadPeersBound(DecodePeer, s3, n, map[]);
  }

  // ---------------------------------------------------------------- sink and source

  method SerializePeer(p: Peer, sink: Sink)
    modifies sink
    ensures sink.buf == old(sink.buf) + PeerBytes(p)
  {
    ghost var b0 := sink.buf;
    sink.WriteUint32(p.index);
    sink.WriteVarBytes(p.peerPubkey);
    AppendTwo(b0, Uint32Bytes(p.index), VarBytes(p.peerPubkey));
  }

  /** ConsensusPeers.Serialization into a fresh sink, as SetConsensusPeers stores it. */
  method EncodeConsensusPeers(cp: ConsensusPeers) returns (bs: Bytes)
    ensures KeyedByPubkey(cp.peerMap) ==> bs == ConsensusPeersBytes(cp)
  {
    var sink := new Sink();
    SerializeConsensusPeers(cp, sink);
    assert [] + ConsensusPeersBytes(cp) == ConsensusPeersBytes(cp);
    bs := sink.buf;
  }

  /**
   * ConsensusPeers.Serialization. The map is walked in an order Go leaves
   * unspecified, and each peer is placed after those whose key is not smaller,
   * which is the list sort.SliceStable produces from that walk. For the maps
   * the module writes (each peer under its own key) the bytes are the same for
   * every walk order.
   */
  method SerializeConsensusPeers(cp: ConsensusPeers, sink: Sink)
    modifies sink
    ensures KeyedByPubkey(cp.peerMap) ==> sink.buf == old(sink.buf) + ConsensusPeersBytes(cp)
    ensures exists ps: seq<Peer> ::
      |ps| == |cp.peerMap| && Descending(ps) && (forall q :: q in ps ==> q in cp.peerMap.Values)
      && sink.buf == old(sink.buf) + HeaderBytes(cp) + PeerListBytes(ps)
  {
    var m := cp.peerMap;
    sink.WriteUint64(cp.chainId);
    sink.WriteUint32(cp.height);
    sink.WriteVarUint(ToUint64(|m|));
    AppendThree(old(sink.buf), Uint64Bytes(cp.chainId), Uint32Bytes(cp.height), VarUint(ToUint64(|m|)));
    var peerList := ListPeers(m);
    WritePeers(peerList, sink);
    AppendTwo(old(sink.buf), HeaderBytes(cp), PeerListBytes(peerList));
  }

  lemma PeerListSnoc(ps: seq<Peer>, i: nat)
    requires i < |ps|
    ensures PeerListBytes(ps[..i + 1]) == PeerListBytes(ps[..i]) + PeerBytes(ps[i])
  {
    PeerListBytesAppend(ps[..i], [ps[i]]);
    assert PeerListBytes([ps[i]]) == PeerBytes(ps[i]) + PeerListBytes([]);
    assert ps[..i + 1] == ps[..i] + [ps[i]];
  }

  /** The last loop of Serialization: each peer of the list, in order. */
  method WritePeers(ps: seq<Peer>, sink: Sink)
    modifies sink
    ensures sink.buf == old(sink.buf) + PeerListBytes(ps)
  {
    ghost var start := sink.buf;
    var i := 0;
    while i < |ps|
      invariant 0 <= i <= |ps|
      invariant sink.buf == start + PeerListBytes(ps[..i])
    {
      SerializePeer(ps[i], sink);
      PeerListSnoc(ps, i);
      AppendTwo(start, PeerListBytes(ps[..i]), PeerBytes(ps[i]));
      i := i + 1;
    }
    assert ps[..i] == ps;
  }

  /**
   * The collect-and-sort step of Serialization: the map's peers, walked in an
   * arbitrary order, each placed after the peers whose key is not smaller.
   */
  method ListPeers(m: map<Bytes, Peer>) returns (peerList: seq<Peer>)
    ensures |peerList| == |m| && Descending(peerList)
    ensures forall q :: q in peerList ==> q in m.Values
    ensures KeyedByPubkey(m) ==> peerList == SortedPeers(m, m.Keys)
  {
    var rest := m.Keys;
    peerList := [];
    ghost var walked: set<Bytes> := {};
    while rest != {}
      invariant rest <= m.Keys && walked == m.Keys - rest
      invariant Listing(m, peerList, walked)
      decreases rest
    {
      peerList, rest, walked := PlaceAny(m, peerList, rest, walked);
    }
    ListingComplete(m, peerList);
  }

  /** One turn of the collect loop: some unvisited key's peer is placed by InsertDescending. */
  method PlaceAny(m: map<Bytes, Peer>, ps: seq<Peer>, rest: set<Bytes>, ghost walked: set<Bytes>)
    returns (ps': seq<Peer>, rest': set<Bytes>, ghost walked': set<Bytes>)
    requires rest != {} && rest <= m.Keys && walked == m.Keys - rest
    requires Listing(m, ps, walked)
    ensures rest' < rest && rest' <= m.Keys && walked' == m.Keys - rest'
    ensures Listing(m, ps', walked')
  {
    var k :| k in rest;
    ListingStep(m, ps, walked, k);
    ps' := InsertDescending(ps, m[k]);
    rest' := rest - {k};
    walked' := walked + {k};
  }

  lemma ListingComplete(m: map<Bytes, Peer>, ps: seq<Peer>)
    requires Listing(m, ps, m.Keys - {})
    ensures |ps| == |m| && Descending(ps)
    ensures forall q :: q in ps ==> q in m.Values
    ensures KeyedByPubkey(m) ==> ps == SortedPeers(m, m.Keys)
  {
    assert |m.Keys| == |m|;
    if KeyedByPubkey(m) {
      SortedPeersSpec(m, m.Keys);
      SortedPeersUnique(m, ps, SortedPeers(m, m.Keys));
    }
  }

  /** Peer.Deserialization: on eof nothing is returned, as the Go receiver is left unassigned. */
  method DeserializePeer(source: Source) returns (r: Option<Peer>)
    requires source.Valid()
    modifies source
    ensures source.Valid()
    ensures r.None? <==> DecodePeer(old(source.Rest())).None?
    ensures r.Some? ==> DecodePeer(old(source.Rest())) == Some((r.value, source.Rest()))
  {
    var index, eof := source.NextUint32();
    if eof {
      return None;
    }
    var key;
    key, eof := source.NextVarBytes();
    if eof {
      return None;
    }
    return Some(Peer(index, key));
  }

  /** ConsensusPeers.Deserialization. */
  method DeserializeConsensusPeers(source: Source) returns (r: Option<ConsensusPeers>)
    requires source.Valid()
    modifies source
    ensures source.Valid()
    ensures r.None? <==> DecodeConsensusPeers(old(source.Rest())).None?
    ensures r.Some? ==> DecodeConsensusPeers(old(source.Rest())) == Some((r.value, source.Rest()))
  {
    var chainId, eof := source.NextUint64();
    if eof {
      return None;
    }
    var height;
    height, eof := source.NextUint32();
    if eof {
      return None;
    }
    var n;
    n, eof := source.NextVarUint();
    if eof {
      return None;
    }
    var peerMap := DeserializePeerMap(source, n);
    if peerMap.None? {
      return None;
    }
    return Some(ConsensusPeers(chainId, height, peerMap.value));
  }

  /** Reading no peers leaves the map and the input as they are. */
  lemma ReadPeersDone(read: PeerReader, s: Bytes, acc: map<Bytes, Peer>)
    ensures ReadPeers(read, s, 0, acc) == Some((acc, s))
  {
  }

  /** The peer loop's invariant survives reading one more peer. */
  lemma PeerLoopStep(s3: Bytes, n: nat, acc: map<Bytes, Peer>, k: nat, before: Bytes, p: Peer, after: Bytes)
    requires k > 0
    requires DecodePeers(s3, n, map[]) == DecodePeers(before, k, acc)
    requires DecodePeer(before) == Some((p, after))
    ensures DecodePeers(s3, n, map[]) == DecodePeers(after, k - 1, acc[p.peerPubkey := p])
  {
    ReadPeersStep(DecodePeer, before, k, acc);
  }

  /** One turn of the peer loop: reads a peer and keeps the loop's invariant. */
  method ReadLoopPeer(source: Source, ghost s3: Bytes, ghost n: nat, ghost k: nat, acc: map<Bytes, Peer>)
    returns (r: Option<Peer>)
    requires source.Valid() && k > 0
    requires DecodePeers(s3, n, map[]) == DecodePeers(source.Rest(), k, acc)
    modifies source
    ensures source.Valid()
    ensures r.None? ==> DecodePeers(s3, n, map[]).None?
    ensures r.Some? ==> DecodePeers(s3, n, map[]) == DecodePeers(source.Rest(), k - 1, acc[r.value.peerPubkey := r.value])
  {
    ghost var before := source.Rest();
    ReadPeersStep(DecodePeer, before, k, acc);
    r := DeserializePeer(source);
    if r.Some? {
      PeerLoopStep(s3, n, acc, k, before, r.value, source.Rest());
    }
  }

  /** The peer loop of ConsensusPeers.Deserialization. */
  method DeserializePeerMap(source: Source, n: nat) returns (r: Option<map<Bytes, Peer>>)
    requires source.Valid()
    modifies source
    ensures source.Valid()
    ensures r.None? <==> DecodePeers(old(source.Rest()), n, map[]).None?
    ensures r.Some? ==> DecodePeers(old(source.Rest()), n, map[]) == Some((r.value, source.Rest()))
  {
    ghost var s3 := source.Rest();
    ghost var left: nat := n;
    var peerMap: map<Bytes, Peer> := map[];
    var i := 0;
    while i < n
      invariant 0 <= i <= n && left == n - i && source.Valid()
      invariant DecodePeers(s3, n, map[]) == DecodePeers(source.Rest(), left, peerMap)
    {
      var peer := ReadLoopPeer(source, s3, n, left, peerMap);
      if peer.None? {
        return None;
      }
      peerMap := peerMap[peer.value.peerPubkey := peer.value];
      i := i + 1;
      left := left - 1;
    }
    ReadPeersDone(DecodePeer, source.Rest(), peerMap);
    return Some(peerMap);
  }
}
