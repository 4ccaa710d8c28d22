/**
 Which peers are believed about a client's address, and what their header says.
 An address is its bits; a prefix is the first bits of some addresses.
 */
module Trusted {
  import opened Prelude

  datatype Family = V4 | V6
  datatype Addr = Addr(family: Family, bits: seq<bool>)

  function Width(f: Family): nat {
    if f == V4 then 32 else 128
  }

  predicate ValidAddr(a: Addr) {
    |a.bits| == Width(a.family)
  }

  /** ::ffff:0:0/96, under which an IPv6 address carries an IPv4 one. */
  function MappedBits(): (b: seq<bool>)
    ensures |b| == 96
  {
    seq(96, i => i >= 80)
  }

  function Unmap(a: Addr): (r: Addr)
    ensures ValidAddr(a) ==> ValidAddr(r)
  {
    if a.family == V6 && |a.bits| == 128 && a.bits[..96] == MappedBits() then Addr(V4, a.bits[96..]) else a
  }

  /** A masked prefix: as many bits as it fixes. */
  datatype Prefix = Prefix(family: Family, bits: seq<bool>)

  predicate Holds(p: Prefix, a: Addr) {
    p.family == a.family && p.bits <= a.bits
  }

  /** One entry as written: an address and how many of its bits count, an
      address alone, or neither. */
  datatype Entry = Cidr(addr: Addr, length: nat) | Bare(addr: Addr) | Junk

  predicate ValidEntry(e: Entry) {
    match e
    case Cidr(addr, length) => ValidAddr(addr) && length <= |addr.bits|
    case Bare(addr) => ValidAddr(addr)
    case Junk => true
  }

  function Masked(e: Entry): Prefix
    requires ValidEntry(e) && !e.Junk?
  {
    match e
    case Cidr(addr, length) => Prefix(addr.family, addr.bits[..length])
    case Bare(addr) => Prefix(Unmap(addr).family, Unmap(addr).bits)
  }

  /** q fixes no more than p, and p's own address is in it. */
  predicate Inside(p: Prefix, q: Prefix) {
    |q.bits| <= |p.bits| && q.family == p.family && q.bits <= p.bits
  }

  function Bits(value: nat, n: nat): (b: seq<bool>)
    ensures |b| == n
  {
    if n == 0 then [] else Bits(value / 2, n - 1) + [value % 2 == 1]
  }

  /** 10/8, 172.16/12, 192.168/16, 100.64/10, 127/8, ::1/128, fc00::/7. */
  function PrivateNets(): seq<Prefix> {
    [Prefix(V4, Bits(10, 8)), Prefix(V4, Bits(172 * 16 + 1, 12)), Prefix(V4, Bits(192 * 256 + 168, 16)),
     Prefix(V4, Bits(100 * 4 + 1, 10)), Prefix(V4, Bits(127, 8)), Prefix(V6, Bits(1, 128)), Prefix(V6, Bits(126, 7))]
  }

  /** The same but carrier-grade NAT space. */
  function DefaultNets(): seq<Prefix> {
    var all := PrivateNets();
    [all[0], all[1], all[2], all[4], all[5], all[6]]
  }

  ghost predicate InSome(nets: seq<Prefix>, a: Addr) {
    exists k :: 0 <= k < |nets| && Holds(nets[k], a)
  }

  method InAny(nets: seq<Prefix>, addr: Addr) returns (ok: bool)
    ensures ok <==> InSome(nets, Unmap(addr))
  {
    var a := Unmap(addr);
    for k := 0 to |nets|
      invariant forall j :: 0 <= j < k ==> !Holds(nets[j], a)
    {
      if Holds(nets[k], a) { return true; }
    }
    return false;
  }

  /** ParseTrusted, over entries already split: the default, the ranges asked
      for, or an error at the first that is no private range. */
  method ParseTrusted(entries: seq<Entry>) returns (nets: Option<seq<Prefix>>)
    requires forall k :: 0 <= k < |entries| ==> ValidEntry(entries[k])
    ensures entries == [] ==> nets == Some(DefaultNets())
    ensures entries != [] ==> (nets.Some? <==> forall k :: 0 <= k < |entries| ==> Acceptable(entries[k]))
    ensures entries != [] && nets.Some? ==>
      |nets.value| == |entries| && forall k :: 0 <= k < |entries| ==> !entries[k].Junk? && nets.value[k] == Masked(entries[k])
  {
    hide PrivateNets, DefaultNets, Masked;
    if |entries| == 0 { return Some(DefaultNets()); }
    var out: seq<Prefix> := [];
    for i := 0 to |entries|
      invariant |out| == i
      invariant forall k :: 0 <= k < i ==> Acceptable(entries[k]) && out[k] == Masked(entries[k])
    {
      if entries[i].Junk? { return None; }
      var p := Masked(entries[i]);
      var inside := IsInside(p, PrivateNets());
      if !inside { return None; }
      out := out + [p];
    }
    return Some(out);
  }

  method IsInside(p: Prefix, nets: seq<Prefix>) returns (ok: bool)
    ensures ok <==> InsideOne(p, nets)
  {
    for k := 0 to |nets|
      invariant forall j :: 0 <= j < k ==> !Inside(p, nets[j])
    {
      if |nets[k].bits| <= |p.bits| && nets[k].family == p.family && nets[k].bits <= p.bits { return true; }
    }
    return false;
  }

  predicate InsideOne(p: Prefix, nets: seq<Prefix>) {
    exists j :: 0 <= j < |nets| && Inside(p, nets[j])
  }

  predicate Acceptable(e: Entry)
    requires ValidEntry(e)
  {
    !e.Junk? && InsideOne(Masked(e), PrivateNets())
  }

  lemma InsideHolds(p: Prefix, q: Prefix, a: Addr)
    requires Inside(p, q) && Holds(p, a)
    ensures Holds(q, a)
  {
    assert a.bits[..|q.bits|] == p.bits[..|q.bits|];
  }

  lemma DefaultIsPrivate(k: nat)
    requires k < |DefaultNets()|
    ensures exists j :: 0 <= j < |PrivateNets()| && PrivateNets()[j] == DefaultNets()[k]
  {
    hide Bits;
    assert PrivateNets()[if k < 3 then k else k + 1] == DefaultNets()[k];
  }

  /** Whatever the configuration, everyone believed is in a private range. */
  lemma TrustedIsPrivate(entries: seq<Entry>, nets: seq<Prefix>, a: Addr)
    requires entries == [] ==> nets == DefaultNets()
    requires entries != [] ==> |nets| == |entries|
    requires forall k :: 0 <= k < |entries| ==>
      ValidEntry(entries[k]) && Acceptable(entries[k]) && nets[k] == Masked(entries[k])
    requires InSome(nets, a)
    ensures InSome(PrivateNets(), a)
  {
    hide PrivateNets, DefaultNets, Masked, Inside, Holds;
    var k :| 0 <= k < |nets| && Holds(nets[k], a);
    if entries == [] {
      DefaultIsPrivate(k);
      var j :| 0 <= j < |PrivateNets()| && PrivateNets()[j] == DefaultNets()[k];
    } else {
      assert Acceptable(entries[k]);
      var j :| 0 <= j < |PrivateNets()| && Inside(nets[k], PrivateNets()[j]);
      InsideHolds(nets[k], PrivateNets()[j], a);
    }
  }

  // ----------------------------------------------------------- the client's address

  /** One header entry, trimmed: nothing, an address, or something else. */
  datatype Hop = Blank | Reads(addr: Addr) | Unreadable

  predicate Believed(nets: seq<Prefix>, h: Hop) {
    h == Blank || (h.Reads? && exists k :: 0 <= k < |nets| && Holds(nets[k], Unmap(h.addr)))
  }

  /** The client, reading from the right: the first untrusted address, or the
      last trusted one before the header ends or cannot be read. */
  function Client(nets: seq<Prefix>, hops: seq<Hop>, last: Addr): Addr {
    if hops == [] then last
    else
      var h, rest := hops[|hops| - 1], hops[..|hops| - 1];
      if h == Blank then Client(nets, rest, last)
      else if h == Unreadable then last
      else if !Believed(nets, h) then h.addr
      else Client(nets, rest, h.addr)
  }

  method ClientIP(nets: seq<Prefix>, peer: Addr, hops: seq<Hop>) returns (client: Addr)
    ensures client == if InSome(nets, Unmap(peer)) then Client(nets, hops, peer) else peer
  {
    var trusted := InAny(nets, peer);
    if !trusted { return peer; }
    var last := peer;
    assert hops[..|hops|] == hops;
    for i := |hops| downto 0
      invariant Client(nets, hops, peer) == Client(nets, hops[..i], last)
    {
      var h := hops[i];
      assert hops[..i + 1][..i] == hops[..i];
      if h == Blank { continue; }
      if h == Unreadable { return last; }
      var known := InAny(nets, h.addr);
      if !known { return h.addr; }
      last := h.addr;
    }
    return last;
  }

  /** Whatever stands left of an untrusted or unreadable hop changes nothing. */
  lemma {:induction false} PrependingIsIgnored(nets: seq<Prefix>, more: seq<Hop>, hops: seq<Hop>, last: Addr)
    requires exists k :: 0 <= k < |hops| && !Believed(nets, hops[k])
    ensures Client(nets, more + hops, last) == Client(nets, hops, last)
    decreases |hops|
  {
    var h, rest := hops[|hops| - 1], hops[..|hops| - 1];
    assert (more + hops)[|more + hops| - 1] == h && (more + hops)[..|more + hops| - 1] == more + rest;
    if Believed(nets, h) {
      var k :| 0 <= k < |hops| && !Believed(nets, hops[k]);
      assert rest[k] == hops[k];
      PrependingIsIgnored(nets, more, rest, if h == Blank then last else h.addr);
    }
  }

  /** Without such a hop the header is believed to its end, so it can change. */
  lemma {:induction false} OtherwiseItShows(nets: seq<Prefix>, hops: seq<Hop>, last: Addr, more: seq<Hop>, a: Addr)
    requires forall k :: 0 <= k < |hops| ==> Believed(nets, hops[k])
    requires more == [Reads(a)]
    ensures Client(nets, more + hops, last) == a
    decreases |hops|
  {
    if hops == [] {
      assert more + hops == more && more[..0] == [];
    } else {
      var h, rest := hops[|hops| - 1], hops[..|hops| - 1];
      assert (more + hops)[|more + hops| - 1] == h && (more + hops)[..|more + hops| - 1] == more + rest;
      assert forall k | 0 <= k < |rest| :: rest[k] == hops[k];
      OtherwiseItShows(nets, rest, if h == Blank then last else h.addr, more, a);
    }
  }

  /** A header's hops: its addresses are whole ones. */
  predicate ValidHops(hops: seq<Hop>) {
    forall k :: 0 <= k < |hops| && hops[k].Reads? ==> ValidAddr(hops[k].addr)
  }

  /** The client is what the proxies say exactly as far as they can be believed:
      adding hops in front never matters once one of the hops there is not. */
  lemma HeaderIsBelievedSoFar(nets: seq<Prefix>, hops: seq<Hop>, peer: Addr)
    ensures (forall more :: ValidHops(more) ==> Client(nets, more + hops, peer) == Client(nets, hops, peer)) <==>
      exists k :: 0 <= k < |hops| && !Believed(nets, hops[k])
  {
    hide Client, Believed;
    if exists k :: 0 <= k < |hops| && !Believed(nets, hops[k]) {
      forall more | ValidHops(more) ensures Client(nets, more + hops, peer) == Client(nets, hops, peer) {
        PrependingIsIgnored(nets, more, hops, peer);
      }
    } else {
      var a, b := Addr(V4, seq(32, i => false)), Addr(V4, seq(32, i => true));
      assert ValidHops([Reads(a)]) && ValidHops([Reads(b)]);
      assert a.bits[0] != b.bits[0];
      OtherwiseItShows(nets, hops, peer, [Reads(a)], a);
      OtherwiseItShows(nets, hops, peer, [Reads(b)], b);
    }
  }
}
