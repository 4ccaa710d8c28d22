/**
 The trusted ranges in dotted terms, what masking and containment mean for
 addresses, and the client's hop by its place in the header.
 */
module TrustedRanges {
  import opened Prelude
  import opened Trusted

  /** The number some bits spell, the first the most significant. */
  function Value(bits: seq<bool>): nat {
    if bits == [] then 0 else 2 * Value(bits[..|bits| - 1]) + if bits[|bits| - 1] then 1 else 0
  }

  function Pow2(n: nat): nat {
    if n == 0 then 1 else 2 * Pow2(n - 1)
  }

  /** The k-th number of a dotted address. */
  function Octet(a: Addr, k: nat): nat
    requires ValidAddr(a) && k < 4
  {
    Value(a.bits[8 * k..8 * k + 8])
  }

  lemma {:induction false} ValueBelow(bits: seq<bool>)
    ensures Value(bits) < Pow2(|bits|)
  {
    if bits != [] { ValueBelow(bits[..|bits| - 1]); }
  }

  lemma {:induction false} BitsOf(value: nat, bits: seq<bool>)
    requires value < Pow2(|bits|)
    ensures Bits(value, |bits|) == bits <==> Value(bits) == value
    decreases |bits|
  {
    if bits != [] {
      var init, last := bits[..|bits| - 1], bits[|bits| - 1];
      BitsOf(value / 2, init);
      assert bits == init + [last];
      var made := Bits(value / 2, |init|) + [value % 2 == 1];
      assert made[..|init|] == Bits(value / 2, |init|) && made[|init|] == (value % 2 == 1);
    }
  }

  lemma {:induction false} ValueSplit(a: seq<bool>, b: seq<bool>)
    ensures Value(a + b) == Value(a) * Pow2(|b|) + Value(b)
  {
    if b == [] {
      assert a + b == a;
    } else {
      ValueSplit(a, b[..|b| - 1]);
      assert (a + b)[..|a + b| - 1] == a + b[..|b| - 1] && (a + b)[|a + b| - 1] == b[|b| - 1];
      Twice(Value(a), Pow2(|b| - 1), Value(b[..|b| - 1]), if b[|b| - 1] then 1 else 0, Value(a + b[..|b| - 1]));
    }
  }

  lemma Twice(v: nat, p: nat, r: nat, x: nat, w: nat)
    requires w == v * p + r
    ensures 2 * w + x == v * (2 * p) + (2 * r + x)
  {
    assert 2 * (v * p) == v * (2 * p);
  }

  /** A prefix of n bits of an address spells this number. */
  lemma Fixes(f: Family, value: nat, n: nat, a: Addr)
    requires ValidAddr(a) && n <= |a.bits| && value < Pow2(n)
    ensures Holds(Prefix(f, Bits(value, n)), a) <==> a.family == f && Value(a.bits[..n]) == value
  {
    BitsOf(value, a.bits[..n]);
    assert Bits(value, n) <= a.bits <==> a.bits[..n] == Bits(value, n);
  }

  lemma Powers()
    ensures Pow2(1) == 2 && Pow2(2) == 4 && Pow2(4) == 16 && Pow2(6) == 64 && Pow2(7) == 128 && Pow2(8) == 256
    ensures Pow2(10) == 1024 && Pow2(12) == 4096 && Pow2(16) == 65536
  {
    assert Pow2(4) == 16 && Pow2(8) == 16 * Pow2(4) && Pow2(12) == 16 * Pow2(8) && Pow2(16) == 16 * Pow2(12);
  }

  /** The leading bits of a V4 address by its first two octets. */
  lemma Leading(a: Addr)
    requires ValidAddr(a) && a.family == V4
    ensures Octet(a, 0) == Value(a.bits[..8]) && Octet(a, 0) < 256 && Octet(a, 1) < 256
    ensures Value(a.bits[..16]) == Octet(a, 0) * 256 + Octet(a, 1)
    ensures Value(a.bits[..12]) == Octet(a, 0) * 16 + Octet(a, 1) / 16
    ensures Value(a.bits[..10]) == Octet(a, 0) * 4 + Octet(a, 1) / 64
  {
    var b := a.bits;
    Powers();
    hide Value, Pow2;
    ValueBelow(b[0..8]);
    ValueBelow(b[8..16]);
    Cut(b, 8, 16);
    Cut(b, 8, 12);
    Cut(b, 8, 10);
    Inner(b, 8, 12, 16);
    Inner(b, 8, 10, 16);
    assert b[..8] == b[0..8];
  }

  lemma Cut(b: seq<bool>, i: nat, j: nat)
    requires i <= j <= |b|
    ensures Value(b[..j]) == Value(b[..i]) * Pow2(j - i) + Value(b[i..j])
  {
    ValueSplit(b[..i], b[i..j]);
    assert b[..j] == b[..i] + b[i..j];
  }

  lemma Inner(b: seq<bool>, i: nat, j: nat, k: nat)
    requires i <= j <= k <= |b|
    ensures Value(b[i..k]) == Value(b[i..j]) * Pow2(k - j) + Value(b[j..k]) && Value(b[j..k]) < Pow2(k - j)
  {
    ValueSplit(b[i..j], b[j..k]);
    assert b[i..k] == b[i..j] + b[j..k];
    ValueBelow(b[j..k]);
  }

  /** 10.*, 172.16-31.*, 192.168.*, 127.*, ::1, fc00::/7. */
  predicate Local(a: Addr)
    requires ValidAddr(a)
  {
    if a.family == V4 then
      || Octet(a, 0) == 10 || (Octet(a, 0) == 172 && 16 <= Octet(a, 1) <= 31)
      || (Octet(a, 0) == 192 && Octet(a, 1) == 168) || Octet(a, 0) == 127
    else Value(a.bits) == 1 || Octet(a, 0) == 252 || Octet(a, 0) == 253
  }

  /** 100.64-127.*. */
  predicate CarrierNat(a: Addr)
    requires ValidAddr(a)
  {
    a.family == V4 && Octet(a, 0) == 100 && 64 <= Octet(a, 1) <= 127
  }

  lemma Nets()
    ensures |PrivateNets()| == 7 && |DefaultNets()| == 6
    ensures PrivateNets()[0] == Prefix(V4, Bits(10, 8)) && PrivateNets()[1] == Prefix(V4, Bits(2753, 12))
    ensures PrivateNets()[2] == Prefix(V4, Bits(49320, 16)) && PrivateNets()[3] == Prefix(V4, Bits(401, 10))
    ensures PrivateNets()[4] == Prefix(V4, Bits(127, 8)) && PrivateNets()[5] == Prefix(V6, Bits(1, 128))
    ensures PrivateNets()[6] == Prefix(V6, Bits(126, 7))
    ensures forall k :: 0 <= k < 6 ==> DefaultNets()[k] == PrivateNets()[if k < 3 then k else k + 1]
  {
    hide Bits;
  }

  /** What the k-th private range holds. */
  predicate InNet(a: Addr, k: int)
    requires ValidAddr(a)
  {
    || (k == 0 && a.family == V4 && Octet(a, 0) == 10)
    || (k == 1 && a.family == V4 && Octet(a, 0) == 172 && 16 <= Octet(a, 1) <= 31)
    || (k == 2 && a.family == V4 && Octet(a, 0) == 192 && Octet(a, 1) == 168)
    || (k == 3 && CarrierNat(a))
    || (k == 4 && a.family == V4 && Octet(a, 0) == 127)
    || (k == 5 && a.family == V6 && Value(a.bits) == 1)
    || (k == 6 && a.family == V6 && (Octet(a, 0) == 252 || Octet(a, 0) == 253))
  }

  lemma OtherFamily(f: Family, bits: seq<bool>, a: Addr)
    ensures a.family != f ==> !Holds(Prefix(f, bits), a)
  {
  }

  lemma {:induction false} OneFits(n: nat)
    requires n >= 1
    ensures 1 < Pow2(n)
  {
    if n > 1 { OneFits(n - 1); }
  }

  lemma V4Net(a: Addr, k: nat)
    requires ValidAddr(a) && a.family == V4 && k < 7
    ensures Holds(PrivateNets()[k], a) <==> InNet(a, k)
  {
    Nets();
    Powers();
    Leading(a);
    hide PrivateNets, DefaultNets, Bits, Value, Pow2, Holds, Octet;
    match k
    case 0 => Fixes(V4, 10, 8, a);
    case 1 => Fixes(V4, 2753, 12, a);
    case 2 => Fixes(V4, 49320, 16, a);
    case 3 => Fixes(V4, 401, 10, a);
    case 4 => Fixes(V4, 127, 8, a);
    case 5 => OtherFamily(V6, Bits(1, 128), a);
    case _ => OtherFamily(V6, Bits(126, 7), a);
  }

  lemma V6Net(a: Addr, k: nat)
    requires ValidAddr(a) && a.family == V6 && k < 7
    ensures Holds(PrivateNets()[k], a) <==> InNet(a, k)
  {
    Nets();
    hide PrivateNets, DefaultNets, Bits, Value, Holds, Octet;
    if k < 5 { OtherFamily(V4, PrivateNets()[k].bits, a); }
    if k == 5 { Loopback(a); }
    if k == 6 { UniqueLocal(a); }
  }

  lemma Loopback(a: Addr)
    requires ValidAddr(a) && a.family == V6
    ensures Holds(Prefix(V6, Bits(1, 128)), a) <==> Value(a.bits) == 1
  {
    OneFits(128);
    hide Bits, Value, Pow2, Holds;
    Fixes(V6, 1, 128, a);
    assert a.bits[..128] == a.bits;
  }

  lemma UniqueLocal(a: Addr)
    requires ValidAddr(a) && a.family == V6
    ensures Holds(Prefix(V6, Bits(126, 7)), a) <==> Octet(a, 0) == 252 || Octet(a, 0) == 253
  {
    Powers();
    hide Bits, Value, Pow2, Holds;
    Fixes(V6, 126, 7, a);
    Inner(a.bits, 0, 7, 8);
    assert a.bits[..7] == a.bits[0..7];
  }

  /** Which addresses the two built-in lists hold. */
  lemma ListsHold(a: Addr)
    requires ValidAddr(a)
    ensures InSome(PrivateNets(), a) <==> Local(a) || CarrierNat(a)
    ensures InSome(DefaultNets(), a) <==> Local(a)
  {
    hide PrivateNets, DefaultNets, Holds, InNet, InSome, Local, CarrierNat;
    Nets();
    forall k | 0 <= k < 7 ensures Holds(PrivateNets()[k], a) <==> InNet(a, k) {
      if a.family == V4 { V4Net(a, k); } else { V6Net(a, k); }
    }
    SomeNet(a);
    AllSeven(PrivateNets(), a);
    ButTheFourth(PrivateNets(), DefaultNets(), a);
  }

  lemma AllSeven(all: seq<Prefix>, a: Addr)
    requires ValidAddr(a) && |all| == 7 && forall k :: 0 <= k < 7 ==> (Holds(all[k], a) <==> InNet(a, k))
    ensures InSome(all, a) <==> exists k :: 0 <= k < 7 && InNet(a, k)
  {
    hide Holds, InNet;
  }

  lemma ButTheFourth(all: seq<Prefix>, some: seq<Prefix>, a: Addr)
    requires ValidAddr(a) && |all| == 7 && forall k :: 0 <= k < 7 ==> (Holds(all[k], a) <==> InNet(a, k))
    requires |some| == 6 && forall k :: 0 <= k < 6 ==> some[k] == all[if k < 3 then k else k + 1]
    ensures InSome(some, a) <==> exists k :: 0 <= k < 7 && k != 3 && InNet(a, k)
  {
    hide Holds, InNet;
    if InSome(some, a) {
      var k :| 0 <= k < 6 && Holds(some[k], a);
      assert InNet(a, if k < 3 then k else k + 1);
    }
    if k :| 0 <= k < 7 && k != 3 && InNet(a, k) { assert Holds(some[if k < 3 then k else k - 1], a); }
  }

  lemma SomeNet(a: Addr)
    requires ValidAddr(a)
    ensures Local(a) <==> exists k :: 0 <= k < 7 && k != 3 && InNet(a, k)
    ensures CarrierNat(a) <==> InNet(a, 3)
  {
    hide Octet, Value, CarrierNat;
    assert InNet(a, 0) || InNet(a, 1) || InNet(a, 2) || InNet(a, 4) || InNet(a, 5) || InNet(a, 6) <==> Local(a);
  }

  /** An IPv6 address that carries an IPv4 one is that one. */
  lemma UnmapIs(a: Addr)
    requires ValidAddr(a)
    ensures a.family == V6 && (forall k :: 0 <= k < 80 ==> !a.bits[k]) && (forall k :: 80 <= k < 96 ==> a.bits[k]) ==>
      Unmap(a) == Addr(V4, a.bits[96..])
    ensures !(a.family == V6 && (forall k :: 0 <= k < 80 ==> !a.bits[k]) && (forall k :: 80 <= k < 96 ==> a.bits[k])) ==>
      Unmap(a) == a
  {
    if a.family == V6 {
      assert forall k | 0 <= k < 96 :: a.bits[..96][k] == a.bits[k];
    }
  }

  /** A prefix is inside another exactly when all its addresses are in it. */
  lemma InsideIs(p: Prefix, q: Prefix)
    requires |p.bits| <= Width(p.family)
    ensures Inside(p, q) <==> forall a :: ValidAddr(a) && Holds(p, a) ==> Holds(q, a)
  {
    if Inside(p, q) {
      forall a | ValidAddr(a) && Holds(p, a) ensures Holds(q, a) { InsideHolds(p, q, a); }
    } else {
      var n := Width(p.family) - |p.bits|;
      var low, high := Addr(p.family, p.bits + seq(n, i => false)), Addr(p.family, p.bits + seq(n, i => true));
      assert Holds(p, low) && Holds(p, high) && ValidAddr(low) && ValidAddr(high);
      if Holds(q, low) && Holds(q, high) { HoldsBoth(p, q, low, high); }
    }
  }

  lemma HoldsBoth(p: Prefix, q: Prefix, low: Addr, high: Addr)
    requires low.family == p.family && p.bits <= low.bits && p.bits <= high.bits && Holds(q, low) && Holds(q, high)
    requires |low.bits| > |p.bits| ==> |high.bits| > |p.bits| && low.bits[|p.bits|] != high.bits[|p.bits|]
    ensures Inside(p, q)
  {
    assert |q.bits| <= |p.bits| by {
      assert forall k | 0 <= k < |q.bits| :: q.bits[k] == low.bits[k] && q.bits[k] == high.bits[k];
    }
    assert p.bits[..|q.bits|] == low.bits[..|q.bits|] == q.bits;
  }

  /** An entry means the addresses that share its first bits, all of them for an
      address alone. */
  lemma EntryMeans(e: Entry, a: Addr)
    requires ValidEntry(e) && !e.Junk? && ValidAddr(a)
    ensures e.Cidr? ==> (Holds(Masked(e), a) <==> a.family == e.addr.family && a.bits[..e.length] == e.addr.bits[..e.length])
    ensures e.Bare? ==> (Holds(Masked(e), a) <==> a == Unmap(e.addr))
  {
    if e.Cidr? && a.family == e.addr.family {
      assert e.addr.bits[..e.length] <= a.bits <==> a.bits[..e.length] == e.addr.bits[..e.length];
    }
    if e.Bare? && a.family == Unmap(e.addr).family {
      assert Unmap(e.addr).bits <= a.bits <==> a.bits == Unmap(e.addr).bits;
    }
  }

  /** All the entry's addresses are in the k-th private range. */
  ghost predicate WithinNet(e: Entry, k: int)
    requires ValidEntry(e) && !e.Junk?
  {
    forall a :: ValidAddr(a) && Holds(Masked(e), a) ==> InNet(a, k)
  }

  lemma WithinIs(e: Entry, k: nat)
    requires ValidEntry(e) && !e.Junk? && k < 7
    ensures Inside(Masked(e), PrivateNets()[k]) <==> WithinNet(e, k)
  {
    InsideIs(Masked(e), PrivateNets()[k]);
    forall a | ValidAddr(a) ensures Holds(PrivateNets()[k], a) <==> InNet(a, k) {
      if a.family == V4 { V4Net(a, k); } else { V6Net(a, k); }
    }
    hide PrivateNets, DefaultNets, Masked, Inside, Holds, InNet;
  }

  /** An entry may be trusted if and only if it reads as a range that lies within
      one of the seven private ones. */
  lemma AcceptableIs(e: Entry)
    requires ValidEntry(e)
    ensures Acceptable(e) <==> !e.Junk? && exists k :: 0 <= k < 7 && WithinNet(e, k)
  {
    Nets();
    if !e.Junk? {
      forall k | 0 <= k < 7 ensures Inside(Masked(e), PrivateNets()[k]) <==> WithinNet(e, k) { WithinIs(e, k); }
      hide PrivateNets, DefaultNets, Masked, Inside, WithinNet;
      if k :| 0 <= k < 7 && WithinNet(e, k) { assert Inside(Masked(e), PrivateNets()[k]); }
      if k :| 0 <= k < |PrivateNets()| && Inside(Masked(e), PrivateNets()[k]) { assert WithinNet(e, k); }
    }
  }

  // ---------------------------------------------------------------- the client's hop

  ghost predicate Trusts(nets: seq<Prefix>, h: Hop) {
    h.Reads? && InSome(nets, Unmap(h.addr))
  }

  /** hops[k] is the first from the right that is neither blank nor trusted. */
  ghost predicate StopsAt(nets: seq<Prefix>, hops: seq<Hop>, k: int) {
    && 0 <= k < |hops| && hops[k] != Blank && !Trusts(nets, hops[k])
    && forall j :: k < j < |hops| ==> hops[j] == Blank || Trusts(nets, hops[j])
  }

  /** The leftmost hop that reads from some place on, or else the peer. */
  ghost predicate Furthest(hops: seq<Hop>, from: int, peer: Addr, client: Addr) {
    || (exists k :: from <= k < |hops| && 0 <= k && hops[k] == Reads(client) && forall j :: from <= j < k && 0 <= j ==> !hops[j].Reads?)
    || (client == peer && forall k :: from <= k < |hops| && 0 <= k ==> !hops[k].Reads?)
  }

  /** The client a trusted peer's header gives: the first untrusted address from
      the right; or, where the header ends or cannot be read, the furthest
      address read by then. */
  lemma {:induction false} ClientIs(nets: seq<Prefix>, hops: seq<Hop>, last: Addr)
    ensures forall k :: StopsAt(nets, hops, k) && hops[k].Reads? ==> Client(nets, hops, last) == hops[k].addr
    ensures forall k :: StopsAt(nets, hops, k) && hops[k] == Unreadable ==> Furthest(hops, k + 1, last, Client(nets, hops, last))
    ensures (forall k :: !StopsAt(nets, hops, k)) ==> Furthest(hops, 0, last, Client(nets, hops, last))
  {
    if hops != [] {
      var n, h, rest := |hops| - 1, hops[|hops| - 1], hops[..|hops| - 1];
      assert Believed(nets, h) <==> h == Blank || Trusts(nets, h);
      if h != Blank && !Believed(nets, h) {
        assert StopsAt(nets, hops, n);
        forall k | StopsAt(nets, hops, k) ensures k == n { }
      } else {
        var next := if h == Blank then last else h.addr;
        ClientIs(nets, rest, next);
        hide Trusts, Client;
        forall k ensures StopsAt(nets, hops, k) <==> StopsAt(nets, rest, k) {
          if StopsAt(nets, rest, k) { assert forall j | k < j < n :: hops[j] == rest[j]; }
          if StopsAt(nets, hops, k) { assert k < n && forall j | k < j < n :: rest[j] == hops[j]; }
        }
        var c := Client(nets, rest, next);
        assert Client(nets, hops, last) == c by { ClientStep(nets, hops, last); }
        forall k | StopsAt(nets, hops, k) && hops[k] == Unreadable ensures Furthest(hops, k + 1, last, c) {
          FurthestMore(hops, k + 1, last, next, c);
        }
        if forall k :: !StopsAt(nets, hops, k) { FurthestMore(hops, 0, last, next, c); }
      }
    }
  }

  lemma ClientStep(nets: seq<Prefix>, hops: seq<Hop>, last: Addr)
    requires hops != [] && Believed(nets, hops[|hops| - 1])
    ensures var h, rest := hops[|hops| - 1], hops[..|hops| - 1];
      Client(nets, hops, last) == Client(nets, rest, if h == Blank then last else h.addr)
  {
  }

  lemma FurthestMore(hops: seq<Hop>, from: int, last: Addr, next: Addr, c: Addr)
    requires hops != [] && 0 <= from <= |hops| - 1 && hops[|hops| - 1] != Unreadable
    requires next == if hops[|hops| - 1] == Blank then last else hops[|hops| - 1].addr
    requires Furthest(hops[..|hops| - 1], from, next, c)
    ensures Furthest(hops, from, last, c)
  {
    var n, rest := |hops| - 1, hops[..|hops| - 1];
    if k :| from <= k < |rest| && 0 <= k && rest[k] == Reads(c) && forall j :: from <= j < k && 0 <= j ==> !rest[j].Reads? {
      assert hops[k] == Reads(c) && forall j | from <= j < k && 0 <= j :: hops[j] == rest[j];
    } else {
      assert forall k | from <= k < n :: hops[k] == rest[k];
      if hops[n].Reads? { assert hops[n] == Reads(c); }
    }
  }
}
