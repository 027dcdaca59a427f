/** The WireGuard mesh's addresses (pkg/config/mesh.go, network.go). An IPv4 address is its 32 bits, most significant
    first; a byte is eight of them. */
module Mesh {
  import opened Text

  type Bits = seq<bool>

  predicate IsAddr(a: Bits) {
    |a| == 32
  }

  /** An address block: the addresses that agree with addr on the first bits. Masked: the rest of addr is clear. */
  datatype Prefix = Prefix(addr: Bits, bits: nat) {
    predicate Valid() {
      IsAddr(addr) && bits <= 30 && forall i :: bits <= i < 32 ==> !addr[i]
    }
    predicate Contains(a: Bits)
      requires Valid() && IsAddr(a)
    {
      a[..bits] == addr[..bits]
    }
  }

  predicate Overlaps(p: Prefix, q: Prefix)
    requires p.Valid() && q.Valid()
  {
    var n := if p.bits < q.bits then p.bits else q.bits;
    p.addr[..n] == q.addr[..n]
  }

  /** Blocks overlap exactly when some address lies in both. */
  lemma OverlapIsShared(p: Prefix, q: Prefix)
    requires p.Valid() && q.Valid()
    ensures Overlaps(p, q) <==> exists a :: IsAddr(a) && p.Contains(a) && q.Contains(a)
  {
    if Overlaps(p, q) {
      var a := if p.bits < q.bits then q.addr else p.addr;
      assert IsAddr(a) && p.Contains(a) && q.Contains(a);
    }
    if exists a :: IsAddr(a) && p.Contains(a) && q.Contains(a) {
      var a :| IsAddr(a) && p.Contains(a) && q.Contains(a);
      var n := if p.bits < q.bits then p.bits else q.bits;
      assert a[..p.bits][..n] == a[..n] && a[..q.bits][..n] == a[..n];
      assert p.addr[..p.bits][..n] == p.addr[..n] && q.addr[..q.bits][..n] == q.addr[..n];
    }
  }

  // ------------------------------------------------------------------ numbers

  function Pow2(n: nat): nat {
    if n == 0 then 1 else 2 * Pow2(n - 1)
  }

  function Number(a: Bits): nat {
    if a == [] then 0 else 2 * Number(a[..|a| - 1]) + if a[|a| - 1] then 1 else 0
  }

  lemma {:induction false} NumberBelow(a: Bits)
    ensures Number(a) < Pow2(|a|)
  {
    if a != [] {
      NumberBelow(a[..|a| - 1]);
    }
  }

  lemma {:induction false} NumberTail(a: Bits, n: nat)
    requires n <= |a|
    ensures Number(a) == Number(a[..n]) * Pow2(|a| - n) + Number(a[n..])
    decreases |a|
  {
    if n == |a| {
      assert a[..n] == a && a[n..] == [];
    } else {
      var init := a[..|a| - 1];
      NumberTail(init, n);
      assert init[..n] == a[..n] && a[n..][..|a| - n - 1] == init[n..];
      assert Number(a[n..]) == 2 * Number(init[n..]) + if a[|a| - 1] then 1 else 0;
      DoublePow(Number(a[..n]), |init| - n);
    }
  }

  lemma DoublePow(x: nat, n: nat)
    ensures 2 * (x * Pow2(n)) == x * Pow2(n + 1)
  {
  }

  lemma {:induction false} NumberUniform(a: Bits, bit: bool)
    requires forall i :: 0 <= i < |a| ==> a[i] == bit
    ensures Number(a) == if bit then Pow2(|a|) - 1 else 0
  {
    if a != [] {
      NumberUniform(a[..|a| - 1], bit);
    }
  }

  // ------------------------------------------------------------- the last address

  /** The bits of bytes, one after the other. */
  function Flat(b: seq<Bits>): Bits {
    if b == [] then [] else Flat(b[..|b| - 1]) + b[|b| - 1]
  }

  lemma {:induction false} FlatAt(b: seq<Bits>, i: nat)
    requires forall k :: 0 <= k < |b| ==> |b[k]| == 8
    ensures |Flat(b)| == 8 * |b|
    ensures i < 8 * |b| ==> Flat(b)[i] == b[i / 8][i % 8]
  {
    if b != [] {
      FlatAt(b[..|b| - 1], i);
    }
  }

  /** The address with every bit from the given one on set. */
  function Filled(a: Bits, bits: nat): Bits
    requires IsAddr(a) && bits <= 32
  {
    a[..bits] + seq(32 - bits, _ => true)
  }

  method LastAddr(p: Prefix) returns (last: Bits)
    requires p.Valid()
    ensures last == Filled(p.addr, p.bits)
  {
    var b := new Bits[4][p.addr[..8], p.addr[8..16], p.addr[16..24], p.addr[24..]];
    var i := p.bits;
    while i < 32
      invariant p.bits <= i <= 32
      invariant forall k :: 0 <= k < 4 ==> |b[k]| == 8
      invariant forall k, m :: 0 <= k < 4 && 0 <= m < 8 ==> b[k][m] == (p.bits <= 8 * k + m < i || p.addr[8 * k + m])
    {
      b[i / 8] := b[i / 8][i % 8 := true];
      i := i + 1;
    }
    last := Flat(b[..]);
    FlatAt(b[..], 0);
    forall j | 0 <= j < 32 ensures last[j] == Filled(p.addr, p.bits)[j] {
      FlatAt(b[..], j);
    }
  }

  /** The last address is the base plus 2^(32 - bits) - 1: the greatest the block holds. */
  lemma LastAddrNumber(p: Prefix, a: Bits)
    requires p.Valid() && IsAddr(a) && p.Contains(a)
    ensures var last := Filled(p.addr, p.bits);
      && Number(last) == Number(p.addr) + Pow2(32 - p.bits) - 1
      && p.Contains(last) && Number(p.addr) <= Number(a) <= Number(last)
  {
    var last, n := Filled(p.addr, p.bits), p.bits;
    assert last[..n] == p.addr[..n] && last[n..] == seq(32 - n, _ => true);
    NumberTail(last, n);
    NumberTail(p.addr, n);
    NumberTail(a, n);
    NumberUniform(last[n..], true);
    NumberUniform(p.addr[n..], false);
    NumberBelow(a[n..]);
  }

  // -------------------------------------------------------------------- the next address

  /** The address after a, or None after the last of all. */
  function NextAddr(a: Bits): Option<Bits> {
    if a == [] then None
    else if !a[|a| - 1] then Some(a[..|a| - 1] + [true])
    else match NextAddr(a[..|a| - 1]) case None => None case Some(b) => Some(b + [false])
  }

  lemma {:induction false} NextNumber(a: Bits)
    ensures NextAddr(a).Some? ==> |NextAddr(a).value| == |a| && Number(NextAddr(a).value) == Number(a) + 1
    ensures NextAddr(a).None? <==> Number(a) + 1 == Pow2(|a|)
  {
    if a != [] {
      var init := a[..|a| - 1];
      NextNumber(init);
      NumberBelow(init);
      assert (init + [true])[..|init|] == init;
      if a[|a| - 1] && NextAddr(init).Some? {
        var b := NextAddr(init).value;
        assert (b + [false])[..|b|] == b;
      }
    }
  }

  /** The nth address after a. */
  function NthAddr(a: Bits, n: nat): Option<Bits> {
    if n == 0 then Some(a) else
      match NthAddr(a, n - 1) case None => None case Some(b) => NextAddr(b)
  }

  /** It is the address n further on, if there are as many. */
  lemma {:induction false} NthNumber(a: Bits, n: nat)
    ensures NthAddr(a, n).Some? <==> Number(a) + n < Pow2(|a|)
    ensures NthAddr(a, n).Some? ==> |NthAddr(a, n).value| == |a| && Number(NthAddr(a, n).value) == Number(a) + n
  {
    if n == 0 {
      NumberBelow(a);
    } else {
      NthNumber(a, n - 1);
      if b :| NthAddr(a, n - 1) == Some(b) {
        NextNumber(b);
        NumberBelow(b);
      }
    }
  }

  // ------------------------------------------------------------------- bridges and peers

  datatype Declared = Absent | Unusable | At(addr: Bits)

  /** A host in sorted order: its declared tunnel address, its bridge's subnet if that parses, whether its key and
      endpoint have the right form, and whether what it says of its network does. */
  datatype Host = Host(declared: Declared, bridge: Option<Prefix>, formed: bool, named: bool) {
    predicate Valid() {
      (declared.At? ==> IsAddr(declared.addr)) && (bridge.Some? ==> bridge.value.Valid())
    }
  }

  datatype Peer = Peer(address: Bits, bridge: Prefix)

  predicate Disjoint(p: Option<Prefix>, q: Option<Prefix>) {
    p.Some? && q.Some? && p.value.Valid() && q.value.Valid() ==> !Overlaps(p.value, q.value)
  }

  /** What each host says of its network has the right form, and no two hosts' bridge subnets overlap. */
  method ValidateHostNetworks(hosts: seq<Host>) returns (ok: bool)
    requires forall i :: 0 <= i < |hosts| ==> hosts[i].Valid()
    ensures ok <==> (forall i :: 0 <= i < |hosts| ==> hosts[i].named)
                    && forall i, j :: 0 <= i < j < |hosts| ==> Disjoint(hosts[i].bridge, hosts[j].bridge)
  {
    var seen: seq<Prefix> := [];
    for n := 0 to |hosts|
      invariant forall p :: p in seen ==> p.Valid()
      invariant forall i :: 0 <= i < n && hosts[i].bridge.Some? ==> hosts[i].bridge.value in seen
      invariant forall p :: p in seen ==> exists i :: 0 <= i < n && hosts[i].bridge == Some(p)
      invariant forall i :: 0 <= i < n ==> hosts[i].named
      invariant forall i, j :: 0 <= i < j < n ==> Disjoint(hosts[i].bridge, hosts[j].bridge)
    {
      if !hosts[n].named {
        return false;
      }
      if hosts[n].bridge.None? {
        continue;
      }
      var p := hosts[n].bridge.value;
      for k := 0 to |seen|
        invariant forall m :: 0 <= m < k ==> !Overlaps(seen[m], p)
      {
        assert seen[k] in seen;
        if Overlaps(seen[k], p) {
          var i :| 0 <= i < n && hosts[i].bridge == Some(seen[k]);
          assert !Disjoint(hosts[i].bridge, hosts[n].bridge);
          return false;
        }
      }
      seen := seen + [p];
    }
    ok := true;
  }

  /** The ith host's tunnel address: the one declared, else the subnet's (i+1)th. */
  function AddressOf(subnet: Prefix, h: Host, i: nat): Option<Bits> {
    match h.declared
    case Unusable => None
    case At(a) => Some(a)
    case Absent => NthAddr(subnet.addr, i + 1)
  }

  lemma {:induction false} AddressNumber(subnet: Prefix, h: Host, i: nat)
    requires subnet.Valid() && h.Valid()
    ensures var a := AddressOf(subnet, h, i);
      && (a.Some? ==> IsAddr(a.value))
      && (h.declared.Absent? ==> (a.Some? <==> Number(subnet.addr) + i + 1 < Pow2(32)))
      && (h.declared.Absent? && a.Some? ==> Number(a.value) == Number(subnet.addr) + i + 1)
  {
    NthNumber(subnet.addr, i + 1);
  }

  method TunnelAddress(subnet: Prefix, h: Host, i: nat) returns (a: Option<Bits>)
    requires subnet.Valid() && h.Valid()
    ensures a == AddressOf(subnet, h, i) && (a.Some? ==> IsAddr(a.value))
    ensures h.declared.Absent? ==> (a.Some? <==> Number(subnet.addr) + i + 1 < Pow2(32))
    ensures h.declared.Absent? && a.Some? ==> Number(a.value) == Number(subnet.addr) + i + 1
    ensures !h.declared.Absent? ==> a == if h.declared.At? then Some(h.declared.addr) else None
  {
    AddressNumber(subnet, h, i);
    if h.declared.Unusable? {
      return None;
    }
    if h.declared.At? {
      return Some(h.declared.addr);
    }
    a := NthAfter(subnet.addr, i + 1);
  }

  method NthAfter(a: Bits, n: nat) returns (r: Option<Bits>)
    ensures r == NthAddr(a, n)
  {
    r := Some(a);
    for j := 0 to n
      invariant r == NthAddr(a, j) && r.Some?
    {
      r := NextAddr(r.value);
      if r.None? {
        NthNone(a, j + 1, n);
        return;
      }
    }
  }

  lemma {:induction false} NthNone(a: Bits, m: nat, n: nat)
    requires m <= n && NthAddr(a, m).None?
    ensures NthAddr(a, n).None?
  {
    if m < n {
      NthNone(a, m, n - 1);
    }
  }

  /** A usable tunnel address: of the subnet, and neither its first nor its last. */
  predicate UsableAddress(subnet: Prefix, a: Bits)
    requires subnet.Valid()
  {
    IsAddr(a) && subnet.Contains(a) && a != subnet.addr && a != Filled(subnet.addr, subnet.bits)
  }

  /** In numbers: strictly between the block's first address and its last, the first plus 2^(32 - bits) - 1. */
  lemma UsableIff(subnet: Prefix, a: Bits)
    requires subnet.Valid() && IsAddr(a)
    ensures UsableAddress(subnet, a) <==>
      Number(subnet.addr) < Number(a) < Number(subnet.addr) + Pow2(32 - subnet.bits) - 1
  {
    var last := Filled(subnet.addr, subnet.bits);
    LastAddrNumber(subnet, subnet.addr);
    SameNumber(a, subnet.addr);
    SameNumber(a, last);
    if subnet.Contains(a) {
      LastAddrNumber(subnet, a);
    } else {
      OutsideNumber(subnet, a);
    }
  }

  lemma {:induction false} SameNumber(a: Bits, b: Bits)
    requires |a| == |b|
    ensures Number(a) == Number(b) <==> a == b
  {
    if a != [] {
      SameNumber(a[..|a| - 1], b[..|b| - 1]);
      assert a == a[..|a| - 1] + [a[|a| - 1]] && b == b[..|b| - 1] + [b[|b| - 1]];
    }
  }

  /** An address that is not of the block is below all of it or above. */
  lemma OutsideNumber(subnet: Prefix, a: Bits)
    requires subnet.Valid() && IsAddr(a) && !subnet.Contains(a)
    ensures Number(a) < Number(subnet.addr) || Number(a) >= Number(subnet.addr) + Pow2(32 - subnet.bits)
  {
    var n, size := subnet.bits, Pow2(32 - subnet.bits);
    SameNumber(a[..n], subnet.addr[..n]);
    NumberTail(a, n);
    NumberTail(subnet.addr, n);
    NumberUniform(subnet.addr[n..], false);
    NumberBelow(a[n..]);
    Apart(Number(a[..n]), Number(subnet.addr[..n]), size, Number(a[n..]));
  }

  lemma Apart(x: nat, y: nat, size: nat, rest: nat)
    requires x != y && rest < size
    ensures x * size + rest < y * size || x * size + rest >= y * size + size
  {
    if x < y {
      TimesGrows(x + 1, y, size);
    } else {
      TimesGrows(y + 1, x, size);
    }
  }

  lemma TimesGrows(x: nat, y: nat, size: nat)
    requires x <= y
    ensures x * size <= y * size
  {
  }

  /** The host can be the ith peer: its form, its address and its bridge are right. */
  predicate CanJoin(subnet: Prefix, h: Host, i: nat)
    requires subnet.Valid() && h.Valid()
  {
    && h.formed && AddressOf(subnet, h, i).Some? && UsableAddress(subnet, AddressOf(subnet, h, i).value)
    && h.bridge.Some? && !Overlaps(h.bridge.value, subnet)
  }

  /** The fleet's addresses fit together: every host can join, and no two have one address. */
  predicate FleetFits(subnet: Prefix, hosts: seq<Host>)
    requires subnet.Valid() && forall i :: 0 <= i < |hosts| ==> hosts[i].Valid()
  {
    && (forall i :: 0 <= i < |hosts| ==> CanJoin(subnet, hosts[i], i))
    && forall i, j :: 0 <= i < j < |hosts| ==> AddressOf(subnet, hosts[i], i) != AddressOf(subnet, hosts[j], j)
  }

  /** The number of the ith host's address. */
  function NumberOf(subnet: Prefix, h: Host, i: nat): nat {
    if h.declared.At? then Number(h.declared.addr) else Number(subnet.addr) + i + 1
  }

  /** The host fits, in numbers: its address lies strictly inside the subnet, and no address of its bridge does. */
  ghost predicate FitsAlone(subnet: Prefix, h: Host, i: nat)
    requires subnet.Valid() && h.Valid()
  {
    && h.formed && !h.declared.Unusable? && h.bridge.Some?
    && Number(subnet.addr) < NumberOf(subnet, h, i) < Number(subnet.addr) + Pow2(32 - subnet.bits) - 1
    && forall a :: IsAddr(a) && subnet.Contains(a) ==> !h.bridge.value.Contains(a)
  }

  lemma AddressFitsIff(subnet: Prefix, h: Host, i: nat)
    requires subnet.Valid() && h.Valid()
    ensures var a, n := AddressOf(subnet, h, i), NumberOf(subnet, h, i);
      && (a.Some? ==> Number(a.value) == n)
      && (a.Some? && UsableAddress(subnet, a.value) <==>
            !h.declared.Unusable? && Number(subnet.addr) < n < Number(subnet.addr) + Pow2(32 - subnet.bits) - 1)
  {
    var a := AddressOf(subnet, h, i);
    AddressNumber(subnet, h, i);
    LastBelow(subnet);
    if a.Some? {
      UsableIff(subnet, a.value);
    }
  }

  lemma LastBelow(subnet: Prefix)
    requires subnet.Valid()
    ensures Number(subnet.addr) + Pow2(32 - subnet.bits) - 1 < Pow2(32)
  {
    LastAddrNumber(subnet, subnet.addr);
    NumberBelow(Filled(subnet.addr, subnet.bits));
  }

  lemma CanJoinIff(subnet: Prefix, h: Host, i: nat)
    requires subnet.Valid() && h.Valid()
    ensures CanJoin(subnet, h, i) <==> FitsAlone(subnet, h, i)
    ensures CanJoin(subnet, h, i) ==> Number(AddressOf(subnet, h, i).value) == NumberOf(subnet, h, i)
  {
    AddressFitsIff(subnet, h, i);
    if h.bridge.Some? {
      OverlapIsShared(h.bridge.value, subnet);
    }
  }

  /** Which fleets fit: every host does, and no two have one address. */
  lemma FleetFitsIff(subnet: Prefix, hosts: seq<Host>)
    requires subnet.Valid() && forall i :: 0 <= i < |hosts| ==> hosts[i].Valid()
    ensures FleetFits(subnet, hosts) <==>
      && (forall i :: 0 <= i < |hosts| ==> FitsAlone(subnet, hosts[i], i))
      && forall i, j :: 0 <= i < j < |hosts| ==> NumberOf(subnet, hosts[i], i) != NumberOf(subnet, hosts[j], j)
  {
    forall i | 0 <= i < |hosts| ensures CanJoin(subnet, hosts[i], i) <==> FitsAlone(subnet, hosts[i], i) {
      CanJoinIff(subnet, hosts[i], i);
    }
    forall i, j | 0 <= i < j < |hosts| && CanJoin(subnet, hosts[i], i) && CanJoin(subnet, hosts[j], j)
      ensures AddressOf(subnet, hosts[i], i) == AddressOf(subnet, hosts[j], j)
          <==> NumberOf(subnet, hosts[i], i) == NumberOf(subnet, hosts[j], j) {
      CanJoinIff(subnet, hosts[i], i);
      CanJoinIff(subnet, hosts[j], j);
      SameNumber(AddressOf(subnet, hosts[i], i).value, AddressOf(subnet, hosts[j], j).value);
    }
  }

  /** The ith host as a peer, unless it cannot join or its address is used. */
  method JoinPeer(subnet: Prefix, broadcast: Bits, h: Host, i: nat, used: set<Bits>) returns (peer: Option<Peer>)
    requires subnet.Valid() && h.Valid() && broadcast == Filled(subnet.addr, subnet.bits)
    ensures peer.Some? <==> CanJoin(subnet, h, i) && AddressOf(subnet, h, i).value !in used
    ensures peer.Some? ==> AddressOf(subnet, h, i) == Some(peer.value.address) && h.bridge == Some(peer.value.bridge)
  {
    var a := TunnelAddress(subnet, h, i);
    if !h.formed || a.None? || !subnet.Contains(a.value) || a.value == subnet.addr || a.value == broadcast {
      return None;
    }
    if a.value in used || h.bridge.None? || Overlaps(h.bridge.value, subnet) {
      return None;
    }
    peer := Some(Peer(a.value, h.bridge.value));
  }

  /** Every host's place in the mesh, or None exactly when there is no host or the fleet's addresses do not fit. */
  method MeshPeers(subnet: Prefix, hosts: seq<Host>) returns (peers: Option<seq<Peer>>)
    requires subnet.Valid() && forall i :: 0 <= i < |hosts| ==> hosts[i].Valid()
    ensures peers.Some? <==> hosts != [] && FleetFits(subnet, hosts)
    ensures peers.Some? ==> PeersOf(subnet, hosts, peers.value)
    ensures peers.Some? ==> forall i :: 0 <= i < |peers.value| ==>
      Number(peers.value[i].address) == NumberOf(subnet, hosts[i], i) && hosts[i].bridge == Some(peers.value[i].bridge)
  {
    if |hosts| == 0 {
      return None;
    }
    var broadcast := LastAddr(subnet);
    var out: seq<Peer>, used: set<Bits> := [], {};
    for n := 0 to |hosts|
      invariant PeersOf(subnet, hosts[..n], out) && FleetFits(subnet, hosts[..n])
      invariant forall i :: 0 <= i < n ==> out[i].address in used
      invariant forall a :: a in used ==> exists i :: 0 <= i < n && AddressOf(subnet, hosts[i], i) == Some(a)
    {
      var peer := JoinPeer(subnet, broadcast, hosts[n], n, used);
      if peer.None? {
        return None;
      }
      out := out + [peer.value];
      used := used + {peer.value.address};
    }
    assert hosts[..|hosts|] == hosts;
    peers := Some(out);
    PeersInNumbers(subnet, hosts, out);
  }

  lemma PeersInNumbers(subnet: Prefix, hosts: seq<Host>, peers: seq<Peer>)
    requires subnet.Valid() && forall i :: 0 <= i < |hosts| ==> hosts[i].Valid()
    requires FleetFits(subnet, hosts) && PeersOf(subnet, hosts, peers)
    ensures forall i :: 0 <= i < |peers| ==> Number(peers[i].address) == NumberOf(subnet, hosts[i], i)
  {
    forall i | 0 <= i < |peers| ensures Number(peers[i].address) == NumberOf(subnet, hosts[i], i) {
      assert CanJoin(subnet, hosts[i], i);
      CanJoinIff(subnet, hosts[i], i);
    }
  }

  /** Each host in its place, with its address and its bridge. */
  predicate PeersOf(subnet: Prefix, hosts: seq<Host>, peers: seq<Peer>) {
    && |peers| == |hosts|
    && forall i :: 0 <= i < |peers| ==>
      AddressOf(subnet, hosts[i], i) == Some(peers[i].address) && hosts[i].bridge == Some(peers[i].bridge)
  }

  /** What a peer's AllowedIPs route to it: its tunnel address and its bridge's subnet. */
  predicate Allowed(p: Peer, a: Bits)
    requires p.bridge.Valid() && IsAddr(a)
  {
    a == p.address || p.bridge.Contains(a)
  }

  /** When both checks accept a fleet, every address is routed to one peer at most. */
  lemma {:induction false} OnePeerPerAddress(subnet: Prefix, hosts: seq<Host>, peers: seq<Peer>, a: Bits, i: nat,
                                             j: nat)
    requires subnet.Valid() && forall k :: 0 <= k < |hosts| ==> hosts[k].Valid()
    requires FleetFits(subnet, hosts) && PeersOf(subnet, hosts, peers) && i < j < |peers| && IsAddr(a)
    requires forall k, l :: 0 <= k < l < |hosts| ==> Disjoint(hosts[k].bridge, hosts[l].bridge)
    ensures peers[i].bridge.Valid() && peers[j].bridge.Valid()
    ensures !(Allowed(peers[i], a) && Allowed(peers[j], a))
  {
    assert CanJoin(subnet, hosts[i], i) && CanJoin(subnet, hosts[j], j) && hosts[i].Valid() && hosts[j].Valid();
    assert Disjoint(hosts[i].bridge, hosts[j].bridge);
    OverlapIsShared(peers[i].bridge, subnet);
    OverlapIsShared(peers[j].bridge, subnet);
    OverlapIsShared(peers[i].bridge, peers[j].bridge);
  }
}
