/** Gateway derivation on the client and the server's own address, for IPv4 and IPv6 alike: an
    address is its bytes, four or sixteen of them, and a prefix is written in bits. */
module Gateway {
  import opened Wrappers

  type Byte = bv8

  type Address = a: seq<Byte> | |a| > 0 witness [0]

  /** A parsed CIDR string: the address as written and the prefix length. */
  datatype Cidr = Cidr(ip: Address, ones: nat)

  ghost predicate Valid(c: Cidr) {
    c.ones <= 8 * |c.ip|
  }

  // ---------- masking ----------

  /** How many leading bits of byte i a prefix of `ones` bits covers. */
  function Covered(ones: nat, i: nat): (k: nat)
    ensures k <= 8
  {
    if ones <= 8 * i then 0 else if ones >= 8 * (i + 1) then 8 else ones - 8 * i
  }

  /** A byte with its first k bits set. */
  function Leading(k: nat): Byte
    requires k <= 8
  {
    match k
    case 0 => 0x00 case 1 => 0x80 case 2 => 0xC0 case 3 => 0xE0 case 4 => 0xF0
    case 5 => 0xF8 case 6 => 0xFC case 7 => 0xFE case 8 => 0xFF
  }

  function KeepBits(b: Byte, k: nat): Byte
    requires k <= 8
  {
    b & Leading(k)
  }

  function Mask(a: Address, ones: nat): (m: Address)
    ensures |m| == |a| && forall i :: 0 <= i < |a| ==> m[i] == KeepBits(a[i], Covered(ones, i))
  {
    seq(|a|, i requires 0 <= i < |a| => KeepBits(a[i], Covered(ones, i)))
  }

  predicate InSubnet(a: Address, network: Address, ones: nat) {
    Mask(a, ones) == network
  }

  /** Every uncovered bit set. */
  function Broadcast(a: Address, ones: nat): (b: Address)
    ensures |b| == |a| && forall i :: 0 <= i < |a| ==> b[i] == a[i] | !Leading(Covered(ones, i))
  {
    seq(|a|, i requires 0 <= i < |a| => a[i] | !Leading(Covered(ones, i)))
  }

  lemma KeepTwice(b: Byte, k: nat)
    requires k <= 8
    ensures KeepBits(KeepBits(b, k), k) == KeepBits(b, k)
  {
  }

  /** Bit j of a byte, counted from the left. */
  function BitOf(b: Byte, j: nat): Byte
    requires j < 8
  {
    match j
    case 0 => (b >> 7) & 1 case 1 => (b >> 6) & 1 case 2 => (b >> 5) & 1 case 3 => (b >> 4) & 1
    case 4 => (b >> 3) & 1 case 5 => (b >> 2) & 1 case 6 => (b >> 1) & 1 case 7 => b & 1
  }

  /** Bit n of an address, in network order. */
  function Bit(a: Address, n: nat): Byte
    requires n < 8 * |a|
  {
    BitOf(a[n / 8], n % 8)
  }

  lemma KeptBit(b: Byte, k: nat, j: nat)
    requires k <= 8 && j < 8
    ensures BitOf(KeepBits(b, k), j) == if j < k then BitOf(b, j) else 0
  {
  }

  lemma FilledBit(b: Byte, k: nat, j: nat)
    requires k <= 8 && j < 8
    ensures BitOf(b | !Leading(k), j) == if j < k then BitOf(b, j) else 1
  {
  }

  /** A network address has the prefix's bits of the address and zeros behind them, the broadcast address
      ones. */
  lemma PrefixBits(a: Address, ones: nat, n: nat)
    requires n < 8 * |a|
    ensures Bit(Mask(a, ones), n) == if n < ones then Bit(a, n) else 0
    ensures Bit(Broadcast(a, ones), n) == if n < ones then Bit(a, n) else 1
  {
    hide KeepBits, Leading, BitOf;
    var i, j := n / 8, n % 8;
    var k := Covered(ones, i);
    KeptBit(a[i], k, j);
    FilledBit(a[i], k, j);
    assert j < k <==> n < ones;
  }

  // ---------- the two derivations ----------

  function OrOne(b: Byte): Byte {
    b | 1
  }

  /** The next byte value; 255 wraps to 0. */
  function Succ(b: Byte): Byte {
    b + 1
  }

  predicate IsEven(b: Byte) {
    b & 1 == 0
  }

  function Last(a: Address): Byte {
    a[|a| - 1]
  }

  function WithLast(a: Address, b: Byte): (r: Address)
    ensures |r| == |a| && Last(r) == b && forall i :: 0 <= i < |a| - 1 ==> r[i] == a[i]
  {
    a[|a| - 1 := b]
  }

  /** The address both sides think of first: the network address with its lowest bit set. */
  function First(network: Address): Address {
    WithLast(network, OrOne(Last(network)))
  }

  /** One more in the last byte, which wraps without a carry. */
  function Next(a: Address): Address {
    WithLast(a, Succ(Last(a)))
  }

  function GatewayOf(c: Cidr): Address {
    var first := First(Mask(c.ip, c.ones));
    if first == c.ip then Next(first) else first
  }

  function ServerAddress(c: Cidr): Address {
    var network := Mask(c.ip, c.ones);
    if c.ip == network then First(network) else c.ip
  }

  /** The first address after the network address: its last byte made odd. */
  ghost predicate FirstOf(network: Address, first: Address) {
    && |first| == |network| && (forall i :: 0 <= i < |network| - 1 ==> first[i] == network[i])
    && var b := Last(network) as int; Last(first) as int == if b % 2 == 0 then b + 1 else b
  }

  ghost predicate FirstOrNext(client: Address, first: Address, g: Address) {
    if first != client then g == first
    else
      && |g| == |first| && Last(g) as int == (Last(first) as int + 1) % 256
      && forall i :: 0 <= i < |g| - 1 ==> g[i] == first[i]
  }

  lemma OrOneIs(b: Byte)
    ensures OrOne(b) as int == if b as int % 2 == 0 then b as int + 1 else b as int
  {
    assert b as int % 2 == (b & 1) as int;
  }

  lemma SuccIs(b: Byte)
    ensures Succ(b) as int == (b as int + 1) % 256
  {
  }

  /** The gateway is the first address of the client's network, unless that is the client's own; then it
      is the one after, within the last byte. */
  lemma GatewayIs(c: Cidr)
    ensures exists first: Address :: FirstOf(Mask(c.ip, c.ones), first) && FirstOrNext(c.ip, first, GatewayOf(c))
  {
    hide OrOne, Succ, Mask;
    var network := Mask(c.ip, c.ones);
    OrOneIs(Last(network));
    SuccIs(Last(First(network)));
    assert FirstOf(network, First(network));
  }

  /** The server takes the first address if it was given the network address, and keeps any other. */
  lemma ServerAddressIs(c: Cidr)
    ensures if c.ip == Mask(c.ip, c.ones) then FirstOf(c.ip, ServerAddress(c)) else ServerAddress(c) == c.ip
  {
    hide OrOne, Mask;
    OrOneIs(Last(Mask(c.ip, c.ones)));
  }

  method CopyOf(a: Address) returns (copy: array<Byte>)
    ensures fresh(copy) && copy[..] == a
  {
    copy := new Byte[|a|](i requires 0 <= i < |a| => a[i]);
  }

  /** The gateway of a client TUN subnet, edited in place in a copy of the network address. */
  method ParseGateway(subnet: Option<Cidr>) returns (gateway: Option<Address>)
    ensures gateway == if subnet.None? then None else Some(GatewayOf(subnet.value))
  {
    if subnet.None? {
      return None;
    }
    var ip, network := subnet.value.ip, Mask(subnet.value.ip, subnet.value.ones);
    var gw := CopyOf(network);
    var last := gw.Length - 1;
    gw[last] := OrOne(network[last]);
    assert gw[..] == First(network);
    if gw[..] == ip {
      gw[last] := Succ(gw[last]);
      assert gw[..] == Next(First(network));
    }
    return Some(gw[..]);
  }

  /** The server's own address and prefix; a subnet that does not parse is handed back as it is. */
  method ServerIPFromSubnet(subnet: Option<Cidr>) returns (own: Option<Cidr>)
    ensures own == if subnet.None? then None else Some(Cidr(ServerAddress(subnet.value), subnet.value.ones))
  {
    if subnet.None? {
      return None;
    }
    var ip, network := subnet.value.ip, Mask(subnet.value.ip, subnet.value.ones);
    if ip == network {
      var host := CopyOf(network);
      var last := host.Length - 1;
      host[last] := OrOne(host[last]);
      assert host[..] == First(network);
      return Some(Cidr(host[..], subnet.value.ones));
    }
    return Some(Cidr(ip, subnet.value.ones));
  }

  // ---------- what the client gets ----------

  /** A copy of the network address with another last byte is in the subnet exactly when that byte
      stays within the uncovered bits. */
  lemma InSubnetByLastByte(c: Cidr, a: Address)
    requires |a| == |c.ip| && forall i :: 0 <= i < |a| - 1 ==> a[i] == Mask(c.ip, c.ones)[i]
    ensures InSubnet(a, Mask(c.ip, c.ones), c.ones) <==>
            KeepBits(Last(a), Covered(c.ones, |a| - 1)) == Last(Mask(c.ip, c.ones))
  {
    var network := Mask(c.ip, c.ones);
    forall i | 0 <= i < |a| - 1
      ensures Mask(a, c.ones)[i] == network[i]
    {
      KeepTwice(c.ip[i], Covered(c.ones, i));
    }
    if KeepBits(Last(a), Covered(c.ones, |a| - 1)) == Last(network) {
      assert Mask(a, c.ones) == network;
    }
  }

  /** Whatever the prefix, the gateway is never the client's own address. */
  lemma GatewayIsNotClient(c: Cidr)
    ensures GatewayOf(c) != c.ip
  {
    var first := First(Mask(c.ip, c.ones));
    if first == c.ip {
      assert Last(Next(first)) != Last(c.ip);
    }
  }

  /** The last byte of the gateway. */
  lemma GatewayLast(c: Cidr)
    ensures var n := |c.ip| - 1; var network := Mask(c.ip, c.ones); var m := Last(network);
      && |GatewayOf(c)| == |c.ip| && (forall i :: 0 <= i < n ==> GatewayOf(c)[i] == network[i])
      && Last(GatewayOf(c)) == if network[..n] == c.ip[..n] && OrOne(m) == Last(c.ip) then Succ(OrOne(m)) else OrOne(m)
  {
    FirstIs(c);
  }

  /** The gateway lies in the subnet exactly when at least two bits are left for hosts, or one bit
      is left and the client has the lower address of the pair. */
  lemma GatewayInSubnetIff(c: Cidr)
    requires Valid(c)
    ensures InSubnet(GatewayOf(c), Mask(c.ip, c.ones), c.ones) <==>
            c.ones <= 8 * |c.ip| - 2 || (c.ones == 8 * |c.ip| - 1 && IsEven(Last(c.ip)))
  {
    hide KeepBits, OrOne, Succ, IsEven, InSubnet, GatewayOf, Mask;
    var k := Covered(c.ones, |c.ip| - 1);
    GatewayLast(c);
    InSubnetByLastByte(c, GatewayOf(c));
    LastMasked(c);
    if k >= 7 {
      OneBlock(c);
    }
    CandidateByte(Last(c.ip), k);
  }

  lemma LastMasked(c: Cidr)
    ensures Last(Mask(c.ip, c.ones)) == KeepBits(Last(c.ip), Covered(c.ones, |c.ip| - 1))
    ensures Last(Broadcast(c.ip, c.ones)) == Last(c.ip) | !Leading(Covered(c.ones, |c.ip| - 1))
  {
  }

  /** Whether the last byte stays in the block: the candidate's, and the one after it where the
      candidate would be the client's own. */
  lemma CandidateByte(b: Byte, k: nat)
    requires k <= 8
    ensures var m := KeepBits(b, k);
      && (k <= 6 ==> KeepBits(OrOne(m), k) == m && KeepBits(Succ(OrOne(m)), k) == m)
      && (k >= 7 ==> (KeepBits(if OrOne(m) == b then Succ(OrOne(m)) else OrOne(m), k) == m <==> k == 7 && IsEven(b)))
  {
    hide KeepBits, OrOne, Succ, IsEven;
    if k <= 6 {
      WideByte(b, k);
    } else if k == 7 {
      PairByte(b);
    } else {
      HostByte(b);
    }
  }

  lemma FirstIs(c: Cidr)
    ensures var n := |c.ip| - 1; var network := Mask(c.ip, c.ones);
      First(network) == c.ip <==> network[..n] == c.ip[..n] && OrOne(Last(network)) == Last(c.ip)
  {
    var n := |c.ip| - 1;
    var network := Mask(c.ip, c.ones);
    assert First(network) == network[..n] + [OrOne(Last(network))];
    assert c.ip == c.ip[..n] + [Last(c.ip)];
    if First(network) == c.ip {
      assert network[..n] == First(network)[..n];
    }
  }

  /** With at most one uncovered bit, the network differs from the address in the last byte at most. */
  lemma OneBlock(c: Cidr)
    requires Valid(c) && Covered(c.ones, |c.ip| - 1) >= 7
    ensures Mask(c.ip, c.ones)[..|c.ip| - 1] == c.ip[..|c.ip| - 1]
  {
  }

  /** The last byte alone, with two or more uncovered bits ... */
  lemma WideByte(b: Byte, k: nat)
    requires k <= 6
    ensures var m := KeepBits(b, k);
      && KeepBits(OrOne(m), k) == m && KeepBits(Succ(OrOne(m)), k) == m
      && OrOne(m) != m && Succ(OrOne(m)) != m && OrOne(m) != b | !Leading(k) && Succ(OrOne(m)) != b | !Leading(k)
  {
  }

  /** ... with one ... */
  lemma PairByte(b: Byte)
    ensures var m := KeepBits(b, 7);
      && KeepBits(OrOne(m), 7) == m && KeepBits(Succ(OrOne(m)), 7) != m
      && (OrOne(m) == b <==> !IsEven(b)) && OrOne(m) == b | !Leading(7)
  {
  }

  /** ... and with none. */
  lemma HostByte(b: Byte)
    ensures KeepBits(b, 8) == b
    ensures KeepBits(Succ(OrOne(b)), 8) != b
    ensures OrOne(b) != b ==> KeepBits(OrOne(b), 8) != b
  {
  }

  /** With at least two host bits - every IPv4 prefix up to 30 - the gateway is a proper host address
      of the client's subnet: in it, not the client, not the network and not the broadcast address;
      and with fewer host bits it never is. */
  lemma GatewayIsHostIff(c: Cidr)
    requires Valid(c)
    ensures var g, network := GatewayOf(c), Mask(c.ip, c.ones);
      InSubnet(g, network, c.ones) && g != c.ip && g != network && g != Broadcast(c.ip, c.ones) <==>
      c.ones <= 8 * |c.ip| - 2
  {
    hide KeepBits, OrOne, Succ, IsEven, InSubnet, GatewayOf, Mask, Broadcast;
    var g, network, k := GatewayOf(c), Mask(c.ip, c.ones), Covered(c.ones, |c.ip| - 1);
    GatewayIsNotClient(c);
    GatewayInSubnetIff(c);
    if c.ones <= 8 * |c.ip| - 2 {
      LastMasked(c);
      WideByte(Last(c.ip), k);
      GatewayLast(c);
      assert Last(g) != Last(network) && Last(g) != Last(Broadcast(c.ip, c.ones));
    } else if c.ones == 8 * |c.ip| - 1 && IsEven(Last(c.ip)) {
      PairBroadcast(c);
    }
  }

  lemma PairBroadcast(c: Cidr)
    requires Valid(c) && c.ones == 8 * |c.ip| - 1 && IsEven(Last(c.ip))
    ensures GatewayOf(c) == Broadcast(c.ip, c.ones)
  {
    hide KeepBits, OrOne, Succ, IsEven, GatewayOf;
    var n := |c.ip| - 1;
    OneBlock(c);
    GatewayLast(c);
    PairByte(Last(c.ip));
    var network := Mask(c.ip, c.ones);
    forall i | 0 <= i < n
      ensures Broadcast(c.ip, c.ones)[i] == network[i]
    {
      assert Covered(c.ones, i) == 8;
    }
    assert GatewayOf(c) == GatewayOf(c)[..n] + [Last(GatewayOf(c))];
    assert Broadcast(c.ip, c.ones) == Broadcast(c.ip, c.ones)[..n] + [Last(Broadcast(c.ip, c.ones))];
  }

  // ---------- agreement with the server ----------

  /** Client and server of one subnet agree on the gateway exactly in these cases; in the first, the
      server is configured with the network address. */
  lemma AgreementIff(client: Cidr, server: Cidr)
    requires client.ones == server.ones && Mask(client.ip, client.ones) == Mask(server.ip, server.ones)
    ensures var network := Mask(client.ip, client.ones);
      GatewayOf(client) == ServerAddress(server) <==>
        if server.ip == network then client.ip != First(network)
        else if client.ip != First(network) then server.ip == First(network)
        else server.ip == Next(First(network))
  {
    GatewayIsNotClient(client);
  }
}
