/** The subscription documents: encoding VPN tunnels as Clash proxies and back, with the YAML layer
    as identity, and the normalisation shared with the JSON form. */
module ClashCodec {
  import opened Wrappers
  import opened HostPort
  import opened Finite

  const MODE_VPN := "vpn"

  const SAFELINK := "safelink-vpn"

  datatype Ssh = Ssh(addr: string, user: string, identityFile: string, passphrase: string, password: string)

  datatype Tun = Tun(subnet: string, dns: seq<string>, autoRoute: bool, tlsCert: string, tlsKey: string, sni: string,
                     pinSha256: string, padding: Option<bool>)

  datatype Tunnel = Tunnel(name: string, mode: string, ssh: Ssh, listen: string, forward: string, transport: string,
                           tun: Tun)

  datatype Proxy = Proxy(name: string, kind: string, server: string, port: int, username: string, password: string,
                         sni: string, subnet: string, dns: seq<string>, autoRoute: bool, pinSha256: string,
                         padding: Option<bool>)

  datatype Error = Address(name: string, error: AddressError) | Incomplete(name: string)
                 | Invalid(name: string) | Nothing

  // ---------- validation ----------

  /** Structural validation, of the one mode that reaches it. */
  predicate ValidTunnel(t: Tunnel) {
    t.name != "" && t.mode == MODE_VPN && t.forward != "" && t.ssh.user != "" && t.ssh.password != ""
  }

  function OnlyVpn(ts: seq<Tunnel>): (vs: seq<Tunnel>)
    ensures forall t :: t in vs <==> t in ts && t.mode == MODE_VPN
  {
    if ts == [] then []
    else if ts[|ts| - 1].mode == MODE_VPN then OnlyVpn(ts[..|ts| - 1]) + [ts[|ts| - 1]]
    else OnlyVpn(ts[..|ts| - 1])
  }

  method FilterVpn(ts: seq<Tunnel>) returns (vs: seq<Tunnel>)
    ensures vs == OnlyVpn(ts)
  {
    vs := [];
    for i := 0 to |ts|
      invariant vs == OnlyVpn(ts[..i])
    {
      assert ts[..i + 1][..i] == ts[..i];
      if ts[i].mode == MODE_VPN {
        vs := vs + [ts[i]];
      }
    }
    assert ts[..|ts|] == ts;
  }

  // ---------- normalisation ----------

  function WithMode(t: Tunnel): Tunnel {
    if t.mode == "" then t.(mode := MODE_VPN) else t
  }

  /** The VPN tunnels with the mode filled in, or the first one that is invalid. */
  function Checked(ts: seq<Tunnel>): Result<seq<Tunnel>, Error> {
    if ts == [] then Success([])
    else match Checked(ts[..|ts| - 1])
      case Failure(e) => Failure(e)
      case Success(out) =>
        var t := WithMode(ts[|ts| - 1]);
        if t.mode != MODE_VPN then Success(out)
        else if !ValidTunnel(t) then Failure(Invalid(t.name))
        else Success(out + [t])
  }

  function Normalized(ts: seq<Tunnel>): Result<seq<Tunnel>, Error> {
    if Checked(ts) == Success([]) then Failure(Nothing) else Checked(ts)
  }

  lemma {:induction false} CheckedFailsEarly(ts: seq<Tunnel>, i: nat)
    requires i <= |ts| && Checked(ts[..i]).Failure?
    ensures Checked(ts) == Failure(Checked(ts[..i]).error)
  {
    if i < |ts| {
      assert ts[..|ts| - 1][..i] == ts[..i];
      CheckedFailsEarly(ts[..|ts| - 1], i);
    } else {
      assert ts[..i] == ts;
    }
  }

  /** Where the VPN tunnels are, counting those without a mode. */
  ghost function VpnAt(ts: seq<Tunnel>): (at: seq<nat>)
    ensures forall k :: 0 <= k < |at| ==> at[k] < |ts| && ts[at[k]].mode in {"", "vpn"}
    ensures forall j, k :: 0 <= j < k < |at| ==> at[j] < at[k]
    ensures forall i :: 0 <= i < |ts| && ts[i].mode in {"", "vpn"} ==> i in at
  {
    Positions(seq(|ts|, i requires 0 <= i < |ts| => ts[i].mode in {"", "vpn"}))
  }

  lemma VpnAtNext(ts: seq<Tunnel>)
    requires ts != []
    ensures var k := |ts| - 1; VpnAt(ts) == VpnAt(ts[..k]) + if ts[k].mode in {"", "vpn"} then [k] else []
  {
    var k := |ts| - 1;
    var marks := seq(|ts|, i requires 0 <= i < |ts| => ts[i].mode in {"", "vpn"});
    PositionsNext(marks);
    assert marks[..k] == seq(k, i requires 0 <= i < k => ts[..k][i].mode in {"", "vpn"});
  }

  /** What a VPN tunnel needs. */
  ghost predicate Filled(t: Tunnel) {
    t.name != "" && t.forward != "" && t.ssh.user != "" && t.ssh.password != ""
  }

  /** The VPN tunnels of a list, those without a mode included, in order. */
  ghost function VpnTunnels(ts: seq<Tunnel>): (vs: seq<Tunnel>)
    ensures |vs| == |VpnAt(ts)| && forall k :: 0 <= k < |vs| ==> vs[k] == ts[VpnAt(ts)[k]]
  {
    seq(|VpnAt(ts)|, k requires 0 <= k < |VpnAt(ts)| => ts[VpnAt(ts)[k]])
  }

  lemma VpnTunnelsNext(ts: seq<Tunnel>)
    requires ts != []
    ensures var k := |ts| - 1; VpnTunnels(ts) == VpnTunnels(ts[..k]) + if ts[k].mode in {"", "vpn"} then [ts[k]] else []
  {
    hide VpnAt;
    VpnAtNext(ts);
    assert forall j :: 0 <= j < |VpnAt(ts[..|ts| - 1])| ==>
      ts[..|ts| - 1][VpnAt(ts[..|ts| - 1])[j]] == ts[VpnAt(ts)[j]];
  }

  /** Tunnel k is the first that lacks something. */
  ghost predicate FirstUnfilled(vs: seq<Tunnel>, k: nat, name: string) {
    k < |vs| && !Filled(vs[k]) && name == vs[k].name && forall j :: 0 <= j < k ==> Filled(vs[j])
  }

  /** Every VPN tunnel in order with the mode filled in, or the name of the first that lacks something. */
  ghost predicate CheckMeans(vs: seq<Tunnel>, out: Result<seq<Tunnel>, Error>) {
    match out
    case Success(ws) => |ws| == |vs| && forall k :: 0 <= k < |vs| ==> Filled(vs[k]) && ws[k] == vs[k].(mode := "vpn")
    case Failure(Invalid(name)) => exists k: nat :: FirstUnfilled(vs, k, name)
    case Failure(_) => false
  }

  /** The same, where a list without a VPN tunnel is an error of its own. */
  ghost predicate NormalizeMeans(ts: seq<Tunnel>, out: Result<seq<Tunnel>, Error>) {
    if VpnTunnels(ts) == [] then out == Failure(Nothing) else CheckMeans(VpnTunnels(ts), out)
  }

  lemma FilledIsValid(t: Tunnel)
    requires t.mode in {"", "vpn"}
    ensures WithMode(t) == t.(mode := "vpn") && (ValidTunnel(WithMode(t)) <==> Filled(t))
  {
  }

  lemma {:induction false} CheckedMeans(ts: seq<Tunnel>)
    ensures CheckMeans(VpnTunnels(ts), Checked(ts))
  {
    hide ValidTunnel, Filled, VpnTunnels, CheckMeans;
    if ts == [] {
      NoTunnelsAt();
    } else {
      var k := |ts| - 1;
      CheckedMeans(ts[..k]);
      VpnTunnelsNext(ts);
      if ts[k].mode in {"", "vpn"} {
        FilledIsValid(ts[k]);
        CheckedStep(VpnTunnels(ts[..k]), ts[k], Checked(ts[..k]));
      } else {
        assert VpnTunnels(ts) == VpnTunnels(ts[..k]);
      }
    }
  }

  lemma CheckedStep(vs: seq<Tunnel>, t: Tunnel, before: Result<seq<Tunnel>, Error>)
    requires CheckMeans(vs, before)
    ensures before.Failure? ==> CheckMeans(vs + [t], before)
    ensures before.Success? && !Filled(t) ==> CheckMeans(vs + [t], Failure(Invalid(t.name)))
    ensures before.Success? && Filled(t) ==> CheckMeans(vs + [t], Success(before.value + [t.(mode := "vpn")]))
  {
    hide Filled;
    if before.Failure? {
      var k: nat :| FirstUnfilled(vs, k, before.error.name);
      assert FirstUnfilled(vs + [t], k, before.error.name);
    } else if !Filled(t) {
      assert FirstUnfilled(vs + [t], |vs|, t.name);
    }
  }

  lemma NoTunnelsAt()
    ensures VpnAt([]) == [] && VpnTunnels([]) == [] && CheckMeans([], Success([]))
  {
  }

  lemma NormalizedMeans(ts: seq<Tunnel>)
    ensures NormalizeMeans(ts, Normalized(ts))
  {
    hide Checked, VpnTunnels, Filled;
    CheckedMeans(ts);
    CheckedNone(ts);
  }

  lemma CheckedNone(ts: seq<Tunnel>)
    requires CheckMeans(VpnTunnels(ts), Checked(ts))
    ensures Checked(ts) == Success([]) <==> VpnTunnels(ts) == []
  {
    hide Checked, VpnTunnels, Filled;
  }

  method NormalizeTunnels(ts: seq<Tunnel>) returns (out: Result<seq<Tunnel>, Error>)
    ensures out == Normalized(ts)
    ensures NormalizeMeans(ts, out)
  {
    NormalizedMeans(ts);
    hide ValidTunnel, NormalizeMeans;
    var kept: seq<Tunnel> := [];
    for i := 0 to |ts|
      invariant Checked(ts[..i]) == Success(kept)
    {
      assert ts[..i + 1][..i] == ts[..i];
      var t := ts[i];
      if t.mode == "" {
        t := t.(mode := MODE_VPN);
      }
      if t.mode == MODE_VPN {
        if !ValidTunnel(t) {
          CheckedFailsEarly(ts, i + 1);
          return Failure(Invalid(t.name));
        }
        kept := kept + [t];
      }
    }
    assert ts[..|ts|] == ts;
    if kept == [] {
      return Failure(Nothing);
    }
    return Success(kept);
  }

  // ---------- encoding ----------

  function ToProxy(t: Tunnel, host: string, port: int): Proxy {
    Proxy(t.name, SAFELINK, host, port, t.ssh.user, t.ssh.password, t.tun.sni, t.tun.subnet, t.tun.dns, t.tun.autoRoute,
          t.tun.pinSha256, t.tun.padding)
  }

  function EncodeOne(t: Tunnel): Result<Proxy, Error> {
    match SplitAddress(t.forward)
    case Failure(e) => Failure(Address(t.name, e))
    case Success((host, port)) => Success(ToProxy(t, host, port))
  }

  /** One proxy per tunnel in order, or the first address that does not split. */
  function EncodeEach(ts: seq<Tunnel>): Result<seq<Proxy>, Error> {
    if ts == [] then Success([])
    else
      var k := |ts| - 1;
      match EncodeEach(ts[..k])
      case Failure(e) => Failure(e)
      case Success(ps) =>
        match EncodeOne(ts[k])
        case Failure(e) => Failure(e)
        case Success(p) => Success(ps + [p])
  }

  lemma {:induction false} EncodeEachIs(ts: seq<Tunnel>)
    ensures var r := EncodeEach(ts);
      r.Success? ==> |r.value| == |ts| && forall i :: 0 <= i < |ts| ==> EncodeOne(ts[i]) == Success(r.value[i])
    ensures EncodeEach(ts).Success? <==> forall i :: 0 <= i < |ts| ==> EncodeOne(ts[i]).Success?
  {
    hide EncodeOne;
    if ts != [] {
      EncodeEachIs(ts[..|ts| - 1]);
    }
  }

  function Encoded(ts: seq<Tunnel>): Result<seq<Proxy>, Error> {
    EncodeEach(OnlyVpn(ts))
  }

  lemma {:induction false} EncodeFailsEarly(ts: seq<Tunnel>, i: nat)
    requires i <= |ts| && EncodeEach(ts[..i]).Failure?
    ensures EncodeEach(ts) == Failure(EncodeEach(ts[..i]).error)
  {
    if i < |ts| {
      assert ts[..|ts| - 1][..i] == ts[..i];
      EncodeFailsEarly(ts[..|ts| - 1], i);
    } else {
      assert ts[..i] == ts;
    }
  }

  /** Where the tunnels with mode vpn are. */
  ghost function VpnModeAt(ts: seq<Tunnel>): (at: seq<nat>)
    ensures forall k :: 0 <= k < |at| ==> at[k] < |ts| && ts[at[k]].mode == "vpn"
    ensures forall j, k :: 0 <= j < k < |at| ==> at[j] < at[k]
    ensures forall i :: 0 <= i < |ts| && ts[i].mode == "vpn" ==> i in at
  {
    Positions(seq(|ts|, i requires 0 <= i < |ts| => ts[i].mode == "vpn"))
  }

  lemma VpnModeAtNext(ts: seq<Tunnel>)
    requires ts != []
    ensures var k := |ts| - 1; VpnModeAt(ts) == VpnModeAt(ts[..k]) + if ts[k].mode == "vpn" then [k] else []
  {
    var k := |ts| - 1;
    var marks := seq(|ts|, i requires 0 <= i < |ts| => ts[i].mode == "vpn");
    PositionsNext(marks);
    assert marks[..k] == seq(k, i requires 0 <= i < k => ts[..k][i].mode == "vpn");
  }

  /** What a tunnel and its proxy have in common. */
  ghost predicate Carries(t: Tunnel, p: Proxy) {
    && p.kind == "safelink-vpn" && t.mode == "vpn" && t.name == p.name
    && t.ssh.user == p.username && t.ssh.password == p.password
    && t.tun.sni == p.sni && t.tun.subnet == p.subnet && t.tun.dns == p.dns && t.tun.autoRoute == p.autoRoute
    && t.tun.pinSha256 == p.pinSha256 && t.tun.padding == p.padding
  }

  /** Tunnel k is the first whose address does not split. */
  ghost predicate FirstUnsplit(vs: seq<Tunnel>, k: nat, name: string, error: AddressError) {
    && k < |vs| && SplitAddress(vs[k].forward) == Failure(error) && name == vs[k].name
    && forall j :: 0 <= j < k ==> SplitAddress(vs[j].forward).Success?
  }

  ghost predicate ProxyOf(t: Tunnel, p: Proxy) {
    Carries(t, p) && SplitAddress(t.forward) == Success((p.server, p.port))
  }

  /** The tunnels with mode vpn, in order. */
  ghost function VpnModeTunnels(ts: seq<Tunnel>): (vs: seq<Tunnel>)
    ensures |vs| == |VpnModeAt(ts)| && forall k :: 0 <= k < |vs| ==> vs[k] == ts[VpnModeAt(ts)[k]]
  {
    seq(|VpnModeAt(ts)|, k requires 0 <= k < |VpnModeAt(ts)| => ts[VpnModeAt(ts)[k]])
  }

  lemma VpnModeTunnelsNext(ts: seq<Tunnel>)
    requires ts != []
    ensures var k := |ts| - 1;
      VpnModeTunnels(ts) == VpnModeTunnels(ts[..k]) + if ts[k].mode == "vpn" then [ts[k]] else []
  {
    hide VpnModeAt;
    VpnModeAtNext(ts);
    var init := ts[..|ts| - 1];
    assert forall j :: 0 <= j < |VpnModeAt(init)| ==> init[VpnModeAt(init)[j]] == ts[VpnModeAt(ts)[j]];
  }

  lemma NoVpnModeTunnels()
    ensures VpnModeTunnels([]) == [] == OnlyVpn([])
  {
  }

  lemma {:induction false} OnlyVpnInOrder(ts: seq<Tunnel>)
    ensures OnlyVpn(ts) == VpnModeTunnels(ts)
  {
    hide VpnModeTunnels;
    if ts == [] {
      NoVpnModeTunnels();
    } else {
      OnlyVpnInOrder(ts[..|ts| - 1]);
      VpnModeTunnelsNext(ts);
    }
  }

  /** Encoding, tunnel by tunnel: a proxy for every VPN tunnel in order, its address split; or the first
      address that does not split. */
  ghost predicate EncodeMeans(ts: seq<Tunnel>, doc: Result<seq<Proxy>, Error>) {
    var vs := VpnModeTunnels(ts);
    match doc
    case Success(ps) => |ps| == |vs| && forall k :: 0 <= k < |vs| ==> ProxyOf(vs[k], ps[k])
    case Failure(Address(name, error)) => exists k: nat :: FirstUnsplit(vs, k, name, error)
    case Failure(_) => false
  }

  /** The error of the first tunnel that does not encode. */
  lemma {:induction false} EncodeEachFails(ts: seq<Tunnel>)
    ensures EncodeEach(ts).Failure? ==>
      exists k :: 0 <= k < |ts| && EncodeOne(ts[k]).Failure? && EncodeEach(ts) == Failure(EncodeOne(ts[k]).error)
        && forall j :: 0 <= j < k ==> EncodeOne(ts[j]).Success?
  {
    hide EncodeOne;
    if ts != [] {
      EncodeEachFails(ts[..|ts| - 1]);
      EncodeEachIs(ts[..|ts| - 1]);
    }
  }

  /** What encoding makes of one tunnel. */
  ghost predicate EncodesOne(t: Tunnel, r: Result<Proxy, Error>) {
    match r
    case Success(p) => ProxyOf(t, p) && SplitAddress(t.forward).Success?
    case Failure(e) => e.Address? && e.name == t.name && SplitAddress(t.forward) == Failure(e.error)
  }

  lemma EncodeOneMeans(t: Tunnel)
    requires t.mode == "vpn"
    ensures EncodesOne(t, EncodeOne(t))
  {
    hide SplitAddress;
  }

  lemma EncodedMeans(ts: seq<Tunnel>)
    ensures EncodeMeans(ts, Encoded(ts))
  {
    var vs := VpnModeTunnels(ts);
    OnlyVpnInOrder(ts);
    EncodeEachIs(vs);
    EncodeEachFails(vs);
    forall k | 0 <= k < |vs|
      ensures EncodesOne(vs[k], EncodeOne(vs[k]))
    {
      EncodeOneMeans(vs[k]);
    }
    hide SplitAddress, OnlyVpn, VpnModeTunnels, EncodeEach, EncodeOne, ProxyOf;
    if EncodeEach(vs).Failure? {
      EncodeFailure(vs, EncodeEach(vs).error);
    }
  }

  lemma EncodeFailure(vs: seq<Tunnel>, e: Error)
    requires forall k :: 0 <= k < |vs| ==> EncodesOne(vs[k], EncodeOne(vs[k]))
    requires exists k ::
      && 0 <= k < |vs| && EncodeOne(vs[k]) == Failure(e)
      && forall j :: 0 <= j < k ==> EncodeOne(vs[j]).Success?
    ensures e.Address? && exists k: nat :: FirstUnsplit(vs, k, e.name, e.error)
  {
    hide SplitAddress, EncodeOne, ProxyOf;
    var k :| 0 <= k < |vs| && EncodeOne(vs[k]) == Failure(e) && forall j :: 0 <= j < k ==> EncodeOne(vs[j]).Success?;
    assert FirstUnsplit(vs, k, e.name, e.error);
  }

  method EncodeClash(ts: seq<Tunnel>) returns (doc: Result<seq<Proxy>, Error>)
    ensures doc == Encoded(ts)
    ensures EncodeMeans(ts, doc)
  {
    EncodedMeans(ts);
    hide SplitAddress, EncodeMeans;
    var vs := FilterVpn(ts);
    var proxies: seq<Proxy> := [];
    for i := 0 to |vs|
      invariant EncodeEach(vs[..i]) == Success(proxies)
    {
      assert vs[..i + 1][..i] == vs[..i];
      var t := vs[i];
      var split := SplitAddress(t.forward);
      if split.Failure? {
        EncodeFailsEarly(vs, i + 1);
        return Failure(Address(t.name, split.error));
      }
      proxies := proxies + [ToProxy(t, split.value.0, split.value.1)];
    }
    assert vs[..|vs|] == vs;
    return Success(proxies);
  }

  // ---------- parsing ----------

  function FromProxy(p: Proxy): Tunnel {
    Tunnel(p.name, MODE_VPN, Ssh("", p.username, "", "", p.password), "", JoinAddress(p.server, p.port), "",
           Tun(p.subnet, p.dns, p.autoRoute, "", "", p.sni, p.pinSha256, p.padding))
  }

  predicate Complete(p: Proxy) {
    p.name != "" && p.server != "" && p.port != 0
  }

  /** A tunnel for every proxy of the supported type, or the first incomplete one. */
  function DecodeEach(ps: seq<Proxy>): Result<seq<Tunnel>, Error> {
    if ps == [] then Success([])
    else match DecodeEach(ps[..|ps| - 1])
      case Failure(e) => Failure(e)
      case Success(ts) =>
        var p := ps[|ps| - 1];
        if p.kind != SAFELINK then Success(ts)
        else if !Complete(p) then Failure(Incomplete(p.name))
        else Success(ts + [FromProxy(p)])
  }

  function Parsed(ps: seq<Proxy>): Result<seq<Tunnel>, Error> {
    match DecodeEach(ps)
    case Failure(e) => Failure(e)
    case Success(ts) => if ts == [] then Failure(Nothing) else Normalized(ts)
  }

  lemma {:induction false} DecodeFailsEarly(ps: seq<Proxy>, i: nat)
    requires i <= |ps| && DecodeEach(ps[..i]).Failure?
    ensures DecodeEach(ps) == Failure(DecodeEach(ps[..i]).error)
  {
    if i < |ps| {
      assert ps[..|ps| - 1][..i] == ps[..i];
      DecodeFailsEarly(ps[..|ps| - 1], i);
    } else {
      assert ps[..i] == ps;
    }
  }

  /** Where the proxies of the supported type are. */
  ghost function SafelinkAt(ps: seq<Proxy>): (at: seq<nat>)
    ensures forall k :: 0 <= k < |at| ==> at[k] < |ps| && ps[at[k]].kind == "safelink-vpn"
    ensures forall j, k :: 0 <= j < k < |at| ==> at[j] < at[k]
    ensures forall i :: 0 <= i < |ps| && ps[i].kind == "safelink-vpn" ==> i in at
  {
    Positions(seq(|ps|, i requires 0 <= i < |ps| => ps[i].kind == "safelink-vpn"))
  }

  lemma SafelinkAtNext(ps: seq<Proxy>)
    requires ps != []
    ensures var k := |ps| - 1; SafelinkAt(ps) == SafelinkAt(ps[..k]) + if ps[k].kind == "safelink-vpn" then [k] else []
  {
    var k := |ps| - 1;
    var marks := seq(|ps|, i requires 0 <= i < |ps| => ps[i].kind == "safelink-vpn");
    PositionsNext(marks);
    assert marks[..k] == seq(k, i requires 0 <= i < k => ps[..k][i].kind == "safelink-vpn");
  }

  ghost predicate Named(p: Proxy) {
    p.name != "" && p.server != "" && p.port != 0
  }

  ghost predicate Credentials(p: Proxy) {
    p.username != "" && p.password != ""
  }

  /** The tunnel a proxy stands for: what it carries, the joined address, and nothing else. */
  ghost predicate StandsFor(p: Proxy, t: Tunnel) {
    && Carries(t, p) && t.forward == JoinAddress(p.server, p.port)
    && t.ssh.addr == t.ssh.identityFile == t.ssh.passphrase == t.listen == t.transport == t.tun.tlsCert
      == t.tun.tlsKey == ""
  }

  /** The proxies of the supported type, in order. */
  ghost function Safelinks(ps: seq<Proxy>): (ss: seq<Proxy>)
    ensures |ss| == |SafelinkAt(ps)| && forall k :: 0 <= k < |ss| ==> ss[k] == ps[SafelinkAt(ps)[k]]
  {
    seq(|SafelinkAt(ps)|, k requires 0 <= k < |SafelinkAt(ps)| => ps[SafelinkAt(ps)[k]])
  }

  lemma SafelinksNext(ps: seq<Proxy>)
    requires ps != []
    ensures var k := |ps| - 1;
      Safelinks(ps) == Safelinks(ps[..k]) + if ps[k].kind == "safelink-vpn" then [ps[k]] else []
  {
    hide SafelinkAt;
    SafelinkAtNext(ps);
    var init := ps[..|ps| - 1];
    assert forall j :: 0 <= j < |SafelinkAt(init)| ==> init[SafelinkAt(init)[j]] == ps[SafelinkAt(ps)[j]];
  }

  /** Proxy k is the first that lacks a name, a server or a port. */
  ghost predicate FirstUnnamed(ss: seq<Proxy>, k: nat, name: string) {
    k < |ss| && !Named(ss[k]) && name == ss[k].name && forall j :: 0 <= j < k ==> Named(ss[j])
  }

  /** All have those, and proxy k is the first without credentials. */
  ghost predicate FirstWithout(ss: seq<Proxy>, k: nat, name: string) {
    && (forall j :: 0 <= j < |ss| ==> Named(ss[j]))
    && k < |ss| && !Credentials(ss[k]) && name == ss[k].name && forall j :: 0 <= j < k ==> Credentials(ss[j])
  }

  ghost predicate DecodeMeans(ss: seq<Proxy>, out: Result<seq<Tunnel>, Error>) {
    match out
    case Success(ts) => |ts| == |ss| && forall k :: 0 <= k < |ss| ==> Named(ss[k]) && StandsFor(ss[k], ts[k])
    case Failure(Incomplete(name)) => exists k: nat :: FirstUnnamed(ss, k, name)
    case Failure(_) => false
  }

  /** Parsing, proxy by proxy: proxies of other types are skipped; without a supported one there is nothing;
      the first that lacks a name, a server or a port is reported, then the first without credentials;
      otherwise there is one tunnel for each, in order. */
  ghost predicate ParseMeans(ps: seq<Proxy>, out: Result<seq<Tunnel>, Error>) {
    var ss := Safelinks(ps);
    match out
    case Success(ts) =>
      && ss != [] && |ts| == |ss|
      && forall k :: 0 <= k < |ss| ==> Named(ss[k]) && Credentials(ss[k]) && StandsFor(ss[k], ts[k])
    case Failure(Nothing) => ss == []
    case Failure(Incomplete(name)) => exists k: nat :: FirstUnnamed(ss, k, name)
    case Failure(Invalid(name)) => exists k: nat :: FirstWithout(ss, k, name)
    case Failure(_) => false
  }

  lemma FromProxyStands(p: Proxy)
    requires p.kind == "safelink-vpn"
    ensures StandsFor(p, FromProxy(p)) && (Complete(p) <==> Named(p))
  {
    hide JoinAddress;
  }

  lemma NoProxiesAt()
    ensures Safelinks([]) == [] && DecodeMeans([], Success([]))
  {
  }

  lemma {:induction false} DecodedMeans(ps: seq<Proxy>)
    ensures DecodeMeans(Safelinks(ps), DecodeEach(ps))
  {
    hide Safelinks, StandsFor, Named, Complete, FromProxy, DecodeMeans;
    if ps == [] {
      NoProxiesAt();
    } else {
      var k := |ps| - 1;
      DecodedMeans(ps[..k]);
      SafelinksNext(ps);
      if ps[k].kind == "safelink-vpn" {
        FromProxyStands(ps[k]);
        DecodeStep(Safelinks(ps[..k]), ps[k], DecodeEach(ps[..k]));
      } else {
        assert Safelinks(ps) == Safelinks(ps[..k]);
      }
    }
  }

  lemma DecodeStep(ss: seq<Proxy>, p: Proxy, before: Result<seq<Tunnel>, Error>)
    requires DecodeMeans(ss, before) && p.kind == "safelink-vpn"
    ensures before.Failure? ==> DecodeMeans(ss + [p], before)
    ensures before.Success? && !Named(p) ==> DecodeMeans(ss + [p], Failure(Incomplete(p.name)))
    ensures before.Success? && Named(p) ==> DecodeMeans(ss + [p], Success(before.value + [FromProxy(p)]))
  {
    hide StandsFor, Named, FromProxy;
    FromProxyStands(p);
    if before.Failure? {
      var k: nat :| FirstUnnamed(ss, k, before.error.name);
      assert FirstUnnamed(ss + [p], k, before.error.name);
    } else if !Named(p) {
      assert FirstUnnamed(ss + [p], |ss|, p.name);
    }
  }

  lemma {:induction false} AllVpnTunnels(ts: seq<Tunnel>)
    requires forall i :: 0 <= i < |ts| ==> ts[i].mode == "vpn"
    ensures VpnTunnels(ts) == ts
  {
    hide VpnTunnels;
    if ts == [] {
      NoTunnelsAt();
    } else {
      AllVpnTunnels(ts[..|ts| - 1]);
      VpnTunnelsNext(ts);
      assert ts == ts[..|ts| - 1] + [ts[|ts| - 1]];
    }
  }

  lemma StandsFilled(p: Proxy, t: Tunnel)
    requires Named(p) && StandsFor(p, t)
    ensures t.mode == "vpn" && t.name == p.name && t.(mode := "vpn") == t && (Filled(t) <==> Credentials(p))
  {
    hide JoinAddress;
    JoinIsNotEmpty(p.server, p.port);
  }

  lemma ParsedMeans(ps: seq<Proxy>)
    ensures ParseMeans(ps, Parsed(ps))
  {
    hide Safelinks, StandsFor, Named, DecodeEach, Credentials, Filled, Normalized, VpnTunnels;
    DecodedMeans(ps);
    if DecodeEach(ps).Success? && DecodeEach(ps).value != [] {
      NormalizedStands(Safelinks(ps), DecodeEach(ps).value);
    }
  }

  /** The decoded tunnels have their mode, and what normalising looks for in them are the credentials. */
  ghost predicate Decoded(ss: seq<Proxy>, ts: seq<Tunnel>) {
    && |ts| == |ss| && (forall k :: 0 <= k < |ss| ==> Named(ss[k]))
    && forall k :: 0 <= k < |ts| ==>
      ts[k].mode == "vpn" && ts[k].name == ss[k].name && (Filled(ts[k]) <==> Credentials(ss[k]))
  }

  lemma StandsDecoded(ss: seq<Proxy>, ts: seq<Tunnel>)
    requires |ts| == |ss| && forall k :: 0 <= k < |ss| ==> Named(ss[k]) && StandsFor(ss[k], ts[k])
    ensures Decoded(ss, ts)
  {
    hide StandsFor, Named, Credentials, Filled;
    forall k | 0 <= k < |ts|
      ensures ts[k].mode == "vpn" && ts[k].name == ss[k].name && (Filled(ts[k]) <==> Credentials(ss[k]))
    {
      StandsFilled(ss[k], ts[k]);
    }
  }

  lemma DecodedSuccess(ss: seq<Proxy>, ts: seq<Tunnel>, vs: seq<Tunnel>)
    requires Decoded(ss, ts) && CheckMeans(ts, Success(vs))
    ensures vs == ts && forall k :: 0 <= k < |ss| ==> Credentials(ss[k])
  {
    hide Named, Credentials, Filled;
    assert forall k :: 0 <= k < |ts| ==> ts[k].(mode := "vpn") == ts[k];
  }

  lemma DecodedFailure(ss: seq<Proxy>, ts: seq<Tunnel>, name: string)
    requires Decoded(ss, ts) && CheckMeans(ts, Failure(Invalid(name)))
    ensures exists k: nat :: FirstWithout(ss, k, name)
  {
    hide Named, Credentials, Filled;
    var k: nat :| FirstUnfilled(ts, k, name);
    assert FirstWithout(ss, k, name);
  }

  /** Normalising the decoded tunnels finds the first proxy without credentials, and nothing else. */
  lemma NormalizedStands(ss: seq<Proxy>, ts: seq<Tunnel>)
    requires ts != [] && |ts| == |ss| && forall k :: 0 <= k < |ss| ==> Named(ss[k]) && StandsFor(ss[k], ts[k])
    ensures match Normalized(ts)
      case Success(vs) => vs == ts && forall k :: 0 <= k < |ss| ==> Credentials(ss[k])
      case Failure(e) => e.Invalid? && exists k: nat :: FirstWithout(ss, k, e.name)
  {
    StandsDecoded(ss, ts);
    AllVpnTunnels(ts);
    NormalizedMeans(ts);
    NormalizeCases(ts);
    hide StandsFor, Named, Credentials, Normalized, VpnTunnels, Decoded, CheckMeans, FirstWithout, NormalizeMeans;
    match Normalized(ts)
    case Success(vs) => DecodedSuccess(ss, ts, vs);
    case Failure(e) => DecodedFailure(ss, ts, e.name);
  }

  lemma NormalizeCases(ts: seq<Tunnel>)
    requires ts != [] && VpnTunnels(ts) == ts && NormalizeMeans(ts, Normalized(ts))
    ensures CheckMeans(ts, Normalized(ts)) && (Normalized(ts).Failure? ==> Normalized(ts).error.Invalid?)
  {
    hide Normalized, VpnTunnels, Filled;
  }

  method ParseClash(ps: seq<Proxy>) returns (tunnels: Result<seq<Tunnel>, Error>)
    ensures tunnels == Parsed(ps)
    ensures ParseMeans(ps, tunnels)
  {
    ParsedMeans(ps);
    hide FromProxy, Normalized, ParseMeans;
    if ps == [] {
      return Failure(Nothing);
    }
    var ts: seq<Tunnel> := [];
    for i := 0 to |ps|
      invariant DecodeEach(ps[..i]) == Success(ts)
    {
      assert ps[..i + 1][..i] == ps[..i];
      var p := ps[i];
      if p.kind == SAFELINK {
        if p.name == "" || p.server == "" || p.port == 0 {
          DecodeFailsEarly(ps, i + 1);
          return Failure(Incomplete(p.name));
        }
        ts := ts + [FromProxy(p)];
      }
    }
    assert ps[..|ps|] == ps;
    if ts == [] {
      return Failure(Nothing);
    }
    tunnels := NormalizeTunnels(ts);
  }

  // ---------- when parsing succeeds ----------

  /** Proxies of the supported type that parse: complete, and with credentials. */
  ghost predicate Usable(p: Proxy) {
    Complete(p) && p.username != "" && p.password != ""
  }

  ghost predicate AllSafelink(ps: seq<Proxy>) {
    forall i :: 0 <= i < |ps| ==> ps[i].kind == SAFELINK
  }

  function FromProxies(ps: seq<Proxy>): (ts: seq<Tunnel>)
    ensures |ts| == |ps| && forall i :: 0 <= i < |ps| ==> ts[i] == FromProxy(ps[i])
  {
    seq(|ps|, i requires 0 <= i < |ps| => FromProxy(ps[i]))
  }

  lemma FromProxiesSnoc(ps: seq<Proxy>)
    requires ps != []
    ensures FromProxies(ps) == FromProxies(ps[..|ps| - 1]) + [FromProxy(ps[|ps| - 1])]
  {
  }

  lemma {:induction false} DecodeAll(ps: seq<Proxy>)
    requires AllSafelink(ps)
    ensures DecodeEach(ps).Success? <==> forall i :: 0 <= i < |ps| ==> Complete(ps[i])
    ensures DecodeEach(ps).Success? ==> DecodeEach(ps) == Success(FromProxies(ps))
  {
    hide FromProxy, Complete;
    if ps != [] {
      DecodeAll(ps[..|ps| - 1]);
      FromProxiesSnoc(ps);
    }
  }

  lemma JoinIsNotEmpty(host: string, port: int)
    ensures JoinAddress(host, port) != ""
  {
  }

  lemma FromProxyValid(p: Proxy)
    ensures FromProxy(p).mode == MODE_VPN
    ensures ValidTunnel(FromProxy(p)) <==> p.name != "" && p.username != "" && p.password != ""
  {
    hide JoinAddress;
    JoinIsNotEmpty(p.server, p.port);
  }

  ghost predicate AllVpn(ts: seq<Tunnel>) {
    forall i :: 0 <= i < |ts| ==> ts[i].mode == MODE_VPN
  }

  lemma {:induction false} CheckedValid(ts: seq<Tunnel>)
    requires AllVpn(ts) && forall i :: 0 <= i < |ts| ==> ValidTunnel(ts[i])
    ensures Checked(ts) == Success(ts)
  {
    hide ValidTunnel, Checked;
    if ts == [] {
      CheckedNothing();
    } else {
      CheckedValid(ts[..|ts| - 1]);
      CheckedNext(ts);
      assert ts == ts[..|ts| - 1] + [ts[|ts| - 1]];
    }
  }

  lemma CheckedNothing()
    ensures Checked([]) == Success([])
  {
  }

  lemma CheckedNext(ts: seq<Tunnel>)
    requires ts != [] && Checked(ts[..|ts| - 1]).Success? && ts[|ts| - 1].mode == MODE_VPN && ValidTunnel(ts[|ts| - 1])
    ensures Checked(ts) == Success(Checked(ts[..|ts| - 1]).value + [ts[|ts| - 1]])
  {
    hide ValidTunnel;
  }

  lemma {:induction false} CheckedInvalid(ts: seq<Tunnel>, i: nat)
    requires AllVpn(ts) && i < |ts| && !ValidTunnel(ts[i])
    ensures Checked(ts).Failure?
  {
    hide ValidTunnel;
    if i < |ts| - 1 {
      CheckedInvalid(ts[..|ts| - 1], i);
    }
  }

  lemma CheckedVpn(ts: seq<Tunnel>)
    requires AllVpn(ts)
    ensures Checked(ts).Success? <==> forall i :: 0 <= i < |ts| ==> ValidTunnel(ts[i])
    ensures Checked(ts).Success? ==> Checked(ts) == Success(ts)
  {
    hide ValidTunnel, Checked;
    if i :| 0 <= i < |ts| && !ValidTunnel(ts[i]) {
      CheckedInvalid(ts, i);
    } else {
      CheckedValid(ts);
    }
  }

  /** A document of supported proxies parses exactly when it is not empty and all are usable, and
      then to one tunnel per proxy in order. */
  lemma ParseAll(ps: seq<Proxy>)
    requires AllSafelink(ps)
    ensures Parsed(ps).Success? <==> ps != [] && forall i :: 0 <= i < |ps| ==> Usable(ps[i])
    ensures Parsed(ps).Success? ==> Parsed(ps) == Success(FromProxies(ps))
  {
    hide FromProxy, ValidTunnel, DecodeEach, Checked;
    DecodeAll(ps);
    var ts := FromProxies(ps);
    forall i | 0 <= i < |ps|
      ensures ts[i].mode == MODE_VPN
      ensures ValidTunnel(ts[i]) <==> ps[i].name != "" && ps[i].username != "" && ps[i].password != ""
    {
      FromProxyValid(ps[i]);
    }
    CheckedVpn(ts);
    assert ps != [] ==> FromProxies(ps) != [];
    if DecodeEach(ps).Success? {
      assert forall i :: 0 <= i < |ps| ==> (Usable(ps[i]) <==> ValidTunnel(ts[i]));
    }
  }

  // ---------- round trips ----------

  /** The tunnels a document can reproduce: VPN tunnels with credentials, only carried fields set, and
      a canonical forward address - non-empty host, IPv6 in brackets, port as a plain numeral. */
  ghost predicate Canonical(t: Tunnel) {
    && t.mode == MODE_VPN && t.name != "" && t.ssh.user != "" && t.ssh.password != ""
    && t.ssh.addr == t.ssh.identityFile == t.ssh.passphrase == t.listen == t.transport == t.tun.tlsCert
      == t.tun.tlsKey == ""
    && exists host, port :: CanonicalAddress(t.forward, host, port)
  }

  ghost predicate CanonicalAddress(addr: string, host: string, port: int) {
    addr == JoinAddress(host, port) && host != "" && Plain(host) && 1 <= port <= 65535
  }

  lemma CanonicalSplits(addr: string, host: string, port: int)
    requires CanonicalAddress(addr, host, port)
    ensures SplitAddress(addr) == Success((host, port))
  {
    AddressRoundTripIff(host, port);
  }

  /** One tunnel: the document gives it back exactly when it is canonical. */
  lemma OneRoundTripIff(t: Tunnel)
    ensures EncodeOne(t).Success? && Usable(EncodeOne(t).value) && FromProxy(EncodeOne(t).value) == t <==> Canonical(t)
  {
    hide SplitAddress, JoinAddress;
    if Canonical(t) {
      var host, port :| CanonicalAddress(t.forward, host, port);
      CanonicalSplits(t.forward, host, port);
    }
    if EncodeOne(t).Success? && Usable(EncodeOne(t).value) && FromProxy(EncodeOne(t).value) == t {
      var (host, port) := SplitAddress(t.forward).value;
      SplitIsStable(t.forward);
      AddressRoundTripIff(host, port);
      assert CanonicalAddress(t.forward, host, port);
    }
  }

  lemma {:induction false} OnlyVpnAll(ts: seq<Tunnel>)
    ensures AllVpn(ts) ==> OnlyVpn(ts) == ts
    ensures |OnlyVpn(ts)| <= |ts|
  {
    if ts != [] {
      var k := |ts| - 1;
      OnlyVpnAll(ts[..k]);
      assert ts == ts[..k] + [ts[k]];
      assert AllVpn(ts) ==> AllVpn(ts[..k]) && ts[k].mode == MODE_VPN;
      hide AllVpn;
    }
  }

  lemma EncodedFacts(ts: seq<Tunnel>)
    requires EncodeEach(ts).Success?
    ensures AllSafelink(EncodeEach(ts).value)
  {
    hide EncodeEach, SplitAddress;
    EncodeEachIs(ts);
  }

  /** Parsing the encoding of a list returns the list, in order, exactly for non-empty lists of
      canonical VPN tunnels. */
  lemma RoundTripIff(ts: seq<Tunnel>)
    ensures Encoded(ts).Success? && Parsed(Encoded(ts).value) == Success(ts) <==>
            ts != [] && forall i :: 0 <= i < |ts| ==> Canonical(ts[i])
  {
    hide EncodeOne, Usable, FromProxy, Canonical, Parsed, EncodeEach, OnlyVpn;
    EncodeEachIs(ts);
    forall i | 0 <= i < |ts| { OneRoundTripIff(ts[i]); }
    if ts != [] && forall i :: 0 <= i < |ts| ==> Canonical(ts[i]) {
      forall i | 0 <= i < |ts|
        ensures ts[i].mode == MODE_VPN
      {
        CanonicalIsVpn(ts[i]);
      }
      OnlyVpnAll(ts);
      EncodedFacts(ts);
      var ps := EncodeEach(ts).value;
      ParseAll(ps);
      assert FromProxies(ps) == ts;
    }
    if Encoded(ts).Success? && Parsed(Encoded(ts).value) == Success(ts) {
      RoundTripIsCanonical(ts);
    }
  }

  lemma CanonicalIsVpn(t: Tunnel)
    requires Canonical(t)
    ensures t.mode == MODE_VPN
  {
  }

  lemma RoundTripIsCanonical(ts: seq<Tunnel>)
    requires Encoded(ts).Success? && Parsed(Encoded(ts).value) == Success(ts)
    ensures ts != [] && forall i :: 0 <= i < |ts| ==> Canonical(ts[i])
  {
    hide EncodeOne, Usable, Canonical, Parsed, EncodeEach, OnlyVpn, JoinAddress;
    var vs, ps := OnlyVpn(ts), Encoded(ts).value;
    EncodeEachIs(vs);
    EncodedFacts(vs);
    ParseAll(ps);
    forall i | 0 <= i < |ts|
      ensures ts[i].mode == MODE_VPN
    {
      assert ts[i] == FromProxy(ps[i]);
    }
    OnlyVpnAll(ts);
    forall i | 0 <= i < |ts|
      ensures Canonical(ts[i])
    {
      OneRoundTripIff(ts[i]);
    }
  }

  /** Encoding what was parsed from an encoding gives the same document: for every list whose VPN
      tunnels have names, credentials and non-empty hosts. */
  lemma EncodeParseEncode(ts: seq<Tunnel>)
    requires Encoded(ts).Success?
    ensures Parsed(Encoded(ts).value).Success? <==>
            OnlyVpn(ts) != [] && forall p :: p in Encoded(ts).value ==> Usable(p)
    ensures Parsed(Encoded(ts).value).Success? ==> Encoded(Parsed(Encoded(ts).value).value) == Encoded(ts)
  {
    hide EncodeOne, Usable, FromProxy, Parsed, EncodeEach, OnlyVpn;
    var vs, ps := OnlyVpn(ts), Encoded(ts).value;
    EncodeEachIs(vs);
    EncodedFacts(vs);
    ParseAll(ps);
    assert (forall p :: p in ps ==> Usable(p)) <==> forall i :: 0 <= i < |ps| ==> Usable(ps[i]);
    if Parsed(ps).Success? {
      forall i | 0 <= i < |ps|
        ensures FromProxies(ps)[i].mode == MODE_VPN && EncodeOne(FromProxies(ps)[i]) == Success(ps[i])
      {
        ReencodeOne(vs[i]);
      }
      OnlyVpnAll(FromProxies(ps));
      EncodeEachIs(FromProxies(ps));
      assert EncodeEach(FromProxies(ps)).Success?;
      assert EncodeEach(FromProxies(ps)).value == ps;
    }
  }

  lemma ReencodeOne(t: Tunnel)
    requires EncodeOne(t).Success?
    ensures FromProxy(EncodeOne(t).value).mode == MODE_VPN
    ensures EncodeOne(FromProxy(EncodeOne(t).value)) == EncodeOne(t)
  {
    hide SplitAddress, JoinAddress;
    SplitIsStable(t.forward);
  }

  /** The other way: encoding the tunnels of a parsed document of supported proxies gives the document
      back exactly when no server name has brackets and every port is a real one. */
  lemma DocumentRoundTripIff(ps: seq<Proxy>)
    requires AllSafelink(ps) && Parsed(ps).Success?
    ensures Encoded(Parsed(ps).value) == Success(ps)
       <==> forall i :: 0 <= i < |ps| ==> Plain(ps[i].server) && 1 <= ps[i].port <= 65535
  {
    hide EncodeOne, Parsed, EncodeEach, OnlyVpn, Plain, JoinAddress;
    ParseAll(ps);
    var ts := FromProxies(ps);
    forall i | 0 <= i < |ps|
      ensures ts[i].mode == MODE_VPN
      ensures EncodeOne(ts[i]) == Success(ps[i]) <==> Plain(ps[i].server) && 1 <= ps[i].port <= 65535
    {
      EncodeDecoded(ps[i]);
    }
    OnlyVpnAll(ts);
    EncodeEachIs(ts);
    if forall i :: 0 <= i < |ps| ==> Plain(ps[i].server) && 1 <= ps[i].port <= 65535 {
      assert EncodeEach(ts).Success?;
      assert EncodeEach(ts).value == ps;
    }
  }

  lemma EncodeDecoded(p: Proxy)
    requires p.kind == SAFELINK
    ensures EncodeOne(FromProxy(p)) == Success(p) <==> Plain(p.server) && 1 <= p.port <= 65535
  {
    hide SplitAddress, JoinAddress, Plain;
    AddressRoundTripIff(p.server, p.port);
  }

  /** The JSON form carries whole tunnels: it returns the VPN tunnels of a list exactly when there
      are any and all of them are valid. */
  lemma JsonRoundTripIff(ts: seq<Tunnel>)
    ensures Normalized(OnlyVpn(ts)) == Success(OnlyVpn(ts)) <==>
            OnlyVpn(ts) != [] && forall t :: t in ts && t.mode == MODE_VPN ==> ValidTunnel(t)
  {
    hide ValidTunnel, Checked;
    var vs := OnlyVpn(ts);
    assert forall i :: 0 <= i < |vs| ==> vs[i] in vs;
    CheckedVpn(vs);
  }
}
