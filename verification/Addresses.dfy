/** Addresses of a service engine (collector/identity_inventory.go): many sightings of an address are
    merged into one record per normalized IP. */
module Addresses {
  import opened Prelude
  import Markers

  datatype Address = Address(
    ip: string,
    role: string,
    iface: string,
    network: string,
    networkUUID: string,
    vrf: string,
    vrfUUID: string,
    cidr: string,
    mac: string)

  /** The metadata fields, in the order in which the score and the key list them. */
  datatype FieldName = Interface | Network | NetworkUUID | VRF | VRFUUID | CIDR | MAC

  function Field(a: Address, f: FieldName): string {
    match f
    case Interface => a.iface
    case Network => a.network
    case NetworkUUID => a.networkUUID
    case VRF => a.vrf
    case VRFUUID => a.vrfUUID
    case CIDR => a.cidr
    case MAC => a.mac
  }

  const MANAGEMENT := "management"
  const DATA := "data"

  // ---- preferAddress ----

  function One(value: string): nat {
    if value != "" then 1 else 0
  }

  function Score(a: Address): (score: nat)
    ensures (score >= 100) == (a.role == MANAGEMENT)
  {
    (if a.role == MANAGEMENT then 100 else 0)
    + One(a.iface) + One(a.network) + One(a.networkUUID) + One(a.vrf) + One(a.vrfUUID) + One(a.cidr) + One(a.mac)
  }

  /** The method that adds up the score. */
  method AddressScore(a: Address) returns (score: nat)
    ensures score == Score(a)
  {
    score := 0;
    if a.role == "management" {
      score := score + 100;
    }
    var values := [a.iface, a.network, a.networkUUID, a.vrf, a.vrfUUID, a.cidr, a.mac];
    for i := 0 to |values|
      invariant score == (if a.role == MANAGEMENT then 100 else 0) + Ones(values[..i])
    {
      assert values[..i + 1][..i] == values[..i];
      if values[i] != "" {
        score := score + 1;
      }
    }
    assert values[..7] == values;
    SevenOnes(values);
  }

  function Ones(values: seq<string>): nat {
    if values == [] then 0 else Ones(values[..|values| - 1]) + One(values[|values| - 1])
  }

  lemma SevenOnes(v: seq<string>)
    requires |v| == 7
    ensures Ones(v) == One(v[0]) + One(v[1]) + One(v[2]) + One(v[3]) + One(v[4]) + One(v[5]) + One(v[6])
  {
    assert v[..6][..5] == v[..5] && v[..5][..4] == v[..4] && v[..4][..3] == v[..3] && v[..3][..2] == v[..2] && v[..2][..1] == v[..1];
    assert Ones(v[..1]) == One(v[0]);
    assert Ones(v[..2]) == Ones(v[..1]) + One(v[1]);
    assert Ones(v[..3]) == Ones(v[..2]) + One(v[2]);
    assert Ones(v[..4]) == Ones(v[..3]) + One(v[3]);
    assert Ones(v[..5]) == Ones(v[..4]) + One(v[4]);
    assert Ones(v[..6]) == Ones(v[..5]) + One(v[5]);
  }

  function Join(parts: seq<string>): string {
    if parts == [] then ""
    else if |parts| == 1 then parts[0]
    else parts[0] + "\0" + Join(parts[1..])
  }

  function Key(a: Address): string {
    Join([a.role, a.iface, a.network, a.networkUUID, a.vrf, a.vrfUUID, a.cidr, a.mac])
  }

  function FillGaps(target: Address, other: Address): Address {
    target.(iface := Markers.Or(target.iface, other.iface),
            network := Markers.Or(target.network, other.network),
            networkUUID := Markers.Or(target.networkUUID, other.networkUUID),
            vrf := Markers.Or(target.vrf, other.vrf),
            vrfUUID := Markers.Or(target.vrfUUID, other.vrfUUID),
            cidr := Markers.Or(target.cidr, other.cidr),
            mac := Markers.Or(target.mac, other.mac))
  }

  predicate SecondWins(a: Address, b: Address) {
    Score(b) > Score(a) || (Score(b) == Score(a) && Less(Key(b), Key(a)))
  }

  function Prefer(a: Address, b: Address): Address {
    var (winner, other) := if SecondWins(a, b) then (b, a) else (a, b);
    if winner.role == other.role then FillGaps(winner, other) else winner
  }

  method FillAddressGaps(target: Address, other: Address) returns (filled: Address)
    ensures filled == FillGaps(target, other)
  {
    filled := target;
    if filled.iface == "" { filled := filled.(iface := other.iface); }
    if filled.network == "" { filled := filled.(network := other.network); }
    if filled.networkUUID == "" { filled := filled.(networkUUID := other.networkUUID); }
    if filled.vrf == "" { filled := filled.(vrf := other.vrf); }
    if filled.vrfUUID == "" { filled := filled.(vrfUUID := other.vrfUUID); }
    if filled.cidr == "" { filled := filled.(cidr := other.cidr); }
    if filled.mac == "" { filled := filled.(mac := other.mac); }
  }

  method PreferAddress(a: Address, b: Address) returns (best: Address)
    ensures best == Prefer(a, b)
  {
    hide Score, Key, FillGaps;
    var winner, other := a, b;
    var aScore := AddressScore(a);
    var bScore := AddressScore(b);
    if bScore > aScore || (bScore == aScore && Less(Key(b), Key(a))) {
      winner, other := b, a;
    }
    if winner.role == other.role {
      winner := FillAddressGaps(winner, other);
    }
    best := winner;
  }

  // ---- preferring does not depend on which sighting came first ----

  predicate NulFree(parts: seq<string>) {
    forall i :: 0 <= i < |parts| ==> '\0' !in parts[i]
  }

  function KeyParts(a: Address): seq<string> {
    [a.role, a.iface, a.network, a.networkUUID, a.vrf, a.vrfUUID, a.cidr, a.mac]
  }

  lemma FirstPart(x: string, restX: string, y: string, restY: string)
    requires '\0' !in x && '\0' !in y && x + "\0" + restX == y + "\0" + restY
    ensures x == y && restX == restY
  {
    var s, t := x + "\0" + restX, y + "\0" + restY;
    assert s[|x|] == '\0' && t[|y|] == '\0';
    forall k | 0 <= k < |x| ensures s[k] != '\0' {
      assert s[k] == x[k];
    }
    forall k | 0 <= k < |y| ensures t[k] != '\0' {
      assert t[k] == y[k];
    }
    assert s[..|x|] == x && t[..|y|] == y && s[|x| + 1..] == restX && t[|y| + 1..] == restY;
  }

  lemma {:induction false} JoinInjective(x: seq<string>, y: seq<string>)
    requires |x| == |y| && NulFree(x) && NulFree(y) && Join(x) == Join(y)
    ensures x == y
  {
    if |x| > 1 {
      FirstPart(x[0], Join(x[1..]), y[0], Join(y[1..]));
      JoinInjective(x[1..], y[1..]);
      assert x == [x[0]] + x[1..] && y == [y[0]] + y[1..];
    }
  }

  /** Equal keys are equal records: the tie-break always decides between different sightings. */
  lemma KeyDecides(a: Address, b: Address)
    requires a.ip == b.ip && NulFree(KeyParts(a)) && NulFree(KeyParts(b)) && Key(a) == Key(b)
    ensures a == b
  {
    JoinInjective(KeyParts(a), KeyParts(b));
    var x, y := KeyParts(a), KeyParts(b);
    assert x[0] == y[0] && x[1] == y[1] && x[2] == y[2] && x[3] == y[3];
    assert x[4] == y[4] && x[5] == y[5] && x[6] == y[6] && x[7] == y[7];
  }

  /** The first part in which the two lists differ is the smaller one's. */
  predicate FirstDifferenceLess(x: seq<string>, y: seq<string>) {
    x != [] && y != [] && (Less(x[0], y[0]) || (x[0] == y[0] && FirstDifferenceLess(x[1..], y[1..])))
  }

  /** NUL comes before every other character, so the first of two joined parts decides if they differ. */
  lemma {:induction false} LessJoined(x: string, restX: string, y: string, restY: string)
    requires '\0' !in x && '\0' !in y
    ensures Less(x + "\0" + restX, y + "\0" + restY) <==> Less(x, y) || (x == y && Less(restX, restY))
    decreases |x|
  {
    var s, t := x + "\0" + restX, y + "\0" + restY;
    if x == [] || y == [] {
      assert s[1..] == if x == [] then restX else x[1..] + "\0" + restX;
      assert t[1..] == if y == [] then restY else y[1..] + "\0" + restY;
      LessIrreflexive(x);
    } else {
      assert s[0] == x[0] && t[0] == y[0] && s[1..] == x[1..] + "\0" + restX && t[1..] == y[1..] + "\0" + restY;
      LessJoined(x[1..], restX, y[1..], restY);
      assert x == [x[0]] + x[1..] && y == [y[0]] + y[1..];
    }
  }

  lemma {:induction false} JoinOrder(x: seq<string>, y: seq<string>)
    requires |x| == |y| && NulFree(x) && NulFree(y)
    ensures Less(Join(x), Join(y)) <==> FirstDifferenceLess(x, y)
  {
    if |x| > 1 {
      hide Less;
      LessJoined(x[0], Join(x[1..]), y[0], Join(y[1..]));
      JoinOrder(x[1..], y[1..]);
    } else if |x| == 0 {
      LessIrreflexive("");
    }
  }

  /** Between two sightings of the same score the second wins exactly if, in the order of role, interface,
      network and its UUID, VRF and its UUID, CIDR and hardware address, the first in which they differ is
      smaller in the second. */
  lemma TieIsByFirstDifference(a: Address, b: Address)
    requires NulFree(KeyParts(a)) && NulFree(KeyParts(b)) && Score(a) == Score(b)
    ensures SecondWins(a, b) <==> FirstDifferenceLess(KeyParts(b), KeyParts(a))
  {
    hide Score, Less, FirstDifferenceLess, NulFree;
    JoinOrder(KeyParts(b), KeyParts(a));
    hide Join;
  }

  /** The two never contradict each other on a field. */
  ghost predicate Compatible(a: Address, b: Address) {
    forall f :: Field(a, f) == "" || Field(b, f) == "" || Field(a, f) == Field(b, f)
  }

  lemma GapsCommute(a: Address, b: Address)
    requires a.ip == b.ip && a.role == b.role
    ensures FillGaps(a, b) == FillGaps(b, a) <==> Compatible(a, b)
  {
    hide FillGaps, Field;
    var x, y := FillGaps(a, b), FillGaps(b, a);
    forall f ensures Field(x, f) == Field(y, f) <==> Field(a, f) == "" || Field(b, f) == "" || Field(a, f) == Field(b, f) {
      FilledField(a, b, f);
      FilledField(b, a, f);
    }
    if Compatible(a, b) {
      FilledField(a, b, Interface);
      FilledField(b, a, Interface);
      SameFields(x, y);
    }
  }

  lemma SameFields(a: Address, b: Address)
    requires a.ip == b.ip && a.role == b.role && forall f :: Field(a, f) == Field(b, f)
    ensures a == b
  {
    assert Field(a, Interface) == Field(b, Interface) && Field(a, Network) == Field(b, Network);
    assert Field(a, NetworkUUID) == Field(b, NetworkUUID) && Field(a, VRF) == Field(b, VRF);
    assert Field(a, VRFUUID) == Field(b, VRFUUID) && Field(a, CIDR) == Field(b, CIDR) && Field(a, MAC) == Field(b, MAC);
  }

  /** Of two sightings of an address the same record results, whichever came first, exactly unless score
      and key both tie although role or fields contradict each other; without NUL characters, which the
      key joins the fields with, that cannot happen. */
  lemma PreferCommutes(a: Address, b: Address)
    requires a.ip == b.ip
    ensures Prefer(a, b) == Prefer(b, a)
            <==> Score(a) != Score(b) || Key(a) != Key(b) || (a.role == b.role && Compatible(a, b))
    ensures NulFree(KeyParts(a)) && NulFree(KeyParts(b)) ==> Prefer(a, b) == Prefer(b, a)
  {
    hide Score, FillGaps, NulFree, Key, Less, Compatible;
    if Key(a) == Key(b) {
      if NulFree(KeyParts(a)) && NulFree(KeyParts(b)) {
        KeyDecides(a, b);
      }
      LessIrreflexive(Key(a));
      if a.role == b.role {
        GapsCommute(a, b);
      }
    } else {
      LessTotal(Key(a), Key(b));
      if Less(Key(a), Key(b)) && Less(Key(b), Key(a)) {
        LessTransitive(Key(a), Key(b), Key(a));
        LessIrreflexive(Key(a));
        assert false;
      }
    }
  }

  const NUL_A := Address("10.0.0.1", DATA, "p", "\0q", "", "", "", "", "")
  const NUL_B := Address("10.0.0.1", DATA, "p\0", "q", "", "", "", "", "")

  lemma NulKeysTie()
    ensures Key(NUL_A) == Key(NUL_B)
  {
    var rest := ["", "", "", "", ""];
    assert KeyParts(NUL_A) == [DATA, "p", "\0q"] + rest && KeyParts(NUL_B) == [DATA, "p\0", "q"] + rest;
    JoinThree(DATA, "p", "\0q", rest);
    JoinThree(DATA, "p\0", "q", rest);
    assert "p" + "\0" + "\0q" == "p\0" + "\0" + "q";
  }

  lemma JoinThree(x: string, y: string, z: string, rest: seq<string>)
    requires rest != []
    ensures Join([x, y, z] + rest) == x + "\0" + (y + "\0" + z) + "\0" + Join(rest)
  {
    var a := [x, y, z] + rest;
    assert a[1..] == [y, z] + rest && a[1..][1..] == [z] + rest && a[1..][1..][1..] == rest;
    assert Join(a) == x + "\0" + Join(a[1..]);
    assert Join(a[1..]) == y + "\0" + Join(a[1..][1..]);
    assert Join(a[1..][1..]) == z + "\0" + Join(rest);
  }

  /** With NUL characters the first of two sightings can win either way. */
  lemma NulBreaksTheTie()
    ensures Prefer(NUL_A, NUL_B) != Prefer(NUL_B, NUL_A)
  {
    NulKeysTie();
    assert Score(NUL_A) == Score(NUL_B);
    assert Field(NUL_A, Interface) != "" && Field(NUL_B, Interface) != "" && Field(NUL_A, Interface) != Field(NUL_B, Interface) by {
      assert |"p"| != |"p\0"|;
    }
    hide Score, Key, Less, Prefer, NulFree;
    PreferCommutes(NUL_A, NUL_B);
  }

  // ---- what preferring does to role and fields ----

  ghost predicate KnownRole(a: Address) {
    a.role == MANAGEMENT || a.role == DATA
  }

  lemma FilledField(target: Address, other: Address, f: FieldName)
    ensures Field(FillGaps(target, other), f) == Markers.Or(Field(target, f), Field(other, f))
    ensures FillGaps(target, other).role == target.role && FillGaps(target, other).ip == target.ip
  {
  }

  /** Management beats data; equal roles pool their fields. */
  lemma PreferredRole(a: Address, b: Address)
    requires KnownRole(a) && KnownRole(b) && a.ip == b.ip
    ensures Prefer(a, b).ip == a.ip
    ensures Prefer(a, b).role == if a.role == MANAGEMENT || b.role == MANAGEMENT then MANAGEMENT else DATA
    ensures a.role != b.role ==> Prefer(a, b) == if a.role == MANAGEMENT then a else b
  {
    hide Key, Less, FillGaps;
    FilledField(a, b, Interface);
    FilledField(b, a, Interface);
  }

  lemma PreferredField(a: Address, b: Address, f: FieldName)
    requires a.role == b.role
    ensures Field(Prefer(a, b), f) == Markers.Or(Field(a, f), Field(b, f)) || Field(Prefer(a, b), f) == Markers.Or(Field(b, f), Field(a, f))
  {
    hide Key, Less, FillGaps, Field, Score, Markers.Or, SecondWins;
    FilledField(a, b, f);
    FilledField(b, a, f);
  }

  // ---- collecting ----

  /** Parsing, unmapping and printing of addresses, their bit length, and masked prefixes. */
  datatype Net = Net(
    normalize: string -> Option<string>,
    bitLen: string -> int,
    masked: (string, int) -> string)

  datatype VNICNetwork = VNICNetwork(addr: string, mask: Option<int>)

  datatype VLAN = VLAN(ifName: string, isMgmt: bool, vrfRef: string, networks: seq<VNICNetwork>)

  datatype VNIC = VNIC(
    ifName: string,
    networkName: string,
    networkRef: string,
    vrfRef: string,
    macAddress: string,
    isMgmt: bool,
    networks: seq<VNICNetwork>,
    vlans: seq<VLAN>)

  datatype SEConfig = SEConfig(
    mgmtIP: Option<string>,
    mgmtIP6: Option<string>,
    mgmtVNIC: Option<VNIC>,
    dataVNICs: seq<VNIC>)

  function NormalizedCIDR(net: Net, raw: string, bits: Option<int>): string {
    if net.normalize(raw).None? || bits.None? then ""
    else if bits.value < 0 || bits.value > net.bitLen(raw) then ""
    else net.masked(raw, bits.value)
  }

  function Bare(ip: string): Address {
    Address(ip, MANAGEMENT, "", "", "", "", "", "", "")
  }

  /** The labels that all addresses of an interface share. */
  datatype Link = Link(role: string, ifName: string, network: string, networkUUID: string, vrf: string, vrfUUID: string, mac: string)

  function FromNetwork(net: Net, n: VNICNetwork, link: Link): Address {
    Address(n.addr, link.role, link.ifName, link.network, link.networkUUID, link.vrf, link.vrfUUID,
            NormalizedCIDR(net, n.addr, n.mask), link.mac)
  }

  function FromNetworks(net: Net, ns: seq<VNICNetwork>, link: Link): seq<Address> {
    if ns == [] then []
    else FromNetworks(net, ns[..|ns| - 1], link) + [FromNetwork(net, ns[|ns| - 1], link)]
  }

  function LinkOf(vnic: VNIC, role: string): Link {
    Link(role,
         vnic.ifName,
         Markers.Or(vnic.networkName, Markers.RefName(vnic.networkRef)),
         Markers.RefUUID(vnic.networkRef),
         Markers.RefName(vnic.vrfRef),
         Markers.RefUUID(vnic.vrfRef),
         vnic.macAddress)
  }

  /** A VLAN inherits the interface's labels; its own VRF replaces the interface's as a whole. */
  function LinkOfVLAN(vlan: VLAN, link: Link): Link {
    var name, uuid := Markers.RefName(vlan.vrfRef), Markers.RefUUID(vlan.vrfRef);
    var inherits := name == "" && uuid == "";
    link.(role := if vlan.isMgmt then MANAGEMENT else link.role,
          ifName := Markers.Or(vlan.ifName, link.ifName),
          vrf := if inherits then link.vrf else name,
          vrfUUID := if inherits then link.vrfUUID else uuid)
  }

  function FromVLANs(net: Net, vlans: seq<VLAN>, link: Link): seq<Address> {
    if vlans == [] then []
    else
      var n := |vlans| - 1;
      FromVLANs(net, vlans[..n], link) + FromNetworks(net, vlans[n].networks, LinkOfVLAN(vlans[n], link))
  }

  function FromVNIC(net: Net, vnic: VNIC, role: string): seq<Address> {
    FromNetworks(net, vnic.networks, LinkOf(vnic, role)) + FromVLANs(net, vnic.vlans, LinkOf(vnic, role))
  }

  function DataRole(vnic: VNIC): string {
    if vnic.isMgmt then MANAGEMENT else DATA
  }

  function FromDataVNICs(net: Net, vnics: seq<VNIC>): seq<Address> {
    if vnics == [] then []
    else
      var n := |vnics| - 1;
      FromDataVNICs(net, vnics[..n]) + FromVNIC(net, vnics[n], DataRole(vnics[n]))
  }

  function FromMgmtIP(ip: Option<string>): seq<Address> {
    if ip.Some? then [Bare(ip.value)] else []
  }

  /** All sightings of addresses, in the order in which they are added. */
  function Candidates(net: Net, item: SEConfig): seq<Address> {
    FromMgmtIP(item.mgmtIP) + FromMgmtIP(item.mgmtIP6)
    + (if item.mgmtVNIC.Some? then FromVNIC(net, item.mgmtVNIC.value, MANAGEMENT) else [])
    + FromDataVNICs(net, item.dataVNICs)
  }

  // ---- which sightings a configuration has ----

  /** The prefix of an address: masked if the mask fits, otherwise none. */
  predicate HasPrefix(net: Net, n: VNICNetwork, cidr: string) {
    if net.normalize(n.addr).Some? && n.mask.Some? && 0 <= n.mask.value <= net.bitLen(n.addr)
    then cidr == net.masked(n.addr, n.mask.value)
    else cidr == ""
  }

  /** An address of one of the interface's own networks. */
  ghost predicate OnInterface(net: Net, v: VNIC, mgmt: bool, c: Address) {
    exists n :: n in v.networks && c.ip == n.addr && HasPrefix(net, n, c.cidr)
                && c.role == (if mgmt then "management" else "data") && c.iface == v.ifName
                && c.vrf == Markers.RefName(v.vrfRef) && c.vrfUUID == Markers.RefUUID(v.vrfRef)
  }

  /** An address of one of the networks of one of its VLANs: the VLAN can raise it to management, has a
      name of its own or the interface's, and its own VRF, name and UUID, unless both are empty. */
  ghost predicate OnVLAN(net: Net, v: VNIC, l: VLAN, mgmt: bool, c: Address) {
    exists n :: n in l.networks && c.ip == n.addr && HasPrefix(net, n, c.cidr)
                && c.role == (if mgmt || l.isMgmt then "management" else "data")
                && c.iface == (if l.ifName != "" then l.ifName else v.ifName)
                && var own := Markers.RefName(l.vrfRef) != "" || Markers.RefUUID(l.vrfRef) != "";
                   var vrfRef := if own then l.vrfRef else v.vrfRef;
                   c.vrf == Markers.RefName(vrfRef) && c.vrfUUID == Markers.RefUUID(vrfRef)
  }

  /** Seen on an interface or one of its VLANs, with the interface's network and hardware address. */
  ghost predicate SeenOn(net: Net, v: VNIC, mgmt: bool, c: Address) {
    && c.network == (if v.networkName != "" then v.networkName else Markers.RefName(v.networkRef))
    && c.networkUUID == Markers.RefUUID(v.networkRef) && c.mac == v.macAddress
    && (OnInterface(net, v, mgmt, c) || exists l :: l in v.vlans && OnVLAN(net, v, l, mgmt, c))
  }

  predicate IsMgmtIP(ip: Option<string>, c: Address) {
    ip.Some? && c == Address(ip.value, "management", "", "", "", "", "", "", "")
  }

  /** A sighting of an address: a management IP, or seen on the management interface, always in that role,
      or on a data interface. */
  ghost predicate IsSighting(net: Net, item: SEConfig, c: Address) {
    || IsMgmtIP(item.mgmtIP, c) || IsMgmtIP(item.mgmtIP6, c)
    || (item.mgmtVNIC.Some? && SeenOn(net, item.mgmtVNIC.value, true, c))
    || exists v :: v in item.dataVNICs && SeenOn(net, v, v.isMgmt, c)
  }

  lemma PrefixIs(net: Net, n: VNICNetwork, cidr: string)
    ensures HasPrefix(net, n, cidr) <==> cidr == NormalizedCIDR(net, n.addr, n.mask)
  {
  }

  /** The address is that of one of these networks, on this link. */
  ghost predicate OnLink(net: Net, ns: seq<VNICNetwork>, link: Link, c: Address) {
    exists n :: n in ns && c == FromNetwork(net, n, link)
  }

  lemma {:induction false} NetworkSightings(net: Net, ns: seq<VNICNetwork>, link: Link, c: Address)
    ensures c in FromNetworks(net, ns, link) <==> OnLink(net, ns, link, c)
  {
    hide FromNetwork;
    if ns != [] {
      var n := |ns| - 1;
      assert ns == ns[..n] + [ns[n]];
      NetworkSightings(net, ns[..n], link, c);
    }
  }

  lemma {:induction false} VLANSightings(net: Net, vlans: seq<VLAN>, link: Link, c: Address)
    ensures c in FromVLANs(net, vlans, link) <==> exists l :: l in vlans && OnLink(net, l.networks, LinkOfVLAN(l, link), c)
  {
    hide FromNetworks, LinkOfVLAN, OnLink;
    if vlans != [] {
      var n := |vlans| - 1;
      assert vlans == vlans[..n] + [vlans[n]];
      VLANSightings(net, vlans[..n], link, c);
      NetworkSightings(net, vlans[n].networks, LinkOfVLAN(vlans[n], link), c);
    }
  }

  lemma LinkIs(net: Net, ns: seq<VNICNetwork>, link: Link, c: Address)
    ensures OnLink(net, ns, link, c) <==>
              && c.network == link.network && c.networkUUID == link.networkUUID && c.mac == link.mac
              && exists n :: n in ns && c.ip == n.addr && HasPrefix(net, n, c.cidr)
                             && c.role == link.role && c.iface == link.ifName && c.vrf == link.vrf && c.vrfUUID == link.vrfUUID
  {
    forall n ensures HasPrefix(net, n, c.cidr) <==> c.cidr == NormalizedCIDR(net, n.addr, n.mask) {
      PrefixIs(net, n, c.cidr);
    }
    hide HasPrefix, NormalizedCIDR;
  }

  function RoleName(mgmt: bool): string {
    if mgmt then MANAGEMENT else DATA
  }

  /** What an interface contributes, its VLANs included. */
  lemma InterfaceSightings(net: Net, v: VNIC, mgmt: bool, c: Address)
    ensures c in FromVNIC(net, v, RoleName(mgmt)) <==> SeenOn(net, v, mgmt, c)
  {
    hide FromNetworks, FromVLANs, Markers.RefName, Markers.RefUUID, HasPrefix, OnLink;
    var link := LinkOf(v, RoleName(mgmt));
    NetworkSightings(net, v.networks, link, c);
    VLANSightings(net, v.vlans, link, c);
    LinkIs(net, v.networks, link, c);
    forall l: VLAN ensures OnLink(net, l.networks, LinkOfVLAN(l, link), c) <==>
                       (c.network == link.network && c.networkUUID == link.networkUUID && c.mac == link.mac && OnVLAN(net, v, l, mgmt, c))
    {
      LinkIs(net, l.networks, LinkOfVLAN(l, link), c);
    }
    hide OnVLAN, LinkOfVLAN;
  }

  lemma {:induction false} DataSightings(net: Net, vnics: seq<VNIC>, c: Address)
    ensures c in FromDataVNICs(net, vnics) <==> exists v :: v in vnics && SeenOn(net, v, v.isMgmt, c)
  {
    hide FromVNIC, SeenOn;
    if vnics != [] {
      var n := |vnics| - 1;
      assert vnics == vnics[..n] + [vnics[n]];
      DataSightings(net, vnics[..n], c);
      InterfaceSightings(net, vnics[n], vnics[n].isMgmt, c);
    }
  }

  /** The sightings that are collected are exactly those of the configuration. */
  lemma SightingsExactly(net: Net, item: SEConfig, c: Address)
    ensures c in Candidates(net, item) <==> IsSighting(net, item, c)
  {
    hide FromVNIC, FromDataVNICs, SeenOn;
    DataSightings(net, item.dataVNICs, c);
    if item.mgmtVNIC.Some? {
      InterfaceSightings(net, item.mgmtVNIC.value, true, c);
    }
  }

  // ---- the fold ----

  type Book = map<string, Address>

  function Noted(net: Net, book: Book, c: Address): Book {
    match net.normalize(c.ip)
    case None => book
    case Some(ip) =>
      var candidate := c.(ip := ip);
      book[ip := if ip in book then Prefer(book[ip], candidate) else candidate]
  }

  function NotedAll(net: Net, book: Book, cs: seq<Address>): Book {
    if cs == [] then book else Noted(net, NotedAll(net, book, cs[..|cs| - 1]), cs[|cs| - 1])
  }

  lemma {:induction false} NotedAllAppend(net: Net, book: Book, a: seq<Address>, b: seq<Address>)
    ensures NotedAll(net, book, a + b) == NotedAll(net, NotedAll(net, book, a), b)
  {
    hide Noted;
    if b == [] {
      assert a + b == a;
    } else {
      var n := |b| - 1;
      assert (a + b)[..|a + b| - 1] == a + b[..n];
      NotedAllAppend(net, book, a, b[..n]);
    }
  }

  function BookOf(net: Net, cs: seq<Address>): Book {
    NotedAll(net, map[], cs)
  }

  /** c is a sighting of this address in this role. */
  predicate Sights(net: Net, c: Address, ip: string, role: string) {
    net.normalize(c.ip) == Some(ip) && c.role == role
  }

  ghost predicate Sighted(net: Net, cs: seq<Address>, ip: string, role: string) {
    exists c :: c in cs && Sights(net, c, ip, role)
  }

  /** Some sighting in this role has this field. */
  ghost predicate HasField(net: Net, cs: seq<Address>, ip: string, role: string, f: FieldName) {
    exists c :: c in cs && Sights(net, c, ip, role) && Field(c, f) != ""
  }

  ghost predicate HasValue(net: Net, cs: seq<Address>, ip: string, role: string, f: FieldName, value: string) {
    exists c :: c in cs && Sights(net, c, ip, role) && Field(c, f) == value
  }

  ghost predicate KnownRoles(cs: seq<Address>) {
    forall c :: c in cs ==> KnownRole(c)
  }

  /** The record of an address: management exactly if it was sighted so, otherwise data; a field is there
      exactly if some sighting in that role has it, and then its value is such a sighting's. */
  ghost predicate Exact(net: Net, cs: seq<Address>, ip: string, book: Book) {
    if !Sighted(net, cs, ip, MANAGEMENT) && !Sighted(net, cs, ip, DATA) then ip !in book
    else
      && ip in book
      && book[ip].ip == ip
      && book[ip].role == (if Sighted(net, cs, ip, MANAGEMENT) then MANAGEMENT else DATA)
      && forall f :: ExactField(net, cs, ip, book[ip], f)
  }

  ghost predicate ExactField(net: Net, cs: seq<Address>, ip: string, a: Address, f: FieldName) {
    && (Field(a, f) != "" <==> HasField(net, cs, ip, a.role, f))
    && (Field(a, f) != "" ==> HasValue(net, cs, ip, a.role, f, Field(a, f)))
  }

  lemma SightedMore(net: Net, cs: seq<Address>, c: Address, ip: string, role: string)
    ensures Sighted(net, cs + [c], ip, role) <==> Sighted(net, cs, ip, role) || Sights(net, c, ip, role)
  {
    hide Sights;
    if Sights(net, c, ip, role) {
      assert c in cs + [c];
    }
    if Sighted(net, cs, ip, role) {
      var d :| d in cs && Sights(net, d, ip, role);
      assert d in cs + [c];
    }
  }

  lemma HasFieldMore(net: Net, cs: seq<Address>, c: Address, ip: string, role: string, f: FieldName, value: string)
    ensures HasField(net, cs + [c], ip, role, f) <==> HasField(net, cs, ip, role, f) || (Sights(net, c, ip, role) && Field(c, f) != "")
    ensures HasValue(net, cs + [c], ip, role, f, value)
            <==> HasValue(net, cs, ip, role, f, value) || (Sights(net, c, ip, role) && Field(c, f) == value)
  {
    hide Sights, Field;
    assert c in cs + [c];
    if HasField(net, cs, ip, role, f) {
      var d :| d in cs && Sights(net, d, ip, role) && Field(d, f) != "";
      assert d in cs + [c];
    }
    if HasValue(net, cs, ip, role, f, value) {
      var d :| d in cs && Sights(net, d, ip, role) && Field(d, f) == value;
      assert d in cs + [c];
    }
  }

  lemma UnsightedHasNothing(net: Net, cs: seq<Address>, ip: string, role: string, f: FieldName)
    requires !Sighted(net, cs, ip, role)
    ensures !HasField(net, cs, ip, role, f)
  {
    hide Sights, Field;
  }

  lemma FieldOfCandidate(c: Address, ip: string, f: FieldName)
    ensures Field(c.(ip := ip), f) == Field(c, f)
  {
  }

  /** The first record of an address, or the first in a better role. */
  lemma FirstInRole(net: Net, cs: seq<Address>, c: Address, ip: string, f: FieldName)
    requires net.normalize(c.ip) == Some(ip) && !Sighted(net, cs, ip, c.role)
    ensures ExactField(net, cs + [c], ip, c.(ip := ip), f)
  {
    UnsightedHasNothing(net, cs, ip, c.role, f);
    FieldOfCandidate(c, ip, f);
    HasFieldMore(net, cs, c, ip, c.role, f, Field(c, f));
    hide Field, HasField, HasValue;
  }

  /** A sighting in another role, or of another address, adds nothing. */
  lemma OtherRole(net: Net, cs: seq<Address>, c: Address, ip: string, a: Address, f: FieldName)
    requires ExactField(net, cs, ip, a, f) && !Sights(net, c, ip, a.role)
    ensures ExactField(net, cs + [c], ip, a, f)
  {
    HasFieldMore(net, cs, c, ip, a.role, f, Field(a, f));
    hide Field, HasField, HasValue, Sights;
  }

  /** A sighting in the same role pools its fields. */
  lemma SameRole(net: Net, cs: seq<Address>, c: Address, ip: string, a: Address, f: FieldName)
    requires ExactField(net, cs, ip, a, f) && net.normalize(c.ip) == Some(ip) && c.role == a.role && KnownRole(a) && a.ip == ip
    ensures ExactField(net, cs + [c], ip, Prefer(a, c.(ip := ip)), f)
  {
    var b := c.(ip := ip);
    PreferredRole(a, b);
    PreferredField(a, b, f);
    FieldOfCandidate(c, ip, f);
    HasFieldMore(net, cs, c, ip, a.role, f, Field(a, f));
    HasFieldMore(net, cs, c, ip, a.role, f, Field(c, f));
    hide Field, HasField, HasValue, Prefer, KnownRole;
  }

  lemma KnownRoleOfRecord(net: Net, cs: seq<Address>, ip: string, book: Book)
    requires Exact(net, cs, ip, book) && ip in book
    ensures KnownRole(book[ip]) && book[ip].ip == ip
    ensures book[ip].role == MANAGEMENT <==> Sighted(net, cs, ip, MANAGEMENT)
    ensures Sighted(net, cs, ip, book[ip].role)
    ensures forall f :: ExactField(net, cs, ip, book[ip], f)
  {
    hide Sighted, ExactField;
    assert MANAGEMENT != DATA;
  }

  lemma NotedOther(net: Net, cs: seq<Address>, c: Address, ip: string, book: Book)
    requires Exact(net, cs, ip, book) && net.normalize(c.ip) != Some(ip)
    ensures Exact(net, cs + [c], ip, Noted(net, book, c))
  {
    SightedMore(net, cs, c, ip, MANAGEMENT);
    SightedMore(net, cs, c, ip, DATA);
    if ip in book {
      forall f ensures ExactField(net, cs + [c], ip, book[ip], f) {
        assert ExactField(net, cs, ip, book[ip], f);
        OtherRole(net, cs, c, ip, book[ip], f);
      }
    }
    hide Sighted, ExactField, Prefer;
  }

  lemma NotedFirst(net: Net, cs: seq<Address>, c: Address, ip: string, book: Book)
    requires Exact(net, cs, ip, book) && ip !in book && net.normalize(c.ip) == Some(ip) && KnownRole(c)
    ensures Exact(net, cs + [c], ip, Noted(net, book, c))
  {
    SightedMore(net, cs, c, ip, MANAGEMENT);
    SightedMore(net, cs, c, ip, DATA);
    forall f ensures ExactField(net, cs + [c], ip, c.(ip := ip), f) {
      FirstInRole(net, cs, c, ip, f);
    }
    hide Sighted, ExactField, Prefer;
  }

  lemma NotedAgain(net: Net, cs: seq<Address>, c: Address, ip: string, book: Book)
    requires Exact(net, cs, ip, book) && ip in book && net.normalize(c.ip) == Some(ip) && KnownRole(c)
    ensures Exact(net, cs + [c], ip, Noted(net, book, c))
  {
    var a, b := book[ip], c.(ip := ip);
    KnownRoleOfRecord(net, cs, ip, book);
    SightedMore(net, cs, c, ip, MANAGEMENT);
    SightedMore(net, cs, c, ip, DATA);
    PreferredRole(a, b);
    var r := Prefer(a, b);
    assert MANAGEMENT != DATA;
    hide Sighted, Prefer, ExactField;
    forall f ensures ExactField(net, cs + [c], ip, r, f) {
      assert ExactField(net, cs, ip, a, f);
      if a.role == c.role {
        SameRole(net, cs, c, ip, a, f);
      } else if a.role == MANAGEMENT {
        OtherRole(net, cs, c, ip, a, f);
      } else {
        FirstInRole(net, cs, c, ip, f);
      }
    }
  }

  /** Whatever is sighted, the record of every address is exact. */
  lemma {:induction false} BookIsExact(net: Net, cs: seq<Address>, ip: string)
    requires KnownRoles(cs)
    ensures Exact(net, cs, ip, BookOf(net, cs))
  {
    hide Exact, KnownRole, Noted;
    if cs == [] {
      assert Exact(net, [], ip, map[]) by { NothingSighted(net, ip); }
    } else {
      var n := |cs| - 1;
      assert cs == cs[..n] + [cs[n]];
      BookIsExact(net, cs[..n], ip);
      var book := BookOf(net, cs[..n]);
      if net.normalize(cs[n].ip) != Some(ip) {
        NotedOther(net, cs[..n], cs[n], ip, book);
      } else if ip in book {
        NotedAgain(net, cs[..n], cs[n], ip, book);
      } else {
        NotedFirst(net, cs[..n], cs[n], ip, book);
      }
    }
  }

  lemma NothingSighted(net: Net, ip: string)
    ensures Exact(net, [], ip, map[])
  {
  }

  // ---- order independence ----

  ghost predicate SameSightings(a: seq<Address>, b: seq<Address>) {
    forall c :: c in a <==> c in b
  }

  lemma SightedBySet(net: Net, a: seq<Address>, b: seq<Address>, ip: string, role: string)
    requires SameSightings(a, b)
    ensures Sighted(net, a, ip, role) == Sighted(net, b, ip, role)
    ensures forall f :: HasField(net, a, ip, role, f) == HasField(net, b, ip, role, f)
  {
    hide Sights, Field;
  }

  /** Which addresses there are, their roles and which of their fields are filled depends on the sightings
      alone, not on their order or number. */
  lemma RolesIgnoreOrder(net: Net, a: seq<Address>, b: seq<Address>, ip: string, f: FieldName)
    requires KnownRoles(a) && KnownRoles(b) && SameSightings(a, b)
    ensures ip in BookOf(net, a) <==> ip in BookOf(net, b)
    ensures ip in BookOf(net, a) ==>
              && BookOf(net, a)[ip].role == BookOf(net, b)[ip].role
              && (Field(BookOf(net, a)[ip], f) == "" <==> Field(BookOf(net, b)[ip], f) == "")
  {
    BookIsExact(net, a, ip);
    BookIsExact(net, b, ip);
    SightedBySet(net, a, b, ip, MANAGEMENT);
    SightedBySet(net, a, b, ip, DATA);
    hide BookOf, Sighted, HasField, HasValue, Field, KnownRoles, SameSightings;
    if ip in BookOf(net, a) {
      assert ExactField(net, a, ip, BookOf(net, a)[ip], f);
      assert ExactField(net, b, ip, BookOf(net, b)[ip], f);
    }
  }

  // ---- when the values do not depend on it either ----

  /** The role that the record of an address ends up in. */
  ghost function WinningRole(net: Net, cs: seq<Address>, ip: string): string {
    if Sighted(net, cs, ip, MANAGEMENT) then MANAGEMENT else DATA
  }

  /** A sighting that counts for the address: one in the winning role. */
  ghost predicate Counts(net: Net, cs: seq<Address>, ip: string, c: Address) {
    c in cs && Sights(net, c, ip, WinningRole(net, cs, ip))
  }

  /** All sightings that count and have the field agree on it. */
  ghost predicate AgreedOn(net: Net, cs: seq<Address>, ip: string, f: FieldName) {
    forall c, d :: Counts(net, cs, ip, c) && Counts(net, cs, ip, d) && Field(c, f) != "" && Field(d, f) != ""
                   ==> Field(c, f) == Field(d, f)
  }

  /** The field of the address's record, empty when there is no record. */
  function ValueOf(net: Net, cs: seq<Address>, ip: string, f: FieldName): string {
    var book := BookOf(net, cs);
    if ip in book then Field(book[ip], f) else ""
  }

  lemma RecordOfWinners(net: Net, cs: seq<Address>, ip: string)
    requires KnownRoles(cs) && ip in BookOf(net, cs)
    ensures var a := BookOf(net, cs)[ip]; a.role == WinningRole(net, cs, ip) && KnownRole(a) && a.ip == ip
    ensures forall f :: ExactField(net, cs, ip, BookOf(net, cs)[ip], f)
  {
    BookIsExact(net, cs, ip);
    KnownRoleOfRecord(net, cs, ip, BookOf(net, cs));
    hide BookOf, Sighted, ExactField, Exact;
  }

  /** A value of the record is that of a sighting that counts. */
  lemma ValueIsSighted(net: Net, cs: seq<Address>, ip: string, f: FieldName) returns (c: Address)
    requires KnownRoles(cs) && ValueOf(net, cs, ip, f) != ""
    ensures Counts(net, cs, ip, c) && Field(c, f) == ValueOf(net, cs, ip, f)
  {
    RecordOfWinners(net, cs, ip);
    hide BookOf, Field, Sights, WinningRole;
    var a := BookOf(net, cs)[ip];
    assert ExactField(net, cs, ip, a, f);
    assert HasValue(net, cs, ip, a.role, f, Field(a, f));
    c :| c in cs && Sights(net, c, ip, a.role) && Field(c, f) == Field(a, f);
  }

  /** Where the sightings that count agree on a field, their order and number do not matter. */
  lemma AgreedValuesIgnoreOrder(net: Net, a: seq<Address>, b: seq<Address>, ip: string, f: FieldName)
    requires KnownRoles(a) && SameSightings(a, b) && AgreedOn(net, a, ip, f)
    ensures ValueOf(net, a, ip, f) == ValueOf(net, b, ip, f)
  {
    RolesIgnoreOrder(net, a, b, ip, f);
    SightedBySet(net, a, b, ip, MANAGEMENT);
    hide BookOf, Sighted, Field, Sights;
    if ValueOf(net, a, ip, f) != "" {
      var c := ValueIsSighted(net, a, ip, f);
      var d := ValueIsSighted(net, b, ip, f);
      assert Counts(net, a, ip, d);
    }
  }

  /** No reordering of the sightings gives another value. */
  ghost predicate OrderFree(net: Net, cs: seq<Address>, ip: string, f: FieldName) {
    forall other :: multiset(other) == multiset(cs) ==> ValueOf(net, other, ip, f) == ValueOf(net, cs, ip, f)
  }

  /** b has only fields that a has, and not all of them. */
  ghost predicate Covers(a: Address, b: Address) {
    && (forall g :: Field(b, g) != "" ==> Field(a, g) != "")
    && exists g :: Field(a, g) != "" && Field(b, g) == ""
  }

  /** A field that some sighting that counts has. */
  ghost predicate Had(net: Net, cs: seq<Address>, ip: string, g: FieldName) {
    exists c :: Counts(net, cs, ip, c) && Field(c, g) != ""
  }

  ghost predicate HadWithout(net: Net, cs: seq<Address>, ip: string, g: FieldName, f: FieldName) {
    exists c :: Counts(net, cs, ip, c) && Field(c, f) == "" && Field(c, g) != ""
  }

  ghost predicate HasAll(net: Net, cs: seq<Address>, ip: string, a: Address) {
    forall g :: Had(net, cs, ip, g) ==> Field(a, g) != ""
  }

  /** The sightings that count complete each other: none has all the fields that there are, and all but
      this one field are to be had from those without it. */
  ghost predicate Scattered(net: Net, cs: seq<Address>, ip: string, f: FieldName) {
    && (forall c :: Counts(net, cs, ip, c) ==> !HasAll(net, cs, ip, c))
    && forall g :: g != f && Had(net, cs, ip, g) ==> HadWithout(net, cs, ip, g, f)
  }

  lemma ScoreByField(a: Address)
    ensures Score(a) == (if a.role == MANAGEMENT then 100 else 0)
                        + One(Field(a, Interface)) + One(Field(a, Network)) + One(Field(a, NetworkUUID)) + One(Field(a, VRF))
                        + One(Field(a, VRFUUID)) + One(Field(a, CIDR)) + One(Field(a, MAC))
  {
    hide One, MANAGEMENT;
  }

  lemma CoveringScore(a: Address, b: Address)
    requires a.role == b.role && Covers(a, b)
    ensures Score(b) < Score(a)
  {
    hide Score, Field, MANAGEMENT;
    ScoreByField(a);
    ScoreByField(b);
    forall f ensures One(Field(b, f)) <= One(Field(a, f)) {
      assert Field(b, f) != "" ==> Field(a, f) != "";
    }
    var g :| Field(a, g) != "" && Field(b, g) == "";
    assert One(Field(b, g)) < One(Field(a, g));
    hide One, Covers;
    match g
    case Interface =>
    case Network =>
    case NetworkUUID =>
    case VRF =>
    case VRFUUID =>
    case CIDR =>
    case MAC =>
  }

  lemma EachField(a: Address, b: Address)
    requires a.ip == b.ip && a.role == b.role && forall g :: Field(b, g) != "" ==> Field(a, g) != ""
    ensures FillGaps(a, b) == a
  {
    assert Field(b, Interface) != "" ==> Field(a, Interface) != "";
    assert Field(b, Network) != "" ==> Field(a, Network) != "";
    assert Field(b, NetworkUUID) != "" ==> Field(a, NetworkUUID) != "";
    assert Field(b, VRF) != "" ==> Field(a, VRF) != "";
    assert Field(b, VRFUUID) != "" ==> Field(a, VRFUUID) != "";
    assert Field(b, CIDR) != "" ==> Field(a, CIDR) != "";
    assert Field(b, MAC) != "" ==> Field(a, MAC) != "";
  }

  /** A record that covers all later sightings of its role only gives way to a better role. */
  lemma StaysAgainst(a: Address, c: Address)
    requires KnownRole(a) && KnownRole(c)
    requires (c.role == MANAGEMENT ==> a.role == MANAGEMENT) && (c.role == a.role ==> Covers(a, c))
    ensures Prefer(a, c.(ip := a.ip)) == a
  {
    var b := c.(ip := a.ip);
    PreferredRole(a, b);
    if c.role == a.role {
      assert forall g :: Field(b, g) == Field(c, g) by {
        forall g ensures Field(b, g) == Field(c, g) {
          FieldOfCandidate(c, a.ip, g);
        }
      }
      hide Score, Key, Less, FillGaps, Field;
      CoveringScore(a, b);
      EachField(a, b);
    }
  }

  lemma {:induction false} CoveringStays(net: Net, book: Book, cs: seq<Address>, ip: string)
    requires ip in book && book[ip].ip == ip && KnownRole(book[ip])
    requires forall c :: c in cs && net.normalize(c.ip) == Some(ip) ==>
               KnownRole(c) && (c.role == MANAGEMENT ==> book[ip].role == MANAGEMENT) && (c.role == book[ip].role ==> Covers(book[ip], c))
    ensures ip in NotedAll(net, book, cs) && NotedAll(net, book, cs)[ip] == book[ip]
  {
    hide Covers, Prefer, KnownRole;
    if cs != [] {
      var n := |cs| - 1;
      CoveringStays(net, book, cs[..n], ip);
      if net.normalize(cs[n].ip) == Some(ip) {
        StaysAgainst(book[ip], cs[n]);
      }
    }
  }

  /** The sightings that count and lack the field. */
  ghost function Lacking(net: Net, cs: seq<Address>, ip: string, f: FieldName, from: seq<Address>): (r: seq<Address>)
    ensures forall c :: c in r <==> c in from && Counts(net, cs, ip, c) && Field(c, f) == ""
  {
    if from == [] then []
    else Lacking(net, cs, ip, f, from[1..]) + if Counts(net, cs, ip, from[0]) && Field(from[0], f) == "" then [from[0]] else []
  }

  /** The sighting c first, completed by those that lack the field that it has. */
  ghost function Led(net: Net, cs: seq<Address>, ip: string, f: FieldName, c: Address): (r: seq<Address>)
    ensures forall d :: d in r <==> d == c || (d in cs && Counts(net, cs, ip, d) && Field(d, f) == "")
  {
    [c] + Lacking(net, cs, ip, f, cs)
  }

  lemma LedRole(net: Net, cs: seq<Address>, ip: string, f: FieldName, c: Address)
    requires KnownRoles(cs) && Counts(net, cs, ip, c)
    ensures var led := Led(net, cs, ip, f, c);
            && ip in BookOf(net, led)
            && BookOf(net, led)[ip].ip == ip
            && BookOf(net, led)[ip].role == WinningRole(net, cs, ip)
            && forall g :: ExactField(net, led, ip, BookOf(net, led)[ip], g)
  {
    hide BookOf, Led, Field, ExactField;
    var led := Led(net, cs, ip, f, c);
    var role := WinningRole(net, cs, ip);
    forall d | d in led ensures KnownRole(d) && Sights(net, d, ip, role) {
    }
    assert c in led;
    assert Sighted(net, led, ip, role);
    assert MANAGEMENT != DATA;
    BookIsExact(net, led, ip);
    assert role == DATA ==> !Sighted(net, led, ip, MANAGEMENT);
    KnownRoleOfRecord(net, led, ip, BookOf(net, led));
  }

  lemma LedValue(net: Net, cs: seq<Address>, ip: string, f: FieldName, c: Address, a: Address)
    requires Counts(net, cs, ip, c) && Field(c, f) != "" && a.role == WinningRole(net, cs, ip)
    requires ExactField(net, Led(net, cs, ip, f, c), ip, a, f)
    ensures Field(a, f) == Field(c, f)
  {
    hide Led, Field, Sights, WinningRole;
    var led := Led(net, cs, ip, f, c);
    assert c in led;
    assert HasField(net, led, ip, a.role, f);
    var e :| e in led && Sights(net, e, ip, a.role) && Field(e, f) == Field(a, f);
  }

  lemma LedHas(net: Net, cs: seq<Address>, ip: string, f: FieldName, c: Address, a: Address, g: FieldName)
    requires HadWithout(net, cs, ip, g, f) && a.role == WinningRole(net, cs, ip)
    requires ExactField(net, Led(net, cs, ip, f, c), ip, a, g)
    ensures Field(a, g) != ""
  {
    hide Led, Field, Sights, WinningRole;
    var led := Led(net, cs, ip, f, c);
    var d :| Counts(net, cs, ip, d) && Field(d, f) == "" && Field(d, g) != "";
    assert d in led;
    assert HasField(net, led, ip, a.role, g);
  }

  /** Their record has all fields there are, and this field from the first. */
  lemma LeaderCompletes(net: Net, cs: seq<Address>, ip: string, f: FieldName, c: Address)
    requires KnownRoles(cs) && Scattered(net, cs, ip, f) && Counts(net, cs, ip, c) && Field(c, f) != ""
    ensures var led := Led(net, cs, ip, f, c);
            && ip in BookOf(net, led)
            && BookOf(net, led)[ip].ip == ip
            && BookOf(net, led)[ip].role == WinningRole(net, cs, ip)
            && HasAll(net, cs, ip, BookOf(net, led)[ip])
            && Field(BookOf(net, led)[ip], f) == Field(c, f)
  {
    hide BookOf, Led, Field, WinningRole, KnownRoles, ExactField, Counts, Had, HadWithout;
    LedRole(net, cs, ip, f, c);
    var a := BookOf(net, Led(net, cs, ip, f, c))[ip];
    assert ExactField(net, Led(net, cs, ip, f, c), ip, a, f);
    LedValue(net, cs, ip, f, c, a);
    forall g | Had(net, cs, ip, g) ensures Field(a, g) != "" {
      if g != f {
        assert ExactField(net, Led(net, cs, ip, f, c), ip, a, g);
        LedHas(net, cs, ip, f, c, a, g);
      }
    }
  }

  lemma HadBy(net: Net, cs: seq<Address>, ip: string, d: Address, g: FieldName)
    requires Counts(net, cs, ip, d) && Field(d, g) != ""
    ensures Had(net, cs, ip, g)
  {
    hide Counts, Field;
  }

  lemma CoversCounting(net: Net, cs: seq<Address>, ip: string, f: FieldName, a: Address, d: Address)
    requires Scattered(net, cs, ip, f) && HasAll(net, cs, ip, a) && Counts(net, cs, ip, d)
    ensures Covers(a, d)
  {
    hide Field, Counts, Had, HadWithout;
    forall g | Field(d, g) != "" ensures Field(a, g) != "" {
      HadBy(net, cs, ip, d, g);
    }
    assert !HasAll(net, cs, ip, d);
    var g :| Had(net, cs, ip, g) && Field(d, g) == "";
    assert Field(a, g) != "";
  }

  /** Nothing sighted beats a record in the winning role that has all fields there are. */
  lemma NothingBeats(net: Net, cs: seq<Address>, ip: string, f: FieldName, a: Address, d: Address)
    requires KnownRoles(cs) && Scattered(net, cs, ip, f) && HasAll(net, cs, ip, a) && a.role == WinningRole(net, cs, ip)
    requires d in cs && net.normalize(d.ip) == Some(ip)
    ensures KnownRole(d) && (d.role == MANAGEMENT ==> a.role == MANAGEMENT) && (d.role == a.role ==> Covers(a, d))
  {
    hide Scattered, HasAll, Covers;
    if d.role == MANAGEMENT {
      assert Sights(net, d, ip, MANAGEMENT);
    }
    if d.role == a.role {
      CoversCounting(net, cs, ip, f, a, d);
    }
  }

  /** The other sightings: those that have the field or do not count. */
  ghost function Others(net: Net, cs: seq<Address>, ip: string, f: FieldName, from: seq<Address>): seq<Address> {
    if from == [] then []
    else Others(net, cs, ip, f, from[1..]) + if Counts(net, cs, ip, from[0]) && Field(from[0], f) == "" then [] else [from[0]]
  }

  lemma {:induction false} LackingAndOthers(net: Net, cs: seq<Address>, ip: string, f: FieldName, from: seq<Address>)
    ensures multiset(Lacking(net, cs, ip, f, from)) + multiset(Others(net, cs, ip, f, from)) == multiset(from)
  {
    hide Counts, Field;
    if from != [] {
      LackingAndOthers(net, cs, ip, f, from[1..]);
      assert from == [from[0]] + from[1..];
    }
  }

  lemma WithoutOne(s: seq<Address>, c: Address) returns (rest: seq<Address>)
    requires c in s
    ensures multiset(rest) + multiset{c} == multiset(s)
  {
    var i :| 0 <= i < |s| && s[i] == c;
    rest := s[..i] + s[i + 1..];
    assert s == s[..i] + [c] + s[i + 1..];
  }

  /** The sightings can be reordered so that c leads and those follow that lack the field. */
  lemma LedFirst(net: Net, cs: seq<Address>, ip: string, f: FieldName, c: Address) returns (rest: seq<Address>)
    requires Counts(net, cs, ip, c) && Field(c, f) != ""
    ensures multiset(Led(net, cs, ip, f, c) + rest) == multiset(cs)
    ensures forall d :: d in rest ==> d in cs
  {
    var lacking, others := Lacking(net, cs, ip, f, cs), Others(net, cs, ip, f, cs);
    LackingAndOthers(net, cs, ip, f, cs);
    assert c in multiset(cs) && c !in lacking;
    assert c in others by { assert c in multiset(others); }
    rest := WithoutOne(others, c);
    forall d | d in rest ensures d in cs {
      assert d in multiset(rest);
      assert d in multiset(cs);
    }
  }

  /** Any of the values that count can be had by noting its sighting first. */
  lemma LeaderPrevails(net: Net, cs: seq<Address>, ip: string, f: FieldName, c: Address) returns (order: seq<Address>)
    requires KnownRoles(cs) && Scattered(net, cs, ip, f) && Counts(net, cs, ip, c) && Field(c, f) != ""
    ensures multiset(order) == multiset(cs) && ValueOf(net, order, ip, f) == Field(c, f)
  {
    hide NotedAll, Field, Led, HasAll, Scattered, Covers, Sights, WinningRole, KnownRole;
    var led := Led(net, cs, ip, f, c);
    var rest := LedFirst(net, cs, ip, f, c);
    order := led + rest;
    LeaderCompletes(net, cs, ip, f, c);
    NotedAllAppend(net, map[], led, rest);
    var book := BookOf(net, led);
    forall d | d in rest && net.normalize(d.ip) == Some(ip)
      ensures KnownRole(d) && (d.role == MANAGEMENT ==> book[ip].role == MANAGEMENT) && (d.role == book[ip].role ==> Covers(book[ip], d))
    {
      NothingBeats(net, cs, ip, f, book[ip], d);
    }
    WinningRoleKnown(net, cs, ip, book[ip]);
    CoveringStays(net, book, rest, ip);
  }

  lemma WinningRoleKnown(net: Net, cs: seq<Address>, ip: string, a: Address)
    requires a.role == WinningRole(net, cs, ip)
    ensures KnownRole(a)
  {
  }

  /** Among scattered sightings a field's value is the same in every order of them exactly if those that
      count agree on it. */
  lemma ValuesIgnoreOrderExactly(net: Net, cs: seq<Address>, ip: string, f: FieldName)
    requires KnownRoles(cs) && Scattered(net, cs, ip, f)
    ensures OrderFree(net, cs, ip, f) <==> AgreedOn(net, cs, ip, f)
  {
    hide BookOf, ValueOf, Field, Sights, Led, Scattered, KnownRoles, SameSightings;
    if AgreedOn(net, cs, ip, f) {
      forall other | multiset(other) == multiset(cs) ensures ValueOf(net, other, ip, f) == ValueOf(net, cs, ip, f) {
        ReorderedSightings(cs, other);
        AgreedValuesIgnoreOrder(net, cs, other, ip, f);
      }
    }
    if OrderFree(net, cs, ip, f) {
      forall c, d | Counts(net, cs, ip, c) && Counts(net, cs, ip, d) && Field(c, f) != "" && Field(d, f) != ""
        ensures Field(c, f) == Field(d, f)
      {
        var one := LeaderPrevails(net, cs, ip, f, c);
        var two := LeaderPrevails(net, cs, ip, f, d);
      }
    }
  }

  lemma ReorderedSightings(a: seq<Address>, b: seq<Address>)
    requires multiset(b) == multiset(a)
    ensures SameSightings(a, b)
  {
    forall c ensures c in a <==> c in b {
      assert c in a <==> c in multiset(a);
      assert c in b <==> c in multiset(b);
    }
  }

  // ---- and where they do depend on it ----

  const PLAIN := Net(s => Some(s), _ => 32, (s, n) => s)
  const SEEN := [VNICNetwork("10.0.0.1", None)]
  const VNIC_P := VNIC("x", "", "", "", "", false, SEEN, [])
  const VNIC_Q := VNIC("", "n", "u", "", "m", false, SEEN, [])
  const VNIC_R := VNIC("z", "", "", "", "", false, SEEN, [])
  const SIGHTING_P := Address("10.0.0.1", DATA, "x", "", "", "", "", "", "")
  const SIGHTING_Q := Address("10.0.0.1", DATA, "", "n", "u", "", "", "", "m")
  const SIGHTING_R := Address("10.0.0.1", DATA, "z", "", "", "", "", "", "")

  function OnlyData(vnics: seq<VNIC>): SEConfig {
    SEConfig(None, None, None, vnics)
  }

  /** The one with more fields wins, takes the first interface it meets, and keeps it. */
  lemma FirstThenQ(first: Address, last: Address)
    requires first.ip == last.ip == SIGHTING_Q.ip && first.role == last.role == DATA && first.iface != "" && last.iface != ""
    requires Score(first) == Score(last) == 1
    ensures Prefer(first, SIGHTING_Q) == SIGHTING_Q.(iface := first.iface)
    ensures Prefer(SIGHTING_Q.(iface := first.iface), last) == SIGHTING_Q.(iface := first.iface)
  {
    hide Key, Less;
  }

  lemma BookOfThree(a: Address, b: Address, c: Address)
    requires a.ip == b.ip == c.ip
    ensures a.ip in BookOf(PLAIN, [a, b, c])
    ensures Prefer(a, b).ip == a.ip ==> BookOf(PLAIN, [a, b, c])[a.ip] == Prefer(Prefer(a, b), c)
  {
    hide Prefer;
    assert [a, b, c][..2] == [a, b] && [a, b][..1] == [a] && [a][..0] == [];
    assert a.(ip := a.ip) == a && b.(ip := a.ip) == b && c.(ip := a.ip) == c;
    assert NotedAll(PLAIN, map[], [a]) == map[a.ip := a];
    assert NotedAll(PLAIN, map[], [a, b]) == map[a.ip := Prefer(a, b)];
  }

  /** An interface with a single address and no VLAN is one sighting. */
  lemma OneSighting(vnic: VNIC)
    requires vnic.networks == SEEN && vnic.vlans == []
    ensures FromVNIC(PLAIN, vnic, DATA) == [FromNetwork(PLAIN, SEEN[0], LinkOf(vnic, DATA))]
  {
    hide LinkOf, FromNetwork;
    var link := LinkOf(vnic, DATA);
    assert |SEEN| == 1 && SEEN[..0] == [];
    assert FromNetworks(PLAIN, SEEN, link) == FromNetworks(PLAIN, SEEN[..0], link) + [FromNetwork(PLAIN, SEEN[0], link)];
  }

  lemma SightingsOfVNICs()
    ensures FromVNIC(PLAIN, VNIC_P, DATA) == [SIGHTING_P]
    ensures FromVNIC(PLAIN, VNIC_Q, DATA) == [SIGHTING_Q]
    ensures FromVNIC(PLAIN, VNIC_R, DATA) == [SIGHTING_R]
  {
    hide FromVNIC, Markers.RefName, Markers.RefUUID;
    Markers.RefUUIDUnchanged("");
    Markers.RefUUIDUnchanged("u");
    Markers.NoRefName("");
    OneSighting(VNIC_P);
    OneSighting(VNIC_Q);
    OneSighting(VNIC_R);
  }

  lemma ThreeVNICs(a: VNIC, b: VNIC, c: VNIC)
    requires !a.isMgmt && !b.isMgmt && !c.isMgmt
    ensures Candidates(PLAIN, OnlyData([a, b, c])) == FromVNIC(PLAIN, a, DATA) + FromVNIC(PLAIN, b, DATA) + FromVNIC(PLAIN, c, DATA)
  {
    hide FromVNIC;
    assert [a, b, c][..2] == [a, b] && [a, b][..1] == [a] && [a][..0] == [];
    assert FromDataVNICs(PLAIN, [a]) == FromVNIC(PLAIN, a, DATA);
    assert FromDataVNICs(PLAIN, [a, b]) == FromVNIC(PLAIN, a, DATA) + FromVNIC(PLAIN, b, DATA);
  }

  /** The same three data interfaces configured in another order give the address another interface. */
  lemma ValuesDependOnOrder()
    ensures var ip := "10.0.0.1";
            && ValueOf(PLAIN, Candidates(PLAIN, OnlyData([VNIC_P, VNIC_Q, VNIC_R])), ip, Interface) == "x"
            && ValueOf(PLAIN, Candidates(PLAIN, OnlyData([VNIC_R, VNIC_Q, VNIC_P])), ip, Interface) == "z"
  {
    hide Prefer, BookOf, FromVNIC, Candidates;
    SightingsOfVNICs();
    ThreeVNICs(VNIC_P, VNIC_Q, VNIC_R);
    ThreeVNICs(VNIC_R, VNIC_Q, VNIC_P);
    FirstThenQ(SIGHTING_P, SIGHTING_R);
    FirstThenQ(SIGHTING_R, SIGHTING_P);
    BookOfThree(SIGHTING_P, SIGHTING_Q, SIGHTING_R);
    BookOfThree(SIGHTING_R, SIGHTING_Q, SIGHTING_P);
    assert Candidates(PLAIN, OnlyData([VNIC_P, VNIC_Q, VNIC_R])) == [SIGHTING_P, SIGHTING_Q, SIGHTING_R];
    assert Candidates(PLAIN, OnlyData([VNIC_R, VNIC_Q, VNIC_P])) == [SIGHTING_R, SIGHTING_Q, SIGHTING_P];
  }

  // ---- serviceEngineAddresses ----

  class AddressBook {
    var byIP: Book

    constructor ()
      ensures byIP == map[]
    {
      byIP := map[];
    }

    method Add(net: Net, c: Address)
      modifies this
      ensures byIP == Noted(net, old(byIP), c)
    {
      hide Prefer;
      var parsed := net.normalize(c.ip);
      if parsed.None? {
        return;
      }
      var candidate := c.(ip := parsed.value);
      if candidate.ip in byIP {
        candidate := PreferAddress(byIP[candidate.ip], candidate);
      }
      byIP := byIP[parsed.value := candidate];
    }

    method AddNetworks(net: Net, networks: seq<VNICNetwork>, link: Link)
      modifies this
      ensures byIP == NotedAll(net, old(byIP), FromNetworks(net, networks, link))
    {
      hide Noted, FromNetwork;
      for i := 0 to |networks|
        invariant byIP == NotedAll(net, old(byIP), FromNetworks(net, networks[..i], link))
      {
        assert networks[..i + 1][..i] == networks[..i];
        ghost var before := FromNetworks(net, networks[..i], link);
        assert (before + [FromNetwork(net, networks[i], link)])[..|before|] == before;
        Add(net, FromNetwork(net, networks[i], link));
      }
      assert networks[..|networks|] == networks;
    }

    static method VLANLink(vlan: VLAN, link: Link) returns (vlanLink: Link)
      ensures vlanLink == LinkOfVLAN(vlan, link)
    {
      hide Markers.RefName, Markers.RefUUID;
      vlanLink := link;
      if vlan.isMgmt {
        vlanLink := vlanLink.(role := "management");
      }
      if vlan.ifName != "" {
        vlanLink := vlanLink.(ifName := vlan.ifName);
      }
      var name, uuid := Markers.RefName(vlan.vrfRef), Markers.RefUUID(vlan.vrfRef);
      if !(name == "" && uuid == "") {
        vlanLink := vlanLink.(vrf := name, vrfUUID := uuid);
      }
    }

    method AddVLANs(net: Net, vlans: seq<VLAN>, link: Link)
      modifies this
      ensures byIP == NotedAll(net, old(byIP), FromVLANs(net, vlans, link))
    {
      hide NotedAll, FromNetworks, LinkOfVLAN;
      NotedNone(net, byIP);
      for i := 0 to |vlans|
        invariant byIP == NotedAll(net, old(byIP), FromVLANs(net, vlans[..i], link))
      {
        var vlanLink := VLANLink(vlans[i], link);
        assert vlans[..i + 1][..i] == vlans[..i];
        NotedAllAppend(net, old(byIP), FromVLANs(net, vlans[..i], link), FromNetworks(net, vlans[i].networks, vlanLink));
        AddNetworks(net, vlans[i].networks, vlanLink);
      }
      assert vlans[..|vlans|] == vlans;
    }

    method CollectVNICAddresses(net: Net, vnic: VNIC, role: string)
      modifies this
      ensures byIP == NotedAll(net, old(byIP), FromVNIC(net, vnic, role))
    {
      hide NotedAll, FromNetworks, FromVLANs, Markers.RefName, Markers.RefUUID;
      var networkName := vnic.networkName;
      if networkName == "" {
        networkName := Markers.RefName(vnic.networkRef);
      }
      var link := Link(role, vnic.ifName, networkName, Markers.RefUUID(vnic.networkRef),
                       Markers.RefName(vnic.vrfRef), Markers.RefUUID(vnic.vrfRef), vnic.macAddress);
      assert link == LinkOf(vnic, role);
      NotedAllAppend(net, byIP, FromNetworks(net, vnic.networks, link), FromVLANs(net, vnic.vlans, link));
      AddNetworks(net, vnic.networks, link);
      AddVLANs(net, vnic.vlans, link);
    }

    method AddMgmtIP(net: Net, ip: Option<string>)
      modifies this
      ensures byIP == NotedAll(net, old(byIP), FromMgmtIP(ip))
    {
      hide Noted;
      if ip.Some? {
        assert [Bare(ip.value)][..0] == [];
        Add(net, Bare(ip.value));
      }
    }

    method AddDataVNICs(net: Net, vnics: seq<VNIC>)
      modifies this
      ensures byIP == NotedAll(net, old(byIP), FromDataVNICs(net, vnics))
    {
      hide NotedAll, FromVNIC;
      assert NotedAll(net, byIP, []) == byIP by { NotedNone(net, byIP); }
      for i := 0 to |vnics|
        invariant byIP == NotedAll(net, old(byIP), FromDataVNICs(net, vnics[..i]))
      {
        var role := "data";
        if vnics[i].isMgmt {
          role := "management";
        }
        assert vnics[..i + 1][..i] == vnics[..i];
        NotedAllAppend(net, old(byIP), FromDataVNICs(net, vnics[..i]), FromVNIC(net, vnics[i], role));
        CollectVNICAddresses(net, vnics[i], role);
      }
      assert vnics[..|vnics|] == vnics;
    }

    method AddAll(net: Net, item: SEConfig)
      modifies this
      ensures byIP == NotedAll(net, old(byIP), Candidates(net, item))
    {
      hide NotedAll, FromVNIC, FromDataVNICs, FromMgmtIP;
      ghost var mgmt := FromMgmtIP(item.mgmtIP) + FromMgmtIP(item.mgmtIP6);
      ghost var vnic := if item.mgmtVNIC.Some? then FromVNIC(net, item.mgmtVNIC.value, MANAGEMENT) else [];
      NotedAllAppend(net, byIP, FromMgmtIP(item.mgmtIP), FromMgmtIP(item.mgmtIP6));
      NotedAllAppend(net, byIP, mgmt, vnic);
      NotedAllAppend(net, byIP, mgmt + vnic, FromDataVNICs(net, item.dataVNICs));
      AddMgmtIP(net, item.mgmtIP);
      AddMgmtIP(net, item.mgmtIP6);
      if item.mgmtVNIC.Some? {
        CollectVNICAddresses(net, item.mgmtVNIC.value, "management");
      } else {
        NotedNone(net, byIP);
      }
      AddDataVNICs(net, item.dataVNICs);
    }
  }

  lemma NotedNone(net: Net, book: Book)
    ensures NotedAll(net, book, []) == book
  {
  }

  lemma {:induction false} NetworksKnown(net: Net, ns: seq<VNICNetwork>, link: Link)
    requires link.role == MANAGEMENT || link.role == DATA
    ensures KnownRoles(FromNetworks(net, ns, link))
  {
    hide NormalizedCIDR;
    if ns != [] {
      NetworksKnown(net, ns[..|ns| - 1], link);
    }
  }

  lemma {:induction false} VLANsKnown(net: Net, vlans: seq<VLAN>, link: Link)
    requires link.role == MANAGEMENT || link.role == DATA
    ensures KnownRoles(FromVLANs(net, vlans, link))
  {
    hide FromNetworks, KnownRole, Markers.RefName, Markers.RefUUID;
    if vlans != [] {
      var n := |vlans| - 1;
      VLANsKnown(net, vlans[..n], link);
      NetworksKnown(net, vlans[n].networks, LinkOfVLAN(vlans[n], link));
    }
  }

  lemma VNICKnown(net: Net, vnic: VNIC, role: string)
    requires role == MANAGEMENT || role == DATA
    ensures KnownRoles(FromVNIC(net, vnic, role))
  {
    hide FromNetworks, FromVLANs, KnownRole, Markers.RefName, Markers.RefUUID;
    NetworksKnown(net, vnic.networks, LinkOf(vnic, role));
    VLANsKnown(net, vnic.vlans, LinkOf(vnic, role));
  }

  lemma {:induction false} DataVNICsKnown(net: Net, vnics: seq<VNIC>)
    ensures KnownRoles(FromDataVNICs(net, vnics))
  {
    hide FromVNIC, KnownRole;
    if vnics != [] {
      var n := |vnics| - 1;
      DataVNICsKnown(net, vnics[..n]);
      VNICKnown(net, vnics[n], DataRole(vnics[n]));
    }
  }

  /** Every sighting is in one of the two roles. */
  lemma CandidatesKnown(net: Net, item: SEConfig)
    ensures KnownRoles(Candidates(net, item))
  {
    DataVNICsKnown(net, item.dataVNICs);
    if item.mgmtVNIC.Some? {
      VNICKnown(net, item.mgmtVNIC.value, MANAGEMENT);
    }
    hide FromVNIC, FromDataVNICs;
  }

  /** The records of the book in order of their addresses. */
  method SortedRecords(book: Book) returns (out: seq<Address>)
    requires forall ip :: ip in book ==> book[ip].ip == ip
    ensures forall i, j :: 0 <= i < j < |out| ==> Less(out[i].ip, out[j].ip)
    ensures forall a :: a in out <==> a.ip in book && book[a.ip] == a
  {
    hide Less;
    var ips: seq<string> := [];
    var todo := book.Keys;
    while todo != {}
      invariant StrictlySorted(ips) && todo <= book.Keys
      invariant forall ip :: ip in ips <==> ip in book && ip !in todo
      decreases |todo|
    {
      var ip :| ip in todo;
      InsertSorted(ip, ips);
      ips := Insert(ip, ips);
      todo := todo - {ip};
    }
    out := [];
    for i := 0 to |ips|
      invariant |out| == i && forall j :: 0 <= j < i ==> out[j] == book[ips[j]]
    {
      assert ips[i] in ips;
      out := out + [book[ips[i]]];
    }
    forall j | 0 <= j < |out| ensures out[j].ip == ips[j] {
      assert ips[j] in ips;
    }
    forall a: Address | a.ip in book && book[a.ip] == a ensures a in out {
      var j :| 0 <= j < |ips| && ips[j] == a.ip;
      assert out[j] == a;
    }
    forall a | a in out ensures a.ip in book && book[a.ip] == a {
      var j :| 0 <= j < |out| && out[j] == a;
      assert ips[j] in ips;
    }
  }

  /** The configuration has a sighting of this address in this role. */
  ghost predicate SeenAs(net: Net, item: SEConfig, ip: string, role: string, c: Address) {
    IsSighting(net, item, c) && net.normalize(c.ip) == Some(ip) && c.role == role
  }

  /** Management exactly if some sighting of the address is, with each field filled exactly if some
      sighting in the record's role has it, and then from such a sighting. */
  ghost predicate RecordOf(net: Net, item: SEConfig, a: Address) {
    && (exists c :: SeenAs(net, item, a.ip, a.role, c))
    && (a.role == "management" || (a.role == "data" && forall c :: !SeenAs(net, item, a.ip, "management", c)))
    && forall f :: FieldOf(net, item, a, f)
  }

  ghost predicate FieldOf(net: Net, item: SEConfig, a: Address, f: FieldName) {
    if Field(a, f) == "" then forall c :: SeenAs(net, item, a.ip, a.role, c) ==> Field(c, f) == ""
    else exists c :: SeenAs(net, item, a.ip, a.role, c) && Field(c, f) == Field(a, f)
  }

  /** One record per address of the configuration that parses, also of its VLANs, strictly sorted, each
      what its sightings say. */
  method ServiceEngineAddresses(net: Net, item: SEConfig) returns (out: seq<Address>)
    ensures forall i, j :: 0 <= i < j < |out| ==> Less(out[i].ip, out[j].ip)
    ensures forall c :: IsSighting(net, item, c) && net.normalize(c.ip).Some? ==>
              exists a :: a in out && a.ip == net.normalize(c.ip).value
    ensures forall a :: a in out ==> RecordOf(net, item, a)
  {
    var book := new AddressBook();
    var cs := Candidates(net, item);
    CandidatesKnown(net, item);
    book.AddAll(net, item);
    hide Candidates, BookOf, KnownRoles, Less, IsSighting;
    forall ip ensures Exact(net, cs, ip, book.byIP) {
      BookIsExact(net, cs, ip);
    }
    forall ip | ip in book.byIP ensures book.byIP[ip].ip == ip {
      KnownRoleOfRecord(net, cs, ip, book.byIP);
    }
    out := SortedRecords(book.byIP);
    forall a | a in out ensures RecordOf(net, item, a) {
      ExactRecord(net, cs, a, book.byIP);
      RecordOfSightings(net, item, a);
    }
    forall c | IsSighting(net, item, c) && net.normalize(c.ip).Some? ensures exists a :: a in out && a.ip == net.normalize(c.ip).value {
      var ip := net.normalize(c.ip).value;
      SightingsExactly(net, item, c);
      ListedIfSighted(net, cs, ip, book.byIP);
      hide Exact;
      assert book.byIP[ip] in out;
    }
  }

  lemma RecordOfSightings(net: Net, item: SEConfig, a: Address)
    requires RecordExact(net, Candidates(net, item), a)
    ensures RecordOf(net, item, a)
  {
    hide Candidates, IsSighting, Field;
    var cs := Candidates(net, item);
    forall c, role ensures SeenAs(net, item, a.ip, role, c) <==> c in cs && Sights(net, c, a.ip, role) {
      SightingsExactly(net, item, c);
    }
    hide SeenAs, Sights;
    forall f ensures FieldOf(net, item, a, f) {
      assert ExactField(net, cs, a.ip, a, f);
    }
  }

  ghost predicate RecordExact(net: Net, cs: seq<Address>, a: Address) {
    && KnownRole(a)
    && (a.role == MANAGEMENT <==> Sighted(net, cs, a.ip, MANAGEMENT))
    && Sighted(net, cs, a.ip, a.role)
    && forall f :: ExactField(net, cs, a.ip, a, f)
  }

  lemma ExactRecord(net: Net, cs: seq<Address>, a: Address, book: Book)
    requires Exact(net, cs, a.ip, book) && a.ip in book && book[a.ip] == a
    ensures RecordExact(net, cs, a)
  {
    hide Exact, Sighted, ExactField;
    KnownRoleOfRecord(net, cs, a.ip, book);
  }

  lemma ListedIfSighted(net: Net, cs: seq<Address>, ip: string, book: Book)
    requires KnownRoles(cs) && Exact(net, cs, ip, book)
    ensures ip in book <==> exists c :: c in cs && net.normalize(c.ip) == Some(ip)
  {
    hide ExactField;
    if exists c :: c in cs && net.normalize(c.ip) == Some(ip) {
      var c :| c in cs && net.normalize(c.ip) == Some(ip);
      assert KnownRole(c);
      assert Sights(net, c, ip, c.role);
    }
  }
}
