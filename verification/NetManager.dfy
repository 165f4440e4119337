/** The passes that turn network definitions into a guest's network configuration
    (softlayer_ubuntu_net_manager.go and ConfigureNetworks of softlayer_virtual_guest_service_networks.go).
    Every loop over a map takes its entries in any order. */
module NetManager {
  import opened Common
  import opened Decimal
  import opened Networks

  datatype Binding = Binding(kind: string, ip: Option<string>, netmask: string, gateway: string)

  /** `ref` is the identity of the pointer to the id. */
  datatype Vlan = Vlan(ref: nat, id: int)

  datatype Component = Component(
    name: string,
    port: nat,
    primaryIp: string,
    mac: string,
    vlan: Option<Vlan>,
    bindings: seq<Binding>)

  datatype Guest = Guest(backend: Component, frontend: Component)

  datatype Lookup = Unreachable | Absent | Found(guest: Guest)

  datatype Error =
    | GuestUnreachable
    | GuestNotFound
    | VlanNotOnGuest(name: string, vlanId: int)
    | UnexpectedKind(kind: string)
    | MultiplePrivateDynamic
    | MultiplePublicDynamic
    | NetworkNotFound(name: string)
    | NotIndexed(name: string)

  predicate OnVlan(c: Component, id: int) {
    c.vlan.Some? && c.vlan.value.id == id
  }

  // ----- components by network name

  function Pick(g: Guest, nw: Network): Option<Component> {
    if OnVlan(g.backend, nw.cloud.vlanId) then Some(g.backend)
    else if OnVlan(g.frontend, nw.cloud.vlanId) then Some(g.frontend)
    else None
  }

  ghost predicate AllOnGuest(g: Guest, m: map<string, Network>) {
    forall n :: n in m ==> Pick(g, m[n]).Some?
  }

  function Components(g: Guest, m: map<string, Network>): map<string, Component> {
    map n | n in m && Pick(g, m[n]).Some? :: Pick(g, m[n]).value
  }

  method ComponentByNetworkName(g: Guest, nets: NetworkTable) returns (r: Result<map<string, Component>, Error>)
    ensures r.Success? <==> AllOnGuest(g, nets.entries)
    ensures r.Success? ==> r.value == Components(g, nets.entries)
    ensures r.Failure? ==> r.error.VlanNotOnGuest? && r.error.name in nets.entries
    ensures r.Failure? ==> r.error.vlanId == nets.entries[r.error.name].cloud.vlanId
    ensures r.Failure? ==> Pick(g, nets.entries[r.error.name]).None?
  {
    var byName: map<string, Component> := map[];
    var todo := nets.entries.Keys;
    while todo != {}
      invariant todo <= nets.entries.Keys
      invariant byName.Keys == nets.entries.Keys - todo
      invariant forall n :: n in byName ==> Pick(g, nets.entries[n]) == Some(byName[n])
    {
      var name :| name in todo;
      var vlanId := nets.entries[name].cloud.vlanId;
      if g.backend.vlan.Some? && vlanId == g.backend.vlan.value.id {
        byName := byName[name := g.backend];
      } else if g.frontend.vlan.Some? && vlanId == g.frontend.vlan.value.id {
        byName := byName[name := g.frontend];
      } else {
        return Failure(VlanNotOnGuest(name, vlanId));
      }
      todo := todo - {name};
    }
    return Success(byName);
  }

  // ----- normalisation

  predicate KnownKind(kind: string) {
    kind == "dynamic" || kind == "manual" || kind == ""
  }

  ghost predicate AllKnown(m: map<string, Network>) {
    forall n :: n in m ==> KnownKind(m[n].kind)
  }

  function NormalizedNetwork(nw: Network, c: Component): Network {
    if nw.kind == "dynamic" then nw.(ip := c.primaryIp, mac := c.mac) else nw.(kind := "manual")
  }

  function Normalized(g: Guest, m: map<string, Network>): map<string, Network> {
    map n | n in m && Pick(g, m[n]).Some? :: NormalizedNetwork(m[n], Pick(g, m[n]).value)
  }

  method NormalizeNetworkDefinitions(nets: NetworkTable, components: map<string, Component>)
    returns (r: Result<NetworkTable, Error>)
    requires nets.entries.Keys <= components.Keys
    ensures r.Success? <==> AllKnown(nets.entries)
    ensures r.Success? ==> fresh(r.value) && r.value.entries.Keys == nets.entries.Keys
    ensures r.Success? ==> forall n :: n in nets.entries ==>
                             r.value.entries[n] == NormalizedNetwork(nets.entries[n], components[n])
    ensures r.Failure? ==> r.error.UnexpectedKind? && !KnownKind(r.error.kind)
    ensures r.Failure? ==> exists n :: n in nets.entries && nets.entries[n].kind == r.error.kind
  {
    var normalized := new NetworkTable();
    var todo := nets.entries.Keys;
    while todo != {}
      invariant todo <= nets.entries.Keys && fresh(normalized)
      invariant normalized.entries.Keys == nets.entries.Keys - todo
      invariant forall n :: n in normalized.entries ==> KnownKind(nets.entries[n].kind)
      invariant forall n :: n in normalized.entries ==>
                  normalized.entries[n] == NormalizedNetwork(nets.entries[n], components[n])
    {
      var name :| name in todo;
      var nw := nets.entries[name];
      if nw.kind == "dynamic" {
        var c := components[name];
        normalized.entries := normalized.entries[name := nw.(ip := c.primaryIp, mac := c.mac)];
      } else if nw.kind == "manual" || nw.kind == "" {
        normalized.entries := normalized.entries[name := nw.(kind := "manual")];
      } else {
        return Failure(UnexpectedKind(nw.kind));
      }
      todo := todo - {name};
    }
    return Success(normalized);
  }

  // ----- one dynamic network for each of the guest's VLANs

  const GENERATED_PRIVATE: string := "generated-private"
  const GENERATED_PUBLIC: string := "generated-public"

  /** The dynamic networks on a component's VLAN. */
  function Dynamics(c: Component, m: map<string, Network>): set<string> {
    set n | n in m && m[n].kind == "dynamic" && OnVlan(c, m[n].cloud.vlanId)
  }

  ghost predicate AtMostOne(names: set<string>) {
    forall a, b :: a in names && b in names ==> a == b
  }

  function Generated(c: Component): Network
    requires c.vlan.Some?
  {
    Network("dynamic", c.primaryIp, "", "", [], [], "", "", [], CloudProperties(c.vlan.value.id, 0, true))
  }

  predicate LacksPrivate(g: Guest, m: map<string, Network>) {
    Dynamics(g.backend, m) == {}
  }

  predicate LacksPublic(g: Guest, m: map<string, Network>) {
    g.frontend.vlan.Some? && Dynamics(g.frontend, m) == {}
  }

  function WithGenerated(g: Guest, m: map<string, Network>): map<string, Network>
    requires g.backend.vlan.Some?
  {
    var withPrivate := if LacksPrivate(g, m) then m[GENERATED_PRIVATE := Generated(g.backend)] else m;
    if LacksPublic(g, m) then withPrivate[GENERATED_PUBLIC := Generated(g.frontend)] else withPrivate
  }

  /** Inserts into the table it is given; the guest must have a private VLAN. */
  method NormalizeDynamics(g: Guest, nets: NetworkTable) returns (r: Option<Error>)
    requires g.backend.vlan.Some?
    modifies nets
    ensures r.None? <==> AtMostOne(Dynamics(g.backend, old(nets.entries)))
                         && AtMostOne(Dynamics(g.frontend, old(nets.entries)))
    ensures r.None? ==> nets.entries == WithGenerated(g, old(nets.entries))
    ensures r.Some? ==> nets.entries == old(nets.entries)
    ensures r == Some(MultiplePrivateDynamic) ==> !AtMostOne(Dynamics(g.backend, old(nets.entries)))
    ensures r == Some(MultiplePublicDynamic) ==> !AtMostOne(Dynamics(g.frontend, old(nets.entries)))
    ensures r.Some? ==> r.value.MultiplePrivateDynamic? || r.value.MultiplePublicDynamic?
  {
    var privateDynamic: Option<string> := None;
    var publicDynamic: Option<string> := None;
    var todo := nets.entries.Keys;
    while todo != {}
      invariant todo <= nets.entries.Keys && nets.entries == old(nets.entries)
      invariant forall n :: n in Dynamics(g.backend, nets.entries) && n !in todo ==> privateDynamic == Some(n)
      invariant privateDynamic.Some? ==> privateDynamic.value in Dynamics(g.backend, nets.entries) - todo
      invariant forall n :: n in Dynamics(g.frontend, nets.entries) && n !in todo ==> publicDynamic == Some(n)
      invariant publicDynamic.Some? ==> publicDynamic.value in Dynamics(g.frontend, nets.entries) - todo
    {
      var name :| name in todo;
      var nw := nets.entries[name];
      if nw.kind == "dynamic" {
        if g.backend.vlan.Some? && nw.cloud.vlanId == g.backend.vlan.value.id {
          assert name in Dynamics(g.backend, nets.entries);
          if privateDynamic.Some? {
            return Some(MultiplePrivateDynamic);
          }
          privateDynamic := Some(name);
        }
        if g.frontend.vlan.Some? && nw.cloud.vlanId == g.frontend.vlan.value.id {
          assert name in Dynamics(g.frontend, nets.entries);
          if publicDynamic.Some? {
            return Some(MultiplePublicDynamic);
          }
          publicDynamic := Some(name);
        }
      }
      todo := todo - {name};
    }
    if privateDynamic.None? {
      nets.entries := nets.entries[GENERATED_PRIVATE := Generated(g.backend)];
    }
    if publicDynamic.None? && g.frontend.vlan.Some? {
      nets.entries := nets.entries[GENERATED_PUBLIC := Generated(g.frontend)];
    }
    return None;
  }

  // ----- link names

  ghost predicate IsIndexing(indices: map<string, nat>, names: set<string>) {
    && indices.Keys == names
    && (forall n :: n in indices ==> indices[n] < |names|)
    && (forall a, b :: a in indices && b in indices && indices[a] == indices[b] ==> a == b)
  }

  function LinkName(interfaceName: string, index: nat): string {
    interfaceName + ":" + Print(index)
  }

  class IndexedNamer {
    var indices: map<string, nat>

    constructor (nets: NetworkTable)
      ensures IsIndexing(indices, nets.entries.Keys)
    {
      var found: map<string, nat> := map[];
      var index: nat := 0;
      var todo := nets.entries.Keys;
      while todo != {}
        invariant todo <= nets.entries.Keys && index + |todo| == |nets.entries.Keys|
        invariant found.Keys == nets.entries.Keys - todo
        invariant forall n :: n in found ==> found[n] < index
        invariant forall a, b :: a in found && b in found && found[a] == found[b] ==> a == b
      {
        var name :| name in todo;
        found := found[name := index];
        index := index + 1;
        todo := todo - {name};
      }
      indices := found;
    }

    method Name(interfaceName: string, networkName: string) returns (r: Result<string, Error>)
      ensures r == if networkName in indices then Success(LinkName(interfaceName, indices[networkName]))
                   else Failure(NotIndexed(networkName))
    {
      if networkName !in indices {
        return Failure(NotIndexed(networkName));
      }
      return Success(interfaceName + ":" + Print(indices[networkName]));
    }
  }

  // ----- finalisation

  function PrivateRoutes(gateway: string): seq<Route> {
    [Route("10.0.0.0", "255.0.0.0", gateway), Route("161.26.0.0", "255.255.0.0", gateway)]
  }

  predicate Matches(b: Binding, ip: string) {
    b.kind == "PRIMARY" && b.ip == Some(ip)
  }

  /** The two VLAN ids are compared as pointers. */
  predicate IsPrivateSide(g: Guest, c: Component) {
    c.vlan.Some? && g.backend.vlan.Some? && c.vlan.value.ref == g.backend.vlan.value.ref
  }

  function Bound(g: Guest, c: Component, nw: Network, b: Binding): Network {
    if !Matches(b, nw.ip) then nw
    else if IsPrivateSide(g, c) then
      nw.(netmask := b.netmask, gateway := "", mac := c.mac, routes := PrivateRoutes(b.gateway))
    else nw.(netmask := b.netmask, gateway := b.gateway, mac := c.mac)
  }

  function BoundAll(g: Guest, c: Component, nw: Network, bindings: seq<Binding>): Network {
    if bindings == [] then nw
    else Bound(g, c, BoundAll(g, c, nw, bindings[..|bindings| - 1]), bindings[|bindings| - 1])
  }

  function InterfaceName(c: Component): string {
    c.name + Print(c.port)
  }

  function FinalNetwork(g: Guest, c: Component, nw: Network, index: nat): Network {
    var bound := BoundAll(g, c, nw, c.bindings);
    if nw.kind == "dynamic" then bound.(alias := InterfaceName(c))
    else bound.(gateway := "", alias := LinkName(InterfaceName(c), index))
  }

  function Index(indices: map<string, nat>, name: string): nat {
    if name in indices then indices[name] else 0
  }

  function Finalized(g: Guest, m: map<string, Network>, indices: map<string, nat>): map<string, Network> {
    map n | n in m && Pick(g, m[n]).Some? :: FinalNetwork(g, Pick(g, m[n]).value, m[n], Index(indices, n))
  }

  lemma {:induction false} BoundAllKeeps(g: Guest, c: Component, nw: Network, bindings: seq<Binding>)
    ensures BoundAll(g, c, nw, bindings).ip == nw.ip && BoundAll(g, c, nw, bindings).kind == nw.kind
    ensures BoundAll(g, c, nw, bindings).cloud == nw.cloud
  {
    if bindings != [] {
      BoundAllKeeps(g, c, nw, bindings[..|bindings| - 1]);
    }
  }

  method BindAddresses(g: Guest, c: Component, given: Network) returns (nw: Network)
    requires g.backend.vlan.Some? && c.vlan.Some?
    ensures nw == BoundAll(g, c, given, c.bindings)
  {
    nw := given;
    for i := 0 to |c.bindings|
      invariant nw == BoundAll(g, c, given, c.bindings[..i])
    {
      assert c.bindings[..i + 1][..i] == c.bindings[..i];
      var b := c.bindings[i];
      if b.kind == "PRIMARY" {
        if b.ip.Some? && b.ip.value == nw.ip {
          nw := nw.(netmask := b.netmask, gateway := b.gateway, mac := c.mac);
          if c.vlan.value.ref == g.backend.vlan.value.ref {
            nw := nw.(routes := PrivateRoutes(b.gateway), gateway := "");
          }
        }
      }
    }
    assert c.bindings[..|c.bindings|] == c.bindings;
  }

  method FinalizedNetworkDefinitions(g: Guest, nets: NetworkTable, components: map<string, Component>,
                                     namer: IndexedNamer)
    returns (r: Result<NetworkTable, Error>)
    requires g.backend.vlan.Some? && forall n :: n in components ==> components[n].vlan.Some?
    ensures r.Success? <==> forall n :: n in nets.entries ==>
                              n in components && (nets.entries[n].kind != "dynamic" ==> n in namer.indices)
    ensures r.Success? ==> fresh(r.value) && r.value.entries.Keys == nets.entries.Keys
    ensures r.Success? ==> forall n :: n in nets.entries ==>
              r.value.entries[n] == FinalNetwork(g, components[n], nets.entries[n], Index(namer.indices, n))
    ensures r.Failure? ==> r.error.NetworkNotFound? || r.error.NotIndexed?
  {
    var finalized := new NetworkTable();
    var todo := nets.entries.Keys;
    while todo != {}
      invariant todo <= nets.entries.Keys && fresh(finalized)
      invariant finalized.entries.Keys == nets.entries.Keys - todo
      invariant forall n :: n in finalized.entries ==>
                  n in components && (nets.entries[n].kind != "dynamic" ==> n in namer.indices)
      invariant forall n :: n in finalized.entries ==>
                  finalized.entries[n] == FinalNetwork(g, components[n], nets.entries[n], Index(namer.indices, n))
    {
      var name :| name in todo;
      if name !in components {
        return Failure(NetworkNotFound(name));
      }
      var c := components[name];
      var nw := BindAddresses(g, c, nets.entries[name]);
      BoundAllKeeps(g, c, nets.entries[name], c.bindings);
      var alias := c.name + Print(c.port);
      if nw.kind != "dynamic" {
        var linked := namer.Name(alias, name);
        if linked.Failure? {
          return Failure(linked.error);
        }
        alias := linked.value;
        nw := nw.(gateway := "");
      }
      nw := nw.(alias := alias);
      finalized.entries := finalized.entries[name := nw];
      todo := todo - {name};
    }
    return Success(finalized);
  }

  // ----- the composition

  /** What the passes before finalisation make of the definitions. */
  function Prepared(g: Guest, m: map<string, Network>): map<string, Network>
    requires g.backend.vlan.Some?
  {
    WithGenerated(g, Normalized(g, m))
  }

  function Configured(g: Guest, m: map<string, Network>, indices: map<string, nat>): map<string, Network>
    requires g.backend.vlan.Some?
  {
    Finalized(g, Prepared(g, m), indices)
  }

  ghost predicate NoDuplicates(g: Guest, m: map<string, Network>) {
    AtMostOne(Dynamics(g.backend, m)) && AtMostOne(Dynamics(g.frontend, m))
  }

  ghost predicate Configurable(g: Guest, m: map<string, Network>) {
    AllOnGuest(g, m) && AllKnown(m) && NoDuplicates(g, m)
  }

  lemma NormalizedDynamics(g: Guest, m: map<string, Network>, c: Component)
    requires AllOnGuest(g, m)
    ensures Dynamics(c, Normalized(g, m)) == Dynamics(c, m)
  {
  }

  /** Everything prepared is on one of the guest's VLANs, and all but dynamic networks were declared. */
  lemma PreparedIsOnGuest(g: Guest, m: map<string, Network>)
    requires g.backend.vlan.Some? && AllOnGuest(g, m)
    ensures AllOnGuest(g, Prepared(g, m))
    ensures forall n :: n in Prepared(g, m) && Prepared(g, m)[n].kind != "dynamic" ==> n in m
    ensures m.Keys <= Prepared(g, m).Keys
  {
  }

  /** The result for some indexing of the declared names. */
  ghost predicate IsConfigured(g: Guest, m: map<string, Network>, result: map<string, Network>)
    requires g.backend.vlan.Some?
  {
    exists indices :: IsIndexing(indices, m.Keys) && result == Configured(g, m, indices)
  }

  /** The error of the passes after the normalisation can only be a duplicate dynamic network. */
  ghost predicate IsDuplicate(g: Guest, m: map<string, Network>, e: Error) {
    || (e.MultiplePrivateDynamic? && !AtMostOne(Dynamics(g.backend, m)))
    || (e.MultiplePublicDynamic? && !AtMostOne(Dynamics(g.frontend, m)))
  }

  /** The passes up to the first that can meet a duplicate. */
  method PrepareNetworks(g: Guest, nets: NetworkTable) returns (out: NetworkTable?, err: Option<Error>)
    requires g.backend.vlan.Some?
    ensures err.None? <==> Configurable(g, nets.entries)
    ensures err.None? ==> out != null && fresh(out) && out.entries == Prepared(g, nets.entries)
    ensures err.Some? ==> out == if AllOnGuest(g, nets.entries) then null else nets
    ensures !AllOnGuest(g, nets.entries) ==> err.Some? && err.value.VlanNotOnGuest?
    ensures AllOnGuest(g, nets.entries) && !AllKnown(nets.entries) ==> err.Some? && err.value.UnexpectedKind?
    ensures err.Some? && AllOnGuest(g, nets.entries) && AllKnown(nets.entries) ==>
              IsDuplicate(g, nets.entries, err.value)
  {
    var components := ComponentByNetworkName(g, nets);
    if components.Failure? {
      return nets, Some(components.error);
    }
    var normalized := NormalizeNetworkDefinitions(nets, components.value);
    if normalized.Failure? {
      return null, Some(normalized.error);
    }
    var table := normalized.value;
    assert table.entries == Normalized(g, nets.entries);
    NormalizedDynamics(g, nets.entries, g.backend);
    NormalizedDynamics(g, nets.entries, g.frontend);
    err := NormalizeDynamics(g, table);
    out := if err.Some? then null else table;
  }

  /** ConfigureNetworks succeeds exactly on definitions whose VLANs the guest has, whose kinds are known
      and which have no two dynamic networks on one VLAN; a pass after the normalisation fails only for
      such a duplicate. The caller's table is not changed; it is what comes back if the guest or one of
      the VLANs is not found, and nothing comes back with any other error. */
  method ConfigureNetworks(lookup: Lookup, nets: NetworkTable) returns (out: NetworkTable?, err: Option<Error>)
    requires lookup.Found? ==> lookup.guest.backend.vlan.Some?
    ensures err.None? <==> lookup.Found? && Configurable(lookup.guest, nets.entries)
    ensures err.None? ==> out != null && fresh(out) && IsConfigured(lookup.guest, nets.entries, out.entries)
    ensures err.Some? ==> out == if lookup.Found? && AllOnGuest(lookup.guest, nets.entries) then null else nets
    ensures !lookup.Found? ==> err == Some(if lookup.Unreachable? then GuestUnreachable else GuestNotFound)
    ensures lookup.Found? && !AllOnGuest(lookup.guest, nets.entries) ==> err.Some? && err.value.VlanNotOnGuest?
    ensures lookup.Found? && AllOnGuest(lookup.guest, nets.entries) && !AllKnown(nets.entries) ==>
              err.Some? && err.value.UnexpectedKind?
    ensures err.Some? && lookup.Found? && AllOnGuest(lookup.guest, nets.entries) && AllKnown(nets.entries) ==>
              IsDuplicate(lookup.guest, nets.entries, err.value)
  {
    if lookup.Unreachable? {
      return nets, Some(GuestUnreachable);
    }
    if lookup.Absent? {
      return nets, Some(GuestNotFound);
    }
    var g := lookup.guest;
    var namer := new IndexedNamer(nets);
    out, err := PrepareNetworks(g, nets);
    if err.None? {
      PreparedIsOnGuest(g, nets.entries);
      var components := ComponentByNetworkName(g, out);
      var final := FinalizedNetworkDefinitions(g, out, components.value, namer);
      out := final.value;
      assert out.entries == Configured(g, nets.entries, namer.indices);
    }
  }
}
