/** What a successful ConfigureNetworks guarantees, across all its passes and for every indexing of
    the link names, that is for every order in which the maps are visited. */
module NetProperties {
  import opened Common
  import opened Decimal
  import opened Text
  import opened Networks
  import opened NetManager

  ghost predicate DistinctVlans(g: Guest) {
    g.frontend.vlan.Some? && g.backend.vlan.Some? ==> g.frontend.vlan.value.id != g.backend.vlan.value.id
  }

  /** Two ids that were decoded separately are two pointers. */
  ghost predicate DistinctPointers(g: Guest) {
    g.frontend.vlan.Some? && g.backend.vlan.Some? ==> g.frontend.vlan.value.ref != g.backend.vlan.value.ref
  }

  // ----- declared networks are kept

  predicate Overwrites(g: Guest, m: map<string, Network>) {
    || (LacksPrivate(g, m) && GENERATED_PRIVATE in m)
    || (LacksPublic(g, m) && GENERATED_PUBLIC in m)
  }

  /** The result still is the declared network: its kind, VLAN, DNS servers and defaults, and unless it is
      dynamic its address. */
  predicate StillIs(declared: Network, result: Network) {
    && result.kind == (if declared.kind == "dynamic" then "dynamic" else "manual")
    && result.cloud == declared.cloud && result.dns == declared.dns && result.defaults == declared.defaults
    && (declared.kind != "dynamic" ==> result.ip == declared.ip)
  }

  lemma {:induction false} BoundAllStillIs(g: Guest, c: Component, nw: Network, bindings: seq<Binding>)
    ensures BoundAll(g, c, nw, bindings).dns == nw.dns && BoundAll(g, c, nw, bindings).defaults == nw.defaults
  {
    if bindings != [] {
      BoundAllStillIs(g, c, nw, bindings[..|bindings| - 1]);
    }
  }

  lemma FinalStillIs(g: Guest, c: Component, nw: Network, index: nat)
    ensures FinalNetwork(g, c, nw, index).kind == nw.kind && FinalNetwork(g, c, nw, index).cloud == nw.cloud
    ensures FinalNetwork(g, c, nw, index).dns == nw.dns && FinalNetwork(g, c, nw, index).defaults == nw.defaults
    ensures FinalNetwork(g, c, nw, index).ip == nw.ip
  {
    BoundAllKeeps(g, c, nw, c.bindings);
    BoundAllStillIs(g, c, nw, c.bindings);
  }

  /** An entry of the result comes from the entry of the same name after the earlier passes. */
  lemma ConfiguredEntry(g: Guest, m: map<string, Network>, indices: map<string, nat>, n: string)
    requires g.backend.vlan.Some? && AllOnGuest(g, m) && n in Prepared(g, m)
    ensures Pick(g, Prepared(g, m)[n]).Some? && n in Configured(g, m, indices)
    ensures Configured(g, m, indices)[n]
         == FinalNetwork(g, Pick(g, Prepared(g, m)[n]).value, Prepared(g, m)[n], Index(indices, n))
    ensures Configured(g, m, indices)[n].kind == Prepared(g, m)[n].kind
    ensures Configured(g, m, indices)[n].cloud == Prepared(g, m)[n].cloud
    ensures Configured(g, m, indices)[n].ip == Prepared(g, m)[n].ip
  {
    PreparedIsOnGuest(g, m);
    FinalStillIs(g, Pick(g, Prepared(g, m)[n]).value, Prepared(g, m)[n], Index(indices, n));
  }

  lemma KeptUnlessOverwritten(g: Guest, m: map<string, Network>, indices: map<string, nat>, n: string)
    requires g.backend.vlan.Some? && AllOnGuest(g, m) && AllKnown(m) && n in m && !Overwrites(g, m)
    ensures n in Configured(g, m, indices) && StillIs(m[n], Configured(g, m, indices)[n])
  {
    NormalizedDynamics(g, m, g.backend);
    NormalizedDynamics(g, m, g.frontend);
    assert Prepared(g, m)[n] == NormalizedNetwork(m[n], Pick(g, m[n]).value);
    ConfiguredEntry(g, m, indices, n);
    FinalStillIs(g, Pick(g, Prepared(g, m)[n]).value, Prepared(g, m)[n], Index(indices, n));
  }

  lemma OverwrittenIsLost(g: Guest, m: map<string, Network>, indices: map<string, nat>) returns (n: string)
    requires g.backend.vlan.Some? && AllOnGuest(g, m) && Overwrites(g, m)
    ensures n in m && n in Configured(g, m, indices) && !StillIs(m[n], Configured(g, m, indices)[n])
  {
    NormalizedDynamics(g, m, g.backend);
    NormalizedDynamics(g, m, g.frontend);
    if LacksPrivate(g, m) && GENERATED_PRIVATE in m {
      n := GENERATED_PRIVATE;
      assert Prepared(g, m)[n] == Generated(g.backend);
      assert n !in Dynamics(g.backend, m);
    } else {
      n := GENERATED_PUBLIC;
      assert Prepared(g, m)[n] == Generated(g.frontend);
      assert n !in Dynamics(g.frontend, m);
    }
    ConfiguredEntry(g, m, indices, n);
  }

  /** Every declared network is kept if and only if none carries the name of a network that has to
      be generated. */
  lemma DeclaredKept(g: Guest, m: map<string, Network>, indices: map<string, nat>)
    requires g.backend.vlan.Some? && Configurable(g, m)
    ensures (forall n :: n in m ==> n in Configured(g, m, indices) && StillIs(m[n], Configured(g, m, indices)[n]))
       <==> !Overwrites(g, m)
  {
    if Overwrites(g, m) {
      var n := OverwrittenIsLost(g, m, indices);
    } else {
      forall n | n in m ensures n in Configured(g, m, indices) && StillIs(m[n], Configured(g, m, indices)[n]) {
        KeptUnlessOverwritten(g, m, indices, n);
      }
    }
  }

  // ----- one dynamic network for each VLAN

  function PrivateNames(g: Guest, m: map<string, Network>): set<string> {
    if LacksPrivate(g, m) then {GENERATED_PRIVATE}
    else Dynamics(g.backend, m) - (if LacksPublic(g, m) then {GENERATED_PUBLIC} else {})
  }

  function PublicNames(g: Guest, m: map<string, Network>): set<string> {
    if LacksPublic(g, m) then {GENERATED_PUBLIC}
    else Dynamics(g.frontend, m) - (if LacksPrivate(g, m) then {GENERATED_PRIVATE} else {})
  }

  lemma PreparedDynamics(g: Guest, m: map<string, Network>)
    requires g.backend.vlan.Some? && AllOnGuest(g, m) && DistinctVlans(g)
    ensures Dynamics(g.backend, Prepared(g, m)) == PrivateNames(g, m)
    ensures Dynamics(g.frontend, Prepared(g, m)) == PublicNames(g, m)
  {
    NormalizedDynamics(g, m, g.backend);
    NormalizedDynamics(g, m, g.frontend);
    forall n ensures n in Dynamics(g.backend, Prepared(g, m)) <==> n in PrivateNames(g, m) {
      assert n in Dynamics(g.backend, Normalized(g, m)) <==> n in Dynamics(g.backend, m);
    }
    forall n ensures n in Dynamics(g.frontend, Prepared(g, m)) <==> n in PublicNames(g, m) {
      assert n in Dynamics(g.frontend, Normalized(g, m)) <==> n in Dynamics(g.frontend, m);
    }
  }

  lemma ConfiguredDynamics(g: Guest, m: map<string, Network>, indices: map<string, nat>, c: Component)
    requires g.backend.vlan.Some? && AllOnGuest(g, m)
    ensures Dynamics(c, Configured(g, m, indices)) == Dynamics(c, Prepared(g, m))
  {
    PreparedIsOnGuest(g, m);
    forall n ensures n in Dynamics(c, Configured(g, m, indices)) <==> n in Dynamics(c, Prepared(g, m)) {
      if n in Prepared(g, m) {
        ConfiguredEntry(g, m, indices, n);
      }
    }
  }

  ghost predicate ExactlyOne(names: set<string>) {
    exists n :: names == {n}
  }

  lemma OneAtMost(names: set<string>)
    requires AtMostOne(names)
    ensures names == {} || ExactlyOne(names)
  {
    if n :| n in names {
      assert names == {n};
    }
  }

  lemma PreparedIp(g: Guest, m: map<string, Network>, n: string)
    requires g.backend.vlan.Some? && AllOnGuest(g, m) && DistinctVlans(g) && n in Prepared(g, m)
    ensures n in Dynamics(g.backend, Prepared(g, m)) ==> Prepared(g, m)[n].ip == g.backend.primaryIp
    ensures n in Dynamics(g.frontend, Prepared(g, m)) ==> Prepared(g, m)[n].ip == g.frontend.primaryIp
  {
  }

  /** A dynamic network's IP is its component's primary one. */
  lemma DynamicIp(g: Guest, m: map<string, Network>, indices: map<string, nat>, n: string)
    requires g.backend.vlan.Some? && AllOnGuest(g, m) && DistinctVlans(g)
    ensures var final := Configured(g, m, indices);
            && (n in Dynamics(g.backend, final) ==> final[n].ip == g.backend.primaryIp)
            && (n in Dynamics(g.frontend, final) ==> final[n].ip == g.frontend.primaryIp)
  {
    ConfiguredDynamics(g, m, indices, g.backend);
    ConfiguredDynamics(g, m, indices, g.frontend);
    if n in Prepared(g, m) {
      PreparedIp(g, m, n);
      ConfiguredEntry(g, m, indices, n);
    }
  }

  /** Exactly one dynamic network sits on the private VLAN, unless the only one declared there is
      called as the public one that is generated; and the same with the sides exchanged. */
  lemma OneDynamicEach(g: Guest, m: map<string, Network>, indices: map<string, nat>)
    requires g.backend.vlan.Some? && Configurable(g, m) && DistinctVlans(g)
    ensures ExactlyOne(Dynamics(g.backend, Configured(g, m, indices)))
       <==> !(LacksPublic(g, m) && Dynamics(g.backend, m) == {GENERATED_PUBLIC})
    ensures g.frontend.vlan.Some? ==>
              (ExactlyOne(Dynamics(g.frontend, Configured(g, m, indices)))
               <==> !(LacksPrivate(g, m) && Dynamics(g.frontend, m) == {GENERATED_PRIVATE}))
    ensures AtMostOne(Dynamics(g.backend, Configured(g, m, indices)))
    ensures AtMostOne(Dynamics(g.frontend, Configured(g, m, indices)))
  {
    ConfiguredDynamics(g, m, indices, g.backend);
    ConfiguredDynamics(g, m, indices, g.frontend);
    PreparedDynamics(g, m);
    OneAtMost(PrivateNames(g, m));
    OneAtMost(PublicNames(g, m));
    OneAtMost(Dynamics(g.backend, m));
    OneAtMost(Dynamics(g.frontend, m));
  }

  // ----- aliases

  ghost predicate DistinctInterfaces(g: Guest) {
    && ':' !in g.backend.name && ':' !in g.frontend.name
    && (g.frontend.vlan.Some? ==> InterfaceName(g.backend) != InterfaceName(g.frontend))
  }

  lemma InterfaceHasNoColon(c: Component)
    requires ':' !in c.name
    ensures ':' !in InterfaceName(c)
  {
    ReadPrint(c.port);
  }

  /** Link names determine the index; an interface name is never a link name. */
  lemma LinkNameParts(a: Component, b: Component, i: nat, j: nat)
    requires ':' !in a.name && ':' !in b.name
    ensures InterfaceName(a) != LinkName(InterfaceName(b), j)
    ensures LinkName(InterfaceName(a), i) == LinkName(InterfaceName(b), j) ==> i == j
  {
    InterfaceHasNoColon(a);
    InterfaceHasNoColon(b);
    assert LinkName(InterfaceName(b), j)[|InterfaceName(b)|] == ':';
    assert LinkName(InterfaceName(a), i) == InterfaceName(a) + [':'] + Print(i);
    assert LinkName(InterfaceName(b), j) == InterfaceName(b) + [':'] + Print(j);
    if LinkName(InterfaceName(a), i) == LinkName(InterfaceName(b), j) {
      CutUnique(InterfaceName(a), InterfaceName(b), ':', Print(i), Print(j));
      PrintInjective(i, j);
    }
  }

  lemma AliasOf(g: Guest, m: map<string, Network>, indices: map<string, nat>, n: string)
    requires g.backend.vlan.Some? && AllOnGuest(g, m) && n in Configured(g, m, indices) && IsIndexing(indices, m.Keys)
    ensures n in Prepared(g, m) && Pick(g, Prepared(g, m)[n]).Some?
    ensures var c := Pick(g, Prepared(g, m)[n]).value;
            if Prepared(g, m)[n].kind == "dynamic" then Configured(g, m, indices)[n].alias == InterfaceName(c)
            else n in indices && Configured(g, m, indices)[n].alias == LinkName(InterfaceName(c), indices[n])
  {
    ConfiguredEntry(g, m, indices, n);
    PreparedIsOnGuest(g, m);
  }

  /** A dynamic network is one of those on the VLAN of the component it was given. */
  lemma DynamicIsOnItsVlan(g: Guest, m: map<string, Network>, n: string)
    requires n in m && m[n].kind == "dynamic" && Pick(g, m[n]).Some?
    ensures (Pick(g, m[n]).value == g.backend && n in Dynamics(g.backend, m))
         || (Pick(g, m[n]).value == g.frontend && n in Dynamics(g.frontend, m) && g.frontend.vlan.Some?)
  {
  }

  /** In the result no two networks have the same alias. */
  lemma AliasesDistinct(g: Guest, m: map<string, Network>, indices: map<string, nat>, a: string, b: string)
    requires g.backend.vlan.Some? && Configurable(g, m) && DistinctVlans(g) && DistinctInterfaces(g)
    requires IsIndexing(indices, m.Keys)
    requires a in Configured(g, m, indices) && b in Configured(g, m, indices)
    requires Configured(g, m, indices)[a].alias == Configured(g, m, indices)[b].alias
    ensures a == b
  {
    AliasOf(g, m, indices, a);
    AliasOf(g, m, indices, b);
    var p := Prepared(g, m);
    var ca, cb := Pick(g, p[a]).value, Pick(g, p[b]).value;
    LinkNameParts(ca, cb, Index(indices, a), Index(indices, b));
    LinkNameParts(cb, ca, Index(indices, b), Index(indices, a));
    if p[a].kind == "dynamic" && p[b].kind == "dynamic" {
      DynamicIsOnItsVlan(g, p, a);
      DynamicIsOnItsVlan(g, p, b);
      SameInterfaceSameName(g, m, a, b);
    }
  }

  lemma SameInterfaceSameName(g: Guest, m: map<string, Network>, a: string, b: string)
    requires g.backend.vlan.Some? && Configurable(g, m) && DistinctVlans(g)
    requires (a in Dynamics(g.backend, Prepared(g, m)) && b in Dynamics(g.backend, Prepared(g, m)))
          || (a in Dynamics(g.frontend, Prepared(g, m)) && b in Dynamics(g.frontend, Prepared(g, m)))
    ensures a == b
  {
    PreparedDynamics(g, m);
  }

  // ----- gateways

  /** The last binding of the address, which is the one whose values stay. */
  function LastMatch(bindings: seq<Binding>, ip: string): Option<Binding> {
    if bindings == [] then None
    else if Matches(bindings[|bindings| - 1], ip) then Some(bindings[|bindings| - 1])
    else LastMatch(bindings[..|bindings| - 1], ip)
  }

  predicate BoundTo(bindings: seq<Binding>, ip: string) {
    LastMatch(bindings, ip).Some?
  }

  /** On the private side a binding clears the gateway and sets the private routes through it. */
  lemma {:induction false} PrivateGateway(g: Guest, nw: Network, bindings: seq<Binding>)
    requires g.backend.vlan.Some?
    ensures var last := LastMatch(bindings, nw.ip);
            BoundAll(g, g.backend, nw, bindings) ==
            if last.None? then nw
            else nw.(netmask := last.value.netmask, gateway := "", mac := g.backend.mac,
                     routes := PrivateRoutes(last.value.gateway))
  {
    if bindings != [] {
      PrivateGateway(g, nw, bindings[..|bindings| - 1]);
    }
  }

  /** On the public side it sets the gateway. */
  lemma {:induction false} PublicGateway(g: Guest, nw: Network, bindings: seq<Binding>)
    requires g.frontend.vlan.Some? && DistinctPointers(g)
    ensures var last := LastMatch(bindings, nw.ip);
            BoundAll(g, g.frontend, nw, bindings) ==
            if last.None? then nw
            else nw.(netmask := last.value.netmask, gateway := last.value.gateway, mac := g.frontend.mac)
  {
    if bindings != [] {
      PublicGateway(g, nw, bindings[..|bindings| - 1]);
    }
  }

  /** The networks of the result that carry a gateway. */
  function WithGateway(m: map<string, Network>): set<string> {
    set n | n in m && m[n].gateway != ""
  }

  lemma GatewaysAreDynamic(g: Guest, m: map<string, Network>, indices: map<string, nat>, n: string)
    requires g.backend.vlan.Some? && AllOnGuest(g, m) && DistinctVlans(g)
    requires n in WithGateway(Configured(g, m, indices)) && n in Prepared(g, m)
    ensures n in Dynamics(g.frontend, Prepared(g, m))
         || (n in Dynamics(g.backend, Prepared(g, m)) && !BoundTo(g.backend.bindings, g.backend.primaryIp))
  {
    ConfiguredEntry(g, m, indices, n);
    DynamicIsOnItsVlan(g, Prepared(g, m), n);
    if n in Dynamics(g.backend, Prepared(g, m)) {
      PreparedIp(g, m, n);
      PrivateGateway(g, Prepared(g, m)[n], g.backend.bindings);
    }
  }

  /** If the guest's private primary address is bound, at most the public dynamic network carries a
      gateway, and the private dynamic network reaches the private ranges through its subnet's. */
  lemma OneGateway(g: Guest, m: map<string, Network>, indices: map<string, nat>)
    requires g.backend.vlan.Some? && Configurable(g, m) && DistinctVlans(g)
    requires BoundTo(g.backend.bindings, g.backend.primaryIp)
    ensures AtMostOne(WithGateway(Configured(g, m, indices)))
    ensures WithGateway(Configured(g, m, indices)) <= Dynamics(g.frontend, Configured(g, m, indices))
    ensures forall n :: n in Dynamics(g.backend, Configured(g, m, indices)) ==>
              var gateway := LastMatch(g.backend.bindings, g.backend.primaryIp).value.gateway;
              Configured(g, m, indices)[n].routes ==
                [Route("10.0.0.0", "255.0.0.0", gateway), Route("161.26.0.0", "255.255.0.0", gateway)]
              && Configured(g, m, indices)[n].mac == g.backend.mac
  {
    OneDynamicEach(g, m, indices);
    ConfiguredDynamics(g, m, indices, g.frontend);
    ConfiguredDynamics(g, m, indices, g.backend);
    forall n | n in WithGateway(Configured(g, m, indices))
      ensures n in Dynamics(g.frontend, Configured(g, m, indices))
    {
      PreparedIsOnGuest(g, m);
      GatewaysAreDynamic(g, m, indices, n);
    }
    forall n | n in Dynamics(g.backend, Configured(g, m, indices))
      ensures Configured(g, m, indices)[n].mac == g.backend.mac
      ensures Configured(g, m, indices)[n].routes
           == PrivateRoutes(LastMatch(g.backend.bindings, g.backend.primaryIp).value.gateway)
    {
      PrivateRouting(g, m, indices, n);
    }
  }

  lemma PrivateRouting(g: Guest, m: map<string, Network>, indices: map<string, nat>, n: string)
    requires g.backend.vlan.Some? && Configurable(g, m) && DistinctVlans(g)
    requires BoundTo(g.backend.bindings, g.backend.primaryIp)
    requires n in Prepared(g, m) && n in Dynamics(g.backend, Prepared(g, m)) && n in Configured(g, m, indices)
    ensures Configured(g, m, indices)[n].mac == g.backend.mac
    ensures Configured(g, m, indices)[n].routes
         == PrivateRoutes(LastMatch(g.backend.bindings, g.backend.primaryIp).value.gateway)
  {
    ConfiguredEntry(g, m, indices, n);
    PreparedIp(g, m, n);
    PrivateGateway(g, Prepared(g, m)[n], g.backend.bindings);
  }

  /** The public dynamic network is given its subnet's gateway if its address is bound. */
  lemma PublicGatewaySet(g: Guest, m: map<string, Network>, indices: map<string, nat>, n: string)
    requires g.backend.vlan.Some? && Configurable(g, m) && DistinctVlans(g) && DistinctPointers(g)
    requires n in Dynamics(g.frontend, Configured(g, m, indices)) && BoundTo(g.frontend.bindings, g.frontend.primaryIp)
    ensures var last := LastMatch(g.frontend.bindings, g.frontend.primaryIp).value;
            && Configured(g, m, indices)[n].gateway == last.gateway
            && Configured(g, m, indices)[n].netmask == last.netmask
            && Configured(g, m, indices)[n].mac == g.frontend.mac
  {
    ConfiguredDynamics(g, m, indices, g.frontend);
    ConfiguredEntry(g, m, indices, n);
    DynamicIp(g, m, indices, n);
    PublicGateway(g, Prepared(g, m)[n], g.frontend.bindings);
  }

  /** Without such a binding a private dynamic network keeps the gateway it was declared with. */
  lemma UnboundGateway(g: Guest, m: map<string, Network>, indices: map<string, nat>, n: string)
    requires g.backend.vlan.Some? && Configurable(g, m) && DistinctVlans(g) && !Overwrites(g, m)
    requires n in Dynamics(g.backend, m) && !BoundTo(g.backend.bindings, g.backend.primaryIp)
    ensures n in Configured(g, m, indices) && Configured(g, m, indices)[n].gateway == m[n].gateway
  {
    NormalizedDynamics(g, m, g.backend);
    NormalizedDynamics(g, m, g.frontend);
    assert Prepared(g, m)[n] == NormalizedNetwork(m[n], g.backend);
    ConfiguredEntry(g, m, indices, n);
    PrivateGateway(g, Prepared(g, m)[n], g.backend.bindings);
  }

  /** The gateway a private dynamic network was declared with, unless a generated network replaces it. */
  ghost predicate KeepsPrivateGateway(g: Guest, m: map<string, Network>) {
    exists n :: n in Dynamics(g.backend, m) && m[n].gateway != "" && !(LacksPublic(g, m) && n == GENERATED_PUBLIC)
  }

  lemma UnboundEntry(g: Guest, m: map<string, Network>, indices: map<string, nat>, n: string)
    requires g.backend.vlan.Some? && Configurable(g, m) && DistinctVlans(g)
    requires n in Dynamics(g.backend, Prepared(g, m)) && !BoundTo(g.backend.bindings, g.backend.primaryIp)
    ensures n in Configured(g, m, indices) && Configured(g, m, indices)[n].gateway == Prepared(g, m)[n].gateway
  {
    ConfiguredEntry(g, m, indices, n);
    PreparedIp(g, m, n);
    PrivateGateway(g, Prepared(g, m)[n], g.backend.bindings);
  }

  lemma PreparedGateways(g: Guest, m: map<string, Network>)
    requires g.backend.vlan.Some? && Configurable(g, m) && DistinctVlans(g)
    ensures KeepsPrivateGateway(g, m)
       <==> exists n :: n in Dynamics(g.backend, Prepared(g, m)) && Prepared(g, m)[n].gateway != ""
  {
    PreparedDynamics(g, m);
    if n :| n in Dynamics(g.backend, m) && m[n].gateway != "" && !(LacksPublic(g, m) && n == GENERATED_PUBLIC) {
      PreparedEntry(g, m, n);
      assert n in Dynamics(g.backend, Prepared(g, m));
    }
    if n :| n in Dynamics(g.backend, Prepared(g, m)) && Prepared(g, m)[n].gateway != "" {
      PreparedEntry(g, m, n);
    }
  }

  lemma PreparedEntry(g: Guest, m: map<string, Network>, n: string)
    requires g.backend.vlan.Some? && Configurable(g, m) && DistinctVlans(g) && n in PrivateNames(g, m)
    ensures n in Prepared(g, m)
    ensures Prepared(g, m)[n].gateway == if LacksPrivate(g, m) then "" else m[n].gateway
  {
    NormalizedDynamics(g, m, g.backend);
    NormalizedDynamics(g, m, g.frontend);
    PreparedDynamics(g, m);
    assert n in Dynamics(g.backend, Prepared(g, m));
  }

  /** Only the public dynamic network carries a gateway if and only if the private primary address is
      bound or no declared gateway is left on the private dynamic network. */
  lemma OnlyPublicGateway(g: Guest, m: map<string, Network>, indices: map<string, nat>)
    requires g.backend.vlan.Some? && Configurable(g, m) && DistinctVlans(g)
    ensures WithGateway(Configured(g, m, indices)) <= Dynamics(g.frontend, Configured(g, m, indices))
       <==> BoundTo(g.backend.bindings, g.backend.primaryIp) || !KeepsPrivateGateway(g, m)
  {
    PreparedGateways(g, m);
    ConfiguredDynamics(g, m, indices, g.frontend);
    if BoundTo(g.backend.bindings, g.backend.primaryIp) {
      OneGateway(g, m, indices);
    } else if n :| n in Dynamics(g.backend, Prepared(g, m)) && Prepared(g, m)[n].gateway != "" {
      UnboundEntry(g, m, indices, n);
      assert n in WithGateway(Configured(g, m, indices));
    } else {
      PreparedIsOnGuest(g, m);
      forall n | n in WithGateway(Configured(g, m, indices)) ensures n in Dynamics(g.frontend, Prepared(g, m)) {
        GatewaysAreDynamic(g, m, indices, n);
        if n in Dynamics(g.backend, Prepared(g, m)) {
          UnboundEntry(g, m, indices, n);
        }
      }
    }
  }

  // ----- the fields of the final networks

  /** The binding whose values stay is the last primary one of the address. */
  lemma {:induction false} LastMatchIs(bindings: seq<Binding>, ip: string)
    ensures LastMatch(bindings, ip).Some?
       <==> exists i :: 0 <= i < |bindings| && bindings[i].kind == "PRIMARY" && bindings[i].ip == Some(ip)
    ensures LastMatch(bindings, ip).Some? ==>
              exists i :: 0 <= i < |bindings| && bindings[i] == LastMatch(bindings, ip).value
                && bindings[i].kind == "PRIMARY" && bindings[i].ip == Some(ip)
                && forall j :: i < j < |bindings| ==> !(bindings[j].kind == "PRIMARY" && bindings[j].ip == Some(ip))
  {
    if bindings != [] {
      var n := |bindings| - 1;
      LastMatchIs(bindings[..n], ip);
      if LastMatch(bindings[..n], ip).Some? && !Matches(bindings[n], ip) {
        var i :| 0 <= i < n && bindings[..n][i] == LastMatch(bindings[..n], ip).value
                 && forall j :: i < j < n ==>
                      !(bindings[..n][j].kind == "PRIMARY" && bindings[..n][j].ip == Some(ip));
        assert bindings[i] == bindings[..n][i];
        assert forall j :: i < j < n ==> bindings[j] == bindings[..n][j];
      }
      if i :| 0 <= i < |bindings| && bindings[i].kind == "PRIMARY" && bindings[i].ip == Some(ip) {
        assert i < n ==> bindings[..n][i] == bindings[i];
      }
    }
  }

  /** The component on whose VLAN the network is, the private one first. */
  function ComponentFor(g: Guest, vlanId: int): Component {
    if g.backend.vlan.Some? && g.backend.vlan.value.id == vlanId then g.backend else g.frontend
  }

  /** What a declared network becomes that no generated one replaces: a dynamic network has the address
      and, unless a binding changes that, the netmask and gateway it was declared with on its component's
      interface; a manual one has its own address and a numbered link, and no gateway. */
  lemma FinalFields(g: Guest, m: map<string, Network>, indices: map<string, nat>, n: string)
    requires g.backend.vlan.Some? && Configurable(g, m) && DistinctVlans(g) && DistinctPointers(g)
    requires IsIndexing(indices, m.Keys) && n in m && !Overwrites(g, m)
    ensures n in Configured(g, m, indices) && indices.Keys == m.Keys && indices[n] < |m|
    ensures var d, r, c := m[n], Configured(g, m, indices)[n], ComponentFor(g, m[n].cloud.vlanId);
            var private, dynamic := c == g.backend, d.kind == "dynamic";
            var ip := if dynamic then c.primaryIp else d.ip;
            var last := LastMatch(c.bindings, ip);
            && r.kind == (if dynamic then "dynamic" else "manual") && r.ip == ip
            && r.dns == d.dns && r.defaults == d.defaults && r.cloud == d.cloud
            && r.netmask == (if last.Some? then last.value.netmask else d.netmask)
            && r.mac == (if last.Some? || dynamic then c.mac else d.mac)
            && r.gateway == (if !dynamic || (private && last.Some?) then ""
                             else if last.Some? then last.value.gateway else d.gateway)
            && r.routes == (if private && last.Some? then
                              [Route("10.0.0.0", "255.0.0.0", last.value.gateway),
                               Route("161.26.0.0", "255.255.0.0", last.value.gateway)]
                            else d.routes)
            && r.alias == (if dynamic then c.name + Print(c.port)
                           else c.name + Print(c.port) + ":" + Print(indices[n]))
  {
    KeptUnlessOverwritten(g, m, indices, n);
    NormalizedDynamics(g, m, g.backend);
    NormalizedDynamics(g, m, g.frontend);
    var c := ComponentFor(g, m[n].cloud.vlanId);
    var p := Prepared(g, m)[n];
    assert Pick(g, m[n]) == Some(c);
    assert p == NormalizedNetwork(m[n], c);
    ConfiguredEntry(g, m, indices, n);
    if c == g.backend {
      PrivateGateway(g, p, g.backend.bindings);
    } else {
      PublicGateway(g, p, g.frontend.bindings);
    }
  }

  /** If both components are on one VLAN, its networks go to the private one. */
  lemma SharedVlanIsPrivate(g: Guest, m: map<string, Network>, indices: map<string, nat>, n: string)
    requires g.backend.vlan.Some? && Configurable(g, m) && IsIndexing(indices, m.Keys)
    requires n in m && m[n].kind != "dynamic" && !Overwrites(g, m)
    requires g.frontend.vlan.Some? && m[n].cloud.vlanId == g.backend.vlan.value.id == g.frontend.vlan.value.id
    ensures n in Configured(g, m, indices) && n in indices
    ensures Configured(g, m, indices)[n].alias == g.backend.name + Print(g.backend.port) + ":" + Print(indices[n])
  {
    KeptUnlessOverwritten(g, m, indices, n);
    AliasOf(g, m, indices, n);
  }

  /** A network that is generated has its component's address on the component's VLAN. */
  lemma GeneratedFields(g: Guest, m: map<string, Network>, indices: map<string, nat>)
    requires g.backend.vlan.Some? && Configurable(g, m) && DistinctVlans(g)
    requires forall n :: n in m && m[n].kind == "dynamic" ==> m[n].cloud.vlanId != g.backend.vlan.value.id
    ensures "generated-private" in Configured(g, m, indices)
    ensures var r := Configured(g, m, indices)["generated-private"];
            var last := LastMatch(g.backend.bindings, g.backend.primaryIp);
            && r.kind == "dynamic" && r.ip == g.backend.primaryIp && r.gateway == "" && r.dns == [] && r.defaults == []
            && r.netmask == (if last.Some? then last.value.netmask else "")
            && r.mac == (if last.Some? then g.backend.mac else "")
            && r.routes == (if last.Some? then PrivateRoutes(last.value.gateway) else [])
            && r.cloud == CloudProperties(g.backend.vlan.value.id, 0, true)
            && r.alias == g.backend.name + Print(g.backend.port)
  {
    NormalizedDynamics(g, m, g.backend);
    NormalizedDynamics(g, m, g.frontend);
    assert Dynamics(g.backend, m) == {};
    var p := Prepared(g, m)["generated-private"];
    assert p == Generated(g.backend);
    ConfiguredEntry(g, m, indices, "generated-private");
    FinalStillIs(g, g.backend, p, 0);
    PrivateGateway(g, p, g.backend.bindings);
  }

  /** The same on the public side, with the gateway of the binding. */
  lemma GeneratedPublicFields(g: Guest, m: map<string, Network>, indices: map<string, nat>)
    requires g.backend.vlan.Some? && Configurable(g, m) && DistinctVlans(g) && DistinctPointers(g)
    requires g.frontend.vlan.Some?
    requires forall n :: n in m && m[n].kind == "dynamic" ==> m[n].cloud.vlanId != g.frontend.vlan.value.id
    ensures "generated-public" in Configured(g, m, indices)
    ensures var r := Configured(g, m, indices)["generated-public"];
            var last := LastMatch(g.frontend.bindings, g.frontend.primaryIp);
            && r.kind == "dynamic" && r.ip == g.frontend.primaryIp && r.dns == [] && r.defaults == [] && r.routes == []
            && r.gateway == (if last.Some? then last.value.gateway else "")
            && r.netmask == (if last.Some? then last.value.netmask else "")
            && r.mac == (if last.Some? then g.frontend.mac else "")
            && r.cloud == CloudProperties(g.frontend.vlan.value.id, 0, true)
            && r.alias == g.frontend.name + Print(g.frontend.port)
  {
    NormalizedDynamics(g, m, g.backend);
    NormalizedDynamics(g, m, g.frontend);
    assert Dynamics(g.frontend, m) == {};
    var p := Prepared(g, m)["generated-public"];
    assert p == Generated(g.frontend);
    ConfiguredEntry(g, m, indices, "generated-public");
    FinalStillIs(g, g.frontend, p, 0);
    PublicGateway(g, p, g.frontend.bindings);
  }

  /** From the declaration to the final networks: each VLAN of a manual network is configured with the
      declared address, a netmask the declared one unless a binding of the address has another. */
  lemma ManualNetworkConfigured(g: Guest, ns: map<string, Declared>, pv: PublicVlan, order: seq<string>,
                                indices: map<string, nat>, name: string, i: nat)
    requires Compatible(ns, pv) && Lists(order, ns.Keys) && name in ns && ns[name].kind == "manual"
    requires ns[name].subnetIds == [] && i < |ns[name].vlanIds|
    requires g.backend.vlan.Some? && DistinctVlans(g) && DistinctPointers(g)
    requires Configurable(g, ParsedAll(ns, order, pv)) && !Overwrites(g, ParsedAll(ns, order, pv))
    requires IsIndexing(indices, ParsedAll(ns, order, pv).Keys)
    ensures var d, k := ns[name], if i == 0 then name else name + "_" + Print(i);
            var c, final := ComponentFor(g, d.vlanIds[i]), Configured(g, ParsedAll(ns, order, pv), indices);
            var last := LastMatch(c.bindings, d.ip);
            && k in final && final[k].kind == "manual" && final[k].cloud.vlanId == d.vlanIds[i]
            && final[k].ip == d.ip && final[k].dns == d.dns && final[k].gateway == ""
            && final[k].netmask == (if last.Some? then last.value.netmask else d.netmask)
  {
    var d, k := ns[name], if i == 0 then name else name + "_" + Print(i);
    var m := ParsedAll(ns, order, pv);
    ManualEntries(name, d, pv, i);
    ExpansionFields(name, d, pv, k);
    EntryOf(ns, order, pv, name, k);
    FinalFields(g, m, indices, k);
  }

  /** What can be configured: every network on a VLAN of the guest and of a known kind, and no two dynamic
      ones on the same. */
  lemma ConfigurableMeans(g: Guest, m: map<string, Network>)
    requires DistinctVlans(g)
    ensures Configurable(g, m)
       <==> && (forall n :: n in m ==>
                  && (m[n].kind == "dynamic" || m[n].kind == "manual" || m[n].kind == "")
                  && ((g.backend.vlan.Some? && m[n].cloud.vlanId == g.backend.vlan.value.id)
                      || (g.frontend.vlan.Some? && m[n].cloud.vlanId == g.frontend.vlan.value.id)))
            && (forall a, b :: a in m && b in m && m[a].kind == m[b].kind == "dynamic" && a != b ==>
                  m[a].cloud.vlanId != m[b].cloud.vlanId)
  {
    if Configurable(g, m) {
      forall a, b | a in m && b in m && m[a].kind == m[b].kind == "dynamic" && a != b
        ensures m[a].cloud.vlanId != m[b].cloud.vlanId
      {
        if m[a].cloud.vlanId == m[b].cloud.vlanId {
          SameVlanSameNetwork(g, m, a, b);
        }
      }
    }
  }

  lemma SameVlanSameNetwork(g: Guest, m: map<string, Network>, a: string, b: string)
    requires Configurable(g, m) && a in m && b in m && m[a].kind == m[b].kind == "dynamic"
    requires m[a].cloud.vlanId == m[b].cloud.vlanId
    ensures a == b
  {
    assert Pick(g, m[a]).Some?;
    assert a in Dynamics(g.backend, m) <==> b in Dynamics(g.backend, m);
    assert a in Dynamics(g.frontend, m) <==> b in Dynamics(g.frontend, m);
  }

  // ----- networks declared by subnet

  /** A network declared by subnet ids never survives: its entries carry no VLAN id, and no guest
      has a VLAN 0. */
  lemma SubnetNetworksNeverConfigure(g: Guest, ns: map<string, Declared>, pv: PublicVlan, order: seq<string>,
                                     name: string)
    requires Compatible(ns, pv) && Lists(order, ns.Keys) && name in ns && ns[name].subnetIds != []
    requires !OnVlan(g.backend, 0) && !OnVlan(g.frontend, 0)
    ensures !AllOnGuest(g, ParsedAll(ns, order, pv))
  {
    var d := ns[name];
    var n := |d.subnetIds|;
    var e := Expansion(name, d, pv);
    assert e == WithSubnets(map[], name, d, pv, n);
    var before := WithSubnets(map[], name, d, pv, n - 1);
    var k := if pv.id.Some? && pv.primarySubnetId == Some(d.subnetIds[n - 1]) && d.kind != "manual" then name
             else DerivedName(name, n - 1);
    assert k in e;
    SubnetsHaveNoVlan(map[], name, d, pv, n, k);
    ParsedAllEntries(ns, order, pv);
    assert name in order;
    assert ParsedAll(ns, order, pv)[k] == e[k];
  }

  // ----- the order of a VLAN list

  /** A dynamic network that lists two VLANs. */
  function Listing(base: Declared, first: int, second: int): Declared {
    base.(kind := "dynamic", subnetIds := [], vlanIds := [first, second])
  }

  lemma ExpansionOfTwo(name: string, base: Declared, private: int, public: int, pv: PublicVlan)
    requires private != public && pv.id == Some(public)
    ensures Expansion(name, Listing(base, private, public), pv)
         == map[name := PublicEntry(Listing(base, private, public), public)]
    ensures Expansion(name, Listing(base, public, private), pv)
         == map[name := PublicEntry(Listing(base, public, private), public),
                DerivedName(name, 1) := Plain(Listing(base, public, private), private, 0)]
    ensures DerivedName(name, 1) != name
  {
    var d := Listing(base, private, public);
    assert WithVlans(map[], name, d, pv, 1) == map[name := Plain(d, private, 0)];
    assert WithVlans(map[], name, d, pv, 2) == map[name := PublicEntry(d, public)];
    var e := Listing(base, public, private);
    assert WithVlans(map[], name, e, pv, 1) == map[name := PublicEntry(e, public)];
    assert |DerivedName(name, 1)| > |name|;
  }

  lemma {:induction false} WithVlansKind(name: string, d: Declared, pv: PublicVlan, n: nat, k: string)
    requires n <= |d.vlanIds| && k in WithVlans(map[], name, d, pv, n)
    ensures WithVlans(map[], name, d, pv, n)[k].kind == d.kind
  {
    if n > 0 && k in WithVlans(map[], name, d, pv, n - 1) {
      WithVlansKind(name, d, pv, n - 1, k);
    }
  }

  /** Networks beside the dynamic one: manual, by VLAN, and on the guest. */
  ghost predicate Manuals(g: Guest, others: map<string, Declared>, pv: PublicVlan) {
    forall o :: o in others ==>
      && (others[o].kind == "manual" || others[o].kind == "") && others[o].subnetIds == []
      && AllOnGuest(g, Expansion(o, others[o], pv))
  }

  /** What the table holds after parsing `others` and a network d whose expansion is `e`. */
  lemma TableOf(g: Guest, others: map<string, Declared>, name: string, d: Declared, pv: PublicVlan,
                order: seq<string>, k: string)
    requires Manuals(g, others, pv) && name !in others
    requires Compatible(others[name := d], pv) && Lists(order, others.Keys + {name})
    requires AllOnGuest(g, Expansion(name, d, pv))
    ensures var m := ParsedAll(others[name := d], order, pv);
            && (k in Expansion(name, d, pv) ==> k in m && m[k] == Expansion(name, d, pv)[k])
            && (k in m && k !in Expansion(name, d, pv) ==> m[k].kind == "manual" || m[k].kind == "")
            && (k in m ==> Pick(g, m[k]).Some?)
  {
    var ns := others[name := d];
    ParsedAllEntries(ns, order, pv);
    var m := ParsedAll(ns, order, pv);
    assert name in order;
    if k in m && k !in Expansion(name, d, pv) {
      var n :| n in order && k in Expansion(n, ns[n], pv);
      WithVlansKind(n, ns[n], pv, |ns[n].vlanIds|, k);
    }
  }

  /** The dynamic networks of the parsed table are those of d's expansion. */
  lemma TableDynamics(g: Guest, others: map<string, Declared>, name: string, d: Declared, pv: PublicVlan,
                      order: seq<string>, c: Component)
    requires Manuals(g, others, pv) && name !in others && KnownKind(d.kind)
    requires Compatible(others[name := d], pv) && Lists(order, others.Keys + {name}) && d.subnetIds == []
    requires AllOnGuest(g, Expansion(name, d, pv))
    ensures Dynamics(c, ParsedAll(others[name := d], order, pv)) == Dynamics(c, Expansion(name, d, pv))
    ensures AllOnGuest(g, ParsedAll(others[name := d], order, pv)) && AllKnown(ParsedAll(others[name := d], order, pv))
  {
    var m := ParsedAll(others[name := d], order, pv);
    forall k
      ensures k in Dynamics(c, m) <==> k in Dynamics(c, Expansion(name, d, pv))
      ensures k in m ==> Pick(g, m[k]).Some? && KnownKind(m[k].kind)
    {
      TableOf(g, others, name, d, pv, order, k);
      if k in Expansion(name, d, pv) {
        WithVlansKind(name, d, pv, |d.vlanIds|, k);
      }
    }
  }

  ghost predicate OnBothVlans(g: Guest, private: int, public: int, pv: PublicVlan) {
    && private != public && pv.id == Some(public)
    && OnVlan(g.backend, private) && OnVlan(g.frontend, public)
  }

  /** The two VLANs are covered by one dynamic network each, holding the primary addresses. */
  ghost predicate Covers(g: Guest, r: map<string, Network>, privateName: string, publicName: string) {
    && Dynamics(g.backend, r) == {privateName} && Dynamics(g.frontend, r) == {publicName}
    && privateName in r && r[privateName].ip == g.backend.primaryIp
    && publicName in r && r[publicName].ip == g.frontend.primaryIp
  }

  lemma CoversNames(g: Guest, m: map<string, Network>, indices: map<string, nat>, private: string, public: string)
    requires g.backend.vlan.Some? && DistinctVlans(g) && AllOnGuest(g, m)
    requires PrivateNames(g, m) == {private} && PublicNames(g, m) == {public}
    ensures Covers(g, Configured(g, m, indices), private, public)
  {
    var r := Configured(g, m, indices);
    ConfiguredDynamics(g, m, indices, g.backend);
    ConfiguredDynamics(g, m, indices, g.frontend);
    PreparedDynamics(g, m);
    assert private in Dynamics(g.backend, r) && public in Dynamics(g.frontend, r);
    DynamicIp(g, m, indices, private);
    DynamicIp(g, m, indices, public);
  }

  lemma CoversFrom(g: Guest, m: map<string, Network>, indices: map<string, nat>, private: set<string>, public: string)
    requires g.backend.vlan.Some? && DistinctVlans(g) && AllOnGuest(g, m) && AllKnown(m) && AtMostOne(private)
    requires Dynamics(g.backend, m) == private && Dynamics(g.frontend, m) == {public}
    ensures Configurable(g, m)
    ensures private == {} && public != GENERATED_PRIVATE ==>
              Covers(g, Configured(g, m, indices), GENERATED_PRIVATE, public)
    ensures private == {} && public == GENERATED_PRIVATE ==> Dynamics(g.frontend, Configured(g, m, indices)) == {}
    ensures forall n :: private == {n} ==> Covers(g, Configured(g, m, indices), n, public)
  {
    assert public in Dynamics(g.frontend, m);
    if private == {} {
      if public != GENERATED_PRIVATE {
        CoversNames(g, m, indices, GENERATED_PRIVATE, public);
      } else {
        ConfiguredDynamics(g, m, indices, g.frontend);
        PreparedDynamics(g, m);
      }
    } else {
      var n :| n in private;
      assert private == {n};
      CoversNames(g, m, indices, n, public);
    }
  }

  /** Private VLAN first: its entry is overwritten in parsing and generated again later. If the network
      is itself called as the generated one is, that leaves nothing on the public VLAN. */
  lemma PrivateFirst(g: Guest, others: map<string, Declared>, name: string, base: Declared,
                     private: int, public: int, pv: PublicVlan, order: seq<string>, indices: map<string, nat>)
    requires OnBothVlans(g, private, public, pv) && Manuals(g, others, pv) && name !in others
    requires Compatible(others[name := Listing(base, private, public)], pv) && Lists(order, others.Keys + {name})
    ensures var m := ParsedAll(others[name := Listing(base, private, public)], order, pv);
            && Configurable(g, m)
            && (name != GENERATED_PRIVATE ==> Covers(g, Configured(g, m, indices), GENERATED_PRIVATE, name))
            && (name == GENERATED_PRIVATE ==> Dynamics(g.frontend, Configured(g, m, indices)) == {})
  {
    var d := Listing(base, private, public);
    ExpansionOfTwo(name, base, private, public, pv);
    var e := Expansion(name, d, pv);
    assert Dynamics(g.frontend, e) == {name} && Dynamics(g.backend, e) == {};
    TableDynamics(g, others, name, d, pv, order, g.backend);
    TableDynamics(g, others, name, d, pv, order, g.frontend);
    CoversFrom(g, ParsedAll(others[name := d], order, pv), indices, {}, name);
  }

  lemma PublicFirstExpansion(g: Guest, name: string, base: Declared, private: int, public: int, pv: PublicVlan)
    requires OnBothVlans(g, private, public, pv)
    ensures var e := Expansion(name, Listing(base, public, private), pv);
            && Dynamics(g.frontend, e) == {name} && Dynamics(g.backend, e) == {DerivedName(name, 1)}
            && AllOnGuest(g, e)
  {
    ExpansionOfTwo(name, base, private, public, pv);
  }

  /** Public VLAN first: both entries survive parsing. */
  lemma PublicFirst(g: Guest, others: map<string, Declared>, name: string, base: Declared,
                    private: int, public: int, pv: PublicVlan, order: seq<string>, indices: map<string, nat>)
    requires OnBothVlans(g, private, public, pv) && Manuals(g, others, pv) && name !in others
    requires Compatible(others[name := Listing(base, public, private)], pv) && Lists(order, others.Keys + {name})
    ensures var m := ParsedAll(others[name := Listing(base, public, private)], order, pv);
            Configurable(g, m) && Covers(g, Configured(g, m, indices), DerivedName(name, 1), name)
  {
    var d := Listing(base, public, private);
    PublicFirstExpansion(g, name, base, private, public, pv);
    TableDynamics(g, others, name, d, pv, order, g.backend);
    TableDynamics(g, others, name, d, pv, order, g.frontend);
    CoversFrom(g, ParsedAll(others[name := d], order, pv), indices, {DerivedName(name, 1)}, name);
  }

  /** Each VLAN is covered by exactly one dynamic network with the primary address. */
  ghost predicate BothCovered(g: Guest, r: map<string, Network>) {
    exists private, public :: Covers(g, r, private, public)
  }

  /** Whichever of its two VLANs a dynamic network lists first, and in whatever order the maps are
      visited, both VLANs end up covered, unless the network is called as the generated private one and
      lists its public VLAN last: then, and only then, the order matters. */
  lemma VlanOrderIrrelevant(g: Guest, others: map<string, Declared>, name: string, base: Declared,
                            private: int, public: int, pv: PublicVlan, order: seq<string>, order': seq<string>,
                            indices: map<string, nat>, indices': map<string, nat>)
    requires OnBothVlans(g, private, public, pv) && Manuals(g, others, pv) && name !in others
    requires Compatible(others[name := Listing(base, private, public)], pv)
    requires Compatible(others[name := Listing(base, public, private)], pv)
    requires Lists(order, others.Keys + {name}) && Lists(order', others.Keys + {name})
    ensures var m := ParsedAll(others[name := Listing(base, private, public)], order, pv);
            Configurable(g, m) && (BothCovered(g, Configured(g, m, indices)) <==> name != GENERATED_PRIVATE)
    ensures var m := ParsedAll(others[name := Listing(base, public, private)], order', pv);
            Configurable(g, m) && BothCovered(g, Configured(g, m, indices'))
  {
    PrivateFirst(g, others, name, base, private, public, pv, order, indices);
    PublicFirst(g, others, name, base, private, public, pv, order', indices');
    var r := Configured(g, ParsedAll(others[name := Listing(base, private, public)], order, pv), indices);
    if name == GENERATED_PRIVATE {
      forall privateName, publicName ensures !Covers(g, r, privateName, publicName) {
        assert publicName in {publicName};
      }
    }
  }
}
