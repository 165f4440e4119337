/** Network definitions and how create_vm expands VLAN and subnet lists into one network each
    (action/networks.go). Maps that the source shares and writes into are tables on the heap; its
    iteration over a map visits the entries in any order. */
module Networks {
  import opened Common
  import opened Decimal

  datatype Route = Route(destination: string, netmask: string, gateway: string)

  datatype CloudProperties = CloudProperties(vlanId: int, subnetId: int, sourcePolicyRouting: bool)

  /** instance.Network. */
  datatype Network = Network(
    kind: string,
    ip: string,
    netmask: string,
    gateway: string,
    dns: seq<string>,
    defaults: seq<string>,
    mac: string,
    alias: string,
    routes: seq<Route>,
    cloud: CloudProperties)

  /** action.Network, in the fields that are passed on. */
  datatype Declared = Declared(
    kind: string,
    ip: string,
    netmask: string,
    gateway: string,
    dns: seq<string>,
    defaults: seq<string>,
    vlanIds: seq<int>,
    subnetIds: seq<int>,
    sourcePolicyRouting: bool)

  /** The VLAN of the public component; each field is a pointer that may be nil. */
  datatype PublicVlan = PublicVlan(id: Option<int>, primarySubnetId: Option<int>)

  class NetworkTable {
    var entries: map<string, Network>

    constructor ()
      ensures entries == map[]
    {
      entries := map[];
    }
  }

  // ----- one declared network

  function DerivedName(name: string, index: nat): string {
    if index != 0 then name + "_" + Print(index) else name
  }

  function Plain(d: Declared, vlanId: int, subnetId: int): Network {
    Network(d.kind, d.ip, d.netmask, d.gateway, d.dns, [], "", "", [], CloudProperties(vlanId, subnetId, false))
  }

  function PublicEntry(d: Declared, vlanId: int): Network {
    Network(d.kind, d.ip, d.netmask, d.gateway, d.dns, d.defaults, "", "", [],
            CloudProperties(vlanId, 0, d.sourcePolicyRouting))
  }

  function PublicSubnetEntry(d: Declared, subnetId: int): Network {
    Network(d.kind, d.ip, d.netmask, d.gateway, d.dns, d.defaults, "", "", [],
            CloudProperties(0, subnetId, d.sourcePolicyRouting))
  }

  /** The map after the first n VLAN ids of d. */
  function WithVlans(m: map<string, Network>, name: string, d: Declared, pv: PublicVlan, n: nat): map<string, Network>
    requires n <= |d.vlanIds|
  {
    if n == 0 then m
    else
      var vlanId := d.vlanIds[n - 1];
      var before := WithVlans(m, name, d, pv, n - 1);
      if pv.id == Some(vlanId) && d.kind != "manual" then before[name := PublicEntry(d, vlanId)]
      else before[DerivedName(name, n - 1) := Plain(d, vlanId, 0)]
  }

  /** The map after the first n subnet ids of d. */
  function WithSubnets(m: map<string, Network>, name: string, d: Declared, pv: PublicVlan, n: nat): map<string, Network>
    requires n <= |d.subnetIds|
  {
    if n == 0 then m
    else
      var subnetId := d.subnetIds[n - 1];
      var before := WithSubnets(m, name, d, pv, n - 1);
      if pv.id.Some? && pv.primarySubnetId == Some(subnetId) && d.kind != "manual" then
        before[name := PublicSubnetEntry(d, subnetId)]
      else before[DerivedName(name, n - 1) := Plain(d, 0, subnetId)]
  }

  /** A subnet is compared with a primary subnet id that is nil while the VLAN id is not. */
  predicate NilDereference(d: Declared, pv: PublicVlan) {
    d.subnetIds != [] && pv.id.Some? && pv.primarySubnetId.None?
  }

  function Parsed(m: map<string, Network>, name: string, d: Declared, pv: PublicVlan): map<string, Network> {
    if d.subnetIds != [] then WithSubnets(m, name, d, pv, |d.subnetIds|)
    else WithVlans(m, name, d, pv, |d.vlanIds|)
  }

  /** parseCloudProperties; false where the source dereferences nil. */
  method ParseCloudProperties(networks: NetworkTable, name: string, d: Declared, pv: PublicVlan) returns (ok: bool)
    modifies networks
    ensures !ok <==> d.subnetIds != [] && pv.id.Some? && pv.primarySubnetId.None?
    ensures ok ==> networks.entries == Parsed(old(networks.entries), name, d, pv)
  {
    if |d.subnetIds| > 0 {
      for index := 0 to |d.subnetIds|
        invariant index > 0 ==> !NilDereference(d, pv)
        invariant networks.entries == WithSubnets(old(networks.entries), name, d, pv, index)
      {
        var subnetId := d.subnetIds[index];
        if pv.id.Some? && pv.primarySubnetId.None? {
          return false;
        }
        if pv.id.Some? && pv.primarySubnetId.value == subnetId && d.kind != "manual" {
          networks.entries := networks.entries[name := PublicSubnetEntry(d, subnetId)];
        } else {
          networks.entries := networks.entries[DerivedName(name, index) := Plain(d, 0, subnetId)];
        }
      }
    } else if |d.vlanIds| > 0 {
      for index := 0 to |d.vlanIds|
        invariant networks.entries == WithVlans(old(networks.entries), name, d, pv, index)
      {
        var vlanId := d.vlanIds[index];
        if pv.id.Some? && pv.id.value == vlanId && d.kind != "manual" {
          networks.entries := networks.entries[name := PublicEntry(d, vlanId)];
        } else {
          networks.entries := networks.entries[DerivedName(name, index) := Plain(d, vlanId, 0)];
        }
      }
    }
    return true;
  }

  // ----- all declared networks

  /** The networks of `order`, parsed in that order into one table. */
  function ParsedAll(ns: map<string, Declared>, order: seq<string>, pv: PublicVlan): map<string, Network>
    requires forall n :: n in order ==> n in ns
  {
    if order == [] then map[]
    else
      var last := order[|order| - 1];
      Parsed(ParsedAll(ns, order[..|order| - 1], pv), last, ns[last], pv)
  }

  ghost predicate Lists(order: seq<string>, names: set<string>) {
    && (forall n :: n in order <==> n in names)
    && (forall i, j :: 0 <= i < j < |order| ==> order[i] != order[j])
  }

  /** AsInstanceServiceNetworks, for some order of the map; false where the source dereferences nil. */
  method AsInstanceServiceNetworks(ns: map<string, Declared>, pv: PublicVlan)
    returns (ok: bool, networks: NetworkTable)
    ensures fresh(networks)
    ensures !ok <==> pv.id.Some? && pv.primarySubnetId.None? && exists n :: n in ns && ns[n].subnetIds != []
    ensures ok ==> exists order :: Lists(order, ns.Keys) && networks.entries == ParsedAll(ns, order, pv)
  {
    networks := new NetworkTable();
    var todo := ns.Keys;
    ghost var order: seq<string> := [];
    while todo != {}
      invariant todo <= ns.Keys
      invariant Lists(order, ns.Keys - todo)
      invariant networks.entries == ParsedAll(ns, order, pv)
      invariant forall n :: n in ns && n !in todo ==> !NilDereference(ns[n], pv)
      invariant fresh(networks)
    {
      var name :| name in todo;
      ok := ParseCloudProperties(networks, name, ns[name], pv);
      if !ok {
        assert ns[name].subnetIds != [];
        return false, networks;
      }
      ghost var before := order;
      order := order + [name];
      assert order[..|order| - 1] == before;
      todo := todo - {name};
    }
    assert Lists(order, ns.Keys);
    return true, networks;
  }

  /** The public component of a VM is looked up by VLAN or by subnet, and only that id is set. */
  predicate FromLookup(pv: PublicVlan) {
    !(pv.id.Some? && pv.primarySubnetId.Some?)
  }

  /** With such a component the test for the public subnet either fails or dereferences nil. */
  lemma PublicSubnetNeverMatches(m: map<string, Network>, name: string, d: Declared, pv: PublicVlan, n: nat)
    requires FromLookup(pv) && n <= |d.subnetIds| && !NilDereference(d, pv)
    ensures WithSubnets(m, name, d, pv, n) == WithSubnets(m, name, d, PublicVlan(None, None), n)
  {
  }

  /** No network expanded from subnet ids carries a VLAN id. */
  lemma {:induction false} SubnetsHaveNoVlan(m: map<string, Network>, name: string, d: Declared, pv: PublicVlan,
                                             n: nat, k: string)
    requires n <= |d.subnetIds| && k in WithSubnets(m, name, d, pv, n)
    ensures (k in m && WithSubnets(m, name, d, pv, n)[k] == m[k]) || WithSubnets(m, name, d, pv, n)[k].cloud.vlanId == 0
  {
    if n > 0 && k in WithSubnets(m, name, d, pv, n - 1) {
      SubnetsHaveNoVlan(m, name, d, pv, n - 1, k);
    }
  }

  // ----- the fields of an entry

  /** What d alone is expanded into. */
  function Expansion(name: string, d: Declared, pv: PublicVlan): map<string, Network> {
    Parsed(map[], name, d, pv)
  }

  /** What every entry takes over from the declared network. */
  predicate Inherits(e: Network, d: Declared) {
    && e.kind == d.kind && e.ip == d.ip && e.netmask == d.netmask && e.gateway == d.gateway && e.dns == d.dns
    && e.mac == "" && e.alias == "" && e.routes == []
  }

  /** Only entries of the public component take over the defaults and the routing flag. */
  predicate InheritsRouting(e: Network, d: Declared, isPublic: bool) {
    && e.defaults == (if isPublic then d.defaults else [])
    && e.cloud.sourcePolicyRouting == (isPublic && d.sourcePolicyRouting)
  }

  lemma {:induction false} VlanEntryFields(name: string, d: Declared, pv: PublicVlan, n: nat, k: string)
    requires n <= |d.vlanIds| && k in WithVlans(map[], name, d, pv, n)
    ensures var e := WithVlans(map[], name, d, pv, n)[k];
            && Inherits(e, d) && e.cloud.subnetId == 0 && e.cloud.vlanId in d.vlanIds
            && InheritsRouting(e, d, d.kind != "manual" && pv.id == Some(e.cloud.vlanId))
  {
    if n > 0 && k in WithVlans(map[], name, d, pv, n - 1) {
      VlanEntryFields(name, d, pv, n - 1, k);
    }
  }

  lemma {:induction false} SubnetEntryFields(name: string, d: Declared, pv: PublicVlan, n: nat, k: string)
    requires n <= |d.subnetIds| && k in WithSubnets(map[], name, d, pv, n)
    ensures var e := WithSubnets(map[], name, d, pv, n)[k];
            && Inherits(e, d) && e.cloud.vlanId == 0 && e.cloud.subnetId in d.subnetIds
            && InheritsRouting(e, d, d.kind != "manual" && pv.id.Some? && pv.primarySubnetId == Some(e.cloud.subnetId))
  {
    if n > 0 && k in WithSubnets(map[], name, d, pv, n - 1) {
      SubnetEntryFields(name, d, pv, n - 1, k);
    }
  }

  /** Every entry has the declared kind, addresses and DNS servers and one of the listed ids, the public
      one exactly with the declared defaults and routing flag. */
  lemma ExpansionFields(name: string, d: Declared, pv: PublicVlan, k: string)
    requires k in Expansion(name, d, pv)
    ensures var e := Expansion(name, d, pv)[k];
            && e.kind == d.kind && e.ip == d.ip && e.netmask == d.netmask && e.gateway == d.gateway && e.dns == d.dns
            && e.mac == "" && e.alias == "" && e.routes == []
            && (if d.subnetIds == [] then e.cloud.subnetId == 0 && e.cloud.vlanId in d.vlanIds
                else e.cloud.vlanId == 0 && e.cloud.subnetId in d.subnetIds)
            && (var isPublic := d.kind != "manual" && pv.id.Some?
                                && if d.subnetIds == [] then e.cloud.vlanId == pv.id.value
                                   else Some(e.cloud.subnetId) == pv.primarySubnetId;
                && e.defaults == (if isPublic then d.defaults else [])
                && e.cloud.sourcePolicyRouting == (isPublic && d.sourcePolicyRouting))
  {
    if d.subnetIds != [] {
      SubnetEntryFields(name, d, pv, |d.subnetIds|, k);
    } else {
      VlanEntryFields(name, d, pv, |d.vlanIds|, k);
    }
  }

  /** Each id of a manual network has its entry: the first under the network's name, the others under
      that name, an underscore and their index. */
  lemma ManualEntries(name: string, d: Declared, pv: PublicVlan, i: nat)
    requires d.kind == "manual"
    requires i < if d.subnetIds == [] then |d.vlanIds| else |d.subnetIds|
    ensures var k := if i == 0 then name else name + "_" + Print(i);
            && k in Expansion(name, d, pv)
            && Expansion(name, d, pv)[k].cloud == if d.subnetIds == [] then CloudProperties(d.vlanIds[i], 0, false)
                                                 else CloudProperties(0, d.subnetIds[i], false)
  {
    if d.subnetIds == [] {
      ManualVlans(name, d, pv, |d.vlanIds|, i);
    } else {
      ManualSubnets(name, d, pv, |d.subnetIds|, i);
    }
  }

  lemma {:induction false} ManualVlans(name: string, d: Declared, pv: PublicVlan, n: nat, i: nat)
    requires d.kind == "manual" && i < n <= |d.vlanIds|
    ensures DerivedName(name, i) in WithVlans(map[], name, d, pv, n)
    ensures WithVlans(map[], name, d, pv, n)[DerivedName(name, i)].cloud == CloudProperties(d.vlanIds[i], 0, false)
  {
    DerivedNames(name, i, n - 1);
    if i < n - 1 {
      ManualVlans(name, d, pv, n - 1, i);
    }
  }

  lemma {:induction false} ManualSubnets(name: string, d: Declared, pv: PublicVlan, n: nat, i: nat)
    requires d.kind == "manual" && i < n <= |d.subnetIds|
    ensures DerivedName(name, i) in WithSubnets(map[], name, d, pv, n)
    ensures WithSubnets(map[], name, d, pv, n)[DerivedName(name, i)].cloud == CloudProperties(0, d.subnetIds[i], false)
  {
    DerivedNames(name, i, n - 1);
    if i < n - 1 {
      ManualSubnets(name, d, pv, n - 1, i);
    }
  }

  // ----- networks whose derived names do not collide

  lemma DerivedNames(name: string, i: nat, j: nat)
    ensures DerivedName(name, i) == DerivedName(name, j) <==> i == j
  {
    if i != 0 {
      assert |DerivedName(name, i)| > |name|;
    }
    if j != 0 {
      assert |DerivedName(name, j)| > |name|;
    }
    if i != 0 && j != 0 && DerivedName(name, i) == DerivedName(name, j) {
      assert DerivedName(name, i)[|name| + 1..] == Print(i) && DerivedName(name, j)[|name| + 1..] == Print(j);
      PrintInjective(i, j);
    }
  }

  predicate ListsPublic(d: Declared, pv: PublicVlan, n: nat)
    requires n <= |d.vlanIds|
  {
    d.kind != "manual" && pv.id.Some? && pv.id.value in d.vlanIds[..n]
  }

  /** The entry under the network's own name is the public VLAN's if that is listed, wherever in the
      list; only otherwise is it the first VLAN's. */
  lemma {:induction false} OwnName(name: string, d: Declared, pv: PublicVlan, n: nat)
    requires 1 <= n <= |d.vlanIds|
    ensures name in WithVlans(map[], name, d, pv, n)
    ensures WithVlans(map[], name, d, pv, n)[name] ==
            if ListsPublic(d, pv, n) then PublicEntry(d, pv.id.value) else Plain(d, d.vlanIds[0], 0)
  {
    assert d.vlanIds[..n] == d.vlanIds[..n - 1] + [d.vlanIds[n - 1]];
    DerivedNames(name, 0, n - 1);
    if n > 1 {
      OwnName(name, d, pv, n - 1);
    }
  }

  /** Every later VLAN that is not the public one has an entry under its derived name. */
  lemma {:induction false} LaterVlan(name: string, d: Declared, pv: PublicVlan, n: nat, i: nat)
    requires 1 <= i < n <= |d.vlanIds| && !(d.kind != "manual" && pv.id == Some(d.vlanIds[i]))
    ensures DerivedName(name, i) in WithVlans(map[], name, d, pv, n)
    ensures WithVlans(map[], name, d, pv, n)[DerivedName(name, i)] == Plain(d, d.vlanIds[i], 0)
  {
    DerivedNames(name, i, n - 1);
    DerivedNames(name, i, 0);
    if i < n - 1 {
      LaterVlan(name, d, pv, n - 1, i);
    }
  }

  /** So a listed VLAN is without an entry exactly if it comes first, is not the public one, and the
      public one comes later. */
  lemma FirstVlanLost(name: string, d: Declared, pv: PublicVlan, i: nat)
    requires i < |d.vlanIds| && d.subnetIds == []
    requires forall a, b :: 0 <= a < b < |d.vlanIds| ==> d.vlanIds[a] != d.vlanIds[b]
    ensures (exists k :: k in Expansion(name, d, pv) && Expansion(name, d, pv)[k].cloud.vlanId == d.vlanIds[i])
       <==> !(i == 0 && pv.id != Some(d.vlanIds[0]) && ListsPublic(d, pv, |d.vlanIds|))
  {
    var n := |d.vlanIds|;
    var e := Expansion(name, d, pv);
    OwnName(name, d, pv, n);
    assert d.vlanIds[..n] == d.vlanIds;
    if i > 0 && !(d.kind != "manual" && pv.id == Some(d.vlanIds[i])) {
      LaterVlan(name, d, pv, n, i);
      assert e[DerivedName(name, i)].cloud.vlanId == d.vlanIds[i];
    } else if i == 0 && pv.id != Some(d.vlanIds[0]) && ListsPublic(d, pv, n) {
      forall k | k in e ensures e[k].cloud.vlanId != d.vlanIds[0] {
        SourceVlan(name, d, pv, n, k);
      }
    } else {
      assert e[name].cloud.vlanId == d.vlanIds[i];
    }
  }

  lemma {:induction false} SourceVlan(name: string, d: Declared, pv: PublicVlan, n: nat, k: string)
    requires 1 <= n <= |d.vlanIds| && k in WithVlans(map[], name, d, pv, n)
    ensures k == name || exists j :: 1 <= j < n && WithVlans(map[], name, d, pv, n)[k].cloud.vlanId == d.vlanIds[j]
  {
    if n > 1 && k in WithVlans(map[], name, d, pv, n - 1) {
      SourceVlan(name, d, pv, n - 1, k);
    }
  }

  lemma {:induction false} WithVlansAdds(m: map<string, Network>, name: string, d: Declared, pv: PublicVlan, n: nat)
    requires n <= |d.vlanIds|
    ensures WithVlans(m, name, d, pv, n) == m + WithVlans(map[], name, d, pv, n)
  {
    if n > 0 {
      WithVlansAdds(m, name, d, pv, n - 1);
    }
  }

  lemma {:induction false} WithSubnetsAdds(m: map<string, Network>, name: string, d: Declared, pv: PublicVlan, n: nat)
    requires n <= |d.subnetIds|
    ensures WithSubnets(m, name, d, pv, n) == m + WithSubnets(map[], name, d, pv, n)
  {
    if n > 0 {
      WithSubnetsAdds(m, name, d, pv, n - 1);
    }
  }

  lemma ParsedAdds(m: map<string, Network>, name: string, d: Declared, pv: PublicVlan)
    ensures Parsed(m, name, d, pv) == m + Expansion(name, d, pv)
  {
    if d.subnetIds != [] {
      WithSubnetsAdds(m, name, d, pv, |d.subnetIds|);
    } else {
      WithVlansAdds(m, name, d, pv, |d.vlanIds|);
    }
  }

  /** Networks that write entries under the same name write the same ones. */
  ghost predicate Compatible(ns: map<string, Declared>, pv: PublicVlan) {
    forall a, b, k :: a in ns && b in ns && k in Expansion(a, ns[a], pv) && k in Expansion(b, ns[b], pv) ==>
      Expansion(a, ns[a], pv)[k] == Expansion(b, ns[b], pv)[k]
  }

  /** Compatible networks each contribute exactly their expansion, whatever the order. */
  lemma {:induction false} ParsedAllEntries(ns: map<string, Declared>, order: seq<string>, pv: PublicVlan)
    requires forall n :: n in order ==> n in ns
    requires Compatible(ns, pv) && forall i, j :: 0 <= i < j < |order| ==> order[i] != order[j]
    ensures forall n, k :: n in order && k in Expansion(n, ns[n], pv) ==>
              k in ParsedAll(ns, order, pv) && ParsedAll(ns, order, pv)[k] == Expansion(n, ns[n], pv)[k]
    ensures forall k :: k in ParsedAll(ns, order, pv) ==> exists n :: n in order && k in Expansion(n, ns[n], pv)
  {
    if order != [] {
      var before, last := order[..|order| - 1], order[|order| - 1];
      ParsedAllEntries(ns, before, pv);
      ParsedAdds(ParsedAll(ns, before, pv), last, ns[last], pv);
      assert last in order;
      forall n, k | n in order && k in Expansion(n, ns[n], pv)
        ensures k in ParsedAll(ns, order, pv) && ParsedAll(ns, order, pv)[k] == Expansion(n, ns[n], pv)[k]
      {
        if n != last {
          assert n in before;
        }
      }
      forall k | k in ParsedAll(ns, order, pv)
        ensures exists n :: n in order && k in Expansion(n, ns[n], pv)
      {
        if k !in Expansion(last, ns[last], pv) {
          var n :| n in before && k in Expansion(n, ns[n], pv);
          assert n in order;
        }
      }
    }
  }

  lemma SourceOf(ns: map<string, Declared>, order: seq<string>, pv: PublicVlan, k: string) returns (n: string)
    requires Compatible(ns, pv) && Lists(order, ns.Keys) && k in ParsedAll(ns, order, pv)
    ensures n in ns && k in Expansion(n, ns[n], pv)
  {
    ParsedAllEntries(ns, order, pv);
    n :| n in order && k in Expansion(n, ns[n], pv);
  }

  lemma EntryOf(ns: map<string, Declared>, order: seq<string>, pv: PublicVlan, n: string, k: string)
    requires Compatible(ns, pv) && Lists(order, ns.Keys) && n in ns && k in Expansion(n, ns[n], pv)
    ensures k in ParsedAll(ns, order, pv) && ParsedAll(ns, order, pv)[k] == Expansion(n, ns[n], pv)[k]
  {
    assert n in order;
    ParsedAllEntries(ns, order, pv);
  }

  lemma EntryInAnyOrder(ns: map<string, Declared>, order: seq<string>, order': seq<string>, pv: PublicVlan, k: string)
    requires Compatible(ns, pv) && Lists(order, ns.Keys) && Lists(order', ns.Keys)
    requires k in ParsedAll(ns, order, pv)
    ensures k in ParsedAll(ns, order', pv) && ParsedAll(ns, order, pv)[k] == ParsedAll(ns, order', pv)[k]
  {
    var n := SourceOf(ns, order, pv, k);
    EntryOf(ns, order, pv, n, k);
    EntryOf(ns, order', pv, n, k);
  }

  ghost predicate SameInAnyOrder(ns: map<string, Declared>, pv: PublicVlan) {
    forall order, order' :: Lists(order, ns.Keys) && Lists(order', ns.Keys) ==>
      ParsedAll(ns, order, pv) == ParsedAll(ns, order', pv)
  }

  lemma CompatibleIsSame(ns: map<string, Declared>, order: seq<string>, order': seq<string>, pv: PublicVlan)
    requires Compatible(ns, pv) && Lists(order, ns.Keys) && Lists(order', ns.Keys)
    ensures ParsedAll(ns, order, pv) == ParsedAll(ns, order', pv)
  {
    forall k | k in ParsedAll(ns, order, pv) { EntryInAnyOrder(ns, order, order', pv, k); }
    forall k | k in ParsedAll(ns, order', pv) { EntryInAnyOrder(ns, order', order, pv, k); }
  }

  lemma {:induction false} SomeOrder(names: set<string>) returns (order: seq<string>)
    ensures Lists(order, names)
    decreases names
  {
    if names == {} {
      order := [];
    } else {
      var n :| n in names;
      var rest := SomeOrder(names - {n});
      order := rest + [n];
    }
  }

  /** Of two networks that are visited last the very last one decides. */
  lemma LastDecides(ns: map<string, Declared>, order: seq<string>, a: string, pv: PublicVlan, k: string)
    requires (forall n :: n in order ==> n in ns) && a in ns && k in Expansion(a, ns[a], pv)
    ensures k in ParsedAll(ns, order + [a], pv)
    ensures ParsedAll(ns, order + [a], pv)[k] == Expansion(a, ns[a], pv)[k]
  {
    assert (order + [a])[..|order|] == order;
    ParsedAdds(ParsedAll(ns, order, pv), a, ns[a], pv);
  }

  lemma ListsTwoMore(rest: seq<string>, names: set<string>, a: string, b: string)
    requires a in names && b in names && a != b && Lists(rest, names - {a, b})
    ensures Lists(rest + [a] + [b], names)
  {
    var order := rest + [a] + [b];
    forall n ensures n in order <==> n in names {
      assert n in order <==> n in rest || n == a || n == b;
    }
  }

  lemma ConflictShows(ns: map<string, Declared>, pv: PublicVlan, a: string, b: string, k: string)
    requires a in ns && b in ns && k in Expansion(a, ns[a], pv) && k in Expansion(b, ns[b], pv)
    requires Expansion(a, ns[a], pv)[k] != Expansion(b, ns[b], pv)[k]
    ensures !SameInAnyOrder(ns, pv)
  {
    var rest := SomeOrder(ns.Keys - {a, b});
    LastOfTwo(ns, rest, a, b, pv, k);
    assert ns.Keys - {a, b} == ns.Keys - {b, a};
    LastOfTwo(ns, rest, b, a, pv, k);
    OrdersDiffer(ns, pv, rest + [a] + [b], rest + [b] + [a], k);
  }

  lemma OrdersDiffer(ns: map<string, Declared>, pv: PublicVlan, order: seq<string>, order': seq<string>, k: string)
    requires Lists(order, ns.Keys) && Lists(order', ns.Keys)
    requires k in ParsedAll(ns, order, pv) && k in ParsedAll(ns, order', pv)
    requires ParsedAll(ns, order, pv)[k] != ParsedAll(ns, order', pv)[k]
    ensures !SameInAnyOrder(ns, pv)
  {
  }

  lemma LastOfTwo(ns: map<string, Declared>, rest: seq<string>, a: string, b: string, pv: PublicVlan, k: string)
    requires a in ns && b in ns && a != b && Lists(rest, ns.Keys - {a, b}) && k in Expansion(b, ns[b], pv)
    ensures Lists(rest + [a] + [b], ns.Keys)
    ensures k in ParsedAll(ns, rest + [a] + [b], pv)
    ensures ParsedAll(ns, rest + [a] + [b], pv)[k] == Expansion(b, ns[b], pv)[k]
  {
    ListsTwoMore(rest, ns.Keys, a, b);
    LastDecides(ns, rest + [a], b, pv, k);
  }

  /** The result is the same for every order in which the map is visited if and only if the networks
      are compatible. */
  lemma ParsedAllOrderIrrelevant(ns: map<string, Declared>, pv: PublicVlan)
    ensures SameInAnyOrder(ns, pv) <==> Compatible(ns, pv)
  {
    if Compatible(ns, pv) {
      forall order, order' | Lists(order, ns.Keys) && Lists(order', ns.Keys)
        ensures ParsedAll(ns, order, pv) == ParsedAll(ns, order', pv)
      {
        CompatibleIsSame(ns, order, order', pv);
      }
    } else {
      var a, b, k :| a in ns && b in ns && k in Expansion(a, ns[a], pv) && k in Expansion(b, ns[b], pv)
                     && Expansion(a, ns[a], pv)[k] != Expansion(b, ns[b], pv)[k];
      ConflictShows(ns, pv, a, b, k);
    }
  }
}
