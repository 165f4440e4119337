/** create_vm over the cloud's VMs and the agent registry (action/create_vm.go, Run from the OS reload
    on, and createByOsReload; CreateInstance of client.go for what a failed creation leaves behind). */
module CreateVm {
  import opened Common
  import AgentSettings
  import Decimal
  import Subnets

  datatype Network = Network(kind: string, ip: string)

  /** What the run does to VMs and records, in order. */
  datatype Event =
    | RecordDeleted(vm: nat)
    | Reloaded(vm: nat)
    | Created(vm: nat)
    | Cancelled(vm: nat)
    | RecordWritten(vm: nat)

  datatype State = State(vms: set<nat>, records: map<nat, AgentSettings.Record>, log: seq<Event>)

  /** A creation that fails may have ordered its VM already. */
  datatype Creation = Ready(vm: nat) | Broken(left: Option<nat>)

  /** The steps after the VM is there. */
  datatype Stage = Configuring | Finding | UpdatingHost | AddingDisk | WritingRecord(applied: bool)

  /** What the cloud and the registry answer: the VM found for an address, the VMs for which a
      request fails, the creation, the stage at which the rest fails, and whether the clean-up does. */
  datatype World = World(
    parse: string -> Subnets.Address,
    byBackendIp: map<string, nat>,
    byPrimaryIp: map<string, nat>,
    deleteFails: set<nat>,
    upgradeFails: set<nat>,
    reloadFails: set<nat>,
    creation: Creation,
    failsAt: Option<Stage>,
    cleanUpFails: bool)

  /** What the caller asks for; `others` becomes the agent's record but for the VM's name. */
  datatype Request = Request(reload: bool, networks: map<string, Network>, others: AgentSettings.Others,
                             ephemeralSize: int)

  const DEFAULT_EPHEMERAL_DISK: string := "/dev/xvdc"

  // ----- reloading

  /** Ids are positive, so 0 stands for no VM. */
  ghost predicate PositiveIds(w: World) {
    && (forall ip :: ip in w.byBackendIp ==> w.byBackendIp[ip] != 0)
    && (forall ip :: ip in w.byPrimaryIp ==> w.byPrimaryIp[ip] != 0)
  }

  predicate Reloadable(nw: Network) {
    nw.kind == "dynamic" && nw.ip != ""
  }

  function Lookup(w: World, ip: string): Option<nat> {
    var table := if Subnets.Private(w.parse(ip)) then w.byBackendIp else w.byPrimaryIp;
    if ip in table then Some(table[ip]) else None
  }

  datatype Reload = Reload(state: State, vm: nat, ok: bool)

  /** The reload for one network; a reload that fails may have begun. */
  function ReloadFor(s: State, w: World, ip: string): Reload {
    var found := Lookup(w, ip);
    if found.None? then Reload(s, 0, false)
    else if found.value in w.deleteFails then Reload(s, 0, false)
    else
      var vm := found.value;
      var cleaned := State(s.vms, s.records - {vm}, s.log + [RecordDeleted(vm)]);
      if vm in w.upgradeFails then Reload(cleaned, 0, false)
      else
        var reloaded := cleaned.(log := cleaned.log + [Reloaded(vm)]);
        if vm in w.reloadFails then Reload(reloaded, 0, false) else Reload(reloaded, vm, true)
  }

  ghost predicate NoVip(r: Request) {
    forall n :: n in r.networks ==> r.networks[n].kind != "vip"
  }

  function Candidates(r: Request): set<string> {
    set n | n in r.networks && Reloadable(r.networks[n])
  }

  // ----- the whole run, for the network the reload chose

  datatype Outcome = Outcome(state: State, vm: nat, ok: bool)

  function Write(s: State, vm: nat, record: AgentSettings.Record): State {
    State(s.vms, s.records[vm := record], s.log + [RecordWritten(vm)])
  }

  function RecordFor(r: Request, vm: nat): AgentSettings.Record {
    var base := AgentSettings.Fresh(r.others.(vmName := Decimal.Print(vm)));
    if r.ephemeralSize > 0 then base.(ephemeral := DEFAULT_EPHEMERAL_DISK) else base
  }

  /** The deferred clean-up, which does nothing once reloading was enabled. */
  function CleanUp(s: State, w: World, r: Request, vm: nat): State {
    if r.reload || w.cleanUpFails then s else State(s.vms - {vm}, s.records, s.log + [Cancelled(vm)])
  }

  /** The stage that fails, if it is reached. */
  function Failing(w: World, r: Request): Option<Stage> {
    if w.failsAt == Some(AddingDisk) && r.ephemeralSize <= 0 then None else w.failsAt
  }

  function Finish(s: State, w: World, r: Request, vm: nat): Outcome {
    match Failing(w, r)
    case None => Outcome(Write(s, vm, RecordFor(r, vm)), vm, true)
    case Some(WritingRecord(true)) => Outcome(CleanUp(Write(s, vm, RecordFor(r, vm)), w, r, vm), 0, false)
    case Some(_) => Outcome(CleanUp(s, w, r, vm), 0, false)
  }

  function CreateAndFinish(s: State, w: World, r: Request): Outcome {
    match w.creation
    case Broken(None) => Outcome(s, 0, false)
    case Broken(Some(vm)) => Outcome(s.(vms := s.vms + {vm}, log := s.log + [Created(vm)]), 0, false)
    case Ready(vm) => Finish(s.(vms := s.vms + {vm}, log := s.log + [Created(vm)]), w, r, vm)
  }

  /** `chosen` is the first reloadable network that the iteration over the map meets. */
  function RunFor(s: State, w: World, r: Request, chosen: Option<string>): Outcome
    requires chosen.Some? ==> chosen.value in r.networks
  {
    if !r.reload || chosen.None? then CreateAndFinish(s, w, r)
    else
      var reload := ReloadFor(s, w, r.networks[chosen.value].ip);
      if !reload.ok then Outcome(reload.state, 0, false)
      else Finish(reload.state, w, r, reload.vm)
  }

  ghost predicate Choice(r: Request, chosen: Option<string>) {
    if Candidates(r) == {} then chosen.None? else chosen.Some? && chosen.value in Candidates(r)
  }

  // ----- the action in place

  class Cloud {
    var vms: set<nat>
    var records: map<nat, AgentSettings.Record>
    ghost var log: seq<Event>

    ghost function View(): State
      reads this
    {
      State(vms, records, log)
    }

    /** createByOsReload; `first` is the network it used. */
    method CreateByOsReload(w: World, r: Request) returns (vm: nat, ok: bool, ghost first: Option<string>)
      requires PositiveIds(w) && NoVip(r)
      modifies this
      ensures Choice(r, first)
      ensures first.None? ==> ok && vm == 0 && View() == old(View())
      ensures first.Some? ==> first.value in r.networks
      ensures first.Some? ==> Reload(View(), vm, ok) == ReloadFor(old(View()), w, r.networks[first.value].ip)
    {
      vm, ok, first := 0, true, None;
      var todo := r.networks.Keys;
      while todo != {}
        invariant todo <= r.networks.Keys && ok
        invariant first.None? ==> vm == 0 && View() == old(View()) && Candidates(r) <= todo
        invariant first.Some? ==> first.value in Candidates(r) && vm != 0
        invariant first.Some? ==> Reload(View(), vm, true) == ReloadFor(old(View()), w, r.networks[first.value].ip)
      {
        var name :| name in todo;
        todo := todo - {name};
        var network := r.networks[name];
        if network.kind == "dynamic" {
          if |network.ip| > 0 && vm == 0 {
            first := Some(name);
            assert name in Candidates(r);
            var private := Subnets.IsPrivateSubnet(w.parse(network.ip));
            var table := if private then w.byBackendIp else w.byPrimaryIp;
            if network.ip !in table {
              return 0, false, first;
            }
            var id := table[network.ip];
            if id in w.deleteFails {
              return 0, false, first;
            }
            records := records - {id};
            log := log + [RecordDeleted(id)];
            if id in w.upgradeFails {
              return 0, false, first;
            }
            log := log + [Reloaded(id)];
            if id in w.reloadFails {
              return 0, false, first;
            }
            vm := id;
          }
        } else if network.kind == "vip" {
          assert false;
        }
      }
    }

    method Run(w: World, r: Request) returns (vm: nat, ok: bool, ghost chosen: Option<string>)
      requires PositiveIds(w) && NoVip(r) && (w.creation.Ready? ==> w.creation.vm != 0)
      modifies this
      ensures Choice(r, chosen)
      ensures chosen.Some? ==> chosen.value in r.networks
      ensures Outcome(View(), vm, ok) == RunFor(old(View()), w, r, chosen)
    {
      chosen := if Candidates(r) == {} then None else var n :| n in Candidates(r); Some(n);
      var cid: nat := 0;
      var osReloaded := false;
      if r.reload {
        cid, ok, chosen := CreateByOsReload(w, r);
        if !ok {
          return 0, false, chosen;
        }
        osReloaded := true;
      }
      if cid == 0 {
        match w.creation {
          case Broken(left) =>
            if left.Some? {
              vms := vms + {left.value};
              log := log + [Created(left.value)];
            }
            return 0, false, chosen;
          case Ready(id) =>
            vms := vms + {id};
            log := log + [Created(id)];
            cid := id;
        }
      }
      ok := Prepare(w, r, cid);
      if !ok && !osReloaded && !w.cleanUpFails {
        vms := vms - {cid};
        log := log + [Cancelled(cid)];
      }
      vm := if ok then cid else 0;
    }

    /** The steps from configuring the networks to writing the record. */
    method Prepare(w: World, r: Request, vm: nat) returns (ok: bool)
      modifies this
      ensures ok == Failing(w, r).None?
      ensures View() == if ok || (Failing(w, r).value.WritingRecord? && Failing(w, r).value.applied)
                        then Write(old(View()), vm, RecordFor(r, vm)) else old(View())
    {
      if w.failsAt == Some(Configuring) {
        return false;
      }
      if w.failsAt == Some(Finding) {
        return false;
      }
      if w.failsAt == Some(UpdatingHost) {
        return false;
      }
      var others := r.others.(vmName := Decimal.Print(vm));
      var settings := AgentSettings.NewAgentSettings(others);
      if r.ephemeralSize > 0 {
        if w.failsAt == Some(AddingDisk) {
          return false;
        }
        settings := AgentSettings.AttachEphemeralDisk(settings, DEFAULT_EPHEMERAL_DISK);
      }
      var refused := w.failsAt.Some? && w.failsAt.value.WritingRecord?;
      if !refused || w.failsAt.value.applied {
        records := records[vm := RecordFor(r, vm)];
        log := log + [RecordWritten(vm)];
        assert records[vm] == AgentSettings.View(settings);
      }
      return !refused;
    }
  }

  // ----- what every run does

  predicate Trailing(e: Event) {
    e.RecordWritten? || e.Cancelled?
  }

  /** What the steps after the VM is there add to the log. */
  lemma FinishAdds(s: State, w: World, r: Request, vm: nat) returns (events: seq<Event>)
    ensures Finish(s, w, r, vm).state.log == s.log + events
    ensures forall i :: 0 <= i < |events| ==> Trailing(events[i])
  {
    var log := Finish(s, w, r, vm).state.log;
    assert s.log <= log;
    events := log[|s.log|..];
  }

  ghost predicate ReloadsOnceAfterDeleting(events: seq<Event>) {
    && (forall i, j :: 0 <= i < j < |events| && events[i].Reloaded? ==> !events[j].Reloaded?)
    && (forall i :: 0 <= i < |events| && events[i].Reloaded? ==>
          i > 0 && events[i - 1] == RecordDeleted(events[i].vm))
  }

  ghost predicate ReloadsWithoutCreating(events: seq<Event>) {
    && ReloadsOnceAfterDeleting(events)
    && ((exists i :: 0 <= i < |events| && events[i].Created?)
          ==> forall i :: 0 <= i < |events| ==> !events[i].Reloaded?)
  }

  lemma CreationAdds(s: State, w: World, r: Request) returns (events: seq<Event>)
    ensures CreateAndFinish(s, w, r).state.log == s.log + events && ReloadsWithoutCreating(events)
  {
    if w.creation.Ready? {
      var vm := w.creation.vm;
      var rest := FinishAdds(s.(vms := s.vms + {vm}, log := s.log + [Created(vm)]), w, r, vm);
      events := [Created(vm)] + rest;
    } else {
      events := if w.creation.left.Some? then [Created(w.creation.left.value)] else [];
    }
  }

  lemma ReloadAdds(s: State, w: World, ip: string) returns (events: seq<Event>)
    ensures ReloadFor(s, w, ip).state.log == s.log + events && ReloadsWithoutCreating(events)
    ensures var r := ReloadFor(s, w, ip); r.ok ==> events == [RecordDeleted(r.vm), Reloaded(r.vm)]
  {
    events := ReloadFor(s, w, ip).state.log[|s.log|..];
  }

  /** Whatever network the iteration meets first, at most one VM is reloaded, immediately after its
      old record was deleted; and a run that creates a VM reloads none. */
  lemma OneReload(s: State, w: World, r: Request, chosen: Option<string>)
    requires chosen.Some? ==> chosen.value in r.networks
    ensures exists events :: RunFor(s, w, r, chosen).state.log == s.log + events && ReloadsWithoutCreating(events)
  {
    if !r.reload || chosen.None? {
      var events := CreationAdds(s, w, r);
    } else {
      var ip := r.networks[chosen.value].ip;
      var events := ReloadAdds(s, w, ip);
      var reload := ReloadFor(s, w, ip);
      if reload.ok {
        var rest := FinishAdds(reload.state, w, r, reload.vm);
        assert RunFor(s, w, r, chosen).state.log == s.log + (events + rest);
      }
    }
  }

  /** The table in which an address is looked up: backend addresses for the private blocks of IPv4,
      primary addresses for all others. */
  function TableFor(w: World, ip: string): map<string, nat> {
    var bytes := w.parse(ip);
    if |bytes| == 16 && bytes[..12] == [0, 0, 0, 0, 0, 0, 0, 0, 0, 0, 255, 255]
       && Subnets.InPrivateBlock(Subnets.Number(bytes[12..]))
    then w.byBackendIp else w.byPrimaryIp
  }

  /** The events that touch an existing VM or its record. */
  predicate Touches(e: Event, vm: nat) {
    e == RecordDeleted(vm) || e == Reloaded(vm)
  }

  lemma LookupInTable(w: World, ip: string)
    ensures Lookup(w, ip) == if ip in TableFor(w, ip) then Some(TableFor(w, ip)[ip]) else None
  {
    Subnets.PrivateIffInBlock(w.parse(ip));
  }

  /** A run that reloads reloads the VM that has the chosen network's address: no other VM and no other
      record is touched, and an address that no VM has fails the run without a change. */
  lemma ReloadsTheVmOfTheAddress(s: State, w: World, r: Request, chosen: string)
    requires r.reload && chosen in r.networks
    ensures var ip := r.networks[chosen].ip;
            var table, o := TableFor(w, ip), RunFor(s, w, r, Some(chosen));
            if ip !in table then o == Outcome(s, 0, false)
            else
              && s.log <= o.state.log
              && (forall i, vm :: |s.log| <= i < |o.state.log| && Touches(o.state.log[i], vm) ==> vm == table[ip])
              && (forall vm :: vm != table[ip] ==> (vm in o.state.records <==> vm in s.records))
              && (forall vm :: vm != table[ip] && vm in s.records ==> o.state.records[vm] == s.records[vm])
              && (o.ok ==> o.vm == table[ip] && o.state.vms == s.vms)
  {
    LookupInTable(w, r.networks[chosen].ip);
  }

  /** The steps of a reload, in order: the record is deleted, the upgrade ordered, the VM reloaded. One
      that fails ends the run, and what was done before it stays done. */
  lemma ReloadSteps(s: State, w: World, r: Request, chosen: string)
    requires r.reload && chosen in r.networks && r.networks[chosen].ip in TableFor(w, r.networks[chosen].ip)
    ensures var vm, o := TableFor(w, r.networks[chosen].ip)[r.networks[chosen].ip], RunFor(s, w, r, Some(chosen));
            && (vm in w.deleteFails ==> o == Outcome(s, 0, false))
            && (vm !in w.deleteFails && vm in w.upgradeFails ==>
                  o == Outcome(State(s.vms, s.records - {vm}, s.log + [RecordDeleted(vm)]), 0, false))
            && (vm !in w.deleteFails && vm !in w.upgradeFails ==>
                  s.log + [RecordDeleted(vm), Reloaded(vm)] <= o.state.log)
            && (vm !in w.deleteFails && vm !in w.upgradeFails && vm in w.reloadFails ==>
                  o == Outcome(State(s.vms, s.records - {vm}, s.log + [RecordDeleted(vm), Reloaded(vm)]), 0, false))
  {
    LookupInTable(w, r.networks[chosen].ip);
    var vm := TableFor(w, r.networks[chosen].ip)[r.networks[chosen].ip];
    assert s.log + [RecordDeleted(vm)] + [Reloaded(vm)] == s.log + [RecordDeleted(vm), Reloaded(vm)];
  }

  /** When a run succeeds: what it takes the VM from succeeds, and no step after that fails. */
  lemma SucceedsIff(s: State, w: World, r: Request, chosen: Option<string>)
    requires chosen.Some? ==> chosen.value in r.networks
    ensures RunFor(s, w, r, chosen).ok
       <==> && (w.failsAt == None || (w.failsAt == Some(AddingDisk) && r.ephemeralSize <= 0))
            && if r.reload && chosen.Some? then
                 var ip := r.networks[chosen.value].ip;
                 var table := TableFor(w, ip);
                 ip in table && table[ip] !in w.deleteFails && table[ip] !in w.upgradeFails
                 && table[ip] !in w.reloadFails
               else w.creation.Ready?
  {
    if chosen.Some? {
      LookupInTable(w, r.networks[chosen.value].ip);
    }
  }

  /** What the choice is: a dynamic network with an address if there is one. */
  lemma ChoiceMeans(r: Request, chosen: Option<string>)
    ensures Choice(r, chosen)
       <==> if chosen.Some? then chosen.value in r.networks && r.networks[chosen.value].kind == "dynamic"
                                 && r.networks[chosen.value].ip != ""
            else forall n :: n in r.networks ==> r.networks[n].kind != "dynamic" || r.networks[n].ip == ""
  {
    forall n | n in r.networks && Reloadable(r.networks[n]) ensures n in Candidates(r) {
    }
  }

  /** The VMs found by address are there. */
  ghost predicate FindsVms(s: State, w: World) {
    && (forall ip :: ip in w.byBackendIp ==> w.byBackendIp[ip] in s.vms)
    && (forall ip :: ip in w.byPrimaryIp ==> w.byPrimaryIp[ip] in s.vms)
  }

  /** A successful run returns a VM that is there, if the one found for a reload is, and has the record of
      a new agent under its id. */
  lemma SuccessLeavesRecord(s: State, w: World, r: Request, chosen: Option<string>)
    requires chosen.Some? ==> chosen.value in r.networks
    requires RunFor(s, w, r, chosen).ok
    ensures var o := RunFor(s, w, r, chosen);
            && o.vm in o.state.records && o.state.records[o.vm].disks == map[]
            && o.state.records[o.vm].others == r.others.(vmName := Decimal.Print(o.vm))
            && o.state.records[o.vm].ephemeral == (if r.ephemeralSize > 0 then "/dev/xvdc" else "")
            && (forall v :: v != o.vm ==> (v in o.state.records <==> v in s.records))
            && (forall v :: v != o.vm && v in s.records ==> o.state.records[v] == s.records[v])
            && (FindsVms(s, w) ==> o.vm in o.state.vms)
            && (o.state.vms == s.vms || (w.creation.Ready? && o.vm == w.creation.vm && o.state.vms == s.vms + {o.vm}))
  {
  }

  /** The VM that a failed run leaves behind. */
  function LeftBehind(w: World, r: Request, chosen: Option<string>): Option<nat> {
    if r.reload && chosen.Some? then None
    else match w.creation
         case Broken(left) => left
         case Ready(vm) => if r.reload || w.cleanUpFails then Some(vm) else None
  }

  ghost predicate NewIds(s: State, w: World) {
    match w.creation
    case Ready(vm) => vm !in s.vms
    case Broken(Some(vm)) => vm !in s.vms
    case Broken(None) => true
  }

  /** A failed run leaves the VMs as they were, except for a VM whose creation broke off after it was
      ordered, and one that was created and not cleaned up: because the clean-up failed, or because
      reloading was enabled although no VM was reloaded. */
  lemma FailureLeavesVms(s: State, w: World, r: Request, chosen: Option<string>)
    requires chosen.Some? ==> chosen.value in r.networks
    requires NewIds(s, w) && !RunFor(s, w, r, chosen).ok
    ensures var left := LeftBehind(w, r, chosen);
            RunFor(s, w, r, chosen).state.vms == if left.Some? then s.vms + {left.value} else s.vms
    ensures RunFor(s, w, r, chosen).state.vms == s.vms <==> LeftBehind(w, r, chosen).None?
  {
    var left := LeftBehind(w, r, chosen);
    if left.Some? {
      assert left.value in s.vms + {left.value} && left.value !in s.vms;
    } else if w.creation.Ready? {
      assert s.vms + {w.creation.vm} - {w.creation.vm} == s.vms;
    }
  }

  /** With reloading disabled, a creation that leaves nothing when it fails, and a clean-up that
      works, every failing run leaves the VMs unchanged. */
  lemma FailureWithoutReload(s: State, w: World, r: Request, chosen: Option<string>)
    requires chosen.Some? ==> chosen.value in r.networks
    requires NewIds(s, w) && !RunFor(s, w, r, chosen).ok
    requires !r.reload && !w.cleanUpFails && (w.creation.Broken? ==> w.creation.left.None?)
    ensures RunFor(s, w, r, chosen).state.vms == s.vms
  {
    FailureLeavesVms(s, w, r, chosen);
  }

  /** A VM whose record was deleted for a reload has a record after the run if and only if the run
      got as far as having the new one written. */
  lemma DeletedRecordIsReplaced(s: State, w: World, r: Request, chosen: string)
    requires r.reload && chosen in r.networks
    requires Lookup(w, r.networks[chosen].ip).Some? && Lookup(w, r.networks[chosen].ip).value !in w.deleteFails
    ensures var vm := Lookup(w, r.networks[chosen].ip).value;
            vm in RunFor(s, w, r, Some(chosen)).state.records
            <==> vm !in w.upgradeFails && vm !in w.reloadFails
                 && (Failing(w, r).None? || Failing(w, r) == Some(WritingRecord(true)))
  {
  }

  // ----- the log tells all

  function VmsAfter(vms: set<nat>, events: seq<Event>): set<nat> {
    if events == [] then vms
    else
      var before := VmsAfter(vms, events[..|events| - 1]);
      match events[|events| - 1]
      case Created(vm) => before + {vm}
      case Cancelled(vm) => before - {vm}
      case _ => before
  }

  function RecordsAfter(keys: set<nat>, events: seq<Event>): set<nat> {
    if events == [] then keys
    else
      var before := RecordsAfter(keys, events[..|events| - 1]);
      match events[|events| - 1]
      case RecordWritten(vm) => before + {vm}
      case RecordDeleted(vm) => before - {vm}
      case _ => before
  }

  /** t is s after these events, as far as VMs and the keys of records go. */
  ghost predicate Told(s: State, t: State, events: seq<Event>) {
    && t.log == s.log + events
    && t.vms == VmsAfter(s.vms, events)
    && t.records.Keys == RecordsAfter(s.records.Keys, events)
  }

  lemma ToldOneMore(s: State, t: State, events: seq<Event>, u: State, e: Event)
    requires Told(s, t, events) && u.log == t.log + [e]
    requires u.vms == VmsAfter(t.vms, [e]) && u.records.Keys == RecordsAfter(t.records.Keys, [e])
    ensures Told(s, u, events + [e])
  {
    assert (events + [e])[..|events|] == events && [e][..0] == [];
  }

  lemma FinishTold(s: State, t: State, events: seq<Event>, w: World, r: Request, vm: nat) returns (more: seq<Event>)
    requires Told(s, t, events)
    ensures Told(s, Finish(t, w, r, vm).state, more)
  {
    more := events;
    var now := t;
    assert forall e: Event :: [e][..0] == [];
    if Failing(w, r).None? || Failing(w, r) == Some(WritingRecord(true)) {
      now := Write(t, vm, RecordFor(r, vm));
      ToldOneMore(s, t, events, now, RecordWritten(vm));
      more := events + [RecordWritten(vm)];
    }
    if Failing(w, r).Some? && !r.reload && !w.cleanUpFails {
      ToldOneMore(s, now, more, CleanUp(now, w, r, vm), Cancelled(vm));
      more := more + [Cancelled(vm)];
    }
  }

  lemma CreationTold(s: State, w: World, r: Request) returns (events: seq<Event>)
    ensures Told(s, CreateAndFinish(s, w, r).state, events)
  {
    assert Told(s, s, []);
    assert forall e: Event :: [e][..0] == [];
    match w.creation
    case Ready(vm) =>
      var t := s.(vms := s.vms + {vm}, log := s.log + [Created(vm)]);
      ToldOneMore(s, s, [], t, Created(vm));
      events := FinishTold(s, t, [] + [Created(vm)], w, r, vm);
    case Broken(Some(vm)) =>
      ToldOneMore(s, s, [], s.(vms := s.vms + {vm}, log := s.log + [Created(vm)]), Created(vm));
      events := [] + [Created(vm)];
    case Broken(None) =>
      events := [];
  }

  lemma ReloadTold(s: State, w: World, ip: string) returns (events: seq<Event>)
    ensures Told(s, ReloadFor(s, w, ip).state, events)
  {
    assert Told(s, s, []);
    assert forall e: Event :: [e][..0] == [];
    var reload := ReloadFor(s, w, ip);
    if reload.state == s {
      events := [];
    } else {
      var vm := Lookup(w, ip).value;
      var cleaned := State(s.vms, s.records - {vm}, s.log + [RecordDeleted(vm)]);
      ToldOneMore(s, s, [], cleaned, RecordDeleted(vm));
      events := [] + [RecordDeleted(vm)];
      if vm !in w.upgradeFails {
        ToldOneMore(s, cleaned, events, reload.state, Reloaded(vm));
        events := events + [Reloaded(vm)];
      }
    }
  }

  /** Every VM that a run adds or removes, and every record, is in its log, in that order. */
  lemma RunIsTold(s: State, w: World, r: Request, chosen: Option<string>)
    requires chosen.Some? ==> chosen.value in r.networks
    ensures exists events :: Told(s, RunFor(s, w, r, chosen).state, events)
  {
    if !r.reload || chosen.None? {
      var events := CreationTold(s, w, r);
      assert Told(s, RunFor(s, w, r, chosen).state, events);
    } else {
      var ip := r.networks[chosen.value].ip;
      var events := ReloadTold(s, w, ip);
      var reload := ReloadFor(s, w, ip);
      if reload.ok {
        events := FinishTold(s, reload.state, events, w, r, reload.vm);
      }
      assert Told(s, RunFor(s, w, r, chosen).state, events);
    }
  }

  // ----- records without a VM

  function Orphans(s: State): set<nat> {
    s.records.Keys - s.vms
  }

  /** The VM that a run created and cancelled after its record was written, although that seemed to fail. */
  function Orphaned(w: World, r: Request): set<nat> {
    if !r.reload && !w.cleanUpFails && w.creation.Ready? && Failing(w, r) == Some(WritingRecord(true))
    then {w.creation.vm} else {}
  }

  ghost predicate UnusedIds(s: State, w: World) {
    && NewIds(s, w)
    && (w.creation.Ready? ==> w.creation.vm !in s.records)
    && (w.creation.Broken? && w.creation.left.Some? ==> w.creation.left.value !in s.records)
  }

  lemma FinishOrphans(s: State, w: World, r: Request, vm: nat)
    requires vm in s.vms && vm !in s.records
    ensures var lost := !r.reload && !w.cleanUpFails && Failing(w, r) == Some(WritingRecord(true));
            Orphans(Finish(s, w, r, vm).state) == Orphans(s) + (if lost then {vm} else {})
  {
    var lost := !r.reload && !w.cleanUpFails && Failing(w, r) == Some(WritingRecord(true));
    var t := Finish(s, w, r, vm).state;
    assert t.records.Keys == s.records.Keys || t.records.Keys == s.records.Keys + {vm};
    assert t.vms == s.vms || t.vms == s.vms - {vm};
    forall v ensures v in Orphans(t) <==> v in Orphans(s) || (lost && v == vm) {
    }
  }

  lemma ReloadOrphans(s: State, w: World, r: Request, ip: string)
    requires FindsVms(s, w) && r.reload
    ensures var reload := ReloadFor(s, w, ip);
            && reload.state.vms == s.vms && Orphans(reload.state) == Orphans(s)
            && (reload.ok ==> reload.vm in s.vms && reload.vm !in reload.state.records)
  {
  }

  /** Every record without a VM was there before, or is that of such a VM. */
  lemma RunOrphans(s: State, w: World, r: Request, chosen: Option<string>)
    requires chosen.Some? ==> chosen.value in r.networks
    requires UnusedIds(s, w) && FindsVms(s, w)
    ensures Orphans(RunFor(s, w, r, chosen).state) == Orphans(s) + Orphaned(w, r)
  {
    if !r.reload || chosen.None? {
      if w.creation.Ready? {
        var vm := w.creation.vm;
        FinishOrphans(s.(vms := s.vms + {vm}, log := s.log + [Created(vm)]), w, r, vm);
      }
    } else {
      var ip := r.networks[chosen.value].ip;
      ReloadOrphans(s, w, r, ip);
      var reload := ReloadFor(s, w, ip);
      if reload.ok {
        FinishOrphans(reload.state, w, r, reload.vm);
      }
    }
  }

  datatype Turn = Turn(w: World, r: Request, chosen: Option<string>)

  /** Runs one after the other; the ids they create were never used, and the VMs they find are there. */
  ghost predicate Series(s: State, turns: seq<Turn>)
    decreases |turns|
  {
    turns == []
    || (var t := turns[0];
        && (t.chosen.Some? ==> t.chosen.value in t.r.networks)
        && UnusedIds(s, t.w) && FindsVms(s, t.w)
        && Series(RunFor(s, t.w, t.r, t.chosen).state, turns[1..]))
  }

  ghost function AfterSeries(s: State, turns: seq<Turn>): State
    requires Series(s, turns)
    decreases |turns|
  {
    if turns == [] then s
    else AfterSeries(RunFor(s, turns[0].w, turns[0].r, turns[0].chosen).state, turns[1..])
  }

  /** After any series of runs every record belongs to a VM, if that was so before and if, and only if,
      no run cancelled the VM it created after a record write that only seemed to fail. */
  lemma RecordsBelongToVms(s: State, turns: seq<Turn>)
    requires Series(s, turns) && s.records.Keys <= s.vms
    ensures AfterSeries(s, turns).records.Keys <= AfterSeries(s, turns).vms
       <==> forall i :: 0 <= i < |turns| ==> Orphaned(turns[i].w, turns[i].r) == {}
  {
    NoOrphans(s);
    SeriesOrphans(s, turns);
    NoOrphans(AfterSeries(s, turns));
  }

  lemma NoOrphans(s: State)
    ensures Orphans(s) == {} <==> s.records.Keys <= s.vms
  {
    if Orphans(s) == {} {
      forall v | v in s.records ensures v in s.vms {
        assert v !in Orphans(s);
      }
    }
  }

  lemma {:induction false} SeriesOrphans(s: State, turns: seq<Turn>)
    requires Series(s, turns)
    ensures Orphans(AfterSeries(s, turns)) == {}
       <==> Orphans(s) == {} && forall i :: 0 <= i < |turns| ==> Orphaned(turns[i].w, turns[i].r) == {}
    decreases |turns|
  {
    if turns != [] {
      var t := turns[0];
      RunOrphans(s, t.w, t.r, t.chosen);
      SeriesOrphans(RunFor(s, t.w, t.r, t.chosen).state, turns[1..]);
    }
  }
}
