/** attach_disk and detach_disk over the volumes' authorisations and the agent records
    (action/attach_disk.go, action/detach_disk.go, softlayer_virtual_guest_service_disk.go).
    One call to the cloud or the registry can fail in each run; a request that fails may have taken
    effect all the same. */
module Disks {
  import opened Common
  import opened AgentSettings

  /** The pairs (vm, disk) that are authorised, and the agent record of each VM. */
  datatype State = State(access: set<(int, int)>, records: map<int, Record>)

  /** `setting` is what the disk's printed settings unmarshal to. */
  datatype Op =
    | Attach(vm: int, disk: int, setting: Option<Persistent>)
    | Detach(vm: int, disk: int)

  /** Where a run fails. `SeemsAbsent` is a registry that answers 500 for a record it has. */
  datatype Fault =
    | NoFault
    | LookupFails
    | AccessFails(changed: bool)
    | CredentialFails
    | ExistFails
    | SeemsAbsent
    | FetchFails
    | UpdateFails(applied: bool)

  datatype Attempt = Attempt(state: State, ok: bool)

  function WithRecord(s: State, vm: int, r: Record): State {
    s.(records := s.records[vm := r])
  }

  function AttachRun(s: State, vm: int, disk: int, setting: Option<Persistent>, f: Fault): Attempt {
    var authorised := s.(access := s.access + {(vm, disk)});
    if f.LookupFails? then Attempt(s, false)
    else if f.AccessFails? && (vm, disk) !in s.access then Attempt(if f.changed then authorised else s, false)
    else if f.CredentialFails? || f.FetchFails? || vm !in s.records then Attempt(authorised, false)
    else
      var done := WithRecord(authorised, vm, WithDisk(s.records[vm], disk, setting));
      if f.UpdateFails? then Attempt(if f.applied then done else authorised, false) else Attempt(done, true)
  }

  function DetachRun(s: State, vm: int, disk: int, f: Fault): Attempt {
    var revoked := s.(access := s.access - {(vm, disk)});
    if f.LookupFails? then Attempt(s, false)
    else if f.AccessFails? && (vm, disk) in s.access then Attempt(if f.changed then revoked else s, false)
    else if f.ExistFails? then Attempt(revoked, false)
    else if f.SeemsAbsent? || vm !in s.records then Attempt(revoked, true)
    else if f.FetchFails? then Attempt(revoked, false)
    else
      var done := WithRecord(revoked, vm, WithoutDisk(s.records[vm], disk));
      if f.UpdateFails? then Attempt(if f.applied then done else revoked, false) else Attempt(done, true)
  }

  function Run(s: State, op: Op, f: Fault): Attempt {
    match op
    case Attach(vm, disk, setting) => AttachRun(s, vm, disk, setting, f)
    case Detach(vm, disk) => DetachRun(s, vm, disk, f)
  }

  // ----- the actions in place

  class Cloud {
    var access: set<(int, int)>
    var records: map<int, Record>

    ghost function View(): State
      reads this
    {
      State(access, records)
    }

    /** The guests a volume lists, in some order. */
    method AllowedGuests(disk: int) returns (guests: seq<int>)
      ensures forall v :: v in guests <==> (v, disk) in access
    {
      guests := [];
      var todo := access;
      while todo != {}
        invariant todo <= access
        invariant forall v :: v in guests <==> (v, disk) in access - todo
      {
        var p :| p in todo;
        if p.1 == disk {
          guests := guests + [p.0];
        }
        todo := todo - {p};
      }
    }

    method ContainsId(guests: seq<int>, id: int) returns (found: bool)
      ensures found <==> id in guests
    {
      for i := 0 to |guests|
        invariant id !in guests[..i]
      {
        if guests[i] == id {
          return true;
        }
      }
      return false;
    }

    method Fetch(vm: int, f: Fault) returns (r: Option<Settings>)
      ensures r.Some? <==> vm in records && !f.FetchFails?
      ensures r.Some? ==> AgentSettings.View(r.value) == records[vm]
      ensures r.Some? ==> r.value.disks != null && fresh(r.value.disks)
    {
      if f.FetchFails? || vm !in records {
        return None;
      }
      var disks := new DiskMap(records[vm].disks);
      return Some(Settings(records[vm].others, records[vm].ephemeral, disks));
    }

    method Update(vm: int, s: Settings, f: Fault) returns (ok: bool)
      modifies `records
      ensures ok == !f.UpdateFails?
      ensures records == if ok || f.applied then old(records)[vm := AgentSettings.View(s)] else old(records)
    {
      if !f.UpdateFails? || f.applied {
        records := records[vm := Record(s.others, s.ephemeral, if s.disks == null then map[] else s.disks.entries)];
      }
      ok := !f.UpdateFails?;
    }

    method AttachDisk(vm: int, disk: int, setting: Option<Persistent>, f: Fault) returns (ok: bool)
      modifies this
      ensures Attempt(View(), ok) == AttachRun(old(View()), vm, disk, setting, f)
    {
      if f.LookupFails? {
        return false;
      }
      var guests := AllowedGuests(disk);
      var alreadyAuthorized := ContainsId(guests, vm);
      if !alreadyAuthorized {
        if !f.AccessFails? || f.changed {
          access := access + {(vm, disk)};
        }
        if f.AccessFails? {
          return false;
        }
      }
      assert access == old(access) + {(vm, disk)};
      if f.CredentialFails? {
        return false;
      }
      var settings := Fetch(vm, f);
      if settings.None? {
        return false;
      }
      var updated, _ := AgentSettings.AttachPersistentDisk(settings.value, disk, setting);
      ok := Update(vm, updated, f);
    }

    method DetachDisk(vm: int, disk: int, f: Fault) returns (ok: bool)
      modifies this
      ensures Attempt(View(), ok) == DetachRun(old(View()), vm, disk, f)
    {
      if f.LookupFails? {
        return false;
      }
      var guests := AllowedGuests(disk);
      var listed := ContainsId(guests, vm);
      if listed {
        if !f.AccessFails? || f.changed {
          access := access - {(vm, disk)};
        }
        if f.AccessFails? {
          return false;
        }
      }
      assert access == old(access) - {(vm, disk)};
      if f.ExistFails? {
        return false;
      }
      if f.SeemsAbsent? || vm !in records {
        return true;
      }
      var settings := Fetch(vm, f);
      if settings.None? {
        return false;
      }
      var updated := AgentSettings.DetachPersistentDisk(settings.value, disk);
      ok := Update(vm, updated, f);
    }
  }

  // ----- retries converge

  /** Attempts with the given faults, up to the first that succeeds. */
  function Retry(s: State, op: Op, faults: seq<Fault>): Attempt
    decreases |faults|
  {
    if faults == [] then Attempt(s, false)
    else
      var a := Run(s, op, faults[0]);
      if a.ok then a else Retry(a.state, op, faults[1..])
  }

  /** A detach is told that there is no record while the record lists the disk. */
  ghost predicate Misleads(s: State, op: Op, f: Fault) {
    op.Detach? && f.SeemsAbsent? && op.vm in s.records && op.disk in s.records[op.vm].disks
  }

  /** However far an attempt came, doing the operation over leads to the same state. */
  lemma AttemptIsHarmless(s: State, op: Op, f: Fault)
    requires !Misleads(s, op, f)
    ensures Run(Run(s, op, f).state, op, NoFault) == Run(s, op, NoFault)
    ensures Run(s, op, f).ok ==> Run(s, op, f) == Run(s, op, NoFault)
  {
    var t := Run(s, op, f).state;
    match op
    case Attach(vm, disk, setting) =>
      assert t.access == s.access || t.access == s.access + {(vm, disk)};
      assert t.access + {(vm, disk)} == s.access + {(vm, disk)};
      if vm in s.records {
        var r := s.records[vm];
        assert WithDisk(WithDisk(r, disk, setting), disk, setting) == WithDisk(r, disk, setting);
        assert t.records[vm := WithDisk(r, disk, setting)] == s.records[vm := WithDisk(r, disk, setting)];
      }
    case Detach(vm, disk) =>
      assert t.access == s.access || t.access == s.access - {(vm, disk)};
      assert t.access - {(vm, disk)} == s.access - {(vm, disk)};
      if vm in s.records {
        var r := s.records[vm];
        assert WithoutDisk(WithoutDisk(r, disk), disk) == WithoutDisk(r, disk);
        assert t.records[vm := WithoutDisk(r, disk)] == s.records[vm := WithoutDisk(r, disk)];
        if f.SeemsAbsent? {
          assert WithoutDisk(r, disk) == r && s.records[vm := r] == s.records;
        }
      }
  }

  /** An attempt that misleads ends the job, with the disk listed and not authorised. */
  lemma MisledAttempt(s: State, op: Op, f: Fault)
    requires Misleads(s, op, f)
    ensures Run(s, op, f).ok && !Consistent(Run(s, op, f).state)
    ensures Run(s, op, f) != Run(s, op, NoFault)
  {
    var t := Run(s, op, f).state;
    assert op.disk in t.records[op.vm].disks && (op.vm, op.disk) !in t.access;
  }

  /** One of the attempts misleads, in the state that it meets. */
  ghost predicate Misled(s: State, op: Op, faults: seq<Fault>)
    decreases |faults|
  {
    faults != []
    && (Misleads(s, op, faults[0])
        || (!Run(s, op, faults[0]).ok && Misled(Run(s, op, faults[0]).state, op, faults[1..])))
  }

  /** An operation that is retried until it succeeds ends as without failures if and only if it is not
      misled; if it is, a record lists a disk that its VM may not use. */
  lemma {:induction false} RetryConverges(s: State, op: Op, faults: seq<Fault>)
    requires Retry(s, op, faults).ok
    ensures Retry(s, op, faults) == Run(s, op, NoFault) <==> !Misled(s, op, faults)
    ensures Misled(s, op, faults) ==> !Consistent(Retry(s, op, faults).state)
    decreases |faults|
  {
    if Misleads(s, op, faults[0]) {
      MisledAttempt(s, op, faults[0]);
    } else {
      AttemptIsHarmless(s, op, faults[0]);
      if !Run(s, op, faults[0]).ok {
        RetryConverges(Run(s, op, faults[0]).state, op, faults[1..]);
      }
    }
  }

  /** An operation and the faults its attempts meet. */
  datatype Job = Job(op: Op, faults: seq<Fault>)

  ghost predicate Completes(s: State, jobs: seq<Job>)
    decreases |jobs|
  {
    jobs == [] || (Retry(s, jobs[0].op, jobs[0].faults).ok
                   && Completes(Retry(s, jobs[0].op, jobs[0].faults).state, jobs[1..]))
  }

  function RunAll(s: State, jobs: seq<Job>): State
    decreases |jobs|
  {
    if jobs == [] then s else RunAll(Retry(s, jobs[0].op, jobs[0].faults).state, jobs[1..])
  }

  function RunClean(s: State, jobs: seq<Job>): State
    decreases |jobs|
  {
    if jobs == [] then s else RunClean(Run(s, jobs[0].op, NoFault).state, jobs[1..])
  }

  ghost predicate NoneMisled(s: State, jobs: seq<Job>)
    decreases |jobs|
  {
    jobs == [] || (!Misled(s, jobs[0].op, jobs[0].faults)
                   && NoneMisled(Retry(s, jobs[0].op, jobs[0].faults).state, jobs[1..]))
  }

  /** Every run of operations of which none is misled ends as the run without failures does. */
  lemma {:induction false} RunsConverge(s: State, jobs: seq<Job>)
    requires Completes(s, jobs) && NoneMisled(s, jobs)
    ensures RunAll(s, jobs) == RunClean(s, jobs)
    decreases |jobs|
  {
    if jobs != [] {
      RetryConverges(s, jobs[0].op, jobs[0].faults);
      RunsConverge(Retry(s, jobs[0].op, jobs[0].faults).state, jobs[1..]);
    }
  }

  // ----- what completed operations keep

  /** Every record lists only disks its VM may use. */
  ghost predicate Consistent(s: State) {
    forall vm, d :: vm in s.records && d in s.records[vm].disks ==> (vm, d) in s.access
  }

  ghost predicate AtMostOneDisk(s: State) {
    forall vm :: vm in s.records ==>
      forall d, e :: d in s.records[vm].disks && e in s.records[vm].disks ==> d == e
  }

  /** The records belong to the same VMs and differ in nothing but their disks. */
  ghost predicate SameOthers(s: State, t: State) {
    && t.records.Keys == s.records.Keys
    && (forall vm :: vm in s.records ==>
          t.records[vm].others == s.records[vm].others && t.records[vm].ephemeral == s.records[vm].ephemeral)
  }

  lemma AttemptKeeps(s: State, op: Op, f: Fault)
    ensures SameOthers(s, Run(s, op, f).state)
    ensures AtMostOneDisk(s) ==> AtMostOneDisk(Run(s, op, f).state)
  {
  }

  lemma {:induction false} RetryKeeps(s: State, op: Op, faults: seq<Fault>)
    ensures SameOthers(s, Retry(s, op, faults).state)
    ensures AtMostOneDisk(s) ==> AtMostOneDisk(Retry(s, op, faults).state)
    decreases |faults|
  {
    if faults != [] {
      AttemptKeeps(s, op, faults[0]);
      RetryKeeps(Run(s, op, faults[0]).state, op, faults[1..]);
    }
  }

  /** Whatever fails, and whether or not the operations succeed in the end, records list at most one
      disk each and nothing else in them changes. */
  lemma {:induction false} RunsKeepRecords(s: State, jobs: seq<Job>)
    ensures SameOthers(s, RunAll(s, jobs))
    ensures AtMostOneDisk(s) ==> AtMostOneDisk(RunAll(s, jobs))
    decreases |jobs|
  {
    if jobs != [] {
      RetryKeeps(s, jobs[0].op, jobs[0].faults);
      RunsKeepRecords(Retry(s, jobs[0].op, jobs[0].faults).state, jobs[1..]);
    }
  }

  lemma CleanKeeps(s: State, op: Op)
    requires Consistent(s)
    ensures Run(s, op, NoFault).ok ==> Consistent(Run(s, op, NoFault).state)
  {
  }

  ghost predicate AlwaysConsistent(s: State, jobs: seq<Job>)
    decreases |jobs|
  {
    Consistent(s) && (jobs == [] || AlwaysConsistent(Retry(s, jobs[0].op, jobs[0].faults).state, jobs[1..]))
  }

  /** The records agree with the authorisations after each operation of a completed run if and only if
      none was misled. */
  lemma {:induction false} CompletedRunsAreConsistent(s: State, jobs: seq<Job>)
    requires Consistent(s) && Completes(s, jobs)
    ensures AlwaysConsistent(s, jobs) <==> NoneMisled(s, jobs)
    decreases |jobs|
  {
    if jobs != [] {
      var t := Retry(s, jobs[0].op, jobs[0].faults).state;
      RetryConverges(s, jobs[0].op, jobs[0].faults);
      CleanKeeps(s, jobs[0].op);
      if Consistent(t) {
        CompletedRunsAreConsistent(t, jobs[1..]);
      }
    }
  }

  /** A registry that answers 500 for a record it has lets detach succeed without updating it: the
      record then still agrees with the authorisations if and only if it did not list the disk. */
  lemma SeemingAbsence(s: State, vm: int, disk: int)
    requires Consistent(s) && vm in s.records
    ensures DetachRun(s, vm, disk, SeemsAbsent).ok
    ensures Consistent(DetachRun(s, vm, disk, SeemsAbsent).state) <==> disk !in s.records[vm].disks
  {
    var t := DetachRun(s, vm, disk, SeemsAbsent).state;
    if disk in s.records[vm].disks {
      assert (vm, disk) !in t.access && disk in t.records[vm].disks;
    }
  }

  /** The error of unmarshalling is overwritten: attach succeeds all the same, and then the record
      lists the disk only if it did before. */
  lemma AttachRecordsDiskIffParsed(s: State, vm: int, disk: int, setting: Option<Persistent>, f: Fault)
    requires AttachRun(s, vm, disk, setting, f).ok
    ensures vm in s.records && vm in AttachRun(s, vm, disk, setting, f).state.records
    ensures disk in AttachRun(s, vm, disk, setting, f).state.records[vm].disks
       <==> setting.Some? || disk in s.records[vm].disks
    ensures setting.Some? ==> AttachRun(s, vm, disk, setting, f).state.records[vm].disks == map[disk := setting.value]
    ensures setting.None? ==> AttachRun(s, vm, disk, setting, f).state.records == s.records
    ensures (vm, disk) in AttachRun(s, vm, disk, setting, f).state.access
  {
  }

  /** When an operation succeeds. A request that changes the authorisations is made only where they change. */
  lemma SucceedsIff(s: State, op: Op, f: Fault)
    ensures Run(s, op, f).ok
       <==> match op
            case Attach(vm, disk, _) =>
              vm in s.records && !f.LookupFails? && !f.CredentialFails? && !f.FetchFails? && !f.UpdateFails?
              && (f.AccessFails? ==> (vm, disk) in s.access)
            case Detach(vm, disk) =>
              !f.LookupFails? && !f.ExistFails? && (f.AccessFails? ==> (vm, disk) !in s.access)
              && (f.FetchFails? || f.UpdateFails? ==> vm !in s.records)
  {
  }

  /** What an operation changes: the authorisation of its pair and the record of its VM. */
  lemma TouchesOnePair(s: State, op: Op, f: Fault)
    ensures var t := Run(s, op, f).state;
            && (forall p :: p != (op.vm, op.disk) ==> (p in t.access <==> p in s.access))
            && (forall vm :: vm in s.records && vm != op.vm ==> vm in t.records && t.records[vm] == s.records[vm])
            && (Run(s, op, f).ok ==> ((op.vm, op.disk) in t.access <==> op.Attach?))
            && (Run(s, op, f).ok && op.Detach? && op.vm in s.records && !f.SeemsAbsent? ==>
                  t.records[op.vm].disks == s.records[op.vm].disks - {op.disk})
  {
  }

  /** How far an attempt comes: whether it changes the authorisation, and whether it updates the record. */
  predicate ChangesAccess(f: Fault) {
    !f.LookupFails? && (f.AccessFails? ==> f.changed)
  }

  predicate UpdatesRecord(s: State, op: Op, f: Fault) {
    && op.vm in s.records && !f.LookupFails? && !f.FetchFails? && (f.UpdateFails? ==> f.applied)
    && match op
       case Attach(vm, disk, _) => !f.CredentialFails? && (f.AccessFails? ==> (vm, disk) in s.access)
       case Detach(vm, disk) =>
         !f.ExistFails? && !f.SeemsAbsent? && (f.AccessFails? ==> (vm, disk) !in s.access)
  }

  /** What any attempt leaves, whether it succeeds or fails. */
  lemma AttemptLeaves(s: State, op: Op, f: Fault)
    ensures var t, pair := Run(s, op, f).state, (op.vm, op.disk);
            && (pair in t.access <==> if ChangesAccess(f) then op.Attach? else pair in s.access)
            && (!UpdatesRecord(s, op, f) ==> t.records == s.records)
            && (UpdatesRecord(s, op, f) ==>
                  && t.records.Keys == s.records.Keys
                  && t.records[op.vm].disks ==
                     match op
                     case Attach(_, disk, setting) =>
                       if setting.Some? then map[disk := setting.value] else s.records[op.vm].disks
                     case Detach(_, disk) => s.records[op.vm].disks - {disk})
  {
  }

  /** Attach and then detach of the same disk gives back the authorisations of everyone else and a
      record without that disk. */
  lemma DetachUndoesAttach(s: State, vm: int, disk: int, setting: Persistent)
    requires vm in s.records
    ensures var t := Run(Run(s, Attach(vm, disk, Some(setting)), NoFault).state, Detach(vm, disk), NoFault);
            t.ok && t.state == State(s.access - {(vm, disk)}, s.records[vm := s.records[vm].(disks := map[])])
  {
    var a := Run(s, Attach(vm, disk, Some(setting)), NoFault).state;
    assert a.access - {(vm, disk)} == s.access - {(vm, disk)};
    assert map[disk := setting] - {disk} == map[];
  }
}
