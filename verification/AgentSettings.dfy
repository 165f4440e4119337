/** The agent's settings record (registry/agent_settings.go). A settings value is copied when it is
    passed on, but the map of persistent disks inside it is shared by the copies. */
module AgentSettings {
  import opened Common

  datatype Iscsi = Iscsi(initiatorName: string, target: string, username: string, password: string)

  datatype Persistent = Persistent(id: string, iscsi: Iscsi)

  /** The fields no disk operation is about. */
  datatype Others = Others(
    agentId: string,
    blobstore: string,
    env: string,
    mbus: string,
    networks: string,
    ntp: seq<string>,
    vmName: string,
    system: string)

  /** A record as the registry keeps it. */
  datatype Record = Record(others: Others, ephemeral: string, disks: map<int, Persistent>)

  class DiskMap {
    var entries: map<int, Persistent>

    constructor (entries: map<int, Persistent>)
      ensures this.entries == entries
    {
      this.entries := entries;
    }
  }

  /** The value in memory; the map may be nil. */
  datatype Settings = Settings(others: Others, ephemeral: string, disks: DiskMap?)

  ghost function View(s: Settings): Record
    reads s.disks
  {
    Record(s.others, s.ephemeral, if s.disks == null then map[] else s.disks.entries)
  }

  function Fresh(others: Others): Record {
    Record(others, "", map[])
  }

  /** The record holds the new disk alone; settings that do not parse leave it as it was. */
  function WithDisk(r: Record, disk: int, setting: Option<Persistent>): Record {
    if setting.Some? then r.(disks := map[disk := setting.value]) else r
  }

  function WithoutDisk(r: Record, disk: int): Record {
    r.(disks := r.disks - {disk})
  }

  method NewAgentSettings(others: Others) returns (s: Settings)
    ensures View(s) == Fresh(others) && s.disks != null && fresh(s.disks)
  {
    var disks := new DiskMap(map[]);
    s := Settings(others, "", disks);
  }

  /** `parsed` is what unmarshalling the disk's settings gives. The old map is not touched. */
  method AttachPersistentDisk(s: Settings, disk: int, parsed: Option<Persistent>) returns (r: Settings, ok: bool)
    ensures ok == parsed.Some? && View(r) == WithDisk(View(s), disk, parsed)
    ensures ok ==> r.disks != null && fresh(r.disks)
    ensures View(s) == old(View(s))
  {
    if parsed.None? {
      return s, false;
    }
    var disks := new DiskMap(map[disk := parsed.value]);
    return s.(disks := disks), true;
  }

  method AttachEphemeralDisk(s: Settings, path: string) returns (r: Settings)
    ensures View(r) == View(s).(ephemeral := path) && r.disks == s.disks
  {
    r := s.(ephemeral := path);
  }

  /** Deletes from the shared map, so every copy of the settings loses the disk. */
  method DetachPersistentDisk(s: Settings, disk: int) returns (r: Settings)
    modifies s.disks
    ensures View(r) == WithoutDisk(old(View(s)), disk) && r == s
  {
    if s.disks != null {
      s.disks.entries := s.disks.entries - {disk};
    }
    r := s;
  }
}
