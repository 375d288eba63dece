/** `extract_instance_ib_config`: grouping InfiniBand interfaces by physical device. */
module InfinibandConfig {
  import opened Text

  datatype IbConfig = IbConfig(partitionId: Option<string>)
  datatype IbStatus = IbStatus(pfGuid: Option<string>, guid: Option<string>, lid: nat)
  datatype IbInstance = IbInstance(partitionId: Option<string>, guid: Option<string>, lid: nat)
  datatype Device = Device(pfGuid: string, instances: seq<IbInstance>)

  /** `Panic` is an index past the end of the status list. */
  datatype Result = Devices(devices: seq<Device>) | NoInterfaces | NoDevices | Panic

  datatype Entry = Entry(pfGuid: Option<string>, instance: IbInstance)

  function Entries(configs: seq<IbConfig>, statuses: seq<IbStatus>): seq<Entry>
    requires |configs| <= |statuses|
  {
    seq(|configs|, i requires 0 <= i < |configs| =>
      Entry(statuses[i].pfGuid, IbInstance(configs[i].partitionId, statuses[i].guid, statuses[i].lid)))
  }

  /** The devices in the order their GUIDs first appear. */
  function Guids(entries: seq<Entry>): seq<string> {
    if entries == [] then []
    else
      var front, last := Guids(entries[..|entries| - 1]), entries[|entries| - 1].pfGuid;
      if last.Some? && last.value !in front then front + [last.value] else front
  }

  /** The instances of one device, in order. */
  function InstancesOf(entries: seq<Entry>, guid: string): seq<IbInstance> {
    if entries == [] then []
    else
      var last := entries[|entries| - 1];
      InstancesOf(entries[..|entries| - 1], guid) + if last.pfGuid == Some(guid) then [last.instance] else []
  }

  /** The stable partition by GUID. */
  function Partition(entries: seq<Entry>): seq<Device> {
    seq(|Guids(entries)|, i requires 0 <= i < |Guids(entries)| =>
      Device(Guids(entries)[i], InstancesOf(entries, Guids(entries)[i])))
  }

  lemma {:induction false} GuidsAreDistinct(entries: seq<Entry>)
    ensures forall i, j :: 0 <= i < j < |Guids(entries)| ==> Guids(entries)[i] != Guids(entries)[j]
    ensures forall g :: g in Guids(entries) <==> InstancesOf(entries, g) != []
  {
    if entries != [] {
      GuidsAreDistinct(entries[..|entries| - 1]);
    }
  }

  /** `devices.iter_mut().find(...)`: the position of a device, or the length. */
  method Find(devices: seq<Device>, guid: string) returns (k: nat)
    ensures k <= |devices| && (k < |devices| ==> devices[k].pfGuid == guid)
    ensures forall i :: 0 <= i < k ==> devices[i].pfGuid != guid
  {
    k := 0;
    while k < |devices| && devices[k].pfGuid != guid
      invariant k <= |devices|
      invariant forall i :: 0 <= i < k ==> devices[i].pfGuid != guid
    {
      k := k + 1;
    }
  }

  /** One entry more: pushed onto its device, or a new device at the end. */
  lemma PartitionStep(entries: seq<Entry>, e: Entry, k: nat)
    requires e.pfGuid.Some?
    requires k <= |Guids(entries)| && (k < |Guids(entries)| ==> Guids(entries)[k] == e.pfGuid.value)
    requires forall i :: 0 <= i < k ==> Guids(entries)[i] != e.pfGuid.value
    ensures var devices := Partition(entries);
      Partition(entries + [e]) ==
        if k < |devices| then devices[k := devices[k].(instances := devices[k].instances + [e.instance])]
        else devices + [Device(e.pfGuid.value, [e.instance])]
  {
    var longer := entries + [e];
    assert longer[..|entries|] == entries;
    GuidsAreDistinct(entries);
    var devices, guid := Partition(entries), e.pfGuid.value;
    assert guid in Guids(entries) <==> k < |devices|;
    var expected := if k < |devices| then devices[k := devices[k].(instances := devices[k].instances + [e.instance])]
                    else devices + [Device(guid, [e.instance])];
    assert |Partition(longer)| == |expected|;
    forall i | 0 <= i < |expected|
      ensures Partition(longer)[i] == expected[i]
    {
      InstancesStep(entries, e, Guids(longer)[i]);
    }
  }

  lemma InstancesStep(entries: seq<Entry>, e: Entry, guid: string)
    ensures InstancesOf(entries + [e], guid) ==
      InstancesOf(entries, guid) + if e.pfGuid == Some(guid) then [e.instance] else []
  {
    assert (entries + [e])[..|entries|] == entries;
  }

  method ExtractInstanceIbConfig(config: Option<seq<IbConfig>>, status: Option<seq<IbStatus>>) returns (r: Result)
    ensures config.None? || status.None? ==> r == NoInterfaces
    ensures config.Some? && status.Some? ==>
      r == if |config.value| > |status.value| then Panic
           else
             var devices := Partition(Entries(config.value, status.value));
             if devices == [] then NoDevices else Devices(devices)
  {
    if config.None? {
      return NoInterfaces;
    }
    if status.None? {
      return NoInterfaces;
    }
    var configs, statuses := config.value, status.value;
    var devices: seq<Device> := [];
    var index := 0;
    while index < |configs|
      invariant 0 <= index <= |configs| && index <= |statuses|
      invariant devices == Partition(Entries(configs[..index], statuses))
    {
      if index >= |statuses| {
        return Panic;
      }
      var instance := IbInstance(configs[index].partitionId, statuses[index].guid, statuses[index].lid);
      ghost var before, e := Entries(configs[..index], statuses), Entry(statuses[index].pfGuid, instance);
      assert Entries(configs[..index + 1], statuses) == before + [e];
      if statuses[index].pfGuid.Some? {
        var guid := statuses[index].pfGuid.value;
        var k := Find(devices, guid);
        assert forall i :: 0 <= i < |devices| ==> devices[i].pfGuid == Guids(before)[i];
        PartitionStep(before, e, k);
        if k < |devices| {
          devices := devices[k := devices[k].(instances := devices[k].instances + [instance])];
        } else {
          devices := devices + [Device(guid, [instance])];
        }
      } else {
        SkippedEntry(before, e);
      }
      index := index + 1;
    }
    assert configs[..|configs|] == configs;
    if devices == [] {
      return NoDevices;
    }
    return Devices(devices);
  }

  lemma SkippedEntry(entries: seq<Entry>, e: Entry)
    requires e.pfGuid.None?
    ensures Partition(entries + [e]) == Partition(entries)
  {
    assert (entries + [e])[..|entries|] == entries;
    forall i | 0 <= i < |Guids(entries)|
      ensures Partition(entries + [e])[i] == Partition(entries)[i]
    {
      InstancesStep(entries, e, Guids(entries)[i]);
    }
  }

  // ---------------------------------------------------------------- nothing lost, nothing invented

  function NumWithGuid(entries: seq<Entry>): nat {
    if entries == [] then 0
    else NumWithGuid(entries[..|entries| - 1]) + if entries[|entries| - 1].pfGuid.Some? then 1 else 0
  }

  function TotalInstances(devices: seq<Device>): nat {
    if devices == [] then 0 else TotalInstances(devices[..|devices| - 1]) + |devices[|devices| - 1].instances|
  }

  lemma {:induction false} PushAddsOne(devices: seq<Device>, k: nat, instance: IbInstance)
    requires k < |devices|
    ensures TotalInstances(devices[k := devices[k].(instances := devices[k].instances + [instance])]) ==
      TotalInstances(devices) + 1
  {
    var pushed := devices[k := devices[k].(instances := devices[k].instances + [instance])];
    if k < |devices| - 1 {
      PushAddsOne(devices[..|devices| - 1], k, instance);
      assert pushed[..|devices| - 1] ==
        devices[..|devices| - 1][k := devices[k].(instances := devices[k].instances + [instance])];
    } else {
      assert pushed[..k] == devices[..k];
    }
  }

  /** Every entry with a GUID ends up in exactly one device: the sizes add up. */
  lemma {:induction false} EveryEntryOnce(entries: seq<Entry>)
    ensures TotalInstances(Partition(entries)) == NumWithGuid(entries)
  {
    if entries != [] {
      var front, e := entries[..|entries| - 1], entries[|entries| - 1];
      EveryEntryOnce(front);
      assert entries == front + [e];
      if e.pfGuid.Some? {
        var k := Position(Guids(front), e.pfGuid.value);
        PartitionStep(front, e, k);
        var devices := Partition(front);
        if k < |devices| {
          PushAddsOne(devices, k, e.instance);
        } else {
          assert (devices + [Device(e.pfGuid.value, [e.instance])])[..|devices|] == devices;
        }
      } else {
        SkippedEntry(front, e);
      }
    }
  }

  ghost function Position(guids: seq<string>, g: string): (k: nat)
    ensures k <= |guids| && (k < |guids| ==> guids[k] == g) && forall i :: 0 <= i < k ==> guids[i] != g
  {
    if guids == [] then 0
    else
      var k := Position(guids[..|guids| - 1], g);
      if k < |guids| - 1 || guids[|guids| - 1] == g then k else |guids|
  }

  /** With both parts present and enough statuses, the only error is that no entry has a GUID. */
  lemma {:induction false} EmptyExactlyWithoutGuid(entries: seq<Entry>)
    ensures Partition(entries) == [] <==> forall i :: 0 <= i < |entries| ==> entries[i].pfGuid.None?
  {
    if entries != [] {
      EmptyExactlyWithoutGuid(entries[..|entries| - 1]);
      assert Guids(entries[..|entries| - 1]) == [] <==> Partition(entries[..|entries| - 1]) == [];
    }
  }

  lemma {:induction false} GuidsPrefix(entries: seq<Entry>, n: nat)
    requires n <= |entries|
    ensures Guids(entries[..n]) <= Guids(entries)
  {
    if n < |entries| {
      GuidsPrefix(entries[..|entries| - 1], n);
      assert entries[..|entries| - 1][..n] == entries[..n];
    } else {
      assert entries[..n] == entries;
    }
  }

  /** Entry `i` is the first with its GUID. */
  predicate IsFirst(entries: seq<Entry>, i: nat)
    requires i < |entries|
  {
    entries[i].pfGuid.Some? && forall j :: 0 <= j < i ==> entries[j].pfGuid != entries[i].pfGuid
  }

  lemma {:induction false} GuidsAreSeen(entries: seq<Entry>, g: string)
    ensures g in Guids(entries) <==> exists i :: 0 <= i < |entries| && entries[i].pfGuid == Some(g)
  {
    if entries != [] {
      var front := entries[..|entries| - 1];
      GuidsAreSeen(front, g);
      assert forall i :: 0 <= i < |front| ==> front[i] == entries[i];
      if entries[|entries| - 1].pfGuid == Some(g) {
        assert g in Guids(entries);
      } else {
        assert g in Guids(entries) <==> g in Guids(front);
      }
    }
  }

  /** An entry that is the first with its GUID opens a device, at the position given by how many were open before. */
  lemma FirstOpensDevice(entries: seq<Entry>, i: nat)
    requires i < |entries| && IsFirst(entries, i)
    ensures var k := |Guids(entries[..i])|;
      k < |Guids(entries)| && Guids(entries)[k] == entries[i].pfGuid.value && |Guids(entries[..i + 1])| == k + 1
  {
    GuidsAreSeen(entries[..i], entries[i].pfGuid.value);
    assert entries[..i + 1][..i] == entries[..i];
    assert Guids(entries[..i + 1]) == Guids(entries[..i]) + [entries[i].pfGuid.value];
    GuidsPrefix(entries, i + 1);
  }

  /** Devices stand in the order in which their GUIDs first appear among the entries. */
  lemma FirstSeenOrder(entries: seq<Entry>, i: nat, j: nat)
    requires i < j < |entries| && IsFirst(entries, i) && IsFirst(entries, j)
    ensures var devices := Partition(entries);
      exists k, l :: 0 <= k < l < |devices|
        && devices[k].pfGuid == entries[i].pfGuid.value && devices[l].pfGuid == entries[j].pfGuid.value
  {
    FirstOpensDevice(entries, i);
    FirstOpensDevice(entries, j);
    GuidsPrefix(entries[..j], i + 1);
    assert entries[..j][..i + 1] == entries[..i + 1];
    var k, l := |Guids(entries[..i])|, |Guids(entries[..j])|;
    assert Partition(entries)[k].pfGuid == entries[i].pfGuid.value &&
      Partition(entries)[l].pfGuid == entries[j].pfGuid.value;
  }

  lemma {:induction false} InstancesPrefix(entries: seq<Entry>, n: nat, guid: string)
    requires n <= |entries|
    ensures InstancesOf(entries[..n], guid) <= InstancesOf(entries, guid)
  {
    if n < |entries| {
      InstancesPrefix(entries[..|entries| - 1], n, guid);
      assert entries[..|entries| - 1][..n] == entries[..n];
    } else {
      assert entries[..n] == entries;
    }
  }

  /** Entry `i` is in the device of its GUID, after exactly the earlier entries with that GUID. */
  lemma EntryIsPlaced(entries: seq<Entry>, i: nat)
    requires i < |entries| && entries[i].pfGuid.Some?
    ensures var g, devices := entries[i].pfGuid.value, Partition(entries);
      var at := |InstancesOf(entries[..i], g)|;
      exists k :: 0 <= k < |devices| && devices[k].pfGuid == g
        && at < |devices[k].instances| && devices[k].instances[at] == entries[i].instance
  {
    var g := entries[i].pfGuid.value;
    var at := |InstancesOf(entries[..i], g)|;
    InstancesPrefix(entries, i + 1, g);
    assert entries[..i + 1] == entries[..i] + [entries[i]];
    InstancesStep(entries[..i], entries[i], g);
    GuidsAreSeen(entries, g);
    var k :| 0 <= k < |Guids(entries)| && Guids(entries)[k] == g;
    assert Partition(entries)[k] == Device(g, InstancesOf(entries, g));
  }

  /** How many of the first `n` interfaces sit on device `guid`. */
  function NumBefore(statuses: seq<IbStatus>, n: nat, guid: string): nat
    requires n <= |statuses|
  {
    if n == 0 then 0 else NumBefore(statuses, n - 1, guid) + if statuses[n - 1].pfGuid == Some(guid) then 1 else 0
  }

  lemma {:induction false} InstancesBefore(configs: seq<IbConfig>, statuses: seq<IbStatus>, n: nat, guid: string)
    requires n <= |configs| <= |statuses|
    ensures |InstancesOf(Entries(configs, statuses)[..n], guid)| == NumBefore(statuses, n, guid)
  {
    var entries := Entries(configs, statuses);
    if n > 0 {
      InstancesBefore(configs, statuses, n - 1, guid);
      assert entries[..n][..n - 1] == entries[..n - 1];
    } else {
      assert entries[..0] == [];
    }
  }

  /**
   * An interface whose status names a device is listed under it, after exactly the earlier interfaces of that device,
   * with the partition of its own configuration and the GUID and lid of its own status.
   */
  lemma InterfaceIsPlaced(configs: seq<IbConfig>, statuses: seq<IbStatus>, i: nat)
    requires i < |configs| <= |statuses| && statuses[i].pfGuid.Some?
    ensures var devices := Partition(Entries(configs, statuses));
      var at := NumBefore(statuses, i, statuses[i].pfGuid.value);
      exists k :: 0 <= k < |devices| && devices[k].pfGuid == statuses[i].pfGuid.value && at < |devices[k].instances|
        && devices[k].instances[at].partitionId == configs[i].partitionId
        && devices[k].instances[at].guid == statuses[i].guid && devices[k].instances[at].lid == statuses[i].lid
  {
    EntryIsPlaced(Entries(configs, statuses), i);
    InstancesBefore(configs, statuses, i, statuses[i].pfGuid.value);
  }
}
