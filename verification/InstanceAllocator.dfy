/** `build_instance_request` of the admin CLI, VPC-prefix branch: virtual functions spread over physical ones. */
module InstanceAllocator {
  import opened Text

  datatype PciProperties = PciProperties(vendor: string, device: string)
  datatype NetworkInterface = NetworkInterface(pci: Option<PciProperties>)

  datatype AllocateInstance = AllocateInstance(
    vfSubnet: seq<string>,
    vpcPrefixId: seq<string>, ipAddress: seq<string>,
    vfVpcPrefixId: seq<string>, vfIpAddress: seq<string>,
    ipv6VpcPrefixId: seq<string>, ipv6IpAddress: seq<string>,
    ipv6VfPrefixId: seq<string>, ipv6VfIpAddress: seq<string>,
    tenantOrg: Option<string>)

  datatype Ipv6Config = Ipv6Config(vpcPrefixId: string, ipAddress: Option<string>)
  datatype InterfaceConfig = InterfaceConfig(
    virtualFunctionId: Option<nat>,   // `None` for a physical function
    vpcPrefixId: string, device: string, deviceInstance: nat, ipAddress: Option<string>, ipv6: Option<Ipv6Config>)

  datatype Error = NoPrefix | NoDiscoveryInfo | NoTenantOrg | WrongInterfaceCount
  datatype Result = Ok(configs: seq<InterfaceConfig>) | Err(error: Error)

  function At<T>(s: seq<T>, i: nat): Option<T> {
    if i < |s| then Some(s[i]) else None
  }

  function Min(a: nat, b: nat): nat {
    if a < b then a else b
  }

  function ToLower(s: string): string {
    seq(|s|, i requires 0 <= i < |s| => if 'A' <= s[i] <= 'Z' then s[i] + 'a' - 'A' else s[i])
  }

  predicate IsMellanox(i: NetworkInterface) {
    i.pci.Some? && Contains(ToLower(i.pci.value.vendor), "mellanox")
  }

  /** The devices of the usable interfaces, in discovery order. */
  function Devices(interfaces: seq<NetworkInterface>): seq<string> {
    if interfaces == [] then []
    else
      var last := interfaces[|interfaces| - 1];
      Devices(interfaces[..|interfaces| - 1]) + (if IsMellanox(last) then [last.pci.value.device] else [])
  }

  function VfsPerPf(pfs: nat, vfs: nat): (k: nat)
    requires pfs > 0
    ensures k > 0
  {
    if vfs < pfs then 1 else vfs / pfs
  }

  // ---------------------------------------------------------------- what the request must look like

  function Count(s: seq<string>, x: string): nat {
    if s == [] then 0 else Count(s[..|s| - 1], x) + if s[|s| - 1] == x then 1 else 0
  }

  /** Physical function `i`: the i-th usable interface, numbered among those with the same device. */
  function PfConfig(a: AllocateInstance, devices: seq<string>, i: nat): InterfaceConfig
    requires i < |devices| && i < |a.vpcPrefixId|
  {
    InterfaceConfig(None, a.vpcPrefixId[i], devices[i], Count(devices[..i], devices[i]), At(a.ipAddress, i),
      if i < |a.ipv6VpcPrefixId| then Some(Ipv6Config(a.ipv6VpcPrefixId[i], At(a.ipv6IpAddress, i))) else None)
  }

  /** The j-th virtual function of physical function `i`, whose first one has number `start`. */
  function VfConfig(a: AllocateInstance, devices: seq<string>, i: nat, start: nat, j: nat): InterfaceConfig
    requires i < |devices| && start + j < |a.vfVpcPrefixId|
  {
    var g := start + j;
    InterfaceConfig(Some(g), a.vfVpcPrefixId[g], devices[i], Count(devices[..i], devices[i]), At(a.vfIpAddress, j),
      if g < |a.ipv6VfPrefixId| then Some(Ipv6Config(a.ipv6VfPrefixId[g], At(a.ipv6VfIpAddress, j))) else None)
  }

  function VfBlock(a: AllocateInstance, devices: seq<string>, i: nat, start: nat, count: nat): (r: seq<InterfaceConfig>)
    requires i < |devices| && (count > 0 ==> start + count <= |a.vfVpcPrefixId|)
    ensures |r| == count
  {
    if count == 0 then [] else VfBlock(a, devices, i, start, count - 1) + [VfConfig(a, devices, i, start, count - 1)]
  }

  /** The number of virtual functions before physical function `i`, which is i * k. */
  function Start(i: nat, k: nat): nat {
    if i == 0 then 0 else Start(i - 1, k) + k
  }

  function BlockSize(vfs: nat, start: nat, k: nat): nat {
    if start >= vfs then 0 else Min(k, vfs - start)
  }

  /** The configs for the first `n` physical functions, each followed by its virtual ones. */
  function Layout(a: AllocateInstance, devices: seq<string>, k: nat, n: nat): (r: seq<InterfaceConfig>)
    requires n <= |devices| && n <= |a.vpcPrefixId|
    ensures |r| == n + Min(Start(n, k), |a.vfVpcPrefixId|)
  {
    if n == 0 then []
    else
      var start := Start(n - 1, k);
      Layout(a, devices, k, n - 1) + [PfConfig(a, devices, n - 1)]
      + VfBlock(a, devices, n - 1, start, BlockSize(|a.vfVpcPrefixId|, start, k))
  }

  // ---------------------------------------------------------------- the code

  lemma DevicesPrefix(interfaces: seq<NetworkInterface>, i: nat)
    requires i <= |interfaces|
    ensures Devices(interfaces[..i]) <= Devices(interfaces)
  {
    if i < |interfaces| {
      DevicesPrefix(interfaces[..|interfaces| - 1], i);
      assert interfaces[..|interfaces| - 1][..i] == interfaces[..i];
    } else {
      assert interfaces[..i] == interfaces;
    }
  }

  /** `slice::chunks`: the next chunk, if any, and what remains. */
  method NextChunk(rest: seq<string>, k: nat) returns (chunk: Option<seq<string>>, remaining: seq<string>)
    ensures chunk == if rest == [] then None else Some(rest[..Min(k, |rest|)])
    ensures remaining == rest[Min(k, |rest|)..]
  {
    chunk, remaining := None, [];
    if rest != [] {
      chunk, remaining := Some(rest[..Min(k, |rest|)]), rest[Min(k, |rest|)..];
    }
  }

  /** The inner loop: the virtual functions of physical function `i`. */
  method AddVirtualFunctions(
      a: AllocateInstance, ghost devices: seq<string>, k: nat, ghost i: nat, start: nat, chunk: seq<string>,
      ipv6Chunk: Option<seq<string>>, device: string, instance: nat, configs: seq<InterfaceConfig>)
    returns (r: seq<InterfaceConfig>, vfFunctionId: nat)
    requires |chunk| <= k && i < |devices| && device == devices[i] && instance == Count(devices[..i], device)
    requires start + |chunk| <= |a.vfVpcPrefixId| && chunk == a.vfVpcPrefixId[start..start + |chunk|]
    requires ipv6Chunk ==
      (if start < |a.ipv6VfPrefixId| then Some(a.ipv6VfPrefixId[start..Min(start + k, |a.ipv6VfPrefixId|)]) else None)
    ensures r == configs + VfBlock(a, devices, i, start, |chunk|)
    ensures vfFunctionId == start + |chunk|
  {
    vfFunctionId := start;
    r := configs;
    for j := 0 to |chunk|
      invariant vfFunctionId == start + j
      invariant r == configs + VfBlock(a, devices, i, start, j)
    {
      var ipv6 := match ipv6Chunk
        case Some(c) => if j < |c| then Some(Ipv6Config(c[j], At(a.ipv6VfIpAddress, j))) else None
        case None => None;
      var config := InterfaceConfig(Some(vfFunctionId), chunk[j], device, instance, At(a.vfIpAddress, j), ipv6);
      assert config == VfConfig(a, devices, i, start, j);
      vfFunctionId := vfFunctionId + 1;
      r := r + [config];
    }
  }

  /** The variables the outer loop carries from one interface to the next. */
  datatype Progress = Progress(
    configs: seq<InterfaceConfig>, interfaceIndexMap: map<string, nat>,
    vfRest: seq<string>, ipv6Rest: seq<string>, vfFunctionId: nat)

  ghost predicate Numbered(interfaceIndexMap: map<string, nat>, devices: seq<string>) {
    && (forall d :: d in interfaceIndexMap <==> Count(devices, d) > 0)
    && (forall d :: d in interfaceIndexMap ==> interfaceIndexMap[d] == Count(devices, d) - 1)
  }

  /** The two chunk iterators are in step with the physical function and with each other. */
  ghost predicate InStep(p: Progress, a: AllocateInstance, start: nat) {
    && p.vfFunctionId == Min(start, |a.vfVpcPrefixId|)
    && p.vfRest == a.vfVpcPrefixId[p.vfFunctionId..]
    && (p.vfRest != [] ==> p.ipv6Rest == a.ipv6VfPrefixId[Min(start, |a.ipv6VfPrefixId|)..])
  }

  /** `*interface_index_map.entry(device).and_modify(+1).or_insert(0)`. */
  method NumberDevice(interfaceIndexMap: map<string, nat>, device: string, ghost devices: seq<string>)
    returns (updated: map<string, nat>, instance: nat)
    requires Numbered(interfaceIndexMap, devices)
    ensures Numbered(updated, devices + [device]) && instance == Count(devices, device)
  {
    instance := if device in interfaceIndexMap then interfaceIndexMap[device] + 1 else 0;
    updated := interfaceIndexMap[device := instance];
    assert (devices + [device])[..|devices|] == devices;
    assert forall d :: Count(devices + [device], d) == Count(devices, d) + if d == device then 1 else 0;
  }

  /** Takes one chunk from each iterator and adds its virtual functions. */
  method AddChunk(a: AllocateInstance, ghost devices: seq<string>, k: nat, ghost i: nat, ghost start: nat,
                  device: string, instance: nat, p: Progress)
    returns (p': Progress)
    requires k > 0 && i < |devices| && device == devices[i] && instance == Count(devices[..i], device)
    requires InStep(p, a, start)
    ensures p'.interfaceIndexMap == p.interfaceIndexMap && InStep(p', a, start + k)
    ensures p'.configs == p.configs + VfBlock(a, devices, i, start, BlockSize(|a.vfVpcPrefixId|, start, k))
  {
    var chunk, vfRest := NextChunk(p.vfRest, k);
    p' := p;
    if chunk.Some? {
      var ipv6Chunk, ipv6Rest := NextChunk(p.ipv6Rest, k);
      assert chunk.value == a.vfVpcPrefixId[start..start + |chunk.value|];
      assert start < |a.ipv6VfPrefixId| ==>
        ipv6Chunk.value == a.ipv6VfPrefixId[start..Min(start + k, |a.ipv6VfPrefixId|)];
      var configs, vfFunctionId :=
        AddVirtualFunctions(a, devices, k, i, p.vfFunctionId, chunk.value, ipv6Chunk, device, instance, p.configs);
      p' := Progress(configs, p.interfaceIndexMap, vfRest, ipv6Rest, vfFunctionId);
    }
  }

  lemma LayoutStep(a: AllocateInstance, devices: seq<string>, k: nat, i: nat)
    requires i < |devices| && i < |a.vpcPrefixId|
    ensures Start(i + 1, k) == Start(i, k) + k
    ensures Layout(a, devices, k, i + 1) == Layout(a, devices, k, i) + [PfConfig(a, devices, i)]
      + VfBlock(a, devices, i, Start(i, k), BlockSize(|a.vfVpcPrefixId|, Start(i, k), k))
  {
  }

  /** One round of the outer loop. */
  method AddPhysicalFunction(
      a: AllocateInstance, ghost devices: seq<string>, k: nat, i: nat, device: string, p: Progress)
    returns (p': Progress)
    requires k > 0 && i < |devices| && i < |a.vpcPrefixId| && devices[i] == device
    requires p.configs == Layout(a, devices, k, i)
    requires Numbered(p.interfaceIndexMap, devices[..i]) && InStep(p, a, Start(i, k))
    ensures p'.configs == Layout(a, devices, k, i + 1)
    ensures Numbered(p'.interfaceIndexMap, devices[..i + 1]) && InStep(p', a, Start(i + 1, k))
  {
    hide Layout, Start, Numbered, VfBlock, Count;
    LayoutStep(a, devices, k, i);
    assert devices[..i + 1] == devices[..i] + [device];
    var interfaceIndexMap, instance := NumberDevice(p.interfaceIndexMap, device, devices[..i]);
    var ipv6 :=
      if i < |a.ipv6VpcPrefixId| then Some(Ipv6Config(a.ipv6VpcPrefixId[i], At(a.ipv6IpAddress, i))) else None;
    var pf := InterfaceConfig(None, a.vpcPrefixId[i], device, instance, At(a.ipAddress, i), ipv6);
    assert pf == PfConfig(a, devices, i);
    p' := AddChunk(a, devices, k, i, Start(i, k), device, instance,
                   p.(configs := p.configs + [pf], interfaceIndexMap := interfaceIndexMap));
  }

  /** The outer loop over the usable interfaces, up to the last prefix. */
  method AddPhysicalFunctions(a: AllocateInstance, interfaces: seq<NetworkInterface>, k: nat)
    returns (configs: seq<InterfaceConfig>)
    requires k > 0
    ensures configs == Layout(a, Devices(interfaces), k, Min(|Devices(interfaces)|, |a.vpcPrefixId|))
  {
    hide Layout, Start, InStep, Numbered, IsMellanox, Devices;
    ghost var devices := Devices(interfaces);
    var p := Progress([], map[], a.vfVpcPrefixId, a.ipv6VfPrefixId, 0);
    var index, mapIndex := 0, 0;
    LoopStarts(a, interfaces, devices, k, p);
    while index < |interfaces|
      invariant 0 <= index <= |interfaces|
      invariant mapIndex <= |a.vpcPrefixId| && mapIndex <= |devices|
      invariant Devices(interfaces[..index]) == devices[..mapIndex]
      invariant p.configs == Layout(a, devices, k, mapIndex)
      invariant Numbered(p.interfaceIndexMap, devices[..mapIndex]) && InStep(p, a, Start(mapIndex, k))
    {
      DevicesStep(interfaces, index);
      DevicesPrefix(interfaces, index + 1);
      if IsMellanox(interfaces[index]) {
        MellanoxHasDevice(interfaces[index]);
        if mapIndex >= |a.vpcPrefixId| {
          break;
        }
        p := AddPhysicalFunction(a, devices, k, mapIndex, interfaces[index].pci.value.device, p);
        mapIndex := mapIndex + 1;
      }
      index := index + 1;
    }
    assert index == |interfaces| ==> interfaces[..index] == interfaces;
    assert mapIndex == Min(|devices|, |a.vpcPrefixId|);
    return p.configs;
  }

  lemma LoopStarts(a: AllocateInstance, interfaces: seq<NetworkInterface>, devices: seq<string>, k: nat, p: Progress)
    requires p == Progress([], map[], a.vfVpcPrefixId, a.ipv6VfPrefixId, 0)
    ensures Devices(interfaces[..0]) == devices[..0] == [] && Layout(a, devices, k, 0) == []
    ensures Numbered(p.interfaceIndexMap, devices[..0]) && InStep(p, a, Start(0, k))
  {
    assert interfaces[..0] == [] && devices[..0] == [];
  }

  lemma DevicesStep(interfaces: seq<NetworkInterface>, i: nat)
    requires i < |interfaces|
    ensures Devices(interfaces[..i + 1])
         == Devices(interfaces[..i]) + if IsMellanox(interfaces[i]) then [interfaces[i].pci.value.device] else []
  {
    assert interfaces[..i + 1][..i] == interfaces[..i];
  }

  lemma MellanoxHasDevice(i: NetworkInterface)
    requires IsMellanox(i)
    ensures i.pci.Some?
  {
  }

  function Built(a: AllocateInstance, discoveryInfo: Option<seq<NetworkInterface>>): Result {
    if a.vpcPrefixId == [] then Err(NoPrefix)
    else if discoveryInfo.None? then Err(NoDiscoveryInfo)
    else if a.tenantOrg.None? then Err(NoTenantOrg)
    else
      var devices := Devices(discoveryInfo.value);
      var configs := Layout(a, devices, VfsPerPf(|a.vpcPrefixId|, |a.vfVpcPrefixId|), Min(|devices|, |a.vpcPrefixId|));
      if |configs| != |a.vfSubnet| + |a.vpcPrefixId| + |a.vfVpcPrefixId| then Err(WrongInterfaceCount) else Ok(configs)
  }

  method BuildInterfaces(a: AllocateInstance, discoveryInfo: Option<seq<NetworkInterface>>) returns (r: Result)
    ensures r == Built(a, discoveryInfo)
  {
    if a.vpcPrefixId == [] {
      return Err(NoPrefix);
    }
    if discoveryInfo.None? {
      return Err(NoDiscoveryInfo);
    }
    var configs := AddPhysicalFunctions(a, discoveryInfo.value, VfsPerPf(|a.vpcPrefixId|, |a.vfVpcPrefixId|));
    if a.tenantOrg.None? {
      return Err(NoTenantOrg);
    }
    if |configs| != |a.vfSubnet| + |a.vpcPrefixId| + |a.vfVpcPrefixId| {
      return Err(WrongInterfaceCount);
    }
    return Ok(configs);
  }

  // ---------------------------------------------------------------- properties

  lemma Monotone(a: int, b: int, k: nat)
    requires a <= b
    ensures a * k <= b * k
  {
    assert (b - a) * k >= 0;
  }

  lemma {:induction false} StartIsProduct(i: nat, k: nat)
    ensures Start(i, k) == i * k
  {
    if i > 0 {
      StartIsProduct(i - 1, k);
      assert (i - 1) * k + k == i * k;
    }
  }

  /**
   * The request is accepted exactly when discovery found enough usable interfaces and the virtual functions
   * either do not outnumber the physical ones or divide evenly among them (and the branch's other demands hold).
   */
  lemma BuildSucceedsExactlyWhen(a: AllocateInstance, discoveryInfo: Option<seq<NetworkInterface>>)
    ensures var pfs, vfs := |a.vpcPrefixId|, |a.vfVpcPrefixId|;
      Built(a, discoveryInfo).Ok? <==>
        && pfs > 0 && discoveryInfo.Some? && a.tenantOrg.Some? && a.vfSubnet == []
        && |Devices(discoveryInfo.value)| >= pfs
        && (vfs < pfs || vfs % pfs == 0)
  {
    if a.vpcPrefixId != [] && discoveryInfo.Some? && a.tenantOrg.Some? {
      var pfs, vfs := |a.vpcPrefixId|, |a.vfVpcPrefixId|;
      var k := VfsPerPf(pfs, vfs);
      StartIsProduct(pfs, k);
      FairShare(pfs, vfs);
    }
  }

  lemma FairShare(pfs: nat, vfs: nat)
    requires pfs > 0
    ensures Min(pfs * VfsPerPf(pfs, vfs), vfs) == vfs <==> vfs < pfs || vfs % pfs == 0
  {
    assert vfs == pfs * (vfs / pfs) + vfs % pfs;
  }

  lemma {:induction false} LayoutPrefix(a: AllocateInstance, devices: seq<string>, k: nat, m: nat, n: nat)
    requires m <= n <= |devices| && n <= |a.vpcPrefixId|
    ensures Layout(a, devices, k, m) <= Layout(a, devices, k, n)
    decreases n
  {
    hide Layout, VfBlock, PfConfig, Start;
    if m < n {
      LayoutPrefix(a, devices, k, m, n - 1);
      LayoutStep(a, devices, k, n - 1);
    }
  }

  /** Where physical function `i` stands in the list. */
  lemma PfPosition(a: AllocateInstance, devices: seq<string>, k: nat, n: nat, i: nat)
    requires i < n <= |devices| && n <= |a.vpcPrefixId|
    ensures i + Min(Start(i, k), |a.vfVpcPrefixId|) < |Layout(a, devices, k, n)|
    ensures Layout(a, devices, k, n)[i + Min(Start(i, k), |a.vfVpcPrefixId|)] == PfConfig(a, devices, i)
  {
    hide Layout, VfBlock, PfConfig, Start;
    LayoutPrefix(a, devices, k, i + 1, n);
    LayoutStep(a, devices, k, i);
    var at := |Layout(a, devices, k, i)|;
    assert Layout(a, devices, k, i + 1)[at] == PfConfig(a, devices, i);
  }

  /** Where the j-th virtual function of physical function `i` stands. */
  lemma VfPosition(a: AllocateInstance, devices: seq<string>, k: nat, n: nat, i: nat, j: nat)
    requires i < n <= |devices| && n <= |a.vpcPrefixId|
    requires j < BlockSize(|a.vfVpcPrefixId|, Start(i, k), k)
    ensures i + 1 + Start(i, k) + j < |Layout(a, devices, k, n)|
    ensures Layout(a, devices, k, n)[i + 1 + Start(i, k) + j] == VfConfig(a, devices, i, Start(i, k), j)
  {
    hide Layout, VfBlock, PfConfig, VfConfig, Start;
    LayoutPrefix(a, devices, k, i + 1, n);
    LayoutStep(a, devices, k, i);
    var start, count := Start(i, k), BlockSize(|a.vfVpcPrefixId|, Start(i, k), k);
    var before := Layout(a, devices, k, i) + [PfConfig(a, devices, i)];
    assert |before| == i + 1 + start;
    BlockAt(a, devices, i, start, count, j);
    var longer := Layout(a, devices, k, i + 1);
    assert longer == before + VfBlock(a, devices, i, start, count);
    assert longer[|before| + j] == VfBlock(a, devices, i, start, count)[j];
  }

  lemma {:induction false} BlockAt(a: AllocateInstance, devices: seq<string>, i: nat, start: nat, count: nat, j: nat)
    requires j < count && i < |devices| && start + count <= |a.vfVpcPrefixId|
    ensures VfBlock(a, devices, i, start, count)[j] == VfConfig(a, devices, i, start, j)
  {
    if j < count - 1 {
      BlockAt(a, devices, i, start, count - 1, j);
    }
  }

  lemma AcceptedLayout(a: AllocateInstance, discoveryInfo: Option<seq<NetworkInterface>>)
    requires Built(a, discoveryInfo).Ok?
    ensures var pfs, vfs := |a.vpcPrefixId|, |a.vfVpcPrefixId|;
      && pfs > 0 && discoveryInfo.Some?
      && |Devices(discoveryInfo.value)| >= pfs
      && Built(a, discoveryInfo).configs == Layout(a, Devices(discoveryInfo.value), VfsPerPf(pfs, vfs), pfs)
      && |Built(a, discoveryInfo).configs| == pfs + vfs
  {
    BuildSucceedsExactlyWhen(a, discoveryInfo);
  }

  // ---------------------------------------------------------------- which interfaces are used

  /** The same letter, upper or lower case; `letter` is a lower-case one. */
  predicate SameLetter(c: char, letter: char) {
    c == letter || (c as int) + 32 == letter as int
  }

  const MELLANOX := "mellanox"

  /** The vendor's name stands at position `at` of the text, in whatever case. */
  predicate NamesVendor(text: string, at: nat) {
    at + |MELLANOX| <= |text| && forall j :: 0 <= j < |MELLANOX| ==> SameLetter(text[at + j], MELLANOX[j])
  }

  /** A PCI interface whose vendor text names the vendor somewhere. */
  ghost predicate IsUsable(i: NetworkInterface) {
    i.pci.Some? && exists at: nat :: NamesVendor(i.pci.value.vendor, at)
  }

  lemma LowerIsSame(text: string, at: nat)
    ensures OccursAt(ToLower(text), MELLANOX, at) <==> NamesVendor(text, at)
  {
    assert forall j :: 0 <= j < |MELLANOX| ==> 'a' <= MELLANOX[j] <= 'z';
    if at + |MELLANOX| <= |text| {
      var part := ToLower(text)[at..at + |MELLANOX|];
      forall j | 0 <= j < |MELLANOX|
        ensures part[j] == MELLANOX[j] <==> SameLetter(text[at + j], MELLANOX[j])
      {
        assert part[j] == ToLower(text)[at + j];
      }
    }
  }

  lemma UsableExactlyWhen(i: NetworkInterface)
    ensures IsMellanox(i) <==> IsUsable(i)
  {
    if i.pci.Some? {
      hide ToLower, NamesVendor, Contains;
      var text := i.pci.value.vendor;
      ContainsMeans(ToLower(text), MELLANOX);
      forall at: nat
        ensures OccursAt(ToLower(text), MELLANOX, at) <==> NamesVendor(text, at)
      {
        LowerIsSame(text, at);
      }
    }
  }

  ghost function NumUsable(interfaces: seq<NetworkInterface>): nat {
    if interfaces == [] then 0
    else NumUsable(interfaces[..|interfaces| - 1]) + if IsUsable(interfaces[|interfaces| - 1]) then 1 else 0
  }

  /** Position `x` holds usable interface number `i`, and `device` is its device. */
  ghost predicate IsDeviceOf(interfaces: seq<NetworkInterface>, device: string, x: nat, i: nat) {
    && x < |interfaces| && IsUsable(interfaces[x]) && NumUsable(interfaces[..x]) == i
    && interfaces[x].pci.value.device == device
  }

  lemma {:induction false} DevicesAreUsable(interfaces: seq<NetworkInterface>)
    ensures |Devices(interfaces)| == NumUsable(interfaces)
  {
    if interfaces != [] {
      hide IsMellanox, IsUsable;
      DevicesAreUsable(interfaces[..|interfaces| - 1]);
      UsableExactlyWhen(interfaces[|interfaces| - 1]);
    }
  }

  lemma {:induction false} DeviceIsUsable(interfaces: seq<NetworkInterface>, i: nat) returns (x: nat)
    requires i < |Devices(interfaces)|
    ensures IsDeviceOf(interfaces, Devices(interfaces)[i], x, i)
  {
    hide IsMellanox, IsUsable;
    var n := |interfaces| - 1;
    var front := interfaces[..n];
    DevicesStep(interfaces, n);
    assert interfaces[..n + 1] == interfaces;
    if i < |Devices(front)| {
      x := DeviceIsUsable(front, i);
      assert front[..x] == interfaces[..x];
    } else {
      x := n;
      UsableExactlyWhen(interfaces[n]);
      DevicesAreUsable(front);
    }
  }

  // ---------------------------------------------------------------- what stands where

  /** `c` is physical function number `i` of the request: its prefixes and addresses are those at position `i`. */
  predicate IsPfOf(a: AllocateInstance, c: InterfaceConfig, i: nat) {
    && c.virtualFunctionId == None
    && At(a.vpcPrefixId, i) == Some(c.vpcPrefixId)
    && c.ipAddress == At(a.ipAddress, i)
    && match c.ipv6
       case None => i >= |a.ipv6VpcPrefixId|
       case Some(ipv6) => At(a.ipv6VpcPrefixId, i) == Some(ipv6.vpcPrefixId) && ipv6.ipAddress == At(a.ipv6IpAddress, i)
  }

  /**
   * The list of an accepted request has nothing but its physical and virtual functions. Physical function `i` stands
   * after those before it and their virtual functions, on the i-th usable interface.
   */
  lemma PfOfRequest(a: AllocateInstance, discoveryInfo: Option<seq<NetworkInterface>>, k: nat, i: nat)
    requires Built(a, discoveryInfo).Ok? && i < |a.vpcPrefixId| && k == VfsPerPf(|a.vpcPrefixId|, |a.vfVpcPrefixId|)
    ensures var configs, at := Built(a, discoveryInfo).configs, i + Min(i * k, |a.vfVpcPrefixId|);
      && |configs| == |a.vpcPrefixId| + |a.vfVpcPrefixId|
      && at < |configs| && IsPfOf(a, configs[at], i)
      && discoveryInfo.Some? && exists x: nat :: IsDeviceOf(discoveryInfo.value, configs[at].device, x, i)
  {
    AcceptedLayout(a, discoveryInfo);
    hide Built, Layout, Start, Devices, VfsPerPf, IsDeviceOf, IsPfOf, PfConfig;
    var devices := Devices(discoveryInfo.value);
    StartIsProduct(i, k);
    PfPosition(a, devices, k, |a.vpcPrefixId|, i);
    PfConfigIsPf(a, devices, i);
    var x := DeviceIsUsable(discoveryInfo.value, i);
  }

  lemma PfConfigIsPf(a: AllocateInstance, devices: seq<string>, i: nat)
    requires i < |devices| && i < |a.vpcPrefixId|
    ensures IsPfOf(a, PfConfig(a, devices, i), i) && PfConfig(a, devices, i).device == devices[i]
  {
  }

  /** Which error a request gets that is not accepted, the first that applies. */
  lemma ErrorExactlyWhen(a: AllocateInstance, discoveryInfo: Option<seq<NetworkInterface>>)
    ensures var r := Built(a, discoveryInfo);
      && (r == Err(NoPrefix) <==> a.vpcPrefixId == [])
      && (r == Err(NoDiscoveryInfo) <==> a.vpcPrefixId != [] && discoveryInfo == None)
      && (r == Err(NoTenantOrg) <==> a.vpcPrefixId != [] && discoveryInfo.Some? && a.tenantOrg == None)
      && (r == Err(WrongInterfaceCount) <==>
            && a.vpcPrefixId != [] && discoveryInfo.Some? && a.tenantOrg.Some?
            && !(&& a.vfSubnet == [] && NumUsable(discoveryInfo.value) >= |a.vpcPrefixId|
                 && (|a.vfVpcPrefixId| < |a.vpcPrefixId| || |a.vfVpcPrefixId| % |a.vpcPrefixId| == 0)))
  {
    BuildSucceedsExactlyWhen(a, discoveryInfo);
    if discoveryInfo.Some? {
      hide Layout;
      DevicesAreUsable(discoveryInfo.value);
    }
  }

  lemma VfBelongs(a: AllocateInstance, discoveryInfo: Option<seq<NetworkInterface>>, k: nat, g: nat, q: nat, r: nat)
    requires Built(a, discoveryInfo).Ok? && a.vpcPrefixId != [] && k == VfsPerPf(|a.vpcPrefixId|, |a.vfVpcPrefixId|)
    requires g == q * k + r && r < k && g < |a.vfVpcPrefixId|
    ensures q < |a.vpcPrefixId| && Start(q, k) + r == g && r < BlockSize(|a.vfVpcPrefixId|, Start(q, k), k)
  {
    BuildSucceedsExactlyWhen(a, discoveryInfo);
    hide Built;
    StartIsProduct(q, k);
    FairShare(|a.vpcPrefixId|, |a.vfVpcPrefixId|);
    if q >= |a.vpcPrefixId| {
      Monotone(|a.vpcPrefixId|, q, k);
    }
  }

  /** `vf` is virtual function number `g` of the request, placed under `pf`, with the r-th addresses. */
  predicate IsVf(a: AllocateInstance, vf: InterfaceConfig, pf: InterfaceConfig, g: nat, r: nat)
    requires g < |a.vfVpcPrefixId|
  {
    && vf.virtualFunctionId == Some(g) && pf.virtualFunctionId == None
    && vf.vpcPrefixId == a.vfVpcPrefixId[g]
    && vf.device == pf.device && vf.deviceInstance == pf.deviceInstance
    && vf.ipAddress == At(a.vfIpAddress, r)
    && vf.ipv6 ==
         (if g < |a.ipv6VfPrefixId| then Some(Ipv6Config(a.ipv6VfPrefixId[g], At(a.ipv6VfIpAddress, r))) else None)
  }

  lemma VfInPlace(a: AllocateInstance, devices: seq<string>, k: nat, n: nat, g: nat, q: nat, r: nat)
    requires q < n <= |devices| && n <= |a.vpcPrefixId|
    requires Start(q, k) + r == g && r < BlockSize(|a.vfVpcPrefixId|, Start(q, k), k)
    ensures var configs := Layout(a, devices, k, n);
      g < |a.vfVpcPrefixId| && q + g + 1 < |configs| && IsVf(a, configs[q + g + 1], configs[q + g - r], g, r)
  {
    hide Layout, Start;
    VfPosition(a, devices, k, n, q, r);
    PfPosition(a, devices, k, n, q);
  }

  /**
   * Every virtual function g == q * k + r, r < k, has the prefixes at its own position and sits in the block of
   * physical function `q`, r + 1 places after it. Its addresses however are the r-th of their lists.
   */
  lemma VfOfRequest(a: AllocateInstance, discoveryInfo: Option<seq<NetworkInterface>>, k: nat, g: nat, q: nat, r: nat)
    requires Built(a, discoveryInfo).Ok? && a.vpcPrefixId != [] && k == VfsPerPf(|a.vpcPrefixId|, |a.vfVpcPrefixId|)
    requires g == q * k + r && r < k && g < |a.vfVpcPrefixId|
    ensures var configs := Built(a, discoveryInfo).configs;
      q + g + 1 < |configs| && IsVf(a, configs[q + g + 1], configs[q + g - r], g, r)
  {
    AcceptedLayout(a, discoveryInfo);
    VfBelongs(a, discoveryInfo, k, g, q, r);
    hide Built, Layout, Start, Devices, VfsPerPf, IsVf, BlockSize;
    VfInPlace(a, Devices(discoveryInfo.value), k, |a.vpcPrefixId|, g, q, r);
  }

  lemma {:induction false} CountGrows(s: seq<string>, i: nat, j: nat, x: string)
    requires i <= j <= |s|
    ensures Count(s[..i], x) <= Count(s[..j], x)
    ensures i < j && s[i] == x ==> Count(s[..i], x) < Count(s[..j], x)
    decreases j
  {
    if i < j {
      assert s[..j][..j - 1] == s[..j - 1];
      CountGrows(s, i, j - 1, x);
    }
  }

  /** No two physical functions share a (device, instance) pair. */
  lemma PfPairsAreUnique(a: AllocateInstance, devices: seq<string>, i: nat, j: nat)
    requires i < j < |devices| && j < |a.vpcPrefixId|
    ensures var p, q := PfConfig(a, devices, i), PfConfig(a, devices, j);
      p.device != q.device || p.deviceInstance < q.deviceInstance
  {
    CountGrows(devices, i, j, devices[j]);
  }

  /** Instance numbers have no gaps: every smaller number of the same device belongs to an earlier physical function. */
  lemma {:induction false} PfInstancesHaveNoGaps(devices: seq<string>, i: nat, x: string, m: nat) returns (j: nat)
    requires i <= |devices| && m < Count(devices[..i], x)
    ensures j < i && devices[j] == x && Count(devices[..j], x) == m
    decreases i
  {
    assert devices[..i][..i - 1] == devices[..i - 1];
    if m < Count(devices[..i - 1], x) {
      j := PfInstancesHaveNoGaps(devices, i - 1, x, m);
    } else {
      j := i - 1;
    }
  }

  /** One more physical function appends its own entry and then its block. */
  lemma LayoutAt(a: AllocateInstance, devices: seq<string>, k: nat, n: nat, x: nat)
    requires n < |devices| && n < |a.vpcPrefixId| && x < |Layout(a, devices, k, n + 1)|
    ensures var before, c := |Layout(a, devices, k, n)|, Layout(a, devices, k, n + 1)[x];
      && (x < before ==> c == Layout(a, devices, k, n)[x])
      && (x == before ==> c == PfConfig(a, devices, n) && c.virtualFunctionId.None?)
      && (x > before ==>
            && c.virtualFunctionId.Some?
            && Start(n, k) + (x - before - 1) < |a.vfVpcPrefixId|
            && c == VfConfig(a, devices, n, Start(n, k), x - before - 1))
  {
    hide Layout, VfBlock, Start, Count;
    var start := Start(n, k);
    var count := BlockSize(|a.vfVpcPrefixId|, start, k);
    var front, block := Layout(a, devices, k, n), VfBlock(a, devices, n, start, count);
    LayoutStep(a, devices, k, n);
    assert (front + [PfConfig(a, devices, n)] + block)[x] ==
      if x < |front| then front[x] else if x == |front| then PfConfig(a, devices, n) else block[x - |front| - 1];
    if x > |front| {
      BlockAt(a, devices, n, start, count, x - |front| - 1);
    }
  }

  lemma LayoutStarts(a: AllocateInstance, devices: seq<string>, k: nat)
    ensures Layout(a, devices, k, 0) == []
  {
  }

  /** Every physical function in the list stands where `PfPosition` says. */
  lemma {:induction false} PfInLayout(a: AllocateInstance, devices: seq<string>, k: nat, n: nat, x: nat)
    returns (i: nat)
    requires n <= |devices| && n <= |a.vpcPrefixId|
    requires x < |Layout(a, devices, k, n)| && Layout(a, devices, k, n)[x].virtualFunctionId.None?
    ensures i < n && x == i + Min(Start(i, k), |a.vfVpcPrefixId|)
    ensures Layout(a, devices, k, n)[x] == PfConfig(a, devices, i)
  {
    hide Layout, VfBlock, PfConfig, VfConfig, Start;
    LayoutStarts(a, devices, k);
    LayoutAt(a, devices, k, n - 1, x);
    if x < |Layout(a, devices, k, n - 1)| {
      i := PfInLayout(a, devices, k, n - 1, x);
    } else {
      i := n - 1;
    }
  }

  /**
   * In the list of an accepted request no two physical functions share device and instance, and the instance numbers of
   * a device have no gaps: every smaller number stands earlier in the list.
   */
  lemma RequestNumbersDevices(a: AllocateInstance, discoveryInfo: Option<seq<NetworkInterface>>, x: nat)
    requires Built(a, discoveryInfo).Ok?
    requires x < |Built(a, discoveryInfo).configs| && Built(a, discoveryInfo).configs[x].virtualFunctionId.None?
    ensures var configs := Built(a, discoveryInfo).configs;
      && (forall y :: 0 <= y < |configs| && y != x && configs[y].virtualFunctionId.None? ==>
            configs[y].device != configs[x].device || configs[y].deviceInstance != configs[x].deviceInstance)
      && (forall m: nat :: m < configs[x].deviceInstance ==> HasEarlierPf(configs, x, configs[x].device, m))
  {
    AcceptedLayout(a, discoveryInfo);
    hide Built, Layout, Devices, VfsPerPf, PfConfig;
    var configs, devices, n := Built(a, discoveryInfo).configs, Devices(discoveryInfo.value), |a.vpcPrefixId|;
    var k := VfsPerPf(n, |a.vfVpcPrefixId|);
    var i := PfInLayout(a, devices, k, n, x);
    forall y | 0 <= y < |configs| && y != x && configs[y].virtualFunctionId.None?
      ensures configs[y].device != configs[x].device || configs[y].deviceInstance != configs[x].deviceInstance
    {
      var j := PfInLayout(a, devices, k, n, y);
      if i < j {
        PfPairsAreUnique(a, devices, i, j);
      } else {
        PfPairsAreUnique(a, devices, j, i);
      }
    }
    forall m: nat | m < configs[x].deviceInstance
      ensures HasEarlierPf(configs, x, configs[x].device, m)
    {
      PfNumber(a, devices, i);
      var j := PfInstancesHaveNoGaps(devices, i, devices[i], m);
      PfNumber(a, devices, j);
      StartGrows(j, i, k);
      PfPosition(a, devices, k, n, j);
      var y := j + Min(Start(j, k), |a.vfVpcPrefixId|);
      assert y < x && IsPf(configs[y], configs[x].device, m);
    }
  }

  predicate IsPf(c: InterfaceConfig, device: string, instance: nat) {
    c.virtualFunctionId.None? && c.device == device && c.deviceInstance == instance
  }

  predicate HasEarlierPf(configs: seq<InterfaceConfig>, x: nat, device: string, instance: nat)
    requires x <= |configs|
  {
    exists y :: 0 <= y < x && IsPf(configs[y], device, instance)
  }

  lemma PfNumber(a: AllocateInstance, devices: seq<string>, i: nat)
    requires i < |devices| && i < |a.vpcPrefixId|
    ensures IsPf(PfConfig(a, devices, i), devices[i], Count(devices[..i], devices[i]))
  {
  }

  lemma {:induction false} StartGrows(i: nat, j: nat, k: nat)
    requires i <= j
    ensures Start(i, k) <= Start(j, k)
  {
    if i < j {
      StartGrows(i, j - 1, k);
    }
  }

  /** Every virtual function in the list is the j-th of some physical function. */
  lemma {:induction false} VfInLayout(a: AllocateInstance, devices: seq<string>, k: nat, n: nat, x: nat)
    returns (i: nat, j: nat)
    requires n <= |devices| && n <= |a.vpcPrefixId|
    requires x < |Layout(a, devices, k, n)| && Layout(a, devices, k, n)[x].virtualFunctionId.Some?
    ensures i < n && Start(i, k) + j < |a.vfVpcPrefixId|
    ensures Layout(a, devices, k, n)[x] == VfConfig(a, devices, i, Start(i, k), j)
  {
    hide Layout, VfBlock, PfConfig, VfConfig, Start;
    LayoutStarts(a, devices, k);
    LayoutAt(a, devices, k, n - 1, x);
    if x < |Layout(a, devices, k, n - 1)| {
      i, j := VfInLayout(a, devices, k, n - 1, x);
    } else {
      i, j := n - 1, x - |Layout(a, devices, k, n - 1)| - 1;
    }
  }

  /** Every virtual function got the addresses at its own position in the address lists. */
  predicate AddressesArePositional(a: AllocateInstance, configs: seq<InterfaceConfig>) {
    forall c :: c in configs && c.virtualFunctionId.Some? ==> IsPositional(a, c)
  }

  predicate IsPositional(a: AllocateInstance, c: InterfaceConfig)
    requires c.virtualFunctionId.Some?
  {
    var g := c.virtualFunctionId.value;
    c.ipAddress == At(a.vfIpAddress, g) && (c.ipv6.Some? ==> c.ipv6.value.ipAddress == At(a.ipv6VfIpAddress, g))
  }

  predicate IsDistinct(s: seq<string>) {
    forall i, j :: 0 <= i < j < |s| ==> s[i] != s[j]
  }

  /**
   * With distinct VF addresses, every virtual function gets the addresses at its own position exactly when there is
   * one physical function, at most one virtual function, or no address to give to a virtual function after the first
   * physical function's: otherwise addresses repeat.
   */
  lemma VfAddressesArePositionalExactlyWhen(a: AllocateInstance, discoveryInfo: Option<seq<NetworkInterface>>)
    requires Built(a, discoveryInfo).Ok?
    requires IsDistinct(a.vfIpAddress) && IsDistinct(a.ipv6VfIpAddress)
    ensures AddressesArePositional(a, Built(a, discoveryInfo).configs) <==>
      || |a.vpcPrefixId| == 1 || |a.vfVpcPrefixId| <= 1
      || (a.vfIpAddress == []
          && (a.ipv6VfIpAddress == [] || |a.ipv6VfPrefixId| <= VfsPerPf(|a.vpcPrefixId|, |a.vfVpcPrefixId|)))
  {
    AcceptedLayout(a, discoveryInfo);
    hide Built, Layout, Devices, VfsPerPf;
    var pfs, vfs := |a.vpcPrefixId|, |a.vfVpcPrefixId|;
    var k := VfsPerPf(pfs, vfs);
    var configs := Built(a, discoveryInfo).configs;
    if pfs == 1 || vfs <= 1 || (a.vfIpAddress == [] && (a.ipv6VfIpAddress == [] || |a.ipv6VfPrefixId| <= k)) {
      forall c | c in configs && c.virtualFunctionId.Some?
        ensures IsPositional(a, c)
      {
        var x :| 0 <= x < |configs| && configs[x] == c;
        var i, j := VfInLayout(a, Devices(discoveryInfo.value), k, pfs, x);
        VfIsPositional(a, Devices(discoveryInfo.value), k, i, j);
      }
    } else {
      ShareIsProper(pfs, vfs);
      VfOfRequest(a, discoveryInfo, k, k, 1, 0);
      assert configs[k + 2] in configs && !IsPositional(a, configs[k + 2]);
    }
  }

  lemma VfIsPositional(a: AllocateInstance, devices: seq<string>, k: nat, i: nat, j: nat)
    requires i < |devices| && Start(i, k) + j < |a.vfVpcPrefixId|
    requires || i == 0 || |a.vfVpcPrefixId| <= 1
             || (a.vfIpAddress == [] && (a.ipv6VfIpAddress == [] || |a.ipv6VfPrefixId| <= k))
    ensures IsPositional(a, VfConfig(a, devices, i, Start(i, k), j))
  {
    if i > 0 {
      StartGrows(1, i, k);
      assert Start(1, k) == k;
    }
  }

  lemma ShareIsProper(pfs: nat, vfs: nat)
    requires pfs > 1 && vfs > 1
    ensures VfsPerPf(pfs, vfs) < vfs
  {
    if vfs >= pfs {
      var k := vfs / pfs;
      assert vfs >= pfs * k;
      Monotone(2, pfs, k);
    }
  }
}
