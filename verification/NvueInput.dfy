/** Input construction of `update_nvue`: security groups, ports and tenancy. */
module NvueInput {
  import opened Text
  import opened Decimals

  /** `NetworkSecurityGroupRule::try_from`, which may refuse a rule. */
  type Convert = string -> Option<string>

  datatype Nsg = Nsg(id: string, rules: seq<string>, statefulEgress: bool)
  datatype Interface = Interface(isPhysical: bool, virtualFunctionId: Option<nat>, nsg: Option<Nsg>)
  datatype NetworkConfig = NetworkConfig(
    useAdminNetwork: bool, isPrimaryDpu: bool, hasAdminInterface: bool, tenantInterfaces: seq<Interface>)

  datatype DeviceNames = DeviceNames(physical: string, virtBegin: string, sfId: string)
  const PRE_23 := DeviceNames("pf0hpf_sf", "pf0vf", "_sf")
  const HBN_23 := DeviceNames("pf0hpf_if", "pf0vf", "_if")

  datatype Group = Group(id: string, rules: seq<string>, statefulEgress: bool)
  datatype Port = Port(name: string, isPhysical: bool, nsgId: Option<string>)
  datatype Input = Input(tenancyEnabled: bool, hasStateful: bool, groups: map<string, Group>, ports: seq<Port>)

  function Converted(convert: Convert, rules: seq<string>): Option<seq<string>> {
    if rules == [] then Some([])
    else match (Converted(convert, rules[..|rules| - 1]), convert(rules[|rules| - 1]))
      case (Some(front), Some(last)) => Some(front + [last])
      case _ => None
  }

  predicate Convertible(convert: Convert, i: Interface) {
    i.nsg.Some? ==> Converted(convert, i.nsg.value.rules).Some?
  }

  /** Rules are converted one by one, in order, and all of them or none. */
  lemma {:induction false} ConvertedMeans(convert: Convert, rules: seq<string>)
    ensures Converted(convert, rules).Some? <==> forall i :: 0 <= i < |rules| ==> convert(rules[i]).Some?
    ensures Converted(convert, rules).Some? ==>
      var r := Converted(convert, rules).value;
      |r| == |rules| && forall i :: 0 <= i < |rules| ==> convert(rules[i]) == Some(r[i])
  {
    if rules != [] {
      ConvertedMeans(convert, rules[..|rules| - 1]);
    }
  }

  /** The definition of group `id` by the first interface that names it. */
  function FirstNsg(interfaces: seq<Interface>, id: string): Option<Nsg> {
    if interfaces == [] then None
    else
      var front, last := FirstNsg(interfaces[..|interfaces| - 1], id), interfaces[|interfaces| - 1].nsg;
      if front.Some? then front else if last.Some? && last.value.id == id then last else None
  }

  /** The groups are exactly those named, each once, as the first interface that names it defines it. */
  ghost predicate GroupsAreFirstDefinitions(convert: Convert, interfaces: seq<Interface>, groups: map<string, Group>) {
    forall id ::
      && (id in groups <==> FirstNsg(interfaces, id).Some?)
      && (id in groups ==>
            var nsg := FirstNsg(interfaces, id).value;
            && groups[id].id == id && Some(groups[id].rules) == Converted(convert, nsg.rules)
            && groups[id].statefulEgress == nsg.statefulEgress)
  }

  predicate SomeStateful(interfaces: seq<Interface>) {
    exists i :: 0 <= i < |interfaces| && interfaces[i].nsg.Some? && interfaces[i].nsg.value.statefulEgress
  }

  method BuildNetworkSecurityGroups(convert: Convert, interfaces: seq<Interface>)
    returns (r: Option<(bool, map<string, Group>)>)
    ensures r.Some? <==> forall i :: 0 <= i < |interfaces| ==> Convertible(convert, interfaces[i])
    ensures r.Some? ==>
      r.value.0 == SomeStateful(interfaces) && GroupsAreFirstDefinitions(convert, interfaces, r.value.1)
  {
    var groups: map<string, Group> := map[];
    var hasStateful := false;
    for n := 0 to |interfaces|
      invariant forall i :: 0 <= i < n ==> Convertible(convert, interfaces[i])
      invariant hasStateful == SomeStateful(interfaces[..n])
      invariant GroupsAreFirstDefinitions(convert, interfaces[..n], groups)
    {
      assert interfaces[..n + 1][..n] == interfaces[..n];
      StatefulStep(interfaces, n);
      if interfaces[n].nsg.None? {
        continue;
      }
      var nsg := interfaces[n].nsg.value;
      var rules := Converted(convert, nsg.rules);
      if rules.None? {
        assert !Convertible(convert, interfaces[n]);
        return None;
      }
      hasStateful := hasStateful || nsg.statefulEgress;
      if nsg.id !in groups {
        groups := groups[nsg.id := Group(nsg.id, rules.value, nsg.statefulEgress)];
      }
    }
    assert interfaces[..|interfaces|] == interfaces;
    return Some((hasStateful, groups));
  }

  lemma StatefulStep(interfaces: seq<Interface>, n: nat)
    requires n < |interfaces|
    ensures SomeStateful(interfaces[..n + 1]) ==
      (SomeStateful(interfaces[..n]) || (interfaces[n].nsg.Some? && interfaces[n].nsg.value.statefulEgress))
  {
    var shorter, longer := interfaces[..n], interfaces[..n + 1];
    if SomeStateful(shorter) {
      var i :| 0 <= i < |shorter| && shorter[i].nsg.Some? && shorter[i].nsg.value.statefulEgress;
      assert longer[i] == shorter[i];
    }
    if SomeStateful(longer) {
      var i :| 0 <= i < |longer| && longer[i].nsg.Some? && longer[i].nsg.value.statefulEgress;
      assert i < n ==> shorter[i] == longer[i];
    }
    assert longer[n] == interfaces[n];
  }

  /** A first definition is that of some interface, and no earlier one names the group. */
  lemma {:induction false} FirstNsgIsFirst(interfaces: seq<Interface>, i: nat, id: string) returns (first: nat)
    requires i < |interfaces| && interfaces[i].nsg.Some? && interfaces[i].nsg.value.id == id
    ensures first <= i && FirstNsg(interfaces, id) == interfaces[first].nsg
    ensures FirstNsg(interfaces, id).Some? && FirstNsg(interfaces, id).value.id == id
    ensures forall j :: 0 <= j < first && interfaces[j].nsg.Some? ==> interfaces[j].nsg.value.id != id
    decreases interfaces
  {
    var front := interfaces[..|interfaces| - 1];
    if j :| 0 <= j < |front| && j <= i && front[j].nsg.Some? && front[j].nsg.value.id == id {
      first := FirstNsgIsFirst(front, j, id);
    } else {
      first := i;
      NotNamed(front, id);
    }
  }

  lemma {:induction false} NotNamed(interfaces: seq<Interface>, id: string)
    requires forall j :: 0 <= j < |interfaces| && interfaces[j].nsg.Some? ==> interfaces[j].nsg.value.id != id
    ensures FirstNsg(interfaces, id) == None
  {
    if interfaces != [] {
      NotNamed(interfaces[..|interfaces| - 1], id);
    }
  }

  // ---------------------------------------------------------------- ports

  function VirtName(names: DeviceNames, id: nat): string {
    names.virtBegin + Print(id) + names.sfId
  }

  function PortOf(names: DeviceNames, i: Interface): Option<Port> {
    if !i.isPhysical && i.virtualFunctionId.None? then None
    else
      Some(Port(if i.isPhysical then names.physical else VirtName(names, i.virtualFunctionId.value), i.isPhysical,
        if i.nsg.Some? then Some(i.nsg.value.id) else None))
  }

  /** A port carries the kind and the security group of its interface, and the name that goes with its function. */
  predicate IsPortOf(names: DeviceNames, port: Port, i: Interface) {
    && (port.isPhysical <==> i.isPhysical)
    && (i.isPhysical ==> port.name == names.physical)
    && (!i.isPhysical ==> i.virtualFunctionId.Some? && port.name == VirtName(names, i.virtualFunctionId.value))
    && (match i.nsg case Some(nsg) => port.nsgId == Some(nsg.id) case None => port.nsgId == None)
  }

  method BuildInput(convert: Convert, names: DeviceNames, nc: NetworkConfig) returns (r: Option<Input>)
    ensures r.Some? <==>
      && (forall i :: 0 <= i < |nc.tenantInterfaces| ==> Convertible(convert, nc.tenantInterfaces[i]))
      && (if nc.useAdminNetwork then nc.hasAdminInterface
          else nc.tenantInterfaces != [] && forall i :: 0 <= i < |nc.tenantInterfaces| ==>
            PortOf(names, nc.tenantInterfaces[i]).Some?)
    ensures r.Some? ==>
      && r.value.hasStateful == SomeStateful(nc.tenantInterfaces)
      && GroupsAreFirstDefinitions(convert, nc.tenantInterfaces, r.value.groups)
      && (r.value.tenancyEnabled <==> r.value.ports != [])
      && (r.value.tenancyEnabled <==> !nc.useAdminNetwork || nc.isPrimaryDpu)
      && (nc.useAdminNetwork && nc.isPrimaryDpu ==> r.value.ports == [Port(names.physical, true, None)])
      && (!nc.useAdminNetwork ==>
            && |r.value.ports| == |nc.tenantInterfaces|
            && (forall i :: 0 <= i < |r.value.ports| ==>
                  Some(r.value.ports[i]) == PortOf(names, nc.tenantInterfaces[i]))
            && forall i :: 0 <= i < |r.value.ports| ==> IsPortOf(names, r.value.ports[i], nc.tenantInterfaces[i]))
  {
    if nc.useAdminNetwork && !nc.hasAdminInterface {
      return None;
    }
    var rules := BuildNetworkSecurityGroups(convert, nc.tenantInterfaces);
    if rules.None? {
      return None;
    }
    var (hasStateful, groups) := rules.value;
    var tenancyEnabled := !nc.useAdminNetwork || nc.isPrimaryDpu;
    var ports: seq<Port> := [];
    if nc.useAdminNetwork {
      if nc.isPrimaryDpu {
        ports := [Port(names.physical, true, None)];
      }
    } else {
      for i := 0 to |nc.tenantInterfaces|
        invariant |ports| == i
        invariant forall j :: 0 <= j < i ==> Some(ports[j]) == PortOf(names, nc.tenantInterfaces[j])
      {
        var net := nc.tenantInterfaces[i];
        var name := names.physical;
        if !net.isPhysical {
          if net.virtualFunctionId.None? {
            return None;
          }
          name := VirtName(names, net.virtualFunctionId.value);
        }
        ports := ports + [Port(name, net.isPhysical, if net.nsg.Some? then Some(net.nsg.value.id) else None)];
      }
    }
    if tenancyEnabled && ports == [] {
      return None;
    }
    return Some(Input(tenancyEnabled, hasStateful, groups, ports));
  }

  /** Every port's security group exists, and is the definition of the first interface that names it. */
  lemma PortGroupsAreDefined(
      convert: Convert, names: DeviceNames, interfaces: seq<Interface>, groups: map<string, Group>, i: nat)
    returns (first: nat)
    requires GroupsAreFirstDefinitions(convert, interfaces, groups)
    requires i < |interfaces| && PortOf(names, interfaces[i]).Some? && PortOf(names, interfaces[i]).value.nsgId.Some?
    ensures var id := PortOf(names, interfaces[i]).value.nsgId.value;
      && id in groups && first <= i && interfaces[first].nsg.Some? && interfaces[first].nsg.value.id == id
      && (forall j :: 0 <= j < first && interfaces[j].nsg.Some? ==> interfaces[j].nsg.value.id != id)
      && Some(groups[id].rules) == Converted(convert, interfaces[first].nsg.value.rules)
      && groups[id].id == id && groups[id].statefulEgress == interfaces[first].nsg.value.statefulEgress
  {
    first := FirstNsgIsFirst(interfaces, i, interfaces[i].nsg.value.id);
  }

  /** Distinct virtual functions never share a port name, nor does one share the physical function's. */
  lemma VirtNamesAreDistinct(names: DeviceNames, a: nat, b: nat)
    requires names == PRE_23 || names == HBN_23
    ensures VirtName(names, a) == VirtName(names, b) ==> a == b
    ensures VirtName(names, a) != names.physical
  {
    assert VirtName(names, a)[3] == 'v' && names.physical[3] == 'h';
    if VirtName(names, a) == VirtName(names, b) {
      var n := |VirtName(names, a)|;
      assert VirtName(names, a)[5..n - 3] == Print(a) && VirtName(names, b)[5..n - 3] == Print(b);
      PrintIsInjective(a, b);
    }
  }

  /** The names of both schemes, on an example. */
  lemma VirtNameExample()
    ensures VirtName(PRE_23, 3) == "pf0vf3_sf" && VirtName(HBN_23, 3) == "pf0vf3_if"
  {
    assert Print(3) == "3";
  }
}
