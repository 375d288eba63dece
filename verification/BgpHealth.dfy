/** The BGP part of the health check: which sessions are missing, down or unexpected. */
module BgpHealth {
  import opened Text
  import opened Decimals

  /** One address family of `show bgp summary json`: dynamic peers, and the state of each session by peer name. */
  datatype Stats = Stats(dynamicPeers: nat, peers: map<string, string>)
  datatype Networks = Networks(ipv4Unicast: Stats, l2VpnEvpn: Stats)

  /** What the configuration expects. `uplinks` are the session names of the ports. */
  datatype Settings = Settings(
    uplinks: seq<string>, minHealthyLinks: nat, hostRoutes: seq<string>, routeServers: seq<string>)

  const ESTABLISHED := "Established"

  /** The regular expression `^p[0-9]+_[si]f$`. */
  predicate IsTorSession(name: string) {
    var n := |name|;
    && n >= 5 && name[0] == 'p' && AllDigits(name[1..n - 3])
    && name[n - 3] == '_' && (name[n - 2] == 's' || name[n - 2] == 'i') && name[n - 1] == 'f'
  }

  predicate IsUp(s: Stats, peer: string) {
    peer in s.peers && s.peers[peer] == "Established"
  }

  /** The peers that are not top-of-rack switches. */
  function OtherPeers(s: Stats): set<string> {
    set name | name in s.peers && !IsTorSession(name)
  }

  function UnlistedPeers(s: Stats, listed: seq<string>): set<string> {
    set name | name in OtherPeers(s) && name !in listed
  }

  // ---------------------------------------------------------------- what must be found

  /** The expected uplinks without an established session. */
  function DownUplinks(s: Stats, settings: Settings, n: nat): set<string>
    requires n <= |settings.uplinks|
  {
    set i | 0 <= i < n && !IsUp(s, settings.uplinks[i]) :: settings.uplinks[i]
  }

  function CheckedUplinks(settings: Settings): nat {
    if settings.minHealthyLinks <= |settings.uplinks| then settings.minHealthyLinks else |settings.uplinks|
  }

  /** Route server `i` has no established session, or an earlier entry has already claimed it. */
  predicate IsDownServer(s: Stats, routeServers: seq<string>, i: nat)
    requires i < |routeServers|
  {
    var name := routeServers[i];
    IsTorSession(name) || !IsUp(s, name) || name in routeServers[..i]
  }

  function DownServers(s: Stats, routeServers: seq<string>, n: nat): seq<string>
    requires n <= |routeServers|
  {
    if n == 0 then []
    else
      DownServers(s, routeServers, n - 1) + if IsDownServer(s, routeServers, n - 1) then [routeServers[n - 1]] else []
  }

  /** `BgpHealthData`; the unexpected peers of each family, and how many other errors there were. */
  datatype Findings = Findings(
    unhealthyTors: set<string>, unhealthyServers: seq<string>, unexpectedIpv4: set<string>, unexpectedEvpn: set<string>,
    otherErrors: nat)

  const NOTHING := Findings({}, [], {}, {}, 0)

  function Flag(b: bool): nat {
    if b then 1 else 0
  }

  function TorFindings(f: Findings, s: Stats, settings: Settings): Findings {
    f.(unhealthyTors := f.unhealthyTors + DownUplinks(s, settings, CheckedUplinks(settings)),
       otherErrors := f.otherErrors + Flag(settings.minHealthyLinks > |settings.uplinks|))
  }

  function Ipv4Findings(f: Findings, s: Stats, settings: Settings): Findings {
    var f1 := TorFindings(f, s, settings);
    f1.(unexpectedIpv4 := UnlistedPeers(s, settings.hostRoutes),
        otherErrors := f1.otherErrors + Flag(s.dynamicPeers != 0))
  }

  function EvpnFindings(f: Findings, s: Stats, settings: Settings): Findings {
    var f1 :=
      if settings.routeServers == [] then TorFindings(f, s, settings).(unexpectedEvpn := UnlistedPeers(s, []))
      else
        f.(unhealthyServers := DownServers(s, settings.routeServers, |settings.routeServers|),
           unexpectedEvpn := UnlistedPeers(s, settings.routeServers));
    f1.(otherErrors := f1.otherErrors + Flag(s.dynamicPeers != 0))
  }

  /** `None` where the summary cannot be had or read. */
  function Verified(summary: Option<Networks>, settings: Settings): Findings {
    match summary
    case None => NOTHING.(otherErrors := 1)
    case Some(n) => EvpnFindings(Ipv4Findings(NOTHING, n.ipv4Unicast, settings), n.l2VpnEvpn, settings)
  }

  // ---------------------------------------------------------------- the code

  class BgpHealthData {
    var unhealthyTors: set<string>
    var unhealthyServers: seq<string>
    var unexpectedIpv4: set<string>
    var unexpectedEvpn: set<string>
    var otherErrors: nat

    constructor ()
      ensures Value() == NOTHING
    {
      unhealthyTors, unhealthyServers, unexpectedIpv4, unexpectedEvpn, otherErrors := {}, [], {}, {}, 0;
    }

    function Value(): Findings
      reads this
    {
      Findings(unhealthyTors, unhealthyServers, unexpectedIpv4, unexpectedEvpn, otherErrors)
    }

    method CheckTorRoutes(s: Stats, settings: Settings)
      modifies this
      ensures Value() == TorFindings(old(Value()), s, settings)
    {
      var portId := 0;
      while portId < settings.minHealthyLinks
        invariant 0 <= portId <= settings.minHealthyLinks && portId <= |settings.uplinks|
        invariant Value() == old(Value()).(unhealthyTors := old(unhealthyTors) + DownUplinks(s, settings, portId))
      {
        if portId >= |settings.uplinks| {
          otherErrors := otherErrors + 1;
          return;
        }
        var port := settings.uplinks[portId];
        UplinkStep(s, settings, portId);
        if port !in s.peers || s.peers[port] != ESTABLISHED {
          unhealthyTors := unhealthyTors + {port};
        }
        portId := portId + 1;
      }
    }

    method CheckIpv4(s: Stats, settings: Settings)
      requires Value() == NOTHING
      modifies this
      ensures Value() == Ipv4Findings(NOTHING, s, settings)
    {
      CheckTorRoutes(s, settings);
      unexpectedIpv4 := Unlisted(s, settings.hostRoutes);
      if s.dynamicPeers != 0 {
        otherErrors := otherErrors + 1;
      }
    }

    method CheckEvpn(s: Stats, settings: Settings)
      requires unhealthyServers == [] && unexpectedEvpn == {}
      modifies this
      ensures Value() == EvpnFindings(old(Value()), s, settings)
    {
      if settings.routeServers == [] {
        CheckTorRoutes(s, settings);
        unexpectedEvpn := Unlisted(s, []);
      } else {
        var servers := settings.routeServers;
        var otherPeers := OtherPeers(s);
        for i := 0 to |servers|
          invariant Value() == old(Value()).(unhealthyServers := DownServers(s, servers, i))
          invariant otherPeers == UnlistedPeers(s, servers[..i])
        {
          assert servers[..i + 1] == servers[..i] + [servers[i]];
          var found := servers[i] in otherPeers;
          otherPeers := otherPeers - {servers[i]};
          if !found || s.peers[servers[i]] != ESTABLISHED {
            unhealthyServers := unhealthyServers + [servers[i]];
          }
        }
        assert servers[..|servers|] == servers;
        unexpectedEvpn := otherPeers;
      }
      if s.dynamicPeers != 0 {
        otherErrors := otherErrors + 1;
      }
    }
  }

  lemma UplinkStep(s: Stats, settings: Settings, n: nat)
    requires n < |settings.uplinks|
    ensures DownUplinks(s, settings, n + 1) ==
      DownUplinks(s, settings, n) + if IsUp(s, settings.uplinks[n]) then {} else {settings.uplinks[n]}
  {
  }

  /** The peers that are neither top-of-rack switches nor listed, in whatever order the map is traversed. */
  method Unlisted(s: Stats, listed: seq<string>) returns (names: set<string>)
    ensures names == UnlistedPeers(s, listed)
  {
    names := {};
    var rest := s.peers.Keys;
    while rest != {}
      invariant rest <= s.peers.Keys
      invariant names == set name | name in OtherPeers(s) && name !in listed && name !in rest
      decreases rest
    {
      var name :| name in rest;
      rest := rest - {name};
      if !IsTorSession(name) && name !in listed {
        names := names + {name};
      }
    }
  }

  method VerifySummary(summary: Option<Networks>, settings: Settings) returns (data: BgpHealthData)
    ensures fresh(data) && data.Value() == Verified(summary, settings)
  {
    data := new BgpHealthData();
    match summary {
      case None => data.otherErrors := 1;
      case Some(n) =>
        data.CheckIpv4(n.ipv4Unicast, settings);
        data.CheckEvpn(n.l2VpnEvpn, settings);
    }
  }

  // ---------------------------------------------------------------- properties

  predicate NoRepeats(names: seq<string>) {
    forall i, j :: 0 <= i < j < |names| ==> names[i] != names[j]
  }

  predicate SpellsTorSession(name: string, port: string, kind: char) {
    name == "p" + port + "_" + [kind] + "f" && port != "" && AllDigits(port) && (kind == 's' || kind == 'i')
  }

  /** The names of switch sessions: `p`, a port number, and `_sf` or `_if`. */
  lemma TorSessionExactlyWhen(name: string)
    ensures IsTorSession(name) <==> exists port, kind :: SpellsTorSession(name, port, kind)
  {
    if IsTorSession(name) {
      var n := |name|;
      assert name == "p" + name[1..n - 3] + "_" + [name[n - 2]] + "f";
      assert SpellsTorSession(name, name[1..n - 3], name[n - 2]);
    }
    if port, kind :| SpellsTorSession(name, port, kind) {
      assert name[1..|name| - 3] == port;
    }
  }

  /** All expected uplinks exist and have established sessions. */
  predicate UplinksAreUp(s: Stats, settings: Settings) {
    && settings.minHealthyLinks <= |settings.uplinks|
    && forall i :: 0 <= i < settings.minHealthyLinks ==> IsUp(s, settings.uplinks[i])
  }

  /** No peer but switches and those listed. */
  predicate OnlyListed(s: Stats, listed: seq<string>) {
    forall name :: name in s.peers ==> IsTorSession(name) || name in listed
  }

  predicate ServersAreUp(s: Stats, routeServers: seq<string>) {
    && NoRepeats(routeServers)
    && forall i :: 0 <= i < |routeServers| ==> !IsTorSession(routeServers[i]) && IsUp(s, routeServers[i])
  }

  /** The sessions are as expected in both families. */
  predicate IsFine(n: Networks, settings: Settings) {
    && UplinksAreUp(n.ipv4Unicast, settings)
    && OnlyListed(n.ipv4Unicast, settings.hostRoutes)
    && n.ipv4Unicast.dynamicPeers == 0
    && (if settings.routeServers == [] then UplinksAreUp(n.l2VpnEvpn, settings)
        else ServersAreUp(n.l2VpnEvpn, settings.routeServers))
    && OnlyListed(n.l2VpnEvpn, settings.routeServers)
    && n.l2VpnEvpn.dynamicPeers == 0
  }

  lemma {:induction false} NoDownServersExactlyWhen(s: Stats, routeServers: seq<string>, n: nat)
    requires n <= |routeServers|
    ensures DownServers(s, routeServers, n) == [] <==> forall i :: 0 <= i < n ==> !IsDownServer(s, routeServers, i)
  {
    if n > 0 {
      NoDownServersExactlyWhen(s, routeServers, n - 1);
    }
  }

  lemma ServersAreUpExactlyWhen(s: Stats, routeServers: seq<string>)
    ensures ServersAreUp(s, routeServers) <==> forall i :: 0 <= i < |routeServers| ==> !IsDownServer(s, routeServers, i)
  {
    if forall i :: 0 <= i < |routeServers| ==> !IsDownServer(s, routeServers, i) {
      forall i, j | 0 <= i < j < |routeServers|
        ensures routeServers[i] != routeServers[j]
      {
        assert !IsDownServer(s, routeServers, j);
        assert routeServers[..j][i] == routeServers[i];
      }
      forall i | 0 <= i < |routeServers|
        ensures !IsTorSession(routeServers[i]) && IsUp(s, routeServers[i])
      {
        assert !IsDownServer(s, routeServers, i);
      }
    }
  }

  lemma NoDownUplinksExactlyWhen(s: Stats, settings: Settings)
    ensures UplinksAreUp(s, settings) <==>
      settings.minHealthyLinks <= |settings.uplinks| && DownUplinks(s, settings, CheckedUplinks(settings)) == {}
  {
    var n := CheckedUplinks(settings);
    if DownUplinks(s, settings, n) == {} {
      forall i | 0 <= i < n
        ensures IsUp(s, settings.uplinks[i])
      {
        assert settings.uplinks[i] !in DownUplinks(s, settings, n);
      }
    }
  }

  lemma NoneUnlistedExactlyWhen(s: Stats, listed: seq<string>)
    ensures OnlyListed(s, listed) <==> UnlistedPeers(s, listed) == {}
  {
    var unlisted := UnlistedPeers(s, listed);
    if unlisted == {} {
      forall name | name in s.peers
        ensures IsTorSession(name) || name in listed
      {
        assert name !in unlisted;
      }
    }
  }

  /**
   * The check finds nothing exactly when the summary is readable and the sessions are as expected. A route server that
   * is listed twice, or named like a switch session, is therefore never healthy.
   */
  lemma NothingFoundExactlyWhen(summary: Option<Networks>, settings: Settings)
    ensures Verified(summary, settings) == NOTHING <==> summary.Some? && IsFine(summary.value, settings)
  {
    if summary.Some? {
      var ipv4, evpn := summary.value.ipv4Unicast, summary.value.l2VpnEvpn;
      NoDownUplinksExactlyWhen(ipv4, settings);
      NoneUnlistedExactlyWhen(ipv4, settings.hostRoutes);
      NoneUnlistedExactlyWhen(evpn, settings.routeServers);
      if settings.routeServers == [] {
        NoDownUplinksExactlyWhen(evpn, settings);
      } else {
        NoDownServersExactlyWhen(evpn, settings.routeServers, |settings.routeServers|);
        ServersAreUpExactlyWhen(evpn, settings.routeServers);
      }
    }
  }

  /** A switch whose port is down is found once even if both families miss it, and only expected ports are. */
  lemma DownPortIsFoundExactlyWhen(n: Networks, settings: Settings, port: string)
    ensures port in Verified(Some(n), settings).unhealthyTors <==>
      exists i :: 0 <= i < settings.minHealthyLinks && i < |settings.uplinks| && settings.uplinks[i] == port
        && (!IsUp(n.ipv4Unicast, port) || (settings.routeServers == [] && !IsUp(n.l2VpnEvpn, port)))
  {
  }
}
