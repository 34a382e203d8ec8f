/** Rendering of one network pod interface into the pair of dataplane
    interfaces that joins it to the vswitch (memif, tap, veth + af-packet), its
    forwarding rules and IPSec tunnels, and of a pod loopback. */
module InterfaceRender {
  import opened Model
  import opened Naming
  import opened Allocator

  /** The result of rendering one interface pair: the vswitch-side name and
      the persisted status (None for interfaces the node already owns), or
      the error. */
  datatype PairResult = PairOk(ifName: string, status: Option<IfStatus>) | PairErr(error: string)

  function Key(iface: Interface): IfKey { IfKey(iface.parent, iface.name) }

  function MemifVswitchName(pod: string, ifName: string): string { "IF_MEMIF_VSWITCH_" + pod + "_" + ifName }
  function TapVnfName(pod: string, ifName: string): string { "IF_TAP_VNF_" + pod + "_" + ifName }
  function TapVswitchName(pod: string, ifName: string): string { "IF_TAP_VSWITCH_" + pod + "_" + ifName }
  function VethVnfName(pod: string, ifName: string): string { "IF_VETH_VNF_" + pod + "_" + ifName }
  function VethVswitchName(pod: string, ifName: string): string { "IF_VETH_VSWITCH_" + pod + "_" + ifName }
  function AfpVswitchName(pod: string, ifName: string): string { "IF_AFPIF_VSWITCH_" + pod + "_" + ifName }

  /** The status message for a failed status initialisation. */
  function InitFailedMsg(key: IfKey, reason: string): string
  {
    "network pod interface: " + key.pod + "/" + key.ifName + ", " + reason
  }

  /** The status store's initialisation: the address-management step for the
      key decides success; on success an already persisted record is reused,
      otherwise the freshly provisioned one is returned (not yet persisted). */
  function InitFrom(interfaces: map<IfKey, IfStatus>, provision: IfKey -> InitOutcome, key: IfKey): (r: InitOutcome)
    ensures r.InitErr? <==> provision(key).InitErr?
    ensures r.InitOk? && key in interfaces ==> r.status == interfaces[key]
  {
    match provision(key)
    case InitErr(e) => InitErr(e)
    case InitOk(created) => InitOk(if key in interfaces then interfaces[key] else created)
  }

  /** Interface types rendered as a pair with a persisted status. */
  predicate RendersPair(t: IfType)
  {
    t == Memif || t == Veth || t == Tap
  }

  /** The host-side label of a tap or veth: the configured label, or the
      truncated host name built from pod and interface name. */
  function HostPortLabel(iface: Interface): (hostLabel: string)
    ensures iface.hostPortLabel != "" ==> hostLabel == iface.hostPortLabel
    ensures iface.hostPortLabel == "" ==> |hostLabel| <= MaxHostNameLength
  {
    if iface.hostPortLabel == "" then ConstructBaseHostName(iface.parent, iface.name) else iface.hostPortLabel
  }

  /** An ID (memif ID, VRF ID) is allocated (fresh, non-zero) only when the
      holder has 0; otherwise the held ID is kept and the pool is untouched. */
  predicate IdSettled(before: nat, after: nat, used: set<nat>, used': set<nat>)
  {
    if before == 0 then after > 0 && after !in used && used' == used + {after}
    else after == before && used' == used
  }

  /** How the record returned by the status store becomes the persisted
      one: a memif keeps a non-zero ID or gets a non-zero one, a tap or veth
      gets its host-port label; nothing else in the record changes. */
  predicate SettledRecord(iface: Interface, st0: IfStatus, st: IfStatus)
  {
    match iface.ifType
    case Memif => st == st0.(memifId := st.memifId) && st.memifId > 0 && (st0.memifId != 0 ==> st.memifId == st0.memifId)
    case Veth => st == st0.(hostPortLabel := HostPortLabel(iface))
    case Tap => st == st0.(hostPortLabel := HostPortLabel(iface))
    case _ => st == st0
  }

  /** The settled record together with the memif ID pool: only a memif
      whose record had no ID takes a fresh one from the pool. */
  predicate Settled(iface: Interface, st0: IfStatus, st: IfStatus, used: set<nat>, used': set<nat>)
  {
    && SettledRecord(iface, st0, st)
    && if iface.ifType == Memif then IdSettled(st0.memifId, st.memifId, used, used') else used' == used
  }

  /** The name `RenderConnInterfacePair` returns for an interface. */
  function ConnPairName(iface: Interface): string
  {
    match iface.ifType
    case Memif => MemifVswitchName(iface.parent, iface.name)
    case Veth => AfpVswitchName(iface.parent, iface.name)
    case Tap => TapVswitchName(iface.parent, iface.name)
    case Ethernet => iface.name
    case Bond => iface.name
    case _ => ""
  }

  /** The memif pair: the pod end (slave) and the vswitch end (master); both
      carry the status's memif ID and only the vswitch end the VRF. */
  function MemifPairEntries(vppAgent: string, vrf: nat, iface: Interface, st: IfStatus): (es: seq<Entry>)
    ensures |es| == 2 && es[0].MemifIf? && es[1].MemifIf?
    ensures es[0].memifId == st.memifId && es[1].memifId == st.memifId
    ensures !es[0].master && es[1].master
    ensures es[0].vrf == 0 && es[1].vrf == vrf
    ensures es[0].agent == iface.parent && es[0].name == iface.name
    ensures es[1].agent == vppAgent && es[1].name == MemifVswitchName(iface.parent, iface.name)
  {
    [ MemifIf(iface.parent, iface.name, st.ipAddresses, st.macAddress, iface.mtu, iface.adminStatus,
              iface.rxMode, st.memifId, false, iface.memifParms, vppAgent, 0),
      MemifIf(vppAgent, MemifVswitchName(iface.parent, iface.name), [], "", iface.mtu, iface.adminStatus,
              iface.rxMode, st.memifId, true, iface.memifParms, vppAgent, vrf) ]
  }

  function TapNamespace(iface: Interface): string
  {
    if iface.tapParms.Some? then iface.tapParms.value.namespace else ""
  }

  /** The tap pair: the Linux tap of the pod end and the vswitch tap, which
      alone carries the VRF and lives in the tap namespace or, without one,
      in the pod's. */
  function TapPairEntries(vppAgent: string, vrf: nat, iface: Interface, st: IfStatus): (es: seq<Entry>)
    ensures |es| == 2 && es[0].LinuxTapIf? && es[1].TapIf?
    ensures es[0].name == TapVnfName(iface.parent, iface.name) && es[1].name == TapVswitchName(iface.parent, iface.name)
    ensures es[0].tapIfName == es[1].name && es[1].vrf == vrf
    ensures es[1].namespace == (if TapNamespace(iface) == "" then iface.parent else TapNamespace(iface))
  {
    var pod, ifn := iface.parent, iface.name;
    var hostNs := TapNamespace(iface);
    [ LinuxTapIf(vppAgent, TapVnfName(pod, ifn), st.ipAddresses, st.macAddress, iface.mtu, iface.adminStatus,
                 ifn, TapVswitchName(pod, ifn), hostNs, pod),
      TapIf(vppAgent, TapVswitchName(pod, ifn), [], "", iface.mtu, iface.adminStatus, iface.rxMode,
            iface.tapParms, if hostNs == "" then pod else hostNs, vrf) ]
  }

  /** The veth pair and its af-packet interfaces: the pod's veth (without IPs
      in a VPP container), the vswitch's veth named by the host-port label,
      an af-packet in the pod only for a VPP container, and the vswitch
      af-packet bound to the host-port label. */
  function VethPairEntries(vppAgent: string, vrf: nat, iface: Interface, podType: PodType, st: IfStatus): (es: seq<Entry>)
    ensures |es| == (if podType == VppContainer then 4 else 3)
    ensures es[0].VethIf? && es[1].VethIf? && es[|es| - 1].AfPacketIf?
    ensures es[0].peerIfName == es[1].name && es[1].peerIfName == es[0].name
    ensures es[1].hostIfName == st.hostPortLabel && es[|es| - 1].hostIfName == st.hostPortLabel
    ensures es[|es| - 1].name == AfpVswitchName(iface.parent, iface.name) && es[|es| - 1].vrf == vrf
    ensures podType != VppContainer ==> es[0].ips == st.ipAddresses
    ensures podType == VppContainer ==>
      && es[0].ips == [] && es[2].AfPacketIf? && es[2].agent == iface.parent
      && es[2].ips == st.ipAddresses && es[2].vrf == vrf
  {
    var pod, ifn := iface.parent, iface.name;
    var veth1, veth2 := VethVnfName(pod, ifn), VethVswitchName(pod, ifn);
    var vethIps := if podType == VppContainer then [] else st.ipAddresses;
    [ VethIf(vppAgent, veth1, vethIps, st.macAddress, iface.mtu, iface.adminStatus, ifn, veth2,
             iface.linuxNamespace, pod, iface.tcpChecksumOffloadDisabled),
      VethIf(vppAgent, veth2, [], "", iface.mtu, iface.adminStatus, st.hostPortLabel, veth1,
             iface.linuxNamespace, vppAgent, false) ]
    + (if podType == VppContainer
       then [AfPacketIf(pod, ifn, st.ipAddresses, st.macAddress, iface.mtu, iface.adminStatus, iface.rxMode, ifn, vrf)]
       else [])
    + [ AfPacketIf(vppAgent, AfpVswitchName(pod, ifn), [], "", iface.mtu, iface.adminStatus, iface.rxMode,
                   st.hostPortLabel, vrf) ]
  }

  function FwdRouteDescription(nsName: string, ifName: string, r: FwdRoute): string
  {
    "FWD NS_" + nsName + "_IF_" + ifName + "_VRF_" + NatToString(r.vrfId) + "_DST_" + r.dstIpAddr
  }

  function FwdRouteEntry(nsName: string, iface: Interface, r: FwdRoute): Entry
  {
    StaticRoute(iface.parent, VrfRoute(r.vrfId, FwdRouteDescription(nsName, iface.name, r), r.dstIpAddr, r.nextHopAddr, iface.name))
  }

  function FwdArpEntry(iface: Interface, a: FwdArp): Entry
  {
    StaticArp(iface.parent, ArpEntry(a.ipAddress, a.physAddress, iface.name))
  }

  /** One static route per forwarding route, in order. */
  function FwdRouteEntries(nsName: string, iface: Interface, routes: seq<FwdRoute>): seq<Entry>
  {
    if routes == [] then []
    else FwdRouteEntries(nsName, iface, routes[..|routes| - 1]) + [FwdRouteEntry(nsName, iface, routes[|routes| - 1])]
  }

  /** One static ARP per forwarding ARP, in order. */
  function FwdArpEntries(iface: Interface, arps: seq<FwdArp>): seq<Entry>
  {
    if arps == [] then []
    else FwdArpEntries(iface, arps[..|arps| - 1]) + [FwdArpEntry(iface, arps[|arps| - 1])]
  }

  /** What `RenderInterfaceForwarding` appends: the routes, then the ARPs. */
  function ForwardingEntries(nsName: string, iface: Interface): seq<Entry>
  {
    match iface.fwd
    case None => []
    case Some(f) => FwdRouteEntries(nsName, iface, f.l3VrfRoutes) + FwdArpEntries(iface, f.l3Arps)
  }

  function TunnelEntries(iface: Interface, tunnels: seq<IpsecTunnel>): seq<Entry>
  {
    if tunnels == [] then []
    else TunnelEntries(iface, tunnels[..|tunnels| - 1]) + [IpsecTunnelEntry(iface.parent, tunnels[|tunnels| - 1], iface.name)]
  }

  /** What `RenderInterfaceIPSecTunnels` appends: one entry per tunnel. */
  function IpsecEntries(iface: Interface): seq<Entry>
  {
    match iface.ipsecTunnels
    case None => []
    case Some(ts) => TunnelEntries(iface, ts)
  }

  lemma {:induction false} FwdRouteEntriesAt(nsName: string, iface: Interface, routes: seq<FwdRoute>)
    ensures |FwdRouteEntries(nsName, iface, routes)| == |routes|
    ensures forall i :: 0 <= i < |routes| ==> FwdRouteEntries(nsName, iface, routes)[i] == FwdRouteEntry(nsName, iface, routes[i])
  {
    if routes != [] {
      FwdRouteEntriesAt(nsName, iface, routes[..|routes| - 1]);
    }
  }

  lemma {:induction false} FwdArpEntriesAt(iface: Interface, arps: seq<FwdArp>)
    ensures |FwdArpEntries(iface, arps)| == |arps|
    ensures forall i :: 0 <= i < |arps| ==> FwdArpEntries(iface, arps)[i] == FwdArpEntry(iface, arps[i])
  {
    if arps != [] {
      FwdArpEntriesAt(iface, arps[..|arps| - 1]);
    }
  }

  /** The forwarding entries of an interface are its routes in spec order,
      each described `FWD NS_<ns>_IF_<if>_VRF_<vrf>_DST_<dst>`, then its ARPs
      in spec order, all leaving through the interface and rendered on its
      parent; a nil rule set yields nothing. */
  lemma {:induction false} ForwardingEntriesInOrder(nsName: string, iface: Interface)
    ensures iface.fwd.None? ==> ForwardingEntries(nsName, iface) == []
    ensures iface.fwd.Some? ==>
      var f, es := iface.fwd.value, ForwardingEntries(nsName, iface);
      && |es| == |f.l3VrfRoutes| + |f.l3Arps|
      && (forall i :: 0 <= i < |f.l3VrfRoutes| ==>
            es[i] == StaticRoute(iface.parent, VrfRoute(f.l3VrfRoutes[i].vrfId,
                       FwdRouteDescription(nsName, iface.name, f.l3VrfRoutes[i]),
                       f.l3VrfRoutes[i].dstIpAddr, f.l3VrfRoutes[i].nextHopAddr, iface.name)))
      && (forall j :: 0 <= j < |f.l3Arps| ==>
            es[|f.l3VrfRoutes| + j] == StaticArp(iface.parent, ArpEntry(f.l3Arps[j].ipAddress, f.l3Arps[j].physAddress, iface.name)))
  {
    if iface.fwd.Some? {
      FwdRouteEntriesAt(nsName, iface, iface.fwd.value.l3VrfRoutes);
      FwdArpEntriesAt(iface, iface.fwd.value.l3Arps);
    }
  }

  /** The IPSec entries of an interface: one per tunnel, in order, on the
      interface's parent and naming the interface. */
  lemma {:induction false} IpsecEntriesInOrder(iface: Interface, tunnels: seq<IpsecTunnel>)
    ensures |TunnelEntries(iface, tunnels)| == |tunnels|
    ensures forall i :: 0 <= i < |tunnels| ==>
              TunnelEntries(iface, tunnels)[i] == IpsecTunnelEntry(iface.parent, tunnels[i], iface.name)
  {
    if tunnels != [] {
      IpsecEntriesInOrder(iface, tunnels[..|tunnels| - 1]);
    }
  }

  /** The typed pair `RenderConnInterfacePair` dispatches to. */
  function TypedPairEntries(vppAgent: string, vrf: nat, iface: Interface, podType: PodType, st: IfStatus): seq<Entry>
  {
    match iface.ifType
    case Memif => MemifPairEntries(vppAgent, vrf, iface, st)
    case Veth => VethPairEntries(vppAgent, vrf, iface, podType, st)
    case Tap => TapPairEntries(vppAgent, vrf, iface, st)
    case _ => []
  }

  /** What `RenderConnInterfacePair` appends for an interface without a
      pair: nothing for Ethernet and bond interfaces, which the node owns;
      the forwarding rules and tunnels for any other type. */
  function NoPairEntries(nsName: string, iface: Interface): seq<Entry>
  {
    if iface.ifType == Ethernet || iface.ifType == Bond then [] else ForwardingEntries(nsName, iface) + IpsecEntries(iface)
  }

  /** One end of a direct pod-to-pod memif, on the end's own pod, with no VRF. */
  function DirectMemif(iface: Interface, st: IfStatus, master: bool, socketPod: string): Entry
  {
    MemifIf(iface.parent, iface.name, st.ipAddresses, st.macAddress, iface.mtu, iface.adminStatus, iface.rxMode,
            st.memifId, master, iface.memifParms, socketPod, 0)
  }

  /** What one end of a direct pod-to-pod memif appends: its memif, its
      forwarding rules and, when `withTunnels` holds, its IPSec tunnels. */
  function DirectEndEntries(nsName: string, iface: Interface, st: IfStatus, master: bool, socketPod: string,
                            withTunnels: bool): seq<Entry>
  {
    [DirectMemif(iface, st, master, socketPod)] + ForwardingEntries(nsName, iface)
      + (if withTunnels then IpsecEntries(iface) else [])
  }

  /** The service being rendered (its name, spec pods and status) together
      with the controller state the renderer uses: the memif and VRF ID
      pools and the external lookups. */
  class NetworkServiceMgr {
    const nsName: string
    const networkPods: seq<NetworkPod>
    const env: Env
    const memifIds: IdAllocator
    const vrfIds: IdAllocator
    /** `ns.Status.RenderedVppAgentEntries`, in the order appended. */
    var renderedEntries: seq<Entry>
    /** `ns.Status.Interfaces`: the persisted records by (pod, interface). */
    var interfaces: map<IfKey, IfStatus>
    /** `ns.Status.Msg`: human-readable render failures. */
    var msgs: seq<string>

    ghost predicate Valid()
      reads memifIds, vrfIds
    {
      memifIds != vrfIds && memifIds.Valid() && vrfIds.Valid()
    }

    constructor (nsName: string, networkPods: seq<NetworkPod>, env: Env, memifIds: IdAllocator, vrfIds: IdAllocator)
      requires memifIds != vrfIds && memifIds.Valid() && vrfIds.Valid()
      ensures Valid()
      ensures this.nsName == nsName && this.networkPods == networkPods && this.env == env
      ensures this.memifIds == memifIds && this.vrfIds == vrfIds
      ensures renderedEntries == [] && interfaces == map[] && msgs == []
    {
      this.nsName := nsName;
      this.networkPods := networkPods;
      this.env := env;
      this.memifIds := memifIds;
      this.vrfIds := vrfIds;
      renderedEntries := [];
      interfaces := map[];
      msgs := [];
    }

    function InitInterfaceStatus(key: IfKey): InitOutcome
      reads this
    {
      InitFrom(interfaces, env.provision, key)
    }

    /** The uniform failure path: the record for the key is removed, one
        message is appended and the error returned. */
    method InitFailed(key: IfKey, reason: string)
      modifies this
      ensures interfaces == old(interfaces) - {key}
      ensures msgs == old(msgs) + [InitFailedMsg(key, reason)]
      ensures renderedEntries == old(renderedEntries)
    {
      interfaces := interfaces - {key};
      msgs := msgs + [InitFailedMsg(key, reason)];
    }

    /** A record without a memif ID (0) gets a fresh one from the pool. */
    method SettleMemifId(st: IfStatus) returns (st': IfStatus)
      requires Valid()
      modifies memifIds
      ensures Valid()
      ensures st' == st.(memifId := st'.memifId)
      ensures IdSettled(st.memifId, st'.memifId, old(memifIds.inUse), memifIds.inUse)
    {
      st' := st;
      if st.memifId == 0 {
        var id := memifIds.Allocate();
        st' := st.(memifId := id);
      }
    }

    /** `RenderConnMemifPair`. */
    method RenderConnMemifPair(vppAgent: string, conn: Connection, iface: Interface, podType: PodType)
      returns (r: PairResult)
      requires Valid()
      modifies this, memifIds
      ensures Valid()
      ensures old(InitInterfaceStatus(Key(iface))).InitErr? ==>
        && r == PairErr(old(InitInterfaceStatus(Key(iface))).reason)
        && interfaces == old(interfaces) - {Key(iface)}
        && msgs == old(msgs) + [InitFailedMsg(Key(iface), r.error)]
        && renderedEntries == old(renderedEntries)
        && memifIds.inUse == old(memifIds.inUse)
      ensures old(InitInterfaceStatus(Key(iface))).InitOk? ==>
        && r.PairOk? && r.ifName == MemifVswitchName(iface.parent, iface.name) && r.status.Some?
        && var st := r.status.value;
        && st == old(InitInterfaceStatus(Key(iface))).status.(memifId := st.memifId)
        && IdSettled(old(InitInterfaceStatus(Key(iface))).status.memifId, st.memifId, old(memifIds.inUse), memifIds.inUse)
        && interfaces == old(interfaces)[Key(iface) := st]
        && msgs == old(msgs)
        && renderedEntries == old(renderedEntries) + MemifPairEntries(vppAgent, conn.vrfId, iface, st)
    {
      var key := Key(iface);
      var init := InitInterfaceStatus(key);
      if init.InitErr? {
        InitFailed(key, init.reason);
        return PairErr(init.reason);
      }
      var ifStatus := SettleMemifId(init.status);
      interfaces := interfaces[key := ifStatus];
      renderedEntries := renderedEntries + MemifPairEntries(vppAgent, conn.vrfId, iface, ifStatus);
      r := PairOk(MemifVswitchName(iface.parent, iface.name), Some(ifStatus));
    }

    /** `RenderConnTapPair`. */
    method RenderConnTapPair(vppAgent: string, conn: Connection, iface: Interface, podType: PodType)
      returns (r: PairResult)
      modifies this
      ensures old(InitInterfaceStatus(Key(iface))).InitErr? ==>
        && r == PairErr(old(InitInterfaceStatus(Key(iface))).reason)
        && interfaces == old(interfaces) - {Key(iface)}
        && msgs == old(msgs) + [InitFailedMsg(Key(iface), r.error)]
        && renderedEntries == old(renderedEntries)
      ensures old(InitInterfaceStatus(Key(iface))).InitOk? ==>
        && var st := old(InitInterfaceStatus(Key(iface))).status.(hostPortLabel := HostPortLabel(iface));
        && r == PairOk(TapVswitchName(iface.parent, iface.name), Some(st))
        && interfaces == old(interfaces)[Key(iface) := st]
        && msgs == old(msgs)
        && renderedEntries == old(renderedEntries) + TapPairEntries(vppAgent, conn.vrfId, iface, st)
    {
      var key := Key(iface);
      var init := InitInterfaceStatus(key);
      if init.InitErr? {
        InitFailed(key, init.reason);
        return PairErr(init.reason);
      }
      var hostPortLabel := iface.hostPortLabel;
      if hostPortLabel == "" {
        hostPortLabel := ConstructBaseHostName(iface.parent, iface.name);
      }
      var ifStatus := init.status.(hostPortLabel := hostPortLabel);
      interfaces := interfaces[key := ifStatus];
      renderedEntries := renderedEntries + TapPairEntries(vppAgent, conn.vrfId, iface, ifStatus);
      r := PairOk(TapVswitchName(iface.parent, iface.name), Some(ifStatus));
    }

    /** `RenderConnVethAfpPair`. */
    method RenderConnVethAfpPair(vppAgent: string, conn: Connection, iface: Interface, podType: PodType)
      returns (r: PairResult)
      modifies this
      ensures old(InitInterfaceStatus(Key(iface))).InitErr? ==>
        && r == PairErr(old(InitInterfaceStatus(Key(iface))).reason)
        && interfaces == old(interfaces) - {Key(iface)}
        && msgs == old(msgs) + [InitFailedMsg(Key(iface), r.error)]
        && renderedEntries == old(renderedEntries)
      ensures old(InitInterfaceStatus(Key(iface))).InitOk? ==>
        && var st := old(InitInterfaceStatus(Key(iface))).status.(hostPortLabel := HostPortLabel(iface));
        && r == PairOk(AfpVswitchName(iface.parent, iface.name), Some(st))
        && interfaces == old(interfaces)[Key(iface) := st]
        && msgs == old(msgs)
        && renderedEntries == old(renderedEntries) + VethPairEntries(vppAgent, conn.vrfId, iface, podType, st)
    {
      var key := Key(iface);
      var init := InitInterfaceStatus(key);
      if init.InitErr? {
        InitFailed(key, init.reason);
        return PairErr(init.reason);
      }
      var host2Name := iface.hostPortLabel;
      if host2Name == "" {
        host2Name := ConstructBaseHostName(iface.parent, iface.name);
      }
      var ifStatus := init.status.(hostPortLabel := host2Name);
      interfaces := interfaces[key := ifStatus];
      renderedEntries := renderedEntries + VethPairEntries(vppAgent, conn.vrfId, iface, podType, ifStatus);
      r := PairOk(AfpVswitchName(iface.parent, iface.name), Some(ifStatus));
    }

    /** `RenderInterfaceForwarding`: never fails. */
    method RenderInterfaceForwarding(iface: Interface)
      modifies this
      ensures renderedEntries == old(renderedEntries) + ForwardingEntries(nsName, iface)
      ensures interfaces == old(interfaces) && msgs == old(msgs)
    {
      if iface.fwd.None? {
        return;
      }
      RenderFwdRoutes(iface, iface.fwd.value.l3VrfRoutes);
      RenderFwdArps(iface, iface.fwd.value.l3Arps);
    }

    /** The route loop of `RenderInterfaceForwarding`. */
    method RenderFwdRoutes(iface: Interface, routes: seq<FwdRoute>)
      modifies this
      ensures renderedEntries == old(renderedEntries) + FwdRouteEntries(nsName, iface, routes)
      ensures interfaces == old(interfaces) && msgs == old(msgs)
    {
      var i := 0;
      while i < |routes|
        invariant 0 <= i <= |routes|
        invariant renderedEntries == old(renderedEntries) + FwdRouteEntries(nsName, iface, routes[..i])
        invariant interfaces == old(interfaces) && msgs == old(msgs)
      {
        assert routes[..i + 1][..i] == routes[..i];
        renderedEntries := renderedEntries + [FwdRouteEntry(nsName, iface, routes[i])];
        i := i + 1;
      }
      assert routes[..i] == routes;
    }

    /** The ARP loop of `RenderInterfaceForwarding`. */
    method RenderFwdArps(iface: Interface, arps: seq<FwdArp>)
      modifies this
      ensures renderedEntries == old(renderedEntries) + FwdArpEntries(iface, arps)
      ensures interfaces == old(interfaces) && msgs == old(msgs)
    {
      var j := 0;
      while j < |arps|
        invariant 0 <= j <= |arps|
        invariant renderedEntries == old(renderedEntries) + FwdArpEntries(iface, arps[..j])
        invariant interfaces == old(interfaces) && msgs == old(msgs)
      {
        assert arps[..j + 1][..j] == arps[..j];
        renderedEntries := renderedEntries + [FwdArpEntry(iface, arps[j])];
        j := j + 1;
      }
      assert arps[..j] == arps;
    }

    /** `RenderInterfaceIPSecTunnels`: never fails; the status is not used. */
    method RenderInterfaceIPSecTunnels(iface: Interface, ifStatus: Option<IfStatus>)
      modifies this
      ensures renderedEntries == old(renderedEntries) + IpsecEntries(iface)
      ensures interfaces == old(interfaces) && msgs == old(msgs)
    {
      if iface.ipsecTunnels.None? {
        return;
      }
      var tunnels := iface.ipsecTunnels.value;
      var i := 0;
      while i < |tunnels|
        invariant 0 <= i <= |tunnels|
        invariant renderedEntries == old(renderedEntries) + TunnelEntries(iface, tunnels[..i])
        invariant interfaces == old(interfaces) && msgs == old(msgs)
      {
        assert tunnels[..i + 1][..i] == tunnels[..i];
        renderedEntries := renderedEntries + [IpsecTunnelEntry(iface.parent, tunnels[i], iface.name)];
        i := i + 1;
      }
      assert tunnels[..i] == tunnels;
    }

    /** The type switch of `RenderConnInterfacePair`. */
    method RenderTypedPair(vppAgent: string, conn: Connection, iface: Interface, podType: PodType)
      returns (r: PairResult)
      requires Valid()
      modifies this, memifIds
      ensures Valid()
      ensures !RendersPair(iface.ifType) ==>
        && r == PairOk(ConnPairName(iface), None)
        && renderedEntries == old(renderedEntries) && interfaces == old(interfaces) && msgs == old(msgs)
        && memifIds.inUse == old(memifIds.inUse)
      ensures RendersPair(iface.ifType) && old(InitInterfaceStatus(Key(iface))).InitErr? ==>
        && r == PairErr(old(InitInterfaceStatus(Key(iface))).reason)
        && interfaces == old(interfaces) - {Key(iface)}
        && msgs == old(msgs) + [InitFailedMsg(Key(iface), r.error)]
        && renderedEntries == old(renderedEntries)
        && memifIds.inUse == old(memifIds.inUse)
      ensures RendersPair(iface.ifType) && old(InitInterfaceStatus(Key(iface))).InitOk? ==>
        && r.PairOk? && r.ifName == ConnPairName(iface) && r.status.Some?
        && Settled(iface, old(InitInterfaceStatus(Key(iface))).status, r.status.value, old(memifIds.inUse), memifIds.inUse)
        && interfaces == old(interfaces)[Key(iface) := r.status.value]
        && msgs == old(msgs)
        && renderedEntries == old(renderedEntries) + TypedPairEntries(vppAgent, conn.vrfId, iface, podType, r.status.value)
    {
      match iface.ifType {
        case Memif =>
          r := RenderConnMemifPair(vppAgent, conn, iface, podType);
        case Veth =>
          r := RenderConnVethAfpPair(vppAgent, conn, iface, podType);
        case Tap =>
          r := RenderConnTapPair(vppAgent, conn, iface, podType);
        case _ =>
          r := PairOk(ConnPairName(iface), None);
      }
    }

    /** `RenderConnInterfacePair`: dispatch on the interface type, then the
        interface's forwarding rules and IPSec tunnels. Ethernet and bond
        interfaces belong to the node already: their own name comes back, with
        no status and nothing rendered. A type without a case renders only
        its rules and tunnels and returns an empty name. */
    method RenderConnInterfacePair(vppAgent: string, conn: Connection, iface: Interface, podType: PodType)
      returns (r: PairResult)
      requires Valid()
      modifies this, memifIds
      ensures Valid()
      ensures !RendersPair(iface.ifType) ==>
        && r == PairOk(ConnPairName(iface), None)
        && interfaces == old(interfaces) && msgs == old(msgs) && memifIds.inUse == old(memifIds.inUse)
        && renderedEntries == old(renderedEntries) + NoPairEntries(nsName, iface)
      ensures RendersPair(iface.ifType) && old(InitInterfaceStatus(Key(iface))).InitErr? ==>
        && r == PairErr(old(InitInterfaceStatus(Key(iface))).reason)
        && interfaces == old(interfaces) - {Key(iface)}
        && msgs == old(msgs) + [InitFailedMsg(Key(iface), r.error)]
        && renderedEntries == old(renderedEntries)
        && memifIds.inUse == old(memifIds.inUse)
      ensures RendersPair(iface.ifType) && old(InitInterfaceStatus(Key(iface))).InitOk? ==>
        && r.PairOk? && r.ifName == ConnPairName(iface) && r.status.Some?
        && Settled(iface, old(InitInterfaceStatus(Key(iface))).status, r.status.value, old(memifIds.inUse), memifIds.inUse)
        && interfaces == old(interfaces)[Key(iface) := r.status.value]
        && msgs == old(msgs)
        && renderedEntries == old(renderedEntries) + TypedPairEntries(vppAgent, conn.vrfId, iface, podType, r.status.value)
                                                   + NoPairEntries(nsName, iface)
    {
      r := RenderTypedPair(vppAgent, conn, iface, podType);
      RenderRulesAndTunnels(iface, r);
    }

    /** The tail of `RenderConnInterfacePair`: after a pair that did not
        fail, and for any type but Ethernet and bond, the forwarding rules
        when the interface has any, then the IPSec tunnels when its list is
        non-nil. */
    method RenderRulesAndTunnels(iface: Interface, r: PairResult)
      modifies this
      ensures renderedEntries == old(renderedEntries) + (if r.PairOk? then NoPairEntries(nsName, iface) else [])
      ensures interfaces == old(interfaces) && msgs == old(msgs)
    {
      if r.PairErr? || iface.ifType == Ethernet || iface.ifType == Bond {
        return;
      }
      if iface.fwd.Some? {
        RenderInterfaceForwarding(iface);
      }
      if iface.ipsecTunnels.Some? {
        RenderInterfaceIPSecTunnels(iface, r.status);
      }
    }

    /** One end of a direct pod-to-pod memif: the end's record is persisted,
        its memif is appended, then its forwarding rules and, when
        `withTunnels` holds, its IPSec tunnels. */
    method RenderDirectMemifEnd(iface: Interface, st: IfStatus, master: bool, socketPod: string, withTunnels: bool)
      modifies this
      ensures interfaces == old(interfaces)[Key(iface) := st]
      ensures msgs == old(msgs)
      ensures renderedEntries == old(renderedEntries) + DirectEndEntries(nsName, iface, st, master, socketPod, withTunnels)
    {
      interfaces := interfaces[Key(iface) := st];
      renderedEntries := renderedEntries + [DirectMemif(iface, st, master, socketPod)];
      if iface.fwd.Some? {
        RenderInterfaceForwarding(iface);
      }
      if withTunnels {
        RenderInterfaceIPSecTunnels(iface, Some(st));
      }
      assert renderedEntries == old(renderedEntries) + ([DirectMemif(iface, st, master, socketPod)] + ForwardingEntries(nsName, iface)
        + (if withTunnels then IpsecEntries(iface) else []));
    }

    /** `RenderConnDirectInterPodMemifPair`: a memif pair between two pods
        without the vswitch. The first end (slave) gets or keeps the memif ID
        `memifId`; the second end (master) copies it; both name the second
        pod as socket owner. The second interface's IPSec tunnels are
        rendered only when the FIRST interface's tunnel list is non-nil. When
        the second end's status fails, the first end stays rendered. */
    method RenderConnDirectInterPodMemifPair(ifaces: seq<Interface>, podType: PodType)
      returns (err: Outcome, ghost memifId: nat)
      requires Valid()
      requires |ifaces| >= 2
      modifies this, memifIds
      ensures Valid()
      ensures old(InitInterfaceStatus(Key(ifaces[0]))).InitErr? ==>
        && err == Fail(old(InitInterfaceStatus(Key(ifaces[0]))).reason)
        && interfaces == old(interfaces) - {Key(ifaces[0])}
        && msgs == old(msgs) + [InitFailedMsg(Key(ifaces[0]), err.error)]
        && renderedEntries == old(renderedEntries)
        && memifIds.inUse == old(memifIds.inUse)
      ensures old(InitInterfaceStatus(Key(ifaces[0]))).InitOk? ==>
        var if0, if1 := ifaces[0], ifaces[1];
        var base0 := old(InitInterfaceStatus(Key(if0))).status;
        var st0 := base0.(memifId := memifId);
        var firstEnd := DirectEndEntries(nsName, if0, st0, false, if1.parent, if0.ipsecTunnels.Some?);
        var persisted0 := old(interfaces)[Key(if0) := st0];
        var init1 := InitFrom(persisted0, env.provision, Key(if1));
        && IdSettled(base0.memifId, memifId, old(memifIds.inUse), memifIds.inUse)
        && (init1.InitErr? ==>
              && err == Fail(init1.reason)
              && interfaces == persisted0 - {Key(if1)}
              && msgs == old(msgs) + [InitFailedMsg(Key(if1), init1.reason)]
              && renderedEntries == old(renderedEntries) + firstEnd)
        && (init1.InitOk? ==>
              var st1 := init1.status.(memifId := memifId);
              && err == Pass
              && interfaces == persisted0[Key(if1) := st1]
              && msgs == old(msgs)
              && renderedEntries == old(renderedEntries) + firstEnd
                   + DirectEndEntries(nsName, if1, st1, true, if1.parent, if0.ipsecTunnels.Some?))
    {
      var if0, if1 := ifaces[0], ifaces[1];
      var key0, key1 := Key(if0), Key(if1);
      var init0 := InitInterfaceStatus(key0);
      if init0.InitErr? {
        InitFailed(key0, init0.reason);
        return Fail(init0.reason), 0;
      }
      var if0Status := SettleMemifId(init0.status);
      memifId := if0Status.memifId;
      RenderDirectMemifEnd(if0, if0Status, false, if1.parent, if0.ipsecTunnels.Some?);
      var init1 := InitInterfaceStatus(key1);
      if init1.InitErr? {
        InitFailed(key1, init1.reason);
        return Fail(init1.reason), memifId;
      }
      var if1Status := init1.status.(memifId := if0Status.memifId);
      RenderDirectMemifEnd(if1, if1Status, true, if1.parent, if0.ipsecTunnels.Some?);
      err := Pass;
    }

    /** `RenderLoopbackInterface`: a single loopback in the pod, with the
        addresses of the persisted record. */
    method RenderLoopbackInterface(podName: string, iface: Interface) returns (err: Outcome)
      modifies this
      ensures var key := IfKey(podName, iface.name);
        && (old(InitInterfaceStatus(key)).InitErr? ==>
              && err == Fail(old(InitInterfaceStatus(key)).reason)
              && interfaces == old(interfaces) - {key}
              && msgs == old(msgs) + [InitFailedMsg(key, err.error)]
              && renderedEntries == old(renderedEntries))
        && (old(InitInterfaceStatus(key)).InitOk? ==>
              var st := old(InitInterfaceStatus(key)).status;
              && err == Pass
              && interfaces == old(interfaces)[key := st]
              && msgs == old(msgs)
              && renderedEntries == old(renderedEntries)
                   + [LoopbackIf(podName, iface.name, st.ipAddresses, st.macAddress, iface.mtu, iface.adminStatus, iface.rxMode, 0)])
    {
      var key := IfKey(podName, iface.name);
      var init := InitInterfaceStatus(key);
      if init.InitErr? {
        InitFailed(key, init.reason);
        return Fail(init.reason);
      }
      var ifStatus := init.status;
      interfaces := interfaces[key := ifStatus];
      renderedEntries := renderedEntries
        + [LoopbackIf(podName, iface.name, ifStatus.ipAddresses, ifStatus.macAddress, iface.mtu, iface.adminStatus, iface.rxMode, 0)];
      err := Pass;
    }
  }
}
