/** The entities of a network service as the renderer sees them: the interface
    spec, the persisted interface status, the connection, the node overlay and
    the dataplane entries the renderer emits. */
module Model {

  datatype Option<+T> = None | Some(value: T)

  /** Interface type tag (`IfType` in the service schema). Types the renderer
      has no case for are collected in OtherIfType. */
  datatype IfType = Memif | Veth | Tap | Ethernet | Bond | Loopback | OtherIfType

  /** `MemifParms.Mode`: ethernet, ip, or any other mode string. */
  datatype MemifMode = ModeEthernet | ModeIP | ModeOther

  /** Memif parameters; only the mode is inspected, the rest is passed to the
      entry builder unchanged and is not modelled. */
  datatype MemifParms = MemifParms(mode: MemifMode)

  datatype TapParms = TapParms(namespace: string)

  /** The pod type of a network pod or node interface; only the comparison
      with the VPP-container type matters to the renderer. */
  datatype PodType = VppContainer | OtherPodType(tag: string)

  /** One static route of an interface's forwarding rules (`Fwd.L3VrfRoute`). */
  datatype FwdRoute = FwdRoute(vrfId: nat, dstIpAddr: string, nextHopAddr: string)

  /** One static ARP of an interface's forwarding rules (`Fwd.L3Arp`). */
  datatype FwdArp = FwdArp(ipAddress: string, physAddress: string)

  datatype Forwarding = Forwarding(l3VrfRoutes: seq<FwdRoute>, l3Arps: seq<FwdArp>)

  /** An IPSec tunnel descriptor, passed to the entry builder unchanged. */
  datatype IpsecTunnel = IpsecTunnel(descriptor: string)

  /** A network pod (or node) interface of the service spec. `ipsecTunnels`
      distinguishes a nil list (None) from an empty one (Some([])), as the
      source does when it tests the list against nil. */
  datatype Interface = Interface(
    parent: string,
    name: string,
    ifType: IfType,
    mtu: nat,
    adminStatus: string,
    rxMode: string,
    memifParms: Option<MemifParms>,
    tapParms: Option<TapParms>,
    hostPortLabel: string,
    linuxNamespace: string,
    tcpChecksumOffloadDisabled: bool,
    fwd: Option<Forwarding>,
    ipsecTunnels: Option<seq<IpsecTunnel>>)

  /** A network pod of the service spec with its interfaces. */
  datatype NetworkPod = NetworkPod(name: string, podType: PodType, interfaces: seq<Interface>)

  /** The key of a persisted interface status: (pod, interface name). */
  datatype IfKey = IfKey(pod: string, ifName: string)

  /** The persisted per-interface record. `memifId == 0` means "not allocated". */
  datatype IfStatus = IfStatus(ipAddresses: seq<string>, macAddress: string, memifId: nat, hostPortLabel: string)

  /** What the status store's initialisation yields for a key. */
  datatype InitOutcome = InitOk(status: IfStatus) | InitErr(reason: string)

  /** A reference to an interface by owner and name: "pod/if" in a
      connection's pod interfaces, "node/if" in its node interfaces. */
  datatype IfRef = IfRef(owner: string, ifName: string)

  /** An entry of the network-pod-to-node map. */
  datatype NetworkPodToNodeMap = NetworkPodToNodeMap(pod: string, node: string)

  datatype MeshType = Mesh | HubAndSpoke | OtherMeshType
  datatype OverlayConnectionType = Vxlan | OtherConnectionType

  datatype NetworkNodeOverlay = NetworkNodeOverlay(name: string, serviceMeshType: MeshType, connectionType: OverlayConnectionType)

  /** A node interface found by the node manager, with its pod type. */
  datatype NodeInterface = NodeInterface(iface: Interface, podType: PodType)

  /** A static route (`L3VRFRoute`). */
  datatype VrfRoute = VrfRoute(vrfId: nat, description: string, dstIpAddr: string, nextHopAddr: string, outgoingInterface: string)

  /** A static ARP entry (`L3ArpEntry`). */
  datatype ArpEntry = ArpEntry(ipAddress: string, physAddress: string, outgoingInterface: string)

  /** A member of a bridge domain. */
  datatype BridgeDomainIf = BridgeDomainIf(name: string, bridgedVirtualInterface: bool, splitHorizonGroup: nat)

  /** A dataplane entry as the vpp-agent builders produce it: each variant
      records the arguments its builder was given; `agent` is the agent the
      entry is rendered on. MTU and rx-mode are recorded as given in the spec. */
  datatype Entry =
    | MemifIf(agent: string, name: string, ips: seq<string>, mac: string, mtu: nat, adminStatus: string,
              rxMode: string, memifId: nat, master: bool, memifParms: Option<MemifParms>, socketAgent: string, vrf: nat)
    | LinuxTapIf(agent: string, name: string, ips: seq<string>, mac: string, mtu: nat, adminStatus: string,
                 hostIfName: string, tapIfName: string, namespace: string, pod: string)
    | TapIf(agent: string, name: string, ips: seq<string>, mac: string, mtu: nat, adminStatus: string,
            rxMode: string, tapParms: Option<TapParms>, namespace: string, vrf: nat)
    | VethIf(agent: string, name: string, ips: seq<string>, mac: string, mtu: nat, adminStatus: string,
             hostIfName: string, peerIfName: string, namespace: string, pod: string, tcpChecksumOffloadDisabled: bool)
    | AfPacketIf(agent: string, name: string, ips: seq<string>, mac: string, mtu: nat, adminStatus: string,
                 rxMode: string, hostIfName: string, vrf: nat)
    | LoopbackIf(agent: string, name: string, ips: seq<string>, mac: string, mtu: nat, adminStatus: string,
                 rxMode: string, vrf: nat)
    | StaticRoute(agent: string, route: VrfRoute)
    | StaticArp(agent: string, arp: ArpEntry)
    | LinuxStaticArp(agent: string, arp: ArpEntry)
    | IpsecTunnelEntry(agent: string, tunnel: IpsecTunnel, ifName: string)

  /** The error result of a render step: `Pass` is a nil error. */
  datatype Outcome = Pass | Fail(error: string)

  /** The controller's caches and managers the renderer consults; none of
      them is implemented by the renderer.
      - podToNode: the network-pod-to-node map;
      - nodes: the network nodes the node manager knows;
      - nodeInterfaces: the node manager's lookup of an interface in a node;
      - labelLookup: the node manager's lookup of a node's interfaces that
        carry the given labels;
      - overlays: the network node overlays by name;
      - stripSubnet: the address helper that drops a "/prefix" suffix;
      - provision: the address-management step of the status store's
        initialisation for a key, which can fail. */
  datatype Env = Env(
    podToNode: map<string, NetworkPodToNodeMap>,
    nodes: set<string>,
    nodeInterfaces: map<IfRef, NodeInterface>,
    labelLookup: (string, seq<string>) -> seq<NodeInterface>,
    overlays: map<string, NetworkNodeOverlay>,
    stripSubnet: string -> string,
    provision: IfKey -> InitOutcome)

  /** The admin status the renderer gives to a connection's VRF loopback. */
  const AdminStatusEnabled: string := "enabled"

  /** A connection of the service spec. Every field is fixed except the VRF
      id, which the renderer allocates in place when it is 0. */
  class Connection {
    const podInterfaces: seq<IfRef>
    const nodeInterfaces: seq<IfRef>
    const nodeInterfaceLabels: seq<string>
    const loopbackAddress: string
    const networkNodeOverlayName: string
    const generateStaticArps: bool
    const generateStaticL3Routes: bool
    var vrfId: nat

    constructor (podInterfaces: seq<IfRef>, nodeInterfaces: seq<IfRef>, nodeInterfaceLabels: seq<string>,
                 vrfId: nat, loopbackAddress: string, networkNodeOverlayName: string,
                 generateStaticArps: bool, generateStaticL3Routes: bool)
      ensures this.podInterfaces == podInterfaces && this.nodeInterfaces == nodeInterfaces
      ensures this.nodeInterfaceLabels == nodeInterfaceLabels && this.vrfId == vrfId
      ensures this.loopbackAddress == loopbackAddress && this.networkNodeOverlayName == networkNodeOverlayName
      ensures this.generateStaticArps == generateStaticArps && this.generateStaticL3Routes == generateStaticL3Routes
    {
      this.podInterfaces := podInterfaces;
      this.nodeInterfaces := nodeInterfaces;
      this.nodeInterfaceLabels := nodeInterfaceLabels;
      this.vrfId := vrfId;
      this.loopbackAddress := loopbackAddress;
      this.networkNodeOverlayName := networkNodeOverlayName;
      this.generateStaticArps := generateStaticArps;
      this.generateStaticL3Routes := generateStaticL3Routes;
    }
  }
}
