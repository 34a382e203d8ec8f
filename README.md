# Network-service renderer: interface pairs and L3 multipoint connections

This project is a Dafny model of two parts of the SFC controller's
network-service renderer. The renderer turns the connections of a network
service into vpp-agent dataplane entries.

- **Interface pairs** (`plugins/controller/networkservice_if.go`). A
  network-pod interface is joined to its node's vswitch by a pair of
  interfaces:
  - memif: a slave end in the pod and a master end on the vswitch;
  - tap: a Linux tap and a vswitch tap;
  - veth: a veth pair plus af-packet interfaces.

  The persisted status record of each interface is created or reused, keyed
  by (pod, interface). It gets its memif ID (allocated only when the record
  holds 0) or its host-port label. The label is a configured one, or a Linux
  host name of at most 15 characters built by `constructBaseHostName`. The
  interface's forwarding rules and IPSec tunnels follow the pair. A failing
  status initialisation does three things: it drops the record, appends one
  status message and returns the error. Direct pod-to-pod memif pairs and
  pod loopbacks are modelled too.
- **L3 multipoint (L3MP) connections**
  (`plugins/controller/networkservice_l3mp.go`). `RenderConnL3MP` gathers
  the connection's participants into three index-aligned lists: pod
  interfaces resolved to their nodes, then static node interfaces, then
  label-selected node interfaces. It validates the connection and chooses
  between two renders:
  - the same-node render: VRF allocation, a VRF loopback, per-interface
    static ARPs and routes, and a hub-and-spoke hand-off with a single spoke;
  - the inter-node render: per-node bridge-domain members and VRF routes, an
    ARP per participant, and the overlay dispatch.

The service's state is the class `InterfaceRender.NetworkServiceMgr`. Its
fields are the rendered entries, the persisted interface records and the
status messages; the renderer's methods update these in place. The memif and
VRF ID pools are `Allocator.IdAllocator` objects. The connection is a
`Model.Connection` object whose VRF ID is updated in place. Every external
manager is an input record `Model.Env` holding maps and functions:
- the network-pod-to-node map;
- the node manager's interface and label lookups;
- the overlay manager;
- the address helper;
- the address-management step of status initialisation.

Dataplane entries are datatype values that record the arguments given to the
vpp-agent builders.

Each L3MP render is specified by a function of the state before it:
- `L3mpPlan.Decide` gives the validation and dispatch decision;
- `L3mp.AfterSameNode` and `L3mp.AfterInterNode` give the appended entries;
- `L3mp.PersistAll` gives the persisted records, each settled from the
  records as they stood when its pair was rendered (`L3mp.StatusesMatch`);
- `L3mp.MemifPool` gives the memif ID pool;
- `L3mp.BridgeDomainMembers` and `L3mp.VrfRoutes` give the per-node lists.

The methods are proved to produce exactly these. Lemmas state what these
functions mean: order, alignment, keying by node, and the dispatch rules.

## Model

| member | source | states |
|---|---|---|
| Naming.StringFirstNLastM | plugins/controller/networkservice_if.go:537-549 | a string no longer than n+m comes back unchanged; a longer one becomes exactly its first n characters followed by its last m, n+m in all |
| Naming.ConstructBaseHostName | plugins/controller/networkservice_if.go:551-613 | the host name built from a container name and a port name is at most 15 characters (IFNAMSIZ less the NUL) |
| Naming.HostNameLength | plugins/controller/networkservice_if.go:553-612 | when both names are non-empty, the host name uses the full 15-character budget or keeps every character; an empty name leaves the other at its default budget of 8 or 7 |
| Naming.HostNameKeepsShortNames | plugins/controller/networkservice_if.go:563-612 | a container name shorter than 8 characters is the host name's prefix in full, and a port name shorter than 7 is its suffix in full, because the other name's budget grows |
| Naming.HostNameDefaultScheme | plugins/controller/networkservice_if.go:558-612 | with both names at least as long as their budgets, the host name is 4+4 characters of the container followed by 3+4 of the port |
| InterfaceRender.HostPortLabel | plugins/controller/networkservice_if.go:263-266 | the host-port label is the configured one when it is non-empty, otherwise a built host name of at most 15 characters |
| InterfaceRender.MemifPairEntries | plugins/controller/networkservice_if.go:94-136 | a memif pair is exactly two memifs, slave in the pod and master on the vswitch (named `IF_MEMIF_VSWITCH_<pod>_<if>`), with the same memif ID; only the vswitch end carries the connection's VRF |
| InterfaceRender.TapPairEntries | plugins/controller/networkservice_if.go:271-311 | a tap pair is a Linux tap `IF_TAP_VNF_<pod>_<if>` bound to the vswitch tap `IF_TAP_VSWITCH_<pod>_<if>`; only the vswitch tap carries the VRF, and it lives in the tap namespace or, without one, in the pod's |
| InterfaceRender.VethPairEntries | plugins/controller/networkservice_if.go:355-430 | a veth pair is two veths naming each other as peers, with the vswitch side on the host-port label; the pod veth carries the record's addresses, except in a VPP-container pod, where the pod veth has none and a pod af-packet in the VRF carries them; the last entry is the vswitch af-packet `IF_AFPIF_VSWITCH_<pod>_<if>` in the VRF |
| InterfaceRender.NetworkServiceMgr.InitFailed | plugins/controller/networkservice_if.go:82-88 | the failure path removes the (pod, interface) record, appends the one message `network pod interface: <pod>/<if>, <reason>` and appends no entry |
| InterfaceRender.NetworkServiceMgr.SettleMemifId | plugins/controller/networkservice_if.go:89-91 | a record with memif ID 0 gets a fresh non-zero ID from the pool; otherwise its ID is kept and the pool is untouched; nothing else in the record changes |
| InterfaceRender.NetworkServiceMgr.RenderConnMemifPair | plugins/controller/networkservice_if.go:70-141 | on failure of status initialisation: the error, the record removed, one message, no entry, no ID allocated; otherwise the record with its memif ID settled is persisted, the two memif entries are appended and the vswitch-side name returned |
| InterfaceRender.NetworkServiceMgr.RenderConnTapPair | plugins/controller/networkservice_if.go:242-313 | the same failure path; otherwise the record gets the host-port label before it is persisted, and the tap pair is appended and the vswitch tap name returned |
| InterfaceRender.NetworkServiceMgr.RenderConnVethAfpPair | plugins/controller/networkservice_if.go:316-433 | the same failure path; otherwise the record gets the host-port label before it is persisted, and the veth and af-packet entries are appended and the vswitch af-packet name returned |
| InterfaceRender.NetworkServiceMgr.RenderTypedPair | plugins/controller/networkservice_if.go:39-52 | memif, veth and tap go to their pair renderers; Ethernet and bond return their own name, no record and no error, changing nothing |
| InterfaceRender.NetworkServiceMgr.RenderConnInterfacePair | plugins/controller/networkservice_if.go:25-67 | the typed pair, then (if it did not fail, and for any type but Ethernet and bond) the forwarding rules and the IPSec tunnels; the three outcomes (no pair, failed initialisation, pair rendered) each state the records, messages, entries and ID pool after the call |
| InterfaceRender.NetworkServiceMgr.RenderRulesAndTunnels | plugins/controller/networkservice_if.go:54-64 | after a successful pair of a type other than Ethernet or bond, the forwarding entries and then the IPSec entries are appended; after a failure nothing is |
| InterfaceRender.NetworkServiceMgr.RenderInterfaceForwarding | plugins/controller/networkservice_if.go:436-476 | appends exactly the interface's forwarding entries (nothing for a nil rule set) and changes nothing else |
| InterfaceRender.NetworkServiceMgr.RenderFwdRoutes | plugins/controller/networkservice_if.go:448-462 | the route loop appends one static route per forwarding route, in order |
| InterfaceRender.NetworkServiceMgr.RenderFwdArps | plugins/controller/networkservice_if.go:463-473 | the ARP loop appends one static ARP per forwarding ARP, in order |
| InterfaceRender.ForwardingEntriesInOrder | plugins/controller/networkservice_if.go:442-475 | the forwarding entries are the routes in spec order, each described `FWD NS_<ns>_IF_<if>_VRF_<vrf>_DST_<dst>`, then the ARPs in spec order, all on the interface's parent and leaving through the interface |
| InterfaceRender.FwdRouteEntriesAt | plugins/controller/networkservice_if.go:448-462 | route i of the rendered routes is the entry built from forwarding route i |
| InterfaceRender.FwdArpEntriesAt | plugins/controller/networkservice_if.go:463-473 | ARP i of the rendered ARPs is the entry built from forwarding ARP i |
| InterfaceRender.NetworkServiceMgr.RenderInterfaceIPSecTunnels | plugins/controller/networkservice_if.go:479-500 | appends exactly one tunnel entry per IPSec tunnel (nothing for a nil list) and changes nothing else |
| InterfaceRender.IpsecEntriesInOrder | plugins/controller/networkservice_if.go:490-497 | tunnel entry i is built from tunnel i, on the interface's parent and naming the interface |
| InterfaceRender.NetworkServiceMgr.RenderDirectMemifEnd | plugins/controller/networkservice_if.go:164-192 | one end of a direct memif: its record is persisted, then its memif, its forwarding rules and (when enabled) its IPSec tunnels are appended |
| InterfaceRender.NetworkServiceMgr.RenderConnDirectInterPodMemifPair | plugins/controller/networkservice_if.go:144-239 | the first end (slave) settles its memif ID; the second end (master) copies it; both name the second pod as socket owner; the second end's tunnels are gated on the first interface's list; a failure at the second end leaves the first end rendered |
| InterfaceRender.NetworkServiceMgr.RenderLoopbackInterface | plugins/controller/networkservice_if.go:503-535 | the same failure path; otherwise the record is persisted and exactly one loopback with its addresses is appended |
| L3mpPlan.FindPodInterface | plugins/controller/networkservice_l3mp.go:74-75 | an interface is found exactly when some pod of that name has an interface of that name; the found one belongs to the first such pod, whose type comes with it |
| L3mpPlan.AddParticipantWellFormed | plugins/controller/networkservice_l3mp.go:69-78 | appending a participant keeps the three lists aligned and the node set equal to the nodes they name |
| L3mpPlan.ScanPodsFacts | plugins/controller/networkservice_l3mp.go:47-79 | the pod scan gives aligned lists with one participant per resolved pod interface and one message per unresolved one; all pods are assigned exactly when there is no message; every participant is on a known node |
| L3mpPlan.ScanPodsMessages | plugins/controller/networkservice_l3mp.go:52-66 | every unresolved pod interface leaves its own message, numbered by its position from 1, and the scan goes on past it |
| L3mpPlan.AddNodeInterfacesFacts | plugins/controller/networkservice_l3mp.go:81-96 | the static node interfaces follow the pod participants, which are unchanged; each is pinned to the node it names (as both pod and node) and has that node as its parent; its node joins the node set |
| L3mpPlan.AddLabelInterfacesShape | plugins/controller/networkservice_l3mp.go:147-157 | adding the label-selected interfaces keeps the lists aligned and the earlier participants unchanged; the node set is unchanged when the node is already in it |
| L3mpPlan.AddLabelInterfacesIndex | plugins/controller/networkservice_l3mp.go:147-154 | label-selected interface j becomes the participant j places after the earlier ones, pinned to the node, with its own pod type |
| L3mpPlan.AddLabelInterfacesAt | plugins/controller/networkservice_l3mp.go:147-157 | all label-selected interfaces follow the earlier participants, in order, each pinned to the node |
| L3mpPlan.BasePlan | plugins/controller/networkservice_l3mp.go:47-96 | the plan after the scan and the static node interfaces is well formed, and holds the first static node interface's node |
| L3mpPlan.Decide | plugins/controller/networkservice_l3mp.go:28-176 | a same-node decision has a well-formed plan with exactly one node and at least one participant; an inter-node decision has not exactly one node, no static node interface and no label selector |
| L3mpPlan.CheckDecision | plugins/controller/networkservice_l3mp.go:98-145 | the checks in order (all pods assigned, the overlay present, the label rules) keep the same guarantees on the plan that is dispatched |
| L3mpPlan.LabelDecision | plugins/controller/networkservice_l3mp.go:139-175 | the label step and the final dispatch keep those guarantees |
| L3mpPlan.DecideUnresolved | plugins/controller/networkservice_l3mp.go:98-121 | any unresolved pod interface makes the decision the summary error "not all network pods … mapped to nodes", whatever else is specified; with all pods resolved, a missing named overlay is the next error |
| L3mpPlan.DecideByNodes | plugins/controller/networkservice_l3mp.go:160-175 | without labels: exactly one node → same-node render of the base plan; otherwise static node interfaces → the "nodes <n0>/<n1> must be the same" error naming the first two participants' nodes; otherwise → inter-node render |
| L3mpPlan.DecideByLabels | plugins/controller/networkservice_l3mp.go:123-145 | with labels: no node → the "no interfaces specified" error; more than one node → the "all interfaces must be on same node" error; one node → the label step |
| L3mpPlan.SingleNode | plugins/controller/networkservice_l3mp.go:139 | a plan with one node has that node as its first participant's node |
| L3mpPlan.LabelDecisionSingle | plugins/controller/networkservice_l3mp.go:139-162 | on one node, labels that match nothing are an error; otherwise the matched interfaces follow the plan pinned to the node, the node set stays that single node, and the same-node path is taken |
| L3mpDispatch.ScanPodInterface | plugins/controller/networkservice_l3mp.go:49-78 | one iteration of the pod scan: an unmapped pod, or one mapped to "" or to an unknown node, appends its message and clears the flag; otherwise the interface joins the plan with the pod as parent |
| L3mpDispatch.ScanPodInterfaces | plugins/controller/networkservice_l3mp.go:46-79 | the scan loop yields the scan's plan and flag and appends its messages in order, rendering nothing |
| L3mpDispatch.AppendNodeInterfaces | plugins/controller/networkservice_l3mp.go:81-96 | the node-interface loop appends the static node interfaces as specified |
| L3mpDispatch.AppendLabelInterfaces | plugins/controller/networkservice_l3mp.go:147-157 | the label loop appends the matched interfaces as specified |
| L3mpDispatch.DecideLabels | plugins/controller/networkservice_l3mp.go:139-175 | the label step and dispatch decide as specified, and a rejection appends exactly its message |
| L3mpDispatch.CheckConnL3MP | plugins/controller/networkservice_l3mp.go:98-145 | the checks decide as specified, and a rejection appends exactly its message, rendering nothing |
| L3mpDispatch.DecideConnL3MP | plugins/controller/networkservice_l3mp.go:33-175 | the gathering and validation decide as specified; the messages are the scan's followed by the rejection's, if any |
| L3mpDispatch.RenderConnL3MP | plugins/controller/networkservice_l3mp.go:28-176 | a rejected connection returns its error, having changed only the status messages (the scan's, then its own): no entry, record, VRF or memif ID; otherwise the same-node or inter-node render takes effect on the decided plan |
| L3mp.SameNodeRulesByKind | plugins/controller/networkservice_l3mp.go:235-405 | IP-mode memif gets routes only (up to its address without next hop, down to the loopback). Ethernet-mode memif or tap gets a vswitch ARP for its first address and a pod broadcast ARP (always for tap, only in a VPP container for memif), a route up via its own stripped address, and a pod default route `0.0.0.0/0` via the loopback. Any other kind gets none |
| L3mp.PersistAllKeeps | plugins/controller/networkservice_l3mp.go:222-227 | persisting the participants' records loses no record, keeps the addresses initialisation gives, and leaves every paired participant with a record |
| L3mp.PoolAfterNext | plugins/controller/networkservice_if.go:89-91 | across the participants of an L3MP render, the memif pool grows by one fresh ID for each memif pair whose record had none, and is otherwise unchanged |
| L3mp.AddressesKeptInit | plugins/controller/networkservice_l3mp.go:224 | once records are kept, initialising a later participant gives the same addresses as from the starting records |
| L3mp.RenderSameNodeArps | plugins/controller/networkservice_l3mp.go:275-369 | appends exactly the participant's same-node ARPs |
| L3mp.RenderSameNodeRoutes | plugins/controller/networkservice_l3mp.go:235-405 | appends exactly the participant's same-node routes |
| L3mp.RenderSameNodeInterface | plugins/controller/networkservice_l3mp.go:222-406 | one participant fails exactly when it is a memif, veth or tap whose initialisation fails, with the failure path; otherwise its record is its initialisation from the current records with the memif ID or host-port label settled, is persisted, a memif without an ID takes a fresh one from the pool, and its pair, ARPs and routes are appended |
| L3mp.SameNodeStateNext | plugins/controller/networkservice_l3mp.go:222-406 | the same-node loop state advances by one participant: its entries appended, its record persisted |
| L3mp.RenderSameNodeStep | plugins/controller/networkservice_l3mp.go:222-406 | one loop iteration either fails at that participant or extends the loop state by it |
| L3mp.RenderSameNodePairs | plugins/controller/networkservice_l3mp.go:222-407 | the participants in order; the first failing pair ends the render with its error and its record dropped; the earlier participants' entries and records stay |
| L3mp.RenderSameNodeVrf | plugins/controller/networkservice_l3mp.go:195-220 | the VRF ID is allocated (fresh, non-zero) only when it is 0; the loopback `IFLOOP_VRF_<vrf>_<ns>_C<index+1>` is appended only when there is a loopback address |
| L3mp.RenderConnL3MPSameNode | plugins/controller/networkservice_l3mp.go:179-435 | the same-node effect: VRF settled, loopback then per-participant entries in order, each record settled from the records as they stood and persisted, each memif ID taken fresh from the pool; on success a VXLAN hub-and-spoke overlay takes the single spoke {node}, any other overlay or none ends the render |
| L3mp.BridgeDomainMembersByNode | plugins/controller/networkservice_l3mp.go:471-476 | the bridge-domain lists are keyed by exactly the participants' nodes, and each node's list holds its participants' members in order |
| L3mp.MembersOnAbsent | plugins/controller/networkservice_l3mp.go:476 | a node with no participant has no member |
| L3mp.VrfRoutesByNode | plugins/controller/networkservice_l3mp.go:478-495 | the VRF-route lists are keyed by exactly the nodes with a participant that has an address, each holding those routes in order |
| L3mp.InterNodeLoopNext | plugins/controller/networkservice_l3mp.go:464-505 | the inter-node loop state advances by one participant |
| L3mp.RenderInterNodeInterface | plugins/controller/networkservice_l3mp.go:466-504 | one participant fails exactly when its initialisation fails; otherwise its record is its initialisation from the current records with the memif ID or host-port label settled, a memif without an ID takes a fresh one from the pool, and its pair on its own node and then an ARP for its stripped first address are appended |
| L3mp.CollectParticipant | plugins/controller/networkservice_l3mp.go:471-489 | the participant's member joins its node's bridge-domain list, and its route joins its node's VRF routes when it has an address |
| L3mp.RenderInterNodeStep | plugins/controller/networkservice_l3mp.go:464-505 | one loop iteration either fails at that participant or extends the loop state and both per-node lists by it |
| L3mp.RenderInterNodePairs | plugins/controller/networkservice_l3mp.go:464-505 | the participants in order; the first failing pair ends the render; no pair before the stop failed; otherwise the per-node lists are complete |
| L3mp.RenderConnL3MPInterNode | plugins/controller/networkservice_l3mp.go:438-544 | the inter-node effect: no VRF allocation, per-participant entries in order, each record settled from the records as they stood and persisted, each memif ID taken fresh from the pool. On success: VXLAN mesh gets all nodes, VRF routes and members; VXLAN hub-and-spoke gets all nodes and members; another mesh type ends the render; any other connection type appends and returns "type not implemented" |

## Left out

- The status store and the ID pools are not part of this model.
  - `InitInterfaceStatus` is modelled as `InterfaceRender.InitFrom`: an
    address-management step (an input function) decides whether it fails,
    and an already persisted record is reused.
  - The pools hand out a fresh non-zero ID. Lowest-free allocation and pool
    exhaustion are not modelled.
- The body of `findNetworkPodAndInterfaceInList` is not among the
  repository files modelled here. `L3mpPlan.FindPodInterface` models it as
  a first-match search of the service's pods: the first pod of that name
  that has an interface of that name, and that pod's first such interface.
- `FindInterfaceInNode`, `FindInterfacesForThisLabelInNode`,
  `ConnPodInterfaceNames` and `NodeInterfaceNames` are not part of this
  model. They are input lookups.
  - The label lookup returns interfaces paired with their types. The source
    receives two lists and appends them in separate loops; if their lengths
    differ, the source's lists fall out of alignment, and that case is not
    modelled.
- The vpp-agent entry builders are not modelled beyond the arguments they
  receive. The same holds for `ResolveMtu` and `ResolveRxMode` (entries
  carry the spec's MTU and rx-mode as given), the memif socket directory,
  and `LinuxNameSpaceTypeValue` (the veth namespace is carried as given).
- The transaction key prefix is not modelled: every entry goes to the one
  rendered-entries list of the service.
- Logging is left out.
- The overlay renderers `renderConnL3MPVxlanMesh` and
  `renderConnL2MPVxlanHubAndSpoke` are not part of this model. The model
  returns the hand-off with the arguments they would receive.
- `plugins/controller/database/database.go` is a key-value wrapper with no
  logic of its own.
- The write-through of `Parent` into the service spec is not modelled. The
  interface is re-parented on a copy that is used for the rest of the
  render.
- The loopback-name argument that the L3MP renderer passes to
  `RenderConnInterfacePair` has no parameter there. It has no effect and is
  not modelled.
- The `L3VRFRoute` shapes differ between the two files. Both are modelled by
  one route record.
- Strings are sequences of characters, one element per ASCII character. The
  re-encoding of non-ASCII bytes by `%c` is not modelled.
- IDs are unbounded naturals. `ConnNumber` writes out the 32-bit
  wrap-around of `connIndex + 1`; the 32-bit width of VRF and memif IDs is
  not modelled.
- The inter-node path leaves the VRF ID as it is. The allocation there is
  commented out in the source.
- L3mpDispatch.RenderConnL3MP: requires, as `L3mpReady`, what the source
  takes for granted without checking. It asks this only of the participants
  the render loop reaches, that is, those with no failing pair before them
  (`PairsOk`). For such a participant the source would otherwise dereference
  a nil record or index an empty address list:
  - on the same-node path, an address in the record if its ARP is written;
  - on the inter-node path, a memif, veth or tap participant (others return
    no record), with an address once initialised.
  On the inter-node path it also requires an overlay, but only when every
  pair succeeds: the source reads the overlay only after the loop. It also
  requires that every referenced pod or node interface exists
  (`PodRefsFound`, `NodeRefsFound`).
- L3mp.RenderConnL3MPInterNode: requires the same of the participants it
  reaches (`InterNodeAddressed`), and an overlay when every pair succeeds.
- L3mp.RenderInterNodePairs: requires `InterNodeAddressed` as above.
- L3mp.RenderConnL3MPSameNode: requires an address in the record of every
  participant it reaches whose static ARP is written (`SameNodeAddressed`).
- L3mp.RenderSameNodePairs: requires `SameNodeAddressed` as above.
