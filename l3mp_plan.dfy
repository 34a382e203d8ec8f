/** The validation and dispatch part of the L3 multipoint (L3MP) connection
    renderer: resolving each pod interface of a connection to a node, adding
    the static node interfaces and the label-selected node interfaces, and
    deciding between the same-node path, the inter-node path and an error. */
module L3mpPlan {
  import opened Model
  import opened Naming
  import opened InterfaceRender

  /** The participants of a connection as three index-aligned lists (the
      pod-to-node entry, the interface with its parent set, the pod type of
      its owner) and the set of nodes they are on. */
  datatype Plan = Plan(
    p2nArray: seq<NetworkPodToNodeMap>,
    ifaces: seq<Interface>,
    podTypes: seq<PodType>,
    nodes: set<string>)

  /** The nodes named by a list of pod-to-node entries. */
  function NodesOf(p2ns: seq<NetworkPodToNodeMap>): set<string>
  {
    set i | 0 <= i < |p2ns| :: p2ns[i].node
  }

  /** The three lists are aligned and the node set is exactly the nodes the
      pod-to-node entries name. */
  predicate WellFormed(p: Plan)
  {
    && |p.p2nArray| == |p.ifaces|
    && |p.ifaces| == |p.podTypes|
    && p.nodes == NodesOf(p.p2nArray)
  }

  const EmptyPlan: Plan := Plan([], [], [], {})

  /** One participant appended to all three lists; its node joins the set. */
  function AddParticipant(p: Plan, p2n: NetworkPodToNodeMap, iface: Interface, podType: PodType): (q: Plan)
  {
    Plan(p.p2nArray + [p2n], p.ifaces + [iface], p.podTypes + [podType], p.nodes + {p2n.node})
  }

  lemma NodesOfAppend(p2ns: seq<NetworkPodToNodeMap>, x: NetworkPodToNodeMap)
    ensures NodesOf(p2ns + [x]) == NodesOf(p2ns) + {x.node}
  {
    var s := p2ns + [x];
    forall n | n in NodesOf(s) ensures n in NodesOf(p2ns) + {x.node} {
      var i :| 0 <= i < |s| && s[i].node == n;
      if i < |p2ns| {
        assert p2ns[i].node == n;
      }
    }
    forall n | n in NodesOf(p2ns) ensures n in NodesOf(s) {
      var i :| 0 <= i < |p2ns| && p2ns[i].node == n;
      assert s[i].node == n;
    }
    assert s[|p2ns|].node == x.node;
  }

  /** Adding a participant keeps a plan well formed, keeps every earlier
      participant where it was and puts the new one last. */
  lemma AddParticipantWellFormed(p: Plan, p2n: NetworkPodToNodeMap, iface: Interface, podType: PodType)
    requires WellFormed(p)
    ensures var q := AddParticipant(p, p2n, iface, podType);
      && WellFormed(q)
      && |q.ifaces| == |p.ifaces| + 1
      && q.p2nArray[..|p.p2nArray|] == p.p2nArray && q.ifaces[..|p.ifaces|] == p.ifaces
      && q.podTypes[..|p.podTypes|] == p.podTypes
      && q.p2nArray[|p.p2nArray|] == p2n && q.ifaces[|p.ifaces|] == iface && q.podTypes[|p.podTypes|] == podType
  {
    NodesOfAppend(p.p2nArray, p2n);
  }

  /** A plan with at most one participant names at most one node, so a node
      set of two or more means at least two participants. */
  lemma NodesBound(p: Plan)
    requires WellFormed(p)
    ensures p.nodes != {} ==> |p.p2nArray| >= 1
    ensures |p.nodes| >= 2 ==> |p.p2nArray| >= 2
    ensures |p.p2nArray| >= 1 ==> p.p2nArray[0].node in p.nodes
  {
    if |p.p2nArray| == 0 {
      assert p.nodes == {};
    } else if |p.p2nArray| == 1 {
      var x := p.p2nArray[0].node;
      assert x in p.nodes;
      assert forall n :: n in p.nodes <==> n == x;
      assert p.nodes == {x};
    }
    if |p.p2nArray| >= 1 {
      assert p.p2nArray[0].node in NodesOf(p.p2nArray);
    }
  }

  /** A connection's "pod/interface" reference as the source prints it. */
  function RefString(r: IfRef): string { r.owner + "/" + r.ifName }

  /** How the pod of a pod interface resolves: not mapped (absent from the
      network-pod-to-node map, or mapped to ""), mapped to a node the node
      manager does not know, or mapped to a known node. */
  datatype PodResolution = Unmapped | UnknownNode(node: string) | Resolved(p2n: NetworkPodToNodeMap)

  function ResolvePod(env: Env, pod: string): PodResolution
  {
    if pod !in env.podToNode || env.podToNode[pod].node == "" then Unmapped
    else if env.podToNode[pod].node !in env.nodes then UnknownNode(env.podToNode[pod].node)
    else Resolved(env.podToNode[pod])
  }

  /** The interface as the renderer uses it: with its parent set to the pod
      or node it is rendered for. */
  function Reparent(iface: Interface, parent: string): Interface
  {
    iface.(parent := parent)
  }

  /** The first interface of the list with the given name. */
  function FindInterface(ifaces: seq<Interface>, name: string): (r: Option<Interface>)
    ensures r.Some? ==> r.value in ifaces && r.value.name == name
    ensures r.None? ==> forall i :: 0 <= i < |ifaces| ==> ifaces[i].name != name
  {
    if ifaces == [] then None
    else if ifaces[0].name == name then Some(ifaces[0])
    else FindInterface(ifaces[1..], name)
  }

  /** The lookup of a pod interface in the service's pods: the first pod with
      the pod name that has an interface with the interface name, with that
      pod's type. */
  function FindPodInterface(pods: seq<NetworkPod>, r: IfRef): (res: Option<(Interface, PodType)>)
    ensures res.Some? ==> res.value.0.name == r.ifName
    ensures res.Some? ==> exists k :: 0 <= k < |pods| && pods[k].name == r.owner
                                      && res.value.0 in pods[k].interfaces && res.value.1 == pods[k].podType
                                      && forall k' :: 0 <= k' < k && pods[k'].name == r.owner ==>
                                           FindInterface(pods[k'].interfaces, r.ifName).None?
    ensures res.None? ==> forall k, i :: 0 <= k < |pods| && pods[k].name == r.owner && 0 <= i < |pods[k].interfaces| ==>
                                           pods[k].interfaces[i].name != r.ifName
  {
    if pods == [] then None
    else
      var here := if pods[0].name == r.owner then FindInterface(pods[0].interfaces, r.ifName) else None;
      if here.Some? then Some((here.value, pods[0].podType))
      else
        var rest := FindPodInterface(pods[1..], r);
        if rest.Some? then
          ghost var k :| 0 <= k < |pods[1..]| && pods[1..][k].name == r.owner
                        && rest.value.0 in pods[1..][k].interfaces && rest.value.1 == pods[1..][k].podType
                        && forall k' :: 0 <= k' < k && pods[1..][k'].name == r.owner ==>
                             FindInterface(pods[1..][k'].interfaces, r.ifName).None?;
          assert pods[k + 1] == pods[1..][k];
          forall k' | 0 <= k' < k + 1 && pods[k'].name == r.owner
            ensures FindInterface(pods[k'].interfaces, r.ifName).None?
          {
            if k' > 0 { assert pods[k'] == pods[1..][k' - 1]; }
          }
          rest
        else None
  }

  /** Every pod interface whose pod resolves to a known node names an
      interface of the service's pods (the source dereferences the lookup's
      result without a check). */
  predicate PodRefsFound(env: Env, pods: seq<NetworkPod>, refs: seq<IfRef>)
  {
    forall j :: 0 <= j < |refs| && ResolvePod(env, refs[j].owner).Resolved? ==> FindPodInterface(pods, refs[j]).Some?
  }

  function UnmappedMsg(pos: nat, r: IfRef): string
  {
    "conn: " + NatToString(pos + 1) + ": " + RefString(r) + ", network pod not mapped to a node in network-pod-to-node-map"
  }

  function UnknownNodeMsg(pos: nat, r: IfRef, node: string): string
  {
    "conn: " + NatToString(pos + 1) + ": " + RefString(r) + ", network pod references non existant host: " + node
  }

  /** The message for a pod interface at position `pos` whose pod does not
      resolve. */
  function UnresolvedMsg(pos: nat, r: IfRef, res: PodResolution): string
    requires !res.Resolved?
  {
    if res.Unmapped? then UnmappedMsg(pos, r) else UnknownNodeMsg(pos, r, res.node)
  }

  /** The outcome of the scan over a connection's pod interfaces. */
  datatype Scan = Scan(plan: Plan, msgs: seq<string>, allAssigned: bool)

  /** One step of the scan, for the pod interface `r` at position `pos`: a
      resolved pod adds a participant; an unresolved one adds a message
      numbered by its position (from 1) and clears `allAssigned`. */
  function ScanStep(env: Env, pods: seq<NetworkPod>, s: Scan, pos: nat, r: IfRef): Scan
    requires ResolvePod(env, r.owner).Resolved? ==> FindPodInterface(pods, r).Some?
  {
    var res := ResolvePod(env, r.owner);
    if res.Resolved? then
      var found := FindPodInterface(pods, r).value;
      s.(plan := AddParticipant(s.plan, res.p2n, Reparent(found.0, r.owner), found.1))
    else s.(msgs := s.msgs + [UnresolvedMsg(pos, r, res)], allAssigned := false)
  }

  /** The scan over the pod interfaces, in order; it goes on past the pods
      that do not resolve. */
  function ScanPods(env: Env, pods: seq<NetworkPod>, refs: seq<IfRef>): Scan
    requires PodRefsFound(env, pods, refs)
  {
    if refs == [] then Scan(EmptyPlan, [], true)
    else
      var pos := |refs| - 1;
      ScanStep(env, pods, ScanPods(env, pods, refs[..pos]), pos, refs[pos])
  }

  /** The number of pod interfaces whose pod does not resolve to a known node. */
  function Unresolved(env: Env, refs: seq<IfRef>): nat
  {
    if refs == [] then 0
    else Unresolved(env, refs[..|refs| - 1]) + (if ResolvePod(env, refs[|refs| - 1].owner).Resolved? then 0 else 1)
  }

  lemma PodRefsFoundPrefix(env: Env, pods: seq<NetworkPod>, refs: seq<IfRef>)
    requires PodRefsFound(env, pods, refs) && refs != []
    ensures PodRefsFound(env, pods, refs[..|refs| - 1])
  {
    var pre := refs[..|refs| - 1];
    forall j | 0 <= j < |pre| && ResolvePod(env, pre[j].owner).Resolved?
      ensures FindPodInterface(pods, pre[j]).Some?
    {
      assert pre[j] == refs[j];
    }
  }

  /** The scan yields a well-formed plan with one participant per resolved
      pod interface and one message per unresolved one; it reports every pod
      assigned exactly when there is no message; every participant is on a
      known node and is the named interface with the pod as its parent. */
  lemma {:induction false} ScanPodsFacts(env: Env, pods: seq<NetworkPod>, refs: seq<IfRef>)
    requires PodRefsFound(env, pods, refs)
    ensures var s := ScanPods(env, pods, refs);
      && WellFormed(s.plan)
      && |s.msgs| == Unresolved(env, refs)
      && |s.plan.ifaces| + |s.msgs| == |refs|
      && (s.allAssigned <==> s.msgs == [])
      && s.plan.nodes <= env.nodes
  {
    if refs != [] {
      var pos := |refs| - 1;
      PodRefsFoundPrefix(env, pods, refs);
      ScanPodsFacts(env, pods, refs[..pos]);
      var s := ScanPods(env, pods, refs[..pos]);
      var r := refs[pos];
      if ResolvePod(env, r.owner).Resolved? {
        var found := FindPodInterface(pods, r).value;
        AddParticipantWellFormed(s.plan, env.podToNode[r.owner], Reparent(found.0, r.owner), found.1);
      }
    }
  }

  /** Every pod interface whose pod does not resolve leaves its message,
      numbered by its position, in the scan's messages. */
  lemma {:induction false} ScanPodsMessages(env: Env, pods: seq<NetworkPod>, refs: seq<IfRef>)
    requires PodRefsFound(env, pods, refs)
    ensures forall j :: 0 <= j < |refs| && !ResolvePod(env, refs[j].owner).Resolved? ==>
              UnresolvedMsg(j, refs[j], ResolvePod(env, refs[j].owner)) in ScanPods(env, pods, refs).msgs
  {
    if refs != [] {
      var pos := |refs| - 1;
      PodRefsFoundPrefix(env, pods, refs);
      ScanPodsMessages(env, pods, refs[..pos]);
      var s := ScanPods(env, pods, refs[..pos]);
      var full := ScanPods(env, pods, refs);
      forall j | 0 <= j < |refs| && !ResolvePod(env, refs[j].owner).Resolved?
        ensures UnresolvedMsg(j, refs[j], ResolvePod(env, refs[j].owner)) in full.msgs
      {
        if j < pos {
          assert refs[..pos][j] == refs[j];
          assert UnresolvedMsg(j, refs[j], ResolvePod(env, refs[j].owner)) in s.msgs;
        }
      }
    }
  }

  /** Every node-interface reference names an interface the node manager
      knows (the source dereferences the lookup's result without a check). */
  predicate NodeRefsFound(env: Env, refs: seq<IfRef>)
  {
    forall j :: 0 <= j < |refs| ==> refs[j] in env.nodeInterfaces
  }

  /** The static node interfaces, appended in order, each on its own node
      (as both pod and node of its pod-to-node entry). */
  function AddNodeInterfaces(env: Env, p: Plan, refs: seq<IfRef>): (q: Plan)
    requires NodeRefsFound(env, refs)
  {
    if refs == [] then p
    else
      var r := refs[|refs| - 1];
      var ni := env.nodeInterfaces[r];
      AddParticipant(AddNodeInterfaces(env, p, refs[..|refs| - 1]),
                     NetworkPodToNodeMap(r.owner, r.owner), Reparent(ni.iface, r.owner), ni.podType)
  }

  /** The label-selected node interfaces, appended in order, all on `node`. */
  function AddLabelInterfaces(p: Plan, node: string, nis: seq<NodeInterface>): (q: Plan)
  {
    if nis == [] then p
    else
      var ni := nis[|nis| - 1];
      AddParticipant(AddLabelInterfaces(p, node, nis[..|nis| - 1]),
                     NetworkPodToNodeMap(node, node), Reparent(ni.iface, node), ni.podType)
  }

  /** The static node interfaces follow the earlier participants unchanged,
      each pinned to the node it names; the plan stays well formed. */
  lemma {:induction false} AddNodeInterfacesFacts(env: Env, p: Plan, refs: seq<IfRef>)
    requires NodeRefsFound(env, refs) && WellFormed(p)
    ensures var q := AddNodeInterfaces(env, p, refs);
      && WellFormed(q)
      && |q.ifaces| == |p.ifaces| + |refs|
      && q.p2nArray[..|p.p2nArray|] == p.p2nArray && q.ifaces[..|p.ifaces|] == p.ifaces
      && (forall j :: 0 <= j < |refs| ==>
            && q.p2nArray[|p.p2nArray| + j] == NetworkPodToNodeMap(refs[j].owner, refs[j].owner)
            && q.ifaces[|p.ifaces| + j] == Reparent(env.nodeInterfaces[refs[j]].iface, refs[j].owner))
      && (forall j :: 0 <= j < |refs| ==> refs[j].owner in q.nodes)
  {
    if refs != [] {
      var pre := refs[..|refs| - 1];
      assert NodeRefsFound(env, pre) by {
        forall j | 0 <= j < |pre| ensures pre[j] in env.nodeInterfaces { assert pre[j] == refs[j]; }
      }
      AddNodeInterfacesFacts(env, p, pre);
      var q0 := AddNodeInterfaces(env, p, pre);
      var r := refs[|refs| - 1];
      var ni := env.nodeInterfaces[r];
      AddParticipantWellFormed(q0, NetworkPodToNodeMap(r.owner, r.owner), Reparent(ni.iface, r.owner), ni.podType);
      var q := AddNodeInterfaces(env, p, refs);
      forall j | 0 <= j < |refs|
        ensures q.p2nArray[|p.p2nArray| + j] == NetworkPodToNodeMap(refs[j].owner, refs[j].owner)
        ensures q.ifaces[|p.ifaces| + j] == Reparent(env.nodeInterfaces[refs[j]].iface, refs[j].owner)
        ensures refs[j].owner in q.nodes
      {
        if j < |pre| {
          assert pre[j] == refs[j];
          assert q.p2nArray[|p.p2nArray| + j] == q0.p2nArray[|p.p2nArray| + j];
          assert q.ifaces[|p.ifaces| + j] == q0.ifaces[|p.ifaces| + j];
        }
      }
      assert q.p2nArray[..|p.p2nArray|] == q0.p2nArray[..|p.p2nArray|];
      assert q.ifaces[..|p.ifaces|] == q0.ifaces[..|p.ifaces|];
    }
  }

  /** Adding the label-selected interfaces keeps the plan well formed and
      the earlier participants unchanged; when `node` is already in the
      plan's node set, the set does not change. */
  lemma {:induction false} AddLabelInterfacesShape(p: Plan, node: string, nis: seq<NodeInterface>)
    requires WellFormed(p)
    ensures var q := AddLabelInterfaces(p, node, nis);
      && WellFormed(q)
      && |q.ifaces| == |p.ifaces| + |nis|
      && q.p2nArray[..|p.p2nArray|] == p.p2nArray && q.ifaces[..|p.ifaces|] == p.ifaces
      && q.podTypes[..|p.podTypes|] == p.podTypes
      && (node in p.nodes ==> q.nodes == p.nodes)
  {
    if nis != [] {
      var pre := nis[..|nis| - 1];
      AddLabelInterfacesShape(p, node, pre);
      var q0 := AddLabelInterfaces(p, node, pre);
      var ni := nis[|nis| - 1];
      AddParticipantWellFormed(q0, NetworkPodToNodeMap(node, node), Reparent(ni.iface, node), ni.podType);
      var q := AddLabelInterfaces(p, node, nis);
      assert q.p2nArray[..|p.p2nArray|] == q0.p2nArray[..|p.p2nArray|];
      assert q.ifaces[..|p.ifaces|] == q0.ifaces[..|p.ifaces|];
      assert q.podTypes[..|p.podTypes|] == q0.podTypes[..|p.podTypes|];
    }
  }

  /** Participant |p.ifaces| + j of `q` is the label-selected interface
      `j`, pinned to `node` (as both pod and node of its entry) and keeping
      its own pod type. */
  predicate LabelledIndex(q: Plan, p: Plan, node: string, nis: seq<NodeInterface>, j: nat)
    requires j < |nis| && |q.p2nArray| == |p.p2nArray| + |nis|
    requires |q.ifaces| == |p.ifaces| + |nis| && |q.podTypes| == |p.podTypes| + |nis|
  {
    && q.p2nArray[|p.p2nArray| + j] == NetworkPodToNodeMap(node, node)
    && q.ifaces[|p.ifaces| + j] == Reparent(nis[j].iface, node)
    && q.podTypes[|p.podTypes| + j] == nis[j].podType
  }

  /** `q` is `p` followed by the label-selected interfaces, in order, each
      pinned to `node` and keeping its own pod type. */
  predicate LabelledAt(q: Plan, p: Plan, node: string, nis: seq<NodeInterface>)
  {
    && WellFormed(q)
    && |q.ifaces| == |p.ifaces| + |nis|
    && |q.p2nArray| == |p.p2nArray| + |nis| && |q.podTypes| == |p.podTypes| + |nis|
    && forall j: nat :: j < |nis| ==> LabelledIndex(q, p, node, nis, j)
  }

  /** The label-selected interface `j` is participant |p.ifaces| + j of the
      extended plan. */
  lemma {:induction false} AddLabelInterfacesIndex(p: Plan, node: string, nis: seq<NodeInterface>, j: nat)
    requires WellFormed(p) && j < |nis|
    ensures var q := AddLabelInterfaces(p, node, nis);
      && |q.p2nArray| == |p.p2nArray| + |nis| && |q.ifaces| == |p.ifaces| + |nis| && |q.podTypes| == |p.podTypes| + |nis|
      && LabelledIndex(q, p, node, nis, j)
  {
    var pre := nis[..|nis| - 1];
    AddLabelInterfacesShape(p, node, pre);
    if j < |pre| {
      AddLabelInterfacesIndex(p, node, pre, j);
      assert pre[j] == nis[j];
    }
  }

  /** The label-selected interfaces follow the earlier participants in
      order, each pinned to `node` (as both pod and node of its entry) and
      keeping its own pod type. */
  lemma AddLabelInterfacesAt(p: Plan, node: string, nis: seq<NodeInterface>)
    requires WellFormed(p)
    ensures LabelledAt(AddLabelInterfaces(p, node, nis), p, node, nis)
  {
    AddLabelInterfacesShape(p, node, nis);
    var q := AddLabelInterfaces(p, node, nis);
    forall j: nat | j < |nis| ensures LabelledIndex(q, p, node, nis, j) {
      AddLabelInterfacesIndex(p, node, nis, j);
    }
  }

  /** `%v` of a list of strings: the elements separated by spaces, in brackets. */
  function LabelsString(labels: seq<string>): string
  {
    "[" + JoinSpaced(labels) + "]"
  }

  function JoinSpaced(ss: seq<string>): string
  {
    if ss == [] then "" else if |ss| == 1 then ss[0] else JoinSpaced(ss[..|ss| - 1]) + " " + ss[|ss| - 1]
  }

  /** The connection's number in messages: `connIndex + 1` in uint32. */
  function ConnNumber(connIndex: nat): nat
  {
    (connIndex + 1) % 0x1_0000_0000
  }

  function NotAllMappedMsg(ns: string): string
  {
    "network-service: " + ns + ", not all network pods in this connection are mapped to nodes"
  }

  function MissingOverlayMsg(ns: string, connIndex: nat, overlay: string): string
  {
    "network-service: " + ns + ", conn: " + NatToString(ConnNumber(connIndex)) + ", referencing a missing overlay: " + overlay
  }

  function NoLabelInterfacesMsg(ns: string): string
  {
    "network service: " + ns + ", no interfaces specified to connect to node interface label"
  }

  function LabelNodesMsg(ns: string): string
  {
    "network service: " + ns + ", all interfaces must be on smae node to connect to node interface label"
  }

  function LabelNoMatchMsg(ns: string, labels: seq<string>): string
  {
    "network service: " + ns + ", nodeLabels " + LabelsString(labels) + ": must match at least one node interface: incorrect config"
  }

  function NodesMustMatchMsg(ns: string, node0: string, node1: string): string
  {
    "network service: " + ns + ", nodes " + node0 + "/" + node1 + " must be the same"
  }

  /** What `RenderConnL3MP` decides before rendering anything: an error (its
      message is also appended to the status), or the same-node or the
      inter-node render of a plan with the connection's overlay (None when
      the connection names none). */
  datatype Decision =
    | Reject(error: string)
    | SameNode(plan: Plan, nno: Option<NetworkNodeOverlay>)
    | InterNode(plan: Plan, nno: Option<NetworkNodeOverlay>)

  /** The plan after the pod scan and the static node interfaces. */
  function BasePlan(env: Env, pods: seq<NetworkPod>, conn: Connection): (p: Plan)
    requires PodRefsFound(env, pods, conn.podInterfaces) && NodeRefsFound(env, conn.nodeInterfaces)
    ensures WellFormed(p)
    ensures conn.nodeInterfaces != [] ==> conn.nodeInterfaces[0].owner in p.nodes
  {
    var scan := ScanPods(env, pods, conn.podInterfaces);
    ScanPodsFacts(env, pods, conn.podInterfaces);
    AddNodeInterfacesFacts(env, scan.plan, conn.nodeInterfaces);
    AddNodeInterfaces(env, scan.plan, conn.nodeInterfaces)
  }

  /** The validation and dispatch tree of `RenderConnL3MP`: a same-node
      render has a single node with at least one participant, and an
      inter-node render has not exactly one node, no static node interface and no
      label selector. */
  function Decide(nsName: string, env: Env, pods: seq<NetworkPod>, conn: Connection, connIndex: nat): (d: Decision)
    requires PodRefsFound(env, pods, conn.podInterfaces) && NodeRefsFound(env, conn.nodeInterfaces)
    ensures d.SameNode? ==> WellFormed(d.plan) && |d.plan.nodes| == 1 && |d.plan.p2nArray| >= 1
    ensures d.InterNode? ==>
      && WellFormed(d.plan) && |d.plan.nodes| != 1
      && conn.nodeInterfaces == [] && conn.nodeInterfaceLabels == []
  {
    var scan := ScanPods(env, pods, conn.podInterfaces);
    var plan := BasePlan(env, pods, conn);
    CheckDecision(nsName, env, conn, connIndex, scan.allAssigned, plan)
  }

  /** The checks of `RenderConnL3MP` in order, on the gathered plan: every
      pod assigned, the overlay present, the label rules, then the label
      step and the dispatch. */
  function CheckDecision(nsName: string, env: Env, conn: Connection, connIndex: nat, allAssigned: bool, plan: Plan)
    : (d: Decision)
    requires WellFormed(plan) && (conn.nodeInterfaces != [] ==> plan.nodes != {})
    ensures d.SameNode? ==> WellFormed(d.plan) && |d.plan.nodes| == 1 && |d.plan.p2nArray| >= 1
    ensures d.InterNode? ==>
      && WellFormed(d.plan) && |d.plan.nodes| != 1
      && conn.nodeInterfaces == [] && conn.nodeInterfaceLabels == []
  {
    var overlayName := conn.networkNodeOverlayName;
    var labels := conn.nodeInterfaceLabels;
    if !allAssigned then Reject(NotAllMappedMsg(nsName))
    else if overlayName != "" && overlayName !in env.overlays then Reject(MissingOverlayMsg(nsName, connIndex, overlayName))
    else
      var nno := if overlayName != "" then Some(env.overlays[overlayName]) else None;
      if labels != [] && |plan.nodes| == 0 then Reject(NoLabelInterfacesMsg(nsName))
      else if labels != [] && |plan.nodes| != 1 then Reject(LabelNodesMsg(nsName))
      else
        LabelDecision(nsName, env, plan, conn, nno)
  }

  /** The label step and the final dispatch; `plan` has a single node when
      the connection carries labels, and some node when it has static node
      interfaces. */
  function LabelDecision(nsName: string, env: Env, plan: Plan, conn: Connection, nno: Option<NetworkNodeOverlay>): (d: Decision)
    requires WellFormed(plan)
    requires conn.nodeInterfaceLabels != [] ==> |plan.nodes| == 1
    requires conn.nodeInterfaces != [] ==> plan.nodes != {}
    ensures d.SameNode? ==> WellFormed(d.plan) && |d.plan.nodes| == 1 && |d.plan.p2nArray| >= 1
    ensures d.InterNode? ==>
      && WellFormed(d.plan) && |d.plan.nodes| != 1
      && conn.nodeInterfaces == [] && conn.nodeInterfaceLabels == []
  {
    var labels := conn.nodeInterfaceLabels;
    NodesBound(plan);
    var matched := if labels != [] then env.labelLookup(plan.p2nArray[0].node, labels) else [];
    if labels != [] && matched == [] then Reject(LabelNoMatchMsg(nsName, labels))
    else
      var full := if labels != [] then AddLabelInterfaces(plan, plan.p2nArray[0].node, matched) else plan;
      AddLabelInterfacesShape(plan, if labels != [] then plan.p2nArray[0].node else "", matched);
      NodesBound(full);
      if |full.nodes| == 1 then SameNode(full, nno)
      else if conn.nodeInterfaces != [] then Reject(NodesMustMatchMsg(nsName, full.p2nArray[0].node, full.p2nArray[1].node))
      else InterNode(full, nno)
  }

  /** The overlay a connection names, when the overlay manager knows it. */
  function ConnOverlay(env: Env, conn: Connection): Option<NetworkNodeOverlay>
    requires conn.networkNodeOverlayName == "" || conn.networkNodeOverlayName in env.overlays
  {
    if conn.networkNodeOverlayName != "" then Some(env.overlays[conn.networkNodeOverlayName]) else None
  }

  /** A pod interface whose pod does not resolve to a known node makes the
      whole connection fail with the summary message, whatever else it
      specifies; with every pod resolved, a missing overlay is the next
      failure. */
  lemma DecideUnresolved(nsName: string, env: Env, pods: seq<NetworkPod>, conn: Connection, connIndex: nat)
    requires PodRefsFound(env, pods, conn.podInterfaces) && NodeRefsFound(env, conn.nodeInterfaces)
    ensures Unresolved(env, conn.podInterfaces) > 0 ==> Decide(nsName, env, pods, conn, connIndex) == Reject(NotAllMappedMsg(nsName))
    ensures Unresolved(env, conn.podInterfaces) == 0 && conn.networkNodeOverlayName != "" && conn.networkNodeOverlayName !in env.overlays
            ==> Decide(nsName, env, pods, conn, connIndex) == Reject(MissingOverlayMsg(nsName, connIndex, conn.networkNodeOverlayName))
  {
    ScanPodsFacts(env, pods, conn.podInterfaces);
  }

  /** Without a label selector, the dispatch goes by the number of distinct
      nodes of the base plan: exactly one is the same-node path; otherwise
      static node interfaces are an error naming the first two participants'
      nodes, and their absence is the inter-node path. */
  lemma DecideByNodes(nsName: string, env: Env, pods: seq<NetworkPod>, conn: Connection, connIndex: nat)
    requires PodRefsFound(env, pods, conn.podInterfaces) && NodeRefsFound(env, conn.nodeInterfaces)
    requires Unresolved(env, conn.podInterfaces) == 0 && conn.nodeInterfaceLabels == []
    requires conn.networkNodeOverlayName == "" || conn.networkNodeOverlayName in env.overlays
    ensures var base := BasePlan(env, pods, conn);
      var d := Decide(nsName, env, pods, conn, connIndex);
      && (|base.nodes| == 1 ==> d == SameNode(base, ConnOverlay(env, conn)))
      && (|base.nodes| != 1 && conn.nodeInterfaces != [] ==>
            |base.p2nArray| >= 2 && d == Reject(NodesMustMatchMsg(nsName, base.p2nArray[0].node, base.p2nArray[1].node)))
      && (|base.nodes| != 1 && conn.nodeInterfaces == [] ==> d == InterNode(base, ConnOverlay(env, conn)))
  {
    ScanPodsFacts(env, pods, conn.podInterfaces);
    var base := BasePlan(env, pods, conn);
    NodesBound(base);
    AddLabelInterfacesShape(base, "", []);
  }

  /** A single-node plan has that node as its only node. */
  lemma SingleNode(p: Plan)
    requires WellFormed(p) && |p.nodes| == 1
    ensures |p.p2nArray| >= 1 && p.nodes == {p.p2nArray[0].node}
  {
    NodesBound(p);
    var node := p.p2nArray[0].node;
    assert |p.nodes - {node}| == 0;
    assert p.nodes - {node} == {};
  }

  /** The label step on a single-node plan: no match is an error; otherwise
      the matched interfaces follow the plan's participants, pinned to its
      node, and the result is the same-node path. */
  lemma LabelDecisionSingle(nsName: string, env: Env, plan: Plan, conn: Connection, nno: Option<NetworkNodeOverlay>)
    requires WellFormed(plan) && |plan.nodes| == 1 && conn.nodeInterfaceLabels != []
    ensures |plan.p2nArray| >= 1
    ensures var node := plan.p2nArray[0].node;
      var matched := env.labelLookup(node, conn.nodeInterfaceLabels);
      var d := LabelDecision(nsName, env, plan, conn, nno);
      && (matched == [] ==> d == Reject(LabelNoMatchMsg(nsName, conn.nodeInterfaceLabels)))
      && (matched != [] ==>
            && d == SameNode(AddLabelInterfaces(plan, node, matched), nno)
            && LabelledAt(d.plan, plan, node, matched)
            && d.plan.nodes == {node})
  {
    SingleNode(plan);
    var node := plan.p2nArray[0].node;
    var matched := env.labelLookup(node, conn.nodeInterfaceLabels);
    AddLabelInterfacesShape(plan, node, matched);
    AddLabelInterfacesAt(plan, node, matched);
  }

  /** With a label selector, the base plan must have exactly one node, and
      the selector must match some interface of that node; the matched
      interfaces then follow the base plan's participants, pinned to that
      node, and the connection always takes the same-node path. */
  lemma DecideByLabels(nsName: string, env: Env, pods: seq<NetworkPod>, conn: Connection, connIndex: nat)
    requires PodRefsFound(env, pods, conn.podInterfaces) && NodeRefsFound(env, conn.nodeInterfaces)
    requires Unresolved(env, conn.podInterfaces) == 0 && conn.nodeInterfaceLabels != []
    requires conn.networkNodeOverlayName == "" || conn.networkNodeOverlayName in env.overlays
    ensures var base := BasePlan(env, pods, conn);
      var d := Decide(nsName, env, pods, conn, connIndex);
      && (|base.nodes| == 0 ==> d == Reject(NoLabelInterfacesMsg(nsName)))
      && (|base.nodes| > 1 ==> d == Reject(LabelNodesMsg(nsName)))
      && (|base.nodes| == 1 ==> |base.p2nArray| >= 1 && d == LabelDecision(nsName, env, base, conn, ConnOverlay(env, conn)))
  {
    ScanPodsFacts(env, pods, conn.podInterfaces);
  }
}
