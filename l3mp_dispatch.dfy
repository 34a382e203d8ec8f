/** `RenderConnL3MP`: the participants of an L3MP connection are gathered
    (pod interfaces resolved to their nodes, static node interfaces,
    label-selected node interfaces), the connection is validated, and the
    same-node or the inter-node render is chosen. */
module L3mpDispatch {
  import opened Model
  import opened InterfaceRender
  import opened L3mpPlan
  import opened L3mp

  /** Scanning one more pod interface is one more ScanStep. */
  lemma ScanPodsNext(env: Env, pods: seq<NetworkPod>, refs: seq<IfRef>, i: nat)
    requires PodRefsFound(env, pods, refs) && i < |refs|
    ensures PodRefsFound(env, pods, refs[..i]) && PodRefsFound(env, pods, refs[..i + 1])
    ensures ResolvePod(env, refs[i].owner).Resolved? ==> FindPodInterface(pods, refs[i]).Some?
    ensures ScanPods(env, pods, refs[..i + 1]) == ScanStep(env, pods, ScanPods(env, pods, refs[..i]), i, refs[i])
  {
    var pre := refs[..i + 1];
    forall j | 0 <= j < |pre| && ResolvePod(env, pre[j].owner).Resolved?
      ensures FindPodInterface(pods, pre[j]).Some?
    {
      assert pre[j] == refs[j];
    }
    assert pre[..i] == refs[..i];
  }

  /** One pod interface of the scan, at position `pos`, continuing the scan
      `s` whose messages follow `msgs0`: a pod without a node mapping, or
      mapped to "" or to a node the node manager does not know, adds a
      status message and clears `allAssigned`; otherwise the interface joins
      the plan with the pod as its parent. */
  method ScanPodInterface(mgr: NetworkServiceMgr, r: IfRef, pos: nat, plan: Plan, allAssigned: bool,
                          ghost msgs0: seq<string>, ghost s: Scan)
    returns (plan': Plan, allAssigned': bool)
    requires ResolvePod(mgr.env, r.owner).Resolved? ==> FindPodInterface(mgr.networkPods, r).Some?
    requires plan == s.plan && allAssigned == s.allAssigned && mgr.msgs == msgs0 + s.msgs
    modifies mgr
    ensures var s' := ScanStep(mgr.env, mgr.networkPods, s, pos, r);
      plan' == s'.plan && allAssigned' == s'.allAssigned && mgr.msgs == msgs0 + s'.msgs
    ensures mgr.renderedEntries == old(mgr.renderedEntries) && mgr.interfaces == old(mgr.interfaces)
  {
    var env := mgr.env;
    plan', allAssigned' := plan, allAssigned;
    if r.owner !in env.podToNode || env.podToNode[r.owner].node == "" {
      mgr.msgs := mgr.msgs + [UnmappedMsg(pos, r)];
      allAssigned' := false;
    } else if env.podToNode[r.owner].node !in env.nodes {
      mgr.msgs := mgr.msgs + [UnknownNodeMsg(pos, r, env.podToNode[r.owner].node)];
      allAssigned' := false;
    } else {
      var found := FindPodInterface(mgr.networkPods, r).value;
      plan' := AddParticipant(plan, env.podToNode[r.owner], Reparent(found.0, r.owner), found.1);
    }
  }

  /** The scan over the connection's pod interfaces, in order; the status
      messages of the pods that do not resolve are appended as they are met. */
  method ScanPodInterfaces(mgr: NetworkServiceMgr, conn: Connection) returns (plan: Plan, allAssigned: bool)
    requires PodRefsFound(mgr.env, mgr.networkPods, conn.podInterfaces)
    modifies mgr
    ensures var scan := ScanPods(mgr.env, mgr.networkPods, conn.podInterfaces);
      plan == scan.plan && allAssigned == scan.allAssigned && mgr.msgs == old(mgr.msgs) + scan.msgs
    ensures mgr.renderedEntries == old(mgr.renderedEntries) && mgr.interfaces == old(mgr.interfaces)
  {
    var env, pods, refs := mgr.env, mgr.networkPods, conn.podInterfaces;
    plan, allAssigned := EmptyPlan, true;
    ghost var scan := Scan(EmptyPlan, [], true);
    var i := 0;
    while i < |refs|
      invariant 0 <= i <= |refs| && PodRefsFound(env, pods, refs[..i])
      invariant scan == ScanPods(env, pods, refs[..i])
      invariant plan == scan.plan && allAssigned == scan.allAssigned && mgr.msgs == old(mgr.msgs) + scan.msgs
      invariant mgr.renderedEntries == old(mgr.renderedEntries) && mgr.interfaces == old(mgr.interfaces)
    {
      ScanPodsNext(env, pods, refs, i);
      plan, allAssigned := ScanPodInterface(mgr, refs[i], i, plan, allAssigned, old(mgr.msgs), scan);
      scan := ScanStep(env, pods, scan, i, refs[i]);
      i := i + 1;
    }
    assert refs[..i] == refs;
  }

  /** The static node interfaces, appended in order, each on the node it
      names (as both pod and node of its entry), with that node as the
      interface's parent. */
  method AppendNodeInterfaces(env: Env, p: Plan, refs: seq<IfRef>) returns (q: Plan)
    requires NodeRefsFound(env, refs)
    ensures q == AddNodeInterfaces(env, p, refs)
  {
    q := p;
    var i := 0;
    while i < |refs|
      invariant 0 <= i <= |refs| && NodeRefsFound(env, refs[..i])
      invariant q == AddNodeInterfaces(env, p, refs[..i])
    {
      var r := refs[i];
      var ni := env.nodeInterfaces[r];
      assert refs[..i + 1][..i] == refs[..i];
      q := AddParticipant(q, NetworkPodToNodeMap(r.owner, r.owner), Reparent(ni.iface, r.owner), ni.podType);
      i := i + 1;
    }
    assert refs[..i] == refs;
  }

  /** The label-selected node interfaces, appended in order, all on `node`
      (as both pod and node of their entries), with `node` as the
      interface's parent. */
  method AppendLabelInterfaces(p: Plan, node: string, nis: seq<NodeInterface>) returns (q: Plan)
    ensures q == AddLabelInterfaces(p, node, nis)
  {
    q := p;
    var i := 0;
    while i < |nis|
      invariant 0 <= i <= |nis|
      invariant q == AddLabelInterfaces(p, node, nis[..i])
    {
      assert nis[..i + 1][..i] == nis[..i];
      q := AddParticipant(q, NetworkPodToNodeMap(node, node), Reparent(nis[i].iface, node), nis[i].podType);
      i := i + 1;
    }
    assert nis[..i] == nis;
  }

  /** Records a rejection: its message is appended to the status. */
  method RejectWith(mgr: NetworkServiceMgr, msg: string) returns (d: Decision)
    modifies mgr
    ensures d == Reject(msg) && mgr.msgs == old(mgr.msgs) + [msg]
    ensures mgr.renderedEntries == old(mgr.renderedEntries) && mgr.interfaces == old(mgr.interfaces)
  {
    mgr.msgs := mgr.msgs + [msg];
    d := Reject(msg);
  }

  /** The label step and the final dispatch of `RenderConnL3MP`, on the plan
      of the resolved pod interfaces and the static node interfaces. */
  method DecideLabels(mgr: NetworkServiceMgr, conn: Connection, plan: Plan, nno: Option<NetworkNodeOverlay>)
    returns (d: Decision)
    requires WellFormed(plan)
    requires conn.nodeInterfaceLabels != [] ==> |plan.nodes| == 1
    requires conn.nodeInterfaces != [] ==> plan.nodes != {}
    modifies mgr
    ensures d == LabelDecision(mgr.nsName, mgr.env, plan, conn, nno)
    ensures mgr.msgs == old(mgr.msgs) + (if d.Reject? then [d.error] else [])
    ensures mgr.renderedEntries == old(mgr.renderedEntries) && mgr.interfaces == old(mgr.interfaces)
  {
    var full := plan;
    var labels := conn.nodeInterfaceLabels;
    NodesBound(plan);
    if labels != [] {
      var node := plan.p2nArray[0].node;
      var nis := mgr.env.labelLookup(node, labels);
      if nis == [] {
        d := RejectWith(mgr, LabelNoMatchMsg(mgr.nsName, labels));
        return;
      }
      full := AppendLabelInterfaces(plan, node, nis);
      AddLabelInterfacesShape(plan, node, nis);
    }
    NodesBound(full);
    if |full.nodes| == 1 {
      d := SameNode(full, nno);
    } else if conn.nodeInterfaces != [] {
      d := RejectWith(mgr, NodesMustMatchMsg(mgr.nsName, full.p2nArray[0].node, full.p2nArray[1].node));
    } else {
      d := InterNode(full, nno);
    }
  }

  /** The checks of `RenderConnL3MP` in order: every pod assigned, the
      overlay present, the label rules; a rejection appends its message. */
  method CheckConnL3MP(mgr: NetworkServiceMgr, conn: Connection, connIndex: nat, allAssigned: bool, plan: Plan)
    returns (d: Decision)
    requires WellFormed(plan) && (conn.nodeInterfaces != [] ==> plan.nodes != {})
    modifies mgr
    ensures d == CheckDecision(mgr.nsName, mgr.env, conn, connIndex, allAssigned, plan)
    ensures mgr.msgs == old(mgr.msgs) + (if d.Reject? then [d.error] else [])
    ensures mgr.renderedEntries == old(mgr.renderedEntries) && mgr.interfaces == old(mgr.interfaces)
  {
    if !allAssigned {
      d := RejectWith(mgr, NotAllMappedMsg(mgr.nsName));
      return;
    }
    var nno := None;
    var overlayName := conn.networkNodeOverlayName;
    if overlayName != "" {
      if overlayName !in mgr.env.overlays {
        d := RejectWith(mgr, MissingOverlayMsg(mgr.nsName, connIndex, overlayName));
        return;
      }
      nno := Some(mgr.env.overlays[overlayName]);
    }
    if conn.nodeInterfaceLabels != [] {
      if |plan.nodes| == 0 {
        d := RejectWith(mgr, NoLabelInterfacesMsg(mgr.nsName));
        return;
      }
      if |plan.nodes| != 1 {
        d := RejectWith(mgr, LabelNodesMsg(mgr.nsName));
        return;
      }
    }
    d := DecideLabels(mgr, conn, plan, nno);
  }

  /** The gathering and validation of `RenderConnL3MP`: the pod scan (its
      messages appended as met), the static node interfaces, then the
      checks. */
  method DecideConnL3MP(mgr: NetworkServiceMgr, conn: Connection, connIndex: nat) returns (d: Decision)
    requires PodRefsFound(mgr.env, mgr.networkPods, conn.podInterfaces) && NodeRefsFound(mgr.env, conn.nodeInterfaces)
    modifies mgr
    ensures d == Decide(mgr.nsName, mgr.env, mgr.networkPods, conn, connIndex)
    ensures mgr.msgs == old(mgr.msgs) + ScanPods(mgr.env, mgr.networkPods, conn.podInterfaces).msgs
                        + (if d.Reject? then [d.error] else [])
    ensures mgr.renderedEntries == old(mgr.renderedEntries) && mgr.interfaces == old(mgr.interfaces)
  {
    var plan, allAssigned := ScanPodInterfaces(mgr, conn);
    plan := AppendNodeInterfaces(mgr.env, plan, conn.nodeInterfaces);
    assert plan == BasePlan(mgr.env, mgr.networkPods, conn);
    d := CheckConnL3MP(mgr, conn, connIndex, allAssigned, plan);
  }

  /** What `RenderConnL3MP` needs of its inputs beyond what it checks
      itself, for the participants its loop reaches (those after no failing
      pair): on the same-node path, an address for each whose ARP is
      written; on the inter-node path, a memif, veth or tap with an address,
      and an overlay once every pair has succeeded. */
  predicate L3mpReady(nsName: string, env: Env, pods: seq<NetworkPod>, conn: Connection, connIndex: nat,
                      interfaces: map<IfKey, IfStatus>)
    requires PodRefsFound(env, pods, conn.podInterfaces) && NodeRefsFound(env, conn.nodeInterfaces)
  {
    var d := Decide(nsName, env, pods, conn, connIndex);
    && (d.SameNode? ==> SameNodeAddressed(env, interfaces, conn.generateStaticArps, d.plan.ifaces))
    && (d.InterNode? ==>
          && (PairsOk(env.provision, d.plan.ifaces, |d.plan.ifaces|) ==> d.nno.Some?)
          && InterNodeAddressed(env, interfaces, d.plan.ifaces))
  }

  /** `RenderConnL3MP`: the connection is validated and then rendered on one
      node or across nodes. A rejection leaves everything but the status
      messages as it was: the scan's messages and the rejection's own. */
  method RenderConnL3MP(mgr: NetworkServiceMgr, conn: Connection, connIndex: nat)
    returns (out: L3mpOutcome, ghost statuses: seq<Option<IfStatus>>)
    requires mgr.Valid()
    requires PodRefsFound(mgr.env, mgr.networkPods, conn.podInterfaces) && NodeRefsFound(mgr.env, conn.nodeInterfaces)
    requires L3mpReady(mgr.nsName, mgr.env, mgr.networkPods, conn, connIndex, mgr.interfaces)
    modifies mgr, mgr.memifIds, mgr.vrfIds, conn
    ensures mgr.Valid()
    ensures var d := Decide(mgr.nsName, mgr.env, mgr.networkPods, conn, connIndex);
      && (d.Reject? ==>
            && out == Failed(d.error)
            && Snap(mgr, conn) == old(Snap(mgr, conn)).(msgs := old(mgr.msgs)
                 + ScanPods(mgr.env, mgr.networkPods, conn.podInterfaces).msgs + [d.error]))
      && (d.SameNode? ==>
            SameNodeEffect(mgr.nsName, mgr.env, conn, connIndex, d.plan, d.nno, old(Snap(mgr, conn)),
                           Snap(mgr, conn), out, statuses))
      && (d.InterNode? ==>
            InterNodeEffect(mgr.nsName, mgr.env, conn, connIndex, d.plan, d.nno, old(Snap(mgr, conn)),
                            Snap(mgr, conn), out, statuses))
  {
    statuses := [];
    ghost var before := Snap(mgr, conn);
    var d := DecideConnL3MP(mgr, conn, connIndex);
    ScanPodsFacts(mgr.env, mgr.networkPods, conn.podInterfaces);
    match d
    case Reject(e) =>
      out := Failed(e);
    case SameNode(plan, nno) =>
      assert Snap(mgr, conn) == before;
      out, statuses := RenderConnL3MPSameNode(mgr, conn, connIndex, plan, nno);
    case InterNode(plan, nno) =>
      assert Snap(mgr, conn) == before;
      out, statuses := RenderConnL3MPInterNode(mgr, conn, connIndex, plan, nno);
  }
}
