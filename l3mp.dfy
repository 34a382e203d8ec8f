/** Rendering of an L3 multipoint (L3MP) connection: every participant
    interface is joined to its node's vswitch, then either all participants
    share one node (a VRF, an optional VRF loopback, static ARPs and routes)
    or they span several nodes (per-node bridge-domain members and VRF
    routes, handed to the node overlay). */
module L3mp {
  import opened Model
  import opened Naming
  import opened Allocator
  import opened InterfaceRender
  import opened L3mpPlan

  /** What rendering an L3MP connection ends in: nothing more to do, an
      error, or a hand-off to the node overlay's hub-and-spoke or mesh
      renderer with the participants and the per-node lists built here. */
  datatype L3mpOutcome =
    | Rendered
    | Failed(error: string)
    | HubAndSpokeDelegated(overlay: NetworkNodeOverlay, plan: Plan, spokes: set<string>,
                           l2bd: map<string, seq<BridgeDomainIf>>)
    | MeshDelegated(overlay: NetworkNodeOverlay, plan: Plan, nodes: set<string>,
                    l3vrfs: map<string, seq<VrfRoute>>, l2bd: map<string, seq<BridgeDomainIf>>)

  /** The connection settings the static rules depend on. */
  datatype RuleSettings = RuleSettings(
    nsName: string, vrf: nat, connIndex: nat, loopback: string, arps: bool, routes: bool, strip: string -> string)

  function Settings(nsName: string, conn: Connection, vrf: nat, connIndex: nat, strip: string -> string): RuleSettings
  {
    RuleSettings(nsName, vrf, connIndex, conn.loopbackAddress, conn.generateStaticArps, conn.generateStaticL3Routes, strip)
  }

  /** The state an L3MP render changes, as seen before and after it. */
  datatype Snapshot = Snapshot(
    entries: seq<Entry>, interfaces: map<IfKey, IfStatus>, msgs: seq<string>, vrfId: nat, vrfsInUse: set<nat>,
    memifsInUse: set<nat>)

  function Snap(mgr: NetworkServiceMgr, conn: Connection): Snapshot
    reads mgr, mgr.vrfIds, mgr.memifIds, conn
  {
    Snapshot(mgr.renderedEntries, mgr.interfaces, mgr.msgs, conn.vrfId, mgr.vrfIds.inUse, mgr.memifIds.inUse)
  }

  function VrfName(s: RuleSettings): string
  {
    "VRF_" + NatToString(s.vrf) + "_" + s.nsName + "_C" + NatToString(ConnNumber(s.connIndex))
  }

  function RouteDescription(s: RuleSettings): string
  {
    "L3MP NS_" + s.nsName + "_VRF_" + NatToString(s.vrf) + "_CONN_" + NatToString(ConnNumber(s.connIndex))
  }

  /** The connection's VRF loopback on the node, when it has a loopback
      address: enabled, in the connection's VRF, with default MTU and rx-mode. */
  function VrfLoopbackEntries(s: RuleSettings, node: string): seq<Entry>
  {
    if s.loopback == "" then []
    else [LoopbackIf(node, "IFLOOP_" + VrfName(s), [s.loopback], "", 0, AdminStatusEnabled, "", s.vrf)]
  }

  predicate MemifIpMode(iface: Interface)
  {
    iface.ifType == Memif && iface.memifParms.Some? && iface.memifParms.value.mode == ModeIP
  }

  predicate MemifEthernetMode(iface: Interface)
  {
    iface.ifType == Memif && (iface.memifParms.None? || iface.memifParms.value.mode == ModeEthernet)
  }

  /** The interfaces the same-node path writes static ARPs for, reading the
      first address of the interface's record. */
  predicate NeedsAddress(arps: bool, iface: Interface)
  {
    arps && (MemifEthernetMode(iface) || iface.ifType == Tap)
  }

  const BroadcastMac: string := "FF:FF:FF:FF:FF:FF"

  /** Same node, static ARPs: on the vswitch, the pod interface's first
      address and MAC behind the vswitch-side interface; in the pod, the
      loopback address with the broadcast MAC (a Linux ARP for a tap, a VPP
      ARP for a memif of a VPP-container pod). */
  function SameNodeArps(s: RuleSettings, node: string, pod: string, iface: Interface, podType: PodType, st: IfStatus): seq<Entry>
    requires NeedsAddress(s.arps, iface) ==> st.ipAddresses != []
  {
    if !NeedsAddress(s.arps, iface) then []
    else
      var podArp := ArpEntry(s.loopback, BroadcastMac, iface.name);
      [StaticArp(node, ArpEntry(st.ipAddresses[0], st.macAddress, ConnPairName(iface)))]
        + (if iface.ifType == Tap then [LinuxStaticArp(pod, podArp)]
           else if podType == VppContainer then [StaticArp(pod, podArp)]
           else [])
  }

  /** Same node, the route up to the pod in the connection's VRF: to the
      first address, via the address itself except for an IP-mode memif. */
  function UpRoute(s: RuleSettings, node: string, iface: Interface, st: IfStatus): seq<Entry>
  {
    if st.ipAddresses == [] then []
    else
      var nextHop := if MemifIpMode(iface) then "" else s.strip(st.ipAddresses[0]);
      [StaticRoute(node, VrfRoute(s.vrf, RouteDescription(s), st.ipAddresses[0], nextHop, ConnPairName(iface)))]
  }

  /** Same node, the route in the pod down to the vswitch, when there is a
      loopback address: to the loopback for an IP-mode memif, a default
      route via the loopback otherwise. */
  function DownRoute(s: RuleSettings, pod: string, iface: Interface): seq<Entry>
  {
    if s.loopback == "" then []
    else if MemifIpMode(iface) then [StaticRoute(pod, VrfRoute(0, "", s.loopback, "", iface.name))]
    else [StaticRoute(pod, VrfRoute(0, "", "0.0.0.0/0", s.loopback, iface.name))]
  }

  /** Same node, static routes: for a memif (IP or ethernet mode) or a tap. */
  function SameNodeRoutes(s: RuleSettings, node: string, pod: string, iface: Interface, st: IfStatus): seq<Entry>
  {
    if s.routes && (MemifIpMode(iface) || MemifEthernetMode(iface) || iface.ifType == Tap)
    then UpRoute(s, node, iface, st) + DownRoute(s, pod, iface)
    else []
  }

  /** The same-node rules by interface kind: an IP-mode memif gets routes
      only (up to its address without a next hop, down to the loopback); an
      ethernet-mode memif or a tap gets the vswitch ARP for its first
      address, a pod-side broadcast ARP (always for a tap, only in a VPP
      container for a memif), a route up via its own address and a default
      route in the pod via the loopback; any other kind gets nothing. */
  lemma SameNodeRulesByKind(s: RuleSettings, node: string, pod: string, iface: Interface, podType: PodType, st: IfStatus)
    requires NeedsAddress(s.arps, iface) ==> st.ipAddresses != []
    ensures var arps, routes := SameNodeArps(s, node, pod, iface, podType, st), SameNodeRoutes(s, node, pod, iface, st);
      && (!(iface.ifType == Memif || iface.ifType == Tap) ==> arps == [] && routes == [])
      && (MemifIpMode(iface) ==>
            && arps == []
            && |routes| == (if s.routes then (if st.ipAddresses != [] then 1 else 0) + (if s.loopback != "" then 1 else 0) else 0)
            && (s.routes && st.ipAddresses != [] ==>
                  routes[0] == StaticRoute(node, VrfRoute(s.vrf, RouteDescription(s), st.ipAddresses[0], "", ConnPairName(iface))))
            && (s.routes && s.loopback != "" ==>
                  routes[|routes| - 1] == StaticRoute(pod, VrfRoute(0, "", s.loopback, "", iface.name))))
      && (MemifEthernetMode(iface) || iface.ifType == Tap ==>
            && (!s.arps ==> arps == [])
            && (s.arps ==>
                  && |arps| == (if iface.ifType == Tap || podType == VppContainer then 2 else 1)
                  && arps[0] == StaticArp(node, ArpEntry(st.ipAddresses[0], st.macAddress, ConnPairName(iface)))
                  && (|arps| == 2 ==> arps[1].arp == ArpEntry(s.loopback, BroadcastMac, iface.name)))
            && |routes| == (if s.routes then (if st.ipAddresses != [] then 1 else 0) + (if s.loopback != "" then 1 else 0) else 0)
            && (s.routes && st.ipAddresses != [] ==>
                  routes[0] == StaticRoute(node, VrfRoute(s.vrf, RouteDescription(s), st.ipAddresses[0],
                                                         s.strip(st.ipAddresses[0]), ConnPairName(iface))))
            && (s.routes && s.loopback != "" ==>
                  routes[|routes| - 1] == StaticRoute(pod, VrfRoute(0, "", "0.0.0.0/0", s.loopback, iface.name))))
  {
  }

  /** The entries `es` followed by what the same-node path appends for one
      participant: the pair (with its forwarding rules and tunnels), then its
      ARPs and routes. A participant without a record (no pair) gets only its
      rules and tunnels. */
  function AfterSameNodeIf(es: seq<Entry>, s: RuleSettings, node: string, pod: string, iface: Interface,
                           podType: PodType, st: Option<IfStatus>): seq<Entry>
    requires st.Some? && NeedsAddress(s.arps, iface) ==> st.value.ipAddresses != []
  {
    match st
    case None => es + NoPairEntries(s.nsName, iface)
    case Some(v) =>
      es + TypedPairEntries(node, s.vrf, iface, podType, v) + NoPairEntries(s.nsName, iface)
        + SameNodeArps(s, node, pod, iface, podType, v) + SameNodeRoutes(s, node, pod, iface, v)
  }

  /** Every record the same-node path reads an ARP address from has one. */
  predicate ArpsAddressed(arps: bool, ifaces: seq<Interface>, statuses: seq<Option<IfStatus>>)
    requires |statuses| <= |ifaces|
  {
    statuses == [] ||
    (var k := |statuses| - 1;
     && ArpsAddressed(arps, ifaces, statuses[..k])
     && (statuses[k].Some? && NeedsAddress(arps, ifaces[k]) ==> statuses[k].value.ipAddresses != []))
  }

  /** The entries `es` followed by what the same-node path appends for the
      first |statuses| participants, in order. */
  function AfterSameNode(es: seq<Entry>, s: RuleSettings, node: string, plan: Plan, statuses: seq<Option<IfStatus>>): seq<Entry>
    requires WellFormed(plan) && |statuses| <= |plan.ifaces|
    requires ArpsAddressed(s.arps, plan.ifaces, statuses)
  {
    if statuses == [] then es
    else
      var k := |statuses| - 1;
      AfterSameNodeIf(AfterSameNode(es, s, node, plan, statuses[..k]), s, node,
                      plan.p2nArray[k].pod, plan.ifaces[k], plan.podTypes[k], statuses[k])
  }

  /** The addresses of two records agree. */
  predicate SameAddresses(a: IfStatus, b: IfStatus)
  {
    a.ipAddresses == b.ipAddresses && a.macAddress == b.macAddress
  }

  /** `st` is what the pair of `iface` returned when the status store
      initialised it as `init`: for a memif, veth or tap, the initialised
      record with its memif ID or host-port label settled; no record for any
      other type. */
  predicate StatusMatches(iface: Interface, st: Option<IfStatus>, init: InitOutcome)
  {
    if RendersPair(iface.ifType) then init.InitOk? && st.Some? && SettledRecord(iface, init.status, st.value)
    else st.None?
  }

  /** Each of the first |statuses| participants' records matches its
      initialisation from the records as they stood when its pair was
      rendered: `m0` after the earlier participants persisted theirs. */
  predicate StatusesMatch(provision: IfKey -> InitOutcome, m0: map<IfKey, IfStatus>, ifaces: seq<Interface>,
                          statuses: seq<Option<IfStatus>>)
    requires |statuses| <= |ifaces|
  {
    statuses == [] ||
    (var k := |statuses| - 1;
     && StatusesMatch(provision, m0, ifaces, statuses[..k])
     && StatusMatches(ifaces[k], statuses[k], InitFrom(PersistAll(m0, ifaces, statuses[..k]), provision, Key(ifaces[k]))))
  }

  /** The pair of `iface`, initialised as `init` and returning `st`, takes
      a fresh memif ID: a memif whose record had none. */
  predicate TakesMemifId(iface: Interface, init: InitOutcome, st: Option<IfStatus>)
  {
    iface.ifType == Memif && init.InitOk? && init.status.memifId == 0 && st.Some?
  }

  /** The memif ID pool after such a pair, from `used` to `used'`: a fresh
      ID joins it when the pair takes one; otherwise it is unchanged. */
  predicate PoolStep(iface: Interface, init: InitOutcome, st: Option<IfStatus>, used: set<nat>, used': set<nat>)
  {
    if TakesMemifId(iface, init, st) then st.value.memifId !in used && used' == used + {st.value.memifId}
    else used' == used
  }

  /** The memif ID pool `used0` after the first |statuses| participants'
      pairs, initialised from `m0` as the records stood at each. */
  function MemifPool(used0: set<nat>, provision: IfKey -> InitOutcome, m0: map<IfKey, IfStatus>,
                     ifaces: seq<Interface>, statuses: seq<Option<IfStatus>>): set<nat>
    requires |statuses| <= |ifaces|
  {
    if statuses == [] then used0
    else
      var k := |statuses| - 1;
      var prev := MemifPool(used0, provision, m0, ifaces, statuses[..k]);
      var init := InitFrom(PersistAll(m0, ifaces, statuses[..k]), provision, Key(ifaces[k]));
      if TakesMemifId(ifaces[k], init, statuses[k]) then prev + {statuses[k].value.memifId} else prev
  }

  /** Every memif ID the first |statuses| participants take is fresh: not in
      the pool as it stood when it was taken. */
  predicate FreshMemifIds(used0: set<nat>, provision: IfKey -> InitOutcome, m0: map<IfKey, IfStatus>,
                          ifaces: seq<Interface>, statuses: seq<Option<IfStatus>>)
    requires |statuses| <= |ifaces|
  {
    statuses == [] ||
    (var k := |statuses| - 1;
     var init := InitFrom(PersistAll(m0, ifaces, statuses[..k]), provision, Key(ifaces[k]));
     && FreshMemifIds(used0, provision, m0, ifaces, statuses[..k])
     && (TakesMemifId(ifaces[k], init, statuses[k]) ==>
           statuses[k].value.memifId !in MemifPool(used0, provision, m0, ifaces, statuses[..k])))
  }

  /** The memif pool `used` is `used0` after the first |statuses| pairs,
      each taken ID fresh. */
  predicate PoolAfter(used0: set<nat>, provision: IfKey -> InitOutcome, m0: map<IfKey, IfStatus>,
                      ifaces: seq<Interface>, statuses: seq<Option<IfStatus>>, used: set<nat>)
    requires |statuses| <= |ifaces|
  {
    used == MemifPool(used0, provision, m0, ifaces, statuses) && FreshMemifIds(used0, provision, m0, ifaces, statuses)
  }

  /** One more pair, initialised from the records as they stand, advances
      the pool by its step. */
  lemma PoolAfterNext(used0: set<nat>, provision: IfKey -> InitOutcome, m0: map<IfKey, IfStatus>,
                      ifaces: seq<Interface>, statuses: seq<Option<IfStatus>>, used: set<nat>,
                      st: Option<IfStatus>, used': set<nat>)
    requires |statuses| < |ifaces| && PoolAfter(used0, provision, m0, ifaces, statuses, used)
    requires PoolStep(ifaces[|statuses|], InitFrom(PersistAll(m0, ifaces, statuses), provision, Key(ifaces[|statuses|])),
                      st, used, used')
    ensures PoolAfter(used0, provision, m0, ifaces, statuses + [st], used')
  {
    assert (statuses + [st])[..|statuses|] == statuses;
  }

  /** The records after a pair persisted its record, if it has one. */
  function Persist(m: map<IfKey, IfStatus>, iface: Interface, st: Option<IfStatus>): map<IfKey, IfStatus>
  {
    match st
    case None => m
    case Some(v) => m[Key(iface) := v]
  }

  /** The records `m0` after the first |statuses| participants' pairs
      persisted theirs, in order. */
  function PersistAll(m0: map<IfKey, IfStatus>, ifaces: seq<Interface>, statuses: seq<Option<IfStatus>>): map<IfKey, IfStatus>
    requires |statuses| <= |ifaces|
  {
    if statuses == [] then m0
    else
      var k := |statuses| - 1;
      Persist(PersistAll(m0, ifaces, statuses[..k]), ifaces[k], statuses[k])
  }

  /** The persisted records, relative to the records `m0` a render started
      from: no record is lost, and every record whose initialisation
      succeeds carries the addresses that initialisation from `m0` gives. */
  predicate AddressesKept(m0: map<IfKey, IfStatus>, m: map<IfKey, IfStatus>, provision: IfKey -> InitOutcome)
  {
    && (forall k :: k in m0 ==> k in m)
    && (forall k :: k in m && provision(k).InitOk? ==> SameAddresses(m[k], InitFrom(m0, provision, k).status))
  }

  /** Once records are kept, initialising a key gives the same addresses as
      initialising it from the starting records. */
  lemma AddressesKeptInit(m0: map<IfKey, IfStatus>, m: map<IfKey, IfStatus>, provision: IfKey -> InitOutcome, k: IfKey)
    requires AddressesKept(m0, m, provision) && provision(k).InitOk?
    ensures InitFrom(m, provision, k).InitOk? && InitFrom(m0, provision, k).InitOk?
    ensures SameAddresses(InitFrom(m, provision, k).status, InitFrom(m0, provision, k).status)
  {
    if k !in m {
      assert k !in m0;
    }
  }

  /** Persisting records that match their initialisation loses no record,
      keeps every address initialisation from `m0` gives, and leaves every
      paired participant with its record. */
  lemma {:induction false} PersistAllKeeps(provision: IfKey -> InitOutcome, m0: map<IfKey, IfStatus>,
                                           ifaces: seq<Interface>, statuses: seq<Option<IfStatus>>)
    requires |statuses| <= |ifaces| && StatusesMatch(provision, m0, ifaces, statuses)
    ensures AddressesKept(m0, PersistAll(m0, ifaces, statuses), provision)
    ensures forall j :: 0 <= j < |statuses| && RendersPair(ifaces[j].ifType) ==>
      Key(ifaces[j]) in PersistAll(m0, ifaces, statuses)
  {
    if statuses != [] {
      var k := |statuses| - 1;
      var pre := statuses[..k];
      PersistAllKeeps(provision, m0, ifaces, pre);
      var m := PersistAll(m0, ifaces, pre);
      if provision(Key(ifaces[k])).InitOk? {
        AddressesKeptInit(m0, m, provision, Key(ifaces[k]));
      }
      assert PersistAll(m0, ifaces, statuses) == Persist(m, ifaces[k], statuses[k]);
      forall j | 0 <= j < k && RendersPair(ifaces[j].ifType)
        ensures Key(ifaces[j]) in PersistAll(m0, ifaces, statuses)
      {
        assert pre[j] == statuses[j];
      }
    }
  }

  /** The failure of a participant's pair: its initialisation failed, the
      failure was reported once and is returned. */
  predicate FailedAt(provision: IfKey -> InitOutcome, iface: Interface, msgs0: seq<string>, msgs1: seq<string>,
                     out: L3mpOutcome)
  {
    var k := Key(iface);
    && RendersPair(iface.ifType)
    && provision(k).InitErr?
    && out == Failed(provision(k).reason)
    && msgs1 == msgs0 + [InitFailedMsg(k, provision(k).reason)]
  }

  /** The same-node hand-off: a hub-and-spoke vxlan overlay gets the node
      as its single spoke and no bridge-domain members; otherwise the render
      is complete. */
  function SameNodeOverlay(nno: Option<NetworkNodeOverlay>, plan: Plan, node: string): L3mpOutcome
  {
    if nno.Some? && nno.value.serviceMeshType == HubAndSpoke && nno.value.connectionType == Vxlan
    then HubAndSpokeDelegated(nno.value, plan, {node}, map[])
    else Rendered
  }

  /** The effect of the same-node path, from state `b` to state `a`: the VRF
      is settled (allocated when the connection had none), the VRF loopback
      and then each participant's entries are appended in order, each
      participant's record is persisted; the render stops at the first pair
      whose initialisation fails, after dropping that pair's record. */
  ghost predicate SameNodeEffect(nsName: string, env: Env, conn: Connection, connIndex: nat, plan: Plan,
                                 nno: Option<NetworkNodeOverlay>, b: Snapshot, a: Snapshot, out: L3mpOutcome,
                                 statuses: seq<Option<IfStatus>>)
    requires WellFormed(plan) && |plan.p2nArray| >= 1
  {
    var node := plan.p2nArray[0].node;
    var s := Settings(nsName, conn, a.vrfId, connIndex, env.stripSubnet);
    && IdSettled(b.vrfId, a.vrfId, b.vrfsInUse, a.vrfsInUse)
    && |statuses| <= |plan.ifaces|
    && StatusesMatch(env.provision, b.interfaces, plan.ifaces, statuses)
    && PoolAfter(b.memifsInUse, env.provision, b.interfaces, plan.ifaces, statuses, a.memifsInUse)
    && ArpsAddressed(s.arps, plan.ifaces, statuses)
    && a.entries == AfterSameNode(b.entries + VrfLoopbackEntries(s, node), s, node, plan, statuses)
    && (|statuses| < |plan.ifaces| ==>
          && FailedAt(env.provision, plan.ifaces[|statuses|], b.msgs, a.msgs, out)
          && a.interfaces == PersistAll(b.interfaces, plan.ifaces, statuses) - {Key(plan.ifaces[|statuses|])})
    && (|statuses| == |plan.ifaces| ==>
          && a.msgs == b.msgs
          && a.interfaces == PersistAll(b.interfaces, plan.ifaces, statuses)
          && out == SameNodeOverlay(nno, plan, node))
  }

  /** No pair among the first `n` participants fails: each memif, veth or
      tap among them initialises. The render loops reach participant `n`
      exactly when this holds. */
  predicate PairsOk(provision: IfKey -> InitOutcome, ifaces: seq<Interface>, n: nat)
    requires n <= |ifaces|
  {
    n == 0 ||
    (PairsOk(provision, ifaces, n - 1) && (RendersPair(ifaces[n - 1].ifType) ==> provision(Key(ifaces[n - 1])).InitOk?))
  }

  /** A participant whose pair returned a record matching its
      initialisation extends the run of pairs that did not fail. */
  lemma PairsOkNext(provision: IfKey -> InitOutcome, m: map<IfKey, IfStatus>, ifaces: seq<Interface>, n: nat,
                    st: Option<IfStatus>)
    requires n < |ifaces| && PairsOk(provision, ifaces, n)
    requires StatusMatches(ifaces[n], st, InitFrom(m, provision, Key(ifaces[n])))
    ensures PairsOk(provision, ifaces, n + 1)
  {
  }

  /** Every participant the same-node loop reaches and whose ARP it writes
      has an address once initialised from `m`. */
  predicate SameNodeAddressed(env: Env, m: map<IfKey, IfStatus>, arps: bool, ifaces: seq<Interface>)
  {
    forall j :: 0 <= j < |ifaces| && PairsOk(env.provision, ifaces, j) && NeedsAddress(arps, ifaces[j])
                && env.provision(Key(ifaces[j])).InitOk? ==>
      InitFrom(m, env.provision, Key(ifaces[j])).status.ipAddresses != []
  }

  /** Same node, the static ARPs of one participant. */
  method RenderSameNodeArps(mgr: NetworkServiceMgr, s: RuleSettings, node: string, pod: string, iface: Interface,
                            podType: PodType, st: IfStatus)
    requires NeedsAddress(s.arps, iface) ==> st.ipAddresses != []
    modifies mgr
    ensures mgr.renderedEntries == old(mgr.renderedEntries) + SameNodeArps(s, node, pod, iface, podType, st)
    ensures mgr.interfaces == old(mgr.interfaces) && mgr.msgs == old(mgr.msgs)
  {
    if !NeedsAddress(s.arps, iface) {
      return;
    }
    mgr.renderedEntries := mgr.renderedEntries
      + [StaticArp(node, ArpEntry(st.ipAddresses[0], st.macAddress, ConnPairName(iface)))];
    var podArp := ArpEntry(s.loopback, BroadcastMac, iface.name);
    if iface.ifType == Tap {
      mgr.renderedEntries := mgr.renderedEntries + [LinuxStaticArp(pod, podArp)];
    } else if podType == VppContainer {
      mgr.renderedEntries := mgr.renderedEntries + [StaticArp(pod, podArp)];
    }
  }

  /** Same node, the static routes of one participant. */
  method RenderSameNodeRoutes(mgr: NetworkServiceMgr, s: RuleSettings, node: string, pod: string, iface: Interface,
                              st: IfStatus)
    modifies mgr
    ensures mgr.renderedEntries == old(mgr.renderedEntries) + SameNodeRoutes(s, node, pod, iface, st)
    ensures mgr.interfaces == old(mgr.interfaces) && mgr.msgs == old(mgr.msgs)
  {
    if !(s.routes && (MemifIpMode(iface) || MemifEthernetMode(iface) || iface.ifType == Tap)) {
      return;
    }
    if st.ipAddresses != [] {
      var nextHop := if MemifIpMode(iface) then "" else s.strip(st.ipAddresses[0]);
      mgr.renderedEntries := mgr.renderedEntries
        + [StaticRoute(node, VrfRoute(s.vrf, RouteDescription(s), st.ipAddresses[0], nextHop, ConnPairName(iface)))];
    }
    if s.loopback != "" {
      if MemifIpMode(iface) {
        mgr.renderedEntries := mgr.renderedEntries + [StaticRoute(pod, VrfRoute(0, "", s.loopback, "", iface.name))];
      } else {
        mgr.renderedEntries := mgr.renderedEntries
          + [StaticRoute(pod, VrfRoute(0, "", "0.0.0.0/0", s.loopback, iface.name))];
      }
    }
    assert mgr.renderedEntries == old(mgr.renderedEntries) + (UpRoute(s, node, iface, st) + DownRoute(s, pod, iface));
  }

  /** Same node, one participant: its pair on the node, then its ARPs and
      routes. `st` is the record the pair returned. */
  method RenderSameNodeInterface(mgr: NetworkServiceMgr, conn: Connection, s: RuleSettings, node: string, pod: string,
                                 iface: Interface, podType: PodType)
    returns (r: PairResult, ghost st: Option<IfStatus>)
    requires mgr.Valid() && s.vrf == conn.vrfId && s.nsName == mgr.nsName
    requires NeedsAddress(s.arps, iface) && mgr.env.provision(Key(iface)).InitOk? ==>
      InitFrom(mgr.interfaces, mgr.env.provision, Key(iface)).status.ipAddresses != []
    modifies mgr, mgr.memifIds
    ensures mgr.Valid()
    ensures r.PairErr? <==> RendersPair(iface.ifType) && mgr.env.provision(Key(iface)).InitErr?
    ensures r.PairErr? ==>
      && r.error == mgr.env.provision(Key(iface)).reason
      && mgr.interfaces == old(mgr.interfaces) - {Key(iface)}
      && mgr.msgs == old(mgr.msgs) + [InitFailedMsg(Key(iface), r.error)]
      && mgr.renderedEntries == old(mgr.renderedEntries)
      && mgr.memifIds.inUse == old(mgr.memifIds.inUse)
    ensures r.PairOk? ==>
      && st == r.status
      && StatusMatches(iface, st, InitFrom(old(mgr.interfaces), mgr.env.provision, Key(iface)))
      && PoolStep(iface, InitFrom(old(mgr.interfaces), mgr.env.provision, Key(iface)), st,
                  old(mgr.memifIds.inUse), mgr.memifIds.inUse)
      && (st.Some? && NeedsAddress(s.arps, iface) ==> st.value.ipAddresses != [])
      && mgr.interfaces == Persist(old(mgr.interfaces), iface, st)
      && mgr.msgs == old(mgr.msgs)
      && mgr.renderedEntries == AfterSameNodeIf(old(mgr.renderedEntries), s, node, pod, iface, podType, st)
  {
    r := mgr.RenderConnInterfacePair(node, conn, iface, podType);
    st := if r.PairOk? then r.status else None;
    if r.PairErr? || r.status.None? {
      return;
    }
    var v := r.status.value;
    RenderSameNodeArps(mgr, s, node, pod, iface, podType, v);
    RenderSameNodeRoutes(mgr, s, node, pod, iface, v);
  }

  /** The state of the same-node loop after the first |statuses|
      participants, started from records `m0` and entries `es0`. */
  ghost predicate SameNodeLoop(mgr: NetworkServiceMgr, s: RuleSettings, node: string, plan: Plan,
                               m0: map<IfKey, IfStatus>, es0: seq<Entry>, msgs0: seq<string>,
                               statuses: seq<Option<IfStatus>>)
    reads mgr
    requires WellFormed(plan)
  {
    SameNodeState(mgr.env.provision, mgr.renderedEntries, mgr.interfaces, mgr.msgs, s, node, plan, m0, es0, msgs0,
                  statuses)
  }

  /** The same-node loop state as values: entries, records and messages
      after the first |statuses| participants. */
  predicate SameNodeState(provision: IfKey -> InitOutcome, entries: seq<Entry>, interfaces: map<IfKey, IfStatus>,
                          msgs: seq<string>, s: RuleSettings, node: string, plan: Plan, m0: map<IfKey, IfStatus>,
                          es0: seq<Entry>, msgs0: seq<string>, statuses: seq<Option<IfStatus>>)
    requires WellFormed(plan)
  {
    && |statuses| <= |plan.ifaces|
    && msgs == msgs0
    && StatusesMatch(provision, m0, plan.ifaces, statuses)
    && PairsOk(provision, plan.ifaces, |statuses|)
    && ArpsAddressed(s.arps, plan.ifaces, statuses)
    && interfaces == PersistAll(m0, plan.ifaces, statuses)
    && entries == AfterSameNode(es0, s, node, plan, statuses)
  }

  /** The same-node loop state advances by one participant whose pair
      returned `st`. */
  lemma SameNodeStateNext(provision: IfKey -> InitOutcome, entries: seq<Entry>, interfaces: map<IfKey, IfStatus>,
                          s: RuleSettings, node: string, plan: Plan, m0: map<IfKey, IfStatus>, es0: seq<Entry>,
                          msgs0: seq<string>, statuses: seq<Option<IfStatus>>, st: Option<IfStatus>)
    requires WellFormed(plan) && |statuses| < |plan.ifaces|
    requires SameNodeState(provision, entries, interfaces, msgs0, s, node, plan, m0, es0, msgs0, statuses)
    requires StatusMatches(plan.ifaces[|statuses|], st, InitFrom(interfaces, provision, Key(plan.ifaces[|statuses|])))
    requires st.Some? && NeedsAddress(s.arps, plan.ifaces[|statuses|]) ==> st.value.ipAddresses != []
    ensures var i := |statuses|;
      SameNodeState(provision,
                    AfterSameNodeIf(entries, s, node, plan.p2nArray[i].pod, plan.ifaces[i], plan.podTypes[i], st),
                    Persist(interfaces, plan.ifaces[i], st), msgs0, s, node, plan, m0, es0, msgs0, statuses + [st])
  {
    PairsOkNext(provision, interfaces, plan.ifaces, |statuses|, st);
    assert (statuses + [st])[..|statuses|] == statuses;
  }


  /** Same node, the next participant of the loop. */
  method RenderSameNodeStep(mgr: NetworkServiceMgr, conn: Connection, s: RuleSettings, plan: Plan, node: string,
                            ghost m0: map<IfKey, IfStatus>, ghost es0: seq<Entry>, ghost msgs0: seq<string>,
                            ghost used0: set<nat>, ghost statuses: seq<Option<IfStatus>>, i: nat)
    returns (r: PairResult, ghost statuses': seq<Option<IfStatus>>)
    requires mgr.Valid() && WellFormed(plan) && i == |statuses| < |plan.ifaces|
    requires s.vrf == conn.vrfId && s.nsName == mgr.nsName
    requires SameNodeAddressed(mgr.env, m0, s.arps, plan.ifaces)
    requires SameNodeLoop(mgr, s, node, plan, m0, es0, msgs0, statuses)
    requires PoolAfter(used0, mgr.env.provision, m0, plan.ifaces, statuses, mgr.memifIds.inUse)
    modifies mgr, mgr.memifIds
    ensures mgr.Valid()
    ensures r.PairErr? ==>
      && FailedAt(mgr.env.provision, plan.ifaces[|statuses|], msgs0, mgr.msgs, Failed(r.error))
      && mgr.interfaces == PersistAll(m0, plan.ifaces, statuses) - {Key(plan.ifaces[|statuses|])}
      && mgr.renderedEntries == AfterSameNode(es0, s, node, plan, statuses)
      && PoolAfter(used0, mgr.env.provision, m0, plan.ifaces, statuses, mgr.memifIds.inUse)
    ensures r.PairOk? ==>
      && |statuses'| == |statuses| + 1 && SameNodeLoop(mgr, s, node, plan, m0, es0, msgs0, statuses')
      && PoolAfter(used0, mgr.env.provision, m0, plan.ifaces, statuses', mgr.memifIds.inUse)
  {
    var iface := plan.ifaces[i];
    var pv := mgr.env.provision;
    if pv(Key(iface)).InitOk? {
      PersistAllKeeps(pv, m0, plan.ifaces, statuses);
      AddressesKeptInit(m0, mgr.interfaces, pv, Key(iface));
    }
    ghost var st;
    ghost var entries, interfaces, used := mgr.renderedEntries, mgr.interfaces, mgr.memifIds.inUse;
    r, st := RenderSameNodeInterface(mgr, conn, s, node, plan.p2nArray[i].pod, iface, plan.podTypes[i]);
    statuses' := statuses + [st];
    if r.PairOk? {
      SameNodeStateNext(pv, entries, interfaces, s, node, plan, m0, es0, msgs0, statuses, st);
      PoolAfterNext(used0, pv, m0, plan.ifaces, statuses, used, st, mgr.memifIds.inUse);
    }
  }

  /** Same node, the participants in order, each paired on the node; the
      first pair whose initialisation fails ends the loop with its error. */
  method RenderSameNodePairs(mgr: NetworkServiceMgr, conn: Connection, s: RuleSettings, plan: Plan, node: string)
    returns (err: Outcome, ghost statuses: seq<Option<IfStatus>>)
    requires mgr.Valid() && WellFormed(plan)
    requires s.vrf == conn.vrfId && s.nsName == mgr.nsName
    requires SameNodeAddressed(mgr.env, mgr.interfaces, s.arps, plan.ifaces)
    modifies mgr, mgr.memifIds
    ensures mgr.Valid()
    ensures |statuses| <= |plan.ifaces|
    ensures StatusesMatch(mgr.env.provision, old(mgr.interfaces), plan.ifaces, statuses)
    ensures PoolAfter(old(mgr.memifIds.inUse), mgr.env.provision, old(mgr.interfaces), plan.ifaces, statuses,
                      mgr.memifIds.inUse)
    ensures ArpsAddressed(s.arps, plan.ifaces, statuses)
    ensures mgr.renderedEntries == AfterSameNode(old(mgr.renderedEntries), s, node, plan, statuses)
    ensures |statuses| < |plan.ifaces| ==>
      && err.Fail? && FailedAt(mgr.env.provision, plan.ifaces[|statuses|], old(mgr.msgs), mgr.msgs, Failed(err.error))
      && mgr.interfaces == PersistAll(old(mgr.interfaces), plan.ifaces, statuses) - {Key(plan.ifaces[|statuses|])}
    ensures |statuses| == |plan.ifaces| ==>
      err == Pass && mgr.msgs == old(mgr.msgs) && mgr.interfaces == PersistAll(old(mgr.interfaces), plan.ifaces, statuses)
  {
    ghost var m0 := mgr.interfaces;
    ghost var es0 := mgr.renderedEntries;
    ghost var msgs0 := mgr.msgs;
    ghost var used0 := mgr.memifIds.inUse;
    statuses := [];
    var i := 0;
    while i < |plan.ifaces|
      invariant i == |statuses| && mgr.Valid()
      invariant SameNodeLoop(mgr, s, node, plan, m0, es0, msgs0, statuses)
      invariant PoolAfter(used0, mgr.env.provision, m0, plan.ifaces, statuses, mgr.memifIds.inUse)
    {
      var r;
      ghost var next;
      r, next := RenderSameNodeStep(mgr, conn, s, plan, node, m0, es0, msgs0, used0, statuses, i);
      if r.PairErr? {
        return Fail(r.error), statuses;
      }
      statuses := next;
      i := i + 1;
    }
    err := Pass;
  }

  /** Same node, the connection's VRF (allocated when it has none) and its
      loopback on the node. */
  method RenderSameNodeVrf(mgr: NetworkServiceMgr, conn: Connection, connIndex: nat, node: string)
    returns (s: RuleSettings)
    requires mgr.Valid()
    modifies mgr, mgr.vrfIds, conn
    ensures mgr.Valid()
    ensures IdSettled(old(conn.vrfId), conn.vrfId, old(mgr.vrfIds.inUse), mgr.vrfIds.inUse)
    ensures s == Settings(mgr.nsName, conn, conn.vrfId, connIndex, mgr.env.stripSubnet)
    ensures mgr.renderedEntries == old(mgr.renderedEntries) + VrfLoopbackEntries(s, node)
    ensures mgr.interfaces == old(mgr.interfaces) && mgr.msgs == old(mgr.msgs)
  {
    if conn.vrfId == 0 {
      var id := mgr.vrfIds.Allocate();
      conn.vrfId := id;
    }
    s := Settings(mgr.nsName, conn, conn.vrfId, connIndex, mgr.env.stripSubnet);
    if conn.loopbackAddress != "" {
      mgr.renderedEntries := mgr.renderedEntries
        + [LoopbackIf(node, "IFLOOP_" + VrfName(s), [conn.loopbackAddress], "", 0, AdminStatusEnabled, "", conn.vrfId)];
    }
  }

  /** `renderConnL3MPSameNode`: all participants are on one node. The
      connection gets a VRF if it has none; when it has a loopback address,
      a VRF loopback is rendered on the node; then each participant is
      paired on the node with its ARPs and routes. A hub-and-spoke vxlan
      overlay takes over with the node as its single spoke. */
  method RenderConnL3MPSameNode(mgr: NetworkServiceMgr, conn: Connection, connIndex: nat, plan: Plan,
                                nno: Option<NetworkNodeOverlay>)
    returns (out: L3mpOutcome, ghost statuses: seq<Option<IfStatus>>)
    requires mgr.Valid() && WellFormed(plan) && |plan.p2nArray| >= 1
    requires SameNodeAddressed(mgr.env, mgr.interfaces, conn.generateStaticArps, plan.ifaces)
    modifies mgr, mgr.memifIds, mgr.vrfIds, conn
    ensures mgr.Valid()
    ensures SameNodeEffect(mgr.nsName, mgr.env, conn, connIndex, plan, nno, old(Snap(mgr, conn)), Snap(mgr, conn),
                           out, statuses)
  {
    var node := plan.p2nArray[0].node;
    var s := RenderSameNodeVrf(mgr, conn, connIndex, node);
    var err;
    err, statuses := RenderSameNodePairs(mgr, conn, s, plan, node);
    if err.Fail? {
      return Failed(err.error), statuses;
    }
    out := SameNodeOverlay(nno, plan, node);
  }

  /** Every record of the inter-node path exists and has an address. */
  predicate AllAddressed(statuses: seq<Option<IfStatus>>)
  {
    statuses == [] ||
    (var k := |statuses| - 1;
     AllAddressed(statuses[..k]) && statuses[k].Some? && statuses[k].value.ipAddresses != [])
  }

  /** The entries `es` followed by what the inter-node path appends for one
      participant: the pair on its node (with its forwarding rules and
      tunnels), then a static ARP on that node for its first address. */
  function AfterInterNodeIf(es: seq<Entry>, s: RuleSettings, node: string, iface: Interface, podType: PodType,
                            st: IfStatus): seq<Entry>
    requires st.ipAddresses != []
  {
    es + TypedPairEntries(node, s.vrf, iface, podType, st) + NoPairEntries(s.nsName, iface)
      + [StaticArp(node, ArpEntry(s.strip(st.ipAddresses[0]), st.macAddress, ConnPairName(iface)))]
  }

  /** The entries `es` followed by what the inter-node path appends for the
      first |statuses| participants, in order. */
  function AfterInterNode(es: seq<Entry>, s: RuleSettings, plan: Plan, statuses: seq<Option<IfStatus>>): seq<Entry>
    requires WellFormed(plan) && |statuses| <= |plan.ifaces| && AllAddressed(statuses)
  {
    if statuses == [] then es
    else
      var k := |statuses| - 1;
      AfterInterNodeIf(AfterInterNode(es, s, plan, statuses[..k]), s, plan.p2nArray[k].node, plan.ifaces[k],
                       plan.podTypes[k], statuses[k].value)
  }

  /** `m` with `x` appended to the list at `key`. */
  function AddMember<T>(m: map<string, seq<T>>, key: string, x: T): map<string, seq<T>>
  {
    m[key := (if key in m then m[key] else []) + [x]]
  }

  /** The bridge-domain member of a participant: its vswitch-side
      interface, not a BVI, in split-horizon group 0. */
  function BridgeMember(iface: Interface): BridgeDomainIf
  {
    BridgeDomainIf(ConnPairName(iface), false, 0)
  }

  /** The per-node bridge-domain members the first `n` participants add. */
  function BridgeDomainMembers(plan: Plan, n: nat): map<string, seq<BridgeDomainIf>>
    requires WellFormed(plan) && n <= |plan.ifaces|
  {
    if n == 0 then map[]
    else AddMember(BridgeDomainMembers(plan, n - 1), plan.p2nArray[n - 1].node, BridgeMember(plan.ifaces[n - 1]))
  }

  /** The VRF route of a participant with an address: to its first address
      (without the subnet) out of its vswitch-side interface. */
  function ParticipantRoute(s: RuleSettings, iface: Interface, st: IfStatus): VrfRoute
    requires st.ipAddresses != []
  {
    VrfRoute(s.vrf, RouteDescription(s), s.strip(st.ipAddresses[0]), "", ConnPairName(iface))
  }

  /** The per-node VRF routes the first |statuses| participants add: one
      per participant whose record has an address. */
  function VrfRoutes(s: RuleSettings, plan: Plan, statuses: seq<Option<IfStatus>>): map<string, seq<VrfRoute>>
    requires WellFormed(plan) && |statuses| <= |plan.ifaces|
  {
    if statuses == [] then map[]
    else
      var k := |statuses| - 1;
      var m := VrfRoutes(s, plan, statuses[..k]);
      if statuses[k].Some? && statuses[k].value.ipAddresses != []
      then AddMember(m, plan.p2nArray[k].node, ParticipantRoute(s, plan.ifaces[k], statuses[k].value))
      else m
  }

  /** The members of the first `n` participants located on `node`, in order. */
  function MembersOn(plan: Plan, n: nat, node: string): seq<BridgeDomainIf>
    requires WellFormed(plan) && n <= |plan.ifaces|
  {
    if n == 0 then []
    else MembersOn(plan, n - 1, node)
           + (if plan.p2nArray[n - 1].node == node then [BridgeMember(plan.ifaces[n - 1])] else [])
  }

  /** The bridge-domain lists are keyed by exactly the nodes of the first `n`
      participants, and each node's list holds the members of the
      participants on that node, in participant order. */
  lemma {:induction false} BridgeDomainMembersByNode(plan: Plan, n: nat)
    requires WellFormed(plan) && n <= |plan.ifaces|
    ensures forall node :: node in BridgeDomainMembers(plan, n) <==> node in NodesOf(plan.p2nArray[..n])
    ensures forall node :: node in BridgeDomainMembers(plan, n) ==> BridgeDomainMembers(plan, n)[node] == MembersOn(plan, n, node)
  {
    if n > 0 {
      BridgeDomainMembersByNode(plan, n - 1);
      var m := BridgeDomainMembers(plan, n - 1);
      var x := plan.p2nArray[n - 1].node;
      assert plan.p2nArray[..n] == plan.p2nArray[..n - 1] + [plan.p2nArray[n - 1]];
      NodesOfAppend(plan.p2nArray[..n - 1], plan.p2nArray[n - 1]);
      assert BridgeDomainMembers(plan, n) == m[x := (if x in m then m[x] else []) + [BridgeMember(plan.ifaces[n - 1])]];
      if x !in m {
        MembersOnAbsent(plan, n - 1, x);
      }
    }
  }

  /** A node none of the first `n` participants is on has no members. */
  lemma {:induction false} MembersOnAbsent(plan: Plan, n: nat, node: string)
    requires WellFormed(plan) && n <= |plan.ifaces|
    requires node !in NodesOf(plan.p2nArray[..n])
    ensures MembersOn(plan, n, node) == []
  {
    if n > 0 {
      assert plan.p2nArray[..n] == plan.p2nArray[..n - 1] + [plan.p2nArray[n - 1]];
      NodesOfAppend(plan.p2nArray[..n - 1], plan.p2nArray[n - 1]);
      MembersOnAbsent(plan, n - 1, node);
    }
  }

  /** The routes of the first |statuses| participants located on `node`, in
      order: one per participant whose record has an address. */
  function RoutesOn(s: RuleSettings, plan: Plan, statuses: seq<Option<IfStatus>>, node: string): seq<VrfRoute>
    requires WellFormed(plan) && |statuses| <= |plan.ifaces|
  {
    if statuses == [] then []
    else
      var k := |statuses| - 1;
      RoutesOn(s, plan, statuses[..k], node)
        + (if plan.p2nArray[k].node == node && statuses[k].Some? && statuses[k].value.ipAddresses != []
           then [ParticipantRoute(s, plan.ifaces[k], statuses[k].value)] else [])
  }

  /** The VRF route lists are keyed by exactly the nodes that have a
      participant with an address, and each node's list holds the routes of
      those participants, in participant order. */
  lemma {:induction false} VrfRoutesByNode(s: RuleSettings, plan: Plan, statuses: seq<Option<IfStatus>>)
    requires WellFormed(plan) && |statuses| <= |plan.ifaces|
    ensures forall node :: node in VrfRoutes(s, plan, statuses) <==> RoutesOn(s, plan, statuses, node) != []
    ensures forall node :: node in VrfRoutes(s, plan, statuses) ==>
      VrfRoutes(s, plan, statuses)[node] == RoutesOn(s, plan, statuses, node)
  {
    if statuses != [] {
      var k := |statuses| - 1;
      VrfRoutesByNode(s, plan, statuses[..k]);
    }
  }

  /** Every participant the inter-node loop reaches is a memif, veth or
      tap, and has an address when its initialisation from `m` succeeds. */
  predicate InterNodeAddressed(env: Env, m: map<IfKey, IfStatus>, ifaces: seq<Interface>)
  {
    forall j :: 0 <= j < |ifaces| && PairsOk(env.provision, ifaces, j) ==>
      && RendersPair(ifaces[j].ifType)
      && (env.provision(Key(ifaces[j])).InitOk? ==> InitFrom(m, env.provision, Key(ifaces[j])).status.ipAddresses != [])
  }

  /** The state of the inter-node loop (entries, records and messages)
      after the first |statuses| participants, started from records `m0`,
      entries `es0` and messages `msgs0`, with the bridge-domain and
      VRF-route lists built so far. */
  ghost predicate InterNodeLoop(provision: IfKey -> InitOutcome, entries: seq<Entry>, interfaces: map<IfKey, IfStatus>,
                                msgs: seq<string>, s: RuleSettings, plan: Plan, m0: map<IfKey, IfStatus>,
                                es0: seq<Entry>, msgs0: seq<string>, statuses: seq<Option<IfStatus>>,
                                l2bd: map<string, seq<BridgeDomainIf>>, l3vrfs: map<string, seq<VrfRoute>>)
    requires WellFormed(plan)
  {
    && |statuses| <= |plan.ifaces|
    && msgs == msgs0
    && StatusesMatch(provision, m0, plan.ifaces, statuses)
    && PairsOk(provision, plan.ifaces, |statuses|)
    && AllAddressed(statuses)
    && interfaces == PersistAll(m0, plan.ifaces, statuses)
    && entries == AfterInterNode(es0, s, plan, statuses)
    && l2bd == BridgeDomainMembers(plan, |statuses|)
    && l3vrfs == VrfRoutes(s, plan, statuses)
  }

  /** The inter-node loop state advances by one participant whose pair
      returned the record `st` with an address. */
  lemma InterNodeLoopNext(provision: IfKey -> InitOutcome, entries: seq<Entry>, interfaces: map<IfKey, IfStatus>,
                          s: RuleSettings, plan: Plan, m0: map<IfKey, IfStatus>, es0: seq<Entry>, msgs0: seq<string>,
                          statuses: seq<Option<IfStatus>>, l2bd: map<string, seq<BridgeDomainIf>>,
                          l3vrfs: map<string, seq<VrfRoute>>, st: IfStatus,
                          l2bd': map<string, seq<BridgeDomainIf>>, l3vrfs': map<string, seq<VrfRoute>>)
    requires WellFormed(plan) && |statuses| < |plan.ifaces|
    requires InterNodeLoop(provision, entries, interfaces, msgs0, s, plan, m0, es0, msgs0, statuses, l2bd, l3vrfs)
    requires StatusMatches(plan.ifaces[|statuses|], Some(st), InitFrom(interfaces, provision, Key(plan.ifaces[|statuses|])))
    requires st.ipAddresses != []
    requires l2bd' == BridgeDomainMembers(plan, |statuses| + 1) && l3vrfs' == VrfRoutes(s, plan, statuses + [Some(st)])
    ensures var i := |statuses|;
      InterNodeLoop(provision,
                    AfterInterNodeIf(entries, s, plan.p2nArray[i].node, plan.ifaces[i], plan.podTypes[i], st),
                    Persist(interfaces, plan.ifaces[i], Some(st)), msgs0, s, plan, m0, es0, msgs0,
                    statuses + [Some(st)], l2bd', l3vrfs')
  {
    var i := |statuses|;
    PersistAllKeeps(provision, m0, plan.ifaces, statuses);
    AddressesKeptInit(m0, interfaces, provision, Key(plan.ifaces[i]));
    PairsOkNext(provision, interfaces, plan.ifaces, i, Some(st));
    assert (statuses + [Some(st)])[..i] == statuses;
  }

  /** Inter-node, one participant: its pair on its node, then a static ARP
      on that node for its first address. `st` is the record the pair
      returned. */
  method RenderInterNodeInterface(mgr: NetworkServiceMgr, conn: Connection, s: RuleSettings, node: string,
                                  iface: Interface, podType: PodType)
    returns (r: PairResult, ghost st: Option<IfStatus>)
    requires mgr.Valid() && s.vrf == conn.vrfId && s.nsName == mgr.nsName && RendersPair(iface.ifType)
    requires mgr.env.provision(Key(iface)).InitOk? ==>
      InitFrom(mgr.interfaces, mgr.env.provision, Key(iface)).status.ipAddresses != []
    modifies mgr, mgr.memifIds
    ensures mgr.Valid()
    ensures r.PairErr? <==> mgr.env.provision(Key(iface)).InitErr?
    ensures r.PairErr? ==>
      && r.error == mgr.env.provision(Key(iface)).reason
      && mgr.interfaces == old(mgr.interfaces) - {Key(iface)}
      && mgr.msgs == old(mgr.msgs) + [InitFailedMsg(Key(iface), r.error)]
      && mgr.renderedEntries == old(mgr.renderedEntries)
      && mgr.memifIds.inUse == old(mgr.memifIds.inUse)
    ensures r.PairOk? ==>
      && r.ifName == ConnPairName(iface) && st == r.status && st.Some? && st.value.ipAddresses != []
      && StatusMatches(iface, st, InitFrom(old(mgr.interfaces), mgr.env.provision, Key(iface)))
      && PoolStep(iface, InitFrom(old(mgr.interfaces), mgr.env.provision, Key(iface)), st,
                  old(mgr.memifIds.inUse), mgr.memifIds.inUse)
      && mgr.interfaces == Persist(old(mgr.interfaces), iface, st)
      && mgr.msgs == old(mgr.msgs)
      && mgr.renderedEntries == AfterInterNodeIf(old(mgr.renderedEntries), s, node, iface, podType, st.value)
  {
    r := mgr.RenderConnInterfacePair(node, conn, iface, podType);
    st := if r.PairOk? then r.status else None;
    if r.PairErr? {
      return;
    }
    var v := r.status.value;
    mgr.renderedEntries := mgr.renderedEntries
      + [StaticArp(node, ArpEntry(s.strip(v.ipAddresses[0]), v.macAddress, r.ifName))];
  }

  /** Inter-node, the next participant of the loop: its pair and ARP, then
      its bridge-domain member and, when it has an address, its VRF route
      for its node. */
  method RenderInterNodeStep(mgr: NetworkServiceMgr, conn: Connection, s: RuleSettings, plan: Plan,
                             ghost m0: map<IfKey, IfStatus>, ghost es0: seq<Entry>, ghost msgs0: seq<string>,
                             ghost used0: set<nat>, ghost statuses: seq<Option<IfStatus>>, i: nat,
                             l2bd: map<string, seq<BridgeDomainIf>>, l3vrfs: map<string, seq<VrfRoute>>)
    returns (r: PairResult, ghost statuses': seq<Option<IfStatus>>,
             l2bd': map<string, seq<BridgeDomainIf>>, l3vrfs': map<string, seq<VrfRoute>>)
    requires mgr.Valid() && WellFormed(plan) && i == |statuses| < |plan.ifaces|
    requires s.vrf == conn.vrfId && s.nsName == mgr.nsName
    requires InterNodeAddressed(mgr.env, m0, plan.ifaces)
    requires InterNodeLoop(mgr.env.provision, mgr.renderedEntries, mgr.interfaces, mgr.msgs, s, plan, m0, es0, msgs0,
                           statuses, l2bd, l3vrfs)
    requires PoolAfter(used0, mgr.env.provision, m0, plan.ifaces, statuses, mgr.memifIds.inUse)
    modifies mgr, mgr.memifIds
    ensures mgr.Valid()
    ensures r.PairErr? ==>
      && FailedAt(mgr.env.provision, plan.ifaces[i], msgs0, mgr.msgs, Failed(r.error))
      && mgr.interfaces == PersistAll(m0, plan.ifaces, statuses) - {Key(plan.ifaces[i])}
      && mgr.renderedEntries == AfterInterNode(es0, s, plan, statuses)
      && PoolAfter(used0, mgr.env.provision, m0, plan.ifaces, statuses, mgr.memifIds.inUse)
    ensures r.PairOk? ==>
      && |statuses'| == i + 1
      && InterNodeLoop(mgr.env.provision, mgr.renderedEntries, mgr.interfaces, mgr.msgs, s, plan, m0, es0, msgs0,
                       statuses', l2bd', l3vrfs')
      && PoolAfter(used0, mgr.env.provision, m0, plan.ifaces, statuses', mgr.memifIds.inUse)
  {
    var iface := plan.ifaces[i];
    var node := plan.p2nArray[i].node;
    var pv := mgr.env.provision;
    if pv(Key(iface)).InitOk? {
      PersistAllKeeps(pv, m0, plan.ifaces, statuses);
      AddressesKeptInit(m0, mgr.interfaces, pv, Key(iface));
    }
    statuses', l2bd', l3vrfs' := statuses, l2bd, l3vrfs;
    ghost var entries, interfaces, used := mgr.renderedEntries, mgr.interfaces, mgr.memifIds.inUse;
    ghost var st;
    r, st := RenderInterNodeInterface(mgr, conn, s, node, iface, plan.podTypes[i]);
    if r.PairErr? {
      return;
    }
    l2bd', l3vrfs' := CollectParticipant(s, plan, statuses, i, r.ifName, r.status.value, l2bd, l3vrfs);
    InterNodeLoopNext(pv, entries, interfaces, s, plan, m0, es0, msgs0, statuses, l2bd, l3vrfs, st.value, l2bd', l3vrfs');
    PoolAfterNext(used0, pv, m0, plan.ifaces, statuses, used, st, mgr.memifIds.inUse);
    statuses' := statuses + [st];
  }

  /** Inter-node, adds participant `i` (vswitch-side interface `ifName`,
      record `v`) to the bridge-domain members of its node and, when it has
      an address, to the VRF routes of its node. */
  method CollectParticipant(s: RuleSettings, plan: Plan, ghost statuses: seq<Option<IfStatus>>, i: nat,
                            ifName: string, v: IfStatus,
                            l2bd: map<string, seq<BridgeDomainIf>>, l3vrfs: map<string, seq<VrfRoute>>)
    returns (l2bd': map<string, seq<BridgeDomainIf>>, l3vrfs': map<string, seq<VrfRoute>>)
    requires WellFormed(plan) && i == |statuses| < |plan.ifaces| && ifName == ConnPairName(plan.ifaces[i])
    requires l2bd == BridgeDomainMembers(plan, i) && l3vrfs == VrfRoutes(s, plan, statuses)
    ensures l2bd' == BridgeDomainMembers(plan, i + 1)
    ensures l3vrfs' == VrfRoutes(s, plan, statuses + [Some(v)])
  {
    var node := plan.p2nArray[i].node;
    l2bd' := AddMember(l2bd, node, BridgeDomainIf(ifName, false, 0));
    l3vrfs' := l3vrfs;
    if v.ipAddresses != [] {
      l3vrfs' := AddMember(l3vrfs, node, VrfRoute(s.vrf, RouteDescription(s), s.strip(v.ipAddresses[0]), "", ifName));
    }
    assert (statuses + [Some(v)])[..i] == statuses;
  }

  /** Inter-node, the participants in order; the first pair whose
      initialisation fails ends the loop with its error. */
  method RenderInterNodePairs(mgr: NetworkServiceMgr, conn: Connection, s: RuleSettings, plan: Plan)
    returns (err: Outcome, ghost statuses: seq<Option<IfStatus>>,
             l2bd: map<string, seq<BridgeDomainIf>>, l3vrfs: map<string, seq<VrfRoute>>)
    requires mgr.Valid() && WellFormed(plan)
    requires s.vrf == conn.vrfId && s.nsName == mgr.nsName
    requires InterNodeAddressed(mgr.env, mgr.interfaces, plan.ifaces)
    modifies mgr, mgr.memifIds
    ensures mgr.Valid()
    ensures |statuses| <= |plan.ifaces|
    ensures StatusesMatch(mgr.env.provision, old(mgr.interfaces), plan.ifaces, statuses)
    ensures PoolAfter(old(mgr.memifIds.inUse), mgr.env.provision, old(mgr.interfaces), plan.ifaces, statuses,
                      mgr.memifIds.inUse)
    ensures AllAddressed(statuses) && PairsOk(mgr.env.provision, plan.ifaces, |statuses|)
    ensures mgr.renderedEntries == AfterInterNode(old(mgr.renderedEntries), s, plan, statuses)
    ensures |statuses| < |plan.ifaces| ==>
      && err.Fail? && FailedAt(mgr.env.provision, plan.ifaces[|statuses|], old(mgr.msgs), mgr.msgs, Failed(err.error))
      && mgr.interfaces == PersistAll(old(mgr.interfaces), plan.ifaces, statuses) - {Key(plan.ifaces[|statuses|])}
    ensures |statuses| == |plan.ifaces| ==>
      && err == Pass && mgr.msgs == old(mgr.msgs)
      && mgr.interfaces == PersistAll(old(mgr.interfaces), plan.ifaces, statuses)
      && l2bd == BridgeDomainMembers(plan, |plan.ifaces|)
      && l3vrfs == VrfRoutes(s, plan, statuses)
  {
    ghost var m0 := mgr.interfaces;
    ghost var es0 := mgr.renderedEntries;
    ghost var msgs0 := mgr.msgs;
    ghost var used0 := mgr.memifIds.inUse;
    statuses := [];
    l2bd := map[];
    l3vrfs := map[];
    var i := 0;
    while i < |plan.ifaces|
      invariant i == |statuses| && mgr.Valid()
      invariant InterNodeLoop(mgr.env.provision, mgr.renderedEntries, mgr.interfaces, mgr.msgs, s, plan, m0, es0,
                              msgs0, statuses, l2bd, l3vrfs)
      invariant PoolAfter(used0, mgr.env.provision, m0, plan.ifaces, statuses, mgr.memifIds.inUse)
    {
      var r;
      ghost var next;
      r, next, l2bd, l3vrfs := RenderInterNodeStep(mgr, conn, s, plan, m0, es0, msgs0, used0, statuses, i, l2bd, l3vrfs);
      if r.PairErr? {
        return Fail(r.error), statuses, l2bd, l3vrfs;
      }
      statuses := next;
      i := i + 1;
    }
    err := Pass;
  }

  /** The message of an overlay whose connection type has no renderer. */
  function TypeNotImplementedMsg(nsName: string, connIndex: nat, overlay: NetworkNodeOverlay): string
  {
    "network-service: " + nsName + ", conn: " + NatToString(ConnNumber(connIndex)) + ", node overlay: "
      + overlay.name + " type not implemented"
  }

  /** The inter-node hand-off: a vxlan mesh takes all nodes with the VRF
      routes and bridge-domain members, a vxlan hub-and-spoke all nodes with
      the bridge-domain members; a vxlan overlay of another mesh type is
      left as it is, and any other connection type is an error. */
  function InterNodeOverlay(nsName: string, connIndex: nat, nno: NetworkNodeOverlay, plan: Plan,
                            l3vrfs: map<string, seq<VrfRoute>>, l2bd: map<string, seq<BridgeDomainIf>>): L3mpOutcome
  {
    if nno.connectionType != Vxlan then Failed(TypeNotImplementedMsg(nsName, connIndex, nno))
    else if nno.serviceMeshType == Mesh then MeshDelegated(nno, plan, plan.nodes, l3vrfs, l2bd)
    else if nno.serviceMeshType == HubAndSpoke then HubAndSpokeDelegated(nno, plan, plan.nodes, l2bd)
    else Rendered
  }

  /** The effect of the inter-node path, from state `b` to state `a`: the
      VRF is left as it is, each participant's pair and ARP are appended in
      order and its record persisted; the render stops at the first pair
      whose initialisation fails. Otherwise the per-node lists go to the
      overlay, and an unsupported overlay is reported. */
  ghost predicate InterNodeEffect(nsName: string, env: Env, conn: Connection, connIndex: nat, plan: Plan,
                                  nno: Option<NetworkNodeOverlay>, b: Snapshot, a: Snapshot, out: L3mpOutcome,
                                  statuses: seq<Option<IfStatus>>)
    requires WellFormed(plan)
  {
    var s := Settings(nsName, conn, b.vrfId, connIndex, env.stripSubnet);
    && a.vrfId == b.vrfId && a.vrfsInUse == b.vrfsInUse
    && |statuses| <= |plan.ifaces|
    && StatusesMatch(env.provision, b.interfaces, plan.ifaces, statuses)
    && PoolAfter(b.memifsInUse, env.provision, b.interfaces, plan.ifaces, statuses, a.memifsInUse)
    && AllAddressed(statuses)
    && a.entries == AfterInterNode(b.entries, s, plan, statuses)
    && (|statuses| < |plan.ifaces| ==>
          && FailedAt(env.provision, plan.ifaces[|statuses|], b.msgs, a.msgs, out)
          && a.interfaces == PersistAll(b.interfaces, plan.ifaces, statuses) - {Key(plan.ifaces[|statuses|])})
    && (|statuses| == |plan.ifaces| ==>
          && a.interfaces == PersistAll(b.interfaces, plan.ifaces, statuses)
          && nno.Some?
          && out == InterNodeOverlay(nsName, connIndex, nno.value, plan, VrfRoutes(s, plan, statuses),
                                     BridgeDomainMembers(plan, |plan.ifaces|))
          && a.msgs == b.msgs + (if out.Failed? then [out.error] else []))
  }

  /** `renderConnL3MPInterNode`: the participants span several nodes. Each
      participant is paired on its own node with a static ARP there, and
      collected into per-node bridge-domain members and VRF routes; the node
      overlay then takes over. The connection's VRF is not allocated. */
  method RenderConnL3MPInterNode(mgr: NetworkServiceMgr, conn: Connection, connIndex: nat, plan: Plan,
                                 nno: Option<NetworkNodeOverlay>)
    returns (out: L3mpOutcome, ghost statuses: seq<Option<IfStatus>>)
    requires mgr.Valid() && WellFormed(plan)
    requires PairsOk(mgr.env.provision, plan.ifaces, |plan.ifaces|) ==> nno.Some?
    requires InterNodeAddressed(mgr.env, mgr.interfaces, plan.ifaces)
    modifies mgr, mgr.memifIds
    ensures mgr.Valid()
    ensures InterNodeEffect(mgr.nsName, mgr.env, conn, connIndex, plan, nno, old(Snap(mgr, conn)),
                            Snap(mgr, conn), out, statuses)
  {
    var s := Settings(mgr.nsName, conn, conn.vrfId, connIndex, mgr.env.stripSubnet);
    var err, l2bd, l3vrfs;
    err, statuses, l2bd, l3vrfs := RenderInterNodePairs(mgr, conn, s, plan);
    if err.Fail? {
      return Failed(err.error), statuses;
    }
    var overlay := nno.value;
    if overlay.connectionType == Vxlan {
      if overlay.serviceMeshType == Mesh {
        out := MeshDelegated(overlay, plan, plan.nodes, l3vrfs, l2bd);
      } else if overlay.serviceMeshType == HubAndSpoke {
        out := HubAndSpokeDelegated(overlay, plan, plan.nodes, l2bd);
      } else {
        out := Rendered;
      }
    } else {
      var msg := TypeNotImplementedMsg(mgr.nsName, connIndex, overlay);
      mgr.msgs := mgr.msgs + [msg];
      out := Failed(msg);
    }
  }
}
