/** Planning: what the difference between desired and observed state calls for
    (internal/reconcile/plan.go and actions.go). */
module ReconcilePlan {
  import opened Wrappers
  import opened Netip
  import opened Domain
  import opened ProxySpec
  import opened ReconcileOrder
  import opened ReconcileWorld

  const UNREACHABLE_REBOOT_AFTER := 60000

  datatype Reason =
    | LinkMissing | AddressMissing | RuleMissing | RouteMissing
    | ProxyExpired | ProxyDisabled | ProxySuspended | SlotHasNoDongle
    | ProxyNotRunning | ProxyNotBound | ProxyProbeFailed

  datatype Action =
    | ApplyGlobal
    | ApplySlot(slot: int, rowId: string, ifName: string, reason: Reason)
    | AddFwDongle(slot: int, rowId: string, ifName: string)
    | SetMaxIdle(slot: int, dongleId: string)
    | ApplyProxy(slot: int, proxyId: string, reason: Reason)
    | StopProxy(slot: int, proxyId: string, reason: Reason)
    | EvictProxy(slot: int, proxyId: string, reason: Reason)
    | MarkExpired(slot: int, proxyId: string)
    | RebootDongle(slot: int, dongleId: string)
    | RecoverRotate(slot: int, proxyId: string, dongleId: string)
  {
    predicate Destructive() { RecoverRotate? || RebootDongle? || EvictProxy? }
  }

  // ---- what a slot's own way out takes, in numbers ----

  predicate LinkUp(net: Net, row: SlotRow) { row.ifName in net.links }

  /** 192.168.(100 + slot).100/24 is on the interface. */
  predicate Addressed(net: Net, row: SlotRow) {
    row.ifName in net.links && exists p :: p in net.links[row.ifName] && IsHostNet(p, row.slot)
  }

  predicate IsHostNet(p: Prefix, s: int) {
    p.bits == 24 && p.addr.V4? && p.addr.a == 192 && p.addr.b == 168 && p.addr.c == 100 + s && p.addr.d == 100
  }

  predicate Ruled(net: Net, row: SlotRow) { 1000 + row.slot in net.rules && 1500 + row.slot in net.rules }

  predicate Routed(net: Net, row: SlotRow) {
    var table := 1000 + row.slot;
    table in net.routes && exists r :: r in net.routes[table] && r.dev == row.ifName && (r.dstBits.None? || r.dstBits == Some(0))
  }

  predicate Ready(net: Net, row: SlotRow) {
    ValidSlot(row.slot) && LinkUp(net, row) && Addressed(net, row) && Ruled(net, row) && Routed(net, row)
  }

  /** The first of these that is missing. */
  predicate Lacks(net: Net, row: SlotRow, reason: Reason) {
    match reason
    case LinkMissing => !LinkUp(net, row)
    case AddressMissing => LinkUp(net, row) && !Addressed(net, row)
    case RuleMissing => LinkUp(net, row) && Addressed(net, row) && !Ruled(net, row)
    case RouteMissing => LinkUp(net, row) && Addressed(net, row) && Ruled(net, row) && !Routed(net, row)
    case _ => false
  }

  // ---- pure decisions ----

  function HostPrefix(s: int): Prefix
    requires ValidSlot(s)
  {
    Prefix(HostIp(s), SUBNET_BITS)
  }

  predicate HasDefaultRoute(net: Net, table: int, dev: string) {
    table in net.routes && exists r :: r in net.routes[table] && r.dev == dev && r.Default()
  }

  /** What keeps a slot's traffic from leaving through its own interface, if anything. */
  function EgressProblem(net: Net, row: SlotRow): Option<Reason>
    requires ValidSlot(row.slot)
  {
    if row.ifName !in net.links then Some(LinkMissing)
    else if HostPrefix(row.slot) !in net.links[row.ifName] then Some(AddressMissing)
    else if RulePrioSrc(row.slot) !in net.rules || RulePrioUid(row.slot) !in net.rules then Some(RuleMissing)
    else if !HasDefaultRoute(net, RouteTable(row.slot), row.ifName) then Some(RouteMissing)
    else None
  }

  lemma EgressMeans(net: Net, row: SlotRow)
    requires ValidSlot(row.slot)
    ensures EgressProblem(net, row).None? <==> Ready(net, row)
    ensures forall reason :: EgressProblem(net, row) == Some(reason) <==> Lacks(net, row, reason)
  {
    assert forall p :: p == HostPrefix(row.slot) <==> IsHostNet(p, row.slot);
    assert Routed(net, row) <==> HasDefaultRoute(net, RouteTable(row.slot), row.ifName);
  }

  function ProxyDrift(st: Status): Option<Reason> {
    if !st.running then Some(ProxyNotRunning)
    else if !st.socksBound || !st.httpBound then Some(ProxyNotBound)
    else if !st.probeOk then Some(ProxyProbeFailed)
    else None
  }

  function PlanNode(w: World): seq<Action> {
    if (w.publicRules > 0 && w.tableNamesOk) || w.Busy(OnNode, w.nodeId) then [] else [ApplyGlobal]
  }

  function PlanProxy(w: World, row: SlotRow, px: Proxy, ready: bool): seq<Action> {
    var st := w.StatusOf(row.slot);
    match px.DesiredState(w.now)
    case Expired => [MarkExpired(row.slot, px.id), EvictProxy(row.slot, px.id, ProxyExpired)]
    case Disabled => if st.running then [StopProxy(row.slot, px.id, ProxyDisabled)] else []
    case Suspended => if st.running then [EvictProxy(row.slot, px.id, ProxySuspended)] else []
    case Active =>
      if !row.Occupied() then (if st.running then [StopProxy(row.slot, px.id, SlotHasNoDongle)] else [])
      else if !ready then []
      else match ProxyDrift(st)
           case Some(reason) => [ApplyProxy(row.slot, px.id, reason)]
           case None => []
  }

  /** An unreachable device is given up on after a minute without an answer. */
  predicate GivenUp(dev: Device, now: int) {
    var since := if dev.observedAt.Some? then dev.observedAt else dev.failingSince;
    since.Some? && now - since.value >= UNREACHABLE_REBOOT_AFTER
  }

  function PlanRecovery(w: World, row: SlotRow, d: Dongle, px: Option<Proxy>, dev: Device): seq<Action> {
    if !d.autoRecover || dev.Locked() || dev.loginNeeded then []
    else if !dev.reachable then
      if GivenUp(dev, w.now) && w.budgets.RebootAllowed(d.id, w.now) then [RebootDongle(row.slot, d.id)] else []
    else if dev.Connected() || px.None? || !px.value.DesiredState(w.now).Active? then []
    else if w.budgets.RotateAllowed(px.value.id, w.now) then [RecoverRotate(row.slot, px.value.id, d.id)] else []
  }

  predicate Blocked(w: World, row: SlotRow, px: Option<Proxy>) {
    || !ValidSlot(row.slot)
    || w.Busy(OnSlot, row.id)
    || (px.Some? && w.Busy(OnProxy, px.value.id))
    || (w.DongleFor(row).Some? && w.Busy(OnDongle, w.DongleFor(row).value.id))
  }

  function NetPart(w: World, row: SlotRow): seq<Action>
    requires ValidSlot(row.slot)
  {
    match EgressProblem(w.net, row)
    case Some(reason) => [ApplySlot(row.slot, row.id, row.ifName, reason)]
    case None => []
  }

  function FwPart(w: World, row: SlotRow): seq<Action> {
    if row.ifName in w.net.links && w.nftPresent && row.ifName !in w.fenced then [AddFwDongle(row.slot, row.id, row.ifName)] else []
  }

  function IdlePart(w: World, row: SlotRow): seq<Action> {
    if w.DongleFor(row).Some? && row.slot in w.devices && w.devices[row.slot].reachable && w.devices[row.slot].maxIdle != MAX_IDLE_DISABLED
    then [SetMaxIdle(row.slot, w.DongleFor(row).value.id)] else []
  }

  function ProxyPart(w: World, row: SlotRow, px: Option<Proxy>): seq<Action>
    requires ValidSlot(row.slot)
  {
    if px.Some? then PlanProxy(w, row, px.value, EgressProblem(w.net, row).None?) else []
  }

  function RecoveryPart(w: World, row: SlotRow, px: Option<Proxy>): seq<Action> {
    if w.DongleFor(row).Some? && row.slot in w.devices
    then PlanRecovery(w, row, w.DongleFor(row).value, px, w.devices[row.slot]) else []
  }

  function PlanSlot(w: World, row: SlotRow, px: Option<Proxy>): seq<Action> {
    if Blocked(w, row, px) then []
    else NetPart(w, row) + FwPart(w, row) + IdlePart(w, row) + ProxyPart(w, row, px) + RecoveryPart(w, row, px)
  }

  predicate Filled(w: World, slots: seq<int>) { forall i :: 0 <= i < |slots| ==> slots[i] in w.slots }

  ghost function PlanSlots(w: World, slots: seq<int>): seq<Action>
    requires Filled(w, slots)
    decreases slots
  {
    if slots == [] then []
    else
      var row := w.slots[slots[0]];
      PlanSlot(w, row, ProxyFor(w.proxies, row.id)) + PlanSlots(w, slots[1..])
  }

  function Harmless(actions: seq<Action>): seq<Action> {
    if actions == [] then []
    else (if actions[0].Destructive() then [] else [actions[0]]) + Harmless(actions[1..])
  }

  /** The plan over the slots in ascending order; during the startup grace without its
      destructive part. The order is a parameter with a single possible value. */
  ghost function PlanOf(w: World, order: seq<int>): seq<Action>
    requires Listing(order, w.slots.Keys)
  {
    assert Filled(w, order) by { forall i | 0 <= i < |order| ensures order[i] in w.slots { assert order[i] in order; } }
    var all := PlanNode(w) + PlanSlots(w, order);
    if w.InStartupGrace() then Harmless(all) else all
  }

  // ---- the planner ----

  method EgressReady(net: Net, row: SlotRow) returns (problem: Option<Reason>)
    requires ValidSlot(row.slot)
    ensures problem.None? <==> LinkUp(net, row) && Addressed(net, row) && Ruled(net, row) && Routed(net, row)
    ensures forall reason :: problem == Some(reason) <==> Lacks(net, row, reason)
    ensures problem == EgressProblem(net, row)
  {
    EgressMeans(net, row);
    hide Addressed, Routed, Ready, Lacks;
    if row.ifName !in net.links {
      return Some(LinkMissing);
    }
    var addrs := net.links[row.ifName];
    var i := 0;
    while i < |addrs| && addrs[i] != HostPrefix(row.slot)
      invariant 0 <= i <= |addrs|
      invariant HostPrefix(row.slot) !in addrs[..i]
    {
      i := i + 1;
    }
    if i == |addrs| {
      assert addrs[..i] == addrs;
      return Some(AddressMissing);
    }
    var src, uid := false, false;
    i := 0;
    while i < |net.rules|
      invariant 0 <= i <= |net.rules|
      invariant src <==> RulePrioSrc(row.slot) in net.rules[..i]
      invariant uid <==> RulePrioUid(row.slot) in net.rules[..i]
    {
      assert net.rules[..i + 1] == net.rules[..i] + [net.rules[i]];
      src := src || net.rules[i] == RulePrioSrc(row.slot);
      uid := uid || net.rules[i] == RulePrioUid(row.slot);
      i := i + 1;
    }
    assert net.rules[..i] == net.rules;
    if !src || !uid {
      return Some(RuleMissing);
    }
    var table := RouteTable(row.slot);
    var routes := if table in net.routes then net.routes[table] else [];
    i := 0;
    while i < |routes|
      invariant 0 <= i <= |routes|
      invariant forall r :: r in routes[..i] ==> r.dev != row.ifName || !r.Default()
    {
      if routes[i].dev == row.ifName && routes[i].Default() {
        return None;
      }
      assert routes[..i + 1] == routes[..i] + [routes[i]];
      i := i + 1;
    }
    assert routes[..i] == routes;
    problem := Some(RouteMissing);
  }

  lemma PartsAre(w: World, row: SlotRow, px: Option<Proxy>)
    requires ValidSlot(row.slot)
    ensures NetPart(w, row) == match EgressProblem(w.net, row) case Some(reason) => [ApplySlot(row.slot, row.id, row.ifName, reason)] case None => []
    ensures FwPart(w, row) == if row.ifName in w.net.links && w.nftPresent && row.ifName !in w.fenced then [AddFwDongle(row.slot, row.id, row.ifName)] else []
    ensures w.DongleFor(row).None? || row.slot !in w.devices ==> IdlePart(w, row) == [] && RecoveryPart(w, row, px) == []
    ensures w.DongleFor(row).Some? && row.slot in w.devices ==>
              var d, dev := w.DongleFor(row).value, w.devices[row.slot];
              && IdlePart(w, row) == (if dev.reachable && dev.maxIdle != MAX_IDLE_DISABLED then [SetMaxIdle(row.slot, d.id)] else [])
              && RecoveryPart(w, row, px) == PlanRecovery(w, row, d, px, dev)
    ensures ProxyPart(w, row, px) == if px.Some? then PlanProxy(w, row, px.value, EgressProblem(w.net, row).None?) else []
  {
    hide EgressProblem, PlanProxy, PlanRecovery;
  }

  method PlanOneSlot(w: World, row: SlotRow, proxies: map<string, Proxy>) returns (out: seq<Action>)
    requires forall sid :: ProxyFor(w.proxies, sid) == if sid in proxies then Some(proxies[sid]) else None
    ensures out == PlanSlot(w, row, ProxyFor(w.proxies, row.id))
  {
    hide EgressProblem, PlanProxy, PlanRecovery, ProxyFor, NetPart, FwPart, IdlePart, ProxyPart, RecoveryPart, World.DongleFor;
    out := [];
    if !ValidSlot(row.slot) || w.Busy(OnSlot, row.id) {
      return;
    }
    var px := if row.id in proxies then Some(proxies[row.id]) else None;
    if px.Some? && w.Busy(OnProxy, px.value.id) {
      return;
    }
    var dongle := w.DongleFor(row);
    if dongle.Some? && w.Busy(OnDongle, dongle.value.id) {
      return;
    }
    PartsAre(w, row, px);
    var problem := EgressReady(w.net, row);
    if problem.Some? {
      out := out + [ApplySlot(row.slot, row.id, row.ifName, problem.value)];
    }
    ghost var net, fw, idle := NetPart(w, row), FwPart(w, row), IdlePart(w, row);
    assert out == net;
    if row.ifName in w.net.links && w.nftPresent && row.ifName !in w.fenced {
      out := out + [AddFwDongle(row.slot, row.id, row.ifName)];
    }
    assert out == net + fw;
    var seen := row.slot in w.devices;
    if dongle.Some? && seen && w.devices[row.slot].reachable && w.devices[row.slot].maxIdle != MAX_IDLE_DISABLED {
      out := out + [SetMaxIdle(row.slot, dongle.value.id)];
    }
    assert out == net + fw + idle;
    if px.Some? {
      out := out + PlanProxy(w, row, px.value, problem.None?);
    }
    assert out == net + fw + idle + ProxyPart(w, row, px);
    if dongle.Some? && seen {
      out := out + PlanRecovery(w, row, dongle.value, px, w.devices[row.slot]);
    }
  }

  method DropDestructive(actions: seq<Action>) returns (out: seq<Action>)
    ensures out == Harmless(actions)
  {
    out := [];
    var i := 0;
    assert actions[0..] == actions;
    while i < |actions|
      invariant 0 <= i <= |actions|
      invariant Harmless(actions) == out + Harmless(actions[i..])
    {
      assert actions[i..][0] == actions[i] && actions[i..][1..] == actions[i + 1..];
      if !actions[i].Destructive() {
        out := out + [actions[i]];
      }
      i := i + 1;
    }
    assert actions[i..] == [];
  }

  lemma {:induction false} PlanSlotsStep(w: World, order: seq<int>, i: nat)
    requires i < |order| && Filled(w, order)
    ensures var row := w.slots[order[i]];
            PlanSlots(w, order[..i + 1]) == PlanSlots(w, order[..i]) + PlanSlot(w, row, ProxyFor(w.proxies, row.id))
    decreases i
  {
    hide PlanSlot, ProxyFor;
    if i == 0 {
      assert order[..1][1..] == [];
    } else {
      PlanSlotsStep(w, order[1..], i - 1);
      assert order[1..][..i - 1] == order[..i][1..] && order[1..][..i] == order[..i + 1][1..];
    }
  }

  /** The plan does not depend on the order in which the maps of slots and proxies are walked. */
  method Plan(w: World) returns (out: seq<Action>, order: seq<int>)
    requires w.Filed()
    ensures Listing(order, w.slots.Keys) && out == PlanOf(w, order)
    ensures forall o :: Listing(o, w.slots.Keys) ==> out == PlanOf(w, o)
  {
    hide ProxyFor, PlanSlot;
    out := PlanNode(w);
    var proxies := ProxiesBySlot(w.proxies);
    order := SortedSlots(w.slots.Keys);
    assert Filled(w, order) by { forall i | 0 <= i < |order| ensures order[i] in w.slots { assert order[i] in order; } }
    var i := 0;
    while i < |order|
      invariant 0 <= i <= |order|
      invariant out == PlanNode(w) + PlanSlots(w, order[..i])
    {
      assert order[i] in w.slots.Keys;
      var more := PlanOneSlot(w, w.slots[order[i]], proxies);
      PlanSlotsStep(w, order, i);
      out := out + more;
      i := i + 1;
    }
    assert order[..i] == order;
    if w.InStartupGrace() {
      out := DropDestructive(out);
    }
    forall o | Listing(o, w.slots.Keys) ensures out == PlanOf(w, o) {
      ListingUnique(order, o, w.slots.Keys);
    }
  }

  lemma {:induction false} HarmlessMembers(actions: seq<Action>)
    ensures forall a :: a in Harmless(actions) <==> a in actions && !a.Destructive()
  {
    if actions != [] {
      HarmlessMembers(actions[1..]);
      assert actions == [actions[0]] + actions[1..];
    }
  }

  /** While the caches are cold or the host has just come up nothing destructive is planned,
      and everything else is. */
  lemma GraceIsHarmless(w: World, order: seq<int>)
    requires Listing(order, w.slots.Keys) && w.InStartupGrace()
    ensures forall a :: a in PlanOf(w, order) <==> a in PlanNode(w) + PlanSlots(w, order) && !a.Destructive()
  {
    HarmlessMembers(PlanNode(w) + PlanSlots(w, order));
  }

  // ---- membership ----

  /** The part of the plan a slot contributes. */
  ghost function Part(w: World, s: int): seq<Action>
    requires s in w.slots
  {
    PlanSlot(w, w.slots[s], ProxyFor(w.proxies, w.slots[s].id))
  }

  lemma {:induction false} InPlanSlots(w: World, slots: seq<int>, a: Action)
    requires Filled(w, slots)
    ensures a in PlanSlots(w, slots) <==> exists s :: s in slots && a in Part(w, s)
    decreases slots
  {
    hide PlanSlot, ProxyFor;
    if slots != [] {
      InPlanSlots(w, slots[1..], a);
      assert slots == [slots[0]] + slots[1..];
      assert slots[0] in slots;
      assert forall s :: s in slots <==> s == slots[0] || s in slots[1..];
    }
  }

  lemma InPlan(w: World, order: seq<int>, a: Action)
    requires Listing(order, w.slots.Keys) && !w.InStartupGrace()
    ensures a in PlanOf(w, order) <==> a in PlanNode(w) || exists s :: s in w.slots && a in Part(w, s)
  {
    hide PlanSlot, ProxyFor, PlanNode;
    assert Filled(w, order) by { forall i | 0 <= i < |order| ensures order[i] in w.slots { assert order[i] in order; } }
    InPlanSlots(w, order, a);
  }

  predicate AllOf(actions: seq<Action>, s: int) { forall a :: a in actions ==> !a.ApplyGlobal? && a.slot == s }

  lemma ProxyActionsOf(w: World, row: SlotRow, px: Proxy, ready: bool)
    ensures AllOf(PlanProxy(w, row, px, ready), row.slot)
  {
  }

  lemma RecoveryActionsOf(w: World, row: SlotRow, d: Dongle, px: Option<Proxy>, dev: Device)
    ensures AllOf(PlanRecovery(w, row, d, px, dev), row.slot)
  {
  }

  lemma OfSlot(w: World, s: int)
    requires w.Filed() && s in w.slots
    ensures AllOf(Part(w, s), s)
  {
    var row := w.slots[s];
    var px := ProxyFor(w.proxies, row.id);
    if !Blocked(w, row, px) {
      assert AllOf(NetPart(w, row) + FwPart(w, row) + IdlePart(w, row), s) by { hide EgressProblem; }
      assert AllOf(ProxyPart(w, row, px), s) by {
        if px.Some? { ProxyActionsOf(w, row, px.value, EgressProblem(w.net, row).None?); }
      }
      assert AllOf(RecoveryPart(w, row, px), s) by {
        if w.DongleFor(row).Some? && row.slot in w.devices {
          RecoveryActionsOf(w, row, w.DongleFor(row).value, px, w.devices[row.slot]);
        }
      }
      hide NetPart, FwPart, IdlePart, ProxyPart, RecoveryPart, Blocked, ProxyFor;
    }
  }
}
