/** Reconciling converges: with every action having the effect its reason names, two sweeps
    are enough and the third plans nothing (internal/reconcile/plan.go, actuator.go). */
module ReconcileConverge {
  import opened Wrappers
  import opened Domain
  import opened ProxySpec
  import opened ReconcileOrder
  import opened ReconcileWorld
  import opened ReconcilePlan

  // ---- what each action is meant to achieve ----

  function Rebooted(b: Budgets, d: string, now: int): Budgets {
    b.(rebootUsed := b.rebootUsed[d := b.Used(d) + 1], lastReboot := b.lastReboot[d := now])
  }

  function Rotated(b: Budgets, p: string, now: int): Budgets { b.(lastRotate := b.lastRotate[p := now]) }

  predicate SameFrame(w: World, v: World) {
    && v.now == w.now && v.slots == w.slots && v.dongles == w.dongles && v.nodeId == w.nodeId
    && v.nftPresent == w.nftPresent && v.activeOps == w.activeOps
    && v.hostBootedAt == w.hostBootedAt && v.processStartedAt == w.processStartedAt
    && v.startupGrace == w.startupGrace && v.cacheWarm == w.cacheWarm
  }

  predicate TookGlobal(w: World, a: Action, v: World) {
    if a.ApplyGlobal? then v.publicRules > 0 && v.tableNamesOk
    else v.publicRules == w.publicRules && v.tableNamesOk == w.tableNamesOk
  }

  /** A network change may help other slots but breaks none. */
  predicate TookNet(w: World, a: Action, v: World) {
    if a.ApplySlot? then
      && (a.slot in w.slots && ValidSlot(w.slots[a.slot].slot) ==> Ready(v.net, w.slots[a.slot]))
      && (forall k :: k in w.slots && Ready(w.net, w.slots[k]) ==> Ready(v.net, w.slots[k]))
    else v.net == w.net
  }

  predicate TookFence(w: World, a: Action, v: World) {
    v.fenced == if a.AddFwDongle? then w.fenced + {a.ifName} else w.fenced
  }

  predicate TookStatus(w: World, a: Action, v: World) {
    if a.ApplyProxy? then
      v.StatusOf(a.slot).running && v.StatusOf(a.slot).Healthy() && v.status == w.status[a.slot := v.StatusOf(a.slot)]
    else if a.StopProxy? || a.EvictProxy? then
      !v.StatusOf(a.slot).running && v.status == w.status[a.slot := v.StatusOf(a.slot)]
    else v.status == w.status
  }

  predicate TookProxies(w: World, a: Action, v: World) {
    if a.MarkExpired? then
      a.proxyId in w.proxies && v.proxies == w.proxies[a.proxyId := w.proxies[a.proxyId].(enabled := false)]
    else v.proxies == w.proxies
  }

  /** A rebooted device may come back in any state, as long as it answers. */
  predicate TookDevice(w: World, a: Action, v: World) {
    if a.SetMaxIdle? then
      a.slot in w.devices && v.devices == w.devices[a.slot := w.devices[a.slot].(maxIdle := MAX_IDLE_DISABLED)]
    else if a.RecoverRotate? then
      a.slot in w.devices && v.devices == w.devices[a.slot := w.devices[a.slot].(conn := ReconcileWorld.CONN_CONNECTED)]
    else if a.RebootDongle? then
      a.slot in v.devices && v.devices[a.slot].reachable && v.devices == w.devices[a.slot := v.devices[a.slot]]
    else v.devices == w.devices
  }

  predicate TookBudget(w: World, a: Action, v: World) {
    v.budgets == if a.RebootDongle? then Rebooted(w.budgets, a.dongleId, w.now)
                 else if a.RecoverRotate? then Rotated(w.budgets, a.proxyId, w.now)
                 else w.budgets
  }

  /** From w to v by one action that did what its reason asks for, and nothing else. */
  predicate Took(w: World, a: Action, v: World) {
    && SameFrame(w, v) && TookGlobal(w, a, v) && TookNet(w, a, v) && TookFence(w, a, v) && TookStatus(w, a, v)
    && TookProxies(w, a, v) && TookDevice(w, a, v) && TookBudget(w, a, v)
  }

  ghost predicate Swept(w: World, actions: seq<Action>, v: World)
    decreases actions
  {
    if actions == [] then w == v else exists m :: Took(w, actions[0], m) && Swept(m, actions[1..], v)
  }

  lemma Unfold(actions: seq<Action>)
    requires actions != []
    ensures forall a :: a in actions <==> a == actions[0] || a in actions[1..]
  {
    assert actions == [actions[0]] + actions[1..];
  }

  // ---- what a sweep leaves behind, field by field ----

  lemma FrameStep(w: World, a: Action, v: World)
    requires Took(w, a, v)
    ensures SameFrame(w, v)
  {
    hide TookGlobal, TookNet, TookFence, TookStatus, TookProxies, TookDevice, TookBudget;
  }

  lemma {:induction false} FrameKept(w: World, actions: seq<Action>, v: World)
    requires Swept(w, actions, v)
    ensures SameFrame(w, v)
    decreases actions
  {
    hide Took;
    if actions != [] {
      var m :| Took(w, actions[0], m) && Swept(m, actions[1..], v);
      FrameStep(w, actions[0], m);
      FrameKept(m, actions[1..], v);
    }
  }

  lemma GlobalStep(w: World, a: Action, v: World)
    requires Took(w, a, v) && (a.ApplyGlobal? || (w.publicRules > 0 && w.tableNamesOk))
    ensures v.publicRules > 0 && v.tableNamesOk
  {
    hide SameFrame, TookNet, TookFence, TookStatus, TookProxies, TookDevice, TookBudget;
  }

  lemma {:induction false} GlobalAfter(w: World, actions: seq<Action>, v: World)
    requires Swept(w, actions, v)
    requires ApplyGlobal in actions || (w.publicRules > 0 && w.tableNamesOk)
    ensures v.publicRules > 0 && v.tableNamesOk
    decreases actions
  {
    hide Took;
    if actions != [] {
      var m :| Took(w, actions[0], m) && Swept(m, actions[1..], v);
      Unfold(actions);
      if actions[0].ApplyGlobal? || (w.publicRules > 0 && w.tableNamesOk) {
        GlobalStep(w, actions[0], m);
      }
      GlobalAfter(m, actions[1..], v);
    }
  }

  lemma NetStep(w: World, a: Action, v: World, s: int)
    requires Took(w, a, v) && s in w.slots && ValidSlot(w.slots[s].slot)
    ensures v.slots == w.slots
    ensures Ready(w.net, w.slots[s]) || (a.ApplySlot? && a.slot == s) ==> Ready(v.net, w.slots[s])
  {
    hide TookGlobal, TookFence, TookStatus, TookProxies, TookDevice, TookBudget, Ready;
  }

  lemma {:induction false} ReadyAfter(w: World, actions: seq<Action>, v: World, s: int)
    requires Swept(w, actions, v) && s in w.slots && ValidSlot(w.slots[s].slot)
    requires Ready(w.net, w.slots[s]) || exists a :: a in actions && a.ApplySlot? && a.slot == s
    ensures Ready(v.net, w.slots[s])
    decreases actions
  {
    hide Took, Ready;
    if actions != [] {
      var m :| Took(w, actions[0], m) && Swept(m, actions[1..], v);
      Unfold(actions);
      NetStep(w, actions[0], m, s);
      ReadyAfter(m, actions[1..], v, s);
    }
  }

  lemma NetKeptStep(w: World, a: Action, v: World)
    requires Took(w, a, v) && !a.ApplySlot?
    ensures v.net == w.net
  {
    hide SameFrame, TookGlobal, TookFence, TookStatus, TookProxies, TookDevice, TookBudget, Ready;
  }

  lemma {:induction false} NetKept(w: World, actions: seq<Action>, v: World)
    requires Swept(w, actions, v) && forall a :: a in actions ==> !a.ApplySlot?
    ensures v.net == w.net
    decreases actions
  {
    hide Took;
    if actions != [] {
      var m :| Took(w, actions[0], m) && Swept(m, actions[1..], v);
      assert actions[0] in actions;
      NetKeptStep(w, actions[0], m);
      NetKept(m, actions[1..], v);
    }
  }

  lemma FencedStep(w: World, a: Action, v: World)
    requires Took(w, a, v)
    ensures w.fenced <= v.fenced && (a.AddFwDongle? ==> a.ifName in v.fenced)
  {
    hide SameFrame, TookGlobal, TookNet, TookStatus, TookProxies, TookDevice, TookBudget;
  }

  lemma {:induction false} FencedAfter(w: World, actions: seq<Action>, v: World)
    requires Swept(w, actions, v)
    ensures w.fenced <= v.fenced
    ensures forall a :: a in actions && a.AddFwDongle? ==> a.ifName in v.fenced
    decreases actions
  {
    hide Took;
    if actions != [] {
      var m :| Took(w, actions[0], m) && Swept(m, actions[1..], v);
      Unfold(actions);
      FencedStep(w, actions[0], m);
      FencedAfter(m, actions[1..], v);
    }
  }

  predicate Reboots(actions: seq<Action>, s: int) { exists a :: a in actions && a.RebootDongle? && a.slot == s }

  predicate Idles(actions: seq<Action>, s: int) { exists a :: a in actions && a.SetMaxIdle? && a.slot == s }

  predicate Rotates(actions: seq<Action>, s: int) { exists a :: a in actions && a.RecoverRotate? && a.slot == s }

  lemma RebootStep(w: World, a: Action, v: World, s: int)
    requires Took(w, a, v)
    requires (a.RebootDongle? && a.slot == s) || (s in w.devices && w.devices[s].reachable)
    ensures s in v.devices && v.devices[s].reachable
  {
    hide SameFrame, TookGlobal, TookNet, TookFence, TookStatus, TookProxies, TookBudget;
  }

  lemma {:induction false} RebootedAfter(w: World, actions: seq<Action>, v: World, s: int)
    requires Swept(w, actions, v)
    requires Reboots(actions, s) || (s in w.devices && w.devices[s].reachable)
    ensures s in v.devices && v.devices[s].reachable
    decreases actions
  {
    hide Took;
    if actions != [] {
      var m :| Took(w, actions[0], m) && Swept(m, actions[1..], v);
      Unfold(actions);
      if (actions[0].RebootDongle? && actions[0].slot == s) || (s in w.devices && w.devices[s].reachable) {
        RebootStep(w, actions[0], m, s);
      }
      RebootedAfter(m, actions[1..], v, s);
    }
  }

  lemma DeviceStep(w: World, a: Action, v: World, s: int)
    requires Took(w, a, v) && !(a.RebootDongle? && a.slot == s)
    ensures s in v.devices <==> s in w.devices
    ensures s in w.devices ==>
              v.devices[s] == w.devices[s].(maxIdle := if a.SetMaxIdle? && a.slot == s then MAX_IDLE_DISABLED else w.devices[s].maxIdle,
                                            conn := if a.RecoverRotate? && a.slot == s then ReconcileWorld.CONN_CONNECTED else w.devices[s].conn)
  {
    hide SameFrame, TookGlobal, TookNet, TookFence, TookStatus, TookProxies, TookBudget;
  }

  /** Without a reboot a device changes only in its idle time and its connection. */
  lemma {:induction false} DeviceAfter(w: World, actions: seq<Action>, v: World, s: int)
    requires Swept(w, actions, v) && !Reboots(actions, s)
    ensures s in v.devices <==> s in w.devices
    ensures s in w.devices ==>
              v.devices[s] == w.devices[s].(maxIdle := if Idles(actions, s) then MAX_IDLE_DISABLED else w.devices[s].maxIdle,
                                            conn := if Rotates(actions, s) then ReconcileWorld.CONN_CONNECTED else w.devices[s].conn)
    decreases actions
  {
    hide Took;
    if actions != [] {
      var m :| Took(w, actions[0], m) && Swept(m, actions[1..], v);
      Unfold(actions);
      DeviceStep(w, actions[0], m, s);
      DeviceAfter(m, actions[1..], v, s);
    }
  }

  predicate Applies(actions: seq<Action>, s: int) { exists a :: a in actions && a.ApplyProxy? && a.slot == s }

  predicate Halts(actions: seq<Action>, s: int) { exists a :: a in actions && (a.StopProxy? || a.EvictProxy?) && a.slot == s }

  lemma StatusStep(w: World, a: Action, v: World, s: int)
    requires Took(w, a, v)
    ensures if a.ApplyProxy? && a.slot == s then v.StatusOf(s).running && v.StatusOf(s).Healthy()
            else if (a.StopProxy? || a.EvictProxy?) && a.slot == s then !v.StatusOf(s).running
            else v.StatusOf(s) == w.StatusOf(s)
  {
    hide SameFrame, TookGlobal, TookNet, TookFence, TookProxies, TookDevice, TookBudget;
  }

  lemma {:induction false} StatusAfter(w: World, actions: seq<Action>, v: World, s: int)
    requires Swept(w, actions, v)
    ensures !Applies(actions, s) && !Halts(actions, s) ==> v.StatusOf(s) == w.StatusOf(s)
    ensures !Applies(actions, s) && (Halts(actions, s) || !w.StatusOf(s).running) ==> !v.StatusOf(s).running
    ensures !Halts(actions, s) && (Applies(actions, s) || (w.StatusOf(s).running && w.StatusOf(s).Healthy())) ==>
              v.StatusOf(s).running && v.StatusOf(s).Healthy()
    decreases actions
  {
    hide Took;
    if actions != [] {
      var m :| Took(w, actions[0], m) && Swept(m, actions[1..], v);
      Unfold(actions);
      StatusStep(w, actions[0], m, s);
      StatusAfter(m, actions[1..], v, s);
    }
  }

  predicate Expires(actions: seq<Action>, p: string) { exists a :: a in actions && a.MarkExpired? && a.proxyId == p }

  lemma ProxiesStep(w: World, a: Action, v: World)
    requires Took(w, a, v)
    ensures v.proxies.Keys == w.proxies.Keys
    ensures forall p :: p in w.proxies ==>
              v.proxies[p] == w.proxies[p].(enabled := w.proxies[p].enabled && !(a.MarkExpired? && a.proxyId == p))
  {
    hide SameFrame, TookGlobal, TookNet, TookFence, TookStatus, TookDevice, TookBudget;
  }

  lemma {:induction false} ProxiesAfter(w: World, actions: seq<Action>, v: World)
    requires Swept(w, actions, v)
    ensures v.proxies.Keys == w.proxies.Keys
    ensures forall p :: p in w.proxies ==> v.proxies[p] == w.proxies[p].(enabled := w.proxies[p].enabled && !Expires(actions, p))
    decreases actions
  {
    hide Took;
    if actions != [] {
      var m :| Took(w, actions[0], m) && Swept(m, actions[1..], v);
      Unfold(actions);
      ProxiesStep(w, actions[0], m);
      ProxiesAfter(m, actions[1..], v);
    }
  }

  lemma BudgetsStep(w: World, a: Action, v: World, d: string, p: string)
    requires Took(w, a, v)
    ensures (a.RebootDongle? && a.dongleId == d) || (v.budgets.RebootAllowed(d, v.now) <==> w.budgets.RebootAllowed(d, w.now))
    ensures (a.RecoverRotate? && a.proxyId == p) || (v.budgets.RotateAllowed(p, v.now) <==> w.budgets.RotateAllowed(p, w.now))
  {
    hide TookGlobal, TookNet, TookFence, TookStatus, TookProxies, TookDevice;
  }

  lemma {:induction false} BudgetsAfter(w: World, actions: seq<Action>, v: World, d: string, p: string)
    requires Swept(w, actions, v)
    ensures (forall a :: a in actions && a.RebootDongle? ==> a.dongleId != d) ==>
              (v.budgets.RebootAllowed(d, v.now) <==> w.budgets.RebootAllowed(d, w.now))
    ensures (forall a :: a in actions && a.RecoverRotate? ==> a.proxyId != p) ==>
              (v.budgets.RotateAllowed(p, v.now) <==> w.budgets.RotateAllowed(p, w.now))
    decreases actions
  {
    hide Took;
    if actions != [] {
      var m :| Took(w, actions[0], m) && Swept(m, actions[1..], v);
      Unfold(actions);
      BudgetsStep(w, actions[0], m, d, p);
      BudgetsAfter(m, actions[1..], v, d, p);
    }
  }

  // ---- reading a plan ----

  /** No live operation, past the startup grace, rows filed as they are loaded. */
  predicate Quiet(w: World) { w.Filed() && w.activeOps == {} && !w.InStartupGrace() }

  ghost function PxOf(w: World, s: int): Option<Proxy>
    requires s in w.slots
  {
    ProxyFor(w.proxies, w.slots[s].id)
  }

  lemma PartIs(w: World, s: int)
    requires Quiet(w) && s in w.slots
    ensures !ValidSlot(s) ==> Part(w, s) == []
    ensures ValidSlot(s) ==>
              var row := w.slots[s];
              Part(w, s) == NetPart(w, row) + FwPart(w, row) + IdlePart(w, row) + ProxyPart(w, row, PxOf(w, s)) + RecoveryPart(w, row, PxOf(w, s))
  {
    hide NetPart, FwPart, IdlePart, ProxyPart, RecoveryPart, ProxyFor;
  }

  lemma InPart(w: World, order: seq<int>, s: int, a: Action)
    requires Quiet(w) && Listing(order, w.slots.Keys) && s in w.slots && ValidSlot(s)
    requires var row := w.slots[s];
             a in NetPart(w, row) || a in FwPart(w, row) || a in IdlePart(w, row) || a in ProxyPart(w, row, PxOf(w, s)) || a in RecoveryPart(w, row, PxOf(w, s))
    ensures a in PlanOf(w, order)
  {
    hide NetPart, FwPart, IdlePart, ProxyPart, RecoveryPart, ProxyFor, PlanSlot, PlanOf, Listing, EgressProblem;
    PartIs(w, s);
    InPlan(w, order, a);
    assert a in Part(w, s);
  }

  /** Proxies that were only switched off are still the same choice for each slot. */
  lemma SameChoice(p: map<string, Proxy>, q: map<string, Proxy>, sid: string)
    requires p.Keys == q.Keys && forall k :: k in p ==> p[k].id == k && q[k].slotId == p[k].slotId
    ensures ProxyFor(p, sid).None? ==> ProxyFor(q, sid).None?
    ensures ProxyFor(p, sid).Some? ==>
              var k := ProxyFor(p, sid).value.id;
              k in q && ProxyFor(p, sid) == Some(p[k]) && ProxyFor(q, sid) == Some(q[k])
  {
    hide LexLe;
    forall k ensures Chosen(p, sid, k) <==> Chosen(q, sid, k) {
    }
    if k :| Chosen(p, sid, k) {
      ChosenIsProxyFor(p, sid, k);
      ChosenIsProxyFor(q, sid, k);
    }
  }

  lemma QuietKept(w: World, actions: seq<Action>, v: World)
    requires Quiet(w) && Swept(w, actions, v)
    ensures Quiet(v) && SameFrame(w, v)
  {
    FrameKept(w, actions, v);
    ProxiesAfter(w, actions, v);
  }

  // ---- the first sweep ----

  predicate Early(a: Action) { a.ApplyGlobal? || a.ApplySlot? || a.RebootDongle? }

  lemma NetSettles(w: World, order: seq<int>, v: World, s: int)
    requires Quiet(w) && Listing(order, w.slots.Keys) && Swept(w, PlanOf(w, order), v)
    requires s in w.slots && ValidSlot(s)
    ensures EgressProblem(v.net, w.slots[s]).None?
  {
    hide Ready, EgressProblem, Lacks;
    var row := w.slots[s];
    EgressMeans(w.net, row);
    EgressMeans(v.net, row);
    if EgressProblem(w.net, row).Some? {
      var a := ApplySlot(row.slot, row.id, row.ifName, EgressProblem(w.net, row).value);
      InPart(w, order, s, a);
    }
    ReadyAfter(w, PlanOf(w, order), v, s);
  }

  lemma NodeSettles(w: World, order: seq<int>, v: World)
    requires Quiet(w) && Listing(order, w.slots.Keys) && Swept(w, PlanOf(w, order), v)
    ensures PlanNode(v) == []
  {
    hide PlanSlot, ProxyFor;
    InPlan(w, order, ApplyGlobal);
    GlobalAfter(w, PlanOf(w, order), v);
  }

  predicate WantsReboot(w: World, s: int)
    requires s in w.slots
  {
    var d := w.DongleFor(w.slots[s]);
    && d.Some? && d.value.autoRecover && s in w.devices
    && !w.devices[s].reachable && !w.devices[s].Locked() && !w.devices[s].loginNeeded
    && GivenUp(w.devices[s], w.now) && w.budgets.RebootAllowed(d.value.id, w.now)
  }

  /** A reboot is planned for a slot exactly when it is wanted, and for the slot's dongle. */
  lemma RebootPlanned(w: World, s: int)
    requires Quiet(w) && s in w.slots && ValidSlot(s)
    ensures WantsReboot(w, s) ==> RebootDongle(s, w.DongleFor(w.slots[s]).value.id) in RecoveryPart(w, w.slots[s], PxOf(w, s))
    ensures forall a :: a in Part(w, s) && a.RebootDongle? ==> WantsReboot(w, s) && w.budgets.RebootAllowed(a.dongleId, w.now)
  {
    PartIs(w, s);
    NoRebootElsewhere(w, w.slots[s], PxOf(w, s));
    hide NetPart, FwPart, IdlePart, ProxyPart, ProxyFor, EgressProblem, Budgets.RebootAllowed, Budgets.RotateAllowed, GivenUp;
  }

  lemma NoRebootElsewhere(w: World, row: SlotRow, px: Option<Proxy>)
    requires ValidSlot(row.slot)
    ensures forall a :: a in NetPart(w, row) + FwPart(w, row) + IdlePart(w, row) + ProxyPart(w, row, px) ==> !a.RebootDongle?
    ensures forall a :: a in FwPart(w, row) + IdlePart(w, row) + ProxyPart(w, row, px) + RecoveryPart(w, row, px) ==> !a.ApplySlot?
  {
    hide EgressProblem, Budgets.RebootAllowed, Budgets.RotateAllowed, GivenUp;
  }

  /** A device that does not answer after the sweep did not before, and was not rebooted. */
  lemma SilentBefore(w: World, order: seq<int>, v: World, s: int)
    requires Quiet(w) && Listing(order, w.slots.Keys) && Swept(w, PlanOf(w, order), v)
    requires s in v.devices && !v.devices[s].reachable
    ensures !Reboots(PlanOf(w, order), s) && s in w.devices && !w.devices[s].reachable
    ensures w.devices[s].sim == v.devices[s].sim && w.devices[s].loginNeeded == v.devices[s].loginNeeded
    ensures w.devices[s].observedAt == v.devices[s].observedAt && w.devices[s].failingSince == v.devices[s].failingSince
  {
    hide PlanOf, Listing, Swept, Quiet;
    var plan := PlanOf(w, order);
    if Reboots(plan, s) || (s in w.devices && w.devices[s].reachable) {
      RebootedAfter(w, plan, v, s);
    }
    DeviceAfter(w, plan, v, s);
  }

  /** A reboot allowed after the sweep was allowed before. */
  lemma AllowedBefore(w: World, order: seq<int>, v: World, d: string)
    requires Quiet(w) && Listing(order, w.slots.Keys) && Swept(w, PlanOf(w, order), v)
    requires v.budgets.RebootAllowed(d, v.now)
    ensures w.budgets.RebootAllowed(d, w.now)
  {
    hide PlanOf, Listing, Swept, Quiet, Budgets.RebootAllowed, Budgets.RotateAllowed;
    var plan := PlanOf(w, order);
    if a :| a in plan && a.RebootDongle? && a.dongleId == d {
      RebootAllowedBefore(w, order, a);
    } else {
      BudgetsAfter(w, plan, v, d, "");
    }
  }

  lemma RebootsSettle(w: World, order: seq<int>, v: World, s: int)
    requires Quiet(w) && Listing(order, w.slots.Keys) && Swept(w, PlanOf(w, order), v)
    requires s in w.slots && ValidSlot(s)
    ensures v.slots == w.slots && !WantsReboot(v, s)
  {
    hide PlanOf, Listing, Swept, Budgets.RebootAllowed, ProxyFor, RecoveryPart, Part;
    QuietKept(w, PlanOf(w, order), v);
    if WantsReboot(v, s) {
      var d := v.DongleFor(v.slots[s]).value.id;
      SilentBefore(w, order, v, s);
      AllowedBefore(w, order, v, d);
      assert WantsReboot(w, s);
      RebootPlanned(w, s);
      InPart(w, order, s, RebootDongle(s, d));
    }
  }

  lemma RebootAllowedBefore(w: World, order: seq<int>, a: Action)
    requires Quiet(w) && Listing(order, w.slots.Keys) && a in PlanOf(w, order) && a.RebootDongle?
    ensures w.budgets.RebootAllowed(a.dongleId, w.now)
  {
    InPlan(w, order, a);
    assert a !in PlanNode(w);
    var s :| s in w.slots && a in Part(w, s);
    PartIs(w, s);
    RebootPlanned(w, s);
  }

  /** After one sweep neither routing nor a reboot is called for any more. */
  lemma FirstSweep(w: World, order: seq<int>, v: World)
    requires Quiet(w) && Listing(order, w.slots.Keys) && Swept(w, PlanOf(w, order), v)
    ensures Quiet(v) && v.slots == w.slots
    ensures forall a :: a in PlanOf(v, order) ==> !Early(a)
  {
    hide EgressProblem, PlanProxy, PlanRecovery, ProxyPart, RecoveryPart, FwPart, IdlePart, Ready;
    QuietKept(w, PlanOf(w, order), v);
    NodeSettles(w, order, v);
    forall a | a in PlanOf(v, order) ensures !Early(a) {
      InPlan(v, order, a);
      var s :| s in v.slots && a in Part(v, s);
      PartIs(v, s);
      NetSettles(w, order, v, s);
      RebootsSettle(w, order, v, s);
      RebootPlanned(v, s);
      NoRebootElsewhere(v, v.slots[s], PxOf(v, s));
      OfSlot(v, s);
      assert NetPart(v, v.slots[s]) == [];
    }
  }

  // ---- the second sweep ----

  lemma NetStill(w: World, order: seq<int>, v: World, s: int)
    requires Quiet(w) && Listing(order, w.slots.Keys) && Swept(w, PlanOf(w, order), v)
    requires forall a :: a in PlanOf(w, order) ==> !Early(a)
    requires s in w.slots && ValidSlot(s)
    ensures v.net == w.net && v.slots == w.slots && EgressProblem(w.net, w.slots[s]).None?
    ensures NetPart(v, v.slots[s]) == []
  {
    var row := w.slots[s];
    FrameKept(w, PlanOf(w, order), v);
    NetKept(w, PlanOf(w, order), v);
    if EgressProblem(w.net, row).Some? {
      InPart(w, order, s, ApplySlot(row.slot, row.id, row.ifName, EgressProblem(w.net, row).value));
    }
  }

  lemma FwStill(w: World, order: seq<int>, v: World, s: int)
    requires Quiet(w) && Listing(order, w.slots.Keys) && Swept(w, PlanOf(w, order), v)
    requires s in w.slots && ValidSlot(s) && v.net == w.net
    ensures v.slots == w.slots && FwPart(v, v.slots[s]) == []
  {
    var row := w.slots[s];
    FrameKept(w, PlanOf(w, order), v);
    FencedAfter(w, PlanOf(w, order), v);
    if FwPart(w, row) != [] {
      InPart(w, order, s, AddFwDongle(row.slot, row.id, row.ifName));
    }
  }

  lemma NoReboots(w: World, order: seq<int>, s: int)
    requires Listing(order, w.slots.Keys)
    requires forall a :: a in PlanOf(w, order) ==> !Early(a)
    ensures !Reboots(PlanOf(w, order), s)
  {
  }

  lemma IdleStill(w: World, order: seq<int>, v: World, s: int)
    requires Quiet(w) && Listing(order, w.slots.Keys) && Swept(w, PlanOf(w, order), v)
    requires forall a :: a in PlanOf(w, order) ==> !Early(a)
    requires s in w.slots && ValidSlot(s)
    ensures v.slots == w.slots && IdlePart(v, v.slots[s]) == []
  {
    var row, plan := w.slots[s], PlanOf(w, order);
    FrameKept(w, plan, v);
    NoReboots(w, order, s);
    DeviceAfter(w, plan, v, s);
    if IdlePart(w, row) != [] {
      var a := SetMaxIdle(row.slot, w.DongleFor(row).value.id);
      InPart(w, order, s, a);
      assert Idles(plan, s);
    }
  }

  /** A status action of the plan belongs to its own slot's part. */
  lemma StatusActions(w: World, order: seq<int>, s: int)
    requires Quiet(w) && Listing(order, w.slots.Keys) && s in w.slots && ValidSlot(s)
    ensures Applies(PlanOf(w, order), s) <==> Applies(ProxyPart(w, w.slots[s], PxOf(w, s)), s)
    ensures Halts(PlanOf(w, order), s) <==> Halts(ProxyPart(w, w.slots[s], PxOf(w, s)), s)
  {
    hide PlanProxy, ProxyPart, PlanOf, Listing, ProxyFor;
    var plan, part := PlanOf(w, order), ProxyPart(w, w.slots[s], PxOf(w, s));
    forall a | a in part ensures a in plan {
      InPart(w, order, s, a);
    }
    forall a | a in plan && (a.ApplyProxy? || a.StopProxy? || a.EvictProxy?) && a.slot == s ensures a in part {
      StatusFromPart(w, order, s, a);
    }
  }

  lemma StatusFromPart(w: World, order: seq<int>, s: int, a: Action)
    requires Quiet(w) && Listing(order, w.slots.Keys) && s in w.slots && ValidSlot(s)
    requires a in PlanOf(w, order) && (a.ApplyProxy? || a.StopProxy? || a.EvictProxy?) && a.slot == s
    ensures a in ProxyPart(w, w.slots[s], PxOf(w, s))
  {
    hide PlanProxy, ProxyPart, PlanOf, Listing, ProxyFor, PlanSlot, EgressProblem, Budgets.RebootAllowed, Budgets.RotateAllowed, GivenUp;
    InPlan(w, order, a);
    var k :| k in w.slots && a in Part(w, k);
    OfSlot(w, k);
    PartIs(w, s);
  }

  lemma ExpiredBefore(w: World, order: seq<int>, a: Action)
    requires Quiet(w) && Listing(order, w.slots.Keys) && a in PlanOf(w, order) && a.MarkExpired?
    ensures a.proxyId in w.proxies && w.proxies[a.proxyId].DesiredState(w.now).Expired?
  {
    InPlan(w, order, a);
    assert a !in PlanNode(w);
    var s :| s in w.slots && a in Part(w, s);
    PartIs(w, s);
    SameChoice(w.proxies, w.proxies, w.slots[s].id);
    ExpiryPlanned(w, w.slots[s], PxOf(w, s));
    hide ProxyFor, NetPart, FwPart, IdlePart, ProxyPart, RecoveryPart, PlanOf, Listing;
  }

  lemma ExpiryPlanned(w: World, row: SlotRow, px: Option<Proxy>)
    requires ValidSlot(row.slot)
    ensures forall a :: a in NetPart(w, row) + FwPart(w, row) + IdlePart(w, row) + RecoveryPart(w, row, px) ==> !a.MarkExpired?
    ensures forall a :: a in ProxyPart(w, row, px) && a.MarkExpired? ==>
              px.Some? && a.proxyId == px.value.id && px.value.DesiredState(w.now).Expired?
  {
    if px.Some? {
      ProxyExpiry(w, row, px.value, EgressProblem(w.net, row).None?);
    }
    if w.DongleFor(row).Some? && row.slot in w.devices {
      RecoveryExpiry(w, row, w.DongleFor(row).value, px, w.devices[row.slot]);
    }
    hide EgressProblem, PlanProxy, PlanRecovery, Proxy.DesiredState;
  }

  lemma ProxyExpiry(w: World, row: SlotRow, px: Proxy, ready: bool)
    ensures forall a :: a in PlanProxy(w, row, px, ready) && a.MarkExpired? ==>
              a.proxyId == px.id && px.DesiredState(w.now).Expired?
  {
  }

  lemma RecoveryExpiry(w: World, row: SlotRow, d: Dongle, px: Option<Proxy>, dev: Device)
    ensures forall a :: a in PlanRecovery(w, row, d, px, dev) ==> !a.MarkExpired?
  {
  }

  /** The proxy of a slot after a sweep: the same one, switched off if it had expired. */
  lemma PxAfter(w: World, order: seq<int>, v: World, s: int)
    requires Quiet(w) && Listing(order, w.slots.Keys) && Swept(w, PlanOf(w, order), v)
    requires s in w.slots && ValidSlot(s)
    ensures v.slots == w.slots && v.now == w.now
    ensures PxOf(v, s).Some? <==> PxOf(w, s).Some?
    ensures PxOf(w, s).Some? ==>
              var x, y := PxOf(w, s).value, PxOf(v, s).value;
              && y.id == x.id && !y.DesiredState(v.now).Expired?
              && (if x.DesiredState(w.now).Expired? then y.DesiredState(v.now).Disabled? else y == x)
  {
    hide PlanOf, Listing, ProxyFor, EgressProblem, Swept, NetPart, FwPart, IdlePart, RecoveryPart;
    var plan := PlanOf(w, order);
    FrameKept(w, plan, v);
    ProxiesAfter(w, plan, v);
    SameChoice(w.proxies, v.proxies, w.slots[s].id);
    if PxOf(w, s).Some? && PxOf(w, s).value.DesiredState(w.now).Expired? {
      var x := PxOf(w, s).value;
      InPart(w, order, s, MarkExpired(s, x.id));
      assert Expires(plan, x.id);
    }
    forall a | a in plan && a.MarkExpired? ensures a.proxyId in w.proxies && w.proxies[a.proxyId].DesiredState(w.now).Expired? {
      ExpiredBefore(w, order, a);
    }
  }

  lemma ProxyStill(w: World, order: seq<int>, v: World, s: int)
    requires Quiet(w) && Listing(order, w.slots.Keys) && Swept(w, PlanOf(w, order), v)
    requires forall a :: a in PlanOf(w, order) ==> !Early(a)
    requires s in w.slots && ValidSlot(s)
    ensures v.slots == w.slots && ProxyPart(v, v.slots[s], PxOf(v, s)) == []
  {
    var row, plan := w.slots[s], PlanOf(w, order);
    NetStill(w, order, v, s);
    PxAfter(w, order, v, s);
    StatusActions(w, order, s);
    StatusAfter(w, plan, v, s);
    hide ProxyFor, PlanOf, Listing, Swept, EgressProblem, PlanSlot;
    if PxOf(w, s).Some? {
      ProxyOutcome(w, v, row, PxOf(w, s).value, PxOf(v, s).value);
    }
  }

  /** What the status commands of one slot leave for the next plan. */
  lemma ProxyOutcome(w: World, v: World, row: SlotRow, x: Proxy, y: Proxy)
    requires ValidSlot(row.slot) && v.now == w.now && y.id == x.id
    requires !y.DesiredState(v.now).Expired? && (!x.DesiredState(w.now).Expired? ==> y == x)
    requires x.DesiredState(w.now).Expired? ==> y.DesiredState(v.now).Disabled?
    requires var part := PlanProxy(w, row, x, true);
             var s := row.slot;
             && (!Applies(part, s) && !Halts(part, s) ==> v.StatusOf(s) == w.StatusOf(s))
             && (!Applies(part, s) && (Halts(part, s) || !w.StatusOf(s).running) ==> !v.StatusOf(s).running)
             && (!Halts(part, s) && (Applies(part, s) || (w.StatusOf(s).running && w.StatusOf(s).Healthy())) ==>
                   v.StatusOf(s).running && v.StatusOf(s).Healthy())
    ensures PlanProxy(v, row, y, true) == []
  {
    var part, s := PlanProxy(w, row, x, true), row.slot;
    var st := w.StatusOf(s);
    match x.DesiredState(w.now) {
      case Expired =>
        assert part[1] in part;
        assert Halts(part, s) && !Applies(part, s);
      case Disabled => StopOnly(part, s, st.running);
      case Suspended => StopOnly(part, s, st.running);
      case Active =>
        if !row.Occupied() {
          StopOnly(part, s, st.running);
        } else if ProxyDrift(st).Some? {
          assert part[0] in part;
          assert Applies(part, s) && !Halts(part, s);
        } else {
          assert part == [];
        }
    }
  }

  lemma StopOnly(part: seq<Action>, s: int, running: bool)
    requires part == [] <==> !running
    requires running ==> |part| == 1 && (part[0].StopProxy? || part[0].EvictProxy?) && part[0].slot == s
    ensures !Applies(part, s) && (running ==> Halts(part, s))
  {
    if running {
      assert part[0] in part;
    }
  }

  predicate WantsRotate(w: World, s: int, px: Option<Proxy>)
    requires s in w.slots
  {
    var d := w.DongleFor(w.slots[s]);
    && d.Some? && d.value.autoRecover && s in w.devices
    && w.devices[s].reachable && !w.devices[s].Locked() && !w.devices[s].loginNeeded && !w.devices[s].Connected()
    && px.Some? && px.value.DesiredState(w.now).Active? && w.budgets.RotateAllowed(px.value.id, w.now)
  }

  lemma RotatePlanned(w: World, s: int)
    requires Quiet(w) && s in w.slots && ValidSlot(s)
    ensures WantsRotate(w, s, PxOf(w, s)) ==>
              RecoverRotate(s, PxOf(w, s).value.id, w.DongleFor(w.slots[s]).value.id) in RecoveryPart(w, w.slots[s], PxOf(w, s))
    ensures forall a :: a in Part(w, s) && a.RecoverRotate? ==> w.budgets.RotateAllowed(a.proxyId, w.now)
    ensures !WantsReboot(w, s) && !WantsRotate(w, s, PxOf(w, s)) ==> RecoveryPart(w, w.slots[s], PxOf(w, s)) == []
  {
    PartIs(w, s);
    NoRotateElsewhere(w, w.slots[s], PxOf(w, s));
    hide NetPart, FwPart, IdlePart, ProxyPart, ProxyFor, EgressProblem, Budgets.RebootAllowed, Budgets.RotateAllowed, GivenUp;
  }

  lemma NoRotateElsewhere(w: World, row: SlotRow, px: Option<Proxy>)
    requires ValidSlot(row.slot)
    ensures forall a :: a in NetPart(w, row) + FwPart(w, row) + IdlePart(w, row) + ProxyPart(w, row, px) ==> !a.RecoverRotate?
  {
    hide EgressProblem;
  }

  lemma RotateAllowedBefore(w: World, order: seq<int>, a: Action)
    requires Quiet(w) && Listing(order, w.slots.Keys) && a in PlanOf(w, order) && a.RecoverRotate?
    ensures w.budgets.RotateAllowed(a.proxyId, w.now)
  {
    InPlan(w, order, a);
    assert a !in PlanNode(w);
    var s :| s in w.slots && a in Part(w, s);
    PartIs(w, s);
    RotatePlanned(w, s);
  }

  lemma RecoveryStill(w: World, order: seq<int>, v: World, s: int)
    requires Quiet(w) && Listing(order, w.slots.Keys) && Swept(w, PlanOf(w, order), v)
    requires forall a :: a in PlanOf(w, order) ==> !Early(a)
    requires s in w.slots && ValidSlot(s)
    ensures v.slots == w.slots && RecoveryPart(v, v.slots[s], PxOf(v, s)) == []
  {
    var plan := PlanOf(w, order);
    QuietKept(w, plan, v);
    RebootsSettle(w, order, v, s);
    RotatesSettle(w, order, v, s);
    RotatePlanned(v, s);
  }

  lemma RotatesSettle(w: World, order: seq<int>, v: World, s: int)
    requires Quiet(w) && Listing(order, w.slots.Keys) && Swept(w, PlanOf(w, order), v)
    requires forall a :: a in PlanOf(w, order) ==> !Early(a)
    requires s in w.slots && ValidSlot(s)
    ensures v.slots == w.slots && !WantsRotate(v, s, PxOf(v, s))
  {
    var plan := PlanOf(w, order);
    FrameKept(w, plan, v);
    if WantsRotate(v, s, PxOf(v, s)) {
      PxAfter(w, order, v, s);
      NoReboots(w, order, s);
      DeviceAfter(w, plan, v, s);
      var p := PxOf(v, s).value.id;
      if a :| a in plan && a.RecoverRotate? && a.proxyId == p {
        RotateAllowedBefore(w, order, a);
      } else {
        BudgetsAfter(w, plan, v, "", p);
      }
      hide ProxyFor, PlanOf, Listing, Swept, Budgets.RotateAllowed, Proxy.DesiredState;
      RotatePlanned(w, s);
      InPart(w, order, s, RecoverRotate(s, p, w.DongleFor(w.slots[s]).value.id));
    }
  }

  /** A sweep whose plan held nothing of the first stage leaves nothing to do. */
  lemma SecondSweep(w: World, order: seq<int>, v: World)
    requires Quiet(w) && Listing(order, w.slots.Keys) && Swept(w, PlanOf(w, order), v)
    requires forall a :: a in PlanOf(w, order) ==> !Early(a)
    ensures Quiet(v) && v.slots == w.slots && PlanOf(v, order) == []
  {
    QuietKept(w, PlanOf(w, order), v);
    NodeSettles(w, order, v);
    if PlanOf(v, order) != [] {
      var a := PlanOf(v, order)[0];
      InPlan(v, order, a);
      var s :| s in v.slots && a in Part(v, s);
      PartIs(v, s);
      NetStill(w, order, v, s);
      FwStill(w, order, v, s);
      IdleStill(w, order, v, s);
      ProxyStill(w, order, v, s);
      RecoveryStill(w, order, v, s);
      assert false;
    }
  }

  // ---- convergence ----

  /** How many more sweeps have something to do. */
  ghost function Debt(w: World, order: seq<int>): nat
    requires Listing(order, w.slots.Keys)
  {
    if PlanOf(w, order) == [] then 0 else if exists a :: a in PlanOf(w, order) && Early(a) then 2 else 1
  }

  /** Every sweep with something to do owes less afterwards. */
  lemma DebtFalls(w: World, order: seq<int>, v: World)
    requires Quiet(w) && Listing(order, w.slots.Keys) && Swept(w, PlanOf(w, order), v)
    ensures Quiet(v) && v.slots == w.slots
    ensures Debt(v, order) < Debt(w, order) || Debt(v, order) == 0
  {
    FirstSweep(w, order, v);
    if !exists a :: a in PlanOf(w, order) && Early(a) {
      SecondSweep(w, order, v);
    }
  }

  /** From any world with no live operation and past its startup grace, the third plan is empty. */
  lemma ThirdPlanIsEmpty(w0: World, w1: World, w2: World, order: seq<int>)
    requires Quiet(w0) && Listing(order, w0.slots.Keys)
    requires Swept(w0, PlanOf(w0, order), w1)
    requires w1.slots == w0.slots && Swept(w1, PlanOf(w1, order), w2)
    ensures w2.slots == w0.slots && PlanOf(w2, order) == []
  {
    DebtFalls(w0, order, w1);
    DebtFalls(w1, order, w2);
  }

  // ---- such a sweep exists ----

  /** Everything that was there still is. */
  predicate Grown(a: Net, b: Net) {
    && (forall l :: l in a.links ==> l in b.links && forall p :: p in a.links[l] ==> p in b.links[l])
    && (forall r :: r in a.rules ==> r in b.rules)
    && (forall t :: t in a.routes ==> t in b.routes && forall r :: r in a.routes[t] ==> r in b.routes[t])
  }

  lemma GrownStaysReady(a: Net, b: Net, row: SlotRow)
    requires Grown(a, b) && Ready(a, row)
    ensures Ready(b, row)
  {
    if HasDefaultRoute(a, RouteTable(row.slot), row.ifName) {
      var r :| r in a.routes[RouteTable(row.slot)] && r.dev == row.ifName && r.Default();
      assert r in b.routes[RouteTable(row.slot)];
    }
  }

  /** The link with its address, both rules and the default route, added to what is there. */
  function SetUp(net: Net, row: SlotRow): Net
    requires ValidSlot(row.slot)
  {
    var addrs := if row.ifName in net.links then net.links[row.ifName] else [];
    var table := RouteTable(row.slot);
    var routes := if table in net.routes then net.routes[table] else [];
    Net(net.links[row.ifName := addrs + [HostPrefix(row.slot)]],
        net.rules + [RulePrioSrc(row.slot), RulePrioUid(row.slot)],
        net.routes[table := routes + [Route(row.ifName, None)]])
  }

  lemma SetUpIsReady(net: Net, row: SlotRow)
    requires ValidSlot(row.slot)
    ensures Grown(net, SetUp(net, row)) && Ready(SetUp(net, row), row)
  {
    var after := SetUp(net, row);
    assert HostPrefix(row.slot) in after.links[row.ifName];
    assert RulePrioSrc(row.slot) in after.rules && RulePrioUid(row.slot) in after.rules;
    assert Route(row.ifName, None) in after.routes[RouteTable(row.slot)];
  }

  /** What an action names is there to act on. */
  predicate Doable(w: World, a: Action) {
    && (a.MarkExpired? ==> a.proxyId in w.proxies)
    && (a.SetMaxIdle? || a.RecoverRotate? ==> a.slot in w.devices)
  }

  const UP := Status(true, true, true, true)
  const DOWN := Status(false, false, false, false)

  /** One way for an action to have its effect. */
  function Done(w: World, a: Action): World
    requires Doable(w, a)
  {
    match a
    case ApplyGlobal => w.(publicRules := w.publicRules + 1, tableNamesOk := true)
    case ApplySlot(s, _, _, _) => if s in w.slots && ValidSlot(w.slots[s].slot) then w.(net := SetUp(w.net, w.slots[s])) else w
    case AddFwDongle(_, _, ifName) => w.(fenced := w.fenced + {ifName})
    case SetMaxIdle(s, _) => w.(devices := w.devices[s := w.devices[s].(maxIdle := MAX_IDLE_DISABLED)])
    case ApplyProxy(s, _, _) => w.(status := w.status[s := UP])
    case StopProxy(s, _, _) => w.(status := w.status[s := DOWN])
    case EvictProxy(s, _, _) => w.(status := w.status[s := DOWN])
    case MarkExpired(_, p) => w.(proxies := w.proxies[p := w.proxies[p].(enabled := false)])
    case RebootDongle(s, d) =>
      w.(devices := w.devices[s := Device(true, ReconcileWorld.CONN_CONNECTED, 0, MAX_IDLE_DISABLED, false, Some(w.now), None)],
         budgets := Rebooted(w.budgets, d, w.now))
    case RecoverRotate(s, p, _) =>
      w.(devices := w.devices[s := w.devices[s].(conn := ReconcileWorld.CONN_CONNECTED)], budgets := Rotated(w.budgets, p, w.now))
  }

  lemma DoneTook(w: World, a: Action)
    requires Doable(w, a)
    ensures Took(w, a, Done(w, a))
    ensures forall b :: Doable(w, b) ==> Doable(Done(w, a), b)
  {
    hide Ready, Rebooted, Rotated, SetUp, EgressProblem;
    var v := Done(w, a);
    if a.ApplySlot? && a.slot in w.slots && ValidSlot(w.slots[a.slot].slot) {
      SetUpIsReady(w.net, w.slots[a.slot]);
      forall k | k in w.slots && Ready(w.net, w.slots[k]) ensures Ready(v.net, w.slots[k]) {
        GrownStaysReady(w.net, v.net, w.slots[k]);
      }
    }
  }

  lemma {:induction false} CanTake(w: World, actions: seq<Action>) returns (v: World)
    requires forall a :: a in actions ==> Doable(w, a)
    ensures Swept(w, actions, v)
    decreases actions
  {
    if actions == [] {
      v := w;
    } else {
      hide Took, Done, Doable;
      Unfold(actions);
      DoneTook(w, actions[0]);
      v := CanTake(Done(w, actions[0]), actions[1..]);
    }
  }

  lemma DevicesPlanned(w: World, row: SlotRow, px: Option<Proxy>)
    requires ValidSlot(row.slot)
    ensures forall a :: a in IdlePart(w, row) + RecoveryPart(w, row, px) && (a.SetMaxIdle? || a.RecoverRotate?) ==> a.slot in w.devices
    ensures forall a :: a in NetPart(w, row) + FwPart(w, row) ==> !a.SetMaxIdle? && !a.RecoverRotate?
    ensures forall a :: a in ProxyPart(w, row, px) ==> !a.SetMaxIdle? && !a.RecoverRotate?
  {
    hide EgressProblem, Budgets.RebootAllowed, Budgets.RotateAllowed, GivenUp;
  }

  lemma PartDoable(w: World, s: int)
    requires Quiet(w) && s in w.slots
    ensures forall a :: a in Part(w, s) && (a.SetMaxIdle? || a.RecoverRotate?) ==> a.slot in w.devices
  {
    hide NetPart, FwPart, IdlePart, ProxyPart, RecoveryPart, PlanSlot, ProxyFor, Part;
    PartIs(w, s);
    if ValidSlot(s) {
      DevicesPlanned(w, w.slots[s], PxOf(w, s));
    }
  }

  lemma PlanDoable(w: World, order: seq<int>)
    requires Quiet(w) && Listing(order, w.slots.Keys)
    ensures forall a :: a in PlanOf(w, order) ==> Doable(w, a)
  {
    hide PlanOf, Listing, Part, Proxy.DesiredState;
    forall a | a in PlanOf(w, order) ensures Doable(w, a) {
      if a.MarkExpired? {
        ExpiredBefore(w, order, a);
      }
      InPlan(w, order, a);
      if a !in PlanNode(w) {
        var s :| s in w.slots && a in Part(w, s);
        PartDoable(w, s);
      }
    }
  }

  /** So from any quiet world two sweeps can be had, and they settle it. */
  lemma Converges(w0: World, order: seq<int>) returns (w1: World, w2: World)
    requires Quiet(w0) && Listing(order, w0.slots.Keys)
    ensures w1.slots == w0.slots && w2.slots == w0.slots
    ensures Swept(w0, PlanOf(w0, order), w1) && Swept(w1, PlanOf(w1, order), w2) && PlanOf(w2, order) == []
  {
    PlanDoable(w0, order);
    w1 := CanTake(w0, PlanOf(w0, order));
    DebtFalls(w0, order, w1);
    PlanDoable(w1, order);
    w2 := CanTake(w1, PlanOf(w1, order));
    ThirdPlanIsEmpty(w0, w1, w2, order);
  }
}
