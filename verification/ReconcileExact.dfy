/** What a plan holds, told from its actions: when each kind is called for, in the plain terms
    of rows and observations, and in what order they stand (internal/reconcile/plan.go and
    actions.go). */
module ReconcileExact {
  import opened Wrappers
  import opened Domain
  import opened ReconcileOrder
  import opened ReconcileWorld
  import opened ReconcilePlan

  // ---- when an action is called for ----

  predicate HasDongle(w: World, row: SlotRow) { row.dongleId != "" && row.dongleId in w.dongles }

  /** A slot of this host that no live operation has to do with. */
  predicate Free(w: World, row: SlotRow, px: Option<Proxy>) {
    && 1 <= row.slot <= 150
    && (OnSlot, row.id) !in w.activeOps
    && (px.Some? ==> (OnProxy, px.value.id) !in w.activeOps)
    && (HasDongle(w, row) ==> (OnDongle, row.dongleId) !in w.activeOps)
  }

  predicate Lapsed(px: Proxy, now: int) { px.expiresAt.Some? && 0 < px.expiresAt.value <= now }

  predicate Serving(px: Proxy, now: int) { px.enabled && !px.suspended && !Lapsed(px, now) }

  predicate Runs(w: World, s: int) { s in w.status && w.status[s].running }

  predicate Bound(w: World, s: int) { s in w.status && w.status[s].socksBound && w.status[s].httpBound }

  predicate Drifted(w: World, s: int, reason: Reason) {
    match reason
    case ProxyNotRunning => !Runs(w, s)
    case ProxyNotBound => Runs(w, s) && !Bound(w, s)
    case ProxyProbeFailed => Runs(w, s) && Bound(w, s) && !w.status[s].probeOk
    case _ => false
  }

  /** Without an answer for a minute since the last one, or since the first failure if there
      never was one. */
  predicate Silent(dev: Device, now: int) {
    && !dev.reachable
    && (dev.observedAt.Some? ==> now - dev.observedAt.value >= 60000)
    && (dev.observedAt.None? ==> dev.failingSince.Some? && now - dev.failingSince.value >= 60000)
  }

  /** Recovery may act: asked for, and the device wants neither a SIM code nor a login. */
  predicate Recoverable(w: World, row: SlotRow) {
    && HasDongle(w, row) && w.dongles[row.dongleId].autoRecover
    && row.slot in w.devices && !w.devices[row.slot].loginNeeded
    && !(259 <= w.devices[row.slot].sim <= 261)
  }

  predicate RebootsLeft(b: Budgets, dongle: string, now: int) {
    && (dongle in b.rebootUsed ==> b.rebootUsed[dongle] < b.rebootPerDay)
    && (dongle !in b.rebootUsed ==> 0 < b.rebootPerDay)
    && (dongle in b.lastReboot ==> b.lastReboot[dongle] + b.rebootCooldown <= now)
  }

  predicate RotationsLeft(b: Budgets, proxy: string, now: int) {
    && (b.maxConcurrentRotate <= 0 || b.rotateInFlight < b.maxConcurrentRotate)
    && (proxy in b.lastRotate ==> b.lastRotate[proxy] + b.minRotateInterval <= now)
  }

  /** What calls for each kind of action on a free slot. */
  predicate Called(w: World, row: SlotRow, px: Option<Proxy>, a: Action) {
    match a
    case ApplyGlobal => false
    case ApplySlot(_, id, ifName, reason) => id == row.id && ifName == row.ifName && Lacks(w.net, row, reason)
    case AddFwDongle(_, id, ifName) =>
      id == row.id && ifName == row.ifName && ifName in w.net.links && w.nftPresent && ifName !in w.fenced
    case SetMaxIdle(_, dongle) =>
      dongle == row.dongleId && HasDongle(w, row) && row.slot in w.devices && w.devices[row.slot].reachable && w.devices[row.slot].maxIdle != 0
    case MarkExpired(_, proxy) => px.Some? && proxy == px.value.id && px.value.enabled && Lapsed(px.value, w.now)
    case EvictProxy(_, proxy, reason) =>
      && px.Some? && proxy == px.value.id && px.value.enabled
      && (|| (reason == ProxyExpired && Lapsed(px.value, w.now))
          || (reason == ProxySuspended && px.value.suspended && !Lapsed(px.value, w.now) && Runs(w, row.slot)))
    case StopProxy(_, proxy, reason) =>
      && px.Some? && proxy == px.value.id && Runs(w, row.slot)
      && (|| (reason == ProxyDisabled && !px.value.enabled)
          || (reason == SlotHasNoDongle && Serving(px.value, w.now) && row.dongleId == ""))
    case ApplyProxy(_, proxy, reason) =>
      && px.Some? && proxy == px.value.id && Serving(px.value, w.now)
      && row.dongleId != "" && Ready(w.net, row) && Drifted(w, row.slot, reason)
    case RebootDongle(_, dongle) =>
      dongle == row.dongleId && Recoverable(w, row) && Silent(w.devices[row.slot], w.now) && RebootsLeft(w.budgets, dongle, w.now)
    case RecoverRotate(_, proxy, dongle) =>
      && dongle == row.dongleId && Recoverable(w, row) && w.devices[row.slot].reachable && w.devices[row.slot].conn != 901
      && px.Some? && proxy == px.value.id && Serving(px.value, w.now) && RotationsLeft(w.budgets, proxy, w.now)
  }

  ghost predicate Wanted(w: World, a: Action) {
    if a.ApplyGlobal? then
      (w.publicRules == 0 || !w.tableNamesOk) && (OnNode, w.nodeId) !in w.activeOps
    else
      a.slot in w.slots && WantedAt(w, w.slots[a.slot], ProxyFor(w.proxies, w.slots[a.slot].id), a)
  }

  predicate WantedAt(w: World, row: SlotRow, px: Option<Proxy>, a: Action) { Free(w, row, px) && Called(w, row, px, a) }

  /** The caches are cold, or the host or this process has only just come up. */
  predicate Starting(w: World) {
    !w.cacheWarm || w.now < w.processStartedAt + w.startupGrace || w.now < w.hostBootedAt + w.startupGrace
  }

  predicate Harsh(a: Action) { a.RecoverRotate? || a.RebootDongle? || a.EvictProxy? }

  // ---- and where it stands ----

  function Rank(a: Action): nat {
    match a
    case ApplyGlobal => 0
    case ApplySlot(_, _, _, _) => 1
    case AddFwDongle(_, _, _) => 2
    case SetMaxIdle(_, _) => 3
    case MarkExpired(_, _) => 4
    case EvictProxy(_, _, _) => 5
    case StopProxy(_, _, _) => 5
    case ApplyProxy(_, _, _) => 5
    case RebootDongle(_, _) => 6
    case RecoverRotate(_, _, _) => 6
  }

  predicate Before(a: Action, b: Action) {
    !b.ApplyGlobal? && (a.ApplyGlobal? || a.slot < b.slot || (a.slot == b.slot && Rank(a) < Rank(b)))
  }

  predicate InOrder(plan: seq<Action>) { forall i, j :: 0 <= i < j < |plan| ==> Before(plan[i], plan[j]) }

  lemma InOrderConcat(p: seq<Action>, q: seq<Action>)
    requires InOrder(p) && InOrder(q) && forall a, b :: a in p && b in q ==> Before(a, b)
    ensures InOrder(p + q)
  {
    hide Before;
  }

  // ---- one slot ----

  /** All of one slot, from rank lo to below hi, in order. */
  predicate Ranked(part: seq<Action>, s: int, lo: nat, hi: nat) {
    && (forall a :: a in part ==> !a.ApplyGlobal? && a.slot == s && lo <= Rank(a) < hi)
    && InOrder(part)
  }

  lemma RankedConcat(p: seq<Action>, q: seq<Action>, s: int, lo: nat, mid: nat, hi: nat)
    requires Ranked(p, s, lo, mid) && Ranked(q, s, mid, hi) && lo <= mid <= hi
    ensures Ranked(p + q, s, lo, hi)
  {
    hide Rank;
    InOrderConcat(p, q);
  }

  lemma NetPartExactly(w: World, row: SlotRow, px: Option<Proxy>)
    requires ValidSlot(row.slot)
    ensures Ranked(NetPart(w, row), row.slot, 1, 2)
    ensures forall a :: a in NetPart(w, row) <==> a.ApplySlot? && a.slot == row.slot && Called(w, row, px, a)
  {
    EgressMeans(w.net, row);
    hide Lacks, EgressProblem, Ready;
  }

  lemma FwPartExactly(w: World, row: SlotRow, px: Option<Proxy>)
    ensures Ranked(FwPart(w, row), row.slot, 2, 3)
    ensures forall a :: a in FwPart(w, row) <==> a.AddFwDongle? && a.slot == row.slot && Called(w, row, px, a)
  {
  }

  lemma IdlePartExactly(w: World, row: SlotRow, px: Option<Proxy>)
    requires w.Filed()
    ensures Ranked(IdlePart(w, row), row.slot, 3, 4)
    ensures forall a :: a in IdlePart(w, row) <==> a.SetMaxIdle? && a.slot == row.slot && Called(w, row, px, a)
  {
  }

  predicate OfProxy(a: Action) { a.MarkExpired? || a.EvictProxy? || a.StopProxy? || a.ApplyProxy? }

  lemma DriftMeans(w: World, s: int)
    ensures w.StatusOf(s).running == Runs(w, s)
    ensures forall reason :: ProxyDrift(w.StatusOf(s)) == Some(reason) <==> Drifted(w, s, reason)
  {
  }

  lemma ProxyInOrder(w: World, row: SlotRow, px: Option<Proxy>)
    requires ValidSlot(row.slot)
    ensures Ranked(ProxyPart(w, row, px), row.slot, 4, 6)
    ensures forall a :: a in ProxyPart(w, row, px) ==> OfProxy(a)
  {
    hide EgressProblem, World.StatusOf, ProxyDrift;
  }

  lemma ProxyPartExactly(w: World, row: SlotRow, px: Option<Proxy>)
    requires ValidSlot(row.slot)
    ensures Ranked(ProxyPart(w, row, px), row.slot, 4, 6)
    ensures forall a :: a in ProxyPart(w, row, px) <==> OfProxy(a) && a.slot == row.slot && Called(w, row, px, a)
  {
    hide Lacks, EgressProblem, Ready, Ranked, World.StatusOf, ProxyDrift, Runs, Drifted;
    EgressMeans(w.net, row);
    DriftMeans(w, row.slot);
    ProxyInOrder(w, row, px);
  }

  lemma RecoveryPartExactly(w: World, row: SlotRow, px: Option<Proxy>)
    requires w.Filed()
    ensures Ranked(RecoveryPart(w, row, px), row.slot, 6, 7)
    ensures forall a :: a in RecoveryPart(w, row, px) <==> (a.RebootDongle? || a.RecoverRotate?) && a.slot == row.slot && Called(w, row, px, a)
  {
  }

  lemma SlotExactly(w: World, row: SlotRow, px: Option<Proxy>)
    requires w.Filed()
    ensures Ranked(PlanSlot(w, row, px), row.slot, 1, 7)
    ensures forall a :: a in PlanSlot(w, row, px) <==> !a.ApplyGlobal? && a.slot == row.slot && WantedAt(w, row, px, a)
  {
    assert Blocked(w, row, px) <==> !Free(w, row, px);
    if Free(w, row, px) {
      var s, net, fw, idle := row.slot, NetPart(w, row), FwPart(w, row), IdlePart(w, row);
      NetPartExactly(w, row, px);
      FwPartExactly(w, row, px);
      IdlePartExactly(w, row, px);
      ProxyPartExactly(w, row, px);
      RecoveryPartExactly(w, row, px);
      RankedConcat(net, fw, s, 1, 2, 3);
      RankedConcat(net + fw, idle, s, 1, 3, 4);
      RankedConcat(net + fw + idle, ProxyPart(w, row, px), s, 1, 4, 6);
      RankedConcat(net + fw + idle + ProxyPart(w, row, px), RecoveryPart(w, row, px), s, 1, 6, 7);
      hide Ranked, Called, Blocked, Free, NetPart, FwPart, IdlePart, ProxyPart, RecoveryPart;
    }
  }

  // ---- the whole plan ----

  lemma SlotBeforeRest(part: seq<Action>, rest: seq<Action>, s: int)
    requires forall a :: a in part ==> !a.ApplyGlobal? && a.slot == s
    requires forall a :: a in rest ==> !a.ApplyGlobal? && s < a.slot
    ensures forall a, b :: a in part && b in rest ==> Before(a, b)
  {
  }

  lemma {:induction false} SlotsInOrder(w: World, slots: seq<int>)
    requires w.Filed() && Filled(w, slots) && Ascending(slots)
    ensures InOrder(PlanSlots(w, slots))
    ensures forall a :: a in PlanSlots(w, slots) <==> !a.ApplyGlobal? && a.slot in slots && Wanted(w, a)
    decreases slots
  {
    hide PlanSlot, ProxyFor, WantedAt, Before, Free, Called;
    if slots != [] {
      var row := w.slots[slots[0]];
      var px := ProxyFor(w.proxies, row.id);
      var rest := PlanSlots(w, slots[1..]);
      SlotsInOrder(w, slots[1..]);
      SlotExactly(w, row, px);
      assert slots == [slots[0]] + slots[1..];
      forall s | s in slots[1..] ensures slots[0] < s {
        var i :| 0 <= i < |slots[1..]| && slots[1..][i] == s;
        assert slots[i + 1] == s;
      }
      SlotBeforeRest(PlanSlot(w, row, px), rest, slots[0]);
      InOrderConcat(PlanSlot(w, row, px), rest);
    }
  }

  lemma {:induction false} HarmlessInOrder(actions: seq<Action>)
    requires InOrder(actions)
    ensures InOrder(Harmless(actions))
    ensures forall a :: a in Harmless(actions) <==> a in actions && !Harsh(a)
  {
    hide Before;
    if actions != [] {
      var a, rest := actions[0], actions[1..];
      HarmlessInOrder(rest);
      assert actions == [a] + rest;
      forall b | b in rest ensures Before(a, b) {
        var i :| 0 <= i < |rest| && rest[i] == b;
        assert actions[i + 1] == b;
      }
      if a.Destructive() {
        assert [] + Harmless(rest) == Harmless(rest);
      } else {
        InOrderConcat([a], Harmless(rest));
      }
    }
  }

  /** A plan holds an action exactly when the world calls for it and the start of the host or
      of the process does not forbid it, each once, and in order: the host's own first, then
      slot by slot. */
  lemma PlannedExactly(w: World, order: seq<int>)
    requires w.Filed() && Listing(order, w.slots.Keys)
    ensures InOrder(PlanOf(w, order))
    ensures forall a :: a in PlanOf(w, order) <==> Wanted(w, a) && (Starting(w) ==> !Harsh(a))
  {
    assert Filled(w, order) by { forall i | 0 <= i < |order| ensures order[i] in w.slots { assert order[i] in order; } }
    SlotsInOrder(w, order);
    InOrderConcat(PlanNode(w), PlanSlots(w, order));
    HarmlessInOrder(PlanNode(w) + PlanSlots(w, order));
    hide InOrder, PlanSlots, WantedAt, Harmless, ProxyFor;
  }

  lemma NoActions(p: seq<Action>)
    ensures p == [] <==> forall a :: a !in p
  {
    if p != [] {
      assert p[0] in p;
    }
  }

  /** And it is the only such list. */
  lemma {:induction false} OneInOrder(p: seq<Action>, q: seq<Action>)
    requires InOrder(p) && InOrder(q) && forall a :: a in p <==> a in q
    ensures p == q
  {
    if p == [] {
      NoActions(q);
    } else {
      assert p[0] in q;
      assert q[0] in p;
      assert p[0] == q[0] && p == [p[0]] + p[1..] && q == [q[0]] + q[1..];
      forall a ensures a in p[1..] <==> a in q[1..] {
        assert (a in p <==> a == p[0] || a in p[1..]) && (a in q <==> a == q[0] || a in q[1..]);
        assert p[0] !in p[1..] && q[0] !in q[1..];
      }
      OneInOrder(p[1..], q[1..]);
    }
  }

  /** Nothing is planned exactly when nothing is wanted. */
  lemma IdleExactly(w: World, order: seq<int>)
    requires w.Filed() && Listing(order, w.slots.Keys)
    ensures PlanOf(w, order) == [] <==> forall a :: Wanted(w, a) ==> Starting(w) && Harsh(a)
  {
    PlannedExactly(w, order);
    NoActions(PlanOf(w, order));
  }
}
