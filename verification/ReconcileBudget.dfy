/** Two ways of asking whether a dongle may be rebooted: budgets added up once per sweep
    (internal/reconcile/world.go, LoadBudgets) and a scan of the day's operations
    (internal/rotate/rotate.go and internal/devops/reboot.go, RebootAllowed). */
module ReconcileBudget {
  import opened Wrappers
  import opened ReconcileWorld

  const DAY := 86400000
  const ROTATION_LOOKBACK := 86400000

  datatype OpKind = Reboot | Rotate | OtherKind

  datatype Op = Op(kind: OpKind, subject: Subject, id: string, startedAt: int)

  datatype Rotation = Rotation(proxyId: string, requestedAt: int)

  function StartOfDay(now: int): int { now - now % DAY }

  /** OperationFilter: an absent subject, an empty id and a start that is not positive filter nothing. */
  datatype Filter = Filter(subject: Option<Subject>, id: string, since: int)
  {
    predicate Accepts(o: Op) {
      && o.kind.Reboot?
      && (subject.Some? ==> o.subject == subject.value)
      && (id != [] ==> o.id == id)
      && (since > 0 ==> o.startedAt >= since)
    }
  }

  /** The reboots of a history that pass a filter, in the order the store lists them. */
  function ListReboots(history: seq<Op>, f: Filter): seq<Op> {
    if history == [] then []
    else (if f.Accepts(history[0]) then [history[0]] else []) + ListReboots(history[1..], f)
  }

  lemma {:induction false} ListedMembers(history: seq<Op>, f: Filter)
    ensures forall o :: o in ListReboots(history, f) <==> o in history && f.Accepts(o)
  {
    if history != [] {
      ListedMembers(history[1..], f);
      assert history == [history[0]] + history[1..];
    }
  }

  /** How many of a list are on the subject id. */
  function CountOf(ops: seq<Op>, id: string): nat {
    if ops == [] then 0 else CountOf(ops[..|ops| - 1], id) + if ops[|ops| - 1].id == id then 1 else 0
  }

  // ---- the scan ----

  predicate ScanAllows(history: seq<Op>, dongle: string, perDay: int, cooldown: int, now: int) {
    var ops := ListReboots(history, Filter(Some(OnDongle), dongle, StartOfDay(now)));
    && perDay > 0 && |ops| < perDay
    && forall o :: o in ops ==> now - o.startedAt >= cooldown
  }

  /** A reboot of this UTC day or later, or any at all on the epoch's first day. */
  predicate OfToday(o: Op, now: int) { o.kind == Reboot && (now < 86400000 || o.startedAt / 86400000 >= now / 86400000) }

  /** Of the dongle itself; no id stands for all. */
  predicate OfDongle(o: Op, dongle: string) { o.subject == OnDongle && (dongle == "" || o.id == dongle) }

  function DongleReboots(history: seq<Op>, dongle: string, now: int): nat {
    if history == [] then 0
    else (if OfToday(history[0], now) && OfDongle(history[0], dongle) then 1 else 0) + DongleReboots(history[1..], dongle, now)
  }

  /** On subjects of any kind. */
  function IdReboots(history: seq<Op>, id: string, now: int): nat {
    if history == [] then 0
    else (if OfToday(history[0], now) && history[0].id == id then 1 else 0) + IdReboots(history[1..], id, now)
  }

  lemma FilterMeans(o: Op, dongle: string, now: int)
    ensures Filter(Some(OnDongle), dongle, StartOfDay(now)).Accepts(o) <==> OfToday(o, now) && OfDongle(o, dongle)
    ensures Filter(None, [], StartOfDay(now)).Accepts(o) <==> OfToday(o, now)
  {
    var day, began := now / DAY, o.startedAt / DAY;
    assert StartOfDay(now) == DAY * day;
    assert DAY * began <= o.startedAt < DAY * began + DAY;
  }

  lemma {:induction false} ListedCount(history: seq<Op>, dongle: string, now: int)
    ensures |ListReboots(history, Filter(Some(OnDongle), dongle, StartOfDay(now)))| == DongleReboots(history, dongle, now)
  {
    hide Filter.Accepts, StartOfDay, OfToday, OfDongle;
    if history != [] {
      ListedCount(history[1..], dongle, now);
      FilterMeans(history[0], dongle, now);
    }
  }

  lemma {:induction false} ListedById(history: seq<Op>, id: string, now: int)
    ensures CountOf(ListReboots(history, Filter(None, [], StartOfDay(now))), id) == IdReboots(history, id, now)
  {
    hide Filter.Accepts, StartOfDay, OfToday;
    if history != [] {
      var o, rest := history[0], ListReboots(history[1..], Filter(None, [], StartOfDay(now)));
      ListedById(history[1..], id, now);
      FilterMeans(o, [], now);
      CountOne(o, id);
      CountAppend([o], rest, id);
      assert [] + rest == rest;
    }
  }

  lemma CountOne(o: Op, id: string)
    ensures CountOf([o], id) == if o.id == id then 1 else 0
  {
    assert [o][..0] == [] && CountOf([], id) == 0;
  }

  /** What the scan looks for, in the terms of the history. */
  lemma ScanMeans(history: seq<Op>, dongle: string, perDay: int, cooldown: int, now: int)
    ensures ScanAllows(history, dongle, perDay, cooldown, now) <==>
            && DongleReboots(history, dongle, now) < perDay
            && forall o :: o in history && OfToday(o, now) && OfDongle(o, dongle) ==> o.startedAt + cooldown <= now
  {
    hide Filter.Accepts, StartOfDay, OfToday, OfDongle;
    var f := Filter(Some(OnDongle), dongle, StartOfDay(now));
    ListedCount(history, dongle, now);
    ListedMembers(history, f);
    forall o ensures f.Accepts(o) <==> OfToday(o, now) && OfDongle(o, dongle) {
      FilterMeans(o, dongle, now);
    }
  }

  method RebootAllowed(history: seq<Op>, dongle: string, perDay: int, cooldown: int, now: int) returns (ok: bool)
    ensures ok <==> ScanAllows(history, dongle, perDay, cooldown, now)
    ensures ok <==> DongleReboots(history, dongle, now) < perDay
                    && forall o :: o in history && OfToday(o, now) && OfDongle(o, dongle) ==> o.startedAt + cooldown <= now
  {
    ScanMeans(history, dongle, perDay, cooldown, now);
    hide OfToday, OfDongle, DongleReboots, ListReboots;
    if perDay <= 0 {
      return false;
    }
    var ops := ListReboots(history, Filter(Some(OnDongle), dongle, StartOfDay(now)));
    if |ops| >= perDay {
      return false;
    }
    var i := 0;
    while i < |ops|
      invariant 0 <= i <= |ops|
      invariant forall j :: 0 <= j < i ==> now - ops[j].startedAt >= cooldown
    {
      if now - ops[i].startedAt < cooldown {
        assert ops[i] in ops;
        return false;
      }
      i := i + 1;
    }
    ok := true;
  }

  // ---- the aggregation ----

  /** m holds, for each key of a list of (key, time) pairs, its latest time. */
  predicate LatestOf(m: map<string, int>, pairs: seq<(string, int)>) {
    && (forall p :: p in pairs ==> p.0 in m && p.1 <= m[p.0])
    && (forall k :: k in m ==> (k, m[k]) in pairs)
  }

  function RebootPairs(ops: seq<Op>): (r: seq<(string, int)>)
    ensures |r| == |ops| && forall i :: 0 <= i < |ops| ==> r[i] == (ops[i].id, ops[i].startedAt)
  {
    seq(|ops|, i requires 0 <= i < |ops| => (ops[i].id, ops[i].startedAt))
  }

  function RotationPairs(rs: seq<Rotation>): (r: seq<(string, int)>)
    ensures |r| == |rs| && forall i :: 0 <= i < |rs| ==> r[i] == (rs[i].proxyId, rs[i].requestedAt)
  {
    seq(|rs|, i requires 0 <= i < |rs| => (rs[i].proxyId, rs[i].requestedAt))
  }

  /** What LoadBudgets makes of a history: per subject id, whatever the subject's type, the
      day's count and the latest start. */
  ghost predicate Loaded(b: Budgets, history: seq<Op>, now: int) {
    var reboots := ListReboots(history, Filter(None, [], StartOfDay(now)));
    && (forall id :: b.Used(id) == CountOf(reboots, id))
    && LatestOf(b.lastReboot, RebootPairs(reboots))
  }

  /** The latest reboot of the day under each id. */
  predicate LatestReboots(m: map<string, int>, history: seq<Op>, now: int) {
    && (forall o :: o in history && OfToday(o, now) ==> o.id in m && o.startedAt <= m[o.id])
    && (forall k :: k in m ==> exists o :: o in history && OfToday(o, now) && o.id == k && o.startedAt == m[k])
  }

  lemma LoadedMeans(b: Budgets, history: seq<Op>, now: int)
    ensures Loaded(b, history, now) <==> (forall id :: b.Used(id) == IdReboots(history, id, now)) && LatestReboots(b.lastReboot, history, now)
  {
    hide CountOf, ListReboots, IdReboots, LatestOf, LatestReboots, Budgets.Used;
    var reboots := ListReboots(history, Filter(None, [], StartOfDay(now)));
    forall id ensures CountOf(reboots, id) == IdReboots(history, id, now) {
      ListedById(history, id, now);
    }
    LatestMeans(b.lastReboot, history, now);
  }

  lemma LatestMeans(m: map<string, int>, history: seq<Op>, now: int)
    ensures LatestOf(m, RebootPairs(ListReboots(history, Filter(None, [], StartOfDay(now))))) <==> LatestReboots(m, history, now)
  {
    hide ListReboots, Filter.Accepts, StartOfDay, OfToday;
    var f := Filter(None, [], StartOfDay(now));
    var reboots := ListReboots(history, f);
    var pairs := RebootPairs(reboots);
    ListedMembers(history, f);
    forall o ensures o in reboots <==> o in history && OfToday(o, now) {
      FilterMeans(o, [], now);
    }
    forall o | o in reboots ensures (o.id, o.startedAt) in pairs {
      var i :| 0 <= i < |reboots| && reboots[i] == o;
      assert pairs[i] == (o.id, o.startedAt);
    }
    forall p | p in pairs ensures exists o :: o in reboots && p == (o.id, o.startedAt) {
      var i :| 0 <= i < |pairs| && pairs[i] == p;
      assert reboots[i] in reboots;
    }
  }

  lemma LatestStep(m: map<string, int>, pairs: seq<(string, int)>, k: string, at: int)
    requires LatestOf(m, pairs)
    ensures LatestOf(if k !in m || at > m[k] then m[k := at] else m, pairs + [(k, at)])
  {
  }

  method AddUp(pairs: seq<(string, int)>) returns (m: map<string, int>)
    ensures LatestOf(m, pairs)
  {
    m := map[];
    var i := 0;
    while i < |pairs|
      invariant 0 <= i <= |pairs| && LatestOf(m, pairs[..i])
    {
      var (k, at) := pairs[i];
      LatestStep(m, pairs[..i], k, at);
      assert pairs[..i + 1] == pairs[..i] + [(k, at)];
      if k !in m || at > m[k] {
        m := m[k := at];
      }
      i := i + 1;
    }
    assert pairs[..i] == pairs;
  }

  method AddReboots(reboots: seq<Op>) returns (used: map<string, int>, last: map<string, int>)
    ensures forall id :: (if id in used then used[id] else 0) == CountOf(reboots, id)
    ensures LatestOf(last, RebootPairs(reboots))
  {
    hide LatestOf;
    used, last := map[], map[];
    assert LatestOf(last, []) by { NothingLatest(); }
    assert RebootPairs(reboots)[..0] == [];
    var i := 0;
    while i < |reboots|
      invariant 0 <= i <= |reboots|
      invariant forall id :: (if id in used then used[id] else 0) == CountOf(reboots[..i], id)
      invariant LatestOf(last, RebootPairs(reboots)[..i])
    {
      var o := reboots[i];
      assert reboots[..i + 1][..i] == reboots[..i];
      used := used[o.id := (if o.id in used then used[o.id] else 0) + 1];
      LatestStep(last, RebootPairs(reboots)[..i], o.id, o.startedAt);
      assert RebootPairs(reboots)[..i + 1] == RebootPairs(reboots)[..i] + [(o.id, o.startedAt)];
      if o.id !in last || o.startedAt > last[o.id] {
        last := last[o.id := o.startedAt];
      }
      i := i + 1;
    }
    assert reboots[..i] == reboots && RebootPairs(reboots)[..i] == RebootPairs(reboots);
  }

  lemma NothingLatest()
    ensures LatestOf(map[], [])
  {
  }

  method LoadBudgets(history: seq<Op>, rotations: seq<Rotation>, active: map<string, Op>, now: int,
                     perDay: int, cooldown: int, maxConcurrent: int, minInterval: int) returns (b: Budgets)
    ensures Loaded(b, history, now) && b.rebootPerDay == perDay && b.rebootCooldown == cooldown
    ensures (forall id :: b.Used(id) == IdReboots(history, id, now)) && LatestReboots(b.lastReboot, history, now)
    ensures b.maxConcurrentRotate == maxConcurrent && b.minRotateInterval == minInterval
    ensures b.rotateInFlight == |set k | k in active && active[k].kind.Rotate?|
    ensures exists recent :: LatestOf(b.lastRotate, RotationPairs(recent))
              && forall r :: r in recent <==> r in rotations && (now - ROTATION_LOOKBACK > 0 ==> r.requestedAt >= now - ROTATION_LOOKBACK)
  {
    hide ListReboots, CountOf, LatestOf, LatestReboots, IdReboots;
    var reboots := ListReboots(history, Filter(None, [], StartOfDay(now)));
    var used, last := AddReboots(reboots);
    var recent := Recent(rotations, now - ROTATION_LOOKBACK);
    RecentMembers(rotations, now - ROTATION_LOOKBACK);
    var lastRotate := AddUp(RotationPairs(recent));
    var inFlight := CountRotates(active);
    b := Budgets(perDay, cooldown, used, last, inFlight, maxConcurrent, minInterval, lastRotate);
    LoadedMeans(b, history, now);
  }

  function Recent(rs: seq<Rotation>, since: int): seq<Rotation> {
    if rs == [] then [] else (if since > 0 && rs[0].requestedAt < since then [] else [rs[0]]) + Recent(rs[1..], since)
  }

  lemma {:induction false} RecentMembers(rs: seq<Rotation>, since: int)
    ensures forall r :: r in Recent(rs, since) <==> r in rs && (since > 0 ==> r.requestedAt >= since)
  {
    if rs != [] {
      RecentMembers(rs[1..], since);
      assert rs == [rs[0]] + rs[1..];
    }
  }

  method CountRotates(active: map<string, Op>) returns (n: nat)
    ensures n == |set k | k in active && active[k].kind.Rotate?|
  {
    n := 0;
    var left := active.Keys;
    while left != {}
      invariant left <= active.Keys
      invariant n == |set k | k in active && k !in left && active[k].kind.Rotate?|
      decreases |left|
    {
      var k :| k in left;
      ghost var before := set j | j in active && j !in left && active[j].kind.Rotate?;
      left := left - {k};
      ghost var after := set j | j in active && j !in left && active[j].kind.Rotate?;
      if active[k].kind.Rotate? {
        assert after == before + {k};
        n := n + 1;
      } else {
        assert after == before;
      }
    }
    assert (set k | k in active && k !in left && active[k].kind.Rotate?) == set k | k in active && active[k].kind.Rotate?;
  }

  // ---- the two agree ----

  /** A reboot of the day that was filed under the dongle's id but on another kind of subject. */
  predicate Foreign(o: Op, dongle: string, now: int) {
    o.id == dongle && !o.subject.OnDongle? && Filter(None, [], StartOfDay(now)).Accepts(o)
  }

  predicate NoForeign(history: seq<Op>, dongle: string, now: int) { forall o :: o in history ==> !Foreign(o, dongle, now) }

  lemma NoForeignStep(o: Op, rest: seq<Op>, dongle: string, now: int)
    ensures NoForeign([o] + rest, dongle, now) <==> !Foreign(o, dongle, now) && NoForeign(rest, dongle, now)
  {
    assert o in [o] + rest;
  }

  lemma {:induction false} CountAppend(a: seq<Op>, b: seq<Op>, id: string)
    ensures CountOf(a + b, id) == CountOf(a, id) + CountOf(b, id)
  {
    if b == [] {
      assert a + b == a;
    } else {
      var n := |b| - 1;
      assert (a + b)[..|a| + n] == a + b[..n];
      CountAppend(a, b[..n], id);
    }
  }

  /** The count over all subjects exceeds the scan's list exactly by the foreign reboots. */
  lemma {:induction false} CountsCompare(history: seq<Op>, dongle: string, now: int)
    requires dongle != []
    ensures var since := StartOfDay(now);
            var counted := CountOf(ListReboots(history, Filter(None, [], since)), dongle);
            var scanned := |ListReboots(history, Filter(Some(OnDongle), dongle, since))|;
            && counted >= scanned
            && (counted == scanned <==> NoForeign(history, dongle, now))
  {
    var since := StartOfDay(now);
    if history != [] {
      var o := history[0];
      CountsCompare(history[1..], dongle, now);
      assert history == [o] + history[1..];
      NoForeignStep(o, history[1..], dongle, now);
      hide NoForeign;
      var head := if Filter(None, [], since).Accepts(o) then [o] else [];
      CountAppend(head, ListReboots(history[1..], Filter(None, [], since)), dongle);
      assert CountOf(head, dongle) == if Filter(None, [], since).Accepts(o) && o.id == dongle then 1 else 0 by {
        assert CountOf([], dongle) == 0 && [o][..0] == [];
      }
    }
  }

  lemma CooldownsAgree(b: Budgets, history: seq<Op>, dongle: string, cooldown: int, now: int)
    requires Loaded(b, history, now) && dongle != []
    ensures var since := StartOfDay(now);
            (dongle in b.lastReboot ==> now - b.lastReboot[dongle] >= cooldown) <==>
            (forall o :: o in ListReboots(history, Filter(None, [], since)) && o.id == dongle ==> now - o.startedAt >= cooldown)
  {
    var all := ListReboots(history, Filter(None, [], StartOfDay(now)));
    var pairs := RebootPairs(all);
    forall o | o in all && o.id == dongle ensures dongle in b.lastReboot && o.startedAt <= b.lastReboot[dongle] {
      var i :| 0 <= i < |all| && all[i] == o;
      assert pairs[i] == (o.id, o.startedAt);
      assert pairs[i] in pairs;
    }
    if dongle in b.lastReboot {
      assert (dongle, b.lastReboot[dongle]) in pairs;
      var i :| 0 <= i < |pairs| && pairs[i] == (dongle, b.lastReboot[dongle]);
      assert all[i] in all;
    }
  }

  /** With every reboot of the day under the dongle's id made on the dongle itself, adding
      up and scanning give the same answer. */
  lemma BudgetRefinesScan(b: Budgets, history: seq<Op>, dongle: string, now: int)
    requires Loaded(b, history, now) && dongle != []
    requires NoForeign(history, dongle, now)
    ensures b.RebootAllowed(dongle, now) <==> ScanAllows(history, dongle, b.rebootPerDay, b.rebootCooldown, now)
  {
    var since := StartOfDay(now);
    CountsCompare(history, dongle, now);
    CooldownsAgree(b, history, dongle, b.rebootCooldown, now);
    ListedMembers(history, Filter(None, [], since));
    ListedMembers(history, Filter(Some(OnDongle), dongle, since));
  }

  /** Adding up is never the more generous of the two. */
  lemma BudgetNeverLooser(b: Budgets, history: seq<Op>, dongle: string, now: int)
    requires Loaded(b, history, now) && dongle != []
    ensures b.RebootAllowed(dongle, now) ==> ScanAllows(history, dongle, b.rebootPerDay, b.rebootCooldown, now)
  {
    var since := StartOfDay(now);
    CountsCompare(history, dongle, now);
    CooldownsAgree(b, history, dongle, b.rebootCooldown, now);
    ListedMembers(history, Filter(None, [], since));
    ListedMembers(history, Filter(Some(OnDongle), dongle, since));
  }

  /** The two agree under every policy exactly when no foreign reboot is on the books. */
  lemma AgreeUnlessForeign(b: Budgets, history: seq<Op>, dongle: string, now: int)
    requires Loaded(b, history, now) && dongle != []
    requires forall o :: o in history ==> o.startedAt <= now
    ensures (forall perDay: int, cooldown: int :: cooldown >= 0 ==>
               (b.(rebootPerDay := perDay, rebootCooldown := cooldown).RebootAllowed(dongle, now)
                <==> ScanAllows(history, dongle, perDay, cooldown, now)))
            <==> NoForeign(history, dongle, now)
  {
    if NoForeign(history, dongle, now) {
      forall perDay: int, cooldown: int | cooldown >= 0
        ensures b.(rebootPerDay := perDay, rebootCooldown := cooldown).RebootAllowed(dongle, now)
                <==> ScanAllows(history, dongle, perDay, cooldown, now)
      {
        BudgetRefinesScan(b.(rebootPerDay := perDay, rebootCooldown := cooldown), history, dongle, now);
      }
    } else {
      var since := StartOfDay(now);
      CountsCompare(history, dongle, now);
      var perDay := |ListReboots(history, Filter(Some(OnDongle), dongle, since))| + 1;
      ListedMembers(history, Filter(Some(OnDongle), dongle, since));
      assert ScanAllows(history, dongle, perDay, 0, now);
      assert !b.(rebootPerDay := perDay, rebootCooldown := 0).RebootAllowed(dongle, now);
    }
  }
}
