/** Polling devices with backoff, and what an unreachable device must have done before a
    reboot is planned (internal/reconcile/poll.go, backoff.go, plan.go). */
module ReconcilePoll {
  import opened Wrappers
  import opened Domain
  import opened ReconcileOrder
  import opened ReconcileWorld
  import opened ReconcilePlan

  // ---- backoff ----

  const DEFAULT_MIN := 2000.0
  const DEFAULT_MAX := 300000.0
  const DEFAULT_FACTOR := 2.0
  const MAX_EXPONENT := 20

  function Clamp(x: real, lo: real, hi: real): real { if x < lo then lo else if x > hi then hi else x }

  function Times(x: real, y: real): real { x * y }

  function Power(x: real, n: nat): real { if n == 0 then 1.0 else Times(x, Power(x, n - 1)) }

  /** A factor between 1 - jitter and 1 + jitter, picked by the dice. */
  function Spread(jitter: real, r: real): real { 1.0 - jitter + Times(2.0 * jitter, r) }

  datatype Backoff = Backoff(min: real, max: real, factor: real, jitter: real)
  {
    function Normalised(): Backoff {
      var lo := if min <= 0.0 then DEFAULT_MIN else min;
      var hi := if max <= 0.0 then DEFAULT_MAX else max;
      Backoff(lo, if hi < lo then lo else hi, if factor < 1.0 then DEFAULT_FACTOR else factor, Clamp(jitter, 0.0, 1.0))
    }

    function Delay(failures: int, rnd: real): real {
      var b := Normalised();
      if failures <= 0 then 0.0
      else
        var d := Times(b.min, Power(b.factor, if failures - 1 > MAX_EXPONENT then MAX_EXPONENT else failures - 1));
        Times(if d > b.max then b.max else d, Spread(b.jitter, Clamp(rnd, 0.0, 1.0)))
    }
  }

  lemma TimesMono(a: real, b: real, k: real)
    requires a <= b && k >= 0.0
    ensures Times(a, k) <= Times(b, k) && Times(k, a) <= Times(k, b)
  {
  }

  lemma TimesUnits(k: real)
    ensures Times(0.0, k) == 0.0 == Times(k, 0.0) && Times(1.0, k) == k == Times(k, 1.0)
  {
  }

  lemma {:induction false} PowerAtLeastOne(x: real, n: nat)
    requires x >= 1.0
    ensures Power(x, n) >= 1.0
  {
    hide Times;
    if n > 0 {
      PowerAtLeastOne(x, n - 1);
      TimesMono(1.0, x, Power(x, n - 1));
      TimesUnits(Power(x, n - 1));
    }
  }

  lemma SpreadBounds(j: real, r: real)
    requires 0.0 <= j <= 1.0 && 0.0 <= r <= 1.0
    ensures 0.0 <= 1.0 - j <= Spread(j, r) <= 1.0 + j
  {
    hide Times;
    TimesMono(0.0, r, 2.0 * j);
    TimesMono(r, 1.0, 2.0 * j);
    TimesUnits(2.0 * j);
  }

  /** Whatever the settings and the dice, a failing device waits within the jitter of the
      shortest and the longest delay. */
  lemma DelayBounds(b: Backoff, failures: int, rnd: real)
    requires failures > 0
    ensures var n := b.Normalised();
            Times(n.min, 1.0 - n.jitter) <= b.Delay(failures, rnd) <= Times(n.max, 1.0 + n.jitter)
    ensures b.Delay(failures, rnd) >= 0.0
  {
    hide Times, Spread, Power;
    var n := b.Normalised();
    var p := Power(n.factor, if failures - 1 > MAX_EXPONENT then MAX_EXPONENT else failures - 1);
    PowerAtLeastOne(n.factor, if failures - 1 > MAX_EXPONENT then MAX_EXPONENT else failures - 1);
    TimesMono(1.0, p, n.min);
    TimesUnits(n.min);
    var x := if Times(n.min, p) > n.max then n.max else Times(n.min, p);
    var k := Spread(n.jitter, Clamp(rnd, 0.0, 1.0));
    SpreadBounds(n.jitter, Clamp(rnd, 0.0, 1.0));
    TimesMono(n.min, x, 1.0 - n.jitter);
    TimesMono(1.0 - n.jitter, k, x);
    TimesMono(x, n.max, k);
    TimesMono(k, 1.0 + n.jitter, n.max);
    TimesMono(0.0, n.min, 1.0 - n.jitter);
    TimesUnits(1.0 - n.jitter);
  }

  /** The same settings without jitter. */
  function Steady(b: Backoff): Backoff { b.(jitter := 0.0) }

  function Capped(x: real, max: real): real { if x > max then max else x }

  lemma PowerStep(b: Backoff, p: nat)
    requires b.min > 0.0 && b.factor >= 1.0 && b.max >= b.min
    ensures var x, y := Times(b.min, Power(b.factor, p)), Times(b.min, Power(b.factor, p + 1));
            && y == Times(x, b.factor)
            && Capped(y, b.max) == Capped(Times(Capped(x, b.max), b.factor), b.max)
  {
    var q := Power(b.factor, p);
    assert Power(b.factor, p + 1) == Times(b.factor, q);
    assert Times(b.min, Times(b.factor, q)) == Times(Times(b.min, q), b.factor);
    var x := Times(b.min, q);
    hide Times, Power;
    TimesUnits(x);
    TimesUnits(b.max);
    if x > b.max {
      TimesMono(1.0, b.factor, x);
      TimesMono(1.0, b.factor, b.max);
    }
  }

  /** Delays grow: the first is the shortest, each further one is the last times the factor
      until the longest is reached or twenty factors are; and the dice spread each of them
      around its value without jitter. */
  lemma DelayGrows(b: Backoff, failures: int, rnd: real)
    ensures var d, shortest := Steady(b), if b.min <= 0.0 then 2000.0 else b.min;
            var longest := if b.max <= 0.0 then 300000.0 else b.max;
            var factor := if b.factor < 1.0 then 2.0 else b.factor;
            && (failures <= 0 ==> b.Delay(failures, rnd) == 0.0)
            && d.Delay(1, rnd) == shortest
            && (1 <= failures <= 20 ==>
                  var next := Times(d.Delay(failures, rnd), factor);
                  d.Delay(failures + 1, rnd) == if longest < shortest then shortest else if next > longest then longest else next)
            && (failures > 20 ==> d.Delay(failures + 1, rnd) == d.Delay(failures, rnd))
    ensures var j := if b.jitter < 0.0 then 0.0 else if b.jitter > 1.0 then 1.0 else b.jitter;
            var dice := if rnd < 0.0 then 0.0 else if rnd > 1.0 then 1.0 else rnd;
            b.Delay(failures, rnd) == Times(Steady(b).Delay(failures, rnd), 1.0 - j + Times(2.0 * j, dice))
  {
    var n := Steady(b).Normalised();
    assert Power(n.factor, 0) == 1.0;
    if 1 <= failures <= 20 {
      PowerStep(n, failures - 1);
      NeverShorter(n, failures - 1);
    }
    hide Power, Times;
    SpreadNothing(Clamp(rnd, 0.0, 1.0));
    forall x ensures Times(x, 1.0) == x && Times(0.0, x) == 0.0 { TimesUnits(x); }
  }

  lemma NeverShorter(b: Backoff, p: nat)
    requires b.min > 0.0 && b.factor >= 1.0
    ensures Times(b.min, Power(b.factor, p)) >= b.min && Times(b.min, Power(b.factor, p + 1)) >= b.min
  {
    hide Power, Times;
    PowerAtLeastOne(b.factor, p);
    PowerAtLeastOne(b.factor, p + 1);
    TimesMono(1.0, Power(b.factor, p), b.min);
    TimesMono(1.0, Power(b.factor, p + 1), b.min);
    TimesUnits(b.min);
  }

  lemma SpreadNothing(r: real)
    ensures Spread(0.0, r) == 1.0
  {
  }

  datatype BackoffState = BackoffState(failures: nat, nextAt: int)
  {
    predicate ReadyAt(now: int) { failures == 0 || now >= nextAt }

    function Failed(b: Backoff, now: int, rnd: real): BackoffState {
      BackoffState(failures + 1, now + b.Delay(failures + 1, rnd).Floor)
    }
  }

  const SUCCEEDED := BackoffState(0, 0)

  // ---- the poller ----

  /** What one poll would get: the device's answers, how long they take, and the dice. */
  datatype Reading = Reading(ok: bool, wait: nat, took: nat, conn: int, idle: Option<int>, sim: Option<int>, login: Option<bool>, rnd: real)

  datatype Poll = Poll(slot: int, at: int, ok: bool)

  /** No poll of the slot after index i. */
  ghost predicate LatestPoll(polls: seq<Poll>, s: int, i: int) {
    0 <= i < |polls| && polls[i].slot == s && forall j :: i < j < |polls| ==> polls[j].slot != s
  }

  /** An observation agrees with the polls made: its outcome is that of the latest one, and
      every success is no later than the time it carries. */
  ghost predicate Faithful(dev: Device, polls: seq<Poll>, s: int) {
    && (exists i :: LatestPoll(polls, s, i) && polls[i].ok == dev.reachable)
    && (dev.observedAt.Some? || (!dev.reachable && dev.failingSince.Some?))
    && (forall p :: p in polls && p.slot == s && p.ok ==>
          p.at <= if dev.observedAt.Some? then dev.observedAt.value else dev.failingSince.value)
  }

  ghost predicate AllFaithful(devices: map<int, Device>, polls: seq<Poll>) {
    forall s :: s in devices ==> Faithful(devices[s], polls, s)
  }

  function Observed(last: Device, r: Reading, at: int, slow: bool): Device {
    last.(reachable := true, failingSince := None, observedAt := Some(at), conn := r.conn,
          maxIdle := if r.idle.Some? then r.idle.value else last.maxIdle,
          sim := if slow && r.sim.Some? then r.sim.value else last.sim,
          loginNeeded := if slow && r.login.Some? then r.login.value else last.loginNeeded)
  }

  /** A failed poll keeps what was known, but not that the device answers. */
  function Unanswered(last: Device, at: int): Device {
    last.(reachable := false, failingSince := if last.failingSince.Some? then last.failingSince else Some(at))
  }

  /** What a slot's turn at some time makes of its observation. */
  function Outcome(row: SlotRow, last: Option<Device>, st: BackoffState, slow: bool, r: Reading, at: int): Option<Device> {
    var dev := if last.Some? then last.value else UNSEEN;
    if !row.Occupied() then None
    else if !st.ReadyAt(at) then last
    else Some(if r.ok then Observed(dev, r, at + r.took, slow) else Unanswered(dev, at))
  }

  /** And of its backoff. */
  function NextState(row: SlotRow, st: BackoffState, b: Backoff, r: Reading, at: int): BackoffState {
    if !row.Occupied() || !st.ReadyAt(at) then st else if r.ok then SUCCEEDED else st.Failed(b, at, r.rnd)
  }

  /** Everything a poll that was answered at a time found out: the connection and the idle
      time each time, the SIM and the login on a slow sweep; what it got no answer to stays. */
  predicate Answered(dev: Device, last: Device, r: Reading, at: int, slow: bool) {
    && dev.reachable && dev.observedAt == Some(at) && dev.failingSince.None? && dev.conn == r.conn
    && (r.idle.Some? ==> dev.maxIdle == r.idle.value)
    && (r.idle.None? ==> dev.maxIdle == last.maxIdle)
    && (slow && r.sim.Some? ==> dev.sim == r.sim.value)
    && (slow && r.login.Some? ==> dev.loginNeeded == r.login.value)
    && (!slow || r.sim.None? ==> dev.sim == last.sim)
    && (!slow || r.login.None? ==> dev.loginNeeded == last.loginNeeded)
  }

  /** Without an answer all that was known stays, but since when it is failing. */
  predicate Missed(dev: Device, last: Device, at: int) {
    && !dev.reachable && dev.failingSince == (if last.failingSince.Some? then last.failingSince else Some(at))
    && dev.observedAt == last.observedAt && dev.conn == last.conn && dev.maxIdle == last.maxIdle
    && dev.sim == last.sim && dev.loginNeeded == last.loginNeeded
  }

  /** What a slot's turn makes of it: nothing is known of an empty one, one that backs off is
      left as it was, and the others are polled. */
  lemma TurnMeans(row: SlotRow, last: Option<Device>, st: BackoffState, b: Backoff, slow: bool, r: Reading, at: int)
    ensures var seen, next := Outcome(row, last, st, slow, r, at), NextState(row, st, b, r, at);
            var known := if last.Some? then last.value else Device(false, 0, 0, 0, false, None, None);
            var polled := row.dongleId != "" && (st.failures == 0 || st.nextAt <= at);
            && (row.dongleId == "" ==> seen.None? && next == st)
            && (row.dongleId != "" && !polled ==> seen == last && next == st)
            && (polled && r.ok ==> seen.Some? && Answered(seen.value, known, r, at + r.took, slow) && next.failures == 0)
            && (polled && !r.ok ==> seen.Some? && Missed(seen.value, known, at)
                                    && next.failures == st.failures + 1 && next.nextAt == at + b.Delay(st.failures + 1, r.rnd).Floor)
  {
    hide Backoff.Delay;
  }

  function Find(devices: map<int, Device>, s: int): Option<Device> { if s in devices then Some(devices[s]) else None }

  function FindState(backoff: map<int, BackoffState>, s: int): BackoffState { if s in backoff then backoff[s] else SUCCEEDED }

  const UNSEEN := Device(false, 0, 0, 0, false, None, None)

  lemma LaterPoll(polls: seq<Poll>, p: Poll, s: int)
    requires p.slot != s
    ensures forall i :: LatestPoll(polls, s, i) ==> LatestPoll(polls + [p], s, i)
  {
  }

  lemma OwnPoll(polls: seq<Poll>, p: Poll)
    ensures LatestPoll(polls + [p], p.slot, |polls|)
  {
  }

  lemma FaithfulToOthers(dev: Device, polls: seq<Poll>, p: Poll, s: int)
    requires Faithful(dev, polls, s) && p.slot != s
    ensures Faithful(dev, polls + [p], s)
  {
    var i :| LatestPoll(polls, s, i) && polls[i].ok == dev.reachable;
    LaterPoll(polls, p, s);
    assert LatestPoll(polls + [p], s, i) && (polls + [p])[i].ok == dev.reachable;
  }

  lemma FaithfulAfterSuccess(last: Device, polls: seq<Poll>, r: Reading, s: int, at: int, slow: bool)
    requires forall p :: p in polls ==> p.at <= at
    ensures Faithful(Observed(last, r, at, slow), polls + [Poll(s, at, true)], s)
  {
    OwnPoll(polls, Poll(s, at, true));
    assert (polls + [Poll(s, at, true)])[|polls|].ok;
  }

  lemma FaithfulAfterFailure(last: Device, known: bool, polls: seq<Poll>, s: int, at: int)
    requires forall p :: p in polls ==> p.at <= at
    requires if known then Faithful(last, polls, s) else last == UNSEEN
    ensures Faithful(Unanswered(last, at), polls + [Poll(s, at, false)], s)
  {
    OwnPoll(polls, Poll(s, at, false));
    assert !(polls + [Poll(s, at, false)])[|polls|].ok;
  }

  ghost predicate Fresh(rows: seq<SlotRow>, i: nat, s: int)
    requires i <= |rows|
  {
    forall j :: 0 <= j < i ==> rows[j].slot != s
  }

  /** Slots whose turn is still to come are as the polls so far say. */
  ghost predicate Pending(devices: map<int, Device>, polls: seq<Poll>, rows: seq<SlotRow>, i: nat)
    requires i <= |rows|
  {
    forall s :: s in devices && Fresh(rows, i, s) ==> Faithful(devices[s], polls, s)
  }

  ghost predicate FromRows(devices: map<int, Device>, rows: seq<SlotRow>, i: nat)
    requires i <= |rows|
  {
    forall s :: s in devices ==> exists j :: 0 <= j < i && rows[j].slot == s && rows[j].Occupied() && ValidSlot(s)
  }

  ghost predicate SameBefore(a: map<int, BackoffState>, b: map<int, BackoffState>, rows: seq<SlotRow>, i: nat)
    requires i <= |rows|
  {
    forall s :: Fresh(rows, i, s) ==> FindState(a, s) == FindState(b, s)
  }

  predicate OnePoll(before: seq<Poll>, after: seq<Poll>, s: int) {
    after == before || (|after| == |before| + 1 && after[..|before|] == before && after[|before|].slot == s)
  }

  lemma OthersStayFaithful(before: seq<Poll>, after: seq<Poll>, s: int)
    requires OnePoll(before, after, s)
    ensures forall d, k :: k != s && Faithful(d, before, k) ==> Faithful(d, after, k)
  {
    if after != before {
      assert after == before + [after[|before|]];
      forall d, k | k != s && Faithful(d, before, k) ensures Faithful(d, after, k) {
        FaithfulToOthers(d, before, after[|before|], k);
      }
    }
  }

  lemma PendingStep(devices: map<int, Device>, before: seq<Poll>, after: seq<Poll>, rows: seq<SlotRow>, i: nat)
    requires i < |rows| && OnePoll(before, after, rows[i].slot) && Pending(devices, before, rows, i)
    ensures Pending(devices, after, rows, i + 1)
  {
    hide Faithful;
    OthersStayFaithful(before, after, rows[i].slot);
    forall s | s in devices && Fresh(rows, i + 1, s) ensures Faithful(devices[s], after, s) {
      assert Fresh(rows, i, s) && rows[i].slot != s;
    }
  }

  function With(devices: map<int, Device>, s: int, seen: Option<Device>): map<int, Device> {
    if seen.Some? then devices[s := seen.value] else devices
  }

  lemma SeenStep(devices: map<int, Device>, before: seq<Poll>, after: seq<Poll>, rows: seq<SlotRow>, i: nat, seen: Option<Device>)
    requires i < |rows| && OnePoll(before, after, rows[i].slot) && AllFaithful(devices, before) && FromRows(devices, rows, i)
    requires Fresh(rows, i, rows[i].slot)
    requires seen.Some? ==> Faithful(seen.value, after, rows[i].slot) && rows[i].Occupied() && ValidSlot(rows[i].slot)
    ensures AllFaithful(With(devices, rows[i].slot, seen), after) && FromRows(With(devices, rows[i].slot, seen), rows, i + 1)
  {
    hide Faithful;
    OthersStayFaithful(before, after, rows[i].slot);
    forall s | s in devices ensures s != rows[i].slot {
      var j :| 0 <= j < i && rows[j].slot == s;
    }
  }

  class Poller {
    const settings: Backoff
    const slowEvery: int
    var devices: map<int, Device>
    var backoff: map<int, BackoffState>
    var sweeps: nat
    var now: int
    /** Every poll made so far. */
    ghost var polls: seq<Poll>

    constructor (settings: Backoff, slowEvery: int, now: int)
      requires slowEvery > 0
      ensures devices == map[] && polls == [] && this.now == now && this.slowEvery == slowEvery && Valid()
    {
      this.settings, this.slowEvery, this.now := settings, slowEvery, now;
      devices, backoff, sweeps, polls := map[], map[], 0, [];
    }

    ghost predicate Valid()
      reads this
    {
      && slowEvery > 0
      && (forall p :: p in polls ==> p.at <= now)
      && AllFaithful(devices, polls)
    }

    function StateOf(s: int): BackoffState
      reads this`backoff
    {
      FindState(backoff, s)
    }

    predicate Due(s: int, at: int)
      reads this`backoff
    {
      StateOf(s).ReadyAt(at)
    }

    /** Polls one slot's device, unless the slot is empty or still backing off. */
    method PollDevice(row: SlotRow, last: Option<Device>, slow: bool, r: Reading) returns (seen: Option<Device>, ghost turn: int)
      requires forall p :: p in polls ==> p.at <= now
      requires last.Some? ==> Faithful(last.value, polls, row.slot)
      modifies this`backoff, this`now, this`polls
      ensures now >= old(now) && forall p :: p in polls ==> p.at <= now
      ensures OnePoll(old(polls), polls, row.slot)
      ensures seen.Some? ==> Faithful(seen.value, polls, row.slot)
      ensures !row.Occupied() ==> seen.None? && polls == old(polls) && backoff == old(backoff)
      ensures row.Occupied() && !old(Due(row.slot, now + r.wait)) ==> seen == last && polls == old(polls) && backoff == old(backoff)
      ensures row.Occupied() && old(Due(row.slot, now + r.wait)) ==>
                var dev := if last.Some? then last.value else UNSEEN;
                var at := old(now) + r.wait;
                if r.ok then
                  && seen == Some(Observed(dev, r, at + r.took, slow)) && backoff == old(backoff)[row.slot := SUCCEEDED]
                  && polls == old(polls) + [Poll(row.slot, at + r.took, true)]
                else
                  && seen == Some(Unanswered(dev, at))
                  && backoff == old(backoff)[row.slot := old(StateOf(row.slot)).Failed(settings, at, r.rnd)]
                  && polls == old(polls) + [Poll(row.slot, at, false)]
      ensures old(now) <= turn <= now && seen == Outcome(row, last, old(StateOf(row.slot)), slow, r, turn)
      ensures StateOf(row.slot) == NextState(row, old(StateOf(row.slot)), settings, r, turn)
      ensures forall s :: s != row.slot ==> StateOf(s) == old(StateOf(s))
    {
      turn := now;
      if !row.Occupied() {
        return None, turn;
      }
      now := now + r.wait;
      turn := now;
      var state := if row.slot in backoff then backoff[row.slot] else SUCCEEDED;
      if !state.ReadyAt(now) {
        return last, turn;
      }
      var dev := if last.Some? then last.value else UNSEEN;
      var at := now;
      now := now + r.took;
      if !r.ok {
        FaithfulAfterFailure(dev, last.Some?, polls, row.slot, at);
        polls := polls + [Poll(row.slot, at, false)];
        backoff := backoff[row.slot := state.Failed(settings, at, r.rnd)];
        return Some(Unanswered(dev, at)), turn;
      }
      FaithfulAfterSuccess(dev, polls, r, row.slot, now, slow);
      polls := polls + [Poll(row.slot, now, true)];
      backoff := backoff[row.slot := SUCCEEDED];
      seen := Some(Observed(dev, r, now, slow));
    }

    /** Each slot's turn came between two times and made of its observation and its backoff what
        its own reading calls for. */
    ghost predicate Turns(rows: seq<SlotRow>, readings: seq<Reading>, n: nat, at: seq<int>, slow: bool,
                          was: map<int, Device>, become: map<int, Device>, before: map<int, BackoffState>, after: map<int, BackoffState>)
    {
      && n == |at| <= |rows| == |readings|
      && forall i :: 0 <= i < n && ValidSlot(rows[i].slot) ==>
           var s := rows[i].slot;
           && Find(become, s) == Outcome(rows[i], Find(was, s), FindState(before, s), slow, readings[i], at[i])
           && FindState(after, s) == NextState(rows[i], FindState(before, s), settings, readings[i], at[i])
    }

    /** One sweep over the rows, each slot once. A slot that is empty or never answered while
        backing off loses its observation. */
    method Sweep(rows: seq<SlotRow>, readings: seq<Reading>, canceled: bool) returns (ghost at: seq<int>)
      requires Valid() && |readings| == |rows|
      requires forall i, j :: 0 <= i < j < |rows| ==> rows[i].slot != rows[j].slot
      modifies this
      ensures Valid() && now >= old(now) && old(polls) <= polls
      ensures sweeps == old(sweeps) + if canceled then 0 else 1
      ensures forall s :: s in devices ==> exists i :: 0 <= i < |rows| && rows[i].slot == s && rows[i].Occupied() && ValidSlot(s)
      ensures (forall t :: t in at ==> old(now) <= t <= now)
      ensures Turns(rows, readings, |rows|, at, old(sweeps) % slowEvery == 0, old(devices), devices, old(backoff), backoff)
      ensures forall s :: (forall i :: 0 <= i < |rows| ==> rows[i].slot != s) ==> StateOf(s) == old(StateOf(s))
    {
      hide Faithful, AllFaithful, Outcome, NextState, Pending, FromRows, SameBefore, Fresh, Turns, OnePoll, With;
      var prev := devices;
      var next: map<int, Device> := map[];
      var slow := sweeps % slowEvery == 0;
      at := [];
      SweepStarts(rows, readings, slow, prev, backoff);
      var i := 0;
      while i < |rows|
        invariant 0 <= i <= |rows|
        invariant now >= old(now) && (forall p :: p in polls ==> p.at <= now)
        invariant old(polls) <= polls
        invariant devices == prev == old(devices) && sweeps == old(sweeps)
        invariant Pending(prev, polls, rows, i) && AllFaithful(next, polls) && FromRows(next, rows, i)
        invariant forall t :: t in at ==> old(now) <= t <= now
        invariant Turns(rows, readings, i, at, slow, prev, next, old(backoff), backoff)
        invariant SameBefore(old(backoff), backoff, rows, i)
      {
        var row := rows[i];
        ghost var turn := now;
        ghost var before, states, seenBefore := polls, backoff, next;
        var seen: Option<Device> := None;
        TurnBegins(rows, i, prev, polls, old(backoff), backoff);
        if ValidSlot(row.slot) {
          seen, turn := PollDevice(row, Find(prev, row.slot), slow, readings[i]);
          if seen.Some? {
            next := next[row.slot := seen.value];
          }
        } else {
          NoPoll(polls, row.slot);
        }
        Prefix(before, polls, row.slot);
        Kept(seenBefore, row.slot, seen);
        PendingStep(prev, before, polls, rows, i);
        SeenStep(seenBefore, before, polls, rows, i, seen);
        NextTurn(rows, readings, i, at, turn, slow, prev, seenBefore, next, old(backoff), states, backoff, seen);
        at := at + [turn];
        i := i + 1;
      }
      SweepEnds(rows, next, polls, old(backoff), backoff);
      devices := next;
      if !canceled {
        sweeps := sweeps + 1;
      }
    }

    lemma SweepStarts(rows: seq<SlotRow>, readings: seq<Reading>, slow: bool, devices: map<int, Device>, backoff: map<int, BackoffState>)
      requires |rows| == |readings|
      ensures Turns(rows, readings, 0, [], slow, devices, map[], backoff, backoff) && SameBefore(backoff, backoff, rows, 0)
      ensures FromRows(map[], rows, 0) && forall polls :: AllFaithful(map[], polls) && (AllFaithful(devices, polls) ==> Pending(devices, polls, rows, 0))
    {
      hide Faithful, Outcome, NextState;
    }

    lemma TurnBegins(rows: seq<SlotRow>, i: nat, devices: map<int, Device>, polls: seq<Poll>, before: map<int, BackoffState>, backoff: map<int, BackoffState>)
      requires i < |rows| && Pending(devices, polls, rows, i) && SameBefore(before, backoff, rows, i)
      requires forall i, j :: 0 <= i < j < |rows| ==> rows[i].slot != rows[j].slot
      ensures var s := rows[i].slot;
              && Fresh(rows, i, s) && FindState(before, s) == FindState(backoff, s)
              && (Find(devices, s).Some? ==> Faithful(Find(devices, s).value, polls, s))
    {
      hide Faithful, FindState;
    }

    lemma NoPoll(polls: seq<Poll>, s: int)
      ensures OnePoll(polls, polls, s)
    {
    }

    lemma Prefix(before: seq<Poll>, after: seq<Poll>, s: int)
      requires OnePoll(before, after, s)
      ensures before <= after
    {
    }

    lemma Kept(devices: map<int, Device>, s: int, seen: Option<Device>)
      ensures With(devices, s, seen) == if seen.Some? then devices[s := seen.value] else devices
    {
    }

    lemma SweepEnds(rows: seq<SlotRow>, next: map<int, Device>, polls: seq<Poll>, before: map<int, BackoffState>, backoff: map<int, BackoffState>)
      requires FromRows(next, rows, |rows|) && SameBefore(before, backoff, rows, |rows|)
      ensures forall s :: s in next ==> exists i :: 0 <= i < |rows| && rows[i].slot == s && rows[i].Occupied() && ValidSlot(s)
      ensures forall s :: (forall i :: 0 <= i < |rows| ==> rows[i].slot != s) ==> FindState(before, s) == FindState(backoff, s)
    {
      hide FindState;
      forall s | (forall i :: 0 <= i < |rows| ==> rows[i].slot != s) ensures FindState(before, s) == FindState(backoff, s) {
        assert Fresh(rows, |rows|, s);
      }
    }

    /** The turn of row n, added to those before it. */
    lemma NextTurn(rows: seq<SlotRow>, readings: seq<Reading>, n: nat, at: seq<int>, turn: int, slow: bool,
                   was: map<int, Device>, a: map<int, Device>, b: map<int, Device>,
                   before: map<int, BackoffState>, x: map<int, BackoffState>, y: map<int, BackoffState>, seen: Option<Device>)
      requires Turns(rows, readings, n, at, slow, was, a, before, x) && SameBefore(before, x, rows, n) && FromRows(a, rows, n)
      requires forall i, j :: 0 <= i < j < |rows| ==> rows[i].slot != rows[j].slot
      requires n < |rows| && b == With(a, rows[n].slot, seen)
      requires if ValidSlot(rows[n].slot) then
                 var s := rows[n].slot;
                 && seen == Outcome(rows[n], Find(was, s), FindState(x, s), slow, readings[n], turn)
                 && FindState(y, s) == NextState(rows[n], FindState(x, s), settings, readings[n], turn)
                 && forall k :: k != s ==> FindState(y, k) == FindState(x, k)
               else seen.None? && y == x
      ensures Turns(rows, readings, n + 1, at + [turn], slow, was, b, before, y) && SameBefore(before, y, rows, n + 1)
    {
      hide Outcome, NextState, FindState;
      var s := rows[n].slot;
      assert Fresh(rows, n, s);
      assert s !in a;
      forall k | Fresh(rows, n + 1, k) ensures FindState(before, k) == FindState(y, k) {
        assert Fresh(rows, n, k) && rows[n].slot != k;
      }
    }
  }

  // ---- what a planned reboot means ----

  lemma RebootNeedsSilence(w: World, row: SlotRow, px: Option<Proxy>, a: Action)
    requires a in PlanSlot(w, row, px) && a.RebootDongle?
    ensures a.slot == row.slot && a.slot in w.devices && !w.devices[a.slot].reachable && GivenUp(w.devices[a.slot], w.now)
  {
    hide EgressProblem, GivenUp, Budgets.RebootAllowed, Budgets.RotateAllowed;
    assert ValidSlot(row.slot);
    hide Blocked;
    assert a !in NetPart(w, row) && a !in FwPart(w, row) && a !in IdlePart(w, row);
    assert a !in ProxyPart(w, row, px) by { hide RecoveryPart; }
    hide NetPart, FwPart, IdlePart, ProxyPart;
  }

  lemma RebootInPlan(w: World, order: seq<int>, a: Action)
    requires w.Filed() && Listing(order, w.slots.Keys) && a in PlanOf(w, order) && a.RebootDongle?
    ensures a.slot in w.devices && !w.devices[a.slot].reachable && GivenUp(w.devices[a.slot], w.now)
  {
    hide PlanSlot, ProxyFor, GivenUp;
    assert Filled(w, order) by { forall i | 0 <= i < |order| ensures order[i] in w.slots { assert order[i] in order; } }
    HarmlessMembers(PlanNode(w) + PlanSlots(w, order));
    InPlanSlots(w, order, a);
    var s :| s in order && a in Part(w, s);
    RebootNeedsSilence(w, w.slots[s], ProxyFor(w.proxies, w.slots[s].id), a);
  }

  /** A reboot is planned only for a slot whose most recent poll failed and which has not
      answered a poll for a minute, whatever backoff skipped and whoever moved in or out. */
  lemma RebootOnlyAfterSilence(p: Poller, w: World, order: seq<int>, a: Action)
    requires p.Valid() && w.devices == p.devices && w.now >= p.now
    requires w.Filed() && Listing(order, w.slots.Keys) && a in PlanOf(w, order) && a.RebootDongle?
    ensures exists i :: LatestPoll(p.polls, a.slot, i) && !p.polls[i].ok
    ensures forall q :: q in p.polls && q.slot == a.slot && q.ok ==> w.now - q.at >= UNREACHABLE_REBOOT_AFTER
  {
    RebootInPlan(w, order, a);
    assert Faithful(p.devices[a.slot], p.polls, a.slot);
  }
}
