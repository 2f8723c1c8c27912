/** One rotation run against a device, a firewall and a probe that may answer anything
    (internal/rotate/rotate.go, execute, cycle, pollConn, fenceGuard; verify.go). */
module RotateRun {
  import opened Wrappers
  import opened Netip
  import opened RotatePolicy

  const CONN_CONNECTED := 901
  const CONN_DISCONNECTED := 902
  const WAIT_DISCONNECT_CAP := 15000

  // ---- the outside ----

  datatype CallErr = Fine | UnknownIface | Failed

  /** What the world does on one call. A call that errs changes nothing. */
  datatype Answer = Answer(result: CallErr, delay: nat, probeDelay: nat, late: nat, conn: int, wan: Addr, ip: Addr, locked: bool)

  datatype Act = Fence | Unfence | Kill | Flush | SwitchOff | SwitchOn | Restore | Poll | Wait | Hold(ms: int) | Probe(seen: Option<Addr>)

  /** One call, and what held right after it: whether the interface was fenced, and
      whether this run owed the customer the data session it had switched off. */
  datatype Event = Event(act: Act, ok: bool, fenced: bool, owed: bool)

  predicate Safe(trace: seq<Event>) { forall e :: e in trace ==> e.owed ==> e.fenced }

  predicate AllOk(trace: seq<Event>) { forall e :: e in trace ==> e.ok }

  /** Every call went through whose failure matters. */
  predicate Blameless(trace: seq<Event>) { forall e :: e in trace ==> e.ok || e.act.Kill? || e.act.Flush? }

  /** The session was switched on, and everything asked since was answered, but no answer was the
      wanted one: the last call is still a poll. */
  ghost predicate NeverCame(trace: seq<Event>) {
    trace != [] && trace[|trace| - 1].act.Poll? && AskedSinceOn(trace)
  }

  predicate AskedSinceOn(trace: seq<Event>) {
    trace != []
    && var last := trace[|trace| - 1];
       last.ok && (last.act.SwitchOn? || ((last.act.Poll? || last.act.Wait?) && AskedSinceOn(trace[..|trace| - 1])))
  }

  lemma {:induction false} AskedPolls(a: seq<Event>, polls: seq<Event>)
    requires Polling(polls) && a != [] && a[|a| - 1].act.SwitchOn? && a[|a| - 1].ok
    ensures AskedSinceOn(a + polls) <==> AllOk(polls)
  {
    if polls == [] {
      assert a + polls == a;
    } else {
      var n := |polls| - 1;
      assert (a + polls)[..|a| + n] == a + polls[..n];
      assert polls == polls[..n] + [polls[n]];
      AskedPolls(a, polls[..n]);
      assert polls[n] in polls;
    }
  }

  lemma CameOrNot(t: seq<Event>, polls: seq<Event>, lift: seq<Event>)
    requires Polling(polls) && t != [] && t[|t| - 1].act.SwitchOn? && t[|t| - 1].ok
    requires lift == [] || (|lift| == 1 && lift[0].act.Unfence?)
    ensures NeverCame(t + polls + lift) <==> lift == [] && AllOk(polls) && polls != [] && polls[|polls| - 1].act.Poll?
  {
    AskedPolls(t, polls);
    assert t + polls + [] == t + polls;
  }

  lemma EndsOtherwise(a: seq<Event>, b: seq<Event>)
    requires b != [] && !b[|b| - 1].act.Poll?
    ensures !NeverCame(a + b)
  {
  }

  lemma BlameIn(a: seq<Event>, x: seq<Event>, b: seq<Event>)
    requires !Blameless(x)
    ensures !Blameless(a + x + b)
  {
    var e :| e in x && !(e.ok || e.act.Kill? || e.act.Flush?);
    assert e in a + x + b;
  }

  lemma PollsAreNoProbes(polls: seq<Event>)
    requires Polling(polls)
    ensures NoProbes(polls)
  {
  }

  lemma OneNoProbe(t: seq<Event>)
    requires |t| <= 1 && forall e :: e in t ==> !e.act.Probe?
    ensures NoProbes(t)
  {
  }

  predicate NoProbes(trace: seq<Event>) { forall e :: e in trace ==> !e.act.Probe? }

  predicate Polling(trace: seq<Event>) { forall e :: e in trace ==> e.act.Poll? || e.act.Wait? }

  /** The holds of a trace, in order. */
  function Holds(trace: seq<Event>): seq<int> {
    if trace == [] then []
    else
      var last := trace[|trace| - 1];
      Holds(trace[..|trace| - 1]) + if last.act.Hold? then [last.act.ms] else []
  }

  lemma {:induction false} HoldsAppend(a: seq<Event>, b: seq<Event>)
    ensures Holds(a + b) == Holds(a) + Holds(b)
  {
    if b == [] {
      assert a + b == a;
    } else {
      var n := |b| - 1;
      assert (a + b)[..|a| + n] == a + b[..n];
      HoldsAppend(a, b[..n]);
    }
  }

  lemma {:induction false} NoHolds(b: seq<Event>)
    requires forall e :: e in b ==> !e.act.Hold?
    ensures Holds(b) == []
  {
    if b != [] {
      assert b[|b| - 1] in b;
      NoHolds(b[..|b| - 1]);
    }
  }

  lemma HoldsAfter(a: seq<Event>, b: seq<Event>)
    requires forall e :: e in b ==> !e.act.Hold?
    ensures Holds(a + b) == Holds(a)
  {
    HoldsAppend(a, b);
    NoHolds(b);
  }

  lemma HoldsAfterPolls(a: seq<Event>, polls: seq<Event>)
    requires Polling(polls)
    ensures Holds(a + polls) == Holds(a)
  {
    HoldsAfter(a, polls);
  }

  lemma SafeAppend(a: seq<Event>, b: seq<Event>)
    requires Safe(a) && Safe(b)
    ensures Safe(a + b)
  {
  }

  class Rig {
    const world: nat -> Answer
    var tick: nat
    var now: int
    var fenced: bool
    var dataOn: bool
    /** Switched off by this run, no restoring switch made yet. */
    var owed: bool
    /** The last Unfence call returned an error. */
    var unfenceFailed: bool
    /** The switch that was to restore the session returned an error. */
    var restoreFailed: bool
    var trace: seq<Event>
    /** When each fence call was made. */
    var begun: seq<int>

    constructor (world: nat -> Answer, now: int, dataOn: bool)
      ensures !fenced && this.dataOn == dataOn && !owed && !unfenceFailed && !restoreFailed && trace == [] && begun == []
      ensures this.world == world && this.now == now
    {
      this.world, this.now, this.dataOn := world, now, dataOn;
      tick, fenced, owed, unfenceFailed, restoreFailed, trace, begun := 0, false, false, false, false, [], [];
    }

    /** Device and firewall answer at once, and a probe gives up in time. */
    ghost predicate Prompt(limit: int) {
      forall t: nat :: world(t).delay == 0 && world(t).probeDelay <= limit
    }

    /** No sleep overruns by more than this. */
    ghost predicate LateBy(slack: nat) {
      forall t: nat :: world(t).late <= slack
    }

    method Record(act: Act, ok: bool)
      modifies this`trace
      ensures trace == old(trace) + [Event(act, ok, fenced, owed)]
    {
      trace := trace + [Event(act, ok, fenced, owed)];
    }

    method Take() returns (a: Answer)
      modifies this`tick, this`now
      ensures tick == old(tick) + 1 && a == world(old(tick)) && now == old(now) + a.delay
    {
      a := world(tick);
      tick := tick + 1;
      now := now + a.delay;
    }

    method FenceIface() returns (ok: bool)
      modifies this`tick, this`now, this`fenced, this`trace, this`begun
      ensures begun == old(begun) + [old(now)] && tick == old(tick) + 1
      ensures ok == world(old(tick)).result.Fine?
      ensures fenced == (ok || old(fenced))
      ensures trace == old(trace) + [Event(Fence, ok, fenced, owed)]
      ensures now >= old(now) && forall v :: Prompt(v) ==> now == old(now)
    {
      begun := begun + [now];
      var a := Take();
      ok := a.result.Fine?;
      if ok {
        fenced := true;
      }
      Record(Fence, ok);
    }

    method UnfenceIface() returns (r: CallErr)
      modifies this`tick, this`now, this`fenced, this`trace, this`unfenceFailed
      ensures tick == old(tick) + 1 && fenced == (!r.Fine? && old(fenced)) && unfenceFailed == !r.Fine?
      ensures trace == old(trace) + [Event(Unfence, r.Fine?, fenced, owed)]
      ensures now >= old(now) && forall v :: Prompt(v) ==> now == old(now)
    {
      var a := Take();
      r := a.result;
      unfenceFailed := !r.Fine?;
      if r.Fine? {
        fenced := false;
      }
      Record(Unfence, r.Fine?);
    }

    /** Kills the slot's sockets or flushes its connection tracking; a failure is only noted. */
    method Clear(act: Act)
      modifies this`tick, this`now, this`trace
      ensures tick == old(tick) + 1
      ensures exists ok :: trace == old(trace) + [Event(act, ok, fenced, owed)]
      ensures now >= old(now) && forall v :: Prompt(v) ==> now == old(now)
    {
      var a := Take();
      Record(act, a.result.Fine?);
    }

    method SwitchData(on: bool) returns (ok: bool)
      modifies this`tick, this`now, this`dataOn, this`owed, this`trace
      ensures tick == old(tick) + 1 && dataOn == if ok then on else old(dataOn)
      ensures owed == if ok then !on else old(owed)
      ensures trace == old(trace) + [Event(if on then SwitchOn else SwitchOff, ok, fenced, owed)]
      ensures now >= old(now) && forall v :: Prompt(v) ==> now == old(now)
    {
      var a := Take();
      ok := a.result.Fine?;
      if ok {
        dataOn, owed := on, !on;
      }
      Record(if on then SwitchOn else SwitchOff, ok);
    }

    /** The switch an aborted run makes on its way out. */
    method RestoreData()
      modifies this`tick, this`now, this`dataOn, this`owed, this`restoreFailed, this`trace
      ensures tick == old(tick) + 1 && !owed && (restoreFailed || dataOn)
      ensures exists ok :: trace == old(trace) + [Event(Restore, ok, fenced, false)]
      ensures now >= old(now) && forall v :: Prompt(v) ==> now == old(now)
    {
      var a := Take();
      owed := false;
      restoreFailed := !a.result.Fine?;
      if a.result.Fine? {
        dataOn := true;
      }
      Record(Restore, a.result.Fine?);
    }

    method Status() returns (a: Answer)
      modifies this`tick, this`now, this`trace
      ensures tick == old(tick) + 1 && a == world(old(tick))
      ensures trace == old(trace) + [Event(Poll, a.result.Fine?, fenced, owed)]
      ensures now >= old(now) && forall v :: Prompt(v) ==> now == old(now)
    {
      a := Take();
      Record(Poll, a.result.Fine?);
    }

    /** Clock.Sleep: the whole time and perhaps some more, or an early return with an error. */
    method Sleep(act: Act, ms: int) returns (ok: bool)
      requires ms >= 0
      modifies this`tick, this`now, this`trace
      ensures tick == old(tick) + 1 && ok == world(old(tick)).result.Fine?
      ensures if ok then now == old(now) + ms + world(old(tick)).late else old(now) <= now <= old(now) + ms
      ensures trace == old(trace) + [Event(act, ok, fenced, owed)]
    {
      var a := world(tick);
      tick := tick + 1;
      ok := a.result.Fine?;
      now := now + if ok then ms + a.late else if a.delay > ms then ms else a.delay;
      Record(act, ok);
    }

    method ProbeSource() returns (ip: Option<Addr>)
      modifies this`tick, this`now, this`trace
      ensures tick == old(tick) + 1
      ensures ip == if world(old(tick)).result.Fine? then Some(world(old(tick)).ip) else None
      ensures trace == old(trace) + [Event(Probe(ip), ip.Some?, fenced, owed)]
      ensures now >= old(now) && forall v :: Prompt(v) ==> now <= old(now) + v
    {
      var a := world(tick);
      tick := tick + 1;
      now := now + a.probeDelay;
      ip := if a.result.Fine? then Some(a.ip) else None;
      Record(Probe(ip), a.result.Fine?);
    }
  }

  // ---- verify.go ----

  /** The probe came out through the host's own uplink. */
  predicate Leaks(observed: Addr, publicHost: Addr) {
    observed.IsValid() && publicHost.IsValid() && observed.Unmap() == publicHost.Unmap()
  }

  /** What a probe saw is the node's own public address, in whichever family it was written. */
  ghost predicate ShowsLeak(seen: Option<Addr>, publicHost: Addr) {
    && seen.Some? && seen.value.IsValid() && publicHost.IsValid()
    && (seen.value == publicHost || seen.value.Unmap() == publicHost.Unmap())
  }

  /** It is an address of the carrier's, and not the one before. */
  ghost predicate ShowsMove(seen: Option<Addr>, before: Addr, publicHost: Addr) {
    !ShowsLeak(seen, publicHost) && seen.Some? && seen.value.IsValid() && before.IsValid() && seen.value != before
  }

  datatype Egress = Seen(ip: Addr) | Leaked(ip: Addr) | Unseen

  /** What a probe tells: nothing, an address, or that traffic leaves through the host. */
  function EgressOf(a: Answer, publicHost: Addr): Egress {
    if !a.result.Fine? then Unseen else if Leaks(a.ip, publicHost) then Leaked(a.ip) else Seen(a.ip)
  }

  // ---- the fence guard ----

  class FenceGuard {
    const rig: Rig
    var fenced: bool

    constructor (rig: Rig)
      ensures this.rig == rig && !fenced
    {
      this.rig, fenced := rig, false;
    }

    /** The guard knows of the fence, or the last attempt to lift it failed. */
    predicate Tracks()
      reads this, rig
    {
      rig.fenced ==> fenced || rig.unfenceFailed
    }

    method Fence() returns (ok: bool)
      requires Tracks()
      modifies this`fenced, rig`tick, rig`now, rig`fenced, rig`trace, rig`begun
      ensures rig.begun == old(rig.begun) + [old(rig.now)] && rig.tick > old(rig.tick)
      ensures ok == rig.world(old(rig.tick)).result.Fine?
      ensures Tracks() && fenced == (ok || old(fenced)) && rig.fenced == (ok || old(rig.fenced))
      ensures rig.trace == old(rig.trace) + [Event(Act.Fence, ok, rig.fenced, rig.owed)]
      ensures rig.now >= old(rig.now) && forall v :: rig.Prompt(v) ==> rig.now == old(rig.now)
    {
      ok := rig.FenceIface();
      if ok {
        fenced := true;
      }
    }

    /** Lifts the fence once; an interface the firewall no longer knows counts as lifted. */
    method Unfence() returns (ok: bool)
      requires Tracks()
      modifies this`fenced, rig`tick, rig`now, rig`fenced, rig`trace, rig`unfenceFailed
      ensures rig.tick >= old(rig.tick)
      ensures !old(fenced) ==> unchanged(rig)
      ensures Tracks() && (ok ==> !fenced) && (!ok ==> fenced) && (rig.fenced ==> rig.unfenceFailed)
      ensures rig.trace == old(rig.trace)
              || exists done :: rig.trace == old(rig.trace) + [Event(Act.Unfence, done, rig.fenced, rig.owed)]
      ensures old(fenced) ==>
                exists done :: rig.trace == old(rig.trace) + [Event(Act.Unfence, done, rig.fenced, rig.owed)] && (done ==> ok)
      ensures rig.now >= old(rig.now) && forall v :: rig.Prompt(v) ==> rig.now == old(rig.now)
    {
      if !fenced {
        return true;
      }
      var r := rig.UnfenceIface();
      if r.Failed? {
        return false;
      }
      fenced := false;
      ok := true;
    }
  }

  // ---- the engine ----

  datatype Reason =
    | Changed | Unchanged | SimLocked | EgressLeak | DeviceUnreachable | NoDataSession
    | SlotEmpty | FenceFailed | ProbeFailed | Deadline

  datatype RunResult = RunResult(reason: Reason, old_: Addr, new_: Addr, changed: bool, attempts: nat, hold: int)

  datatype PollErr = TimedOut | Broken

  datatype CycleErr = NoFence | NoConnection | DeviceErr

  function Min(a: int, b: int): int { if a < b then a else b }

  function Max(a: int, b: int): int { if a > b then a else b }

  /** How long the polling of one attempt can take. */
  function PollingTime(p: Policy): int {
    Min(p.waitConnect, WAIT_DISCONNECT_CAP) + p.waitConnect + 2 * p.pollInterval
  }

  class Engine {
    const pol: Policy
    const rig: Rig
    const publicHost: Addr

    constructor (pol: Policy, rig: Rig, publicHost: Addr)
      ensures this.pol == pol && this.rig == rig && this.publicHost == publicHost
    {
      this.pol, this.rig, this.publicHost := pol, rig, publicHost;
    }

    predicate Answered(t: nat, want: int) { rig.world(t).result.Fine? && rig.world(t).conn == want }

    /** Of n status calls from t on, with a sleep between two, none answered what was wanted. */
    predicate NotYet(t: nat, n: nat, want: int) {
      n == 0 || (NotYet(t, n - 1, want) && !Answered(t + 2 * (n - 1), want))
    }

    /** And all of them were answered. */
    predicate AllAnswered(t: nat, n: nat) {
      n == 0 || (AllAnswered(t, n - 1) && rig.world(t + 2 * (n - 1)).result.Fine?)
    }

    /** Asks the device for its connection state until it is the wanted one or the budget is
        spent. It succeeds with the first wanted answer, times out only if every call was
        answered, and otherwise some call or sleep had failed. */
    method PollConn(want: int, budget: int) returns (err: Option<PollErr>, ghost polls: seq<Event>, ghost n: nat)
      requires pol.pollInterval > 0 && budget >= 0
      modifies rig`tick, rig`now, rig`trace
      ensures rig.trace == old(rig.trace) + polls && Polling(polls)
      ensures forall e :: e in polls ==> e.fenced == rig.fenced && e.owed == rig.owed
      ensures n > 0 && rig.tick > old(rig.tick)
      ensures err.None? ==> rig.tick == old(rig.tick) + 2 * n - 1 && Answered(rig.tick - 1, want) && NotYet(old(rig.tick), n - 1, want)
      ensures err.Some? ==> NotYet(old(rig.tick), n, want)
      ensures err == Some(TimedOut) ==> AllOk(polls) && polls != [] && polls[|polls| - 1].act.Poll?
      ensures err == Some(Broken) ==> !AllOk(polls)
      ensures err == Some(TimedOut) ==> AllAnswered(old(rig.tick), n) && rig.now >= old(rig.now) + budget
      ensures err == Some(Broken) ==>
                !rig.world(rig.tick - 1).result.Fine? || (!AllAnswered(old(rig.tick), n) && rig.now >= old(rig.now) + budget)
      ensures rig.now >= old(rig.now)
      ensures forall v, z: nat :: rig.Prompt(v) && rig.LateBy(z) ==> rig.now <= old(rig.now) + budget + pol.pollInterval + z
    {
      hide Answered;
      polls, n := [], 0;
      var deadline := rig.now + budget;
      var broken := false;
      while true
        invariant rig.trace == old(rig.trace) + polls && Polling(polls)
        invariant forall e :: e in polls ==> e.fenced == rig.fenced && e.owed == rig.owed
        invariant rig.now >= old(rig.now)
        invariant rig.tick == old(rig.tick) + 2 * n && NotYet(old(rig.tick), n, want)
        invariant broken == !AllAnswered(old(rig.tick), n)
        invariant broken == !AllOk(polls)
        invariant forall v, z: nat :: rig.Prompt(v) && rig.LateBy(z) ==> rig.now <= deadline + pol.pollInterval + z
        decreases deadline + pol.pollInterval - rig.now
      {
        ghost var before := rig.trace;
        var st := rig.Status();
        polls := polls + [rig.trace[|before|]];
        n := n + 1;
        assert Answered(rig.tick - 1, want) <==> st.result.Fine? && st.conn == want by { AnswerOf(rig.tick - 1, want); }
        if st.result.Fine? {
          if st.conn == want {
            return None, polls, n;
          }
        } else {
          broken := true;
        }
        if rig.now >= deadline {
          return Some(if broken then Broken else TimedOut), polls, n;
        }
        before := rig.trace;
        var ok := rig.Sleep(Wait, pol.pollInterval);
        polls := polls + [rig.trace[|before|]];
        if !ok {
          return Some(Broken), polls, n;
        }
      }
    }

    lemma AnswerOf(t: nat, want: int)
      ensures Answered(t, want) <==> rig.world(t).result.Fine? && rig.world(t).conn == want
    {
    }

    method ProbeEgress() returns (r: Egress)
      modifies rig`tick, rig`now, rig`trace
      ensures exists seen: Option<Addr> ::
                && rig.trace == old(rig.trace) + [Event(Probe(seen), seen.Some?, rig.fenced, rig.owed)]
                && (r.Unseen? <==> seen.None?) && (r.Leaked? <==> ShowsLeak(seen, publicHost)) && (!r.Unseen? ==> seen == Some(r.ip))
      ensures rig.tick == old(rig.tick) + 1 && r == EgressOf(rig.world(old(rig.tick)), publicHost)
      ensures r.Seen? ==> !Leaks(r.ip, publicHost)
      ensures rig.now >= old(rig.now) && forall v :: rig.Prompt(v) ==> rig.now <= old(rig.now) + v
    {
      var ip := rig.ProbeSource();
      r := if ip.None? then Unseen else if Leaks(ip.value, publicHost) then Leaked(ip.value) else Seen(ip.value);
    }

    /** Fence, kill, flush, data off. */
    method Quiesce(guard: FenceGuard) returns (err: Option<CycleErr>, ghost head: seq<Event>)
      requires guard.rig == rig && guard.Tracks() && !rig.owed
      modifies guard`fenced, rig`tick, rig`now, rig`fenced, rig`dataOn, rig`owed, rig`trace, rig`begun
      ensures guard.Tracks() && rig.trace == old(rig.trace) + head && Safe(head)
      ensures rig.begun == old(rig.begun) + [old(rig.now)] && rig.tick >= old(rig.tick)
      ensures forall e :: e in head ==> !e.act.Hold?
      ensures NoProbes(head) && (err.Some? ==> !Blameless(head) && !head[|head| - 1].act.Poll?)
      ensures err.None? ==> QuietHead(head) && rig.owed && rig.fenced && guard.fenced
      ensures err.Some? ==> !rig.owed && rig.dataOn == old(rig.dataOn) && !err.value.NoConnection?
      ensures |head| == if err == Some(NoFence) then 1 else 4
      ensures err == Some(NoFence) <==> !rig.world(old(rig.tick)).result.Fine?
      ensures rig.now >= old(rig.now) && forall v :: rig.Prompt(v) ==> rig.now == old(rig.now)
    {
      ghost var t0 := rig.trace;
      var ok := guard.Fence();
      head := [Event(Act.Fence, ok, rig.fenced, false)];
      if !ok {
        return Some(NoFence), head;
      }
      rig.Clear(Kill);
      head := head + [rig.trace[|t0| + 1]];
      rig.Clear(Flush);
      head := head + [rig.trace[|t0| + 2]];
      ok := rig.SwitchData(false);
      head := head + [rig.trace[|t0| + 3]];
      err := if ok then None else Some(DeviceErr);
    }

    /** Wait for the session to drop, hold, data on. A failure leaves the session off. */
    method HoldDown(hold: int) returns (err: Option<CycleErr>, ghost p1: seq<Event>, ghost mid: seq<Event>)
      requires pol.Valid() && hold > 0 && rig.owed && rig.fenced
      modifies rig`tick, rig`now, rig`dataOn, rig`owed, rig`trace
      ensures rig.trace == old(rig.trace) + p1 + mid && Polling(p1) && Safe(p1) && Safe(mid)
      ensures err.None? ==> mid == HoldAndOn(hold) && rig.dataOn && !rig.owed
      ensures err.None? ==> rig.now >= old(rig.now) + hold
      ensures rig.tick >= old(rig.tick)
      ensures err.Some? ==> err == Some(DeviceErr) && rig.owed && !Blameless(p1 + mid)
      ensures NoProbes(mid)
      ensures Holds(mid) == [hold] || (err.Some? && mid == [])
      ensures rig.now >= old(rig.now)
      ensures forall v, z: nat :: rig.Prompt(v) && rig.LateBy(z) ==>
                rig.now <= old(rig.now) + hold + Min(pol.waitConnect, WAIT_DISCONNECT_CAP) + pol.pollInterval + 2 * z
    {
      var poll: Option<PollErr>;
      mid := [];
      ghost var calls;
      poll, p1, calls := PollConn(CONN_DISCONNECTED, Min(pol.waitConnect, WAIT_DISCONNECT_CAP));
      if poll == Some(Broken) {
        return Some(DeviceErr), p1, mid;
      }
      var ok := rig.Sleep(Hold(hold), hold);
      mid := [Event(Hold(hold), ok, true, true)];
      OneHold(mid);
      if !ok {
        return Some(DeviceErr), p1, mid;
      }
      ok := rig.SwitchData(true);
      ghost var on := Event(SwitchOn, ok, true, !ok);
      HoldsAfter(mid, [on]);
      mid := mid + [on];
      err := if ok then None else Some(DeviceErr);
    }

    /** Wait for the session to come up, then lift the fence. */
    method Resume(guard: FenceGuard) returns (err: Option<CycleErr>, ghost p2: seq<Event>, ghost lift: seq<Event>)
      requires pol.Valid() && guard.rig == rig && guard.Tracks() && guard.fenced && !rig.owed
      modifies guard`fenced, rig`tick, rig`now, rig`fenced, rig`trace, rig`unfenceFailed
      ensures guard.Tracks() && rig.trace == old(rig.trace) + p2 + lift && Polling(p2) && Safe(p2) && Safe(lift)
      ensures lift == [] || (|lift| == 1 && lift[0].act.Unfence?)
      ensures err.None? ==> lift != [] && !guard.fenced
      ensures err == Some(NoConnection) ==> lift == [] && AllOk(p2) && p2 != [] && p2[|p2| - 1].act.Poll?
      ensures err.Some? && !err.value.NoConnection? ==> err == Some(DeviceErr) && !Blameless(p2 + lift) && (lift == [] ==> !AllOk(p2))
      ensures err != Some(NoFence)
      ensures err.None? ==> exists t :: old(rig.tick) <= t < rig.tick && Answered(t, CONN_CONNECTED)
      ensures rig.now >= old(rig.now)
      ensures forall v, z: nat :: rig.Prompt(v) && rig.LateBy(z) ==> rig.now <= old(rig.now) + pol.waitConnect + pol.pollInterval + z
    {
      var poll: Option<PollErr>;
      lift := [];
      ghost var calls;
      poll, p2, calls := PollConn(CONN_CONNECTED, pol.waitConnect);
      if poll.Some? {
        return Some(if poll.value.TimedOut? then NoConnection else DeviceErr), p2, lift;
      }
      ghost var t, at := rig.trace, rig.tick - 1;
      var ok := guard.Unfence();
      assert Answered(at, CONN_CONNECTED);
      lift := [rig.trace[|t|]];
      err := if ok then None else Some(DeviceErr);
    }

    /** Off, hold, on; and, on the way out of an attempt that left the session off, the switch
        that restores it. */
    method Down(guard: FenceGuard, hold: int)
      returns (err: Option<CycleErr>, ghost head: seq<Event>, ghost p1: seq<Event>, ghost mid: seq<Event>, ghost tail: seq<Event>)
      requires pol.Valid() && hold > 0 && guard.rig == rig && guard.Tracks()
      requires !rig.owed && Safe(rig.trace)
      modifies guard`fenced, rig`tick, rig`now, rig`fenced, rig`dataOn, rig`owed, rig`trace, rig`begun, rig`restoreFailed
      ensures guard.Tracks() && Safe(rig.trace) && !rig.owed
      ensures old(rig.dataOn) && !rig.dataOn ==> rig.restoreFailed
      ensures rig.trace == old(rig.trace) + head + p1 + mid + tail && rig.tick >= old(rig.tick) && head != []
      ensures NoProbes(head) && NoProbes(p1) && NoProbes(mid) && NoProbes(tail)
      ensures err.None? ==>
                && tail == [] && |head| == 4 && rig.dataOn && rig.restoreFailed == old(rig.restoreFailed) && guard.fenced
                && QuietHead(head) && Polling(p1) && mid == HoldAndOn(hold)
                && rig.now >= old(rig.now) + hold
      ensures err.None? ==> Holds(rig.trace) == Holds(old(rig.trace)) + [hold]
      ensures err.Some? ==>
                && !err.value.NoConnection? && !Blameless(head + p1 + mid + tail) && !NeverCame(rig.trace)
                && (Holds(rig.trace) == Holds(old(rig.trace)) + [hold] || Holds(rig.trace) == Holds(old(rig.trace)))
      ensures rig.begun == old(rig.begun) + [old(rig.now)]
      ensures err == Some(NoFence) <==> !rig.world(old(rig.tick)).result.Fine?
      ensures err == Some(NoFence) <==> |rig.trace| == |old(rig.trace)| + 1
      ensures rig.now >= old(rig.now)
      ensures forall v, z: nat :: rig.Prompt(v) && rig.LateBy(z) ==>
                rig.now <= old(rig.now) + hold + Min(pol.waitConnect, WAIT_DISCONNECT_CAP) + pol.pollInterval + 2 * z
    {
      hide Safe, Holds, Polling, QuietHead, HoldAndOn, Answered, AllOk, Blameless, NeverCame, NoProbes;
      p1, mid, tail := [], [], [];
      OneNoProbe([]);
      ghost var t0 := rig.trace;
      err, head := Quiesce(guard);
      HoldsAfter(t0, head);
      SafeAppend(t0, head);
      if err.Some? {
        assert rig.trace == t0 + head + p1 + mid + tail;
        EndsOtherwise(t0, head);
        assert head + p1 + mid + tail == [] + head + [];
        BlameIn([], head, []);
        return;
      }
      ghost var t1 := rig.trace;
      err, p1, mid := HoldDown(hold);
      PollsAreNoProbes(p1);
      HoldsAfterPolls(t1, p1);
      HoldsAppend(t1 + p1, mid);
      SafeAppend(t1, p1);
      SafeAppend(t1 + p1, mid);
      if err.Some? {
        ghost var t2 := rig.trace;
        NoHolds([]);
        rig.RestoreData();
        tail := [rig.trace[|t2|]];
        assert Safe(tail) by { OwesNothing(tail); }
        SafeAppend(t2, tail);
        HoldsAfter(t2, tail);
        OneNoProbe(tail);
        EndsOtherwise(t2, tail);
        assert head + p1 + mid + tail == head + (p1 + mid) + tail;
        BlameIn(head, p1 + mid, tail);
      }
    }

    /** One attempt: everything up to the hold and back, and, on the way out of an attempt
        that left the session off, the switch that restores it. */
    method Cycle(guard: FenceGuard, hold: int)
      returns (err: Option<CycleErr>, ghost head: seq<Event>, ghost p1: seq<Event>, ghost mid: seq<Event>, ghost p2: seq<Event>, ghost tail: seq<Event>)
      requires pol.Valid() && hold > 0 && guard.rig == rig && guard.Tracks()
      requires !rig.owed && Safe(rig.trace)
      modifies guard`fenced, rig
      ensures guard.Tracks() && Safe(rig.trace) && !rig.owed
      ensures old(rig.dataOn) && !rig.dataOn ==> rig.restoreFailed
      ensures rig.trace == old(rig.trace) + head + p1 + mid + p2 + tail
      ensures err.None? || err == Some(NoConnection) ==>
                && rig.dataOn && rig.restoreFailed == old(rig.restoreFailed)
                && QuietHead(head) && Polling(p1) && mid == HoldAndOn(hold) && Polling(p2)
      ensures err.None? ==> |tail| == 1 && tail[0].act.Unfence? && !guard.fenced
      ensures err.None? ==> exists t :: old(rig.tick) <= t < rig.tick && Answered(t, CONN_CONNECTED)
      ensures err.None? || err == Some(NoConnection) ==> rig.now >= old(rig.now) + hold
      ensures rig.begun == old(rig.begun) + [old(rig.now)]
      ensures err == Some(NoConnection) ==> tail == []
      ensures head != []
      ensures NoProbes(head) && NoProbes(p1) && NoProbes(mid) && NoProbes(p2) && NoProbes(tail)
      ensures err == Some(NoFence) <==> !rig.world(old(rig.tick)).result.Fine?
      ensures err == Some(NoConnection) <==> NeverCame(rig.trace)
      ensures err.Some? && !err.value.NoConnection? ==> !Blameless(head + p1 + mid + p2 + tail)
      ensures err == Some(NoFence) <==> |rig.trace| == |old(rig.trace)| + 1
      ensures Holds(rig.trace) == Holds(old(rig.trace)) + [hold]
              || (err.Some? && !err.value.NoConnection? && Holds(rig.trace) == Holds(old(rig.trace)))
      ensures rig.now >= old(rig.now)
      ensures forall v, z: nat :: rig.Prompt(v) && rig.LateBy(z) ==> rig.now <= old(rig.now) + hold + PollingTime(pol) + 3 * z
    {
      hide Safe, Holds, Polling, QuietHead, HoldAndOn, Answered, AllOk, Blameless, NeverCame, NoProbes;
      p2 := [];
      OneNoProbe([]);
      err, head, p1, mid, tail := Down(guard, hold);
      if err.Some? {
        assert head + p1 + mid + [] + tail == head + p1 + mid + tail;
        return;
      }
      ghost var t2 := rig.trace;
      EndsOn(old(rig.trace) + head + p1, mid, hold);
      err, p2, tail := Resume(guard);
      PollsAreNoProbes(p2);
      OneNoProbe(tail);
      CameOrNot(t2, p2, tail);
      if err.Some? && !err.value.NoConnection? {
        assert head + p1 + mid + p2 + tail == (head + p1 + mid) + (p2 + tail) + [];
        BlameIn(head + p1 + mid, p2 + tail, []);
      }
      HoldsAfterPolls(t2, p2);
      HoldsAfter(t2 + p2, tail);
      SafeAppend(t2, p2);
      SafeAppend(t2 + p2, tail);
    }

    /** The last call was a probe, and it is what the result goes by. */
    predicate ProbedLast(res: RunResult)
      reads rig
    {
      && rig.tick > 0 && rig.trace != [] && rig.trace[|rig.trace| - 1].act.Probe?
      && match res.reason
         case Changed => EgressOf(rig.world(rig.tick - 1), publicHost) == Seen(res.new_)
         case EgressLeak => EgressOf(rig.world(rig.tick - 1), publicHost) == Leaked(res.new_)
         case _ => EgressOf(rig.world(rig.tick - 1), publicHost) == Unseen
    }

    predicate GoodChange(res: RunResult) {
      res.changed ==>
        res.old_.IsValid() && res.new_.IsValid() && res.new_ != res.old_ && !Leaks(res.new_, publicHost)
    }

    /** What the probe after a cycle makes of an attempt, whichever way it went. */
    ghost predicate Verdict(act: Act, before: Addr, last: bool, res: RunResult, new_: Addr) {
      if act.Probe? then
        && (res.reason.Changed? <==> ShowsMove(act.seen, before, publicHost))
        && (res.reason.EgressLeak? <==> ShowsLeak(act.seen, publicHost))
        && (res.reason.ProbeFailed? <==> act.seen.None? && last)
        && (res.reason.Changed? || res.reason.EgressLeak? || res.reason.ProbeFailed? || res.reason.Unchanged?)
        && res.new_ == if act.seen.Some? then act.seen.value else new_
      else
        && (res.reason.FenceFailed? || res.reason.NoDataSession? || res.reason.DeviceUnreachable? || res.reason.Unchanged?)
        && res.new_ == new_
    }

    /** An attempt's verdict is what its calls showed: its one probe, made last if the cycle came
        through, or a session that never came, or a call that failed. */
    ghost predicate AttemptTold(t: seq<Event>, trace: seq<Event>, last: bool, before: RunResult, res: RunResult) {
      && t < trace && NoProbes(trace[|t|..|trace| - 1])
      && Verdict(trace[|trace| - 1].act, before.old_, last, res, before.new_)
      && (!trace[|trace| - 1].act.Probe? ==>
            && (res.reason.NoDataSession? <==> last && NeverCame(trace))
            && (res.reason.Unchanged? <==> !last && NeverCame(trace))
            && (res.reason.DeviceUnreachable? || res.reason.FenceFailed? ==> !Blameless(trace[|t|..])))
    }

    /** A run's verdict is what the calls of all its attempts showed. */
    ghost predicate RunTold(all: seq<Event>, trace: seq<Event>, before: Addr, res: RunResult) {
      && (res.reason.Changed? <==> AnyMove(all, before))
      && (res.reason.EgressLeak? <==> AnyLeak(all))
      && (res.reason.DeviceUnreachable? || res.reason.FenceFailed? ==> !Blameless(all))
      && (res.reason.ProbeFailed? <==> all != [] && res.attempts == pol.maxAttempts && all[|all| - 1].act == Probe(None))
      && (res.reason.NoDataSession? <==> all != [] && res.attempts == pol.maxAttempts && NeverCame(trace))
      && !res.reason.SimLocked?
    }

    /** Nothing decided so far, and after the last attempt nothing left to decide. */
    ghost predicate Undecided(t0: seq<Event>, trace: seq<Event>, before: Addr, last: bool) {
      && t0 <= trace && !AnyMove(trace[|t0|..], before) && !AnyLeak(trace[|t0|..])
      && (last ==> t0 < trace && !NeverCame(trace) && trace[|trace| - 1].act != Probe(None))
    }

    lemma StartsUndecided(t: seq<Event>, before: Addr)
      ensures Undecided(t, t, before, false)
    {
      assert t[|t|..] == [];
      NoneShown(before);
    }

    lemma StopsUndecided(t0: seq<Event>, trace: seq<Event>, before: Addr, last: bool, res: RunResult)
      requires Undecided(t0, trace, before, last) && (res.reason.Unchanged? || res.reason.Deadline?)
      requires last || res.attempts < pol.maxAttempts
      ensures RunTold(trace[|t0|..], trace, before, res)
    {
      hide AnyMove, AnyLeak, NeverCame, Blameless;
    }

    /** One more attempt decides the run, or leaves it undecided. */
    lemma AttemptDecides(t0: seq<Event>, t: seq<Event>, trace: seq<Event>, last: bool, before: RunResult, res: RunResult)
      requires Undecided(t0, t, before.old_, false) && AttemptTold(t, trace, last, before, res)
      requires !res.reason.Deadline? && !res.reason.SlotEmpty?
      requires last <==> res.attempts == pol.maxAttempts
      ensures t0 < trace
      ensures if res.reason.Unchanged? then Undecided(t0, trace, before.old_, last) else RunTold(trace[|t0|..], trace, before.old_, res)
    {
      hide AnyMove, AnyLeak, NeverCame, Blameless, ShowsMove, ShowsLeak, NoProbes;
      var m := |trace| - 1;
      assert trace[|t0|..] == t[|t0|..] + trace[|t|..m] + [trace[m]];
      OneMoreProbe(t[|t0|..], trace[|t|..m], trace[m], before.old_);
      if !Blameless(trace[|t|..]) {
        assert trace[|t0|..] == t[|t0|..] + trace[|t|..] + [];
        BlameIn(t[|t0|..], trace[|t|..], []);
      }
      NeitherShown(trace[m].act, before.old_);
      if trace[m].act.Probe? {
        PollIsNoProbe(trace);
      }
    }

    lemma NeitherShown(act: Act, before: Addr)
      ensures act.Probe? && act.seen.None? ==> !ShowsMove(act.seen, before, publicHost) && !ShowsLeak(act.seen, publicHost)
    {
    }

    lemma PollIsNoProbe(trace: seq<Event>)
      requires trace != [] && trace[|trace| - 1].act.Probe?
      ensures !NeverCame(trace)
    {
    }

    /** Some probe showed another address, or the node's own. */
    ghost predicate AnyMove(trace: seq<Event>, before: Addr) {
      exists e :: e in trace && e.act.Probe? && ShowsMove(e.act.seen, before, publicHost)
    }

    ghost predicate AnyLeak(trace: seq<Event>) {
      exists e :: e in trace && e.act.Probe? && ShowsLeak(e.act.seen, publicHost)
    }

    lemma OneMoreProbe(a: seq<Event>, x: seq<Event>, e: Event, before: Addr)
      requires NoProbes(x)
      ensures AnyMove(a + x + [e], before) <==> AnyMove(a, before) || (e.act.Probe? && ShowsMove(e.act.seen, before, publicHost))
      ensures AnyLeak(a + x + [e]) <==> AnyLeak(a) || (e.act.Probe? && ShowsLeak(e.act.seen, publicHost))
    {
      hide ShowsMove, ShowsLeak;
      var all := a + x + [e];
      assert forall d :: d in all <==> d in a || d in x || d == e;
    }

    lemma NoneShown(before: Addr)
      ensures !AnyMove([], before) && !AnyLeak([])
    {
    }

    /** One attempt and its verdict: the run is over, or the next attempt is due. */
    method Attempt(guard: FenceGuard, hold: int, last: bool, before: RunResult)
      returns (over: bool, res: RunResult, ghost held: bool)
      requires pol.Valid() && hold > 0 && guard.rig == rig && guard.Tracks()
      requires !rig.owed && Safe(rig.trace)
      requires before.reason.Unchanged? && !before.changed
      modifies guard`fenced, rig
      ensures guard.Tracks() && Safe(rig.trace) && !rig.owed
      ensures old(rig.dataOn) && !rig.dataOn ==> over && rig.restoreFailed
      ensures GoodChange(res) && (res.changed <==> res.reason.Changed?)
      ensures res.old_ == before.old_ && res.attempts == before.attempts && res.hold == before.hold
      ensures over <==> !res.reason.Unchanged?
      ensures !over ==> held && rig.dataOn
      ensures !res.reason.Deadline? && !res.reason.SlotEmpty?
      ensures rig.begun == old(rig.begun) + [old(rig.now)]
      ensures res.reason.NoDataSession? || res.reason.ProbeFailed? ==> last && held
      ensures res.reason.FenceFailed? <==> |rig.trace| == |old(rig.trace)| + 1
      ensures res.reason.NoDataSession? || res.reason.DeviceUnreachable? ==> res.new_ == before.new_
      ensures res.reason.Changed? || res.reason.EgressLeak? || res.reason.ProbeFailed? ==> ProbedLast(res)
      // The verdict, from what the calls of this attempt showed.
      ensures AttemptTold(old(rig.trace), rig.trace, last, before, res)
      ensures res.reason.FenceFailed? <==> !rig.world(old(rig.tick)).result.Fine?
      ensures res.reason.Changed? || res.reason.Unchanged? || res.reason.EgressLeak? ==> held
      ensures res.reason.Changed? || res.reason.EgressLeak? || res.reason.ProbeFailed? ==> !guard.fenced
      ensures Holds(rig.trace) == Holds(old(rig.trace)) + if held then [hold] else []
      ensures rig.now >= old(rig.now)
      ensures forall v, z: nat :: v >= 0 && rig.Prompt(v) && rig.LateBy(z) ==>
                rig.now <= old(rig.now) + hold + PollingTime(pol) + 3 * z + v
    {
      hide Safe, Holds, HoldAndOn, QuietHead, Polling, PollingTime, Answered, NoProbes, Blameless, NeverCame, ShowsLeak, Leaks;
      res := before;
      ghost var t := rig.trace;
      var err, head, p1, mid, p2, tail := Cycle(guard, hold);
      held := Holds(rig.trace) != Holds(t);
      NoneSoFar(t, head, p1, mid, p2, tail, rig.trace);
      if err.Some? {
        over := last || !err.value.NoConnection?;
        if over {
          res := res.(reason := if err.value.NoFence? then FenceFailed
                                else if err.value.NoConnection? then NoDataSession else DeviceUnreachable);
        }
        return;
      }
      ghost var t1 := rig.trace;
      var p := ProbeEgress();
      OneCall(t1, rig.trace);
      assert rig.trace[|t|..|rig.trace| - 1] == t1[|t|..];
      if p.Leaked? {
        return true, res.(reason := EgressLeak, new_ := p.ip), held;
      }
      if p.Unseen? {
        over := last;
        if over {
          res := res.(reason := ProbeFailed);
        }
        return;
      }
      res := res.(new_ := p.ip);
      over := false;
      if p.ip.IsValid() && res.old_.IsValid() && p.ip != res.old_ {
        over, res := true, res.(changed := true, reason := Changed);
      }
    }

    /** Each of n attempts was begun with enough time left for it. */
    ghost predicate InTime(begun: seq<int>, from: nat, n: nat, deadline: int) {
      |begun| == from + n && forall k :: from <= k < |begun| ==> HasTime(deadline - begun[k], k - from)
    }

    /** Time for the hold of attempt k, counted from zero, and for the probe after it. */
    ghost predicate HasTime(remaining: int, k: nat) { pol.ladder != [] ==> remaining >= pol.RungAt(k) + pol.verifyTimeout }

    lemma FitsMeansTime(remaining: int, k: nat)
      requires pol.ladder != []
      ensures pol.AttemptFits(remaining, k + 1) <==> HasTime(remaining, k)
    {
    }

    lemma NoneBegun(begun: seq<int>, deadline: int)
      ensures InTime(begun, |begun|, 0, deadline)
    {
    }

    lemma BegunInTime(begun: seq<int>, from: nat, n: nat, deadline: int, at: int)
      requires InTime(begun, from, n, deadline) && HasTime(deadline - at, n)
      ensures InTime(begun + [at], from, n + 1, deadline) && begun <= begun + [at]
    {
      hide HasTime;
      var more := begun + [at];
      forall k | from <= k < |more| ensures HasTime(deadline - more[k], k - from) {
        if k < |begun| {
          assert HasTime(deadline - begun[k], k - from);
        }
      }
    }

    /** The attempts of a run, until the address changes, an error ends it or no attempt is left. */
    method Attempts(guard: FenceGuard, start: int, old_: Addr) returns (res: RunResult, ghost n: nat)
      requires pol.Valid() && guard.rig == rig && guard.Tracks() && start <= rig.now
      requires !rig.owed && Safe(rig.trace)
      modifies guard`fenced, rig
      ensures guard.Tracks() && Safe(rig.trace) && !rig.owed
      ensures old(rig.dataOn) && !rig.dataOn ==> rig.restoreFailed
      ensures GoodChange(res) && (res.changed <==> res.reason.Changed?)
      ensures res.attempts <= pol.maxAttempts && res.attempts - 1 <= n <= res.attempts
      ensures Holds(rig.trace) == Holds(old(rig.trace)) + pol.Rungs(n)
      ensures res.attempts == 0 <==> res.reason.Deadline?
      ensures !res.reason.SlotEmpty?
      ensures res.reason.NoDataSession? || res.reason.ProbeFailed? ==> n == pol.maxAttempts
      ensures res.reason.Changed? || res.reason.EgressLeak? || res.reason.ProbeFailed? ==> ProbedLast(res) && !guard.fenced
      ensures res.old_ == old_
      // The verdict of the run, from what the calls of all its attempts showed.
      ensures old(rig.trace) <= rig.trace
      ensures RunTold(rig.trace[|old(rig.trace)|..], rig.trace, old_, res)
      ensures InTime(rig.begun, |old(rig.begun)|, res.attempts, start + pol.hardDeadline) && old(rig.begun) <= rig.begun
      ensures res.reason.Deadline? || (res.reason.Unchanged? && n < pol.maxAttempts) ==>
                !HasTime(start + pol.hardDeadline - rig.now, n)
      ensures res.reason.Unchanged? || res.reason.Changed? ==> n == res.attempts > 0
      ensures forall z: nat :: rig.Prompt(pol.verifyTimeout) && rig.LateBy(z) ==>
                rig.now <= Max(old(rig.now), start + pol.hardDeadline + PollingTime(pol) + 3 * z)
    {
      hide Safe, Holds, PollingTime, Policy.Rungs, FenceGuard.Tracks, InTime, Undecided, RunTold, AttemptTold, ProbedLast;
      ghost var t0 := rig.trace;
      StartsUndecided(t0, old_);
      var deadline := start + pol.hardDeadline;
      assert InTime(rig.begun, |rig.begun|, 0, deadline) by { NoneBegun(rig.begun, deadline); }
      var attempt := 1;
      n := 0;
      res := RunResult(Unchanged, old_, NoAddr, false, 0, 0);
      NoRungs(pol);
      assert Holds(rig.trace) == Holds(rig.trace) + pol.Rungs(0);
      while attempt <= pol.maxAttempts
        invariant 1 <= attempt <= pol.maxAttempts + 1
        invariant n == attempt - 1 == res.attempts
        invariant res.old_ == old_
        invariant !res.changed && res.reason.Unchanged?
        invariant guard.Tracks() && Safe(rig.trace) && !rig.owed
        invariant old(rig.dataOn) ==> rig.dataOn
        invariant t0 <= rig.trace && Undecided(t0, rig.trace, old_, attempt > pol.maxAttempts)
        invariant Holds(rig.trace) == Holds(old(rig.trace)) + pol.Rungs(n)
        invariant InTime(rig.begun, |old(rig.begun)|, res.attempts, deadline) && old(rig.begun) <= rig.begun
        invariant forall z: nat :: rig.Prompt(pol.verifyTimeout) && rig.LateBy(z) ==>
                    rig.now <= Max(old(rig.now), start + pol.hardDeadline + PollingTime(pol) + 3 * z)
      {
        FitsMeansTime(deadline - rig.now, n);
        if !pol.AttemptFits(deadline - rig.now, attempt) {
          if attempt == 1 {
            res := res.(reason := Deadline);
            StopsUndecided(t0, rig.trace, old_, false, res);
            return;
          }
          break;
        }
        BegunInTime(rig.begun, |old(rig.begun)|, n, deadline, rig.now);
        var hold := pol.HoldFor(attempt);
        assert hold in pol.ladder && hold > 0;
        res := res.(attempts := attempt, hold := hold);
        NextRung(pol, n);
        var over;
        ghost var held;
        ghost var before, t, was := Holds(rig.trace), rig.trace, res;
        over, res, held := Attempt(guard, hold, attempt >= pol.maxAttempts, res);
        AttemptDecides(t0, t, rig.trace, attempt >= pol.maxAttempts, was, res);
        if held {
          n := n + 1;
          assert Holds(rig.trace) == before + [hold];
        } else {
          assert Holds(rig.trace) == before;
        }
        if over {
          return;
        }
        attempt := attempt + 1;
      }
      StopsUndecided(t0, rig.trace, old_, attempt > pol.maxAttempts, res);
    }

    /** What four answers in a row make of the checks before the fence. */
    function FirstLook(dev: Answer, sim: Answer, probe: Answer, status: Answer): RunResult {
      var none := RunResult(Unchanged, NoAddr, NoAddr, false, 0, 0);
      if !dev.result.Fine? || !sim.result.Fine? then none.(reason := DeviceUnreachable)
      else if sim.locked then none.(reason := SimLocked)
      else match EgressOf(probe, publicHost)
           case Leaked(ip) => none.(reason := EgressLeak, new_ := ip)
           case Seen(ip) => none.(old_ := ip)
           case Unseen => if status.result.Fine? then none.(old_ := status.wan) else none
    }

    /** A device that fails, a locked SIM and a leak end the run; otherwise the address to compare
        with is the one the probe saw, or the device's own without a probe, or none. */
    lemma FirstLookMeans(dev: Answer, sim: Answer, probe: Answer, status: Answer)
      ensures var r := FirstLook(dev, sim, probe, status);
              && (r.reason.DeviceUnreachable? <==> dev.result != Fine || sim.result != Fine)
              && (r.reason.SimLocked? <==> dev.result == Fine && sim.result == Fine && sim.locked)
              && (r.reason.EgressLeak? <==>
                    dev.result == Fine && sim.result == Fine && !sim.locked && probe.result == Fine && ShowsLeak(Some(probe.ip), publicHost))
              && (r.reason.EgressLeak? ==> r.new_ == probe.ip)
              && (!r.reason.DeviceUnreachable? && !r.reason.SimLocked? && !r.reason.EgressLeak? ==>
                    && r.reason.Unchanged? && r.new_ == NoAddr
                    && r.old_ == (if probe.result == Fine then probe.ip else if status.result == Fine then status.wan else NoAddr))
    {
    }

    /** How many calls they take, if none of them ends the run. */
    function Checks(probe: Answer): nat { if probe.result.Fine? then 3 else 4 }

    /** The checks before the fence: device, SIM lock, and the address to compare with. */
    method Precheck() returns (res: RunResult)
      requires Safe(rig.trace) && !rig.owed
      modifies rig`tick, rig`now, rig`trace
      ensures Safe(rig.trace) && Holds(rig.trace) == Holds(old(rig.trace))
      ensures var t := old(rig.tick);
              res == FirstLook(rig.world(t), rig.world(t + 1), rig.world(t + 2), rig.world(t + 3))
      ensures old(rig.trace) <= rig.trace
      ensures res.reason.Unchanged? ==> |rig.trace| == |old(rig.trace)| + Checks(rig.world(old(rig.tick) + 2))
      ensures !res.changed && res.attempts == 0 && res.hold == 0
      ensures res.reason.EgressLeak? ==> ProbedLast(res)
      ensures !res.reason.Changed? && !res.reason.SlotEmpty? && !res.reason.NoDataSession? && !res.reason.ProbeFailed? && !res.reason.Deadline?
      ensures rig.now >= old(rig.now)
      ensures forall v :: v >= 0 && rig.Prompt(v) ==> rig.now <= old(rig.now) + v
    {
      hide Safe, Holds;
      res := RunResult(Unchanged, NoAddr, NoAddr, false, 0, 0);
      ghost var t := rig.trace;
      var dev := rig.Status();
      OneCall(t, rig.trace);
      if !dev.result.Fine? {
        return res.(reason := DeviceUnreachable);
      }
      t := rig.trace;
      var sim := rig.Status();
      OneCall(t, rig.trace);
      if !sim.result.Fine? {
        return res.(reason := DeviceUnreachable);
      }
      if sim.locked {
        return res.(reason := SimLocked);
      }
      t := rig.trace;
      var p := ProbeEgress();
      OneCall(t, rig.trace);
      if p.Leaked? {
        return res.(reason := EgressLeak, new_ := p.ip);
      }
      if p.Seen? {
        return res.(old_ := p.ip);
      }
      t := rig.trace;
      var st := rig.Status();
      OneCall(t, rig.trace);
      if st.result.Fine? {
        res := res.(old_ := st.wan);
      }
    }

    /** The fence is lifted on the way out, if it is still up. */
    method Release(guard: FenceGuard)
      requires guard.rig == rig && guard.Tracks() && Safe(rig.trace) && !rig.owed
      modifies guard`fenced, rig`tick, rig`now, rig`fenced, rig`trace, rig`unfenceFailed
      ensures Safe(rig.trace) && Holds(rig.trace) == Holds(old(rig.trace))
      ensures rig.fenced ==> rig.unfenceFailed
      ensures !old(guard.fenced) ==> unchanged(rig)
      ensures rig.trace == old(rig.trace)
              || (|rig.trace| == |old(rig.trace)| + 1 && old(rig.trace) <= rig.trace && rig.trace[|old(rig.trace)|].act.Unfence?)
      ensures rig.now >= old(rig.now) && forall v :: rig.Prompt(v) ==> rig.now == old(rig.now)
    {
      hide Safe, Holds;
      ghost var t := rig.trace;
      var _ := guard.Unfence();
      if rig.trace != t {
        OneCall(t, rig.trace);
      }
    }

    lemma LaterHasLess(remaining: int, k: nat)
      requires !HasTime(remaining, k)
      ensures forall less :: less <= remaining ==> !HasTime(less, k)
    {
    }

    lemma RunTells(all: seq<Event>, trace: seq<Event>, before: Addr, res: RunResult)
      requires RunTold(all, trace, before, res)
      ensures res.reason.Changed? <==> AnyMove(all, before)
      ensures res.reason.EgressLeak? <==> AnyLeak(all)
      ensures res.reason.DeviceUnreachable? || res.reason.FenceFailed? ==> !Blameless(all)
      ensures !res.reason.SimLocked?
    {
    }

    lemma NoChange(res: RunResult)
      requires !res.changed
      ensures GoodChange(res)
    {
    }

    /** The checks before the fence end the run. */
    predicate Ended(t: nat)
    {
      !FirstLook(rig.world(t), rig.world(t + 1), rig.world(t + 2), rig.world(t + 3)).reason.Unchanged?
    }

    /** Lifting the fence shows nothing. */
    lemma ReleaseShowsNothing(a: seq<Event>, b: seq<Event>, m: nat, before: Addr)
      requires m <= |a| && (b == a || (|b| == |a| + 1 && a <= b && !b[|a|].act.Probe?))
      ensures m <= |b| && (AnyMove(b[m..], before) <==> AnyMove(a[m..], before)) && (AnyLeak(b[m..]) <==> AnyLeak(a[m..]))
      ensures !Blameless(a[m..]) ==> !Blameless(b[m..])
    {
      if b != a {
        assert b[m..] == a[m..] + [] + [b[|a|]];
        OneNoProbe([]);
        OneMoreProbe(a[m..], [], b[|a|], before);
        assert forall e :: e in a[m..] ==> e in b[m..];
      }
    }

    /** A whole run. Whatever the device, the firewall and the probe answer, the interface is
        fenced whenever this run has the session off, and both are put back at the end. */
    method Execute(occupied: bool) returns (res: RunResult, ghost n: nat)
      requires pol.Valid()
      requires !rig.fenced && !rig.owed && Safe(rig.trace)
      modifies rig
      ensures Safe(rig.trace) && !rig.owed
      ensures old(rig.dataOn) && !rig.dataOn ==> rig.restoreFailed
      ensures rig.fenced ==> rig.unfenceFailed
      ensures GoodChange(res) && (res.changed <==> res.reason.Changed?)
      ensures res.attempts <= pol.maxAttempts && res.attempts - 1 <= n <= res.attempts
      ensures Holds(rig.trace) == Holds(old(rig.trace)) + pol.Rungs(n)
      ensures res.reason.SlotEmpty? <==> !occupied
      ensures InTime(rig.begun, |old(rig.begun)|, res.attempts, old(rig.now) + pol.hardDeadline)
      // The checks before the fence end the run, or it goes by the attempts.
      ensures occupied ==>
                var t := old(rig.tick);
                var first := FirstLook(rig.world(t), rig.world(t + 1), rig.world(t + 2), rig.world(t + 3));
                if !first.reason.Unchanged? then res == first else res.old_ == first.old_ && (res.attempts == 0 <==> res.reason.Deadline?)
      // The verdict of the attempts, from what their probes and other calls showed.
      ensures occupied && !Ended(old(rig.tick)) ==>
                var m := |old(rig.trace)| + Checks(rig.world(old(rig.tick) + 2));
                && m <= |rig.trace|
                && (res.reason.Changed? <==> AnyMove(rig.trace[m..], res.old_))
                && (res.reason.EgressLeak? <==> AnyLeak(rig.trace[m..]))
                && (res.reason.DeviceUnreachable? || res.reason.FenceFailed? ==> !Blameless(rig.trace[m..]))
                && !res.reason.SimLocked?
      ensures res.reason.NoDataSession? || res.reason.ProbeFailed? ==> n == pol.maxAttempts
      ensures res.reason.Changed? || res.reason.EgressLeak? || res.reason.ProbeFailed? ==> ProbedLast(res)
      ensures res.reason.Unchanged? || res.reason.Changed? ==> n == res.attempts > 0
      ensures res.reason.Deadline? || (res.reason.Unchanged? && n < pol.maxAttempts) ==>
                !HasTime(old(rig.now) + pol.hardDeadline - rig.now, n)
      ensures forall z: nat :: rig.Prompt(pol.verifyTimeout) && rig.LateBy(z) ==>
                rig.now - old(rig.now) <= Max(pol.verifyTimeout, pol.hardDeadline + PollingTime(pol) + 3 * z)
    {
      hide Safe, Holds, PollingTime, FirstLook, InTime, Policy.Rungs, GoodChange, ProbedLast, HasTime, RunTold, AnyMove, AnyLeak, Blameless, NeverCame;
      NoneBegun(rig.begun, rig.now + pol.hardDeadline);
      var start := rig.now;
      // Of an earlier run.
      rig.restoreFailed, rig.unfenceFailed := false, false;
      n := 0;
      NoRungs(pol);
      assert Holds(rig.trace) == Holds(rig.trace) + pol.Rungs(0);
      if !occupied {
        res := RunResult(SlotEmpty, NoAddr, NoAddr, false, 0, 0);
        NoChange(res);
        return;
      }
      res := Precheck();
      NoChange(res);
      assert Holds(rig.trace) == Holds(rig.trace) + pol.Rungs(0);
      if !res.reason.Unchanged? {
        return;
      }
      var guard := new FenceGuard(rig);
      ghost var m := |rig.trace|;
      res, n := Attempts(guard, start, res.old_);
      if res.reason.Deadline? || (res.reason.Unchanged? && n < pol.maxAttempts) {
        LaterHasLess(start + pol.hardDeadline - rig.now, n);
      }
      ghost var a := rig.trace;
      RunTells(a[m..], a, res.old_, res);
      Release(guard);
      ReleaseShowsNothing(a, rig.trace, m, res.old_);
    }
  }

  lemma EndsOn(a: seq<Event>, mid: seq<Event>, hold: int)
    requires mid == HoldAndOn(hold)
    ensures var t := a + mid; t != [] && t[|t| - 1].act.SwitchOn? && t[|t| - 1].ok
  {
  }

  /** A cycle leaves no probe in the trace, at its end or before. */
  lemma NoneSoFar(t: seq<Event>, head: seq<Event>, p1: seq<Event>, mid: seq<Event>, p2: seq<Event>, tail: seq<Event>, after: seq<Event>)
    requires after == t + head + p1 + mid + p2 + tail && head != []
    requires NoProbes(head) && NoProbes(p1) && NoProbes(mid) && NoProbes(p2) && NoProbes(tail)
    ensures t <= after && after[|t|..] == head + p1 + mid + p2 + tail && NoProbes(after[|t|..])
    ensures NoProbes(after[|t|..|after| - 1]) && !after[|after| - 1].act.Probe?
  {
    var x := head + p1 + mid + p2 + tail;
    assert after == t + x && after[|t|..] == x;
    assert forall e :: e in x ==> e in head || e in p1 || e in mid || e in p2 || e in tail;
    assert after[|t|..|after| - 1] == x[..|x| - 1];
    assert after[|after| - 1] == x[|x| - 1] && x[|x| - 1] in x;
  }

  lemma NoRungs(p: Policy)
    ensures p.Rungs(0) == []
  {
  }

  lemma NextRung(p: Policy, n: nat)
    ensures p.Rungs(n + 1) == p.Rungs(n) + [p.HoldFor(n + 1)]
  {
  }

  /** A call that owes nothing and is no hold. */
  lemma OneCall(a: seq<Event>, b: seq<Event>)
    requires |b| == |a| + 1 && b[..|a|] == a && !b[|a|].owed && !b[|a|].act.Hold?
    requires Safe(a)
    ensures Safe(b) && Holds(b) == Holds(a)
  {
    assert b == a + [b[|a|]];
    HoldsAfter(a, [b[|a|]]);
  }

  lemma OwesNothing(t: seq<Event>)
    requires forall e :: e in t ==> !e.owed
    ensures Safe(t)
  {
  }

  lemma OneHold(t: seq<Event>)
    requires |t| == 1 && t[0].act.Hold?
    ensures Holds(t) == [t[0].act.ms]
  {
    assert t[..0] == [] && Holds([]) == [];
  }

  /** What a full attempt does between its polls. */
  function HoldAndOn(hold: int): seq<Event> {
    [Event(Hold(hold), true, true, true), Event(SwitchOn, true, true, false)]
  }

  /** How a full attempt starts. */
  predicate QuietHead(head: seq<Event>) {
    && |head| == 4
    && head[0] == Event(Fence, true, true, false) && head[1].act.Kill? && head[2].act.Flush?
    && head[3] == Event(SwitchOff, true, true, true)
  }
}
