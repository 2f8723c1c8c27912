/** Putting a config into effect: a transaction over the file a unit reads and the unit
    itself, with a rollback (internal/proxysup/supervisor.go, Apply, rollback, await). */
module ProxySupervisor {
  import opened Wrappers
  import opened ProxySpec
  import opened ProxyText
  import opened ProxyProgram
  import opened ProxyVerify
  import opened ProxyLogPath
  import opened ProxySettings
  import opened ProxyRevoke

  const PROBE_DELAY_MS := 1500
  const PROBE_TIMEOUT_MS := 15000
  const PROBE_RETRY_MS := 250

  /** One answer of the outside world: a call succeeds or errs, a failed install may
      still have replaced the file, a sleep may overrun, and a unit looks some way. */
  datatype Reply = Reply(ok: bool, landed: bool, late: nat, active: bool, listenOk: bool, socks: bool, http: bool, probe: bool)

  /** The status one look reports: nothing past the first call that failed. */
  function Look(a: Reply): Status {
    Status(a.ok && a.active,
           a.ok && a.listenOk && a.socks,
           a.ok && a.listenOk && a.http,
           a.ok && a.listenOk && a.socks && a.http && a.probe)
  }

  /** Healthy is all that can be seen: a unit that answers, both listeners, and a probe through it. */
  lemma LookMeans(a: Reply)
    ensures var st := Look(a);
            && (st.Healthy() <==> a.ok && a.listenOk && a.socks && a.http && a.probe)
            && (st.running <==> a.ok && a.active)
            && (st.socksBound <==> a.ok && a.listenOk && a.socks) && (st.httpBound <==> a.ok && a.listenOk && a.http)
            && (st.probeOk ==> st.socksBound && st.httpBound)
  {
  }

  /** A command to the unit, with the config it found on disk. */
  datatype UnitOp = Reload(found: Option<string>) | Restart(found: Option<string>) | Stop

  datatype RollbackError = StopFailed | ReinstallFailed | RestartFailed | StillUnhealthy

  datatype ApplyError =
    | NotRendered(why: RenderError)
    | PathMismatch
    | NotValidated
    | NotInstalled
    | RolledBack(rollback: Option<RollbackError>)

  datatype Applied = Applied(changed: bool, reloaded: bool, restarted: bool, status: Status)

  const NOTHING := Applied(false, false, false, Status(false, false, false, false))

  class Supervisor {
    const configPath: string
    const logDir: string
    const dirOf: string -> string
    const skipValidate: bool
    const world: nat -> Reply
    var tick: nat
    var now: nat
    var disk: Option<string>
    var ops: seq<UnitOp>

    constructor (configPath: string, logDir: string, dirOf: string -> string, skipValidate: bool, world: nat -> Reply, disk: Option<string>)
      ensures this.disk == disk && ops == [] && this.world == world && tick == 0
      ensures this.configPath == configPath && this.logDir == logDir && this.dirOf == dirOf && this.skipValidate == skipValidate
    {
      this.configPath, this.logDir, this.dirOf, this.skipValidate := configPath, logDir, dirOf, skipValidate;
      this.world, this.disk, tick, now, ops := world, disk, 0, 0, [];
    }

    predicate PathsOk(sp: Spec) { sp.configPath == configPath && dirOf(sp.logPath) == logDir }

    method Ask() returns (a: Reply)
      modifies this`tick
      ensures tick == old(tick) + 1 && a == world(old(tick))
    {
      a := world(tick);
      tick := tick + 1;
    }

    /** One look at the unit: its state, its two listeners, then a probe through it. */
    method Inspect() returns (st: Status)
      modifies this`tick
      ensures tick == old(tick) + 1
      ensures st == Look(world(old(tick)))
    {
      var a := Ask();
      st := Status(false, false, false, false);
      if !a.ok {
        return;
      }
      st := st.(running := a.active);
      if !a.listenOk {
        return;
      }
      st := st.(socksBound := a.socks, httpBound := a.http);
      if !st.socksBound || !st.httpBound {
        return;
      }
      st := st.(probeOk := a.probe);
    }

    method Sleep(ms: nat) returns (ok: bool)
      modifies this`tick, this`now
      ensures tick == old(tick) + 1 && ok == world(old(tick)).ok
      ensures now == if ok then old(now) + ms + world(old(tick)).late else old(now)
    {
      var a := Ask();
      ok := a.ok;
      if ok {
        now := now + ms + a.late;
      }
    }

    /** n looks, with a sleep between two of them, each found the unit unhealthy. */
    predicate Ailing(first: nat, n: nat) {
      n == 0 || (Ailing(first, n - 1) && !Look(world(first + 2 * (n - 1))).Healthy())
    }

    /** Waits for a healthy unit: a sleep, then looks with sleeps between them. It ends with the
        first healthy look, with a sleep that was cut short, or past the deadline, and then
        by no more than one retry and the lateness of the first and the last sleep. */
    method Await() returns (st: Status, ok: bool, ghost looks: nat)
      modifies this`tick, this`now
      ensures tick > old(tick) && tick >= old(tick) + 2 * looks
      ensures ok ==> looks > 0 && tick == old(tick) + 2 * looks && Ailing(old(tick) + 1, looks - 1) && st.Healthy() && st == Look(world(tick - 1))
      ensures !ok ==> Ailing(old(tick) + 1, looks)
      ensures !ok ==> !world(tick - 1).ok || now > old(now) + PROBE_DELAY_MS + PROBE_TIMEOUT_MS
      ensures world(old(tick)).ok && Look(world(old(tick) + 1)).Healthy() ==> ok
      ensures looks == 0 ==> now == old(now)
      ensures looks > 0 ==>
                now <= old(now) + PROBE_DELAY_MS + world(old(tick)).late + PROBE_TIMEOUT_MS + PROBE_RETRY_MS + world(tick - 2).late
    {
      hide Look;
      st, looks := NOTHING.status, 0;
      ok := Sleep(PROBE_DELAY_MS);
      if !ok {
        return;
      }
      var deadline := now + PROBE_TIMEOUT_MS;
      while true
        invariant tick == old(tick) + 1 + 2 * looks && Ailing(old(tick) + 1, looks)
        invariant deadline == old(now) + PROBE_DELAY_MS + world(old(tick)).late + PROBE_TIMEOUT_MS
        invariant now <= deadline + PROBE_RETRY_MS + world(tick - 1).late
        invariant looks > 0 ==> !Look(world(old(tick) + 1)).Healthy()
        decreases deadline + PROBE_RETRY_MS - now
      {
        st := Inspect();
        looks := looks + 1;
        if st.Healthy() {
          return st, true, looks;
        }
        if now > deadline {
          return st, false, looks;
        }
        ok := Sleep(PROBE_RETRY_MS);
        if !ok {
          return st, false, looks;
        }
      }
    }

    /** The command goes through and the first look at the unit finds it healthy. */
    predicate StartsWell(t: nat) { world(t).ok && world(t + 1).ok && Look(world(t + 2)).Healthy() }

    /** A command to the unit and the wait for it. */
    method Bring(op: UnitOp) returns (st: Option<Status>, up: bool)
      modifies this`tick, this`now, this`ops
      ensures tick > old(tick) && ops == old(ops) + [op]
      ensures up ==> st.Some? && st.value.Healthy() && world(old(tick)).ok
      ensures st.Some? <==> world(old(tick)).ok
      ensures StartsWell(old(tick)) ==> up
    {
      st := None;
      up := Command(op);
      if up {
        var after, well, _ := Await();
        st, up := Some(after), well;
      }
    }

    method InstallConfig(cfg: string) returns (ok: bool)
      modifies this`tick, this`disk
      ensures tick == old(tick) + 1
      ensures ok == world(old(tick)).ok
      ensures disk == if ok || world(old(tick)).landed then Some(cfg) else old(disk)
    {
      var a := Ask();
      ok := a.ok;
      if a.ok || a.landed {
        disk := Some(cfg);
      }
    }

    method Command(op: UnitOp) returns (ok: bool)
      modifies this`tick, this`ops
      ensures tick == old(tick) + 1 && ok == world(old(tick)).ok
      ensures ops == old(ops) + [op]
    {
      var a := Ask();
      ops := ops + [op];
      ok := a.ok;
    }

    /** Undoes an install: the bytes come back and the unit is made to read them, or,
        with nothing to come back to, the unit is stopped. */
    method Rollback(before: Option<string>) returns (err: Option<RollbackError>)
      modifies this`tick, this`now, this`disk, this`ops
      ensures tick > old(tick)
      ensures before.None? ==> disk == old(disk) && ops == old(ops) + [Stop]
      ensures before.None? ==> err == if world(old(tick)).ok then None else Some(StopFailed)
      ensures before.Some? ==> (err == Some(ReinstallFailed) <==> !world(old(tick)).ok)
      ensures before.Some? ==>
                if err == Some(ReinstallFailed) then ops == old(ops) && disk == if world(old(tick)).landed then before else old(disk)
                else disk == before && (ops == old(ops) + [Reload(before)] || ops == old(ops) + [Reload(before), Restart(before)])
      ensures before.Some? && ops == old(ops) + [Reload(before)] ==> err.None?
    {
      if before.None? {
        var stopped := Command(Stop);
        return if stopped then None else Some(StopFailed);
      }
      var ok := InstallConfig(before.value);
      if !ok {
        return Some(ReinstallFailed);
      }
      var st, up := Bring(Reload(disk));
      if up {
        return None;
      }
      st, up := Bring(Restart(disk));
      assert ops == old(ops) + [Reload(before), Restart(before)];
      err := if up then None else if st.None? then Some(RestartFailed) else Some(StillUnhealthy);
    }

    /** What Apply reads before it changes anything: nothing when the file is missing or unreadable. */
    ghost function Seen(t: nat): Option<string>
      reads this`disk
    {
      if world(t).ok then disk else None
    }

    /** The number of the install's call, in an Apply that gets there. */
    function Install(t: nat): nat { if skipValidate then t + 2 else t + 3 }

    method ReadConfig() returns (cfg: Option<string>)
      modifies this`tick
      ensures tick == old(tick) + 1 && cfg == old(Seen(tick))
    {
      var a := Ask();
      cfg := if a.ok then disk else None;
    }

    /** The unit is restarted unless it runs and the config it runs on loses nobody. */
    static predicate MustRestart(running: bool, seen: Option<string>, cfg: string) {
      !running || (seen.Some? && Revokes(ParseText(seen.value), ParseText(cfg)))
    }

    method NeedsRestart(running: bool, before: Option<string>, cfg: string) returns (restart: bool)
      ensures restart == MustRestart(running, before, cfg)
    {
      restart := !running;
      if running && before.Some? {
        restart := RevokesAccess(before.value, cfg);
      }
    }

    /** The part of Apply that changes things: install, start, and on failure roll back. */
    method Commit(cfg: string, before: Option<string>, st: Status) returns (applied: Applied, err: Option<ApplyError>)
      requires before.Some? ==> disk == before
      modifies this`tick, this`now, this`disk, this`ops
      ensures err.Some? ==> err.value.NotInstalled? || err.value.RolledBack?
      ensures err.None? ==> disk == Some(cfg) && applied.status.Healthy() && applied.changed
      ensures err == Some(NotInstalled) <==> !world(old(tick)).ok
      ensures err == Some(NotInstalled) ==> ops == old(ops) && disk == if world(old(tick)).landed then Some(cfg) else old(disk)
      ensures world(old(tick)).ok && !world(old(tick) + 1).ok ==> err.Some? && err.value.RolledBack?
      ensures world(old(tick)).ok && StartsWell(old(tick) + 1) ==> err.None?
      ensures err.None? ==>
                && applied.restarted == MustRestart(st.running, before, cfg)
                && applied.reloaded == !applied.restarted
                && ops == old(ops) + [if applied.reloaded then Reload(Some(cfg)) else Restart(Some(cfg))]
      ensures err.Some? && err.value.RolledBack? && before.None? ==>
                disk == Some(cfg) && ops == old(ops) + [if MustRestart(st.running, before, cfg) then Restart(disk) else Reload(disk), Stop]
      ensures err.Some? && err.value.RolledBack? && before.Some? && err.value.rollback != Some(ReinstallFailed) ==>
                && disk == before
                && |ops| >= |old(ops)| + 2 && old(ops) <= ops
                && (ops[|ops| - 1] == Reload(disk) || ops[|ops| - 1] == Restart(disk))
      ensures err == Some(RolledBack(Some(ReinstallFailed))) ==> before.Some? && (disk == before || disk == Some(cfg)) && |ops| == |old(ops)| + 1
    {
      hide Revokes, ParseText, MustRestart, Look, StartsWell;
      applied, err := NOTHING.(status := st), None;
      var ok := InstallConfig(cfg);
      if !ok {
        return applied, Some(NotInstalled);
      }
      applied := applied.(changed := true);
      var restart := NeedsRestart(st.running, before, cfg);
      applied := applied.(restarted := restart, reloaded := !restart);
      var after, up := Bring(if restart then Restart(disk) else Reload(disk));
      if after.Some? {
        applied := applied.(status := after.value);
      }
      if up {
        return;
      }
      var undone := Rollback(before);
      var last := Inspect();
      return applied.(status := last, restarted := true), Some(RolledBack(undone));
    }

    /** The checks that need nothing but the spec. */
    method Prepare(sp: Spec) returns (r: Result<string, ApplyError>)
      ensures r.Ok? <==> sp.Valid() && PathAccepted(sp) && PathsOk(sp)
      ensures r.Ok? ==> r.value == PrintAll(Program(sp))
      ensures r.Err? ==> if sp.Valid() && PathAccepted(sp) then r.error.PathMismatch? else r.error.NotRendered?
    {
      hide Spec.Valid, PrintAll, Program, ParseText, Accepted, PathAccepted;
      var rendered := Render(sp);
      if rendered.Err? {
        return Err(NotRendered(rendered.error));
      }
      if !PathsOk(sp) {
        return Err(PathMismatch);
      }
      r := Ok(rendered.value);
    }

    /** Installs a config, starts the unit on it and undoes both if it does not come up. */
    method Apply(sp: Spec) returns (applied: Applied, err: Option<ApplyError>)
      modifies this`tick, this`now, this`disk, this`ops
      // Refused before anything was touched.
      ensures err.Some? && !err.value.RolledBack? ==> ops == old(ops)
      ensures err.Some? && !err.value.RolledBack? && !err.value.NotInstalled? ==> disk == old(disk) && !applied.changed
      ensures !(sp.Valid() && PathAccepted(sp) && PathsOk(sp)) ==> err.Some? && tick == old(tick)
      ensures err == Some(NotValidated) ==> !skipValidate && !world(old(tick) + 2).ok
      ensures err.Some? && err.value.NotRendered? <==> !(sp.Valid() && PathAccepted(sp))
      ensures err == Some(PathMismatch) <==> sp.Valid() && PathAccepted(sp) && !PathsOk(sp)
      // A failed install is not undone: the new bytes stay, unread, exactly if they had landed.
      ensures err == Some(NotInstalled) ==>
                sp.Valid() && !world(Install(old(tick))).ok
                && disk == if world(Install(old(tick))).landed then Some(PrintAll(Program(sp))) else old(disk)
      ensures err.Some? && err.value.RolledBack? ==> sp.Valid() && world(Install(old(tick))).ok
      // Success: the rendered config is on disk, the unit healthy, and told at most once to read it.
      ensures err.None? ==> sp.Valid() && disk == Some(PrintAll(Program(sp))) && applied.status.Healthy()
      ensures err.None? && !applied.changed ==>
                old(disk) == disk && ops == old(ops) && old(Seen(tick)) == disk && Look(world(old(tick) + 1)).Healthy()
      ensures err.None? && applied.changed ==> world(Install(old(tick))).ok && world(Install(old(tick)) + 1).ok
      ensures err.None? && applied.changed ==>
                && applied.restarted == MustRestart(Look(world(old(tick) + 1)).running, old(Seen(tick)), disk.value)
                && applied.reloaded == !applied.restarted
                && ops == old(ops) + [if applied.reloaded then Reload(disk) else Restart(disk)]
      ensures sp.Valid() && PathAccepted(sp) && PathsOk(sp)
              && old(Seen(tick)) == Some(PrintAll(Program(sp))) && Look(world(old(tick) + 1)).Healthy() ==>
                err.None? && !applied.changed
      ensures err.None? && applied.reloaded && old(Seen(tick)).Some? ==>
                !Revokes(ParseText(old(Seen(tick)).value), ParseText(disk.value))
      ensures sp.Valid() && PathAccepted(sp) && PathsOk(sp)
              && world(old(tick) + 2).ok && world(Install(old(tick))).ok && StartsWell(Install(old(tick)) + 1) ==>
                err.None?
      // A unit that did not come up: the old bytes are back, or the new ones stay and a stop was issued.
      ensures err.Some? && err.value.RolledBack? && old(Seen(tick)).None? ==>
                disk == Some(PrintAll(Program(sp))) && |ops| == |old(ops)| + 2 && old(ops) <= ops && ops[|ops| - 1] == Stop
      ensures err.Some? && err.value.RolledBack? && old(Seen(tick)).Some? && err.value.rollback != Some(ReinstallFailed) ==>
                && disk == old(disk)
                && |ops| >= |old(ops)| + 2 && old(ops) <= ops
                && (ops[|ops| - 1] == Reload(disk) || ops[|ops| - 1] == Restart(disk))
      ensures err == Some(RolledBack(Some(ReinstallFailed))) ==> disk == old(disk) || disk == Some(PrintAll(Program(sp)))
    {
      hide Spec.Valid, PrintAll, Program, ParseText, Revokes, Accepted, Look, StartsWell, PathsOk, PathAccepted;
      applied, err := NOTHING, None;
      var prepared := Prepare(sp);
      if prepared.Err? {
        return applied, Some(prepared.error);
      }
      var cfg := prepared.value;
      var before := ReadConfig();
      var st := Inspect();
      applied := applied.(status := st);
      if before == Some(cfg) && st.Healthy() {
        return;
      }
      if !skipValidate {
        var a := Ask();
        if !a.ok {
          return applied, Some(NotValidated);
        }
      }
      applied, err := Commit(cfg, before, st);
    }

    /** A successful reload over a config rendered from spec a revokes nothing a granted. */
    method ApplyOver(sp: Spec, ghost a: Spec) returns (applied: Applied, err: Option<ApplyError>)
      requires a.Valid() && Silent(a.logPath) && Silent(sp.logPath)
      requires disk == Some(PrintAll(Program(a))) && world(tick).ok
      modifies this`tick, this`now, this`disk, this`ops
      ensures err.None? && applied.reloaded ==> sp.Valid() && !TakesAway(a, sp)
      ensures err.Some? && err.value.RolledBack? && err.value.rollback != Some(ReinstallFailed) ==> disk == old(disk)
    {
      hide Spec.Valid, PrintAll, Program, ParseText, Revokes, PathAccepted, Silent, TakesAway;
      applied, err := Apply(sp);
      if err.None? && applied.reloaded {
        RevokesExactly(a, sp);
      }
    }
  }

  // ---- runs that show it ----

  const FINE := Reply(true, false, 0, true, true, true, true, true)

  /** The renamed spec takes the sample's account away. */
  lemma SampleTexts()
    ensures SAMPLE.Valid() && RENAMED.Valid() && PathAccepted(RENAMED)
    ensures var was, next := PrintAll(Program(SAMPLE)), PrintAll(Program(RENAMED));
            Revokes(ParseText(was), ParseText(next)) && was != next
  {
    hide Revokes, ParseText, PrintAll, Program, Spec.Valid, TakesAway, SAMPLE, RENAMED, PathAccepted, Silent, Accepted;
    SamplesValid();
    RenamedTakesAway();
    SamplePaths();
    OneLineSilent(SAMPLE.logPath);
    OneLineSilent(RENAMED.logPath);
    RenderedIsAccepted(RENAMED);
    RevokesExactly(SAMPLE, RENAMED);
    RevokesExactly(SAMPLE, SAMPLE);
  }

  /** Applied over a config that cannot be read: an account is gone, and still the unit is only
      reloaded. */
  method UnreadReload() returns (was: string, left: string, ops: seq<UnitOp>, applied: Applied, err: Option<ApplyError>)
    ensures SAMPLE.Valid() && was == PrintAll(Program(SAMPLE))
    ensures err.None? && applied.reloaded && ops == [Reload(Some(left))]
    ensures Revokes(ParseText(was), ParseText(left))
  {
    SampleTexts();
    SamplePaths();
    hide Revokes, ParseText, PrintAll, Program, Spec.Valid, TakesAway, SAMPLE, RENAMED, PathAccepted;
    was := PrintAll(Program(SAMPLE));
    var world := (t: nat) => if t == 0 then FINE.(ok := false) else FINE;
    var s := new Supervisor("slot1.cfg", "logs", _ => "logs", true, world, Some(was));
    assert s.StartsWell(3) && s.Install(0) == 2;
    applied, err := s.Apply(RENAMED);
    left, ops := s.disk.value, s.ops;
  }

  /** An install that fails after the rename: the new bytes are on disk and the unit was told
      nothing. */
  method LateInstall(landed: bool) returns (was: string, left: string, ops: seq<UnitOp>, err: Option<ApplyError>)
    ensures SAMPLE.Valid() && was == PrintAll(Program(SAMPLE))
    ensures err == Some(NotInstalled) && ops == [] && (left != was <==> landed)
  {
    SampleTexts();
    SamplePaths();
    hide Revokes, ParseText, PrintAll, Program, Spec.Valid, TakesAway, SAMPLE, RENAMED, PathAccepted;
    was := PrintAll(Program(SAMPLE));
    var world := (t: nat) => if t == 2 then FINE.(ok := false, landed := landed) else FINE;
    var s := new Supervisor("slot1.cfg", "logs", _ => "logs", true, world, Some(was));
    assert s.Install(0) == 2;
    var applied;
    applied, err := s.Apply(RENAMED);
    left, ops := s.disk.value, s.ops;
  }

  lemma SamplePaths()
    ensures SAMPLE.configPath == RENAMED.configPath == "slot1.cfg" && '\n' !in SAMPLE.logPath && '\n' !in RENAMED.logPath
  {
  }

  /** A first start that fails: the unit is stopped, and the config that never worked stays. */
  method FirstStartFails() returns (left: Option<string>, ops: seq<UnitOp>, err: Option<ApplyError>)
    ensures SAMPLE.Valid() && err.Some? && err.value.RolledBack?
    ensures left == Some(PrintAll(Program(SAMPLE))) && |ops| == 2 && ops[1] == Stop
  {
    hide Revokes, ParseText, PrintAll, Program, Spec.Valid, SAMPLE, PathAccepted, Accepted;
    SamplesValid();
    SamplePaths();
    RenderedIsAccepted(SAMPLE);
    // The read, the first look, then the start.
    var world := (t: nat) => if t == 0 || t == 1 || t == 3 then FINE.(ok := false) else FINE;
    var s := new Supervisor("slot1.cfg", "logs", _ => "logs", true, world, None);
    var applied;
    applied, err := s.Apply(SAMPLE);
    left, ops := s.disk, s.ops;
  }
}
