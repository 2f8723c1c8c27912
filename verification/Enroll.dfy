/** Enrolling a dongle as a saga: every step that changes something pushes its compensation,
    and a failing run unwinds them newest first (internal/enroll/enroll.go; the foreign keys
    are those of internal/store/migrations/0001_init.sql). */
module Enroll {
  import opened Wrappers
  import opened Domain

  type Id = nat

  datatype SlotRow = SlotRow(slot: int, path: string, dongle: Option<Id>)

  /** Everything a run may change: disabled USB ports, slots with network files, slots in the
      firewall, slots with a proxy unit, and the rows. A proxy row names its slot's row. */
  datatype Host = Host(disabled: set<string>, net: set<int>, fw: set<int>, units: set<int>,
                       dongles: set<Id>, slots: map<Id, SlotRow>, proxies: map<Id, Id>)

  datatype Undo =
    | EnablePorts(ports: seq<string>)
    | RemoveNet(slot: int)
    | RemoveFw(slot: int)
    | DeleteDongle(id: Id)
    | DeleteSlot(id: Id)
    | DetachSlot(id: Id)
    | DeleteProxy(id: Id)
    | StopUnit(slot: int)

  function Without(ports: set<string>, gone: seq<string>): set<string> { set p | p in ports && p !in gone }

  /** A compensation that succeeds. Deleting a row silently cascades: a slot's proxies go with
      it and a dongle's slots are emptied. */
  function Compensate(h: Host, u: Undo): Host {
    match u
    case EnablePorts(ports) => h.(disabled := Without(h.disabled, ports))
    case RemoveNet(s) => h.(net := h.net - {s})
    case RemoveFw(s) => h.(fw := h.fw - {s})
    case DeleteDongle(d) =>
      h.(dongles := h.dongles - {d},
         slots := map k | k in h.slots :: if h.slots[k].dongle == Some(d) then h.slots[k].(dongle := None) else h.slots[k])
    case DeleteSlot(id) =>
      h.(slots := h.slots - {id}, proxies := map k | k in h.proxies && h.proxies[k] != id :: h.proxies[k])
    case DetachSlot(id) => if id in h.slots then h.(slots := h.slots[id := h.slots[id].(dongle := None)]) else h
    case DeleteProxy(id) => h.(proxies := h.proxies - {id})
    case StopUnit(s) => h.(units := h.units - {s})
  }

  /** The compensation deletes no row that another row still refers to. */
  predicate Cascadeless(h: Host, u: Undo) {
    match u
    case DeleteDongle(d) => forall k :: k in h.slots ==> h.slots[k].dongle != Some(d)
    case DeleteSlot(id) => forall k :: k in h.proxies ==> h.proxies[k] != id
    case _ => true
  }

  function Unwound(h: Host, stack: seq<Undo>): Host
    decreases stack
  {
    if stack == [] then h else Unwound(Compensate(h, stack[|stack| - 1]), stack[..|stack| - 1])
  }

  predicate SafeUnwind(h: Host, stack: seq<Undo>)
    decreases stack
  {
    stack == [] || (Cascadeless(h, stack[|stack| - 1]) && SafeUnwind(Compensate(h, stack[|stack| - 1]), stack[..|stack| - 1]))
  }

  /** A change and its compensation, pushed together, leave the way back unchanged. */
  lemma Pushed(h: Host, t: Host, stack: seq<Undo>, u: Undo)
    requires SafeUnwind(h, stack) && Compensate(t, u) == h && Cascadeless(t, u)
    ensures SafeUnwind(t, stack + [u]) && Unwound(t, stack + [u]) == Unwound(h, stack)
  {
    assert (stack + [u])[..|stack|] == stack;
  }

  /** Updating the descriptive fields of a slot's row. */
  function Touched(h: Host, id: Id, path: string): Host
    requires id in h.slots
  {
    h.(slots := h.slots[id := h.slots[id].(path := path)])
  }

  lemma TouchOne(h: Host, u: Undo, id: Id, path: string)
    requires id in h.slots && u != DeleteSlot(id)
    ensures id in Compensate(h, u).slots && Compensate(Touched(h, id, path), u) == Touched(Compensate(h, u), id, path)
    ensures Cascadeless(Touched(h, id, path), u) <==> Cascadeless(h, u)
  {
    var a, b := Compensate(Touched(h, id, path), u), Touched(Compensate(h, u), id, path);
    assert a.slots.Keys == b.slots.Keys;
    assert a.slots == b.slots;
    var t := Touched(h, id, path);
    forall k | k in h.slots ensures k in t.slots && t.slots[k].dongle == h.slots[k].dongle {
    }
    assert forall k :: k in t.slots ==> k in h.slots;
  }

  lemma {:induction false} TouchCommutes(h: Host, stack: seq<Undo>, id: Id, path: string)
    requires id in h.slots && SafeUnwind(h, stack) && DeleteSlot(id) !in stack
    ensures id in Unwound(h, stack).slots
    ensures SafeUnwind(Touched(h, id, path), stack) && Unwound(Touched(h, id, path), stack) == Touched(Unwound(h, stack), id, path)
    decreases stack
  {
    if stack != [] {
      hide Compensate, Cascadeless, Touched;
      var u, rest := stack[|stack| - 1], stack[..|stack| - 1];
      assert u in stack && forall v :: v in rest ==> v in stack;
      TouchOne(h, u, id, path);
      TouchCommutes(Compensate(h, u), rest, id, path);
    }
  }

  /** Taking a slot's network files, firewall entry or unit away. */
  predicate Bares(u: Undo) { u.RemoveNet? || u.RemoveFw? || u.StopUnit? }

  lemma BareOne(h: Host, v: Undo, u: Undo)
    requires Bares(u)
    ensures Compensate(Compensate(h, u), v) == Compensate(Compensate(h, v), u)
    ensures Cascadeless(Compensate(h, u), v) <==> Cascadeless(h, v)
  {
    assert Compensate(Compensate(h, u), v).net == Compensate(Compensate(h, v), u).net;
    assert Compensate(Compensate(h, u), v).fw == Compensate(Compensate(h, v), u).fw;
    assert Compensate(Compensate(h, u), v).units == Compensate(Compensate(h, v), u).units;
  }

  lemma {:induction false} BareCommutes(h: Host, stack: seq<Undo>, u: Undo)
    requires SafeUnwind(h, stack) && Bares(u)
    ensures SafeUnwind(Compensate(h, u), stack) && Unwound(Compensate(h, u), stack) == Compensate(Unwound(h, stack), u)
    decreases stack
  {
    if stack != [] {
      hide Compensate, Cascadeless;
      var v, rest := stack[|stack| - 1], stack[..|stack| - 1];
      BareOne(h, v, u);
      BareCommutes(Compensate(h, v), rest, u);
    }
  }

  /** A host without some of what was set up for a slot. */
  function Bared(h: Host, slot: int, net: bool, fw: bool, unit: bool): Host {
    h.(net := if net then h.net - {slot} else h.net,
       fw := if fw then h.fw - {slot} else h.fw,
       units := if unit then h.units - {slot} else h.units)
  }

  // ---- the session ----

  datatype UsbNet = UsbNet(device: string, iface: string, provisioned: bool)

  function DevicesOf(nets: seq<UsbNet>, keep: string): seq<string> {
    if nets == [] then []
    else (if nets[0].provisioned || nets[0].iface == keep then [] else [nets[0].device]) + DevicesOf(nets[1..], keep)
  }

  /** A port of another dongle that is not provisioned yet. */
  predicate OtherPort(nets: seq<UsbNet>, keep: string, port: string) {
    exists n :: n in nets && n.device == port && !n.provisioned && n.iface != keep
  }

  lemma {:induction false} DevicesMean(nets: seq<UsbNet>, keep: string)
    ensures forall p :: p in DevicesOf(nets, keep) <==> OtherPort(nets, keep, p)
  {
    if nets != [] {
      DevicesMean(nets[1..], keep);
      assert nets == [nets[0]] + nets[1..];
      forall p ensures p in DevicesOf(nets, keep) <==> OtherPort(nets, keep, p) {
        assert OtherPort(nets[1..], keep, p) ==> OtherPort(nets, keep, p);
      }
    }
  }

  lemma PortsOff(ports: set<string>, off: seq<string>, before: set<string>, nets: seq<UsbNet>, keep: string)
    requires Without(ports, off) == before && off == DevicesOf(nets, keep) && forall d :: d in off ==> d in ports
    ensures forall p :: p in ports <==> p in before || OtherPort(nets, keep, p)
  {
    hide OtherPort, DevicesOf;
    DevicesMean(nets, keep);
  }

  lemma DevicesStep(nets: seq<UsbNet>, i: nat, keep: string)
    requires i < |nets|
    ensures var n := nets[i];
            DevicesOf(nets[i..], keep) == (if n.provisioned || n.iface == keep then [] else [n.device]) + DevicesOf(nets[i + 1..], keep)
    ensures nets[i].provisioned || nets[i].iface == keep ==> DevicesOf(nets[i..], keep) == DevicesOf(nets[i + 1..], keep)
  {
    assert nets[i..][1..] == nets[i + 1..];
  }

  lemma NoDevices(keep: string)
    ensures DevicesOf([], keep) == []
  {
  }

  lemma NonePortOff(ports: set<string>)
    ensures Without(ports, []) == ports
  {
  }

  lemma PortsBack(before: Host, h: Host, off: seq<string>)
    requires h == before.(disabled := h.disabled) && Without(h.disabled, off) == before.disabled
    ensures Compensate(h, EnablePorts(off)) == before
  {
  }

  lemma PortOff(ports: set<string>, off: seq<string>, port: string, before: set<string>)
    requires Without(ports, off) == before && port !in before
    ensures Without(ports + {port}, off + [port]) == before
  {
  }

  class Session {
    /** Which calls to the outside fail, by number. A call that fails has changed nothing. */
    const fails: nat -> bool
    var calls: nat
    var nextId: Id
    var host: Host
    var rollback: seq<Undo>
    var disabled: seq<string>

    constructor (fails: nat -> bool, host: Host, nextId: Id)
      ensures this.host == host && rollback == [] && disabled == [] && this.nextId == nextId
      ensures this.fails == fails && calls == 0
    {
      this.fails, this.host, this.nextId, calls, rollback, disabled := fails, host, nextId, 0, [], [];
    }

    /** Every id in use was handed out. */
    ghost predicate Numbered()
      reads this
    {
      && (forall k :: k in host.slots ==> k < nextId && (host.slots[k].dongle.Some? ==> host.slots[k].dongle.value < nextId))
      && (forall k :: k in host.proxies ==> k < nextId && host.proxies[k] < nextId)
      && (forall d :: d in host.dongles ==> d < nextId)
    }

    ghost predicate WayBack(base: Host)
      reads this
    {
      SafeUnwind(host, rollback) && Unwound(host, rollback) == base
    }

    /** None of these calls fails. */
    ghost predicate Went(from: nat, upto: nat) {
      forall i :: from <= i < upto ==> !fails(i)
    }

    method Call() returns (ok: bool)
      modifies this`calls
      ensures calls == old(calls) + 1 && ok == !fails(old(calls))
      ensures ok <==> Went(old(calls), calls)
    {
      ok := !fails(calls);
      calls := calls + 1;
    }

    method NewId() returns (id: Id)
      modifies this`nextId
      ensures id == old(nextId) && nextId == id + 1
    {
      id := nextId;
      nextId := nextId + 1;
    }

    /** session.undo, at the point where the change it compensates has just been made. */
    method Push(u: Undo, ghost before: Host)
      requires SafeUnwind(before, rollback) && Compensate(host, u) == before && Cascadeless(host, u)
      modifies this`rollback
      ensures rollback == old(rollback) + [u] && WayBack(Unwound(before, old(rollback)))
    {
      Pushed(before, host, rollback, u);
      rollback := rollback + [u];
    }

    /** The same for a change that may find something in its place already: the compensation
        takes that away too. */
    method PushOver(u: Undo, ghost before: Host)
      requires SafeUnwind(before, rollback) && Bares(u) && Compensate(host, u) == Compensate(before, u)
      modifies this`rollback
      ensures rollback == old(rollback) + [u] && WayBack(Compensate(Unwound(before, old(rollback)), u))
    {
      BareCommutes(before, rollback, u);
      assert (rollback + [u])[..|rollback|] == rollback;
      rollback := rollback + [u];
    }

    /** session.unwind: newest first. Every deletion is of a row nothing refers to. */
    method Unwind()
      requires SafeUnwind(host, rollback)
      modifies this`host, this`rollback
      ensures host == Unwound(old(host), old(rollback)) && rollback == []
    {
      var i := |rollback|;
      assert rollback[..i] == rollback;
      while i > 0
        invariant 0 <= i <= |rollback| && rollback == old(rollback)
        invariant SafeUnwind(host, rollback[..i]) && Unwound(host, rollback[..i]) == Unwound(old(host), old(rollback))
      {
        i := i - 1;
        assert rollback[..i + 1][..i] == rollback[..i];
        assert Cascadeless(host, rollback[i]);
        host := Compensate(host, rollback[i]);
      }
      rollback := [];
    }

    /** The loop of guardPorts; if one port refuses, those already off are switched on again. */
    method DisableOthers(nets: seq<UsbNet>, keep: string) returns (ok: bool, off: seq<string>)
      requires forall n :: n in nets ==> n.device !in host.disabled
      modifies this`calls, this`host
      ensures host == old(host).(disabled := host.disabled)
      ensures !ok ==> host == old(host)
      ensures ok ==> off == DevicesOf(nets, keep) && Without(host.disabled, off) == old(host).disabled
      ensures ok ==> forall d :: d in off ==> d in host.disabled && d !in old(host).disabled
      ensures ok <==> Went(old(calls), old(calls) + |DevicesOf(nets, keep)|)
      ensures ok ==> calls == old(calls) + |DevicesOf(nets, keep)|
    {
      hide Without, DevicesOf, Compensate;
      ghost var before := host;
      off := [];
      ok := true;
      assert Without(host.disabled, off) == host.disabled by { NonePortOff(host.disabled); }
      var i := 0;
      assert nets[0..] == nets;
      while i < |nets|
        invariant 0 <= i <= |nets| && ok
        invariant DevicesOf(nets, keep) == off + DevicesOf(nets[i..], keep)
        invariant host == before.(disabled := host.disabled)
        invariant Without(host.disabled, off) == before.disabled
        invariant forall d :: d in off ==> d in host.disabled && d !in before.disabled
        invariant calls == old(calls) + |off| && Went(old(calls), calls)
      {
        var n := nets[i];
        assert n in nets;
        DevicesStep(nets, i, keep);
        if !n.provisioned && n.iface != keep {
          ok := Call();
          if !ok {
            PortsBack(before, host, off);
            host := Compensate(host, EnablePorts(off));
            return;
          }
          PortOff(host.disabled, off, n.device, before.disabled);
          assert off + ([n.device] + DevicesOf(nets[i + 1..], keep)) == (off + [n.device]) + DevicesOf(nets[i + 1..], keep);
          host := host.(disabled := host.disabled + {n.device});
          off := off + [n.device];
        }
        i := i + 1;
      }
      assert nets[i..] == [] && off + [] == off;
      NoDevices(keep);
    }

    /** Disables every port that carries another dongle not yet provisioned. */
    method GuardPorts(nets: seq<UsbNet>, keep: string) returns (ok: bool)
      requires forall n :: n in nets ==> n.device !in host.disabled
      requires rollback == [] && disabled == []
      modifies this`calls, this`host, this`rollback, this`disabled
      ensures WayBack(old(host)) && host == old(host).(disabled := host.disabled)
      ensures !ok ==> host == old(host) && rollback == [] && disabled == []
      ensures ok ==> disabled == DevicesOf(nets, keep) && Without(host.disabled, disabled) == old(host).disabled
      ensures ok ==> forall d :: d in disabled ==> d in host.disabled && d !in old(host).disabled
      ensures ok ==> forall p :: p in host.disabled <==> p in old(host).disabled || OtherPort(nets, keep, p)
      ensures forall u :: u in rollback ==> u.EnablePorts?
      ensures ok <==> Went(old(calls), old(calls) + 1 + |DevicesOf(nets, keep)|)
      ensures ok ==> calls == old(calls) + 1 + |DevicesOf(nets, keep)|
    {
      ok := Call();
      if !ok {
        return;
      }
      ghost var before := host;
      var off;
      ok, off := DisableOthers(nets, keep);
      if !ok {
        return;
      }
      disabled := off;
      PortsOff(host.disabled, off, before.disabled, nets, keep);
      hide OtherPort;
      if |off| > 0 {
        Push(EnablePorts(off), before);
        assert Unwound(before, []) == before;
      }
    }

    /** On success: each port the run disabled is switched on again, or counted. */
    method ReleasePorts() returns (failed: nat)
      modifies this`calls, this`host, this`disabled
      ensures disabled == [] && host == old(host).(disabled := host.disabled)
      ensures Without(old(host).disabled, old(disabled)) <= host.disabled <= old(host).disabled
      ensures failed == 0 ==> host.disabled == Without(old(host).disabled, old(disabled))
      ensures failed == 0 <==> Went(old(calls), old(calls) + |old(disabled)|)
    {
      failed := 0;
      var i := 0;
      while i < |disabled|
        invariant 0 <= i <= |disabled| && disabled == old(disabled) && host == old(host).(disabled := host.disabled)
        invariant Without(old(host).disabled, disabled[..i]) <= host.disabled <= old(host).disabled
        invariant failed == 0 ==> host.disabled == Without(old(host).disabled, disabled[..i])
        invariant calls == old(calls) + i && (failed == 0 <==> Went(old(calls), calls))
      {
        assert disabled[..i + 1] == disabled[..i] + [disabled[i]];
        var ok := Call();
        if ok {
          host := host.(disabled := host.disabled - {disabled[i]});
        } else {
          failed := failed + 1;
        }
        i := i + 1;
      }
      assert disabled[..i] == disabled;
      disabled := [];
    }

    /** The update branch of upsertSlot: nothing is pushed for it. */
    method UpdateRow(slot: int, path: string, ghost base: Host) returns (ok: bool, row: Id)
      requires WayBack(base) && host.slots == base.slots && !NoRow(host, slot)
      requires forall u :: u in rollback ==> !u.DeleteSlot?
      modifies this`calls, this`host
      ensures calls == old(calls) + 1 && (ok <==> Went(old(calls), calls))
      ensures row in base.slots && base.slots[row].slot == slot
      ensures WayBack(if ok then Touched(base, row, path) else base)
      ensures host == if ok then Touched(old(host), row, path) else old(host)
    {
      row :| row in host.slots && host.slots[row].slot == slot;
      ok := Call();
      if ok {
        TouchCommutes(host, rollback, row, path);
        host := Touched(host, row, path);
      }
    }

    /** The other branch: a new row, deleted again if a later step fails. */
    method CreateRow(slot: int, path: string, ghost base: Host) returns (ok: bool, row: Id)
      requires Numbered() && WayBack(base)
      modifies this`calls, this`nextId, this`host, this`rollback
      ensures calls == old(calls) + 1 && (ok <==> Went(old(calls), calls))
      ensures row == old(nextId) < nextId && WayBack(base)
      ensures row !in old(host).slots && forall p :: p in old(host).proxies ==> old(host).proxies[p] != row
      ensures host == if ok then old(host).(slots := old(host).slots[row := SlotRow(slot, path, None)]) else old(host)
    {
      ghost var before := host;
      row := NewId();
      ok := Call();
      if ok {
        host := host.(slots := host.slots[row := SlotRow(slot, path, None)]);
        CreatedSlot(before, row, SlotRow(slot, path, None));
        Push(DeleteSlot(row), before);
      }
    }

    method Attach(row: Id, dongle: Id, ghost base: Host) returns (ok: bool)
      requires WayBack(base) && row in host.slots && host.slots[row].dongle.None?
      modifies this`calls, this`host, this`rollback
      ensures calls == old(calls) + 1 && (ok <==> Went(old(calls), calls))
      ensures WayBack(base)
      ensures host == if ok then old(host).(slots := old(host).slots[row := old(host).slots[row].(dongle := Some(dongle))]) else old(host)
    {
      ok := Call();
      if ok {
        ghost var before := host;
        host := host.(slots := host.slots[row := host.slots[row].(dongle := Some(dongle))]);
        Attached(before, row, dongle);
        Push(DetachSlot(row), before);
      }
    }

    /** The row of a slot: created if there is none, brought up to date otherwise. A created
        row and the attachment are undone, an update is not: `touched` names the row updated. */
    method UpsertSlot(slot: int, path: string, dongle: Id, ghost base: Host) returns (ok: bool, row: Id, ghost touched: Option<Id>)
      requires Numbered() && WayBack(base) && host.slots == base.slots && Available(host, slot)
      requires forall u :: u in rollback ==> !u.DeleteSlot?
      modifies this`calls, this`nextId, this`host, this`rollback
      ensures touched.Some? ==> RowOf(base, touched.value, slot)
      ensures WayBack(After(base, touched, path))
      ensures touched.Some? <==> !NoRow(base, slot) && Went(old(calls), old(calls) + 2)
      ensures ok <==> Went(old(calls), old(calls) + 3)
      ensures ok ==> calls == old(calls) + 3
      ensures ok ==> host == old(host).(slots := old(host).slots[row := SlotRow(slot, path, Some(dongle))])
      ensures ok ==> row < nextId && Target(old(host), row, slot)
      ensures nextId >= old(nextId)
    {
      hide Compensate, SafeUnwind, Unwound;
      touched, row := None, 0;
      ok := Call();
      if !ok {
        return;
      }
      ghost var reached := base;
      if exists id | id in host.slots :: host.slots[id].slot == slot {
        ok, row := UpdateRow(slot, path, base);
        if !ok {
          return;
        }
        touched, reached := Some(row), Touched(base, row, path);
      } else {
        ok, row := CreateRow(slot, path, base);
        if !ok {
          return;
        }
      }
      ok := Attach(row, dongle, reached);
    }

    /** The firewall entry and the dongle's row. */
    method PublishDongle(slot: int, ghost base: Host) returns (ok: bool, dongle: Id)
      requires Numbered() && WayBack(base)
      requires forall u :: u in rollback ==> !u.DeleteSlot?
      modifies this`calls, this`nextId, this`host, this`rollback
      ensures WayBack(Bared(base, slot, false, Went(old(calls), old(calls) + 1), false))
      ensures Numbered() && forall u :: u in rollback ==> !u.DeleteSlot?
      ensures ok <==> Went(old(calls), old(calls) + 2)
      ensures ok ==> calls == old(calls) + 2 && dongle !in old(host).dongles
      ensures ok ==> host == old(host).(fw := old(host).fw + {slot}, dongles := old(host).dongles + {dongle})
    {
      hide Compensate, SafeUnwind, Unwound, Cascadeless;
      dongle := 0;
      ok := Call();
      if !ok {
        return;
      }
      ghost var before := host;
      host := host.(fw := host.fw + {slot});
      FwAdded(before, slot);
      FwBared(base, slot);
      PushOver(RemoveFw(slot), before);
      dongle := NewId();
      ok := Call();
      if !ok {
        return;
      }
      before := host;
      host := host.(dongles := host.dongles + {dongle});
      CreatedDongle(before, dongle);
      Push(DeleteDongle(dongle), before);
    }

    /** Firewall, rows, unit and checks, each with its compensation. */
    method PublishSlot(slot: int, path: string, ghost base: Host)
      returns (ok: bool, ghost touched: Option<Id>, ghost d: Id, ghost row: Id, ghost p: Id)
      requires Numbered() && WayBack(base) && host.slots == base.slots && Available(host, slot) && OneRowEach(host)
      requires forall u :: u in rollback ==> !u.DeleteSlot?
      modifies this`calls, this`nextId, this`host, this`rollback
      ensures touched.Some? ==> RowOf(base, touched.value, slot)
      ensures WayBack(After(Bared(base, slot, false, Went(old(calls), old(calls) + 1), Went(old(calls), old(calls) + 9) && !Served(old(host), slot)),
                            touched, path))
      ensures touched.Some? <==> !NoRow(base, slot) && Went(old(calls), old(calls) + 4)
      ensures ok <==> Went(old(calls), old(calls) + 11) && !Served(old(host), slot)
      ensures ok ==> Published(old(host), host, slot, path, d, row, p)
    {
      hide Compensate, SafeUnwind, Unwound, Cascadeless, Served, OneRowEach, Touched;
      touched, d, row, p := None, 0, 0, 0;
      ghost var start := host;
      var dongle;
      ok, dongle := PublishDongle(slot, base);
      if !ok {
        return;
      }
      ghost var bare := Bared(base, slot, false, true, false);
      var slotRow;
      ok, slotRow, touched := UpsertSlot(slot, path, dongle, bare);
      RowsSame(base, bare, slot);
      if !ok {
        return;
      }
      d, row := dongle, slotRow;
      ServedRow(start, slotRow, slot);
      ok := PublishProxy(slot, slotRow, After(bare, touched, path));
      AfterBared(base, slot, touched, path);
      if ok {
        p := nextId - 1;
      }
    }

    /** Credentials and the proxy row; a row can carry one proxy only. */
    method CreateProxyRow(row: Id, ghost base: Host) returns (ok: bool)
      requires WayBack(base) && forall k :: k in host.proxies ==> k < nextId
      modifies this`calls, this`nextId, this`host, this`rollback
      ensures WayBack(base)
      ensures ok <==> Went(old(calls), old(calls) + 2) && row !in old(host).proxies.Values
      ensures ok ==> calls == old(calls) + 2 && nextId == old(nextId) + 1
      ensures ok ==> host == old(host).(proxies := old(host).proxies[nextId - 1 := row])
    {
      hide Compensate, SafeUnwind, Unwound;
      ok := Call();
      if !ok {
        return;
      }
      var proxy := NewId();
      ok := Call();
      if !ok || row in host.proxies.Values {
        ok := false;
        return;
      }
      ghost var before := host;
      host := host.(proxies := host.proxies[proxy := row]);
      CreatedProxy(before, proxy, row);
      Push(DeleteProxy(proxy), before);
    }

    /** The spec's checks, the unit, and the checks on it. */
    method StartUnit(slot: int, ghost base: Host) returns (ok: bool)
      requires WayBack(base)
      modifies this`calls, this`host, this`rollback
      ensures WayBack(Bared(base, slot, false, false, Went(old(calls), old(calls) + 2)))
      ensures ok <==> Went(old(calls), old(calls) + 4)
      ensures ok ==> host == old(host).(units := old(host).units + {slot})
    {
      hide Compensate, SafeUnwind, Unwound;
      ok := Checks(2);
      if !ok {
        return;
      }
      ghost var before := host;
      host := host.(units := host.units + {slot});
      UnitStarted(before, slot);
      UnitBared(base, slot);
      PushOver(StopUnit(slot), before);
      ok := Checks(2);
    }

    /** The second half of publish. */
    method PublishProxy(slot: int, row: Id, ghost base: Host) returns (ok: bool)
      requires WayBack(base)
      requires forall k :: k in host.proxies ==> k < nextId
      modifies this`calls, this`nextId, this`host, this`rollback
      ensures WayBack(Bared(base, slot, false, false, Went(old(calls), old(calls) + 4) && row !in old(host).proxies.Values))
      ensures ok <==> Went(old(calls), old(calls) + 6) && row !in old(host).proxies.Values
      ensures ok ==> nextId > old(nextId) && nextId - 1 !in old(host).proxies
      ensures ok ==> host == old(host).(proxies := old(host).proxies[nextId - 1 := row], units := old(host).units + {slot})
    {
      hide Compensate, SafeUnwind, Unwound;
      ok := CreateProxyRow(row, base);
      if ok {
        ok := StartUnit(slot, base);
      }
    }

    /** The lowest slot no row holds. */
    method NextFree() returns (r: Option<int>)
      ensures r.Some? ==> LowestFree(host, r.value)
      ensures r.None? ==> forall s :: ValidSlot(s) ==> !NoRow(host, s)
    {
      var i := 1;
      while i <= MAX_SLOTS
        invariant 1 <= i <= MAX_SLOTS + 1
        invariant forall s :: 1 <= s < i ==> !NoRow(host, s)
      {
        if NoRow(host, i) {
          return Some(i);
        }
        i := i + 1;
      }
      r := None;
    }

    /** The slot asked for, unless it is taken, or the lowest without a row. */
    method Allocate(want: int) returns (r: Option<int>)
      modifies this`calls
      ensures r.Some? <==> CanTake(host, want) && Went(old(calls), old(calls) + 1)
      ensures r.Some? ==> calls == old(calls) + 1 && ValidSlot(r.value) && Available(host, r.value)
      ensures r.Some? ==> if want == 0 then LowestFree(host, r.value) else r.value == want
    {
      if want == 0 {
        var ok := Call();
        if !ok {
          return None;
        }
        r := NextFree();
        return;
      }
      if !ValidSlot(want) {
        return None;
      }
      var ok := Call();
      if !ok || !Available(host, want) {
        return None;
      }
      r := Some(want);
    }

    /** Device and link checks that change nothing on this host. */
    method Checks(n: nat) returns (ok: bool)
      modifies this`calls
      ensures ok <==> Went(old(calls), old(calls) + n)
      ensures ok ==> calls == old(calls) + n
    {
      var i := 0;
      ok := true;
      while ok && i < n
        invariant 0 <= i <= n && calls == old(calls) + i
        invariant ok <==> Went(old(calls), calls)
      {
        ok := Call();
        i := i + 1;
      }
    }

    /** The slot can be taken and this many calls go through. */
    lemma ShiftedReach(h: Host, from: nat, want: int, n: nat)
      requires !fails(from)
      ensures Reached(h, from, want, n + 1) <==> Reached(h, from + 1, want, n)
    {
    }

    lemma LeftShows(h: Host, from: nat, want: int, n: nat, slot: int, touched: Option<Id>, path: string)
      requires touched.Some? ==> touched.value in h.slots
      requires Chose(h, from, want, 10 + n, slot)
      ensures var end := After(Left(h, from, want, n, slot), touched, path);
              && end.slots == After(h, touched, path).slots
              && end == h.(slots := end.slots, net := end.net, fw := end.fw, units := end.units)
              && h.net - {slot} <= end.net <= h.net && h.fw - {slot} <= end.fw <= h.fw && h.units - {slot} <= end.units <= h.units
              && (end.(slots := h.slots) != h <==>
                    || (slot in h.net && Reached(h, from, want, 11 + n))
                    || (slot in h.fw && Reached(h, from, want, 17 + n))
                    || (slot in h.units && Reached(h, from, want, 25 + n) && CanEnroll(h, want)))
              && (Tidy(h) ==> end == After(h, touched, path))
    {
      hide CanEnroll, Reached;
      var end := Left(h, from, want, n, slot);
      assert slot in h.net && Reached(h, from, want, 11 + n) ==> end.net != h.net;
      assert slot in h.fw && Reached(h, from, want, 17 + n) ==> end.fw != h.fw;
      assert slot in h.units && Reached(h, from, want, 25 + n) && CanEnroll(h, want) ==> end.units != h.units;
      assert slot !in h.net ==> end.net == h.net;
      assert slot !in h.fw ==> end.fw == h.fw;
      assert slot !in h.units ==> end.units == h.units;
      if Tidy(h) && end != h {
        TidyChosen(h, from, want, 10 + n, slot);
      }
    }

    /** With nothing set up for slots without a dongle, nothing is for the one chosen. */
    lemma TidyChosen(h: Host, from: nat, want: int, n: nat, slot: int)
      requires Tidy(h) && Chose(h, from, want, n, slot)
      ensures forall m :: n <= m && Reached(h, from, want, m) ==> slot !in h.net && slot !in h.fw && slot !in h.units
    {
      forall m | n <= m && Reached(h, from, want, m) ensures slot !in h.net && slot !in h.fw && slot !in h.units {
        assert Reached(h, from, want, n);
        TidySlot(h, slot);
      }
    }

    ghost predicate Reached(h: Host, from: nat, want: int, n: nat) { CanTake(h, want) && Went(from, from + n) }

    /** Once it is chosen, the slot is the one asked for, or the lowest without a row. */
    ghost predicate Chose(h: Host, from: nat, want: int, n: nat, slot: int) {
      Reached(h, from, want, n) ==> if want == 0 then LowestFree(h, slot) else ValidSlot(want) && slot == want
    }

    /** The call that updates an existing row of the slot asked for is made and goes through. */
    ghost predicate Updates(h: Host, from: nat, want: int, ports: nat) {
      want != 0 && CanTake(h, want) && !NoRow(h, want) && Went(from, from + 20 + ports)
    }

    /** Everything before publish: only the ports and the network files have changed. */
    method Prepare(want: int, nets: seq<UsbNet>, keep: string) returns (ok: bool, slot: int)
      requires rollback == [] && disabled == []
      requires forall n :: n in nets ==> n.device !in host.disabled
      modifies this`calls, this`host, this`rollback, this`disabled
      ensures WayBack(Bared(old(host), slot, Reached(old(host), old(calls), want, 11 + |DevicesOf(nets, keep)|), false, false))
      ensures forall u :: u in rollback ==> !u.DeleteSlot?
      ensures Chose(old(host), old(calls), want, 10 + |DevicesOf(nets, keep)|, slot)
      ensures ok <==> CanTake(old(host), want) && Went(old(calls), old(calls) + 16 + |DevicesOf(nets, keep)|)
      ensures ok ==> calls == old(calls) + 16 + |DevicesOf(nets, keep)|
      ensures ok ==> Available(old(host), slot) && host == old(host).(disabled := host.disabled, net := old(host).net + {slot})
      ensures ok ==> disabled == DevicesOf(nets, keep) && Without(host.disabled, disabled) == old(host).disabled
    {
      hide Without, DevicesOf, Compensate, SafeUnwind, Unwound, NoRow, LowestFree;
      slot := 0;
      StartsBack(host);
      // Observe and the address checks.
      ok := Checks(2);
      if !ok {
        return;
      }
      ok := GuardPorts(nets, keep);
      if !ok {
        return;
      }
      // Link, ID_PATH, device, login, SIM, identity.
      ok := Checks(6);
      if !ok {
        return;
      }
      TakeSame(old(host), host, want);
      var chosen := Allocate(want);
      if chosen.None? {
        return false, slot;
      }
      slot := chosen.value;
      RowsSame(old(host), host, slot);
      ok := Call();
      if !ok {
        return;
      }
      ghost var before := host;
      host := host.(net := host.net + {slot});
      NetApplied(before, slot);
      NetBared(old(host), slot);
      PushOver(RemoveNet(slot), before);
      // LAN address, the device at its new address, idle time.
      ok := Checks(5);
    }

    /** The starting host without what was set up for the slot and undone by the run: the network
        files, the firewall entry and the unit, each if the run got past setting it up. */
    ghost function Left(h: Host, from: nat, want: int, ports: nat, slot: int): Host {
      Bared(h, slot, Reached(h, from, want, 11 + ports), Reached(h, from, want, 17 + ports),
            Reached(h, from, want, 25 + ports) && CanEnroll(h, want))
    }

    /** The whole sequence; the way back is kept at every step. */
    method RunSteps(want: int, nets: seq<UsbNet>, keep: string, path: string)
      returns (ok: bool, slot: int, ghost touched: Option<Id>, ghost d: Id, ghost row: Id, ghost p: Id)
      requires Numbered() && rollback == [] && disabled == [] && OneRowEach(host)
      requires forall n :: n in nets ==> n.device !in host.disabled
      modifies this`calls, this`nextId, this`host, this`rollback, this`disabled
      ensures touched.Some? ==> RowOf(old(host), touched.value, want)
      ensures WayBack(After(Left(old(host), old(calls), want, |DevicesOf(nets, keep)|, slot), touched, path))
      ensures Chose(old(host), old(calls), want, 10 + |DevicesOf(nets, keep)|, slot)
      ensures touched.Some? <==> Updates(old(host), old(calls), want, |DevicesOf(nets, keep)|)
      ensures ok <==> CanEnroll(old(host), want) && Went(old(calls), old(calls) + 27 + |DevicesOf(nets, keep)|)
      ensures ok ==> Published(old(host).(disabled := host.disabled, net := old(host).net + {slot}), host, slot, path, d, row, p)
      ensures ok ==> disabled == DevicesOf(nets, keep) && Without(host.disabled, disabled) == old(host).disabled
    {
      hide Without, DevicesOf, Compensate, SafeUnwind, Unwound, Served, Cascadeless, Available;
      slot, touched, d, row, p := 0, None, 0, 0, 0;
      ok, slot := Prepare(want, nets, keep);
      if !ok {
        return;
      }
      ghost var h := host;
      ServedSame(old(host), host, slot);
      RowsSame(old(host), host, slot);
      ghost var bare := Bared(old(host), slot, true, false, false);
      RowsSame(old(host), bare, slot);
      ok, touched, d, row, p := PublishSlot(slot, path, bare);
    }

    /** Whether the run succeeds, and what it leaves, exactly. A failing run ends with the host
        and the rows as they were, except that a row it updated keeps the new path and that
        what was set up for the slot before the run goes with what the run set up; a successful
        one undoes nothing and switches the ports it disabled on again. */
    method EnrollDongle(want: int, nets: seq<UsbNet>, keep: string, path: string)
      returns (ok: bool, slot: int, portsLeft: nat, ghost touched: Option<Id>, ghost d: Id, ghost row: Id, ghost p: Id)
      requires Numbered() && rollback == [] && disabled == [] && OneRowEach(host)
      requires forall n :: n in nets ==> n.device !in host.disabled
      modifies this`calls, this`nextId, this`host, this`rollback, this`disabled
      ensures rollback == []
      ensures ok <==> CanEnroll(old(host), want) && Went(old(calls), old(calls) + 28 + |DevicesOf(nets, keep)|)
      ensures Chose(old(host), old(calls), want, 11 + |DevicesOf(nets, keep)|, slot)
      ensures touched.Some? ==> RowOf(old(host), touched.value, want)
      ensures touched.Some? <==> Updates(old(host), old(calls) + 1, want, |DevicesOf(nets, keep)|) && !fails(old(calls))
      ensures !ok ==> (host.slots != old(host).slots <==> touched.Some? && old(host).slots[touched.value].path != path)
      ensures !ok && touched.Some? ==> host.slots == Touched(old(host), touched.value, path).slots
      ensures !ok ==> var n := |DevicesOf(nets, keep)|;
                (host.(slots := old(host).slots) != old(host) <==>
                   || (slot in old(host).net && Reached(old(host), old(calls), want, 12 + n))
                   || (slot in old(host).fw && Reached(old(host), old(calls), want, 18 + n))
                   || (slot in old(host).units && Reached(old(host), old(calls), want, 26 + n) && CanEnroll(old(host), want)))
      ensures !ok ==> old(host).net - {slot} <= host.net <= old(host).net && old(host).fw - {slot} <= host.fw <= old(host).fw
                      && old(host).units - {slot} <= host.units <= old(host).units
                      && host == old(host).(slots := host.slots, net := host.net, fw := host.fw, units := host.units)
      ensures !ok && Tidy(old(host)) ==> host == After(old(host), touched, path)
      ensures ok ==> Published(old(host).(disabled := host.disabled, net := old(host).net + {slot}), host, slot, path, d, row, p)
      ensures ok && portsLeft == 0 ==> host.disabled == old(host).disabled
    {
      hide Without, DevicesOf, Compensate, SafeUnwind, Unwound, Served;
      portsLeft, slot, touched, d, row, p := 0, 0, None, 0, 0, 0;
      ok := Call();
      if !ok {
        return;
      }
      ok, slot, touched, d, row, p := RunSteps(want, nets, keep, path);
      if !ok {
        TouchShows(old(host), touched, path);
        Unwind();
        ghost var h, n := old(host), |DevicesOf(nets, keep)|;
        ShiftedReach(h, old(calls), want, 10 + n);
        ShiftedReach(h, old(calls), want, 11 + n);
        ShiftedReach(h, old(calls), want, 17 + n);
        ShiftedReach(h, old(calls), want, 25 + n);
        LeftShows(h, old(calls) + 1, want, n, slot, touched, path);
        return;
      }
      rollback := [];
      portsLeft := ReleasePorts();
    }
  }

  /** The starting host, but for the path of the row the run updated. */
  function After(base: Host, touched: Option<Id>, path: string): Host
    requires touched.Some? ==> touched.value in base.slots
  {
    if touched.Some? then Touched(base, touched.value, path) else base
  }

  predicate RowOf(h: Host, id: Id, slot: int) {
    id in h.slots && h.slots[id].slot == slot && h.slots[id].dongle.None?
  }

  /** The row a slot is published on: one it had, or a new one nothing refers to. */
  predicate Target(h: Host, row: Id, slot: int) {
    if row in h.slots then h.slots[row].slot == slot && h.slots[row].dongle.None?
    else NoRow(h, slot) && row !in h.proxies.Values
  }

  /** The rows are unique by slot. */
  predicate OneRowEach(h: Host) {
    forall j, k :: j in h.slots && k in h.slots && h.slots[j].slot == h.slots[k].slot ==> j == k
  }

  /** Some proxy row refers to a row of the slot. */
  predicate Served(h: Host, slot: int) {
    exists k :: k in h.proxies && h.proxies[k] in h.slots && h.slots[h.proxies[k]].slot == slot
  }

  lemma ServedRow(h: Host, row: Id, slot: int)
    requires OneRowEach(h) && Target(h, row, slot)
    ensures row in h.proxies.Values <==> Served(h, slot)
  {
    if row in h.proxies.Values {
      var k :| k in h.proxies && h.proxies[k] == row;
    }
    if Served(h, slot) {
      var k :| k in h.proxies && h.proxies[k] in h.slots && h.slots[h.proxies[k]].slot == slot;
      assert h.proxies[k] in h.proxies.Values;
    }
  }

  lemma RowsSame(h: Host, g: Host, slot: int)
    requires h.slots == g.slots
    ensures NoRow(h, slot) == NoRow(g, slot) && Available(h, slot) == Available(g, slot) && LowestFree(h, slot) == LowestFree(g, slot)
  {
    assert forall s :: NoRow(h, s) == NoRow(g, s);
  }

  lemma TakeSame(h: Host, g: Host, want: int)
    requires h.slots == g.slots
    ensures CanTake(h, want) == CanTake(g, want)
  {
    forall s ensures NoRow(h, s) == NoRow(g, s) {
    }
  }

  lemma ServedSame(h: Host, g: Host, slot: int)
    requires h.slots == g.slots && h.proxies == g.proxies
    ensures Served(h, slot) == Served(g, slot)
    ensures NoRow(h, slot) ==> !Served(h, slot)
  {
  }

  predicate LowestFree(h: Host, slot: int) {
    ValidSlot(slot) && NoRow(h, slot) && forall s :: 1 <= s < slot ==> !NoRow(h, s)
  }

  /** Some slot is free, or the slot asked for is. */
  ghost predicate CanTake(h: Host, want: int) {
    if want == 0 then exists s :: ValidSlot(s) && NoRow(h, s) else ValidSlot(want) && Available(h, want)
  }

  /** And no proxy is left on the row of the slot asked for. */
  ghost predicate CanEnroll(h: Host, want: int) { CanTake(h, want) && (want == 0 || !Served(h, want)) }

  /** New descriptive fields show exactly if they differ. */
  lemma TouchShows(h: Host, id: Option<Id>, path: string)
    requires id.Some? ==> id.value in h.slots
    ensures After(h, id, path) != h <==> id.Some? && h.slots[id.value].path != path
  {
    if id.Some? {
      assert Touched(h, id.value, path).slots[id.value].path == path;
      if h.slots[id.value].path == path {
        assert Touched(h, id.value, path).slots == h.slots;
      }
    }
  }

  predicate NoRow(h: Host, slot: int) { forall k :: k in h.slots ==> h.slots[k].slot != slot }

  /** The slot has no row, or only rows without a dongle. */
  predicate Available(h: Host, slot: int) {
    forall k :: k in h.slots && h.slots[k].slot == slot ==> h.slots[k].dongle.None?
  }

  /** Nothing is set up on the host for a slot that holds no dongle. */
  predicate Tidy(h: Host) {
    forall s :: s in h.net + h.fw + h.units ==> !Available(h, s)
  }

  lemma TidySlot(h: Host, slot: int)
    requires Tidy(h) && Available(h, slot)
    ensures slot !in h.net && slot !in h.fw && slot !in h.units
  {
  }

  /** What a successful publish adds: one firewall entry, one unit, and three rows, each
      pointing at the next. */
  predicate Published(before: Host, after: Host, slot: int, path: string, d: Id, row: Id, p: Id) {
    && d !in before.dongles && p !in before.proxies
    && (row in before.slots ==> before.slots[row].slot == slot && before.slots[row].dongle.None?)
    && after == before.(fw := before.fw + {slot}, units := before.units + {slot}, dongles := before.dongles + {d},
                        slots := before.slots[row := SlotRow(slot, path, Some(d))], proxies := before.proxies[p := row])
  }

  lemma StartsBack(h: Host)
    ensures SafeUnwind(h, []) && Unwound(h, []) == h
  {
  }

  lemma FwAdded(before: Host, slot: int)
    ensures Compensate(before.(fw := before.fw + {slot}), RemoveFw(slot)) == Compensate(before, RemoveFw(slot))
  {
    assert before.fw + {slot} - {slot} == before.fw - {slot};
  }

  lemma NetApplied(before: Host, slot: int)
    ensures Compensate(before.(net := before.net + {slot}), RemoveNet(slot)) == Compensate(before, RemoveNet(slot))
  {
    assert before.net + {slot} - {slot} == before.net - {slot};
  }

  lemma UnitStarted(before: Host, slot: int)
    ensures Compensate(before.(units := before.units + {slot}), StopUnit(slot)) == Compensate(before, StopUnit(slot))
  {
    assert before.units + {slot} - {slot} == before.units - {slot};
  }

  lemma NetBared(h: Host, slot: int)
    ensures Compensate(h, RemoveNet(slot)) == Bared(h, slot, true, false, false)
  {
  }

  lemma FwBared(h: Host, slot: int)
    ensures Compensate(h, RemoveFw(slot)) == Bared(h, slot, false, true, false)
  {
  }

  lemma UnitBared(h: Host, slot: int)
    ensures Compensate(h, StopUnit(slot)) == Bared(h, slot, false, false, true)
  {
  }

  lemma AfterBared(h: Host, slot: int, touched: Option<Id>, path: string)
    requires touched.Some? ==> touched.value in h.slots
    ensures forall unit :: Bared(After(Bared(h, slot, false, true, false), touched, path), slot, false, false, unit)
                           == After(Bared(h, slot, false, true, unit), touched, path)
  {
  }

  lemma CreatedSlot(before: Host, id: Id, row: SlotRow)
    requires id !in before.slots && forall p :: p in before.proxies ==> before.proxies[p] != id
    ensures var after := before.(slots := before.slots[id := row]);
            Compensate(after, DeleteSlot(id)) == before && Cascadeless(after, DeleteSlot(id))
  {
    var back := Compensate(before.(slots := before.slots[id := row]), DeleteSlot(id));
    assert back.slots == before.slots && back.proxies == before.proxies;
  }

  lemma Attached(before: Host, id: Id, dongle: Id)
    requires id in before.slots && before.slots[id].dongle.None?
    ensures var after := before.(slots := before.slots[id := before.slots[id].(dongle := Some(dongle))]);
            Compensate(after, DetachSlot(id)) == before && Cascadeless(after, DetachSlot(id))
  {
    var back := Compensate(before.(slots := before.slots[id := before.slots[id].(dongle := Some(dongle))]), DetachSlot(id));
    assert back.slots == before.slots;
  }

  lemma CreatedDongle(before: Host, id: Id)
    requires id !in before.dongles && forall k :: k in before.slots ==> before.slots[k].dongle != Some(id)
    ensures var after := before.(dongles := before.dongles + {id});
            Compensate(after, DeleteDongle(id)) == before && Cascadeless(after, DeleteDongle(id))
  {
    var back := Compensate(before.(dongles := before.dongles + {id}), DeleteDongle(id));
    assert back.slots == before.slots && back.dongles == before.dongles;
  }

  lemma CreatedProxy(before: Host, id: Id, row: Id)
    requires id !in before.proxies
    ensures var after := before.(proxies := before.proxies[id := row]);
            Compensate(after, DeleteProxy(id)) == before && Cascadeless(after, DeleteProxy(id))
  {
    var back := Compensate(before.(proxies := before.proxies[id := row]), DeleteProxy(id));
    assert back.proxies == before.proxies;
  }

  /** A run whose attachment fails: the row the slot had before the run keeps the new path. */
  method KeepsNewPath() returns (before: Host, after: Host, ok: bool)
    ensures before.slots == map[0 := SlotRow(7, "old", None)]
    ensures !ok && after == before.(slots := map[0 := SlotRow(7, "new", None)])
  {
    before := Host({}, {}, {}, {}, {}, map[0 := SlotRow(7, "old", None)], map[]);
    var s := new Session(n => n == 21, before, 1);
    assert before.slots[0].slot == 7 && !NoRow(before, 7) && DevicesOf([], "") == [];
    assert s.Updates(before, 1, 7, 0) && s.fails(21) && !s.Went(0, 28);
    var slot, left;
    ghost var touched, d, r, p;
    ok, slot, left, touched, d, r, p := s.EnrollDongle(7, [], "", "new");
    after := s.host;
  }

  /** A run that fails right after the network files: those the slot had before are gone. */
  method LosesNetFiles() returns (before: Host, after: Host, ok: bool)
    ensures before.net == {7} && before.slots == map[]
    ensures !ok && after == before.(net := {})
  {
    before := Host({}, {7}, {}, {}, {}, map[], map[]);
    var s := new Session(n => n == 12, before, 0);
    assert NoRow(before, 7) && DevicesOf([], "") == [];
    assert s.Reached(before, 0, 7, 12) && s.fails(12) && !s.Went(0, 18) && !s.Went(0, 28);
    var slot, left;
    ghost var touched, d, r, p;
    ok, slot, left, touched, d, r, p := s.EnrollDongle(7, [], "", "new");
    after := s.host;
    assert slot == 7;
  }
}
