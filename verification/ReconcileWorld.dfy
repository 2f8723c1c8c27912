/** What a sweep knows when it plans: desired rows, observations and budgets
    (internal/reconcile/contract.go and world.go, internal/domain/model.go). Times are
    milliseconds; an absent time is None. */
module ReconcileWorld {
  import opened Wrappers
  import opened Netip
  import opened ProxySpec

  const SUBNET_BITS := 24
  const CONN_CONNECTED := 901
  const MAX_IDLE_DISABLED := 0
  const SIM_PIN_CHECKING := 259
  const SIM_PUK_REQUIRED := 261

  // ---- desired rows ----

  datatype ProxyState = Active | Disabled | Suspended | Expired

  datatype Proxy = Proxy(id: string, slotId: string, enabled: bool, suspended: bool, expiresAt: Option<int>)
  {
    predicate IsExpired(now: int) { expiresAt.Some? && expiresAt.value > 0 && now >= expiresAt.value }

    function DesiredState(now: int): ProxyState {
      if !enabled then Disabled else if IsExpired(now) then Expired else if suspended then Suspended else Active
    }
  }

  datatype SlotRow = SlotRow(id: string, slot: int, dongleId: string, ifName: string)
  {
    predicate Occupied() { dongleId != [] }
  }

  datatype Dongle = Dongle(id: string, autoRecover: bool)

  // ---- observations ----

  datatype Route = Route(dev: string, dstBits: Option<int>)
  {
    predicate Default() { dstBits.None? || dstBits.value == 0 }
  }

  datatype Net = Net(links: map<string, seq<Prefix>>, rules: seq<int>, routes: map<int, seq<Route>>)

  datatype Device = Device(reachable: bool, conn: int, sim: int, maxIdle: int, loginNeeded: bool, observedAt: Option<int>, failingSince: Option<int>)
  {
    predicate Locked() { SIM_PIN_CHECKING <= sim <= SIM_PUK_REQUIRED }

    predicate Connected() { conn == CONN_CONNECTED }
  }

  // ---- budgets ----

  datatype Budgets = Budgets(
    rebootPerDay: int, rebootCooldown: int, rebootUsed: map<string, int>, lastReboot: map<string, int>,
    rotateInFlight: int, maxConcurrentRotate: int, minRotateInterval: int, lastRotate: map<string, int>)
  {
    function Used(dongle: string): int { if dongle in rebootUsed then rebootUsed[dongle] else 0 }

    predicate RebootAllowed(dongle: string, now: int) {
      Used(dongle) < rebootPerDay && (dongle in lastReboot ==> now - lastReboot[dongle] >= rebootCooldown)
    }

    predicate RotateAllowed(proxy: string, now: int) {
      !(maxConcurrentRotate > 0 && rotateInFlight >= maxConcurrentRotate)
      && (proxy in lastRotate ==> now - lastRotate[proxy] >= minRotateInterval)
    }
  }

  // ---- the world ----

  datatype Subject = OnNode | OnSlot | OnProxy | OnDongle

  datatype World = World(
    now: int, hostBootedAt: int, processStartedAt: int, startupGrace: int, cacheWarm: bool,
    nodeId: string, slots: map<int, SlotRow>, dongles: map<string, Dongle>, proxies: map<string, Proxy>,
    net: Net, publicRules: nat, tableNamesOk: bool,
    nftPresent: bool, fenced: set<string>, status: map<int, Status>, devices: map<int, Device>,
    budgets: Budgets, activeOps: set<(Subject, string)>)
  {
    /** Rows are filed under their own slot and proxies under their own id, as LoadDesired files them. */
    predicate Filed() {
      && (forall s :: s in slots ==> slots[s].slot == s)
      && (forall k :: k in proxies ==> proxies[k].id == k)
      && (forall k :: k in dongles ==> dongles[k].id == k)
    }

    predicate Busy(subject: Subject, id: string) { (subject, id) in activeOps }

    predicate InStartupGrace() {
      var base := if processStartedAt > hostBootedAt then processStartedAt else hostBootedAt;
      !cacheWarm || now < base + startupGrace
    }

    function DongleFor(row: SlotRow): Option<Dongle> {
      if row.Occupied() && row.dongleId in dongles then Some(dongles[row.dongleId]) else None
    }

    function StatusOf(s: int): Status {
      if s in status then status[s] else Status(false, false, false, false)
    }
  }

  // ---- the proxy of a slot ----

  /** Go's order on strings. */
  predicate LexLe(a: string, b: string) {
    a == [] || (b != [] && (a[0] < b[0] || (a[0] == b[0] && LexLe(a[1..], b[1..]))))
  }

  lemma {:induction false} LexTotal(a: string, b: string)
    ensures LexLe(a, b) || LexLe(b, a)
    ensures LexLe(a, b) && LexLe(b, a) ==> a == b
  {
    if a != [] && b != [] && a[0] == b[0] {
      LexTotal(a[1..], b[1..]);
      assert a == [a[0]] + a[1..] && b == [b[0]] + b[1..];
    }
  }

  /** One is a prefix of the other, or the first character in which they differ decides. */
  lemma {:induction false} LexMeans(a: string, b: string)
    ensures LexLe(a, b) <==> a <= b || exists i :: 0 <= i < |a| && i < |b| && a[..i] == b[..i] && a[i] < b[i]
  {
    if a != [] && b != [] {
      LexMeans(a[1..], b[1..]);
      if a[0] == b[0] {
        assert a <= b <==> a[1..] <= b[1..];
        if i :| 0 <= i < |a| && i < |b| && a[..i] == b[..i] && a[i] < b[i] {
          assert i > 0 && a[1..][..i - 1] == a[..i][1..] && b[1..][..i - 1] == b[..i][1..];
          assert a[1..][i - 1] < b[1..][i - 1];
        }
        if i :| 0 <= i < |a[1..]| && i < |b[1..]| && a[1..][..i] == b[1..][..i] && a[1..][i] < b[1..][i] {
          assert a[..i + 1] == [a[0]] + a[1..][..i] && b[..i + 1] == [b[0]] + b[1..][..i];
          assert a[i + 1] < b[i + 1];
        }
      } else if a[0] < b[0] {
        assert a[..0] == b[..0];
      } else {
        forall i | 0 < i < |a| && i < |b| ensures a[..i] != b[..i] {
          assert a[..i][0] != b[..i][0];
        }
      }
    }
  }

  lemma {:induction false} LexTransitive(a: string, b: string, c: string)
    requires LexLe(a, b) && LexLe(b, c)
    ensures LexLe(a, c)
  {
    if a != [] && a[0] == b[0] && b[0] == c[0] {
      LexTransitive(a[1..], b[1..], c[1..]);
    }
  }

  /** k is the smallest id among the proxies of a slot. */
  predicate Chosen(proxies: map<string, Proxy>, slotId: string, k: string) {
    && k in proxies && proxies[k].slotId == slotId
    && forall j :: j in proxies && proxies[j].slotId == slotId ==> LexLe(k, j)
  }

  ghost function ProxyFor(proxies: map<string, Proxy>, slotId: string): Option<Proxy> {
    if exists k :: Chosen(proxies, slotId, k) then
      var k :| Chosen(proxies, slotId, k);
      Some(proxies[k])
    else None
  }

  lemma ChosenIsProxyFor(proxies: map<string, Proxy>, slotId: string, k: string)
    requires Chosen(proxies, slotId, k)
    ensures ProxyFor(proxies, slotId) == Some(proxies[k])
  {
    var j :| Chosen(proxies, slotId, j) && ProxyFor(proxies, slotId) == Some(proxies[j]);
    LexTotal(k, j);
  }

  /** Whatever order the map of proxies is walked in, each slot gets its smallest id. */
  method ProxiesBySlot(proxies: map<string, Proxy>) returns (out: map<string, Proxy>)
    requires forall k :: k in proxies ==> proxies[k].id == k
    ensures forall sid :: sid in out ==> out[sid].id in proxies && proxies[out[sid].id] == out[sid] && out[sid].slotId == sid
    ensures forall j :: j in proxies ==> proxies[j].slotId in out && LexLe(out[proxies[j].slotId].id, j)
    ensures forall slotId :: ProxyFor(proxies, slotId) == if slotId in out then Some(out[slotId]) else None
  {
    out := map[];
    var left := proxies.Keys;
    while left != {}
      invariant left <= proxies.Keys
      invariant forall sid :: sid in out ==> out[sid].id in proxies.Keys - left && proxies[out[sid].id] == out[sid] && out[sid].slotId == sid
      invariant forall j :: j in proxies.Keys - left ==> proxies[j].slotId in out && LexLe(out[proxies[j].slotId].id, j)
      decreases |left|
    {
      var k :| k in left;
      left := left - {k};
      var p := proxies[k];
      LexTotal(k, k);
      if p.slotId in out {
        var cur := out[p.slotId].id;
        LexTotal(cur, k);
        if LexLe(cur, k) {
          continue;
        }
        forall j | j in proxies.Keys - left && proxies[j].slotId == p.slotId ensures LexLe(k, j) {
          if j != k {
            LexTransitive(k, cur, j);
          }
        }
      }
      out := out[p.slotId := p];
    }
    forall sid ensures ProxyFor(proxies, sid) == if sid in out then Some(out[sid]) else None {
      if sid in out {
        ChosenIsProxyFor(proxies, sid, out[sid].id);
      }
    }
  }
}
