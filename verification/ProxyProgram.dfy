/** The lines a spec is rendered to (internal/proxysup/render.go, Render and writeACL). */
module ProxyProgram {
  import opened Text
  import opened Netip
  import opened Domain
  import opened ProxySpec
  import opened ProxyText

  const NS_CACHE_SIZE := 65536
  const LOG_ROTATE_DAYS := 7
  const LOG_DUMP_BYTES := 1048576
  const PASSWORD_TYPE := "CL"
  const LOG_FORMAT := LOG_FORMAT_TIME + LOG_FORMAT_WHO + LOG_FORMAT_WHAT
  const LOG_FORMAT_TIME := "L%d-%m-%Y %H:%M:%S %z "
  const LOG_FORMAT_WHO := "%N.%p %E %U %C:%c %R:%r "
  const LOG_FORMAT_WHAT := "%O %I %h %T %e"
  const TIMEOUT_VALUES := ["1", "5", "30", "60", "180", "1800", "15", "60", "10", "5"]
  const TIMEOUTS_COUNT := 10
  const SERVICE_PROXY := "proxy"
  const SERVICE_SOCKS := "socks"
  const ANON_FLAG := "-a"
  const FAMILY_FLAG := "-4"
  const AUTH_STRONG := "strong"
  const AUTH_IP_ONLY := "iponly"
  const AUTH_NONE := "none"

  // ---- domain.SortPrefixes ----

  predicate PrefixBefore(p: Prefix, q: Prefix)
    requires p.Valid4() && q.Valid4()
  {
    if p.addr == q.addr then p.bits < q.bits else p.addr.Number() < q.addr.Number()
  }

  function SortKey(p: Prefix): int
    requires p.Valid4()
  {
    p.addr.Number() * 64 + p.bits
  }

  lemma BeforeIsKeyOrder(p: Prefix, q: Prefix)
    requires p.Valid4() && q.Valid4()
    ensures PrefixBefore(p, q) <==> SortKey(p) < SortKey(q)
    ensures SortKey(p) == SortKey(q) ==> p == q
  {
    if p.addr.Number() == q.addr.Number() {
      NumberInjective(p.addr, q.addr);
    }
  }

  predicate AllValid4(ps: seq<Prefix>) { forall p :: p in ps ==> p.Valid4() }

  function Insert(p: Prefix, ps: seq<Prefix>): (r: seq<Prefix>)
    requires p.Valid4() && AllValid4(ps)
    ensures multiset(r) == multiset(ps) + multiset{p}
    ensures AllValid4(r)
  {
    if ps == [] || !PrefixBefore(ps[0], p) then [p] + ps
    else
      assert [ps[0]] + ps[1..] == ps;
      var rest := Insert(p, ps[1..]);
      assert forall q :: q in rest ==> q in multiset(rest);
      [ps[0]] + rest
  }

  function SortedPrefixes(ps: seq<Prefix>): (r: seq<Prefix>)
    requires AllValid4(ps)
    ensures multiset(r) == multiset(ps)
    ensures AllValid4(r)
  {
    if ps == [] then [] else
      assert [ps[0]] + ps[1..] == ps;
      Insert(ps[0], SortedPrefixes(ps[1..]))
  }

  predicate Ordered(ps: seq<Prefix>)
    requires AllValid4(ps)
  {
    ps == [] || ((forall q :: q in ps[1..] ==> SortKey(ps[0]) <= SortKey(q)) && Ordered(ps[1..]))
  }

  lemma {:induction false} InsertOrdered(p: Prefix, ps: seq<Prefix>)
    requires p.Valid4() && AllValid4(ps) && Ordered(ps)
    ensures Ordered(Insert(p, ps))
  {
    hide SortKey, PrefixBefore;
    var r := Insert(p, ps);
    if ps == [] {
      assert r[1..] == [];
    } else {
      BeforeIsKeyOrder(ps[0], p);
      if PrefixBefore(ps[0], p) {
        InsertOrdered(p, ps[1..]);
        var rest := Insert(p, ps[1..]);
        assert r[1..] == rest;
        forall q | q in rest ensures SortKey(ps[0]) <= SortKey(q) {
          assert q in multiset(rest);
          assert q == p || q in ps[1..];
        }
      } else {
        assert r[1..] == ps;
        forall q | q in ps ensures SortKey(p) <= SortKey(q) {
          assert q == ps[0] || q in ps[1..];
        }
      }
    }
  }

  lemma {:induction false} SortedIsOrdered(ps: seq<Prefix>)
    requires AllValid4(ps)
    ensures Ordered(SortedPrefixes(ps))
  {
    if ps != [] {
      SortedIsOrdered(ps[1..]);
      InsertOrdered(ps[0], SortedPrefixes(ps[1..]));
    }
  }

  lemma SortedMembers(ps: seq<Prefix>)
    requires AllValid4(ps)
    ensures forall p :: p in SortedPrefixes(ps) <==> p in ps
  {
    forall p ensures p in SortedPrefixes(ps) <==> p in ps {
      assert p in SortedPrefixes(ps) <==> p in multiset(SortedPrefixes(ps));
    }
  }

  lemma {:induction false} OrderedUnique(a: seq<Prefix>, b: seq<Prefix>)
    requires AllValid4(a) && AllValid4(b) && Ordered(a) && Ordered(b)
    requires multiset(a) == multiset(b)
    ensures a == b
  {
    hide SortKey, PrefixBefore;
    hide Prefix.Valid4;
    assert |a| == |multiset(a)| == |multiset(b)| == |b|;
    if a != [] {
      assert a[0] in multiset(b) && b[0] in multiset(a);
      SmallestFirst(a, b[0]);
      SmallestFirst(b, a[0]);
      BeforeIsKeyOrder(a[0], b[0]);
      Uncons(a);
      Uncons(b);
      OrderedUnique(a[1..], b[1..]);
    }
  }

  lemma SmallestFirst(ps: seq<Prefix>, q: Prefix)
    requires AllValid4(ps) && Ordered(ps) && q in ps
    ensures SortKey(ps[0]) <= SortKey(q)
  {
    assert q == ps[0] || q in ps[1..];
  }

  lemma Uncons(ps: seq<Prefix>)
    requires ps != []
    ensures ps == [ps[0]] + ps[1..] && multiset(ps[1..]) == multiset(ps) - multiset{ps[0]}
  {
    assert ps == [ps[0]] + ps[1..];
  }

  /** The order in which a whitelist is stored does not reach the config. */
  lemma SortForgetsOrder(ps: seq<Prefix>, qs: seq<Prefix>)
    requires AllValid4(ps) && AllValid4(qs) && multiset(ps) == multiset(qs)
    ensures SortedPrefixes(ps) == SortedPrefixes(qs)
  {
    SortedIsOrdered(ps);
    SortedIsOrdered(qs);
    OrderedUnique(SortedPrefixes(ps), SortedPrefixes(qs));
  }

  // ---- lines ----

  function Bares(ws: seq<string>): seq<Field> { seq(|ws|, i requires 0 <= i < |ws| => Bare(ws[i])) }

  function W(ws: seq<string>): Printed { Words(Bares(ws)) }

  function PortList(p: ProxyPolicy): string {
    if p.allowAllPorts || p.allowedPorts == [] then [] else FormatPortRanges(p.allowedPorts)
  }

  function AuthTypes(m: AuthMode): seq<string> {
    if m.UsesIpList() then [AUTH_IP_ONLY, AUTH_STRONG] else [AUTH_STRONG]
  }

  function UserAllow(u: User, ports: string): Printed {
    if ports == [] then W(["allow", u.name]) else W(["allow", u.name, "*", "*", ports])
  }

  function NetAllow(p: Prefix, ports: string): Printed
    requires p.Valid4()
  {
    if ports == [] then W(["allow", "*", p.Text()]) else W(["allow", "*", p.Text(), "*", ports])
  }

  function UserAllows(us: seq<User>, ports: string): (ls: seq<Printed>)
    ensures |ls| == |us|
    ensures forall i :: 0 <= i < |us| ==> ls[i] == UserAllow(us[i], ports)
  {
    seq(|us|, i requires 0 <= i < |us| => UserAllow(us[i], ports))
  }

  function NetAllows(ps: seq<Prefix>, ports: string): (ls: seq<Printed>)
    requires AllValid4(ps)
    ensures |ls| == |ps|
    ensures forall i :: 0 <= i < |ps| ==> ls[i] == NetAllow(ps[i], ports)
  {
    seq(|ps|, i requires 0 <= i < |ps| => NetAllow(ps[i], ports))
  }

  const FLUSH := W(["flush"])
  const DENY_ALL := W(["deny", "*"])

  function AllowedUsers(sp: Spec): seq<User> { if sp.authMode.UsesUserPass() then sp.users else [] }

  function AllowedNets(sp: Spec): (ps: seq<Prefix>)
    requires sp.Valid()
    ensures AllValid4(ps)
  {
    if sp.authMode.UsesIpList() then SortedPrefixes(sp.authIps) else []
  }

  function Acl(sp: Spec): seq<Printed>
    requires sp.Valid()
  {
    var ports := PortList(sp.policy);
    [FLUSH] + UserAllows(AllowedUsers(sp), ports) + NetAllows(AllowedNets(sp), ports) + [DENY_ALL]
  }

  function UserLine(u: User): Printed {
    Words([Bare("users"), Quoted(u.name + ":" + PASSWORD_TYPE + ":" + u.password)])
  }

  function UserLines(us: seq<User>): (ls: seq<Printed>)
    ensures |ls| == |us|
    ensures forall i :: 0 <= i < |us| ==> ls[i] == UserLine(us[i])
  {
    seq(|us|, i requires 0 <= i < |us| => UserLine(us[i]))
  }

  function NServerLines(ns: seq<Addr>): (ls: seq<Printed>)
    requires forall a :: a in ns ==> a.V4?
    ensures |ls| == |ns|
    ensures forall i :: 0 <= i < |ns| ==> ls[i] == W(["nserver", ns[i].Text()])
  {
    seq(|ns|, i requires 0 <= i < |ns| => W(["nserver", ns[i].Text()]))
  }

  function ConnLimLines(limit: int): seq<Printed> {
    if limit > 0 then [W(["connlim", Itoa(limit), "0", "*", "*"])] else []
  }

  /** The settings between the name servers and the connection limit. */
  function Settings(sp: Spec): seq<Printed> {
    [ W(["timeouts"] + TIMEOUT_VALUES),
      W(["noforce"]),
      LogTo(sp.logPath),
      W(["rotate", Itoa(LOG_ROTATE_DAYS)]),
      Words([Bare("logformat"), Quoted(LOG_FORMAT)]),
      W(["logdump", Itoa(LOG_DUMP_BYTES), Itoa(LOG_DUMP_BYTES)]),
      W(["setgid", Itoa(GROUP_GID)]),
      W(["setuid", Itoa(SlotUid(sp.slot))]),
      W(["maxconn", Itoa(sp.policy.maxConn)]) ]
  }

  function Addresses(sp: Spec): seq<Printed>
    requires sp.Valid()
  {
    [W(["external", sp.externalIp.Text()]), W(["internal", sp.internalIp.Text()])]
  }

  function AuthLine(m: AuthMode): Printed { W(["auth"] + AuthTypes(m)) }

  function Head(sp: Spec): seq<Printed>
    requires sp.Valid()
  {
    [W(["nscache", Itoa(NS_CACHE_SIZE)])] + NServerLines(sp.nservers) + Settings(sp)
    + ConnLimLines(sp.policy.connLimit) + [AuthLine(sp.authMode)] + UserLines(sp.users) + Addresses(sp)
  }

  function ServiceLine(service: string, port: int): Printed {
    W([service, "-p" + Itoa(port), ANON_FLAG, FAMILY_FLAG])
  }

  function Program(sp: Spec): seq<Printed>
    requires sp.Valid()
  {
    Head(sp)
    + Acl(sp) + [ServiceLine(SERVICE_PROXY, sp.httpPort)]
    + Acl(sp) + [ServiceLine(SERVICE_SOCKS, sp.socksPort)]
  }

  // ---- the renderer ----

  method WriteUserAllows(us: seq<User>, ports: string) returns (out: seq<Printed>)
    ensures out == UserAllows(us, ports)
  {
    hide W;
    out := [];
    var i := 0;
    while i < |us|
      invariant 0 <= i <= |us|
      invariant out == UserAllows(us, ports)[..i]
    {
      var u := us[i];
      if ports == [] {
        out := out + [W(["allow", u.name])];
      } else {
        out := out + [W(["allow", u.name, "*", "*", ports])];
      }
      assert out[i] == UserAllow(u, ports) == UserAllows(us, ports)[i];
      i := i + 1;
    }
  }

  method WriteNetAllows(ps: seq<Prefix>, ports: string) returns (out: seq<Printed>)
    requires AllValid4(ps)
    ensures out == NetAllows(ps, ports)
  {
    hide W, Prefix.Text;
    out := [];
    var i := 0;
    while i < |ps|
      invariant 0 <= i <= |ps|
      invariant out == NetAllows(ps, ports)[..i]
    {
      var p := ps[i];
      assert p in ps;
      if ports == [] {
        out := out + [W(["allow", "*", p.Text()])];
      } else {
        out := out + [W(["allow", "*", p.Text(), "*", ports])];
      }
      assert out[i] == NetAllow(p, ports) == NetAllows(ps, ports)[i];
      i := i + 1;
    }
  }

  method WriteAcl(sp: Spec) returns (out: seq<Printed>)
    requires sp.Valid()
    ensures out == Acl(sp)
  {
    var ports := PortList(sp.policy);
    out := [FLUSH];
    if sp.authMode.UsesUserPass() {
      var users := WriteUserAllows(sp.users, ports);
      out := out + users;
    }
    if sp.authMode.UsesIpList() {
      var nets := WriteNetAllows(SortedPrefixes(sp.authIps), ports);
      out := out + nets;
    }
    out := out + [DENY_ALL];
  }

  method WriteNServers(ns: seq<Addr>) returns (out: seq<Printed>)
    requires forall a :: a in ns ==> a.V4?
    ensures out == NServerLines(ns)
  {
    out := [];
    var i := 0;
    while i < |ns|
      invariant 0 <= i <= |ns|
      invariant out == NServerLines(ns)[..i]
    {
      out := out + [W(["nserver", ns[i].Text()])];
      i := i + 1;
    }
  }

  method WriteUsers(us: seq<User>) returns (out: seq<Printed>)
    ensures out == UserLines(us)
  {
    out := [];
    var i := 0;
    while i < |us|
      invariant 0 <= i <= |us|
      invariant out == UserLines(us)[..i]
    {
      out := out + [UserLine(us[i])];
      i := i + 1;
    }
  }

  /** Everything Render writes, line by line, before it checks the result. */
  method WriteConfig(sp: Spec) returns (out: seq<Printed>)
    requires sp.Valid()
    ensures out == Program(sp)
  {
    hide Settings, Addresses, AuthLine, ServiceLine, Acl, ConnLimLines, UserLine, Itoa, WordsText;
    var servers := WriteNServers(sp.nservers);
    out := [W(["nscache", Itoa(NS_CACHE_SIZE)])] + servers + Settings(sp);
    out := out + ConnLimLines(sp.policy.connLimit);
    var users := WriteUsers(sp.users);
    out := out + [AuthLine(sp.authMode)] + users + Addresses(sp);
    assert out == Head(sp);
    var acl := WriteAcl(sp);
    out := out + acl + [ServiceLine(SERVICE_PROXY, sp.httpPort)];
    acl := WriteAcl(sp);
    out := out + acl + [ServiceLine(SERVICE_SOCKS, sp.socksPort)];
  }
}
