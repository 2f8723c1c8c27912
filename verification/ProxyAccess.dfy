/** What a rendered config grants: the first matching rule of each service's block decides,
    and RevokesAccess compares two configs (internal/proxysup/render.go). */
module ProxyAccess {
  import opened Netip
  import opened Domain
  import opened ProxySpec
  import opened ProxyText
  import opened ProxyProgram
  import opened ProxyVerify
  import opened ProxyRender
  import opened ProxyAccepts
  import opened ProxyLogPath

  // ---- how 3proxy reads a block ----

  datatype Request = Request(user: string, source: Addr, port: int)

  predicate AnyField(s: string) { s == [] || s == "*" }

  predicate UserMatches(s: string, user: string) { AnyField(s) || s == user }

  predicate SourceMatches(s: string, source: Addr) {
    AnyField(s)
    || match ParsePrefix(s) case Some(p) => p.Valid4() && p.Contains(source) case None => false
  }

  predicate PortMatches(s: string, port: int) {
    AnyField(s)
    || match PortRangesOf(s) case Some(rs) => (exists r :: r in rs && r.Contains(port)) case None => false
  }

  /** allow|deny user source target ports; a missing field is a wildcard. */
  predicate Matches(l: Line, req: Request) {
    UserMatches(l.Arg(0), req.user) && SourceMatches(l.Arg(1), req.source)
    && AnyField(l.Arg(2)) && PortMatches(l.Arg(3), req.port)
  }

  /** First match wins; a request no rule matches is refused. */
  predicate Decide(block: seq<Line>, req: Request) {
    block != []
    && if (block[0].kind.Allow? || block[0].kind.Deny?) && Matches(block[0], req) then block[0].kind.Allow?
       else Decide(block[1..], req)
  }

  /** What the spec means: an allowed port, and a listed user or a whitelisted source. */
  ghost predicate SpecAdmits(sp: Spec, req: Request)
    requires sp.Valid()
  {
    && sp.policy.Admits(req.port)
    && (|| (sp.authMode.UsesUserPass() && exists u :: u in sp.users && u.name == req.user)
        || (sp.authMode.UsesIpList() && exists p :: p in sp.authIps && p.Contains(req.source)))
  }

  lemma {:induction false} DecideAllows(allows: seq<Line>, rest: seq<Line>, req: Request)
    requires forall l :: l in allows ==> l.kind.Allow?
    ensures Decide(allows + rest, req) <==> (exists l :: l in allows && Matches(l, req)) || Decide(rest, req)
  {
    hide Matches;
    if allows == [] {
      assert allows + rest == rest;
    } else {
      assert (allows + rest)[1..] == allows[1..] + rest;
      DecideAllows(allows[1..], rest, req);
      assert allows[0] in allows;
      assert forall l :: l in allows <==> l == allows[0] || l in allows[1..];
    }
  }

  lemma PortFieldMeans(policy: ProxyPolicy, port: int)
    requires policy.Valid()
    ensures PortMatches(PortList(policy), port) <==> policy.Admits(port)
  {
    PortsPlain(policy);
    if !policy.allowAllPorts && policy.allowedPorts != [] {
      PortRangesRoundTrip(policy.allowedPorts);
    }
  }

  lemma UserAllowMatches(u: User, sp: Spec, req: Request)
    requires sp.Valid() && u in sp.users
    ensures var l := Wd(Allow, UserWords(u, PortList(sp.policy)));
            Matches(l, req) <==> u.name == req.user && sp.policy.Admits(req.port)
  {
    var ports := PortList(sp.policy);
    NamePlain(u);
    WdArgs(Allow, UserWords(u, ports));
    PortFieldMeans(sp.policy, req.port);
    hide PortMatches, SourceMatches, PortList, Spec.Valid;
    assert SourceMatches([], req.source) && SourceMatches("*", req.source) by { }
    SourceAny(req.source);
  }

  lemma SourceAny(source: Addr)
    ensures SourceMatches([], source) && SourceMatches("*", source)
  {
  }

  lemma NetAllowMatches(p: Prefix, sp: Spec, req: Request)
    requires sp.Valid() && p in sp.authIps
    ensures var l := Wd(Allow, NetWords(p, PortList(sp.policy)));
            Matches(l, req) <==> p.Contains(req.source) && sp.policy.Admits(req.port)
  {
    var ports := PortList(sp.policy);
    PrefixPlain(p);
    PrefixRoundTrip(p);
    WdArgs(Allow, NetWords(p, ports));
    PortFieldMeans(sp.policy, req.port);
    assert SourceMatches(p.Text(), req.source) <==> p.Contains(req.source);
    hide PortMatches, SourceMatches, PortList, Spec.Valid, Prefix.Text;
  }

  lemma DenyLineRefuses(req: Request)
    ensures !Decide([DENY_LINE], req)
  {
    WdArgs(Deny, ["deny", "*"]);
    SourceAny(req.source);
  }

  lemma UserBlockAdmits(sp: Spec, us: seq<User>, req: Request)
    requires sp.Valid() && forall u :: u in us ==> u in sp.users
    ensures var ub := UserBlock(us, PortList(sp.policy));
            && (forall l :: l in ub ==> l.kind.Allow?)
            && ((exists l :: l in ub && Matches(l, req)) <==> sp.policy.Admits(req.port) && exists u :: u in us && u.name == req.user)
  {
    var ports := PortList(sp.policy);
    var ub := UserBlock(us, ports);
    hide Matches, UserWords, PortList, ProxyPolicy.Admits, Spec.Valid;
    forall i | 0 <= i < |us| ensures Matches(ub[i], req) <==> us[i].name == req.user && sp.policy.Admits(req.port) {
      UserAllowMatches(us[i], sp, req);
    }
    forall u | u in us && u.name == req.user && sp.policy.Admits(req.port) ensures exists l :: l in ub && Matches(l, req) {
      var i :| 0 <= i < |us| && us[i] == u;
      assert ub[i] in ub;
    }
    forall l | l in ub && Matches(l, req) ensures sp.policy.Admits(req.port) && exists u :: u in us && u.name == req.user {
      var i :| 0 <= i < |us| && ub[i] == l;
      assert us[i] in us;
    }
  }

  lemma NetBlockAdmits(sp: Spec, ps: seq<Prefix>, req: Request)
    requires sp.Valid() && AllValid4(ps) && forall p :: p in ps ==> p in sp.authIps
    ensures var nb := NetBlock(ps, PortList(sp.policy));
            && (forall l :: l in nb ==> l.kind.Allow?)
            && ((exists l :: l in nb && Matches(l, req)) <==> sp.policy.Admits(req.port) && exists p :: p in ps && p.Contains(req.source))
  {
    var ports := PortList(sp.policy);
    var nb := NetBlock(ps, ports);
    hide Matches, NetWords, PortList, ProxyPolicy.Admits, Spec.Valid, Prefix.Contains;
    forall i | 0 <= i < |ps| ensures ps[i].Valid4() && (Matches(nb[i], req) <==> ps[i].Contains(req.source) && sp.policy.Admits(req.port)) {
      assert ps[i] in ps;
      NetAllowMatches(ps[i], sp, req);
    }
    forall p | p in ps && p.Contains(req.source) && sp.policy.Admits(req.port) ensures exists l :: l in nb && Matches(l, req) {
      var i :| 0 <= i < |ps| && ps[i] == p;
      assert nb[i] in nb;
    }
    forall l | l in nb && Matches(l, req) ensures sp.policy.Admits(req.port) && exists p :: p in ps && p.Contains(req.source) {
      var i :| 0 <= i < |ps| && nb[i] == l;
      assert ps[i] in ps;
    }
  }

  lemma RulesThenDeny(ub: seq<Line>, nb: seq<Line>, req: Request)
    requires (forall l :: l in ub ==> l.kind.Allow?) && (forall l :: l in nb ==> l.kind.Allow?)
    ensures Decide(ub + nb + [DENY_LINE], req) <==>
            (exists l :: l in ub && Matches(l, req)) || (exists l :: l in nb && Matches(l, req))
  {
    hide Matches, DENY_LINE, Decide;
    assert ub + nb + [DENY_LINE] == ub + (nb + [DENY_LINE]);
    DecideAllows(ub, nb + [DENY_LINE], req);
    DecideAllows(nb, [DENY_LINE], req);
    DenyLineRefuses(req);
  }

  lemma BlockTail(us: seq<User>, ps: seq<Prefix>, ports: string)
    requires AllValid4(ps)
    ensures Block(us, ps, ports)[1..] == UserBlock(us, ports) + NetBlock(ps, ports) + [DENY_LINE]
  {
    hide UserBlock, NetBlock, DENY_LINE, FLUSH_LINE;
  }

  /** A rendered block decides every request as its spec does. */
  lemma BlockAdmits(sp: Spec, req: Request)
    requires sp.Valid()
    ensures Decide(BlockOf(sp)[1..], req) <==> SpecAdmits(sp, req)
  {
    var us, ps, ports := AllowedUsers(sp), AllowedNets(sp), PortList(sp.policy);
    SortedMembers(sp.authIps);
    UserBlockAdmits(sp, us, req);
    NetBlockAdmits(sp, ps, req);
    BlockTail(us, ps, ports);
    hide Matches, UserBlock, NetBlock, Decide, Block, DENY_LINE, FLUSH_LINE, Prefix.Contains, ProxyPolicy.Admits,
         Spec.Valid, PortList, UserWords, NetWords, SortedPrefixes, AllValid4;
    RulesThenDeny(UserBlock(us, ports), NetBlock(ps, ports), req);
  }

  lemma ServiceBlock(lines: seq<Line>, f: nat, b: seq<Line>, us: seq<User>, ps: seq<Prefix>)
    requires AllValid4(ps) && AccessBlock(b, us, ps) && BlockAt(lines, f, b)
    ensures b != [] && lines[BlockStart(lines, f + |b|)..f + |b|] == b[1..]
  {
    BlockStarts(lines, f, b, us, ps, f + |b|);
    hide UserAllowed, NetAllowed, OperationsOk, BlockStart;
    assert lines[f + 1..f + |b|] == b[1..];
  }

  // ---- any log path ----

  lemma AcceptedServices(lines: seq<Line>, sp: Spec)
    requires Accepted(lines, sp)
    ensures |Services(lines)| == 2
  {
    hide GlobalsAccepted, UsersAccepted, ServicesAccepted, LineAccepted, Services;
  }

  /** Whatever the log path is: a config that passes the checks admits, in front of each
      service, exactly the requests the spec admits. */
  lemma AcceptedAdmits(sp: Spec, req: Request)
    requires sp.Valid() && Accepted(ParseText(PrintAll(Program(sp))), sp)
    ensures var lines := ParseText(PrintAll(Program(sp)));
            && |Services(lines)| == 2
            && forall k :: k in Services(lines) ==> (Decide(lines[BlockStart(lines, k)..k], req) <==> SpecAdmits(sp, req))
  {
    hide ParseText, PrintAll, Program, BlockOf, AllowedUsers, AllowedNets, Spec.Valid, AccessBlock, Shape, Decide, SpecAdmits,
         Accepted, BlockAt, BlockStart, Services, Around, BlockFor, ServiceOk, PathLines;
    var lines := ParseText(PrintAll(Program(sp)));
    AcceptedServices(lines, sp);
    var h1, h2, b, p, s := Lines(sp);
    var head := h1 + PathLines(sp.logPath) + h2;
    BlockAdmits(sp, req);
    BothServed(lines, head, b, p, s);
    ServiceBlock(lines, |head|, b, AllowedUsers(sp), AllowedNets(sp));
    ServiceBlock(lines, |head| + |b| + 1, b, AllowedUsers(sp), AllowedNets(sp));
  }

  /** Printed, read back and evaluated first match first, the block in front of each
      service admits exactly the requests the spec admits. */
  lemma RenderedAdmits(sp: Spec, req: Request)
    requires sp.Valid() && '\n' !in sp.logPath
    ensures var lines := ParseText(PrintAll(Program(sp)));
            && |Services(lines)| == 2
            && forall k :: k in Services(lines) ==> (Decide(lines[BlockStart(lines, k)..k], req) <==> SpecAdmits(sp, req))
  {
    hide ParseText, PrintAll, Program, Spec.Valid, Decide, SpecAdmits, Accepted, BlockStart, Services, PathAccepted;
    RenderedIsAccepted(sp);
    AcceptedAdmits(sp, req);
  }
}
