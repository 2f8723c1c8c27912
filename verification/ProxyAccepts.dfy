/** How the checks read the lines Render prints: the settings and the access blocks. */
module ProxyAccepts {
  import opened Wrappers
  import opened Text
  import opened Netip
  import opened Domain
  import opened ProxySpec
  import opened ProxyText
  import opened ProxyProgram
  import opened ProxyVerify
  import opened ProxyRender

  // ---- what each command word means to the checks ----

  lemma SilentKinds()
    ensures KindOf("nscache") == Other && KindOf("rotate") == Other
  {
  }

  lemma QuietKinds()
    ensures KindOf("logdump") == Other && KindOf("maxconn") == Other
  {
  }

  lemma ExternalKind()
    ensures KindOf("external") == Other
  {
  }

  lemma SettingKinds()
    ensures KindOf("nserver") == NServer && KindOf("timeouts") == Timeouts && KindOf("noforce") == Noforce
    ensures KindOf("logformat") == LogFormat && KindOf("setgid") == SetGid && KindOf("setuid") == SetUid
  {
  }

  lemma AccessKinds()
    ensures KindOf("connlim") == Rule(6) && KindOf("auth") == Auth && KindOf("users") == Users
    ensures KindOf("internal") == Internal && KindOf("flush") == Flush
    ensures KindOf("allow") == Allow && KindOf("deny") == Deny
    ensures KindOf(SERVICE_PROXY) == Proxy && KindOf(SERVICE_SOCKS) == Socks
  {
  }

  /** A line of bare words of a known kind. */
  function Wd(k: Kind, ws: seq<string>): Line { Line(k, Bares(ws)) }

  lemma ParsedW(ws: seq<string>)
    requires PlainWords(ws)
    ensures W(ws).Printable() && W(ws).Parsed() == Wd(KindOf(ws[0]), ws)
  {
    WordsPrintable(ws);
  }

  lemma WdArgs(k: Kind, ws: seq<string>)
    requires ws != []
    ensures forall i: nat :: Wd(k, ws).Arg(i) == if i + 1 < |ws| then ws[i + 1] else []
    ensures |Wd(k, ws).Args()| == |ws| - 1
    ensures forall s :: Wd(k, ws).HasArg(s) <==> s in ws[1..]
  {
    var l := Wd(k, ws);
    forall s ensures l.HasArg(s) <==> s in ws[1..] {
      if s in ws[1..] {
        var i :| 1 <= i < |ws| && ws[i] == s;
        assert l.Args()[i - 1].text == s;
      }
      if l.HasArg(s) {
        var i :| 0 <= i < |l.Args()| && l.Args()[i].text == s;
        assert ws[i + 1] == s;
      }
    }
  }

  function UserEntry(u: User): string { u.name + ":" + PASSWORD_TYPE + ":" + u.password }

  function UL(u: User): Line { Line(Users, [Bare("users"), Quoted(UserEntry(u))]) }

  lemma UserEntryRoundTrip(u: User)
    requires ValidUsername(u.name) && ValidPassword(u.password)
    ensures SplitUserEntry(UserEntry(u)) == Some(Entry(u.name, PASSWORD_TYPE, u.password))
    ensures EntryOk(Quoted(UserEntry(u)))
  {
    var tail := PASSWORD_TYPE + [':'] + u.password;
    assert UserEntry(u) == u.name + [':'] + tail;
    SplitFirst(u.name, ':', tail);
    SplitFirst(PASSWORD_TYPE, ':', u.password);
    SplitWhole(u.password, ':');
  }

  // ---- the global settings pass ----

  /** A line that sets nothing global and carries no access rule of its own. */
  predicate Quiet(l: Line, sp: Spec) {
    && GlobalLineOk(l, sp)
    && OperationsOk(l)
    && !l.kind.Flush? && !l.kind.Allow? && !l.kind.Deny? && !l.kind.Service()
    && (l.kind.Auth? ==> l.HasArg(AUTH_STRONG))
    && (l.kind.Users? ==> exists u :: u in sp.users && l == UL(u))
  }

  predicate HeadLine(p: Printed, sp: Spec) { p.Printable() && Quiet(p.Parsed(), sp) }

  predicate SilentWord(w: string) {
    Plain(w) && w[0] != '#' && (KindOf(w) == Other || KindOf(w) == NServer || KindOf(w) == Noforce)
  }

  lemma QuietPair(a: string, b: string, sp: Spec)
    requires SilentWord(a) && Plain(b)
    ensures HeadLine(W([a, b]), sp)
  {
    ParsedW([a, b]);
  }

  lemma QuietTriple(a: string, b: string, c: string, sp: Spec)
    requires SilentWord(a) && Plain(b) && Plain(c)
    ensures HeadLine(W([a, b, c]), sp)
  {
    ParsedW([a, b, c]);
  }

  lemma QuietNoforce(sp: Spec)
    ensures HeadLine(W(["noforce"]), sp) && W(["noforce"]).Parsed().kind == Noforce
  {
    SettingKinds();
    ServerWords();
    ParsedW(["noforce"]);
  }

  lemma QuietRotate(sp: Spec)
    ensures HeadLine(W(["rotate", Itoa(LOG_ROTATE_DAYS)]), sp)
  {
    SilentKinds();
    LimitWords();
    ItoaPlain(LOG_ROTATE_DAYS);
    QuietPair("rotate", Itoa(LOG_ROTATE_DAYS), sp);
  }

  lemma QuietLogDump(sp: Spec)
    ensures HeadLine(W(["logdump", Itoa(LOG_DUMP_BYTES), Itoa(LOG_DUMP_BYTES)]), sp)
  {
    QuietKinds();
    LimitWords();
    ItoaPlain(LOG_DUMP_BYTES);
    QuietTriple("logdump", Itoa(LOG_DUMP_BYTES), Itoa(LOG_DUMP_BYTES), sp);
  }

  lemma QuietMaxConn(n: nat, sp: Spec)
    ensures HeadLine(W(["maxconn", Itoa(n)]), sp)
  {
    QuietKinds();
    LimitWords();
    ItoaPlain(n);
    QuietPair("maxconn", Itoa(n), sp);
  }

  lemma QuietCache(sp: Spec)
    ensures HeadLine(W(["nscache", Itoa(NS_CACHE_SIZE)]), sp)
  {
    SilentKinds();
    ServerWords();
    ItoaPlain(NS_CACHE_SIZE);
    QuietPair("nscache", Itoa(NS_CACHE_SIZE), sp);
  }

  lemma QuietServer(a: Addr, sp: Spec)
    requires a.V4?
    ensures HeadLine(W(["nserver", a.Text()]), sp) && W(["nserver", a.Text()]).Parsed().kind == NServer
  {
    SettingKinds();
    ServerWords();
    AddrPlain(a);
    QuietPair("nserver", a.Text(), sp);
  }

  lemma QuietExternal(a: Addr, sp: Spec)
    requires a.V4?
    ensures HeadLine(W(["external", a.Text()]), sp)
  {
    ExternalKind();
    AuthWords();
    AddrPlain(a);
    QuietPair("external", a.Text(), sp);
  }

  lemma QuietTimeouts(sp: Spec)
    ensures HeadLine(W(["timeouts"] + TIMEOUT_VALUES), sp)
    ensures W(["timeouts"] + TIMEOUT_VALUES).Parsed().kind == Timeouts
  {
    TimeoutsPrintable();
    SettingKinds();
    WdArgs(Timeouts, ["timeouts"] + TIMEOUT_VALUES);
    assert W(["timeouts"] + TIMEOUT_VALUES).Parsed() == Wd(Timeouts, ["timeouts"] + TIMEOUT_VALUES);
  }

  lemma QuietLogFormat(sp: Spec)
    ensures HeadLine(Words([Bare("logformat"), Quoted(LOG_FORMAT)]), sp)
    ensures Words([Bare("logformat"), Quoted(LOG_FORMAT)]).Parsed().kind == LogFormat
  {
    LogFormatPrintable();
    SettingKinds();
    var s := LOG_FORMAT;
    assert s[|s| - 2..] == "%e";
    assert "%e" <= s[|s| - 2..];
  }

  lemma QuietGroup(sp: Spec)
    ensures HeadLine(W(["setgid", Itoa(GROUP_GID)]), sp)
  {
    hide Plain, KindOf, Itoa;
    SettingKinds();
    LimitWords();
    ItoaPlain(GROUP_GID);
    ParsedW(["setgid", Itoa(GROUP_GID)]);
  }

  lemma QuietUid(sp: Spec)
    requires ValidSlot(sp.slot)
    ensures HeadLine(W(["setuid", Itoa(SlotUid(sp.slot))]), sp)
  {
    hide Plain, KindOf, Itoa;
    SettingKinds();
    LimitWords();
    ItoaPlain(SlotUid(sp.slot));
    ParsedW(["setuid", Itoa(SlotUid(sp.slot))]);
  }

  lemma QuietAuth(sp: Spec)
    requires sp.authMode.Valid()
    ensures HeadLine(AuthLine(sp.authMode), sp)
    ensures AuthLine(sp.authMode).Parsed().kind == Auth
  {
    AccessKinds();
    AuthWords();
    var ws := ["auth"] + AuthTypes(sp.authMode);
    ParsedW(ws);
    WdArgs(Auth, ws);
    assert ws[1..] == AuthTypes(sp.authMode);
    assert AUTH_NONE != AUTH_IP_ONLY && AUTH_NONE != AUTH_STRONG && AUTH_IP_ONLY != AUTH_STRONG;
  }

  lemma QuietInternal(sp: Spec)
    requires sp.internalIp.V4?
    ensures HeadLine(W(["internal", sp.internalIp.Text()]), sp)
    ensures W(["internal", sp.internalIp.Text()]).Parsed().kind == Internal
  {
    AccessKinds();
    AuthWords();
    AddrPlain(sp.internalIp);
    ParsedW(["internal", sp.internalIp.Text()]);
    AddrRoundTrip(sp.internalIp);
  }

  lemma QuietUser(u: User, sp: Spec)
    requires u in sp.users && ValidUsername(u.name) && ValidPassword(u.password)
    ensures HeadLine(UserLine(u), sp) && UserLine(u).Parsed() == UL(u)
  {
    AccessKinds();
    UserLinePrintable(u);
  }

  lemma QuietConnLim(limit: nat, sp: Spec)
    ensures HeadLine(W(["connlim", Itoa(limit), "0", "*", "*"]), sp)
  {
    AccessKinds();
    AclWords();
    ServerWords();
    ItoaPlain(limit);
    ParsedW(["connlim", Itoa(limit), "0", "*", "*"]);
    WdArgs(Rule(6), ["connlim", Itoa(limit), "0", "*", "*"]);
  }

  lemma QuietLog(path: string, sp: Spec)
    requires '\n' !in path
    ensures HeadLine(LogTo(path), sp)
  {
  }

  lemma QuietSettings(sp: Spec)
    requires sp.Valid() && '\n' !in sp.logPath
    ensures forall p :: p in Settings(sp) ==> HeadLine(p, sp)
  {
    hide HeadLine, Itoa, WordsText;
    QuietTimeouts(sp);
    QuietNoforce(sp);
    QuietLog(sp.logPath, sp);
    QuietRotate(sp);
    QuietLogFormat(sp);
    QuietLogDump(sp);
    QuietGroup(sp);
    QuietUid(sp);
    QuietMaxConn(sp.policy.maxConn, sp);
  }

  lemma QuietHead(sp: Spec)
    requires sp.Valid() && '\n' !in sp.logPath
    ensures forall p :: p in Head(sp) ==> HeadLine(p, sp)
  {
    hide HeadLine, Itoa, Settings, UserLine, AuthLine, WordsText;
    QuietCache(sp);
    forall a | a in sp.nservers ensures HeadLine(W(["nserver", a.Text()]), sp) {
      QuietServer(a, sp);
    }
    QuietSettings(sp);
    if sp.policy.connLimit > 0 {
      QuietConnLim(sp.policy.connLimit, sp);
    }
    QuietAuth(sp);
    forall u | u in sp.users ensures HeadLine(UserLine(u), sp) {
      QuietUser(u, sp);
    }
    QuietExternal(sp.externalIp, sp);
    QuietInternal(sp);
  }

  // ---- the access blocks ----

  function UserWords(u: User, ports: string): seq<string> {
    if ports == [] then ["allow", u.name] else ["allow", u.name, "*", "*", ports]
  }

  function NetWords(p: Prefix, ports: string): seq<string>
    requires p.Valid4()
  {
    if ports == [] then ["allow", "*", p.Text()] else ["allow", "*", p.Text(), "*", ports]
  }

  function UserBlock(us: seq<User>, ports: string): (b: seq<Line>)
    ensures |b| == |us|
    ensures forall i :: 0 <= i < |us| ==> b[i] == Wd(Allow, UserWords(us[i], ports))
  {
    seq(|us|, i requires 0 <= i < |us| => Wd(Allow, UserWords(us[i], ports)))
  }

  function NetBlock(ps: seq<Prefix>, ports: string): (b: seq<Line>)
    requires AllValid4(ps)
    ensures |b| == |ps|
    ensures forall i :: 0 <= i < |ps| ==> b[i] == Wd(Allow, NetWords(ps[i], ports))
  {
    seq(|ps|, i requires 0 <= i < |ps| => Wd(Allow, NetWords(ps[i], ports)))
  }

  const FLUSH_LINE := Wd(Flush, ["flush"])
  const DENY_LINE := Wd(Deny, ["deny", "*"])

  /** The lines of a rendered access block, as the parser reads them. */
  function Block(us: seq<User>, ps: seq<Prefix>, ports: string): seq<Line>
    requires AllValid4(ps)
  {
    [FLUSH_LINE] + UserBlock(us, ports) + NetBlock(ps, ports) + [DENY_LINE]
  }

  lemma ParsedUserAllow(u: User, ports: string)
    requires ValidUsername(u.name) && (ports == [] || Plain(ports))
    ensures UserAllow(u, ports).Printable() && UserAllow(u, ports).Parsed() == Wd(Allow, UserWords(u, ports))
  {
    AclWords();
    AccessKinds();
    NamePlain(u);
    ParsedW(UserWords(u, ports));
  }

  lemma ParsedNetAllow(p: Prefix, ports: string)
    requires p.Valid4() && (ports == [] || Plain(ports))
    ensures NetAllow(p, ports).Printable() && NetAllow(p, ports).Parsed() == Wd(Allow, NetWords(p, ports))
  {
    AclWords();
    AccessKinds();
    PrefixPlain(p);
    ParsedW(NetWords(p, ports));
  }

  lemma ParsedFence()
    ensures FLUSH.Printable() && FLUSH.Parsed() == FLUSH_LINE
    ensures DENY_ALL.Printable() && DENY_ALL.Parsed() == DENY_LINE
  {
    AclWords();
    AccessKinds();
    ParsedW(["flush"]);
    ParsedW(["deny", "*"]);
  }

  lemma ParsedUserAllows(us: seq<User>, ports: string)
    requires forall u :: u in us ==> ValidUsername(u.name)
    requires ports == [] || Plain(ports)
    ensures AllPrintable(UserAllows(us, ports)) && ParsedAll(UserAllows(us, ports)) == UserBlock(us, ports)
  {
    hide UserAllow, UserWords, Printed.Printable, Printed.Parsed, Plain, ValidUsername;
    forall u | u in us ensures UserAllow(u, ports).Printable() && UserAllow(u, ports).Parsed() == Wd(Allow, UserWords(u, ports)) {
      ParsedUserAllow(u, ports);
    }
  }

  lemma ParsedNetAllows(ps: seq<Prefix>, ports: string)
    requires AllValid4(ps)
    requires ports == [] || Plain(ports)
    ensures AllPrintable(NetAllows(ps, ports)) && ParsedAll(NetAllows(ps, ports)) == NetBlock(ps, ports)
  {
    hide NetAllow, NetWords, Printed.Printable, Printed.Parsed, Plain;
    forall p | p in ps ensures NetAllow(p, ports).Printable() && NetAllow(p, ports).Parsed() == Wd(Allow, NetWords(p, ports)) {
      ParsedNetAllow(p, ports);
    }
  }

  lemma ParsedOne(p: Printed)
    requires p.Printable()
    ensures AllPrintable([p]) && ParsedAll([p]) == [p.Parsed()]
  {
  }

  function BlockOf(sp: Spec): seq<Line>
    requires sp.Valid()
  {
    Block(AllowedUsers(sp), AllowedNets(sp), PortList(sp.policy))
  }

  lemma ParsedAcl(sp: Spec)
    requires sp.Valid()
    ensures AllPrintable(Acl(sp)) && ParsedAll(Acl(sp)) == BlockOf(sp)
  {
    var us, ps, ports := AllowedUsers(sp), AllowedNets(sp), PortList(sp.policy);
    PortsPlain(sp.policy);
    ParsedFence();
    ParsedUserAllows(us, ports);
    ParsedNetAllows(ps, ports);
    hide Plain, UserAllows, NetAllows, UserBlock, NetBlock, Printed.Printable, Printed.Parsed, PortList, AllowedUsers, AllowedNets, ParsedAll, FLUSH, DENY_ALL, FLUSH_LINE, DENY_LINE;
    ParsedOne(FLUSH);
    ParsedOne(DENY_ALL);
    ParsedAppend([FLUSH], UserAllows(us, ports));
    ParsedAppend([FLUSH] + UserAllows(us, ports), NetAllows(ps, ports));
    ParsedAppend([FLUSH] + UserAllows(us, ports) + NetAllows(ps, ports), [DENY_ALL]);
  }

  /** A flush, allows for exactly these users and networks, and a bare deny of everyone. */
  predicate AccessBlock(b: seq<Line>, us: seq<User>, ps: seq<Prefix>)
    requires AllValid4(ps)
  {
    && |b| == |us| + |ps| + 2
    && b[0].kind.Flush?
    && (forall i :: 0 < i < |b| - 1 ==> b[i].kind.Allow? && OperationsOk(b[i]))
    && (forall i :: 0 <= i < |us| ==> UserAllowed(b[1 + i], us[i].name))
    && (forall i :: 0 <= i < |ps| ==> ps[i].addr.V4? && NetAllowed(b[1 + |us| + i], ps[i].Text()))
    && BareDeny(b[|b| - 1]) && OperationsOk(b[|b| - 1])
  }

  lemma UserWordsAllow(u: User, ports: string)
    requires ValidUsername(u.name)
    ensures var l := Wd(Allow, UserWords(u, ports)); UserAllowed(l, u.name) && OperationsOk(l)
  {
    WdArgs(Allow, UserWords(u, ports));
    NamePlain(u);
  }

  lemma NetWordsAllow(p: Prefix, ports: string)
    requires p.Valid4()
    ensures var l := Wd(Allow, NetWords(p, ports)); NetAllowed(l, p.Text()) && OperationsOk(l)
  {
    WdArgs(Allow, NetWords(p, ports));
  }

  lemma BlockIsAccess(us: seq<User>, ps: seq<Prefix>, ports: string)
    requires AllValid4(ps) && forall u :: u in us ==> ValidUsername(u.name)
    ensures AccessBlock(Block(us, ps, ports), us, ps)
  {
    assert BareDeny(DENY_LINE) && OperationsOk(DENY_LINE) by { WdArgs(Deny, ["deny", "*"]); }
    UserBlockAllows(us, ports);
    NetBlockAllows(ps, ports);
    hide UserAllowed, NetAllowed, OperationsOk, BareDeny, UserBlock, NetBlock, DENY_LINE, ValidUsername, Prefix.Text, AccessBlock;
    AssembledBlock(FLUSH_LINE, UserBlock(us, ports), NetBlock(ps, ports), DENY_LINE, us, ps);
  }

  lemma AssembledBlock(flush: Line, ub: seq<Line>, nb: seq<Line>, deny: Line, us: seq<User>, ps: seq<Prefix>)
    requires AllValid4(ps) && |ub| == |us| && |nb| == |ps|
    requires flush.kind.Flush? && BareDeny(deny) && OperationsOk(deny)
    requires forall i :: 0 <= i < |us| ==> ub[i].kind.Allow? && UserAllowed(ub[i], us[i].name) && OperationsOk(ub[i])
    requires forall i :: 0 <= i < |ps| ==> nb[i].kind.Allow? && ps[i].addr.V4? && NetAllowed(nb[i], ps[i].Text()) && OperationsOk(nb[i])
    ensures AccessBlock([flush] + ub + nb + [deny], us, ps)
  {
    hide UserAllowed, NetAllowed, OperationsOk, BareDeny, Prefix.Text;
    var b, n := [flush] + ub + nb + [deny], |us|;
    assert forall i :: 0 <= i < n ==> b[1 + i] == ub[i];
    assert forall i :: 0 <= i < |ps| ==> b[1 + n + i] == nb[i];
    assert forall i :: 0 < i < |b| - 1 ==> b[i] == if i <= n then ub[i - 1] else nb[i - 1 - n];
  }

  lemma UserBlockAllows(us: seq<User>, ports: string)
    requires forall u :: u in us ==> ValidUsername(u.name)
    ensures forall i :: 0 <= i < |us| ==> var l := UserBlock(us, ports)[i]; l.kind.Allow? && UserAllowed(l, us[i].name) && OperationsOk(l)
  {
    hide UserWords, UserAllowed, OperationsOk, ValidUsername;
    forall i | 0 <= i < |us| ensures var l := UserBlock(us, ports)[i]; l.kind.Allow? && UserAllowed(l, us[i].name) && OperationsOk(l) {
      UserWordsAllow(us[i], ports);
    }
  }

  lemma NetBlockAllows(ps: seq<Prefix>, ports: string)
    requires AllValid4(ps)
    ensures forall i :: 0 <= i < |ps| ==> var l := NetBlock(ps, ports)[i];
              l.kind.Allow? && ps[i].addr.V4? && NetAllowed(l, ps[i].Text()) && OperationsOk(l)
  {
    hide NetWords, NetAllowed, OperationsOk, Prefix.Text;
    forall i | 0 <= i < |ps| ensures var l := NetBlock(ps, ports)[i];
              l.kind.Allow? && ps[i].addr.V4? && NetAllowed(l, ps[i].Text()) && OperationsOk(l) {
      assert ps[i] in ps;
      NetWordsAllow(ps[i], ports);
    }
  }

  lemma {:induction false} BlockStartAt(lines: seq<Line>, f: nat, k: nat)
    requires f < k <= |lines| && lines[f].kind.Flush?
    requires forall i :: f < i < k ==> !lines[i].kind.Flush?
    ensures BlockStart(lines, k) == f + 1
    decreases k
  {
    if f + 1 < k {
      BlockStartAt(lines, f, k - 1);
    }
  }

  /** The block b occupies the lines from f on. */
  predicate BlockAt(lines: seq<Line>, f: nat, b: seq<Line>) {
    f + |b| <= |lines| && forall i :: f <= i < f + |b| ==> lines[i] == b[i - f]
  }

  predicate BlockFor(us: seq<User>, ps: seq<Prefix>, sp: Spec) {
    && AllValid4(ps) && AllValid4(sp.authIps)
    && (sp.authMode.UsesUserPass() ==> us == sp.users)
    && (sp.authMode.UsesIpList() ==> sp.authIps != [] && forall p :: p in sp.authIps ==> p in ps)
  }

  lemma BlockStarts(lines: seq<Line>, f: nat, b: seq<Line>, us: seq<User>, ps: seq<Prefix>, i: nat)
    requires AllValid4(ps) && AccessBlock(b, us, ps) && BlockAt(lines, f, b)
    requires f < i <= f + |b|
    ensures BlockStart(lines, i) == f + 1
  {
    hide UserAllowed, NetAllowed, OperationsOk;
    forall j | f < j < i ensures !lines[j].kind.Flush? {
      assert lines[j] == b[j - f];
    }
    BlockStartAt(lines, f, i);
  }

  /** Inside a rendered block every line passes the access check, wherever the block stands. */
  lemma BlockLinesAccepted(lines: seq<Line>, f: nat, b: seq<Line>, us: seq<User>, ps: seq<Prefix>, sp: Spec)
    requires AllValid4(ps) && AllValid4(sp.authIps) && AccessBlock(b, us, ps) && BlockAt(lines, f, b)
    ensures forall i :: f <= i < f + |b| ==> LineAccepted(lines, i, sp)
  {
    hide UserAllowed, NetAllowed, OperationListOk, BlockStart, Guarded;
    forall i | f <= i < f + |b| ensures LineAccepted(lines, i, sp) {
      assert lines[i] == b[i - f];
      if lines[i].kind.Allow? {
        BlockStarts(lines, f, b, us, ps, i);
        forall d | f + 1 <= d < i ensures !BareDeny(lines[d]) {
          assert lines[d] == b[d - f];
        }
      }
    }
  }

  /** The service behind a rendered block is guarded, wherever the block stands. */
  lemma BlockGuards(lines: seq<Line>, f: nat, b: seq<Line>, us: seq<User>, ps: seq<Prefix>, sp: Spec)
    requires BlockFor(us, ps, sp) && AccessBlock(b, us, ps) && BlockAt(lines, f, b)
    ensures Guarded(lines, f + |b|, sp)
  {
    hide OperationListOk, BlockStart, UserAllowed, NetAllowed, Prefix.Text;
    var k, n := f + |b|, |us|;
    BlockStarts(lines, f, b, us, ps, k);
    assert lines[k - 1] == b[|b| - 1];
    forall s | f + 1 <= s < k ensures !lines[s].kind.Service() {
      assert lines[s] == b[s - f];
    }
    if sp.authMode.UsesUserPass() {
      forall u | u in sp.users ensures UserIn(lines, k, u.name) {
        var i :| 0 <= i < n && us[i] == u;
        assert lines[f + 1 + i] == b[1 + i];
      }
    }
    if sp.authMode.UsesIpList() {
      forall p | p in sp.authIps ensures NetIn(lines, k, p.Text()) {
        var i :| 0 <= i < |ps| && ps[i] == p;
        assert lines[f + 1 + n + i] == b[1 + n + i];
      }
      assert sp.authIps[0] in sp.authIps;
      assert NetIn(lines, k, sp.authIps[0].Text());
    }
  }

  // ---- the whole program ----

  lemma PortArgs(port: nat)
    requires port <= 65535
    ensures ServiceArgOk("-p" + Itoa(port), port) && "-p" <= "-p" + Itoa(port)
    ensures ServiceArgOk(ANON_FLAG, port) && ServiceArgOk(FAMILY_FLAG, port)
  {
    var arg := "-p" + Itoa(port);
    AtoiOfItoa(port);
    assert arg[2..] == Itoa(port);
    assert arg[1] == 'p' && ANON_FLAG[1] == 'a' && FAMILY_FLAG[1] == '4';
  }

  lemma ParsedService(service: string, port: nat)
    requires service == SERVICE_PROXY || service == SERVICE_SOCKS
    requires port <= 65535
    ensures ServiceLine(service, port).Printable()
    ensures var l := ServiceLine(service, port).Parsed();
            ServiceOk(l, port) && l.kind == (if service == SERVICE_PROXY then Proxy else Socks)
  {
    hide KindOf, ServiceOk, ServiceArgOk, Printed.Printable, Itoa;
    AccessKinds();
    ServicePrintable(service, port);
    PortArgs(port);
    var l := ServiceLine(service, port).Parsed();
    assert l == Wd(l.kind, [service, "-p" + Itoa(port), ANON_FLAG, FAMILY_FLAG]);
    ServiceWordsOk(l.kind, service, "-p" + Itoa(port), ANON_FLAG, FAMILY_FLAG, port);
  }

  lemma ServiceWordsOk(k: Kind, service: string, arg: string, anon: string, family: string, port: int)
    requires ServiceArgOk(arg, port) && ServiceArgOk(anon, port) && ServiceArgOk(family, port)
    requires "-p" <= arg && anon == ANON_FLAG && family == FAMILY_FLAG
    ensures ServiceOk(Wd(k, [service, arg, anon, family]), port)
  {
    hide ServiceArgOk, ANON_FLAG, FAMILY_FLAG;
    var l := Wd(k, [service, arg, anon, family]);
    assert l.Args() == [Bare(arg), Bare(anon), Bare(family)];
    assert l.Args()[0].text == arg && l.Args()[1].text == anon && l.Args()[2].text == family;
  }

  /** The lines of a rendered config: a quiet head, then a block and a service, twice. */
  ghost predicate Shape(lines: seq<Line>, head: seq<Line>, b: seq<Line>, p: Line, s: Line) {
    lines == head + b + [p] + b + [s]
  }

  lemma ShapeAt(lines: seq<Line>, head: seq<Line>, b: seq<Line>, p: Line, s: Line)
    requires Shape(lines, head, b, p, s)
    ensures var k := |head| + |b|;
            && |lines| == k + |b| + 2
            && (forall i :: 0 <= i < |head| ==> lines[i] == head[i])
            && BlockAt(lines, |head|, b) && lines[k] == p
            && BlockAt(lines, k + 1, b) && lines[k + 1 + |b|] == s
  {
  }

  lemma QuietAccepted(lines: seq<Line>, i: nat, sp: Spec)
    requires i < |lines| && Quiet(lines[i], sp)
    ensures LineAccepted(lines, i, sp)
  {
    hide GlobalLineOk, OperationsOk, Guarded, DeniedBefore;
  }

  lemma ServiceAccepted(lines: seq<Line>, i: nat, sp: Spec)
    requires i < |lines| && lines[i].kind.Service() && Guarded(lines, i, sp)
    ensures LineAccepted(lines, i, sp)
  {
    hide Guarded, DeniedBefore, OperationListOk;
  }

  lemma ShapeServices(lines: seq<Line>, head: seq<Line>, b: seq<Line>, p: Line, s: Line, us: seq<User>, ps: seq<Prefix>)
    requires Shape(lines, head, b, p, s)
    requires AllValid4(ps) && AccessBlock(b, us, ps)
    requires forall l :: l in head ==> !l.kind.Service()
    requires p.kind.Proxy? && s.kind.Socks?
    ensures Services(lines) == {|head| + |b|, |head| + |b| + 1 + |b|}
    ensures |Services(lines)| == 2
  {
    hide GlobalLineOk, OperationsOk, UserAllowed, NetAllowed, Shape;
    ShapeAt(lines, head, b, p, s);
    var h, k := |head|, |head| + |b|;
    forall i | 0 <= i < |lines| ensures lines[i].kind.Service() <==> i == k || i == k + 1 + |b| {
      if i < h {
        assert lines[i] == head[i] && head[i] in head;
      } else if h <= i < k {
        assert lines[i] == b[i - h];
      } else if k + 1 <= i < k + 1 + |b| {
        assert lines[i] == b[i - k - 1];
      }
    }
    assert Services(lines) == {k as int, k + 1 + |b|};
  }

  lemma {:induction false} EveryAuthStrong(lines: seq<Line>)
    requires Has(lines, Auth)
    requires forall l :: l in lines && l.kind.Auth? ==> l.HasArg(AUTH_STRONG)
    ensures LastAuthStrong(lines)
  {
    var n := |lines| - 1;
    var last := lines[n];
    assert lines == lines[..n] + [last];
    LastAuthStep(lines[..n], last);
    assert last in lines;
    if !last.kind.Auth? {
      EveryAuthStrong(lines[..n]);
    }
  }

  /** A line outside the head: a block line or a service, with nothing global to check. */
  predicate Inert(l: Line) { l.kind.Flush? || l.kind.Allow? || l.kind.Deny? || l.kind.Service() }

  lemma ShapeMembers(lines: seq<Line>, head: seq<Line>, b: seq<Line>, p: Line, s: Line, us: seq<User>, ps: seq<Prefix>)
    requires Shape(lines, head, b, p, s)
    requires AllValid4(ps) && AccessBlock(b, us, ps)
    requires p.kind.Proxy? && s.kind.Socks?
    ensures forall l :: l in lines ==> l in head || (Inert(l) && (l.kind.Proxy? ==> l == p) && (l.kind.Socks? ==> l == s))
    ensures forall l :: l in head || l == p || l == s ==> l in lines
  {
    hide OperationsOk, UserAllowed, NetAllowed;
    forall l | l in b ensures Inert(l) && !l.kind.Service() {
      var i :| 0 <= i < |b| && b[i] == l;
    }
  }

  lemma HasMonotone(some: seq<Line>, more: seq<Line>, k: Kind)
    requires Has(some, k) && forall l :: l in some ==> l in more
    ensures Has(more, k)
  {
  }

  predicate DistinctNames(us: seq<User>) { forall i, j :: 0 <= i < j < |us| ==> us[i].name != us[j].name }

  predicate ValidEntries(us: seq<User>) { forall u :: u in us ==> ValidUsername(u.name) && ValidPassword(u.password) }

  lemma SameNameSameUser(us: seq<User>, u: User, v: User)
    requires DistinctNames(us) && u in us && v in us && u.name == v.name
    ensures u == v
  {
  }

  /** Collecting users lines that each name one user of the list gives exactly those users. */
  lemma {:induction false} UsersOfLines(m: map<string, string>, lines: seq<Line>, us: seq<User>)
    requires ValidEntries(us) && DistinctNames(us)
    requires forall l :: l in lines && l.kind.Users? ==> exists u :: u in us && l == UL(u)
    ensures var r := UsersOf(m, lines);
            && (forall u :: u in us && UL(u) in lines ==> u.name in r && r[u.name] == u.password)
            && (forall n :: n in m ==> n in r && (r[n] == m[n] || exists u :: u in us && UL(u) in lines && u.name == n))
            && (forall n :: n in r ==> n in m || exists u :: u in us && UL(u) in lines && u.name == n)
    decreases lines
  {
    hide ValidUsername, ValidPassword, Split;
    if lines != [] {
      var l := lines[0];
      assert l in lines;
      if l.kind.Users? {
        var v :| v in us && l == UL(v);
        UserEntryRoundTrip(v);
        var m' := m[v.name := v.password];
        assert l.Args() == [Quoted(UserEntry(v))] && l.Args()[1..] == [];
        assert AddEntries(m, l.Args()) == AddEntries(m', []) == m';
        UsersOfLines(m', lines[1..], us);
        var r := UsersOf(m, lines);
        forall u | u in us && UL(u) in lines ensures u.name in r && r[u.name] == u.password {
          if UL(u) !in lines[1..] {
            assert UL(u) == UL(v);
            UserEntryRoundTrip(u);
            assert u == v;
            forall w | w in us && UL(w) in lines[1..] ensures w.name != v.name {
              if w.name == v.name { SameNameSameUser(us, w, v); }
            }
          }
        }
      } else {
        UsersOfLines(m, lines[1..], us);
      }
    }
  }
}
