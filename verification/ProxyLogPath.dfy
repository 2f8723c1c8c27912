/** The log path is free text: whatever lines it brings into the config are read like any other.
    What the checks make of them, exactly (internal/proxysup/render.go, Render and Verify). */
module ProxyLogPath {
  import opened Text
  import opened Netip
  import opened Domain
  import opened ProxySpec
  import opened ProxyText
  import opened ProxyProgram
  import opened ProxyVerify
  import opened ProxyRender
  import opened ProxyAccepts

  /** The lines the parser finds where the log path was written. */
  function PathLines(path: string): seq<Line> { ParseText(LogTo(path).Text()) }

  /** What is asked of them: nothing global against the spec, known operations, no service, only
      sound credentials and none where the mode has no users, and no allow after a deny of everyone. */
  predicate PathAccepted(sp: Spec) {
    var m := PathLines(sp.logPath);
    && (forall l :: l in m ==> GlobalLineOk(l, sp) && OperationsOk(l) && !l.kind.Service())
    && (forall l, f :: l in m && l.kind.Users? && f in l.Args() ==> EntryOk(f))
    && (!sp.authMode.UsesUserPass() ==> UsersOf(map[], m) == map[])
    && (forall i :: 0 <= i < |m| && m[i].kind.Allow? ==> !DeniedBefore(m, i))
  }

  // ---- where the lines of the path stand ----

  function BeforeLog(sp: Spec): seq<Printed>
    requires sp.Valid()
  {
    [W(["nscache", Itoa(NS_CACHE_SIZE)])] + NServerLines(sp.nservers) + [W(["timeouts"] + TIMEOUT_VALUES), W(["noforce"])]
  }

  function AfterLog(sp: Spec): seq<Printed>
    requires sp.Valid()
  {
    [ W(["rotate", Itoa(LOG_ROTATE_DAYS)]),
      Words([Bare("logformat"), Quoted(LOG_FORMAT)]),
      W(["logdump", Itoa(LOG_DUMP_BYTES), Itoa(LOG_DUMP_BYTES)]),
      W(["setgid", Itoa(GROUP_GID)]),
      W(["setuid", Itoa(SlotUid(sp.slot))]),
      W(["maxconn", Itoa(sp.policy.maxConn)]) ]
    + ConnLimLines(sp.policy.connLimit) + [AuthLine(sp.authMode)] + UserLines(sp.users) + Addresses(sp)
  }

  lemma HeadSplit(sp: Spec)
    requires sp.Valid()
    ensures Head(sp) == BeforeLog(sp) + [LogTo(sp.logPath)] + AfterLog(sp)
  {
    hide W, Itoa, NServerLines, ConnLimLines, AuthLine, UserLines, Addresses, Spec.Valid, LOG_FORMAT;
  }

  lemma ServicesParsed(sp: Spec)
    requires sp.Valid()
    ensures var p, s := ServiceLine(SERVICE_PROXY, sp.httpPort), ServiceLine(SERVICE_SOCKS, sp.socksPort);
            && p.Printable() && p.Parsed().kind.Proxy? && ServiceOk(p.Parsed(), sp.httpPort)
            && s.Printable() && s.Parsed().kind.Socks? && ServiceOk(s.Parsed(), sp.socksPort)
  {
    hide ServiceOk, ServiceLine, Printed.Printable, Printed.Parsed, ValidUsername, ValidPassword;
    ParsedService(SERVICE_PROXY, sp.httpPort);
    ParsedService(SERVICE_SOCKS, sp.socksPort);
  }

  lemma ParsedAcls(a: seq<Printed>, p: Printed, s: Printed)
    requires AllPrintable(a) && p.Printable() && s.Printable()
    ensures AllPrintable(a + [p] + a + [s])
    ensures ParsedAll(a + [p] + a + [s]) == ParsedAll(a) + [p.Parsed()] + ParsedAll(a) + [s.Parsed()]
  {
    hide Printed.Printable, Printed.Parsed, ParsedAll;
    ParsedOne(p);
    ParsedOne(s);
    ParsedAppend(a, [p]);
    ParsedAppend(a + [p], a);
    ParsedAppend(a + [p] + a, [s]);
  }

  lemma ProgramIs(sp: Spec)
    requires sp.Valid()
    ensures BeforeLog(sp) != []
    ensures var p, s := ServiceLine(SERVICE_PROXY, sp.httpPort), ServiceLine(SERVICE_SOCKS, sp.socksPort);
            Program(sp) == BeforeLog(sp) + [LogTo(sp.logPath)] + (AfterLog(sp) + (Acl(sp) + [p] + Acl(sp) + [s]))
  {
    hide Head, Acl, ServiceLine, AfterLog, Spec.Valid, W;
    HeadSplit(sp);
  }

  lemma ParsedThen(x: seq<Printed>, rest: string)
    requires x != [] && AllPrintable(x)
    ensures ParseText(PrintAll(x) + rest) == ParsedAll(x) + ParseText(rest)
  {
    hide ParseText, PrintAll, ParsedAll;
    var text := PrintEndsLine(x);
    ParseConcat(text, rest);
    ParseConcat(text, []);
    assert text + ['\n'] + [] == PrintAll(x);
    NothingParsed();
    ParseOfPrint(x);
    assert ParseText(text) + [] == ParseText(text);
  }

  lemma NothingParsed()
    ensures ParseText([]) == []
  {
    ParseOfPrint([]);
  }

  lemma PrintOne(p: Printed)
    ensures PrintAll([p]) == p.Text() + ['\n']
  {
    assert [p][1..] == [] && PrintAll([p]) == p.Text() + "\n" + PrintAll([]);
  }

  /** The text around the path is read as it was printed, and the path on its own. */
  lemma ParsedAround(x: seq<Printed>, path: string, y: seq<Printed>)
    requires x != [] && AllPrintable(x) && AllPrintable(y)
    ensures ParseText(PrintAll(x + [LogTo(path)] + y)) == ParsedAll(x) + PathLines(path) + ParsedAll(y)
  {
    hide ParseText, ParsedAll, PrintAll, Printed.Text;
    var log := LogTo(path);
    PrintAppend(x + [log], y);
    PrintAppend(x, [log]);
    PrintOne(log);
    var rest := log.Text() + ['\n'] + PrintAll(y);
    assert PrintAll(x + [log] + y) == PrintAll(x) + rest;
    ParsedThen(x, rest);
    ParseConcat(log.Text(), PrintAll(y));
    ParseOfPrint(y);
    assert ParsedAll(x) + (ParseText(log.Text()) + ParsedAll(y)) == ParsedAll(x) + ParseText(log.Text()) + ParsedAll(y);
  }

  // ---- the lines around it ----

  /** The same spec with a log path of one word. */
  function Tame(sp: Spec): Spec { sp.(logPath := "log") }

  lemma TameHead(sp: Spec)
    requires sp.Valid()
    ensures Tame(sp).Valid() && '\n' !in Tame(sp).logPath
    ensures BeforeLog(Tame(sp)) == BeforeLog(sp) && AfterLog(Tame(sp)) == AfterLog(sp)
  {
    hide W, Itoa, NServerLines, ConnLimLines, AuthLine, UserLines, LOG_FORMAT, ValidUsername, ValidPassword, ProxyPolicy.Valid;
  }

  lemma TameQuiet(l: Line, sp: Spec)
    ensures Quiet(l, Tame(sp)) <==> Quiet(l, sp)
  {
    hide OperationsOk, ParseAddr, Contains, Line.HasArg, Line.Args, Line.Arg;
  }

  lemma AroundQuiet(sp: Spec)
    requires sp.Valid()
    ensures forall p :: p in BeforeLog(sp) || p in AfterLog(sp) ==> HeadLine(p, sp)
  {
    hide BeforeLog, AfterLog, Head, Quiet, Spec.Valid, Printed.Printable, Printed.Parsed;
    TameHead(sp);
    QuietHead(Tame(sp));
    HeadSplit(Tame(sp));
    forall p | p in BeforeLog(sp) || p in AfterLog(sp) ensures HeadLine(p, sp) {
      assert p in Head(Tame(sp));
      TameQuiet(p.Parsed(), sp);
    }
  }

  /** Every line Render writes around the path, as the parser reads it. */
  ghost predicate Around(h1: seq<Line>, h2: seq<Line>, sp: Spec) {
    && (forall l :: l in h1 || l in h2 ==> Quiet(l, sp))
    && (forall l :: l in h1 ==> !l.kind.Users?)
    && Has(h2, Auth) && Has(h2, Internal) && Has(h2, LogFormat)
    && Has(h1, Noforce) && Has(h1, Timeouts) && Has(h1, NServer)
    && (forall u :: u in sp.users ==> UL(u) in h2)
  }

  lemma ParsedMember(prog: seq<Printed>, p: Printed)
    requires AllPrintable(prog) && p in prog
    ensures p.Parsed() in ParsedAll(prog)
  {
    hide Printed.Parsed, Printed.Printable;
    var i :| 0 <= i < |prog| && prog[i] == p;
    assert ParsedAll(prog)[i] == p.Parsed();
  }

  lemma ParsedFrom(prog: seq<Printed>, sp: Spec)
    requires forall p :: p in prog ==> HeadLine(p, sp)
    ensures AllPrintable(prog) && forall l :: l in ParsedAll(prog) ==> Quiet(l, sp)
    ensures forall l :: l in ParsedAll(prog) ==> exists p :: p in prog && p.Printable() && p.Parsed() == l
  {
    hide Printed.Parsed, Printed.Printable, Quiet;
    forall l | l in ParsedAll(prog) ensures Quiet(l, sp) && exists p :: p in prog && p.Printable() && p.Parsed() == l {
      var i :| 0 <= i < |prog| && ParsedAll(prog)[i] == l;
      assert HeadLine(prog[i], sp) && prog[i] in prog;
    }
  }

  lemma BeforeHas(sp: Spec)
    requires sp.Valid()
    ensures W(["noforce"]) in BeforeLog(sp) && W(["timeouts"] + TIMEOUT_VALUES) in BeforeLog(sp)
    ensures sp.nservers != [] && W(["nserver", sp.nservers[0].Text()]) in BeforeLog(sp)
  {
    hide W, Itoa;
    var b, n := BeforeLog(sp), |sp.nservers|;
    assert b[n + 2] == W(["noforce"]) && b[n + 1] == W(["timeouts"] + TIMEOUT_VALUES);
    assert b[1] == NServerLines(sp.nservers)[0];
  }

  lemma AfterHas(sp: Spec)
    requires sp.Valid()
    ensures Words([Bare("logformat"), Quoted(LOG_FORMAT)]) in AfterLog(sp) && AuthLine(sp.authMode) in AfterLog(sp)
    ensures W(["internal", sp.internalIp.Text()]) in AfterLog(sp)
    ensures forall u :: u in sp.users ==> UserLine(u) in AfterLog(sp)
  {
    hide W, Itoa, AuthLine, UserLine, LOG_FORMAT, ConnLimLines;
    var a := AfterLog(sp);
    assert a[1] == Words([Bare("logformat"), Quoted(LOG_FORMAT)]);
    assert a[|a| - 1] == W(["internal", sp.internalIp.Text()]);
    forall u | u in sp.users ensures UserLine(u) in a {
      var i :| 0 <= i < |sp.users| && sp.users[i] == u;
      assert UserLines(sp.users)[i] == UserLine(u);
      assert UserLine(u) in UserLines(sp.users);
    }
  }

  lemma ServersV4(sp: Spec)
    requires sp.Valid()
    ensures sp.nservers != [] && forall a :: a in sp.nservers ==> a.V4?
  {
  }

  lemma CacheKind(n: nat)
    ensures W(["nscache", Itoa(n)]).Printable() && W(["nscache", Itoa(n)]).Parsed().kind == Other
  {
    hide Plain, KindOf, Itoa;
    SilentKinds();
    ServerWords();
    ItoaPlain(n);
    ParsedW(["nscache", Itoa(n)]);
  }

  lemma LineKinds(sp: Spec, p: Printed)
    requires HeadLine(p, sp)
    ensures p.Printable()
  {
  }

  lemma BeforeKinds(sp: Spec, p: Printed)
    requires sp.Valid() && p in BeforeLog(sp)
    ensures p.Printable() && !p.Parsed().kind.Users?
  {
    hide W, Itoa, HeadLine, Printed.Printable, Printed.Parsed, Spec.Valid, TIMEOUT_VALUES, Addr.Text;
    ServersV4(sp);
    if p == W(["nscache", Itoa(NS_CACHE_SIZE)]) {
      CacheKind(NS_CACHE_SIZE);
    } else if p == W(["noforce"]) {
      QuietNoforce(sp);
      LineKinds(sp, p);
    } else if p == W(["timeouts"] + TIMEOUT_VALUES) {
      QuietTimeouts(sp);
      LineKinds(sp, p);
    } else {
      var i :| 0 <= i < |sp.nservers| && p == NServerLines(sp.nservers)[i];
      QuietServer(sp.nservers[i], sp);
      LineKinds(sp, p);
    }
  }

  lemma LinesAround(sp: Spec)
    requires sp.Valid()
    ensures AllPrintable(BeforeLog(sp)) && AllPrintable(AfterLog(sp))
    ensures Around(ParsedAll(BeforeLog(sp)), ParsedAll(AfterLog(sp)), sp)
  {
    hide BeforeLog, AfterLog, Quiet, Printed.Printable, Printed.Parsed, HeadLine, W, AuthLine, UserLine, Spec.Valid, ParsedAll;
    AroundQuiet(sp);
    ParsedFrom(BeforeLog(sp), sp);
    ParsedFrom(AfterLog(sp), sp);
    forall l | l in ParsedAll(BeforeLog(sp)) ensures !l.kind.Users? {
      var p :| p in BeforeLog(sp) && p.Printable() && p.Parsed() == l;
      BeforeKinds(sp, p);
    }
    HasBefore(sp);
    HasAfter(sp);
  }

  lemma HasBefore(sp: Spec)
    requires sp.Valid() && AllPrintable(BeforeLog(sp))
    ensures var h := ParsedAll(BeforeLog(sp)); Has(h, Noforce) && Has(h, Timeouts) && Has(h, NServer)
  {
    hide BeforeLog, W, Printed.Parsed, Printed.Printable, ParsedAll, HeadLine, Spec.Valid, TIMEOUT_VALUES, Addr.Text;
    ServersV4(sp);
    BeforeHas(sp);
    QuietNoforce(sp);
    QuietTimeouts(sp);
    QuietServer(sp.nservers[0], sp);
    ParsedMember(BeforeLog(sp), W(["noforce"]));
    ParsedMember(BeforeLog(sp), W(["timeouts"] + TIMEOUT_VALUES));
    ParsedMember(BeforeLog(sp), W(["nserver", sp.nservers[0].Text()]));
  }

  lemma HasAfter(sp: Spec)
    requires sp.Valid() && AllPrintable(AfterLog(sp))
    ensures var h := ParsedAll(AfterLog(sp));
            Has(h, Auth) && Has(h, Internal) && Has(h, LogFormat) && forall u :: u in sp.users ==> UL(u) in h
  {
    AfterHas(sp);
    QuietAuth(sp);
    QuietInternal(sp);
    QuietLogFormat(sp);
    forall u | u in sp.users ensures UserLine(u).Printable() && UserLine(u).Parsed() == UL(u) {
      QuietUser(u, sp);
    }
    hide AfterLog, W, AuthLine, UserLine, UL, Printed.Parsed, Printed.Printable, ParsedAll, HeadLine, Spec.Valid, LOG_FORMAT;
    ParsedMember(AfterLog(sp), AuthLine(sp.authMode));
    ParsedMember(AfterLog(sp), W(["internal", sp.internalIp.Text()]));
    ParsedMember(AfterLog(sp), Words([Bare("logformat"), Quoted(LOG_FORMAT)]));
    forall u | u in sp.users ensures UL(u) in ParsedAll(AfterLog(sp)) {
      ParsedMember(AfterLog(sp), UserLine(u));
    }
  }

  lemma BlockOfAccess(sp: Spec)
    requires sp.Valid()
    ensures AccessBlock(BlockOf(sp), AllowedUsers(sp), AllowedNets(sp)) && BlockFor(AllowedUsers(sp), AllowedNets(sp), sp)
  {
    hide Block, AccessBlock, PortList, SortedPrefixes, ValidUsername, ValidPassword, Prefix.Valid4;
    SortedMembers(sp.authIps);
    BlockIsAccess(AllowedUsers(sp), AllowedNets(sp), PortList(sp.policy));
  }

  /** A rendered config, line by line: the settings with the lines of the path among them, then a
      block and a service, twice. */
  lemma Lines(sp: Spec) returns (h1: seq<Line>, h2: seq<Line>, b: seq<Line>, p: Line, s: Line)
    requires sp.Valid()
    ensures Around(h1, h2, sp) && b == BlockOf(sp)
    ensures AccessBlock(b, AllowedUsers(sp), AllowedNets(sp)) && BlockFor(AllowedUsers(sp), AllowedNets(sp), sp)
    ensures p.kind.Proxy? && ServiceOk(p, sp.httpPort) && s.kind.Socks? && ServiceOk(s, sp.socksPort)
    ensures Shape(ParseText(PrintAll(Program(sp))), h1 + PathLines(sp.logPath) + h2, b, p, s)
  {
    hide Head, BeforeLog, AfterLog, Acl, ServiceLine, BlockOf, Printed.Printable, Printed.Parsed, ParsedAll, Spec.Valid, ParseText, PrintAll,
         Program, Around, AccessBlock, BlockFor, ServiceOk, PathLines, AllowedUsers, AllowedNets;
    LinesAround(sp);
    ParsedAcl(sp);
    ServicesParsed(sp);
    BlockOfAccess(sp);
    ProgramIs(sp);
    var first, second := ServiceLine(SERVICE_PROXY, sp.httpPort), ServiceLine(SERVICE_SOCKS, sp.socksPort);
    var x, y, tail := BeforeLog(sp), AfterLog(sp), Acl(sp) + [first] + Acl(sp) + [second];
    h1, h2, b, p, s := ParsedAll(x), ParsedAll(y), BlockOf(sp), first.Parsed(), second.Parsed();
    ParsedAcls(Acl(sp), first, second);
    ParsedAppend(y, tail);
    ParsedAround(x, sp.logPath, y + tail);
    var m := PathLines(sp.logPath);
    assert h1 + m + (h2 + (b + [p] + b + [s])) == h1 + m + h2 + b + [p] + b + [s];
  }

  // ---- global settings ----

  lemma Members(lines: seq<Line>, h1: seq<Line>, m: seq<Line>, h2: seq<Line>, b: seq<Line>, p: Line, s: Line, us: seq<User>, ps: seq<Prefix>)
    requires Shape(lines, h1 + m + h2, b, p, s)
    requires AllValid4(ps) && AccessBlock(b, us, ps) && p.kind.Proxy? && s.kind.Socks?
    ensures forall l :: l in lines ==> l in h1 || l in m || l in h2 || Inert(l)
    ensures forall l :: l in h1 || l in m || l in h2 || l == p || l == s ==> l in lines
  {
    hide AccessBlock;
    ShapeMembers(lines, h1 + m + h2, b, p, s, us, ps);
    hide Shape, Inert;
  }

  lemma {:induction false} LastAuthLater(x: seq<Line>, y: seq<Line>)
    requires LastAuthStrong(y)
    ensures LastAuthStrong(x + y)
  {
    hide Line.HasArg;
    var i :| 0 <= i < |y| && y[i].kind.Auth? && y[i].HasArg(AUTH_STRONG) && forall j :: i < j < |y| ==> !y[j].kind.Auth?;
    var k := |x| + i;
    assert (x + y)[k] == y[i];
    forall j | k < j < |x + y| ensures !(x + y)[j].kind.Auth? {
      assert (x + y)[j] == y[j - |x|];
    }
  }

  lemma TailOf(lines: seq<Line>, x: seq<Line>, h2: seq<Line>, b: seq<Line>, p: Line, s: Line)
    requires Shape(lines, x + h2, b, p, s)
    ensures var y := h2 + b + [p] + b + [s]; lines == x + y && Shape(y, h2, b, p, s)
  {
  }

  /** The lines after the path hold the auth line that counts. */
  lemma AuthAfter(lines: seq<Line>, h1: seq<Line>, m: seq<Line>, h2: seq<Line>, b: seq<Line>, p: Line, s: Line, us: seq<User>, ps: seq<Prefix>, sp: Spec)
    requires Shape(lines, h1 + m + h2, b, p, s) && Around(h1, h2, sp)
    requires AllValid4(ps) && AccessBlock(b, us, ps) && p.kind.Proxy? && s.kind.Socks?
    ensures LastAuthStrong(lines)
  {
    hide AccessBlock, LastAuthStrong, GlobalLineOk, OperationsOk, Line.HasArg, Shape;
    var y := h2 + b + [p] + b + [s];
    TailOf(lines, h1 + m, h2, b, p, s);
    ShapeMembers(y, h2, b, p, s, us, ps);
    forall l | l in y && l.kind.Auth? ensures l.HasArg(AUTH_STRONG) {
      assert l in h2 && Quiet(l, sp);
    }
    HasMonotone(h2, y, Auth);
    EveryAuthStrong(y);
    LastAuthLater(h1 + m, y);
  }

  lemma GlobalsExactly(lines: seq<Line>, h1: seq<Line>, m: seq<Line>, h2: seq<Line>, sp: Spec)
    requires forall l :: l in lines ==> l in h1 || l in m || l in h2 || Inert(l)
    requires forall l :: l in h1 || l in m || l in h2 ==> l in lines
    requires Around(h1, h2, sp) && LastAuthStrong(lines)
    ensures GlobalsAccepted(lines, sp) <==> forall l :: l in m ==> GlobalLineOk(l, sp)
  {
    hide OperationsOk, ParseAddr, Contains, LastAuthStrong, Line.HasArg, Has, Itoa;
    HasMonotone(h1, lines, Noforce);
    HasMonotone(h1, lines, Timeouts);
    HasMonotone(h1, lines, NServer);
    HasMonotone(h2, lines, Internal);
    HasMonotone(h2, lines, LogFormat);
    forall l | l in h1 || l in h2 ensures GlobalLineOk(l, sp) {
      assert Quiet(l, sp);
    }
  }

  // ---- credentials ----

  lemma {:induction false} UsersConcat(m: map<string, string>, a: seq<Line>, b: seq<Line>)
    ensures UsersOf(m, a + b) == UsersOf(UsersOf(m, a), b)
    decreases a
  {
    hide AddEntries;
    if a == [] {
      assert a + b == b;
    } else {
      assert (a + b)[1..] == a[1..] + b;
      UsersConcat(if a[0].kind.Users? then AddEntries(m, a[0].Args()) else m, a[1..], b);
    }
  }

  lemma {:induction false} UnnamedLines(m: map<string, string>, a: seq<Line>)
    requires forall l :: l in a ==> !l.kind.Users?
    ensures UsersOf(m, a) == m
    decreases a
  {
    hide AddEntries;
    if a != [] {
      assert a[0] in a;
      UnnamedLines(m, a[1..]);
    }
  }

  /** The accounts of a, with those of the users laid over them. */
  ghost predicate NamedOver(r: map<string, string>, a: map<string, string>, users: seq<User>) {
    && (forall u :: u in users ==> u.name in r && r[u.name] == u.password)
    && (forall n :: n in a ==> n in r && (r[n] == a[n] || exists u :: u in users && u.name == n))
    && (forall n :: n in r ==> n in a || exists u :: u in users && u.name == n)
  }

  /** Reading the whole config: what the path named, and over it the users of the spec. */
  lemma UsersAround(lines: seq<Line>, h1: seq<Line>, m: seq<Line>, h2: seq<Line>, b: seq<Line>, p: Line, s: Line, us: seq<User>, ps: seq<Prefix>, sp: Spec)
    requires sp.Valid() && Shape(lines, h1 + m + h2, b, p, s) && Around(h1, h2, sp)
    requires AllValid4(ps) && AccessBlock(b, us, ps) && p.kind.Proxy? && s.kind.Socks?
    ensures NamedOver(UsersOf(map[], lines), UsersOf(map[], m), sp.users)
  {
    hide AccessBlock, GlobalLineOk, OperationsOk, Line.HasArg, Has, UsersOf, UL, ValidUsername, ValidPassword, Shape;
    var y := h2 + b + [p] + b + [s];
    TailOf(lines, h1 + m, h2, b, p, s);
    ShapeMembers(y, h2, b, p, s, us, ps);
    UnnamedLines(map[], h1);
    UsersConcat(map[], h1, m);
    UsersConcat(map[], h1 + m, y);
    var mine := UsersOf(map[], m);
    forall l | l in y && l.kind.Users? ensures exists u :: u in sp.users && l == UL(u) {
      assert l in h2 && Quiet(l, sp);
    }
    UsersOfLines(mine, y, sp.users);
  }

  lemma EntriesAround(lines: seq<Line>, h1: seq<Line>, m: seq<Line>, h2: seq<Line>, sp: Spec)
    requires sp.Valid() && Around(h1, h2, sp)
    requires forall l :: l in lines ==> l in h1 || l in m || l in h2 || Inert(l)
    requires forall l :: l in m ==> l in lines
    ensures (forall l, f :: l in lines && l.kind.Users? && f in l.Args() ==> EntryOk(f))
            <==> forall l, f :: l in m && l.kind.Users? && f in l.Args() ==> EntryOk(f)
  {
    hide EntryOk, GlobalLineOk, OperationsOk, Line.HasArg, Has, ValidUsername, ValidPassword;
    forall l, f | (l in h1 || l in h2) && l.kind.Users? && f in l.Args() ensures EntryOk(f) {
      assert Quiet(l, sp);
      var u :| u in sp.users && l == UL(u);
      UserEntryRoundTrip(u);
      assert l.Args() == [Quoted(UserEntry(u))];
    }
  }

  lemma BothEmpty(a: map<string, string>, b: map<string, string>)
    requires forall n :: n in a <==> n in b
    ensures a == map[] <==> b == map[]
  {
    if a == map[] {
      assert forall n :: n !in b;
    }
    if b == map[] {
      assert forall n :: n !in a;
    }
  }

  /** With the users of a valid spec laid over, there are none at all exactly if the mode has none
      and the path named none. */
  lemma NamedAround(r: map<string, string>, mine: map<string, string>, sp: Spec)
    requires sp.Valid()
    requires NamedOver(r, mine, sp.users)
    ensures forall u :: u in sp.users ==> Lookup(r, u.name) == u.password
    ensures (sp.authMode.UsesUserPass() <==> r != map[]) <==> (!sp.authMode.UsesUserPass() ==> mine == map[])
  {
    hide ValidUsername, ValidPassword;
    if sp.users != [] {
      assert sp.users[0] in sp.users && sp.users[0].name in r;
    } else {
      BothEmpty(r, mine);
    }
  }

  lemma UsersExactly(lines: seq<Line>, h1: seq<Line>, m: seq<Line>, h2: seq<Line>, b: seq<Line>, p: Line, s: Line, us: seq<User>, ps: seq<Prefix>, sp: Spec)
    requires sp.Valid() && Shape(lines, h1 + m + h2, b, p, s) && Around(h1, h2, sp)
    requires AllValid4(ps) && AccessBlock(b, us, ps) && p.kind.Proxy? && s.kind.Socks?
    ensures UsersAccepted(lines, sp) <==>
            && (forall l, f :: l in m && l.kind.Users? && f in l.Args() ==> EntryOk(f))
            && (!sp.authMode.UsesUserPass() ==> UsersOf(map[], m) == map[])
  {
    hide AccessBlock, Around, EntryOk, Shape, AddEntries, ValidUsername, ValidPassword, Line.Args;
    Members(lines, h1, m, h2, b, p, s, us, ps);
    EntriesAround(lines, h1, m, h2, sp);
    UsersAround(lines, h1, m, h2, b, p, s, us, ps, sp);
    NamedAround(UsersOf(map[], lines), UsersOf(map[], m), sp);
  }

  // ---- access blocks ----

  /** Lines without a flush and without a deny in front change nothing for those behind. */
  lemma {:induction false} DeniedShift(h: seq<Line>, m: seq<Line>, rest: seq<Line>, j: nat)
    requires j <= |m| && forall l :: l in h ==> !l.kind.Flush? && !l.kind.Deny?
    ensures DeniedBefore(h + m + rest, |h| + j) <==> DeniedBefore(m, j)
    decreases j
  {
    hide DeniedBefore, BareDeny;
    var lines := h + m + rest;
    if j == 0 {
      BlockEmpty(m);
      NoDenyYet(lines, |h|);
    } else {
      DeniedShift(h, m, rest, j - 1);
      assert lines[|h| + (j - 1)] == m[j - 1];
      BlockStep(lines, |h| + (j - 1));
      BlockStep(m, j - 1);
    }
  }

  lemma {:induction false} NoDenyYet(lines: seq<Line>, n: nat)
    requires n <= |lines| && forall i :: 0 <= i < n ==> !lines[i].kind.Flush? && !lines[i].kind.Deny?
    ensures !DeniedBefore(lines, n)
  {
  }

  /** What the access check makes of the lines of the path. */
  predicate PathBlocksOk(m: seq<Line>) {
    && (forall l :: l in m ==> OperationsOk(l) && !l.kind.Service())
    && (forall i :: 0 <= i < |m| && m[i].kind.Allow? ==> !DeniedBefore(m, i))
  }

  lemma PathLineAccepted(lines: seq<Line>, h1: seq<Line>, m: seq<Line>, rest: seq<Line>, j: nat, sp: Spec)
    requires lines == h1 + m + rest && j < |m| && !m[j].kind.Service()
    requires forall l :: l in h1 ==> !l.kind.Flush? && !l.kind.Deny?
    ensures LineAccepted(lines, |h1| + j, sp) <==> OperationsOk(m[j]) && (m[j].kind.Allow? ==> !DeniedBefore(m, j))
  {
    hide OperationsOk, DeniedBefore, Guarded;
    assert lines[|h1| + j] == m[j];
    DeniedShift(h1, m, rest, j);
  }

  lemma PathLinesAccepted(lines: seq<Line>, h1: seq<Line>, m: seq<Line>, rest: seq<Line>, sp: Spec)
    requires lines == h1 + m + rest && forall l :: l in m ==> !l.kind.Service()
    requires forall l :: l in h1 ==> !l.kind.Flush? && !l.kind.Deny?
    ensures (forall j :: |h1| <= j < |h1| + |m| ==> LineAccepted(lines, j, sp)) <==> PathBlocksOk(m)
  {
    hide OperationsOk, DeniedBefore, LineAccepted;
    forall i | |h1| <= i < |h1| + |m|
      ensures var j := i - |h1|; LineAccepted(lines, i, sp) <==> OperationsOk(m[j]) && (m[j].kind.Allow? ==> !DeniedBefore(m, j))
    {
      assert m[i - |h1|] in m;
      PathLineAccepted(lines, h1, m, rest, i - |h1|, sp);
    }
    if forall i :: |h1| <= i < |h1| + |m| ==> LineAccepted(lines, i, sp) {
      forall j | 0 <= j < |m| ensures OperationsOk(m[j]) && (m[j].kind.Allow? ==> !DeniedBefore(m, j)) {
        assert LineAccepted(lines, |h1| + j, sp);
      }
    }
  }

  /** With two services in all, they are the two behind the blocks. */
  lemma BothServed(lines: seq<Line>, head: seq<Line>, b: seq<Line>, p: Line, s: Line)
    requires Shape(lines, head, b, p, s) && p.kind.Service() && s.kind.Service() && |Services(lines)| == 2
    ensures Services(lines) == {|head| + |b|, |head| + |b| + 1 + |b|}
    ensures BlockAt(lines, |head|, b) && BlockAt(lines, |head| + |b| + 1, b)
    ensures forall l :: l in head ==> !l.kind.Service()
  {
    ShapeAt(lines, head, b, p, s);
    hide Shape, BlockAt;
    TwoOnly(Services(lines), |head| + |b|, |head| + |b| + 1 + |b|);
    forall l | l in head ensures !l.kind.Service() {
      var i :| 0 <= i < |head| && head[i] == l;
      assert lines[i] == l && i !in Services(lines);
    }
  }

  /** The lines other than those of the path always pass. */
  lemma OthersAccepted(lines: seq<Line>, h1: seq<Line>, m: seq<Line>, h2: seq<Line>, b: seq<Line>, p: Line, s: Line, us: seq<User>, ps: seq<Prefix>, sp: Spec)
    requires Shape(lines, h1 + m + h2, b, p, s) && Around(h1, h2, sp)
    requires BlockFor(us, ps, sp) && AccessBlock(b, us, ps) && p.kind.Proxy? && s.kind.Socks?
    ensures forall i :: 0 <= i < |lines| && !(|h1| <= i < |h1| + |m|) ==> LineAccepted(lines, i, sp)
  {
    hide Quiet, AccessBlock, Guarded, BlockAt, Shape, LineAccepted, Has, BlockFor;
    var head := h1 + m + h2;
    var h, k := |head|, |head| + |b|;
    ShapeAt(lines, head, b, p, s);
    assert AllValid4(ps) && AllValid4(sp.authIps) by { Nets4(us, ps, sp); }
    BlockGuards(lines, h, b, us, ps, sp);
    BlockGuards(lines, k + 1, b, us, ps, sp);
    BlockLinesAccepted(lines, h, b, us, ps, sp);
    BlockLinesAccepted(lines, k + 1, b, us, ps, sp);
    ServiceAccepted(lines, k, sp);
    ServiceAccepted(lines, k + 1 + |b|, sp);
    forall i | 0 <= i < h && !(|h1| <= i < |h1| + |m|) ensures LineAccepted(lines, i, sp) {
      assert lines[i] == if i < |h1| then h1[i] else h2[i - |h1| - |m|];
      assert lines[i] in h1 || lines[i] in h2;
      QuietAccepted(lines, i, sp);
    }
  }

  lemma Nets4(us: seq<User>, ps: seq<Prefix>, sp: Spec)
    requires BlockFor(us, ps, sp)
    ensures AllValid4(ps) && AllValid4(sp.authIps)
  {
  }

  lemma BlocksExactly(lines: seq<Line>, h1: seq<Line>, m: seq<Line>, h2: seq<Line>, b: seq<Line>, p: Line, s: Line, us: seq<User>, ps: seq<Prefix>, sp: Spec)
    requires Shape(lines, h1 + m + h2, b, p, s) && Around(h1, h2, sp)
    requires BlockFor(us, ps, sp) && AccessBlock(b, us, ps) && p.kind.Proxy? && s.kind.Socks?
    ensures BlocksAccepted(lines, sp) <==> PathBlocksOk(m)
  {
    hide AccessBlock, LineAccepted, Has, BlockFor, Services, GlobalLineOk, OperationsOk, DeniedBefore, BlockAt, Shape;
    Nets4(us, ps, sp);
    OthersAccepted(lines, h1, m, h2, b, p, s, us, ps, sp);
    TailOf(lines, h1 + m, h2, b, p, s);
    forall l | l in h1 ensures !l.kind.Flush? && !l.kind.Deny? {
      assert Quiet(l, sp);
    }
    if |Services(lines)| == 2 {
      BothServed(lines, h1 + m + h2, b, p, s);
    }
    if forall l :: l in m ==> !l.kind.Service() {
      PathLinesAccepted(lines, h1, m, h2 + b + [p] + b + [s], sp);
      forall l | l in h1 + m + h2 ensures !l.kind.Service() {
        assert l in m || Quiet(l, sp);
      }
      ShapeServices(lines, h1 + m + h2, b, p, s, us, ps);
    }
  }

  // ---- acceptance ----

  lemma ServicesExactly(lines: seq<Line>, h1: seq<Line>, m: seq<Line>, h2: seq<Line>, b: seq<Line>, p: Line, s: Line, us: seq<User>, ps: seq<Prefix>, sp: Spec)
    requires Shape(lines, h1 + m + h2, b, p, s) && Around(h1, h2, sp) && forall l :: l in m ==> !l.kind.Service()
    requires AllValid4(ps) && AccessBlock(b, us, ps)
    requires p.kind.Proxy? && ServiceOk(p, sp.httpPort) && s.kind.Socks? && ServiceOk(s, sp.socksPort)
    ensures ServicesAccepted(lines, sp)
  {
    hide ServiceOk, GlobalLineOk, OperationsOk, AccessBlock, Has;
    ShapeMembers(lines, h1 + m + h2, b, p, s, us, ps);
    hide Shape, Inert;
    forall l | l in h1 + m + h2 ensures !l.kind.Service() {
      assert l in m || Quiet(l, sp);
    }
    assert Has(lines, Proxy) && Has(lines, Socks) by { HasBoth(lines, p, s); }
  }

  lemma HasBoth(lines: seq<Line>, p: Line, s: Line)
    requires p in lines && s in lines && p.kind.Proxy? && s.kind.Socks?
    ensures Has(lines, Proxy) && Has(lines, Socks)
  {
  }

  /** For every valid spec and every log path: Render's own checks accept what it printed exactly if
      the lines the path brings in are harmless. */
  lemma AcceptedExactly(sp: Spec)
    requires sp.Valid()
    ensures Accepted(ParseText(PrintAll(Program(sp))), sp) <==> PathAccepted(sp)
  {
    hide ParseText, PrintAll, Program, PathLines, Around, AccessBlock, BlockFor, ServiceOk, Shape, Spec.Valid, AllowedUsers, AllowedNets, BlockOf,
         GlobalsAccepted, UsersAccepted, BlocksAccepted, ServicesAccepted, GlobalLineOk, OperationsOk, EntryOk, UsersOf, DeniedBefore, LastAuthStrong;
    var h1, h2, b, p, s := Lines(sp);
    var lines, m, us, ps := ParseText(PrintAll(Program(sp))), PathLines(sp.logPath), AllowedUsers(sp), AllowedNets(sp);
    Members(lines, h1, m, h2, b, p, s, us, ps);
    AuthAfter(lines, h1, m, h2, b, p, s, us, ps, sp);
    GlobalsExactly(lines, h1, m, h2, sp);
    UsersExactly(lines, h1, m, h2, b, p, s, us, ps, sp);
    BlocksExactly(lines, h1, m, h2, b, p, s, us, ps, sp);
    if forall l :: l in m ==> !l.kind.Service() {
      ServicesExactly(lines, h1, m, h2, b, p, s, us, ps, sp);
    }
  }

  /** A path on one line brings in one line, which is no command the checks know. */
  lemma OneLine(path: string)
    requires '\n' !in path
    ensures PathLines(path) == [LogTo(path).Parsed()] && LogTo(path).Parsed().kind == Other
  {
    LineRoundTrip(LogTo(path));
    SplitWhole(LogTo(path).Text(), '\n');
    hide LineOf, Split, Printed.Text;
    assert [LogTo(path).Text()][1..] == [] && LinesOf([]) == [];
  }

  /** So Render's own checks never reject what it printed for a valid spec with such a path. */
  lemma RenderedIsAccepted(sp: Spec)
    requires sp.Valid() && '\n' !in sp.logPath
    ensures PathAccepted(sp) && Accepted(ParseText(PrintAll(Program(sp))), sp)
  {
    hide ParseText, PrintAll, Program, Accepted, Spec.Valid, PathLines, Printed.Parsed;
    OneLine(sp.logPath);
    var m := PathLines(sp.logPath);
    UnnamedLines(map[], m);
    AcceptedExactly(sp);
  }

  /** A path on two lines, the second of them a command, is refused. */
  lemma DaemonPathRefused(sp: Spec)
    requires sp.logPath == "proxy.log" + ['\n'] + "daemon"
    ensures !PathAccepted(sp)
  {
    hide ParseText, GlobalLineOk, OperationsOk, EntryOk, UsersOf, DeniedBefore;
    var first, second := "log" + " " + "proxy.log", "daemon" + " " + "D";
    assert LogTo(sp.logPath).Text() == first + ['\n'] + second;
    ParseConcat(first, second);
    DaemonLine(second);
    var l := ParseText(second)[0];
    DaemonRefused(l, sp);
    assert l in PathLines(sp.logPath);
  }

  lemma DaemonRefused(l: Line, sp: Spec)
    requires l.kind.Daemon?
    ensures !GlobalLineOk(l, sp)
  {
  }

  lemma DaemonLine(raw: string)
    requires raw == "daemon" + " " + "D"
    ensures ParseText(raw) != [] && ParseText(raw)[0].kind.Daemon?
  {
    DaemonKind();
    assert Plain("daemon") && PrintableField(Bare("daemon"));
    FirstFieldOf("daemon", "D");
    assert '\n' !in raw && '\r' !in raw;
    SplitWhole(raw, '\n');
    assert raw[|raw| - 1] == 'D' && TrimRight(raw, '\r') == raw && raw[0] == 'd';
    hide Fields, KindOf, Split;
    assert LineOf(raw).Some? && LineOf(raw).value.kind.Daemon?;
    assert [raw][1..] == [] && LinesOf([]) == [];
  }

  lemma DaemonKind()
    ensures KindOf("daemon") == Daemon
  {
  }
}
