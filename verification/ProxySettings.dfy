/** The settings of a rendered config, read back command by command from its text
    (internal/proxysup/render.go, Render). */
module ProxySettings {
  import opened Wrappers
  import opened Text
  import opened Netip
  import opened Domain
  import opened ProxySpec
  import opened ProxyText
  import opened ProxyProgram
  import opened ProxyVerify
  import opened ProxyAccepts
  import opened ProxyLogPath

  // ---- reading ----

  function Texts(fs: seq<Field>): (ts: seq<string>)
    ensures |ts| == |fs| && forall i :: 0 <= i < |fs| ==> ts[i] == fs[i].text
  {
    seq(|fs|, i requires 0 <= i < |fs| => fs[i].text)
  }

  /** The words behind a command, line by line in the order of the lines that have it. */
  function Values(lines: seq<Line>, cmd: string): seq<seq<string>> {
    if lines == [] then []
    else (if lines[0].fields != [] && lines[0].fields[0].text == cmd then [Texts(lines[0].fields[1..])] else []) + Values(lines[1..], cmd)
  }

  function Said(text: string, cmd: string): seq<seq<string>> { Values(ParseText(text), cmd) }

  /** What the place of the log path says: its own command, and whatever lines the path brings in. */
  function Brought(path: string, cmd: string): seq<seq<string>> { Said("log" + " " + path + " D", cmd) }

  /** A config holds a spec's settings: each command once with its value, except for one name
      server and one account each and a connection limit only if there is one; around what the
      log path brings in. */
  predicate SettingsOf(text: string, sp: Spec) {
    var path := sp.logPath;
    && Said(text, "nscache") == [[Itoa(65536)]] + Brought(path, "nscache")
    && Said(text, "nserver") == seq(|sp.nservers|, i requires 0 <= i < |sp.nservers| => [sp.nservers[i].Text()]) + Brought(path, "nserver")
    && Said(text, "timeouts") == [["1", "5", "30", "60", "180", "1800", "15", "60", "10", "5"]] + Brought(path, "timeouts")
    && Said(text, "noforce") == [[]] + Brought(path, "noforce")
    && Said(text, "log") == Brought(path, "log")
    && Said(text, "rotate") == Brought(path, "rotate") + [[Itoa(7)]]
    && Said(text, "logformat") == Brought(path, "logformat") + [[LOG_FORMAT]]
    && Said(text, "logdump") == Brought(path, "logdump") + [[Itoa(1048576), Itoa(1048576)]]
    && AccountOf(text, sp)
    && Said(text, "maxconn") == Brought(path, "maxconn") + [[Itoa(sp.policy.maxConn)]]
    && Said(text, "connlim") == Brought(path, "connlim") + (if sp.policy.connLimit > 0 then [[Itoa(sp.policy.connLimit), "0", "*", "*"]] else [])
    && Said(text, "external") == Brought(path, "external") + [[sp.externalIp.Text()]]
    && Said(text, "internal") == Brought(path, "internal") + [[sp.internalIp.Text()]]
    && Said(text, "proxy") == Brought(path, "proxy") + [["-p" + Itoa(sp.httpPort), "-a", "-4"]]
    && Said(text, "socks") == Brought(path, "socks") + [["-p" + Itoa(sp.socksPort), "-a", "-4"]]
  }

  /** Under whose name it runs and who may log in. */
  predicate AccountOf(text: string, sp: Spec) {
    var path := sp.logPath;
    && Said(text, "setgid") == Brought(path, "setgid") + [[Itoa(sp.gid)]]
    && Said(text, "setuid") == Brought(path, "setuid") + [[Itoa(sp.uid)]]
    && Said(text, "auth") == Brought(path, "auth") + [if sp.authMode.IpList? || sp.authMode.Both? then ["iponly", "strong"] else ["strong"]]
    && Said(text, "users") ==
       Brought(path, "users") + seq(|sp.users|, i requires 0 <= i < |sp.users| => [sp.users[i].name + ":CL:" + sp.users[i].password])
  }

  // ---- what a program writes ----

  function FieldsOf(p: Printed): seq<Field> { if p.Words? then p.words else Fields("log" + " " + p.path + " D") }

  /** The words behind a command among the lines of a program. */
  function Wrote(prog: seq<Printed>, cmd: string): seq<seq<string>> {
    if prog == [] then []
    else
      var fs := FieldsOf(prog[0]);
      (if fs != [] && fs[0].text == cmd then [Texts(fs[1..])] else []) + Wrote(prog[1..], cmd)
  }

  lemma {:induction false} ValuesConcat(a: seq<Line>, b: seq<Line>, cmd: string)
    ensures Values(a + b, cmd) == Values(a, cmd) + Values(b, cmd)
  {
    if a == [] {
      assert a + b == b;
    } else {
      assert (a + b)[1..] == a[1..] + b;
      ValuesConcat(a[1..], b, cmd);
    }
  }

  lemma {:induction false} WroteConcat(a: seq<Printed>, b: seq<Printed>, cmd: string)
    ensures Wrote(a + b, cmd) == Wrote(a, cmd) + Wrote(b, cmd)
  {
    if a == [] {
      assert a + b == b;
    } else {
      assert (a + b)[1..] == a[1..] + b;
      WroteConcat(a[1..], b, cmd);
    }
  }

  lemma {:induction false} WroteIsRead(prog: seq<Printed>, cmd: string)
    requires AllPrintable(prog)
    ensures Values(ParsedAll(prog), cmd) == Wrote(prog, cmd)
  {
    hide KindOf;
    if prog != [] {
      assert prog[0] in prog && prog[0].Printable() && prog[0].Parsed().fields == FieldsOf(prog[0]);
      WroteIsRead(prog[1..], cmd);
      assert ParsedAll(prog)[1..] == ParsedAll(prog[1..]);
    }
  }

  /** The words of one line, if it has the command. */
  function One(ws: seq<string>, cmd: string): seq<seq<string>> { if ws != [] && ws[0] == cmd then [ws[1..]] else [] }

  lemma WroteOne(ws: seq<string>, cmd: string)
    ensures Wrote([W(ws)], cmd) == One(ws, cmd)
  {
    assert [W(ws)][1..] == [];
    if ws != [] {
      assert Texts(Bares(ws)[1..]) == ws[1..];
    }
  }

  lemma {:induction false} WroteEach(prog: seq<Printed>, first: string, cmd: string, said: seq<string>)
    requires |said| == |prog|
    requires forall i :: 0 <= i < |prog| ==> prog[i].Words? && |prog[i].words| == 2 && prog[i].words[0].text == first && prog[i].words[1].text == said[i]
    ensures Wrote(prog, cmd) == if first == cmd then seq(|said|, i requires 0 <= i < |said| => [said[i]]) else []
  {
    if prog != [] {
      WroteEach(prog[1..], first, cmd, said[1..]);
      assert Texts(prog[0].words[1..]) == [said[0]];
    }
  }

  lemma NServersWrote(ns: seq<Addr>, cmd: string)
    requires forall a :: a in ns ==> a.V4?
    ensures Wrote(NServerLines(ns), cmd) == if cmd == "nserver" then seq(|ns|, i requires 0 <= i < |ns| => [ns[i].Text()]) else []
  {
    hide Addr.Text, Wrote;
    var said := seq(|ns|, i requires 0 <= i < |ns| => ns[i].Text());
    WroteEach(NServerLines(ns), "nserver", cmd, said);
  }

  function Entry(u: User): string { u.name + ":CL:" + u.password }

  lemma UsersWrote(us: seq<User>, cmd: string)
    ensures Wrote(UserLines(us), cmd) == if cmd == "users" then seq(|us|, i requires 0 <= i < |us| => [us[i].name + ":CL:" + us[i].password]) else []
  {
    hide Wrote;
    var said := seq(|us|, i requires 0 <= i < |us| => Entry(us[i]));
    forall i | 0 <= i < |us| ensures UserLines(us)[i].words == [Bare("users"), Quoted(said[i])] {
      assert us[i].name + ":" + PASSWORD_TYPE + ":" + us[i].password == Entry(us[i]);
    }
    WroteEach(UserLines(us), "users", cmd, said);
  }

  lemma BeforeWrote(sp: Spec, cmd: string)
    requires sp.Valid()
    ensures Wrote(BeforeLog(sp), cmd) ==
            One(["nscache", Itoa(65536)], cmd) + Wrote(NServerLines(sp.nservers), cmd)
            + One(["timeouts", "1", "5", "30", "60", "180", "1800", "15", "60", "10", "5"], cmd) + One(["noforce"], cmd)
  {
    hide Wrote, One, Itoa, W, Spec.Valid;
    ServersV4(sp);
    var a, n, t, f := W(["nscache", Itoa(65536)]), NServerLines(sp.nservers), W(["timeouts"] + TIMEOUT_VALUES), W(["noforce"]);
    assert ["timeouts"] + TIMEOUT_VALUES == ["timeouts", "1", "5", "30", "60", "180", "1800", "15", "60", "10", "5"];
    assert BeforeLog(sp) == [a] + n + [t] + [f];
    WroteConcat([a] + n + [t], [f], cmd);
    WroteConcat([a] + n, [t], cmd);
    WroteConcat([a], n, cmd);
    WroteOne(["nscache", Itoa(65536)], cmd);
    WroteOne(["timeouts", "1", "5", "30", "60", "180", "1800", "15", "60", "10", "5"], cmd);
    WroteOne(["noforce"], cmd);
  }

  /** The settings right after the log path, on lines of their own. */
  function Fixed(sp: Spec): seq<seq<string>> {
    [ ["rotate", Itoa(7)], ["logformat", LOG_FORMAT], ["logdump", Itoa(1048576), Itoa(1048576)],
      ["setgid", Itoa(sp.gid)], ["setuid", Itoa(sp.uid)], ["maxconn", Itoa(sp.policy.maxConn)] ]
  }

  function Picked(lines: seq<seq<string>>, cmd: string): seq<seq<string>> {
    if lines == [] then [] else One(lines[0], cmd) + Picked(lines[1..], cmd)
  }

  lemma {:induction false} PickedWrote(prog: seq<Printed>, lines: seq<seq<string>>, cmd: string)
    requires |prog| == |lines|
    requires forall i :: 0 <= i < |prog| ==> prog[i].Words? && Texts(prog[i].words) == lines[i]
    ensures Wrote(prog, cmd) == Picked(lines, cmd)
  {
    if prog != [] {
      PickedWrote(prog[1..], lines[1..], cmd);
      assert lines[0] != [] ==> Texts(prog[0].words[1..]) == lines[0][1..];
    }
  }

  lemma FixedWrote(sp: Spec, cmd: string) returns (fixed: seq<Printed>)
    requires sp.Valid()
    ensures AfterLog(sp) == fixed + ConnLimLines(sp.policy.connLimit) + [AuthLine(sp.authMode)] + UserLines(sp.users) + Addresses(sp)
    ensures Wrote(fixed, cmd) == Picked(Fixed(sp), cmd)
  {
    hide Wrote, Picked, Itoa, Addresses, ConnLimLines, AuthLine, UserLines, LOG_FORMAT, ValidUsername, ValidPassword;
    fixed := AfterLog(sp)[..6];
    PickedWrote(fixed, Fixed(sp), cmd);
  }

  function ConnLimSaid(limit: int): seq<seq<string>> { if limit > 0 then [[Itoa(limit), "0", "*", "*"]] else [] }

  function AuthSaid(m: AuthMode): seq<string> { if m.IpList? || m.Both? then ["iponly", "strong"] else ["strong"] }

  lemma ConnLimWrote(limit: int, cmd: string)
    ensures Wrote(ConnLimLines(limit), cmd) == if cmd == "connlim" then ConnLimSaid(limit) else []
  {
    hide Itoa, W, Wrote;
    if limit > 0 {
      WroteOne(["connlim", Itoa(limit), "0", "*", "*"], cmd);
    } else {
      assert Wrote([], cmd) == [] by { EmptyWrote(cmd); }
    }
  }

  lemma EmptyWrote(cmd: string)
    ensures Wrote([], cmd) == []
  {
  }

  lemma AuthWrote(m: AuthMode, cmd: string)
    ensures Wrote([AuthLine(m)], cmd) == One(["auth"] + AuthSaid(m), cmd)
  {
    WroteOne(["auth"] + AuthSaid(m), cmd);
  }

  lemma AfterWrote(sp: Spec, cmd: string)
    requires sp.Valid()
    ensures Wrote(AfterLog(sp), cmd) ==
            Picked(Fixed(sp), cmd) + (if cmd == "connlim" then ConnLimSaid(sp.policy.connLimit) else []) + One(["auth"] + AuthSaid(sp.authMode), cmd)
            + Wrote(UserLines(sp.users), cmd) + One(["external", sp.externalIp.Text()], cmd) + One(["internal", sp.internalIp.Text()], cmd)
  {
    hide AfterLog, Wrote, Picked, ConnLimLines, AuthLine, UserLines, W, One, Addr.Text, ConnLimSaid, AuthSaid, ValidUsername, ValidPassword;
    var fixed := FixedWrote(sp, cmd);
    var conn, auth, users := ConnLimLines(sp.policy.connLimit), [AuthLine(sp.authMode)], UserLines(sp.users);
    var ext, int_ := W(["external", sp.externalIp.Text()]), W(["internal", sp.internalIp.Text()]);
    assert AfterLog(sp) == fixed + conn + auth + users + [ext] + [int_];
    WroteConcat(fixed + conn + auth + users + [ext], [int_], cmd);
    WroteConcat(fixed + conn + auth + users, [ext], cmd);
    WroteConcat(fixed + conn + auth, users, cmd);
    WroteConcat(fixed + conn, auth, cmd);
    WroteConcat(fixed, conn, cmd);
    ConnLimWrote(sp.policy.connLimit, cmd);
    AuthWrote(sp.authMode, cmd);
    WroteOne(["external", sp.externalIp.Text()], cmd);
    WroteOne(["internal", sp.internalIp.Text()], cmd);
  }

  // ---- the access blocks and the services ----

  predicate AccessCommand(cmd: string) { cmd == "flush" || cmd == "allow" || cmd == "deny" }

  predicate AccessOnly(prog: seq<Printed>) { forall p :: p in prog ==> p.Words? && p.words != [] && AccessCommand(p.words[0].text) }

  lemma {:induction false} NothingWrote(prog: seq<Printed>, cmd: string)
    requires AccessOnly(prog) && !AccessCommand(cmd)
    ensures Wrote(prog, cmd) == []
  {
    hide AccessCommand;
    if prog != [] {
      assert prog[0] in prog;
      NothingWrote(prog[1..], cmd);
    }
  }

  lemma AclOnly(sp: Spec)
    requires sp.Valid()
    ensures AccessOnly(Acl(sp))
  {
    hide PortList, SortedPrefixes, Prefix.Text, ValidUsername, ValidPassword;
    var us, ps, ports := AllowedUsers(sp), AllowedNets(sp), PortList(sp.policy);
    forall p | p in Acl(sp) ensures p.Words? && p.words != [] && AccessCommand(p.words[0].text) {
      if p in UserAllows(us, ports) {
        var i :| 0 <= i < |us| && p == UserAllow(us[i], ports);
      } else if p in NetAllows(ps, ports) {
        var i :| 0 <= i < |ps| && p == NetAllow(ps[i], ports);
      }
    }
  }

  lemma TailWrote(sp: Spec, cmd: string)
    requires sp.Valid() && !AccessCommand(cmd)
    ensures Wrote(Acl(sp) + [ServiceLine(SERVICE_PROXY, sp.httpPort)] + Acl(sp) + [ServiceLine(SERVICE_SOCKS, sp.socksPort)], cmd) ==
            One(["proxy", "-p" + Itoa(sp.httpPort), "-a", "-4"], cmd) + One(["socks", "-p" + Itoa(sp.socksPort), "-a", "-4"], cmd)
  {
    hide Acl, Wrote, W, Itoa, One, Spec.Valid, AccessCommand, AccessOnly;
    AclOnly(sp);
    NothingWrote(Acl(sp), cmd);
    var a, p, s := Acl(sp), ServiceLine(SERVICE_PROXY, sp.httpPort), ServiceLine(SERVICE_SOCKS, sp.socksPort);
    WroteConcat(a + [p] + a, [s], cmd);
    WroteConcat(a + [p], a, cmd);
    WroteConcat(a, [p], cmd);
    WroteOne(["proxy", "-p" + Itoa(sp.httpPort), "-a", "-4"], cmd);
    WroteOne(["socks", "-p" + Itoa(sp.socksPort), "-a", "-4"], cmd);
  }

  // ---- reading the whole text ----

  /** The text of a program around a path says what the lines write and what the path brings in. */
  lemma AroundPath(x: seq<Printed>, path: string, y: seq<Printed>, cmd: string)
    requires x != [] && AllPrintable(x) && AllPrintable(y)
    ensures Said(PrintAll(x + [LogTo(path)] + y), cmd) == Wrote(x, cmd) + Brought(path, cmd) + Wrote(y, cmd)
  {
    hide ParseText, PrintAll, ParsedAll, Wrote, Values, AllPrintable;
    ParsedAround(x, path, y);
    WroteIsRead(x, cmd);
    WroteIsRead(y, cmd);
    ValuesConcat(ParsedAll(x) + PathLines(path), ParsedAll(y), cmd);
    ValuesConcat(ParsedAll(x), PathLines(path), cmd);
  }

  lemma TailPrintable(sp: Spec)
    requires sp.Valid()
    ensures AllPrintable(Acl(sp) + [ServiceLine(SERVICE_PROXY, sp.httpPort)] + Acl(sp) + [ServiceLine(SERVICE_SOCKS, sp.socksPort)])
  {
    hide Acl, ServiceLine, Printed.Printable, Printed.Parsed, Spec.Valid, ServiceOk;
    ParsedAcl(sp);
    ServicesParsed(sp);
    ParsedAcls(Acl(sp), ServiceLine(SERVICE_PROXY, sp.httpPort), ServiceLine(SERVICE_SOCKS, sp.socksPort));
  }

  lemma SaidIs(sp: Spec, cmd: string)
    requires sp.Valid() && !AccessCommand(cmd)
    ensures Said(PrintAll(Program(sp)), cmd) ==
            (Wrote(BeforeLog(sp), cmd) + Brought(sp.logPath, cmd)) + (Wrote(AfterLog(sp), cmd)
            + (One(["proxy", "-p" + Itoa(sp.httpPort), "-a", "-4"], cmd) + One(["socks", "-p" + Itoa(sp.socksPort), "-a", "-4"], cmd)))
  {
    hide BeforeLog, AfterLog, Acl, ServiceLine, Printed.Printable, Printed.Parsed, ParsedAll, Spec.Valid, ParseText, PrintAll, Program,
         Around, Wrote, One, Said, Brought, AccessCommand, Itoa, SERVICE_PROXY, SERVICE_SOCKS;
    LinesAround(sp);
    ProgramIs(sp);
    TailPrintable(sp);
    TailWrote(sp, cmd);
    var tail := Acl(sp) + [ServiceLine(SERVICE_PROXY, sp.httpPort)] + Acl(sp) + [ServiceLine(SERVICE_SOCKS, sp.socksPort)];
    AroundPath(BeforeLog(sp), sp.logPath, AfterLog(sp) + tail, cmd);
    WroteConcat(AfterLog(sp), tail, cmd);
  }

  lemma PickedFixed(sp: Spec, cmd: string)
    ensures Picked(Fixed(sp), cmd) ==
            One(["rotate", Itoa(7)], cmd) + One(["logformat", LOG_FORMAT], cmd) + One(["logdump", Itoa(1048576), Itoa(1048576)], cmd)
            + One(["setgid", Itoa(sp.gid)], cmd) + One(["setuid", Itoa(sp.uid)], cmd) + One(["maxconn", Itoa(sp.policy.maxConn)], cmd)
  {
    hide One, LOG_FORMAT, Itoa;
    var f := Fixed(sp);
    assert Picked(f, cmd) == One(f[0], cmd) + (One(f[1], cmd) + (One(f[2], cmd)
                             + (One(f[3], cmd) + (One(f[4], cmd) + (One(f[5], cmd) + Picked(f[6..], cmd)))))) by {
      assert Picked(f[5..], cmd) == One(f[5], cmd) + Picked(f[6..], cmd);
      assert Picked(f[4..], cmd) == One(f[4], cmd) + Picked(f[5..], cmd);
      assert Picked(f[3..], cmd) == One(f[3], cmd) + Picked(f[4..], cmd);
      assert Picked(f[2..], cmd) == One(f[2], cmd) + Picked(f[3..], cmd);
      assert Picked(f[1..], cmd) == One(f[1], cmd) + Picked(f[2..], cmd);
    }
    assert f[6..] == [];
  }

  /** Command by command: what stands before the path, what it brings in, what stands after. */
  lemma SaidAll(sp: Spec, cmd: string)
    requires sp.Valid() && !AccessCommand(cmd)
    ensures Said(PrintAll(Program(sp)), cmd) ==
            One(["nscache", Itoa(65536)], cmd)
            + (if cmd == "nserver" then seq(|sp.nservers|, i requires 0 <= i < |sp.nservers| => [sp.nservers[i].Text()]) else [])
            + One(["timeouts", "1", "5", "30", "60", "180", "1800", "15", "60", "10", "5"], cmd) + One(["noforce"], cmd)
            + Brought(sp.logPath, cmd)
            + (One(["rotate", Itoa(7)], cmd) + One(["logformat", LOG_FORMAT], cmd) + One(["logdump", Itoa(1048576), Itoa(1048576)], cmd)
               + One(["setgid", Itoa(sp.gid)], cmd) + One(["setuid", Itoa(sp.uid)], cmd) + One(["maxconn", Itoa(sp.policy.maxConn)], cmd)
               + (if cmd == "connlim" then ConnLimSaid(sp.policy.connLimit) else []) + One(["auth"] + AuthSaid(sp.authMode), cmd)
               + (if cmd == "users" then seq(|sp.users|, i requires 0 <= i < |sp.users| => [sp.users[i].name + ":CL:" + sp.users[i].password]) else [])
               + One(["external", sp.externalIp.Text()], cmd) + One(["internal", sp.internalIp.Text()], cmd)
               + (One(["proxy", "-p" + Itoa(sp.httpPort), "-a", "-4"], cmd) + One(["socks", "-p" + Itoa(sp.socksPort), "-a", "-4"], cmd)))
  {
    hide BeforeLog, AfterLog, Spec.Valid, PrintAll, Program, Wrote, Said, Brought, Itoa, LOG_FORMAT, Addr.Text, ConnLimSaid, AuthSaid,
         One, Picked, AccessCommand;
    SaidIs(sp, cmd);
    BeforeWrote(sp, cmd);
    ServersV4(sp);
    NServersWrote(sp.nservers, cmd);
    AfterWrote(sp, cmd);
    UsersWrote(sp.users, cmd);
    PickedFixed(sp, cmd);
  }

  lemma ServersSaid(sp: Spec)
    requires sp.Valid()
    ensures Said(PrintAll(Program(sp)), "nserver") ==
            seq(|sp.nservers|, i requires 0 <= i < |sp.nservers| => [sp.nservers[i].Text()]) + Brought(sp.logPath, "nserver")
  {
    hide Spec.Valid, PrintAll, Program, Said, Brought, Itoa, LOG_FORMAT, Addr.Text, ConnLimSaid, AuthSaid;
    SaidAll(sp, "nserver");
  }

  lemma StartSaid(sp: Spec)
    requires sp.Valid()
    ensures var text, path := PrintAll(Program(sp)), sp.logPath;
            && Said(text, "nscache") == [[Itoa(65536)]] + Brought(path, "nscache")
            && Said(text, "timeouts") == [["1", "5", "30", "60", "180", "1800", "15", "60", "10", "5"]] + Brought(path, "timeouts")
            && Said(text, "log") == Brought(path, "log")
  {
    hide Spec.Valid, PrintAll, Program, Said, Brought, Itoa, LOG_FORMAT, Addr.Text, ConnLimSaid, AuthSaid;
    SaidAll(sp, "nscache");
    SaidAll(sp, "timeouts");
    SaidAll(sp, "log");
  }

  lemma NoforceSaid(sp: Spec)
    requires sp.Valid()
    ensures Said(PrintAll(Program(sp)), "noforce") == [[]] + Brought(sp.logPath, "noforce")
  {
    hide Spec.Valid, PrintAll, Program, Said, Brought, Itoa, LOG_FORMAT, Addr.Text, ConnLimSaid, AuthSaid;
    SaidAll(sp, "noforce");
    assert One(["noforce"], "noforce")[0] == [];
  }

  lemma LogSaid(sp: Spec)
    requires sp.Valid()
    ensures var text, path := PrintAll(Program(sp)), sp.logPath;
            && Said(text, "rotate") == Brought(path, "rotate") + [[Itoa(7)]]
            && Said(text, "logformat") == Brought(path, "logformat") + [[LOG_FORMAT]]
            && Said(text, "logdump") == Brought(path, "logdump") + [[Itoa(1048576), Itoa(1048576)]]
  {
    hide Spec.Valid, PrintAll, Program, Said, Brought, Itoa, LOG_FORMAT, Addr.Text, ConnLimSaid, AuthSaid;
    SaidAll(sp, "rotate");
    SaidAll(sp, "logformat");
    SaidAll(sp, "logdump");
  }

  lemma AccountSaid(sp: Spec)
    requires sp.Valid()
    ensures AccountOf(PrintAll(Program(sp)), sp)
  {
    hide Spec.Valid, PrintAll, Program, Said, Brought, Itoa, LOG_FORMAT, Addr.Text, ConnLimSaid;
    SaidAll(sp, "setgid");
    SaidAll(sp, "setuid");
    SaidAll(sp, "auth");
    SaidAll(sp, "users");
  }

  lemma LimitsSaid(sp: Spec)
    requires sp.Valid()
    ensures var text, path := PrintAll(Program(sp)), sp.logPath;
            && Said(text, "maxconn") == Brought(path, "maxconn") + [[Itoa(sp.policy.maxConn)]]
            && Said(text, "connlim") == Brought(path, "connlim") + (if sp.policy.connLimit > 0 then [[Itoa(sp.policy.connLimit), "0", "*", "*"]] else [])
  {
    hide Spec.Valid, PrintAll, Program, Said, Brought, Itoa, LOG_FORMAT, Addr.Text, AuthSaid;
    SaidAll(sp, "maxconn");
    SaidAll(sp, "connlim");
  }

  lemma AddressesSaid(sp: Spec)
    requires sp.Valid()
    ensures var text, path := PrintAll(Program(sp)), sp.logPath;
            && Said(text, "external") == Brought(path, "external") + [[sp.externalIp.Text()]]
            && Said(text, "internal") == Brought(path, "internal") + [[sp.internalIp.Text()]]
  {
    hide Spec.Valid, PrintAll, Program, Said, Brought, Itoa, LOG_FORMAT, Addr.Text, ConnLimSaid, AuthSaid;
    SaidAll(sp, "external");
    SaidAll(sp, "internal");
  }

  lemma ServicesSaid(sp: Spec)
    requires sp.Valid()
    ensures var text, path := PrintAll(Program(sp)), sp.logPath;
            && Said(text, "proxy") == Brought(path, "proxy") + [["-p" + Itoa(sp.httpPort), "-a", "-4"]]
            && Said(text, "socks") == Brought(path, "socks") + [["-p" + Itoa(sp.socksPort), "-a", "-4"]]
  {
    hide Spec.Valid, PrintAll, Program, Said, Brought, Itoa, LOG_FORMAT, Addr.Text, ConnLimSaid, AuthSaid;
    SaidAll(sp, "proxy");
    SaidAll(sp, "socks");
  }

  /** What is printed for a valid spec holds its settings, whatever the log path. */
  lemma SettingsRead(sp: Spec)
    requires sp.Valid()
    ensures SettingsOf(PrintAll(Program(sp)), sp)
  {
    hide Spec.Valid, PrintAll, Program, Said, Brought, Itoa, LOG_FORMAT, Addr.Text, AccountOf;
    StartSaid(sp);
    NoforceSaid(sp);
    ServersSaid(sp);
    LogSaid(sp);
    AccountSaid(sp);
    LimitsSaid(sp);
    AddressesSaid(sp);
    ServicesSaid(sp);
  }

  // ---- with a log path on one line ----

  predicate IsNumber(said: seq<seq<string>>, n: int) { |said| == 1 && |said[0]| == 1 && Atoi(said[0][0]) == Some(n) }

  predicate IsAddress(said: seq<seq<string>>, ip: Addr) { |said| == 1 && |said[0]| == 1 && ParseAddr(said[0][0]) == Some(ip) }

  predicate IsServers(said: seq<seq<string>>, ips: seq<Addr>) {
    |said| == |ips| && forall i :: 0 <= i < |ips| ==> |said[i]| == 1 && ParseAddr(said[i][0]) == Some(ips[i])
  }

  lemma ValuesOne(l: Line, cmd: string)
    requires l.fields != []
    ensures Values([l], cmd) == if l.fields[0].text == cmd then [Texts(l.fields[1..])] else []
  {
    assert [l][1..] == [];
  }

  lemma BroughtByOne(path: string, cmd: string)
    requires '\n' !in path
    ensures cmd != "log" ==> Brought(path, cmd) == []
    ensures cmd == "log" ==> |Brought(path, cmd)| == 1
    ensures cmd == "log" && PrintableField(Bare(path)) ==> Brought(path, cmd) == [[path, "D"]]
  {
    hide ParseText, Fields, PrintableField;
    OneLine(path);
    Fixed3();
    FirstFieldOf("log", path + " D");
    var text := "log" + " " + path + " D";
    assert text == "log" + " " + (path + " D");
    assert ParseText(text) == [Line(Other, Fields(text))];
    ValuesOne(Line(Other, Fields(text)), cmd);
    if PrintableField(Bare(path)) {
      WordPath(path);
      assert Texts([Bare("log"), Bare(path), Bare("D")][1..]) == [path, "D"];
    }
  }

  lemma Fixed3()
    ensures PrintableField(Bare("log")) && PrintableField(Bare("D"))
  {
  }

  lemma WordPath(path: string)
    requires PrintableField(Bare(path))
    ensures Fields("log" + " " + path + " D") == [Bare("log"), Bare(path), Bare("D")]
  {
    hide PrintableField, Fields;
    Fixed3();
    var ws := [Bare("log"), Bare(path), Bare("D")];
    FieldsOfWords(ws);
    assert ws[1..] == [Bare(path), Bare("D")] && ws[1..][1..] == [Bare("D")];
    assert WordsText(ws[1..][1..]) == "D";
    assert WordsText(ws[1..]) == path + " " + "D";
    assert WordsText(ws) == "log" + " " + (path + " " + "D");
    assert path + " " + "D" == path + " D";
    assert "log" + " " + (path + " D") == "log" + " " + path + " D";
  }

  /** Then each setting is there once, and reads as the number or address of the spec. */
  lemma OneOfEach(sp: Spec, text: string)
    requires sp.Valid() && '\n' !in sp.logPath && SettingsOf(text, sp)
    ensures IsAddress(Said(text, "external"), sp.externalIp) && IsAddress(Said(text, "internal"), sp.internalIp)
    ensures IsServers(Said(text, "nserver"), sp.nservers)
    ensures sp.policy.maxConn <= MAX_INT64 ==> IsNumber(Said(text, "maxconn"), sp.policy.maxConn)
    ensures sp.policy.connLimit <= 0 ==> Said(text, "connlim") == []
    ensures 0 < sp.policy.connLimit <= MAX_INT64 ==>
              var limits := Said(text, "connlim");
              |limits| == 1 && |limits[0]| == 4 && limits[0][1..] == ["0", "*", "*"] && Atoi(limits[0][0]) == Some(sp.policy.connLimit)
    ensures IsNumber(Said(text, "setuid"), 6100 + sp.slot) && IsNumber(Said(text, "setgid"), sp.gid)
    ensures |Said(text, "log")| == 1 && (PrintableField(Bare(sp.logPath)) ==> Said(text, "log") == [[sp.logPath, "D"]])
    ensures |Said(text, "users")| == |sp.users|
  {
    hide Said, Brought, Itoa, Atoi, Addr.Text, ParseAddr, LOG_FORMAT, ValidUsername, ValidPassword, PrintableField;
    var path := sp.logPath;
    BroughtByOne(path, "external");
    BroughtByOne(path, "internal");
    BroughtByOne(path, "nserver");
    BroughtByOne(path, "maxconn");
    BroughtByOne(path, "connlim");
    BroughtByOne(path, "setuid");
    BroughtByOne(path, "setgid");
    BroughtByOne(path, "users");
    BroughtByOne(path, "log");
    ServersV4(sp);
    AddrRoundTrip(sp.externalIp);
    AddrRoundTrip(sp.internalIp);
    forall i | 0 <= i < |sp.nservers| ensures ParseAddr(sp.nservers[i].Text()) == Some(sp.nservers[i]) {
      AddrRoundTrip(sp.nservers[i]);
    }
    AtoiOfItoa(sp.uid);
    AtoiOfItoa(sp.gid);
    if sp.policy.maxConn <= MAX_INT64 {
      AtoiOfItoa(sp.policy.maxConn);
    }
    if 0 < sp.policy.connLimit <= MAX_INT64 {
      AtoiOfItoa(sp.policy.connLimit);
    }
  }

  // ---- Render ----

  /** Render: it refuses exactly the invalid specs and those whose log path brings in a line the
      checks refuse; what it returns passed every check and holds the settings of the spec. */
  method Render(sp: Spec) returns (r: Result<string, RenderError>)
    ensures r.Ok? <==> sp.Valid() && PathAccepted(sp)
    ensures r.Ok? ==> r.value == PrintAll(Program(sp)) && Accepted(ParseText(r.value), sp)
    ensures r.Ok? ==> SettingsOf(r.value, sp)
  {
    hide PathAccepted, Accepted, SettingsOf;
    var bad := Validate(sp);
    if bad.Some? {
      return Err(bad.value);
    }
    var lines := WriteConfig(sp);
    var out := PrintAll(lines);
    bad := Verify(out, sp);
    AcceptedExactly(sp);
    if bad.Some? {
      return Err(bad.value);
    }
    SettingsRead(sp);
    r := Ok(out);
  }
}
