/** The comparison that chooses between reload and restart: does the new config take
    away an account or a network the old one granted (internal/proxysup/render.go,
    ConfigUsers, ConfigAuthNets and RevokesAccess). */
module ProxyRevoke {
  import opened Netip
  import opened Domain
  import opened ProxySpec
  import opened ProxyText
  import opened ProxyProgram
  import opened ProxyVerify
  import opened ProxyAccepts
  import opened ProxyLogPath
  import opened ProxyAccess

  method ConfigUsers(cfg: string) returns (out: map<string, string>)
    ensures out == UsersOf(map[], ParseText(cfg))
  {
    hide SplitUserEntry;
    var lines := Parse(cfg);
    out := map[];
    var i := 0;
    assert lines[0..] == lines;
    while i < |lines|
      invariant 0 <= i <= |lines|
      invariant UsersOf(map[], lines) == UsersOf(out, lines[i..])
    {
      assert lines[i..][0] == lines[i] && lines[i..][1..] == lines[i + 1..];
      if lines[i].kind.Users? {
        var args := lines[i].Args();
        ghost var before := out;
        var j := 0;
        assert args[0..] == args;
        while j < |args|
          invariant 0 <= j <= |args|
          invariant AddEntries(before, args) == AddEntries(out, args[j..])
        {
          assert args[j..][0] == args[j] && args[j..][1..] == args[j + 1..];
          var e := SplitUserEntry(args[j].text);
          if e.Some? {
            out := out[e.value.name := e.value.pass];
          }
          j := j + 1;
        }
        assert args[j..] == [];
      }
      i := i + 1;
    }
    assert lines[i..] == [];
  }

  predicate NetLine(l: Line) { l.kind.Allow? && l.Arg(0) == "*" && l.Arg(1) != [] }

  /** The networks some rule allows to everyone coming from them. */
  function NetsOf(lines: seq<Line>): set<string> { set l | l in lines && NetLine(l) :: l.Arg(1) }

  lemma NoNets()
    ensures NetsOf([]) == {}
  {
  }

  lemma NetsStep(lines: seq<Line>, l: Line)
    ensures NetsOf(lines + [l]) == NetsOf(lines) + if NetLine(l) then {l.Arg(1)} else {}
  {
    hide NetLine, Line.Arg;
    assert forall k :: k in lines + [l] <==> k in lines || k == l;
  }

  method ConfigAuthNets(cfg: string) returns (out: set<string>)
    ensures out == NetsOf(ParseText(cfg))
  {
    hide NetLine, NetsOf, Line.Arg, ParseText;
    var lines := Parse(cfg);
    out := {};
    assert NetsOf(lines[..0]) == {} by { NoNets(); }
    var i := 0;
    while i < |lines|
      invariant 0 <= i <= |lines|
      invariant out == NetsOf(lines[..i])
    {
      assert lines[..i + 1] == lines[..i] + [lines[i]];
      NetsStep(lines[..i], lines[i]);
      if NetLine(lines[i]) {
        out := out + {lines[i].Arg(1)};
      }
      i := i + 1;
    }
    assert lines[..i] == lines;
  }

  /** Some account lost its password's validity, or some network its rule. */
  predicate DropsUser(o: map<string, string>, n: map<string, string>) {
    exists name :: name in o && Lookup(n, name) != o[name]
  }

  predicate Revokes(o: seq<Line>, n: seq<Line>) {
    DropsUser(UsersOf(map[], o), UsersOf(map[], n)) || !(NetsOf(o) <= NetsOf(n))
  }

  method RevokesAccess(oldCfg: string, newCfg: string) returns (r: bool)
    ensures r <==> Revokes(ParseText(oldCfg), ParseText(newCfg))
  {
    var oldUsers, newUsers := map[], map[];
    oldUsers := ConfigUsers(oldCfg);
    newUsers := ConfigUsers(newCfg);
    var names := oldUsers.Keys;
    while names != {}
      invariant names <= oldUsers.Keys
      invariant forall n :: n in oldUsers && n !in names ==> Lookup(newUsers, n) == oldUsers[n]
      decreases |names|
    {
      var name :| name in names;
      if Lookup(newUsers, name) != oldUsers[name] {
        return true;
      }
      names := names - {name};
    }
    var oldNets := ConfigAuthNets(oldCfg);
    var newNets := ConfigAuthNets(newCfg);
    var nets := oldNets;
    while nets != {}
      invariant nets <= oldNets && oldNets - nets <= newNets
      decreases |nets|
    {
      var net :| net in nets;
      if net !in newNets {
        return true;
      }
      nets := nets - {net};
    }
    r := false;
  }

  // ---- what a rendered config grants ----

  /** The accounts a rendered config names: those its log path brings in, and over them its users. */
  function Accounts(sp: Spec): map<string, string> { Named(UsersOf(map[], PathLines(sp.logPath)), sp.users) }

  function Named(m: map<string, string>, users: seq<User>): map<string, string>
    decreases users
  {
    if users == [] then m else Named(m[users[0].name := users[0].password], users[1..])
  }

  /** The networks it names, likewise. */
  function Networks(sp: Spec): set<string> {
    NetsOf(PathLines(sp.logPath)) + set p | p in sp.authIps :: p.Text()
  }

  /** A log path that names none of either, as one on a single line. */
  predicate Silent(path: string) { UsersOf(map[], PathLines(path)) == map[] && NetsOf(PathLines(path)) == {} }

  lemma OneLineSilent(path: string)
    requires '\n' !in path
    ensures Silent(path)
  {
    hide PathLines, Printed.Parsed;
    OneLine(path);
    UnnamedLines(map[], PathLines(path));
  }

  lemma OverOneMore(r: map<string, string>, m: map<string, string>, u: User, rest: seq<User>)
    requires NamedOver(r, m[u.name := u.password], rest) && forall v :: v in rest ==> v.name != u.name
    ensures NamedOver(r, m, [u] + rest)
  {
    var users := [u] + rest;
    assert forall v :: v in users <==> v == u || v in rest;
    var with := m[u.name := u.password];
    assert u.name in with && u.name in r && r[u.name] == u.password;
    forall n | n in m ensures n in r && (r[n] == m[n] || exists v :: v in users && v.name == n) {
      assert n in with;
    }
  }

  lemma {:induction false} NamedIsOver(m: map<string, string>, users: seq<User>)
    requires DistinctNames(users)
    ensures NamedOver(Named(m, users), m, users)
    decreases users
  {
    hide NamedOver;
    if users == [] {
      NothingOver(m);
    } else {
      var u, rest := users[0], users[1..];
      NamedIsOver(m[u.name := u.password], rest);
      forall v | v in rest ensures v.name != u.name {
        var i :| 0 <= i < |rest| && rest[i] == v;
        assert users[i + 1] == v;
      }
      OverOneMore(Named(m, users), m, u, rest);
      assert users == [u] + rest;
    }
  }

  lemma NothingOver(m: map<string, string>)
    ensures NamedOver(m, m, [])
  {
  }

  lemma OverIsOne(r: map<string, string>, q: map<string, string>, m: map<string, string>, users: seq<User>)
    requires NamedOver(r, m, users) && NamedOver(q, m, users)
    ensures r == q
  {
    forall n | n in r || n in q ensures n in r && n in q && r[n] == q[n] {
      if u :| u in users && u.name == n {
        assert r[u.name] == u.password == q[u.name];
      } else {
        assert !exists u :: u in users && u.name == n;
      }
    }
  }

  lemma BlockNets(b: seq<Line>, us: seq<User>, ps: seq<Prefix>)
    requires AllValid4(ps) && AccessBlock(b, us, ps)
    ensures forall p :: p in ps ==> exists l :: l in b && NetLine(l) && l.Arg(1) == p.Text()
    ensures forall l :: l in b && NetLine(l) ==> exists p :: p in ps && p.Text() == l.Arg(1)
  {
    hide OperationsOk, Prefix.Text;
    forall p | p in ps ensures exists l :: l in b && NetLine(l) && l.Arg(1) == p.Text() {
      var i :| 0 <= i < |ps| && ps[i] == p;
      PrefixTextPlain(p, ' ');
      var l := b[1 + |us| + i];
      assert NetAllowed(l, p.Text());
      assert l in b && NetLine(l) && l.Arg(1) == p.Text();
    }
    forall k | 0 < k <= |us| ensures !NetLine(b[k]) {
      assert UserAllowed(b[1 + (k - 1)], us[k - 1].name);
    }
    forall l | l in b && NetLine(l) ensures exists p :: p in ps && p.Text() == l.Arg(1) {
      var j :| 0 <= j < |b| && b[j] == l;
      var i := j - 1 - |us|;
      assert NetAllowed(b[1 + |us| + i], ps[i].Text()) && ps[i] in ps;
    }
  }

  lemma NetsAround(lines: seq<Line>, h1: seq<Line>, m: seq<Line>, h2: seq<Line>, b: seq<Line>, p: Line, s: Line, us: seq<User>, ps: seq<Prefix>, sp: Spec)
    requires Shape(lines, h1 + m + h2, b, p, s) && Around(h1, h2, sp)
    requires AllValid4(ps) && AccessBlock(b, us, ps) && p.kind.Proxy? && s.kind.Socks?
    ensures NetsOf(lines) == NetsOf(m) + set q | q in ps :: q.Text()
  {
    hide AccessBlock, GlobalLineOk, OperationsOk, Prefix.Text, Line.Arg, Has, Line.HasArg;
    BlockNets(b, us, ps);
    forall l | l in lines && NetLine(l) ensures l in b || l in m {
      assert l in h1 || l in h2 ==> Quiet(l, sp);
    }
    forall l | l in b || l in m ensures l in lines {
    }
    hide Shape, NetLine, Quiet;
  }

  /** Reading a rendered config back gives these accounts and networks, no more and no less. */
  lemma RenderedGrants(sp: Spec)
    requires sp.Valid()
    ensures UsersOf(map[], ParseText(PrintAll(Program(sp)))) == Accounts(sp)
    ensures NetsOf(ParseText(PrintAll(Program(sp)))) == Networks(sp)
  {
    hide ParseText, PrintAll, Program, PathLines, Around, AccessBlock, BlockFor, ServiceOk, Shape, Spec.Valid, AllowedUsers, AllowedNets, BlockOf,
         UsersOf, NetsOf, Prefix.Text, NamedOver, Named;
    var h1, h2, b, p, s := Lines(sp);
    var lines, m, us, ps := ParseText(PrintAll(Program(sp))), PathLines(sp.logPath), AllowedUsers(sp), AllowedNets(sp);
    UsersAround(lines, h1, m, h2, b, p, s, us, ps, sp);
    NamesDistinct(sp);
    NamedIsOver(UsersOf(map[], m), sp.users);
    OverIsOne(UsersOf(map[], lines), Accounts(sp), UsersOf(map[], m), sp.users);
    NetsAround(lines, h1, m, h2, b, p, s, us, ps, sp);
    NetsAllowed(sp);
  }

  lemma NamesDistinct(sp: Spec)
    requires sp.Valid()
    ensures DistinctNames(sp.users) && ValidEntries(sp.users)
  {
    hide ValidUsername, ValidPassword;
  }

  lemma NetsAllowed(sp: Spec)
    requires sp.Valid()
    ensures forall q :: q in AllowedNets(sp) <==> q in sp.authIps
  {
    hide SortedPrefixes, ValidUsername, ValidPassword;
    SortedMembers(sp.authIps);
  }

  /** Between two rendered configs, whatever their log paths: a revocation is reported exactly if
      some account of the first is not one of the second, or some network. */
  lemma RevokesByAccounts(a: Spec, b: Spec)
    requires a.Valid() && b.Valid()
    ensures Revokes(ParseText(PrintAll(Program(a))), ParseText(PrintAll(Program(b))))
            <==> DropsUser(Accounts(a), Accounts(b)) || !(Networks(a) <= Networks(b))
  {
    hide Spec.Valid, ParseText, PrintAll, Program, UsersOf, NetsOf, DropsUser, Accounts, Networks;
    RenderedGrants(a);
    RenderedGrants(b);
  }

  /** An account is a name with its password, and a whitelist entry is a prefix. */
  predicate TakesAway(a: Spec, b: Spec) {
    (exists u :: u in a.users && u !in b.users) || (exists p :: p in a.authIps && p !in b.authIps)
  }

  lemma OwnAccounts(sp: Spec)
    requires sp.Valid()
    ensures NamedOver(Accounts(sp), UsersOf(map[], PathLines(sp.logPath)), sp.users)
    ensures forall u :: u in sp.users ==> |u.password| == PASSWORD_LEN
  {
    hide PathLines, UsersOf, NamedOver, Named, Spec.Valid, ValidUsername;
    NamesDistinct(sp);
    NamedIsOver(UsersOf(map[], PathLines(sp.logPath)), sp.users);
  }

  /** An account of a is still named by b exactly if it is b's own user, where b's path is silent. */
  lemma KeepsUser(a: Spec, b: Spec, u: User)
    requires a.Valid() && b.Valid() && Silent(b.logPath) && u in a.users
    ensures Lookup(Accounts(b), u.name) == u.password <==> u in b.users
  {
    hide PathLines, UsersOf, NetsOf, Accounts, Spec.Valid;
    OwnAccounts(a);
    OwnAccounts(b);
  }

  lemma UsersDropped(a: Spec, b: Spec)
    requires a.Valid() && b.Valid() && Silent(a.logPath) && Silent(b.logPath)
    ensures DropsUser(Accounts(a), Accounts(b)) <==> exists u :: u in a.users && u !in b.users
  {
    hide PathLines, UsersOf, NetsOf, Accounts, Spec.Valid;
    OwnAccounts(a);
    if name :| name in Accounts(a) && Lookup(Accounts(b), name) != Accounts(a)[name] {
      var u :| u in a.users && u.name == name;
      KeepsUser(a, b, u);
    }
    forall u | u in a.users && u !in b.users ensures DropsUser(Accounts(a), Accounts(b)) {
      KeepsUser(a, b, u);
      assert u.name in Accounts(a);
    }
  }

  /** A network of a is still named by b exactly if it is b's own prefix, where b's path is silent. */
  lemma KeepsNet(a: Spec, b: Spec, p: Prefix)
    requires a.Valid() && b.Valid() && Silent(b.logPath) && p in a.authIps
    ensures p.Text() in Networks(b) <==> p in b.authIps
  {
    hide PathLines, UsersOf, NetsOf, Prefix.Text, ValidUsername, ValidPassword;
    if p.Text() in Networks(b) {
      var q :| q in b.authIps && q.Text() == p.Text();
      PrefixRoundTrip(p);
      PrefixRoundTrip(q);
    }
  }

  lemma NetsDropped(a: Spec, b: Spec)
    requires a.Valid() && b.Valid() && Silent(a.logPath) && Silent(b.logPath)
    ensures !(Networks(a) <= Networks(b)) <==> exists p :: p in a.authIps && p !in b.authIps
  {
    hide PathLines, UsersOf, NetsOf, Prefix.Text, Spec.Valid;
    forall p | p in a.authIps ensures p.Text() in Networks(a) && (p.Text() in Networks(b) <==> p in b.authIps) {
      KeepsNet(a, b, p);
    }
    if net :| net in Networks(a) && net !in Networks(b) {
      var p :| p in a.authIps && p.Text() == net;
    }
  }

  /** With silent log paths, a revocation is seen exactly when some account or prefix of the first
      is missing from the second. */
  lemma RevokesExactly(a: Spec, b: Spec)
    requires a.Valid() && b.Valid() && Silent(a.logPath) && Silent(b.logPath)
    ensures Revokes(ParseText(PrintAll(Program(a))), ParseText(PrintAll(Program(b)))) <==> TakesAway(a, b)
  {
    hide Spec.Valid, ParseText, PrintAll, Program, DropsUser, Accounts, Networks, Silent, Revokes;
    RevokesByAccounts(a, b);
    UsersDropped(a, b);
    NetsDropped(a, b);
  }

  /** What the comparison does not see: after a change that counts as no revocation, a
      request the old spec admitted is still admitted exactly when the new port list lets it through. */
  lemma UnrevokedStillServed(a: Spec, b: Spec, req: Request)
    requires a.Valid() && b.Valid() && Silent(b.logPath)
    requires !Revokes(ParseText(PrintAll(Program(a))), ParseText(PrintAll(Program(b))))
    requires SpecAdmits(a, req)
    ensures SpecAdmits(b, req) <==> b.policy.Admits(req.port)
  {
    RevokesByAccounts(a, b);
    StillListed(a, b);
    hide Revokes, ParseText, PrintAll, Program, ProxyPolicy.Admits, Prefix.Contains, ValidUsername, ValidPassword, Silent, Accounts, Networks;
  }

  lemma StillListed(a: Spec, b: Spec)
    requires a.Valid() && b.Valid() && Silent(b.logPath)
    requires !DropsUser(Accounts(a), Accounts(b)) && Networks(a) <= Networks(b)
    ensures (forall u :: u in a.users ==> u in b.users) && forall p :: p in a.authIps ==> p in b.authIps
  {
    hide PathLines, UsersOf, NetsOf, Prefix.Text, Spec.Valid, Accounts, Silent;
    OwnAccounts(a);
    forall u | u in a.users ensures u in b.users {
      KeepsUser(a, b, u);
      assert u.name in Accounts(a);
    }
    forall p | p in a.authIps ensures p in b.authIps {
      KeepsNet(a, b, p);
      assert p.Text() in Networks(a);
    }
  }

  /** So narrowing the ports alone never restarts the proxy, whoever it shuts out. */
  lemma NarrowerPortsPass(a: Spec, policy: ProxyPolicy)
    requires a.Valid() && policy.Valid()
    ensures a.(policy := policy).Valid()
    ensures !Revokes(ParseText(PrintAll(Program(a))), ParseText(PrintAll(Program(a.(policy := policy)))))
  {
    RevokesByAccounts(a, a.(policy := policy));
    hide ParseText, PrintAll, Program, Revokes, PathLines, UsersOf, NetsOf, Named;
  }

  // ---- a spec to show it on ----

  const PASSWORD := "0123456789abcdef"
  const ALL_PORTS := ProxyPolicy(true, [], 1, 0)
  const ONLY_443 := ProxyPolicy(false, [PortRange(443, 443)], 1, 0)

  /** One account, every port, on slot 1. */
  const SAMPLE := Spec(1, V4(10, 64, 0, 1), V4(192, 168, 101, 2), SocksPort(1), HttpPort(1),
                       [User("alice", PASSWORD)], UserPass, [], ALL_PORTS, [V4(192, 168, 101, 1)],
                       "proxy.log", "slot1.cfg", SlotUid(1), GROUP_GID)

  /** The same account under another name, and with fewer ports. */
  const RENAMED := SAMPLE.(users := [User("bob", PASSWORD)])
  const NARROWED := SAMPLE.(policy := ONLY_443)

  lemma PasswordValid()
    ensures ValidPassword(PASSWORD)
  {
  }

  lemma NamesValid()
    ensures ValidUsername("alice") && ValidUsername("bob")
  {
  }

  lemma SampleValid(sp: Spec, u: User)
    requires sp == SAMPLE.(users := [u]) || (sp == NARROWED && sp.users == [u])
    requires ValidUsername(u.name) && ValidPassword(u.password)
    ensures sp.Valid()
  {
    hide ValidUsername, ValidPassword, PASSWORD;
  }

  lemma SamplesValid()
    ensures SAMPLE.Valid() && RENAMED.Valid() && NARROWED.Valid() && '\n' !in SAMPLE.logPath
  {
    PasswordValid();
    NamesValid();
    hide Spec.Valid, ValidUsername, ValidPassword, PASSWORD;
    assert SAMPLE == SAMPLE.(users := [User("alice", PASSWORD)]);
    SampleValid(SAMPLE, User("alice", PASSWORD));
    SampleValid(NARROWED, User("alice", PASSWORD));
    SampleValid(RENAMED, User("bob", PASSWORD));
  }

  lemma RenamedTakesAway()
    ensures TakesAway(SAMPLE, RENAMED) && !TakesAway(SAMPLE, SAMPLE)
  {
    assert User("alice", PASSWORD) in SAMPLE.users && RENAMED.users[0].name != "alice";
  }

  lemma SampleAdmits(req: Request)
    requires SAMPLE.Valid() && NARROWED.Valid() && req.user == "alice" && req.port == 80
    ensures SpecAdmits(SAMPLE, req) && !SpecAdmits(NARROWED, req)
  {
    hide Spec.Valid, PASSWORD;
    assert SAMPLE.users[0] in SAMPLE.users && SAMPLE.users[0].name == req.user;
  }

  /** Alice browses port 80, the new ports leave her 443 only, and nothing is restarted. */
  lemma ShutOutWithoutRestart(req: Request)
    requires req.user == "alice" && req.port == 80
    ensures SAMPLE.Valid() && NARROWED.Valid() && SpecAdmits(SAMPLE, req) && !SpecAdmits(NARROWED, req)
    ensures !Revokes(ParseText(PrintAll(Program(SAMPLE))), ParseText(PrintAll(Program(NARROWED))))
  {
    hide Revokes, ParseText, PrintAll, Program, Spec.Valid, SpecAdmits;
    SamplesValid();
    PolicyValid();
    SampleAdmits(req);
    NarrowerPortsPass(SAMPLE, ONLY_443);
  }

  lemma PolicyValid()
    ensures ONLY_443.Valid() && NARROWED == SAMPLE.(policy := ONLY_443)
  {
  }
}
