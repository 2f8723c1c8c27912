/** The checks Render runs on its own output (internal/proxysup/render.go, Verify),
    each a scanner over the parsed lines proved against what it accepts. */
module ProxyVerify {
  import opened Wrappers
  import opened Text
  import opened Netip
  import opened Domain
  import opened ProxySpec
  import opened ProxyText
  import opened ProxyProgram

  predicate Has(lines: seq<Line>, k: Kind) { exists l :: l in lines && l.kind == k }

  // ---- global settings ----

  predicate GlobalLineOk(l: Line, sp: Spec) {
    match l.kind
    case Auth => !l.HasArg(AUTH_NONE) && (l.HasArg(AUTH_IP_ONLY) <==> sp.authMode.UsesIpList())
    case Internal => ParseAddr(l.Arg(0)) == Some(sp.internalIp)
    case LogFormat => Contains(l.Arg(0), "%e")
    case Timeouts => |l.Args()| == TIMEOUTS_COUNT
    case SetUid => l.Arg(0) == Itoa(SlotUid(sp.slot))
    case SetGid => l.Arg(0) == Itoa(GROUP_GID)
    case Daemon => false
    case _ => true
  }

  /** Only the last auth line decides whether strong authentication is on. */
  predicate LastAuthStrong(lines: seq<Line>) {
    exists i :: 0 <= i < |lines| && lines[i].kind.Auth? && lines[i].HasArg(AUTH_STRONG)
      && forall j :: i < j < |lines| ==> !lines[j].kind.Auth?
  }

  predicate GlobalsAccepted(lines: seq<Line>, sp: Spec) {
    && (forall l :: l in lines ==> GlobalLineOk(l, sp))
    && LastAuthStrong(lines)
    && Has(lines, Noforce) && Has(lines, Internal) && Has(lines, LogFormat)
    && Has(lines, Timeouts) && Has(lines, NServer)
  }

  function GlobalLineError(k: Kind, l: Line): RenderError {
    match k
    case Auth => if l.HasArg(AUTH_NONE) then NoAuthStrong else if l.HasArg(AUTH_IP_ONLY) then NoAuthStrong else NoAuthIps
    case Internal => NoInternal
    case LogFormat => NoLogFormat
    case Timeouts => BadTimeouts
    case SetUid => UidMismatch
    case SetGid => UidMismatch
    case _ => Invalid
  }

  method VerifyGlobals(lines: seq<Line>, sp: Spec) returns (r: Option<RenderError>)
    ensures r.None? <==> GlobalsAccepted(lines, sp)
  {
    hide GlobalLineOk, GlobalLineError, LastAuthStrong, Has, Line.HasArg;
    var sawStrong, sawNoforce, sawInternal, sawLogFormat, sawTimeouts, sawNServer := false, false, false, false, false, false;
    NoneSeen();
    var i := 0;
    while i < |lines|
      invariant 0 <= i <= |lines|
      invariant forall l :: l in lines[..i] ==> GlobalLineOk(l, sp)
      invariant sawStrong <==> LastAuthStrong(lines[..i])
      invariant sawNoforce <==> Has(lines[..i], Noforce)
      invariant sawInternal <==> Has(lines[..i], Internal)
      invariant sawLogFormat <==> Has(lines[..i], LogFormat)
      invariant sawTimeouts <==> Has(lines[..i], Timeouts)
      invariant sawNServer <==> Has(lines[..i], NServer)
    {
      var l := lines[i];
      assert l in lines;
      assert lines[..i + 1] == lines[..i] + [l];
      LastAuthStep(lines[..i], l);
      HasStep(lines[..i], l);
      if !GlobalLineOk(l, sp) {
        return Some(GlobalLineError(l.kind, l));
      }
      if l.kind.Auth? { sawStrong := l.HasArg(AUTH_STRONG); }
      else if l.kind.Noforce? { sawNoforce := true; }
      else if l.kind.Internal? { sawInternal := true; }
      else if l.kind.NServer? { sawNServer := true; }
      else if l.kind.LogFormat? { sawLogFormat := true; }
      else if l.kind.Timeouts? { sawTimeouts := true; }
      i := i + 1;
    }
    assert lines[..i] == lines;
    r := if !sawStrong then Some(NoAuthStrong)
         else if !sawNoforce then Some(NoNoforce)
         else if !sawInternal then Some(NoInternal)
         else if !sawLogFormat then Some(NoLogFormat)
         else if !sawTimeouts then Some(BadTimeouts)
         else if !sawNServer then Some(NoNServer)
         else None;
  }

  lemma NoneSeen()
    ensures !LastAuthStrong([]) && forall k :: !Has([], k)
  {
  }

  lemma HasStep(lines: seq<Line>, l: Line)
    ensures forall k :: Has(lines + [l], k) <==> Has(lines, k) || l.kind == k
  {
  }

  lemma LastAuthStep(lines: seq<Line>, l: Line)
    ensures LastAuthStrong(lines + [l]) <==> if l.kind.Auth? then l.HasArg(AUTH_STRONG) else LastAuthStrong(lines)
  {
    hide Line.HasArg;
    var more := lines + [l];
    var n := |lines|;
    assert more[n] == l;
    if l.kind.Auth? {
      if l.HasArg(AUTH_STRONG) {
        assert LastAuthStrong(more);
      }
    } else {
      if LastAuthStrong(lines) {
        var i :| 0 <= i < n && lines[i].kind.Auth? && lines[i].HasArg(AUTH_STRONG)
          && forall j :: i < j < n ==> !lines[j].kind.Auth?;
        assert more[i] == lines[i];
        assert forall j :: i < j < |more| ==> more[j] == if j < n then lines[j] else l;
      }
      if LastAuthStrong(more) {
        var i :| 0 <= i < |more| && more[i].kind.Auth? && more[i].HasArg(AUTH_STRONG)
          && forall j :: i < j < |more| ==> !more[j].kind.Auth?;
        assert i < n && lines[i] == more[i];
        assert forall j :: i < j < n ==> lines[j] == more[j];
      }
    }
  }

  // ---- credentials ----

  datatype Entry = Entry(name: string, typ: string, pass: string)

  function SplitUserEntry(s: string): Option<Entry> {
    var parts := Split(s, ':');
    if |parts| != 3 then None else Some(Entry(parts[0], parts[1], parts[2]))
  }

  predicate EntryOk(f: Field) {
    f.quoted
    && SplitUserEntry(f.text).Some?
    && var e := SplitUserEntry(f.text).value;
       e.typ == PASSWORD_TYPE && ValidUsername(e.name) && ValidPassword(e.pass)
  }

  /** What ConfigUsers collects from the arguments of one users line; the last entry wins. */
  function AddEntries(m: map<string, string>, fs: seq<Field>): map<string, string>
    decreases fs
  {
    if fs == [] then m
    else
      match SplitUserEntry(fs[0].text)
      case Some(e) => AddEntries(m[e.name := e.pass], fs[1..])
      case None => AddEntries(m, fs[1..])
  }

  function UsersOf(m: map<string, string>, lines: seq<Line>): map<string, string>
    decreases lines
  {
    if lines == [] then m
    else UsersOf(if lines[0].kind.Users? then AddEntries(m, lines[0].Args()) else m, lines[1..])
  }

  /** A missing key reads as the empty string. */
  function Lookup(m: map<string, string>, k: string): string { if k in m then m[k] else [] }

  predicate UsersAccepted(lines: seq<Line>, sp: Spec) {
    && (forall l, f :: l in lines && l.kind.Users? && f in l.Args() ==> EntryOk(f))
    && (sp.authMode.UsesUserPass() <==> UsersOf(map[], lines) != map[])
    && (forall u :: u in sp.users ==> Lookup(UsersOf(map[], lines), u.name) == u.password)
  }

  method VerifyUsers(lines: seq<Line>, sp: Spec) returns (r: Option<RenderError>)
    ensures r.None? <==> UsersAccepted(lines, sp)
  {
    var got: map<string, string> := map[];
    var i := 0;
    assert lines[0..] == lines;
    while i < |lines|
      invariant 0 <= i <= |lines|
      invariant UsersOf(map[], lines) == UsersOf(got, lines[i..])
      invariant forall l, f :: l in lines[..i] && l.kind.Users? && f in l.Args() ==> EntryOk(f)
    {
      var l := lines[i];
      assert l in lines;
      assert lines[i..][0] == l && lines[i..][1..] == lines[i + 1..];
      if l.kind.Users? {
        var args := l.Args();
        ghost var before := got;
        var j := 0;
        assert args[0..] == args;
        while j < |args|
          invariant 0 <= j <= |args|
          invariant AddEntries(before, args) == AddEntries(got, args[j..])
          invariant forall f :: f in args[..j] ==> EntryOk(f)
        {
          var f := args[j];
          assert f in l.Args() && (!EntryOk(f) ==> !UsersAccepted(lines, sp));
          assert args[j..][0] == f && args[j..][1..] == args[j + 1..];
          if !f.quoted {
            return Some(UnquotedUser);
          }
          var e := SplitUserEntry(f.text);
          if e.None? {
            return Some(UnquotedUser);
          }
          if e.value.typ != PASSWORD_TYPE {
            return Some(Invalid);
          }
          if !ValidUsername(e.value.name) {
            return Some(BadUsername);
          }
          if !ValidPassword(e.value.pass) {
            return Some(BadPassword);
          }
          got := got[e.value.name := e.value.pass];
          j := j + 1;
        }
        assert args[..j] == args && args[j..] == [];
      }
      assert lines[..i + 1] == lines[..i] + [l];
      i := i + 1;
    }
    assert lines[..i] == lines && lines[i..] == [];
    if sp.authMode.UsesUserPass() && got == map[] {
      return Some(NoUsers);
    }
    if !sp.authMode.UsesUserPass() && got != map[] {
      return Some(UsersUnused);
    }
    i := 0;
    while i < |sp.users|
      invariant 0 <= i <= |sp.users|
      invariant forall u :: u in sp.users[..i] ==> Lookup(got, u.name) == u.password
    {
      assert sp.users[i] in sp.users;
      if Lookup(got, sp.users[i].name) != sp.users[i].password {
        return Some(NoUsers);
      }
      assert sp.users[..i + 1] == sp.users[..i] + [sp.users[i]];
      i := i + 1;
    }
    assert sp.users[..i] == sp.users;
    r := None;
  }

  // ---- access blocks ----

  const OPERATIONS := [
    "CONNECT", "BIND", "UDPASSOC", "ICMPASSOC", "HTTP_GET", "HTTP_PUT", "HTTP_POST", "HTTP_HEAD",
    "HTTP_CONNECT", "HTTP_OTHER", "HTTP", "HTTPS", "FTP_GET", "FTP_PUT", "FTP_LIST", "FTP_DATA", "FTP"]

  predicate OperationListOk(ops: string) {
    ops == [] || ops == "*"
    || forall part :: part in Split(ops, ',') ==> TrimSpace(part) == [] || TrimSpace(part) in OPERATIONS
  }

  predicate OperationsOk(l: Line) {
    match l.kind
    case Allow => OperationListOk(l.Arg(4))
    case Deny => OperationListOk(l.Arg(4))
    case Rule(n) => OperationListOk(l.Arg(n))
    case _ => true
  }

  predicate BareDeny(l: Line) { l.kind.Deny? && l.Arg(0) == "*" && |l.Args()| == 1 }

  predicate UserAllowed(l: Line, name: string) { l.kind.Allow? && l.Arg(0) != "*" && l.Arg(0) == name }

  predicate NetAllowed(l: Line, net: string) { l.kind.Allow? && l.Arg(0) == "*" && l.Arg(1) == net }

  /** The index after the nearest flush before k, or 0 when there is none. */
  function BlockStart(lines: seq<Line>, k: nat): (b: nat)
    requires k <= |lines|
    ensures b <= k
    ensures b > 0 ==> lines[b - 1].kind.Flush?
    ensures forall i :: b <= i < k ==> !lines[i].kind.Flush?
  {
    if k == 0 then 0 else if lines[k - 1].kind.Flush? then k else BlockStart(lines, k - 1)
  }

  predicate DeniedBefore(lines: seq<Line>, k: nat)
    requires k <= |lines|
  {
    exists d :: BlockStart(lines, k) <= d < k && BareDeny(lines[d])
  }

  predicate ServedBefore(lines: seq<Line>, k: nat)
    requires k <= |lines|
  {
    exists s :: BlockStart(lines, k) <= s < k && lines[s].kind.Service()
  }

  predicate UserIn(lines: seq<Line>, k: nat, name: string)
    requires k <= |lines|
  {
    exists a :: BlockStart(lines, k) <= a < k && UserAllowed(lines[a], name)
  }

  predicate NetIn(lines: seq<Line>, k: nat, net: string)
    requires k <= |lines|
  {
    exists a :: BlockStart(lines, k) <= a < k && NetAllowed(lines[a], net)
  }

  /** The block of the service at k: its own flush, a bare deny of everyone, and an
      allow for every user and every network the spec requires. */
  ghost predicate Guarded(lines: seq<Line>, k: nat, sp: Spec)
    requires k <= |lines|
  {
    && BlockStart(lines, k) > 0 && !ServedBefore(lines, k)
    && DeniedBefore(lines, k)
    && (sp.authMode.UsesUserPass() ==> forall u :: u in sp.users ==> UserIn(lines, k, u.name))
    && (sp.authMode.UsesIpList() ==>
          && (exists net :: NetIn(lines, k, net))
          && forall p :: p in sp.authIps ==> NetIn(lines, k, p.Text()))
  }

  function Services(lines: seq<Line>): set<int> { set i | 0 <= i < |lines| && lines[i].kind.Service() }

  ghost predicate LineAccepted(lines: seq<Line>, i: nat, sp: Spec)
    requires i < |lines|
  {
    && OperationsOk(lines[i])
    && (lines[i].kind.Allow? ==> !DeniedBefore(lines, i))
    && (lines[i].kind.Service() ==> Guarded(lines, i, sp))
  }

  ghost predicate BlocksAccepted(lines: seq<Line>, sp: Spec) {
    && (forall i :: 0 <= i < |lines| ==> LineAccepted(lines, i, sp))
    && |Services(lines)| == 2
  }

  method VerifyRequired(lines: seq<Line>, ghost k: nat, users: set<string>, nets: set<string>, sp: Spec)
    returns (r: Option<RenderError>)
    requires k <= |lines|
    requires forall n :: n in users <==> UserIn(lines, k, n)
    requires forall n :: n in nets <==> NetIn(lines, k, n)
    ensures r.None? <==>
            && (sp.authMode.UsesUserPass() ==> forall u :: u in sp.users ==> UserIn(lines, k, u.name))
            && (sp.authMode.UsesIpList() ==>
                  && (exists net :: NetIn(lines, k, net))
                  && forall p :: p in sp.authIps ==> NetIn(lines, k, p.Text()))
    ensures r.Some? ==> r.value == NoUsers || r.value == NoAuthIps
  {
    hide UserIn, NetIn, Prefix.Text;
    if sp.authMode.UsesUserPass() {
      var i := 0;
      while i < |sp.users|
        invariant 0 <= i <= |sp.users|
        invariant forall j :: 0 <= j < i ==> UserIn(lines, k, sp.users[j].name)
      {
        assert sp.users[i] in sp.users;
        if sp.users[i].name !in users {
          return Some(NoUsers);
        }
        i := i + 1;
      }
    }
    if sp.authMode.UsesIpList() {
      if nets == {} {
        assert forall net :: !NetIn(lines, k, net);
        return Some(NoAuthIps);
      }
      var i := 0;
      while i < |sp.authIps|
        invariant 0 <= i <= |sp.authIps|
        invariant forall p :: p in sp.authIps[..i] ==> p in sp.authIps && NetIn(lines, k, p.Text())
      {
        assert sp.authIps[i] in sp.authIps;
        if sp.authIps[i].Text() !in nets {
          return Some(NoAuthIps);
        }
        assert sp.authIps[..i + 1] == sp.authIps[..i] + [sp.authIps[i]];
        i := i + 1;
      }
      assert sp.authIps[..i] == sp.authIps;
      var net :| net in nets;
      assert NetIn(lines, k, net);
    }
    r := None;
  }

  lemma ServicesStep(lines: seq<Line>, i: nat)
    requires i < |lines|
    ensures |Services(lines[..i + 1])| == |Services(lines[..i])| + if lines[i].kind.Service() then 1 else 0
  {
    if lines[i].kind.Service() {
      assert Services(lines[..i + 1]) == Services(lines[..i]) + {i as int};
    } else {
      assert Services(lines[..i + 1]) == Services(lines[..i]);
    }
  }

  method VerifyAclBlocks(lines: seq<Line>, sp: Spec) returns (r: Option<RenderError>)
    ensures r.None? <==> BlocksAccepted(lines, sp)
  {
    hide Guarded, OperationListOk, DeniedBefore, ServedBefore, UserIn, NetIn, BlockStart, Services;
    var sawFlush, sawDenyAll := false, false;
    var users: set<string>, nets: set<string> := {}, {};
    var blocks := 0;
    var i := 0;
    BlockEmpty(lines);
    while i < |lines|
      invariant 0 <= i <= |lines|
      invariant sawFlush <==> BlockStart(lines, i) > 0 && !ServedBefore(lines, i)
      invariant sawDenyAll <==> DeniedBefore(lines, i)
      invariant forall n :: n in users <==> UserIn(lines, i, n)
      invariant forall n :: n in nets <==> NetIn(lines, i, n)
      invariant blocks == |Services(lines[..i])|
      invariant forall j :: 0 <= j < i ==> LineAccepted(lines, j, sp)
    {
      var l := lines[i];
      ServicesStep(lines, i);
      if l.kind.Flush? {
        sawFlush, sawDenyAll, users, nets := true, false, {}, {};
      } else if l.kind.Access() {
        if !OperationsOk(l) {
          assert !LineAccepted(lines, i, sp);
          return Some(BadOperation);
        }
        if BareDeny(l) {
          sawDenyAll := true;
        }
        if l.kind.Allow? {
          if sawDenyAll {
            assert !LineAccepted(lines, i, sp);
            return Some(NoDenyAll);
          }
          if l.Arg(0) == "*" {
            nets := nets + {l.Arg(1)};
          } else {
            users := users + {l.Arg(0)};
          }
        }
      } else if l.kind.Service() {
        r := VerifyService(lines, i, sawFlush, sawDenyAll, users, nets, sp);
        if r.Some? {
          assert !LineAccepted(lines, i, sp);
          return;
        }
        blocks, sawFlush := blocks + 1, false;
      }
      BlockStep(lines, i);
      i := i + 1;
    }
    assert lines[..i] == lines;
    r := if blocks != 2 then Some(Invalid) else None;
  }

  method VerifyService(lines: seq<Line>, ghost k: nat, sawFlush: bool, sawDenyAll: bool, users: set<string>, nets: set<string>, sp: Spec)
    returns (r: Option<RenderError>)
    requires k < |lines|
    requires sawFlush <==> BlockStart(lines, k) > 0 && !ServedBefore(lines, k)
    requires sawDenyAll <==> DeniedBefore(lines, k)
    requires forall n :: n in users <==> UserIn(lines, k, n)
    requires forall n :: n in nets <==> NetIn(lines, k, n)
    ensures r.None? <==> Guarded(lines, k, sp)
    ensures !sawFlush ==> r == Some(NoFlush)
    ensures sawFlush && !sawDenyAll ==> r == Some(NoDenyAll)
  {
    if !sawFlush {
      return Some(NoFlush);
    }
    if !sawDenyAll {
      return Some(NoDenyAll);
    }
    r := VerifyRequired(lines, k, users, nets, sp);
  }

  lemma BlockEmpty(lines: seq<Line>)
    ensures BlockStart(lines, 0) == 0 && !DeniedBefore(lines, 0) && !ServedBefore(lines, 0)
    ensures forall n :: !UserIn(lines, 0, n) && !NetIn(lines, 0, n)
    ensures Services(lines[..0]) == {}
  {
  }

  /** How the facts about the current block change over one line. */
  lemma BlockStep(lines: seq<Line>, i: nat)
    requires i < |lines|
    ensures lines[i].kind.Flush? ==>
              var k := i + 1;
              && BlockStart(lines, k) == k && !DeniedBefore(lines, k) && !ServedBefore(lines, k)
              && (forall n :: !UserIn(lines, k, n)) && (forall n :: !NetIn(lines, k, n))
    ensures !lines[i].kind.Flush? ==>
              && BlockStart(lines, i + 1) == BlockStart(lines, i)
              && (DeniedBefore(lines, i + 1) <==> DeniedBefore(lines, i) || BareDeny(lines[i]))
              && (ServedBefore(lines, i + 1) <==> ServedBefore(lines, i) || lines[i].kind.Service())
              && (forall n :: UserIn(lines, i + 1, n) <==> UserIn(lines, i, n) || UserAllowed(lines[i], n))
              && (forall n :: NetIn(lines, i + 1, n) <==> NetIn(lines, i, n) || NetAllowed(lines[i], n))
  {
    if !lines[i].kind.Flush? {
      var b := BlockStart(lines, i);
      assert BareDeny(lines[i]) ==> DeniedBefore(lines, i + 1);
      assert lines[i].kind.Service() ==> ServedBefore(lines, i + 1);
      forall n ensures UserIn(lines, i + 1, n) <==> UserIn(lines, i, n) || UserAllowed(lines[i], n) {
        if UserIn(lines, i, n) {
          var a :| b <= a < i && UserAllowed(lines[a], n);
          assert UserIn(lines, i + 1, n);
        }
      }
      forall n ensures NetIn(lines, i + 1, n) <==> NetIn(lines, i, n) || NetAllowed(lines[i], n) {
        if NetIn(lines, i, n) {
          var a :| b <= a < i && NetAllowed(lines[a], n);
          assert NetIn(lines, i + 1, n);
        }
      }
    }
  }

  // ---- services ----

  predicate ServiceArgOk(a: string, port: int) {
    a == ANON_FLAG
    || (!(ANON_FLAG <= a) && (a == FAMILY_FLAG || ("-p" <= a ==> Atoi(a[2..]) == Some(port))))
  }

  predicate TextIn(fs: seq<Field>, s: string) { exists f :: f in fs && f.text == s }

  predicate PortIn(fs: seq<Field>) { exists f :: f in fs && "-p" <= f.text }

  predicate ServiceOk(l: Line, port: int) {
    && (forall f :: f in l.Args() ==> ServiceArgOk(f.text, port))
    && TextIn(l.Args(), ANON_FLAG) && TextIn(l.Args(), FAMILY_FLAG) && PortIn(l.Args())
  }

  predicate ServicesAccepted(lines: seq<Line>, sp: Spec) {
    && (forall l :: l in lines && l.kind.Proxy? ==> ServiceOk(l, sp.httpPort))
    && (forall l :: l in lines && l.kind.Socks? ==> ServiceOk(l, sp.socksPort))
    && Has(lines, Proxy) && Has(lines, Socks)
  }

  method VerifyServiceLine(l: Line, port: int) returns (r: Option<RenderError>)
    ensures r.None? <==> ServiceOk(l, port)
  {
    hide ANON_FLAG, FAMILY_FLAG, TextIn, PortIn;
    var args := l.Args();
    var sawPort, sawAnon, sawFamily := false, false, false;
    var i := 0;
    NoTexts();
    while i < |args|
      invariant 0 <= i <= |args|
      invariant forall f :: f in args[..i] ==> ServiceArgOk(f.text, port)
      invariant sawAnon <==> TextIn(args[..i], ANON_FLAG)
      invariant sawFamily <==> TextIn(args[..i], FAMILY_FLAG)
      invariant sawPort <==> PortIn(args[..i])
    {
      assert args[i] in l.Args();
      assert args[..i + 1] == args[..i] + [args[i]];
      TextStep(args[..i], args[i]);
      var a := args[i].text;
      FlagsDiffer(a);
      if a == ANON_FLAG {
        sawAnon := true;
      } else if ANON_FLAG <= a {
        return Some(BadAnonFlag);
      } else if a == FAMILY_FLAG {
        sawFamily := true;
      } else if "-p" <= a {
        if Atoi(a[2..]) != Some(port) {
          return Some(PortMismatch);
        }
        sawPort := true;
      }
      i := i + 1;
    }
    assert args[..i] == args;
    if !sawAnon {
      return Some(BadAnonFlag);
    }
    if !sawPort {
      return Some(PortMismatch);
    }
    if !sawFamily {
      return Some(Invalid);
    }
    r := None;
  }

  lemma NoTexts()
    ensures !PortIn([]) && forall s :: !TextIn([], s)
  {
  }

  lemma TextStep(fs: seq<Field>, f: Field)
    ensures forall s :: TextIn(fs + [f], s) <==> TextIn(fs, s) || f.text == s
    ensures PortIn(fs + [f]) <==> PortIn(fs) || "-p" <= f.text
  {
  }

  lemma FlagsDiffer(a: string)
    ensures a == ANON_FLAG ==> a != FAMILY_FLAG && !("-p" <= a)
    ensures a == FAMILY_FLAG ==> !("-p" <= a)
  {
    if a == ANON_FLAG { assert a[1] == 'a'; }
    if a == FAMILY_FLAG { assert a[1] == '4'; }
    if "-p" <= a { assert "-p"[1] == a[1]; }
  }

  method VerifyServices(lines: seq<Line>, sp: Spec) returns (r: Option<RenderError>)
    ensures r.None? <==> ServicesAccepted(lines, sp)
  {
    hide ServiceOk;
    var sawProxy, sawSocks := false, false;
    var i := 0;
    while i < |lines|
      invariant 0 <= i <= |lines|
      invariant forall j :: 0 <= j < i && lines[j].kind.Proxy? ==> ServiceOk(lines[j], sp.httpPort)
      invariant forall j :: 0 <= j < i && lines[j].kind.Socks? ==> ServiceOk(lines[j], sp.socksPort)
      invariant sawProxy <==> exists j :: 0 <= j < i && lines[j].kind.Proxy?
      invariant sawSocks <==> exists j :: 0 <= j < i && lines[j].kind.Socks?
    {
      var l := lines[i];
      assert l in lines;
      if l.kind.Service() {
        r := VerifyServiceLine(l, if l.kind.Proxy? then sp.httpPort else sp.socksPort);
        if r.Some? {
          return;
        }
        if l.kind.Proxy? {
          sawProxy := true;
        } else {
          sawSocks := true;
        }
      }
      i := i + 1;
    }
    r := if !sawProxy || !sawSocks then Some(Invalid) else None;
  }

  // ---- the whole check ----

  ghost predicate Accepted(lines: seq<Line>, sp: Spec) {
    && GlobalsAccepted(lines, sp)
    && UsersAccepted(lines, sp)
    && BlocksAccepted(lines, sp)
    && ServicesAccepted(lines, sp)
  }

  method Verify(cfg: string, sp: Spec) returns (r: Option<RenderError>)
    ensures r.None? <==> Accepted(ParseText(cfg), sp)
  {
    var lines := Parse(cfg);
    r := VerifyGlobals(lines, sp);
    if r.Some? { return; }
    r := VerifyUsers(lines, sp);
    if r.Some? { return; }
    r := VerifyAclBlocks(lines, sp);
    if r.Some? { return; }
    r := VerifyServices(lines, sp);
  }

  lemma TwoOnly(s: set<int>, i: int, j: int)
    requires |s| == 2 && i in s && j in s && i != j
    ensures s == {i, j}
  {
    var rest := s - {i} - {j};
    assert s == rest + {i, j};
    assert |rest| == 0;
  }

  /** Soundness on arbitrary text: an accepted config has exactly one proxy and one socks
      service, on the spec's ports, each behind its own block that ends in deny-all. */
  lemma AcceptedIsGuarded(cfg: string, sp: Spec)
    requires Accepted(ParseText(cfg), sp)
    ensures var lines := ParseText(cfg);
            exists p, s :: 0 <= p < |lines| && 0 <= s < |lines| && Services(lines) == {p, s}
              && lines[p].kind.Proxy? && ServiceOk(lines[p], sp.httpPort) && Guarded(lines, p, sp)
              && lines[s].kind.Socks? && ServiceOk(lines[s], sp.socksPort) && Guarded(lines, s, sp)
    ensures var lines := ParseText(cfg);
            forall k, d, a :: 0 <= k < |lines| && lines[k].kind.Service() ==>
              BlockStart(lines, k) <= d < a < k && BareDeny(lines[d]) ==> !lines[a].kind.Allow?
  {
    hide ServiceOk, Guarded, OperationsOk, GlobalsAccepted, UsersAccepted, ParseText;
    var lines := ParseText(cfg);
    var lp :| lp in lines && lp.kind == Proxy;
    var ls :| ls in lines && ls.kind == Socks;
    var p :| 0 <= p < |lines| && lines[p] == lp;
    var s :| 0 <= s < |lines| && lines[s] == ls;
    TwoOnly(Services(lines), p, s);
    assert LineAccepted(lines, p, sp) && LineAccepted(lines, s, sp);
    forall k, d, a | 0 <= k < |lines| && lines[k].kind.Service()
      && BlockStart(lines, k) <= d < a < k && BareDeny(lines[d])
      ensures !lines[a].kind.Allow?
    {
      SameBlock(lines, a, k);
      assert LineAccepted(lines, a, sp);
      assert lines[a].kind.Allow? ==> !DeniedBefore(lines, a);
    }
  }

  lemma {:induction false} SameBlock(lines: seq<Line>, a: nat, k: nat)
    requires k <= |lines| && BlockStart(lines, k) <= a <= k
    ensures BlockStart(lines, a) == BlockStart(lines, k)
    decreases k
  {
    if a < k {
      SameBlock(lines, a, k - 1);
    }
  }
}
