/** What a proxy config is rendered from, and when it is acceptable
    (internal/proxysup/spec.go, contract.go). */
module ProxySpec {
  import opened Wrappers
  import opened Netip
  import opened Domain

  const PASSWORD_LEN := 16
  const MAX_USERS := 64
  const MAX_AUTH_IPS := 256
  const MAX_CONN_FLOOR := 1

  datatype RenderError =
    | BadSlot | BadAddr | PortMismatch | UidMismatch | BadPath | BadAuthMode | NoNServer
    | NoUsers | UsersUnused | Invalid | BadUsername | BadPassword | NoAuthIps | BadAuthIp
    | NoAuthStrong | NoNoforce | NoInternal | NoLogFormat | BadTimeouts
    | NoDenyAll | NoFlush | BadAnonFlag | UnquotedUser | BadOperation

  datatype User = User(name: string, password: string)

  /** What is known of a slot's proxy unit. */
  datatype Status = Status(running: bool, socksBound: bool, httpBound: bool, probeOk: bool)
  {
    predicate Healthy() { socksBound && httpBound && probeOk }
  }

  predicate IsAlnum(c: char) { 'a' <= c <= 'z' || 'A' <= c <= 'Z' || '0' <= c <= '9' }

  predicate IsNameChar(c: char) { IsAlnum(c) || c == '_' || c == '-' || c == '.' }

  predicate ValidUsername(s: string) { 1 <= |s| <= 63 && forall c :: c in s ==> IsNameChar(c) }

  predicate ValidPassword(s: string) { |s| == PASSWORD_LEN && forall c :: c in s ==> IsAlnum(c) }

  datatype Spec = Spec(
    slot: int,
    internalIp: Addr,
    externalIp: Addr,
    socksPort: int,
    httpPort: int,
    users: seq<User>,
    authMode: AuthMode,
    authIps: seq<Prefix>,
    policy: ProxyPolicy,
    nservers: seq<Addr>,
    logPath: string,
    configPath: string,
    uid: int,
    gid: int)
  {
    predicate ValidUsers() {
      && (authMode.UsesUserPass() <==> users != [])
      && |users| <= MAX_USERS
      && (forall u :: u in users ==> ValidUsername(u.name) && ValidPassword(u.password))
      && (forall i, j :: 0 <= i < j < |users| ==> users[i].name != users[j].name)
    }

    predicate ValidAuthIps() {
      && (authMode.UsesIpList() <==> authIps != [])
      && |authIps| <= MAX_AUTH_IPS
      && (forall p :: p in authIps ==> p.Valid4() && p.Masked())
    }

    predicate Valid() {
      && ValidSlot(slot)
      && internalIp.Is4() && externalIp.Is4()
      && socksPort == SocksPort(slot) && httpPort == HttpPort(slot)
      && uid == SlotUid(slot) && gid == GROUP_GID
      && configPath != [] && logPath != []
      && authMode.Valid()
      && nservers != [] && (forall a :: a in nservers ==> a.Is4())
      && ValidUsers()
      && ValidAuthIps()
      && policy.Valid()
    }
  }

  method ValidateUsers(sp: Spec) returns (r: Option<RenderError>)
    ensures r.None? <==> sp.ValidUsers()
  {
    if sp.authMode.UsesUserPass() && sp.users == [] {
      return Some(NoUsers);
    }
    if !sp.authMode.UsesUserPass() && sp.users != [] {
      return Some(UsersUnused);
    }
    if |sp.users| > MAX_USERS {
      return Some(Invalid);
    }
    var seen: set<string> := {};
    var i := 0;
    while i < |sp.users|
      invariant 0 <= i <= |sp.users|
      invariant seen == set j | 0 <= j < i :: sp.users[j].name
      invariant forall j :: 0 <= j < i ==> ValidUsername(sp.users[j].name) && ValidPassword(sp.users[j].password)
      invariant forall j, k :: 0 <= j < k < i ==> sp.users[j].name != sp.users[k].name
    {
      var u := sp.users[i];
      assert u in sp.users;
      if !ValidUsername(u.name) {
        return Some(BadUsername);
      }
      if !ValidPassword(u.password) {
        return Some(BadPassword);
      }
      if u.name in seen {
        return Some(Invalid);
      }
      seen := seen + {u.name};
      i := i + 1;
    }
    r := None;
  }

  method ValidateAuthIps(sp: Spec) returns (r: Option<RenderError>)
    ensures r.None? <==> sp.ValidAuthIps()
  {
    if sp.authMode.UsesIpList() && sp.authIps == [] {
      return Some(NoAuthIps);
    }
    if !sp.authMode.UsesIpList() && sp.authIps != [] {
      return Some(Invalid);
    }
    if |sp.authIps| > MAX_AUTH_IPS {
      return Some(Invalid);
    }
    var i := 0;
    while i < |sp.authIps|
      invariant 0 <= i <= |sp.authIps|
      invariant forall j :: 0 <= j < i ==> sp.authIps[j].Valid4() && sp.authIps[j].Masked()
    {
      var p := sp.authIps[i];
      assert p in sp.authIps;
      if !p.Valid4() || !p.Masked() {
        return Some(BadAuthIp);
      }
      i := i + 1;
    }
    r := None;
  }

  /** Spec.Validate accepts exactly the valid specs. */
  method Validate(sp: Spec) returns (r: Option<RenderError>)
    ensures r.None? <==> sp.Valid()
  {
    if !ValidSlot(sp.slot) {
      return Some(BadSlot);
    }
    if !sp.internalIp.Is4() || !sp.externalIp.Is4() {
      return Some(BadAddr);
    }
    if sp.socksPort != SocksPort(sp.slot) || sp.httpPort != HttpPort(sp.slot) {
      return Some(PortMismatch);
    }
    if sp.uid != SlotUid(sp.slot) || sp.gid != GROUP_GID {
      return Some(UidMismatch);
    }
    if sp.configPath == [] || sp.logPath == [] {
      return Some(BadPath);
    }
    if !sp.authMode.Valid() {
      return Some(BadAuthMode);
    }
    if sp.nservers == [] {
      return Some(NoNServer);
    }
    var i := 0;
    while i < |sp.nservers|
      invariant 0 <= i <= |sp.nservers|
      invariant forall j :: 0 <= j < i ==> sp.nservers[j].Is4()
    {
      assert sp.nservers[i] in sp.nservers;
      if !sp.nservers[i].Is4() {
        return Some(BadAddr);
      }
      i := i + 1;
    }
    r := ValidateUsers(sp);
    if r.Some? {
      return;
    }
    r := ValidateAuthIps(sp);
    if r.Some? {
      return;
    }
    if !sp.policy.Valid() {
      return Some(Invalid);
    }
    if sp.policy.maxConn < MAX_CONN_FLOOR {
      assert false;
      return Some(Invalid);
    }
    r := None;
  }
}
