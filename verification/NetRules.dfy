/** Keeping policy routing rules against the kernel's own list (internal/netcfg/linux/manager.go,
    ensureGlobal, slotRuleSpecs, countMatchingRules, RemoveSlot; observe.go, Rules). The list
    that is read holds the rules of both address families, while a command that names no
    address works on the IPv4 ones only. */
module NetRules {
  import opened Wrappers
  import opened Netip
  import opened Domain

  const TABLE_MAIN := 254
  const NO_UID := -1

  /** One kernel rule as it is read back; `rest` stands for everything this program does not
      look at. The family is not part of what it looks at either. */
  datatype Rule = Rule(priority: int, src: Option<Prefix>, iif: string, table: int, uidLo: int, uidHi: int, inet6: bool, rest: int)

  /** The rules one kind of deletion is meant for. */
  datatype Spec = AtPriority(priority: int) | SrcRule(slot: int) | UidRule(slot: int)
  {
    /** How this program tells, which never asks for the family. */
    predicate Matches(r: Rule) {
      match this
      case AtPriority(p) => r.priority == p
      case SrcRule(s) =>
        ValidSlot(s) && r.priority == RulePrioSrc(s) && r.table == RouteTable(s) && r.src == Some(Prefix(HostIp(s), 32))
      case UidRule(s) =>
        r.priority == RulePrioUid(s) && r.table == RouteTable(s) && r.uidLo == SlotUid(s) && r.uidHi == SlotUid(s)
    }

    /** How the kernel tells: `ip rule del` without -6 reaches IPv4 rules. */
    predicate Hits(r: Rule) { Matches(r) && !r.inet6 }
  }

  datatype NetError = NoPublicHost | BadPublicHost | InvalidSlot | Unreadable | CommandFailed

  function BitLen(a: Addr): int { if a.V4? then 32 else 128 }

  predicate LocalOnly(h: Addr)
    requires h.V4?
  {
    h.a == 127 || (h.a == 169 && h.b == 254) || 224 <= h.a <= 239
  }

  /** Not absent, unspecified, loopback, link-local or multicast. */
  predicate ValidPublicHost(h: Addr) {
    match h
    case NoAddr => false
    case V4(_, _, _, _) => h != V4(0, 0, 0, 0) && !LocalOnly(h)
    case Mapped(_, _, _, _) => !LocalOnly(h.Unmap())
    case V6(hi, lo) => !(hi == 0 && lo <= 1) && hi / 0x100_0000_0000_0000 != 0xff && hi / 0x40_0000_0000_0000 != 0x3fa
  }

  predicate IsPublic(r: Rule) {
    r.src.Some? && r.src.value.bits == BitLen(r.src.value.addr) && r.iif == "lo" && r.table == TABLE_MAIN
  }

  /** The rule added for a host, as it is read back: the source of an IPv4-mapped one is lost. */
  function PublicRule(h: Addr): Rule {
    Rule(RULE_PRIO_PUBLIC, if h.Mapped? then None else Some(Prefix(h, BitLen(h))), "lo", TABLE_MAIN, NO_UID, NO_UID,
         !h.V4?, if h.Mapped? then h.Unmap().Number() + 1 else 0)
  }

  lemma RuleNamesHost(h: Addr, k: Addr)
    requires PublicRule(h) == PublicRule(k)
    ensures h == k
  {
    if h.Mapped? && k.Mapped? {
      NumberInjective(h.Unmap(), k.Unmap());
    }
  }

  /** Sources are read unmapped. */
  predicate AsRead(rules: seq<Rule>) { forall r :: r in rules && r.src.Some? ==> !r.src.value.addr.Mapped? }

  predicate NoMapped(hosts: seq<Addr>) { forall h :: h in hosts ==> !h.Mapped? }

  // ---- rule lists ----

  function Count(rules: seq<Rule>, m: Spec): nat {
    if rules == [] then 0 else (if m.Matches(rules[0]) then 1 else 0) + Count(rules[1..], m)
  }

  function HitCount(rules: seq<Rule>, m: Spec): nat {
    if rules == [] then 0 else (if m.Hits(rules[0]) then 1 else 0) + HitCount(rules[1..], m)
  }

  /** The rules a deletion does not reach, in order. */
  function Others(rules: seq<Rule>, m: Spec): seq<Rule> {
    if rules == [] then [] else (if m.Hits(rules[0]) then [] else [rules[0]]) + Others(rules[1..], m)
  }

  function At(rules: seq<Rule>, p: int): seq<Rule> {
    if rules == [] then [] else (if rules[0].priority == p then [rules[0]] else []) + At(rules[1..], p)
  }

  /** The kernel deletes the first rule the command reaches. */
  function DelFirst(rules: seq<Rule>, m: Spec): seq<Rule> {
    if rules == [] then [] else if m.Hits(rules[0]) then rules[1..] else [rules[0]] + DelFirst(rules[1..], m)
  }

  function InsertedAt(rules: seq<Rule>, i: nat, r: Rule): seq<Rule>
    requires i <= |rules|
  {
    rules[..i] + [r] + rules[i..]
  }

  lemma {:induction false} DelFirstEffect(rules: seq<Rule>, m: Spec)
    ensures Others(DelFirst(rules, m), m) == Others(rules, m)
    ensures HitCount(DelFirst(rules, m), m) == if HitCount(rules, m) == 0 then 0 else HitCount(rules, m) - 1
    ensures HitCount(rules, m) == 0 ==> DelFirst(rules, m) == rules == Others(rules, m)
  {
    hide Spec.Hits;
    if rules != [] {
      DelFirstEffect(rules[1..], m);
      assert [rules[0]] + rules[1..] == rules;
    }
  }

  lemma {:induction false} HitsWithinCount(rules: seq<Rule>, m: Spec)
    ensures HitCount(rules, m) <= Count(rules, m)
  {
    if rules != [] {
      HitsWithinCount(rules[1..], m);
    }
  }

  lemma {:induction false} FewerHits(rules: seq<Rule>, a: Spec, b: Spec)
    ensures HitCount(Others(rules, a), b) <= HitCount(rules, b)
  {
    hide Spec.Hits;
    if rules != [] {
      FewerHits(rules[1..], a, b);
      var rest := Others(rules[1..], a);
      assert ([rules[0]] + rest)[1..] == rest && [] + rest == rest;
    }
  }

  lemma OthersCons(r: Rule, rest: seq<Rule>, m: Spec)
    ensures Others([r] + rest, m) == (if m.Hits(r) then [] else [r]) + Others(rest, m)
  {
    hide Spec.Hits;
    assert ([r] + rest)[1..] == rest;
  }

  lemma {:induction false} OthersCommute(rules: seq<Rule>, a: Spec, b: Spec)
    ensures Others(Others(rules, a), b) == Others(Others(rules, b), a)
    ensures Others(Others(rules, a), a) == Others(rules, a)
  {
    hide Spec.Hits;
    if rules != [] {
      OthersCommute(rules[1..], a, b);
      var r, x, y := rules[0], Others(rules[1..], a), Others(rules[1..], b);
      assert rules == [r] + rules[1..] && [] + x == x && [] + y == y;
      OthersCons(r, rules[1..], a);
      OthersCons(r, rules[1..], b);
      OthersCons(r, x, a);
      OthersCons(r, x, b);
      OthersCons(r, y, a);
      hide Others;
    }
  }

  lemma {:induction false} OthersMembers(rules: seq<Rule>, m: Spec)
    ensures forall r :: r in Others(rules, m) <==> r in rules && !m.Hits(r)
  {
    hide Spec.Hits;
    if rules != [] {
      OthersMembers(rules[1..], m);
      assert rules == [rules[0]] + rules[1..];
    }
  }

  lemma {:induction false} DelFirstAt(rules: seq<Rule>, p: int, q: int)
    requires p != q
    ensures At(DelFirst(rules, AtPriority(p)), q) == At(rules, q)
  {
    if rules != [] {
      DelFirstAt(rules[1..], p, q);
      var rest := DelFirst(rules[1..], AtPriority(p));
      assert ([rules[0]] + rest)[1..] == rest;
    }
  }

  lemma AtCons(r: Rule, rest: seq<Rule>, p: int)
    ensures At([r] + rest, p) == (if r.priority == p then [r] else []) + At(rest, p)
  {
    assert ([r] + rest)[1..] == rest;
  }

  lemma {:induction false} AtConcat(a: seq<Rule>, b: seq<Rule>, p: int)
    ensures At(a + b, p) == At(a, p) + At(b, p)
  {
    if a == [] {
      assert a + b == b && At([], p) == [];
      assert [] + At(b, p) == At(b, p);
    } else {
      hide At;
      AtConcat(a[1..], b, p);
      assert a == [a[0]] + a[1..] && a + b == [a[0]] + (a[1..] + b);
      AtCons(a[0], a[1..], p);
      AtCons(a[0], a[1..] + b, p);
    }
  }

  lemma AtOne(r: Rule, p: int)
    ensures At([r], p) == if r.priority == p then [r] else []
  {
    assert [r][1..] == [];
  }

  lemma AtInserted(rules: seq<Rule>, i: nat, r: Rule, p: int)
    requires i <= |rules|
    ensures At(InsertedAt(rules, i, r), p) == At(rules[..i], p) + (if r.priority == p then [r] else []) + At(rules[i..], p)
    ensures At(rules, p) == At(rules[..i], p) + At(rules[i..], p)
    ensures r.priority != p ==> At(InsertedAt(rules, i, r), p) == At(rules, p)
    ensures forall x :: x in InsertedAt(rules, i, r) <==> x in rules || x == r
  {
    AtConcat(rules[..i], [r], p);
    AtConcat(rules[..i] + [r], rules[i..], p);
    AtOne(r, p);
    AtConcat(rules[..i], rules[i..], p);
    assert rules == rules[..i] + rules[i..];
  }

  lemma {:induction false} AtMembers(rules: seq<Rule>, p: int)
    ensures forall r :: r in At(rules, p) <==> r in rules && r.priority == p
    ensures Count(rules, AtPriority(p)) == |At(rules, p)|
  {
    if rules != [] {
      AtMembers(rules[1..], p);
      assert rules == [rules[0]] + rules[1..];
    }
  }

  // ---- the kernel ----

  class Kernel {
    var rules: seq<Rule>
    var commands: nat
    /** Which commands fail for reasons of their own, by number, and where an added rule ends up. */
    const fails: nat -> bool
    const place: nat -> nat

    constructor (rules: seq<Rule>, fails: nat -> bool, place: nat -> nat)
      ensures this.rules == rules && commands == 0 && this.fails == fails
    {
      this.rules, this.fails, this.place, commands := rules, fails, place, 0;
    }

    /** No command fails for reasons of its own. */
    ghost predicate Sound() { forall n: nat :: !fails(n) }

    /** `ip rule add`; an identical rule makes it fail. */
    method RuleAdd(r: Rule) returns (ok: bool, ghost i: nat)
      modifies this
      ensures i <= |old(rules)| && rules == if ok then InsertedAt(old(rules), i, r) else old(rules)
      ensures ok ==> r !in old(rules)
      ensures Sound() && r !in old(rules) ==> ok
      ensures commands == old(commands) + 1
    {
      ok := !fails(commands) && r !in rules;
      var at := if place(commands) > |rules| then |rules| else place(commands);
      i := at;
      commands := commands + 1;
      if ok {
        rules := InsertedAt(rules, at, r);
      }
    }

    /** `ip rule del`; that nothing was reached is not an error. */
    method RuleDel(m: Spec) returns (ok: bool)
      modifies this
      ensures rules == if ok then DelFirst(old(rules), m) else old(rules)
      ensures Sound() ==> ok
      ensures commands == old(commands) + 1
    {
      ok := !fails(commands);
      commands := commands + 1;
      if ok {
        rules := DelFirst(rules, m);
      }
    }
  }

  // ---- the public source rules ----

  predicate PublicAndWanted(r: Rule, hosts: seq<Addr>)
    ensures PublicAndWanted(r, hosts) ==> r.src.Some?
  {
    IsPublic(r) && r.src.value.addr in hosts
  }

  /** Nothing here has to go: every rule is public and wanted, and none is there twice. */
  predicate Keepable(here: seq<Rule>, hosts: seq<Addr>) {
    && (forall r :: r in here ==> PublicAndWanted(r, hosts))
    && (forall i, j :: 0 <= i < j < |here| ==> here[i].src != here[j].src)
  }

  /** The hosts that have their public rule. */
  function Sources(here: seq<Rule>): set<Addr> { set r | r in here && IsPublic(r) :: r.src.value.addr }

  /** At the public priority: for each host exactly one public rule, and nothing else. */
  predicate Exact(rules: seq<Rule>, hosts: seq<Addr>) {
    var here := At(rules, RULE_PRIO_PUBLIC);
    Keepable(here, hosts) && forall h :: h in hosts ==> h in Sources(here)
  }

  /** In numbers, the rule of a host: at priority 900, from the host alone, coming in at "lo",
      into table 254. */
  predicate HostsRule(r: Rule, h: Addr) {
    && r.priority == 900 && r.iif == "lo" && r.table == 254
    && r.src.Some? && r.src.value.addr == h && r.src.value.bits == if h.V4? then 32 else 128
  }

  predicate SomeHosts(r: Rule, hosts: seq<Addr>) { exists h :: h in hosts && HostsRule(r, h) }

  predicate HostHas(rules: seq<Rule>, h: Addr) { exists r :: r in rules && HostsRule(r, h) }

  /** No two places of the list are rules of one host. */
  ghost predicate OneEach(rules: seq<Rule>) {
    forall i, j, h :: 0 <= i < j < |rules| && HostsRule(rules[i], h) ==> !HostsRule(rules[j], h)
  }

  /** What exact means for the kernel's whole list. */
  lemma ExactMeans(rules: seq<Rule>, hosts: seq<Addr>)
    ensures Exact(rules, hosts) <==>
            && (forall r :: r in rules && r.priority == 900 ==> SomeHosts(r, hosts))
            && (forall h :: h in hosts ==> HostHas(rules, h))
            && OneEach(rules)
  {
    hide Keepable, At;
    KeepableMeans(rules, hosts);
    AtMembers(rules, RULE_PRIO_PUBLIC);
    var here := At(rules, RULE_PRIO_PUBLIC);
    if Exact(rules, hosts) {
      forall h | h in hosts ensures HostHas(rules, h) {
        var r: Rule :| r in here && IsPublic(r) && r.src.value.addr == h;
        assert HostsRule(r, h);
      }
    }
    forall h | h in hosts && HostHas(rules, h) ensures h in Sources(here) {
      var r :| r in rules && HostsRule(r, h);
      assert r in here && IsPublic(r);
    }
  }

  /** What it means that nothing at the public priority has to go. */
  lemma KeepableMeans(rules: seq<Rule>, hosts: seq<Addr>)
    ensures Keepable(At(rules, RULE_PRIO_PUBLIC), hosts) <==>
            (forall r :: r in rules && r.priority == 900 ==> SomeHosts(r, hosts)) && OneEach(rules)
  {
    var here := At(rules, RULE_PRIO_PUBLIC);
    AtMembers(rules, RULE_PRIO_PUBLIC);
    forall r: Rule | r.priority == RULE_PRIO_PUBLIC ensures PublicAndWanted(r, hosts) <==> SomeHosts(r, hosts) {
      if PublicAndWanted(r, hosts) {
        assert HostsRule(r, r.src.value.addr);
      }
    }
    if forall r :: r in here ==> PublicAndWanted(r, hosts) {
      OneEachHere(rules);
      assert forall r :: r in here ==> HostsRule(r, r.src.value.addr);
      if OneEach(here) {
        forall i, j | 0 <= i < j < |here| ensures here[i].src != here[j].src {
          assert HostsRule(here[i], here[i].src.value.addr) && HostsRule(here[j], here[j].src.value.addr);
        }
      }
    }
  }

  /** No rule of the list is one of a host that r is one of. */
  ghost predicate NoneLike(r: Rule, rest: seq<Rule>) {
    forall q, h :: q in rest && HostsRule(r, h) ==> !HostsRule(q, h)
  }

  lemma NoneLikeHere(r: Rule, rest: seq<Rule>)
    ensures NoneLike(r, rest) <==> NoneLike(r, At(rest, RULE_PRIO_PUBLIC))
    ensures r.priority != RULE_PRIO_PUBLIC ==> NoneLike(r, rest)
  {
    AtMembers(rest, RULE_PRIO_PUBLIC);
    hide At;
  }

  lemma {:induction false} OneEachHere(rules: seq<Rule>)
    ensures OneEach(rules) <==> OneEach(At(rules, RULE_PRIO_PUBLIC))
  {
    hide HostsRule, OneEach, NoneLike;
    if rules != [] {
      var r, rest := rules[0], rules[1..];
      var here := At(rest, RULE_PRIO_PUBLIC);
      OneEachHere(rest);
      NoneLikeHere(r, rest);
      AtCons(r, rest, RULE_PRIO_PUBLIC);
      assert rules == [r] + rest && [] + here == here;
      OneEachCons(r, rest);
      OneEachCons(r, here);
    }
  }

  lemma OneEachCons(r: Rule, rest: seq<Rule>)
    ensures OneEach([r] + rest) <==> OneEach(rest) && NoneLike(r, rest)
  {
    hide HostsRule;
    var all := [r] + rest;
    if OneEach(all) {
      forall i, j, h | 0 <= i < j < |rest| && HostsRule(rest[i], h) ensures !HostsRule(rest[j], h) {
        assert all[i + 1] == rest[i] && all[j + 1] == rest[j];
      }
      forall q: Rule, h: Addr | q in rest && HostsRule(r, h) ensures !HostsRule(q, h) {
        var j :| 0 <= j < |rest| && rest[j] == q;
        assert all[0] == r && all[j + 1] == q;
      }
    }
    if OneEach(rest) && NoneLike(r, rest) {
      forall i, j, h | 0 <= i < j < |all| && HostsRule(all[i], h) ensures !HostsRule(all[j], h) {
        if i > 0 {
          assert all[i] == rest[i - 1] && all[j] == rest[j - 1];
        }
      }
    }
  }

  /** The rule that is added for a host is the one it is to have. */
  lemma AddedIsTheRule(h: Addr, k: Addr)
    requires h.IsValid() && !h.Mapped?
    ensures HostsRule(PublicRule(h), k) <==> h == k
    ensures PublicRule(h).inet6 == !h.V4?
  {
  }

  lemma KeepableStep(here: seq<Rule>, hosts: seq<Addr>, r: Rule)
    ensures Keepable(here + [r], hosts) <==>
            Keepable(here, hosts) && PublicAndWanted(r, hosts) && r.src.value.addr !in Sources(here)
    ensures IsPublic(r) ==> Sources(here + [r]) == Sources(here) + {r.src.value.addr}
  {
    var all := here + [r];
    assert forall q :: q in all <==> q in here || q == r;
    if Keepable(all, hosts) {
      assert r in all;
      forall i, j | 0 <= i < j < |here| ensures here[i].src != here[j].src {
        assert all[i] == here[i] && all[j] == here[j];
      }
      forall q | q in here && IsPublic(q) ensures q.src.value.addr != r.src.value.addr {
        var i :| 0 <= i < |here| && here[i] == q;
        assert all[i] == q && all[|here|] == r;
      }
    }
    if Keepable(here, hosts) && PublicAndWanted(r, hosts) && r.src.value.addr !in Sources(here) {
      forall i, j | 0 <= i < j < |all| ensures all[i].src != all[j].src {
        if j == |here| {
          assert all[i] in here;
        }
      }
    }
  }

  lemma NothingHere(hosts: seq<Addr>)
    ensures Keepable([], hosts) && Sources([]) == {} && At([], RULE_PRIO_PUBLIC) == []
  {
  }

  method Survey(rules: seq<Rule>, hosts: seq<Addr>) returns (have: set<Addr>, total: nat, stale: nat)
    ensures total == |At(rules, RULE_PRIO_PUBLIC)| && (stale > 0 ==> total > 0)
    ensures stale == 0 <==> Keepable(At(rules, RULE_PRIO_PUBLIC), hosts)
    ensures stale == 0 ==> have == Sources(At(rules, RULE_PRIO_PUBLIC))
  {
    hide Keepable, Sources, IsPublic, At;
    have, total, stale := {}, 0, 0;
    NothingHere(hosts);
    assert rules[..0] == [];
    var i := 0;
    while i < |rules|
      invariant 0 <= i <= |rules|
      invariant total == |At(rules[..i], RULE_PRIO_PUBLIC)| && (stale > 0 ==> total > 0)
      invariant stale == 0 <==> Keepable(At(rules[..i], RULE_PRIO_PUBLIC), hosts)
      invariant stale == 0 ==> have == Sources(At(rules[..i], RULE_PRIO_PUBLIC))
    {
      var r := rules[i];
      ghost var here := At(rules[..i], RULE_PRIO_PUBLIC);
      assert rules[..i + 1] == rules[..i] + [r];
      AtConcat(rules[..i], [r], RULE_PRIO_PUBLIC);
      AtOne(r, RULE_PRIO_PUBLIC);
      assert r.priority != RULE_PRIO_PUBLIC ==> here + [] == here;
      if r.priority == RULE_PRIO_PUBLIC {
        total := total + 1;
        KeepableStep(here, hosts, r);
        if PublicAndWanted(r, hosts) && r.src.value.addr !in have {
          have := have + {r.src.value.addr};
        } else {
          stale := stale + 1;
        }
      }
      i := i + 1;
    }
    assert rules[..i] == rules;
  }

  /** A public rule for a host that had none keeps the list in order, wherever it is put. */
  lemma KeepableInsert(a: seq<Rule>, b: seq<Rule>, hosts: seq<Addr>, h: Addr)
    requires Keepable(a + b, hosts) && h in hosts && !h.Mapped? && h !in Sources(a + b)
    ensures Keepable(a + [PublicRule(h)] + b, hosts)
    ensures Sources(a + [PublicRule(h)] + b) == Sources(a + b) + {h}
  {
    var r, here, all := PublicRule(h), a + b, a + [PublicRule(h)] + b;
    assert forall q :: q in all <==> q in here || q == r;
    forall q | q in here ensures q.src != r.src {
      assert IsPublic(q);
    }
    forall i, j | 0 <= i < j < |all| ensures all[i].src != all[j].src {
      assert i < |a| ==> all[i] == here[i];
      assert i > |a| ==> all[i] == here[i - 1];
      assert j < |a| ==> all[j] == here[j];
      assert j > |a| ==> all[j] == here[j - 1];
    }
    assert IsPublic(r) && r.src.value.addr == h;
    forall k ensures k in Sources(all) <==> k in Sources(here) + {h} {
      if k == h {
        assert r in all;
      }
    }
  }

  class Manager {
    const kernel: Kernel
    var publicHosts: seq<Addr>
    var globalReady: bool
    var applied: set<int>

    constructor (kernel: Kernel)
      ensures this.kernel == kernel && !globalReady && applied == {}
    {
      this.kernel, publicHosts, globalReady, applied := kernel, [], false, {};
    }

    /** Issues one deletion per rule counted at the public priority; it reaches the IPv4 ones. */
    method ClearPublic(total: nat) returns (ok: bool)
      requires total == Count(kernel.rules, AtPriority(RULE_PRIO_PUBLIC))
      modifies kernel
      ensures forall q :: q != RULE_PRIO_PUBLIC ==> At(kernel.rules, q) == At(old(kernel.rules), q)
      ensures ok ==> kernel.rules == Others(old(kernel.rules), AtPriority(RULE_PRIO_PUBLIC))
      ensures Others(kernel.rules, AtPriority(RULE_PRIO_PUBLIC)) == Others(old(kernel.rules), AtPriority(RULE_PRIO_PUBLIC))
      ensures kernel.Sound() ==> ok
      ensures kernel.commands >= old(kernel.commands) && (total > 0 ==> kernel.commands > old(kernel.commands))
    {
      hide At, Others, DelFirst, Count, HitCount, Spec.Hits;
      var m := AtPriority(RULE_PRIO_PUBLIC);
      HitsWithinCount(kernel.rules, m);
      ghost var hits := HitCount(kernel.rules, m);
      var i := 0;
      while i < total
        invariant 0 <= i <= total
        invariant HitCount(kernel.rules, m) == if hits < i then 0 else hits - i
        invariant Others(kernel.rules, m) == Others(old(kernel.rules), m)
        invariant forall q :: q != RULE_PRIO_PUBLIC ==> At(kernel.rules, q) == At(old(kernel.rules), q)
        invariant kernel.commands == old(kernel.commands) + i
      {
        DelFirstEffect(kernel.rules, m);
        ghost var before := kernel.rules;
        ok := kernel.RuleDel(m);
        forall q | q != RULE_PRIO_PUBLIC ensures At(kernel.rules, q) == At(before, q) {
          DelFirstAt(before, RULE_PRIO_PUBLIC, q);
        }
        if !ok {
          return;
        }
        i := i + 1;
      }
      DelFirstEffect(kernel.rules, m);
      ok := true;
    }

    /** Adds the public rules of the hosts not in `have`. */
    method AddMissing(hosts: seq<Addr>, have: set<Addr>) returns (ok: bool)
      modifies kernel
      ensures forall q :: q != RULE_PRIO_PUBLIC ==> At(kernel.rules, q) == At(old(kernel.rules), q)
      ensures forall r :: r in old(kernel.rules) ==> r in kernel.rules
      ensures AsRead(old(kernel.rules)) ==> AsRead(kernel.rules)
      ensures ok ==> forall h :: h in hosts && h !in have ==> PublicRule(h) in kernel.rules && PublicRule(h) !in old(kernel.rules)
      ensures ok && NoMapped(hosts) && old(Surveyed(kernel.rules, hosts, have)) ==> Exact(kernel.rules, hosts)
      ensures kernel.commands >= old(kernel.commands)
      ensures kernel.commands == old(kernel.commands) <==> forall h :: h in hosts ==> h in have
      ensures (forall h :: h in hosts ==> h in have) ==> ok && kernel.rules == old(kernel.rules)
      ensures kernel.Sound() && Distinct(hosts) && (forall h :: h in hosts && h !in have ==> PublicRule(h) !in old(kernel.rules)) ==> ok
    {
      hide Keepable, Exact, At, IsPublic, PublicRule, Sources, InsertedAt, AsRead;
      ghost var good := NoMapped(hosts) && Surveyed(kernel.rules, hosts, have);
      ghost var added: set<Addr> := {};
      var i := 0;
      while i < |hosts|
        invariant 0 <= i <= |hosts|
        invariant good ==> Keepable(At(kernel.rules, RULE_PRIO_PUBLIC), hosts) && Sources(At(kernel.rules, RULE_PRIO_PUBLIC)) == have + added
        invariant forall h :: h in added <==> h in hosts[..i] && h !in have
        invariant forall x :: x in kernel.rules <==> x in old(kernel.rules) || exists h :: h in added && x == PublicRule(h)
        invariant forall h :: h in added ==> PublicRule(h) !in old(kernel.rules)
        invariant forall q :: q != RULE_PRIO_PUBLIC ==> At(kernel.rules, q) == At(old(kernel.rules), q)
        invariant kernel.commands >= old(kernel.commands)
        invariant kernel.commands == old(kernel.commands) <==> added == {}
        invariant added == {} ==> kernel.rules == old(kernel.rules)
        invariant AsRead(old(kernel.rules)) ==> AsRead(kernel.rules)
      {
        var h := hosts[i];
        assert h in hosts && hosts[..i + 1] == hosts[..i] + [h];
        if h !in have {
          ghost var before := kernel.rules;
          ghost var at: nat;
          assert Distinct(hosts) && PublicRule(h) !in old(kernel.rules) ==> PublicRule(h) !in before by {
            if Distinct(hosts) {
              NotYetAdded(hosts, i, added);
            }
          }
          ok, at := kernel.RuleAdd(PublicRule(h));
          if !ok {
            return;
          }
          HostAdded(before, at, h, hosts);
          AddedAsRead(before, kernel.rules, h);
          added := added + {h};
        }
        i := i + 1;
      }
      assert hosts[..i] == hosts;
      if good {
        AllThereIsExact(kernel.rules, hosts);
      }
      ok := true;
    }

    /** From any kernel list and any hosts: other priorities and IPv6 rules are never touched.
        An error-free run leaves exactly one public rule per host at the public priority if
        and only if nothing there had to go or none of the rules there is IPv6; and a run
        issues no command if and only if the list was exact already. */
    method EnsureGlobal(hosts: seq<Addr>, readable: bool) returns (err: Option<NetError>)
      modifies this`publicHosts, this`globalReady, kernel
      ensures forall q :: q != RULE_PRIO_PUBLIC ==> At(kernel.rules, q) == At(old(kernel.rules), q)
      ensures forall r :: r in old(kernel.rules) && r.inet6 ==> r in kernel.rules
      ensures err.None? ==> hosts != [] && globalReady && publicHosts == hosts
      ensures kernel.commands >= old(kernel.commands)
      ensures err.None? && NoMapped(hosts) ==>
                (Exact(kernel.rules, hosts) <==> Tidied(old(kernel.rules), hosts))
      // An IPv4-mapped host gets a rule that is never recognised as its own.
      ensures err.None? && AsRead(old(kernel.rules)) ==>
                (Exact(kernel.rules, hosts) <==> NoMapped(hosts) && Tidied(old(kernel.rules), hosts))
      ensures readable && AllValid(hosts) && hosts != [] ==> (kernel.commands == old(kernel.commands) <==> old(Exact(kernel.rules, hosts)))
      ensures !readable || !AllValid(hosts) || hosts == [] ==> err.Some? && kernel.commands == old(kernel.commands)
      ensures kernel.commands == old(kernel.commands) ==> kernel.rules == old(kernel.rules)
      ensures readable && AllValid(hosts) && hosts != [] && old(Exact(kernel.rules, hosts)) ==> err.None?
      ensures readable && AllValid(hosts) && hosts != [] && kernel.Sound() && Distinct(hosts) && AllV4(hosts) ==> err.None?
    {
      hide Exact, Keepable, At, Count, Sources, Others, IsPublic, PublicRule, Kernel.Sound, AsRead;
      if |hosts| == 0 {
        return Some(NoPublicHost);
      }
      var i := 0;
      while i < |hosts|
        invariant 0 <= i <= |hosts|
        invariant forall j :: 0 <= j < i ==> ValidPublicHost(hosts[j])
      {
        if !ValidPublicHost(hosts[i]) {
          assert hosts[i] in hosts;
          return Some(BadPublicHost);
        }
        i := i + 1;
      }
      assert AllValid(hosts);
      if !readable {
        return Some(Unreadable);
      }
      var have, total, stale := Survey(kernel.rules, hosts);
      ghost var before := kernel.rules;
      ExactWhen(before, hosts);
      if stale > 0 {
        AtMembers(kernel.rules, RULE_PRIO_PUBLIC);
        var ok := ClearPublic(total);
        ClearedKeepsInet6(before, kernel.rules);
        if !ok {
          return Some(CommandFailed);
        }
        have := {};
        ClearedList(before, kernel.rules, hosts);
      } else {
        NoneForMissing(before, hosts);
      }
      ghost var cleared := kernel.rules;
      var ok := AddMissing(hosts, have);
      if !ok {
        return Some(CommandFailed);
      }
      if stale > 0 {
        StuckRule(cleared, kernel.rules, hosts);
      }
      if AsRead(before) && !NoMapped(hosts) {
        FewerAsRead(before, cleared);
        MappedIsNever(kernel.rules, hosts);
      }
      publicHosts, globalReady := hosts, true;
      err := None;
    }

    /** Removes the rules of a slot that the commands reach, and only those; on an error the
        rules they do not reach are still all there, in order. */
    method RemoveSlot(s: int, readable: bool) returns (err: Option<NetError>)
      modifies this`applied, kernel
      ensures !ValidSlot(s) <==> err == Some(InvalidSlot)
      ensures err.None? ==> kernel.rules == Foreign(old(kernel.rules), s) && applied == old(applied) - {s}
      ensures Foreign(kernel.rules, s) == Foreign(old(kernel.rules), s)
      ensures err.None? ==> (OfSlotGone(kernel.rules, s) <==> forall r :: r in old(kernel.rules) && OfSlot(r, s) ==> !r.inet6)
      ensures err.Some? ==> applied == old(applied)
      ensures !readable || !ValidSlot(s) ==> kernel.rules == old(kernel.rules) && kernel.commands == old(kernel.commands)
      ensures readable && ValidSlot(s) && kernel.Sound() ==> err.None?
    {
      hide Others, Count, HitCount, Spec.Hits, Spec.Matches, Kernel.Sound, OfSlot, Foreign;
      if !ValidSlot(s) {
        return Some(InvalidSlot);
      }
      if !readable {
        return Some(Unreadable);
      }
      ghost var before := kernel.rules;
      var rules := kernel.rules;
      ForeignRulesStay(before, s);
      HitsWithinCount(rules, SrcRule(s));
      var ok := Purge(SrcRule(s), Count(rules, SrcRule(s)));
      ForeignRulesStay(kernel.rules, s);
      if !ok {
        return Some(CommandFailed);
      }
      ghost var half := kernel.rules;
      HitsWithinCount(rules, UidRule(s));
      FewerHits(rules, SrcRule(s), UidRule(s));
      ok := Purge(UidRule(s), Count(rules, UidRule(s)));
      OthersCommute(kernel.rules, SrcRule(s), UidRule(s));
      OthersCommute(half, SrcRule(s), UidRule(s));
      OthersCommute(before, SrcRule(s), UidRule(s));
      ForeignRulesStay(kernel.rules, s);
      if !ok {
        return Some(CommandFailed);
      }
      GoneWhenReached(before, kernel.rules, s);
      applied := applied - {s};
      err := None;
    }

    /** One deletion per rule counted, and at least one. */
    method Purge(m: Spec, n: nat) returns (ok: bool)
      requires n >= HitCount(kernel.rules, m)
      modifies kernel
      ensures ok ==> kernel.rules == Others(old(kernel.rules), m)
      ensures Others(kernel.rules, m) == Others(old(kernel.rules), m)
      ensures kernel.Sound() ==> ok
    {
      hide Others, HitCount, DelFirst, Spec.Hits;
      ghost var hits := HitCount(kernel.rules, m);
      var times := if n < 1 then 1 else n;
      var i := 0;
      while i < times
        invariant 0 <= i <= times
        invariant Others(kernel.rules, m) == Others(old(kernel.rules), m)
        invariant HitCount(kernel.rules, m) == if hits < i then 0 else hits - i
      {
        DelFirstEffect(kernel.rules, m);
        ok := kernel.RuleDel(m);
        if !ok {
          return;
        }
        i := i + 1;
      }
      DelFirstEffect(kernel.rules, m);
      ok := true;
    }
  }

  predicate AllValid(hosts: seq<Addr>) { forall h :: h in hosts ==> ValidPublicHost(h) }

  predicate AllV4(hosts: seq<Addr>) { forall h :: h in hosts ==> h.V4? }

  predicate OnlyInet4(here: seq<Rule>) { forall r :: r in here ==> !r.inet6 }

  /** What a run needs of the rules it finds: none has to go, or every one can. */
  predicate Tidied(rules: seq<Rule>, hosts: seq<Addr>) {
    var here := At(rules, RULE_PRIO_PUBLIC);
    Keepable(here, hosts) || OnlyInet4(here)
  }

  /** With IPv4 hosts, and rules whose IPv4 source makes them IPv4, that is: no IPv6 rule
      sits at the public priority. */
  lemma TidiedMeansInet4(rules: seq<Rule>, hosts: seq<Addr>)
    requires AllV4(hosts) && forall r :: r in rules && r.src.Some? && r.src.value.addr.V4? ==> !r.inet6
    ensures Tidied(rules, hosts) <==> forall r :: r in rules && r.priority == RULE_PRIO_PUBLIC ==> !r.inet6
  {
    AtMembers(rules, RULE_PRIO_PUBLIC);
  }

  lemma ExactWhen(rules: seq<Rule>, hosts: seq<Addr>)
    ensures Exact(rules, hosts) <==>
            Keepable(At(rules, RULE_PRIO_PUBLIC), hosts) && forall h :: h in hosts ==> h in Sources(At(rules, RULE_PRIO_PUBLIC))
  {
  }

  /** A host without a source in a list that may stay has no rule of its own there. */
  lemma NoneForMissing(rules: seq<Rule>, hosts: seq<Addr>)
    requires Keepable(At(rules, RULE_PRIO_PUBLIC), hosts)
    ensures forall h :: h in hosts && !h.Mapped? && h !in Sources(At(rules, RULE_PRIO_PUBLIC)) ==> PublicRule(h) !in rules
  {
    AtMembers(rules, RULE_PRIO_PUBLIC);
    forall h | h in hosts && !h.Mapped? && h !in Sources(At(rules, RULE_PRIO_PUBLIC)) ensures PublicRule(h) !in rules {
      assert IsPublic(PublicRule(h)) && PublicRule(h).src.value.addr == h;
    }
  }

  lemma ClearedKeepsInet6(before: seq<Rule>, after: seq<Rule>)
    requires Others(after, AtPriority(RULE_PRIO_PUBLIC)) == Others(before, AtPriority(RULE_PRIO_PUBLIC))
    ensures forall r :: r in before && r.inet6 ==> r in after
  {
    OthersMembers(before, AtPriority(RULE_PRIO_PUBLIC));
    OthersMembers(after, AtPriority(RULE_PRIO_PUBLIC));
    forall r | r in before && r.inet6 ensures r in after {
      assert r in Others(before, AtPriority(RULE_PRIO_PUBLIC));
    }
  }

  lemma NoMembers(rules: seq<Rule>)
    ensures rules == [] <==> forall r :: r !in rules
  {
    if rules != [] {
      assert rules[0] in rules;
    }
  }

  /** What the deletions leave at the public priority: its IPv6 rules. */
  lemma ClearedList(before: seq<Rule>, after: seq<Rule>, hosts: seq<Addr>)
    requires after == Others(before, AtPriority(RULE_PRIO_PUBLIC))
    ensures forall h: Addr :: h.V4? ==> PublicRule(h) !in after
    ensures OnlyInet4(At(before, RULE_PRIO_PUBLIC)) ==> Surveyed(after, hosts, {})
    ensures !OnlyInet4(At(before, RULE_PRIO_PUBLIC)) ==> exists r :: r in after && r.inet6 && r.priority == RULE_PRIO_PUBLIC
  {
    OthersMembers(before, AtPriority(RULE_PRIO_PUBLIC));
    AtMembers(before, RULE_PRIO_PUBLIC);
    AtMembers(after, RULE_PRIO_PUBLIC);
    if OnlyInet4(At(before, RULE_PRIO_PUBLIC)) {
      NoMembers(At(after, RULE_PRIO_PUBLIC));
      NothingHere(hosts);
    } else {
      var r :| r in At(before, RULE_PRIO_PUBLIC) && r.inet6;
      assert r in after;
    }
  }

  /** An IPv6 rule that the deletions did not reach stands in the way of exactness: it is not
      wanted, or its host gets a second rule beside it. */
  lemma StuckRule(cleared: seq<Rule>, final: seq<Rule>, hosts: seq<Addr>)
    requires forall r :: r in cleared ==> r in final
    requires forall h :: h in hosts ==> PublicRule(h) in final && PublicRule(h) !in cleared
    ensures forall r :: r in cleared && r.priority == RULE_PRIO_PUBLIC && NoMapped(hosts) ==> !Exact(final, hosts)
  {
    forall r | r in cleared && r.priority == RULE_PRIO_PUBLIC && NoMapped(hosts) ensures !Exact(final, hosts) {
      StuckBy(final, hosts, r);
    }
  }

  lemma StuckBy(final: seq<Rule>, hosts: seq<Addr>, r: Rule)
    requires r in final && r.priority == RULE_PRIO_PUBLIC && NoMapped(hosts)
    requires forall h :: h in hosts ==> PublicRule(h) in final && PublicRule(h) != r
    ensures !Exact(final, hosts)
  {
    var here := At(final, RULE_PRIO_PUBLIC);
    AtMembers(final, RULE_PRIO_PUBLIC);
    if PublicAndWanted(r, hosts) {
      var q := PublicRule(r.src.value.addr);
      var i :| 0 <= i < |here| && here[i] == r;
      var j :| 0 <= j < |here| && here[j] == q;
      assert i != j && here[i].src == here[j].src;
    }
  }

  lemma NotYetAdded(hosts: seq<Addr>, i: nat, added: set<Addr>)
    requires Distinct(hosts) && i < |hosts| && forall h :: h in added ==> h in hosts[..i]
    ensures forall h :: h in added ==> PublicRule(h) != PublicRule(hosts[i])
  {
    forall h | h in added ensures PublicRule(h) != PublicRule(hosts[i]) {
      if PublicRule(h) == PublicRule(hosts[i]) {
        RuleNamesHost(h, hosts[i]);
      }
    }
  }

  /** The list may stay as it is and the hosts that have their rule are known. */
  predicate Surveyed(rules: seq<Rule>, hosts: seq<Addr>, have: set<Addr>) {
    Keepable(At(rules, RULE_PRIO_PUBLIC), hosts) && have == Sources(At(rules, RULE_PRIO_PUBLIC))
  }

  predicate Distinct(hosts: seq<Addr>) { forall i, j :: 0 <= i < j < |hosts| ==> hosts[i] != hosts[j] }

  lemma RuleOfHost(h: Addr)
    ensures PublicRule(h).priority == RULE_PRIO_PUBLIC
  {
  }

  lemma AddedAsRead(before: seq<Rule>, after: seq<Rule>, h: Addr)
    requires forall x :: x in after <==> x in before || x == PublicRule(h)
    ensures AsRead(before) ==> AsRead(after)
  {
  }

  lemma FewerAsRead(before: seq<Rule>, after: seq<Rule>)
    requires AsRead(before) && (after == before || after == Others(before, AtPriority(RULE_PRIO_PUBLIC)))
    ensures AsRead(after)
  {
    OthersMembers(before, AtPriority(RULE_PRIO_PUBLIC));
  }

  lemma MappedIsNever(rules: seq<Rule>, hosts: seq<Addr>)
    requires AsRead(rules) && !NoMapped(hosts)
    ensures !Exact(rules, hosts)
  {
    var h :| h in hosts && h.Mapped?;
    AtMembers(rules, RULE_PRIO_PUBLIC);
    assert h !in Sources(At(rules, RULE_PRIO_PUBLIC));
  }

  /** What adding the rule of one host changes. */
  lemma HostAdded(before: seq<Rule>, at: nat, h: Addr, hosts: seq<Addr>)
    requires at <= |before|
    ensures var after := InsertedAt(before, at, PublicRule(h));
            && (forall q :: q != RULE_PRIO_PUBLIC ==> At(after, q) == At(before, q))
            && (forall x :: x in after <==> x in before || x == PublicRule(h))
            && (Keepable(At(before, RULE_PRIO_PUBLIC), hosts) && h in hosts && !h.Mapped? && h !in Sources(At(before, RULE_PRIO_PUBLIC)) ==>
                  && Keepable(At(after, RULE_PRIO_PUBLIC), hosts)
                  && Sources(At(after, RULE_PRIO_PUBLIC)) == Sources(At(before, RULE_PRIO_PUBLIC)) + {h})
  {
    hide Keepable, At, PublicRule, Sources, InsertedAt;
    RuleOfHost(h);
    AtInserted(before, at, PublicRule(h), RULE_PRIO_PUBLIC);
    if Keepable(At(before, RULE_PRIO_PUBLIC), hosts) && h in hosts && !h.Mapped? && h !in Sources(At(before, RULE_PRIO_PUBLIC)) {
      KeepableInsert(At(before[..at], RULE_PRIO_PUBLIC), At(before[at..], RULE_PRIO_PUBLIC), hosts, h);
    }
    forall q | q != RULE_PRIO_PUBLIC ensures At(InsertedAt(before, at, PublicRule(h)), q) == At(before, q) {
      AtInserted(before, at, PublicRule(h), q);
    }
  }

  lemma AllThereIsExact(rules: seq<Rule>, hosts: seq<Addr>)
    requires Keepable(At(rules, RULE_PRIO_PUBLIC), hosts)
    requires forall h :: h in hosts ==> h in Sources(At(rules, RULE_PRIO_PUBLIC))
    ensures Exact(rules, hosts)
  {
  }

  // ---- the rules of a slot ----

  /** In numbers, the two rules that are set up for a slot: into table 1000 + s, from
      192.168.(100 + s).100/32 at priority 1000 + s and for user 6100 + s at 1500 + s. */
  predicate OfSlot(r: Rule, s: int) {
    && r.table == 1000 + s
    && (|| (r.priority == 1000 + s && r.src.Some? && r.src.value.bits == 32 && IsAddr(r.src.value.addr, 192, 168, 100 + s, 100))
        || (r.priority == 1500 + s && r.uidLo == 6100 + s && r.uidHi == 6100 + s))
  }

  predicate IsAddr(h: Addr, a: int, b: int, c: int, d: int) { h.V4? && h.a == a && h.b == b && h.c == c && h.d == d }

  predicate OfSlotGone(rules: seq<Rule>, s: int) { forall r :: r in rules ==> !OfSlot(r, s) }

  /** All but the IPv4 rules of a slot, in order. */
  function Foreign(rules: seq<Rule>, s: int): seq<Rule> {
    if rules == [] then [] else (if OfSlot(rules[0], s) && !rules[0].inet6 then [] else [rules[0]]) + Foreign(rules[1..], s)
  }

  /** How this program tells is what the numbers say. */
  lemma SpecsOfSlot(r: Rule, s: int)
    requires ValidSlot(s)
    ensures OfSlot(r, s) <==> SrcRule(s).Matches(r) || UidRule(s).Matches(r)
    ensures OfSlot(r, s) && !r.inet6 <==> SrcRule(s).Hits(r) || UidRule(s).Hits(r)
  {
  }

  /** The deletions of the two specs together reach the IPv4 rules of the slot and nothing else. */
  lemma {:induction false} ForeignRulesStay(rules: seq<Rule>, s: int)
    requires ValidSlot(s)
    ensures Foreign(rules, s) == Others(Others(rules, SrcRule(s)), UidRule(s))
    ensures forall r :: r in Foreign(rules, s) <==> r in rules && (!OfSlot(r, s) || r.inet6)
  {
    hide Spec.Hits, Spec.Matches, OfSlot;
    if rules != [] {
      var r, rest := rules[0], Others(rules[1..], SrcRule(s));
      ForeignRulesStay(rules[1..], s);
      SpecsOfSlot(r, s);
      OthersCons(r, rest, UidRule(s));
      assert rules == [r] + rules[1..] && [] + rest == rest;
    }
  }

  lemma GoneWhenReached(before: seq<Rule>, after: seq<Rule>, s: int)
    requires forall r :: r in after <==> r in before && (!OfSlot(r, s) || r.inet6)
    ensures OfSlotGone(after, s) <==> forall r :: r in before && OfSlot(r, s) ==> !r.inet6
  {
  }

  // ---- two runs that meet an IPv6 rule ----

  const INET6_RULE := Rule(RULE_PRIO_PUBLIC, None, "lo", TABLE_MAIN, NO_UID, NO_UID, true, 0)

  /** One IPv6 rule at the public priority: both runs succeed, the rule is still there, and
      the second run issues its commands again. */
  method Inet6RuleStays(host: Addr) returns (first: Option<NetError>, second: Option<NetError>, issued: nat, left: seq<Rule>)
    requires host.V4? && ValidPublicHost(host)
    ensures first.None? && second.None? && issued > 0
    ensures INET6_RULE in left && !Exact(left, [host])
  {
    hide Exact, Tidied, PublicRule;
    var kernel := new Kernel([INET6_RULE], _ => false, _ => 0);
    var m := new Manager(kernel);
    NeverTidied([INET6_RULE], [host]);
    first := m.EnsureGlobal([host], true);
    assert INET6_RULE in kernel.rules;
    var before := kernel.commands;
    second := m.EnsureGlobal([host], true);
    issued := kernel.commands - before;
    left := kernel.rules;
    assert INET6_RULE in left;
    NeverTidied(left, [host]);
  }

  lemma NeverTidied(rules: seq<Rule>, hosts: seq<Addr>)
    requires INET6_RULE in rules
    ensures !Tidied(rules, hosts) && !Exact(rules, hosts)
  {
    AtMembers(rules, RULE_PRIO_PUBLIC);
    assert INET6_RULE in At(rules, RULE_PRIO_PUBLIC);
  }

  function Inet6UidRule(s: int): Rule {
    Rule(RulePrioUid(s), None, "", RouteTable(s), SlotUid(s), SlotUid(s), true, 0)
  }

  /** One IPv6 rule for the user of a slot: the removal succeeds and the rule is still there. */
  method Inet6SlotRuleStays(s: int) returns (err: Option<NetError>, left: seq<Rule>)
    requires ValidSlot(s)
    ensures err.None? && Inet6UidRule(s) in left && OfSlot(Inet6UidRule(s), s)
  {
    var kernel := new Kernel([Inet6UidRule(s)], _ => false, _ => 0);
    var m := new Manager(kernel);
    assert kernel.Sound();
    ForeignRulesStay(kernel.rules, s);
    err := m.RemoveSlot(s, true);
    left := kernel.rules;
  }
}
