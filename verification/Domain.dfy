/** Slots, port policies and proxy states: the value types of internal/domain. */
module Domain {
  import opened Wrappers
  import opened Text
  import opened Netip

  // ---- slots ----

  const MAX_SLOTS := 150
  const UID_BASE := 6100
  const GROUP_GID := 6100
  const SOCKS_PORT_BASE := 21000
  const HTTP_PORT_BASE := 22000
  const RULE_PRIO_PUBLIC := 900
  const ROUTE_TABLE_BASE := 1000
  const RULE_PRIO_SRC := 1000
  const RULE_PRIO_UID := 1500

  predicate ValidSlot(s: int) { 1 <= s <= MAX_SLOTS }

  function SlotUid(s: int): int { UID_BASE + s }

  function SocksPort(s: int): int { SOCKS_PORT_BASE + s }

  function HttpPort(s: int): int { HTTP_PORT_BASE + s }

  function RouteTable(s: int): int { ROUTE_TABLE_BASE + s }

  function RulePrioSrc(s: int): int { RULE_PRIO_SRC + s }

  function RulePrioUid(s: int): int { RULE_PRIO_UID + s }

  /** 192.168.(100 + slot).100 */
  function HostIp(s: int): Addr
    requires ValidSlot(s)
  {
    V4(192, 168, 100 + s, 100)
  }

  // ---- authentication modes ----

  datatype AuthMode = UserPass | IpList | Both | UnknownMode(name: string)
  {
    predicate Valid() { !UnknownMode? }

    predicate UsesUserPass() { UserPass? || Both? }

    predicate UsesIpList() { IpList? || Both? }
  }

  // ---- port ranges ----

  datatype PortRange = PortRange(lo: int, hi: int)
  {
    predicate Valid() { 1 <= lo && hi <= 65535 && lo <= hi }

    predicate Contains(p: int) { lo <= p <= hi }

    function Text(): string {
      if lo == hi then Itoa(lo) else Itoa(lo) + "-" + Itoa(hi)
    }
  }

  /** strings.Cut on the first separator; the second half is absent if there is none. */
  function Cut(s: string, sep: char): (string, Option<string>) {
    var parts := Split(s, sep);
    if |parts| == 1 then (s, None) else (parts[0], Some(Join(parts[1..], [sep])))
  }

  function ParsePortRange(s: string): Option<PortRange> {
    var (lo, rest) := Cut(TrimSpace(s), '-');
    var hi := if rest.Some? then rest.value else lo;
    match (Atoi(TrimSpace(lo)), Atoi(TrimSpace(hi)))
    case (Some(l), Some(h)) => if PortRange(l, h).Valid() then Some(PortRange(l, h)) else None
    case _ => None
  }

  function FormatPortRanges(rs: seq<PortRange>): string {
    Join(RangeTexts(rs), ",")
  }

  function RangeTexts(rs: seq<PortRange>): (parts: seq<string>)
    ensures |parts| == |rs|
    ensures forall i :: 0 <= i < |rs| ==> parts[i] == rs[i].Text()
  {
    if rs == [] then [] else [rs[0].Text()] + RangeTexts(rs[1..])
  }

  function ParseParts(parts: seq<string>): Option<seq<PortRange>> {
    if parts == [] then Some([])
    else if TrimSpace(parts[0]) == [] then ParseParts(parts[1..])
    else
      match (ParsePortRange(parts[0]), ParseParts(parts[1..]))
      case (Some(r), Some(rest)) => Some([r] + rest)
      case _ => None
  }

  function PortRangesOf(s: string): Option<seq<PortRange>> {
    if TrimSpace(s) == [] then Some([]) else ParseParts(Split(TrimSpace(s), ','))
  }

  method ParsePortRanges(s: string) returns (r: Option<seq<PortRange>>)
    ensures r == PortRangesOf(s)
  {
    var t := TrimSpace(s);
    if t == [] {
      return Some([]);
    }
    var parts := Split(t, ',');
    var out: seq<PortRange> := [];
    var i := 0;
    assert parts[0..] == parts;
    assert ParseParts(parts).Some? ==> out + ParseParts(parts).value == ParseParts(parts).value;
    while i < |parts|
      invariant 0 <= i <= |parts|
      invariant match ParseParts(parts[i..])
                case Some(rest) => ParseParts(parts) == Some(out + rest)
                case None => ParseParts(parts) == None
    {
      assert parts[i..][0] == parts[i] && parts[i..][1..] == parts[i + 1..];
      if TrimSpace(parts[i]) != [] {
        var one := ParsePortRange(parts[i]);
        if one.None? {
          return None;
        }
        ghost var rest := ParseParts(parts[i + 1..]);
        assert rest.Some? ==> out + ([one.value] + rest.value) == (out + [one.value]) + rest.value;
        out := out + [one.value];
      }
      i := i + 1;
    }
    assert parts[i..] == [] && out + [] == out;
    r := Some(out);
  }

  predicate NoSpaceIn(s: string) { forall c :: c in s ==> !IsSpace(c) }

  lemma TrimOfPlain(s: string)
    requires NoSpaceIn(s)
    ensures TrimSpace(s) == s
  {
    if s != [] {
      assert s[0] in s && s[|s| - 1] in s;
    }
  }

  lemma RangeTextPlain(r: PortRange, c: char)
    requires r.Valid()
    requires !IsDigit(c) && c != '-'
    ensures c !in r.Text() && r.Text() != []
  {
    ItoaHasNo(r.lo, c);
    ItoaHasNo(r.hi, c);
  }

  lemma RangeRoundTrip(r: PortRange)
    requires r.Valid()
    ensures ParsePortRange(r.Text()) == Some(r)
  {
    var lo, hi := Itoa(r.lo), Itoa(r.hi);
    assert NoSpaceIn(lo) && NoSpaceIn(hi) && NoSpaceIn(r.Text());
    TrimOfPlain(r.Text());
    TrimOfPlain(lo);
    TrimOfPlain(hi);
    ItoaHasNo(r.lo, '-');
    ItoaHasNo(r.hi, '-');
    AtoiOfItoa(r.lo);
    AtoiOfItoa(r.hi);
    SplitWhole(lo, '-');
    if r.lo != r.hi {
      assert r.Text() == lo + ['-'] + hi;
      SplitFirst(lo, '-', hi);
      SplitWhole(hi, '-');
    }
  }

  lemma {:induction false} ParsePartsOfTexts(rs: seq<PortRange>)
    requires forall r :: r in rs ==> r.Valid()
    ensures ParseParts(RangeTexts(rs)) == Some(rs)
  {
    if rs != [] {
      RangeRoundTrip(rs[0]);
      assert forall c :: IsSpace(c) ==> c !in rs[0].Text() by {
        forall c | IsSpace(c) ensures c !in rs[0].Text() { RangeTextPlain(rs[0], c); }
      }
      TrimOfPlain(rs[0].Text());
      RangeTextPlain(rs[0], ' ');
      ParsePartsOfTexts(rs[1..]);
      assert RangeTexts(rs)[1..] == RangeTexts(rs[1..]);
      assert [rs[0]] + rs[1..] == rs;
    }
  }

  lemma RangeTextsPlain(rs: seq<PortRange>, c: char)
    requires forall r :: r in rs ==> r.Valid()
    requires !IsDigit(c) && c != '-'
    ensures forall p :: p in RangeTexts(rs) ==> c !in p
    ensures c != ',' ==> c !in FormatPortRanges(rs)
  {
    forall p | p in RangeTexts(rs) ensures c !in p {
      var i :| 0 <= i < |rs| && RangeTexts(rs)[i] == p;
      RangeTextPlain(rs[i], c);
    }
    if c != ',' {
      JoinChars(RangeTexts(rs), ",", c);
    }
  }

  /** Every list of valid ranges survives being printed and parsed. */
  lemma PortRangesRoundTrip(rs: seq<PortRange>)
    requires forall r :: r in rs ==> r.Valid()
    ensures PortRangesOf(FormatPortRanges(rs)) == Some(rs)
    ensures rs != [] ==> FormatPortRanges(rs) != []
  {
    var s := FormatPortRanges(rs);
    assert NoSpaceIn(s) by {
      forall c | IsSpace(c) ensures c !in s { RangeTextsPlain(rs, c); }
    }
    TrimOfPlain(s);
    if rs != [] {
      RangeTextPlain(rs[0], ' ');
      assert s != [] by { assert RangeTexts(rs)[0] != []; }
      RangeTextsPlain(rs, ',');
      SplitOfJoin(RangeTexts(rs), ',');
      ParsePartsOfTexts(rs);
    }
  }

  // ---- which texts are port lists ----

  predicate NumberIs(s: string, n: int) { Atoi(TrimSpace(s)) == Some(n) }

  /** One number, or two with a dash after the first one; space may stand around them. */
  ghost predicate RangeReads(part: string, r: PortRange) {
    && 1 <= r.lo <= r.hi <= 65535
    && (|| ('-' !in TrimSpace(part) && r.lo == r.hi && NumberIs(TrimSpace(part), r.lo))
        || exists lo, hi :: '-' !in lo && TrimSpace(part) == lo + "-" + hi && NumberIs(lo, r.lo) && NumberIs(hi, r.hi))
  }

  lemma RangeMeans(part: string, r: PortRange)
    ensures ParsePortRange(part) == Some(r) <==> RangeReads(part, r)
  {
    hide Atoi, TrimSpace;
    var t := TrimSpace(part);
    if '-' !in t {
      SplitWhole(t, '-');
      forall lo: string, hi: string ensures t != lo + "-" + hi {
        assert (lo + "-" + hi)[|lo|] == '-';
      }
    } else {
      var parts := Split(t, '-');
      JoinOfSplit(t, '-');
      assert |parts| > 1;
      var lo, hi := parts[0], Join(parts[1..], "-");
      assert ['-'] == "-" && Cut(t, '-') == (lo, Some(hi));
      assert lo in parts && t == lo + "-" + hi;
      var both := NumberIs(lo, r.lo) && NumberIs(hi, r.hi);
      assert both && '-' !in lo ==> exists a, b :: '-' !in a && t == a + "-" + b && NumberIs(a, r.lo) && NumberIs(b, r.hi);
      forall a: string, b: string | '-' !in a && t == a + "-" + b ensures a == lo && b == hi {
        SplitFirst(a, '-', b);
        assert t == a + ['-'] + b;
        assert |a| == |lo|;
        assert t[..|a|] == a && t[..|lo|] == lo && t[|a| + 1..] == b && t[|lo| + 1..] == hi;
      }
      assert RangeReads(part, r) <==> 1 <= r.lo <= r.hi <= 65535 && both;
    }
  }

  function NotBlank(parts: seq<string>): seq<string> {
    if parts == [] then [] else (if TrimSpace(parts[0]) == [] then [] else [parts[0]]) + NotBlank(parts[1..])
  }

  ghost predicate AllRead(parts: seq<string>, rs: seq<PortRange>) {
    |parts| == |rs| && forall i :: 0 <= i < |rs| ==> RangeReads(parts[i], rs[i])
  }

  lemma {:induction false} PartsMean(parts: seq<string>, rs: seq<PortRange>)
    ensures ParseParts(parts) == Some(rs) <==> AllRead(NotBlank(parts), rs)
  {
    hide ParsePortRange, RangeReads, TrimSpace;
    if parts != [] {
      var rest := NotBlank(parts[1..]);
      if TrimSpace(parts[0]) == [] {
        PartsMean(parts[1..], rs);
        assert [] + rest == rest;
      } else {
        assert ([parts[0]] + rest)[1..] == rest;
        if rs != [] {
          RangeMeans(parts[0], rs[0]);
          PartsMean(parts[1..], rs[1..]);
          AllReadCons(parts[0], rest, rs);
          assert [rs[0]] + rs[1..] == rs;
        }
      }
    }
  }

  lemma AllReadCons(part: string, rest: seq<string>, rs: seq<PortRange>)
    requires rs != []
    ensures AllRead([part] + rest, rs) <==> RangeReads(part, rs[0]) && AllRead(rest, rs[1..])
  {
    hide RangeReads;
    var parts := [part] + rest;
    if AllRead(parts, rs) {
      assert RangeReads(parts[0], rs[0]);
      forall i | 0 <= i < |rs| - 1 ensures RangeReads(rest[i], rs[1..][i]) {
        assert RangeReads(parts[i + 1], rs[i + 1]);
      }
    }
  }

  /** A text is a list of ranges exactly if its comma-separated parts that are not blank read as
      them, one by one. */
  lemma PortRangesMean(s: string, rs: seq<PortRange>)
    ensures PortRangesOf(s) == Some(rs) <==> AllRead(NotBlank(Split(TrimSpace(s), ',')), rs)
  {
    hide ParseParts, RangeReads;
    PartsMean(Split(TrimSpace(s), ','), rs);
    if TrimSpace(s) == [] {
      assert TrimSpace("") == "" && [""][1..] == [] && NotBlank([""]) == [];
    }
  }

  // ---- port policy ----

  datatype ProxyPolicy = ProxyPolicy(allowAllPorts: bool, allowedPorts: seq<PortRange>, maxConn: int, connLimit: int)
  {
    predicate Valid() {
      && (allowAllPorts || allowedPorts != [])
      && (forall r :: r in allowedPorts ==> r.Valid())
      && maxConn >= 1
      && connLimit >= 0
    }

    /** The ports a customer may reach; an empty list restricts nothing. */
    predicate Admits(port: int) {
      allowAllPorts || allowedPorts == [] || exists r :: r in allowedPorts && r.Contains(port)
    }
  }
}
