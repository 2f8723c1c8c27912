/** Addresses and prefixes in the manner of Go's net/netip: an address is absent,
    IPv4, IPv4 mapped into IPv6, or another IPv6 address. Only IPv4 is ever
    printed into or parsed out of a proxy config. */
module Netip {
  import opened Wrappers
  import opened Text

  type Octet = n: nat | n < 256

  datatype Addr =
    | NoAddr
    | V4(a: Octet, b: Octet, c: Octet, d: Octet)
    | Mapped(a: Octet, b: Octet, c: Octet, d: Octet)
    | V6(hi: nat, lo: nat)
  {
    predicate IsValid() { !NoAddr? }

    predicate Is4() { V4? }

    function Unmap(): Addr {
      match this
      case Mapped(a, b, c, d) => V4(a, b, c, d)
      case _ => this
    }

    function Number(): (n: nat)
      requires V4?
      ensures n < 0x1_0000_0000
    {
      ((a * 256 + b) * 256 + c) * 256 + d
    }

    function Text(): string {
      match this
      case NoAddr => "invalid IP"
      case V4(a, b, c, d) => Join([Itoa(a), Itoa(b), Itoa(c), Itoa(d)], ".")
      case Mapped(a, b, c, d) => "::ffff:" + Join([Itoa(a), Itoa(b), Itoa(c), Itoa(d)], ".")
      case V6(hi, lo) => GroupsText(Groups(hi, lo))
    }
  }

  datatype Prefix = Prefix(addr: Addr, bits: int)
  {
    predicate Valid4() { addr.V4? && 0 <= bits <= 32 }

    function Block(): (n: nat)
      requires 0 <= bits <= 32
      ensures n > 0
    {
      Pow2(32 - bits)
    }

    /** p.Addr() == p.Masked().Addr() */
    predicate Masked()
      requires Valid4()
    {
      addr.Number() % Block() == 0
    }

    predicate Contains(ip: Addr)
      requires Valid4()
    {
      ip.V4? && ip.Number() / Block() == addr.Number() / Block()
    }

    predicate IsValid() { addr.IsValid() && 0 <= bits <= if addr.V4? then 32 else 128 }

    function Text(): string { if IsValid() then addr.Text() + "/" + Itoa(bits) else "invalid Prefix" }
  }

  // ---- the text of an IPv6 address ----

  /** The eight 16-bit groups. */
  function Groups(hi: nat, lo: nat): (gs: seq<nat>)
    ensures |gs| == 8
  {
    [hi / 0x1_0000_0000_0000 % 0x1_0000, hi / 0x1_0000_0000 % 0x1_0000, hi / 0x1_0000 % 0x1_0000, hi % 0x1_0000,
     lo / 0x1_0000_0000_0000 % 0x1_0000, lo / 0x1_0000_0000 % 0x1_0000, lo / 0x1_0000 % 0x1_0000, lo % 0x1_0000]
  }

  function HexDigit(n: nat): char
    requires n < 16
  {
    if n < 10 then '0' + n as char else 'a' + (n - 10) as char
  }

  function Hex(n: nat): string { if n < 16 then [HexDigit(n)] else Hex(n / 16) + [HexDigit(n % 16)] }

  function HexGroups(gs: seq<nat>): seq<string> { if gs == [] then [] else [Hex(gs[0])] + HexGroups(gs[1..]) }

  /** How many zeros the groups start with. */
  function ZeroRun(gs: seq<nat>): (n: nat)
    ensures n <= |gs|
  {
    if gs == [] || gs[0] != 0 then 0 else 1 + ZeroRun(gs[1..])
  }

  /** Where the first of the longest runs of at least two zeros starts, looking from i on. */
  function LongestZeros(gs: seq<nat>, i: nat, best: nat): (k: Option<nat>)
    requires i <= |gs|
    ensures k.Some? ==> i <= k.value < |gs|
    decreases |gs| - i
  {
    if i == |gs| then None
    else
      var n := ZeroRun(gs[i..]);
      var later := LongestZeros(gs, i + 1, if n > best then n else best);
      if later.None? && n > best && n >= 2 then Some(i) else later
  }

  function GroupsText(gs: seq<nat>): string {
    match LongestZeros(gs, 0, 0)
    case None => Join(HexGroups(gs), ":")
    case Some(k) => Join(HexGroups(gs[..k]), ":") + "::" + Join(HexGroups(gs[k + ZeroRun(gs[k..])..]), ":")
  }

  function Pow2(n: nat): (p: nat)
    ensures p > 0
  {
    if n == 0 then 1 else 2 * Pow2(n - 1)
  }

  lemma NumberInjective(x: Addr, y: Addr)
    requires x.V4? && y.V4? && x.Number() == y.Number()
    ensures x == y
  {
    assert x.Number() / 256 == (x.a * 256 + x.b) * 256 + x.c;
    assert y.Number() / 256 == (y.a * 256 + y.b) * 256 + y.c;
  }

  // ---- netip.ParseAddr, netip.ParsePrefix on IPv4 text ----

  /** One decimal number without sign and without leading zeros. */
  function ParsePlainNumber(s: string, limit: nat): Option<nat> {
    if s == [] || |s| > 3 || !AllDigits(s) || (|s| > 1 && s[0] == '0') then None
    else
      var v := DigitsValue(s);
      if v <= limit then Some(v) else None
  }

  function ParseAddr(s: string): Option<Addr> {
    var parts := Split(s, '.');
    if |parts| != 4 then None
    else
      match (ParsePlainNumber(parts[0], 255), ParsePlainNumber(parts[1], 255),
             ParsePlainNumber(parts[2], 255), ParsePlainNumber(parts[3], 255))
      case (Some(a), Some(b), Some(c), Some(d)) =>
        if a < 256 && b < 256 && c < 256 && d < 256 then Some(V4(a, b, c, d)) else None
      case _ => None
  }

  function ParsePrefix(s: string): Option<Prefix> {
    var parts := Split(s, '/');
    if |parts| != 2 then None
    else
      match (ParseAddr(parts[0]), ParsePlainNumber(parts[1], 32))
      case (Some(addr), Some(bits)) => Some(Prefix(addr, bits))
      case _ => None
  }

  lemma ParsePlainOfItoa(n: nat, limit: nat)
    requires n <= limit < 1000
    ensures ParsePlainNumber(Itoa(n), limit) == Some(n)
  {
    DigitsOfItoa(n);
    if n == 0 {
      assert |ItoaNat(n)| == 1;
    }
  }

  lemma ItoaHasNo(n: nat, c: char)
    requires !IsDigit(c)
    ensures c !in Itoa(n)
  {
  }

  /** Printing an IPv4 address and parsing it back is the identity. */
  lemma AddrRoundTrip(ip: Addr)
    requires ip.V4?
    ensures ParseAddr(ip.Text()) == Some(ip)
  {
    var parts := [Itoa(ip.a), Itoa(ip.b), Itoa(ip.c), Itoa(ip.d)];
    forall p | p in parts ensures '.' !in p {
      ItoaHasNo(ip.a, '.'); ItoaHasNo(ip.b, '.'); ItoaHasNo(ip.c, '.'); ItoaHasNo(ip.d, '.');
    }
    SplitOfJoin(parts, '.');
    ParsePlainOfItoa(ip.a, 255);
    ParsePlainOfItoa(ip.b, 255);
    ParsePlainOfItoa(ip.c, 255);
    ParsePlainOfItoa(ip.d, 255);
  }

  /** The text of an address uses digits and dots only. */
  lemma AddrTextPlain(ip: Addr, c: char)
    requires ip.V4?
    requires !IsDigit(c) && c != '.'
    ensures c !in ip.Text() && ip.Text() != []
  {
    var parts := [Itoa(ip.a), Itoa(ip.b), Itoa(ip.c), Itoa(ip.d)];
    forall p | p in parts ensures c !in p {
      ItoaHasNo(ip.a, c); ItoaHasNo(ip.b, c); ItoaHasNo(ip.c, c); ItoaHasNo(ip.d, c);
    }
    JoinChars(parts, ".", c);
  }

  lemma PrefixTextPlain(p: Prefix, c: char)
    requires p.Valid4()
    requires !IsDigit(c) && c != '.' && c != '/'
    ensures c !in p.Text() && p.Text() != []
  {
    AddrTextPlain(p.addr, c);
    ItoaHasNo(p.bits, c);
  }

  /** Printing an IPv4 prefix and parsing it back is the identity. */
  lemma PrefixRoundTrip(p: Prefix)
    requires p.Valid4()
    ensures ParsePrefix(p.Text()) == Some(p)
  {
    AddrTextPlain(p.addr, '/');
    ItoaHasNo(p.bits, '/');
    assert p.Text() == p.addr.Text() + ['/'] + Itoa(p.bits);
    SplitFirst(p.addr.Text(), '/', Itoa(p.bits));
    SplitWhole(Itoa(p.bits), '/');
    AddrRoundTrip(p.addr);
    ParsePlainOfItoa(p.bits, 32);
  }
}
