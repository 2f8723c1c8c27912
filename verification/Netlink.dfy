/** Netlink attributes, framed as in section 2.2 of RFC 3549: the encoder and parser in
    internal/fw/conntrack.go and the second parser in internal/netcfg/linux/observe.go.
    Multi-byte numbers are in the host's order, whichever that is. */
module Netlink {
  import opened Wrappers

  newtype Byte = x: int | 0 <= x < 256

  const SIZEOF_NL_ATTR := 4
  const NESTED := 0x8000
  const NET_BYTEORDER := 0x4000
  const MAX_PAYLOAD := 65531

  type U16 = n: nat | n < 65536

  datatype Attr = Attr(kind: U16, data: seq<Byte>)

  /** What the connection-tracking code keeps of an attribute: also its bytes as they stood. */
  datatype NfAttr = NfAttr(kind: U16, data: seq<Byte>, raw: seq<Byte>)

  // ---- numbers and alignment ----

  function ReadU16(a: Byte, b: Byte, big: bool): U16 {
    if big then a as int * 256 + b as int else b as int * 256 + a as int
  }

  function WriteU16(n: U16, big: bool): (Byte, Byte) {
    if big then ((n / 256) as Byte, (n % 256) as Byte) else ((n % 256) as Byte, (n / 256) as Byte)
  }

  lemma U16RoundTrip(n: U16, big: bool)
    ensures ReadU16(WriteU16(n, big).0, WriteU16(n, big).1, big) == n
  {
  }

  function LengthOf(b: seq<Byte>, big: bool): nat
    requires |b| >= SIZEOF_NL_ATTR
  {
    ReadU16(b[0], b[1], big)
  }

  function KindOf(b: seq<Byte>, big: bool): U16
    requires |b| >= SIZEOF_NL_ATTR
  {
    ReadU16(b[2], b[3], big)
  }

  /** The next multiple of four. */
  function Align(n: nat): (m: nat)
    ensures n <= m < n + 4 && m % 4 == 0
  {
    (n + 3) / 4 * 4
  }

  // ---- conntrack.go ----

  function NfAttrs(b: seq<Byte>, big: bool): seq<NfAttr>
    decreases |b|
  {
    if |b| < SIZEOF_NL_ATTR then []
    else
      var length := LengthOf(b, big);
      var kind := KindOf(b, big);
      if length < SIZEOF_NL_ATTR || length > |b| then []
      else
        [NfAttr(kind % NESTED, b[SIZEOF_NL_ATTR..length], b[..length])]
        + if Align(length) >= |b| then [] else NfAttrs(b[Align(length)..], big)
  }

  method ParseNfAttrs(bytes: seq<Byte>, big: bool) returns (out: seq<NfAttr>)
    ensures out == NfAttrs(bytes, big)
  {
    hide LengthOf, KindOf, Align;
    var b := bytes;
    out := [];
    while |b| >= SIZEOF_NL_ATTR
      invariant NfAttrs(bytes, big) == out + NfAttrs(b, big)
      decreases |b|
    {
      var length := LengthOf(b, big);
      var kind := KindOf(b, big);
      if length < SIZEOF_NL_ATTR || length > |b| {
        return;
      }
      var first := NfAttr(kind % NESTED, b[SIZEOF_NL_ATTR..length], b[..length]);
      var aligned := Align(length);
      ghost var rest := if aligned >= |b| then [] else NfAttrs(b[aligned..], big);
      assert NfAttrs(b, big) == [first] + rest;
      assert out + ([first] + rest) == (out + [first]) + rest;
      out := out + [first];
      if aligned >= |b| {
        return;
      }
      b := b[aligned..];
    }
  }

  function Zeros(n: nat): (z: seq<Byte>)
    ensures |z| == n && forall i :: 0 <= i < n ==> z[i] == 0
  {
    seq(n, _ => 0 as Byte)
  }

  /** The length field is 16 bits wide; a longer attribute wraps it. */
  function Encoded(a: Attr, big: bool): (b: seq<Byte>)
    ensures |b| == Align(SIZEOF_NL_ATTR + |a.data|)
  {
    var n := SIZEOF_NL_ATTR + |a.data|;
    var l := WriteU16(n % 65536, big);
    var k := WriteU16(a.kind, big);
    [l.0, l.1, k.0, k.1] + a.data + Zeros(Align(n) - n)
  }

  method EncodeNfAttr(kind: U16, data: seq<Byte>, big: bool) returns (buf: array<Byte>)
    ensures fresh(buf) && buf[..] == Encoded(Attr(kind, data), big)
  {
    hide WriteU16, Align, Encoded;
    var length := SIZEOF_NL_ATTR + |data|;
    buf := new Byte[Align(length)](_ => 0 as Byte);
    var l := WriteU16(length % 65536, big);
    buf[0], buf[1] := l.0, l.1;
    var k := WriteU16(kind, big);
    buf[2], buf[3] := k.0, k.1;
    var i := 0;
    while i < |data|
      invariant 0 <= i <= |data|
      invariant buf[0] == l.0 && buf[1] == l.1 && buf[2] == k.0 && buf[3] == k.1
      invariant forall j :: SIZEOF_NL_ATTR <= j < SIZEOF_NL_ATTR + i ==> buf[j] == data[j - SIZEOF_NL_ATTR]
      invariant forall j :: length <= j < buf.Length ==> buf[j] == 0
    {
      buf[SIZEOF_NL_ATTR + i] := data[i];
      i := i + 1;
    }
    EncodedBytes(buf[..], Attr(kind, data), big);
  }

  lemma EncodedBytes(b: seq<Byte>, a: Attr, big: bool)
    requires |b| == Align(SIZEOF_NL_ATTR + |a.data|)
    requires var l, k := WriteU16((SIZEOF_NL_ATTR + |a.data|) % 65536, big), WriteU16(a.kind, big);
             b[0] == l.0 && b[1] == l.1 && b[2] == k.0 && b[3] == k.1
    requires forall j :: SIZEOF_NL_ATTR <= j < SIZEOF_NL_ATTR + |a.data| ==> b[j] == a.data[j - SIZEOF_NL_ATTR]
    requires forall j :: SIZEOF_NL_ATTR + |a.data| <= j < |b| ==> b[j] == 0
    ensures b == Encoded(a, big)
  {
    hide WriteU16, Align, Zeros;
    var n := SIZEOF_NL_ATTR + |a.data|;
    assert b[..SIZEOF_NL_ATTR] == Encoded(a, big)[..SIZEOF_NL_ATTR];
    assert b[SIZEOF_NL_ATTR..n] == a.data;
    assert b[n..] == Zeros(Align(n) - n);
    assert b == b[..SIZEOF_NL_ATTR] + b[SIZEOF_NL_ATTR..n] + b[n..];
  }

  function EncodedAll(attrs: seq<Attr>, big: bool): seq<Byte> {
    if attrs == [] then [] else Encoded(attrs[0], big) + EncodedAll(attrs[1..], big)
  }

  /** How a written attribute is read back: without the nested flag. */
  function ReadBack(a: Attr, big: bool): NfAttr {
    NfAttr(a.kind % NESTED, a.data, Encoded(a, big)[..SIZEOF_NL_ATTR + |a.data|])
  }

  function ReadBackAll(attrs: seq<Attr>, big: bool): (r: seq<NfAttr>)
    ensures |r| == |attrs| && forall i :: 0 <= i < |attrs| ==> r[i] == ReadBack(attrs[i], big)
  {
    seq(|attrs|, i requires 0 <= i < |attrs| => ReadBack(attrs[i], big))
  }

  predicate Fits(attrs: seq<Attr>) { forall a :: a in attrs ==> |a.data| <= MAX_PAYLOAD }

  lemma OneRoundTrip(a: Attr, rest: seq<Byte>, big: bool)
    requires |a.data| <= MAX_PAYLOAD
    ensures NfAttrs(Encoded(a, big) + rest, big) == [ReadBack(a, big)] + NfAttrs(rest, big)
  {
    hide LengthOf, KindOf, Align, Encoded, ReadBack;
    var b := Encoded(a, big) + rest;
    var n := SIZEOF_NL_ATTR + |a.data|;
    HeaderReadBack(a, rest, big);
    PayloadReadBack(a, rest, big);
    assert b[Align(n)..] == rest;
    assert Align(n) >= |b| ==> rest == [];
    assert NfAttrs([], big) == [];
  }

  lemma HeaderReadBack(a: Attr, rest: seq<Byte>, big: bool)
    requires |a.data| <= MAX_PAYLOAD
    ensures LengthOf(Encoded(a, big) + rest, big) == SIZEOF_NL_ATTR + |a.data| && KindOf(Encoded(a, big) + rest, big) == a.kind
  {
    hide Zeros, WriteU16, ReadU16, Align;
    U16RoundTrip(SIZEOF_NL_ATTR + |a.data|, big);
    U16RoundTrip(a.kind, big);
  }

  lemma PayloadReadBack(a: Attr, rest: seq<Byte>, big: bool)
    ensures var b, n := Encoded(a, big) + rest, SIZEOF_NL_ATTR + |a.data|;
            NfAttr(a.kind % NESTED, b[SIZEOF_NL_ATTR..n], b[..n]) == ReadBack(a, big)
  {
    hide Zeros, WriteU16, Align;
    var b, n := Encoded(a, big) + rest, SIZEOF_NL_ATTR + |a.data|;
    assert b[SIZEOF_NL_ATTR..n] == a.data;
    assert b[..n] == Encoded(a, big)[..n];
  }

  lemma {:induction false} ParseOfEncoded(attrs: seq<Attr>, big: bool)
    requires Fits(attrs)
    ensures NfAttrs(EncodedAll(attrs, big), big) == ReadBackAll(attrs, big)
  {
    if attrs != [] {
      hide Encoded, NfAttrs, ReadBack, ReadBackAll;
      OneRoundTrip(attrs[0], EncodedAll(attrs[1..], big), big);
      ParseOfEncoded(attrs[1..], big);
      ReadBackCons(attrs, big);
    }
  }

  lemma ReadBackCons(attrs: seq<Attr>, big: bool)
    requires attrs != []
    ensures ReadBackAll(attrs, big) == [ReadBack(attrs[0], big)] + ReadBackAll(attrs[1..], big)
  {
    hide ReadBack, ReadBackAll;
  }

  /** No attribute ever comes out of the parser with more than 65531 bytes, and each is cut
      from the text it was given. */
  lemma {:induction false} ParsedFits(b: seq<Byte>, big: bool)
    ensures forall a :: a in NfAttrs(b, big) ==> |a.data| <= MAX_PAYLOAD && |a.raw| == |a.data| + SIZEOF_NL_ATTR && a.raw[SIZEOF_NL_ATTR..] == a.data
    decreases |b|
  {
    hide KindOf, Align;
    if |b| >= SIZEOF_NL_ATTR {
      var length := LengthOf(b, big);
      if SIZEOF_NL_ATTR <= length <= |b| {
        assert b[..length][SIZEOF_NL_ATTR..] == b[SIZEOF_NL_ATTR..length];
        if Align(length) < |b| {
          ParsedFits(b[Align(length)..], big);
        }
      }
    }
  }

  /** Parsing a concatenation of encoded attributes gives them back exactly when every
      payload is at most 65531 bytes. */
  lemma RoundTrip(attrs: seq<Attr>, big: bool)
    ensures NfAttrs(EncodedAll(attrs, big), big) == ReadBackAll(attrs, big) <==> Fits(attrs)
  {
    if Fits(attrs) {
      ParseOfEncoded(attrs, big);
    } else {
      var a :| a in attrs && |a.data| > MAX_PAYLOAD;
      var i :| 0 <= i < |attrs| && attrs[i] == a;
      assert ReadBackAll(attrs, big)[i].data == a.data;
      assert ReadBackAll(attrs, big)[i] in ReadBackAll(attrs, big);
      ParsedFits(EncodedAll(attrs, big), big);
    }
  }

  // ---- observe.go ----

  /** A kind without its two flag bits. */
  function Unflagged(kind: U16): U16 { kind % NET_BYTEORDER }

  lemma UnflaggedSame(kind: U16)
    ensures Unflagged(kind) == kind <==> kind < NET_BYTEORDER
  {
  }

  function Attrs(b: seq<Byte>, big: bool): Option<seq<Attr>>
    decreases |b|
  {
    if |b| < SIZEOF_NL_ATTR then Some([])
    else
      var length := LengthOf(b, big);
      var kind := KindOf(b, big);
      if length < SIZEOF_NL_ATTR || length > |b| then None
      else
        var first := Attr(Unflagged(kind), b[SIZEOF_NL_ATTR..length]);
        if Align(length) >= |b| then Some([first])
        else match Attrs(b[Align(length)..], big)
             case Some(rest) => Some([first] + rest)
             case None => None
  }

  function FirstAttr(b: seq<Byte>, big: bool): Attr
    requires SIZEOF_NL_ATTR <= |b| && SIZEOF_NL_ATTR <= LengthOf(b, big) <= |b|
  {
    Attr(Unflagged(KindOf(b, big)), b[SIZEOF_NL_ATTR..LengthOf(b, big)])
  }

  /** What has been read and what the rest holds make up the whole. */
  predicate Resumes(whole: Option<seq<Attr>>, out: seq<Attr>, rest: Option<seq<Attr>>) {
    if rest.Some? then whole == Some(out + rest.value) else whole == None
  }

  lemma ResumesOver(whole: Option<seq<Attr>>, out: seq<Attr>, b: seq<Byte>, big: bool)
    requires SIZEOF_NL_ATTR <= |b| && SIZEOF_NL_ATTR <= LengthOf(b, big) <= |b|
    requires Resumes(whole, out, Attrs(b, big))
    ensures var next := out + [FirstAttr(b, big)];
            if Align(LengthOf(b, big)) >= |b| then whole == Some(next) else Resumes(whole, next, Attrs(b[Align(LengthOf(b, big))..], big))
  {
    hide LengthOf, KindOf, Align, Unflagged;
    var first := FirstAttr(b, big);
    if Align(LengthOf(b, big)) < |b| {
      var rest := Attrs(b[Align(LengthOf(b, big))..], big);
      if rest.Some? {
        assert out + ([first] + rest.value) == (out + [first]) + rest.value;
      }
    }
  }

  method ParseAttrs(bytes: seq<Byte>, big: bool) returns (r: Option<seq<Attr>>)
    ensures r == Attrs(bytes, big)
  {
    hide LengthOf, KindOf, Align, Unflagged;
    var b := bytes;
    var out: seq<Attr> := [];
    assert Attrs(b, big).Some? ==> out + Attrs(b, big).value == Attrs(b, big).value;
    while |b| >= SIZEOF_NL_ATTR
      invariant Resumes(Attrs(bytes, big), out, Attrs(b, big))
      decreases |b|
    {
      var length := LengthOf(b, big);
      if length < SIZEOF_NL_ATTR || length > |b| {
        return None;
      }
      ResumesOver(Attrs(bytes, big), out, b, big);
      out := out + [FirstAttr(b, big)];
      var aligned := Align(length);
      if aligned >= |b| {
        return Some(out);
      }
      b := b[aligned..];
    }
    assert out + [] == out;
    r := Some(out);
  }

  // ---- what both find in any bytes ----

  /** The two bytes at p as a number. */
  function At(b: seq<Byte>, p: nat, big: bool): nat
    requires p + 1 < |b|
  {
    if big then b[p] as nat * 256 + b[p + 1] as nat else b[p + 1] as nat * 256 + b[p] as nat
  }

  /** A header whose length takes in itself and stays inside the bytes. */
  predicate Framed(b: seq<Byte>, big: bool) { 4 <= |b| && 4 <= At(b, 0, big) <= |b| }

  /** The attribute at the start of some bytes: its kind without both flags, and with the second. */
  predicate Cut(b: seq<Byte>, big: bool, a: Attr, n: NfAttr)
    requires Framed(b, big)
  {
    var l := At(b, 0, big);
    && a.data == b[4..l] && n.data == b[4..l] && n.raw == b[..l]
    && a.kind == At(b, 2, big) % 0x4000 && n.kind == At(b, 2, big) % 0x8000
  }

  /** What is left behind the first attribute. */
  function Behind(b: seq<Byte>, big: bool): seq<Byte>
    requires Framed(b, big)
  {
    var next := Align(At(b, 0, big));
    if next < |b| then b[next..] else []
  }

  /** Attributes one behind the other, each filled up to a multiple of four bytes unless the
      bytes end first, up to where none is framed; clean if what is left is too short for one. */
  predicate Chain(b: seq<Byte>, big: bool, attrs: seq<Attr>, nf: seq<NfAttr>, clean: bool)
    decreases |b|
  {
    if !Framed(b, big) then attrs == [] && nf == [] && clean == (|b| < 4)
    else
      && attrs != [] && nf != [] && Cut(b, big, attrs[0], nf[0])
      && Chain(Behind(b, big), big, attrs[1..], nf[1..], clean)
  }

  lemma NumbersAt(b: seq<Byte>, big: bool)
    requires |b| >= 4
    ensures LengthOf(b, big) == At(b, 0, big) && KindOf(b, big) == At(b, 2, big)
  {
  }

  lemma NoneFramed(b: seq<Byte>, big: bool)
    requires !Framed(b, big)
    ensures NfAttrs(b, big) == [] && Attrs(b, big) == if |b| < 4 then Some([]) else None
  {
  }

  lemma FirstNf(b: seq<Byte>, big: bool)
    requires Framed(b, big)
    ensures var l := At(b, 0, big);
            NfAttrs(b, big) == [NfAttr(KindOf(b, big) % NESTED, b[4..l], b[..l])] + NfAttrs(Behind(b, big), big)
  {
    hide Align, KindOf, LengthOf, At;
    NumbersAt(b, big);
    assert NfAttrs([], big) == [];
  }

  lemma FirstStrict(b: seq<Byte>, big: bool)
    requires Framed(b, big)
    ensures var first := Attr(Unflagged(KindOf(b, big)), b[4..At(b, 0, big)]);
            Attrs(b, big) == match Attrs(Behind(b, big), big) case Some(more) => Some([first] + more) case None => None
  {
    hide Align, KindOf, LengthOf, At, Unflagged;
    NumbersAt(b, big);
    var first := Attr(Unflagged(KindOf(b, big)), b[4..At(b, 0, big)]);
    assert Attrs([], big) == Some([]) && [first] + [] == [first];
  }

  lemma FirstCut(b: seq<Byte>, big: bool)
    requires Framed(b, big)
    ensures var l := At(b, 0, big);
            Cut(b, big, Attr(Unflagged(KindOf(b, big)), b[4..l]), NfAttr(KindOf(b, big) % NESTED, b[4..l], b[..l]))
    ensures |Behind(b, big)| < |b|
  {
  }

  /** The permissive parser returns, of any bytes, the attributes of their chain; the strict one
      returns the same if the chain ends clean, and fails otherwise. */
  lemma {:induction false} ParsersFind(b: seq<Byte>, big: bool) returns (attrs: seq<Attr>)
    ensures Chain(b, big, attrs, NfAttrs(b, big), Attrs(b, big).Some?)
    ensures Attrs(b, big).Some? ==> Attrs(b, big).value == attrs
    decreases |b|
  {
    hide Align, NfAttrs, Attrs, Cut, At, Behind, Unflagged, KindOf;
    if !Framed(b, big) {
      NoneFramed(b, big);
      attrs := [];
    } else {
      FirstNf(b, big);
      FirstStrict(b, big);
      FirstCut(b, big);
      var rest, first := Behind(b, big), Attr(Unflagged(KindOf(b, big)), b[4..At(b, 0, big)]);
      var more := ParsersFind(rest, big);
      attrs := [first] + more;
      assert attrs[1..] == more && NfAttrs(b, big)[1..] == NfAttrs(rest, big);
    }
  }

  // ---- the two parsers ----

  /** A well-framed text, cut the same way by both; only the flag bits of the kinds are
      treated differently. */
  lemma {:induction false} SameCuts(b: seq<Byte>, big: bool)
    requires Attrs(b, big).Some?
    ensures var x, y := Attrs(b, big).value, NfAttrs(b, big);
            |x| == |y| && forall i :: 0 <= i < |x| ==> x[i].data == y[i].data && x[i].kind == Unflagged(y[i].kind)
    decreases |b|
  {
    hide LengthOf, KindOf, Align, Unflagged;
    if |b| >= SIZEOF_NL_ATTR {
      var length := LengthOf(b, big);
      FlagBits(KindOf(b, big));
      if Align(length) < |b| {
        var rest := b[Align(length)..];
        SameCuts(rest, big);
        assert Attrs(b, big).value[1..] == Attrs(rest, big).value && NfAttrs(b, big)[1..] == NfAttrs(rest, big);
        hide Attrs, NfAttrs;
        forall i | 0 <= i < |Attrs(b, big).value|
          ensures Attrs(b, big).value[i].data == NfAttrs(b, big)[i].data && Attrs(b, big).value[i].kind == Unflagged(NfAttrs(b, big)[i].kind)
        {
          if i > 0 {
            assert Attrs(rest, big).value[i - 1] == Attrs(b, big).value[i] && NfAttrs(rest, big)[i - 1] == NfAttrs(b, big)[i];
          }
        }
      }
    }
  }

  lemma FlagBits(kind: U16)
    ensures Unflagged(kind % NESTED) == Unflagged(kind)
  {
  }

  predicate SameAttrs(x: seq<Attr>, y: seq<NfAttr>) {
    |x| == |y| && forall i :: 0 <= i < |x| ==> x[i].kind == y[i].kind && x[i].data == y[i].data
  }

  /** Where the strict parser succeeds both give the same attributes, exactly when no kind
      carries the byte-order flag. */
  lemma ParsersAgree(b: seq<Byte>, big: bool)
    requires Attrs(b, big).Some?
    ensures SameAttrs(Attrs(b, big).value, NfAttrs(b, big)) <==> forall a :: a in NfAttrs(b, big) ==> a.kind < NET_BYTEORDER
  {
    SameCuts(b, big);
    hide Attrs, NfAttrs, Unflagged;
    var x, y := Attrs(b, big).value, NfAttrs(b, big);
    forall i | 0 <= i < |y| ensures x[i].kind == y[i].kind <==> y[i].kind < NET_BYTEORDER {
      UnflaggedSame(y[i].kind);
    }
    forall a | a in y && SameAttrs(x, y) ensures a.kind < NET_BYTEORDER {
      var i :| 0 <= i < |y| && y[i] == a;
    }
    assert forall i :: 0 <= i < |y| ==> y[i] in y;
  }
}
