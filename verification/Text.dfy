/** The text primitives the config printer and parser share: decimal numbers
    (strconv.Itoa, strconv.Atoi), strings.Split, strings.Join and
    strings.TrimSpace. A string is a sequence of bytes, written as `char`. */
module Text {
  import opened Wrappers

  const MIN_INT64: int := -0x8000_0000_0000_0000
  const MAX_INT64: int := 0x7fff_ffff_ffff_ffff

  predicate IsDigit(c: char) { '0' <= c <= '9' }

  predicate AllDigits(s: string) { forall c :: c in s ==> IsDigit(c) }

  function ItoaNat(n: nat): (s: string)
    ensures s != [] && AllDigits(s)
    ensures n > 0 ==> s[0] != '0'
    ensures n < 1000 ==> |s| <= 3
    ensures n < 100 ==> |s| <= 2
    ensures n < 10 ==> |s| == 1
  {
    var last := ['0' + (n % 10) as char];
    if n < 10 then last else ItoaNat(n / 10) + last
  }

  function Itoa(n: int): string {
    if n < 0 then "-" + ItoaNat(-n) else ItoaNat(n)
  }

  function DigitsValue(s: string): (v: int)
    requires AllDigits(s)
    ensures v >= 0
  {
    if s == [] then 0
    else
      assert s[|s| - 1] in s;
      10 * DigitsValue(s[..|s| - 1]) + (s[|s| - 1] as int - '0' as int)
  }

  /** strconv.Atoi: an optional sign, at least one digit, no overflow of 64 bits. */
  function Atoi(s: string): Option<int> {
    var signed := s != [] && (s[0] == '-' || s[0] == '+');
    var digits := if signed then s[1..] else s;
    if digits == [] || !AllDigits(digits) then None
    else
      var v: int := if signed && s[0] == '-' then -DigitsValue(digits) else DigitsValue(digits);
      if MIN_INT64 <= v <= MAX_INT64 then Some(v) else None
  }

  lemma {:induction false} DigitsOfItoa(n: nat)
    ensures DigitsValue(ItoaNat(n)) == n
  {
    var s := ItoaNat(n);
    assert s[|s| - 1] as int - '0' as int == n % 10;
    if n < 10 {
      assert s[..|s| - 1] == [];
    } else {
      DigitsOfItoa(n / 10);
      assert s[..|s| - 1] == ItoaNat(n / 10);
    }
  }

  lemma AtoiOfItoa(n: int)
    requires MIN_INT64 <= n <= MAX_INT64
    ensures Atoi(Itoa(n)) == Some(n)
  {
    var s := Itoa(n);
    if n < 0 {
      assert s[0] == '-' && s[1..] == ItoaNat(-n);
      DigitsOfItoa(-n);
    } else {
      assert s[0] in s && IsDigit(s[0]);
      DigitsOfItoa(n);
    }
  }

  // ---- strings.Split and strings.Join with a one-byte separator ----

  function Split(s: string, sep: char): (parts: seq<string>)
    ensures parts != []
  {
    if s == [] then [[]]
    else
      var rest := Split(s[1..], sep);
      if s[0] == sep then [[]] + rest else [[s[0]] + rest[0]] + rest[1..]
  }

  function Join(parts: seq<string>, sep: string): string {
    if parts == [] then []
    else if |parts| == 1 then parts[0]
    else parts[0] + sep + Join(parts[1..], sep)
  }

  lemma {:induction false} SplitWhole(s: string, sep: char)
    requires sep !in s
    ensures Split(s, sep) == [s]
  {
    if s != [] {
      SplitWhole(s[1..], sep);
      assert [s[0]] + s[1..] == s;
    }
  }

  lemma {:induction false} SplitFirst(a: string, sep: char, b: string)
    requires sep !in a
    ensures Split(a + [sep] + b, sep) == [a] + Split(b, sep)
  {
    var s := a + [sep] + b;
    if a == [] {
      assert s[1..] == b;
    } else {
      SplitFirst(a[1..], sep, b);
      assert s[1..] == a[1..] + [sep] + b;
      assert [a[0]] + a[1..] == a;
    }
  }

  lemma {:induction false} SplitOfJoin(parts: seq<string>, sep: char)
    requires parts != []
    requires forall p :: p in parts ==> sep !in p
    ensures Split(Join(parts, [sep]), sep) == parts
  {
    if |parts| == 1 {
      SplitWhole(parts[0], sep);
    } else {
      SplitFirst(parts[0], sep, Join(parts[1..], [sep]));
      SplitOfJoin(parts[1..], sep);
    }
  }

  /** Splitting loses nothing but the separators. */
  lemma {:induction false} JoinOfSplit(s: string, sep: char)
    ensures Join(Split(s, sep), [sep]) == s
    ensures forall p :: p in Split(s, sep) ==> sep !in p
  {
    if s != [] {
      var rest := Split(s[1..], sep);
      JoinOfSplit(s[1..], sep);
      assert s == [s[0]] + s[1..];
      assert rest[0] in rest;
      if s[0] == sep {
        assert ([[]] + rest)[1..] == rest;
        assert Split(s, sep) == [[]] + rest;
      } else {
        var parts := Split(s, sep);
        assert parts == [[s[0]] + rest[0]] + rest[1..] && parts[1..] == rest[1..];
        assert |rest| > 1 ==> Join(parts, [sep]) == [s[0]] + (rest[0] + [sep] + Join(rest[1..], [sep]));
      }
    }
  }

  lemma {:induction false} JoinChars(parts: seq<string>, sep: string, c: char)
    requires c !in sep
    requires forall p :: p in parts ==> c !in p
    ensures c !in Join(parts, sep)
  {
    if |parts| > 1 {
      JoinChars(parts[1..], sep, c);
    }
  }

  // ---- strings.TrimSpace and strings.TrimRight ----

  predicate IsSpace(c: char) {
    c == ' ' || c == '\t' || c == '\n' || c == '\r' || c == 11 as char || c == 12 as char
  }

  function TrimLeftSpace(s: string): string {
    if s != [] && IsSpace(s[0]) then TrimLeftSpace(s[1..]) else s
  }

  function TrimRightSpace(s: string): string {
    if s != [] && IsSpace(s[|s| - 1]) then TrimRightSpace(s[..|s| - 1]) else s
  }

  function TrimSpace(s: string): string { TrimRightSpace(TrimLeftSpace(s)) }

  predicate Spaces(s: string) { forall c :: c in s ==> IsSpace(c) }

  predicate Trimmed(s: string) { s == [] || (!IsSpace(s[0]) && !IsSpace(s[|s| - 1])) }

  lemma {:induction false} TrimLeftMeans(s: string)
    ensures exists a :: Spaces(a) && s == a + TrimLeftSpace(s)
    ensures TrimLeftSpace(s) != [] ==> !IsSpace(TrimLeftSpace(s)[0])
  {
    if s != [] && IsSpace(s[0]) {
      TrimLeftMeans(s[1..]);
      var a :| Spaces(a) && s[1..] == a + TrimLeftSpace(s[1..]);
      assert Spaces([s[0]] + a) && s == ([s[0]] + a) + TrimLeftSpace(s);
    } else {
      assert Spaces([]) && s == [] + TrimLeftSpace(s);
    }
  }

  lemma {:induction false} TrimRightMeans(s: string)
    ensures exists b :: Spaces(b) && s == TrimRightSpace(s) + b
    ensures TrimRightSpace(s) != [] ==> TrimRightSpace(s)[0] == s[0] && !IsSpace(TrimRightSpace(s)[|TrimRightSpace(s)| - 1])
  {
    var n := |s|;
    if s != [] && IsSpace(s[n - 1]) {
      TrimRightMeans(s[..n - 1]);
      var b :| Spaces(b) && s[..n - 1] == TrimRightSpace(s[..n - 1]) + b;
      assert Spaces(b + [s[n - 1]]) && s == TrimRightSpace(s) + (b + [s[n - 1]]);
    } else {
      assert Spaces([]) && s == TrimRightSpace(s) + [];
    }
  }

  /** Trimming takes away space at both ends, all of it and nothing else. */
  lemma TrimMeans(s: string)
    ensures Trimmed(TrimSpace(s)) && exists a, b :: Spaces(a) && Spaces(b) && s == a + TrimSpace(s) + b
  {
    TrimLeftMeans(s);
    TrimRightMeans(TrimLeftSpace(s));
    var a :| Spaces(a) && s == a + TrimLeftSpace(s);
    var b :| Spaces(b) && TrimLeftSpace(s) == TrimSpace(s) + b;
    assert s == a + TrimSpace(s) + b;
  }

  function TrimRight(s: string, c: char): string {
    if s != [] && s[|s| - 1] == c then TrimRight(s[..|s| - 1], c) else s
  }

  predicate Contains(s: string, sub: string) {
    exists i :: 0 <= i <= |s| && sub <= s[i..]
  }
}
