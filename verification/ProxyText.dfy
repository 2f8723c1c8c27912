/** The 3proxy config text: its lines and fields, the printer that emits them and
    the tokenizer that reads them back (internal/proxysup/render.go). */
module ProxyText {
  import opened Wrappers
  import opened Text

  datatype Field = Field(text: string, quoted: bool)

  function Bare(s: string): Field { Field(s, false) }

  function Quoted(s: string): Field { Field(s, true) }

  // ---- commands ----

  /** The commands the checks tell apart; an access rule carries the index of the
      argument that lists operations. */
  datatype Kind =
    | Auth | Noforce | Internal | NServer | LogFormat | Timeouts | SetUid | SetGid | Daemon
    | Users | Flush | Allow | Deny | Rule(operations: nat) | Proxy | Socks | Other
  {
    predicate Service() { Proxy? || Socks? }

    predicate Access() { Allow? || Deny? || Rule? }
  }

  function KindOf(cmd: string): Kind {
    if cmd == "auth" then Auth
    else if cmd == "noforce" then Noforce
    else if cmd == "internal" then Internal
    else if cmd == "nserver" then NServer
    else if cmd == "logformat" then LogFormat
    else if cmd == "timeouts" then Timeouts
    else if cmd == "setuid" then SetUid
    else if cmd == "setgid" then SetGid
    else if cmd == "daemon" then Daemon
    else if cmd == "users" then Users
    else if cmd == "flush" then Flush
    else if cmd == "allow" then Allow
    else if cmd == "deny" then Deny
    else if cmd == "proxy" then Proxy
    else if cmd == "socks" then Socks
    else RuleKind(cmd)
  }

  function RuleKind(cmd: string): Kind {
    if cmd == "redirect" || cmd == "connlim" || cmd == "bandlimin" || cmd == "bandlimout" then Rule(6)
    else if cmd == "countin" || cmd == "countout" || cmd == "countall" then Rule(8)
    else if cmd == "noconnlim" || cmd == "nobandlimin" || cmd == "nobandlimout"
         || cmd == "nocountin" || cmd == "nocountout" || cmd == "nocountall" then Rule(4)
    else Other
  }

  /** One significant line, classified by its command. Its number and raw text serve
      error messages only. */
  datatype Line = Line(kind: Kind, fields: seq<Field>)
  {
    function Arg(i: nat): string { if i + 1 >= |fields| then [] else fields[i + 1].text }

    function Args(): seq<Field> { if |fields| < 2 then [] else fields[1..] }

    predicate HasArg(s: string) { exists f :: f in Args() && f.text == s }
  }

  function LineWith(fields: seq<Field>): Line
    requires fields != []
  {
    Line(KindOf(fields[0].text), fields)
  }

  // ---- tokenizing one line ----

  datatype Scan = Scan(out: seq<Field>, cur: string, inTok: bool, inQuote: bool, wasQuoted: bool)

  const SCAN_START := Scan([], [], false, false, false)

  function ScanFlush(st: Scan): Scan {
    if st.inTok then Scan(st.out + [Field(st.cur, st.wasQuoted)], [], false, st.inQuote, false) else st
  }

  function ScanChar(st: Scan, c: char): Scan {
    if c == '"' then st.(inQuote := !st.inQuote, inTok := true, wasQuoted := true)
    else if (c == ' ' || c == '\t') && !st.inQuote then ScanFlush(st)
    else st.(inTok := true, cur := st.cur + [c])
  }

  function ScanAll(st: Scan, s: string): Scan
    decreases s
  {
    if s == [] then st else ScanAll(ScanChar(st, s[0]), s[1..])
  }

  function Fields(s: string): seq<Field> { ScanFlush(ScanAll(SCAN_START, s)).out }

  method Tokenize(s: string) returns (out: seq<Field>)
    ensures out == Fields(s)
  {
    out := [];
    var cur: string := [];
    var inTok, inQuote, wasQuoted := false, false, false;
    var i := 0;
    assert s[0..] == s;
    while i < |s|
      invariant 0 <= i <= |s|
      invariant ScanAll(SCAN_START, s) == ScanAll(Scan(out, cur, inTok, inQuote, wasQuoted), s[i..])
    {
      assert s[i..][0] == s[i] && s[i..][1..] == s[i + 1..];
      var c := s[i];
      if c == '"' {
        inQuote := !inQuote;
        inTok := true;
        wasQuoted := true;
      } else if (c == ' ' || c == '\t') && !inQuote {
        if inTok {
          out, cur, inTok, wasQuoted := out + [Field(cur, wasQuoted)], [], false, false;
        }
      } else {
        inTok := true;
        cur := cur + [c];
      }
      i := i + 1;
    }
    assert s[i..] == [];
    if inTok {
      out := out + [Field(cur, wasQuoted)];
    }
  }

  lemma {:induction false} ScanAppend(st: Scan, a: string, b: string)
    ensures ScanAll(st, a + b) == ScanAll(ScanAll(st, a), b)
    decreases a
  {
    if a == [] {
      assert a + b == b;
    } else {
      assert (a + b)[1..] == a[1..] + b;
      ScanAppend(ScanChar(st, a[0]), a[1..], b);
    }
  }

  predicate PlainChar(c: char) { c != '"' && c != ' ' && c != '\t' }

  lemma {:induction false} ScanPlain(st: Scan, s: string)
    requires s != [] && !st.inQuote
    requires forall c :: c in s ==> PlainChar(c)
    ensures ScanAll(st, s) == st.(cur := st.cur + s, inTok := true)
    decreases s
  {
    assert PlainChar(s[0]);
    if |s| > 1 {
      ScanPlain(ScanChar(st, s[0]), s[1..]);
      assert st.cur + [s[0]] + s[1..] == st.cur + s;
    } else {
      assert s == [s[0]] && s[1..] == [];
    }
  }

  lemma {:induction false} ScanInQuote(st: Scan, s: string)
    requires st.inQuote && st.inTok && '"' !in s
    ensures ScanAll(st, s) == st.(cur := st.cur + s)
    decreases s
  {
    if s == [] {
      assert st.cur + s == st.cur;
    } else {
      assert s[0] != '"';
      ScanInQuote(ScanChar(st, s[0]), s[1..]);
      assert st.cur + [s[0]] + s[1..] == st.cur + s;
    }
  }

  // ---- printing fields ----

  function FieldText(f: Field): string { if f.quoted then "\"" + f.text + "\"" else f.text }

  function WordsText(ws: seq<Field>): string {
    if ws == [] then []
    else if |ws| == 1 then FieldText(ws[0])
    else FieldText(ws[0]) + " " + WordsText(ws[1..])
  }

  predicate PrintableField(f: Field) {
    if f.quoted then '"' !in f.text
    else f.text != [] && forall c :: c in f.text ==> PlainChar(c)
  }

  lemma ScanQuoted(out: seq<Field>, text: string)
    requires '"' !in text
    ensures ScanAll(Scan(out, [], false, false, false), "\"" + text + "\"") == Scan(out, text, true, false, true)
  {
    hide ScanFlush;
    var inside := Scan(out, [], true, true, true);
    var tail := text + "\"";
    assert "\"" + text + "\"" == "\"" + tail;
    assert ("\"" + tail)[0] == '"' && ("\"" + tail)[1..] == tail;
    ScanAppend(inside, text, "\"");
    ScanInQuote(inside, text);
    assert inside.cur + text == text;
    assert ScanAll(inside.(cur := text), "\"") == ScanAll(Scan(out, text, true, false, true), []);
  }

  lemma ScanField(out: seq<Field>, f: Field)
    requires PrintableField(f)
    ensures ScanAll(Scan(out, [], false, false, false), FieldText(f)) == Scan(out, f.text, true, false, f.quoted)
  {
    hide ScanAll;
    if f.quoted {
      ScanQuoted(out, f.text);
    } else {
      ScanPlain(Scan(out, [], false, false, false), f.text);
      assert [] + f.text == f.text;
    }
  }

  lemma {:induction false} ScanWords(out: seq<Field>, ws: seq<Field>)
    requires ws != []
    requires forall f :: f in ws ==> PrintableField(f)
    ensures ScanFlush(ScanAll(Scan(out, [], false, false, false), WordsText(ws))).out == out + ws
    decreases ws
  {
    var st := Scan(out, [], false, false, false);
    ScanField(out, ws[0]);
    if |ws| == 1 {
      assert out + ws == out + [ws[0]];
    } else {
      var rest := WordsText(ws[1..]);
      assert WordsText(ws) == FieldText(ws[0]) + (" " + rest);
      ScanAppend(st, FieldText(ws[0]), " " + rest);
      assert (" " + rest)[0] == ' ' && (" " + rest)[1..] == rest;
      ScanWords(out + [ws[0]], ws[1..]);
      assert out + [ws[0]] + ws[1..] == out + ws;
    }
  }

  /** Reading back a printed line gives its fields and which of them were quoted. */
  lemma FieldsOfWords(ws: seq<Field>)
    requires ws != []
    requires forall f :: f in ws ==> PrintableField(f)
    ensures Fields(WordsText(ws)) == ws
  {
    ScanWords([], ws);
  }

  lemma {:induction false} ScanKeepsOut(st: Scan, s: string)
    ensures st.out <= ScanAll(st, s).out
    decreases s
  {
    if s != [] {
      ScanKeepsOut(ScanChar(st, s[0]), s[1..]);
    }
  }

  /** Whatever follows a plain first word and a space, the first field is that word. */
  lemma FirstFieldOf(word: string, rest: string)
    requires PrintableField(Bare(word))
    ensures var fs := Fields(word + " " + rest); fs != [] && fs[0] == Bare(word)
  {
    var tail := " " + rest;
    assert word + " " + rest == word + tail;
    ScanAppend(SCAN_START, word, tail);
    ScanField([], Bare(word));
    assert tail[0] == ' ' && tail[1..] == rest;
    var after := Scan([Bare(word)], [], false, false, false);
    assert ScanChar(Scan([], word, true, false, false), ' ') == after;
    ScanKeepsOut(after, rest);
    assert [Bare(word)] <= ScanAll(after, rest).out;
  }

  // ---- parsing a whole config ----

  predicate Skipped(trimmed: string) {
    trimmed == [] || trimmed[0] == '#' || trimmed[0] == ' ' || trimmed[0] == '\t'
  }

  function LineOf(raw: string): Option<Line> {
    var trimmed := TrimRight(raw, '\r');
    if Skipped(trimmed) || Fields(trimmed) == [] then None else Some(LineWith(Fields(trimmed)))
  }

  function LinesOf(raws: seq<string>): seq<Line> {
    if raws == [] then []
    else (match LineOf(raws[0]) case Some(l) => [l] case None => []) + LinesOf(raws[1..])
  }

  function ParseText(cfg: string): seq<Line> { LinesOf(Split(cfg, '\n')) }

  method Parse(cfg: string) returns (out: seq<Line>)
    ensures out == ParseText(cfg)
  {
    hide KindOf, Split, TrimRight, Fields;
    out := [];
    var raws := Split(cfg, '\n');
    var i := 0;
    assert raws[0..] == raws;
    while i < |raws|
      invariant 0 <= i <= |raws|
      invariant LinesOf(raws) == out + LinesOf(raws[i..])
    {
      assert raws[i..][0] == raws[i] && raws[i..][1..] == raws[i + 1..];
      var trimmed := TrimRight(raws[i], '\r');
      if !Skipped(trimmed) {
        var fields := Tokenize(trimmed);
        if fields != [] {
          out := out + [LineWith(fields)];
        }
      }
      i := i + 1;
    }
    assert raws[i..] == [] && out + [] == out;
  }

  // ---- printing a whole config ----

  /** A line the renderer emits. The log path is free text, so its line is kept apart. */
  datatype Printed = Words(words: seq<Field>) | LogTo(path: string)
  {
    function Text(): string {
      match this
      case Words(ws) => WordsText(ws)
      case LogTo(path) => "log" + " " + path + " D"
    }

    predicate Printable() {
      match this
      case Words(ws) =>
        && ws != []
        && !ws[0].quoted && ws[0].text != [] && ws[0].text[0] != '#'
        && (forall f :: f in ws ==> PrintableField(f) && '\n' !in f.text && '\r' !in f.text)
      case LogTo(path) => '\n' !in path
    }

    /** The fields the parser finds on this line. */
    function Parsed(): Line
      requires Printable()
    {
      match this
      case Words(ws) => LineWith(ws)
      case LogTo(path) => Line(Other, Fields("log" + " " + path + " D"))
    }
  }

  function PrintAll(prog: seq<Printed>): string {
    if prog == [] then [] else prog[0].Text() + "\n" + PrintAll(prog[1..])
  }

  predicate AllPrintable(prog: seq<Printed>) { forall p :: p in prog ==> p.Printable() }

  function ParsedAll(prog: seq<Printed>): (lines: seq<Line>)
    requires AllPrintable(prog)
    ensures |lines| == |prog|
    ensures forall i :: 0 <= i < |prog| ==> lines[i] == prog[i].Parsed()
  {
    if prog == [] then [] else [prog[0].Parsed()] + ParsedAll(prog[1..])
  }

  lemma {:induction false} PrintAppend(a: seq<Printed>, b: seq<Printed>)
    ensures PrintAll(a + b) == PrintAll(a) + PrintAll(b)
  {
    if a == [] {
      assert a + b == b;
    } else {
      assert (a + b)[1..] == a[1..] + b;
      PrintAppend(a[1..], b);
    }
  }

  lemma ParsedAppend(a: seq<Printed>, b: seq<Printed>)
    requires AllPrintable(a) && AllPrintable(b)
    ensures ParsedAll(a + b) == ParsedAll(a) + ParsedAll(b)
  {
    assert forall i :: 0 <= i < |a| + |b| ==> ParsedAll(a + b)[i] == (ParsedAll(a) + ParsedAll(b))[i];
  }

  lemma {:induction false} WordsTextChars(ws: seq<Field>, c: char)
    requires c != '"' && c != ' '
    requires forall f :: f in ws ==> c !in f.text
    ensures c !in WordsText(ws)
  {
    if |ws| > 1 {
      WordsTextChars(ws[1..], c);
    }
  }

  lemma {:induction false} WordsTextStart(ws: seq<Field>)
    requires ws != [] && !ws[0].quoted && ws[0].text != []
    ensures WordsText(ws) != [] && WordsText(ws)[0] == ws[0].text[0]
  {
  }

  /** A printed line is one line of text and is read back as its fields. */
  lemma LineRoundTrip(p: Printed)
    requires p.Printable()
    ensures '\n' !in p.Text()
    ensures LineOf(p.Text()) == Some(p.Parsed())
  {
    match p
    case Words(ws) =>
      WordsTextChars(ws, '\n');
      WordsTextChars(ws, '\r');
      WordsTextStart(ws);
      assert ws[0].text[0] in ws[0].text;
      assert PrintableField(ws[0]);
      FieldsOfWords(ws);
      assert WordsText(ws)[|WordsText(ws)| - 1] in WordsText(ws);
    case LogTo(path) =>
      var text := "log" + " " + path + " D";
      assert text == "log" + " " + (path + " D");
      FirstFieldOf("log", path + " D");
      assert text[|text| - 1] == 'D';
      assert TrimRight(text, '\r') == text;
  }

  /** Parsing what was printed gives the printed lines, whatever the program. */
  lemma {:induction false} ParseOfPrint(prog: seq<Printed>)
    requires AllPrintable(prog)
    ensures ParseText(PrintAll(prog)) == ParsedAll(prog)
  {
    if prog == [] {
      assert LineOf("") == None;
      assert Split("", '\n') == [""];
      assert LinesOf([""]) == LinesOf([""][1..]);
    } else {
      LineRoundTrip(prog[0]);
      var rest := PrintAll(prog[1..]);
      assert PrintAll(prog) == prog[0].Text() + ['\n'] + rest;
      SplitFirst(prog[0].Text(), '\n', rest);
      var raws := Split(PrintAll(prog), '\n');
      assert raws[0] == prog[0].Text() && raws[1..] == Split(rest, '\n');
      ParseOfPrint(prog[1..]);
    }
  }

  // ---- joining two texts at a line end ----

  lemma {:induction false} SplitAtEnd(a: string, b: string)
    ensures Split(a + ['\n'] + b, '\n') == Split(a, '\n') + Split(b, '\n')
  {
    var s := a + ['\n'] + b;
    if a == [] {
      assert s[1..] == b;
    } else {
      assert s[1..] == a[1..] + ['\n'] + b;
      SplitAtEnd(a[1..], b);
    }
  }

  lemma {:induction false} LinesConcat(a: seq<string>, b: seq<string>)
    ensures LinesOf(a + b) == LinesOf(a) + LinesOf(b)
  {
    hide LineOf;
    if a == [] {
      assert a + b == b;
    } else {
      assert (a + b)[1..] == a[1..] + b;
      LinesConcat(a[1..], b);
    }
  }

  /** Whatever precedes a line end, the lines after it are parsed on their own. */
  lemma ParseConcat(a: string, b: string)
    ensures ParseText(a + ['\n'] + b) == ParseText(a) + ParseText(b)
  {
    SplitAtEnd(a, b);
    LinesConcat(Split(a, '\n'), Split(b, '\n'));
  }

  lemma {:induction false} PrintEndsLine(prog: seq<Printed>) returns (text: string)
    requires prog != []
    ensures PrintAll(prog) == text + ['\n']
  {
    hide Printed.Text;
    if |prog| == 1 {
      text := prog[0].Text();
      assert PrintAll(prog) == prog[0].Text() + "\n" + [];
    } else {
      var rest := PrintEndsLine(prog[1..]);
      text := prog[0].Text() + "\n" + rest;
    }
  }
}
