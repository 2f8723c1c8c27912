/** What the checks on a config accept, in the words of its lines
    (internal/proxysup/render.go, Verify). */
module ProxyWords {
  import opened Wrappers
  import opened Text
  import opened Netip
  import opened ProxySpec
  import opened ProxyText
  import opened ProxyProgram
  import opened ProxyVerify

  predicate Is(l: Line, cmd: string) { l.fields != [] && l.fields[0].text == cmd }

  /** The i-th word of a line, the command being word 0; one that is not there is empty. */
  function Word(l: Line, i: nat): string { if i < |l.fields| then l.fields[i].text else "" }

  predicate Names(l: Line, word: string) { exists i :: 1 <= i < |l.fields| && l.fields[i].text == word }

  // ---- commands ----

  lemma SettingKinds(cmd: string)
    ensures KindOf(cmd).Auth? <==> cmd == "auth"
    ensures KindOf(cmd).Noforce? <==> cmd == "noforce"
    ensures KindOf(cmd).Internal? <==> cmd == "internal"
    ensures KindOf(cmd).NServer? <==> cmd == "nserver"
    ensures KindOf(cmd).LogFormat? <==> cmd == "logformat"
    ensures KindOf(cmd).Timeouts? <==> cmd == "timeouts"
    ensures KindOf(cmd).SetUid? <==> cmd == "setuid"
    ensures KindOf(cmd).SetGid? <==> cmd == "setgid"
    ensures KindOf(cmd).Daemon? <==> cmd == "daemon"
  {
    hide RuleKind;
    RuleOrOther(cmd);
  }

  lemma AccessKinds(cmd: string)
    ensures KindOf(cmd).Users? <==> cmd == "users"
    ensures KindOf(cmd).Flush? <==> cmd == "flush"
    ensures KindOf(cmd).Allow? <==> cmd == "allow"
    ensures KindOf(cmd).Deny? <==> cmd == "deny"
    ensures KindOf(cmd).Proxy? <==> cmd == "proxy"
    ensures KindOf(cmd).Socks? <==> cmd == "socks"
  {
    hide RuleKind;
    RuleOrOther(cmd);
  }

  lemma RuleOrOther(cmd: string)
    ensures RuleKind(cmd).Rule? || RuleKind(cmd).Other?
  {
  }

  predicate Significant(l: Line) { l.fields != [] && l.kind == KindOf(l.fields[0].text) }

  lemma {:induction false} LinesSignificant(raws: seq<string>)
    ensures forall l :: l in LinesOf(raws) ==> Significant(l)
  {
    hide KindOf, Fields;
    if raws != [] {
      LinesSignificant(raws[1..]);
    }
  }

  lemma ParsedSignificant(cfg: string)
    ensures forall l :: l in ParseText(cfg) ==> Significant(l)
  {
    LinesSignificant(Split(cfg, '\n'));
  }

  // ---- global settings ----

  /** What one line may say. */
  predicate SettingSays(l: Line, sp: Spec) {
    && (Is(l, "auth") ==> !Names(l, "none") && (Names(l, "iponly") <==> sp.authMode.IpList? || sp.authMode.Both?))
    && (Is(l, "internal") ==> ParseAddr(Word(l, 1)) == Some(sp.internalIp))
    && (Is(l, "logformat") ==> Contains(Word(l, 1), "%e"))
    && (Is(l, "timeouts") ==> |l.fields| == 11)
    && (Is(l, "setuid") ==> Word(l, 1) == Itoa(6100 + sp.slot))
    && (Is(l, "setgid") ==> Word(l, 1) == Itoa(6100))
    && !Is(l, "daemon")
  }

  predicate Somewhere(lines: seq<Line>, cmd: string) { exists l :: l in lines && Is(l, cmd) }

  predicate LastAuthNamesStrong(lines: seq<Line>) {
    exists i :: 0 <= i < |lines| && Is(lines[i], "auth") && Names(lines[i], "strong") && forall j :: i < j < |lines| ==> !Is(lines[j], "auth")
  }

  lemma ArgWord(l: Line, i: nat)
    requires l.fields != []
    ensures l.Arg(i) == Word(l, i + 1) && |l.Args()| == |l.fields| - 1
  {
  }

  lemma ArgNamed(l: Line, word: string)
    requires l.fields != []
    ensures l.HasArg(word) <==> Names(l, word)
  {
    if l.HasArg(word) {
      var f :| f in l.Args() && f.text == word;
      var i :| 0 <= i < |l.Args()| && l.Args()[i] == f;
      assert l.fields[i + 1].text == word;
    }
    if Names(l, word) {
      var i :| 1 <= i < |l.fields| && l.fields[i].text == word;
      assert l.Args()[i - 1] in l.Args();
    }
  }

  lemma SettingMeans(l: Line, sp: Spec)
    requires Significant(l)
    ensures GlobalLineOk(l, sp) <==> SettingSays(l, sp)
  {
    hide KindOf, ParseAddr, Contains, Itoa, Names, Line.HasArg, Word, Line.Arg, Line.Args;
    SettingKinds(l.fields[0].text);
    ArgWord(l, 0);
    ArgNamed(l, "none");
    ArgNamed(l, "iponly");
  }

  lemma SomewhereIs(lines: seq<Line>, k: Kind, cmd: string)
    requires forall l :: l in lines ==> (l.kind == k <==> Is(l, cmd))
    ensures Has(lines, k) <==> Somewhere(lines, cmd)
  {
  }

  lemma SomewhereMeans(lines: seq<Line>)
    requires forall l :: l in lines ==> Significant(l)
    ensures Has(lines, Noforce) <==> Somewhere(lines, "noforce")
    ensures Has(lines, Internal) <==> Somewhere(lines, "internal")
    ensures Has(lines, LogFormat) <==> Somewhere(lines, "logformat")
    ensures Has(lines, Timeouts) <==> Somewhere(lines, "timeouts")
    ensures Has(lines, NServer) <==> Somewhere(lines, "nserver")
  {
    hide KindOf, Has, Somewhere;
    forall l | l in lines
      ensures (l.kind == Noforce <==> Is(l, "noforce")) && (l.kind == Internal <==> Is(l, "internal")) && (l.kind == LogFormat <==> Is(l, "logformat"))
              && (l.kind == Timeouts <==> Is(l, "timeouts")) && (l.kind == NServer <==> Is(l, "nserver"))
    {
      SettingKinds(l.fields[0].text);
    }
    SomewhereIs(lines, Noforce, "noforce");
    SomewhereIs(lines, Internal, "internal");
    SomewhereIs(lines, LogFormat, "logformat");
    SomewhereIs(lines, Timeouts, "timeouts");
    SomewhereIs(lines, NServer, "nserver");
  }

  lemma LastAuthMeans(lines: seq<Line>)
    requires forall l :: l in lines ==> Significant(l)
    ensures LastAuthStrong(lines) <==> LastAuthNamesStrong(lines)
  {
    hide KindOf, Names, Line.HasArg;
    forall i | 0 <= i < |lines| ensures (lines[i].kind.Auth? <==> Is(lines[i], "auth")) && (lines[i].HasArg(AUTH_STRONG) <==> Names(lines[i], "strong")) {
      assert lines[i] in lines;
      SettingKinds(lines[i].fields[0].text);
      ArgNamed(lines[i], "strong");
    }
  }

  /** The settings of a text pass exactly if every line says nothing against the spec, the last
      auth line names "strong", and the settings asked for are all there. */
  lemma GlobalsMean(cfg: string, sp: Spec)
    ensures var lines := ParseText(cfg);
            GlobalsAccepted(lines, sp) <==>
            && (forall l :: l in lines ==> SettingSays(l, sp)) && LastAuthNamesStrong(lines)
            && Somewhere(lines, "noforce") && Somewhere(lines, "internal") && Somewhere(lines, "logformat")
            && Somewhere(lines, "timeouts") && Somewhere(lines, "nserver")
  {
    hide ParseText, GlobalLineOk, SettingSays, LastAuthStrong, LastAuthNamesStrong, Has, Somewhere;
    ParsedSignificant(cfg);
    var lines := ParseText(cfg);
    forall l | l in lines ensures GlobalLineOk(l, sp) <==> SettingSays(l, sp) {
      SettingMeans(l, sp);
    }
    SomewhereMeans(lines);
    LastAuthMeans(lines);
  }

  // ---- credentials ----

  predicate NameSays(name: string) { 1 <= |name| <= 63 && forall c :: c in name ==> IsAlnum(c) || c == '_' || c == '-' || c == '.' }

  predicate PasswordSays(pass: string) { |pass| == 16 && forall c :: c in pass ==> IsAlnum(c) }

  /** A quoted name:CL:password, the name of 1 to 63 letters, digits, "_", "-" and ".", the
      password of 16 letters and digits. */
  ghost predicate EntrySays(f: Field) {
    f.quoted && exists name, pass :: f.text == name + ":CL:" + pass && NameSays(name) && PasswordSays(pass)
  }

  lemma NamesMean(name: string, pass: string)
    ensures ValidUsername(name) <==> NameSays(name)
    ensures ValidPassword(pass) <==> PasswordSays(pass)
  {
    hide IsAlnum;
  }

  lemma ThreeParts(text: string)
    requires |Split(text, ':')| == 3
    ensures var parts := Split(text, ':'); text == parts[0] + ":" + parts[1] + ":" + parts[2]
  {
    var parts := Split(text, ':');
    JoinOfSplit(text, ':');
    assert parts[1..][1..] == [parts[2]] && [':'] == ":";
    assert Join(parts[1..], ":") == parts[1] + ":" + parts[2];
    assert parts[0] + ":" + (parts[1] + ":" + parts[2]) == parts[0] + ":" + parts[1] + ":" + parts[2];
  }

  lemma SplitEntry(name: string, pass: string)
    requires ':' !in name && ':' !in pass
    ensures Split(name + ":CL:" + pass, ':') == [name, "CL", pass]
  {
    SplitFirst(name, ':', "CL" + [':'] + pass);
    SplitFirst("CL", ':', pass);
    SplitWhole(pass, ':');
    assert name + ":CL:" + pass == name + [':'] + ("CL" + [':'] + pass);
    assert [name] + (["CL"] + [pass]) == [name, "CL", pass];
  }

  lemma NoColon(name: string, pass: string)
    requires NameSays(name) && PasswordSays(pass)
    ensures ':' !in name && ':' !in pass
  {
    assert !IsAlnum(':');
  }

  lemma EntryMeans(f: Field)
    ensures EntryOk(f) <==> EntrySays(f)
  {
    hide Split, NameSays, PasswordSays, ValidUsername, ValidPassword;
    if EntryOk(f) {
      var parts := Split(f.text, ':');
      ThreeParts(f.text);
      NamesMean(parts[0], parts[2]);
      assert parts[0] + ":" + "CL" + ":" + parts[2] == parts[0] + ":CL:" + parts[2];
    }
    if EntrySays(f) {
      var name, pass :| f.text == name + ":CL:" + pass && NameSays(name) && PasswordSays(pass);
      NoColon(name, pass);
      SplitEntry(name, pass);
      NamesMean(name, pass);
    }
  }

  // ---- services ----

  /** "-a" and "-4" are there and a "-p" with the port; every word that starts with "-a" is "-a", and
      every other one that starts with "-p" carries the port. */
  ghost predicate ServiceSays(l: Line, port: int) {
    && Names(l, "-a") && Names(l, "-4") && (exists i :: 1 <= i < |l.fields| && "-p" <= l.fields[i].text)
    && (forall i :: 1 <= i < |l.fields| && "-a" <= l.fields[i].text ==> l.fields[i].text == "-a")
    && (forall i :: 1 <= i < |l.fields| && "-p" <= l.fields[i].text ==> Atoi(l.fields[i].text[2..]) == Some(port))
  }

  lemma ServiceMeans(l: Line, port: int)
    requires l.fields != []
    ensures ServiceOk(l, port) <==> ServiceSays(l, port)
  {
    hide Atoi;
    ArgNamed(l, "-a");
    ArgNamed(l, "-4");
    var args := l.Args();
    forall i | 1 <= i < |l.fields| ensures l.fields[i] in args && ServiceArgOk(l.fields[i].text, port) ==
        (("-a" <= l.fields[i].text ==> l.fields[i].text == "-a") && ("-p" <= l.fields[i].text ==> Atoi(l.fields[i].text[2..]) == Some(port)))
    {
      assert args[i - 1] == l.fields[i];
      FlagsDiffer(l.fields[i].text);
    }
    forall f | f in args ensures exists i :: 1 <= i < |l.fields| && l.fields[i] == f {
      var j :| 0 <= j < |args| && args[j] == f;
      assert l.fields[j + 1] == f;
    }
    hide ServiceArgOk;
  }

  // ---- access rules ----

  lemma DenyMeans(l: Line)
    requires Significant(l)
    ensures BareDeny(l) <==> Is(l, "deny") && |l.fields| == 2 && Word(l, 1) == "*"
    ensures forall name :: UserAllowed(l, name) <==> Is(l, "allow") && Word(l, 1) == name && name != "*"
    ensures forall net :: NetAllowed(l, net) <==> Is(l, "allow") && Word(l, 1) == "*" && Word(l, 2) == net
  {
    hide KindOf;
    AccessKinds(l.fields[0].text);
  }

  /** Which word of a rule lists operations; 0 if none does. */
  function OperationsAt(cmd: string): nat {
    if cmd == "redirect" || cmd == "connlim" || cmd == "bandlimin" || cmd == "bandlimout" then 7
    else if cmd == "countin" || cmd == "countout" || cmd == "countall" then 9
    else if cmd == "allow" || cmd == "deny" || cmd == "noconnlim" || cmd == "nobandlimin" || cmd == "nobandlimout"
         || cmd == "nocountin" || cmd == "nocountout" || cmd == "nocountall" then 5
    else 0
  }

  lemma RuleKinds(cmd: string)
    ensures KindOf(cmd).Rule? ==> OperationsAt(cmd) == KindOf(cmd).operations + 1
    ensures KindOf(cmd).Allow? || KindOf(cmd).Deny? ==> OperationsAt(cmd) == 5
    ensures !KindOf(cmd).Access() ==> OperationsAt(cmd) == 0
  {
  }

  lemma OperationsMean(l: Line)
    requires Significant(l)
    ensures OperationsOk(l) <==> OperationsAt(l.fields[0].text) == 0 || OperationListOk(Word(l, OperationsAt(l.fields[0].text)))
  {
    hide KindOf, OperationsAt, OperationListOk;
    RuleKinds(l.fields[0].text);
  }
}
