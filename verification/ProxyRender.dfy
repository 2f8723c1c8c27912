/** Every line Render emits is one line of text that the parser reads back unchanged
    (internal/proxysup/render.go, Render). */
module ProxyRender {
  import opened Text
  import opened Netip
  import opened Domain
  import opened ProxySpec
  import opened ProxyText
  import opened ProxyProgram

  // ---- every line can be printed and read back ----

  predicate Plain(s: string) { s != [] && forall c :: c in s ==> PlainChar(c) && c != '\n' && c != '\r' }

  predicate PlainWords(ws: seq<string>) {
    ws != [] && (forall s :: s in ws ==> Plain(s)) && ws[0] != [] && ws[0][0] != '#'
  }

  lemma WordsPrintable(ws: seq<string>)
    requires PlainWords(ws)
    ensures W(ws).Printable()
  {
    forall f | f in Bares(ws) ensures PrintableField(f) && '\n' !in f.text && '\r' !in f.text {
      var i :| 0 <= i < |ws| && f == Bare(ws[i]);
      assert Plain(ws[i]);
    }
  }

  lemma ItoaPlain(n: nat)
    ensures Plain(Itoa(n))
  {
  }

  lemma AddrPlain(ip: Addr)
    requires ip.V4?
    ensures Plain(ip.Text())
  {
    forall c | c in ip.Text() ensures PlainChar(c) && c != '\n' && c != '\r' {
      if !IsDigit(c) && c != '.' { AddrTextPlain(ip, c); }
    }
    AddrTextPlain(ip, ' ');
  }

  lemma PrefixPlain(p: Prefix)
    requires p.Valid4()
    ensures Plain(p.Text()) && p.Text() != "*"
  {
    forall c | c in p.Text() ensures PlainChar(c) && c != '\n' && c != '\r' {
      if !IsDigit(c) && c != '.' && c != '/' { PrefixTextPlain(p, c); }
    }
    PrefixTextPlain(p, ' ');
    PrefixTextPlain(p, '*');
    assert '*' in "*";
  }

  lemma NamePlain(u: User)
    requires ValidUsername(u.name)
    ensures Plain(u.name) && u.name != "*"
  {
    assert !IsNameChar('*') && '*' in "*";
  }

  lemma PortsPlain(policy: ProxyPolicy)
    requires policy.Valid()
    ensures var ports := PortList(policy); ports == [] || (Plain(ports) && ports != "*")
    ensures PortList(policy) == [] <==> policy.allowAllPorts || policy.allowedPorts == []
  {
    var ports := PortList(policy);
    if !policy.allowAllPorts && policy.allowedPorts != [] {
      PortRangesRoundTrip(policy.allowedPorts);
      forall c | c in ports ensures PlainChar(c) && c != '\n' && c != '\r' {
        if !IsDigit(c) && c != '-' && c != ',' { RangeTextsPlain(policy.allowedPorts, c); }
      }
      RangeTextsPlain(policy.allowedPorts, '*');
      assert '*' in "*";
    }
  }

  // The fixed words of the config language.

  lemma AclWords()
    ensures Plain("*") && Plain("allow") && Plain("deny") && Plain("flush")
  {
  }

  lemma ServiceWords()
    ensures Plain("proxy") && Plain("socks") && Plain("-a") && Plain("-4")
  {
  }

  lemma ServerWords()
    ensures Plain("nscache") && Plain("nserver") && Plain("connlim") && Plain("0") && Plain("noforce")
  {
  }

  lemma LimitWords()
    ensures Plain("rotate") && Plain("logdump") && Plain("setgid") && Plain("setuid") && Plain("maxconn")
  {
  }

  lemma AuthWords()
    ensures Plain("auth") && Plain("iponly") && Plain("strong") && Plain("external") && Plain("internal")
  {
  }

  lemma TimeoutWords()
    ensures Plain("timeouts") && Plain("1") && Plain("5") && Plain("30") && Plain("60") && Plain("180") && Plain("1800") && Plain("15") && Plain("10")
  {
  }

  lemma UserLinePrintable(u: User)
    requires ValidUsername(u.name) && ValidPassword(u.password)
    ensures UserLine(u).Printable()
  {
    var entry := u.name + ":" + PASSWORD_TYPE + ":" + u.password;
    forall c | c in entry ensures c != '"' && c != '\n' && c != '\r' {
      assert c in u.name || c == ':' || c in PASSWORD_TYPE || c in u.password;
    }
    assert Plain("users");
  }

  lemma TimeoutsPrintable()
    ensures W(["timeouts"] + TIMEOUT_VALUES).Printable()
  {
    TimeoutWords();
    hide Plain;
    WordsPrintable(["timeouts"] + TIMEOUT_VALUES);
  }

  predicate LineSafe(s: string) { '"' !in s && '\n' !in s && '\r' !in s }

  lemma LogFormatTime()
    ensures LineSafe(LOG_FORMAT_TIME)
  {
  }

  lemma LogFormatWho()
    ensures LineSafe(LOG_FORMAT_WHO)
  {
  }

  lemma LogFormatWhat()
    ensures LineSafe(LOG_FORMAT_WHAT)
  {
  }

  lemma LogFormatPrintable()
    ensures Words([Bare("logformat"), Quoted(LOG_FORMAT)]).Printable()
  {
    assert Plain("logformat");
    LogFormatTime();
    LogFormatWho();
    LogFormatWhat();
    hide LOG_FORMAT_TIME, LOG_FORMAT_WHO, LOG_FORMAT_WHAT;
  }

  lemma ServicePrintable(service: string, port: nat)
    requires service == SERVICE_PROXY || service == SERVICE_SOCKS
    ensures ServiceLine(service, port).Printable()
  {
    ServiceWords();
    ItoaPlain(port);
    assert Plain("-p");
    forall c | c in "-p" + Itoa(port) ensures PlainChar(c) && c != '\n' && c != '\r' {
      assert c in "-p" || c in Itoa(port);
    }
    WordsPrintable([service, "-p" + Itoa(port), ANON_FLAG, FAMILY_FLAG]);
  }
}
