/**
 * WebSocket URIs (section 3 of RFC 6455): the parsing constructor, the port,
 * and the text of a URI.
 */
module Uri {
  import opened Wrappers

  const DEFAULT_PORT := 80
  const DEFAULT_SECURE_PORT := 443

  datatype Parts = Parts(scheme: string, host: string, port: nat, resource: string, secure: bool)

  function DefaultPort(secure: bool): nat {
    if secure then DEFAULT_SECURE_PORT else DEFAULT_PORT
  }

  // ----- Numbers in text -----

  predicate IsDigit(c: char) {
    '0' <= c <= '9'
  }

  predicate IsSpace(c: char) {
    c == ' ' || 9 <= c as int <= 13
  }

  function DigitsValue(s: string, acc: nat): nat {
    if s == "" || !IsDigit(s[0]) then acc else DigitsValue(s[1..], acc * 10 + (s[0] as int - '0' as int))
  }

  /** The C function: leading white space, a sign, digits, and anything after them. */
  function Atoi(s: string): int {
    if s == "" then 0
    else if IsSpace(s[0]) then Atoi(s[1..])
    else if s[0] == '-' then 0 - DigitsValue(s[1..], 0) as int
    else if s[0] == '+' then DigitsValue(s[1..], 0)
    else DigitsValue(s, 0)
  }

  /** No text means the default; otherwise the number must be a port other than 0. */
  function PortFromString(port: string, secure: bool): Option<nat> {
    if port == "" then Some(DefaultPort(secure))
    else
      var p := Atoi(port) % 0x1_0000_0000;
      if p > 65535 || p == 0 then None else Some(p)
  }

  function Decimal(n: nat): (s: string)
    ensures s != ""
  {
    var digit := (n % 10 + '0' as int) as char;
    if n < 10 then [digit] else Decimal(n / 10) + [digit]
  }

  // ----- The grammar the constructor reads -----

  /** The scheme, and whether it is a secure one, if the text has at least one character after it. */
  function SchemeOf(s: string): Option<(string, bool)> {
    if |s| >= 7 && s[..6] == "wss://" then Some(("wss", true))
    else if |s| >= 6 && s[..5] == "ws://" then Some(("ws", false))
    else if |s| >= 8 && s[..7] == "http://" then Some(("http", false))
    else if |s| >= 9 && s[..8] == "https://" then Some(("https", true))
    else None
  }

  /** Up to a colon or a slash, which is left out of both parts. */
  datatype Host = Host(host: string, hasPort: bool, rest: string)

  function TakeHost(t: string): (h: Host)
    ensures |h.rest| <= |t|
  {
    if t == "" then Host("", false, "")
    else if t[0] == '/' then Host("", false, t[1..])
    else if t[0] == ':' then Host("", true, t[1..])
    else
      var h := TakeHost(t[1..]);
      h.(host := [t[0]] + h.host)
  }

  function AfterLiteral(t: string): Option<Host> {
    if t == "" then Some(Host("", false, ""))
    else if t[0] == '/' then Some(Host("", false, t[1..]))
    else if t[0] == ':' then Some(Host("", true, t[1..]))
    else None
  }

  /** What stands in square brackets, and what may follow them. */
  function TakeLiteral(t: string): Option<Host> {
    if t == "" then None
    else if t[0] == ']' then
      AfterLiteral(t[1..])
    else
      match TakeLiteral(t[1..])
      case None => None
      case Some(h) => Some(h.(host := [t[0]] + h.host))
  }

  /** Up to a slash, which is left out of both parts. */
  datatype Port = Port(text: string, rest: string)

  function TakePort(t: string): Port {
    if t == "" then Port("", "")
    else if t[0] == '/' then Port("", t[1..])
    else PortPrepended([t[0]], TakePort(t[1..]))
  }

  function PortPrepended(t: string, p: Port): Port {
    p.(text := t + p.text)
  }

  function Finish(scheme: string, secure: bool, h: Host): Option<Parts> {
    var port := if h.hasPort then TakePort(h.rest) else Port("", h.rest);
    match PortFromString(port.text, secure)
    case None => None
    case Some(p) => Some(Parts(scheme, h.host, p, "/" + port.rest, secure))
  }

  function ParseAuthority(scheme: string, secure: bool, t: string): Option<Parts> {
    var h := if t != "" && t[0] == '[' then TakeLiteral(t[1..]) else Some(TakeHost(t));
    if h.None? then None else Finish(scheme, secure, h.value)
  }

  function Parse(s: string): Option<Parts> {
    match SchemeOf(s)
    case None => None
    case Some(found) => ParseAuthority(found.0, found.1, s[|found.0| + 3..])
  }

  /** The text of a URI, without a default port. */
  function Text(p: Parts): string {
    p.scheme + "://" + (p.host + (PortText(p) + p.resource))
  }

  function PortText(p: Parts): string {
    if p.port == DefaultPort(p.secure) then "" else ":" + Decimal(p.port)
  }

  // ----- The object -----

  class Uri {
    var scheme: string
    var host: string
    var resource: string
    var port: nat
    var secure: bool
    var valid: bool

    function View(): Parts
      reads this
    {
      Parts(scheme, host, port, resource, secure)
    }

    function Str(): string
      reads this
    {
      Text(View())
    }

    /** Walks an iterator over the text; the object is not valid if the constructor stops early. */
    constructor (s: string)
      ensures valid <==> Parse(s).Some?
      ensures valid ==> View() == Parse(s).value
    {
      hide TakeHost, TakeLiteral, TakePort, PortFromString, Parse, ParseAuthority, Finish, SchemeOf;
      ParseNeedsScheme(s);
      valid := false;
      scheme, host, resource, port, secure := "", "", "", 0, false;
      new;
      var known, it := ExtractScheme(s);
      if !known {
        return;
      }
      AuthorityAt(s, it, scheme, secure);
      var state;
      if s[it] == '[' {
        var closed;
        closed, it, state := ExtractLiteral(s, it + 1);
        if !closed {
          return;
        }
      } else {
        it, state := ExtractHost(s, it);
      }
      var portText;
      portText, it := ExtractPort(s, it, state);
      FinishAt(s, it, scheme, secure, host, portText);
      var p := PortFromString(portText, secure);
      if p.None? {
        return;
      }
      port := p.value;
      resource := "/";
      resource := resource + s[it..];
      valid := true;
    }

    method ExtractScheme(s: string) returns (known: bool, it: nat)
      modifies `scheme, `secure
      ensures known <==> SchemeOf(s).Some?
      ensures known ==> SchemeOf(s) == Some((scheme, secure)) && it == |scheme| + 3
    {
      it := 0;
      if |s| >= 7 && s[..6] == "wss://" {
        secure := true;
        scheme := "wss";
        it := 6;
      } else if |s| >= 6 && s[..5] == "ws://" {
        secure := false;
        scheme := "ws";
        it := 5;
      } else if |s| >= 8 && s[..7] == "http://" {
        secure := false;
        scheme := "http";
        it := 7;
      } else if |s| >= 9 && s[..8] == "https://" {
        secure := true;
        scheme := "https";
        it := 8;
      } else {
        return false, it;
      }
      known := true;
    }

    /** The text in square brackets; state 1 calls for a port, 2 for a resource. */
    method ExtractLiteral(s: string, begin: nat) returns (closed: bool, it: nat, state: nat)
      requires begin <= |s| && host == ""
      modifies `host
      ensures it <= |s|
      ensures TakeLiteral(s[begin..]) == if closed then Some(Host(host, state == 1, s[it..])) else None
    {
      hide TakeLiteral, AfterLiteral, Prepended;
      ghost var whole := TakeLiteral(s[begin..]);
      it, state := begin, 0;
      var temp := it;
      LiteralStart(s, it);
      while temp < |s| && s[temp] != ']'
        invariant it <= temp <= |s| && host == ""
        invariant whole == Prepended(s[it..temp], TakeLiteral(s[temp..]))
      {
        LiteralStep(s, it, temp);
        temp := temp + 1;
      }
      LiteralEnd(s, temp);
      ghost var literal := s[it..temp];
      if temp == |s| {
        PrependToNone(literal);
        return false, it, state;
      }
      AfterLiteralAt(s, literal, temp + 1);
      EmptyPlus(literal);
      host := host + s[it..temp];
      it := temp + 1;
      if it == |s| {
        state := 2;
      } else if s[it] == '/' {
        state := 2;
        it := it + 1;
      } else if s[it] == ':' {
        state := 1;
        it := it + 1;
      } else {
        return false, it, state;
      }
      closed := true;
    }

    /** A host name up to a colon or a slash. */
    method ExtractHost(s: string, begin: nat) returns (it: nat, state: nat)
      requires begin <= |s| && host == ""
      modifies `host
      ensures it <= |s| && TakeHost(s[begin..]) == Host(host, state == 1, s[it..])
    {
      hide TakeHost;
      it, state := begin, 0;
      PrependNothing(Some(TakeHost(s[it..])));
      while state == 0
        invariant state <= 2 && it <= |s|
        invariant TakeHost(s[begin..]) ==
          if state == 0 then HostPrepended(host, TakeHost(s[it..])) else Host(host, state == 1, s[it..])
        decreases |s| - it + (if state == 0 then 1 else 0)
      {
        HostStep(s, host, it);
        if it == |s| {
          state := 2;
          break;
        } else if s[it] == '/' {
          state := 2;
        } else if s[it] == ':' {
          state := 1;
        } else {
          host := host + [s[it]];
        }
        it := it + 1;
      }
    }

    /** In state 1, the port up to a slash. */
    method ExtractPort(s: string, begin: nat, from: nat) returns (port: string, it: nat)
      requires begin <= |s|
      ensures it <= |s| && Port(port, s[it..]) == if from == 1 then TakePort(s[begin..]) else Port("", s[begin..])
    {
      hide TakePort;
      port, it := "", begin;
      var state := from;
      assert "" + TakePort(s[it..]).text == TakePort(s[it..]).text;
      while state == 1
        invariant it <= |s| && (from == 1 || (state == from && port == "" && it == begin))
        invariant from == 1 ==>
          TakePort(s[begin..]) == if state == 1 then PortPrepended(port, TakePort(s[it..])) else Port(port, s[it..])
        decreases |s| - it + (if state == 1 then 1 else 0)
      {
        PortStep(s, port, it);
        if it == |s| {
          break;
        } else if s[it] == '/' {
          state := 3;
        } else {
          port := port + [s[it]];
        }
        it := it + 1;
      }
    }
  }

  lemma ParseNeedsScheme(s: string)
    ensures SchemeOf(s).None? ==> Parse(s).None?
  {
    hide SchemeOf, ParseAuthority;
  }

  lemma AuthorityAt(s: string, it: nat, scheme: string, secure: bool)
    requires SchemeOf(s) == Some((scheme, secure)) && it == |scheme| + 3
    ensures it < |s|
    ensures Parse(s) ==
      var h := if s[it] == '[' then TakeLiteral(s[it + 1..]) else Some(TakeHost(s[it..]));
      if h.None? then None else Finish(scheme, secure, h.value)
  {
    hide TakeHost, TakeLiteral, Finish;
    assert s[it..][1..] == s[it + 1..];
  }

  lemma FinishAt(s: string, it: nat, scheme: string, secure: bool, host: string, port: string)
    requires it <= |s|
    ensures forall h: Host ::
      h.host == host && (if h.hasPort then TakePort(h.rest) else Port("", h.rest)) == Port(port, s[it..]) ==>
      Finish(scheme, secure, h) ==
        match PortFromString(port, secure)
        case None => None
        case Some(p) => Some(Parts(scheme, host, p, "/" + s[it..], secure))
  {
    hide TakePort, PortFromString;
  }

  function Prepended(t: string, h: Option<Host>): Option<Host> {
    if h.None? then None else Some(HostPrepended(t, h.value))
  }

  function HostPrepended(t: string, h: Host): Host {
    h.(host := t + h.host)
  }

  lemma PrependNothing(h: Option<Host>)
    ensures Prepended("", h) == h
  {
    if h.Some? {
      assert "" + h.value.host == h.value.host;
    }
  }

  lemma PrependToNone(t: string)
    ensures Prepended(t, None) == None
  {
  }

  lemma EmptyPlus(t: string)
    ensures "" + t == t
  {
  }

  lemma LiteralStart(s: string, it: nat)
    requires it <= |s|
    ensures TakeLiteral(s[it..]) == Prepended(s[it..it], TakeLiteral(s[it..]))
  {
    hide TakeLiteral;
    PrependNothing(TakeLiteral(s[it..]));
    assert s[it..it] == "";
  }

  lemma LiteralStep(s: string, it: nat, temp: nat)
    requires it <= temp < |s| && s[temp] != ']'
    ensures Prepended(s[it..temp], TakeLiteral(s[temp..])) == Prepended(s[it..temp + 1], TakeLiteral(s[temp + 1..]))
  {
    assert s[temp..][1..] == s[temp + 1..];
    var l := TakeLiteral(s[temp + 1..]);
    if l.Some? {
      assert s[it..temp] + ([s[temp]] + l.value.host) == s[it..temp + 1] + l.value.host;
    }
  }

  lemma LiteralEnd(s: string, temp: nat)
    requires temp <= |s|
    ensures temp == |s| ==> TakeLiteral(s[temp..]) == None
    ensures temp < |s| && s[temp] == ']' ==> AfterLiteral(s[temp + 1..]) == TakeLiteral(s[temp..])
  {
    if temp < |s| {
      assert s[temp..][1..] == s[temp + 1..];
    }
  }

  lemma AfterLiteralAt(s: string, host: string, i: nat)
    requires i <= |s|
    ensures Prepended(host, AfterLiteral(s[i..])) ==
      if i == |s| then Some(Host(host, false, s[i..]))
      else if s[i] == '/' then Some(Host(host, false, s[i + 1..]))
      else if s[i] == ':' then Some(Host(host, true, s[i + 1..]))
      else None
  {
    assert host + "" == host;
    if i < |s| {
      assert s[i..][1..] == s[i + 1..];
    }
  }

  lemma HostStep(s: string, host: string, it: nat)
    requires it <= |s|
    ensures HostPrepended(host, TakeHost(s[it..])) ==
      if it == |s| then Host(host, false, "")
      else if s[it] == '/' then Host(host, false, s[it + 1..])
      else if s[it] == ':' then Host(host, true, s[it + 1..])
      else HostPrepended(host + [s[it]], TakeHost(s[it + 1..]))
  {
    if it < |s| {
      assert s[it..][1..] == s[it + 1..];
      assert host + ([s[it]] + TakeHost(s[it + 1..]).host) == host + [s[it]] + TakeHost(s[it + 1..]).host;
    }
  }

  lemma PortStep(s: string, port: string, it: nat)
    requires it <= |s|
    ensures PortPrepended(port, TakePort(s[it..])) ==
      if it == |s| then Port(port, "")
      else if s[it] == '/' then Port(port, s[it + 1..])
      else PortPrepended(port + [s[it]], TakePort(s[it + 1..]))
  {
    if it < |s| {
      assert s[it..][1..] == s[it + 1..];
      assert port + ([s[it]] + TakePort(s[it + 1..]).text) == port + [s[it]] + TakePort(s[it + 1..]).text;
    }
  }

  // ----- The round trip -----

  predicate Digital(s: string) {
    forall i | 0 <= i < |s| :: IsDigit(s[i])
  }

  lemma {:induction false} DigitsOneMore(s: string, c: char, acc: nat)
    requires Digital(s) && IsDigit(c)
    ensures DigitsValue(s + [c], acc) == DigitsValue(s, acc) * 10 + (c as int - '0' as int)
  {
    if s == "" {
      assert s + [c] == [c] && [c][1..] == "";
    } else {
      assert (s + [c])[1..] == s[1..] + [c];
      DigitsOneMore(s[1..], c, acc * 10 + (s[0] as int - '0' as int));
    }
  }

  /** A number reads back from its digits. */
  lemma {:induction false} DecimalReads(n: nat)
    ensures Digital(Decimal(n)) && DigitsValue(Decimal(n), 0) == n
  {
    var c := (n % 10 + '0' as int) as char;
    if n < 10 {
      assert [c][1..] == "";
    } else {
      DecimalReads(n / 10);
      DigitsOneMore(Decimal(n / 10), c, 0);
    }
  }

  lemma PortReads(n: nat, secure: bool)
    requires 0 < n <= 65535
    ensures PortFromString(Decimal(n), secure) == Some(n)
  {
    hide Decimal, DigitsValue;
    DecimalReads(n);
    assert IsDigit(Decimal(n)[0]);
    assert Atoi(Decimal(n)) == n;
  }

  lemma {:induction false} TakesDigits(s: string, rest: string)
    requires Digital(s) && rest != "" && rest[0] == '/'
    ensures TakePort(s + rest) == Port(s, rest[1..])
  {
    if s == "" {
      assert s + rest == rest;
    } else {
      assert (s + rest)[1..] == s[1..] + rest;
      TakesDigits(s[1..], rest);
    }
  }

  predicate NoDelimiter(host: string) {
    forall i | 0 <= i < |host| :: host[i] != ':' && host[i] != '/'
  }

  predicate PlainHost(host: string) {
    NoDelimiter(host) && (host != "" ==> host[0] != '[')
  }

  lemma {:induction false} TakesHost(host: string, rest: string)
    requires NoDelimiter(host) && rest != "" && (rest[0] == ':' || rest[0] == '/')
    ensures TakeHost(host + rest) == Host(host, rest[0] == ':', rest[1..])
  {
    if host == "" {
      assert host + rest == rest;
    } else {
      assert (host + rest)[1..] == host[1..] + rest;
      TakesHost(host[1..], rest);
    }
  }

  predicate KnownScheme(scheme: string, secure: bool) {
    if secure then scheme == "wss" || scheme == "https" else scheme == "ws" || scheme == "http"
  }

  lemma SchemeReads(scheme: string, secure: bool, t: string)
    requires KnownScheme(scheme, secure) && t != ""
    ensures SchemeOf(scheme + "://" + t) == Some((scheme, secure))
    ensures (scheme + "://" + t)[|scheme| + 3..] == t
  {
    var s := scheme + "://" + t;
    assert s[|scheme| + 3..] == t;
    assert s[..|scheme| + 3] == scheme + "://";
    assert s[2] == (if |scheme| == 2 then ':' else scheme[2]);
    assert |scheme| >= 4 ==> s[4] == (if |scheme| == 4 then ':' else 's');
    if scheme == "wss" {
      assert s[..6] == "wss://";
    } else if scheme == "ws" {
      assert s[..6][2] == ':';
      assert s[..5] == "ws://";
    } else if scheme == "http" {
      assert s[0] == 'h' && s[..6][0] == 'h' && s[..5][0] == 'h';
      assert s[..7] == "http://";
    } else {
      assert s[0] == 'h' && s[..6][0] == 'h' && s[..5][0] == 'h' && s[..7][4] == 's';
      assert s[..8] == "https://";
    }
  }

  lemma SchemeIsKnown(s: string)
    ensures SchemeOf(s).Some? ==> KnownScheme(SchemeOf(s).value.0, SchemeOf(s).value.1)
  {
  }

  /** What the constructor can give back: everything but the host of a bracketed literal is settled by the grammar. */
  predicate Plain(p: Parts) {
    && KnownScheme(p.scheme, p.secure)
    && 0 < p.port <= 65535
    && p.resource != "" && p.resource[0] == '/'
    && PlainHost(p.host)
  }

  lemma PlainReadsBack(p: Parts)
    requires Plain(p)
    ensures Parse(Text(p)) == Some(p)
  {
    hide SchemeOf, ParseAuthority, PortText, KnownScheme;
    var tail := PortText(p) + p.resource;
    assert p.host + tail != "";
    SchemeReads(p.scheme, p.secure, p.host + tail);
    if p.port == DefaultPort(p.secure) {
      DefaultTailReads(p, tail);
    } else {
      PortTailReads(p, tail);
    }
    AuthorityReads(p, tail);
  }

  /** The host, in front of a tail that gives back the rest. */
  lemma AuthorityReads(p: Parts, tail: string)
    requires PlainHost(p.host) && tail != "" && (tail[0] == ':' || tail[0] == '/')
    requires Finish(p.scheme, p.secure, Host(p.host, tail[0] == ':', tail[1..])) == Some(p)
    ensures ParseAuthority(p.scheme, p.secure, p.host + tail) == Some(p)
  {
    hide TakeHost, TakeLiteral, Finish;
    var t := p.host + tail;
    TakesHost(p.host, tail);
    assert t[0] == if p.host == "" then tail[0] else p.host[0];
  }

  lemma DefaultTailReads(p: Parts, tail: string)
    requires Plain(p) && p.port == DefaultPort(p.secure) && tail == PortText(p) + p.resource
    ensures tail != "" && tail[0] == '/' && Finish(p.scheme, p.secure, Host(p.host, false, tail[1..])) == Some(p)
  {
    hide PortFromString, KnownScheme, PlainHost, Decimal;
    assert tail == p.resource == "/" + p.resource[1..];
    DefaultPortReads(p.secure);
  }

  lemma PortTailReads(p: Parts, tail: string)
    requires Plain(p) && p.port != DefaultPort(p.secure) && tail == PortText(p) + p.resource
    ensures tail != "" && tail[0] == ':' && Finish(p.scheme, p.secure, Host(p.host, true, tail[1..])) == Some(p)
  {
    hide TakePort, PortFromString, KnownScheme, PlainHost, Decimal;
    assert tail[0] == ':' && tail[1..] == Decimal(p.port) + p.resource;
    assert p.resource == "/" + p.resource[1..];
    DecimalReads(p.port);
    TakesDigits(Decimal(p.port), p.resource);
    PortReads(p.port, p.secure);
  }

  lemma DefaultPortReads(secure: bool)
    ensures PortFromString("", secure) == Some(DefaultPort(secure))
  {
  }

  lemma {:induction false} HostHasNoDelimiter(t: string)
    ensures NoDelimiter(TakeHost(t).host)
    ensures t != "" && t[0] != '[' ==> PlainHost(TakeHost(t).host)
  {
    if t != "" && t[0] != '/' && t[0] != ':' {
      HostHasNoDelimiter(t[1..]);
    }
  }

  lemma {:induction false} LiteralIsPrefix(t: string)
    ensures TakeLiteral(t).Some? ==>
      var h := TakeLiteral(t).value.host; |h| < |t| && t[..|h|] == h && t[|h|] == ']'
  {
    if t != "" && t[0] != ']' {
      LiteralIsPrefix(t[1..]);
      if TakeLiteral(t).Some? {
        var h := TakeLiteral(t[1..]).value.host;
        assert t[..|h| + 1] == [t[0]] + t[1..][..|h|];
      }
    }
  }

  /** A string that is a prefix of itself moved up by one repeats its first character. */
  lemma {:induction false} Repeats(host: string, t: string, k: nat)
    requires |host| < |t| && host == t[..|host|] && host == t[1..|host| + 1] && k <= |host|
    ensures t[k] == t[0]
  {
    if k > 0 {
      Repeats(host, t, k - 1);
      assert host[k - 1] == t[k - 1] && host[k - 1] == t[1..|host| + 1][k - 1];
    }
  }

  /** The brackets are not printed, so the host of a literal does not come back. */
  lemma LiteralDoesNotReadBack(host: string, tail: string)
    requires tail != "" && tail[0] != '[' && host + tail != "" && (host + tail)[0] == '['
    ensures var l := TakeLiteral((host + tail)[1..]); l.Some? ==> l.value.host != host
  {
    hide TakeLiteral;
    var t := host + tail;
    LiteralIsPrefix(t[1..]);
    var l := TakeLiteral(t[1..]);
    if l.Some? && l.value.host == host {
      assert t[1..|host| + 1] == t[1..][..|host|];
      assert t[|host|] == tail[0];
      Repeats(host, t, |host|);
    }
  }

  lemma ParsedIsPlain(s: string)
    requires Parse(s).Some?
    ensures var p := Parse(s).value;
      && KnownScheme(p.scheme, p.secure) && 0 < p.port <= 65535 && p.resource != "" && p.resource[0] == '/'
  {
    hide SchemeOf, TakeHost, TakeLiteral, TakePort, Atoi;
    SchemeIsKnown(s);
  }

  lemma TextIsAscribed(p: Parts)
    requires p.resource != "" && KnownScheme(p.scheme, p.secure)
    ensures var t := p.host + (PortText(p) + p.resource);
      t != "" && Parse(Text(p)) == ParseAuthority(p.scheme, p.secure, t)
  {
    hide SchemeOf, ParseAuthority, KnownScheme;
    SchemeReads(p.scheme, p.secure, p.host + (PortText(p) + p.resource));
  }

  /**
   * Parsing the text of a URI gives back the same URI exactly when the scheme
   * is one of the four and agrees with the secure flag, the port is not 0, the
   * resource starts with a slash, and the host has neither a colon nor a slash
   * and does not start with a bracket.
   */
  lemma RoundTrip(p: Parts)
    ensures Parse(Text(p)) == Some(p) <==> Plain(p)
  {
    hide Parse, Text, ParseAuthority, KnownScheme, TakeHost, TakeLiteral, PortText;
    if Plain(p) {
      PlainReadsBack(p);
    }
    if Parse(Text(p)) == Some(p) {
      ParsedIsPlain(Text(p));
      TextIsAscribed(p);
      HostOfParsed(p);
    }
  }

  lemma HostOfParsed(p: Parts)
    requires p.resource != "" && p.resource[0] == '/'
    requires ParseAuthority(p.scheme, p.secure, p.host + (PortText(p) + p.resource)) == Some(p)
    ensures PlainHost(p.host)
  {
    hide TakeHost, TakeLiteral, TakePort, PortFromString, NoDelimiter, Decimal;
    var tail := PortText(p) + p.resource;
    assert tail[0] == if PortText(p) == "" then '/' else ':';
    var t := p.host + tail;
    if t[0] == '[' {
      LiteralDoesNotReadBack(p.host, tail);
      assert false;
    }
    HostHasNoDelimiter(t);
  }

  /** A parsed URI survives printing and parsing again, unless its host was a literal that needs its brackets. */
  lemma ParsedRoundTrip(s: string)
    requires Parse(s).Some?
    ensures Parse(Text(Parse(s).value)) == Parse(s) <==> PlainHost(Parse(s).value.host)
  {
    hide Parse, Text, PlainHost, KnownScheme;
    ParsedIsPlain(s);
    RoundTrip(Parse(s).value);
  }

  // ----- What texts mean -----

  /** Text without a port: 80 for the plain schemes, 443 for the secure ones. */
  lemma DefaultPorts(host: string, resource: string)
    requires PlainHost(host) && resource != "" && resource[0] == '/'
    ensures Parse("ws" + "://" + (host + resource)) == Some(Parts("ws", host, 80, resource, false))
    ensures Parse("http" + "://" + (host + resource)) == Some(Parts("http", host, 80, resource, false))
    ensures Parse("wss" + "://" + (host + resource)) == Some(Parts("wss", host, 443, resource, true))
    ensures Parse("https" + "://" + (host + resource)) == Some(Parts("https", host, 443, resource, true))
  {
    hide Parse, PlainHost;
    WithoutPort(Parts("ws", host, 80, resource, false));
    WithoutPort(Parts("http", host, 80, resource, false));
    WithoutPort(Parts("wss", host, 443, resource, true));
    WithoutPort(Parts("https", host, 443, resource, true));
  }

  lemma WithoutPort(p: Parts)
    requires Plain(p) && p.port == if p.secure then 443 else 80
    ensures Parse(p.scheme + "://" + (p.host + p.resource)) == Some(p)
  {
    hide Parse, PlainHost, KnownScheme;
    PlainReadsBack(p);
    assert PortText(p) + p.resource == p.resource;
  }

  /** Without a resource, the resource is a slash. */
  lemma EmptyResource(scheme: string, host: string, secure: bool)
    requires KnownScheme(scheme, secure) && PlainHost(host) && host != ""
    ensures Parse(scheme + "://" + host) == Some(Parts(scheme, host, if secure then 443 else 80, "/", secure))
  {
    hide SchemeOf, TakeLiteral, KnownScheme, PortFromString;
    SchemeReads(scheme, secure, host);
    TakesWholeHost(host);
    DefaultPortReads(secure);
    assert "/" + "" == "/";
  }

  lemma {:induction false} TakesWholeHost(host: string)
    requires NoDelimiter(host)
    ensures TakeHost(host) == Host(host, false, "")
  {
    if host != "" {
      TakesWholeHost(host[1..]);
    }
  }

  /** The printed port: none when it is 80 on a plain scheme or 443 on a secure one, otherwise its digits. */
  lemma PortShown(p: Parts)
    ensures var default := if p.secure then p.port == 443 else p.port == 80;
      && (default ==> Text(p) == p.scheme + "://" + p.host + p.resource)
      && (!default ==> Text(p) == p.scheme + "://" + p.host + ":" + Decimal(p.port) + p.resource)
      && (Text(p) == p.scheme + "://" + p.host + p.resource <==> default)
  {
    hide Decimal;
    var s := p.scheme + "://";
    assert s + (p.host + ("" + p.resource)) == s + p.host + p.resource;
    assert s + (p.host + ((":" + Decimal(p.port)) + p.resource)) == s + p.host + ":" + Decimal(p.port) + p.resource;
  }

  // ----- Ports in text -----

  predicate StartsDigit(s: string) {
    s != "" && IsDigit(s[0])
  }

  lemma {:induction false} DigitsThen(digits: string, rest: string, acc: nat)
    requires Digital(digits) && !StartsDigit(rest)
    ensures DigitsValue(digits + rest, acc) == DigitsValue(digits, acc)
  {
    if digits == "" {
      assert digits + rest == rest;
    } else {
      assert (digits + rest)[1..] == digits[1..] + rest;
      DigitsThen(digits[1..], rest, acc * 10 + (digits[0] as int - '0' as int));
    }
  }

  predicate Blank(space: string) {
    forall i | 0 <= i < |space| :: space[i] == ' ' || '\t' <= space[i] <= '\r'
  }

  lemma {:induction false} SkipsBlank(space: string, t: string)
    requires Blank(space)
    ensures Atoi(space + t) == Atoi(t)
  {
    if space == "" {
      assert space + t == t;
    } else {
      assert (space + t)[1..] == space[1..] + t;
      SkipsBlank(space[1..], t);
    }
  }

  /** White space, a sign, the digits of a number, and anything else: the number with its sign. */
  lemma AtoiReads(space: string, n: nat, rest: string)
    requires Blank(space) && !StartsDigit(rest)
    ensures Atoi(space + (Decimal(n) + rest)) == n
    ensures Atoi(space + ("+" + (Decimal(n) + rest))) == n
    ensures Atoi(space + ("-" + (Decimal(n) + rest))) == -(n as int)
  {
    hide Decimal, Blank;
    var d := Decimal(n) + rest;
    SkipsBlank(space, d);
    SkipsBlank(space, "+" + d);
    SkipsBlank(space, "-" + d);
    DecimalReads(n);
    DigitsThen(Decimal(n), rest, 0);
    assert IsDigit(d[0]);
    assert ("+" + d)[1..] == d && ("-" + d)[1..] == d;
  }

  /** A port is the number modulo 2^32, if that is from 1 to 65535. */
  lemma PortMeans(text: string, secure: bool)
    ensures var n := Atoi(text) % 0x1_0000_0000;
      PortFromString(text, secure) ==
        if text == "" then Some(if secure then 443 else 80) else if 1 <= n <= 65535 then Some(n) else None
  {
    hide Atoi;
  }

  // ----- Literals -----

  /**
   * A host in brackets, up to the first closing one: the brackets are left out,
   * and nothing, a slash or a colon has to follow.
   */
  lemma LiteralReads(scheme: string, secure: bool, host: string, rest: string)
    requires KnownScheme(scheme, secure) && ']' !in host
    ensures Parse(scheme + "://" + ("[" + (host + ("]" + rest)))) ==
      if rest == "" then Some(Parts(scheme, host, if secure then 443 else 80, "/", secure))
      else if rest[0] == '/' then Some(Parts(scheme, host, if secure then 443 else 80, rest, secure))
      else if rest[0] == ':' then Finish(scheme, secure, Host(host, true, rest[1..]))
      else None
  {
    hide SchemeOf, KnownScheme, TakeHost, PortFromString, TakePort;
    var t := host + ("]" + rest);
    SchemeReads(scheme, secure, "[" + t);
    assert ("[" + t)[1..] == t;
    TakesLiteral(host, rest);
    hide TakeLiteral;
    DefaultPortReads(secure);
    if rest == "" {
      assert "/" + "" == "/";
    } else if rest[0] == '/' {
      assert "/" + rest[1..] == rest;
    }
  }

  lemma {:induction false} TakesLiteral(host: string, rest: string)
    requires ']' !in host
    ensures TakeLiteral(host + ("]" + rest)) ==
      if rest == "" then Some(Host(host, false, ""))
      else if rest[0] == '/' then Some(Host(host, false, rest[1..]))
      else if rest[0] == ':' then Some(Host(host, true, rest[1..]))
      else None
  {
    var t := host + ("]" + rest);
    if host == "" {
      assert t == "]" + rest && t[1..] == rest;
    } else {
      assert t[1..] == host[1..] + ("]" + rest) && t[0] == host[0];
      TakesLiteral(host[1..], rest);
      assert [host[0]] + host[1..] == host;
    }
  }

  /** Parsing the text of a URI object makes an equal object under the same condition. */
  method ParseText(u: Uri) returns (v: Uri)
    ensures fresh(v) && (v.valid && v.View() == u.View() <==> Plain(u.View()))
  {
    hide Parse, Text, Plain;
    RoundTrip(u.View());
    v := new Uri(u.Str());
  }
}
