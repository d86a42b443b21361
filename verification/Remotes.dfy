/** Remote specifications of the command line: printer, tokenizer and parser. */
module Remotes {
  import opened Frames

  datatype LocalSpec = LocalInet(host: string, port: U16) | Stdio
  datatype RemoteSpec = RemoteInet(host: string, port: U16) | Socks
  datatype Protocol = Tcp | Udp
  datatype Remote = Remote(local: LocalSpec, remote: RemoteSpec, protocol: Protocol)

  datatype Error = BadFormat | BadProtocol | BadHost | BadPort | UdpSocks

  /** `Panicked` stands for a slice out of range, which aborts the program. */
  datatype Parsed<+T> = Ok(value: T) | Err(error: Error) | Panicked {
    predicate IsFailure() { !Ok? }

    function PropagateFailure<U>(): Parsed<U>
      requires !Ok?
    {
      if Err? then Err(error) else Panicked
    }

    function Extract(): T
      requires Ok?
    {
      value
    }
  }

  const DEFAULT_LOCAL := "127.0.0.1"
  const DEFAULT_UNSPECIFIED := "0.0.0.0"

  // ---- Port numbers ----

  predicate IsDigit(c: char) { '0' <= c <= '9' }

  function DigitChar(d: nat): (c: char)
    requires d < 10
    ensures IsDigit(c)
  {
    ['0', '1', '2', '3', '4', '5', '6', '7', '8', '9'][d]
  }

  function DigitValue(c: char): nat
    requires IsDigit(c)
  {
    c as int - '0' as int
  }

  predicate AllDigits(s: string) { forall i :: 0 <= i < |s| ==> IsDigit(s[i]) }

  function Decimal(n: nat): (s: string)
    ensures s != [] && AllDigits(s)
  {
    if n < 10 then [DigitChar(n)] else Decimal(n / 10) + [DigitChar(n % 10)]
  }

  function Value(s: string): nat
    requires AllDigits(s)
  {
    if s == [] then 0 else 10 * Value(s[..|s| - 1]) + DigitValue(s[|s| - 1])
  }

  lemma {:induction false} DecimalValue(n: nat)
    ensures Value(Decimal(n)) == n
  {
    if n >= 10 {
      DecimalValue(n / 10);
      var s := Decimal(n);
      assert s[..|s| - 1] == Decimal(n / 10);
    }
  }

  /** Rust's `u16` parser: an optional plus sign, then digits, at most 65535. */
  function ParsePort(s: string): Parsed<U16> {
    var digits := if s != [] && s[0] == '+' then s[1..] else s;
    if digits == [] || !AllDigits(digits) || Value(digits) >= 0x1_0000 then Err(BadPort) else Ok(Value(digits))
  }

  lemma PortRoundTrip(p: U16)
    ensures ParsePort(Decimal(p)) == Ok(p)
  {
    DecimalValue(p);
  }

  // ---- Printing ----

  /** A host as `Display` writes it. */
  function HostForm(host: string): string {
    if ':' in host then "[" + host + "]" else host
  }

  function Prefix(l: LocalSpec): string {
    match l
    case LocalInet(host, port) => HostForm(host) + ":" + Decimal(port)
    case Stdio => "stdio"
  }

  function Suffix(r: RemoteSpec): string {
    match r
    case RemoteInet(host, port) => HostForm(host) + ":" + Decimal(port)
    case Socks => "socks"
  }

  function ProtocolName(p: Protocol): string { if p == Tcp then "tcp" else "udp" }

  function Print(r: Remote): string {
    Prefix(r.local) + ":" + Suffix(r.remote) + "/" + ProtocolName(r.protocol)
  }

  // ---- Parsing ----

  /** The first place of a character, or the length of the string if it is not there. */
  function IndexOf(s: string, c: char): (i: nat)
    ensures i <= |s| && (i < |s| ==> s[i] == c) && forall j :: 0 <= j < i ==> s[j] != c
  {
    IndexFrom(s, c, 0)
  }

  function IndexFrom(s: string, c: char, from: nat): (i: nat)
    requires from <= |s|
    ensures from <= i <= |s| && (i < |s| ==> s[i] == c) && forall j :: from <= j < i ==> s[j] != c
    decreases |s| - from
  {
    if from == |s| || s[from] == c then from else IndexFrom(s, c, from + 1)
  }

  function LastIndexOf(s: string, c: char): (i: nat)
    requires c in s
    ensures i < |s| && s[i] == c && c !in s[i + 1..]
  {
    if s[|s| - 1] == c then |s| - 1 else LastIndexOf(s[..|s| - 1], c)
  }

  predicate StartsWith(s: string, c: char) { s != [] && s[0] == c }

  function Prepend(t: string, rest: Parsed<seq<string>>): Parsed<seq<string>> {
    if rest.Ok? then Ok([t] + rest.value) else rest
  }

  /** What `tokenize_remote` makes of a string. After a bracketed token it steps over one
      more character, whether or not there is one. */
  function Tokenize(s: string): Parsed<seq<string>>
    decreases |s|
  {
    if StartsWith(s, '[') then
      var close := IndexOf(s, ']');
      if close == |s| then Err(BadHost)
      else if close + 1 == |s| then Panicked
      else if s[close + 1] != ':' then Err(BadFormat)
      else Prepend(s[..close + 1], Tokenize(s[close + 2..]))
    else
      var i := IndexOf(s, ':');
      if i < |s| then Prepend(s[..i], Tokenize(s[i + 1..])) else Ok([s])
  }

  /** Put tokens found so far in front of what the rest gives. */
  function PrependAll(ts: seq<string>, rest: Parsed<seq<string>>): Parsed<seq<string>> {
    if rest.Ok? then Ok(ts + rest.value) else rest
  }

  lemma PrependStep(ts: seq<string>, t: string, rest: Parsed<seq<string>>)
    ensures PrependAll(ts, Prepend(t, rest)) == PrependAll(ts + [t], rest)
  {
    if rest.Ok? { assert ts + ([t] + rest.value) == (ts + [t]) + rest.value; }
  }

  /** `tokenize_remote` as the source runs it, on a slice that shrinks from the front. */
  method TokenizeRemote(s: string) returns (r: Parsed<seq<string>>)
    ensures r == Tokenize(s)
  {
    var tokens: seq<string>, stuff := [], s;
    assert Tokenize(s).Ok? ==> [] + Tokenize(s).value == Tokenize(s).value;
    while true
      invariant PrependAll(tokens, Tokenize(stuff)) == Tokenize(s)
      decreases |stuff|
    {
      if StartsWith(stuff, '[') {
        var close := IndexOf(stuff, ']');
        if close == |stuff| { return Err(BadHost); }
        var end := close + 1;
        if end < |stuff| && stuff[end] != ':' { return Err(BadFormat); }
        if end == |stuff| { return Panicked; }
        PrependStep(tokens, stuff[..end], Tokenize(stuff[end + 1..]));
        tokens := tokens + [stuff[..end]];
        stuff := stuff[end + 1..];
      } else {
        var i := IndexOf(stuff, ':');
        if i == |stuff| { return Ok(tokens + [stuff]); }
        PrependStep(tokens, stuff[..i], Tokenize(stuff[i + 1..]));
        tokens := tokens + [stuff[..i]];
        stuff := stuff[i + 1..];
      }
    }
  }

  function RemoveBrackets(s: string): string {
    if |s| >= 2 && s[0] == '[' && s[|s| - 1] == ']' then s[1..|s| - 1] else s
  }

  function Lower(c: char): char {
    if 'A' <= c <= 'Z' then (c as int - 'A' as int + 'a' as int) as char else c
  }

  function ParseProtocol(s: string): Parsed<Protocol> {
    var t := seq(|s|, i requires 0 <= i < |s| => Lower(s[i]));
    if t == "tcp" then Ok(Tcp) else if t == "udp" then Ok(Udp) else Err(BadProtocol)
  }

  /** The big match of `from_str`. */
  function FromTokens(ts: seq<string>, proto: Protocol): Parsed<Remote> {
    if |ts| == 1 then
      if ts[0] == "socks" then Ok(Remote(LocalInet(DEFAULT_LOCAL, 1080), Socks, proto))
      else
        var p :- ParsePort(ts[0]);
        Ok(Remote(LocalInet(DEFAULT_UNSPECIFIED, p), RemoteInet(DEFAULT_LOCAL, p), proto))
    else if |ts| == 2 then
      if ts[0] == "stdio" && ts[1] == "socks" then Ok(Remote(Stdio, Socks, proto))
      else if ts[1] == "socks" then
        var p :- ParsePort(ts[0]);
        Ok(Remote(LocalInet(DEFAULT_LOCAL, p), Socks, proto))
      else if ts[0] == "stdio" then
        var p :- ParsePort(ts[1]);
        Ok(Remote(Stdio, RemoteInet(DEFAULT_LOCAL, p), proto))
      else
        var p :- ParsePort(ts[1]);
        Ok(Remote(LocalInet(DEFAULT_UNSPECIFIED, p), RemoteInet(RemoveBrackets(ts[0]), p), proto))
    else if |ts| == 3 then
      if ts[0] == "stdio" then
        var q :- ParsePort(ts[2]);
        Ok(Remote(Stdio, RemoteInet(RemoveBrackets(ts[1]), q), proto))
      else if ts[2] == "socks" then
        var p :- ParsePort(ts[1]);
        Ok(Remote(LocalInet(RemoveBrackets(ts[0]), p), Socks, proto))
      else
        var p :- ParsePort(ts[0]);
        var q :- ParsePort(ts[2]);
        Ok(Remote(LocalInet(DEFAULT_UNSPECIFIED, p), RemoteInet(RemoveBrackets(ts[1]), q), proto))
    else if |ts| == 4 then
      var p :- ParsePort(ts[1]);
      var q :- ParsePort(ts[3]);
      Ok(Remote(LocalInet(RemoveBrackets(ts[0]), p), RemoteInet(RemoveBrackets(ts[2]), q), proto))
    else Err(BadFormat)
  }

  function RejectUdpSocks(r: Parsed<Remote>): Parsed<Remote> {
    if r.Ok? && r.value.remote.Socks? && r.value.protocol.Udp? then Err(UdpSocks) else r
  }

  function ParseRest(s: string, proto: Protocol): Parsed<Remote> {
    var ts :- Tokenize(s);
    RejectUdpSocks(FromTokens(ts, proto))
  }

  /** `Remote::from_str`. */
  function Parse(s: string): Parsed<Remote> {
    if '/' in s then
      var i := LastIndexOf(s, '/');
      var proto :- ParseProtocol(s[i + 1..]);
      ParseRest(s[..i], proto)
    else ParseRest(s, Tcp)
  }

  // ---- Round trip ----

  /** A host that survives printing and tokenizing. */
  predicate HostOk(h: string) {
    if ':' in h then ']' !in h else !StartsWith(h, '[')
  }

  predicate LocalOk(l: LocalSpec) { l.LocalInet? ==> HostOk(l.host) }
  predicate RemoteOk(r: RemoteSpec) { r.RemoteInet? ==> HostOk(r.host) }

  /** What a caller can check before printing. */
  predicate Reparsable(r: Remote) {
    && LocalOk(r.local) && RemoteOk(r.remote)
    && (r.remote.Socks? ==> r.protocol == Tcp && !(r.local.LocalInet? && r.local.host == "stdio"))
  }

  lemma IndexIs(s: string, c: char, i: nat)
    requires i < |s| && s[i] == c && forall j :: 0 <= j < i ==> s[j] != c
    ensures IndexOf(s, c) == i
  {
  }

  lemma LastIndexIs(s: string, c: char, i: nat)
    requires i < |s| && s[i] == c && c !in s[i + 1..]
    ensures c in s && LastIndexOf(s, c) == i
  {
  }

  /** A token without a colon is split off at the colon that follows it. */
  lemma PlainToken(t: string, rest: string)
    requires ':' !in t && !StartsWith(t, '[')
    ensures Tokenize(t + ":" + rest) == Prepend(t, Tokenize(rest))
  {
    var s := t + ":" + rest;
    assert s[..|t|] == t && s[|t| + 1..] == rest;
    IndexIs(s, ':', |t|);
  }

  /** A good host is one token, and the token gives the host back. */
  lemma HostToken(h: string, rest: string)
    requires HostOk(h)
    ensures Tokenize(HostForm(h) + ":" + rest) == Prepend(HostForm(h), Tokenize(rest))
    ensures RemoveBrackets(HostForm(h)) == h
  {
    if ':' in h {
      var t := "[" + h + "]";
      assert t[..|t| - 1] == "[" + h && t[1..|t| - 1] == h;
      AnyToken(t, rest);
    } else {
      PlainToken(h, rest);
    }
  }

  lemma DecimalToken(p: U16, rest: string)
    ensures Tokenize(Decimal(p) + ":" + rest) == Prepend(Decimal(p), Tokenize(rest))
    ensures Tokenize(Decimal(p)) == Ok([Decimal(p)])
    ensures Decimal(p) != "socks" && Decimal(p) != "stdio" && RemoveBrackets(Decimal(p)) == Decimal(p)
  {
    var d := Decimal(p);
    forall i | 0 <= i < |d| ensures d[i] != ':' && d[i] != '[' { assert IsDigit(d[i]); }
    assert IsDigit(d[0]);
    PlainToken(d, rest);
    assert "socks"[0] == 's' && "stdio"[0] == 's';
  }

  lemma ProtocolNameParses(p: Protocol)
    ensures ParseProtocol(ProtocolName(p)) == Ok(p) && '/' !in ProtocolName(p)
  {
    var name := ProtocolName(p);
    assert seq(|name|, i requires 0 <= i < |name| => Lower(name[i])) == name;
  }

  /** What follows the last slash is the protocol, what precedes it the rest. */
  lemma SlashSplits(body: string, name: string)
    requires '/' !in name
    ensures Parse(body + "/" + name) ==
      var proto := ParseProtocol(name); if proto.Ok? then ParseRest(body, proto.value) else proto.PropagateFailure()
  {
    var s := body + "/" + name;
    assert s[|body|] == '/' && s[|body| + 1..] == name && s[..|body|] == body;
    LastIndexIs(s, '/', |body|);
  }

  /** The protocol is split off again, whatever the hosts contain. */
  lemma ProtocolSplits(r: Remote)
    ensures Parse(Print(r)) == ParseRest(Prefix(r.local) + ":" + Suffix(r.remote), r.protocol)
  {
    ProtocolNameParses(r.protocol);
    SlashSplits(Prefix(r.local) + ":" + Suffix(r.remote), ProtocolName(r.protocol));
  }

  /** Tokens of the local part, followed by the tokens of whatever comes next. */
  lemma LocalTokens(l: LocalSpec, rest: string)
    requires LocalOk(l)
    ensures Tokenize(Prefix(l) + ":" + rest) ==
      match l
      case LocalInet(h, p) => PrependAll([HostForm(h), Decimal(p)], Tokenize(rest))
      case Stdio => PrependAll(["stdio"], Tokenize(rest))
  {
    match l
    case LocalInet(h, p) =>
      InetPrefix(l, rest);
      HostToken(h, Decimal(p) + ":" + rest);
      DecimalToken(p, rest);
      PrependStep([HostForm(h)], Decimal(p), Tokenize(rest));
      assert [HostForm(h)] + [Decimal(p)] == [HostForm(h), Decimal(p)];
    case Stdio =>
      PlainToken("stdio", rest);
  }

  lemma RemoteTokens(r: RemoteSpec)
    requires RemoteOk(r)
    ensures Tokenize(Suffix(r)) == Ok(if r.Socks? then ["socks"] else [HostForm(r.host), Decimal(r.port)])
  {
    if r.RemoteInet? {
      HostToken(r.host, Decimal(r.port));
      DecimalToken(r.port, "");
      assert [HostForm(r.host)] + [Decimal(r.port)] == [HostForm(r.host), Decimal(r.port)];
    } else {
      assert ':' !in "socks" && !StartsWith("socks", '[');
    }
  }

  /** Tokens of a remote whose hosts survive. */
  function TokensOf(r: Remote): seq<string> {
    (if r.local.Stdio? then ["stdio"] else [HostForm(r.local.host), Decimal(r.local.port)])
    + (if r.remote.Socks? then ["socks"] else [HostForm(r.remote.host), Decimal(r.remote.port)])
  }

  lemma AllTokens(r: Remote)
    requires LocalOk(r.local) && RemoteOk(r.remote)
    ensures Tokenize(Prefix(r.local) + ":" + Suffix(r.remote)) == Ok(TokensOf(r))
  {
    LocalTokens(r.local, Suffix(r.remote));
    RemoteTokens(r.remote);
  }

  lemma ParsesTokens(r: Remote)
    requires LocalOk(r.local) && RemoteOk(r.remote)
    ensures Parse(Print(r)) == RejectUdpSocks(FromTokens(TokensOf(r), r.protocol))
  {
    ProtocolSplits(r);
    AllTokens(r);
  }

  lemma HostRestored(h: string)
    requires HostOk(h)
    ensures RemoveBrackets(HostForm(h)) == h
    ensures HostForm(h) == "stdio" <==> h == "stdio"
  {
    HostToken(h, "");
    if ':' in h {
      assert HostForm(h)[0] == '[';
      assert "stdio"[3] == 'i' && ':' !in "stdio";
    }
  }

  lemma BothInet(h: string, p: U16, h': string, q: U16, proto: Protocol)
    requires HostOk(h) && HostOk(h')
    ensures FromTokens([HostForm(h), Decimal(p), HostForm(h'), Decimal(q)], proto)
         == Ok(Remote(LocalInet(h, p), RemoteInet(h', q), proto))
  {
    HostRestored(h);
    HostRestored(h');
    PortRoundTrip(p);
    PortRoundTrip(q);
  }

  lemma StdioInet(h: string, q: U16, proto: Protocol)
    requires HostOk(h)
    ensures FromTokens(["stdio", HostForm(h), Decimal(q)], proto) == Ok(Remote(Stdio, RemoteInet(h, q), proto))
  {
    HostRestored(h);
    PortRoundTrip(q);
  }

  lemma InetSocks(h: string, p: U16, proto: Protocol)
    requires HostOk(h)
    ensures FromTokens([HostForm(h), Decimal(p), "socks"], proto)
         == if h == "stdio" then Err(BadPort) else Ok(Remote(LocalInet(h, p), Socks, proto))
  {
    HostRestored(h);
    PortRoundTrip(p);
    assert ParsePort("socks") == Err(BadPort) by { assert !IsDigit("socks"[0]); }
  }

  /** What the tokens of a remote are read as. */
  lemma TokensMean(r: Remote)
    requires LocalOk(r.local) && RemoteOk(r.remote)
    ensures FromTokens(TokensOf(r), r.protocol)
         == if r.remote.Socks? && r.local.LocalInet? && r.local.host == "stdio" then Err(BadPort) else Ok(r)
  {
    var ts := TokensOf(r);
    match r
    case Remote(LocalInet(h, p), RemoteInet(h', q), proto) =>
      BothInet(h, p, h', q, proto);
      assert ts == [HostForm(h), Decimal(p), HostForm(h'), Decimal(q)];
    case Remote(LocalInet(h, p), Socks, proto) =>
      InetSocks(h, p, proto);
      assert ts == [HostForm(h), Decimal(p), "socks"];
    case Remote(Stdio, RemoteInet(h', q), proto) =>
      StdioInet(h', q, proto);
      assert ts == ["stdio", HostForm(h'), Decimal(q)];
    case Remote(Stdio, Socks, proto) =>
      assert ts == ["stdio", "socks"];
  }

  lemma GoodHostsReparse(r: Remote)
    requires LocalOk(r.local) && RemoteOk(r.remote)
    ensures Parse(Print(r)) == Ok(r) <==> Reparsable(r)
  {
    ParsesTokens(r);
    TokensMean(r);
  }

  // ---- Hosts that do not survive ----

  /** The first token of a string that starts with a bracket, without its brackets. */
  lemma BracketedFirst(s: string)
    requires StartsWith(s, '[') && Tokenize(s).Ok?
    ensures Tokenize(s).value != []
    ensures var e := IndexOf(s, ']'); 1 <= e < |s| && RemoveBrackets(Tokenize(s).value[0]) == s[1..e]
  {
    var e := IndexOf(s, ']');
    var t := s[..e + 1];
    assert Tokenize(s).value[0] == t;
    assert |t| >= 2 && t[0] == '[' && t[|t| - 1] == ']';
    assert t[1..|t| - 1] == s[1..e];
  }

  /** A bad host is not what its first token gives back. */
  lemma BadHostLost(h: string, rest: string)
    requires !HostOk(h)
    ensures var ts := Tokenize(HostForm(h) + ":" + rest);
      ts.Ok? ==> ts.value != [] && RemoveBrackets(ts.value[0]) != h
  {
    var s := HostForm(h) + ":" + rest;
    assert s[0] == '[';
    if Tokenize(s).Ok? {
      BracketedFirst(s);
      if ':' in h { ClosedEarly(h, rest); } else { ClosedLate(h, rest); }
    }
  }

  /** A bracket inside the host closes it too early. */
  lemma ClosedEarly(h: string, rest: string)
    requires ':' in h && ']' in h
    ensures var s := "[" + h + "]" + ":" + rest; IndexOf(s, ']') <= |h|
  {
    var s, k := "[" + h + "]" + ":" + rest, IndexOf(h, ']');
    assert s[k + 1] == ']';
  }

  /** A host that starts with a bracket is closed inside itself or not at its end. */
  lemma ClosedLate(h: string, rest: string)
    requires StartsWith(h, '[') && ':' !in h
    ensures var s := h + ":" + rest; var e := IndexOf(s, ']'); e >= 1 && s[1..e] != h
  {
    var s := h + ":" + rest;
    var e := IndexOf(s, ']');
    if |s[1..e]| == |h| { assert s[1..e][|h| - 1] == s[|h|] == ':'; }
  }

  /** Which hosts a successful parse can report. */
  lemma HostsComeFromTokens(ts: seq<string>, proto: Protocol)
    requires FromTokens(ts, proto).Ok?
    ensures var r := FromTokens(ts, proto).value;
      && ts != []
      && (r.local.LocalInet? ==>
            r.local.host == DEFAULT_LOCAL || r.local.host == DEFAULT_UNSPECIFIED || r.local.host == RemoveBrackets(ts[0]))
      && (r.remote.RemoteInet? ==>
            || r.remote.host == DEFAULT_LOCAL
            || (|ts| == 2 && r.remote.host == RemoveBrackets(ts[0]))
            || (|ts| == 3 && r.remote.host == RemoveBrackets(ts[1]))
            || (|ts| == 4 && r.remote.host == RemoveBrackets(ts[2])))
      && (r.local.Stdio? ==> ts[0] == "stdio" && |ts| <= 3)
  {
  }

  lemma DefaultsAreGood()
    ensures HostOk(DEFAULT_LOCAL) && HostOk(DEFAULT_UNSPECIFIED)
  {
  }

  /** A bad local host that the first token does not give back is not reported. */
  lemma LocalMismatch(ts: seq<string>, r: Remote)
    requires ts != [] && !LocalOk(r.local) && RemoveBrackets(ts[0]) != r.local.host
    ensures RejectUdpSocks(FromTokens(ts, r.protocol)) != Ok(r)
  {
    DefaultsAreGood();
    if FromTokens(ts, r.protocol).Ok? { HostsComeFromTokens(ts, r.protocol); }
  }

  lemma RestFails(s: string, r: Remote)
    requires !LocalOk(r.local)
    requires var ts := Tokenize(s); ts.Ok? ==> ts.value != [] && RemoveBrackets(ts.value[0]) != r.local.host
    ensures ParseRest(s, r.protocol) != Ok(r)
  {
    if Tokenize(s).Ok? { LocalMismatch(Tokenize(s).value, r); }
  }

  lemma InetPrefix(l: LocalSpec, rest: string)
    requires l.LocalInet?
    ensures Prefix(l) + ":" + rest == HostForm(l.host) + ":" + (Decimal(l.port) + ":" + rest)
  {
  }

  lemma BadLocalLost(l: LocalSpec, rest: string)
    requires !LocalOk(l)
    ensures var ts := Tokenize(Prefix(l) + ":" + rest);
      ts.Ok? ==> ts.value != [] && RemoveBrackets(ts.value[0]) != l.host
  {
    InetPrefix(l, rest);
    BadHostLost(l.host, Decimal(l.port) + ":" + rest);
  }

  lemma BadLocalFails(r: Remote)
    requires !LocalOk(r.local)
    ensures Parse(Print(r)) != Ok(r)
  {
    ProtocolSplits(r);
    BadLocalLost(r.local, Suffix(r.remote));
    RestFails(Prefix(r.local) + ":" + Suffix(r.remote), r);
  }

  /** Nor is a bad remote host that the token in its place does not give back. */
  lemma RemoteMismatch(ts: seq<string>, r: Remote)
    requires !RemoteOk(r.remote) && ts != []
    requires if r.local.Stdio? then |ts| >= 2 && ts[0] == "stdio" && RemoveBrackets(ts[1]) != r.remote.host
             else |ts| >= 3 && HostOk(RemoveBrackets(ts[1])) && RemoveBrackets(ts[2]) != r.remote.host
    ensures RejectUdpSocks(FromTokens(ts, r.protocol)) != Ok(r)
  {
    DefaultsAreGood();
    if FromTokens(ts, r.protocol).Ok? { HostsComeFromTokens(ts, r.protocol); }
  }

  lemma BadRemoteFails(r: Remote)
    requires LocalOk(r.local) && !RemoteOk(r.remote)
    ensures Parse(Print(r)) != Ok(r)
  {
    ProtocolSplits(r);
    LocalTokens(r.local, Suffix(r.remote));
    BadHostLost(r.remote.host, Decimal(r.remote.port));
    if r.local.LocalInet? {
      DecimalToken(r.local.port, "");
      DecimalIsGood(r.local.port);
    }
    var ts := Tokenize(Prefix(r.local) + ":" + Suffix(r.remote));
    if ts.Ok? { RemoteMismatch(ts.value, r); }
  }

  lemma DecimalIsGood(p: U16)
    ensures HostOk(Decimal(p))
  {
    var d := Decimal(p);
    forall i | 0 <= i < |d| ensures d[i] != ':' && d[i] != '[' { assert IsDigit(d[i]); }
  }

  /** Parsing a printed remote gives it back exactly when its hosts survive and a SOCKS
      remote is TCP and not on a local host called "stdio". */
  lemma RemoteRoundTrip(r: Remote)
    ensures Parse(Print(r)) == Ok(r) <==> Reparsable(r)
  {
    if !LocalOk(r.local) { BadLocalFails(r); }
    else if !RemoteOk(r.remote) { BadRemoteFails(r); }
    else { GoodHostsReparse(r); }
  }

  // ---- Short forms ----

  lemma SocksToken()
    ensures Tokenize("socks") == Ok(["socks"])
  {
    assert ':' !in "socks" && "socks"[0] == 's';
  }

  lemma FromSocks(proto: Protocol)
    ensures FromTokens(["socks"], proto) == Ok(Remote(LocalInet("127.0.0.1", 1080), Socks, proto))
  {
  }

  lemma FromPort(p: U16, proto: Protocol)
    ensures FromTokens([Decimal(p)], proto) == Ok(Remote(LocalInet("0.0.0.0", p), RemoteInet("127.0.0.1", p), proto))
    ensures FromTokens([Decimal(p), "socks"], proto) == Ok(Remote(LocalInet("127.0.0.1", p), Socks, proto))
    ensures FromTokens(["stdio", Decimal(p)], proto) == Ok(Remote(Stdio, RemoteInet("127.0.0.1", p), proto))
  {
    PortRoundTrip(p);
    DecimalToken(p, "");
  }

  lemma PortTokens(p: U16)
    ensures Tokenize(Decimal(p)) == Ok([Decimal(p)])
    ensures Tokenize(Decimal(p) + ":" + "socks") == Ok([Decimal(p), "socks"])
    ensures Tokenize("stdio" + ":" + Decimal(p)) == Ok(["stdio", Decimal(p)])
  {
    SocksToken();
    DecimalToken(p, "socks");
    assert [Decimal(p)] + ["socks"] == [Decimal(p), "socks"];
    PlainToken("stdio", Decimal(p));
    TwoTokens("stdio", p);
  }

  lemma ShortRests(p: U16, proto: Protocol)
    ensures ParseRest("socks", Tcp) == Ok(Remote(LocalInet("127.0.0.1", 1080), Socks, Tcp))
    ensures ParseRest("socks", Udp) == Err(UdpSocks)
    ensures ParseRest(Decimal(p), proto) == Ok(Remote(LocalInet("0.0.0.0", p), RemoteInet("127.0.0.1", p), proto))
    ensures ParseRest(Decimal(p) + ":" + "socks", Tcp) == Ok(Remote(LocalInet("127.0.0.1", p), Socks, Tcp))
    ensures ParseRest("stdio" + ":" + Decimal(p), proto) == Ok(Remote(Stdio, RemoteInet("127.0.0.1", p), proto))
  {
    SocksToken();
    FromSocks(Tcp);
    FromSocks(Udp);
    PortTokens(p);
    FromPort(p, Tcp);
    FromPort(p, proto);
  }

  /** A specification as a user may write it: without a slash, or with a protocol after it. */
  lemma WithProtocol(body: string, proto: Protocol)
    ensures Parse(body + "/" + ProtocolName(proto)) == ParseRest(body, proto)
    ensures '/' !in body ==> Parse(body) == ParseRest(body, Tcp)
  {
    ProtocolNameParses(proto);
    SlashSplits(body, ProtocolName(proto));
  }

  lemma NoSlashes(p: U16)
    ensures '/' !in "socks" && '/' !in Decimal(p) && '/' !in Decimal(p) + ":" + "socks"
    ensures '/' !in "stdio" + ":" + Decimal(p)
  {
    DecimalIsPlain(p);
  }

  /** What the forms without a remote host stand for: a bare "socks" listens on 1080, a
      missing remote host is this machine, a missing local address is any or this one, and
      a missing protocol is TCP. SOCKS is refused over UDP. */
  lemma ShortFormsWithoutHost(p: U16, proto: Protocol)
    ensures Parse("socks") == Ok(Remote(LocalInet("127.0.0.1", 1080), Socks, Tcp))
    ensures Parse("socks" + "/" + "udp") == Err(UdpSocks)
    ensures Parse(Decimal(p)) == Ok(Remote(LocalInet("0.0.0.0", p), RemoteInet("127.0.0.1", p), Tcp))
    ensures Parse(Decimal(p) + "/" + ProtocolName(proto))
         == Ok(Remote(LocalInet("0.0.0.0", p), RemoteInet("127.0.0.1", p), proto))
    ensures Parse(Decimal(p) + ":" + "socks") == Ok(Remote(LocalInet("127.0.0.1", p), Socks, Tcp))
    ensures Parse("stdio" + ":" + Decimal(p)) == Ok(Remote(Stdio, RemoteInet("127.0.0.1", p), Tcp))
    ensures Parse("stdio" + ":" + Decimal(p) + "/" + ProtocolName(proto))
         == Ok(Remote(Stdio, RemoteInet("127.0.0.1", p), proto))
  {
    NoSlashes(p);
    ShortRests(p, Tcp);
    ShortRests(p, proto);
    WithProtocol("socks", Udp);
    WithProtocol(Decimal(p), proto);
    WithProtocol(Decimal(p) + ":" + "socks", Tcp);
    WithProtocol("stdio" + ":" + Decimal(p), proto);
  }

  /** Protocol names, in either case; anything else is refused. */
  lemma ProtocolExactly(s: string)
    ensures ParseProtocol(s) == Ok(Tcp) <==>
      |s| == 3 && (s[0] == 't' || s[0] == 'T') && (s[1] == 'c' || s[1] == 'C') && (s[2] == 'p' || s[2] == 'P')
    ensures ParseProtocol(s) == Ok(Udp) <==>
      |s| == 3 && (s[0] == 'u' || s[0] == 'U') && (s[1] == 'd' || s[1] == 'D') && (s[2] == 'p' || s[2] == 'P')
    ensures ParseProtocol(s) == Ok(Tcp) || ParseProtocol(s) == Ok(Udp) || ParseProtocol(s) == Err(BadProtocol)
  {
    var t := seq(|s|, i requires 0 <= i < |s| => Lower(s[i]));
    if |s| == 3 { assert t == [Lower(s[0]), Lower(s[1]), Lower(s[2])]; }
  }

  /** A number is a port if and only if it fits 16 bits, with or without a plus sign. */
  lemma PortExactly(n: nat)
    ensures ParsePort(Decimal(n)) == if n < 0x1_0000 then Ok(n) else Err(BadPort)
    ensures ParsePort("+" + Decimal(n)) == ParsePort(Decimal(n))
  {
    DecimalValue(n);
    assert ("+" + Decimal(n))[1..] == Decimal(n);
    assert IsDigit(Decimal(n)[0]);
  }

  /** A remote host and port alone: any local address, the same port. */
  lemma HostAndPort(h: string, p: U16, proto: Protocol)
    requires HostOk(h) && h != "stdio"
    ensures Parse(HostForm(h) + ":" + Decimal(p) + "/" + ProtocolName(proto))
         == Ok(Remote(LocalInet("0.0.0.0", p), RemoteInet(h, p), proto))
    ensures '/' !in h ==>
      Parse(HostForm(h) + ":" + Decimal(p)) == Ok(Remote(LocalInet("0.0.0.0", p), RemoteInet(h, p), Tcp))
  {
    HostAndPortRest(h, p, proto);
    HostAndPortRest(h, p, Tcp);
    WithProtocol(HostForm(h) + ":" + Decimal(p), proto);
    DecimalIsPlain(p);
  }

  lemma HostAndPortRest(h: string, p: U16, proto: Protocol)
    requires HostOk(h) && h != "stdio"
    ensures ParseRest(HostForm(h) + ":" + Decimal(p), proto) == Ok(Remote(LocalInet("0.0.0.0", p), RemoteInet(h, p), proto))
  {
    PortRoundTrip(p);
    HostRestored(h);
    HostToken(h, Decimal(p));
    TwoTokens(HostForm(h), p);
    DecimalToken(p, "");
    FromTwo(HostForm(h), p, proto);
  }

  lemma FromTwo(t: string, p: U16, proto: Protocol)
    requires t != "stdio"
    ensures FromTokens([t, Decimal(p)], proto) == Ok(Remote(LocalInet("0.0.0.0", p), RemoteInet(RemoveBrackets(t), p), proto))
  {
    PortRoundTrip(p);
    DecimalToken(p, "");
  }

  /** A local port before them: any local address, that port. */
  lemma PortHostAndPort(h: string, p: U16, q: U16, proto: Protocol)
    requires HostOk(h)
    ensures Parse(Decimal(p) + ":" + (HostForm(h) + ":" + Decimal(q)) + "/" + ProtocolName(proto))
         == Ok(Remote(LocalInet("0.0.0.0", p), RemoteInet(h, q), proto))
    ensures '/' !in h ==>
      Parse(Decimal(p) + ":" + (HostForm(h) + ":" + Decimal(q))) == Ok(Remote(LocalInet("0.0.0.0", p), RemoteInet(h, q), Tcp))
  {
    PortHostAndPortRest(h, p, q, proto);
    PortHostAndPortRest(h, p, q, Tcp);
    WithProtocol(Decimal(p) + ":" + (HostForm(h) + ":" + Decimal(q)), proto);
    DecimalIsPlain(p);
    DecimalIsPlain(q);
  }

  lemma PortHostAndPortRest(h: string, p: U16, q: U16, proto: Protocol)
    requires HostOk(h)
    ensures ParseRest(Decimal(p) + ":" + (HostForm(h) + ":" + Decimal(q)), proto)
         == Ok(Remote(LocalInet("0.0.0.0", p), RemoteInet(h, q), proto))
  {
    HostRestored(h);
    HostToken(h, Decimal(q));
    TwoTokens(HostForm(h), q);
    DecimalToken(p, HostForm(h) + ":" + Decimal(q));
    assert [Decimal(p)] + [HostForm(h), Decimal(q)] == [Decimal(p), HostForm(h), Decimal(q)];
    FromThree(p, HostForm(h), q, proto);
  }

  lemma FromThree(p: U16, t: string, q: U16, proto: Protocol)
    ensures FromTokens([Decimal(p), t, Decimal(q)], proto)
         == Ok(Remote(LocalInet("0.0.0.0", p), RemoteInet(RemoveBrackets(t), q), proto))
  {
    PortRoundTrip(p);
    PortRoundTrip(q);
    DecimalToken(p, "");
    DecimalToken(q, "");
  }

  lemma TwoTokens(t: string, p: U16)
    ensures Prepend(t, Tokenize(Decimal(p))) == Ok([t, Decimal(p)])
  {
    DecimalToken(p, "");
    assert [t] + [Decimal(p)] == [t, Decimal(p)];
  }

  // ---- What the tokenizer makes of a string, exactly ----

  /** The two kinds of token: no colon and no bracket in front, or a pair of brackets. */
  predicate Plain(t: string) { ':' !in t && !StartsWith(t, '[') }

  predicate Bracketed(t: string) {
    |t| >= 2 && t[0] == '[' && t[|t| - 1] == ']' && ']' !in t[..|t| - 1]
  }

  predicate Tokens(ts: seq<string>) {
    ts != [] && forall t :: t in ts ==> Plain(t) || Bracketed(t)
  }

  function Joined(ts: seq<string>): string
    requires ts != []
  {
    if |ts| == 1 then ts[0] else ts[0] + ":" + Joined(ts[1..])
  }

  lemma FirstClosing(t: string, rest: string)
    requires Bracketed(t)
    ensures IndexOf(t + rest, ']') == |t| - 1
  {
    assert (t + rest)[..|t| - 1] == t[..|t| - 1];
    IndexIs(t + rest, ']', |t| - 1);
  }

  lemma AtColon(t: string, rest: string)
    ensures var s := t + (":" + rest); |s| == |t| + 1 + |rest| && s[..|t|] == t && s[|t|] == ':' && s[|t| + 1..] == rest
  {
  }

  /** One step of the tokenizer on a bracketed token. */
  lemma BracketSplits(s: string, end: nat)
    requires StartsWith(s, '[') && end < |s| && s[end] == ':' && IndexOf(s, ']') + 1 == end
    ensures Tokenize(s) == Prepend(s[..end], Tokenize(s[end + 1..]))
  {
  }

  lemma BracketTokenIn(s: string, t: string, rest: string)
    requires Bracketed(t) && |t| < |s| && s[..|t|] == t && s[|t|] == ':' && s[|t| + 1..] == rest
    ensures Tokenize(s) == Prepend(t, Tokenize(rest))
  {
    forall j | 0 <= j < |t| ensures s[j] == t[j] { assert s[..|t|][j] == t[j]; }
    assert forall j :: 0 <= j < |t| - 1 ==> t[..|t| - 1][j] == t[j];
    IndexIs(s, ']', |t| - 1);
    BracketSplits(s, |t|);
  }

  lemma BracketToken(t: string, rest: string)
    requires Bracketed(t)
    ensures Tokenize(t + (":" + rest)) == Prepend(t, Tokenize(rest))
  {
    AtColon(t, rest);
    BracketTokenIn(t + (":" + rest), t, rest);
  }

  lemma LoneBracketToken(t: string)
    requires Bracketed(t)
    ensures Tokenize(t) == Panicked
  {
    FirstClosing(t, "");
    assert t + "" == t;
  }

  /** Either kind of token is split off at its colon; alone it is found or fatal. */
  lemma AnyToken(t: string, rest: string)
    requires Plain(t) || Bracketed(t)
    ensures Tokenize(t + ":" + rest) == Prepend(t, Tokenize(rest))
    ensures Tokenize(t) == if Bracketed(t) then Panicked else Ok([t])
  {
    if Bracketed(t) {
      BracketToken(t, rest);
      LoneBracketToken(t);
      assert t + (":" + rest) == t + ":" + rest;
    } else {
      PlainToken(t, rest);
    }
  }

  /** Tokens joined by colons are found again, unless the last one is bracketed. */
  lemma {:induction false} JoinedTokenizes(ts: seq<string>)
    requires Tokens(ts)
    ensures Tokenize(Joined(ts)) == if Bracketed(ts[|ts| - 1]) then Panicked else Ok(ts)
  {
    assert ts[0] in ts;
    if |ts| == 1 {
      assert ts == [ts[0]];
      AnyToken(ts[0], "");
    } else {
      var rest := ts[1..];
      assert rest[|rest| - 1] == ts[|ts| - 1] && ts == [ts[0]] + rest;
      JoinedTokenizes(rest);
      AnyToken(ts[0], Joined(rest));
    }
  }

  /** One more token in front. */
  lemma JoinedPrepend(t: string, rest: seq<string>)
    requires Tokens(rest) && (Plain(t) || Bracketed(t))
    ensures Tokens([t] + rest) && Joined([t] + rest) == t + ":" + Joined(rest)
    ensures ([t] + rest)[|rest|] == rest[|rest| - 1]
  {
    assert ([t] + rest)[1..] == rest;
  }

  /** The first token of a string and what follows its colon, if anything does. */
  lemma FirstToken(s: string) returns (t: string, rest: string, last: bool)
    requires !Tokenize(s).Err?
    ensures Plain(t) || Bracketed(t)
    ensures if last then s == t else s == t + ":" + rest && |rest| < |s| && !Tokenize(rest).Err?
  {
    if StartsWith(s, '[') {
      var end := IndexOf(s, ']') + 1;
      t, last := s[..end], end == |s|;
      assert t[..|t| - 1] == s[..end - 1];
      rest := if last then "" else s[end + 1..];
    } else {
      var i := IndexOf(s, ':');
      t, last := s[..i], i == |s|;
      rest := if last then "" else s[i + 1..];
    }
  }

  /** A string that does not fail outright is tokens joined by colons. */
  lemma {:induction false} SplitsIntoTokens(s: string) returns (ts: seq<string>)
    requires !Tokenize(s).Err?
    ensures Tokens(ts) && s == Joined(ts)
    decreases |s|
  {
    var t, rest, last := FirstToken(s);
    if last {
      ts := [t];
    } else {
      ts := SplitsIntoTokens(rest);
      JoinedPrepend(t, ts);
      ts := [t] + ts;
    }
  }

  /** The tokenizer succeeds exactly on tokens joined by colons of which the last is not
      bracketed, and then it finds those tokens. */
  lemma TokenizeExactly(s: string, ts: seq<string>)
    ensures Tokenize(s) == Ok(ts) <==> Tokens(ts) && Plain(ts[|ts| - 1]) && s == Joined(ts)
  {
    if Tokens(ts) && s == Joined(ts) {
      assert ts[|ts| - 1] in ts;
      JoinedTokenizes(ts);
    }
    if Tokenize(s) == Ok(ts) {
      var split := SplitsIntoTokens(s);
      assert split[|split| - 1] in split;
      JoinedTokenizes(split);
    }
  }

  /** The last of the tokens that make up the string is bracketed. */
  ghost predicate EndsBracketed(s: string) {
    exists ts: seq<string> :: Tokens(ts) && Bracketed(ts[|ts| - 1]) && s == Joined(ts)
  }

  /** The tokenizer slices out of range exactly when the last token is bracketed. */
  lemma TokenizePanicsExactly(s: string)
    ensures Tokenize(s) == Panicked <==> EndsBracketed(s)
  {
    if Tokenize(s) == Panicked {
      var ts := SplitsIntoTokens(s);
      JoinedTokenizes(ts);
    }
    if EndsBracketed(s) {
      var ts: seq<string> :| Tokens(ts) && Bracketed(ts[|ts| - 1]) && s == Joined(ts);
      JoinedTokenizes(ts);
    }
  }

  lemma TokensNeverPanic(ts: seq<string>, proto: Protocol)
    ensures FromTokens(ts, proto) != Panicked
  {
  }

  lemma RestPanics(s: string, proto: Protocol)
    ensures ParseRest(s, proto) == Panicked <==> EndsBracketed(s)
  {
    TokenizePanicsExactly(s);
    if Tokenize(s).Ok? { TokensNeverPanic(Tokenize(s).value, proto); }
  }

  /** So does the parser, on what precedes a valid protocol or on the whole string. */
  lemma ParsePanicsExactly(s: string)
    ensures Parse(s) == Panicked <==>
      if '/' in s then ParseProtocol(s[LastIndexOf(s, '/') + 1..]).Ok? && EndsBracketed(s[..LastIndexOf(s, '/')])
      else EndsBracketed(s)
  {
    var body := if '/' in s then s[..LastIndexOf(s, '/')] else s;
    RestPanics(body, Tcp);
    RestPanics(body, Udp);
  }

  lemma DecimalIsPlain(p: U16)
    ensures Plain(Decimal(p)) && '/' !in Decimal(p)
  {
    var d := Decimal(p);
    forall i | 0 <= i < |d| ensures d[i] != ':' && d[i] != '[' && d[i] != '/' { assert IsDigit(d[i]); }
  }

  lemma BracketedLastPanics(d: string, t: string)
    requires Plain(d) && Bracketed(t) && '/' !in d && '/' !in t
    ensures Parse(t) == Panicked && Parse(d + ":" + t) == Panicked
  {
    ParsePanicsExactly(t);
    assert EndsBracketed(t) by { assert Tokens([t]) && t == Joined([t]); }
    ParsePanicsExactly(d + ":" + t);
    JoinedPrepend(d, [t]);
    assert EndsBracketed(d + ":" + t) by { assert ([d] + [t])[1] == t; }
  }

  /** A bracket that is not closed is a bad host; one closed before anything but a colon is
      a bad format. */
  lemma BracketErrors(h: string, rest: string)
    requires ']' !in h
    ensures Tokenize("[" + h) == Err(BadHost)
    ensures rest != "" && rest[0] != ':' ==> Tokenize("[" + h + "]" + rest) == Err(BadFormat)
  {
    assert ("[" + h)[0] == '[' && IndexOf("[" + h, ']') == |h| + 1;
    var t := "[" + h + "]";
    assert t[..|t| - 1] == "[" + h && Bracketed(t);
    FirstClosing(t, rest);
    if rest != "" { assert (t + rest)[|t|] == rest[0]; }
  }

  /** A bracketed host alone makes the parser panic; so does one after a port. */
  lemma BracketedAddressPanics(h: string, p: U16)
    requires ']' !in h && '/' !in h
    ensures Parse("[" + h + "]") == Panicked
    ensures Parse(Decimal(p) + ":" + ("[" + h + "]")) == Panicked
  {
    var t := "[" + h + "]";
    assert t[..|t| - 1] == "[" + h;
    DecimalIsPlain(p);
    BracketedLastPanics(Decimal(p), t);
  }

  lemma SuffixEnds(r: RemoteSpec)
    ensures Suffix(r) != [] && Suffix(r)[|Suffix(r)| - 1] != ']'
  {
    if r.RemoteInet? {
      var d := Decimal(r.port);
      assert Suffix(r)[|Suffix(r)| - 1] == d[|d| - 1] && IsDigit(d[|d| - 1]);
    }
  }

  lemma {:induction false} EndsInBracket(ts: seq<string>)
    requires Tokens(ts) && Bracketed(ts[|ts| - 1])
    ensures Joined(ts) != [] && Joined(ts)[|Joined(ts)| - 1] == ']'
  {
    if |ts| > 1 {
      assert ts[1..][|ts| - 2] == ts[|ts| - 1];
      EndsInBracket(ts[1..]);
    }
  }

  /** No printed remote makes the parser panic, not even one that does not parse back. */
  lemma PrintedNeverPanics(r: Remote)
    ensures Parse(Print(r)) != Panicked
  {
    ProtocolSplits(r);
    SuffixEnds(r.remote);
    var s := Prefix(r.local) + ":" + Suffix(r.remote);
    assert s[|s| - 1] == Suffix(r.remote)[|Suffix(r.remote)| - 1];
    TokenizePanicsExactly(s);
    if EndsBracketed(s) {
      var ts: seq<string> :| Tokens(ts) && Bracketed(ts[|ts| - 1]) && s == Joined(ts);
      EndsInBracket(ts);
    }
    if Tokenize(s).Ok? { TokensNeverPanic(Tokenize(s).value, r.protocol); }
  }
}
