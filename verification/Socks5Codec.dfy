/**
The wire formats that internal/socks5/server.go reads and writes: the greeting and request
of sections 3 and 4 of RFC 1928, its reply of section 6, and the user name and password
message of section 2 of RFC 1929. The encoders are the specification of the readers.
*/
module Socks5Codec {
  import opened Wrappers

  type Byte = b: int | 0 <= b < 256

  type Bytes = seq<Byte>

  const VERSION: Byte := 5
  const AUTH_NONE: Byte := 0
  const AUTH_PASSWORD: Byte := 2
  const AUTH_NO_ACCEPT: Byte := 255
  const CMD_CONNECT: Byte := 1
  const ATYP_IPV4: Byte := 1
  const ATYP_DOMAIN: Byte := 3
  const ATYP_IPV6: Byte := 4

  datatype Parse<T> = Parsed(value: T, rest: Bytes) | Rejected

  datatype Login = Login(username: Bytes, password: Bytes)

  datatype Host = IPv4(addr: Bytes) | Domain(name: Bytes) | IPv6(addr: Bytes)

  datatype Request = Request(cmd: Byte, host: Host, port: nat)

  // ---- Encoders ----

  /** A length byte and that many bytes. */
  function EncodeField(v: Bytes): Bytes
    requires |v| < 256
  {
    [|v|] + v
  }

  function EncodeGreeting(methods: Bytes): Bytes
    requires |methods| < 256
  {
    [VERSION] + EncodeField(methods)
  }

  function EncodeLogin(l: Login): Bytes
    requires |l.username| < 256 && |l.password| < 256
  {
    [1] + EncodeField(l.username) + EncodeField(l.password)
  }

  predicate ValidRequest(r: Request) {
    && r.port < 0x1_0000
    && ValidHost(r.host)
  }

  function EncodeHost(h: Host): Bytes
    requires h.Domain? ==> |h.name| < 256
  {
    match h
    case IPv4(a) => [ATYP_IPV4] + a
    case Domain(n) => [ATYP_DOMAIN] + EncodeField(n)
    case IPv6(a) => [ATYP_IPV6] + a
  }

  function EncodePort(p: nat): Bytes
    requires p < 0x1_0000
  {
    [p / 256, p % 256]
  }

  function Port(high: Byte, low: Byte): nat {
    256 * (high as int) + (low as int)
  }

  function EncodeRequest(r: Request): Bytes
    requires ValidRequest(r)
  {
    [VERSION, r.cmd, 0] + EncodeHost(r.host) + EncodePort(r.port)
  }

  // ---- Readers, as functions of the bytes still to come ----

  /** io.ReadFull of n bytes. */
  function Take(bs: Bytes, n: nat): Parse<Bytes> {
    if n <= |bs| then Parsed(bs[..n], bs[n..]) else Rejected
  }

  function ParseField(bs: Bytes): Parse<Bytes> {
    if bs == [] then Rejected else Take(bs[1..], bs[0])
  }

  function ParseGreeting(bs: Bytes): Parse<Bytes> {
    if |bs| < 2 || bs[0] != VERSION then Rejected else ParseField(bs[1..])
  }

  function ParseLogin(bs: Bytes): Parse<Login> {
    if |bs| < 2 || bs[0] != 1 then Rejected
    else
      match ParseField(bs[1..])
      case Rejected => Rejected
      case Parsed(username, r) =>
        match ParseField(r)
        case Rejected => Rejected
        case Parsed(password, rest) => Parsed(Login(username, password), rest)
  }

  function ParseHost(atyp: Byte, bs: Bytes): Parse<Host> {
    if atyp == ATYP_IPV4 then
      (match Take(bs, 4) case Rejected => Rejected case Parsed(a, r) => Parsed(IPv4(a), r))
    else if atyp == ATYP_DOMAIN then
      (match ParseField(bs) case Rejected => Rejected case Parsed(n, r) => Parsed(Domain(n), r))
    else if atyp == ATYP_IPV6 then
      (match Take(bs, 16) case Rejected => Rejected case Parsed(a, r) => Parsed(IPv6(a), r))
    else Rejected
  }

  function ParseRequest(bs: Bytes): Parse<Request> {
    if |bs| < 4 || bs[0] != VERSION || bs[2] != 0 then Rejected
    else
      match ParseHost(bs[3], bs[4..])
      case Rejected => Rejected
      case Parsed(host, r) =>
        if |r| < 2 then Rejected else Parsed(Request(bs[1], host, Port(r[0], r[1])), r[2..])
  }

  // ---- Each reader consumes exactly the frame its encoder writes ----

  lemma TakeExactly(a: Bytes, rest: Bytes)
    ensures Take(a + rest, |a|) == Parsed(a, rest)
  {
    Drop(a, rest);
    assert (a + rest)[..|a|] == a;
  }

  lemma Drop<T>(a: seq<T>, b: seq<T>)
    ensures (a + b)[|a|..] == b
  {
  }

  lemma Regroup<T>(a: seq<T>, b: seq<T>, c: seq<T>, d: seq<T>)
    ensures a + (b + (c + d)) == a + b + c + d
  {
  }

  lemma SplitAt<T>(s: seq<T>, n: nat)
    requires n <= |s|
    ensures s == s[..n] + s[n..]
  {
  }

  lemma FieldFraming(bs: Bytes, v: Bytes, rest: Bytes)
    requires |v| < 256
    ensures ParseField(bs) == Parsed(v, rest) <==> bs == EncodeField(v) + rest
  {
    if ParseField(bs) == Parsed(v, rest) {
      SplitAt(bs, 1);
      SplitAt(bs[1..], |v|);
    }
    if bs == EncodeField(v) + rest {
      assert bs[1..] == v + rest;
      TakeExactly(v, rest);
    }
  }

  /** A greeting is accepted exactly if it is an encoded one, and nothing after it is read. */
  lemma GreetingFraming(bs: Bytes, methods: Bytes, rest: Bytes)
    requires |methods| < 256
    ensures ParseGreeting(bs) == Parsed(methods, rest) <==> bs == EncodeGreeting(methods) + rest
  {
    var field := EncodeField(methods) + rest;
    assert EncodeGreeting(methods) + rest == [VERSION] + field;
    if bs != [] {
      SplitAt(bs, 1);
      FieldFraming(bs[1..], methods, rest);
    }
    Drop([VERSION], field);
  }

  /** A login is accepted exactly if it is an encoded one, and nothing after it is read. */
  lemma LoginFraming(bs: Bytes, l: Login, rest: Bytes)
    requires |l.username| < 256 && |l.password| < 256
    ensures ParseLogin(bs) == Parsed(l, rest) <==> bs == EncodeLogin(l) + rest
  {
    var r := EncodeField(l.password) + rest;
    if bs != [] {
      SplitAt(bs, 1);
      FieldFraming(bs[1..], l.username, r);
    }
    FieldFraming(r, l.password, rest);
    Regroup([1], EncodeField(l.username), EncodeField(l.password), rest);
    if bs == EncodeLogin(l) + rest {
      assert bs == [1] + (EncodeField(l.username) + r);
      Drop([1], EncodeField(l.username) + r);
    }
    if ParseLogin(bs) == Parsed(l, rest) {
      var mid := ParseField(bs[1..]).rest;
      FieldFraming(mid, l.password, rest);
    }
  }

  predicate ValidHost(h: Host) {
    match h
    case IPv4(a) => |a| == 4
    case Domain(n) => |n| < 256
    case IPv6(a) => |a| == 16
  }

  lemma HostParses(h: Host, rest: Bytes)
    requires ValidHost(h)
    ensures var bs := EncodeHost(h) + rest;
            ParseHost(bs[0], bs[1..]) == Parsed(h, rest)
  {
    match h
    case IPv4(a) =>
      assert EncodeHost(h) + rest == [ATYP_IPV4] + (a + rest);
      Drop([ATYP_IPV4], a + rest);
      TakeExactly(a, rest);
    case Domain(n) =>
      assert EncodeHost(h) + rest == [ATYP_DOMAIN] + (EncodeField(n) + rest);
      Drop([ATYP_DOMAIN], EncodeField(n) + rest);
      FieldFraming(EncodeField(n) + rest, n, rest);
    case IPv6(a) =>
      assert EncodeHost(h) + rest == [ATYP_IPV6] + (a + rest);
      Drop([ATYP_IPV6], a + rest);
      TakeExactly(a, rest);
  }

  lemma HostFrames(atyp: Byte, bs: Bytes)
    requires ParseHost(atyp, bs).Parsed?
    ensures var h, rest := ParseHost(atyp, bs).value, ParseHost(atyp, bs).rest;
            ValidHost(h) && [atyp] + bs == EncodeHost(h) + rest
  {
    if atyp == ATYP_DOMAIN {
      var n, rest := ParseField(bs).value, ParseField(bs).rest;
      assert |n| < 256;
      FieldFraming(bs, n, rest);
    } else {
      SplitAt(bs, if atyp == ATYP_IPV4 then 4 else 16);
    }
  }

  lemma RequestParses(r: Request, rest: Bytes)
    requires ValidRequest(r)
    ensures ParseRequest(EncodeRequest(r) + rest) == Parsed(r, rest)
  {
    var tail := EncodePort(r.port) + rest;
    var host := EncodeHost(r.host) + tail;
    var bs := [VERSION, r.cmd, 0] + host;
    Regroup([VERSION, r.cmd, 0], EncodeHost(r.host), EncodePort(r.port), rest);
    HostParses(r.host, tail);
    Drop([VERSION, r.cmd, 0], host);
    assert bs[3] == host[0] && bs[4..] == bs[3..][1..];
    Drop(EncodePort(r.port), rest);
  }

  lemma RequestFrames(bs: Bytes)
    requires ParseRequest(bs).Parsed?
    ensures var r, rest := ParseRequest(bs).value, ParseRequest(bs).rest;
            ValidRequest(r) && bs == EncodeRequest(r) + rest
  {
    var r, rest := ParseRequest(bs).value, ParseRequest(bs).rest;
    var tail := ParseHost(bs[3], bs[4..]).rest;
    HostFrames(bs[3], bs[4..]);
    SplitAt(bs, 3);
    SplitAt(bs[3..], 1);
    SplitAt(tail, 2);
    assert bs[..3] == [VERSION, r.cmd, 0] && bs[3..][..1] == [bs[3]] && bs[3..][1..] == bs[4..];
    assert tail[..2] == EncodePort(r.port);
    Regroup([VERSION, r.cmd, 0], EncodeHost(r.host), EncodePort(r.port), rest);
  }

  /** A request is accepted exactly if it is an encoded one, and nothing after it is read. */
  lemma RequestFraming(bs: Bytes, r: Request, rest: Bytes)
    requires ValidRequest(r)
    ensures ParseRequest(bs) == Parsed(r, rest) <==> bs == EncodeRequest(r) + rest
  {
    RequestParses(r, rest);
    if ParseRequest(bs).Parsed? {
      RequestFrames(bs);
    }
  }

  // ---- Replies ----

  /** A local address: net.TCPAddr, whose IP may be nil or, in Go, a slice of any length. */
  datatype Addr = Addr(ip: Option<Bytes>, port: int)

  function Zeros(n: nat): Bytes {
    seq(n, _ => 0)
  }

  function To4(ip: Bytes): Option<Bytes> {
    if |ip| == 4 then Some(ip)
    else if |ip| == 16 && ip[..10] == Zeros(10) && ip[10] == 255 && ip[11] == 255 then Some(ip[12..])
    else None
  }

  function To16(ip: Bytes): Option<Bytes> {
    if |ip| == 4 then Some(Zeros(10) + [255, 255] + ip)
    else if |ip| == 16 then Some(ip)
    else None
  }

  datatype Reply = Reply(code: Byte, addr: Bytes, port: nat)

  /** Section 6 of RFC 1928, for the two address types a server reports. */
  function DecodeReply(bs: Bytes): Option<Reply> {
    if |bs| < 4 || bs[0] != VERSION || bs[2] != 0 then None
    else if bs[3] == ATYP_IPV4 && |bs| == 10 then Some(Reply(bs[1], bs[4..8], Port(bs[8], bs[9])))
    else if bs[3] == ATYP_IPV6 && |bs| == 22 then Some(Reply(bs[1], bs[4..20], Port(bs[20], bs[21])))
    else None
  }

  /** The address a reply should report: IPv4 where possible, 0.0.0.0 if there is none. */
  function Reported(ip: Option<Bytes>): Bytes {
    if ip.None? then Zeros(4)
    else if To4(ip.value).Some? then To4(ip.value).value
    else ip.value
  }

  predicate ReadableIP(ip: Option<Bytes>) {
    ip.None? || |ip.value| == 4 || |ip.value| == 16
  }

  lemma ReplyRoundTrip(rep: Byte, atyp: Byte, ip: Bytes, port: nat)
    requires port < 0x1_0000
    requires ip == [] || (atyp == ATYP_IPV4 && |ip| == 4) || (atyp == ATYP_IPV6 && |ip| == 16)
    ensures var resp := [VERSION, rep, 0, atyp] + ip + [port / 256, port % 256];
            DecodeReply(resp) == if ip == [] then None else Some(Reply(rep, ip, port))
  {
    var resp := [VERSION, rep, 0, atyp] + ip + [port / 256, port % 256];
    assert resp[4..4 + |ip|] == ip && resp[4 + |ip|..] == [port / 256, port % 256];
    assert resp[4 + |ip|] == resp[4 + |ip|..][0] && resp[5 + |ip|] == resp[4 + |ip|..][1];
  }

  /** The address bytes that `reply` appends, with their type; none for an odd length. */
  method ReplyAddress(addr: Option<Bytes>) returns (atyp: Byte, ip: Bytes)
    ensures ReadableIP(addr) ==> ip == Reported(addr)
    ensures !ReadableIP(addr) ==> ip == []
    ensures atyp == if |ip| == 16 then ATYP_IPV6 else ATYP_IPV4
  {
    atyp := ATYP_IPV4;
    var bytes := if addr.Some? then addr.value else [];
    if To4(bytes).None? && To16(bytes).Some? {
      // A nil address is never of this type, so IPv6zero is not needed.
      return ATYP_IPV6, To16(bytes).value;
    }
    if addr.None? {
      bytes := Zeros(10) + [255, 255] + Zeros(4);
      assert bytes[..10] == Zeros(10) && bytes[12..] == Zeros(4);
    }
    ip := if To4(bytes).Some? then To4(bytes).value else [];
  }

  /**
  The bytes that `reply` writes. They decode to the code, address and port exactly when
  the address has a length that an IP address can have; otherwise no address is written.
  */
  method BuildReply(rep: Byte, bindAddr: Option<Addr>) returns (resp: Bytes)
    ensures var a := if bindAddr.Some? then bindAddr.value else Addr(None, 0);
      && (ReadableIP(a.ip) <==> |resp| == 10 || |resp| == 22)
      && (ReadableIP(a.ip) ==> DecodeReply(resp) == Some(Reply(rep, Reported(a.ip), a.port % 0x1_0000)))
      && (!ReadableIP(a.ip) ==> DecodeReply(resp).None? && |resp| == 6)
      && resp[1] == rep
  {
    var addr: Option<Bytes>, port: nat := None, 0;
    if bindAddr.Some? {
      addr := bindAddr.value.ip;
      port := bindAddr.value.port % 0x1_0000;
    }
    var atyp, ip := ReplyAddress(addr);
    resp := [VERSION, rep, 0, atyp] + ip + [port / 256, port % 256];
    ReplyRoundTrip(rep, atyp, ip, port);
  }
}
