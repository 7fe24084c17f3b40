/**
SOCKS5 sessions on the bytes themselves: what a client sends, byte by byte, and what the
server of internal/socks5/server.go answers, whom it dials and when (sections 3 to 6 of
RFC 1928, section 2 of RFC 1929).
*/
module Socks5Wire {
  import opened Wrappers
  import opened Socks5Codec
  import opened Socks5Session
  import ConnString
  import RelayList
  import RelaySelection
  import RequestHeaders
  import Strings = Text

  // ---- The formats ----

  lemma EncodingLaw(methods: Bytes, u: Bytes, p: Bytes)
    requires |methods| < 256 && |u| < 256 && |p| < 256
    ensures EncodeGreeting(methods) == [5, |methods|] + methods
    ensures EncodeLogin(Login(u, p)) == [1, |u|] + u + [|p|] + p
  {
  }

  lemma RequestLaw(cmd: Byte, a: Bytes, high: Byte, low: Byte)
    ensures var port := 256 * (high as int) + (low as int);
      && (|a| == 4 ==> EncodeRequest(Request(cmd, IPv4(a), port)) == [5, cmd, 0, 1] + a + [high, low])
      && (|a| == 16 ==> EncodeRequest(Request(cmd, IPv6(a), port)) == [5, cmd, 0, 4] + a + [high, low])
      && (|a| < 256 ==> EncodeRequest(Request(cmd, Domain(a), port)) == [5, cmd, 0, 3, |a|] + a + [high, low])
  {
  }

  /** The two forms of a reply, for an IPv4 and an IPv6 address. */
  lemma ReplyLaw(bs: Bytes, r: Reply)
    requires r.port < 0x1_0000
    ensures DecodeReply(bs) == Some(r) <==>
      || (|r.addr| == 4 && bs == [5, r.code, 0, 1] + r.addr + [r.port / 256, r.port % 256])
      || (|r.addr| == 16 && bs == [5, r.code, 0, 4] + r.addr + [r.port / 256, r.port % 256])
  {
    if |r.addr| == 4 && bs == [5, r.code, 0, 1] + r.addr + [r.port / 256, r.port % 256] {
      ReplyRoundTrip(r.code, 1, r.addr, r.port);
    }
    if |r.addr| == 16 && bs == [5, r.code, 0, 4] + r.addr + [r.port / 256, r.port % 256] {
      ReplyRoundTrip(r.code, 4, r.addr, r.port);
    }
  }

  lemma LowByte(port: int)
    ensures port % 0x1_0000 % 256 == port % 256
  {
  }

  /** The bytes of a reply without an address, and with an IPv4 or an IPv6 address. */
  lemma RepliesLaw(bytes: Bytes, rep: Byte, ip: Bytes, port: int)
    ensures Replies(bytes, rep, None) ==> bytes == [5, rep, 0, 1, 0, 0, 0, 0, 0, 0]
    ensures |ip| == 4 && Replies(bytes, rep, Some(Addr(Some(ip), port))) ==>
              bytes == [5, rep, 0, 1] + ip + [port % 0x1_0000 / 256, port % 256]
    ensures |ip| == 16 && (ip[10] != 255 || ip[11] != 255) && Replies(bytes, rep, Some(Addr(Some(ip), port))) ==>
              bytes == [5, rep, 0, 4] + ip + [port % 0x1_0000 / 256, port % 256]
  {
    assert Zeros(4) == [0, 0, 0, 0];
    ReplyLaw(bytes, Reply(rep, Zeros(4), 0));
    ReplyLaw(bytes, Reply(rep, ip, port % 0x1_0000));
    LowByte(port);
  }

  /** An IPv4 address mapped into IPv6 is reported as IPv4. */
  lemma MappedLaw(bytes: Bytes, rep: Byte, ip: Bytes, port: int)
    requires |ip| == 4 && Replies(bytes, rep, Some(Addr(Some([0, 0, 0, 0, 0, 0, 0, 0, 0, 0, 255, 255] + ip), port)))
    ensures bytes == [5, rep, 0, 1] + ip + [port % 0x1_0000 / 256, port % 256]
  {
    var mapped: Bytes := [0, 0, 0, 0, 0, 0, 0, 0, 0, 0, 255, 255] + ip;
    assert mapped[..10] == Zeros(10) && mapped[12..] == ip;
    ReplyLaw(bytes, Reply(rep, ip, port % 0x1_0000));
    LowByte(port);
  }

  // ---- The greeting ----

  /** The client offers the methods; a login is preferred to none at all. */
  lemma GreetLaw(methods: Bytes, rest: Bytes, writes: nat -> bool)
    requires |methods| < 256
    ensures var g := Greet([5, |methods|] + methods + rest, writes);
      && (2 in methods ==> g.log != [] && g.log[0] == Wrote([5, 2], writes(0)))
      && (2 in methods && !writes(0) ==> g == Failed([Wrote([5, 2], false)]))
      && (2 !in methods && 0 in methods ==>
            g == if writes(0) then Greeted(None, rest, [Wrote([5, 0], true)]) else Failed([Wrote([5, 0], false)]))
      && (2 !in methods && 0 !in methods ==> g == Failed([Wrote([5, 255], writes(0))]))
  {
    EncodingLaw(methods, [], []);
    GreetingFraming([5, |methods|] + methods + rest, methods, rest);
  }

  /** A client that offers a login sends its name and password, and both are confirmed. */
  lemma LoginLaw(methods: Bytes, u: Bytes, p: Bytes, rest: Bytes, writes: nat -> bool)
    requires |methods| < 256 && |u| < 256 && |p| < 256 && 2 in methods && writes(0) && writes(1)
    ensures Greet([5, |methods|] + methods + ([1, |u|] + u + [|p|] + p + rest), writes) ==
            Greeted(Some(u), rest, [Wrote([5, 2], true), Wrote([1, 0], true)])
  {
    var login := [1, |u|] + u + [|p|] + p + rest;
    EncodingLaw(methods, u, p);
    GreetingFraming([5, |methods|] + methods + login, methods, login);
    LoginFraming(login, Login(u, p), rest);
  }

  lemma WrongVersionLaw(input: Bytes, writes: nat -> bool)
    requires input == [] || input[0] != 5
    ensures Greet(input, writes) == Failed([])
  {
  }

  /** NegotiateAuth for a client that offers these methods. */
  method OfferMethods(conn: Conn, ghost methods: Bytes, ghost rest: Bytes) returns (r: Option<User>)
    requires conn.log == [] && conn.written == 0
    requires |methods| < 256 && conn.input == [5, |methods|] + methods + rest
    modifies conn
    ensures 2 in methods ==> conn.log != [] && conn.log[0] == Wrote([5, 2], conn.writes(0))
    ensures 2 !in methods && 0 in methods ==>
              conn.log == [Wrote([5, 0], conn.writes(0))] &&
              (if conn.writes(0) then r == Some(None) && conn.input == rest else r == None)
    ensures 2 !in methods && 0 !in methods ==> conn.log == [Wrote([5, 255], conn.writes(0))] && r == None
  {
    GreetLaw(methods, rest, conn.writes);
    r := NegotiateAuth(conn);
  }

  /** NegotiateAuth for a client that offers a login and logs in: exactly that frame is consumed. */
  method LogIn(conn: Conn, ghost methods: Bytes, ghost u: Bytes, ghost p: Bytes, ghost rest: Bytes)
    returns (r: Option<User>)
    requires conn.log == [] && conn.written == 0 && |methods| < 256 && |u| < 256 && |p| < 256 && 2 in methods
    requires conn.input == [5, |methods|] + methods + ([1, |u|] + u + [|p|] + p + rest)
    requires conn.writes(0) && conn.writes(1)
    modifies conn
    ensures r == Some(Some(u)) && conn.input == rest
    ensures conn.log == [Wrote([5, 2], true), Wrote([1, 0], true)]
  {
    LoginLaw(methods, u, p, rest, conn.writes);
    r := NegotiateAuth(conn);
  }

  /** HandleConn for a client that offers neither a login nor none: no reply, no verdict. */
  method NothingAcceptable(conn: Conn, env: Env, ghost methods: Bytes, ghost rest: Bytes) returns (ghost v: Option<Verdict>)
    requires conn.log == [] && conn.written == 0 && env.deadline
    requires |methods| < 256 && conn.input == [5, |methods|] + methods + rest && 2 !in methods && 0 !in methods
    modifies conn
    ensures conn.log == [Wrote([5, 255], conn.writes(0)), ClientClosed] && v == None
  {
    GreetLaw(methods, rest, conn.writes);
    v := HandleConn(conn, env);
  }

  // ---- The request ----

  /** What is answered to an encoded request, and what is done around the answer. */
  lemma AnswerLaw(env: Env, user: User, req: Request, more: Bytes, v: Verdict, bytes: Bytes, ok: bool)
    requires ValidRequest(req) && Deserved(env, user, EncodeRequest(req) + more, v)
    requires Replies(bytes, Code(v), Bound(v))
    ensures var stats := env.world.peek1.Some?;
            var log, s := Service(v, stats, bytes, ok), Choice(env.world, UserFilter(env.base, user));
      && (req.cmd != 1 ==> bytes[1] == 2 && log == [Wrote(bytes, ok)])
      && (req.cmd == 1 && s.None? ==> bytes[1] == 1 && log == [Wrote(bytes, ok)])
      && (req.cmd == 1 && s.Some? ==>
            var id := s.value.hostname;
            if !env.dialer(s.value) then bytes[1] == 1 && log == [Wrote(bytes, ok)]
            else if env.dial(s.value, req).Unreached? then
              && bytes[1] == 4
              && log == if stats then [Dialled(id, req, false), RecordedError(id), Wrote(bytes, ok)]
                        else [Dialled(id, req, false), Wrote(bytes, ok)]
            else
              && bytes[1] == 0
              && log == if !ok then [Dialled(id, req, true), Wrote(bytes, ok), TargetClosed]
                        else if stats && id != "" then
                          [Dialled(id, req, true), Wrote(bytes, ok), RecordedRequest(id), Tunnelled(id), TargetClosed, ClientClosed]
                        else [Dialled(id, req, true), Wrote(bytes, ok), Tunnelled(id), TargetClosed, ClientClosed])
  {
    RequestFraming(EncodeRequest(req) + more, req, more);
    if v.Reached? {
      ReachedEvents(v, env.world.peek1.Some?, bytes, ok);
    }
  }

  /** A request that is cut off in front, or of another version or address type, gets code 1. */
  lemma UnreadableLaw(env: Env, user: User, rest: Bytes, v: Verdict, bytes: Bytes, ok: bool)
    requires Deserved(env, user, rest, v) && Replies(bytes, Code(v), Bound(v))
    requires |rest| < 4 || rest[0] != 5 || rest[2] != 0 || rest[3] !in {1, 3, 4}
    ensures bytes[1] == 1 && Service(v, env.world.peek1.Some?, bytes, ok) == [Wrote(bytes, ok)]
  {
  }

  // ---- The user name as a filter ----

  /** The characters of a user name are its bytes. */
  predicate Spells(u: Bytes, name: string) {
    |u| == |name| && forall i :: 0 <= i < |u| ==> u[i] == name[i] as int
  }

  /** A user name filters as the connection string it spells; an invalid one, and no login, do not filter. */
  lemma UserFilterLaw(base: RelayList.Filter, u: Bytes, name: string)
    requires Spells(u, name)
    ensures UserFilter(base, None) == base
    ensures UserFilter(base, Some(u)) ==
            match RelaySelection.RequestFilter(base, Some(name)) case Ok(f) => f case Err(_) => base
  {
    assert Text(u) == name;
  }

  /** The relay of a session is one of its filter's first scan, or else any match, or else none. */
  lemma ChoiceLaw(w: RelaySelection.World, filter: RelayList.Filter)
    ensures var c, first := Choice(w, filter), RelaySelection.FirstScan(filter, {}, w);
            var second := if w.fetch2.Some? then RelayList.Matching(w.fetch2.value, filter) else [];
            if first != [] then c.Some? && c.value in first
            else if second != [] then c.Some? && c.value in second
            else c == None
  {
  }

  /** Every relay dialled in a session is the relay of its verdict. */
  lemma DialsItsRelay(v: Verdict, stats: bool, bytes: Bytes, ok: bool, i: nat)
    requires i < |Service(v, stats, bytes, ok)| && Service(v, stats, bytes, ok)[i].Dialled?
    ensures RelayOf(v).Some? && Service(v, stats, bytes, ok)[i].relay == RelayOf(v).value.hostname
  {
    if v.Reached? {
      ReachedEvents(v, stats, bytes, ok);
    }
  }

  /** The greeting of a client that logs in. */
  function LoginBytes(methods: Bytes, u: Bytes, p: Bytes): Bytes
    requires |methods| < 256 && |u| < 256 && |p| < 256
  {
    [5, |methods|] + methods + ([1, |u|] + u + [|p|] + p)
  }

  lemma CountryOfChoice(w: RelaySelection.World, base: RelayList.Filter, u: Bytes, country: string)
    requires base.countries == [] && RequestHeaders.Word(country) && Spells(u, "country=" + country)
    ensures var c := Choice(w, UserFilter(base, Some(u)));
            c.Some? ==> Strings.ToLower(c.value.country) == Strings.ToLower(country)
  {
    var filter := base.(countries := base.countries + [country]);
    RequestHeaders.HeaderLaw(base);
    UserFilterLaw(base, u, "country=" + country);
    ChoiceLaw(w, filter);
    RelaySelection.FirstScanLaw(filter, {}, w);
    if w.fetch1.Some? {
      RelayList.MatchingLaw(w.fetch1.value, filter);
    }
    if w.fetch2.Some? {
      RelayList.MatchingLaw(w.fetch2.value, filter);
    }
  }

  /**
  A client that offers a login, whatever else it offers, and logs in as "country=..." is only
  ever connected through relays of that country.
  */
  method ConnectThroughCountry(conn: Conn, env: Env, ghost methods: Bytes, ghost u: Bytes, ghost p: Bytes, ghost rest: Bytes, ghost country: string)
    returns (ghost v: Option<Verdict>)
    requires conn.log == [] && conn.written == 0 && env.deadline && conn.writes(0) && conn.writes(1)
    requires |methods| < 256 && |u| < 256 && |p| < 256 && 2 in methods
    requires conn.input == LoginBytes(methods, u, p) + rest
    requires env.base.countries == [] && RequestHeaders.Word(country) && Spells(u, "country=" + country)
    modifies conn
    ensures v.Some? && (RelayOf(v.value).Some? ==> Strings.ToLower(RelayOf(v.value).value.country) == Strings.ToLower(country))
    ensures forall i :: 0 <= i < |conn.log| && conn.log[i].Dialled? ==>
              RelayOf(v.value).Some? && conn.log[i].relay == RelayOf(v.value).value.hostname
  {
    assert conn.input == [5, |methods|] + methods + ([1, |u|] + u + [|p|] + p + rest);
    LoginLaw(methods, u, p, rest, conn.writes);
    CountryOfChoice(env.world, env.base, u, country);
    ghost var input := conn.input;
    v := HandleConn(conn, env);
    SessionDials(env, input, conn.writes, conn.log, v);
  }

  lemma SessionDials(env: Env, input: Bytes, writes: nat -> bool, log: Log, v: Option<Verdict>)
    requires Session(env, input, writes, log, v) && v.Some?
    ensures forall i :: 0 <= i < |log| && log[i].Dialled? ==>
              RelayOf(v.value).Some? && log[i].relay == RelayOf(v.value).value.hostname
  {
    var greeting, stats := Greet(input, writes).log, env.world.peek1.Some?;
    var bytes, ok: bool :| log == greeting + Service(v.value, stats, bytes, ok) + [ClientClosed];
    GreetingIsPreliminary(input, writes);
    forall i | 0 <= i < |log| && log[i].Dialled?
      ensures RelayOf(v.value).Some? && log[i].relay == RelayOf(v.value).value.hostname
    {
      DialInService(greeting, Service(v.value, stats, bytes, ok), i);
      DialsItsRelay(v.value, stats, bytes, ok, i - |greeting|);
    }
  }

  lemma DialInService(greeting: Log, service: Log, i: nat)
    requires Preliminary(greeting) && i < |greeting + service + [ClientClosed]|
    requires (greeting + service + [ClientClosed])[i].Dialled?
    ensures 0 <= i - |greeting| < |service| && (greeting + service + [ClientClosed])[i] == service[i - |greeting|]
  {
  }
}
