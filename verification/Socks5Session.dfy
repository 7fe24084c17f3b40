/**
One client connection of internal/socks5/server.go: greeting, optional login, request,
relay selection, target dial, reply and tunnel. The client's bytes are a finite sequence
that may end anywhere; the outcomes of writes, selection and dials are parameters.
*/
module Socks5Session {
  import opened Wrappers
  import opened Socks5Codec
  import ConnString
  import RelayList
  import RelaySelection

  const REPLY_SUCCESS: Byte := 0
  const REPLY_GENERAL_FAIL: Byte := 1
  const REPLY_NOT_ALLOWED: Byte := 2
  const REPLY_HOST_UNREACH: Byte := 4

  datatype Event =
    | Wrote(bytes: Bytes, ok: bool)
    | Dialled(relay: string, request: Request, ok: bool)
    | RecordedRequest(relay: string)
    | RecordedError(relay: string)
    | Tunnelled(relay: string)
    | TargetClosed
    | ClientClosed

  type Log = seq<Event>

  /** The client connection: what is left to read, and what was done so far. */
  class Conn {
    var input: Bytes
    var log: Log
    /** Whether the n-th write succeeds. */
    const writes: nat -> bool
    var written: nat

    constructor (input: Bytes, writes: nat -> bool)
      ensures this.input == input && log == [] && this.writes == writes && written == 0
    {
      this.input, log, this.writes, written := input, [], writes, 0;
    }

    /** io.ReadFull: all n bytes, or what is left and an error. */
    method ReadFull(n: nat) returns (r: Option<Bytes>)
      modifies this`input
      ensures Take(old(input), n).Parsed? ==>
                r == Some(Take(old(input), n).value) && input == Take(old(input), n).rest
      ensures Take(old(input), n).Rejected? ==> r == None && input == []
    {
      if n <= |input| {
        r := Some(input[..n]);
        input := input[n..];
      } else {
        r := None;
        input := [];
      }
    }

    method Write(bytes: Bytes) returns (ok: bool)
      modifies this`log, this`written
      ensures ok == writes(old(written)) && written == old(written) + 1
      ensures log == old(log) + [Wrote(bytes, ok)]
    {
      ok := writes(written);
      written := written + 1;
      log := log + [Wrote(bytes, ok)];
    }

    method Note(e: Event)
      modifies this`log
      ensures log == old(log) + [e]
    {
      log := log + [e];
    }
  }

  /** The name given at login; None for a client that did not log in. */
  type User = Option<Bytes>

  /** How the greeting goes: who the client is and what is left to read, or failure. */
  datatype Greeting = Greeted(user: User, rest: Bytes, log: Log) | Failed(log: Log)

  /** The method selected from those offered: a login is preferred. */
  function Selected(methods: Bytes): Byte {
    if AUTH_PASSWORD in methods then AUTH_PASSWORD
    else if AUTH_NONE in methods then AUTH_NONE
    else AUTH_NO_ACCEPT
  }

  /** The greeting of section 3 of RFC 1928, with the login of RFC 1929 if it is selected. */
  function Greet(input: Bytes, writes: nat -> bool): Greeting {
    match ParseGreeting(input)
    case Rejected => Failed([])
    case Parsed(methods, rest) =>
      var selection := Wrote([VERSION, Selected(methods)], writes(0));
      if !writes(0) || Selected(methods) == AUTH_NO_ACCEPT then Failed([selection])
      else if Selected(methods) == AUTH_NONE then Greeted(None, rest, [selection])
      else
        match ParseLogin(rest)
        case Rejected => Failed([selection])
        case Parsed(login, rest') =>
          var status := Wrote([1, 0], writes(1));
          if writes(1) then Greeted(Some(login.username), rest', [selection, status])
          else Failed([selection, status])
  }

  /** The loop over the methods offered. */
  method ScanMethods(methods: Bytes) returns (hasNoAuth: bool, hasPassword: bool)
    ensures hasNoAuth <==> AUTH_NONE in methods
    ensures hasPassword <==> AUTH_PASSWORD in methods
  {
    hasNoAuth, hasPassword := false, false;
    for i := 0 to |methods|
      invariant hasNoAuth <==> AUTH_NONE in methods[..i]
      invariant hasPassword <==> AUTH_PASSWORD in methods[..i]
    {
      assert methods[..i + 1] == methods[..i] + [methods[i]];
      if methods[i] == AUTH_NONE {
        hasNoAuth := true;
      } else if methods[i] == AUTH_PASSWORD {
        hasPassword := true;
      }
    }
    assert methods[..|methods|] == methods;
  }

  method NegotiateAuth(conn: Conn) returns (r: Option<User>)
    requires conn.log == [] && conn.written == 0
    modifies conn
    ensures conn.log == Greet(old(conn.input), conn.writes).log && conn.written == |conn.log|
    ensures match Greet(old(conn.input), conn.writes)
            case Failed(_) => r == None
            case Greeted(user, rest, _) => r == Some(user) && conn.input == rest
  {
    var buf := conn.ReadFull(2);
    if buf.None? || buf.value[0] != VERSION {
      return None;
    }
    var methods := conn.ReadFull(buf.value[1]);
    if methods.None? {
      return None;
    }
    var hasNoAuth, hasPassword := ScanMethods(methods.value);
    if hasPassword {
      var ok := conn.Write([VERSION, AUTH_PASSWORD]);
      if !ok {
        return None;
      }
      var login := ReadPasswordAuth(conn);
      return if login.None? then None else Some(login);
    }
    if hasNoAuth {
      var ok := conn.Write([VERSION, AUTH_NONE]);
      return if ok then Some(None) else None;
    }
    var _ := conn.Write([VERSION, AUTH_NO_ACCEPT]);
    return None;
  }

  method ReadPasswordAuth(conn: Conn) returns (username: Option<Bytes>)
    modifies conn
    ensures match ParseLogin(old(conn.input))
            case Rejected => username == None && conn.log == old(conn.log) && conn.written == old(conn.written)
            case Parsed(login, rest) =>
              && conn.log == old(conn.log) + [Wrote([1, 0], conn.writes(old(conn.written)))]
              && conn.written == old(conn.written) + 1
              && username == (if conn.writes(old(conn.written)) then Some(login.username) else None)
              && conn.input == rest
  {
    ghost var bs := conn.input;
    var header := conn.ReadFull(2);
    if header.None? || header.value[0] != 1 {
      return None;
    }
    assert ParseField(bs[1..]) == Take(conn.input, bs[1]) by { assert bs[1..][1..] == bs[2..]; }
    var name := conn.ReadFull(header.value[1]);
    if name.None? {
      return None;
    }
    ghost var r := conn.input;
    var plen := conn.ReadFull(1);
    if plen.None? {
      return None;
    }
    assert ParseField(r) == Take(conn.input, r[0]);
    var password := conn.ReadFull(plen.value[0]);
    if password.None? {
      return None;
    }
    var ok := conn.Write([1, 0]);
    return if ok then Some(name.value) else None;
  }

  method ReadRequest(conn: Conn) returns (r: Option<Request>)
    modifies conn`input
    ensures match ParseRequest(old(conn.input))
            case Rejected => r == None
            case Parsed(req, rest) => r == Some(req) && conn.input == rest
  {
    var header := conn.ReadFull(4);
    if header.None? || header.value[0] != VERSION || header.value[2] != 0 {
      return None;
    }
    var atyp := header.value[3];
    var host: Host;
    if atyp == ATYP_IPV4 {
      var addr := conn.ReadFull(4);
      if addr.None? {
        return None;
      }
      host := IPv4(addr.value);
    } else if atyp == ATYP_DOMAIN {
      var len := conn.ReadFull(1);
      if len.None? {
        return None;
      }
      var domain := conn.ReadFull(len.value[0]);
      if domain.None? {
        return None;
      }
      host := Domain(domain.value);
    } else if atyp == ATYP_IPV6 {
      var addr := conn.ReadFull(16);
      if addr.None? {
        return None;
      }
      host := IPv6(addr.value);
    } else {
      return None;
    }
    var port := conn.ReadFull(2);
    if port.None? {
      return None;
    }
    return Some(Request(header.value[1], host, Port(port.value[0], port.value[1])));
  }

  // ---- Selecting the relay ----

  /** The user name is a connection string; an invalid one stands for no filter. */
  function Text(bytes: Bytes): string {
    seq(|bytes|, i requires 0 <= i < |bytes| => bytes[i] as char)
  }

  function UserFilter(base: RelayList.Filter, user: User): RelayList.Filter {
    match user
    case None => base
    case Some(name) =>
      match ConnString.ParseString(Text(name))
      case Err(_) => base
      case Ok(auth) => ConnString.Applied(base, auth)
  }

  /** In the first list read, a match that is not known to be offline. */
  ghost predicate Fit(w: RelaySelection.World, filter: RelayList.Filter, s: RelayList.Server) {
    && w.fetch1.Some? && s in w.fetch1.value && RelayList.Matches(filter, s)
    && !RelaySelection.KnownOffline(w.peek1, s.hostname)
  }

  ghost predicate Found(w: RelaySelection.World, filter: RelayList.Filter, s: RelayList.Server) {
    w.fetch2.Some? && s in w.fetch2.value && RelayList.Matches(filter, s)
  }

  /** A fit relay if there is one, any match otherwise, and none only if nothing matches. */
  ghost predicate Chosen(w: RelaySelection.World, filter: RelayList.Filter, r: Option<RelayList.Server>) {
    if exists s :: Fit(w, filter, s) then r.Some? && Fit(w, filter, r.value)
    else if exists s :: Found(w, filter, s) then r.Some? && Found(w, filter, r.value)
    else r == None
  }

  /** The relay chosen: both scans draw by the seed if there is one. */
  function Choice(w: RelaySelection.World, filter: RelayList.Filter): Option<RelayList.Server> {
    var healthy := RelaySelection.FirstScan(filter, {}, w);
    if healthy != [] then Some(RelaySelection.Pick(healthy, filter.seed, w.roll1, w.pcg))
    else
      var matching := if w.fetch2.None? then [] else RelayList.Matching(w.fetch2.value, filter);
      if matching == [] then None else Some(RelaySelection.Pick(matching, filter.seed, w.roll2, w.pcg))
  }

  method ResolveMullvad(filter: RelayList.Filter, w: RelaySelection.World) returns (r: Option<RelayList.Server>)
    ensures r == Choice(w, filter) && Chosen(w, filter, r)
  {
    var isOnline := RelaySelection.OnlineTest({}, w.peek1);
    var first := RelaySelection.GetFilteredServerWithHealth(w.fetch1, filter, isOnline, w.roll1, w.pcg);
    assert first.Ok? <==> exists s :: Fit(w, filter, s) by {
      if first.Ok? {
        assert Fit(w, filter, first.value);
      }
      if s :| Fit(w, filter, s) {
        assert isOnline(s.hostname);
      }
    }
    if first.Ok? {
      return Some(first.value);
    }
    var second := RelaySelection.GetFilteredServer(w.fetch2, filter, w.roll2, w.pcg);
    if second.Ok? {
      assert Found(w, filter, second.value);
      return Some(second.value);
    }
    return None;
  }

  /**
  A seed always gives one relay, whatever the random numbers, the order of the API answers
  and the inactive relays.
  */
  lemma SeededChoiceIsDetermined(
    filter: RelayList.Filter, w: RelaySelection.World, a1: RelaySelection.Answer, a2: RelaySelection.Answer,
    w': RelaySelection.World, b1: RelaySelection.Answer, b2: RelaySelection.Answer)
    requires filter.seed != 0 && RelaySelection.Alike(w, a1, a2, w', b1, b2)
    ensures Choice(w', filter) == Choice(w, filter)
  {
    RelaySelection.AlikeIsReroll(w, a1, a2, w', b1, b2);
  }

  // ---- The session ----

  datatype Dial = Unreached | Connected(local: Option<Addr>)

  /** What the client's user name, the relays and the target do not depend on. */
  datatype Env = Env(
    deadline: bool,
    base: RelayList.Filter,
    world: RelaySelection.World,
    dialer: RelayList.Server -> bool,
    dial: (RelayList.Server, Request) -> Dial)

  /** How a session goes after a successful greeting. */
  datatype Verdict =
    | Unreadable
    | NotConnect
    | NoRelay
    | NoDialer(server: RelayList.Server)
    | Unreachable(server: RelayList.Server, request: Request)
    | Reached(server: RelayList.Server, request: Request, local: Option<Addr>)

  function RelayOf(v: Verdict): Option<RelayList.Server> {
    match v
    case NoDialer(s) => Some(s)
    case Unreachable(s, _) => Some(s)
    case Reached(s, _, _) => Some(s)
    case _ => None
  }

  /** The verdict on a CONNECT request once a relay is found. */
  function OnceFound(env: Env, server: RelayList.Server, req: Request): (v: Verdict)
    ensures RelayOf(v) == Some(server)
  {
    if !env.dialer(server) then NoDialer(server)
    else
      match env.dial(server, req)
      case Unreached => Unreachable(server, req)
      case Connected(local) => Reached(server, req, local)
  }

  /** The verdict that the environment calls for. */
  ghost predicate Deserved(env: Env, user: User, rest: Bytes, v: Verdict) {
    match ParseRequest(rest)
    case Rejected => v == Unreadable
    case Parsed(req, _) =>
      if req.cmd != CMD_CONNECT then v == NotConnect
      else
        && RelayOf(v) == Choice(env.world, UserFilter(env.base, user))
        && v == if RelayOf(v).None? then NoRelay else OnceFound(env, RelayOf(v).value, req)
  }

  /** Section 6 of RFC 1928 would have 7 for a command that is not supported. */
  function Code(v: Verdict): Byte {
    match v
    case NotConnect => REPLY_NOT_ALLOWED
    case Unreachable(_, _) => REPLY_HOST_UNREACH
    case Reached(_, _, _) => REPLY_SUCCESS
    case _ => REPLY_GENERAL_FAIL
  }

  function Bound(v: Verdict): Option<Addr> {
    if v.Reached? then v.local else None
  }

  /** The bytes of a reply with this code and address (Socks5Codec.BuildReply). */
  ghost predicate Replies(bytes: Bytes, rep: Byte, bindAddr: Option<Addr>) {
    var a := if bindAddr.Some? then bindAddr.value else Addr(None, 0);
    && |bytes| >= 6 && bytes[1] == rep
    && (ReadableIP(a.ip) ==> DecodeReply(bytes) == Some(Reply(rep, Reported(a.ip), a.port % 0x1_0000)))
  }

  method SendReply(conn: Conn, rep: Byte, bindAddr: Option<Addr>) returns (bytes: Bytes, ok: bool)
    modifies conn`log, conn`written
    ensures Replies(bytes, rep, bindAddr)
    ensures conn.log == old(conn.log) + [Wrote(bytes, ok)]
    ensures ok == conn.writes(old(conn.written)) && conn.written == old(conn.written) + 1
  {
    bytes := BuildReply(rep, bindAddr);
    ok := conn.Write(bytes);
  }

  /** What is done before the reply, and after it. */
  function Before(v: Verdict, hasStats: bool): Log {
    match v
    case Unreachable(s, req) =>
      [Dialled(s.hostname, req, false)] + if hasStats then [RecordedError(s.hostname)] else []
    case Reached(s, req, _) => [Dialled(s.hostname, req, true)]
    case _ => []
  }

  function After(v: Verdict, hasStats: bool, ok: bool): Log {
    if !v.Reached? then []
    else if !ok then [TargetClosed]
    else
      (if hasStats && v.server.hostname != "" then [RecordedRequest(v.server.hostname)] else []) +
      [Tunnelled(v.server.hostname), TargetClosed, ClientClosed]
  }

  function Service(v: Verdict, hasStats: bool, reply: Bytes, ok: bool): Log {
    Before(v, hasStats) + [Wrote(reply, ok)] + After(v, hasStats, ok)
  }

  method RelayFor(env: Env, user: User) returns (server: Option<RelayList.Server>)
    ensures server == Choice(env.world, UserFilter(env.base, user))
  {
    var filter := env.base;
    if user.Some? {
      var auth := ConnString.ParseProxyAuth(Text(user.value));
      if auth.Ok? {
        filter := ConnString.ApplyTo(auth.value, filter);
      }
    }
    server := ResolveMullvad(filter, env.world);
  }

  /** The client was told of the connection; Tunnel closes both connections before it returns. */
  method StartTunnel(conn: Conn, hasStats: bool, v: Verdict)
    requires v.Reached?
    modifies conn`log
    ensures conn.log == old(conn.log) + After(v, hasStats, true)
  {
    var remoteID := v.server.hostname;
    if hasStats && remoteID != "" {
      conn.Note(RecordedRequest(remoteID));
    }
    conn.Note(Tunnelled(remoteID));
    conn.Note(TargetClosed);
    conn.Note(ClientClosed);
  }

  method Connect(conn: Conn, env: Env, hasStats: bool, server: RelayList.Server, req: Request)
    returns (ghost bytes: Bytes, ok: bool)
    modifies conn`log, conn`written
    ensures var v := OnceFound(env, server, req);
      && Replies(bytes, Code(v), Bound(v)) && ok == conn.writes(old(conn.written))
      && conn.log == old(conn.log) + Service(v, hasStats, bytes, ok)
  {
    if !env.dialer(server) {
      bytes, ok := SendReply(conn, REPLY_GENERAL_FAIL, None);
      return;
    }
    var target := env.dial(server, req);
    conn.Note(Dialled(server.hostname, req, target.Connected?));
    if target.Unreached? {
      if hasStats {
        conn.Note(RecordedError(server.hostname));
      }
      bytes, ok := SendReply(conn, REPLY_HOST_UNREACH, None);
      return;
    }
    bytes, ok := SendReply(conn, REPLY_SUCCESS, target.local);
    if !ok {
      conn.Note(TargetClosed);
      return;
    }
    StartTunnel(conn, hasStats, OnceFound(env, server, req));
  }

  /** The steps from the request on, without the final close of the client. */
  method Serve(conn: Conn, env: Env, user: User) returns (ghost v: Verdict, ghost bytes: Bytes, ok: bool)
    modifies conn
    ensures Deserved(env, user, old(conn.input), v)
    ensures Replies(bytes, Code(v), Bound(v)) && ok == conn.writes(old(conn.written))
    ensures conn.log == old(conn.log) + Service(v, env.world.peek1.Some?, bytes, ok)
  {
    var req := ReadRequest(conn);
    if req.None? {
      v := Unreadable;
      bytes, ok := SendReply(conn, REPLY_GENERAL_FAIL, None);
      return;
    }
    if req.value.cmd != CMD_CONNECT {
      v := NotConnect;
      bytes, ok := SendReply(conn, REPLY_NOT_ALLOWED, None);
      return;
    }
    var server := RelayFor(env, user);
    if server.None? {
      v := NoRelay;
      bytes, ok := SendReply(conn, REPLY_GENERAL_FAIL, None);
      return;
    }
    v := OnceFound(env, server.value, req.value);
    bytes, ok := Connect(conn, env, env.world.peek1.Some?, server.value, req.value);
  }

  /** Everything a session did: the greeting, and after a good one the verdict and its reply. */
  ghost predicate Session(env: Env, input: Bytes, writes: nat -> bool, log: Log, v: Option<Verdict>) {
    if !env.deadline then log == [ClientClosed] && v == None
    else
      var stats := env.world.peek1.Some?;
      match Greet(input, writes)
      case Failed(greeting) => log == greeting + [ClientClosed] && v == None
      case Greeted(user, rest, greeting) =>
        && v.Some? && Deserved(env, user, rest, v.value)
        && exists bytes, ok: bool ::
          && Replies(bytes, Code(v.value), Bound(v.value)) && ok == writes(|greeting|)
          && log == greeting + Service(v.value, stats, bytes, ok) + [ClientClosed]
  }

  method HandleConn(conn: Conn, env: Env) returns (ghost v: Option<Verdict>)
    requires conn.log == [] && conn.written == 0
    modifies conn
    ensures Session(env, old(conn.input), conn.writes, conn.log, v)
    ensures !env.deadline ==> conn.log == [ClientClosed] && v == None
  {
    v := None;
    if env.deadline {
      var auth := NegotiateAuth(conn);
      if auth.Some? {
        ghost var verdict, bytes;
        var ok;
        verdict, bytes, ok := Serve(conn, env, auth.value);
        v := Some(verdict);
      }
    }
    conn.Note(ClientClosed);
  }

  // ---- The reply discipline ----

  /** A reply; the two messages of the greeting are two bytes long. */
  predicate IsReply(e: Event) {
    e.Wrote? && |e.bytes| > 2
  }

  predicate Succeeds(e: Event) {
    IsReply(e) && e.bytes[1] == REPLY_SUCCESS
  }

  /**
  The event at n is the only reply. It reports success exactly if the event before it is a
  dial that reached the target; nothing else is dialled with success, a tunnel is opened
  exactly if the success reply was written, after it, and closes target and client; a target
  that was reached is closed in any case. Nothing else closes the client.
  */
  ghost predicate RepliesOnce(log: Log, n: nat) {
    && n < |log| && IsReply(log[n])
    && (forall i :: 0 <= i < |log| && IsReply(log[i]) ==> i == n)
    && (Succeeds(log[n]) <==> n > 0 && log[n - 1].Dialled? && log[n - 1].ok)
    && (forall i :: 0 <= i < |log| && log[i].Dialled? ==> i < n && (log[i].ok ==> i == n - 1))
    && (forall i :: 0 <= i < |log| && log[i].Tunnelled? ==> n < i && Succeeds(log[n]) && log[n].ok)
    && (Succeeds(log[n]) && log[n].ok ==>
          n + 3 < |log| && log[|log| - 3].Tunnelled? && log[|log| - 2] == TargetClosed && log[|log| - 1] == ClientClosed)
    && (Succeeds(log[n]) && !log[n].ok ==> n + 2 == |log| && log[n + 1] == TargetClosed)
    && (forall i :: 0 <= i < |log| && log[i] == ClientClosed ==> i == |log| - 1 && Succeeds(log[n]) && log[n].ok)
  }

  /**
  With a stats store each tunnel through a named relay is recorded as a request and each
  failed dial as an error, and nothing else is recorded.
  */
  ghost predicate RecordsMatch(hasStats: bool, log: Log) {
    && (forall i :: 0 <= i < |log| && log[i].RecordedRequest? ==>
          hasStats && log[i].relay != "" && i + 1 < |log| && log[i + 1] == Tunnelled(log[i].relay))
    && (forall i :: 0 <= i < |log| && log[i].Tunnelled? && hasStats && log[i].relay != "" ==>
          0 < i && log[i - 1] == RecordedRequest(log[i].relay))
    && (forall i :: 0 <= i < |log| && log[i].RecordedError? ==>
          hasStats && 0 < i && log[i - 1].Dialled? && log[i - 1].relay == log[i].relay && !log[i - 1].ok)
    && (forall i :: 0 <= i < |log| && log[i].Dialled? && !log[i].ok && hasStats ==>
          i + 1 < |log| && log[i + 1] == RecordedError(log[i].relay))
  }

  ghost predicate Disciplined(hasStats: bool, log: Log, n: nat) {
    RepliesOnce(log, n) && RecordsMatch(hasStats, log)
  }

  /** The messages of the greeting. */
  ghost predicate Preliminary(log: Log) {
    forall i :: 0 <= i < |log| ==> log[i].Wrote? && |log[i].bytes| == 2
  }

  function BeforeClose(log: Log): Log {
    if log == [] then [] else log[..|log| - 1]
  }

  /** The events of a session that reached the target, one by one. */
  lemma ReachedEvents(v: Verdict, hasStats: bool, reply: Bytes, ok: bool)
    requires v.Reached?
    ensures var d, w, id := Dialled(v.server.hostname, v.request, true), Wrote(reply, ok), v.server.hostname;
            Service(v, hasStats, reply, ok) ==
            if !ok then [d, w, TargetClosed]
            else if hasStats && id != "" then [d, w, RecordedRequest(id), Tunnelled(id), TargetClosed, ClientClosed]
            else [d, w, Tunnelled(id), TargetClosed, ClientClosed]
  {
  }

  lemma ReachedRepliesOnce(v: Verdict, hasStats: bool, reply: Bytes, ok: bool)
    requires v.Reached? && |reply| >= 6 && reply[1] == REPLY_SUCCESS
    ensures RepliesOnce(Service(v, hasStats, reply, ok), 1)
  {
    ReachedEvents(v, hasStats, reply, ok);
  }

  lemma RecordedTunnelMatches(d: Event, w: Event, id: string)
    requires d.Dialled? && d.ok && w.Wrote? && id != ""
    ensures RecordsMatch(true, [d, w, RecordedRequest(id), Tunnelled(id), TargetClosed, ClientClosed])
  {
    var log := [d, w, RecordedRequest(id), Tunnelled(id), TargetClosed, ClientClosed];
    assert log[2] == RecordedRequest(id) && log[3] == Tunnelled(id);
    assert !log[4].Dialled? && !log[5].Dialled?;
  }

  lemma UnrecordedMatches(hasStats: bool, d: Event, w: Event, id: string)
    requires d.Dialled? && d.ok && w.Wrote?
    ensures RecordsMatch(hasStats, [d, w, TargetClosed])
    ensures !hasStats || id == "" ==> RecordsMatch(hasStats, [d, w, Tunnelled(id), TargetClosed, ClientClosed])
  {
  }

  lemma ReachedRecordsMatch(v: Verdict, hasStats: bool, reply: Bytes, ok: bool)
    requires v.Reached? && |reply| >= 6
    ensures RecordsMatch(hasStats, Service(v, hasStats, reply, ok))
  {
    var d, w, id := Dialled(v.server.hostname, v.request, true), Wrote(reply, ok), v.server.hostname;
    ReachedEvents(v, hasStats, reply, ok);
    if ok && hasStats && id != "" {
      RecordedTunnelMatches(d, w, id);
    } else {
      UnrecordedMatches(hasStats, d, w, id);
    }
  }

  lemma ServiceIsDisciplined(v: Verdict, hasStats: bool, reply: Bytes, ok: bool)
    requires |reply| >= 6 && reply[1] == Code(v)
    ensures Disciplined(hasStats, Service(v, hasStats, reply, ok), |Before(v, hasStats)|)
  {
    var log, w := Service(v, hasStats, reply, ok), Wrote(reply, ok);
    match v
    case Reached(_, _, _) =>
      ReachedRepliesOnce(v, hasStats, reply, ok);
      ReachedRecordsMatch(v, hasStats, reply, ok);
    case Unreachable(s, req) =>
      var d := Dialled(s.hostname, req, false);
      if hasStats {
        assert log == [d, RecordedError(s.hostname), w];
      } else {
        assert log == [d, w];
      }
    case _ =>
      assert log == [w];
  }

  /** How often the client connection is closed. */
  function Closes(log: Log): nat {
    if log == [] then 0
    else Closes(log[..|log| - 1]) + if log[|log| - 1] == ClientClosed then 1 else 0
  }

  ghost predicate Tunnels(log: Log) {
    exists i :: 0 <= i < |log| && log[i].Tunnelled?
  }

  lemma TunnelsConcat(a: Log, b: Log)
    ensures Tunnels(a + b) <==> Tunnels(a) || Tunnels(b)
  {
    assert forall i :: 0 <= i < |a| ==> (a + b)[i] == a[i];
    assert forall i :: 0 <= i < |b| ==> (a + b)[|a| + i] == b[i];
  }

  lemma {:induction false} ClosesConcat(a: Log, b: Log)
    ensures Closes(a + b) == Closes(a) + Closes(b)
  {
    if b == [] {
      assert a + b == a;
    } else {
      assert (a + b)[..|a + b| - 1] == a + b[..|b| - 1];
      ClosesConcat(a, b[..|b| - 1]);
    }
  }

  lemma {:induction false} NothingClosed(log: Log)
    requires forall i :: 0 <= i < |log| ==> log[i] != ClientClosed
    ensures Closes(log) == 0
  {
    if log != [] {
      NothingClosed(log[..|log| - 1]);
    }
  }

  /** A close at the end is one more. */
  lemma ClosedAtLast(work: Log)
    ensures Closes(work + [ClientClosed]) == Closes(work) + 1
    ensures Tunnels(work + [ClientClosed]) <==> Tunnels(work)
  {
    TunnelsConcat(work, [ClientClosed]);
    assert (work + [ClientClosed])[..|work|] == work;
  }

  lemma AfterCloses(v: Verdict, hasStats: bool, ok: bool)
    ensures var log := After(v, hasStats, ok);
            && (Tunnels(log) <==> v.Reached? && ok) && Closes(log) == if v.Reached? && ok then 1 else 0
  {
    var log := After(v, hasStats, ok);
    if v.Reached? && ok {
      var work := log[..|log| - 1];
      assert log == work + [ClientClosed] && work[|work| - 2].Tunnelled?;
      NothingClosed(work);
      ClosedAtLast(work);
    } else {
      NothingClosed(log);
    }
  }

  lemma QuietLog(log: Log)
    requires forall i :: 0 <= i < |log| ==> log[i] != ClientClosed && !log[i].Tunnelled?
    ensures !Tunnels(log) && Closes(log) == 0
  {
    NothingClosed(log);
  }

  lemma BeforeIsQuiet(v: Verdict, hasStats: bool, reply: Bytes, ok: bool, i: nat)
    requires i < |Before(v, hasStats) + [Wrote(reply, ok)]|
    ensures var e := (Before(v, hasStats) + [Wrote(reply, ok)])[i]; e != ClientClosed && !e.Tunnelled?
  {
  }

  lemma BeforeCloses(v: Verdict, hasStats: bool, reply: Bytes, ok: bool)
    ensures var log := Before(v, hasStats) + [Wrote(reply, ok)];
            !Tunnels(log) && Closes(log) == 0
  {
    var log := Before(v, hasStats) + [Wrote(reply, ok)];
    forall i | 0 <= i < |log| ensures log[i] != ClientClosed && !log[i].Tunnelled? {
      BeforeIsQuiet(v, hasStats, reply, ok, i);
    }
    QuietLog(log);
  }

  lemma ServiceCloses(v: Verdict, hasStats: bool, reply: Bytes, ok: bool)
    ensures var log := Service(v, hasStats, reply, ok);
            && (Tunnels(log) <==> v.Reached? && ok) && Closes(log) == if v.Reached? && ok then 1 else 0
  {
    var before := Before(v, hasStats) + [Wrote(reply, ok)];
    BeforeCloses(v, hasStats, reply, ok);
    AfterCloses(v, hasStats, ok);
    ClosesConcat(before, After(v, hasStats, ok));
    TunnelsConcat(before, After(v, hasStats, ok));
  }

  /** The whole session: what a service closes, and the deferred close. */
  lemma SessionCloses(greeting: Log, service: Log)
    requires Preliminary(greeting) && Closes(service) == if Tunnels(service) then 1 else 0
    ensures var log := greeting + service + [ClientClosed];
            Closes(log) == if Tunnels(log) then 2 else 1
  {
    NothingClosed(greeting);
    ClosesConcat(greeting, service);
    TunnelsConcat(greeting, service);
    ClosedAtLast(greeting + service);
  }

  lemma RepliesAfterTheGreeting(greeting: Log, log: Log, n: nat)
    requires Preliminary(greeting) && RepliesOnce(log, n)
    ensures RepliesOnce(greeting + log, |greeting| + n)
  {
    var g, all := |greeting|, greeting + log;
    assert forall i :: 0 <= i < g ==> all[i] == greeting[i];
    assert forall i :: g <= i < |all| ==> all[i] == log[i - g];
  }

  lemma RecordsAfterTheGreeting(hasStats: bool, greeting: Log, log: Log)
    requires Preliminary(greeting) && RecordsMatch(hasStats, log)
    ensures RecordsMatch(hasStats, greeting + log)
  {
    var g, all := |greeting|, greeting + log;
    assert forall i :: 0 <= i < g ==> all[i] == greeting[i];
    assert forall i :: g <= i < |all| ==> all[i] == log[i - g];
  }

  lemma AfterTheGreeting(hasStats: bool, greeting: Log, log: Log, n: nat) returns (m: nat)
    requires Preliminary(greeting) && Disciplined(hasStats, log, n)
    ensures Disciplined(hasStats, greeting + log, m)
  {
    RepliesAfterTheGreeting(greeting, log, n);
    RecordsAfterTheGreeting(hasStats, greeting, log);
    m := |greeting| + n;
  }

  lemma GreetingIsPreliminary(input: Bytes, writes: nat -> bool)
    ensures Preliminary(Greet(input, writes).log)
  {
    var log := Greet(input, writes).log;
    assert |log| <= 2 && (|log| > 0 ==> log[0].Wrote? && |log[0].bytes| == 2);
    assert |log| > 1 ==> log[1].Wrote? && |log[1].bytes| == 2;
  }

  lemma GreetedIsDisciplined(greeting: Log, v: Verdict, hasStats: bool, reply: Bytes, ok: bool) returns (n: nat)
    requires Preliminary(greeting) && |reply| >= 6 && reply[1] == Code(v)
    ensures var work := greeting + Service(v, hasStats, reply, ok);
            && Disciplined(hasStats, work, n)
            && Closes(work + [ClientClosed]) == if Tunnels(work + [ClientClosed]) then 2 else 1
  {
    ServiceIsDisciplined(v, hasStats, reply, ok);
    n := AfterTheGreeting(hasStats, greeting, Service(v, hasStats, reply, ok), |Before(v, hasStats)|);
    ServiceCloses(v, hasStats, reply, ok);
    SessionCloses(greeting, Service(v, hasStats, reply, ok));
  }

  /**
  Over every input stream and every outcome of writes, selection and dials: the last event
  closes the client connection, which is closed twice if a tunnel was opened and once
  otherwise; after a good greeting the rest keeps the discipline above,
  and otherwise nothing but messages of the greeting is written.
  */
  lemma ReplyDiscipline(env: Env, input: Bytes, writes: nat -> bool, log: Log, v: Option<Verdict>)
    requires Session(env, input, writes, log, v)
    ensures log == BeforeClose(log) + [ClientClosed] && Closes(log) == if Tunnels(log) then 2 else 1
    ensures if env.deadline && Greet(input, writes).Greeted?
            then exists n :: Disciplined(env.world.peek1.Some?, BeforeClose(log), n)
            else Preliminary(BeforeClose(log))
  {
    if !env.deadline {
      SessionCloses([], []);
      assert log == [] + [] + [ClientClosed];
    } else {
      var greeting := Greet(input, writes).log;
      GreetingIsPreliminary(input, writes);
      match Greet(input, writes)
      case Failed(_) =>
        SessionCloses(greeting, []);
        assert greeting + [] == greeting == BeforeClose(log);
      case Greeted(_, _, _) =>
        var stats := env.world.peek1.Some?;
        var bytes, ok: bool :|
          && Replies(bytes, Code(v.value), Bound(v.value)) && ok == writes(|greeting|)
          && log == greeting + Service(v.value, stats, bytes, ok) + [ClientClosed];
        var n := GreetedIsDisciplined(greeting, v.value, stats, bytes, ok);
        assert BeforeClose(log) == greeting + Service(v.value, stats, bytes, ok);
    }
  }
}
