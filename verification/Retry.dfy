/**
The retry loops of internal/proxy/handler.go: `handleConnect`, `handleConnectDirect` and
`proxyHTTP`. What relays, targets and clients do is given by an environment, a function of
the attempt; what the handler does is its log.
*/
module Retry {
  import opened Wrappers
  import Health
  import RelayStore

  const MAX_RETRIES := 3

  /** What errors.Is and errors.As find in an error. */
  datatype Error = Error(netError: bool, eof: bool, contextDone: bool)

  predicate IsRetryable(e: Error) {
    if e.eof then true
    else if e.netError then true
    else e.contextDone
  }

  predicate IsRelayFailure(e: Error) {
    if e.netError then true
    else if e.eof then true
    else e.contextDone
  }

  /** One attempt to use a relay: its id, how the attempt ended, and the body offered. */
  datatype Try = Try(relay: string, error: Option<Error>, body: seq<char>)

  datatype Event =
    | Responded(status: nat)
    | Hijacked
    | Tried(attempt: Try)
    | Strike(relay: string)
    | RecordedRequest(relay: string)
    | RecordedError(relay: string)
    | Established
    | ClientClosed
    | TargetClosed

  type Log = seq<Event>

  // ---- Reading a log ----

  /**
  What a log amounts to: the tries, the relays struck, the relays that requests and errors
  were recorded for, the responses written, and how often the other events occur.
  */
  datatype Account = Account(
    tries: seq<Try>, strikes: seq<string>, requests: seq<string>, errors: seq<string>,
    responses: seq<nat>, closes: nat, targetCloses: nat, established: nat)

  const NOTHING := Account([], [], [], [], [], 0, 0, 0)

  function Add(a: Account, e: Event): Account {
    match e
    case Responded(status) => a.(responses := a.responses + [status])
    case Tried(t) => a.(tries := a.tries + [t])
    case Strike(relay) => a.(strikes := a.strikes + [relay])
    case RecordedRequest(relay) => a.(requests := a.requests + [relay])
    case RecordedError(relay) => a.(errors := a.errors + [relay])
    case Established => a.(established := a.established + 1)
    case ClientClosed => a.(closes := a.closes + 1)
    case TargetClosed => a.(targetCloses := a.targetCloses + 1)
    case _ => a
  }

  function Read(log: Log): Account {
    if log == [] then NOTHING
    else Add(Read(log[..|log| - 1]), log[|log| - 1])
  }

  method Emit(log: Log, e: Event) returns (log': Log)
    ensures Read(log') == Add(Read(log), e)
  {
    log' := log + [e];
    assert log'[..|log|] == log;
  }

  /** What the log says of a relay, a try and a status, the account says as well. */
  ghost predicate Counts(a: Account, log: Log, r: string, t: Try, status: nat) {
    && multiset(a.tries)[t] == multiset(log)[Tried(t)]
    && multiset(a.strikes)[r] == multiset(log)[Strike(r)]
    && multiset(a.requests)[r] == multiset(log)[RecordedRequest(r)]
    && multiset(a.errors)[r] == multiset(log)[RecordedError(r)]
    && multiset(a.responses)[status] == multiset(log)[Responded(status)]
    && a.closes == multiset(log)[ClientClosed] && a.targetCloses == multiset(log)[TargetClosed]
    && a.established == multiset(log)[Established]
  }

  lemma OneMore<T>(s: seq<T>, x: T, y: T)
    ensures multiset(s + [x])[y] == multiset(s)[y] + if x == y then 1 else 0
  {
  }

  lemma AddCounts(a: Account, log: Log, e: Event, r: string, t: Try, status: nat)
    requires Counts(a, log, r, t, status)
    ensures Counts(Add(a, e), log + [e], r, t, status)
  {
    OneMore(log, e, Tried(t));
    OneMore(log, e, Strike(r));
    OneMore(log, e, RecordedRequest(r));
    OneMore(log, e, RecordedError(r));
    OneMore(log, e, Responded(status));
    OneMore(log, e, ClientClosed);
    OneMore(log, e, TargetClosed);
    OneMore(log, e, Established);
    match e
    case Tried(u) => OneMore(a.tries, u, t);
    case Strike(q) => OneMore(a.strikes, q, r);
    case RecordedRequest(q) => OneMore(a.requests, q, r);
    case RecordedError(q) => OneMore(a.errors, q, r);
    case Responded(n) => OneMore(a.responses, n, status);
    case _ =>
  }

  /** An account counts the events of its log. */
  lemma {:induction false} ReadLaw(log: Log, r: string, t: Try, status: nat)
    ensures Counts(Read(log), log, r, t, status)
  {
    if log != [] {
      var init, last := log[..|log| - 1], log[|log| - 1];
      ReadLaw(init, r, t, status);
      AddCounts(Read(init), init, last, r, t, status);
      assert log == init + [last];
    }
  }

  /** No relay twice; the empty id stands for "no relay was found". */
  ghost predicate DistinctTries(tries: seq<Try>) {
    forall i, j :: 0 <= i < j < |tries| ==> tries[i].relay == "" || tries[i].relay != tries[j].relay
  }

  ghost predicate DistinctRelays(s: seq<string>) {
    forall i, j :: 0 <= i < j < |s| ==> s[i] != s[j]
  }

  function RelaysOf(tries: seq<Try>): set<string> {
    set i | 0 <= i < |tries| :: tries[i].relay
  }

  /** The relays that the tries blame. */
  function Blamed(tries: seq<Try>): seq<string> {
    if tries == [] then []
    else
      var t := tries[|tries| - 1];
      Blamed(tries[..|tries| - 1]) +
      if t.relay != "" && t.error.Some? && IsRelayFailure(t.error.value) then [t.relay] else []
  }

  function Strikes(hasStats: bool, tries: seq<Try>): seq<string> {
    if hasStats then Blamed(tries) else []
  }

  lemma BlamedNext(tries: seq<Try>, t: Try)
    ensures Blamed(tries + [t]) ==
            Blamed(tries) + if t.relay != "" && t.error.Some? && IsRelayFailure(t.error.value) then [t.relay] else []
  {
    assert (tries + [t])[..|tries|] == tries;
  }

  /** A relay is struck iff a try of it, with a known id, failed with a network error, an EOF or a context that was done. */
  lemma {:induction false} StrikesIff(hasStats: bool, tries: seq<Try>, r: string)
    ensures r in Strikes(hasStats, tries) <==>
            hasStats && r != "" &&
            exists t :: t in tries && t.relay == r && t.error.Some? &&
              (t.error.value.netError || t.error.value.eof || t.error.value.contextDone)
  {
    if tries != [] {
      var init, last := tries[..|tries| - 1], tries[|tries| - 1];
      StrikesIff(hasStats, init, r);
      assert tries == init + [last];
    }
  }

  /** Whom a record goes to: nobody without a store or without a relay. */
  function Credited(hasStats: bool, relay: string): seq<string> {
    if hasStats && relay != "" then [relay] else []
  }

  // ---- CONNECT ----

  datatype ConnectEnv = ConnectEnv(
    host: bool,
    hijackable: bool,
    hijacks: bool,
    hasStats: bool,
    chained: bool,
    /** Relay selection and DNS, given the number of the attempt and the exclusions. */
    resolve: (nat, set<string>) -> Option<string>,
    /** The errors of one attempt: relay dialer, upstream dialer, target dial. */
    relayDialer: nat -> Option<Error>,
    upstreamDialer: nat -> Option<Error>,
    targetDial: nat -> Option<Error>,
    clientWrites: nat -> bool)

  /** What relay selection guarantees (RelaySelection.ResolveSOCKS5). */
  ghost predicate Honest(env: ConnectEnv) {
    forall n: nat, ex: set<string> :: env.resolve(n, ex).Some? ==>
      env.resolve(n, ex).value !in ex && env.resolve(n, ex).value != ""
  }

  /** The n-th attempt fails between the relay and the upstream proxy behind it. */
  predicate ChainFails(env: ConnectEnv, n: nat) {
    env.relayDialer(n).None? && env.chained && env.upstreamDialer(n).Some?
  }

  /** The error that the n-th attempt charges to its relay or to the target. */
  function Failure(env: ConnectEnv, n: nat): Option<Error> {
    if env.relayDialer(n).Some? then env.relayDialer(n) else env.targetDial(n)
  }

  /** The n-th attempt reaches the target. */
  predicate Connected(env: ConnectEnv, n: nat) {
    !ChainFails(env, n) && Failure(env, n).None?
  }

  /** The first attempt from n on that reaches the target; MAX_RETRIES if there is none. */
  function FirstConnected(env: ConnectEnv, n: nat): nat
    decreases MAX_RETRIES - n
  {
    if n >= MAX_RETRIES then MAX_RETRIES
    else if Connected(env, n) then n
    else FirstConnected(env, n + 1)
  }

  /**
  Where the attempts stand: the relay to use next, the last relay that was found, the
  relays excluded, and the tries so far.
  */
  datatype Situation = Situation(relay: string, last: string, excluded: set<string>, tries: seq<Try>)

  /** The n-th attempt failed with e: exclude its relay and select another. */
  function Moved(env: ConnectEnv, n: nat, s: Situation, e: Error): Situation {
    var excluded := s.excluded + {s.relay};
    var tries := s.tries + [Try(s.relay, Some(e), [])];
    match env.resolve(n + 1, excluded)
    case None => Situation("", s.last, excluded, tries)
    case Some(r) => Situation(r, r, excluded, tries)
  }

  /** The situation before the n-th attempt, when no earlier one reached the target. */
  function Before(env: ConnectEnv, first: string, n: nat): Situation {
    if n == 0 then Situation(first, first, {}, [])
    else
      var s := Before(env, first, n - 1);
      if ChainFails(env, n - 1) || Failure(env, n - 1).None? then s
      else Moved(env, n - 1, s, Failure(env, n - 1).value)
  }

  /** What a CONNECT amounts to whose attempts all failed. */
  function Exhausted(hasStats: bool, s: Situation): Account {
    Account(s.tries, Strikes(hasStats, s.tries), [], Credited(hasStats, s.last), [], 1, 0, 0)
  }

  /** What a CONNECT amounts to that reached the target, and then could answer the client or not. */
  function Reached(hasStats: bool, s: Situation, answered: bool): Account {
    var tries := s.tries + [Try(s.relay, None, [])];
    if answered
    then Account(tries, Strikes(hasStats, tries), Credited(hasStats, s.relay), [], [], 1, 1, 1)
    else Account(tries, Strikes(hasStats, tries), [], Credited(hasStats, s.last), [], 1, 1, 0)
  }

  /** What a hijacked CONNECT amounts to, given what relays, target and client do. */
  function Deserved(env: ConnectEnv, first: string): Account {
    var k := FirstConnected(env, 0);
    var s := Before(env, first, k);
    if k == MAX_RETRIES then Exhausted(env.hasStats, s) else Reached(env.hasStats, s, env.clientWrites(k))
  }

  /** Nothing but tries and strikes so far. */
  function Trying(hasStats: bool, tries: seq<Try>): Account {
    NOTHING.(tries := tries, strikes := Strikes(hasStats, tries))
  }

  /** What the loop does after the n-th attempt failed: exclude, strike, select another relay. */
  method RetryElsewhere(env: ConnectEnv, log: Log, ghost s: Situation, excluded: set<string>, relay: string, last: string, e: Error, n: nat)
    returns (log': Log, excluded': set<string>, relay': string, last': string)
    requires Read(log) == Trying(env.hasStats, s.tries)
    requires s == Situation(relay, last, excluded, s.tries)
    ensures var s' := Moved(env, n, s, e);
            Read(log') == Trying(env.hasStats, s'.tries) && s' == Situation(relay', last', excluded', s'.tries)
  {
    BlamedNext(s.tries, Try(relay, Some(e), []));
    excluded' := excluded + {relay};
    log' := Emit(log, Tried(Try(relay, Some(e), [])));
    if IsRelayFailure(e) {
      if env.hasStats && relay != "" {
        log' := Emit(log', Strike(relay));
      }
    }
    var resolved := env.resolve(n + 1, excluded');
    match resolved
    case None => relay', last' := "", last;
    case Some(r) => relay', last' := r, r;
  }

  /** The client was answered; Tunnel closes both connections before it returns. */
  method Tunnel(hasStats: bool, log: Log, relay: string) returns (log': Log)
    ensures var a := Read(log);
            Read(log') == a.(established := a.established + 1, closes := a.closes + 1, targetCloses := a.targetCloses + 1,
                             requests := a.requests + Credited(hasStats, relay))
  {
    log' := Emit(log, Established);
    if hasStats && relay != "" {
      log' := Emit(log', RecordedRequest(relay));
    }
    log' := Emit(log', TargetClosed);
    log' := Emit(log', ClientClosed);
  }

  method ClientLost(hasStats: bool, log: Log, last: string) returns (log': Log)
    ensures var a := Read(log);
            Read(log') == a.(closes := a.closes + 1, targetCloses := a.targetCloses + 1, errors := a.errors + Credited(hasStats, last))
  {
    log' := Emit(log, ClientClosed);
    log' := Emit(log', TargetClosed);
    if hasStats && last != "" {
      log' := Emit(log', RecordedError(last));
    }
  }

  method GiveUp(hasStats: bool, log: Log, last: string) returns (log': Log)
    ensures var a := Read(log);
            Read(log') == a.(closes := a.closes + 1, errors := a.errors + Credited(hasStats, last))
  {
    log' := log;
    if hasStats && last != "" {
      log' := Emit(log', RecordedError(last));
    }
    log' := Emit(log', ClientClosed);
  }

  lemma TryingSucceeds(hasStats: bool, tries: seq<Try>, relay: string)
    ensures Trying(hasStats, tries + [Try(relay, None, [])]) == Add(Trying(hasStats, tries), Tried(Try(relay, None, [])))
  {
    BlamedNext(tries, Try(relay, None, []));
  }

  lemma ReachedFromTrying(hasStats: bool, s: Situation, answered: bool)
    ensures var a := Trying(hasStats, s.tries + [Try(s.relay, None, [])]);
            var b := a.(closes := a.closes + 1, targetCloses := a.targetCloses + 1);
            Reached(hasStats, s, answered) ==
            if answered then b.(established := b.established + 1, requests := b.requests + Credited(hasStats, s.relay))
            else b.(errors := b.errors + Credited(hasStats, s.last))
  {
    var none: seq<string> := [];
    assert none + Credited(hasStats, s.relay) == Credited(hasStats, s.relay);
    assert none + Credited(hasStats, s.last) == Credited(hasStats, s.last);
  }

  /** The n-th attempt reached the target: the client is told, and its connection is tunnelled or closed. */
  method AnswerClient(env: ConnectEnv, log: Log, ghost s: Situation, relay: string, last: string, n: nat)
    returns (log': Log, tunnelled: bool)
    requires Read(log) == Trying(env.hasStats, s.tries) && relay == s.relay && last == s.last
    ensures tunnelled == env.clientWrites(n) && Read(log') == Reached(env.hasStats, s, tunnelled)
  {
    TryingSucceeds(env.hasStats, s.tries, relay);
    log' := Emit(log, Tried(Try(relay, None, [])));
    tunnelled := env.clientWrites(n);
    ReachedFromTrying(env.hasStats, s, tunnelled);
    if tunnelled {
      log' := Tunnel(env.hasStats, log', relay);
    } else {
      log' := ClientLost(env.hasStats, log', last);
    }
  }

  /**
  handleConnect once the client connection is hijacked; `first` is the relay selected. The
  error that the final log line dereferences was set by the last attempt.
  */
  method ConnectLoop(env: ConnectEnv, first: string) returns (log: Log, tunnelled: bool, lastErr: Option<Error>)
    ensures Read(log) == Deserved(env, first)
    ensures var k := FirstConnected(env, 0);
            && (tunnelled <==> k < MAX_RETRIES && env.clientWrites(k))
            && (k == MAX_RETRIES ==> lastErr.Some?)
  {
    log := Emit([], Hijacked);
    tunnelled, lastErr := false, None;
    var relay, last := first, first;
    var excluded: set<string> := {};
    ghost var s := Before(env, first, 0);
    for attempt := 0 to MAX_RETRIES
      invariant s == Before(env, first, attempt) == Situation(relay, last, excluded, s.tries)
      invariant Read(log) == Trying(env.hasStats, s.tries)
      invariant FirstConnected(env, 0) == FirstConnected(env, attempt)
      invariant attempt > 0 ==> lastErr.Some?
    {
      var dialerError := env.relayDialer(attempt);
      if dialerError.Some? {
        lastErr := dialerError;
        log, excluded, relay, last := RetryElsewhere(env, log, s, excluded, relay, last, dialerError.value, attempt);
        s := Moved(env, attempt, s, dialerError.value);
        continue;
      }
      if env.chained {
        var chainError := env.upstreamDialer(attempt);
        if chainError.Some? {
          lastErr := chainError;
          continue;
        }
      }
      var dialError := env.targetDial(attempt);
      if dialError.Some? {
        lastErr := dialError;
        log, excluded, relay, last := RetryElsewhere(env, log, s, excluded, relay, last, dialError.value, attempt);
        s := Moved(env, attempt, s, dialError.value);
        continue;
      }
      log, tunnelled := AnswerClient(env, log, s, relay, last, attempt);
      return;
    }
    log := GiveUp(env.hasStats, log, last);
  }

  /** handleConnect, outside direct mode. */
  method HandleConnect(env: ConnectEnv) returns (log: Log, hijacked: bool)
    ensures hijacked <==> env.host && env.hijackable && env.resolve(0, {}).Some? && env.hijacks
    ensures !hijacked ==> log == (if !env.host then [Responded(400)]
                                  else if !env.hijackable then [Responded(500)]
                                  else if env.resolve(0, {}).None? then [Responded(502)]
                                  else [])
    ensures hijacked ==> Read(log) == Deserved(env, env.resolve(0, {}).value)
    ensures hijacked ==> forall r :: Strike(r) in log <==>
              env.hasStats && r != "" &&
              exists t :: Tried(t) in log && t.relay == r && t.error.Some? &&
                (t.error.value.netError || t.error.value.eof || t.error.value.contextDone)
  {
    hijacked := false;
    if !env.host {
      return [Responded(400)], false;
    }
    if !env.hijackable {
      return [Responded(500)], false;
    }
    var first := env.resolve(0, {});
    if first.None? {
      return [Responded(502)], false;
    }
    if !env.hijacks {
      return [], false;
    }
    var tunnelled, lastErr;
    log, tunnelled, lastErr := ConnectLoop(env, first.value);
    hijacked := true;
    LoggedStrikes(env, first.value, log);
  }

  lemma LoggedStrikes(env: ConnectEnv, first: string, log: Log)
    requires Read(log) == Deserved(env, first)
    ensures forall r :: Strike(r) in log <==>
              env.hasStats && r != "" &&
              exists t :: Tried(t) in log && t.relay == r && t.error.Some? &&
                (t.error.value.netError || t.error.value.eof || t.error.value.contextDone)
  {
    var a := Deserved(env, first);
    forall t ensures Tried(t) in log <==> t in a.tries {
      ReadLaw(log, "", t, 0);
    }
    forall r ensures Strike(r) in log <==> r in a.strikes {
      ReadLaw(log, r, Try("", None, []), 0);
    }
    forall r {
      StrikesIff(env.hasStats, a.tries, r);
    }
  }

  // ---- CONNECT, attempt by attempt ----

  /** An attempt reaches the target if nothing on its way fails. */
  lemma ConnectedLaw(env: ConnectEnv, n: nat)
    ensures Connected(env, n) <==>
            env.relayDialer(n).None? && (env.chained ==> env.upstreamDialer(n).None?) && env.targetDial(n).None?
  {
  }

  /** The first relay is used until an attempt charges an error to it; then another is selected. */
  lemma AttemptLaw(env: ConnectEnv, first: string, n: nat)
    ensures Before(env, first, 0) == Situation(first, first, {}, [])
    ensures var s, s' := Before(env, first, n), Before(env, first, n + 1);
            var charged := if env.relayDialer(n).Some? then env.relayDialer(n)
                           else if env.chained && env.upstreamDialer(n).Some? then None
                           else env.targetDial(n);
            if charged.None? then s' == s
            else
              && s'.tries == s.tries + [Try(s.relay, charged, [])] && s'.excluded == s.excluded + {s.relay}
              && var next := env.resolve(n + 1, s'.excluded);
                 s'.relay == (if next.Some? then next.value else "") && s'.last == (if next.Some? then next.value else s.last)
  {
  }

  /** How a CONNECT ends whose k-th attempt is the first to reach the target. */
  lemma ReachedLaw(env: ConnectEnv, first: string, k: nat)
    requires k < 3 && Connected(env, k) && forall m: nat :: m < k ==> !Connected(env, m)
    ensures var a, s := Deserved(env, first), Before(env, first, k);
      && a.tries == s.tries + [Try(s.relay, None, [])] && a.responses == [] && a.closes == a.targetCloses == 1
      && a.established == (if env.clientWrites(k) then 1 else 0)
      && a.requests == (if env.clientWrites(k) && env.hasStats && s.relay != "" then [s.relay] else [])
      && a.errors == (if !env.clientWrites(k) && env.hasStats && s.last != "" then [s.last] else [])
  {
    FirstConnectedIsFirst(env, 0);
  }

  /** How a CONNECT ends none of whose three attempts reaches the target. */
  lemma ExhaustedLaw(env: ConnectEnv, first: string)
    requires forall m: nat :: m < 3 ==> !Connected(env, m)
    ensures var a, s := Deserved(env, first), Before(env, first, 3);
      && a.tries == s.tries && a.responses == [] && a.closes == 1 && a.targetCloses == a.established == 0
      && a.requests == []
      && a.errors == (if env.hasStats && s.last != "" then [s.last] else [])
  {
    FirstConnectedIsFirst(env, 0);
  }

  /** Struck are exactly the relays, where health is kept, that a try blames. */
  lemma StrikesLaw(env: ConnectEnv, first: string, r: string)
    ensures r in Deserved(env, first).strikes <==>
            env.hasStats && r != "" &&
            exists t :: t in Deserved(env, first).tries && t.relay == r && t.error.Some? &&
              (t.error.value.netError || t.error.value.eof || t.error.value.contextDone)
  {
    StrikesIff(env.hasStats, Deserved(env, first).tries, r);
  }

  // ---- What every CONNECT keeps ----

  /** Tries use different relays, and exactly those that blame a relay are strikes. */
  ghost predicate Disciplined(hasStats: bool, a: Account) {
    DistinctTries(a.tries) && a.strikes == Strikes(hasStats, a.tries)
  }

  /**
  How a hijacked CONNECT ends: the client connection is closed once, and either a tunnel is
  recorded as a request for the relay tried last or an error is recorded, never both. Every
  try but a last one that reached the target failed.
  */
  ghost predicate Finished(hasStats: bool, a: Account) {
    && Disciplined(hasStats, a) && |a.tries| <= MAX_RETRIES
    && a.responses == [] && a.closes == 1 && a.established <= 1
    && (forall i :: 0 <= i < |a.tries| - 1 ==> a.tries[i].error.Some?)
    && a.targetCloses == (if a.tries != [] && a.tries[|a.tries| - 1].error.None? then 1 else 0)
    && (a.established == 1 ==>
          && a.tries != [] && a.tries[|a.tries| - 1].error.None?
          && a.requests == Credited(hasStats, a.tries[|a.tries| - 1].relay) && a.errors == [])
    && (a.established == 0 ==> a.requests == [] && |a.errors| == (if hasStats then 1 else 0) && "" !in a.errors)
  }

  /** The relays tried are those excluded; the next one, if there is one, is new. */
  ghost predicate Fresh(s: Situation, n: nat) {
    && DistinctTries(s.tries) && |s.tries| <= n
    && (forall i :: 0 <= i < |s.tries| ==> s.tries[i].error.Some? && s.tries[i].relay in s.excluded)
    && (s.relay == "" || (s.relay !in s.excluded && s.relay == s.last))
    && s.last != ""
  }

  lemma {:induction false} BeforeIsFresh(env: ConnectEnv, first: string, n: nat)
    requires Honest(env) && first != ""
    ensures Fresh(Before(env, first, n), n)
  {
    if n > 0 {
      BeforeIsFresh(env, first, n - 1);
    }
  }

  lemma ExhaustedIsFinished(hasStats: bool, s: Situation, n: nat)
    requires Fresh(s, n) && n <= MAX_RETRIES
    ensures Finished(hasStats, Exhausted(hasStats, s))
  {
  }

  lemma ReachedIsFinished(hasStats: bool, s: Situation, n: nat, answered: bool)
    requires Fresh(s, n) && n < MAX_RETRIES
    ensures Finished(hasStats, Reached(hasStats, s, answered))
  {
  }

  /** No relay is tried twice in one CONNECT, and everything else that Finished says. */
  lemma EveryConnectFinishes(env: ConnectEnv, first: string)
    requires Honest(env) && first != ""
    ensures Finished(env.hasStats, Deserved(env, first))
  {
    var k := FirstConnected(env, 0);
    FirstConnectedIsFirst(env, 0);
    BeforeIsFresh(env, first, k);
    if k == MAX_RETRIES {
      ExhaustedIsFinished(env.hasStats, Before(env, first, k), k);
    } else {
      ReachedIsFinished(env.hasStats, Before(env, first, k), k, env.clientWrites(k));
    }
  }

  /** FirstConnected is what its name says. */
  lemma {:induction false} FirstConnectedIsFirst(env: ConnectEnv, n: nat)
    requires n <= MAX_RETRIES
    ensures var k := FirstConnected(env, n);
            && n <= k <= MAX_RETRIES && (k < MAX_RETRIES ==> Connected(env, k))
            && forall m :: n <= m < k ==> !Connected(env, m)
    decreases MAX_RETRIES - n
  {
    if n < MAX_RETRIES && !Connected(env, n) {
      FirstConnectedIsFirst(env, n + 1);
    }
  }

  /** A tunnel opens exactly if the first attempt that reaches the target can answer the client. */
  lemma TunnelOpensIff(env: ConnectEnv, first: string)
    ensures Deserved(env, first).established == 1 <==>
            exists n: nat :: n < MAX_RETRIES && Connected(env, n) && env.clientWrites(n) &&
              forall m: nat :: m < n ==> !Connected(env, m)
  {
    FirstConnectedIsFirst(env, 0);
  }

  lemma {:induction false} LastWasTriedIff(env: ConnectEnv, first: string, n: nat)
    requires Honest(env) && first != ""
    ensures var s := Before(env, first, n);
            s.last in RelaysOf(s.tries) <==> s.relay == ""
  {
    if n > 0 {
      var s, s' := Before(env, first, n - 1), Before(env, first, n);
      LastWasTriedIff(env, first, n - 1);
      BeforeIsFresh(env, first, n - 1);
      if s'.tries != s.tries {
        RelaysNext(s.tries, s'.tries[|s.tries|]);
      }
    }
    BeforeIsFresh(env, first, n);
  }

  lemma RelaysNext(tries: seq<Try>, t: Try)
    ensures RelaysOf(tries + [t]) == RelaysOf(tries) + {t.relay}
  {
    var more := tries + [t];
    assert more[|tries|] == t;
    forall r | r in RelaysOf(tries) ensures r in RelaysOf(more) {
      var i :| 0 <= i < |tries| && tries[i].relay == r;
      assert more[i].relay == r;
    }
  }

  /**
  When all attempts fail, the error is recorded for the last relay found. That relay was
  itself tried exactly if the selection after the last try found no other.
  */
  lemma ErrorGoesToTriedRelayIff(env: ConnectEnv, first: string)
    requires Honest(env) && first != "" && env.hasStats && FirstConnected(env, 0) == MAX_RETRIES
    ensures var a := Deserved(env, first);
            |a.errors| == 1 && (a.errors[0] in RelaysOf(a.tries) <==> Before(env, first, MAX_RETRIES).relay == "")
  {
    BeforeIsFresh(env, first, MAX_RETRIES);
    LastWasTriedIff(env, first, MAX_RETRIES);
  }

  // ---- CONNECT in direct mode ----

  /** handleConnectDirect once the client is hijacked: one upstream, no exclusion, no strikes. */
  method ConnectDirect(hasStats: bool, upstream: string, dials: nat -> Option<Error>, clientWrites: nat -> bool)
    returns (log: Log, tunnelled: bool, lastErr: Option<Error>)
    ensures Read(log) == NOTHING.(
              closes := 1,
              targetCloses := if (forall n :: 0 <= n < MAX_RETRIES ==> dials(n).Some?) then 0 else 1,
              established := if tunnelled then 1 else 0,
              requests := if tunnelled then Credited(hasStats, upstream) else [],
              errors := if (forall n :: 0 <= n < MAX_RETRIES ==> dials(n).Some?) then Credited(hasStats, upstream) else [])
    ensures tunnelled <==>
            exists n :: 0 <= n < MAX_RETRIES && dials(n).None? && clientWrites(n) && forall m :: 0 <= m < n ==> dials(m).Some?
    ensures (forall n :: 0 <= n < MAX_RETRIES ==> dials(n).Some?) ==> lastErr.Some?
  {
    log := Emit([], Hijacked);
    tunnelled, lastErr := false, None;
    for attempt := 0 to MAX_RETRIES
      invariant Read(log) == NOTHING
      invariant forall n :: 0 <= n < attempt ==> dials(n).Some?
      invariant attempt > 0 ==> lastErr.Some?
    {
      var error := dials(attempt);
      if error.Some? {
        lastErr := error;
        continue;
      }
      tunnelled := clientWrites(attempt);
      if tunnelled {
        log := Tunnel(hasStats, log, upstream);
      } else {
        log := ClientLost(false, log, upstream);
      }
      return;
    }
    assert lastErr.Some?;
    log := GiveUp(hasStats, log, upstream);
  }

  // ---- Strikes and the breaker ----

  /** RecordRemoteFailure for each strike in turn. */
  function StrikeAll(view: map<string, RelayStore.Record>, strikes: seq<string>, now: nat): map<string, RelayStore.Record> {
    if strikes == [] then view
    else
      RelayStore.Strike(StrikeAll(view, strikes[..|strikes| - 1], now), strikes[|strikes| - 1],
                        Health.CIRCUIT_BREAKER_STRIKES, now)
  }

  lemma {:induction false} EachStrikeOnce(view: map<string, RelayStore.Record>, strikes: seq<string>, now: nat, relay: string)
    requires DistinctRelays(strikes) && relay != ""
    ensures RelayStore.RecordOf(StrikeAll(view, strikes, now), relay, now).health ==
            var h := RelayStore.RecordOf(view, relay, now).health;
            if relay in strikes then Health.Struck(h, Health.CIRCUIT_BREAKER_STRIKES, now) else h
  {
    if strikes != [] {
      var init, last := strikes[..|strikes| - 1], strikes[|strikes| - 1];
      EachStrikeOnce(view, init, now, relay);
      assert strikes == init + [last];
      assert relay in init ==> last != relay;
    }
  }

  lemma {:induction false} BlamedWereTried(tries: seq<Try>)
    requires DistinctTries(tries)
    ensures DistinctRelays(Blamed(tries)) && "" !in Blamed(tries)
    ensures forall r :: r in Blamed(tries) ==> exists i :: 0 <= i < |tries| && tries[i].relay == r
  {
    if tries != [] {
      var init := tries[..|tries| - 1];
      BlamedWereTried(init);
      assert tries[|tries| - 1].relay != "" ==> tries[|tries| - 1].relay !in Blamed(init);
      forall r | r in Blamed(tries) ensures exists i :: 0 <= i < |tries| && tries[i].relay == r {
        if r in Blamed(init) {
          var i :| 0 <= i < |init| && init[i].relay == r;
          assert tries[i].relay == r;
        }
      }
    }
  }

  /**
  One request strikes each relay at most once, so it never takes a relay offline that had
  no failure before.
  */
  lemma OneRequestCannotTripTheBreaker(hasStats: bool, a: Account, view: map<string, RelayStore.Record>, now: nat, relay: string)
    requires Disciplined(hasStats, a) && relay != ""
    requires RelayStore.RecordOf(view, relay, now).health.failures == 0
    ensures var h := RelayStore.RecordOf(StrikeAll(view, a.strikes, now), relay, now).health;
            && h.failures <= 1 && (relay in a.strikes ==> h.online)
            && (relay !in a.strikes ==> h == RelayStore.RecordOf(view, relay, now).health)
  {
    BlamedWereTried(a.tries);
    EachStrikeOnce(view, a.strikes, now, relay);
  }

  /** So no CONNECT takes a relay offline that had no failure before it. */
  lemma OneConnectCannotTripTheBreaker(env: ConnectEnv, first: string, view: map<string, RelayStore.Record>, now: nat, relay: string)
    requires Honest(env) && first != "" && relay != ""
    requires RelayStore.RecordOf(view, relay, now).health.failures == 0
    ensures var strikes := Deserved(env, first).strikes;
            var h := RelayStore.RecordOf(StrikeAll(view, strikes, now), relay, now).health;
            && h.failures <= 1 && (relay in strikes ==> h.online)
            && (relay !in strikes ==> h == RelayStore.RecordOf(view, relay, now).health)
  {
    EveryConnectFinishes(env, first);
    OneRequestCannotTripTheBreaker(env.hasStats, Deserved(env, first), view, now, relay);
  }

  // ---- Plain HTTP ----

  /** A transient error is the same thing as one that blames the relay. */
  lemma RetryableIsRelayFailure(e: Error)
    ensures IsRetryable(e) <==> IsRelayFailure(e)
  {
  }

  /** One round trip: the relay used, if one was found, and the error, if any. */
  datatype Trip = Trip(relay: string, error: Option<Error>)

  datatype HttpEnv = HttpEnv(
    hasStats: bool,
    roundTrip: (nat, set<string>) -> Trip,
    /** How much of the body a round trip reads. */
    consumed: nat -> nat)

  /** Outside direct mode a round trip never uses an excluded relay. */
  ghost predicate HonestHttp(env: HttpEnv) {
    forall n: nat, ex: set<string> {:trigger env.roundTrip(n, ex)} ::
      env.roundTrip(n, ex).relay !in ex || env.roundTrip(n, ex).relay == ""
  }

  predicate Transient(t: Trip) {
    t.error.Some? && IsRetryable(t.error.value)
  }

  /** The relays excluded before the n-th round trip: those used by the earlier ones. */
  function ExcludedAt(env: HttpEnv, n: nat): set<string>
    decreases n, 0
  {
    if n == 0 then {}
    else
      var relay := TripAt(env, n - 1).relay;
      ExcludedAt(env, n - 1) + if relay == "" then {} else {relay}
  }

  /** The n-th round trip, if there is one. */
  function TripAt(env: HttpEnv, n: nat): Trip
    decreases n, 1
  {
    env.roundTrip(n, ExcludedAt(env, n))
  }

  /** The last round trip, from n on: the first without a transient error, or the last allowed. */
  function LastTrip(env: HttpEnv, n: nat): nat
    requires n < MAX_RETRIES
    decreases MAX_RETRIES - n
  {
    if n == MAX_RETRIES - 1 || !Transient(TripAt(env, n)) then n else LastTrip(env, n + 1)
  }

  function TryAt(env: HttpEnv, body: seq<char>, n: nat): Try {
    Try(TripAt(env, n).relay, TripAt(env, n).error, body)
  }

  function FirstTries(env: HttpEnv, body: seq<char>, n: nat): seq<Try> {
    seq(n, i requires i >= 0 => TryAt(env, body, i))
  }

  /** What a proxied request amounts to, given how its round trips end. */
  function Answered(env: HttpEnv, body: seq<char>): Account {
    var k := LastTrip(env, 0);
    var t := TripAt(env, k);
    var a := NOTHING.(tries := FirstTries(env, body, k + 1));
    match t.error
    case None => a.(responses := [200], requests := Credited(env.hasStats, t.relay))
    case Some(e) =>
      a.(responses := [502], errors := Credited(env.hasStats, t.relay),
         strikes := if IsRelayFailure(e) then Credited(env.hasStats, t.relay) else [])
  }

  /** An http.Request body: a reader that each round trip consumes in part. */
  class BodyReader {
    const bytes: seq<char>
    var pos: nat

    constructor (bytes: seq<char>)
      ensures this.bytes == bytes && pos == 0
    {
      this.bytes, pos := bytes, 0;
    }

    method Consume(n: nat) returns (offered: seq<char>)
      requires pos <= |bytes|
      modifies this
      ensures offered == bytes[old(pos)..] && pos <= |bytes|
    {
      offered := bytes[pos..];
      pos := if pos + n <= |bytes| then pos + n else |bytes|;
    }
  }

  /** One try offers the whole body, whatever earlier tries read of it. */
  method TryRoundTrip(env: HttpEnv, log: Log, excluded: set<string>, n: nat, body: seq<char>)
    returns (log': Log, result: Trip)
    requires excluded == ExcludedAt(env, n) && Read(log) == NOTHING.(tries := FirstTries(env, body, n))
    ensures result == TripAt(env, n) && Read(log') == NOTHING.(tries := FirstTries(env, body, n + 1))
  {
    var reqBody := new BodyReader(body);
    result := env.roundTrip(n, excluded);
    var offered := reqBody.Consume(env.consumed(n));
    log' := Emit(log, Tried(Try(result.relay, result.error, offered)));
    assert FirstTries(env, body, n + 1) == FirstTries(env, body, n) + [TryAt(env, body, n)];
  }

  /** proxyHTTP on a body that was read into memory. */
  method ProxyHTTP(env: HttpEnv, body: seq<char>) returns (log: Log)
    ensures Read(log) == Answered(env, body)
  {
    log := [];
    var excluded: set<string> := {};
    var lastResult := Trip("", None);
    for attempt := 0 to MAX_RETRIES
      invariant excluded == ExcludedAt(env, attempt)
      invariant Read(log) == NOTHING.(tries := FirstTries(env, body, attempt))
      invariant attempt > 0 ==> lastResult == TripAt(env, attempt - 1) && Transient(lastResult)
      invariant attempt < MAX_RETRIES ==> LastTrip(env, attempt) == LastTrip(env, 0)
      invariant attempt == MAX_RETRIES ==> LastTrip(env, 0) == MAX_RETRIES - 1
    {
      var result;
      log, result := TryRoundTrip(env, log, excluded, attempt, body);
      if result.error.Some? {
        if result.relay != "" {
          excluded := excluded + {result.relay};
        }
        if !IsRetryable(result.error.value) {
          log := LogAndRespond(env.hasStats, log, result.relay, IsRelayFailure(result.error.value));
          return;
        }
        lastResult := result;
        continue;
      }
      log := WriteResponse(env.hasStats, log, result.relay);
      return;
    }
    assert lastResult.error.Some?;
    log := LogAndRespond(env.hasStats, log, lastResult.relay, IsRelayFailure(lastResult.error.value));
  }

  method LogAndRespond(hasStats: bool, log: Log, relay: string, markUnhealthy: bool) returns (log': Log)
    ensures var a, known := Read(log), Credited(hasStats, relay);
            Read(log') == a.(responses := a.responses + [502], errors := a.errors + known,
                             strikes := if markUnhealthy then a.strikes + known else a.strikes)
  {
    log' := log;
    if hasStats && relay != "" {
      log' := Emit(log', RecordedError(relay));
      if markUnhealthy {
        log' := Emit(log', Strike(relay));
      }
    }
    log' := Emit(log', Responded(502));
  }

  method WriteResponse(hasStats: bool, log: Log, relay: string) returns (log': Log)
    ensures var a := Read(log);
            Read(log') == a.(responses := a.responses + [200], requests := a.requests + Credited(hasStats, relay))
  {
    log' := Emit(log, Responded(200));
    if hasStats && relay != "" {
      log' := Emit(log', RecordedRequest(relay));
    }
  }

  // ---- What every proxied request keeps ----

  lemma {:induction false} LastTripIsFirstSettled(env: HttpEnv, n: nat)
    requires n < MAX_RETRIES
    ensures var k := LastTrip(env, n);
            && n <= k < MAX_RETRIES && (k < MAX_RETRIES - 1 ==> !Transient(TripAt(env, k)))
            && forall m :: n <= m < k ==> Transient(TripAt(env, m))
    decreases MAX_RETRIES - n
  {
    if n < MAX_RETRIES - 1 && Transient(TripAt(env, n)) {
      LastTripIsFirstSettled(env, n + 1);
    }
  }

  lemma {:induction false} UsedIsExcluded(env: HttpEnv, i: nat, n: nat)
    requires i < n
    ensures TripAt(env, i).relay == "" || TripAt(env, i).relay in ExcludedAt(env, n)
  {
    if i < n - 1 {
      UsedIsExcluded(env, i, n - 1);
    }
  }

  /**
  A proxied request uses different relays, at most three, each after a transient error of
  the one before; it offers the whole body each time and gets exactly one response.
  */
  lemma EveryRequestIsAnswered(env: HttpEnv, body: seq<char>)
    requires HonestHttp(env)
    ensures var a := Answered(env, body);
            && 1 <= |a.tries| <= MAX_RETRIES && DistinctTries(a.tries) && |a.responses| == 1
            && (forall i :: 0 <= i < |a.tries| ==> a.tries[i].body == body)
            && (forall i :: 0 <= i < |a.tries| - 1 ==>
                  a.tries[i].error.Some? && IsRetryable(a.tries[i].error.value))
            && |a.requests + a.errors| <= 1 && |a.strikes| <= |a.errors|
  {
    LastTripIsFirstSettled(env, 0);
    var a := Answered(env, body);
    forall i, j | 0 <= i < j < |a.tries|
      ensures a.tries[i].relay == "" || a.tries[i].relay != a.tries[j].relay
    {
      UsedIsExcluded(env, i, j);
      assert a.tries[j].relay == env.roundTrip(j, ExcludedAt(env, j)).relay;
    }
    assert forall i :: 0 <= i < |a.tries| - 1 ==> Transient(TripAt(env, i));
  }

  /** The target's response is passed on exactly if the first trip without a transient error succeeds. */
  lemma SuccessIff(env: HttpEnv, body: seq<char>)
    ensures Answered(env, body).responses == [200] <==>
            exists n: nat :: n < MAX_RETRIES && TripAt(env, n).error.None? &&
              forall m: nat :: m < n ==> Transient(TripAt(env, m))
  {
    LastTripIsFirstSettled(env, 0);
  }

  // ---- Proxied requests, trip by trip ----

  /** A trip avoids exactly the known relays of the trips before it. */
  lemma {:induction false} ExcludedLaw(env: HttpEnv, n: nat, r: string)
    ensures TripAt(env, n) == env.roundTrip(n, ExcludedAt(env, n))
    ensures r in ExcludedAt(env, n) <==> r != "" && exists i: nat :: i < n && TripAt(env, i).relay == r
  {
    if n > 0 {
      ExcludedLaw(env, n - 1, r);
      assert ExcludedAt(env, n) == ExcludedAt(env, n - 1) + if TripAt(env, n - 1).relay == "" then {} else {TripAt(env, n - 1).relay};
    }
  }

  lemma TransientLaw(t: Trip)
    ensures Transient(t) <==>
            t.error.Some? && (t.error.value.netError || t.error.value.eof || t.error.value.contextDone)
  {
  }

  /** The answer, the record and the strike are those of the last trip. */
  lemma AnsweredLaw(env: HttpEnv, body: seq<char>, r: string)
    ensures var a, k := Answered(env, body), LastTrip(env, 0);
            var last := TripAt(env, k);
      && |a.tries| == k + 1 && (forall i :: 0 <= i <= k ==> a.tries[i] == Try(TripAt(env, i).relay, TripAt(env, i).error, body))
      && a.responses == (if last.error.None? then [200] else [502])
      && a.requests == (if last.error.None? && env.hasStats && last.relay != "" then [last.relay] else [])
      && a.errors == (if last.error.Some? && env.hasStats && last.relay != "" then [last.relay] else [])
      && (r in a.strikes <==>
            && env.hasStats && r != "" && last.relay == r && last.error.Some?
            && (last.error.value.netError || last.error.value.eof || last.error.value.contextDone))
  {
  }
}
