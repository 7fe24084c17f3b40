/**
The relay health machine: `pingServer` (internal/stats/stats.go), `RecordRemoteFailure`
(internal/stats/types.go) and the health write of `flush`. Serial runs first, then every
interleaving of probes that read a record, run for a while, and are written back later.
Measured latencies and the clock are parameters; time 0 is Go's zero time.
*/
module Health {
  import opened Sums
  import opened Wrappers

  /** A mean, as the sum of the samples and their number: exact, without the rounding of float64. */
  datatype Mean = Mean(total: int, count: nat)

  datatype RemoteHealth = RemoteHealth(
    ping1ms: int,
    ping8ms: int,
    pingMean: Mean,
    healthLatency: int,
    online: bool,
    lastCheck: nat,
    failures: nat,
    successes: nat)

  const ZERO := RemoteHealth(0, 0, Mean(0, 1), 0, false, 0, 0, 0)

  datatype Config = Config(failureThreshold: int, healthyThreshold: int)

  const DEFAULT_CONFIG := Config(2, 3)

  const CIRCUIT_BREAKER_STRIKES := 2

  // ---- One probe and one strike ----

  function Positive(pings: seq<int>): seq<nat> {
    if pings == [] then []
    else
      var p := pings[|pings| - 1];
      Positive(pings[..|pings| - 1]) + if p > 0 then [p] else []
  }

  function PingMean(tcp: seq<nat>, healthLatency: int): Mean {
    if tcp != [] then Mean(Total(tcp), |tcp|)
    else if healthLatency > 0 then Mean(healthLatency, 1)
    else Mean(0, 1)
  }

  /** The record a probe produces from the counters it read when it started. */
  function Probed(c: Config, pings: seq<int>, latency: int, cf: nat, cs: nat, now: nat): RemoteHealth {
    ProbedWith(c, Positive(pings), latency, cf, cs, now)
  }

  function ProbedWith(c: Config, tcp: seq<nat>, latency: int, cf: nat, cs: nat, now: nat): RemoteHealth {
    var failures := if latency > 0 then 0 else cf + 1;
    var successes := if latency > 0 then cs + 1 else 0;
    RemoteHealth(
      if tcp != [] then tcp[0] else 0,
      if |tcp| >= 2 then tcp[1] else 0,
      PingMean(tcp, latency),
      latency,
      failures < c.failureThreshold && (successes >= c.healthyThreshold || cf == 0),
      now,
      failures,
      successes)
  }

  /** The loop that keeps the latencies measured. */
  method FilterPings(pings: seq<int>) returns (tcpPings: seq<nat>)
    ensures tcpPings == Positive(pings)
  {
    tcpPings := [];
    for i := 0 to |pings|
      invariant tcpPings == Positive(pings[..i])
    {
      assert pings[..i + 1][..i] == pings[..i];
      if pings[i] > 0 {
        tcpPings := tcpPings + [pings[i]];
      }
    }
    assert pings[..|pings|] == pings;
  }

  /** The mean of the latencies measured, or the health latency without any. */
  method MeanPing(tcpPings: seq<nat>, healthLatency: int) returns (mean: Mean)
    ensures mean == PingMean(tcpPings, healthLatency)
  {
    if |tcpPings| > 0 {
      var sum := 0;
      for i := 0 to |tcpPings|
        invariant sum == Total(tcpPings[..i])
      {
        TotalNext(tcpPings, i);
        sum := sum + tcpPings[i];
      }
      assert tcpPings[..|tcpPings|] == tcpPings;
      return Mean(sum, |tcpPings|);
    }
    return if healthLatency > 0 then Mean(healthLatency, 1) else Mean(0, 1);
  }

  /** The part of pingServer that follows the measurements. */
  method Assess(c: Config, tcpPings: seq<nat>, healthLatency: int, currentFailures: nat, currentSuccesses: nat, now: nat)
    returns (health: RemoteHealth)
    ensures health == ProbedWith(c, tcpPings, healthLatency, currentFailures, currentSuccesses, now)
  {
    var consecutiveFailures, consecutiveSuccesses := currentFailures, currentSuccesses;
    if healthLatency > 0 {
      consecutiveFailures := 0;
      consecutiveSuccesses := consecutiveSuccesses + 1;
    } else {
      consecutiveFailures := consecutiveFailures + 1;
      consecutiveSuccesses := 0;
    }
    var online := consecutiveFailures < c.failureThreshold &&
      (consecutiveSuccesses >= c.healthyThreshold || currentFailures == 0);
    var mean := MeanPing(tcpPings, healthLatency);
    health := RemoteHealth(0, 0, mean, healthLatency, online, now, consecutiveFailures, consecutiveSuccesses);
    if |tcpPings| > 0 {
      health := health.(ping1ms := tcpPings[0]);
      if |tcpPings| >= 2 {
        health := health.(ping8ms := tcpPings[1]);
      }
    }
  }

  method PingServer(c: Config, pings: seq<int>, healthLatency: int, currentFailures: nat, currentSuccesses: nat, now: nat)
    returns (health: RemoteHealth)
    ensures health == Probed(c, pings, healthLatency, currentFailures, currentSuccesses, now)
  {
    var tcpPings := FilterPings(pings);
    health := Assess(c, tcpPings, healthLatency, currentFailures, currentSuccesses, now);
  }

  /** RecordRemoteFailure on a record. */
  function Struck(h: RemoteHealth, threshold: int, now: nat): RemoteHealth {
    h.(failures := h.failures + 1,
       online := h.failures + 1 < threshold,
       successes := 0,
       lastCheck := now)
  }

  /** Positive keeps the measured latencies and drops the others, in order. */
  lemma PositiveOfOne(p: int)
    ensures Positive([p]) == if p > 0 then [p] else []
  {
    assert [p][..0] == [];
  }

  lemma PositiveOfTwo(a: int, b: int)
    ensures Positive([a, b]) ==
            if a > 0 && b > 0 then [a, b] else if a > 0 then [a] else if b > 0 then [b] else []
  {
    assert [a, b][..1] == [a];
    PositiveOfOne(a);
  }

  lemma {:induction false} PositiveConcat(a: seq<int>, b: seq<int>)
    ensures Positive(a + b) == Positive(a) + Positive(b)
    decreases |b|
  {
    if b == [] {
      assert a + b == a;
    } else {
      var init := b[..|b| - 1];
      assert (a + b)[..|a + b| - 1] == a + init;
      PositiveConcat(a, init);
    }
  }

  /** The mean of what was measured, or the health latency. */
  lemma MeanLaw(a: nat, b: nat, latency: int)
    ensures PingMean([a, b], latency) == Mean(a + b, 2) && PingMean([a], latency) == Mean(a, 1)
    ensures PingMean([], latency) == Mean(if latency > 0 then latency else 0, 1)
  {
    TotalOfTwo(a, b);
  }

  /** A probe of two pings, field by field. */
  lemma ProbeLaw(c: Config, a: int, b: int, latency: int, cf: nat, cs: nat, now: nat)
    ensures var h := Probed(c, [a, b], latency, cf, cs, now);
      && h.lastCheck == now && h.healthLatency == latency
      && h.failures == (if latency > 0 then 0 else cf + 1)
      && h.successes == (if latency > 0 then cs + 1 else 0)
      && h.online == (h.failures < c.failureThreshold && (h.successes >= c.healthyThreshold || cf == 0))
      && h.ping1ms == (if a > 0 then a else if b > 0 then b else 0)
      && h.ping8ms == (if a > 0 && b > 0 then b else 0)
      && (a > 0 && b > 0 ==> h.pingMean == Mean(a + b, 2))
      && (a > 0 && b <= 0 ==> h.pingMean == Mean(a, 1))
      && (a <= 0 && b > 0 ==> h.pingMean == Mean(b, 1))
      && (a <= 0 && b <= 0 ==> h.pingMean == Mean(if latency > 0 then latency else 0, 1))
  {
    PositiveOfTwo(a, b);
    MeanLaw(if a > 0 then a else if b > 0 then b else 0, if b > 0 then b else 0, latency);
  }

  // ---- Serial runs: no probe overlaps another event ----

  datatype Event = Probe(pings: seq<int>, latency: int, now: nat) | Strike(now: nat)

  predicate Failed(e: Event) {
    e.Strike? || e.latency <= 0
  }

  function Step(c: Config, strikes: int, h: RemoteHealth, e: Event): RemoteHealth {
    match e
    case Probe(pings, latency, now) => Probed(c, pings, latency, h.failures, h.successes, now)
    case Strike(now) => Struck(h, strikes, now)
  }

  function Run(c: Config, strikes: int, events: seq<Event>): RemoteHealth {
    if events == [] then ZERO
    else Step(c, strikes, Run(c, strikes, events[..|events| - 1]), events[|events| - 1])
  }

  /** How many events at the end of a run failed. */
  function TrailingFailures(events: seq<Event>): nat {
    if events == [] || !Failed(events[|events| - 1]) then 0
    else 1 + TrailingFailures(events[..|events| - 1])
  }

  function TrailingSuccesses(events: seq<Event>): nat {
    if events == [] || Failed(events[|events| - 1]) then 0
    else 1 + TrailingSuccesses(events[..|events| - 1])
  }

  /** The counters are the lengths of the trailing runs, for any thresholds. */
  lemma {:induction false} CountersAreTrailingRuns(c: Config, strikes: int, events: seq<Event>)
    ensures Run(c, strikes, events).failures == TrailingFailures(events)
    ensures Run(c, strikes, events).successes == TrailingSuccesses(events)
    ensures TrailingFailures(events) == 0 || TrailingSuccesses(events) == 0
    ensures events != [] ==> TrailingFailures(events) > 0 || TrailingSuccesses(events) > 0
  {
    if events != [] {
      CountersAreTrailingRuns(c, strikes, events[..|events| - 1]);
    }
  }

  /**
  With both thresholds at least 2, a probe leaves the relay online exactly when the failure
  counter it read was 0: the healthy threshold never decides.
  */
  lemma ProbeOnlineIffNoPriorFailure(c: Config, strikes: int, events: seq<Event>, e: Event)
    requires c.failureThreshold >= 2 && c.healthyThreshold >= 2 && e.Probe?
    ensures Run(c, strikes, events + [e]).online <==> Run(c, strikes, events).failures == 0
  {
    assert (events + [e])[..|events|] == events;
    CountersAreTrailingRuns(c, strikes, events);
  }

  /** For every other pair of thresholds that equivalence fails after some run. */
  lemma OtherThresholdsDecide(c: Config, strikes: int) returns (events: seq<Event>, e: Event)
    requires c.failureThreshold < 2 || c.healthyThreshold < 2
    ensures e.Probe? && (Run(c, strikes, events + [e]).online <==> Run(c, strikes, events).failures != 0)
  {
    if c.failureThreshold < 2 {
      events, e := [], Probe([], 0, 1);
      assert (events + [e])[..0] == [];
    } else {
      events, e := [Probe([], 0, 1)], Probe([], 1, 2);
      assert events[..0] == [] && (events + [e])[..1] == events;
    }
  }

  // ---- The configured thresholds ----

  function Serial(events: seq<Event>): RemoteHealth {
    Run(DEFAULT_CONFIG, CIRCUIT_BREAKER_STRIKES, events)
  }

  /** Whether the event before the last one failed. */
  predicate PenultimateFailed(events: seq<Event>) {
    |events| >= 2 && Failed(events[|events| - 2])
  }

  /**
  The status after a run depends on one event only, the last but one: the relay is online
  exactly when that event did not fail.
  */
  lemma StatusIsThePenultimateEvent(events: seq<Event>)
    requires events != []
    ensures Serial(events).online <==> !PenultimateFailed(events)
  {
    var before := events[..|events| - 1];
    CountersAreTrailingRuns(DEFAULT_CONFIG, CIRCUIT_BREAKER_STRIKES, before);
    assert |events| >= 2 ==> before[|before| - 1] == events[|events| - 2];
  }

  lemma TrailingTwo(events: seq<Event>)
    ensures TrailingFailures(events) >= 2 <==> PenultimateFailed(events) && Failed(events[|events| - 1])
    ensures TrailingSuccesses(events) >= 2 ==> |events| >= 2 && !PenultimateFailed(events)
  {
    if |events| >= 1 {
      var before := events[..|events| - 1];
      assert TrailingFailures(events) > 1 ==> TrailingFailures(before) > 0;
      assert TrailingSuccesses(events) > 1 ==> TrailingSuccesses(before) > 0;
      assert |events| >= 2 ==> before[|before| - 1] == events[|events| - 2];
    }
  }

  /** What README.md:108 promises and the code keeps. */
  lemma ReadmePromiseKept(events: seq<Event>)
    ensures TrailingFailures(events) >= 2 ==> !Serial(events).online
    ensures TrailingSuccesses(events) >= 3 ==> Serial(events).online
    ensures TrailingSuccesses(events) >= 2 ==> Serial(events).online
  {
    TrailingTwo(events);
    if events != [] {
      StatusIsThePenultimateEvent(events);
    }
  }

  /**
  "Offline only after 2 fails" holds after a run exactly when the run does not end with a
  probe that succeeded right after a failure.
  */
  lemma OfflineOnlyAfterTwoFailures(events: seq<Event>)
    requires events != []
    ensures (!Serial(events).online ==> TrailingFailures(events) >= 2) <==>
            !(PenultimateFailed(events) && !Failed(events[|events| - 1]))
  {
    StatusIsThePenultimateEvent(events);
    TrailingTwo(events);
  }

  lemma OneSuccess(events: seq<Event>)
    requires PenultimateFailed(events) && !Failed(events[|events| - 1])
    ensures TrailingSuccesses(events) == 1
  {
    var before := events[..|events| - 1];
    assert before[|before| - 1] == events[|events| - 2];
    assert TrailingSuccesses(before) == 0;
  }

  /**
  "Back only after 3 successes" never holds: whenever an offline relay comes back, the
  run ends in exactly two successes, or in a success and then a failure.
  */
  lemma ComesBackAfterOneOrTwoSuccesses(events: seq<Event>, e: Event)
    requires events != [] && !Serial(events).online && Serial(events + [e]).online
    ensures !Failed(events[|events| - 1]) && PenultimateFailed(events)
    ensures TrailingSuccesses(events + [e]) == if Failed(e) then 0 else 2
  {
    var m := |events|;
    assert (events + [e])[..m] == events;
    StatusIsThePenultimateEvent(events);
    StatusIsThePenultimateEvent(events + [e]);
    assert (events + [e])[m - 1] == events[m - 1] && events[..m - 1][m - 2] == events[m - 2];
    OneSuccess(events);
  }

  const OK := Probe([], 1, 1)
  const FAIL := Probe([], 0, 1)

  /** Runs on which the status differs from what README.md:108 says. */
  lemma ReadmeConverseFails()
    ensures Serial([OK]).online && !Serial([OK, FAIL, OK]).online
    ensures Serial([FAIL, FAIL, OK, FAIL]).online
    ensures !Serial([FAIL, FAIL]).online && Serial([FAIL, FAIL, OK, OK]).online
  {
    StatusIsThePenultimateEvent([OK]);
    StatusIsThePenultimateEvent([OK, FAIL, OK]);
    StatusIsThePenultimateEvent([FAIL, FAIL]);
    StatusIsThePenultimateEvent([FAIL, FAIL, OK, OK]);
    StatusIsThePenultimateEvent([FAIL, FAIL, OK, FAIL]);
  }

  // ---- Every interleaving ----

  /** The counters a probe copied before it started measuring. */
  datatype Reading = Reading(id: string, failures: nat, successes: nat)

  datatype Write = Write(id: string, health: RemoteHealth)

  datatype State = State(
    stored: map<string, RemoteHealth>,
    queue: seq<Write>,
    probes: map<nat, Reading>)

  const INITIAL := State(map[], [], map[])

  datatype Action =
    | BeginProbe(probe: nat, id: string)
    | EndProbe(probe: nat, pings: seq<int>, latency: int, now: nat, accepted: bool)
    | Flush(count: nat)
    | RequestFailed(id: string, now: nat)

  predicate Enabled(s: State, a: Action) {
    match a
    case BeginProbe(p, _) => p !in s.probes
    case EndProbe(p, _, _, now, _) => p in s.probes && now > 0
    case Flush(count) => count <= |s.queue|
    case RequestFailed(_, now) => now > 0
  }

  function Current(s: State, id: string): RemoteHealth {
    if id in s.stored then s.stored[id] else ZERO
  }

  /** The health writes of a flush, in queue order. */
  function WriteAll(stored: map<string, RemoteHealth>, writes: seq<Write>): map<string, RemoteHealth> {
    if writes == [] then stored
    else
      var w := writes[|writes| - 1];
      WriteAll(stored, writes[..|writes| - 1])[w.id := w.health]
  }

  function Next(c: Config, strikes: int, s: State, a: Action): State
    requires Enabled(s, a)
  {
    match a
    case BeginProbe(p, id) =>
      var h := Current(s, id);
      s.(stored := s.stored[id := h], probes := s.probes[p := Reading(id, h.failures, h.successes)])
    case EndProbe(p, pings, latency, now, accepted) =>
      var r := s.probes[p];
      var h := Probed(c, pings, latency, r.failures, r.successes, now);
      s.(probes := s.probes - {p}, queue := s.queue + if accepted then [Write(r.id, h)] else [])
    case Flush(count) =>
      s.(stored := WriteAll(s.stored, s.queue[..count]), queue := s.queue[count..])
    case RequestFailed(id, now) =>
      if id == "" then s
      else s.(stored := s.stored[id := Struck(Current(s, id), strikes, now)])
  }

  predicate Sound(limit: int, h: RemoteHealth) {
    && (h.failures == 0 || h.successes == 0)
    && (h.online ==> h.failures < limit)
    && (h.lastCheck > 0 ==> h.failures > 0 || h.successes > 0)
  }

  ghost predicate Inv(limit: int, s: State) {
    && (forall id :: id in s.stored ==> Sound(limit, s.stored[id]))
    && (forall i :: 0 <= i < |s.queue| ==> Sound(limit, s.queue[i].health) && s.queue[i].health.lastCheck > 0)
    && (forall p :: p in s.probes ==> s.probes[p].failures == 0 || s.probes[p].successes == 0)
  }

  function Limit(c: Config, strikes: int): int {
    if c.failureThreshold > strikes then c.failureThreshold else strikes
  }

  lemma {:induction false} WriteAllSound(limit: int, stored: map<string, RemoteHealth>, writes: seq<Write>)
    requires forall id :: id in stored ==> Sound(limit, stored[id])
    requires forall i :: 0 <= i < |writes| ==> Sound(limit, writes[i].health)
    ensures forall id :: id in WriteAll(stored, writes) ==> Sound(limit, WriteAll(stored, writes)[id])
  {
    if writes != [] {
      WriteAllSound(limit, stored, writes[..|writes| - 1]);
    }
  }

  lemma NextSound(c: Config, strikes: int, s: State, a: Action)
    requires Enabled(s, a) && Inv(Limit(c, strikes), s)
    ensures Inv(Limit(c, strikes), Next(c, strikes, s, a))
  {
    match a
    case Flush(count) => WriteAllSound(Limit(c, strikes), s.stored, s.queue[..count]);
    case _ =>
  }

  /** The state after a run of enabled actions from s. */
  function RunFrom(c: Config, strikes: int, s: State, actions: seq<Action>): Option<State> {
    if actions == [] then Some(s)
    else
      var before := RunFrom(c, strikes, s, actions[..|actions| - 1]);
      if before.Some? && Enabled(before.value, actions[|actions| - 1])
      then Some(Next(c, strikes, before.value, actions[|actions| - 1]))
      else None
  }

  /**
  However probes, drops, delayed writes and request failures interleave, every stored or
  queued record has one of its counters at 0, has fewer failures than the larger threshold
  while online, and has a positive counter once it was checked.
  */
  lemma {:induction false} InterleavedHealth(c: Config, strikes: int, s: State, actions: seq<Action>)
    requires RunFrom(c, strikes, s, actions).Some? && Inv(Limit(c, strikes), s)
    ensures Inv(Limit(c, strikes), RunFrom(c, strikes, s, actions).value)
  {
    if actions != [] {
      var before := actions[..|actions| - 1];
      InterleavedHealth(c, strikes, s, before);
      NextSound(c, strikes, RunFrom(c, strikes, s, before).value, actions[|actions| - 1]);
    }
  }

  /** The configured case: an online record never shows more than one failure. */
  lemma OnlineShowsAtMostOneFailure(actions: seq<Action>, id: string)
    requires RunFrom(DEFAULT_CONFIG, CIRCUIT_BREAKER_STRIKES, INITIAL, actions).Some?
    ensures var s := RunFrom(DEFAULT_CONFIG, CIRCUIT_BREAKER_STRIKES, INITIAL, actions).value;
            id in s.stored && s.stored[id].online ==> s.stored[id].failures <= 1
  {
    InterleavedHealth(DEFAULT_CONFIG, CIRCUIT_BREAKER_STRIKES, INITIAL, actions);
  }

  function ConfiguredNext(s: State, a: Action): State
    requires Enabled(s, a)
  {
    Next(DEFAULT_CONFIG, CIRCUIT_BREAKER_STRIKES, s, a)
  }

  /** Strikes can be lost: a probe that read before them overwrites them when it is flushed. */
  lemma StrikesCanBeOverwritten()
    ensures var probing := ConfiguredNext(INITIAL, BeginProbe(0, "r"));
            var struck := ConfiguredNext(ConfiguredNext(probing, RequestFailed("r", 1)), RequestFailed("r", 2));
            !struck.stored["r"].online &&
            var later := ConfiguredNext(ConfiguredNext(struck, EndProbe(0, [], 1, 3, true)), Flush(1));
            later.stored["r"].online && later.stored["r"].failures == 0
  {
    var probing := ConfiguredNext(INITIAL, BeginProbe(0, "r"));
    var struck := ConfiguredNext(ConfiguredNext(probing, RequestFailed("r", 1)), RequestFailed("r", 2));
    var probed := ConfiguredNext(struck, EndProbe(0, [], 1, 3, true));
    assert |probed.queue| == 1 && probed.queue[..1] == probed.queue && probed.queue[..0] == [];
  }

  /**
  A probe writes the record that a probe run at the moment of the write would give exactly
  when the counters it read still say the same: for a success, the same successes and
  whether there were failures; for a failure, the same failures.
  */
  lemma DelayedProbeIsSerial(c: Config, pings: seq<int>, latency: int, r: Reading, h: RemoteHealth, now: nat)
    requires c.failureThreshold >= 2 && c.healthyThreshold >= 2
    requires (r.failures == 0 || r.successes == 0) && (h.failures == 0 || h.successes == 0)
    ensures Probed(c, pings, latency, r.failures, r.successes, now) ==
            Probed(c, pings, latency, h.failures, h.successes, now) <==>
            if latency > 0 then r.successes == h.successes && (r.failures == 0 <==> h.failures == 0)
            else r.failures == h.failures
  {
  }

  function StruckBy(h: RemoteHealth, strikes: int, times: seq<nat>): RemoteHealth {
    if times == [] then h
    else Struck(StruckBy(h, strikes, times[..|times| - 1]), strikes, times[|times| - 1])
  }

  lemma {:induction false} StruckByCounts(h: RemoteHealth, strikes: int, times: seq<nat>)
    ensures StruckBy(h, strikes, times).failures == h.failures + |times|
    ensures times != [] ==> StruckBy(h, strikes, times).successes == 0
  {
    if times != [] {
      StruckByCounts(h, strikes, times[..|times| - 1]);
    }
  }

  /**
  Strikes that land between a probe's read and its write are lost in the write, except
  when the probe succeeds on a relay that already had failures.
  */
  lemma StrikesDuringProbe(c: Config, strikes: int, pings: seq<int>, latency: int, h: RemoteHealth, times: seq<nat>, now: nat)
    requires c.failureThreshold >= 2 && c.healthyThreshold >= 2
    requires (h.failures == 0 || h.successes == 0) && times != []
    ensures var struck := StruckBy(h, strikes, times);
            Probed(c, pings, latency, h.failures, h.successes, now) ==
            Probed(c, pings, latency, struck.failures, struck.successes, now) <==>
            latency > 0 && h.failures > 0
  {
    var struck := StruckBy(h, strikes, times);
    StruckByCounts(h, strikes, times);
    DelayedProbeIsSerial(c, pings, latency, Reading("", h.failures, h.successes), struck, now);
  }

  // ---- Delayed writes in runs ----

  /** The state before the n-th action of a run from the start. */
  function StateAt(c: Config, strikes: int, actions: seq<Action>, n: nat): Option<State>
    requires n <= |actions|
  {
    RunFrom(c, strikes, INITIAL, actions[..n])
  }

  lemma StepAt(c: Config, strikes: int, actions: seq<Action>, n: nat)
    requires n < |actions| && StateAt(c, strikes, actions, n + 1).Some?
    ensures var s := StateAt(c, strikes, actions, n);
            && s.Some? && Enabled(s.value, actions[n])
            && StateAt(c, strikes, actions, n + 1).value == Next(c, strikes, s.value, actions[n])
  {
    assert actions[..n + 1][..n] == actions[..n];
  }

  lemma {:induction false} StatesBefore(c: Config, strikes: int, actions: seq<Action>, m: nat, n: nat)
    requires m <= n <= |actions| && StateAt(c, strikes, actions, n).Some?
    ensures StateAt(c, strikes, actions, m).Some?
  {
    if m < n {
      StepAt(c, strikes, actions, n - 1);
      StatesBefore(c, strikes, actions, m, n - 1);
    }
  }

  /** The probe p of the relay id begins at b and ends at e, and its write is accepted. */
  predicate ProbeRuns(actions: seq<Action>, p: nat, id: string, b: nat, e: nat) {
    && b < e < |actions|
    && actions[b] == BeginProbe(p, id)
    && actions[e].EndProbe? && actions[e].probe == p && actions[e].accepted
    && forall j :: b < j < e ==> !(actions[j].EndProbe? && actions[j].probe == p)
  }

  lemma {:induction false} ReadingKept(c: Config, strikes: int, actions: seq<Action>, p: nat, id: string, b: nat, e: nat, n: nat)
    requires ProbeRuns(actions, p, id, b, e) && b < n <= e && StateAt(c, strikes, actions, n).Some?
    ensures StateAt(c, strikes, actions, b).Some?
    ensures var r, s := Current(StateAt(c, strikes, actions, b).value, id), StateAt(c, strikes, actions, n).value;
            p in s.probes && s.probes[p] == Reading(id, r.failures, r.successes)
  {
    StepAt(c, strikes, actions, n - 1);
    if n - 1 > b {
      ReadingKept(c, strikes, actions, p, id, b, e, n - 1);
    }
  }

  /** The record that the write of the probe carries. */
  function Carried(c: Config, e: Action, r: RemoteHealth): RemoteHealth
    requires e.EndProbe?
  {
    Probed(c, e.pings, e.latency, r.failures, r.successes, e.now)
  }

  /** How many queued writes the flushes take from the m-th action to the n-th. */
  function Flushed(actions: seq<Action>, m: nat, n: nat): nat
    requires m <= n <= |actions|
  {
    if m == n then 0
    else Flushed(actions, m, n - 1) + if actions[n - 1].Flush? then actions[n - 1].count else 0
  }

  /** Until a flush takes it, the write of a probe is queued. */
  lemma {:induction false} WriteKept(c: Config, strikes: int, actions: seq<Action>, p: nat, id: string, b: nat, e: nat, n: nat)
    requires ProbeRuns(actions, p, id, b, e) && e < n <= |actions| && StateAt(c, strikes, actions, n).Some?
    requires StateAt(c, strikes, actions, b).Some? && StateAt(c, strikes, actions, e).Some?
    requires Flushed(actions, e + 1, n) <= |StateAt(c, strikes, actions, e).value.queue|
    ensures var q := |StateAt(c, strikes, actions, e).value.queue| - Flushed(actions, e + 1, n);
            var queue, r := StateAt(c, strikes, actions, n).value.queue, Current(StateAt(c, strikes, actions, b).value, id);
            q < |queue| && queue[q] == Write(id, Carried(c, actions[e], r))
  {
    StepAt(c, strikes, actions, n - 1);
    if n - 1 > e {
      WriteKept(c, strikes, actions, p, id, b, e, n - 1);
    } else {
      ReadingKept(c, strikes, actions, p, id, b, e, e);
    }
  }

  lemma {:induction false} LastWriteWins(stored: map<string, RemoteHealth>, writes: seq<Write>, q: nat, id: string)
    requires q < |writes| && writes[q].id == id
    requires forall j :: q < j < |writes| ==> writes[j].id != id
    ensures id in WriteAll(stored, writes) && WriteAll(stored, writes)[id] == writes[q].health
  {
    if q < |writes| - 1 {
      LastWriteWins(stored, writes[..|writes| - 1], q, id);
    }
  }

  /** The flush at f takes the write that the probe queued at e, as its last one of the relay id. */
  predicate FlushesWrite(c: Config, strikes: int, actions: seq<Action>, id: string, e: nat, f: nat) {
    && e < f < |actions| && actions[f].Flush?
    && StateAt(c, strikes, actions, e).Some? && StateAt(c, strikes, actions, f).Some?
    && var q := |StateAt(c, strikes, actions, e).value.queue| - Flushed(actions, e + 1, f);
    && var queue := StateAt(c, strikes, actions, f).value.queue;
    && 0 <= q < actions[f].count <= |queue|
    && forall j :: q < j < actions[f].count ==> queue[j].id != id
  }

  lemma SoundAt(c: Config, strikes: int, actions: seq<Action>, n: nat, id: string)
    requires n <= |actions| && StateAt(c, strikes, actions, n).Some?
    ensures var h := Current(StateAt(c, strikes, actions, n).value, id); h.failures == 0 || h.successes == 0
  {
    InterleavedHealth(c, strikes, INITIAL, actions[..n]);
  }

  /** The flush stores the record that the probe's write carries. */
  lemma WrittenByFlush(c: Config, strikes: int, actions: seq<Action>, p: nat, id: string, b: nat, e: nat, f: nat)
    requires ProbeRuns(actions, p, id, b, e) && FlushesWrite(c, strikes, actions, id, e, f)
    requires StateAt(c, strikes, actions, b).Some? && StateAt(c, strikes, actions, f + 1).Some?
    ensures var r, s := Current(StateAt(c, strikes, actions, b).value, id), StateAt(c, strikes, actions, f + 1).value;
            id in s.stored && s.stored[id] == Carried(c, actions[e], r)
  {
    StepAt(c, strikes, actions, f);
    WriteKept(c, strikes, actions, p, id, b, e, f);
    var s, q := StateAt(c, strikes, actions, f).value, |StateAt(c, strikes, actions, e).value.queue| - Flushed(actions, e + 1, f);
    LastWriteWins(s.stored, s.queue[..actions[f].count], q, id);
  }

  /**
  In every run: the flush of a probe's write stores the record that a probe begun just
  before that flush would give, exactly if the counters that the probe read when it began
  still say the same.
  */
  lemma DelayedWriteIsSerial(c: Config, strikes: int, actions: seq<Action>, p: nat, id: string, b: nat, e: nat, f: nat)
    requires c.failureThreshold >= 2 && c.healthyThreshold >= 2
    requires ProbeRuns(actions, p, id, b, e) && FlushesWrite(c, strikes, actions, id, e, f)
    requires StateAt(c, strikes, actions, f + 1).Some?
    ensures StateAt(c, strikes, actions, b).Some?
    ensures var r, h := Current(StateAt(c, strikes, actions, b).value, id), Current(StateAt(c, strikes, actions, f).value, id);
            var s := StateAt(c, strikes, actions, f + 1).value;
            && id in s.stored && s.stored[id] == Carried(c, actions[e], r)
            && (s.stored[id] == Carried(c, actions[e], h) <==>
                 if actions[e].latency > 0 then r.successes == h.successes && (r.failures == 0 <==> h.failures == 0)
                 else r.failures == h.failures)
  {
    StatesBefore(c, strikes, actions, b, f);
    SoundAt(c, strikes, actions, b, id);
    SoundAt(c, strikes, actions, f, id);
    WrittenByFlush(c, strikes, actions, p, id, b, e, f);
    var r, h := Current(StateAt(c, strikes, actions, b).value, id), Current(StateAt(c, strikes, actions, f).value, id);
    DelayedProbeIsSerial(c, actions[e].pings, actions[e].latency, Reading(id, r.failures, r.successes), h, actions[e].now);
  }

  /** The times of the strikes on the relay id from the m-th action to the n-th. */
  function StrikeTimes(actions: seq<Action>, id: string, m: nat, n: nat): seq<nat>
    requires m <= n <= |actions|
  {
    if m == n then []
    else
      var a := actions[n - 1];
      StrikeTimes(actions, id, m, n - 1) + if a.RequestFailed? && a.id == id then [a.now] else []
  }

  /** No flush from the m-th action to the n-th writes the record of the relay id. */
  ghost predicate Unwritten(c: Config, strikes: int, actions: seq<Action>, id: string, m: nat, n: nat)
    requires m <= n <= |actions|
  {
    forall j :: m <= j < n && actions[j].Flush? && StateAt(c, strikes, actions, j).Some? ==>
      forall i :: 0 <= i < actions[j].count && i < |StateAt(c, strikes, actions, j).value.queue| ==>
        StateAt(c, strikes, actions, j).value.queue[i].id != id
  }

  lemma {:induction false} OthersWritten(stored: map<string, RemoteHealth>, writes: seq<Write>, id: string)
    requires forall i :: 0 <= i < |writes| ==> writes[i].id != id
    ensures id in WriteAll(stored, writes) <==> id in stored
    ensures id in stored ==> WriteAll(stored, writes)[id] == stored[id]
  {
    if writes != [] {
      OthersWritten(stored, writes[..|writes| - 1], id);
    }
  }

  lemma StepStrikes(c: Config, strikes: int, s: State, a: Action, id: string)
    requires Enabled(s, a) && id != ""
    requires a.Flush? ==> forall i :: 0 <= i < a.count ==> s.queue[i].id != id
    ensures Current(Next(c, strikes, s, a), id) ==
            if a.RequestFailed? && a.id == id then Struck(Current(s, id), strikes, a.now) else Current(s, id)
  {
    if a.Flush? {
      OthersWritten(s.stored, s.queue[..a.count], id);
    }
  }

  lemma {:induction false} OnlyStruck(c: Config, strikes: int, actions: seq<Action>, id: string, m: nat, n: nat)
    requires m <= n <= |actions| && id != "" && StateAt(c, strikes, actions, n).Some?
    requires Unwritten(c, strikes, actions, id, m, n)
    ensures StateAt(c, strikes, actions, m).Some?
    ensures Current(StateAt(c, strikes, actions, n).value, id) ==
            StruckBy(Current(StateAt(c, strikes, actions, m).value, id), strikes, StrikeTimes(actions, id, m, n))
  {
    if m < n {
      StepAt(c, strikes, actions, n - 1);
      OnlyStruck(c, strikes, actions, id, m, n - 1);
      var s, a := StateAt(c, strikes, actions, n - 1).value, actions[n - 1];
      var times := StrikeTimes(actions, id, m, n - 1);
      StepStrikes(c, strikes, s, a, id);
      assert times + [] == times && (a.RequestFailed? ==> (times + [a.now])[..|times|] == times);
    }
  }

  /**
  In every run: if only strikes change a relay's record while a probe of it is under way or
  its write is queued, the write undoes them, except when the probe succeeds on a relay that
  already had failures.
  */
  lemma StrikesUndoneIff(c: Config, strikes: int, actions: seq<Action>, p: nat, id: string, b: nat, e: nat, f: nat)
    requires c.failureThreshold >= 2 && c.healthyThreshold >= 2 && id != ""
    requires ProbeRuns(actions, p, id, b, e) && FlushesWrite(c, strikes, actions, id, e, f)
    requires StateAt(c, strikes, actions, f + 1).Some?
    requires Unwritten(c, strikes, actions, id, b, f) && StrikeTimes(actions, id, b, f) != []
    ensures StateAt(c, strikes, actions, b).Some?
    ensures var r, h := Current(StateAt(c, strikes, actions, b).value, id), Current(StateAt(c, strikes, actions, f).value, id);
            Current(StateAt(c, strikes, actions, f + 1).value, id) == Carried(c, actions[e], h) <==>
            actions[e].latency > 0 && r.failures > 0
  {
    DelayedWriteIsSerial(c, strikes, actions, p, id, b, e, f);
    OnlyStruck(c, strikes, actions, id, b, f);
    SoundAt(c, strikes, actions, b, id);
    var r := Current(StateAt(c, strikes, actions, b).value, id);
    StrikesDuringProbe(c, strikes, actions[e].pings, actions[e].latency, r, StrikeTimes(actions, id, b, f), actions[e].now);
  }
}
