/**
Whole runs of the store of internal/stats/stats.go through one Start/Stop cycle. A sender
first checks that the store is started and enqueues later. The flusher waits for a tick or
for Stop, receives the queued updates one by one while senders go on, then applies what it
received; after the flush that follows Stop it exits.
*/
module StatsRun {
  import opened Wrappers
  import opened Sequences
  import opened RelayStore
  import opened StatsQueue
  import opened Sums

  /** Where the flusher goroutine is; `final` marks the flush that follows Stop. */
  datatype Flusher =
    | Unborn
    | Waiting
    | Draining(final: bool)
    | Applying(final: bool)
    | Exited

  datatype State = State(
    started: bool,
    stopped: bool,
    flusher: Flusher,
    view: map<string, Record>,
    sending: seq<Update>,
    queue: seq<Update>,
    batch: seq<Update>,
    // history
    made: seq<Update>,
    accepted: seq<Update>,
    dropped: seq<Update>,
    applied: seq<Update>)

  const INITIAL := State(false, false, Unborn, map[], [], [], [], [], [], [], [])

  datatype Action =
    | Start
    | Call(u: Update)
    | Enqueue(sender: nat)
    | Tick
    | SeeStop
    | Receive
    | ReceiveNothing
    | ApplyBatch(now: nat)
    | Strike(id: string, threshold: int, now: nat)
    | Stop

  predicate Enabled(s: State, a: Action) {
    match a
    case Start => !s.started && !s.stopped
    case Call(_) => true
    case Enqueue(i) => i < |s.sending|
    case Tick => s.flusher.Waiting?
    case SeeStop => s.flusher.Waiting? && s.stopped
    case Receive => s.flusher.Draining? && s.queue != []
    case ReceiveNothing => s.flusher.Draining? && s.queue == []
    case ApplyBatch(_) => s.flusher.Applying?
    case Strike(_, _, _) => true
    case Stop => s.started
  }

  ghost function Next(s: State, a: Action): State
    requires Enabled(s, a)
  {
    match a
    case Start => s.(started := true, flusher := Waiting)
    case Call(u) => if s.started then s.(sending := s.sending + [u], made := s.made + [u]) else s
    case Enqueue(i) =>
      var t := s.(sending := Cut(s.sending, i));
      var u := s.sending[i];
      if |s.queue| < QUEUE_CAPACITY then t.(queue := s.queue + [u], accepted := s.accepted + [u])
      else t.(dropped := s.dropped + [u])
    case Tick => s.(flusher := Draining(false))
    case SeeStop => s.(flusher := Draining(true))
    case Receive =>
      var batch := s.batch + [s.queue[0]];
      s.(queue := s.queue[1..], batch := batch,
         flusher := if |Ids(batch)| > FLUSH_CUTOFF then Applying(s.flusher.final) else s.flusher)
    case ReceiveNothing => s.(flusher := Applying(s.flusher.final))
    case ApplyBatch(now) =>
      s.(view := ApplyAll(s.view, s.batch, now), batch := [], applied := s.applied + s.batch,
         flusher := if s.flusher.final then Exited else Waiting)
    case Strike(id, threshold, now) => s.(view := RelayStore.Strike(s.view, id, threshold, now))
    case Stop => s.(started := false, stopped := true)
  }

  /** The state after a run of enabled actions. */
  ghost function Run(actions: seq<Action>): Option<State> {
    if actions == [] then Some(INITIAL)
    else
      var before := Run(actions[..|actions| - 1]);
      if before.Some? && Enabled(before.value, actions[|actions| - 1])
      then Some(Next(before.value, actions[|actions| - 1]))
      else None
  }

  lemma RunLast(actions: seq<Action>)
    requires actions != [] && Run(actions).Some?
    ensures var before, a := Run(actions[..|actions| - 1]), actions[|actions| - 1];
            before.Some? && Enabled(before.value, a) && Run(actions).value == Next(before.value, a)
  {
  }

  lemma RunNext(actions: seq<Action>, a: Action)
    requires Run(actions).Some? && Enabled(Run(actions).value, a)
    ensures Run(actions + [a]) == Some(Next(Run(actions).value, a))
  {
    assert (actions + [a])[..|actions|] == actions;
  }

  // ---- Counting ----

  /** The typ byte of an update. */
  function Kind(u: Update): nat {
    match u
    case Request(_) => 0
    case Bytes(_, _, _) => 1
    case Error(_) => 2
    case EgressIP(_, _) => 3
    case Metadata(_, _, _, _) => 4
    case SetHealth(_, _) => 5
  }

  function Count(s: seq<Update>, kind: nat): nat {
    if s == [] then 0
    else Count(s[..|s| - 1], kind) + if Kind(s[|s| - 1]) == kind then 1 else 0
  }

  lemma {:induction false} CountConcat(s: seq<Update>, t: seq<Update>, kind: nat)
    ensures Count(s + t, kind) == Count(s, kind) + Count(t, kind)
  {
    if t == [] {
      assert s + t == s;
    } else {
      assert (s + t)[..|s + t| - 1] == s + t[..|t| - 1];
      CountConcat(s, t[..|t| - 1], kind);
    }
  }

  lemma CountWithout(s: seq<Update>, i: nat, kind: nat)
    requires i < |s|
    ensures Count(s, kind) == Count(Cut(s, i), kind) + Count([s[i]], kind)
  {
    CountConcat(s[..i], s[i + 1..], kind);
    assert Cut(s, i) == s[..i] + s[i + 1..];
    assert s == s[..i] + ([s[i]] + s[i + 1..]);
    CountConcat(s[..i], [s[i]] + s[i + 1..], kind);
    CountConcat([s[i]], s[i + 1..], kind);
  }

  ghost function TotalRequests(view: map<string, Record>): nat {
    Sum(Requests(view), view.Keys)
  }

  lemma TotalAfterChange(view: map<string, Record>, id: string, now: nat, r: Record)
    ensures TotalRequests(view[id := r]) + RecordOf(view, id, now).requests == TotalRequests(view) + r.requests
  {
    var view' := view[id := r];
    SumRemove(Requests(view'), view'.Keys, id);
    SumAgree(Requests(view), Requests(view'), view.Keys - {id});
    if id in view {
      SumRemove(Requests(view), view.Keys, id);
      assert view'.Keys == view.Keys;
    } else {
      assert view'.Keys - {id} == view.Keys == view.Keys - {id};
    }
  }

  lemma {:induction false} ApplyAllTotal(view: map<string, Record>, updates: seq<Update>, now: nat)
    ensures TotalRequests(ApplyAll(view, updates, now)) == TotalRequests(view) + Count(updates, 0)
  {
    if updates != [] {
      var before, u := updates[..|updates| - 1], updates[|updates| - 1];
      ApplyAllTotal(view, before, now);
      var v := ApplyAll(view, before, now);
      TotalAfterChange(v, u.id, now, Changed(RecordOf(v, u.id, now), u, now));
    }
  }

  /** A strike does not go through the queue: it shows at once, whatever is pending. */
  lemma StrikeShows(actions: seq<Action>, id: string, threshold: int, now: nat)
    requires Run(actions).Some? && id != "" && now > 0
    ensures Run(actions + [Strike(id, threshold, now)]).Some?
    ensures var s, s' := Run(actions).value, Run(actions + [Strike(id, threshold, now)]).value;
            var h := Peek(s'.view, id);
      && s'.queue == s.queue && s'.batch == s.batch
      && h.Some? && h.value.failures == (if id in s.view then s.view[id].health.failures else 0) + 1
      && (h.value.online <==> h.value.failures < threshold)
  {
    RunNext(actions, Strike(id, threshold, now));
    PeekAfterStrike(Run(actions).value.view, id, threshold, now);
  }

  // ---- Conservation ----

  /** Where the flusher can be, and that it holds a batch only during a flush. */
  predicate FlusherInv(s: State) {
    && (s.started ==> !s.stopped)
    && (s.flusher.Unborn? <==> !s.started && !s.stopped)
    && (s.flusher.Exited? || (s.flusher.Draining? && s.flusher.final) || (s.flusher.Applying? && s.flusher.final) ==>
          s.stopped)
    && (s.flusher.Unborn? || s.flusher.Waiting? || s.flusher.Exited? ==> s.batch == [])
  }

  ghost predicate Inv(s: State) {
    && FlusherInv(s)
    && |s.queue| <= QUEUE_CAPACITY
    && s.accepted == s.applied + s.batch + s.queue
    && (forall kind: nat {:trigger Count(s.made, kind)} ::
          Count(s.made, kind) == Count(s.sending, kind) + Count(s.accepted, kind) + Count(s.dropped, kind))
    && TotalRequests(s.view) == Count(s.applied, 0)
  }

  lemma CallKeepsInv(s: State, u: Update)
    requires Inv(s)
    ensures Inv(Next(s, Call(u)))
  {
    var s' := Next(s, Call(u));
    forall kind: nat
      ensures Count(s'.made, kind) == Count(s'.sending, kind) + Count(s'.accepted, kind) + Count(s'.dropped, kind)
    {
      CountConcat(s.made, [u], kind);
      CountConcat(s.sending, [u], kind);
    }
  }

  lemma MoveCounts(from: seq<Update>, i: nat, to: seq<Update>, kind: nat)
    requires i < |from|
    ensures Count(Cut(from, i), kind) + Count(to + [from[i]], kind) == Count(from, kind) + Count(to, kind)
  {
    CountWithout(from, i, kind);
    CountConcat(to, [from[i]], kind);
  }

  lemma EnqueueKeepsInv(s: State, i: nat)
    requires Inv(s) && i < |s.sending|
    ensures Inv(Next(s, Enqueue(i)))
  {
    var s' := Next(s, Enqueue(i));
    forall kind: nat
      ensures Count(s'.made, kind) == Count(s'.sending, kind) + Count(s'.accepted, kind) + Count(s'.dropped, kind)
    {
      MoveCounts(s.sending, i, if |s.queue| < QUEUE_CAPACITY then s.accepted else s.dropped, kind);
    }
  }

  lemma NextKeepsInv(s: State, a: Action)
    requires Inv(s) && Enabled(s, a)
    ensures Inv(Next(s, a))
  {
    match a
    case Call(u) => CallKeepsInv(s, u);
    case Enqueue(i) => EnqueueKeepsInv(s, i);
    case Receive => assert s.queue == [s.queue[0]] + s.queue[1..];
    case ApplyBatch(now) =>
      ApplyAllTotal(s.view, s.batch, now);
      CountConcat(s.applied, s.batch, 0);
    case Strike(id, threshold, now) =>
      var r := RecordOf(s.view, id, now);
      TotalAfterChange(s.view, id, now, r.(health := RelayStore.Health.Struck(r.health, threshold, now)));
    case _ =>
  }

  /**
  Over every run: what was accepted is, in order, what was applied, then what a flush has
  drained, then what is queued; per kind, the calls made while started are those still
  being sent, accepted or dropped; and the relays' request counters plus the requests not
  yet applied are the requests accepted.
  */
  lemma {:induction false} UpdatesAreConserved(actions: seq<Action>)
    requires Run(actions).Some?
    ensures var s := Run(actions).value;
            Inv(s) && TotalRequests(s.view) + Count(s.batch, 0) + Count(s.queue, 0) == Count(s.accepted, 0)
  {
    if actions != [] {
      UpdatesAreConserved(actions[..|actions| - 1]);
      NextKeepsInv(Run(actions[..|actions| - 1]).value, actions[|actions| - 1]);
    }
    var s := Run(actions).value;
    CountConcat(s.applied + s.batch, s.queue, 0);
    CountConcat(s.applied, s.batch, 0);
  }

  // ---- The final flush ----

  lemma {:induction false} FewIds(updates: seq<Update>)
    ensures |Ids(updates)| <= |updates|
  {
    if updates != [] {
      FewIds(updates[..|updates| - 1]);
      IdsLast(updates);
    }
  }

  /** A flush of a queue within its capacity never stops at the cutoff. */
  lemma FlushEmptiesFullQueue(q: seq<Update>, k: nat)
    requires |q| <= 10000 && Takes(q, k)
    ensures k == |q|
  {
    FewIds(q[..k]);
  }

  predicate Receives(a: Action) {
    a == Receive || a == ReceiveNothing
  }

  /** A receive that finds the queue empty, or takes the last update from it. */
  predicate Empties(s: State, a: Action) {
    a == ReceiveNothing || (a == Receive && |s.queue| == 1)
  }

  ghost predicate NoEnqueue(actions: seq<Action>, from: nat) {
    forall j :: from <= j < |actions| ==> !actions[j].Enqueue?
  }

  /** The i-th action empties the queue, and no sender enqueues after it. */
  ghost predicate LastEmptied(actions: seq<Action>, i: nat) {
    && i < |actions| && Run(actions[..i]).Some? && Empties(Run(actions[..i]).value, actions[i])
    && NoEnqueue(actions, i + 1)
  }

  lemma EmptiedByStep(s: State, a: Action)
    requires Enabled(s, a) && !a.Enqueue? && (s.queue == [] || Empties(s, a))
    ensures Next(s, a).queue == []
  {
  }

  lemma {:induction false} StaysEmpty(actions: seq<Action>, i: nat)
    requires Run(actions).Some? && LastEmptied(actions, i)
    ensures Run(actions).value.queue == []
  {
    var n := |actions| - 1;
    RunLast(actions);
    if i < n {
      assert actions[..n][..i] == actions[..i];
      assert NoEnqueue(actions[..n], i + 1) && !actions[n].Enqueue?;
      StaysEmpty(actions[..n], i);
    }
    EmptiedByStep(Run(actions[..n]).value, actions[n]);
  }

  lemma TakeAgain<T>(s: seq<T>, n: nat, i: nat)
    requires i <= n <= |s|
    ensures s[..n][..i] == s[..i]
  {
  }

  lemma EmptiedBefore(actions: seq<Action>, n: nat, i: nat)
    requires |actions| == n + 1 && LastEmptied(actions[..n], i) && !actions[n].Enqueue?
    ensures LastEmptied(actions, i)
  {
    TakeAgain(actions, n, i);
    assert NoEnqueue(actions, i + 1) by {
      forall j | i + 1 <= j < |actions| ensures !actions[j].Enqueue? {
        assert j < n ==> actions[..n][j] == actions[j];
      }
    }
  }

  /** After the last receive of a flush, until the next one. */
  predicate Received(s: State) {
    s.flusher.Applying? || s.flusher.Exited?
  }

  lemma WasEmptyBefore(s: State, a: Action)
    requires Enabled(s, a) && !Receives(a) && Received(Next(s, a)) && Next(s, a).queue == []
    ensures Received(s) && s.queue == [] && !a.Enqueue?
  {
  }

  /** If the queue is empty after a flush stopped receiving, something emptied it for good. */
  lemma {:induction false} WasEmptied(actions: seq<Action>) returns (i: nat)
    requires Run(actions).Some? && Run(actions).value.queue == [] && Received(Run(actions).value)
    ensures LastEmptied(actions, i)
  {
    var n := |actions| - 1;
    RunLast(actions);
    if Receives(actions[n]) {
      i := n;
    } else {
      WasEmptyBefore(Run(actions[..n]).value, actions[n]);
      i := WasEmptied(actions[..n]);
      EmptiedBefore(actions, n, i);
    }
  }

  /**
  Once the flusher has exited, every accepted update was applied exactly if some receive
  emptied the queue and no sender enqueued after it.
  */
  lemma ExitAppliesAllIff(actions: seq<Action>)
    requires Run(actions).Some? && Run(actions).value.flusher.Exited?
    ensures var s := Run(actions).value;
            s.queue == [] && s.applied == s.accepted <==> exists i: nat :: LastEmptied(actions, i)
  {
    UpdatesAreConserved(actions);
    if Run(actions).value.queue == [] {
      var i := WasEmptied(actions);
    }
    if i: nat :| LastEmptied(actions, i) {
      StaysEmpty(actions, i);
    }
  }

  /** Short of the cutoff: exactly if no sender enqueued after the last, empty, receive. */
  lemma ExitWithoutCutoff(actions: seq<Action>, i: nat)
    requires Run(actions).Some? && Run(actions).value.flusher.Exited?
    requires i < |actions| && actions[i] == ReceiveNothing
    requires forall j :: i < j < |actions| ==> !Receives(actions[j])
    ensures var s := Run(actions).value;
            s.queue == [] && s.applied == s.accepted <==> NoEnqueue(actions, i + 1)
  {
    ExitAppliesAllIff(actions);
    RunPrefix(actions, i);
    assert NoEnqueue(actions, i + 1) ==> LastEmptied(actions, i);
    if k: nat :| LastEmptied(actions, k) {
      assert Receives(actions[k]) && k <= i;
    }
  }

  lemma {:induction false} RunPrefix(actions: seq<Action>, i: nat)
    requires Run(actions).Some? && i <= |actions|
    ensures Run(actions[..i]).Some?
  {
    if i < |actions| {
      RunPrefix(actions[..|actions| - 1], i);
      assert actions[..|actions| - 1][..i] == actions[..i];
    } else {
      assert actions[..i] == actions;
    }
  }

  // ---- Stop with no sender under way ----

  /** From such a Stop on, the flush that follows it is short of the cutoff. */
  ghost predicate Quiet(s: State) {
    && s.stopped && s.sending == [] && FlusherInv(s) && |s.queue| <= QUEUE_CAPACITY
    && (s.flusher == Draining(true) ==> |s.batch| + |s.queue| <= QUEUE_CAPACITY)
    && (s.flusher == Applying(true) || s.flusher.Exited? ==> s.queue == [])
  }

  lemma NextStaysQuiet(s: State, a: Action)
    requires Quiet(s) && Enabled(s, a)
    ensures Quiet(Next(s, a))
  {
    if a == Receive {
      FewIds(Next(s, a).batch);
    }
  }

  lemma StopIsQuiet(s: State)
    requires Inv(s) && Enabled(s, Stop) && s.sending == []
    ensures Quiet(Next(s, Stop))
  {
  }

  /** The k-th action is a Stop while no sender is under way. */
  ghost predicate StopsQuietly(actions: seq<Action>, k: nat) {
    && k < |actions| && actions[k] == Stop
    && Run(actions[..k]).Some? && Run(actions[..k]).value.sending == []
  }

  /** The n-th action takes the state before it to the one after it. */
  lemma PrefixStep(actions: seq<Action>, n: nat)
    requires n < |actions| && Run(actions[..n + 1]).Some?
    ensures var s := Run(actions[..n]);
            s.Some? && Enabled(s.value, actions[n]) && Run(actions[..n + 1]).value == Next(s.value, actions[n])
  {
    var prefix := actions[..n + 1];
    assert prefix[..|prefix| - 1] == actions[..n];
    RunLast(prefix);
  }

  lemma {:induction false} QuietSince(actions: seq<Action>, k: nat, n: nat)
    requires k < n <= |actions| && Run(actions[..n]).Some? && StopsQuietly(actions, k)
    ensures Quiet(Run(actions[..n]).value)
  {
    PrefixStep(actions, n - 1);
    if k < n - 1 {
      QuietSince(actions, k, n - 1);
      NextStaysQuiet(Run(actions[..n - 1]).value, actions[n - 1]);
    } else {
      QuietAtStop(actions, k);
    }
  }

  lemma QuietAtStop(actions: seq<Action>, k: nat)
    requires StopsQuietly(actions, k) && Enabled(Run(actions[..k]).value, Stop)
    ensures Quiet(Next(Run(actions[..k]).value, Stop))
  {
    UpdatesAreConserved(actions[..k]);
    StopIsQuiet(Run(actions[..k]).value);
  }

  lemma StaysQuiet(actions: seq<Action>, k: nat)
    requires Run(actions).Some? && StopsQuietly(actions, k)
    ensures Quiet(Run(actions).value)
  {
    assert actions[..|actions|] == actions;
    QuietSince(actions, k, |actions|);
  }

  /** If no sender is under way at Stop, the flusher exits with every accepted update applied. */
  lemma StopLosesNothing(actions: seq<Action>, k: nat)
    requires Run(actions).Some? && Run(actions).value.flusher.Exited? && StopsQuietly(actions, k)
    ensures var s := Run(actions).value;
            s.queue == [] && s.applied == s.accepted && TotalRequests(s.view) == Count(s.accepted, 0)
  {
    StaysQuiet(actions, k);
    UpdatesAreConserved(actions);
  }

  // ---- What can be told at Stop ----

  /** How far the flusher is from its exit, not counting the updates it has to receive. */
  function Distance(f: Flusher): nat {
    match f
    case Exited => 0
    case Applying(final) => if final then 1 else 4
    case Draining(final) => if final then 2 else 5
    case _ => 3
  }

  /** A stopped store can always run on to the flusher's exit with no sender taking a step. */
  lemma {:induction false} RunToExit(actions: seq<Action>) returns (more: seq<Action>)
    requires Run(actions).Some? && Run(actions).value.stopped
    ensures Run(actions + more).Some? && Run(actions + more).value.flusher.Exited?
    ensures Run(actions + more).value.sending == Run(actions).value.sending
    decreases Distance(Run(actions).value.flusher), |Run(actions).value.queue|
  {
    var s := Run(actions).value;
    UpdatesAreConserved(actions);
    if s.flusher.Exited? {
      more := [];
      assert actions + more == actions;
    } else {
      var a :=
        if s.flusher.Waiting? then SeeStop
        else if s.flusher.Applying? then ApplyBatch(1)
        else if s.queue == [] then ReceiveNothing
        else Receive;
      RunNext(actions, a);
      var rest := RunToExit(actions + [a]);
      more := [a] + rest;
      assert actions + more == actions + [a] + rest;
    }
  }

  /** A sender under way can always be the last, and leave the queue with an update in it. */
  lemma LeavesSomething(actions: seq<Action>) returns (more: seq<Action>)
    requires Run(actions).Some? && Run(actions).value.stopped && Run(actions).value.sending != []
    ensures Run(actions + more).Some? && Run(actions + more).value.flusher.Exited?
    ensures Run(actions + more).value.queue != []
  {
    var rest := RunToExit(actions);
    RunNext(actions + rest, Enqueue(0));
    more := rest + [Enqueue(0)];
    assert actions + more == actions + rest + [Enqueue(0)];
  }

  /** If the flusher has exited, everything accepted was applied. */
  ghost predicate ExitsComplete(actions: seq<Action>) {
    Run(actions).Some? && Run(actions).value.flusher.Exited? ==>
      Run(actions).value.queue == [] && Run(actions).value.applied == Run(actions).value.accepted
  }

  /**
  At the moment of Stop: everything accepted is applied in every continuation that reaches
  the flusher's exit if and only if no sender is under way.
  */
  lemma StopLosesNothingIff(actions: seq<Action>)
    requires actions != [] && Run(actions).Some? && actions[|actions| - 1] == Stop
    ensures (forall more: seq<Action> :: ExitsComplete(actions + more)) <==> Run(actions).value.sending == []
  {
    RunLast(actions);
    if Run(actions).value.sending == [] {
      forall more: seq<Action> ensures ExitsComplete(actions + more) {
        var k, all := |actions| - 1, actions + more;
        if Run(all).Some? && Run(all).value.flusher.Exited? {
          assert all[..k] == actions[..k];
          StopLosesNothing(all, k);
        }
      }
    } else {
      var more := LeavesSomething(actions);
      assert !ExitsComplete(actions + more);
    }
  }

  // ---- A late sender ----

  /** Nothing is received or applied once the flusher has exited. */
  lemma {:induction false} ExitIsFinal(actions: seq<Action>, n: nat)
    requires Run(actions).Some? && n <= |actions| && Run(actions[..n]).Some?
    requires Run(actions[..n]).value.flusher.Exited?
    ensures var s, t := Run(actions[..n]).value, Run(actions).value;
            t.flusher.Exited? && t.applied == s.applied && s.queue <= t.queue
  {
    var m := |actions| - 1;
    if n <= m {
      assert actions[..m][..n] == actions[..n];
      ExitIsFinal(actions[..m], n);
      UpdatesAreConserved(actions[..m]);
    } else {
      assert actions[..n] == actions;
    }
  }

  /** A run in which one sender is under way when the k-th action, Stop, is taken. */
  ghost predicate StopsLate(run: seq<Action>, k: nat, u: Update) {
    k < |run| && run[k] == Stop && Run(run[..k]).Some? && Run(run[..k]).value.sending == [u]
  }

  lemma LateRun(u: Update) returns (run: seq<Action>)
    ensures StopsLate(run, 2, u) && Run(run).Some?
    ensures var s := Run(run).value;
            s.flusher.Exited? && s.sending == [] && s.accepted == s.queue == [u] && s.applied == []
  {
    var a1 := [Start];
    var a2 := a1 + [Call(u)];
    var a3 := a2 + [Stop];
    var a4 := a3 + [SeeStop];
    var a5 := a4 + [ReceiveNothing];
    var a6 := a5 + [ApplyBatch(1)];
    assert [] + [Start] == a1;
    RunNext([], Start);
    RunNext(a1, Call(u));
    RunNext(a2, Stop);
    RunNext(a3, SeeStop);
    RunNext(a4, ReceiveNothing);
    RunNext(a5, ApplyBatch(1));
    RunNext(a6, Enqueue(0));
    run := a6 + [Enqueue(0)];
    assert run[..2] == a2;
  }

  /** A sender still under way at Stop can leave its update in the queue for ever, however the run goes on. */
  lemma LateSenderIsLeftQueued(u: Update) returns (run: seq<Action>)
    ensures StopsLate(run, 2, u) && Run(run).Some? && Run(run).value.flusher.Exited? && Run(run).value.accepted == [u]
    ensures forall more: seq<Action> :: Run(run + more).Some? ==>
              u in Run(run + more).value.queue && Run(run + more).value.applied == []
  {
    run := LateRun(u);
    forall more: seq<Action> | Run(run + more).Some?
      ensures u in Run(run + more).value.queue && Run(run + more).value.applied == []
    {
      var all := run + more;
      assert all[..|run|] == run;
      ExitIsFinal(all, |run|);
      assert u == Run(all).value.queue[0];
    }
  }
}
