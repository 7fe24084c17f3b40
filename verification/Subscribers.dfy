/**
Subscriber channels of internal/stats/stats.go. `unsubscribe` deletes the subscriber under
the lock but closes its channel after releasing it; `broadcast` sends, and `Stop` closes,
under the lock; a sync.Once guards each close. Sending on a closed channel or closing one
twice would panic.
*/
module Subscribers {
  import opened Wrappers

  datatype Lock =
    | Free
    | Broadcasting(todo: set<nat>)
    | Stopping(current: Option<nat>)

  /** Subscribers are numbers; `closers` are the unsubscribe calls past their delete. */
  datatype State = State(
    made: set<nat>,
    subs: set<nat>,
    closed: set<nat>,
    once: set<nat>,
    closers: map<nat, nat>,
    lock: Lock,
    panicked: bool)

  const INITIAL := State({}, {}, {}, {}, map[], Free, false)

  datatype Action =
    | Subscribe(sub: nat)
    | Unlink(caller: nat, sub: nat)
    | CloseOnce(caller: nat)
    | BeginBroadcast
    | Send(sub: nat)
    | EndBroadcast
    | BeginStop
    | StopClose(sub: nat)
    | StopDelete
    | EndStop

  predicate Enabled(s: State, a: Action) {
    match a
    case Subscribe(sub) => s.lock.Free? && sub !in s.made
    case Unlink(c, sub) => s.lock.Free? && sub in s.made && c !in s.closers
    case CloseOnce(c) => c in s.closers
    case BeginBroadcast => s.lock.Free?
    case Send(sub) => s.lock.Broadcasting? && sub in s.lock.todo
    case EndBroadcast => s.lock.Broadcasting? && s.lock.todo == {}
    case BeginStop => s.lock.Free?
    case StopClose(sub) => s.lock == Stopping(None) && sub in s.subs
    case StopDelete => s.lock.Stopping? && s.lock.current.Some?
    case EndStop => s.lock == Stopping(None) && s.subs == {}
  }

  /** `done.Do(func() { close(ch) })` */
  function DoClose(s: State, sub: nat): State {
    if sub in s.once then s
    else s.(once := s.once + {sub}, closed := s.closed + {sub}, panicked := s.panicked || sub in s.closed)
  }

  function Next(s: State, a: Action): State
    requires Enabled(s, a)
  {
    match a
    case Subscribe(sub) => s.(made := s.made + {sub}, subs := s.subs + {sub})
    case Unlink(c, sub) => s.(subs := s.subs - {sub}, closers := s.closers[c := sub])
    case CloseOnce(c) => DoClose(s, s.closers[c]).(closers := s.closers - {c})
    case BeginBroadcast => s.(lock := Broadcasting(s.subs))
    case Send(sub) =>
      s.(lock := Broadcasting(s.lock.todo - {sub}), panicked := s.panicked || sub in s.closed)
    case EndBroadcast => s.(lock := Free)
    case BeginStop => s.(lock := Stopping(None))
    case StopClose(sub) => DoClose(s, sub).(lock := Stopping(Some(sub)))
    case StopDelete => s.(subs := s.subs - {s.lock.current.value}, lock := Stopping(None))
    case EndStop => s.(lock := Free)
  }

  function Run(actions: seq<Action>): Option<State> {
    if actions == [] then Some(INITIAL)
    else
      var before := Run(actions[..|actions| - 1]);
      if before.Some? && Enabled(before.value, actions[|actions| - 1])
      then Some(Next(before.value, actions[|actions| - 1]))
      else None
  }

  /** A panic is a message sent on a closed channel, or a second close that the Once does not stop. */
  lemma PanicLaw(s: State, a: Action)
    requires Enabled(s, a)
    ensures Next(s, a).panicked <==>
      || s.panicked
      || (a.Send? && a.sub in s.closed)
      || (a.StopClose? && a.sub !in s.once && a.sub in s.closed)
      || (a.CloseOnce? && a.caller in s.closers && s.closers[a.caller] !in s.once && s.closers[a.caller] in s.closed)
  {
  }

  /** Whoever is in the set has an open channel, except the one Stop has just closed. */
  ghost predicate Inv(s: State) {
    && !s.panicked
    && s.closed == s.once
    && s.subs <= s.made && s.closed <= s.made
    && (forall sub :: sub in s.subs && sub in s.closed ==> s.lock == Stopping(Some(sub)))
    && (s.lock.Broadcasting? ==> s.lock.todo <= s.subs)
    && (s.lock.Stopping? && s.lock.current.Some? ==> s.lock.current.value in s.closed)
    && (forall c :: c in s.closers ==> s.closers[c] in s.made && s.closers[c] !in s.subs)
    && (forall sub :: sub in s.made ==>
          sub in s.subs || sub in s.closed || exists c :: c in s.closers && s.closers[c] == sub)
  }

  lemma NextKeepsInv(s: State, a: Action)
    requires Inv(s) && Enabled(s, a)
    ensures Inv(Next(s, a))
  {
    var s' := Next(s, a);
    forall sub | sub in s'.made
      ensures sub in s'.subs || sub in s'.closed || exists c :: c in s'.closers && s'.closers[c] == sub
    {
      if a.Unlink? && a.sub == sub {
        assert s'.closers[a.caller] == sub;
      } else if sub in s.made && sub !in s.subs && sub !in s.closed {
        var c :| c in s.closers && s.closers[c] == sub;
        if c in s'.closers {
          assert s'.closers[c] == sub;
        }
      }
    }
  }

  lemma {:induction false} RunKeepsInv(actions: seq<Action>)
    requires Run(actions).Some?
    ensures Inv(Run(actions).value)
  {
    if actions != [] {
      RunKeepsInv(actions[..|actions| - 1]);
      NextKeepsInv(Run(actions[..|actions| - 1]).value, actions[|actions| - 1]);
    }
  }

  /** No interleaving sends on a closed channel or closes a channel twice. */
  lemma NoPanic(actions: seq<Action>)
    requires Run(actions).Some?
    ensures !Run(actions).value.panicked
  {
    RunKeepsInv(actions);
  }

  /** No channel stays open for ever: open ones are subscribed or about to be closed. */
  lemma EveryChannelIsClosed(actions: seq<Action>)
    requires Run(actions).Some?
    ensures var s := Run(actions).value;
            s.subs == {} && s.closers == map[] ==> s.closed == s.made
  {
    RunKeepsInv(actions);
  }

  // ---- Whom a broadcast reaches, and when a channel is closed ----

  /** The state before the n-th action of a run. */
  function StateAt(actions: seq<Action>, n: nat): Option<State>
    requires n <= |actions|
  {
    Run(actions[..n])
  }

  lemma StepAt(actions: seq<Action>, n: nat)
    requires n < |actions| && StateAt(actions, n + 1).Some?
    ensures var s := StateAt(actions, n);
            s.Some? && Enabled(s.value, actions[n]) && StateAt(actions, n + 1).value == Next(s.value, actions[n])
  {
    assert actions[..n + 1][..n] == actions[..n];
  }

  lemma {:induction false} StatesBefore(actions: seq<Action>, m: nat, n: nat)
    requires m <= n <= |actions| && StateAt(actions, n).Some?
    ensures StateAt(actions, m).Some?
  {
    if m < n {
      StepAt(actions, n - 1);
      StatesBefore(actions, m, n - 1);
    }
  }

  /** Until a broadcast ends, it still owes a message to exactly those it has not sent one. */
  lemma {:induction false} StillOwed(actions: seq<Action>, b: nat, n: nat, sub: nat)
    requires b < n <= |actions| && actions[b] == BeginBroadcast && StateAt(actions, n).Some?
    requires forall j :: b < j < n ==> actions[j] != EndBroadcast
    ensures StateAt(actions, b).Some? && StateAt(actions, n).value.lock.Broadcasting?
    ensures sub in StateAt(actions, n).value.lock.todo <==>
            sub in StateAt(actions, b).value.subs && forall j :: b < j < n ==> actions[j] != Send(sub)
  {
    StepAt(actions, n - 1);
    if b < n - 1 {
      StillOwed(actions, b, n - 1, sub);
    }
  }

  /**
  A broadcast sends to every subscriber there is when it begins, once, and to nobody else,
  whatever else runs meanwhile.
  */
  lemma BroadcastReachesAll(actions: seq<Action>, b: nat, e: nat, sub: nat)
    requires b < e < |actions| && Run(actions).Some?
    requires actions[b] == BeginBroadcast && actions[e] == EndBroadcast && forall j :: b < j < e ==> actions[j] != EndBroadcast
    ensures StateAt(actions, b).Some?
    ensures sub in StateAt(actions, b).value.subs <==> exists j :: b < j < e && actions[j] == Send(sub)
    ensures forall i, j :: b < i < j < e && actions[i] == Send(sub) ==> actions[j] != Send(sub)
    ensures StateAt(actions, e + 1).Some? && StateAt(actions, e + 1).value.lock.Free?
  {
    assert actions[..|actions|] == actions;
    StatesBefore(actions, e + 1, |actions|);
    StepAt(actions, e);
    StillOwed(actions, b, e, sub);
    forall i | b < i < e && actions[i] == Send(sub)
      ensures sub in StateAt(actions, b).value.subs && forall j :: i < j < e ==> actions[j] != Send(sub)
    {
      SentOnce(actions, b, i, e, sub);
    }
  }

  lemma SentOnce(actions: seq<Action>, b: nat, i: nat, e: nat, sub: nat)
    requires b < i < e <= |actions| && StateAt(actions, e).Some? && actions[b] == BeginBroadcast && actions[i] == Send(sub)
    requires forall j :: b < j < e ==> actions[j] != EndBroadcast
    ensures StateAt(actions, b).Some? && sub in StateAt(actions, b).value.subs
    ensures forall j :: i < j < e ==> actions[j] != Send(sub)
  {
    StatesBefore(actions, i + 1, e);
    StepAt(actions, i);
    StillOwed(actions, b, i, sub);
    forall j | i < j < e ensures actions[j] != Send(sub) {
      StatesBefore(actions, j + 1, e);
      StepAt(actions, j);
      StillOwed(actions, b, j, sub);
    }
  }

  /** Whoever subscribed is in the set until it unsubscribes or Stop begins. */
  lemma {:induction false} StaysSubscribed(actions: seq<Action>, a: nat, n: nat, sub: nat)
    requires a < n <= |actions| && StateAt(actions, n).Some? && actions[a] == Subscribe(sub)
    requires forall j :: a < j < n ==> !actions[j].BeginStop? && !(actions[j].Unlink? && actions[j].sub == sub)
    ensures sub in StateAt(actions, n).value.subs && !StateAt(actions, n).value.lock.Stopping?
  {
    StepAt(actions, n - 1);
    if a < n - 1 {
      StaysSubscribed(actions, a, n - 1, sub);
    }
  }

  /** When Stop ends, nobody is subscribed. */
  lemma StopLeavesNobody(actions: seq<Action>)
    requires actions != [] && Run(actions).Some? && actions[|actions| - 1] == EndStop
    ensures Run(actions).value.subs == {} && Run(actions).value.lock.Free?
  {
  }

  /** A message is only ever sent on a channel that was not closed before, and to a subscriber. */
  lemma SendsAreOpen(actions: seq<Action>, n: nat, sub: nat)
    requires n < |actions| && Run(actions).Some? && actions[n] == Send(sub)
    ensures StateAt(actions, n).Some? && sub in StateAt(actions, n).value.subs && sub !in StateAt(actions, n).value.closed
  {
    assert actions[..|actions|] == actions;
    StatesBefore(actions, n + 1, |actions|);
    StepAt(actions, n);
    RunKeepsInv(actions[..n]);
  }

  /** Both ways to close a channel close it, and what is closed stays closed. */
  lemma ClosesLaw(actions: seq<Action>, n: nat)
    requires n < |actions| && Run(actions).Some?
    ensures StateAt(actions, n).Some? && StateAt(actions, n + 1).Some?
    ensures var a, s, s' := actions[n], StateAt(actions, n).value, StateAt(actions, n + 1).value;
            s'.closed == s.closed + (if a.StopClose? then {a.sub}
                                     else if a.CloseOnce? then (if a.caller in s.closers then {s.closers[a.caller]} else {})
                                     else {})
  {
    assert actions[..|actions|] == actions;
    StatesBefore(actions, n + 1, |actions|);
    StepAt(actions, n);
    RunKeepsInv(actions[..n]);
  }
}
