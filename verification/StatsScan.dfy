/**
Aggregate scans of internal/stats/types.go while the counters move. A scan loads the
counters one atomic read at a time; additions to any counter may run between two reads,
and only the insertion of a new record is excluded, by the store's lock. The window ticker
is the one goroutine whose successive scans are compared.
*/
module StatsScan {
  import opened Wrappers
  import opened Sums
  import RelayStore
  import StatsWindow

  type AggregatedStats = RelayStore.AggregatedStats

  datatype Field = Requests | Sent | Recv | Errors

  /** One atomic counter of one record. */
  datatype Cell = Cell(id: string, field: Field)

  datatype Scan = Scan(todo: set<Cell>, agg: AggregatedStats)

  datatype State = State(counters: map<Cell, nat>, scan: Option<Scan>, results: seq<AggregatedStats>)

  const NOTHING := RelayStore.AggregatedStats.AggregatedStats(0, 0, 0, 0, 0, 0, 0, map[])

  const INITIAL := State(map[], None, [])

  datatype Action =
    | Insert(id: string)
    | Add(cell: Cell, n: nat)
    | Begin
    | Load(cell: Cell)
    | Finish(active: nat)

  predicate Enabled(s: State, a: Action) {
    match a
    case Insert(id) =>
      s.scan.None? && Cell(id, Requests) !in s.counters && Cell(id, Sent) !in s.counters &&
      Cell(id, Recv) !in s.counters && Cell(id, Errors) !in s.counters
    case Add(c, _) => c in s.counters
    case Begin => s.scan.None?
    case Load(c) => s.scan.Some? && c in s.scan.value.todo && c in s.counters
    case Finish(_) => s.scan.Some? && s.scan.value.todo == {}
  }

  function Get(agg: AggregatedStats, f: Field): nat {
    match f
    case Requests => agg.totalRequests
    case Sent => agg.totalBytesSent
    case Recv => agg.totalBytesRecv
    case Errors => agg.totalErrors
  }

  /** The totals after one more counter was read. */
  function Plus(agg: AggregatedStats, c: Cell, v: nat): AggregatedStats {
    match c.field
    case Requests =>
      agg.(totalRequests := agg.totalRequests + v, requestsPerRemote := agg.requestsPerRemote[c.id := v])
    case Sent => agg.(totalBytesSent := agg.totalBytesSent + v)
    case Recv => agg.(totalBytesRecv := agg.totalBytesRecv + v)
    case Errors => agg.(totalErrors := agg.totalErrors + v)
  }

  function Next(s: State, a: Action): State
    requires Enabled(s, a)
  {
    match a
    case Insert(id) =>
      s.(counters := s.counters[Cell(id, Requests) := 0][Cell(id, Sent) := 0]
                       [Cell(id, Recv) := 0][Cell(id, Errors) := 0])
    case Add(c, n) => s.(counters := s.counters[c := s.counters[c] + n])
    case Begin => s.(scan := Some(Scan(s.counters.Keys, NOTHING)))
    case Load(c) =>
      s.(scan := Some(Scan(s.scan.value.todo - {c}, Plus(s.scan.value.agg, c, s.counters[c]))))
    case Finish(active) =>
      s.(scan := None,
         results := s.results + [s.scan.value.agg.(activeRemotes := active, onlineRemotes := active)])
  }

  function Run(actions: seq<Action>): Option<State> {
    if actions == [] then Some(INITIAL)
    else
      var before := Run(actions[..|actions| - 1]);
      if before.Some? && Enabled(before.value, actions[|actions| - 1])
      then Some(Next(before.value, actions[|actions| - 1]))
      else None
  }

  // ---- The invariant ----

  /** The counters of one kind; the others weigh nothing. */
  ghost function Weights(counters: map<Cell, nat>, f: Field): map<Cell, nat> {
    map c | c in counters :: if c.field == f then counters[c] else 0
  }

  ghost function LastTotal(s: State, f: Field): nat {
    if s.results == [] then 0 else Get(s.results[|s.results| - 1], f)
  }

  /** What the scan has is at most what is there, and enough to reach the last total. */
  ghost predicate Bounded(s: State, f: Field) {
    var w := Weights(s.counters, f);
    match s.scan
    case None => LastTotal(s, f) <= Sum(w, s.counters.Keys)
    case Some(scan) =>
      && scan.todo <= s.counters.Keys
      && Get(scan.agg, f) <= Sum(w, s.counters.Keys - scan.todo)
      && LastTotal(s, f) <= Get(scan.agg, f) + Sum(w, scan.todo)
  }

  ghost predicate AddsUp(agg: AggregatedStats) {
    agg.totalRequests == Sum(agg.requestsPerRemote, agg.requestsPerRemote.Keys)
  }

  ghost predicate PerRemote(s: State) {
    && (forall i :: 0 <= i < |s.results| ==> AddsUp(s.results[i]))
    && (s.scan.Some? ==>
          && AddsUp(s.scan.value.agg)
          && forall id :: id in s.scan.value.agg.requestsPerRemote ==> Cell(id, Requests) !in s.scan.value.todo)
  }

  ghost predicate Monotone(results: seq<AggregatedStats>) {
    forall i :: 0 <= i < |results| - 1 ==> StatsWindow.NoSmaller(results[i], results[i + 1])
  }

  ghost predicate Inv(s: State) {
    && (forall f :: Bounded(s, f))
    && PerRemote(s)
    && Monotone(s.results)
  }

  lemma InsertBounded(s: State, id: string, f: Field)
    requires Enabled(s, Insert(id)) && Bounded(s, f)
    ensures Bounded(Next(s, Insert(id)), f)
  {
    var s' := Next(s, Insert(id));
    SumAgree(Weights(s.counters, f), Weights(s'.counters, f), s.counters.Keys);
    SumGrows(Weights(s'.counters, f), s.counters.Keys, s'.counters.Keys);
  }

  lemma AddBounded(s: State, c: Cell, n: nat, f: Field)
    requires Enabled(s, Add(c, n)) && Bounded(s, f)
    ensures Bounded(Next(s, Add(c, n)), f)
  {
    var s' := Next(s, Add(c, n));
    var w, w' := Weights(s.counters, f), Weights(s'.counters, f);
    assert s'.counters.Keys == s.counters.Keys;
    SumAgree(w, w', s.counters.Keys);
    if s.scan.Some? {
      SumAgree(w, w', s.scan.value.todo);
      SumAgree(w, w', s.counters.Keys - s.scan.value.todo);
    }
  }

  lemma LoadBounded(s: State, c: Cell, f: Field)
    requires Enabled(s, Load(c)) && Bounded(s, f)
    ensures Bounded(Next(s, Load(c)), f)
  {
    var w, todo := Weights(s.counters, f), s.scan.value.todo;
    SumRemove(w, todo, c);
    SumAdd(w, s.counters.Keys - todo, c);
    assert s.counters.Keys - todo + {c} == s.counters.Keys - (todo - {c});
  }

  lemma LoadAddsUp(s: State, c: Cell)
    requires Enabled(s, Load(c)) && PerRemote(s)
    ensures PerRemote(Next(s, Load(c)))
  {
    if c.field == Requests {
      var m := s.scan.value.agg.requestsPerRemote;
      var m' := m[c.id := s.counters[c]];
      assert c.id !in m;
      SumRemove(m', m'.Keys, c.id);
      assert m'.Keys - {c.id} == m.Keys;
      SumAgree(m, m', m.Keys);
    }
  }

  lemma NextBounded(s: State, a: Action, f: Field)
    requires Enabled(s, a) && Bounded(s, f)
    ensures Bounded(Next(s, a), f)
  {
    match a
    case Insert(id) => InsertBounded(s, id, f);
    case Add(c, n) => AddBounded(s, c, n, f);
    case Load(c) => LoadBounded(s, c, f);
    case Begin => assert s.counters.Keys - s.counters.Keys == {};
    case Finish(_) => assert s.counters.Keys - {} == s.counters.Keys;
  }

  lemma NextKeepsInv(s: State, a: Action)
    requires Enabled(s, a) && Inv(s)
    ensures Inv(Next(s, a))
  {
    forall f ensures Bounded(Next(s, a), f) {
      NextBounded(s, a, f);
    }
    if a.Load? {
      LoadAddsUp(s, a.cell);
    }
    if a.Finish? {
      assert Bounded(s, Requests) && Bounded(s, Sent) && Bounded(s, Recv) && Bounded(s, Errors);
    }
  }

  /**
  Although no scan is atomic, in every interleaving the totals of successive scans never
  decrease, and the per-relay requests of each scan add up to its total.
  */
  lemma {:induction false} ScansNeverDecrease(actions: seq<Action>)
    requires Run(actions).Some?
    ensures Inv(Run(actions).value)
  {
    if actions == [] {
      assert forall f :: Bounded(INITIAL, f);
    } else {
      ScansNeverDecrease(actions[..|actions| - 1]);
      NextKeepsInv(Run(actions[..|actions| - 1]).value, actions[|actions| - 1]);
    }
  }

  /** Hence what updateWindow demands of two successive scans always holds. */
  lemma ScansFitTheWindow(actions: seq<Action>, i: nat, j: nat)
    requires Run(actions).Some? && i <= j < |Run(actions).value.results|
    ensures StatsWindow.NoSmaller(Run(actions).value.results[i], Run(actions).value.results[j])
    ensures var a, b := Run(actions).value.results[i], Run(actions).value.results[j];
      && a.totalRequests <= b.totalRequests && a.totalBytesSent <= b.totalBytesSent
      && a.totalBytesRecv <= b.totalBytesRecv && a.totalErrors <= b.totalErrors
    decreases j
  {
    ScansNeverDecrease(actions);
    if i < j {
      ScansFitTheWindow(actions, i, j - 1);
    }
  }

  // ---- A scan lies between the counters at its start and at its end ----

  /** What one loaded counter adds, field by field. */
  lemma PlusLaw(agg: AggregatedStats, id: string, v: nat)
    ensures Plus(agg, Cell(id, Requests), v) ==
            agg.(totalRequests := agg.totalRequests + v, requestsPerRemote := agg.requestsPerRemote[id := v])
    ensures Plus(agg, Cell(id, Sent), v) == agg.(totalBytesSent := agg.totalBytesSent + v)
    ensures Plus(agg, Cell(id, Recv), v) == agg.(totalBytesRecv := agg.totalBytesRecv + v)
    ensures Plus(agg, Cell(id, Errors), v) == agg.(totalErrors := agg.totalErrors + v)
  {
  }

  /** The state before the n-th action. */
  function StateAt(actions: seq<Action>, n: nat): Option<State>
    requires n <= |actions|
  {
    Run(actions[..n])
  }

  lemma StepAt(actions: seq<Action>, n: nat)
    requires n < |actions| && StateAt(actions, n + 1).Some?
    ensures var s := StateAt(actions, n);
            s.Some? && Enabled(s.value, actions[n]) && StateAt(actions, n + 1).value == Next(s.value, actions[n])
  {
    assert actions[..n + 1][..n] == actions[..n];
  }

  /** The true total of a field. */
  ghost function Counted(s: State, f: Field): nat {
    Sum(Weights(s.counters, f), s.counters.Keys)
  }

  /** What the scan has, and what it has yet to read, is at least `base`. */
  ghost predicate Reaches(s: State, f: Field, base: nat) {
    && s.scan.Some? && s.scan.value.todo <= s.counters.Keys
    && base <= Get(s.scan.value.agg, f) + Sum(Weights(s.counters, f), s.scan.value.todo)
  }

  lemma ReachesNext(s: State, a: Action, f: Field, base: nat)
    requires Enabled(s, a) && Reaches(s, f, base) && !a.Finish?
    ensures Reaches(Next(s, a), f, base)
  {
    match a
    case Add(c, n) => SumAgree(Weights(s.counters, f), Weights(Next(s, a).counters, f), s.scan.value.todo);
    case Load(c) => SumRemove(Weights(s.counters, f), s.scan.value.todo, c);
    case Insert(_) => assert false;
    case Begin => assert false;
  }

  lemma {:induction false} ReachesSince(actions: seq<Action>, b: nat, n: nat, f: Field)
    requires b < n <= |actions| && actions[b] == Begin && StateAt(actions, n).Some?
    requires forall j :: b < j < n ==> !actions[j].Finish?
    ensures StateAt(actions, b).Some? && Reaches(StateAt(actions, n).value, f, Counted(StateAt(actions, b).value, f))
  {
    StepAt(actions, n - 1);
    if b < n - 1 {
      ReachesSince(actions, b, n - 1, f);
      ReachesNext(StateAt(actions, n - 1).value, actions[n - 1], f, Counted(StateAt(actions, b).value, f));
    }
  }

  function Last(s: State): AggregatedStats
    requires s.results != []
  {
    s.results[|s.results| - 1]
  }

  lemma FieldIsBetween(actions: seq<Action>, b: nat, e: nat, f: Field)
    requires b < e < |actions| && actions[b] == Begin && actions[e].Finish? && StateAt(actions, e + 1).Some?
    requires forall j :: b < j < e ==> !actions[j].Finish?
    ensures StateAt(actions, b).Some? && StateAt(actions, e).Some? && StateAt(actions, e + 1).value.results != []
    ensures Counted(StateAt(actions, b).value, f) <= Get(Last(StateAt(actions, e + 1).value), f) <= Counted(StateAt(actions, e).value, f)
  {
    StepAt(actions, e);
    ReachesSince(actions, b, e, f);
    ScansNeverDecrease(actions[..e]);
    var s := StateAt(actions, e).value;
    assert Bounded(s, f);
    assert s.counters.Keys - {} == s.counters.Keys;
  }

  /**
  Each total of a scan is at least what the counters showed when the scan began and at most
  what they show when it ends, in every interleaving.
  */
  lemma ScanIsBetween(actions: seq<Action>, b: nat, e: nat)
    requires b < e < |actions| && actions[b] == Begin && actions[e].Finish? && StateAt(actions, e + 1).Some?
    requires forall j :: b < j < e ==> !actions[j].Finish?
    ensures StateAt(actions, b).Some? && StateAt(actions, e).Some? && StateAt(actions, e + 1).value.results != []
    ensures var s, t, scan := StateAt(actions, b).value, StateAt(actions, e).value, Last(StateAt(actions, e + 1).value);
      && Counted(s, Requests) <= scan.totalRequests <= Counted(t, Requests)
      && Counted(s, Sent) <= scan.totalBytesSent <= Counted(t, Sent)
      && Counted(s, Recv) <= scan.totalBytesRecv <= Counted(t, Recv)
      && Counted(s, Errors) <= scan.totalErrors <= Counted(t, Errors)
  {
    FieldIsBetween(actions, b, e, Requests);
    FieldIsBetween(actions, b, e, Sent);
    FieldIsBetween(actions, b, e, Recv);
    FieldIsBetween(actions, b, e, Errors);
  }

  lemma {:induction false} SumGrows<K>(w: map<K, nat>, s: set<K>, t: set<K>)
    requires s <= t <= w.Keys
    ensures Sum(w, s) <= Sum(w, t)
    decreases t
  {
    if s != t {
      var x :| x in t && x !in s;
      SumRemove(w, t, x);
      SumGrows(w, s, t - {x});
    }
  }
}
