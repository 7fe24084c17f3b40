/**
internal/stats/types.go: the per-relay records and the map that holds them. The atomic
counters are natural numbers; the clock is a parameter, with 0 for Go's zero time.
*/
module RelayStore {
  import opened Wrappers
  import opened Sums
  import Health

  /** The value of one record. */
  datatype Record = Record(
    requests: nat,
    sent: nat,
    recv: nat,
    errors: nat,
    hostname: string,
    country: string,
    city: string,
    egressIP: string,
    health: Health.RemoteHealth,
    lastUsed: nat,
    createdAt: nat)

  function NewRecord(now: nat): Record {
    Record(0, 0, 0, 0, "", "", "", "", Health.ZERO, 0, now)
  }

  function RecordOf(view: map<string, Record>, id: string, now: nat): Record {
    if id in view then view[id] else NewRecord(now)
  }

  class RemoteStats {
    const remoteID: string
    const createdAt: nat
    var hostname: string
    var country: string
    var city: string
    var egressIP: string
    var requestCount: nat
    var bytesSent: nat
    var bytesRecv: nat
    var errorCount: nat
    var health: Health.RemoteHealth
    var lastUsed: nat

    constructor (remoteID: string, now: nat)
      ensures this.remoteID == remoteID && Value() == NewRecord(now)
      ensures requestCount == bytesSent == bytesRecv == errorCount == lastUsed == 0 && createdAt == now
      ensures hostname == country == city == egressIP == ""
      ensures !health.online && health.lastCheck == health.failures == health.successes == 0
    {
      this.remoteID, this.createdAt := remoteID, now;
      hostname, country, city, egressIP := "", "", "", "";
      requestCount, bytesSent, bytesRecv, errorCount := 0, 0, 0, 0;
      health, lastUsed := Health.ZERO, 0;
    }

    function Value(): Record
      reads this
    {
      Record(requestCount, bytesSent, bytesRecv, errorCount,
             hostname, country, city, egressIP, health, lastUsed, createdAt)
    }
  }

  datatype AggregatedStats = AggregatedStats(
    totalRequests: nat,
    totalBytesSent: nat,
    totalBytesRecv: nat,
    totalErrors: nat,
    activeRemotes: nat,
    totalRemotes: nat,
    onlineRemotes: nat,
    requestsPerRemote: map<string, nat>)

  /** One turn of the loop of GetAggregated. */
  method Accumulate(agg: AggregatedStats, rs: RemoteStats, ghost view: map<string, Record>, ghost done: set<string>)
    returns (r: AggregatedStats)
    requires done <= view.Keys && agg == Partial(view, done)
    requires rs.remoteID in view && view[rs.remoteID] == rs.Value() && rs.remoteID !in done
    ensures r == Partial(view, done + {rs.remoteID})
  {
    PartialStep(view, done, rs.remoteID);
    var n := if rs.health.online then 1 else 0;
    r := AggregatedStats(
      agg.totalRequests + rs.requestCount,
      agg.totalBytesSent + rs.bytesSent,
      agg.totalBytesRecv + rs.bytesRecv,
      agg.totalErrors + rs.errorCount,
      agg.activeRemotes + n,
      agg.totalRemotes + 1,
      agg.onlineRemotes + n,
      agg.requestsPerRemote[rs.remoteID := rs.requestCount]);
  }

  lemma MoveOne<T>(todo: set<T>, done: set<T>, x: T)
    requires x in todo && todo !! done
    ensures todo - {x} !! done + {x} && todo - {x} + (done + {x}) == todo + done
  {
  }

  class RemoteStore {
    var remotes: map<string, RemoteStats>

    ghost predicate Valid()
      reads this
    {
      forall id :: id in remotes ==> remotes[id].remoteID == id
    }

    ghost predicate Owns(rs: RemoteStats)
      reads this
    {
      Valid() && rs.remoteID in remotes && remotes[rs.remoteID] == rs
    }

    ghost function View(): map<string, Record>
      reads this, remotes.Values
    {
      map id | id in remotes :: remotes[id].Value()
    }

    constructor ()
      ensures Valid() && View() == map[] && remotes == map[]
    {
      remotes := map[];
    }

    /** What changing the fields of one record does to the view. */
    twostate lemma OneChanged(rs: RemoteStats)
      requires Owns(rs) && remotes == old(remotes)
      requires forall id :: id in remotes && remotes[id] != rs ==> remotes[id].Value() == old(remotes[id].Value())
      ensures View() == old(View())[rs.remoteID := rs.Value()]
    {
    }

    /** The read-locked half of GetOrCreate. */
    method Find(remoteID: string) returns (r: Option<RemoteStats>)
      ensures r == if remoteID in remotes then Some(remotes[remoteID]) else None
    {
      r := if remoteID in remotes then Some(remotes[remoteID]) else None;
    }

    /** The write-locked half: other callers may have inserted the record meanwhile. */
    method FindOrInsert(remoteID: string, now: nat) returns (r: RemoteStats)
      requires Valid()
      modifies this
      ensures Owns(r) && r.remoteID == remoteID
      ensures remotes.Keys == old(remotes.Keys) + {remoteID}
      ensures forall id :: id in old(remotes) ==> remotes[id] == old(remotes[id])
      ensures remoteID !in old(remotes) ==> fresh(r)
      ensures View() == old(View())[remoteID := RecordOf(old(View()), remoteID, now)]
    {
      if remoteID in remotes {
        r := remotes[remoteID];
      } else {
        r := new RemoteStats(remoteID, now);
        remotes := remotes[remoteID := r];
      }
    }

    method GetOrCreate(remoteID: string, now: nat) returns (r: RemoteStats)
      requires Valid()
      modifies this
      ensures Owns(r) && r.remoteID == remoteID
      ensures remotes.Keys == old(remotes.Keys) + {remoteID}
      ensures forall id :: id in old(remotes) ==> remotes[id] == old(remotes[id])
      ensures remoteID !in old(remotes) ==> fresh(r)
      ensures View() == old(View())[remoteID := RecordOf(old(View()), remoteID, now)]
    {
      var found := Find(remoteID);
      match found
      case Some(s) => r := s;
      case None => r := FindOrInsert(remoteID, now);
    }

    /** Nothing is known of a relay without a record or with one never checked. */
    method PeekHealth(remoteID: string) returns (h: Option<Health.RemoteHealth>)
      requires Valid()
      ensures h == Peek(View(), remoteID)
    {
      var found := Find(remoteID);
      match found
      case None => h := None;
      case Some(s) =>
        h := if s.health.lastCheck == 0 then None else Some(s.health);
    }

    method RecordRemoteFailure(remoteID: string, threshold: int, now: nat) returns (online: bool)
      requires Valid()
      modifies this, remotes.Values
      ensures Valid()
      ensures View() == Strike(old(View()), remoteID, threshold, now)
      ensures fresh(remotes.Values - old(remotes.Values))
      ensures online == (remoteID == "" || View()[remoteID].health.online)
    {
      if remoteID == "" {
        return true;
      }
      var rs := GetOrCreate(remoteID, now);
      assert rs.Value() == View()[remoteID] == RecordOf(old(View()), remoteID, now);
      online := CountFailure(rs, threshold, now);
    }

    /** The critical section of RecordRemoteFailure. */
    method CountFailure(rs: RemoteStats, threshold: int, now: nat) returns (online: bool)
      requires Owns(rs)
      modifies rs`health
      ensures Owns(rs) && View() == old(View())[rs.remoteID :=
                old(rs.Value()).(health := Health.Struck(old(rs.health), threshold, now))]
      ensures online == rs.health.online
    {
      rs.health := rs.health.(failures := rs.health.failures + 1);
      rs.health := rs.health.(online := rs.health.failures < threshold);
      rs.health := rs.health.(successes := 0);
      rs.health := rs.health.(lastCheck := now);
      online := rs.health.online;
      OneChanged(rs);
    }

    method SetRemoteMetadataSync(remoteID: string, hostname: string, country: string, city: string, now: nat)
      requires Valid()
      modifies this, remotes.Values
      ensures Valid()
      ensures View() == old(View())[remoteID :=
                RecordOf(old(View()), remoteID, now).(hostname := hostname, country := country, city := city)]
    {
      var rs := GetOrCreate(remoteID, now);
      SetMetadata(rs, hostname, country, city);
    }

    method SetMetadata(rs: RemoteStats, hostname: string, country: string, city: string)
      requires Owns(rs)
      modifies rs`hostname, rs`country, rs`city
      ensures Owns(rs) && View() == old(View())[rs.remoteID :=
                old(rs.Value()).(hostname := hostname, country := country, city := city)]
    {
      rs.hostname := hostname;
      rs.country := country;
      rs.city := city;
      OneChanged(rs);
    }

    method GetAggregated() returns (agg: AggregatedStats)
      requires Valid()
      ensures agg == Aggregated(old(View()))
    {
      agg := AggregatedStats(0, 0, 0, 0, 0, 0, 0, map[]);
      var todo := remotes.Keys;
      ghost var view := View();
      ghost var done: set<string> := {};
      PartialNothing(view);
      while todo != {}
        invariant todo !! done && todo + done == view.Keys == remotes.Keys
        invariant agg == Partial(view, done)
        decreases todo
      {
        var id :| id in todo;
        agg := Accumulate(agg, remotes[id], view, done);
        MoveOne(todo, done, id);
        todo, done := todo - {id}, done + {id};
      }
    }
  }

  function Peek(view: map<string, Record>, id: string): Option<Health.RemoteHealth> {
    if id in view && view[id].health.lastCheck != 0 then Some(view[id].health) else None
  }

  /** RecordRemoteFailure as InMemoryStore exposes it: the empty id is ignored. */
  function Strike(view: map<string, Record>, id: string, threshold: int, now: nat): map<string, Record> {
    if id == "" then view
    else
      var r := RecordOf(view, id, now);
      view[id := r.(health := Health.Struck(r.health, threshold, now))]
  }

  // ---- The circuit breaker, as PeekHealth shows it ----

  /** A record that was never checked is as good as none. */
  lemma NeverCheckedIsUnknown(view: map<string, Record>, id: string)
    ensures Peek(view, id) == None <==> id !in view || view[id].health.lastCheck == 0
    ensures Peek(view, id).Some? ==> id in view && Peek(view, id).value == view[id].health
  {
  }

  /** A strike is one more failure, seen at once even on a relay never checked; no other relay changes. */
  lemma PeekAfterStrike(view: map<string, Record>, id: string, threshold: int, now: nat)
    requires id != "" && now > 0
    ensures var h := Peek(Strike(view, id, threshold, now), id);
      && h.Some? && h.value.failures == (if id in view then view[id].health.failures else 0) + 1
      && h.value.successes == 0 && h.value.lastCheck == now
      && (h.value.online <==> h.value.failures < threshold)
    ensures forall j :: j != id ==> Peek(Strike(view, id, threshold, now), j) == Peek(view, j)
  {
  }

  /** RecordRemoteFailure, and then PeekHealth. */
  method StrikeThenPeek(store: RemoteStore, id: string, threshold: int, now: nat)
    returns (online: bool, h: Option<Health.RemoteHealth>)
    requires store.Valid() && id != "" && now > 0
    modifies store, store.remotes.Values
    ensures store.Valid() && fresh(store.remotes.Values - old(store.remotes.Values))
    ensures h.Some? && h.value.online == online && (online <==> h.value.failures < threshold)
    ensures h.value.failures == (if id in old(store.remotes) then old(store.remotes[id].health.failures) else 0) + 1
    ensures h.value.successes == 0 && h.value.lastCheck == now
    ensures id in store.remotes && store.remotes[id].health == h.value
  {
    PeekAfterStrike(store.View(), id, threshold, now);
    online := store.RecordRemoteFailure(id, threshold, now);
    h := store.PeekHealth(id);
    assert store.View()[id] == store.remotes[id].Value();
  }

  /** Two strikes in a row take a relay offline, whatever was known of it before. */
  method TwoStrikesTrip(store: RemoteStore, id: string, now1: nat, now2: nat) returns (h: Option<Health.RemoteHealth>)
    requires store.Valid() && id != "" && now1 > 0 && now2 > 0
    modifies store, store.remotes.Values
    ensures store.Valid() && h.Some? && !h.value.online
  {
    var online;
    online, h := StrikeThenPeek(store, id, 2, now1);
    online, h := StrikeThenPeek(store, id, 2, now2);
  }

  lemma TwoStrikesShow(view: map<string, Record>, id: string, now1: nat, now2: nat)
    requires id != "" && now1 > 0 && now2 > 0
    ensures var h := Peek(Strike(Strike(view, id, 2, now1), id, 2, now2), id);
            h.Some? && !h.value.online && h.value.failures >= 2
  {
  }

  // ---- Aggregates ----

  ghost function Requests(view: map<string, Record>): map<string, nat> {
    map id | id in view :: view[id].requests
  }

  ghost function Sent(view: map<string, Record>): map<string, nat> {
    map id | id in view :: view[id].sent
  }

  ghost function Recv(view: map<string, Record>): map<string, nat> {
    map id | id in view :: view[id].recv
  }

  ghost function Errors(view: map<string, Record>): map<string, nat> {
    map id | id in view :: view[id].errors
  }

  ghost function OnlineIds(view: map<string, Record>, ids: set<string>): set<string>
    requires ids <= view.Keys
  {
    set id | id in ids && view[id].health.online
  }

  /** The aggregate over part of the records. */
  ghost function Partial(view: map<string, Record>, ids: set<string>): AggregatedStats
    requires ids <= view.Keys
  {
    AggregatedStats(
      Sum(Requests(view), ids), Sum(Sent(view), ids), Sum(Recv(view), ids), Sum(Errors(view), ids),
      |OnlineIds(view, ids)|, |ids|, |OnlineIds(view, ids)|,
      PerRemote(view, ids))
  }

  ghost function PerRemote(view: map<string, Record>, ids: set<string>): map<string, nat>
    requires ids <= view.Keys
  {
    map id | id in ids :: view[id].requests
  }

  ghost function Aggregated(view: map<string, Record>): AggregatedStats {
    Partial(view, view.Keys)
  }

  lemma PartialNothing(view: map<string, Record>)
    ensures Partial(view, {}) == AggregatedStats(0, 0, 0, 0, 0, 0, 0, map[])
  {
    assert OnlineIds(view, {}) == {} && PerRemote(view, {}) == map[];
  }

  function Plus(p: AggregatedStats, id: string, r: Record): AggregatedStats {
    var n := if r.health.online then 1 else 0;
    AggregatedStats(p.totalRequests + r.requests, p.totalBytesSent + r.sent,
      p.totalBytesRecv + r.recv, p.totalErrors + r.errors, p.activeRemotes + n,
      p.totalRemotes + 1, p.onlineRemotes + n, p.requestsPerRemote[id := r.requests])
  }

  lemma SumsStep(view: map<string, Record>, ids: set<string>, id: string)
    requires ids <= view.Keys && id in view && id !in ids
    ensures Sum(Requests(view), ids + {id}) == Sum(Requests(view), ids) + view[id].requests
    ensures Sum(Sent(view), ids + {id}) == Sum(Sent(view), ids) + view[id].sent
    ensures Sum(Recv(view), ids + {id}) == Sum(Recv(view), ids) + view[id].recv
    ensures Sum(Errors(view), ids + {id}) == Sum(Errors(view), ids) + view[id].errors
  {
    SumAdd(Requests(view), ids, id);
    SumAdd(Sent(view), ids, id);
    SumAdd(Recv(view), ids, id);
    SumAdd(Errors(view), ids, id);
  }

  lemma OnlineStep(view: map<string, Record>, ids: set<string>, id: string)
    requires ids <= view.Keys && id in view && id !in ids
    ensures |OnlineIds(view, ids + {id})| == |OnlineIds(view, ids)| + if view[id].health.online then 1 else 0
    ensures PerRemote(view, ids + {id}) == PerRemote(view, ids)[id := view[id].requests]
  {
    assert OnlineIds(view, ids + {id}) ==
      OnlineIds(view, ids) + (if view[id].health.online then {id} else {});
  }

  lemma PartialStep(view: map<string, Record>, ids: set<string>, id: string)
    requires ids <= view.Keys && id in view && id !in ids
    ensures Partial(view, ids + {id}) == Plus(Partial(view, ids), id, view[id])
  {
    SumsStep(view, ids, id);
    OnlineStep(view, ids, id);
  }

  lemma PartialAgrees(view: map<string, Record>, view': map<string, Record>)
    requires forall id :: id in view ==> id in view' && view'[id] == view[id]
    ensures Partial(view', view.Keys) == Partial(view, view.Keys)
  {
    SumAgree(Requests(view), Requests(view'), view.Keys);
    SumAgree(Sent(view), Sent(view'), view.Keys);
    SumAgree(Recv(view), Recv(view'), view.Keys);
    SumAgree(Errors(view), Errors(view'), view.Keys);
    assert OnlineIds(view', view.Keys) == OnlineIds(view, view.Keys);
    assert PerRemote(view', view.Keys) == PerRemote(view, view.Keys);
  }

  lemma OneMore(view: map<string, Record>, id: string, r: Record)
    requires id !in view
    ensures Aggregated(view[id := r]) == Plus(Aggregated(view), id, r)
  {
    var view' := view[id := r];
    PartialAgrees(view, view');
    PartialStep(view', view.Keys, id);
    assert view'.Keys == view.Keys + {id};
  }

  /** What a scan shows for no record, and what one more record adds to it. */
  lemma ScanLaw(view: map<string, Record>, id: string, r: Record)
    requires id !in view
    ensures Aggregated(map[]) == AggregatedStats(0, 0, 0, 0, 0, 0, 0, map[])
    ensures var a, b := Aggregated(view), Aggregated(view[id := r]);
      && b.totalRequests == a.totalRequests + r.requests
      && b.totalBytesSent == a.totalBytesSent + r.sent
      && b.totalBytesRecv == a.totalBytesRecv + r.recv
      && b.totalErrors == a.totalErrors + r.errors
      && b.totalRemotes == a.totalRemotes + 1
      && b.onlineRemotes == a.onlineRemotes + (if r.health.online then 1 else 0)
      && b.activeRemotes == a.activeRemotes + (if r.health.online then 1 else 0)
      && b.requestsPerRemote == a.requestsPerRemote[id := r.requests]
  {
    PartialNothing(map[]);
    OneMore(view, id, r);
  }

  /** The per-relay requests of a scan add up to its total. */
  lemma RequestsAddUp(view: map<string, Record>)
    ensures var agg := Aggregated(view);
            && agg.requestsPerRemote.Keys == view.Keys
            && agg.totalRequests == Sum(agg.requestsPerRemote, agg.requestsPerRemote.Keys)
            && agg.activeRemotes == agg.onlineRemotes <= agg.totalRemotes == |view|
  {
    assert Aggregated(view).requestsPerRemote == Requests(view);
    SubsetSize(OnlineIds(view, view.Keys), view.Keys);
  }

  // ---- GetOrCreate under racing callers ----

  /** References are numbers; `missed` holds the callers between the two locks. */
  datatype Race = Race(remotes: map<string, nat>, created: nat, missed: map<nat, string>, got: map<nat, (string, nat)>)

  datatype RaceStep = Look(caller: nat, id: string) | Insert(caller: nat)

  function RaceNext(s: Race, a: RaceStep): Race {
    match a
    case Look(c, id) =>
      if id in s.remotes then s.(got := s.got[c := (id, s.remotes[id])])
      else s.(missed := s.missed[c := id])
    case Insert(c) =>
      if c !in s.missed then s
      else
        var id, rest := s.missed[c], s.missed - {c};
        if id in s.remotes then s.(missed := rest, got := s.got[c := (id, s.remotes[id])])
        else s.(missed := rest, remotes := s.remotes[id := s.created], created := s.created + 1,
                got := s.got[c := (id, s.created)])
  }

  function RaceRun(steps: seq<RaceStep>): Race {
    if steps == [] then Race(map[], 0, map[], map[])
    else RaceNext(RaceRun(steps[..|steps| - 1]), steps[|steps| - 1])
  }

  ghost predicate RaceInv(s: Race) {
    && (forall c :: c in s.got ==> s.got[c].0 in s.remotes && s.remotes[s.got[c].0] == s.got[c].1)
    && (forall id :: id in s.remotes ==> s.remotes[id] < s.created)
    && (forall i, j :: i in s.remotes && j in s.remotes && i != j ==> s.remotes[i] != s.remotes[j])
  }

  lemma {:induction false} RaceKeepsInv(steps: seq<RaceStep>)
    ensures RaceInv(RaceRun(steps))
  {
    if steps != [] {
      RaceKeepsInv(steps[..|steps| - 1]);
    }
  }

  /** However callers interleave, two of them got the same record iff they asked for the same id. */
  lemma OneRecordPerId(steps: seq<RaceStep>, c: nat, d: nat)
    requires c in RaceRun(steps).got && d in RaceRun(steps).got
    ensures var got := RaceRun(steps).got;
            got[c].1 == got[d].1 <==> got[c].0 == got[d].0
  {
    RaceKeepsInv(steps);
  }
}
