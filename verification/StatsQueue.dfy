/**
The update queue of internal/stats/stats.go: producers enqueue without blocking, `flush`
drains the queue into one pending update per relay and applies those to the records.
*/
module StatsQueue {
  import opened Wrappers
  import opened RelayStore
  import opened Sums
  import Health

  const QUEUE_CAPACITY := 10000
  const FLUSH_CUTOFF := 10000

  /** A statUpdate; each constructor is one value of its typ byte. */
  datatype Update =
    | Request(id: string)
    | Bytes(id: string, sent: nat, recv: nat)
    | Error(id: string)
    | EgressIP(id: string, ip: string)
    | Metadata(id: string, hostname: string, country: string, city: string)
    | SetHealth(id: string, health: Health.RemoteHealth)

  // ---- One update at a time: the specification ----

  /** An update that changes nothing, not even by creating a record. */
  predicate Idle(u: Update) {
    u.Bytes? && u.sent == 0 && u.recv == 0
  }

  function Apply(view: map<string, Record>, u: Update, now: nat): map<string, Record> {
    if Idle(u) then view
    else view[u.id := Changed(RecordOf(view, u.id, now), u, now)]
  }

  function Changed(r: Record, u: Update, now: nat): Record {
    match u
    case Request(_) => r.(requests := r.requests + 1, lastUsed := now)
    case Bytes(_, sent, recv) => r.(sent := r.sent + sent, recv := r.recv + recv)
    case Error(_) => r.(errors := r.errors + 1, lastUsed := now)
    case EgressIP(_, ip) => r.(egressIP := ip)
    case Metadata(_, h, co, ci) => r.(hostname := h, country := co, city := ci)
    case SetHealth(_, h) => r.(health := h)
  }

  /** Every update on its own, in queue order. */
  function ApplyAll(view: map<string, Record>, updates: seq<Update>, now: nat): map<string, Record> {
    if updates == [] then view
    else Apply(ApplyAll(view, updates[..|updates| - 1], now), updates[|updates| - 1], now)
  }

  // ---- What a run of updates does to one record ----

  /** The bytes that the updates report for a relay, one number per update. */
  function SentFor(updates: seq<Update>, id: string): seq<nat> {
    seq(|updates|, i requires 0 <= i < |updates| =>
      if updates[i].Bytes? && updates[i].id == id then updates[i].sent else 0)
  }

  function RecvFor(updates: seq<Update>, id: string): seq<nat> {
    seq(|updates|, i requires 0 <= i < |updates| =>
      if updates[i].Bytes? && updates[i].id == id then updates[i].recv else 0)
  }

  lemma BytesNext(before: seq<Update>, u: Update, id: string)
    ensures Total(SentFor(before + [u], id)) ==
            Total(SentFor(before, id)) + if u.Bytes? && u.id == id then u.sent else 0
    ensures Total(RecvFor(before + [u], id)) ==
            Total(RecvFor(before, id)) + if u.Bytes? && u.id == id then u.recv else 0
  {
    var n := |before|;
    assert SentFor(before + [u], id)[..n] == SentFor(before, id);
    assert RecvFor(before + [u], id)[..n] == RecvFor(before, id);
    TotalNext(SentFor(before + [u], id), n);
    TotalNext(RecvFor(before + [u], id), n);
    assert SentFor(before + [u], id)[..n + 1] == SentFor(before + [u], id);
    assert RecvFor(before + [u], id)[..n + 1] == RecvFor(before + [u], id);
  }

  lemma CountNext(before: seq<Update>, u: Update, v: Update)
    ensures multiset(before + [u])[v] == multiset(before)[v] + if u == v then 1 else 0
  {
  }

  /** Counters: one more per request and error of the relay, */
  lemma {:induction false} CountersLaw(view: map<string, Record>, updates: seq<Update>, now: nat, id: string)
    ensures var r, r' := RecordOf(view, id, now), RecordOf(ApplyAll(view, updates, now), id, now);
      && r'.requests == r.requests + multiset(updates)[Request(id)]
      && r'.errors == r.errors + multiset(updates)[Error(id)]
      && r'.createdAt == r.createdAt
  {
    if updates != [] {
      var before, u := updates[..|updates| - 1], updates[|updates| - 1];
      assert updates == before + [u];
      CountersLaw(view, before, now, id);
      CountNext(before, u, Request(id));
      CountNext(before, u, Error(id));
    }
  }

  /** and the sums of the bytes reported for it. */
  lemma {:induction false} BytesLaw(view: map<string, Record>, updates: seq<Update>, now: nat, id: string)
    ensures var r, r' := RecordOf(view, id, now), RecordOf(ApplyAll(view, updates, now), id, now);
            r'.sent == r.sent + Total(SentFor(updates, id)) && r'.recv == r.recv + Total(RecvFor(updates, id))
  {
    if updates == [] {
      assert SentFor(updates, id) == [] && RecvFor(updates, id) == [];
    } else {
      var before, u := updates[..|updates| - 1], updates[|updates| - 1];
      BytesLaw(view, before, now, id);
      BytesNext(before, u, id);
      assert updates == before + [u];
    }
  }

  /** A record appears with the first update of its relay that says something. */
  lemma {:induction false} RecordsLaw(view: map<string, Record>, updates: seq<Update>, now: nat, id: string)
    ensures id in ApplyAll(view, updates, now) <==>
            id in view || exists u :: u in updates && u.id == id && !(u.Bytes? && u.sent == 0 && u.recv == 0)
    ensures id in ApplyAll(view, updates, now) && id !in view ==> ApplyAll(view, updates, now)[id].createdAt == now
  {
    if updates != [] {
      var before, u := updates[..|updates| - 1], updates[|updates| - 1];
      assert updates == before + [u];
      RecordsLaw(view, before, now, id);
      CountersLaw(view, updates, now, id);
    }
  }

  /** The last word counts: what an update sets stays until another one of its relay sets it. */
  lemma {:induction false} LastWordLaw(view: map<string, Record>, before: seq<Update>, u: Update, after: seq<Update>, now: nat)
    ensures var r := RecordOf(ApplyAll(view, before + [u] + after, now), u.id, now);
      && (u.EgressIP? && (forall v :: v in after && v.EgressIP? ==> v.id != u.id) ==> r.egressIP == u.ip)
      && (u.SetHealth? && (forall v :: v in after && v.SetHealth? ==> v.id != u.id) ==> r.health == u.health)
      && (u.Metadata? && (forall v :: v in after && v.Metadata? ==> v.id != u.id) ==>
            r.hostname == u.hostname && r.country == u.country && r.city == u.city)
      && (u.Request? || u.Error? ==> r.lastUsed == now)
  {
    var all := before + [u] + after;
    if after == [] {
      assert all[..|before|] == before && all == before + [u];
    } else {
      var init := after[..|after| - 1];
      assert all[..|all| - 1] == before + [u] + init && all[|all| - 1] == after[|after| - 1];
      LastWordLaw(view, before, u, init, now);
    }
  }

  /** What no update of a relay sets stays as it was: its address and health, */
  lemma {:induction false} UntouchedLaw(view: map<string, Record>, updates: seq<Update>, now: nat, id: string)
    ensures var r, r' := RecordOf(view, id, now), RecordOf(ApplyAll(view, updates, now), id, now);
      && ((forall v :: v in updates && v.EgressIP? ==> v.id != id) ==> r'.egressIP == r.egressIP)
      && ((forall v :: v in updates && v.SetHealth? ==> v.id != id) ==> r'.health == r.health)
  {
    if updates != [] {
      UntouchedLaw(view, updates[..|updates| - 1], now, id);
    }
  }

  /** and its names and the time of its last use. */
  lemma {:induction false} UnnamedLaw(view: map<string, Record>, updates: seq<Update>, now: nat, id: string)
    ensures var r, r' := RecordOf(view, id, now), RecordOf(ApplyAll(view, updates, now), id, now);
      && ((forall v :: v in updates && v.Metadata? ==> v.id != id) ==>
            r'.hostname == r.hostname && r'.country == r.country && r'.city == r.city)
      && (Request(id) !in updates && Error(id) !in updates ==> r'.lastUsed == r.lastUsed)
  {
    if updates != [] {
      UnnamedLaw(view, updates[..|updates| - 1], now, id);
    }
  }

  // ---- Pending updates ----

  datatype Pending = Pending(
    requests: nat, sent: nat, recv: nat, errors: nat,
    egressIP: Option<string>,
    metadata: Option<(string, string, string)>,
    health: Option<Health.RemoteHealth>)

  const NOTHING := Pending(0, 0, 0, 0, None, None, None)

  predicate Active(p: Pending) {
    p.requests > 0 || p.sent > 0 || p.recv > 0 || p.errors > 0 ||
    p.egressIP.Some? || p.metadata.Some? || p.health.Some?
  }

  function PendingOf(pending: map<string, Pending>, id: string): Pending {
    if id in pending then pending[id] else NOTHING
  }

  function Coalesce(p: Pending, u: Update): Pending {
    match u
    case Request(_) => p.(requests := p.requests + 1)
    case Bytes(_, sent, recv) => p.(sent := p.sent + sent, recv := p.recv + recv)
    case Error(_) => p.(errors := p.errors + 1)
    case EgressIP(_, ip) => p.(egressIP := Some(ip))
    case Metadata(_, h, co, ci) => p.(metadata := Some((h, co, ci)))
    case SetHealth(_, h) => p.(health := Some(h))
  }

  function Batch(updates: seq<Update>): map<string, Pending> {
    if updates == [] then map[]
    else
      var before, u := Batch(updates[..|updates| - 1]), updates[|updates| - 1];
      before[u.id := Coalesce(PendingOf(before, u.id), u)]
  }

  function Merged(r: Record, p: Pending, now: nat): Record {
    var r1 := r.(requests := r.requests + p.requests, sent := r.sent + p.sent,
                 recv := r.recv + p.recv, errors := r.errors + p.errors,
                 lastUsed := if p.requests > 0 || p.errors > 0 then now else r.lastUsed);
    var r2 := if p.egressIP.Some? then r1.(egressIP := p.egressIP.value) else r1;
    var r3 := if p.metadata.None? then r2
              else r2.(hostname := p.metadata.value.0, country := p.metadata.value.1, city := p.metadata.value.2);
    if p.health.Some? then r3.(health := p.health.value) else r3
  }

  function Ids(updates: seq<Update>): set<string> {
    set i | 0 <= i < |updates| :: updates[i].id
  }

  /** The records after the pending updates of `ids` were applied, in any order. */
  function MergeAll(view: map<string, Record>, pending: map<string, Pending>, ids: set<string>, now: nat): map<string, Record> {
    map id | id in view.Keys + ids && (id in view || Active(PendingOf(pending, id))) ::
      if id in ids then Merged(RecordOf(view, id, now), PendingOf(pending, id), now) else view[id]
  }

  // ---- Batching equals one-by-one application ----

  lemma {:induction false} BatchKeys(updates: seq<Update>)
    ensures Batch(updates).Keys == Ids(updates)
  {
    if updates != [] {
      BatchKeys(updates[..|updates| - 1]);
      IdsLast(updates);
    }
  }

  lemma BatchNext(q: seq<Update>, i: nat)
    requires i < |q|
    ensures Batch(q[..i + 1]) == Batch(q[..i])[q[i].id := Coalesce(PendingOf(Batch(q[..i]), q[i].id), q[i])]
    ensures Batch(q[..i + 1]).Keys == Ids(q[..i + 1])
  {
    assert q[..i + 1][..i] == q[..i];
    BatchKeys(q[..i + 1]);
  }

  lemma IdsLast(updates: seq<Update>)
    requires updates != []
    ensures Ids(updates) == Ids(updates[..|updates| - 1]) + {updates[|updates| - 1].id}
  {
    forall id | id in Ids(updates)
      ensures id in Ids(updates[..|updates| - 1]) + {updates[|updates| - 1].id}
    {
      var i :| 0 <= i < |updates| && updates[i].id == id;
      assert i < |updates| - 1 ==> updates[..|updates| - 1][i].id == id;
    }
    forall id | id in Ids(updates[..|updates| - 1]) ensures id in Ids(updates) {
      var i :| 0 <= i < |updates| - 1 && updates[..|updates| - 1][i].id == id;
      assert updates[i].id == id;
    }
  }

  lemma MergeCoalesce(r: Record, p: Pending, u: Update, now: nat)
    ensures Merged(r, Coalesce(p, u), now) == Changed(Merged(r, p, now), u, now)
    ensures Active(Coalesce(p, u)) <==> Active(p) || !Idle(u)
    ensures !Active(p) ==> Merged(r, p, now) == r
  {
  }

  lemma MergeStepAt(view: map<string, Record>, p: map<string, Pending>, u: Update, now: nat, id: string)
    ensures var p' := p[u.id := Coalesce(PendingOf(p, u.id), u)];
            var m := Apply(MergeAll(view, p, p.Keys, now), u, now);
            var m' := MergeAll(view, p', p'.Keys, now);
            (id in m' <==> id in m) && (id in m' ==> m'[id] == m[id])
  {
    if id == u.id {
      MergeCoalesce(RecordOf(view, id, now), PendingOf(p, id), u, now);
    }
  }

  lemma MergeStep(view: map<string, Record>, p: map<string, Pending>, u: Update, now: nat)
    ensures var p' := p[u.id := Coalesce(PendingOf(p, u.id), u)];
            MergeAll(view, p', p'.Keys, now) == Apply(MergeAll(view, p, p.Keys, now), u, now)
  {
    forall id {
      MergeStepAt(view, p, u, now, id);
    }
  }

  /**
  The heart of flush: applying the coalesced batch gives the records that applying every
  update on its own, in queue order, gives.
  */
  lemma {:induction false} BatchingIsOneByOne(view: map<string, Record>, updates: seq<Update>, now: nat)
    ensures MergeAll(view, Batch(updates), Batch(updates).Keys, now) == ApplyAll(view, updates, now)
  {
    if updates == [] {
      assert MergeAll(view, map[], {}, now) == view;
    } else {
      var before, u := updates[..|updates| - 1], updates[|updates| - 1];
      BatchingIsOneByOne(view, before, now);
      MergeStep(view, Batch(before), u, now);
    }
  }

  // ---- flush ----

  /** The first k - 1 updates of q do not reach the cutoff. */
  ghost predicate Below(q: seq<Update>, k: nat)
    requires k <= |q| + 1
  {
    forall j :: 0 <= j < k ==> |Ids(q[..j])| <= FLUSH_CUTOFF
  }

  /** k is how many updates one flush takes from the queue q. */
  ghost predicate Takes(q: seq<Update>, k: nat) {
    && k <= |q| && Below(q, k)
    && (k == |q| || |Ids(q[..k])| > FLUSH_CUTOFF)
  }

  /** The apply branch of flush on one record: its counters, then the rest. */
  method MergeCounters(rs: RemoteStats, p: Pending, now: nat)
    modifies rs`requestCount, rs`bytesSent, rs`bytesRecv, rs`errorCount, rs`lastUsed
    ensures rs.requestCount == old(rs.requestCount) + p.requests
    ensures rs.bytesSent == old(rs.bytesSent) + p.sent && rs.bytesRecv == old(rs.bytesRecv) + p.recv
    ensures rs.errorCount == old(rs.errorCount) + p.errors
    ensures rs.lastUsed == if p.requests > 0 || p.errors > 0 then now else old(rs.lastUsed)
  {
    if p.requests > 0 {
      rs.requestCount := rs.requestCount + p.requests;
    }
    if p.sent > 0 || p.recv > 0 {
      rs.bytesSent := rs.bytesSent + p.sent;
      rs.bytesRecv := rs.bytesRecv + p.recv;
    }
    if p.errors > 0 {
      rs.errorCount := rs.errorCount + p.errors;
    }
    if p.requests > 0 || p.errors > 0 {
      rs.lastUsed := now;
    }
  }

  method MergeInto(rs: RemoteStats, p: Pending, now: nat)
    modifies rs
    ensures rs.Value() == Merged(old(rs.Value()), p, now)
  {
    MergeCounters(rs, p, now);
    if p.egressIP.Some? {
      rs.egressIP := p.egressIP.value;
    }
    if p.metadata.Some? {
      rs.hostname := p.metadata.value.0;
      rs.country := p.metadata.value.1;
      rs.city := p.metadata.value.2;
    }
    if p.health.Some? {
      rs.health := p.health.value;
    }
  }

  method MergeOwned(store: RemoteStore, rs: RemoteStats, p: Pending, now: nat)
    requires store.Owns(rs)
    modifies rs
    ensures store.Owns(rs)
    ensures store.View() == old(store.View())[rs.remoteID := Merged(old(rs.Value()), p, now)]
  {
    MergeInto(rs, p, now);
    store.OneChanged(rs);
  }

  method ApplyPending(store: RemoteStore, id: string, p: Pending, now: nat)
    requires store.Valid()
    modifies store, store.remotes.Values
    ensures store.Valid() && fresh(store.remotes.Values - old(store.remotes.Values))
    ensures store.View() == if !Active(p) then old(store.View())
                            else old(store.View())[id := Merged(RecordOf(old(store.View()), id, now), p, now)]
  {
    if Active(p) {
      var rs := store.GetOrCreate(id, now);
      assert rs.Value() == store.View()[id] == RecordOf(old(store.View()), id, now);
      assert store.remotes.Values - old(store.remotes.Values) <= {rs};
      MergeOwned(store, rs, p, now);
    }
  }

  class InMemoryStore {
    const store: RemoteStore
    var queue: seq<Update>
    var started: bool

    constructor ()
      ensures store.Valid() && store.View() == map[] && queue == [] && !started
    {
      store := new RemoteStore();
      queue, started := [], false;
    }

    /** sendNonBlocking: an update is ignored before Start and dropped when the queue is full. */
    method SendNonBlocking(u: Update) returns (accepted: bool)
      modifies this`queue
      ensures accepted <==> started && |old(queue)| < 10000
      ensures queue == if accepted then old(queue) + [u] else old(queue)
    {
      if !started {
        return false;
      }
      if |queue| < QUEUE_CAPACITY {
        queue := queue + [u];
        return true;
      }
      return false;
    }

    /** The first loop of flush. */
    method Drain() returns (pending: map<string, Pending>, ghost taken: nat)
      modifies this`queue
      ensures Takes(old(queue), taken) && queue == old(queue)[taken..]
      ensures pending == Batch(old(queue)[..taken])
      ensures taken <= |old(queue)| && (taken < |old(queue)| ==> |Ids(old(queue)[..taken])| > 10000)
    {
      pending, taken := map[], 0;
      ghost var q := queue;
      var more := true;
      while |queue| > 0
        invariant taken <= |q| && queue == q[taken..] && pending == Batch(q[..taken])
        invariant Below(q, taken + 1)
        decreases |queue|
      {
        pending, more := DrainOne(pending, q, taken);
        taken := taken + 1;
        if !more {
          break;
        }
      }
    }

    /** One turn of it: takes the update in front, and says whether the cutoff allows another. */
    method DrainOne(pending: map<string, Pending>, ghost q: seq<Update>, ghost taken: nat)
      returns (pending': map<string, Pending>, more: bool)
      requires taken < |q| && queue == q[taken..] && pending == Batch(q[..taken]) && Below(q, taken + 1)
      modifies this`queue
      ensures queue == q[taken + 1..] && pending' == Batch(q[..taken + 1])
      ensures (more <==> |Ids(q[..taken + 1])| <= FLUSH_CUTOFF) && (more ==> Below(q, taken + 2))
    {
      var u := queue[0];
      queue := queue[1..];
      BatchNext(q, taken);
      pending' := pending[u.id := Coalesce(PendingOf(pending, u.id), u)];
      more := |pending'.Keys| <= FLUSH_CUTOFF;
    }

    /** One flush; the map `pending` is visited in an arbitrary order. */
    method Flush(now: nat) returns (ghost taken: nat)
      requires store.Valid()
      modifies this`queue, store, store.remotes.Values
      ensures store.Valid()
      ensures Takes(old(queue), taken) && queue == old(queue)[taken..]
      ensures store.View() == ApplyAll(old(store.View()), old(queue)[..taken], now)
    {
      ghost var before := store.View();
      var pending;
      pending, taken := Drain();
      var todo := pending.Keys;
      ghost var done: set<string> := {};
      assert MergeAll(before, pending, done, now) == before;
      while todo != {}
        invariant store.Valid() && fresh(store.remotes.Values - old(store.remotes.Values))
        invariant queue == old(queue)[taken..]
        invariant todo <= pending.Keys && done == pending.Keys - todo
        invariant store.View() == MergeAll(before, pending, done, now)
        decreases todo
      {
        var id :| id in todo;
        ApplyPending(store, id, pending[id], now);
        MergeOne(before, pending, done, id, now);
        todo, done := todo - {id}, done + {id};
      }
      assert done == pending.Keys;
      BatchingIsOneByOne(before, old(queue)[..taken], now);
    }
  }

  lemma MergeOne(view: map<string, Record>, pending: map<string, Pending>, done: set<string>, id: string, now: nat)
    requires id in pending && id !in done
    ensures var m, p := MergeAll(view, pending, done, now), pending[id];
            MergeAll(view, pending, done + {id}, now) ==
              if !Active(p) then m else m[id := Merged(RecordOf(m, id, now), p, now)]
  {
    MergeCoalesce(RecordOf(view, id, now), pending[id], Error(id), now);
  }
}
